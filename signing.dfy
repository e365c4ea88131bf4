/**
 * The pure side of the heartbeat engine (WebHeartBeat.py): the strings the
 * three heartbeat loops send, the `_gen_s` signature fold and the device
 * hash. Digests are a parameter: a function from an algorithm, a key and a
 * message to lowercase hex, of which only the output length is assumed.
 */
module Signing {
  import opened Options
  import opened Text

  // ---------------------------------------------------------------------------
  // Payload strings

  /** `f"{interval}|{room_id}|1|0"`, the webHeartBeat payload before base64. */
  function WebPayload(interval: int, room: int): string {
    Join([IntToString(interval), IntToString(room), "1", "0"], "|")
  }

  /** Reads a webHeartBeat payload back into its interval and room. */
  function ParseWebPayload(s: string): Option<(int, int)> {
    var parts := Split(s, '|');
    if |parts| == 4 && parts[2] == "1" && parts[3] == "0"
       && ParseInt(parts[0]).Some? && ParseInt(parts[1]).Some?
    then Some((ParseInt(parts[0]).value, ParseInt(parts[1]).value))
    else None
  }

  /** `str(n)` holds neither of the separators the payloads use. */
  lemma IntTextFree(n: int)
    ensures '|' !in IntToString(n) && ',' !in IntToString(n)
  {
    var s := IntToString(n);
    forall i | 0 <= i < |s| ensures s[i] != '|' && s[i] != ',' {
    }
  }

  lemma PadNothing(parts: seq<string>)
    ensures PadAll("", parts) == parts
  {
    var r := PadAll("", parts);
    forall i | 0 <= i < |parts| ensures r[i] == parts[i] {
      assert "" + parts[i] == parts[i];
    }
  }

  /** The webHeartBeat payload loses nothing: interval and room read back. */
  lemma WebPayloadRoundTrip(interval: int, room: int)
    ensures ParseWebPayload(WebPayload(interval, room)) == Some((interval, room))
  {
    var parts := [IntToString(interval), IntToString(room), "1", "0"];
    IntTextFree(interval);
    IntTextFree(room);
    assert Free(parts, '|');
    SplitJoin(parts, '|', "");
    assert ['|'] + "" == "|";
    PadNothing(parts[1..]);
    assert [parts[0]] + parts[1..] == parts;
    IntToStringRoundTrip(interval);
    IntToStringRoundTrip(room);
  }

  /** `f"[{parent_area},{area_id},{num},{room_id}]"`, the `id` field of E and X heartbeats. */
  function Ids(parent: int, area: int, n: int, room: int): string {
    "[" + Join([IntToString(parent), IntToString(area), IntToString(n), IntToString(room)], ",") + "]"
  }

  /** Reads an `id` field back into parent area, area, sequence number and room. */
  function ParseIds(s: string): Option<(int, int, int, int)> {
    if |s| < 2 || s[0] != '[' || s[|s| - 1] != ']' then None
    else
      var parts := Split(s[1..|s| - 1], ',');
      if |parts| == 4 && ParseInt(parts[0]).Some? && ParseInt(parts[1]).Some?
         && ParseInt(parts[2]).Some? && ParseInt(parts[3]).Some?
      then Some((ParseInt(parts[0]).value, ParseInt(parts[1]).value, ParseInt(parts[2]).value, ParseInt(parts[3]).value))
      else None
  }

  lemma IdsRoundTrip(parent: int, area: int, n: int, room: int)
    ensures ParseIds(Ids(parent, area, n, room)) == Some((parent, area, n, room))
  {
    var parts := [IntToString(parent), IntToString(area), IntToString(n), IntToString(room)];
    var body := Join(parts, ",");
    var s := Ids(parent, area, n, room);
    assert s[1..|s| - 1] == body;
    IntTextFree(parent);
    IntTextFree(area);
    IntTextFree(n);
    IntTextFree(room);
    assert Free(parts, ',');
    SplitJoin(parts, ',', "");
    assert [','] + "" == ",";
    PadNothing(parts[1..]);
    assert [parts[0]] + parts[1..] == parts;
    IntToStringRoundTrip(parent);
    IntToStringRoundTrip(area);
    IntToStringRoundTrip(n);
    IntToStringRoundTrip(room);
  }

  // ---------------------------------------------------------------------------
  // `_gen_s`

  /** The digests `_gen_s` uses with HMAC. */
  datatype Alg = MD5 | SHA1 | SHA256 | SHA224 | SHA512 | SHA384

  /** Length of a digest in lowercase hex. */
  function HexLength(a: Alg): nat {
    match a
    case MD5 => 32
    case SHA1 => 40
    case SHA256 => 64
    case SHA224 => 56
    case SHA512 => 128
    case SHA384 => 96
  }

  predicate IsLowerHex(s: string) {
    forall i :: 0 <= i < |s| ==> '0' <= s[i] <= '9' || 'a' <= s[i] <= 'f'
  }

  /** `hmac.new(key, msg, digestmod).hexdigest()`, given as a function of algorithm, key and message. */
  type Hmac = (Alg, string, string) -> string

  /** What the model assumes of HMAC: lowercase hex of the digest's length. */
  ghost predicate HexDigests(hmac: Hmac) {
    forall a, key, msg :: |hmac(a, key, msg)| == HexLength(a) && IsLowerHex(hmac(a, key, msg))
  }

  /** The digest a secret rule selects; `None` for the rules `_gen_s` passes over. */
  function RuleAlg(rule: int): Option<Alg> {
    if rule == 0 then Some(MD5)
    else if rule == 1 then Some(SHA1)
    else if rule == 2 then Some(SHA256)
    else if rule == 3 then Some(SHA224)
    else if rule == 4 then Some(SHA512)
    else if rule == 5 then Some(SHA384)
    else None
  }

  /** One arm of `_gen_s`'s match: rule 0 applies HMAC-MD5 twice, rules 1 to 5 one HMAC, any other rule nothing. */
  function ApplyRule(hmac: Hmac, rule: int, key: string, data: string): string {
    match RuleAlg(rule)
    case None => data
    case Some(MD5) => hmac(MD5, key, hmac(MD5, key, data))
    case Some(a) => hmac(a, key, data)
  }

  /** `_gen_s` as a left fold of `ApplyRule` over the rules with one key. */
  function GenSpec(hmac: Hmac, data: string, rules: seq<int>, key: string): string
    decreases |rules|
  {
    if rules == [] then data else GenSpec(hmac, ApplyRule(hmac, rules[0], key, data), rules[1..], key)
  }

  /** `_gen_s`: its loop reassigns the payload once per rule. */
  method GenS(hmac: Hmac, data: string, rules: seq<int>, key: string) returns (s: string)
    ensures s == GenSpec(hmac, data, rules, key)
  {
    s := data;
    for i := 0 to |rules|
      invariant GenSpec(hmac, s, rules[i..], key) == GenSpec(hmac, data, rules, key)
    {
      assert rules[i..][1..] == rules[i + 1..];
      s := ApplyRule(hmac, rules[i], key, s);
    }
    assert rules[|rules|..] == [];
  }

  /** Signing with `r1 + r2` is signing with `r1` and then signing that with `r2`. */
  lemma {:induction false} GenSAppend(hmac: Hmac, data: string, r1: seq<int>, r2: seq<int>, key: string)
    ensures GenSpec(hmac, data, r1 + r2, key) == GenSpec(hmac, GenSpec(hmac, data, r1, key), r2, key)
    decreases |r1|
  {
    if r1 == [] {
      assert r1 + r2 == r2;
    } else {
      assert (r1 + r2)[1..] == r1[1..] + r2;
      GenSAppend(hmac, ApplyRule(hmac, r1[0], key, data), r1[1..], r2, key);
    }
  }

  /** The last rule in the list that `_gen_s` acts on, if any. */
  function LastKnown(rules: seq<int>): Option<Alg>
    decreases |rules|
  {
    if rules == [] then None
    else if RuleAlg(rules[|rules| - 1]).Some? then RuleAlg(rules[|rules| - 1])
    else LastKnown(rules[..|rules| - 1])
  }

  /**
   * With no rule it acts on, `_gen_s` returns the payload unchanged;
   * otherwise the signature is lowercase hex as long as the digest of the
   * last such rule.
   */
  lemma {:induction false} GenSShape(hmac: Hmac, data: string, rules: seq<int>, key: string)
    requires HexDigests(hmac)
    ensures LastKnown(rules).None? ==> GenSpec(hmac, data, rules, key) == data
    ensures LastKnown(rules).Some? ==> |GenSpec(hmac, data, rules, key)| == HexLength(LastKnown(rules).value)
                                       && IsLowerHex(GenSpec(hmac, data, rules, key))
    decreases |rules|
  {
    if rules != [] {
      var init, last := rules[..|rules| - 1], rules[|rules| - 1];
      assert rules == init + [last];
      GenSAppend(hmac, data, init, [last], key);
      GenSShape(hmac, data, init, key);
      var mid := GenSpec(hmac, data, init, key);
      assert GenSpec(hmac, mid, [last], key) == ApplyRule(hmac, last, key, mid);
    }
  }

  // ---------------------------------------------------------------------------
  // `_device_hash`

  /** The characters the device hash draws its random suffix from, written in pieces of twelve. */
  const Alphabet := "ABCDEFGHIJKL" + "MNOPQRSTUVWX" + "YZabcdefghij" + "klmnopqrstuv" + "wxyz01234567" + "89!@#$%^&*()" + "+-"

  predicate IsSpace(c: char) {
    c == ' ' || c == '\t' || c == '\n' || c == '\r' || c == '\U{B}' || c == '\U{C}'
  }

  /** Every character lies above the space character, so none is whitespace. */
  predicate Printable(s: string) {
    forall i :: 0 <= i < |s| ==> s[i] > ' '
  }

  lemma AlphabetPrintable()
    ensures |Alphabet| == 74 && Printable(Alphabet)
  {
    assert Printable("ABCDEFGHIJKL") && Printable("MNOPQRSTUVWX") && Printable("YZabcdefghij");
    assert Printable("klmnopqrstuv") && Printable("wxyz01234567") && Printable("89!@#$%^&*()") && Printable("+-");
  }

  /** Python's `s.split()` with no argument: the maximal runs of non-whitespace. */
  function Words(s: string): (r: seq<string>)
    ensures |s| > 0 && !IsSpace(s[0]) ==> |r| > 0
    decreases |s|
  {
    if s == [] then []
    else if IsSpace(s[0]) then Words(s[1..])
    else
      var rest := Words(s[1..]);
      if |s| > 1 && !IsSpace(s[1]) then [[s[0]] + rest[0]] + rest[1..] else [[s[0]]] + rest
  }

  /** A non-empty string without whitespace splits into one word: itself. */
  lemma {:induction false} WordsOfOneWord(s: string)
    requires |s| > 0 && Printable(s)
    ensures Words(s) == [s]
    decreases |s|
  {
    if |s| == 1 {
      assert [s[0]] == s;
    } else {
      assert s[1] == s[1..][0];
      WordsOfOneWord(s[1..]);
      assert [s[0]] + s[1..] == s;
    }
  }

  /** `"".join(random.choices(pool, k=len(picks)))`, the random draws given as indices into the pool. */
  function Choices(pool: seq<string>, picks: seq<nat>): string
    requires forall i :: 0 <= i < |picks| ==> picks[i] < |pool|
    decreases |picks|
  {
    if picks == [] then "" else pool[picks[0]] + Choices(pool, picks[1..])
  }

  /** The string `_device_hash` feeds to MD5, as written: the pool is `Alphabet.split()`. */
  function DeviceSeedAsWritten(millis: int, picks: seq<nat>): string
    requires |picks| == 5 && forall i :: 0 <= i < 5 ==> picks[i] < |Words(Alphabet)|
  {
    IntToString(millis) + Choices(Words(Alphabet), picks)
  }

  /**
   * As written, `Alphabet.split()` is the one-element list `[Alphabet]`, so
   * every draw is the whole alphabet: the seed is the clock followed by the
   * alphabet five times, whatever the random draws.
   */
  lemma DeviceSeedIgnoresDraws(millis: int, picks: seq<nat>)
    requires |picks| == 5 && forall i :: 0 <= i < 5 ==> picks[i] < |Words(Alphabet)|
    ensures |Words(Alphabet)| == 1
    ensures DeviceSeedAsWritten(millis, picks) == IntToString(millis) + Repeat(Alphabet, 5)
  {
    AlphabetPrintable();
    WordsOfOneWord(Alphabet);
    ChoicesOfOne(Alphabet, picks);
  }

  /** Drawing from a one-element pool repeats that element. */
  lemma {:induction false} ChoicesOfOne(w: string, picks: seq<nat>)
    requires forall i :: 0 <= i < |picks| ==> picks[i] < 1
    ensures Choices([w], picks) == Repeat(w, |picks|)
    decreases |picks|
  {
    if picks != [] {
      ChoicesOfOne(w, picks[1..]);
    }
  }

  /** The characters of a string as one-character strings (`list(s)`). */
  function Chars(s: string): (r: seq<string>)
    ensures |r| == |s| && forall i :: 0 <= i < |s| ==> r[i] == [s[i]]
  {
    seq(|s|, i requires 0 <= i < |s| => [s[i]])
  }

  /** The intended seed: the clock followed by five characters drawn from the alphabet. */
  function DeviceSeed(millis: int, picks: seq<nat>): (seed: string)
    requires |picks| == 5 && forall i :: 0 <= i < 5 ==> picks[i] < |Alphabet|
  {
    IntToString(millis) + Choices(Chars(Alphabet), picks)
  }

  lemma {:induction false} ChoicesOfChars(s: string, picks: seq<nat>)
    requires forall i :: 0 <= i < |picks| ==> picks[i] < |s|
    ensures Choices(Chars(s), picks) == seq(|picks|, i requires 0 <= i < |picks| => s[picks[i]])
    decreases |picks|
  {
    if picks != [] {
      ChoicesOfChars(s, picks[1..]);
    }
  }

  /** With a pool of single characters, different draws give different seeds: the random suffix now matters. */
  lemma DeviceSeedUsesDraws(millis: int, p: seq<nat>, q: seq<nat>)
    requires |p| == 5 && forall i :: 0 <= i < 5 ==> p[i] < |Alphabet|
    requires |q| == 5 && forall i :: 0 <= i < 5 ==> q[i] < |Alphabet|
    ensures DeviceSeed(millis, p) == DeviceSeed(millis, q) <==> forall i :: 0 <= i < 5 ==> Alphabet[p[i]] == Alphabet[q[i]]
  {
    ChoicesOfChars(Alphabet, p);
    ChoicesOfChars(Alphabet, q);
    var a, b := DeviceSeed(millis, p), DeviceSeed(millis, q);
    var m := |IntToString(millis)|;
    if a == b {
      forall i | 0 <= i < 5 ensures Alphabet[p[i]] == Alphabet[q[i]] {
        assert a[m + i] == b[m + i];
      }
    }
  }
}
