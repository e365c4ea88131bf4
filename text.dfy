/** The optional value every other module uses for a lookup that may miss. */
module Options {
  datatype Option<+T> = None | Some(value: T)

  /** Some element of a non-empty set, in no particular order (Python's iteration over a dict or set). */
  method Pick<T>(s: set<T>) returns (x: T)
    requires s != {}
    ensures x in s
  {
    x :| x in s;
  }
}

/**
 * The few string operations the Python code leans on: `str()` of an int,
 * `sep.join(parts)` and `s.split(c)`, each with the inverse that shows the
 * rendering loses nothing.
 */
module Text {
  import opened Options

  predicate IsDigit(c: char) {
    '0' <= c <= '9'
  }

  predicate AllDigits(s: string) {
    forall i :: 0 <= i < |s| ==> IsDigit(s[i])
  }

  function DigitChar(d: nat): (c: char)
    requires d < 10
    ensures IsDigit(c) && c as int - '0' as int == d
  {
    ('0' as int + d) as char
  }

  /** Python's `str(n)` for a non-negative int: decimal digits, most significant first. */
  function NatToString(n: nat): (s: string)
    ensures |s| >= 1 && AllDigits(s)
    decreases n
  {
    if n < 10 then [DigitChar(n)] else NatToString(n / 10) + [DigitChar(n % 10)]
  }

  function ParseNat(s: string): nat
    requires AllDigits(s)
    decreases |s|
  {
    if s == [] then 0 else 10 * ParseNat(s[..|s| - 1]) + (s[|s| - 1] as int - '0' as int)
  }

  lemma {:induction false} ParseNatToString(n: nat)
    ensures ParseNat(NatToString(n)) == n
    decreases n
  {
    if n >= 10 {
      var s := NatToString(n);
      assert s[..|s| - 1] == NatToString(n / 10);
      ParseNatToString(n / 10);
    }
  }

  /** Python's `str(n)` for any int: a minus sign before the digits of a negative number. */
  function IntToString(n: int): (s: string)
    ensures |s| >= 1
    ensures forall i :: 0 <= i < |s| ==> IsDigit(s[i]) || (i == 0 && s[i] == '-')
  {
    if n < 0 then "-" + NatToString(-n) else NatToString(n)
  }

  /** Reads back what `IntToString` writes; anything else is `None`. */
  function ParseInt(s: string): Option<int> {
    if |s| >= 2 && s[0] == '-' && AllDigits(s[1..]) then var v: int := ParseNat(s[1..]); Some(-v)
    else if |s| >= 1 && AllDigits(s) then Some(ParseNat(s))
    else None
  }

  lemma IntToStringRoundTrip(n: int)
    ensures ParseInt(IntToString(n)) == Some(n)
  {
    if n < 0 {
      assert IntToString(n)[1..] == NatToString(-n);
      ParseNatToString(-n);
    } else {
      ParseNatToString(n);
    }
  }

  /** Distinct ints render as distinct strings, so `str(uid)` can key a dictionary. */
  lemma IntToStringInjective(a: int, b: int)
    requires IntToString(a) == IntToString(b)
    ensures a == b
  {
    IntToStringRoundTrip(a);
    IntToStringRoundTrip(b);
  }

  /** Python's `sep.join(parts)`. */
  function Join(parts: seq<string>, sep: string): string
    decreases |parts|
  {
    if |parts| == 0 then ""
    else if |parts| == 1 then parts[0]
    else parts[0] + sep + Join(parts[1..], sep)
  }

  /** Python's `s.split(c)` for a one-character separator: always at least one piece. */
  function Split(s: string, c: char): (r: seq<string>)
    ensures |r| >= 1
    decreases |s|
  {
    if |s| == 0 then [""]
    else
      var rest := Split(s[1..], c);
      if s[0] == c then [""] + rest else [[s[0]] + rest[0]] + rest[1..]
  }

  /** Every part preceded by `pad`. */
  function PadAll(pad: string, parts: seq<string>): (r: seq<string>)
    ensures |r| == |parts|
    ensures forall i :: 0 <= i < |parts| ==> r[i] == pad + parts[i]
    decreases |parts|
  {
    if parts == [] then [] else [pad + parts[0]] + PadAll(pad, parts[1..])
  }

  predicate Free(parts: seq<string>, c: char) {
    forall i :: 0 <= i < |parts| ==> c !in parts[i]
  }

  lemma {:induction false} SplitFreePrefix(p: string, t: string, c: char)
    requires c !in p
    ensures Split(p + t, c) == [p + Split(t, c)[0]] + Split(t, c)[1..]
    decreases |p|
  {
    var st := Split(t, c);
    if p == [] {
      assert p + t == t;
      assert p + st[0] == st[0];
      assert st == [st[0]] + st[1..];
    } else {
      assert (p + t)[0] == p[0];
      assert (p + t)[1..] == p[1..] + t;
      SplitFreePrefix(p[1..], t, c);
      assert [p[0]] + (p[1..] + Split(t, c)[0]) == p + Split(t, c)[0];
    }
  }

  /** A separator that is not inside any part splits the joined string back into the parts. */
  lemma {:induction false} SplitJoin(parts: seq<string>, c: char, pad: string)
    requires |parts| >= 1 && Free(parts, c) && c !in pad
    ensures Split(Join(parts, [c] + pad), c) == [parts[0]] + PadAll(pad, parts[1..])
    decreases |parts|
  {
    var sep := [c] + pad;
    if |parts| == 1 {
      SplitFreePrefix(parts[0], "", c);
      assert parts[0] + "" == parts[0];
    } else {
      var tail := Join(parts[1..], sep);
      assert Join(parts, sep) == parts[0] + ([c] + (pad + tail));
      SplitFreePrefix(parts[0], [c] + (pad + tail), c);
      assert ([c] + (pad + tail))[1..] == pad + tail;
      SplitFreePrefix(pad, tail, c);
      SplitJoin(parts[1..], c, pad);
      assert parts[1..][1..] == parts[2..];
      assert parts[0] + "" == parts[0];
    }
  }

  /** The text before the first `c` and the text after it (all of `s` and "" when there is none). */
  function SplitFirst(s: string, c: char): (string, string)
    decreases |s|
  {
    if s == [] then ("", "")
    else if s[0] == c then ("", s[1..])
    else var r := SplitFirst(s[1..], c); ([s[0]] + r.0, r.1)
  }

  lemma {:induction false} SplitFirstJoin(k: string, v: string, c: char)
    requires c !in k
    ensures SplitFirst(k + [c] + v, c) == (k, v)
    decreases |k|
  {
    if k != [] {
      assert (k + [c] + v)[0] == k[0];
      assert (k + [c] + v)[1..] == k[1..] + [c] + v;
      assert k[0] in k;
      SplitFirstJoin(k[1..], v, c);
      assert [k[0]] + k[1..] == k;
    } else {
      assert k + [c] + v == [c] + v;
    }
  }

  /** `n` copies of `s` back to back (Python's `s * n`). */
  function Repeat(s: string, n: nat): (r: string)
    ensures |r| == n * |s|
  {
    if n == 0 then "" else s + Repeat(s, n - 1)
  }
}
