/**
 * One account's login cookies and the background loop that keeps them
 * valid (BiliUser/BiliCookie.py).
 *
 * Every HTTP call is replaced by the reply it gets, handed in by the caller
 * (`Reply`); the requests the credential would send are returned, so that
 * what each request carries can be stated. RSA-OAEP encryption of the
 * challenge is left abstract: only its plaintext is modelled.
 */
module Credential {
  import opened Options
  import opened Text

  /** The five token fields of a credential. */
  datatype Tokens = Tokens(sessdata: string, csrf: string, ckmd5: string, sid: string, refreshToken: string)

  const NoTokens := Tokens("", "", "", "", "")

  // ---------------------------------------------------------------------------
  // cookie_string

  /** The `name=value` pairs of `cookie_string`, in the order they are sent. */
  function CookiePairs(uid: int, t: Tokens): seq<(string, string)> {
    [("SESSDATA", t.sessdata), ("bili_jct", t.csrf), ("DedeUserID", IntToString(uid)),
     ("DedeUserID__ckMd5", t.ckmd5), ("sid", t.sid)]
  }

  function PairTexts(ps: seq<(string, string)>): (r: seq<string>)
    ensures |r| == |ps|
  {
    seq(|ps|, i requires 0 <= i < |ps| => ps[i].0 + "=" + ps[i].1)
  }

  /** `cookie_string`: the pairs written `name=value` and joined by "; ". */
  function CookieString(uid: int, t: Tokens): string {
    Join(PairTexts(CookiePairs(uid, t)), "; ")
  }

  /** How a server reads a cookie header: split at ';', drop the blank after it, split each pair at its first '='. */
  function ParseCookieString(s: string): seq<(string, string)> {
    var pieces := Split(s, ';');
    [SplitFirst(pieces[0], '=')]
      + seq(|pieces| - 1, i requires 0 <= i < |pieces| - 1 => SplitFirst(DropBlank(pieces[i + 1]), '='))
  }

  function DropBlank(s: string): string {
    if |s| > 0 && s[0] == ' ' then s[1..] else s
  }

  /** Cookie values never contain ';' (it would end the value in the header). */
  predicate CookieSafe(t: Tokens) {
    ';' !in t.sessdata && ';' !in t.csrf && ';' !in t.ckmd5 && ';' !in t.sid
  }

  /** Splitting the joined `name=value` texts gives back the pairs, when names hold no '=' or ';' and values no ';'. */
  lemma ParseJoinedPairs(ps: seq<(string, string)>)
    requires |ps| >= 1
    requires forall i :: 0 <= i < |ps| ==> '=' !in ps[i].0 && ';' !in ps[i].0 && ';' !in ps[i].1
    ensures ParseCookieString(Join(PairTexts(ps), "; ")) == ps
  {
    var texts := PairTexts(ps);
    forall i | 0 <= i < |texts| ensures ';' !in texts[i] {
      assert texts[i] == ps[i].0 + "=" + ps[i].1;
    }
    assert "; " == [';'] + " ";
    SplitJoin(texts, ';', " ");
    var pieces := Split(Join(texts, "; "), ';');
    var r := ParseCookieString(Join(texts, "; "));
    forall i | 0 <= i < |ps| ensures r[i] == ps[i] {
      SplitFirstJoin(ps[i].0, ps[i].1, '=');
      if i > 0 {
        assert pieces[i] == " " + texts[i];
        assert DropBlank(pieces[i]) == texts[i];
      }
    }
  }

  /**
   * The header a server receives gives back exactly the five pairs, in order:
   * SESSDATA, bili_jct, DedeUserID, DedeUserID__ckMd5, sid. The refresh token
   * is never among them.
   */
  lemma CookieStringRoundTrip(uid: int, t: Tokens)
    requires CookieSafe(t)
    ensures ParseCookieString(CookieString(uid, t)) == CookiePairs(uid, t)
    ensures forall p :: p in ParseCookieString(CookieString(uid, t)) ==> p.0 != "refresh_token"
  {
    var ps := CookiePairs(uid, t);
    assert ';' !in IntToString(uid);
    forall i | 0 <= i < |ps| ensures '=' !in ps[i].0 && ';' !in ps[i].0 && ';' !in ps[i].1 {
    }
    ParseJoinedPairs(ps);
  }

  // ---------------------------------------------------------------------------
  // __str__ and what load_cookie reads back

  /** A JSON value as `json.loads` returns it; only numbers and strings occur here. */
  datatype Json = JInt(i: int) | JStr(s: string)

  /** The keys `__str__` writes and `load_cookie` reads; `Name` is the key's text in the JSON. */
  datatype Key = UID | SESSDATA | BiliJct | DedeUserID | DedeUserIDCkMd5 | Sid | RefreshToken
  {
    function Name(): (s: string)
      ensures |s| > 0
    {
      match this
      case UID => "UID"
      case SESSDATA => "SESSDATA"
      case BiliJct => "bili_jct"
      case DedeUserID => "DedeUserID"
      case DedeUserIDCkMd5 => "DedeUserID__ckMd5"
      case Sid => "sid"
      case RefreshToken => "refresh_token"
    }
  }

  /** Distinct keys have distinct texts, so a record keyed by `Key` is a JSON object keyed by text. */
  lemma KeyNamesDistinct(a: Key, b: Key)
    ensures a.Name() == b.Name() <==> a == b
  {
  }

  /** A JSON object: key to value. */
  type Record = map<Key, Json>

  /** `__str__`, as the object `json.loads` makes of it. */
  function ToRecord(uid: int, t: Tokens): Record {
    map[UID := JInt(uid), SESSDATA := JStr(t.sessdata), BiliJct := JStr(t.csrf),
        DedeUserID := JInt(uid), DedeUserIDCkMd5 := JStr(t.ckmd5), Sid := JStr(t.sid),
        RefreshToken := JStr(t.refreshToken)]
  }

  /**
   * `content[uid]["UID"]` in load_cookie, when it is an int. `None` covers a
   * missing key, where Python raises KeyError, and also a UID of any other
   * JSON type, which Python would carry on with: such a record is treated
   * here as malformed.
   */
  function RecordUid(r: Record): Option<int> {
    if UID in r && r[UID].JInt? then Some(r[UID].i) else None
  }

  predicate HasText(r: Record, key: Key) {
    key in r && r[key].JStr?
  }

  /**
   * The five arguments load_cookie passes to set_cookies, when all are text.
   * `None` covers a missing key, where Python raises KeyError, and also a
   * token of any other JSON type, which Python would store as it is: such a
   * record is treated here as malformed.
   */
  function RecordTokens(r: Record): Option<Tokens> {
    if HasText(r, SESSDATA) && HasText(r, BiliJct) && HasText(r, DedeUserIDCkMd5)
       && HasText(r, Sid) && HasText(r, RefreshToken)
    then Some(Tokens(r[SESSDATA].s, r[BiliJct].s, r[DedeUserIDCkMd5].s, r[Sid].s, r[RefreshToken].s))
    else None
  }

  /**
   * What `__str__` writes has every one of the seven keys, the uid under
   * both "UID" and "DedeUserID", and `load_cookie` reads back exactly the
   * uid and the tokens it was written from.
   */
  lemma ToRecordReadsBack(uid: int, t: Tokens)
    ensures forall k: Key :: k in ToRecord(uid, t)
    ensures ToRecord(uid, t)[UID] == ToRecord(uid, t)[DedeUserID] == JInt(uid)
    ensures RecordUid(ToRecord(uid, t)) == Some(uid) && RecordTokens(ToRecord(uid, t)) == Some(t)
  {
    forall k: Key ensures k in ToRecord(uid, t) {
      match k
      case UID =>
      case SESSDATA =>
      case BiliJct =>
      case DedeUserID =>
      case DedeUserIDCkMd5 =>
      case Sid =>
      case RefreshToken =>
    }
  }

  // ---------------------------------------------------------------------------
  // The refresh protocol

  /** The plaintext `_get_correspond_path` encrypts: "refresh_" and the server's timestamp. */
  function ChallengePlaintext(ts: int): (s: string)
    ensures |s| > 8 && s[..8] == "refresh_" && ParseInt(s[8..]) == Some(ts)
  {
    IntToStringRoundTrip(ts);
    assert ("refresh_" + IntToString(ts))[8..] == IntToString(ts);
    "refresh_" + IntToString(ts)
  }

  /**
   * A server reply: `Ok` with its data, `Rejected` for a non-zero code (or,
   * for the challenge page, no token in the markup), which raises
   * CookieUpdateException, or `Broken` for any other exception
   * (connection error, malformed body). A code-0 refresh reply is taken to
   * carry the four new cookies and `data.refresh_token`: the source, given
   * one without the token, installs the cookies and sends the confirmation
   * before it raises KeyError, and that path is not part of this model.
   */
  datatype Reply<+T> = Ok(value: T) | Rejected | Broken

  datatype Expiry = Expiry(refresh: bool, timestamp: int)

  /** A successful refresh: the new cookies the response sets and the new refresh token in its body. */
  datatype Grant = Grant(sid: string, ckmd5: string, sessdata: string, csrf: string, refreshToken: string)

  /** The replies one refresh cycle would get, in the order it asks for them. */
  datatype Replies = Replies(expiry: Reply<Expiry>, page: Reply<string>, refresh: Reply<Grant>, confirm: Reply<()>)

  /** The requests the credential sends, with the cookie header and the form fields that matter. */
  datatype Request =
    | ExpiryCheck(cookie: string, csrf: string)
    | ChallengeFetch(cookie: string, plaintext: string)
    | RefreshPost(cookie: string, csrf: string, refreshCsrf: string, refreshToken: string)
    | ConfirmPost(cookie: string, csrf: string, refreshToken: string)

  /** The exception a failed step raises: CookieUpdateException or anything else. */
  datatype Failure = UpdateError | OtherError

  function FailureOf<T>(r: Reply<T>): Failure {
    if r.Rejected? then UpdateError else OtherError
  }

  /** What a step of the protocol leaves behind: the tokens, the requests sent and the exception raised, if any. */
  datatype Step = Step(tokens: Tokens, sent: seq<Request>, failure: Option<Failure>)

  /** The four cookies of a grant installed, the refresh token kept. */
  function WithGrantCookies(t: Tokens, g: Grant): Tokens {
    t.(sid := g.sid, ckmd5 := g.ckmd5, sessdata := g.sessdata, csrf := g.csrf)
  }

  /**
   * `_refresh_cookie` followed by `_confirm_refresh`. A rejected refresh
   * changes nothing; an accepted one installs the new cookies first, so the
   * confirmation carries the NEW csrf and the OLD refresh token, and the
   * refresh token is replaced only once the confirmation succeeds.
   */
  function RefreshCookieSpec(uid: int, t: Tokens, refreshCsrf: string, refresh: Reply<Grant>, confirm: Reply<()>): (s: Step)
    ensures |s.sent| >= 1 && s.sent[0] == RefreshPost(CookieString(uid, t), t.csrf, refreshCsrf, t.refreshToken)
    ensures !refresh.Ok? ==> s.tokens == t && |s.sent| == 1 && s.failure == Some(FailureOf(refresh))
    ensures refresh.Ok? ==>
      var g := refresh.value;
      && |s.sent| == 2
      && s.sent[1] == ConfirmPost(CookieString(uid, WithGrantCookies(t, g)), g.csrf, t.refreshToken)
      && (s.sent[1].refreshToken == t.refreshToken && s.sent[1].csrf == g.csrf)
      && s.tokens == WithGrantCookies(t, g).(refreshToken := if confirm.Ok? then g.refreshToken else t.refreshToken)
      && s.failure == if confirm.Ok? then None else Some(FailureOf(confirm))
  {
    var ask := RefreshPost(CookieString(uid, t), t.csrf, refreshCsrf, t.refreshToken);
    if !refresh.Ok? then Step(t, [ask], Some(FailureOf(refresh)))
    else
      var g := refresh.value;
      var cookies := WithGrantCookies(t, g);
      var confirmation := ConfirmPost(CookieString(uid, cookies), cookies.csrf, cookies.refreshToken);
      if confirm.Ok? then Step(cookies.(refreshToken := g.refreshToken), [ask, confirmation], None)
      else Step(cookies, [ask, confirmation], Some(FailureOf(confirm)))
  }

  /** `_refresh(ts)`: fetch the challenge page for "refresh_<ts>", then refresh and confirm. */
  function RefreshSpec(uid: int, t: Tokens, ts: int, r: Replies): (s: Step)
    ensures |s.sent| >= 1 && s.sent[0] == ChallengeFetch(CookieString(uid, t), ChallengePlaintext(ts))
    ensures s.failure.None? <==> r.page.Ok? && r.refresh.Ok? && r.confirm.Ok?
    ensures s.failure.None? ==> s.tokens == Tokens(r.refresh.value.sessdata, r.refresh.value.csrf,
                                                   r.refresh.value.ckmd5, r.refresh.value.sid,
                                                   r.refresh.value.refreshToken)
    ensures !r.page.Ok? || !r.refresh.Ok? ==> s.tokens == t
  {
    var fetch := ChallengeFetch(CookieString(uid, t), ChallengePlaintext(ts));
    if !r.page.Ok? then Step(t, [fetch], Some(FailureOf(r.page)))
    else
      var rest := RefreshCookieSpec(uid, t, r.page.value, r.refresh, r.confirm);
      rest.(sent := [fetch] + rest.sent)
  }

  /** Whether a refresh cycle with these replies raises. */
  predicate CycleFails(r: Replies) {
    !r.expiry.Ok? || (r.expiry.value.refresh && !(r.page.Ok? && r.refresh.Ok? && r.confirm.Ok?))
  }

  /**
   * `_update`: ask whether the cookies need refreshing and refresh them if so.
   * When the server says no, nothing else is sent and nothing changes; a
   * non-zero code raises before anything changes.
   */
  function UpdateSpec(uid: int, t: Tokens, r: Replies): (s: Step)
    ensures |s.sent| >= 1 && s.sent[0] == ExpiryCheck(CookieString(uid, t), t.csrf)
    ensures s.failure.Some? <==> CycleFails(r)
    ensures !r.expiry.Ok? ==> s == Step(t, s.sent, Some(FailureOf(r.expiry))) && |s.sent| == 1
    ensures r.expiry.Ok? && !r.expiry.value.refresh ==> s.tokens == t && |s.sent| == 1 && s.failure.None?
  {
    var check := ExpiryCheck(CookieString(uid, t), t.csrf);
    if !r.expiry.Ok? then Step(t, [check], Some(FailureOf(r.expiry)))
    else if !r.expiry.value.refresh then Step(t, [check], None)
    else
      var rest := RefreshSpec(uid, t, r.expiry.value.timestamp, r);
      rest.(sent := [check] + rest.sent)
  }

  /** The forced refresh `run` performs before its loop: the server's refresh flag is ignored. */
  function BootstrapSpec(uid: int, t: Tokens, r: Replies): (s: Step)
    ensures |s.sent| >= 1 && s.sent[0] == ExpiryCheck(CookieString(uid, t), t.csrf)
    ensures r.expiry.Ok? ==> |s.sent| >= 2 && s.sent[1] == ChallengeFetch(CookieString(uid, t), ChallengePlaintext(r.expiry.value.timestamp))
    ensures s.failure.None? <==> r.expiry.Ok? && r.page.Ok? && r.refresh.Ok? && r.confirm.Ok?
  {
    var check := ExpiryCheck(CookieString(uid, t), t.csrf);
    if !r.expiry.Ok? then Step(t, [check], Some(FailureOf(r.expiry)))
    else
      var rest := RefreshSpec(uid, t, r.expiry.value.timestamp, r);
      rest.(sent := [check] + rest.sent)
  }

  // ---------------------------------------------------------------------------
  // run

  datatype RunState = RunState(tokens: Tokens, isChecking: bool, errorTimes: int)

  /**
   * How `run` ends: rejected for an empty cookie, failed in the forced
   * refresh, left the loop because `is_checking` was cleared, gave up after
   * too many failures, or still looping when the replies given run out.
   */
  datatype RunEnd = EmptyCookie | BootstrapFailed(failure: Failure) | Stopped | GaveUp | StillRunning

  /** What happens between two checks of the loop guard: a refresh cycle, or another thread calling `stop_update`. */
  datatype Tick = Cycle(replies: Replies) | StopRequested

  datatype RunResult = RunResult(state: RunState, sent: seq<Request>, end: RunEnd)

  /** One iteration's effect once the guard has passed: a refresh cycle and its error count, or the stop. */
  function TickSpec(uid: int, s: RunState, tick: Tick): (RunState, seq<Request>) {
    match tick
    case StopRequested => (s.(isChecking := false), [])
    case Cycle(r) =>
      var step := UpdateSpec(uid, s.tokens, r);
      (RunState(step.tokens, s.isChecking, if step.failure.Some? then s.errorTimes + 1 else 0), step.sent)
  }

  /** The `while self.is_checking` loop of `run`, one tick per iteration. */
  function LoopSpec(uid: int, s: RunState, ticks: seq<Tick>): (res: RunResult)
    ensures res.end == Stopped || res.end == GaveUp || res.end == StillRunning
    ensures res.end == StillRunning <==> res.state.isChecking
    decreases |ticks|
  {
    if !s.isChecking then RunResult(s, [], Stopped)
    else if s.errorTimes > 10 then RunResult(s.(isChecking := false), [], GaveUp)
    else if ticks == [] then RunResult(s, [], StillRunning)
    else
      var step := TickSpec(uid, s, ticks[0]);
      var rest := LoopSpec(uid, step.0, ticks[1..]);
      RunResult(rest.state, step.1 + rest.sent, rest.end)
  }

  /**
   * `run`: reject an empty SESSDATA, bili_jct or refresh token before any
   * request; then one forced refresh, whose CookieUpdateException stops the
   * credential and is re-raised (any other exception propagates and leaves
   * `is_checking` as it was); then the loop.
   */
  function RunSpec(uid: int, s: RunState, boot: Replies, ticks: seq<Tick>): (res: RunResult)
    ensures res.end == EmptyCookie <==> s.tokens.sessdata == "" || s.tokens.csrf == "" || s.tokens.refreshToken == ""
    ensures res.end == EmptyCookie ==> res.sent == [] && !res.state.isChecking && res.state.tokens == s.tokens
    ensures res.end == BootstrapFailed(UpdateError) ==> !res.state.isChecking
    ensures res.end == BootstrapFailed(OtherError) ==> res.state.isChecking == s.isChecking
  {
    if s.tokens.sessdata == "" || s.tokens.csrf == "" || s.tokens.refreshToken == "" then
      RunResult(s.(isChecking := false), [], EmptyCookie)
    else
      var boot := BootstrapSpec(uid, s.tokens, boot);
      var after := s.(tokens := boot.tokens);
      match boot.failure
      case Some(UpdateError) => RunResult(after.(isChecking := false), boot.sent, BootstrapFailed(UpdateError))
      case Some(OtherError) => RunResult(after, boot.sent, BootstrapFailed(OtherError))
      case None =>
        var loop := LoopSpec(uid, after, ticks);
        RunResult(loop.state, boot.sent + loop.sent, loop.end)
  }

  /** Failing refresh cycles at the front of the ticks. */
  function LeadingFailures(ticks: seq<Tick>): nat
    decreases |ticks|
  {
    if ticks != [] && ticks[0].Cycle? && CycleFails(ticks[0].replies) then 1 + LeadingFailures(ticks[1..]) else 0
  }

  /** Somewhere in the ticks, more than ten refresh cycles in a row fail. */
  predicate FailureRun(ticks: seq<Tick>)
    decreases |ticks|
  {
    LeadingFailures(ticks) > 10 || (ticks != [] && FailureRun(ticks[1..]))
  }

  predicate NoStops(ticks: seq<Tick>) {
    forall i :: 0 <= i < |ticks| ==> ticks[i].Cycle?
  }

  /**
   * Without outside interference the loop gives up exactly when the failures
   * already counted plus those that follow exceed ten, or eleven cycles in a
   * row fail later on; a success in between resets the count. Otherwise it
   * is still running.
   */
  lemma {:induction false} GivesUpIffElevenFailures(uid: int, s: RunState, ticks: seq<Tick>)
    requires s.isChecking && 0 <= s.errorTimes <= 10 && NoStops(ticks)
    ensures LoopSpec(uid, s, ticks).end == GaveUp <==> s.errorTimes + LeadingFailures(ticks) > 10 || FailureRun(ticks)
    ensures LoopSpec(uid, s, ticks).end != GaveUp ==> LoopSpec(uid, s, ticks).end == StillRunning
    decreases |ticks|
  {
    if ticks != [] {
      var r := ticks[0].replies;
      var step := UpdateSpec(uid, s.tokens, r);
      assert NoStops(ticks[1..]) by {
        forall i | 0 <= i < |ticks[1..]| ensures ticks[1..][i].Cycle? {
          assert ticks[1..][i] == ticks[i + 1];
        }
      }
      if CycleFails(r) {
        var next := RunState(step.tokens, true, s.errorTimes + 1);
        assert TickSpec(uid, s, ticks[0]).0 == next;
        if s.errorTimes + 1 <= 10 {
          GivesUpIffElevenFailures(uid, next, ticks[1..]);
        }
      } else {
        var next := RunState(step.tokens, true, 0);
        assert TickSpec(uid, s, ticks[0]).0 == next;
        GivesUpIffElevenFailures(uid, next, ticks[1..]);
      }
    }
  }

  /** After a fresh credential's forced refresh succeeds, `run` gives up exactly when eleven refresh cycles in a row fail. */
  lemma FreshCredentialGivesUp(uid: int, t: Tokens, boot: Replies, ticks: seq<Tick>)
    requires t.sessdata != "" && t.csrf != "" && t.refreshToken != ""
    requires BootstrapSpec(uid, t, boot).failure.None? && NoStops(ticks)
    ensures RunSpec(uid, RunState(t, true, 0), boot, ticks).end == GaveUp <==> FailureRun(ticks)
    ensures RunSpec(uid, RunState(t, true, 0), boot, ticks).end == GaveUp
            ==> !RunSpec(uid, RunState(t, true, 0), boot, ticks).state.isChecking
  {
    GivesUpIffElevenFailures(uid, RunState(BootstrapSpec(uid, t, boot).tokens, true, 0), ticks);
  }

  // ---------------------------------------------------------------------------
  // The credential object

  class BiliCookie {
    const uid: int
    var isChecking: bool
    var ckmd5: string
    var sessdata: string
    var csrf: string
    var sid: string
    var refreshToken: string
    var errorTimes: int
    /** Whether `Thread.start()` has been called; a thread can be started only once. */
    var started: bool

    function Current(): Tokens
      reads this
    {
      Tokens(sessdata, csrf, ckmd5, sid, refreshToken)
    }

    function State(): RunState
      reads this
    {
      RunState(Current(), isChecking, errorTimes)
    }

    /** A fresh credential: all tokens empty, checking, no errors, not started. */
    constructor (uid: int)
      ensures this.uid == uid && Current() == NoTokens
      ensures isChecking && errorTimes == 0 && !started
    {
      this.uid := uid;
      isChecking := true;
      ckmd5, sessdata, csrf, sid, refreshToken := "", "", "", "", "";
      errorTimes := 0;
      started := false;
    }

    /** `set_cookies`: overwrites the five tokens and nothing else. */
    method SetCookies(t: Tokens)
      modifies this
      ensures Current() == t
      ensures isChecking == old(isChecking) && errorTimes == old(errorTimes) && started == old(started)
    {
      ckmd5 := t.ckmd5;
      sessdata, csrf, sid, refreshToken := t.sessdata, t.csrf, t.sid, t.refreshToken;
    }

    method StopUpdate()
      modifies this`isChecking
      ensures !isChecking
    {
      isChecking := false;
    }

    /** `Thread.start()`: false (RuntimeError) when the thread was started before. */
    method Start() returns (ok: bool)
      modifies this`started
      ensures ok == !old(started) && started
    {
      ok := !started;
      started := true;
    }

    /** `_confirm_refresh`: sent with whatever cookies and refresh token the credential holds now. */
    method ConfirmRefresh(reply: Reply<()>) returns (sent: Request, failure: Option<Failure>)
      ensures sent == ConfirmPost(CookieString(uid, Current()), csrf, refreshToken)
      ensures failure.None? <==> reply.Ok?
      ensures failure.Some? ==> failure.value == FailureOf(reply)
    {
      sent := ConfirmPost(CookieString(uid, Current()), csrf, refreshToken);
      failure := if reply.Ok? then None else Some(FailureOf(reply));
    }

    /** `_refresh_cookie`: the response cookies are installed before confirming, the refresh token after. */
    method RefreshCookie(refreshCsrf: string, refresh: Reply<Grant>, confirm: Reply<()>) returns (sent: seq<Request>, failure: Option<Failure>)
      modifies this
      ensures Step(Current(), sent, failure) == RefreshCookieSpec(uid, old(Current()), refreshCsrf, refresh, confirm)
      ensures isChecking == old(isChecking) && errorTimes == old(errorTimes) && started == old(started)
    {
      sent := [RefreshPost(CookieString(uid, Current()), csrf, refreshCsrf, refreshToken)];
      if !refresh.Ok? {
        failure := Some(FailureOf(refresh));
        return;
      }
      var g := refresh.value;
      sid := g.sid;
      ckmd5 := g.ckmd5;
      sessdata := g.sessdata;
      csrf := g.csrf;
      var confirmation;
      confirmation, failure := ConfirmRefresh(confirm);
      sent := sent + [confirmation];
      if failure.Some? {
        return;
      }
      refreshToken := g.refreshToken;
    }

    /** `_refresh(ts)`. */
    method Refresh(ts: int, r: Replies) returns (sent: seq<Request>, failure: Option<Failure>)
      modifies this
      ensures Step(Current(), sent, failure) == RefreshSpec(uid, old(Current()), ts, r)
      ensures isChecking == old(isChecking) && errorTimes == old(errorTimes) && started == old(started)
    {
      sent := [ChallengeFetch(CookieString(uid, Current()), ChallengePlaintext(ts))];
      if !r.page.Ok? {
        failure := Some(FailureOf(r.page));
        return;
      }
      var more;
      more, failure := RefreshCookie(r.page.value, r.refresh, r.confirm);
      sent := sent + more;
    }

    /** `_update`. */
    method Update(r: Replies) returns (sent: seq<Request>, failure: Option<Failure>)
      modifies this
      ensures Step(Current(), sent, failure) == UpdateSpec(uid, old(Current()), r)
      ensures isChecking == old(isChecking) && errorTimes == old(errorTimes) && started == old(started)
    {
      sent := [ExpiryCheck(CookieString(uid, Current()), csrf)];
      if !r.expiry.Ok? {
        failure := Some(FailureOf(r.expiry));
        return;
      }
      if !r.expiry.value.refresh {
        failure := None;
        return;
      }
      var more;
      more, failure := Refresh(r.expiry.value.timestamp, r);
      sent := sent + more;
    }

    /** The forced refresh at the start of `run` (its `try` block), before the CookieUpdateException handler. */
    method Bootstrap(boot: Replies) returns (sent: seq<Request>, failure: Option<Failure>)
      modifies this
      ensures Step(Current(), sent, failure) == BootstrapSpec(uid, old(Current()), boot)
      ensures isChecking == old(isChecking) && errorTimes == old(errorTimes) && started == old(started)
    {
      sent := [ExpiryCheck(CookieString(uid, Current()), csrf)];
      if !boot.expiry.Ok? {
        failure := Some(FailureOf(boot.expiry));
        return;
      }
      var more;
      more, failure := Refresh(boot.expiry.value.timestamp, boot);
      sent := sent + more;
    }

    /** The body of `run`'s loop after the error check: one refresh cycle, or a stop from another thread. */
    method Tick(tick: Tick) returns (sent: seq<Request>)
      modifies this
      ensures (State(), sent) == TickSpec(uid, old(State()), tick)
      ensures started == old(started)
    {
      match tick {
        case StopRequested =>
          StopUpdate();
          sent := [];
        case Cycle(r) =>
          ghost var step := UpdateSpec(uid, Current(), r);
          var failure;
          sent, failure := Update(r);
          assert Current() == step.tokens && sent == step.sent && failure == step.failure;
          errorTimes := if failure.Some? then errorTimes + 1 else 0;
      }
    }

    /** The `while self.is_checking` loop of `run`. */
    method RefreshLoop(ticks: seq<Tick>) returns (sent: seq<Request>, end: RunEnd)
      modifies this
      ensures RunResult(State(), sent, end) == LoopSpec(uid, old(State()), ticks)
      ensures started == old(started)
    {
      ghost var whole := LoopSpec(uid, State(), ticks);
      sent := [];
      end := Stopped;
      var i := 0;
      while isChecking && errorTimes <= 10 && i < |ticks|
        invariant 0 <= i <= |ticks|
        invariant var rest := LoopSpec(uid, State(), ticks[i..]);
          rest.state == whole.state && rest.end == whole.end && whole.sent == sent + rest.sent
        invariant started == old(started)
        decreases |ticks| - i
      {
        assert ticks[i..][1..] == ticks[i + 1..];
        var more := Tick(ticks[i]);
        sent := sent + more;
        i := i + 1;
      }
      if !isChecking {
        end := Stopped;
      } else if errorTimes > 10 {
        StopUpdate();
        end := GaveUp;
      } else {
        end := StillRunning;
      }
    }

    /** `run`: the empty-cookie guard, the forced refresh, then the error-counting loop. */
    method Run(boot: Replies, ticks: seq<Tick>) returns (sent: seq<Request>, end: RunEnd)
      modifies this
      ensures RunResult(State(), sent, end) == RunSpec(uid, old(State()), boot, ticks)
      ensures started == old(started)
    {
      if sessdata == "" || csrf == "" || refreshToken == "" {
        StopUpdate();
        return [], EmptyCookie;
      }
      var failure;
      sent, failure := Bootstrap(boot);
      if failure.Some? {
        if failure.value == UpdateError {
          StopUpdate();
        }
        return sent, BootstrapFailed(failure.value);
      }
      var more;
      more, end := RefreshLoop(ticks);
      sent := sent + more;
    }
  }
}
