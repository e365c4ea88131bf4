/** An account: a uid bound to its credential (BiliUser/BiliUser.py). */
module Account {
  import opened Credential

  class BiliUser {
    const uid: int
    const cookie: BiliCookie

    /** A new user owns a fresh credential for the same uid, with empty tokens. */
    constructor (uid: int)
      ensures this.uid == uid && fresh(cookie)
      ensures cookie.uid == uid && cookie.Current() == NoTokens
      ensures cookie.isChecking && cookie.errorTimes == 0 && !cookie.started
    {
      this.uid := uid;
      cookie := new BiliCookie(uid);
    }

    /**
     * `set_cookies`: installs the tokens, then starts the credential's thread.
     * The tokens are written even when the start fails because the thread
     * was already started (`ok` false: RuntimeError).
     */
    method SetCookies(t: Tokens) returns (ok: bool)
      modifies cookie
      ensures cookie.Current() == t && cookie.started
      ensures ok == !old(cookie.started)
      ensures cookie.isChecking == old(cookie.isChecking) && cookie.errorTimes == old(cookie.errorTimes)
    {
      cookie.SetCookies(t);
      ok := cookie.Start();
    }

    /** `stop`: clears the credential's `is_checking` and nothing else. */
    method Stop()
      modifies cookie
      ensures !cookie.isChecking
      ensures cookie.Current() == old(cookie.Current()) && cookie.errorTimes == old(cookie.errorTimes)
      ensures cookie.started == old(cookie.started)
    {
      cookie.StopUpdate();
    }
  }

  /** Calling `set_cookies` twice on one user: the second call installs its tokens and then fails. */
  method SetCookiesTwice(uid: int, first: Tokens, second: Tokens) returns (ok1: bool, ok2: bool, user: BiliUser)
    ensures ok1 && !ok2
    ensures user.uid == uid && user.cookie.Current() == second
  {
    user := new BiliUser(uid);
    ok1 := user.SetCookies(first);
    ok2 := user.SetCookies(second);
  }
}
