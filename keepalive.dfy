/**
 * The supervisor of the credential pool (BiliUser/CookieKeepAlive.py):
 * loads credentials from cookies.json, writes them back, evicts the dead
 * ones and hands out a cookie string. The file is a parameter (what
 * `json.loads` made of it, `None` when it does not exist) or a result.
 */
module KeepAlive {
  import opened Options
  import opened Text
  import opened Credential

  /** The content of cookies.json: `str(uid)` to that credential's record. */
  type Store = map<string, Record>

  /** What happens during the supervisor's 60-second sleep: the store as it will be read, and the uids whose refresh loops stop meanwhile. */
  datatype Round = Round(file: Option<Store>, died: set<int>)

  /** What `load_cookie` made of one record: skipped (uid already tracked), added, or KeyError for a missing UID or missing tokens. */
  datatype Loading = Skipped | Added(uid: int, credential: BiliCookie) | NoUid | NoTokens(uid: int, credential: BiliCookie)

  /** Every record has an int UID and all five token fields. */
  predicate WellFormed(content: Store) {
    forall k :: k in content ==> RecordUid(content[k]).Some? && RecordTokens(content[k]).Some?
  }

  /**
   * Every record has an int UID, and its tokens unless that uid is already
   * tracked: `load_cookie` reads the tokens only of records it does not skip.
   */
  predicate Loadable(content: Store, tracked: set<int>) {
    forall k :: k in content ==>
      RecordUid(content[k]).Some? && (RecordUid(content[k]).value in tracked || RecordTokens(content[k]).Some?)
  }

  /** Some record of the store carries uid `u` and tokens `t`. */
  predicate Holds(content: Store, u: int, t: Tokens) {
    exists k :: k in content && RecordUid(content[k]) == Some(u) && RecordTokens(content[k]) == Some(t)
  }

  /**
   * `store` is what `save_cookie` writes for a pool whose uids hold these
   * tokens: under `str(uid)` the record of that uid and its tokens, and no
   * other key.
   */
  predicate Written(store: Store, snapshot: map<int, Tokens>) {
    (forall u :: u in snapshot ==> IntToString(u) in store && store[IntToString(u)] == ToRecord(u, snapshot[u]))
    && (forall k :: k in store ==> exists u :: u in snapshot && k == IntToString(u))
  }

  /** What `save_cookie` writes, `load_cookie` accepts in full and reads back: every uid, each with its own tokens, and nothing else. */
  lemma WrittenLoadsBack(store: Store, snapshot: map<int, Tokens>)
    requires Written(store, snapshot)
    ensures WellFormed(store)
    ensures forall u :: u in snapshot ==> IntToString(u) in store && RecordUid(store[IntToString(u)]) == Some(u)
    ensures forall u, t :: Holds(store, u, t) <==> u in snapshot && t == snapshot[u]
  {
    forall k | k in store
      ensures RecordUid(store[k]).Some? && RecordUid(store[k]).value in snapshot
      ensures RecordTokens(store[k]) == Some(snapshot[RecordUid(store[k]).value])
    {
      var v :| v in snapshot && k == IntToString(v);
      ToRecordReadsBack(v, snapshot[v]);
    }
    forall u | u in snapshot
      ensures RecordUid(store[IntToString(u)]) == Some(u) && RecordTokens(store[IntToString(u)]) == Some(snapshot[u])
    {
      ToRecordReadsBack(u, snapshot[u]);
    }
  }

  class CookieKeepAlive {
    var cookies: map<int, BiliCookie>
    var uids: set<int>
    var closed: bool

    /** The tracked uids are exactly the keys of the pool, each credential under its own uid. */
    ghost predicate Consistent()
      reads this
    {
      (forall u :: u in uids <==> u in cookies) && forall u :: u in cookies ==> cookies[u].uid == u
    }

    /** The tokens every credential in the pool holds now. */
    ghost function Snapshot(): map<int, Tokens>
      reads this, cookies.Values
    {
      map u | u in cookies :: cookies[u].Current()
    }

    constructor ()
      ensures cookies == map[] && uids == {} && !closed
      ensures Consistent()
    {
      cookies := map[];
      uids := {};
      closed := false;
    }

    /** A new credential for `uid` holding the tokens of its record, not yet started. */
    static method Loaded(uid: int, t: Tokens) returns (c: BiliCookie)
      ensures fresh(c) && c.uid == uid && c.Current() == t
      ensures !c.started && c.isChecking && c.errorTimes == 0
    {
      c := new BiliCookie(uid);
      c.SetCookies(t);
    }

    /**
     * One pass of `load_cookie`'s loop: a record without a UID raises at
     * once; a tracked UID is skipped; otherwise a new credential is made for
     * the pool, and then either the record's tokens are missing (KeyError)
     * or the credential takes them.
     */
    static method LoadRecord(record: Record, tracked: set<int>) returns (outcome: Loading)
      ensures outcome.NoUid? <==> RecordUid(record).None?
      ensures outcome.Skipped? <==> RecordUid(record).Some? && RecordUid(record).value in tracked
      ensures outcome.Added? <==> RecordUid(record).Some? && RecordUid(record).value !in tracked && RecordTokens(record).Some?
      ensures outcome.Added? || outcome.NoTokens? ==>
                outcome.uid == RecordUid(record).value && fresh(outcome.credential)
                && outcome.credential.uid == outcome.uid && !outcome.credential.started && outcome.credential.isChecking
      ensures outcome.Added? ==> RecordTokens(record) == Some(outcome.credential.Current())
    {
      if RecordUid(record).None? {
        return NoUid;
      }
      var u := RecordUid(record).value;
      if u in tracked {
        return Skipped;
      }
      if RecordTokens(record).None? {
        var bare := new BiliCookie(u);
        return NoTokens(u, bare);
      }
      var c := Loaded(u, RecordTokens(record).value);
      return Added(u, c);
    }

    /**
     * The loop of `load_cookie` over one store's records, on the pool and
     * the tracked uids as they stand; it stops at the first record that
     * raises KeyError (`ok` false). `from` maps every uid added to the key of
     * the record it came from. When the token fields are what is missing,
     * `stray` is the credential already made for that record, which
     * `load_cookie` has put in the pool without tracking its uid.
     */
    static method LoadAll(content: Store, pool: map<int, BiliCookie>, tracked: set<int>)
      returns (pool': map<int, BiliCookie>, tracked': set<int>, from: map<int, string>, ok: bool, stray: Option<BiliCookie>)
      requires forall u :: u in pool <==> u in tracked
      requires forall u :: u in pool ==> pool[u].uid == u
      ensures forall u :: u in tracked' <==> u in tracked || u in from
      ensures forall u :: u in pool' <==> u in tracked'
      ensures forall u :: u in pool' ==> pool'[u].uid == u && (u in pool ==> pool'[u] == pool[u])
      ensures forall u :: u in from ==> u !in tracked && fresh(pool'[u]) && !pool'[u].started && pool'[u].isChecking && from[u] in content
                                        && RecordUid(content[from[u]]) == Some(u) && RecordTokens(content[from[u]]) == Some(pool'[u].Current())
      ensures ok ==> stray.None? && forall k :: k in content ==> RecordUid(content[k]).Some? && RecordUid(content[k]).value in tracked'
      ensures Loadable(content, tracked) ==> ok
      ensures !ok ==> !WellFormed(content)
      ensures stray.Some? ==> stray.value.uid !in tracked' && fresh(stray.value) && !stray.value.started
    {
      pool', tracked' := pool, tracked;
      var todo := content.Keys;
      from := map[];
      ok, stray := true, None;
      while todo != {} && ok
        invariant todo <= content.Keys
        invariant forall u :: u in tracked' <==> u in tracked || u in from
        invariant forall u :: u in pool' <==> u in tracked'
        invariant forall u :: u in pool' ==> pool'[u].uid == u && (u in pool ==> pool'[u] == pool[u])
        invariant forall u :: u in from ==> u !in tracked && fresh(pool'[u]) && !pool'[u].started && pool'[u].isChecking && from[u] in content
                                            && RecordUid(content[from[u]]) == Some(u) && RecordTokens(content[from[u]]) == Some(pool'[u].Current())
        invariant ok ==> stray.None? && forall k :: k in content && k !in todo ==> RecordUid(content[k]).Some? && RecordUid(content[k]).value in tracked'
        invariant Loadable(content, tracked) ==> ok
        invariant !ok ==> !WellFormed(content)
        invariant stray.Some? ==> stray.value.uid !in tracked' && fresh(stray.value) && !stray.value.started
        decreases |todo|
      {
        var k := Pick(todo);
        todo := todo - {k};
        var outcome := LoadRecord(content[k], tracked');
        match outcome {
          case NoUid =>
            ok := false;
          case NoTokens(_, c) =>
            ok, stray := false, Some(c);
          case Skipped =>
          case Added(u, c) =>
            pool', tracked' := pool'[u := c], tracked' + {u};
            from := from[u := k];
        }
      }
    }

    /**
     * `load_cookie`. A record whose UID is already tracked is skipped and
     * its credential left alone; every other record becomes a fresh,
     * unstarted credential holding the record's tokens; the result is the
     * uids added. A missing file reads as an empty store. `ok` is false
     * when a record lacks a field (KeyError): if the token fields are what
     * is missing, the new credential is already in the pool but its uid is
     * not tracked.
     */
    method LoadCookie(file: Option<Store>) returns (added: set<int>, ok: bool)
      requires Consistent()
      modifies this
      ensures closed == old(closed)
      ensures forall u :: u in added ==> u !in old(uids) && u in uids && u in cookies
      ensures forall u :: u in uids <==> u in old(uids) || u in added
      ensures forall u :: u in uids ==> u in cookies
      ensures forall u :: u in old(cookies) ==> u in cookies && cookies[u] == old(cookies)[u]
      ensures forall u :: u in added ==> fresh(cookies[u]) && cookies[u].uid == u && !cookies[u].started && cookies[u].isChecking
      ensures forall u :: u in added ==> file.Some? && Holds(file.value, u, cookies[u].Current())
      ensures file.None? ==> ok && added == {} && cookies == old(cookies) && uids == old(uids)
      ensures file.Some? && Loadable(file.value, old(uids)) ==> ok
      ensures ok && file.Some? ==> forall k :: k in file.value ==> RecordUid(file.value[k]).Some? && RecordUid(file.value[k]).value in uids
      ensures ok ==> Consistent() && forall u :: u in cookies ==> u in old(cookies) || u in added
      ensures !ok ==> file.Some? && !WellFormed(file.value) && (forall u :: u in cookies ==> cookies[u].uid == u)
                      && (forall u, v :: u in cookies && v in cookies && u !in uids && v !in uids ==> u == v)
      ensures file.Some? && WellFormed(file.value) ==> ok && forall k :: k in file.value ==> RecordUid(file.value[k]).value in uids
    {
      if file.None? {
        return {}, true;
      }
      var pool, tracked, from, stray;
      pool, tracked, from, ok, stray := LoadAll(file.value, cookies, uids);
      added := from.Keys;
      cookies, uids := pool, tracked;
      if stray.Some? {
        cookies := cookies[stray.value.uid := stray.value];
      }
      forall u | u in added ensures Holds(file.value, u, cookies[u].Current()) {
        assert from[u] in file.value;
      }
    }

    /** `save_cookie`: one record per credential in the pool, under `str(uid)`, holding that credential's uid and tokens, and nothing else. */
    method SaveCookie() returns (store: Store)
      requires Consistent()
      ensures forall u :: u in cookies ==> IntToString(u) in store && store[IntToString(u)] == ToRecord(u, cookies[u].Current())
      ensures forall k :: k in store ==> exists u :: u in cookies && k == IntToString(u)
      ensures Written(store, Snapshot())
    {
      store := map[];
      ghost var owner: map<string, int> := map[];
      var todo := cookies.Keys;
      while todo != {}
        invariant todo <= cookies.Keys
        invariant forall u :: u in cookies && u !in todo ==> IntToString(u) in store && store[IntToString(u)] == ToRecord(u, cookies[u].Current())
        invariant forall k :: k in store ==> k in owner && owner[k] in cookies && owner[k] !in todo && k == IntToString(owner[k])
        decreases |todo|
      {
        var u := Pick(todo);
        forall v | v in cookies && v !in todo && IntToString(v) == IntToString(u) ensures false {
          IntToStringInjective(u, v);
        }
        store := store[IntToString(u) := ToRecord(cookies[u].uid, cookies[u].Current())];
        owner := owner[IntToString(u) := u];
        todo := todo - {u};
      }
    }

    /** `clean_dead`: evicts exactly the credentials whose `is_checking` is false, from the pool and from the tracked uids. */
    method CleanDead()
      requires Consistent()
      modifies this
      ensures Consistent() && closed == old(closed)
      ensures forall u :: u in cookies ==> u in old(cookies) && cookies[u] == old(cookies)[u]
      ensures forall u :: u in old(cookies) ==> (u in cookies <==> old(cookies)[u].isChecking)
    {
      var dead: set<int> := {};
      var todo := cookies.Keys;
      while todo != {}
        invariant todo <= cookies.Keys && cookies == old(cookies) && closed == old(closed)
        invariant dead <= cookies.Keys - todo
        invariant forall u :: u in cookies && u !in todo ==> (u in dead <==> !cookies[u].isChecking)
        invariant forall u :: u in uids <==> u in old(uids) && u !in dead
        decreases |todo|
      {
        var u := Pick(todo);
        if !cookies[u].isChecking {
          dead := dead + {u};
          uids := uids - {u};
        }
        todo := todo - {u};
      }
      var gone := dead;
      while gone != {}
        invariant gone <= dead && closed == old(closed)
        invariant forall u :: u in uids <==> u in old(uids) && u !in dead
        invariant forall u :: u in cookies <==> u in old(cookies) && (u !in dead || u in gone)
        invariant forall u :: u in cookies ==> cookies[u] == old(cookies)[u]
        decreases |gone|
      {
        var u := Pick(gone);
        cookies := cookies - {u};
        gone := gone - {u};
      }
    }

    /** `random_cookie`: the cookie string of some credential in the pool; `None` (IndexError) when the pool is empty. */
    method RandomCookie() returns (r: Option<string>)
      ensures r.None? <==> cookies == map[]
      ensures r.Some? ==> exists u :: u in cookies && r.value == CookieString(cookies[u].uid, cookies[u].Current())
    {
      if cookies == map[] {
        return None;
      }
      var u := Pick(cookies.Keys);
      r := Some(CookieString(cookies[u].uid, cookies[u].Current()));
    }

    /** `status`: the number of tracked uids, which is the size of the pool. */
    function Status(): (n: nat)
      reads this
      ensures Consistent() ==> n == |cookies|
    {
      assert Consistent() ==> uids == cookies.Keys by {
        if Consistent() {
          assert forall u :: u in uids <==> u in cookies.Keys;
        }
      }
      |uids|
    }

    /** The guard of the supervising loop. */
    predicate KeepsRunning()
      reads this
    {
      |uids| != 0 && !closed
    }

    /**
     * Stops the credentials of the given uids (their own loops end), leaving
     * their tokens and threads as they are, and every other credential
     * untouched: each credential is filed under its own uid, so no two
     * uids share one.
     */
    method StopAll(which: set<int>)
      requires forall u :: u in which ==> u in cookies
      requires forall u :: u in cookies ==> cookies[u].uid == u
      modifies set u | u in which :: cookies[u]
      ensures forall u :: u in which ==> !cookies[u].isChecking
      ensures forall u :: u in cookies ==> cookies[u].Current() == old(cookies[u].Current()) && cookies[u].started == old(cookies[u].started)
      ensures forall u :: u in cookies && u !in which ==> cookies[u].isChecking == old(cookies[u].isChecking)
    {
      var todo := which;
      while todo != {}
        invariant todo <= which
        invariant forall u :: u in which && u !in todo ==> !cookies[u].isChecking
        invariant forall u :: u in cookies ==> cookies[u].Current() == old(cookies[u].Current()) && cookies[u].started == old(cookies[u].started)
        invariant forall u :: u in cookies && u !in which ==> cookies[u].isChecking == old(cookies[u].isChecking)
        decreases |todo|
      {
        var u := Pick(todo);
        cookies[u].StopUpdate();
        todo := todo - {u};
      }
    }

    /** `close`: marks the supervisor closed and stops every tracked credential, leaving their tokens as they are. */
    method Close()
      requires Consistent()
      modifies this, cookies.Values
      ensures closed && cookies == old(cookies) && uids == old(uids)
      ensures !KeepsRunning()
      ensures forall u :: u in cookies ==> !cookies[u].isChecking && cookies[u].Current() == old(cookies[u].Current())
    {
      closed := true;
      StopAll(cookies.Keys);
    }

    /** Starts the credentials of the given uids, none of which was started before. */
    method StartAll(which: set<int>)
      requires forall u :: u in which ==> u in cookies
      requires forall u :: u in which ==> !cookies[u].started
      requires forall u :: u in which ==> cookies[u].uid == u
      modifies set u | u in which :: cookies[u]
      ensures forall u :: u in which ==> cookies[u].started
      ensures forall u :: u in cookies ==> old(cookies[u].started) ==> cookies[u].started
      ensures forall u :: u in cookies ==> cookies[u].Current() == old(cookies[u].Current()) && cookies[u].isChecking == old(cookies[u].isChecking)
    {
      var todo := which;
      while todo != {}
        invariant todo <= which
        invariant forall u :: u in which && u !in todo ==> cookies[u].started
        invariant forall u :: u in todo ==> !cookies[u].started
        invariant forall u :: u in cookies ==> old(cookies[u].started) ==> cookies[u].started
        invariant forall u :: u in cookies ==> cookies[u].Current() == old(cookies[u].Current()) && cookies[u].isChecking == old(cookies[u].isChecking)
        decreases |todo|
      {
        var u := Pick(todo);
        var ok := cookies[u].Start();
        todo := todo - {u};
      }
    }

    /**
     * `load_cookie` followed by starting every credential it added, each
     * exactly once. A missing file adds nothing; a file whose records all
     * have a UID, and tokens where the uid is new, never raises.
     */
    method Reload(file: Option<Store>) returns (added: set<int>, ok: bool)
      requires Consistent() && forall u :: u in cookies ==> cookies[u].started
      modifies this
      ensures closed == old(closed)
      ensures file.None? ==> ok && added == {} && cookies == old(cookies) && uids == old(uids)
      ensures file.None? || Loadable(file.value, old(uids)) ==> ok
      ensures !ok ==> file.Some? && !WellFormed(file.value)
      ensures ok ==> Consistent() && forall u :: u in cookies ==> cookies[u].started
      ensures ok ==> forall u :: u in cookies <==> u in old(cookies) || u in added
      ensures forall u :: u in old(cookies) ==> u in cookies && cookies[u] == old(cookies)[u]
      ensures forall u :: u in added ==> u !in old(cookies) && u in cookies && fresh(cookies[u]) && cookies[u].isChecking
                                         && file.Some? && Holds(file.value, u, cookies[u].Current())
    {
      added, ok := LoadCookie(file);
      if ok {
        StartAll(added);
      }
    }

    /**
     * One turn of `run`'s loop: save, wait (the credentials in `r.died` stop
     * their own loops meanwhile), load and start what is new, evict the
     * dead. The file saved holds the pool as the round found it. A failed
     * load raises out of the loop (`ok` false). Afterwards the pool holds
     * exactly the credentials that were live and did not die, as the same
     * objects with the same tokens, and the new uids of the file.
     */
    method RunRound(r: Round) returns (store: Store, added: set<int>, ok: bool)
      requires Consistent() && forall u :: u in cookies ==> cookies[u].started
      modifies this, set u | u in cookies :: cookies[u]
      ensures closed == old(closed)
      ensures Written(store, old(Snapshot()))
      ensures r.file.None? ==> added == {}
      ensures r.file.None? || Loadable(r.file.value, old(uids)) ==> ok
      ensures !ok ==> r.file.Some? && !WellFormed(r.file.value)
      ensures ok ==> Consistent() && forall u :: u in cookies ==> cookies[u].isChecking && cookies[u].started
      ensures ok ==> forall u :: u in cookies <==> (u in old(cookies) && old(cookies[u].isChecking) && u !in r.died) || u in added
      ensures ok ==> forall u :: u in cookies && u in old(cookies) ==>
                       cookies[u] == old(cookies)[u] && cookies[u].Current() == old(cookies[u].Current())
      ensures forall u :: u in added ==> u !in old(cookies) && r.file.Some? && (ok ==> fresh(cookies[u]) && Holds(r.file.value, u, cookies[u].Current()))
    {
      store := SaveCookie();
      added, ok := AfterSave(r);
    }

    /** What a round does once the pool is saved: stop the dead, reload, evict the stopped. */
    method AfterSave(r: Round) returns (added: set<int>, ok: bool)
      requires Consistent() && forall u :: u in cookies ==> cookies[u].started
      modifies this, set u | u in cookies :: cookies[u]
      ensures closed == old(closed)
      ensures r.file.None? ==> added == {}
      ensures r.file.None? || Loadable(r.file.value, old(uids)) ==> ok
      ensures !ok ==> r.file.Some? && !WellFormed(r.file.value)
      ensures ok ==> Consistent() && forall u :: u in cookies ==> cookies[u].isChecking && cookies[u].started
      ensures ok ==> forall u :: u in cookies <==> (u in old(cookies) && old(cookies[u].isChecking) && u !in r.died) || u in added
      ensures ok ==> forall u :: u in cookies && u in old(cookies) ==>
                       cookies[u] == old(cookies)[u] && cookies[u].Current() == old(cookies[u].Current())
      ensures forall u :: u in added ==> u !in old(cookies) && r.file.Some? && (ok ==> fresh(cookies[u]) && Holds(r.file.value, u, cookies[u].Current()))
    {
      added, ok := StopThenReload(r);
      if ok {
        CleanDead();
      }
    }

    /** The first half of `AfterSave`: the dead are stopped, the file's new uids loaded and started. */
    method StopThenReload(r: Round) returns (added: set<int>, ok: bool)
      requires Consistent() && forall u :: u in cookies ==> cookies[u].started
      modifies this, set u | u in cookies :: cookies[u]
      ensures closed == old(closed)
      ensures r.file.None? ==> added == {}
      ensures r.file.None? || Loadable(r.file.value, old(uids)) ==> ok
      ensures !ok ==> r.file.Some? && !WellFormed(r.file.value)
      ensures ok ==> Consistent() && forall u :: u in cookies ==> cookies[u].started
      ensures ok ==> forall u :: u in cookies <==> u in old(cookies) || u in added
      ensures forall u :: u in old(cookies) ==>
                u in cookies && cookies[u] == old(cookies)[u] && cookies[u].Current() == old(cookies[u].Current())
                && cookies[u].isChecking == (old(cookies[u].isChecking) && u !in r.died)
      ensures forall u :: u in added ==> u !in old(cookies) && u in cookies && fresh(cookies[u]) && cookies[u].isChecking
                                         && r.file.Some? && Holds(r.file.value, u, cookies[u].Current())
    {
      StopAll(r.died * uids);
      added, ok := Reload(r.file);
    }

    /**
     * `run` on a new supervisor: load and start every credential, then
     * run rounds while some uid is tracked and the supervisor is not
     * closed. A failed load ends the thread (`ok` false); it was the load
     * of the last round run, or the first load when no round ran.
     * Otherwise the pool stays consistent, every credential in it has been
     * started, and after a round none of them is dead. Each round saved a
     * non-empty pool (`pools`, in order): no round runs once the pool is
     * empty or the supervisor is closed.
     */
    method Run(first: Option<Store>, rounds: seq<Round>) returns (saved: seq<Store>, ok: bool, ghost pools: seq<map<int, Tokens>>)
      requires cookies == map[] && uids == {} && Consistent()
      modifies this
      ensures closed == old(closed) && |saved| <= |rounds| && |pools| == |saved|
      ensures forall i :: 0 <= i < |saved| ==> pools[i] != map[] && Written(saved[i], pools[i])
      ensures |saved| > 0 ==> !closed
      ensures first.None? ==> ok && saved == [] && cookies == map[]
      ensures !ok && saved == [] ==> first.Some? && !WellFormed(first.value)
      ensures !ok && saved != [] ==> rounds[|saved| - 1].file.Some? && !WellFormed(rounds[|saved| - 1].file.value)
      ensures ok ==> Consistent() && forall u :: u in cookies ==> cookies[u].started
      ensures ok ==> !KeepsRunning() || |saved| == |rounds|
      ensures ok && |saved| > 0 ==> forall u :: u in cookies ==> cookies[u].isChecking
    {
      saved, pools := [], [];
      ok := Start(first);
      if !ok {
        return;
      }
      var i := 0;
      while KeepsRunning() && i < |rounds|
        invariant 0 <= i <= |rounds| && |saved| == i && |pools| == i && closed == old(closed)
        invariant forall j :: 0 <= j < i ==> pools[j] != map[] && Written(saved[j], pools[j])
        invariant i > 0 ==> !closed
        invariant first.None? ==> i == 0 && cookies == map[] && uids == {}
        invariant Consistent()
        invariant forall u :: u in cookies ==> fresh(cookies[u]) && cookies[u].started
        invariant i > 0 ==> forall u :: u in cookies ==> cookies[u].isChecking
        decreases |rounds| - i
      {
        var store;
        ghost var pool;
        store, ok, pool := Turn(rounds[i]);
        saved, pools := saved + [store], pools + [pool];
        if !ok {
          return;
        }
        i := i + 1;
      }
    }

    /** The start of `run` on a new supervisor: the first load, and every credential it added started. */
    method Start(first: Option<Store>) returns (ok: bool)
      requires cookies == map[] && uids == {} && Consistent()
      modifies this
      ensures closed == old(closed)
      ensures first.None? ==> ok && cookies == map[] && uids == {}
      ensures !ok ==> first.Some? && !WellFormed(first.value)
      ensures ok ==> Consistent() && forall u :: u in cookies ==> fresh(cookies[u]) && cookies[u].started
    {
      var added;
      added, ok := LoadCookie(first);
      if ok {
        StartAll(cookies.Keys);
      }
    }

    /** One round of `Run`, seen from its loop: what was saved, and the pool that stays started. */
    method Turn(r: Round) returns (store: Store, ok: bool, ghost pool: map<int, Tokens>)
      requires KeepsRunning() && Consistent() && forall u :: u in cookies ==> cookies[u].started
      modifies this, set u | u in cookies :: cookies[u]
      ensures closed == old(closed) && pool != map[] && Written(store, pool)
      ensures !ok ==> r.file.Some? && !WellFormed(r.file.value)
      ensures ok ==> Consistent() && forall u :: u in cookies ==> cookies[u].isChecking && cookies[u].started
      ensures ok ==> forall u :: u in cookies ==> (u in old(cookies) && cookies[u] == old(cookies)[u]) || fresh(cookies[u])
    {
      var u := Pick(uids);
      assert u in Snapshot();
      pool := Snapshot();
      var added;
      store, added, ok := RunRound(r);
    }
  }

  /** A new supervisor that loads what `save_cookie` wrote for `snapshot` tracks exactly its uids, each with its tokens. */
  method Restore(store: Store, ghost snapshot: map<int, Tokens>) returns (target: CookieKeepAlive)
    requires Written(store, snapshot)
    ensures target.Consistent() && forall u :: u in target.uids <==> u in snapshot
    ensures forall u :: u in target.cookies ==> target.cookies[u].Current() == snapshot[u]
  {
    WrittenLoadsBack(store, snapshot);
    target := new CookieKeepAlive();
    var added, ok := target.LoadCookie(Some(store));
    forall u | u in target.uids ensures u in snapshot && target.cookies[u].Current() == snapshot[u] {
      assert Holds(store, u, target.cookies[u].Current());
    }
    forall u | u in snapshot ensures u in target.uids {
      assert IntToString(u) in store;
    }
  }

  /** What one supervisor saves, a new one loads back: the same uids with the same tokens. */
  method SaveThenLoad(source: CookieKeepAlive) returns (target: CookieKeepAlive)
    requires source.Consistent()
    ensures target.Consistent() && forall u :: u in target.uids <==> u in source.uids
    ensures forall u :: u in target.cookies ==> target.cookies[u].Current() == source.cookies[u].Current()
  {
    var store := source.SaveCookie();
    ghost var snapshot := source.Snapshot();
    forall k | k in store ensures exists u :: u in snapshot && k == IntToString(u) {
      var u :| u in source.cookies && k == IntToString(u);
      assert u in snapshot;
    }
    target := Restore(store, snapshot);
  }
}
