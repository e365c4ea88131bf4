/**
 * The danmaku sender's room bookkeeping (SendDanmaku.py): the uids it
 * serves, the set of rooms each one is in, one poll step of `open`, and
 * the rewiring of the heartbeat engine's `on_del_room` to its `close`.
 */
module Danmaku {
  import opened Credential
  import opened Heartbeat

  /** The polled rooms not in `have`, in polled order and with repeats kept (`filter` in `open`). */
  function Differences(polled: seq<int>, have: set<int>): seq<int>
    decreases |polled|
  {
    if polled == [] then []
    else if polled[0] in have then Differences(polled[1..], have)
    else [polled[0]] + Differences(polled[1..], have)
  }

  /** A room is kept exactly when it was polled and is not held, and the order of the poll is kept. */
  lemma {:induction false} DifferencesMembers(polled: seq<int>, have: set<int>)
    ensures forall x :: x in Differences(polled, have) <==> x in polled && x !in have
    ensures |Differences(polled, have)| <= |polled|
    ensures Differences(polled, have) == [] <==> forall x :: x in polled ==> x in have
    decreases |polled|
  {
    if polled != [] {
      DifferencesMembers(polled[1..], have);
      assert forall x :: x in polled <==> x == polled[0] || x in polled[1..];
    }
  }

  /** Every room the polls listed, poll after poll. */
  function Flatten(polls: seq<seq<int>>): (r: seq<int>)
    ensures forall k, x :: 0 <= k < |polls| && x in polls[k] ==> x in r
    ensures forall x :: x in r ==> exists k :: 0 <= k < |polls| && x in polls[k]
    decreases |polls|
  {
    if polls == [] then [] else Flatten(polls[..|polls| - 1]) + polls[|polls| - 1]
  }

  /**
   * What polls may do to the engine, from one state to a later one: active
   * rooms stay active, only polled rooms join `closed`, tasks are only
   * appended, each for the uid and a polled room, and at most the uid's
   * counter is reset.
   */
  /** The loop of `open` that adds each new room to the uid's set, one `add` at a time. */
  method AddEach(held: set<int>, rooms: seq<int>) returns (r: set<int>)
    ensures forall x :: x in r <==> x in held || x in rooms
  {
    r := held;
    for i := 0 to |rooms|
      invariant forall x :: x in r <==> x in held || x in rooms[..i]
    {
      assert rooms[..i + 1] == rooms[..i] + [rooms[i]];
      r := r + {rooms[i]};
    }
    assert rooms[..|rooms|] == rooms;
  }

  ghost predicate EngineGrows(closed: map<int, bool>, tasks: seq<Task>, num: map<int, int>,
                              closed': map<int, bool>, tasks': seq<Task>, num': map<int, int>, uid: int, polled: seq<int>)
  {
    && (forall r :: r in closed ==> r in closed')
    && (forall r :: Active(closed, r) ==> Active(closed', r))
    && (forall r :: r in closed' ==> r in closed || r in polled)
    && |tasks| <= |tasks'| && tasks'[..|tasks|] == tasks
    && (forall t :: t in tasks'[|tasks|..] ==> t.uid == uid && t.room in polled)
    && (num' == num || num' == num[uid := 0])
  }

  /** Two stretches of polls in a row grow the engine as their rooms together do. */
  lemma EngineGrowsTrans(c0: map<int, bool>, t0: seq<Task>, n0: map<int, int>,
                         c1: map<int, bool>, t1: seq<Task>, n1: map<int, int>,
                         c2: map<int, bool>, t2: seq<Task>, n2: map<int, int>, uid: int, p1: seq<int>, p2: seq<int>)
    requires EngineGrows(c0, t0, n0, c1, t1, n1, uid, p1) && EngineGrows(c1, t1, n1, c2, t2, n2, uid, p2)
    ensures EngineGrows(c0, t0, n0, c2, t2, n2, uid, p1 + p2)
  {
    assert t2[..|t0|] == t1[..|t0|];
    assert t2[|t0|..] == t1[|t0|..] + t2[|t1|..];
  }

  /** What polls do to the room sets: the same uids have sets, only the uid's set changes, and it gains exactly the polled rooms. */
  ghost predicate RoomsGrow(rooms: map<int, set<int>>, rooms': map<int, set<int>>, uid: int, polled: seq<int>)
  {
    && (forall u :: u in rooms' <==> u in rooms)
    && (forall u :: u in rooms' && u != uid ==> rooms'[u] == rooms[u])
    && (uid in rooms ==> forall r :: r in rooms'[uid] <==> r in rooms[uid] || r in polled)
  }

  /** Two stretches of polls in a row grow the room sets as their rooms together do. */
  lemma RoomsGrowTrans(r0: map<int, set<int>>, r1: map<int, set<int>>, r2: map<int, set<int>>, uid: int, p1: seq<int>, p2: seq<int>)
    requires RoomsGrow(r0, r1, uid, p1) && RoomsGrow(r1, r2, uid, p2)
    ensures RoomsGrow(r0, r2, uid, p1 + p2)
  {
  }

  class DanmakuSender {
    var uids: set<int>
    var rooms: map<int, set<int>>
    const heartbeat: WebHeartBeat

    /** Every served uid has a room set and no other uid has one; the engine's `on_del_room` is wired to `close`. */
    ghost predicate Valid()
      reads this, heartbeat
    {
      (forall u :: u in uids <==> u in rooms) && heartbeat.wrapped && heartbeat.Valid()
    }

    /**
     * `__init__`: every uid given is served with no room; the engine starts
     * with no user, its `on_del_room` wired to `close`.
     */
    constructor (args: seq<int>)
      ensures Valid() && fresh(heartbeat)
      ensures forall u :: u in uids <==> u in args
      ensures forall u :: u in rooms ==> rooms[u] == {}
      ensures forall u :: u !in heartbeat.users
      ensures heartbeat.closed == map[] && heartbeat.num == map[] && heartbeat.tasks == []
    {
      uids := set u | u in args;
      rooms := map u | u in args :: {};
      heartbeat := new WebHeartBeat([]);
      new;
      heartbeat.wrapped := true;
    }

    /**
     * `add_user`: serves the uids, gives each a new engine user and an
     * empty room set, dropping the rooms it had.
     */
    method AddUser(us: seq<int>)
      requires Valid()
      modifies this, heartbeat
      ensures Valid()
      ensures forall u :: u in uids <==> u in old(uids) || u in us
      ensures forall u :: u in us ==> rooms[u] == {}
      ensures forall u :: u in old(rooms) && u !in us ==> rooms[u] == old(rooms[u])
      ensures forall u :: u in heartbeat.users <==> u in old(heartbeat.users) || u in us
      ensures forall u :: u in old(heartbeat.users) && u !in us ==> heartbeat.users[u] == old(heartbeat.users[u])
      ensures forall u :: u in us ==> fresh(heartbeat.users[u]) && heartbeat.users[u].cookie.Current() == NoTokens
      ensures heartbeat.closed == old(heartbeat.closed) && heartbeat.num == old(heartbeat.num) && heartbeat.tasks == old(heartbeat.tasks)
    {
      uids := uids + set u | u in us;
      heartbeat.AddUser(us);
      var sets := rooms;
      for i := 0 to |us|
        invariant forall u :: u in sets <==> u in old(rooms) || u in us[..i]
        invariant forall u :: u in us[..i] ==> sets[u] == {}
        invariant forall u :: u in old(rooms) && u !in us[..i] ==> sets[u] == old(rooms[u])
      {
        assert us[..i + 1] == us[..i] + [us[i]];
        sets := sets[us[i] := {}];
      }
      assert us[..|us|] == us;
      rooms := sets;
    }

    /**
     * `set_cookies`: ValueError unless the uid is served; otherwise the
     * engine's `set_cookies_by_uid`, which raises ValueError itself for a
     * uid given only to the constructor.
     */
    method SetCookies(uid: int, t: Tokens) returns (r: Outcome)
      modifies if uid in heartbeat.users then {heartbeat.users[uid].cookie} else {}
      ensures uid !in uids ==> r == ValueError
      ensures uid in uids ==> (r == ValueError <==> uid !in heartbeat.users)
      ensures uid in uids && uid in heartbeat.users ==>
                heartbeat.users[uid].cookie.Current() == t && heartbeat.users[uid].cookie.started
                && (r == Done <==> !old(heartbeat.users[uid].cookie.started))
                && heartbeat.users[uid].cookie.isChecking == old(heartbeat.users[uid].cookie.isChecking)
                && heartbeat.users[uid].cookie.errorTimes == old(heartbeat.users[uid].cookie.errorTimes)
    {
      if uid !in uids {
        return ValueError;
      }
      r := heartbeat.SetCookiesByUid(uid, t);
    }

    /**
     * `close`: nothing for an unserved uid; otherwise every listed room is
     * dropped from the uid's set, absent ones ignored, other sets untouched.
     */
    method Close(uid: int, rs: seq<int>)
      requires Valid()
      modifies this
      ensures Valid() && uids == old(uids)
      ensures forall u :: u in rooms <==> u in old(rooms)
      ensures forall u :: u in rooms && u != uid ==> rooms[u] == old(rooms[u])
      ensures uid !in uids ==> rooms == old(rooms)
      ensures uid in uids ==> forall r :: r in rooms[uid] <==> r in old(rooms[uid]) && r !in rs
    {
      if uid !in uids {
        return;
      }
      var held := rooms[uid];
      for i := 0 to |rs|
        invariant forall r :: r in held <==> r in old(rooms[uid]) && r !in rs[..i]
      {
        assert rs[..i + 1] == rs[..i] + [rs[i]];
        if rs[i] !in held {
          continue;
        }
        held := held - {rs[i]};
      }
      assert rs[..|rs|] == rs;
      rooms := rooms[uid := held];
    }

    /**
     * One poll step of `open`: the polled rooms the uid does not hold go to
     * the engine's `add_heartbeat` (KeyError, `ok` false, for a uid the
     * engine does not know) and then into the uid's room set.
     */
    method PollStep(uid: int, polled: seq<int>) returns (ok: bool)
      requires Valid() && uid in uids
      modifies this, heartbeat
      ensures Valid() && uids == old(uids) && heartbeat.users == old(heartbeat.users)
      ensures ok <==> uid in heartbeat.users
      ensures !ok ==> rooms == old(rooms) && heartbeat.closed == old(heartbeat.closed) && heartbeat.tasks == old(heartbeat.tasks)
                      && heartbeat.num == old(heartbeat.num)
      ensures ok ==> RoomsGrow(old(rooms), rooms, uid, polled)
      ensures ok ==> var a := AddSpec(old(heartbeat.closed), Differences(polled, old(rooms[uid])));
                     heartbeat.closed == a.closed && heartbeat.tasks == old(heartbeat.tasks) + TasksFor(uid, a.started)
                     && heartbeat.num == if a.started == [] then old(heartbeat.num) else old(heartbeat.num)[uid := 0]
      ensures EngineGrows(old(heartbeat.closed), old(heartbeat.tasks), old(heartbeat.num),
                          heartbeat.closed, heartbeat.tasks, heartbeat.num, uid, polled)
    {
      var differences := Differences(polled, rooms[uid]);
      ok := heartbeat.AddHeartbeat(uid, differences);
      if !ok {
        return;
      }
      DifferencesMembers(polled, rooms[uid]);
      AddSpecEffect(old(heartbeat.closed), differences);
      TasksForMembers(uid, AddSpec(old(heartbeat.closed), differences).started);
      assert heartbeat.tasks[|old(heartbeat.tasks)|..] == TasksFor(uid, AddSpec(old(heartbeat.closed), differences).started);
      var held := AddEach(rooms[uid], differences);
      rooms := rooms[uid := held];
    }

    /**
     * `open` over a finite script of polls: nothing for an unserved uid;
     * otherwise one poll step per poll, until `add_heartbeat` raises
     * KeyError because the engine does not know the uid. Afterwards the uid
     * still holds its rooms and holds every room any poll listed.
     */
    method Open(uid: int, polls: seq<seq<int>>) returns (ok: bool)
      requires Valid()
      modifies this, heartbeat
      ensures Valid() && uids == old(uids) && heartbeat.users == old(heartbeat.users)
      ensures uid !in uids ==> ok && rooms == old(rooms) && heartbeat.closed == old(heartbeat.closed) && heartbeat.tasks == old(heartbeat.tasks)
      ensures ok <==> uid !in uids || polls == [] || uid in heartbeat.users
      ensures ok && uid in uids ==> (forall r :: r in old(rooms[uid]) ==> r in rooms[uid])
                                    && forall k, r :: 0 <= k < |polls| && r in polls[k] ==> r in rooms[uid]
      ensures ok && uid in uids ==> forall r :: r in rooms[uid] <==> r in old(rooms[uid]) || r in Flatten(polls)
      ensures !ok ==> rooms == old(rooms) && heartbeat.closed == old(heartbeat.closed) && heartbeat.tasks == old(heartbeat.tasks)
                      && heartbeat.num == old(heartbeat.num)
      ensures forall u :: u in rooms <==> u in old(rooms)
      ensures forall u :: u in rooms && u != uid ==> rooms[u] == old(rooms[u])
      ensures heartbeat.num == old(heartbeat.num) || heartbeat.num == old(heartbeat.num)[uid := 0]
      ensures forall r :: Active(old(heartbeat.closed), r) ==> Active(heartbeat.closed, r)
      ensures forall r :: r in heartbeat.closed ==> r in old(heartbeat.closed) || r in Flatten(polls)
      ensures |old(heartbeat.tasks)| <= |heartbeat.tasks| && heartbeat.tasks[..|old(heartbeat.tasks)|] == old(heartbeat.tasks)
      ensures forall t :: t in heartbeat.tasks[|old(heartbeat.tasks)|..] ==> t.uid == uid && t.room in Flatten(polls)
    {
      if uid !in uids {
        return true;
      }
      ok := true;
      var k := 0;
      while k < |polls| && ok
        invariant 0 <= k <= |polls|
        invariant Valid() && uids == old(uids) && heartbeat.users == old(heartbeat.users) && uid in rooms
        invariant ok <==> k == 0 || uid in heartbeat.users
        invariant k == 0 || !ok ==> rooms == old(rooms) && heartbeat.closed == old(heartbeat.closed) && heartbeat.tasks == old(heartbeat.tasks)
                                    && heartbeat.num == old(heartbeat.num)
        invariant ok ==> RoomsGrow(old(rooms), rooms, uid, Flatten(polls[..k]))
        invariant EngineGrows(old(heartbeat.closed), old(heartbeat.tasks), old(heartbeat.num),
                              heartbeat.closed, heartbeat.tasks, heartbeat.num, uid, Flatten(polls[..k]))
      {
        ghost var (c, t, n, held) := (heartbeat.closed, heartbeat.tasks, heartbeat.num, rooms);
        assert Flatten(polls[..k + 1]) == Flatten(polls[..k]) + polls[k] by {
          assert polls[..k + 1][..k] == polls[..k];
        }
        ok := PollStep(uid, polls[k]);
        EngineGrowsTrans(old(heartbeat.closed), old(heartbeat.tasks), old(heartbeat.num), c, t, n,
                         heartbeat.closed, heartbeat.tasks, heartbeat.num, uid, Flatten(polls[..k]), polls[k]);
        if ok {
          RoomsGrowTrans(old(rooms), held, rooms, uid, Flatten(polls[..k]), polls[k]);
        }
        k := k + 1;
      }
      assert forall x :: x in Flatten(polls[..k]) ==> x in Flatten(polls);
      assert ok ==> polls[..k] == polls;
    }

    /**
     * A heartbeat loop's failure once wired: the engine marks uid and room
     * closed and forwards both to `close`, which drops the room from the
     * uid's set.
     */
    method HeartbeatFailed(uid: int, room: int)
      requires Valid()
      modifies this, heartbeat
      ensures Valid() && uids == old(uids) && heartbeat.users == old(heartbeat.users) && heartbeat.tasks == old(heartbeat.tasks)
      ensures heartbeat.num == old(heartbeat.num)
      ensures heartbeat.closed == old(heartbeat.closed)[uid := true][room := true]
      ensures forall u :: u in rooms <==> u in old(rooms)
      ensures forall u :: u in rooms && u != uid ==> rooms[u] == old(rooms[u])
      ensures uid in uids ==> forall r :: r in rooms[uid] <==> r in old(rooms[uid]) && r != room
    {
      var r := heartbeat.Report(uid, room);
      Close(r.args[0], r.args[1..]);
    }
  }

  /**
   * A failed heartbeat is restarted by the next poll that lists its room:
   * the room is no longer held, so it is among the differences, and it is
   * closed, so `add_heartbeat` submits its loops again.
   */
  method FailThenPoll(sender: DanmakuSender, uid: int, room: int, polled: seq<int>) returns (ok: bool)
    requires sender.Valid() && uid in sender.uids && uid in sender.heartbeat.users && room in polled
    modifies sender, sender.heartbeat
    ensures ok && sender.Valid() && uid in sender.rooms && room in sender.rooms[uid]
    ensures |old(sender.heartbeat.tasks)| <= |sender.heartbeat.tasks|
            && WebTask(uid, room) in sender.heartbeat.tasks[|old(sender.heartbeat.tasks)|..]
  {
    sender.HeartbeatFailed(uid, room);
    ghost var have := sender.rooms[uid];
    ghost var closed := sender.heartbeat.closed;
    ghost var before := sender.heartbeat.tasks;
    ok := sender.PollStep(uid, polled);
    ghost var differences := Differences(polled, have);
    DifferencesMembers(polled, have);
    AddSpecEffect(closed, differences);
    ghost var a := AddSpec(closed, differences);
    ghost var k :| 0 <= k < |a.started| && a.started[k] == room;
    TasksForIndex(uid, a.started);
    assert sender.heartbeat.tasks[|before|..] == TasksFor(uid, a.started);
    assert sender.heartbeat.tasks[|before|..][3 * k] == WebTask(uid, room);
  }

  /**
   * The constructor gives the engine no user, so `set_cookies` for a uid
   * given only to the constructor raises ValueError: such a uid must go
   * through `add_user` first.
   */
  method InitialUidNeedsAddUser(uid: int, t: Tokens) returns (r: Outcome)
    ensures r == ValueError
  {
    var sender := new DanmakuSender([uid]);
    r := sender.SetCookies(uid, t);
  }
}
