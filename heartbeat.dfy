/**
 * The heartbeat engine (WebHeartBeat.py): the users it holds, the
 * `closed[room]` flags and per-account `num[uid]` counters, the three
 * loops `add_heartbeat` hands to its thread pool, and `on_del_room`. Each
 * loop runs against a script of server replies; the thread pool is the
 * list of tasks submitted to it.
 */
module Heartbeat {
  import opened Options
  import opened Credential
  import opened Account
  import opened Signing

  /** The loops `add_heartbeat` submits for one room: webHeartBeat, X heartbeat, heartBeat. */
  datatype Task = WebTask(uid: int, room: int) | XTask(uid: int, room: int) | FeedTask(uid: int, room: int)

  /** The tasks submitted for these rooms, three per room in submission order. */
  function TasksFor(uid: int, rooms: seq<int>): seq<Task>
    decreases |rooms|
  {
    if rooms == [] then []
    else [WebTask(uid, rooms[0]), XTask(uid, rooms[0]), FeedTask(uid, rooms[0])] + TasksFor(uid, rooms[1..])
  }

  /** Exactly three loops per room, web, X and feed, in the rooms' order. */
  lemma {:induction false} TasksForIndex(uid: int, rooms: seq<int>)
    ensures |TasksFor(uid, rooms)| == 3 * |rooms|
    ensures forall i :: 0 <= i < |rooms| ==>
              TasksFor(uid, rooms)[3 * i] == WebTask(uid, rooms[i]) && TasksFor(uid, rooms)[3 * i + 1] == XTask(uid, rooms[i])
              && TasksFor(uid, rooms)[3 * i + 2] == FeedTask(uid, rooms[i])
    decreases |rooms|
  {
    if rooms != [] {
      TasksForIndex(uid, rooms[1..]);
      var ts := TasksFor(uid, rooms);
      var rest := TasksFor(uid, rooms[1..]);
      forall i | 0 < i < |rooms|
        ensures ts[3 * i] == WebTask(uid, rooms[i]) && ts[3 * i + 1] == XTask(uid, rooms[i]) && ts[3 * i + 2] == FeedTask(uid, rooms[i])
      {
        assert rooms[i] == rooms[1..][i - 1];
        assert ts[3 * i] == rest[3 * (i - 1)];
        assert ts[3 * i + 1] == rest[3 * (i - 1) + 1];
        assert ts[3 * i + 2] == rest[3 * (i - 1) + 2];
      }
    }
  }

  lemma {:induction false} TasksForAppend(uid: int, rooms: seq<int>, room: int)
    ensures TasksFor(uid, rooms + [room]) == TasksFor(uid, rooms) + [WebTask(uid, room), XTask(uid, room), FeedTask(uid, room)]
    decreases |rooms|
  {
    if rooms == [] {
      assert rooms + [room] == [room];
    } else {
      assert (rooms + [room])[1..] == rooms[1..] + [room];
      TasksForAppend(uid, rooms[1..], room);
    }
  }

  /** Every task submitted for these rooms belongs to the uid and to one of the rooms. */
  lemma {:induction false} TasksForMembers(uid: int, rooms: seq<int>)
    ensures forall t :: t in TasksFor(uid, rooms) ==> t.uid == uid && t.room in rooms
    decreases |rooms|
  {
    if rooms != [] {
      TasksForMembers(uid, rooms[1..]);
    }
  }

  /** How many uids at the head of the list are known: `del_user` stops those and raises KeyError at the next one. */
  function KnownPrefix(uids: seq<int>, known: set<int>): (p: nat)
    ensures p <= |uids|
    ensures forall i :: 0 <= i < p ==> uids[i] in known
    ensures p < |uids| ==> uids[p] !in known
    decreases |uids|
  {
    if uids == [] || uids[0] !in known then 0 else 1 + KnownPrefix(uids[1..], known)
  }

  /** A room whose loops are running: listed in `closed` with the value false. */
  predicate Active(closed: map<int, bool>, room: int) {
    room in closed && !closed[room]
  }

  /** What `add_heartbeat`'s loop does to `closed`, and the rooms it starts, in order. */
  datatype Adding = Adding(started: seq<int>, closed: map<int, bool>)

  function AddSpec(closed: map<int, bool>, rooms: seq<int>): Adding
    decreases |rooms|
  {
    if rooms == [] then Adding([], closed)
    else if Active(closed, rooms[0]) then AddSpec(closed, rooms[1..])
    else
      var rest := AddSpec(closed[rooms[0] := false], rooms[1..]);
      Adding([rooms[0]] + rest.started, rest.closed)
  }

  /**
   * After `add_heartbeat` every listed room is active and every active room
   * stays active; a room is started exactly when it is listed and was not
   * active, and no room is started twice, even when listed twice. Rooms not
   * listed keep their flag.
   */
  lemma {:induction false} AddSpecEffect(closed: map<int, bool>, rooms: seq<int>)
    ensures var r := AddSpec(closed, rooms);
      (forall k :: k in rooms ==> Active(r.closed, k))
      && (forall k :: Active(closed, k) ==> Active(r.closed, k))
      && (forall k :: k in r.closed <==> k in closed || k in rooms)
      && (forall k :: k in closed && k !in rooms ==> r.closed[k] == closed[k])
      && (forall k :: k in r.started <==> k in rooms && !Active(closed, k))
      && (forall i, j :: 0 <= i < j < |r.started| ==> r.started[i] != r.started[j])
    decreases |rooms|
  {
    if rooms != [] {
      var x := rooms[0];
      if Active(closed, x) {
        AddSpecEffect(closed, rooms[1..]);
      } else {
        AddSpecEffect(closed[x := false], rooms[1..]);
        var rest := AddSpec(closed[x := false], rooms[1..]);
        assert x !in rest.started;
      }
    }
  }

  /** Rooms that are all active already start nothing and change nothing. */
  lemma {:induction false} AddSpecAllActive(closed: map<int, bool>, rooms: seq<int>)
    requires forall k :: k in rooms ==> Active(closed, k)
    ensures AddSpec(closed, rooms) == Adding([], closed)
    decreases |rooms|
  {
    if rooms != [] {
      assert rooms[0] in rooms;
      AddSpecAllActive(closed, rooms[1..]);
    }
  }

  /** `add_heartbeat` is idempotent: the same rooms a second time start no loop and leave `closed` alone. */
  lemma AddSpecIdempotent(closed: map<int, bool>, rooms: seq<int>)
    ensures var once := AddSpec(closed, rooms).closed; AddSpec(once, rooms) == Adding([], once)
  {
    AddSpecEffect(closed, rooms);
    AddSpecAllActive(AddSpec(closed, rooms).closed, rooms);
  }

  /** Who `on_del_room` calls back: nobody, the uid the loops pass (an int, which cannot be called), or a danmaku sender's `close`. */
  datatype Callback = NoCallback | IntCallback(n: int) | SenderClose

  /** How `on_del_room` ended: returned, raised TypeError calling an int, or passed its arguments to the sender's `close`. */
  datatype DelRoom = Returned | TypeError | Forwarded(args: seq<int>)

  /** `closed` after the loops' `self.on_del_room(user.uid, room_id)`; once wrapped, the uid is marked closed as well. */
  function Reported(closed: map<int, bool>, wrapped: bool, uid: int, room: int): map<int, bool> {
    if wrapped then closed[uid := true][room := true] else closed[room := true]
  }

  /** How a heartbeat loop ended: its guard turned false, it raised, or its script of replies ran out while it still ran. */
  datatype LoopEnd = Ended | Died | Unfinished

  /** How `set_cookies_by_uid` ended: done, ValueError (unknown uid) or RuntimeError (credential loop already started). */
  datatype Outcome = Done | ValueError | RuntimeError

  /** What webHeartBeat sends for a script of replies (`Some(next_interval)` or a failure): payloads up to and including the first failure. */
  function WebSpec(interval: int, room: int, replies: seq<Option<int>>): (r: (seq<string>, bool))
    ensures |r.0| <= |replies|
    decreases |replies|
  {
    if replies == [] then ([], false)
    else if replies[0].None? then ([WebPayload(interval, room)], true)
    else
      var rest := WebSpec(replies[0].value, room, replies[1..]);
      ([WebPayload(interval, room)] + rest.0, rest.1)
  }

  /**
   * The first payload carries the starting interval and each later one the
   * `next_interval` of the reply before it; the loop fails exactly when
   * some reply in the part it used failed, and then on its last payload.
   */
  lemma {:induction false} WebSpecIntervals(interval: int, room: int, replies: seq<Option<int>>)
    ensures var r := WebSpec(interval, room, replies);
      (|r.0| > 0 ==> r.0[0] == WebPayload(interval, room))
      && (forall k :: 0 <= k < |r.0| - 1 ==> replies[k].Some? && r.0[k + 1] == WebPayload(replies[k].value, room))
      && (r.1 <==> |r.0| > 0 && replies[|r.0| - 1].None?)
      && (!r.1 ==> |r.0| == |replies| && forall k :: 0 <= k < |replies| ==> replies[k].Some?)
    decreases |replies|
  {
    if replies != [] && replies[0].Some? {
      WebSpecIntervals(replies[0].value, room, replies[1..]);
      var r := WebSpec(interval, room, replies);
      var rest := WebSpec(replies[0].value, room, replies[1..]);
      forall k | 0 <= k < |r.0| - 1 ensures replies[k].Some? && r.0[k + 1] == WebPayload(replies[k].value, room) {
        assert r.0[k + 1] == rest.0[k];
        if k > 0 {
          assert replies[k] == replies[1..][k - 1];
        }
      }
      if rest.1 {
        assert replies[|r.0| - 1] == replies[1..][|rest.0| - 1];
      }
      if !rest.1 {
        forall k | 0 < k < |replies| ensures replies[k].Some? {
          assert replies[k] == replies[1..][k - 1];
        }
      }
    }
  }

  /** The heartBeat loop for a script of replies (true: success): the requests sent, and whether one failed. */
  function FeedSpec(replies: seq<bool>): (r: (nat, bool))
    ensures r.0 <= |replies|
    ensures r.1 <==> r.0 > 0 && !replies[r.0 - 1]
    ensures forall k :: 0 <= k < r.0 - 1 ==> replies[k]
    ensures !r.1 ==> r.0 == |replies|
    decreases |replies|
  {
    if replies == [] then (0, false)
    else if !replies[0] then (1, true)
    else var rest := FeedSpec(replies[1..]); (rest.0 + 1, rest.1)
  }

  /** What `get_info` returns for a room. */
  datatype RoomInfo = RoomInfo(ruid: int, area: int, parent: int)

  /** What the E heartbeat and each successful X heartbeat return: the next interval and signing secret. */
  datatype Secret = Secret(interval: int, key: string, rules: seq<int>)

  /** One X-heartbeat turn: the room info fetched, the JSON payload to sign (it holds the clock), and the reply. */
  datatype XTick = XTick(info: Option<RoomInfo>, payload: string, reply: Option<Secret>)

  /** An X heartbeat request, with the fields that vary: `id`, `s`, `benchmark` and the `seq_id` inside the signed payload. */
  datatype XBeat = XBeat(ids: string, s: string, benchmark: string, seqId: int)

  /** How the X loop's turns ran out: the counter exceeded 15, a `get_info` raised, a post failed, or the script ended. */
  datatype XEnd = OverCount | InfoRaised | PostFailed | Exhausted

  datatype XRun = XRun(sent: seq<XBeat>, n: int, end: XEnd)

  /** The X heartbeat sent at counter `n` with the secret in hand, for a turn whose `get_info` succeeded. */
  function Signed(room: int, hmac: Hmac, n: int, secret: Secret, tick: XTick): XBeat
    requires tick.info.Some?
  {
    XBeat(Ids(tick.info.value.parent, tick.info.value.area, n, room), GenSpec(hmac, tick.payload, secret.rules, secret.key), secret.key, n)
  }

  /** The X loop on an open room, from counter `n` and the secret in hand. */
  function XSpec(room: int, hmac: Hmac, n: int, secret: Secret, ticks: seq<XTick>): (r: XRun)
    ensures |r.sent| <= |ticks|
    decreases |ticks|
  {
    if n > 15 then XRun([], n, OverCount)
    else if ticks == [] then XRun([], n, Exhausted)
    else if ticks[0].info.None? then XRun([], n, InfoRaised)
    else if ticks[0].reply.None? then XRun([Signed(room, hmac, n, secret, ticks[0])], n, PostFailed)
    else
      var rest := XSpec(room, hmac, n + 1, ticks[0].reply.value, ticks[1..]);
      XRun([Signed(room, hmac, n, secret, ticks[0])] + rest.sent, rest.n, rest.end)
  }

  /** One turn of the X loop on an open room whose `get_info` succeeded. */
  lemma XSpecStep(room: int, hmac: Hmac, n: int, secret: Secret, ticks: seq<XTick>)
    requires n <= 15 && ticks != [] && ticks[0].info.Some?
    ensures ticks[0].reply.None? ==> XSpec(room, hmac, n, secret, ticks) == XRun([Signed(room, hmac, n, secret, ticks[0])], n, PostFailed)
    ensures ticks[0].reply.Some? ==>
              var rest := XSpec(room, hmac, n + 1, ticks[0].reply.value, ticks[1..]);
              XSpec(room, hmac, n, secret, ticks) == XRun([Signed(room, hmac, n, secret, ticks[0])] + rest.sent, rest.n, rest.end)
  {
  }

  /** One turn of the X loop, seen from a run that has already sent `sent`. */
  lemma XSpecAdvance(room: int, hmac: Hmac, n: int, secret: Secret, ticks: seq<XTick>, i: int, sent: seq<XBeat>, whole: XRun)
    requires n <= 15 && 0 <= i < |ticks| && ticks[i].info.Some?
    requires var rest := XSpec(room, hmac, n, secret, ticks[i..]); whole == XRun(sent + rest.sent, rest.n, rest.end)
    ensures ticks[i].reply.None? ==> whole == XRun(sent + [Signed(room, hmac, n, secret, ticks[i])], n, PostFailed)
    ensures ticks[i].reply.Some? ==>
              var rest := XSpec(room, hmac, n + 1, ticks[i].reply.value, ticks[i + 1..]);
              whole == XRun(sent + [Signed(room, hmac, n, secret, ticks[i])] + rest.sent, rest.n, rest.end)
  {
    XSpecStep(room, hmac, n, secret, ticks[i..]);
    assert ticks[i..][1..] == ticks[i + 1..];
    if ticks[i].reply.Some? {
      var rest := XSpec(room, hmac, n + 1, ticks[i].reply.value, ticks[i + 1..]);
      assert sent + ([Signed(room, hmac, n, secret, ticks[i])] + rest.sent) == sent + [Signed(room, hmac, n, secret, ticks[i])] + rest.sent;
    }
  }

  /**
   * Each X heartbeat carries the counter as `seq_id`, which rises by one per
   * success; no beat goes out once it exceeds 15, and a failed post leaves
   * it where it was. At most one beat goes out per turn.
   */
  lemma {:induction false} XSpecCounter(room: int, hmac: Hmac, n: int, secret: Secret, ticks: seq<XTick>)
    ensures forall k :: 0 <= k < |XSpec(room, hmac, n, secret, ticks).sent| ==>
              XSpec(room, hmac, n, secret, ticks).sent[k].seqId == n + k && n + k <= 15
    ensures var r := XSpec(room, hmac, n, secret, ticks);
      (r.end == PostFailed ==> |r.sent| > 0 && r.n == n + |r.sent| - 1)
      && (r.end != PostFailed ==> r.n == n + |r.sent|)
    decreases |ticks|
  {
    if n <= 15 && ticks != [] && ticks[0].info.Some? && ticks[0].reply.Some? {
      XSpecCounter(room, hmac, n + 1, ticks[0].reply.value, ticks[1..]);
      var r := XSpec(room, hmac, n, secret, ticks);
      var rest := XSpec(room, hmac, n + 1, ticks[0].reply.value, ticks[1..]);
      assert r.sent == [Signed(room, hmac, n, secret, ticks[0])] + rest.sent;
      forall k | 0 <= k < |r.sent| ensures r.sent[k].seqId == n + k && n + k <= 15 {
        if k > 0 {
          assert r.sent[k] == rest.sent[k - 1];
          assert rest.sent[k - 1].seqId == n + 1 + (k - 1);
        } else {
          assert r.sent[0] == Signed(room, hmac, n, secret, ticks[0]);
        }
      }
    }
  }

  /**
   * Each X heartbeat signs with the secret of the successful reply before
   * it, the starting secret for the first, and sends that secret's key as
   * `benchmark`.
   */
  lemma {:induction false} XSpecThreadsSecret(room: int, hmac: Hmac, n: int, secret: Secret, ticks: seq<XTick>)
    ensures var r := XSpec(room, hmac, n, secret, ticks);
      (|r.sent| > 0 ==> r.sent[0].benchmark == secret.key
                        && r.sent[0].s == GenSpec(hmac, ticks[0].payload, secret.rules, secret.key))
      && (forall k :: 0 <= k < |r.sent| - 1 ==>
            ticks[k].reply.Some? && r.sent[k + 1].benchmark == ticks[k].reply.value.key
            && r.sent[k + 1].s == GenSpec(hmac, ticks[k + 1].payload, ticks[k].reply.value.rules, ticks[k].reply.value.key))
    decreases |ticks|
  {
    if n <= 15 && ticks != [] && ticks[0].info.Some? && ticks[0].reply.Some? {
      var next := ticks[0].reply.value;
      XSpecThreadsSecret(room, hmac, n + 1, next, ticks[1..]);
      var r := XSpec(room, hmac, n, secret, ticks);
      var rest := XSpec(room, hmac, n + 1, next, ticks[1..]);
      assert r.sent == [Signed(room, hmac, n, secret, ticks[0])] + rest.sent;
      forall k | 0 <= k < |r.sent| - 1
        ensures ticks[k].reply.Some? && r.sent[k + 1].benchmark == ticks[k].reply.value.key
                && r.sent[k + 1].s == GenSpec(hmac, ticks[k + 1].payload, ticks[k].reply.value.rules, ticks[k].reply.value.key)
      {
        assert r.sent[k + 1] == rest.sent[k];
        assert ticks[k + 1] == ticks[1..][k];
        if k > 0 {
          assert ticks[k] == ticks[1..][k - 1];
        }
      }
    }
  }

  class WebHeartBeat {
    var users: map<int, BiliUser>
    var closed: map<int, bool>
    var num: map<int, int>
    /** The loops submitted to the thread pool so far. */
    var tasks: seq<Task>
    /** Whether `on_del_room` has been rebound to a danmaku sender's `close` (SendDanmaku.py). */
    var wrapped: bool

    /** Each user is filed under its own uid, with a credential of that uid. */
    ghost predicate Valid()
      reads this
    {
      forall u :: u in users ==> users[u].uid == u && users[u].cookie.uid == u
    }

    /** The credentials of the users held, the frame of `del_user`. */
    ghost function Credentials(): (r: set<BiliCookie>)
      reads this
      ensures forall u :: u in users ==> users[u].cookie in r
    {
      set u | u in users :: users[u].cookie
    }

    /** A new user for each uid listed, replacing any user already filed under it. */
    static method Enrol(pool: map<int, BiliUser>, uids: seq<int>) returns (pool': map<int, BiliUser>)
      ensures forall u :: u in pool' <==> u in pool || u in uids
      ensures forall u :: u in pool' && u !in uids ==> pool'[u] == pool[u]
      ensures forall u :: u in uids ==> fresh(pool'[u]) && fresh(pool'[u].cookie) && pool'[u].uid == u && pool'[u].cookie.uid == u
      ensures forall u :: u in uids ==> pool'[u].cookie.Current() == NoTokens && !pool'[u].cookie.started
    {
      pool' := pool;
      for i := 0 to |uids|
        invariant forall u :: u in pool' <==> u in pool || u in uids[..i]
        invariant forall u :: u in pool' && u !in uids[..i] ==> pool'[u] == pool[u]
        invariant forall u :: u in uids[..i] ==> fresh(pool'[u]) && fresh(pool'[u].cookie) && pool'[u].uid == u && pool'[u].cookie.uid == u
        invariant forall u :: u in uids[..i] ==> pool'[u].cookie.Current() == NoTokens && !pool'[u].cookie.started
      {
        assert uids[..i + 1] == uids[..i] + [uids[i]];
        var user := new BiliUser(uids[i]);
        pool' := pool'[uids[i] := user];
      }
      assert uids[..|uids|] == uids;
    }

    /** A heartbeat engine for these uids, each with a new user; no room, no counter, no task. */
    constructor (uids: seq<int>)
      ensures Valid() && closed == map[] && num == map[] && tasks == [] && !wrapped
      ensures forall u :: u in users <==> u in uids
      ensures forall u :: u in users ==> fresh(users[u]) && fresh(users[u].cookie)
      ensures forall u :: u in users ==> users[u].cookie.Current() == NoTokens && !users[u].cookie.started
    {
      var pool := Enrol(map[], uids);
      users := pool;
      closed, num, tasks, wrapped := map[], map[], [], false;
    }

    /** `add_user`: a new user for each uid, replacing any user already there. */
    method AddUser(uids: seq<int>)
      requires Valid()
      modifies this
      ensures Valid() && closed == old(closed) && num == old(num) && tasks == old(tasks) && wrapped == old(wrapped)
      ensures forall u :: u in users <==> u in old(users) || u in uids
      ensures forall u :: u in users && u !in uids ==> users[u] == old(users)[u]
      ensures forall u :: u in uids ==> fresh(users[u]) && fresh(users[u].cookie)
      ensures forall u :: u in uids ==> users[u].cookie.Current() == NoTokens && !users[u].cookie.started
    {
      users := Enrol(users, uids);
    }

    /**
     * `del_user`: stops the credential of each uid in turn; an unknown uid
     * raises KeyError (`ok` false) and leaves the rest of the list alone.
     */
    method DelUser(uids: seq<int>) returns (ok: bool)
      requires Valid()
      modifies Credentials()
      ensures ok <==> forall i :: 0 <= i < |uids| ==> uids[i] in users
      ensures forall i :: 0 <= i < |uids| && (forall j :: 0 <= j <= i ==> uids[j] in users) ==> !users[uids[i]].cookie.isChecking
      ensures forall u :: u in users ==> users[u].cookie.Current() == old(users[u].cookie.Current())
      ensures forall u :: u in users && u !in uids ==> users[u].cookie.isChecking == old(users[u].cookie.isChecking)
      ensures ok <==> KnownPrefix(uids, users.Keys) == |uids|
      ensures forall u :: u in uids[..KnownPrefix(uids, users.Keys)] ==> !users[u].cookie.isChecking
      ensures forall u :: u in users && u !in uids[..KnownPrefix(uids, users.Keys)] ==>
                users[u].cookie.isChecking == old(users[u].cookie.isChecking)
    {
      for i := 0 to |uids|
        invariant users == old(users) && Valid()
        invariant forall j :: 0 <= j < i ==> uids[j] in users && !users[uids[j]].cookie.isChecking
        invariant forall u :: u in users ==> users[u].cookie.Current() == old(users[u].cookie.Current())
        invariant forall u :: u in users && u !in uids[..i] ==> users[u].cookie.isChecking == old(users[u].cookie.isChecking)
      {
        if uids[i] !in users {
          assert KnownPrefix(uids, users.Keys) == i;
          return false;
        }
        assert uids[..i + 1] == uids[..i] + [uids[i]];
        assert forall u :: u in users && u != uids[i] ==> users[u].cookie != users[uids[i]].cookie;
        users[uids[i]].Stop();
      }
      assert uids[..|uids|] == uids;
      return true;
    }

    /**
     * `on_del_room`: marks every room given as closed and changes no other
     * entry, then calls the callback with the same rooms.
     */
    method OnDelRoom(callback: Callback, args: seq<int>) returns (r: DelRoom)
      modifies this
      ensures users == old(users) && num == old(num) && tasks == old(tasks) && wrapped == old(wrapped)
      ensures forall k :: k in closed <==> k in old(closed) || k in args
      ensures forall k :: k in closed ==> closed[k] == (k in args || old(closed)[k])
      ensures r == match callback
                   case NoCallback => Returned
                   case IntCallback(_) => TypeError
                   case SenderClose => Forwarded(args)
    {
      for i := 0 to |args|
        invariant users == old(users) && num == old(num) && tasks == old(tasks) && wrapped == old(wrapped)
        invariant forall k :: k in closed <==> k in old(closed) || k in args[..i]
        invariant forall k :: k in closed ==> closed[k] == (k in args[..i] || old(closed)[k])
      {
        assert args[..i + 1] == args[..i] + [args[i]];
        closed := closed[args[i] := true];
      }
      assert args[..|args|] == args;
      match callback {
        case NoCallback => r := Returned;
        case IntCallback(_) => r := TypeError;
        case SenderClose => r := Forwarded(args);
      }
    }

    /**
     * A loop's `self.on_del_room(user.uid, room_id)`: unwrapped, the uid is
     * the callback, the room is closed and the call raises TypeError;
     * wrapped, uid and room are both closed and passed on to the sender.
     */
    method Report(uid: int, room: int) returns (r: DelRoom)
      modifies this
      ensures users == old(users) && num == old(num) && tasks == old(tasks) && wrapped == old(wrapped)
      ensures closed == Reported(old(closed), wrapped, uid, room)
      ensures r == if wrapped then Forwarded([uid, room]) else TypeError
    {
      if wrapped {
        r := OnDelRoom(SenderClose, [uid, room]);
      } else {
        r := OnDelRoom(IntCallback(uid), [room]);
      }
      ghost var want := Reported(old(closed), wrapped, uid, room);
      assert forall k :: k in closed <==> k in want;
      assert forall k :: k in closed ==> closed[k] == want[k];
      assert closed == want;
    }

    /** `set_cookies_by_uid`: ValueError for an unknown uid, otherwise the user's `set_cookies`. */
    method SetCookiesByUid(uid: int, t: Tokens) returns (r: Outcome)
      modifies if uid in users then {users[uid].cookie} else {}
      ensures r == ValueError <==> uid !in users
      ensures uid in users ==> users[uid].cookie.Current() == t && users[uid].cookie.started
                               && (r == Done <==> !old(users[uid].cookie.started))
      ensures uid in users ==> users[uid].cookie.isChecking == old(users[uid].cookie.isChecking)
                               && users[uid].cookie.errorTimes == old(users[uid].cookie.errorTimes)
    {
      if uid !in users {
        return ValueError;
      }
      var ok := users[uid].SetCookies(t);
      r := if ok then Done else RuntimeError;
    }

    /** Opens one room: its flag false, the uid's counter 0 and its three loops submitted. */
    method Submit(uid: int, room: int)
      modifies this
      ensures users == old(users) && wrapped == old(wrapped)
      ensures closed == old(closed)[room := false] && num == old(num)[uid := 0]
      ensures tasks == old(tasks) + [WebTask(uid, room), XTask(uid, room), FeedTask(uid, room)]
    {
      closed := closed[room := false];
      num := num[uid := 0];
      tasks := tasks + [WebTask(uid, room), XTask(uid, room), FeedTask(uid, room)];
    }

    /**
     * `add_heartbeat`: KeyError (`ok` false) for an unknown uid. Otherwise
     * each listed room that is not active is opened, the uid's counter is
     * reset to 0 and the room's three loops are submitted; active rooms are
     * skipped.
     */
    method AddHeartbeat(uid: int, rooms: seq<int>) returns (ok: bool)
      modifies this
      ensures users == old(users) && wrapped == old(wrapped)
      ensures ok <==> uid in users
      ensures !ok ==> closed == old(closed) && num == old(num) && tasks == old(tasks)
      ensures ok ==> var a := AddSpec(old(closed), rooms);
                     closed == a.closed && tasks == old(tasks) + TasksFor(uid, a.started)
                     && num == if a.started == [] then old(num) else old(num)[uid := 0]
    {
      if uid !in users {
        return false;
      }
      ghost var whole := AddSpec(closed, rooms);
      ghost var started: seq<int> := [];
      for i := 0 to |rooms|
        invariant users == old(users) && wrapped == old(wrapped)
        invariant whole.closed == AddSpec(closed, rooms[i..]).closed
        invariant whole.started == started + AddSpec(closed, rooms[i..]).started
        invariant tasks == old(tasks) + TasksFor(uid, started)
        invariant started == [] ==> num == old(num)
        invariant started != [] ==> num == old(num)[uid := 0]
      {
        assert rooms[i..][1..] == rooms[i + 1..];
        var room := rooms[i];
        if room in closed && !closed[room] {
          assert AddSpec(closed, rooms[i..]) == AddSpec(closed, rooms[i + 1..]);
          continue;
        }
        ghost var rest := AddSpec(closed[room := false], rooms[i + 1..]);
        assert AddSpec(closed, rooms[i..]) == Adding([room] + rest.started, rest.closed);
        TasksForAppend(uid, started, room);
        ghost var before := tasks;
        Submit(uid, room);
        assert tasks == old(tasks) + TasksFor(uid, started + [room]) by {
          assert tasks == before + [WebTask(uid, room), XTask(uid, room), FeedTask(uid, room)];
        }
        assert started + [room] + rest.started == started + ([room] + rest.started);
        started := started + [room];
      }
      assert rooms[|rooms|..] == [];
      assert whole.started == started;
      return true;
    }

    /** The guard all three loops share. */
    predicate Running(uid: int, room: int)
      reads this
      requires room in closed && uid in num
    {
      !closed[room] && num[uid] <= 15
    }

    /**
     * `_web_heartbeat` against a script of replies (`Some(next_interval)` or
     * a failure): while the room is open and the counter at most 15, send
     * the payload with the current interval and take the next interval from
     * a successful reply. A failure reports the room and ends the loop,
     * by TypeError or because the room is now closed.
     */
    method WebLoop(uid: int, room: int, replies: seq<Option<int>>) returns (sent: seq<string>, end: LoopEnd)
      requires room in closed && uid in num
      modifies this
      ensures users == old(users) && num == old(num) && tasks == old(tasks) && wrapped == old(wrapped)
      ensures !old(Running(uid, room)) ==> sent == [] && end == Ended && closed == old(closed)
      ensures old(Running(uid, room)) ==> var r := WebSpec(60, room, replies);
                sent == r.0
                && closed == (if r.1 then Reported(old(closed), wrapped, uid, room) else old(closed))
                && end == (if !r.1 then Unfinished else if wrapped then Ended else Died)
    {
      ghost var whole := WebSpec(60, room, replies);
      var interval := 60;
      sent := [];
      var i := 0;
      ghost var failed := false;
      while !closed[room] && num[uid] <= 15 && i < |replies|
        invariant 0 <= i <= |replies|
        invariant users == old(users) && num == old(num) && tasks == old(tasks) && wrapped == old(wrapped)
        invariant room in closed && uid in num
        invariant !failed ==> closed == old(closed)
        invariant !old(Running(uid, room)) ==> i == 0 && sent == [] && !failed
        invariant !failed && old(Running(uid, room)) ==> var rest := WebSpec(interval, room, replies[i..]);
                    whole.0 == sent + rest.0 && whole.1 == rest.1
        invariant failed ==> wrapped && old(Running(uid, room)) && closed == Reported(old(closed), wrapped, uid, room)
                             && whole.0 == sent && whole.1
        decreases |replies| - i, if failed then 0 else 1
      {
        assert replies[i..][1..] == replies[i + 1..];
        sent := sent + [WebPayload(interval, room)];
        if replies[i].Some? {
          interval := replies[i].value;
        } else {
          var r := Report(uid, room);
          failed := true;
          if r.TypeError? {
            return sent, Died;
          }
        }
        i := i + 1;
      }
      end := if closed[room] || num[uid] > 15 then Ended else Unfinished;
    }

    /**
     * `_heartbeat` against a script of replies (true: success): while the
     * room is open and the counter at most 15, send one request; a failure
     * reports the room and ends the loop, by TypeError or because the room
     * is now closed.
     */
    method FeedLoop(uid: int, room: int, replies: seq<bool>) returns (sent: nat, end: LoopEnd)
      requires room in closed && uid in num
      modifies this
      ensures users == old(users) && num == old(num) && tasks == old(tasks) && wrapped == old(wrapped)
      ensures !old(Running(uid, room)) ==> sent == 0 && end == Ended && closed == old(closed)
      ensures old(Running(uid, room)) ==> var r := FeedSpec(replies);
                sent == r.0
                && closed == (if r.1 then Reported(old(closed), wrapped, uid, room) else old(closed))
                && end == (if !r.1 then Unfinished else if wrapped then Ended else Died)
    {
      ghost var whole := FeedSpec(replies);
      sent := 0;
      var i := 0;
      ghost var failed := false;
      while !closed[room] && num[uid] <= 15 && i < |replies|
        invariant 0 <= i <= |replies|
        invariant users == old(users) && num == old(num) && tasks == old(tasks) && wrapped == old(wrapped)
        invariant room in closed && uid in num
        invariant !failed ==> closed == old(closed)
        invariant !old(Running(uid, room)) ==> i == 0 && sent == 0 && !failed
        invariant !failed && old(Running(uid, room)) ==> var rest := FeedSpec(replies[i..]);
                    whole.0 == sent + rest.0 && whole.1 == rest.1
        invariant failed ==> wrapped && old(Running(uid, room)) && closed == Reported(old(closed), wrapped, uid, room)
                             && whole.0 == sent && whole.1
        decreases |replies| - i, if failed then 0 else 1
      {
        assert replies[i..][1..] == replies[i + 1..];
        sent := sent + 1;
        if !replies[i] {
          var r := Report(uid, room);
          failed := true;
          if r.TypeError? {
            return sent, Died;
          }
        }
        i := i + 1;
      }
      end := if closed[room] || num[uid] > 15 then Ended else Unfinished;
    }

    /**
     * One turn of the X loop whose `get_info` succeeded: sign and post the
     * payload; a success returns the next secret and adds one to the
     * counter, a failure reports the room (fatal unwrapped).
     */
    method XTurn(uid: int, room: int, hmac: Hmac, held: Secret, tick: XTick) returns (beat: XBeat, next: Option<Secret>, died: bool)
      requires room in closed && uid in num && tick.info.Some?
      modifies this
      ensures users == old(users) && tasks == old(tasks) && wrapped == old(wrapped)
      ensures beat == Signed(room, hmac, old(num[uid]), held, tick) && next == tick.reply
      ensures tick.reply.Some? ==> !died && closed == old(closed) && num == old(num)[uid := old(num[uid]) + 1]
      ensures tick.reply.None? ==> died == !wrapped && closed == Reported(old(closed), wrapped, uid, room) && num == old(num)
    {
      var info := tick.info.value;
      var s := GenS(hmac, tick.payload, held.rules, held.key);
      beat := XBeat(Ids(info.parent, info.area, num[uid], room), s, held.key, num[uid]);
      next := tick.reply;
      died := false;
      if tick.reply.None? {
        var r := Report(uid, room);
        died := r.TypeError?;
      } else {
        num := num[uid := num[uid] + 1];
      }
    }

    /**
     * The loop of `_X_heartbeat`, from the secret the E heartbeat returned:
     * while the room is open and the counter at most 15, fetch the room's
     * areas (a failure raises), sign the payload with the secret in hand
     * and post it. A success brings the next secret and adds one to the
     * counter; a failure reports the room, keeps secret and counter, and
     * ends the loop by TypeError or because the room is now closed.
     */
    method XBeats(uid: int, room: int, hmac: Hmac, secret: Secret, ticks: seq<XTick>) returns (sent: seq<XBeat>, end: LoopEnd)
      requires room in closed && uid in num
      modifies this
      ensures users == old(users) && tasks == old(tasks) && wrapped == old(wrapped)
      ensures old(closed[room]) ==> sent == [] && end == Ended && closed == old(closed) && num == old(num)
      ensures !old(closed[room]) ==> var r := XSpec(room, hmac, old(num[uid]), secret, ticks);
                sent == r.sent && uid in num && num == old(num)[uid := r.n]
                && closed == (if r.end == PostFailed then Reported(old(closed), wrapped, uid, room) else old(closed))
                && end == match r.end
                          case OverCount => Ended
                          case InfoRaised => Died
                          case PostFailed => if wrapped then Ended else Died
                          case Exhausted => Unfinished
    {
      ghost var whole := XSpec(room, hmac, num[uid], secret, ticks);
      assert ticks[0..] == ticks;
      var held := secret;
      ghost var rest := whole;
      sent := [];
      var i := 0;
      while !closed[room] && num[uid] <= 15 && i < |ticks|
        invariant 0 <= i <= |ticks|
        invariant users == old(users) && tasks == old(tasks) && wrapped == old(wrapped)
        invariant room in closed && uid in num && num == old(num)[uid := num[uid]]
        invariant closed == old(closed)
        invariant old(closed[room]) ==> i == 0 && sent == [] && num == old(num)
        invariant !old(closed[room]) ==>
                    rest == XSpec(room, hmac, num[uid], held, ticks[i..]) && whole == XRun(sent + rest.sent, rest.n, rest.end)
        decreases |ticks| - i
      {
        if ticks[i].info.None? {
          return sent, Died;
        }
        XSpecAdvance(room, hmac, num[uid], held, ticks, i, sent, whole);
        ghost var n := num[uid];
        var beat, next, died := XTurn(uid, room, hmac, held, ticks[i]);
        assert num == old(num)[uid := n][uid := num[uid]];
        sent := sent + [beat];
        if died {
          return sent, Died;
        }
        if next.None? {
          // the forwarded report closed the room, which ends the loop
          return sent, Ended;
        }
        held := next.value;
        rest := XSpec(room, hmac, num[uid], held, ticks[i + 1..]);
        i := i + 1;
      }
      end := if closed[room] || num[uid] > 15 then Ended else Unfinished;
    }

    /**
     * `_X_heartbeat` with its `_E_heartbeat`: fetch the room's info (a
     * failure raises before anything is sent), send the E heartbeat with the
     * current counter whatever the room's state, then on success add one to
     * the counter and run the X loop with the secret it returned. A failed
     * E heartbeat reports the room and the thread dies: unwrapped by
     * TypeError, wrapped because `None` cannot be unpacked.
     */
    method XLoop(uid: int, room: int, hmac: Hmac, info: Option<RoomInfo>, e: Option<Secret>, ticks: seq<XTick>)
      returns (eIds: Option<string>, sent: seq<XBeat>, end: LoopEnd)
      requires room in closed && uid in num
      modifies this
      ensures users == old(users) && tasks == old(tasks) && wrapped == old(wrapped)
      ensures info.None? ==> eIds == None && sent == [] && end == Died && closed == old(closed) && num == old(num)
      ensures info.Some? ==> eIds == Some(Ids(info.value.parent, info.value.area, old(num[uid]), room))
      ensures info.Some? && e.None? ==> sent == [] && end == Died && num == old(num)
                                        && closed == Reported(old(closed), wrapped, uid, room)
      ensures info.Some? && e.Some? && old(closed[room]) ==>
                sent == [] && end == Ended && closed == old(closed) && num == old(num)[uid := old(num[uid]) + 1]
      ensures info.Some? && e.Some? && !old(closed[room]) ==>
                var r := XSpec(room, hmac, old(num[uid]) + 1, e.value, ticks);
                sent == r.sent && num == old(num)[uid := r.n]
                && closed == (if r.end == PostFailed then Reported(old(closed), wrapped, uid, room) else old(closed))
                && end == match r.end
                          case OverCount => Ended
                          case InfoRaised => Died
                          case PostFailed => if wrapped then Ended else Died
                          case Exhausted => Unfinished
    {
      if info.None? {
        return None, [], Died;
      }
      eIds := Some(Ids(info.value.parent, info.value.area, num[uid], room));
      if e.None? {
        var _ := Report(uid, room);
        return eIds, [], Died;
      }
      num := num[uid := num[uid] + 1];
      sent, end := XBeats(uid, room, hmac, e.value, ticks);
    }
  }
}
