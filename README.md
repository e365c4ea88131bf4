# AutoFishing core: credentials, heartbeats and the danmaku sender's rooms

This project models the core of AutoFishing, a bot that keeps bilibili live-room presence alive for several accounts. The model has four parts.

- A credential (`BiliCookie`, module `Credential`) holds five cookie values:
  - `SESSDATA`
  - `bili_jct` (the csrf token)
  - `DedeUserID__ckMd5`
  - `sid`
  - `refresh_token`

  It renders the cookie header and the JSON record, and runs bilibili's cookie-refresh protocol in a loop. The loop gives up after eleven failed cycles in a row. `BiliUser` (module `Account`) wraps one credential per uid.
- The supervisor `CookieKeepAlive` (module `KeepAlive`) loads credentials from `cookies.json`. It starts them, writes them back, evicts the dead ones and hands out a cookie string.
- The heartbeat engine `WebHeartBeat` (module `Heartbeat`) marks rooms open or closed. It submits three heartbeat loops per newly opened room:
  - webHeartBeat;
  - the signed "X" heartbeat, preceded by one "E" heartbeat;
  - Feed heartBeat.

  When a loop fails it reports the failure through `on_del_room`. Module `Signing` holds the strings these loops send:
  - the webHeartBeat payload;
  - the `id` field;
  - the `s` signature chain (`_gen_s`);
  - the device-hash seed.
- `DanmakuSender` (module `Danmaku`) serves a set of uids. It keeps a set of rooms per uid, adds the newly polled rooms to the engine, and rewires the engine's `on_del_room` to its own `close`.

How the model stands in for what it does not run:
- Every network reply is a parameter of the operation that receives it. Every request the code sends is part of the result:
  - `Reply<T>` is `Ok`, `Rejected` (a non-zero code, raised as `CookieUpdateException`) or `Broken` (any other exception).
  - A loop takes a finite script of replies. A script that runs out while the loop still runs ends as "unfinished" or "still running".
- Starting a thread is a `started` flag; a second start is Python's RuntimeError. The thread pool is the engine's `tasks` list of submitted loops.
- Each stateful class is a Dafny `class` whose methods update its fields. Each loop method is proved equal to a pure specification function (`RunSpec`, `WebSpec`, `XSpec`, ...), and the lemmas about those functions state what the loops promise.

Where the code does something other than its names and comments suggest, the model follows the code:
- `_refresh_cookie` installs the new cookies before it calls `_confirm_refresh`. The confirmation therefore carries the NEW csrf and the OLD refresh token. A failed confirmation leaves the new cookies with the old refresh token (`RefreshCookieSpec`).
- In `run`, only `CookieUpdateException` stops the credential. Any other exception during the first refresh leaves `is_checking` as it was (`RunSpec`).
- In `load_cookie`, a record that lacks a token key raises KeyError after line 36. The fresh credential is then already in `_cookies`, but its uid is not in `_uids` (`LoadCookie`).
- `on_del_room` is called with the uid where a callback belongs:
  - Unwired, it marks the room closed and then raises TypeError, which ends the loop.
  - Wired by `DanmakuSender`, it also marks the uid closed as if it were a room, and forwards both to `close` (`Reported`).
- A failed E heartbeat returns nothing. In `_X_heartbeat` the unpacking then raises, even when the failure was forwarded (`XLoop`).
- `DanmakuSender` builds its engine with no users. `set_cookies` for a uid given only to its constructor therefore raises ValueError (`InitialUidNeedsAddUser`).

## Model

| member | source | states |
|---|---|---|
| Text.IntToStringRoundTrip | BiliUser/CookieKeepAlive.py:56 | `str(uid)` reads back as the same integer |
| Text.IntToStringInjective | BiliUser/CookieKeepAlive.py:55-56 | distinct uids get distinct keys in the saved file |
| Credential.CookieStringRoundTrip | BiliUser/BiliCookie.py:76-81 | the cookie header splits back into exactly the five `name=value` pairs, in order, and never carries the refresh token |
| Credential.KeyNamesDistinct | BiliUser/BiliCookie.py:54-64 | the seven record keys are pairwise distinct names |
| Credential.ToRecordReadsBack | BiliUser/BiliCookie.py:54-64 | the record `__str__` writes has all seven keys, the uid under `UID` and `DedeUserID`, and gives back the uid and tokens it was written from |
| Credential.ChallengePlaintext | BiliUser/BiliCookie.py:115 | the text encrypted for the correspond path is `refresh_` followed by the timestamp, which reads back |
| Credential.RefreshCookieSpec | BiliUser/BiliCookie.py:134-174 | a rejected refresh changes nothing; an accepted one installs the four cookies and confirms with the new csrf and the old refresh token; the refresh token changes only if the confirmation succeeds |
| Credential.RefreshSpec | BiliUser/BiliCookie.py:176-179 | fetches the challenge for `refresh_<ts>` first; succeeds exactly when the page, the refresh and the confirmation all succeed, leaving the granted tokens; a failure before the grant leaves the tokens as they were |
| Credential.UpdateSpec | BiliUser/BiliCookie.py:181-188 | checks expiry first; fails exactly when the check fails or a needed refresh fails; a failed check or "no refresh needed" changes nothing and sends nothing more |
| Credential.BootstrapSpec | BiliUser/BiliCookie.py:197-203 | checks expiry, then refreshes unconditionally with the returned timestamp; succeeds exactly when all four replies succeed |
| Credential.LoopSpec | BiliUser/BiliCookie.py:206-221 | the loop ends stopped, given up or still running, and is still running exactly when `is_checking` still holds |
| Credential.RunSpec | BiliUser/BiliCookie.py:193-221 | an empty `SESSDATA`, csrf or refresh token stops the credential before anything is sent; a `CookieUpdateException` during the first refresh stops it; any other exception leaves `is_checking` unchanged |
| Credential.GivesUpIffElevenFailures | BiliUser/BiliCookie.py:206-219 | with no outside stop, the loop gives up exactly when the failures counted so far plus those that follow exceed ten, or eleven cycles in a row fail later; otherwise it keeps running |
| Credential.FreshCredentialGivesUp | BiliUser/BiliCookie.py:193-221 | after a successful first refresh, the credential gives up exactly when eleven cycles in a row fail, and is then stopped |
| Credential.BiliCookie.constructor | BiliUser/BiliCookie.py:47-52 | a new credential for the uid: empty tokens, checking, no errors, not started |
| Credential.BiliCookie.SetCookies | BiliUser/BiliCookie.py:66-73 | installs the five tokens; nothing else changes |
| Credential.BiliCookie.StopUpdate | BiliUser/BiliCookie.py:190-191 | clears `is_checking` and touches nothing else |
| Credential.BiliCookie.Start | BiliUser/BiliCookie.py:18 | a thread starts once; a second start fails (RuntimeError) |
| Credential.BiliCookie.ConfirmRefresh | BiliUser/BiliCookie.py:159-174 | posts the current csrf and refresh token; fails exactly when the reply is not ok |
| Credential.BiliCookie.RefreshCookie | BiliUser/BiliCookie.py:134-157 | its new tokens and requests are those of `RefreshCookieSpec` |
| Credential.BiliCookie.Refresh | BiliUser/BiliCookie.py:176-179 | its new tokens, requests and failure are those of `RefreshSpec` |
| Credential.BiliCookie.Update | BiliUser/BiliCookie.py:181-188 | its new tokens, requests and failure are those of `UpdateSpec` |
| Credential.BiliCookie.Bootstrap | BiliUser/BiliCookie.py:197-203 | its new tokens, requests and failure are those of `BootstrapSpec` |
| Credential.BiliCookie.Tick | BiliUser/BiliCookie.py:206-221 | one loop iteration: an update cycle resets the error count on success and increments it on failure; an outside stop clears `is_checking` |
| Credential.BiliCookie.RefreshLoop | BiliUser/BiliCookie.py:206-221 | the new state, requests and ending are those of `LoopSpec` |
| Credential.BiliCookie.Run | BiliUser/BiliCookie.py:193-221 | the new state, requests and ending are those of `RunSpec` |
| Account.BiliUser.constructor | BiliUser/BiliUser.py:18-20 | a user owns a fresh credential for the same uid, empty and not started |
| Account.BiliUser.SetCookies | BiliUser/BiliUser.py:22-24 | installs the tokens and starts the credential; the start succeeds exactly when it had not been started |
| Account.BiliUser.Stop | BiliUser/BiliUser.py:26-27 | stops the credential's loop; its tokens and start state stay as they were |
| Account.SetCookiesTwice | BiliUser/BiliUser.py:22-24 | a second `set_cookies` still installs the new tokens, but its start fails |
| KeepAlive.WrittenLoadsBack | BiliUser/CookieKeepAlive.py:51-60 | what `save_cookie` writes is well formed, and a uid holds tokens in it exactly when the pool held them |
| KeepAlive.CookieKeepAlive.constructor | BiliUser/CookieKeepAlive.py:16-20 | an empty, consistent, open supervisor |
| KeepAlive.CookieKeepAlive.Loaded | BiliUser/CookieKeepAlive.py:36-43 | a fresh, unstarted, checking credential holding the record's tokens |
| KeepAlive.CookieKeepAlive.LoadRecord | BiliUser/CookieKeepAlive.py:33-43 | a record without a UID raises; a tracked uid is skipped; otherwise a credential is built and gets the record's tokens exactly when all five are present |
| KeepAlive.CookieKeepAlive.LoadAll | BiliUser/CookieKeepAlive.py:32-45 | every record's uid ends up tracked; new uids get a fresh, checking credential with the tokens of their record; tracked ones keep theirs; it fails only on a malformed record, and never when every record has a UID and, for a new uid, its tokens |
| KeepAlive.CookieKeepAlive.LoadCookie | BiliUser/CookieKeepAlive.py:22-49 | returns the newly tracked uids; each holds the tokens of a record of the file; nothing tracked is replaced; a missing file changes nothing; a file whose records all have a UID, and tokens where the uid is new, never raises, and afterwards every uid of the file is tracked |
| KeepAlive.CookieKeepAlive.SaveCookie | BiliUser/CookieKeepAlive.py:51-60 | writes, under `str(uid)`, each uid's record and nothing else: the store is the written form of the pool's tokens |
| KeepAlive.CookieKeepAlive.CleanDead | BiliUser/CookieKeepAlive.py:62-70 | a credential stays exactly when it is still checking; the pool stays consistent |
| KeepAlive.CookieKeepAlive.RandomCookie | BiliUser/CookieKeepAlive.py:72-74 | the cookie header of some credential in the pool; fails (IndexError) exactly when the pool is empty |
| KeepAlive.CookieKeepAlive.Status | BiliUser/CookieKeepAlive.py:76-77 | the number of tracked uids is the size of the pool |
| KeepAlive.CookieKeepAlive.StopAll | BiliUser/CookieKeepAlive.py:93-94 | every named credential stops; every other one keeps its checking flag; tokens and start state are untouched |
| KeepAlive.CookieKeepAlive.Close | BiliUser/CookieKeepAlive.py:91-94 | marks the supervisor closed and stops every credential, so the run loop ends |
| KeepAlive.CookieKeepAlive.StartAll | BiliUser/CookieKeepAlive.py:81-82 | starts each named credential; no start state is lost; tokens and checking flags are untouched |
| KeepAlive.CookieKeepAlive.Reload | BiliUser/CookieKeepAlive.py:86-88 | a missing file changes nothing; a file with a UID in every record, and tokens where the uid is new, never raises, and a failure means a malformed file; on success the pool is exactly the old credentials, as the same objects, plus the new uids, each fresh, checking, started and holding its record's tokens |
| KeepAlive.CookieKeepAlive.RunRound | BiliUser/CookieKeepAlive.py:84-89 | the saved file is the written form of the pool as the round found it; the load fails only on a malformed file; on success the pool is exactly the credentials that were checking and did not die, as the same objects with the same tokens, plus the file's new uids; every credential in it is started and checking |
| KeepAlive.CookieKeepAlive.AfterSave | BiliUser/CookieKeepAlive.py:86-89 | the part of a round after the save: the same pool outcome as `RunRound` |
| KeepAlive.CookieKeepAlive.StopThenReload | BiliUser/CookieKeepAlive.py:86-88 | the credentials that die stop and every other one keeps its flag; then the file's new uids are loaded and started, with the same failure conditions as `Reload` |
| KeepAlive.CookieKeepAlive.Run | BiliUser/CookieKeepAlive.py:79-89 | no more rounds run than are given, and a round runs only while a uid is tracked and the supervisor is open, so each saved file is the written form of a non-empty pool; a missing first file runs no round and leaves the pool empty; a failure is the malformed file of the first load or of the last round run; otherwise everything loaded is started, the loop stops only when the pool empties, the supervisor closes or the rounds run out, and after a round no dead credential remains |
| KeepAlive.CookieKeepAlive.Start | BiliUser/CookieKeepAlive.py:80-82 | the first load and start: a missing file leaves the pool empty; a failure means a malformed file; otherwise every credential is fresh and started |
| KeepAlive.CookieKeepAlive.Turn | BiliUser/CookieKeepAlive.py:83-89 | one round while the loop condition holds: the file written holds a non-empty pool; a failure means a malformed file; otherwise every credential is started and checking, and each is either kept or new |
| KeepAlive.Restore | BiliUser/CookieKeepAlive.py:22-49 | a new supervisor loading a saved file tracks exactly the saved uids, each with its saved tokens |
| KeepAlive.SaveThenLoad | BiliUser/CookieKeepAlive.py:51-60 | saving a pool and loading it into a new supervisor gives back the same uids and tokens |
| Signing.WebPayloadRoundTrip | WebHeartBeat.py:96-98 | the webHeartBeat payload (interval, room, 1 and 0 joined by vertical bars) reads back as its interval and room |
| Signing.IdsRoundTrip | WebHeartBeat.py:160 | the `[parent,area,seq,room]` id reads back as its four numbers |
| Signing.GenS | WebHeartBeat.py:221-260 | the loop's result is the fold of the rules over the data |
| Signing.GenSAppend | WebHeartBeat.py:222-259 | signing with two rule lists in a row is signing with their concatenation |
| Signing.GenSShape | WebHeartBeat.py:222-260 | with hex digests, the signature is lowercase hex as long as the last known rule's digest; with no known rule it is the data itself |
| Signing.AlphabetPrintable | WebHeartBeat.py:324 | the alphabet has 74 characters and no whitespace |
| Signing.WordsOfOneWord | WebHeartBeat.py:324 | `split()` of a text without whitespace is that one text |
| Signing.DeviceSeedIgnoresDraws | WebHeartBeat.py:322-327 | as written, the seed is the millisecond clock followed by the whole alphabet five times, whatever is drawn |
| Signing.ChoicesOfOne | WebHeartBeat.py:326 | five draws from a one-word pool repeat that word five times |
| Signing.ChoicesOfChars | WebHeartBeat.py:325-326 | drawing from the alphabet's characters picks one character per draw |
| Signing.DeviceSeedUsesDraws | WebHeartBeat.py:322-327 | corrected: two seeds agree exactly when the five drawn characters do |
| Heartbeat.TasksForIndex | WebHeartBeat.py:74-79 | each started room submits its web, X and feed loops in that order, three tasks per room |
| Heartbeat.TasksForMembers | WebHeartBeat.py:74-79 | every task submitted for a uid's rooms runs for that uid and one of those rooms |
| Heartbeat.AddSpecEffect | WebHeartBeat.py:69-73 | after `add_heartbeat`, every listed room is open; open rooms stay open; unlisted rooms keep their flag; a room starts exactly when it was listed and not open; none starts twice |
| Heartbeat.AddSpecAllActive | WebHeartBeat.py:70-71 | listing only open rooms starts nothing and changes nothing |
| Heartbeat.AddSpecIdempotent | WebHeartBeat.py:64-79 | adding the same rooms again starts nothing |
| Heartbeat.WebSpecIntervals | WebHeartBeat.py:86-111 | the first payload carries interval 60; each later one carries the interval the previous reply gave; the loop fails exactly when the last reply it used failed |
| Heartbeat.FeedSpec | WebHeartBeat.py:128-139 | heartbeats are sent up to and including the first failed one, and the loop fails exactly then |
| Heartbeat.XSpecCounter | WebHeartBeat.py:169-216 | the k-th signed heartbeat carries sequence number n+k, never above 15; the counter advances once per accepted heartbeat |
| Heartbeat.XSpecThreadsSecret | WebHeartBeat.py:189-214 | the first signed heartbeat uses the E heartbeat's key and rules; each later one uses those of the previous reply |
| Heartbeat.XSpecAdvance | WebHeartBeat.py:173-216 | one accepted signed heartbeat moves the run on to the rest of the loop from the next counter and the reply's secret; a failed one ends the run with that beat as its last |
| Heartbeat.WebHeartBeat.Enrol | WebHeartBeat.py:45-47 | each listed uid gets a fresh user, replacing any earlier one; other users are kept |
| Heartbeat.WebHeartBeat.constructor | WebHeartBeat.py:39-43 | one fresh user per uid given; no room, counter or task yet |
| Heartbeat.WebHeartBeat.AddUser | WebHeartBeat.py:45-47 | adds or replaces the listed users and leaves rooms and counters alone |
| Heartbeat.WebHeartBeat.DelUser | WebHeartBeat.py:49-51 | succeeds exactly when every listed uid is known; stops the credentials of the listed uids before the first unknown one, which raises KeyError; every other user keeps its checking flag; tokens are untouched |
| Heartbeat.KnownPrefix | WebHeartBeat.py:50-51 | the length of the longest prefix of the uids whose users exist; the uid after it, if any, is unknown |
| Heartbeat.WebHeartBeat.OnDelRoom | WebHeartBeat.py:53-57 | marks every argument closed, then returns, raises TypeError for a non-callable, or forwards the arguments to the callback |
| Heartbeat.WebHeartBeat.Report | WebHeartBeat.py:113 | a failed loop marks its room closed (and, once wired, its uid too); unwired it raises TypeError, wired it forwards uid and room |
| Heartbeat.WebHeartBeat.SetCookiesByUid | WebHeartBeat.py:59-62 | ValueError exactly for an unknown uid; otherwise installs the tokens and starts the credential, keeping its checking flag and error count |
| Heartbeat.WebHeartBeat.Submit | WebHeartBeat.py:72-79 | opens the room, resets the uid's counter and submits the three loops |
| Heartbeat.WebHeartBeat.AddHeartbeat | WebHeartBeat.py:64-79 | KeyError exactly for an unknown uid; otherwise the rooms and tasks are those of `AddSpec` and `TasksFor`; the counter is reset only if a room started |
| Heartbeat.WebHeartBeat.WebLoop | WebHeartBeat.py:82-115 | does nothing for a room not running; otherwise sends the payloads of `WebSpec`, reports the first failure and then ends (wired) or dies (unwired) |
| Heartbeat.WebHeartBeat.FeedLoop | WebHeartBeat.py:117-141 | does nothing for a room not running; otherwise sends the heartbeats of `FeedSpec`, reports the first failure and then ends (wired) or dies (unwired) |
| Heartbeat.WebHeartBeat.XTurn | WebHeartBeat.py:173-217 | one signed heartbeat with the held secret: on success the counter advances and the reply's secret is next; on failure the room is reported and the counter stays |
| Heartbeat.WebHeartBeat.XBeats | WebHeartBeat.py:169-217 | the beats, counter and closed rooms are those of `XSpec` from the current counter |
| Heartbeat.WebHeartBeat.XLoop | WebHeartBeat.py:143-218 | a failed room lookup dies silently; a failed E heartbeat reports the room and then dies; otherwise the counter advances once and the beats are those of `XSpec` with the E heartbeat's secret |
| Danmaku.DifferencesMembers | SendDanmaku.py:66 | a polled room is kept exactly when the uid does not hold it; none are kept exactly when all are held |
| Danmaku.DanmakuSender.constructor | SendDanmaku.py:36-46 | the uids are served with no rooms; the engine has no users and its `on_del_room` forwards to `close` |
| Danmaku.DanmakuSender.AddUser | SendDanmaku.py:48-53 | the uids are served with empty room sets and fresh engine users; other uids keep their rooms and their engine users |
| Danmaku.DanmakuSender.SetCookies | SendDanmaku.py:55-58 | ValueError for an unserved uid, or for one the engine does not know; otherwise the credential gets the tokens and is started, keeping its checking flag and error count |
| Danmaku.DanmakuSender.Close | SendDanmaku.py:84-90 | removes exactly the listed rooms from the uid's set; an unserved uid changes nothing |
| Danmaku.DanmakuSender.PollStep | SendDanmaku.py:65-70 | the rooms not held go to `add_heartbeat`, which fails exactly when the engine does not know the uid and then changes nothing; otherwise the uid holds the union of old and polled rooms, other uids keep theirs, the engine's rooms, counter and tasks are those of `AddSpec` and `TasksFor` |
| Danmaku.AddEach | SendDanmaku.py:68-69 | after adding each new room, the set holds exactly its old rooms and the new ones |
| Danmaku.DanmakuSender.Open | SendDanmaku.py:60-71 | an unserved uid returns at once; otherwise, after the polls, the uid holds exactly its old rooms and every polled room, unless the engine does not know it, in which case nothing changes; other uids keep their rooms; open rooms stay open, rooms newly known to the engine were polled, earlier tasks are kept and every new task runs for the uid and a polled room |
| Danmaku.Flatten | SendDanmaku.py:64-65 | a room is in the polls' concatenation exactly when some poll lists it |
| Danmaku.EngineGrowsTrans | SendDanmaku.py:64-70 | two rounds of polling change the engine as one round with both rounds' rooms would |
| Danmaku.RoomsGrowTrans | SendDanmaku.py:66-69 | two rounds of polling change the rooms as one round with both rounds' rooms would |
| Danmaku.DanmakuSender.HeartbeatFailed | SendDanmaku.py:40 | a wired failure marks uid and room closed and removes the room from the uid's set; counters are unchanged |
| Danmaku.FailThenPoll | SendDanmaku.py:65-69 | after a heartbeat failure, the next poll that lists the room holds it again and resubmits its web heartbeat |
| Danmaku.InitialUidNeedsAddUser | SendDanmaku.py:39 | `set_cookies` for a uid given only to the constructor raises ValueError |

## Left out

- HTTP is not modelled. Each reply is a parameter; each request is returned as data or only counted. Header updates and the user agent string are also left out.
- RSA-OAEP encryption, hex encoding and the lxml scrape of the correspond page are left out. The model keeps the plaintext `refresh_<ts>`; the page is a reply carrying the scraped csrf or a failure.
- JSON is read and written as maps from keys to int or string values. The text encoding itself is left out. `cookies.json` is a parameter (`None` when the file does not exist) or a result. A file that is not valid JSON is not modelled.
- HMAC, MD5 and the other digests are a function parameter. `GenSShape` assumes only that they return lowercase hex of the right length.
- base64 is left out: the webHeartBeat payload is modelled before encoding.
- Threads and the thread pool are not modelled as concurrency:
  - Each loop runs on its own, so interleavings over the shared `closed` and `num` maps are not covered.
  - Starting a thread is a flag.
  - Submitting to the pool appends to `tasks`.
- `time.sleep` and `time.time` are left out. Timestamps and the JSON payload to sign come with each tick.
- Randomness is left out:
  - `randint` (the sleep length) is not used by anything else.
  - `random.choice` is a nondeterministic pick.
  - `random.choices` is a list of drawn indexes.
  - `uuid1` is not modelled.
- `print` and tracebacks are left out.
- `send_danmaku`, `fishing`, `put_danmaku`, the danmaku queues, the scheduler and `get_fishing_list` are left out. They are network or scheduling code outside the room bookkeeping. The polled room lists are parameters.
- Danmaku.DanmakuSender.Open: runs a finite script of polls instead of `while True`.
- Credential.BiliCookie.RefreshLoop: runs a finite script of ticks instead of an unbounded loop; a script that runs out ends as still running.
- Heartbeat.WebHeartBeat.XLoop: the device string, `ruid`, `ets`, `ts` and csrf fields of the X and E requests are not modelled. A heartbeat records its id, signature, benchmark and sequence number.
- KeepAlive.CookieKeepAlive.Run: states that each saved file is the written form of a non-empty pool, but not which pool; `RunRound` ties each file to the pool of its round.
- Credential.RecordUid: a `UID` stored as a JSON value other than an int (a string, say) is read as missing, so the record counts as malformed; Python would carry on with it.
- Credential.RecordTokens: a token stored as a number or other non-text value is read as missing, so the record counts as malformed; Python would store it as it is.
- Credential.RefreshCookieSpec: a code-0 refresh reply always carries the four cookies and `data.refresh_token`. Given one without the token, the source installs the cookies, sends the confirmation and then raises KeyError (BiliUser/BiliCookie.py:157); that path is not modelled, and cookies missing from the reply (`None` in Python) are not either.

## Findings

| source | as written | input that shows it | evidently intended | confidence | as-written member | corrected member |
|---|---|---|---|---|---|---|
| WebHeartBeat.py:324-326 | `split()` of the alphabet, which has no whitespace, gives a one-word list, so `random.choices` repeats the whole 74-character alphabet five times | any clock value and any five draws give the same suffix: the alphabet repeated five times | one random alphabet character per draw (`list(...)` instead of `split()`), so the seed varies with the draws | not executed | Signing.DeviceSeedIgnoresDraws | Signing.DeviceSeedUsesDraws |
