# SyncBoard Pro: a Dafny model of the room server, its connection glue and the client store

SyncBoard Pro is a collaborative whiteboard. A Node.js WebSocket server keeps, per room, the
members, the board objects (sticky notes, drawings, shapes) and the members' cursors. A React
client mirrors one room in a Zustand store. This project models four parts of it and proves what
they promise.

- **The room manager** (`websocket-server/RoomManager.js`). It is modelled in two layers:
  - `RoomLogic` gives each handler as a function from one room's value to an `Outcome`: the room
    afterwards, the `ws.send` deliveries in order, and the `setTimeout` callbacks it schedules.
  - `RoomServer.RoomManager` is the class. It updates `rooms`, `counter`, `outbox` (every
    `ws.send`, addressed by user id) and `pending` (timer callbacks not yet run) in place. Each
    method is proved to agree with the `RoomLogic` functions.
  - A deferred MOVE_OBJECT write is a `Commit` task that carries its arrival time and the object
    as read at arrival. The two moves TRIGGER_RACE_CONDITION schedules are `Invoke` tasks.
  - `RunTask(i)` fires any pending task, so every order the timers could fire in is covered.
- **The connection glue** (`websocket-server/index.js`), as `Session.Server` around one manager:
  - join-parameter defaulting;
  - the `connections` table;
  - `wss.clients` with each socket's `isAlive` mark;
  - the message, close, heartbeat and SIGINT handlers.
  - A socket is named by the user id it receives on connection.
- **The client store** (`frontend/hooks/useBoardState.ts`), as `BoardState`. Each action is a
  function from store to store. `initializeFromServer` is a method with one loop per map, proved
  equal to a fold.
- **The socket provider** (`frontend/components/WebSocketProvider.tsx`), as `SocketProvider`:
  - `Apply` is the message switch, mapping each server message to one store action;
  - the class `Provider` covers `connect`, `onopen`, `onerror`, `onclose`, the reconnect timer
    with exponential back-off, and the open-only `send`.

JavaScript `Map`s are modelled with their insertion order (`JsMaps.OrderedMap`). This makes
broadcasts, snapshots and the heartbeat and SIGINT loops deterministic in the order they visit
entries.

The clock, the random id suffix, the random colour index and the socket's open state are
parameters. The clock never goes backwards. One `now` stands for all `Date.now()` calls of one
handler.

Two behaviours of the code that a reader might not expect:

- **Connection order.** The connection handler sends INITIAL_STATE, then USER_JOINED to the
  others (both inside `addUser`), and only then WELCOME (`websocket-server/index.js:54-58`,
  `128-134`). The joiner still receives INITIAL_STATE before WELCOME (`Session.Server.Connect`).
- **Heartbeat.** Nothing ever sets `isAlive` to true (there is no pong handler), so every socket is
  marked at its first heartbeat tick and terminated at its second, however live it is
  (`Session.SecondTickTerminates`).

## Model

| member | source | states |
|---|---|---|
| Types.Or | websocket-server/RoomManager.js:47-49 | JavaScript's or-default on a string: a missing or empty string falls back to the default, any other string is kept |
| Decimal.UserIdInjective | websocket-server/RoomManager.js:43 | distinct counter values give distinct `user_<n>` ids |
| RoomServer.IssuedExactly | websocket-server/RoomManager.js:43 | `user_<n>` has been issued exactly when 1 <= n <= counter |
| RoomServer.NextIdFresh | websocket-server/RoomManager.js:41-43 | the next id is neither a member nor a cursor owner of any room, so ids are never reused |
| RoomLogic.NewUser | websocket-server/RoomManager.js:45-52 | a missing role becomes `editor`; the role is `viewer` exactly when `viewer` was asked for; a missing name is `User <id>`; a missing colour is one of the twelve palette colours |
| RoomLogic.FanoutExact | websocket-server/RoomManager.js:437-448 | a broadcast reaches exactly the open members other than the excluded one, each once, all with the same message |
| RoomLogic.FanoutCount | websocket-server/RoomManager.js:437-448 | with every socket open, a broadcast that excludes `u` makes one delivery per other member |
| RoomLogic.SnapshotObjectsExact | websocket-server/RoomManager.js:114-118 | INITIAL_STATE lists every object exactly once, under its own id, and nothing else |
| RoomLogic.SnapshotUsersExact | websocket-server/RoomManager.js:119-126 | INITIAL_STATE lists every member but the joiner exactly once, and nobody else |
| RoomLogic.SnapshotCursorsExact | websocket-server/RoomManager.js:127-132 | INITIAL_STATE lists the cursor of every member but the joiner exactly once, and nothing else |
| RoomLogic.JoinAnnounces | websocket-server/RoomManager.js:41-75 | a join adds only the joiner. On an open socket the joiner gets exactly one message, INITIAL_STATE, first, listing the room as it was before the join. Every other open member gets USER_JOINED, and nobody else gets anything |
| RoomLogic.LeaveRemovesOnlyLeaver | websocket-server/RoomManager.js:80-102 | a leave removes only that user and its cursor and keeps every object. USER_LEFT goes to exactly the open members still present, each once. An absent user is a no-op, so a second leave is one |
| RoomLogic.CommitDecides | websocket-server/RoomManager.js:292-323 | a deferred move is dropped iff its object exists with lastModified > t0. Otherwise it writes x, y with lastModified = t0 and announces OBJECT_MOVED to every open member. lastModified never goes down |
| RoomLogic.CommitReinsertsDeleted | websocket-server/RoomManager.js:294-309 | a move whose object was deleted while it waited re-inserts the object, rebuilt from the arrival-time snapshot |
| RoomLogic.LaterArrivalWins | websocket-server/RoomManager.js:272-324 | two moves of one object with t0a < t0b and no write between them leave the same room in either run order, with b's x, y |
| RoomLogic.EqualArrivalLastRunWins | websocket-server/RoomManager.js:295 | with equal arrival times neither write is stale, so whichever runs last decides the position |
| RoomLogic.ViewerIsRefused | websocket-server/RoomManager.js:187-355 | a viewer's CREATE/UPDATE/DELETE/MOVE changes only the activity time and schedules nothing. It yields at most one ERROR, to the viewer alone and only while its socket is open, naming the refused action |
| RoomLogic.RaceTestIgnoresRole | websocket-server/RoomManager.js:381-432 | TRIGGER_RACE_CONDITION has no role check. Even for a viewer it creates `race-test-object` at (100, 100) when absent and schedules the (200, 200) and (400, 400) moves |
| RoomLogic.CreateStamps | websocket-server/RoomManager.js:187-225 | an editor's CREATE stores the object under the client id (or the generated one), stamped now and attributed to the sender. It replaces any object with that id and is announced to every open member |
| RoomLogic.UpdateMerges | websocket-server/RoomManager.js:230-267 | an editor's UPDATE of an existing object shallow-merges the delta and restamps lastModified/By, keeping type, createdAt and createdBy, users and cursors. OBJECT_UPDATED with the delta goes to exactly the open members, the sender included, each once. On an unknown id nothing changes and nothing is sent |
| RoomLogic.DeleteIsIdempotent | websocket-server/RoomManager.js:329-355 | DELETE removes the id and keeps users and cursors. For an existing id, OBJECT_DELETED goes to exactly the open members, the sender included, each once. On an absent id it is a no-op that sends nothing, so repeating it changes nothing |
| RoomLogic.MoveDefers | websocket-server/RoomManager.js:272-292 | an editor's MOVE changes nothing yet. On an existing object it schedules one write carrying the arrival time and the object as it is now; on an unknown id nothing |
| RoomLogic.CursorReachesOthers | websocket-server/RoomManager.js:360-376 | CURSOR_MOVE needs no role and overwrites the sender's cursor. It reaches exactly the open members other than the sender: room size minus one when all are open |
| RoomLogic.UnknownTypeIgnored | websocket-server/RoomManager.js:179-181 | an unknown message type only touches the activity time: no reply, no broadcast, no task |
| RoomLogic.DispatchKeepsStamps | websocket-server/RoomManager.js:143-182 | every handler keeps each lastModified <= now and never lowers one. It keeps the member list, adds a cursor only for the sender, and schedules writes with t0 = now for this room only |
| RoomLogic.TaskKeepsStamps | websocket-server/RoomManager.js:292-323 | a timer callback keeps each lastModified <= now, never lowers one, and keeps members and cursors |
| RoomLogic.RaceTestConverges | websocket-server/RoomManager.js:381-432 | the race test end to end, with both moves invoked before either write: with the (200, 200) move invoked strictly before the (400, 400) one, the object ends at (400, 400) in either commit order, in the same room |
| RoomLogic.MovedTwice | websocket-server/RoomManager.js:292-323 | a second deferred write overwrites the position and stamps the first one wrote |
| RoomLogic.CommitBeforeInvoke | websocket-server/RoomManager.js:280-323 | a deferred write on an unchanged object that runs before a later move is invoked gives the same room as invoking both first and committing in arrival order |
| RoomLogic.RaceTestInterleaved | websocket-server/RoomManager.js:381-432 | the third order the random delay allows: the (200, 200) write runs before the (400, 400) move is invoked. The room is the one the other orders reach, with the object at (400, 400) |
| RoomServer.RoomManager.constructor | websocket-server/RoomManager.js:8-17 | no rooms, counter 0, nothing sent or pending |
| RoomServer.RoomManager.GetOrCreateRoom | websocket-server/RoomManager.js:22-36 | an existing room is returned and nothing changes. A missing one is created empty, stored and returned. No room is ever removed |
| RoomServer.RoomManager.AddUser | websocket-server/RoomManager.js:41-75 | the counter goes up by one and the id is `user_<counter>`, in no room before. The rooms and outbox are those of `JoinEffect`; nothing is scheduled |
| RoomServer.RoomManager.Register | websocket-server/RoomManager.js:41-56 | the first half of addUser: draws the fresh id, builds the user and stores it in its (possibly new) room |
| RoomServer.RoomManager.RemoveUser | websocket-server/RoomManager.js:80-102 | an absent room changes nothing. Otherwise the room and outbox are those of `LeaveEffect`, and the room stays even when it is empty |
| RoomServer.RoomManager.SendInitialState | websocket-server/RoomManager.js:107-138 | appends INITIAL_STATE with the room's snapshot for the joiner when its socket is open, nothing otherwise or when the room is missing |
| RoomServer.RoomManager.SendToUser | websocket-server/RoomManager.js:453-457 | one delivery when the socket is open, none otherwise |
| RoomServer.RoomManager.BroadcastToRoom | websocket-server/RoomManager.js:437-448 | appends the room's fanout in member order; a missing room sends nothing |
| RoomServer.RoomManager.HandleMessage | websocket-server/RoomManager.js:143-182 | a missing room or non-member sender changes nothing. Otherwise rooms, outbox and pending follow `DispatchEffect`, and the consistency invariant is kept |
| RoomServer.RoomManager.Route | websocket-server/RoomManager.js:155-181 | the six-way switch performs the handler's `Outcome` in place |
| RoomServer.RoomManager.HandleCreateObject | websocket-server/RoomManager.js:187-225 | performs `CreateEffect` on the stored room and the outbox |
| RoomServer.RoomManager.HandleUpdateObject | websocket-server/RoomManager.js:230-267 | performs `UpdateEffect` on the stored room and the outbox |
| RoomServer.RoomManager.HandleMoveObject | websocket-server/RoomManager.js:272-292 | performs `MoveEffect`: an ERROR for a viewer, or one deferred write appended to `pending` |
| RoomServer.RoomManager.HandleDeleteObject | websocket-server/RoomManager.js:329-355 | performs `DeleteEffect` on the stored room and the outbox |
| RoomServer.RoomManager.HandleCursorMove | websocket-server/RoomManager.js:360-376 | performs `CursorEffect` on the stored room and the outbox |
| RoomServer.RoomManager.HandleRaceConditionTest | websocket-server/RoomManager.js:381-432 | performs `RaceTestEffect`, including the two induced moves appended to `pending` |
| RoomServer.RoomManager.CommitMove | websocket-server/RoomManager.js:292-323 | the timer callback of a move performs `CommitEffect` on the room it was scheduled for |
| RoomServer.RoomManager.RunTask | websocket-server/RoomManager.js:292-323 | fires pending task i, removes it and appends what it schedules. It reports a throw exactly when an induced move's sender has left, and then changes nothing else |
| RoomServer.RoomManager.SocketClosing | websocket-server/index.js:194 | `ws.close()` leaves the member in its room, no longer open; nothing else changes |
| BoardState.AddObject | frontend/hooks/useBoardState.ts:64-70 | inserts or overwrites the entry under the object's id; every other entry and field is unchanged |
| BoardState.UpdateObject | frontend/hooks/useBoardState.ts:72-86 | on an existing id shallow-merges `data` and leaves every other field of the object, including lastModified/By, as it was. A missing id changes nothing |
| BoardState.DeleteObject | frontend/hooks/useBoardState.ts:88-94 | removes that key only; every other entry is unchanged |
| BoardState.MoveObject | frontend/hooks/useBoardState.ts:96-112 | on an existing id replaces data.x and data.y, keeps the other data keys, and takes the given lastModified/By with no comparison. A missing id changes nothing |
| BoardState.ClearAllObjects | frontend/hooks/useBoardState.ts:114-116 | empties the object map only |
| BoardState.SetCurrentUser | frontend/hooks/useBoardState.ts:119-121 | sets the current user and role; the maps, the tool and the connection flag are unchanged |
| BoardState.AddUser | frontend/hooks/useBoardState.ts:123-129 | inserts or overwrites the user under its id; every other entry is unchanged |
| BoardState.RemoveUser | frontend/hooks/useBoardState.ts:131-137 | removes that user only |
| BoardState.UpdateCursor | frontend/hooks/useBoardState.ts:140-146 | stores a cursor whose userId equals its key, stamped with the local clock; other cursors are unchanged |
| BoardState.RemoveCursor | frontend/hooks/useBoardState.ts:148-154 | removes that cursor only |
| BoardState.SetActiveTool | frontend/hooks/useBoardState.ts:157-159 | changes the tool only |
| BoardState.SetConnected | frontend/hooks/useBoardState.ts:162-164 | changes the connection flag only |
| BoardState.ResetState | frontend/hooks/useBoardState.ts:167-169 | empty maps, no current user, role `editor`, tool SELECT, not connected |
| BoardState.InitializeFromServer | frontend/hooks/useBoardState.ts:172-193 | the three `forEach` loops build exactly the fold `FromServer` of the snapshot lists |
| BoardState.FromServerObjects | frontend/hooks/useBoardState.ts:173-176 | the object map's keys are exactly the listed ids, each under its last listing. Current user, role, tool and connection flag are untouched |
| BoardState.FromServerUsersCursors | frontend/hooks/useBoardState.ts:178-186 | the same for users keyed by id and cursors keyed by their user |
| BoardState.DeleteUndoesAdd | frontend/hooks/useBoardState.ts:64-94 | deleting an object undoes adding it, and deleting twice is deleting once |
| BoardState.LastAppliedMoveWins | frontend/hooks/useBoardState.ts:96-112 | of two moves of one object the one applied last wins, whatever their stamps |
| BoardState.ResetForgets | frontend/hooks/useBoardState.ts:50-58 | a reset yields `initialState` whatever the store held |
| SocketProvider.Apply | frontend/components/WebSocketProvider.tsx:60-135 | the store after one frame: each recognised message is exactly one store action, or RemoveUser then RemoveCursor for USER_LEFT. WELCOME sets the server's id with the local role. USER_JOINED, OBJECT_CREATED and CURSOR_MOVED set one entry and OBJECT_DELETED drops one; every other entry stays. OBJECT_UPDATED merges the delta over the data and keeps the stored stamps. OBJECT_MOVED takes the message's position and stamps unconditionally. Both change nothing for an unknown id. ERROR, SERVER_SHUTDOWN, unknown and unparseable frames change nothing. No frame touches the tool or the connection flag |
| SocketProvider.ApplyAllKeepsLocalFields | frontend/components/WebSocketProvider.tsx:69-132 | no run of frames moves the tool or the connection flag |
| SocketProvider.InertRunChangesNothing | frontend/components/WebSocketProvider.tsx:121-135 | a run of ERROR, SERVER_SHUTDOWN, unknown or unparseable frames leaves the store as it was |
| SocketProvider.Base | frontend/components/WebSocketProvider.tsx:195 | the base interval: a missing or zero `reconnectInterval` means 3000 ms, any other is kept |
| SocketProvider.ScheduleDoubles | frontend/components/WebSocketProvider.tsx:194-201 | the first reconnect waits the base interval and each later one twice the one before |
| SocketProvider.ScheduleIsPlan | frontend/components/WebSocketProvider.tsx:195 | the k-th wait is base * 2^k |
| SocketProvider.ScheduleTotal | frontend/components/WebSocketProvider.tsx:194-201 | the first n waits add up to (2^n - 1) base intervals |
| SocketProvider.FiveAttemptsTotal | frontend/components/WebSocketProvider.tsx:194-201 | the five allowed attempts wait 31 base intervals in all |
| SocketProvider.BackoffIsBounded | frontend/components/WebSocketProvider.tsx:173-203 | between two successful opens at most five delays are armed, and they are the back-off plan's first ones |
| SocketProvider.Provider.constructor | frontend/components/WebSocketProvider.tsx:34-40 | status `connecting`, role `userRole`, or `editor` when it is missing or empty, no attempts, an empty store, then the first `connect()`; a refused address gives status `error` |
| SocketProvider.Provider.Connect | frontend/components/WebSocketProvider.tsx:153-209 | nothing while the socket is open. Otherwise a new socket, status `connecting`; a refused address gives status `error` and no socket |
| SocketProvider.Provider.OnOpen | frontend/components/WebSocketProvider.tsx:173-178 | connected, the store told so, the attempt counter back to 0 |
| SocketProvider.Provider.OnError | frontend/components/WebSocketProvider.tsx:182-185 | only the status changes, to `error` |
| SocketProvider.Provider.OnClose | frontend/components/WebSocketProvider.tsx:187-203 | disconnected and the store told so. A retry is armed with delay base * 2^attempts iff reconnecting is on and fewer than five attempts were made |
| SocketProvider.Provider.FireTimer | frontend/components/WebSocketProvider.tsx:198-201 | the attempt counter goes up by one, then `connect()` runs |
| SocketProvider.Provider.Send | frontend/components/WebSocketProvider.tsx:214-225 | a message is transmitted only while the socket is open, and dropped otherwise |
| SocketProvider.Provider.OnMessage | frontend/components/WebSocketProvider.tsx:60-135 | the store takes `Apply`; WELCOME also sets the provider's current user |
| Session.OrUndefined | websocket-server/index.js:42 | an empty query parameter counts as missing, any other is kept |
| Session.ParamsOf | websocket-server/index.js:40-44 | a missing or empty roomId is `default-room` and role is `editor`; a missing name or colour stays missing; given values are kept |
| Session.BareJoin | websocket-server/index.js:40-58 | a connection with no parameters joins `default-room` as an editor named `User <id>` with a palette colour |
| Session.AgreeJoined | websocket-server/index.js:54-61 | a join on a fresh id, once recorded in the table, keeps table and rooms in agreement |
| Session.AgreeLeave | websocket-server/index.js:104-113 | removing a recorded socket from its room and the table keeps the agreement |
| Session.AgreeRemove | websocket-server/index.js:104-113 | taking a recorded member out of its room and out of the table keeps table and rooms in agreement, whatever else the room holds |
| Session.SweepExact | websocket-server/index.js:215-230 | one heartbeat drops exactly the visited sockets already marked false and marks every other visited one false; others are untouched |
| Session.FirstTickMarks | websocket-server/index.js:227 | a socket not yet marked survives its first heartbeat, marked false |
| Session.SecondTickTerminates | websocket-server/index.js:215-230 | since nothing sets isAlive to true, every socket present at one heartbeat is gone after the next |
| Session.ReapTellsLeaves | websocket-server/index.js:217-224 | the heartbeat sends nothing but USER_LEFT for dropped sockets, never to the socket dropped |
| Session.BeatSweeps | websocket-server/index.js:215-230 | on `wss.clients` the heartbeat is the sweep. The table only loses visited ids that were marked, and keeps every other room |
| Session.BeatReaps | websocket-server/index.js:215-230 | the heartbeat removes from their rooms exactly the sockets marked when it started, in order, with the USER_LEFT notices of those leaves |
| Session.ShutOneKeeps | websocket-server/index.js:188-198 | one SIGINT iteration keeps every room and membership |
| Session.ShutOneCloses | websocket-server/index.js:194 | one SIGINT iteration closes that socket and no other |
| Session.ShutOneSends | websocket-server/index.js:190-193 | one SIGINT iteration sends SERVER_SHUTDOWN to that socket iff it is open |
| Session.ShutAllCloses | websocket-server/index.js:188-198 | the SIGINT loop closes every socket it visits, leaves the others as they were, and keeps every membership |
| Session.ShutAllNotifiesOnlyOpen | websocket-server/index.js:188-198 | SIGINT sends nothing but SERVER_SHUTDOWN, and only to open sockets it visits |
| Session.ShutAllNotifiesOnce | websocket-server/index.js:188-198 | no socket gets SERVER_SHUTDOWN twice |
| Session.ShutAllNotifiesEveryOpen | websocket-server/index.js:188-198 | every open recorded socket gets SERVER_SHUTDOWN |
| Session.QuietWhenAllClosed | websocket-server/RoomManager.js:437-448 | once every recorded socket is closed, no broadcast in any room reaches anyone |
| Session.ShutdownSilencesRooms | websocket-server/index.js:184-198 | after SIGINT the USER_LEFT broadcasts of the close events that follow reach nobody |
| Session.Server.constructor | websocket-server/index.js:11-14 | a fresh manager, an empty connection table and no clients |
| Session.Server.Join | websocket-server/index.js:40-61 | the id is fresh and recorded with the URL's room in the table and in `wss.clients` with isAlive undefined. Rooms and outbox are those of the join on an open socket |
| Session.Server.Record | websocket-server/index.js:61 | `connections.set`: the id is recorded with its room, and added to `wss.clients` unmarked |
| Session.Server.Greet | websocket-server/index.js:128-134 | exactly one WELCOME with the id, the room and the server time goes to the new socket |
| Session.Server.Connect | websocket-server/index.js:35-138 | the join's INITIAL_STATE and USER_JOINED messages, then WELCOME; the new id is recorded in the table and in `wss.clients` |
| Session.Server.Message | websocket-server/index.js:68-99 | a parsed frame is handled in the socket's recorded room as `DispatchEffect` says. An unparseable one yields one ERROR to that socket alone, while open, and changes no room. The socket stays recorded |
| Session.Server.Close | websocket-server/index.js:104-116 | a recorded socket leaves its room and the table. An unrecorded one touches no room and sends nothing, so a socket the heartbeat already removed gets no second USER_LEFT |
| Session.Server.Timer | websocket-server/RoomManager.js:292-323 | a manager timer does to rooms and outbox what `TaskEffect` says, reports a throw exactly as `RunTask` does, and changes neither the table nor `wss.clients` |
| Session.Server.Probe | websocket-server/index.js:216-229 | one heartbeat callback: a socket marked false leaves its room, the table and `wss.clients`; any other is marked false |
| Session.Server.Heartbeat | websocket-server/index.js:215-230 | the interval body is `Beat` over `wss.clients` in order, which `BeatSweeps` and `BeatReaps` characterise |
| Session.Server.Send | websocket-server/index.js:190-193 | a send on a recorded socket is delivered iff it is open |
| Session.Server.Hangup | websocket-server/index.js:194 | `ws.close()` on a recorded socket: it stays a member but is no longer open |
| Session.Server.NotifyAndClose | websocket-server/index.js:189-197 | one SIGINT iteration in place: SERVER_SHUTDOWN if open, then close |
| Session.Server.Shutdown | websocket-server/index.js:184-198 | the SIGINT loop over the table in order performs `ShutAll`, whose lemmas above state what it sends and closes |

## Left out

- Real timers are not modelled: the `setTimeout` delays (0-20 ms, 0 and 5 ms), the 30 s heartbeat and 60 s statistics intervals, and the 5 s forced exit. Pending callbacks run in any order through `RunTask`, and the heartbeat runs when `Heartbeat` is called.
- Randomness and the clock are parameters: `Math.random` (id suffix, colour index, delay) and `Date.now`.
- Logging and statistics (`console.*`, `timestamp()`, `getStats`, `logServerStats`) report only and are left out.
- JSON parsing and serialisation are not modelled. A frame either parses to a client message, or makes the handler throw (`Incoming.Unparseable`).
- The ping frame the heartbeat sends, `ws.terminate()` and the `ws` library's transport are not modelled. After a termination the socket's close event finds no table entry, which `Session.Server.Close` covers.
- Session.Server.Message: the ERROR reply to a frame that throws carries its `message` text but not the `error` field with the exception's text.
- Session.Server.Shutdown: models the SERVER_SHUTDOWN loop only. `wss.close`, `process.exit` and the 5 s fallback exit that follow are left out. A send that throws inside the loop's `try` cannot occur in the model, because a send to a socket that is not open is dropped.
- The `ws.on('error')` and `wss.on('error')` handlers only log; they are left out.
- An induced move whose sender has left reads the role of an undefined user and throws inside a timer callback, which would crash the process. `RunTask` reports this as `ok == false` and changes nothing; what the process does next is not modelled.
- SocketProvider.Apply: for INITIAL_STATE the contract says the result is `BoardState.FromServer` on the payload, and that only the three maps change. Their content is stated by `BoardState.FromServerObjects` and `BoardState.FromServerUsersCursors`, not by `Apply` itself.
- The provider's unmount cleanup (`clearTimeout`, closing the socket) and the context value (`isConnected` derived from the status) are not modelled. React and Zustand mechanics (hooks, `useCallback`, `set`) are not modelled either.
- SocketProvider.Provider.Connect: when `connect()` runs while a socket is still connecting, the model replaces it. The old socket's later events are not modelled.
- Coordinates are whole numbers, so JavaScript's floating-point numbers are not modelled. Object `data` is a flat map, so a shallow merge is map union.
- The UI components, the cursor throttle and the type declarations file are not part of this model. The message and object datatypes follow the declarations' shapes.
