/**
 * The RoomManager object of websocket-server/RoomManager.js, with its state updated in place.
 *
 * `outbox` is every `ws.send` made so far, in order, each addressed by the user id whose socket
 * it went to. `pending` holds the `setTimeout` callbacks that have not run yet; `RunTask` runs any
 * one of them, so every order the timers could fire in is covered. The clock is a parameter of
 * every event and never goes backwards (`clock`).
 */
module RoomServer {
  import opened Types
  import opened Decimal
  import opened JsMaps
  import opened RoomLogic

  /** The ids `user_1` … `user_<counter>` handed out so far. */
  function IssuedIds(counter: nat): (ids: set<UserId>)
    ensures |ids| <= counter
  {
    if counter == 0 then {} else IssuedIds(counter - 1) + {UserIdOf(counter)}
  }

  /** An id is issued exactly when its number is one of the first `counter`. */
  lemma {:induction false} IssuedExactly(counter: nat, n: nat)
    ensures UserIdOf(n) in IssuedIds(counter) <==> 1 <= n <= counter
  {
    if counter > 0 {
      IssuedExactly(counter - 1, n);
      if UserIdOf(n) == UserIdOf(counter) {
        UserIdInjective(n, counter);
      }
    }
  }

  /** What every room of a consistent manager satisfies. */
  ghost predicate RoomValid(room: Room, counter: nat, clock: Time) {
    && StampedBy(room, clock)
    && room.users.m.Keys <= IssuedIds(counter)
    && room.cursors.m.Keys <= room.users.m.Keys
  }

  ghost predicate AllValid(rooms: map<RoomId, Room>, counter: nat, clock: Time) {
    forall rid :: rid in rooms ==> RoomValid(rooms[rid], counter, clock)
  }

  /** Replacing one room by a consistent one keeps the table consistent, also at a later time. */
  lemma AllValidPut(rooms: map<RoomId, Room>, roomId: RoomId, r: Room, counter: nat, clock: Time, now: Time)
    requires AllValid(rooms, counter, clock) && clock <= now && RoomValid(r, counter, now)
    ensures AllValid(rooms[roomId := r], counter, now)
  {
    var updated := rooms[roomId := r];
    forall rid | rid in updated ensures RoomValid(updated[rid], counter, now) {
      if rid != roomId {
        assert RoomValid(rooms[rid], counter, clock);
      }
    }
  }

  /** The next id `user_<counter+1>` is in no room, neither as a member nor as a cursor. */
  lemma NextIdFresh(rooms: map<RoomId, Room>, counter: nat, clock: Time)
    requires AllValid(rooms, counter, clock)
    ensures forall rid :: rid in rooms ==> UserIdOf(counter + 1) !in rooms[rid].users.m && UserIdOf(counter + 1) !in rooms[rid].cursors.m
    ensures AllValid(rooms, counter + 1, clock)
  {
    IssuedExactly(counter, counter + 1);
    forall rid | rid in rooms
      ensures UserIdOf(counter + 1) !in rooms[rid].users.m && RoomValid(rooms[rid], counter + 1, clock)
    {
      assert RoomValid(rooms[rid], counter, clock);
    }
  }

  /** Every pending task belongs to an existing room, and every deferred write arrived by `clock`. */
  ghost predicate TasksValid(pending: seq<Task>, rooms: map<RoomId, Room>, clock: Time) {
    forall t :: t in pending ==> t.roomId in rooms && (t.Commit? ==> t.t0 <= clock)
  }

  lemma TasksValidAppend(p: seq<Task>, q: seq<Task>, rooms: map<RoomId, Room>, rooms': map<RoomId, Room>,
                         clock: Time, now: Time)
    requires TasksValid(p, rooms, clock) && TasksValid(q, rooms', now)
    requires clock <= now && rooms.Keys <= rooms'.Keys
    ensures TasksValid(p + q, rooms', now)
  {
  }

  /** Joining with the newest id keeps a room consistent. */
  lemma JoinValid(room: Room, uid: UserId, user: User, now: Time, counter: nat, clock: Time)
    requires RoomValid(room, counter, clock) && clock <= now && uid == UserIdOf(counter) && counter >= 1
    ensures RoomValid(JoinEffect(room, uid, user, now).room, counter, now)
  {
    IssuedExactly(counter, counter);
  }

  /** A join under the next id `user_<counter+1>` keeps the table consistent. */
  lemma JoinKeepsValid(rooms: map<RoomId, Room>, roomId: RoomId, uid: UserId, user: User, joined: Room,
                       counter: nat, clock: Time, now: Time)
    requires AllValid(rooms, counter, clock) && clock <= now && uid == UserIdOf(counter + 1)
    requires var room0 := if roomId in rooms then rooms[roomId] else NewRoom(now);
      joined == room0.(users := Put(room0.users, uid, user), lastActivity := now)
    ensures AllValid(rooms[roomId := joined], counter + 1, now)
  {
    var room0 := if roomId in rooms then rooms[roomId] else NewRoom(now);
    assert AllValid(rooms, counter + 1, clock) && RoomValid(room0, counter + 1, clock) by {
      NextIdFresh(rooms, counter, clock);
      if roomId in rooms {
        assert RoomValid(rooms[roomId], counter + 1, clock);
      }
    }
    assert RoomValid(joined, counter + 1, now) by {
      JoinValid(room0, uid, user, now, counter + 1, clock);
      assert JoinEffect(room0, uid, user, now).room == joined;
    }
    AllValidPut(rooms, roomId, joined, counter + 1, clock, now);
  }

  lemma TasksValidGrow(p: seq<Task>, rooms: map<RoomId, Room>, rooms': map<RoomId, Room>, clock: Time, now: Time)
    requires TasksValid(p, rooms, clock) && clock <= now && rooms.Keys <= rooms'.Keys
    ensures TasksValid(p, rooms', now)
  {
  }

  /** Storing a key twice is storing it once, with the second value. */
  lemma UpdateTwice<K, V>(m: map<K, V>, k: K, a: V, b: V)
    ensures m[k := a][k := b] == m[k := b]
  {
  }

  /**
   * addUser's register step: the room getOrCreateRoom yields, with the next id stored in it, keeps
   * the manager consistent at the new time, and that id is in no room yet.
   */
  lemma RegisterValid(rooms: map<RoomId, Room>, pending: seq<Task>, roomId: RoomId, uid: UserId, user: User,
                      joined: Room, counter: nat, clock: Time, now: Time)
    requires AllValid(rooms, counter, clock) && TasksValid(pending, rooms, clock) && clock <= now
    requires uid == UserIdOf(counter + 1)
    requires var room0 := if roomId in rooms then rooms[roomId] else NewRoom(now);
      joined == room0.(users := Put(room0.users, uid, user), lastActivity := now)
    ensures AllValid(rooms[roomId := joined], counter + 1, now) && TasksValid(pending, rooms[roomId := joined], now)
    ensures forall rid :: rid in rooms ==> uid !in rooms[rid].users.m && uid !in rooms[rid].cursors.m
  {
    NextIdFresh(rooms, counter, clock);
    JoinKeepsValid(rooms, roomId, uid, user, joined, counter, clock, now);
    TasksValidGrow(pending, rooms, rooms[roomId := joined], clock, now);
  }

  /** The sends of a broadcast over the room's first `n` members. */
  function FanoutUpTo(users: OrderedMap<UserId, User>, msg: ServerMsg, exclude: Option<UserId>, n: nat): seq<Delivery>
    requires n <= |users.keys|
  {
    assert forall id :: id in users.keys[..n] ==> id in users.keys;
    FanoutOver(users.keys[..n], users.m, msg, exclude)
  }

  /** A broadcast over one more member is the broadcast so far plus that member's send, if any. */
  lemma FanoutUpToStep(users: OrderedMap<UserId, User>, msg: ServerMsg, exclude: Option<UserId>, i: nat)
    requires i < |users.keys|
    ensures users.keys[i] in users.m
    ensures FanoutUpTo(users, msg, exclude, i + 1) == FanoutUpTo(users, msg, exclude, i)
      + (if exclude != Some(users.keys[i]) && users.m[users.keys[i]].open then [Delivery(users.keys[i], msg)] else [])
  {
    assert users.keys[..i + 1][..i] == users.keys[..i];
  }

  /** Over every member it is the whole broadcast. */
  lemma FanoutUpToAll(users: OrderedMap<UserId, User>, msg: ServerMsg, exclude: Option<UserId>)
    ensures FanoutUpTo(users, msg, exclude, |users.keys|) == Fanout(users, msg, exclude)
  {
    assert users.keys[..|users.keys|] == users.keys;
  }

  /** Handling a message keeps a room consistent, at the new time. */
  lemma DispatchValid(room: Room, roomId: RoomId, uid: UserId, msg: ClientMsg, now: Time, suffix: string, counter: nat, clock: Time)
    requires uid in room.users.m && RoomValid(room, counter, clock) && clock <= now
    ensures RoomValid(DispatchEffect(room, roomId, uid, msg, now, suffix).room, counter, now)
  {
    DispatchKeepsStamps(room, roomId, uid, msg, now, suffix);
  }

  /** Running a task keeps a room consistent, at the new time. */
  lemma TaskValid(room: Room, t: Task, now: Time, counter: nat, clock: Time)
    requires RoomValid(room, counter, clock) && clock <= now && (t.Commit? ==> t.t0 <= clock)
    ensures RoomValid(TaskEffect(room, t, now).room, counter, now)
  {
    TaskKeepsStamps(room, t, now);
  }

  /** addUser's two sends, after the register step, are the messages of `JoinEffect`. */
  lemma JoinWire(room0: Room, uid: UserId, user: User, now: Time, joined: Room, before: seq<Delivery>, after: seq<Delivery>)
    requires joined == room0.(users := Put(room0.users, uid, user), lastActivity := now)
    requires after == (before + (if user.open then [Delivery(uid, InitialState(uid, Snapshot(joined, uid)))] else []))
      + Fanout(joined.users, UserJoined(uid, Info(uid, user)), Some(uid))
    ensures JoinEffect(room0, uid, user, now).room == joined
    ensures after == before + JoinEffect(room0, uid, user, now).sent
  {
  }

  /** Running the pending task `i` keeps the manager consistent, at the new time. */
  lemma TaskKeepsValid(rooms: map<RoomId, Room>, pending: seq<Task>, i: nat, counter: nat, clock: Time, now: Time)
    requires AllValid(rooms, counter, clock) && TasksValid(pending, rooms, clock) && clock <= now && i < |pending|
    ensures pending[i].roomId in rooms
    ensures var t := pending[i];
      var o := TaskEffect(rooms[t.roomId], t, now);
      && AllValid(rooms[t.roomId := o.room], counter, now)
      && TasksValid(pending[..i] + pending[i + 1..] + o.tasks, rooms[t.roomId := o.room], now)
  {
    var t := pending[i];
    assert t in pending;
    var room := rooms[t.roomId];
    var o := TaskEffect(room, t, now);
    assert RoomValid(room, counter, clock);
    TaskValid(room, t, now, counter, clock);
    AllValidPut(rooms, t.roomId, o.room, counter, clock, now);
    var rest := pending[..i] + pending[i + 1..];
    assert TasksValid(rest, rooms, clock) by {
      forall u | u in rest ensures u in pending {
      }
    }
    TaskKeepsStamps(room, t, now);
    TasksValidAppend(rest, o.tasks, rooms, rooms[t.roomId := o.room], clock, now);
  }

  class RoomManager {
    var rooms: map<RoomId, Room>
    var counter: nat
    var outbox: seq<Delivery>
    var pending: seq<Task>
    ghost var clock: Time

    ghost predicate Valid()
      reads this`rooms, this`counter, this`clock, this`pending
    {
      && AllValid(rooms, counter, clock)
      && TasksValid(pending, rooms, clock)
    }

    constructor (now: Time)
      ensures Valid()
      ensures rooms == map[] && counter == 0 && outbox == [] && pending == [] && clock == now
    {
      rooms := map[];
      counter := 0;
      outbox := [];
      pending := [];
      clock := now;
    }

    /** An existing room is returned as it is; otherwise a new, empty one is stored and returned. */
    method GetOrCreateRoom(roomId: RoomId, now: Time) returns (room: Room)
      requires Valid() && clock <= now
      modifies this`rooms, this`clock
      ensures Valid() && clock == now
      ensures roomId in old(rooms) ==> rooms == old(rooms) && room == old(rooms[roomId])
      ensures roomId !in old(rooms) ==> rooms == old(rooms)[roomId := NewRoom(now)]
      ensures roomId !in old(rooms) ==> room.users.m == map[] && room.objects.m == map[] && room.cursors.m == map[]
      ensures roomId in rooms && rooms[roomId] == room
    {
      clock := now;
      if roomId !in rooms {
        rooms := rooms[roomId := NewRoom(now)];
      }
      room := rooms[roomId];
    }

    /**
     * Registers a new member under the next id `user_<counter+1>`, which no room has seen, sends
     * it INITIAL_STATE and tells the others USER_JOINED.
     */
    method AddUser(roomId: RoomId, name: Option<string>, role: Option<string>, color: Option<string>,
                   pick: ColorIndex, open: bool, now: Time) returns (uid: UserId)
      requires Valid() && clock <= now
      modifies this
      ensures Valid() && clock == now
      ensures counter == old(counter) + 1 && uid == UserIdOf(counter)
      ensures forall rid :: rid in old(rooms) ==> uid !in old(rooms)[rid].users.m && uid !in old(rooms)[rid].cursors.m
      ensures var room0 := if roomId in old(rooms) then old(rooms)[roomId] else NewRoom(now);
        var o := JoinEffect(room0, uid, NewUser(uid, name, role, color, pick, now, open), now);
        rooms == old(rooms)[roomId := o.room] && outbox == old(outbox) + o.sent
      ensures pending == old(pending)
    {
      ghost var outbox0 := outbox;
      ghost var room0 := if roomId in rooms then rooms[roomId] else NewRoom(now);
      var user;
      uid, user := Register(roomId, name, role, color, pick, open, now);
      SendInitialState(roomId, uid, open);
      BroadcastToRoom(roomId, UserJoined(uid, Info(uid, user)), Some(uid));
      JoinWire(room0, uid, user, now, rooms[roomId], outbox0, outbox);
    }

    /** The first half of addUser: draw the id, build the user record and store it in the room. */
    method Register(roomId: RoomId, name: Option<string>, role: Option<string>, color: Option<string>,
                    pick: ColorIndex, open: bool, now: Time) returns (uid: UserId, user: User)
      requires Valid() && clock <= now
      modifies this`rooms, this`counter, this`clock
      ensures Valid() && clock == now
      ensures counter == old(counter) + 1 && uid == UserIdOf(counter)
      ensures user == NewUser(uid, name, role, color, pick, now, open)
      ensures forall rid :: rid in old(rooms) ==> uid !in old(rooms)[rid].users.m && uid !in old(rooms)[rid].cursors.m
      ensures var room0 := if roomId in old(rooms) then old(rooms)[roomId] else NewRoom(now);
        rooms == old(rooms)[roomId := room0.(users := Put(room0.users, uid, user), lastActivity := now)]
    {
      // getOrCreateRoom's lookup, on values: a new room is stored only to be replaced just below
      var room := if roomId in rooms then rooms[roomId] else NewRoom(now);
      uid := UserIdOf(counter + 1);
      user := NewUser(uid, name, role, color, pick, now, open);
      var joined := room.(users := Put(room.users, uid, user), lastActivity := now);
      RegisterValid(rooms, pending, roomId, uid, user, joined, counter, clock, now);
      rooms, counter, clock := rooms[roomId := joined], counter + 1, now;
    }

    /** Forgets the member and its cursor and tells who is left; a no-op for an absent room or user. */
    method RemoveUser(roomId: RoomId, uid: UserId)
      requires Valid()
      modifies this`rooms, this`outbox
      ensures Valid()
      ensures roomId !in old(rooms) ==> rooms == old(rooms) && outbox == old(outbox)
      ensures roomId in old(rooms) ==>
        var o := LeaveEffect(old(rooms)[roomId], uid);
        rooms == old(rooms)[roomId := o.room] && outbox == old(outbox) + o.sent
    {
      if roomId !in rooms {
        return;
      }
      var room := rooms[roomId];
      if uid !in room.users.m {
        assert rooms[roomId := rooms[roomId]] == rooms;
        return;
      }
      assert RoomValid(room, counter, clock);
      var left := room.(users := Delete(room.users, uid), cursors := Delete(room.cursors, uid));
      assert RoomValid(left, counter, clock);
      AllValidPut(rooms, roomId, left, counter, clock, clock);
      rooms := rooms[roomId := left];
      BroadcastToRoom(roomId, UserLeft(uid), None);
    }

    /** INITIAL_STATE to the joiner's socket: every object, every other user, every other cursor. */
    method SendInitialState(roomId: RoomId, uid: UserId, open: bool)
      modifies this`outbox
      ensures roomId !in rooms ==> outbox == old(outbox)
      ensures roomId in rooms ==>
        outbox == old(outbox) + (if open then [Delivery(uid, InitialState(uid, Snapshot(rooms[roomId], uid)))] else [])
    {
      if roomId !in rooms {
        return;
      }
      SendToUser(uid, open, InitialState(uid, Snapshot(rooms[roomId], uid)));
    }

    /** A send that happens only on an open socket. */
    method SendToUser(to: UserId, open: bool, msg: ServerMsg)
      modifies this`outbox
      ensures open ==> outbox == old(outbox) + [Delivery(to, msg)]
      ensures !open ==> outbox == old(outbox)
    {
      if open {
        outbox := outbox + [Delivery(to, msg)];
      }
    }

    /** One send per open member of the room, in member order, skipping `exclude`. */
    method BroadcastToRoom(roomId: RoomId, msg: ServerMsg, exclude: Option<UserId>)
      modifies this`outbox
      ensures roomId !in rooms ==> outbox == old(outbox)
      ensures roomId in rooms ==> outbox == old(outbox) + Fanout(rooms[roomId].users, msg, exclude)
    {
      if roomId !in rooms {
        return;
      }
      var users := rooms[roomId].users;
      var i := 0;
      while i < |users.keys|
        invariant 0 <= i <= |users.keys|
        invariant outbox == old(outbox) + FanoutUpTo(users, msg, exclude, i)
      {
        var id := users.keys[i];
        FanoutUpToStep(users, msg, exclude, i);
        if exclude != Some(id) && users.m[id].open {
          outbox := outbox + [Delivery(id, msg)];
        }
        i := i + 1;
      }
      FanoutUpToAll(users, msg, exclude);
    }

    /**
     * A message from a socket: ignored unless the room and the member exist; otherwise the room's
     * activity time is stamped and the message goes to its handler.
     */
    method HandleMessage(roomId: RoomId, uid: UserId, msg: ClientMsg, now: Time, suffix: string)
      requires Valid() && clock <= now
      modifies this
      ensures Valid() && clock == now && counter == old(counter)
      ensures roomId !in old(rooms) || uid !in old(rooms)[roomId].users.m ==>
        rooms == old(rooms) && outbox == old(outbox) && pending == old(pending)
      ensures roomId in old(rooms) && uid in old(rooms)[roomId].users.m ==>
        var o := DispatchEffect(old(rooms)[roomId], roomId, uid, msg, now, suffix);
        rooms == old(rooms)[roomId := o.room] && outbox == old(outbox) + o.sent && pending == old(pending) + o.tasks
    {
      clock := now;
      if roomId !in rooms {
        return;
      }
      var room := rooms[roomId];
      if uid !in room.users.m {
        return;
      }
      ghost var o := DispatchEffect(room, roomId, uid, msg, now, suffix);
      DispatchValid(room, roomId, uid, msg, now, suffix, counter, old(clock));
      DispatchKeepsStamps(room, roomId, uid, msg, now, suffix);
      AllValidPut(rooms, roomId, o.room, counter, old(clock), now);
      TasksValidAppend(pending, o.tasks, rooms, rooms[roomId := o.room], old(clock), now);
      Route(roomId, uid, msg, now, suffix);
    }

    /** The switch of handleMessage, after the activity stamp. */
    method Route(roomId: RoomId, uid: UserId, msg: ClientMsg, now: Time, suffix: string)
      requires roomId in rooms && uid in rooms[roomId].users.m
      modifies this`rooms, this`outbox, this`pending
      ensures var o := DispatchEffect(old(rooms)[roomId], roomId, uid, msg, now, suffix);
        rooms == old(rooms)[roomId := o.room] && outbox == old(outbox) + o.sent && pending == old(pending) + o.tasks
    {
      var room := rooms[roomId];
      ghost var o := DispatchEffect(room, roomId, uid, msg, now, suffix);
      var stamped := room.(lastActivity := now);
      UpdateTwice(rooms, roomId, stamped, o.room);
      rooms := rooms[roomId := stamped];
      match msg {
        case CreateObject(newId, kind, data) => HandleCreateObject(roomId, uid, newId, kind, data, now, suffix);
        case UpdateObject(id, delta) => HandleUpdateObject(roomId, uid, id, delta, now);
        case DeleteObject(id) => HandleDeleteObject(roomId, uid, id);
        case MoveObject(id, x, y) => HandleMoveObject(roomId, uid, id, x, y, now);
        case CursorMove(x, y) => HandleCursorMove(roomId, uid, x, y, now);
        case TriggerRaceCondition(testId) => HandleRaceConditionTest(roomId, uid, testId, now);
        case UnknownType(_) =>
      }
    }

    method HandleCreateObject(roomId: RoomId, uid: UserId, newId: Option<string>, kind: ObjectType, data: Data,
                              now: Time, suffix: string)
      requires roomId in rooms && uid in rooms[roomId].users.m
      modifies this`rooms, this`outbox
      ensures var o := CreateEffect(old(rooms)[roomId], uid, newId, kind, data, now, suffix);
        rooms == old(rooms)[roomId := o.room] && outbox == old(outbox) + o.sent
    {
      var room := rooms[roomId];
      var user := room.users.m[uid];
      if user.role == Viewer {
        SendToUser(uid, user.open, Error(CreateDenied, Some("CREATE_OBJECT")));
        assert rooms[roomId := rooms[roomId]] == rooms;
        return;
      }
      var id := Or(newId, GeneratedId(now, suffix));
      var rec := ObjectRecord(kind, data, now, uid, now, uid);
      rooms := rooms[roomId := room.(objects := Put(room.objects, id, rec))];
      BroadcastToRoom(roomId, ObjectCreated(id, WithId(id, rec)), None);
    }

    method HandleUpdateObject(roomId: RoomId, uid: UserId, id: ObjectId, delta: Data, now: Time)
      requires roomId in rooms && uid in rooms[roomId].users.m
      modifies this`rooms, this`outbox
      ensures var o := UpdateEffect(old(rooms)[roomId], uid, id, delta, now);
        rooms == old(rooms)[roomId := o.room] && outbox == old(outbox) + o.sent
    {
      var room := rooms[roomId];
      var user := room.users.m[uid];
      if user.role == Viewer {
        SendToUser(uid, user.open, Error(UpdateDenied, Some("UPDATE_OBJECT")));
        assert rooms[roomId := rooms[roomId]] == rooms;
        return;
      }
      if id !in room.objects.m {
        assert rooms[roomId := rooms[roomId]] == rooms;
        return;
      }
      var current := room.objects.m[id];
      var updated := current.(data := current.data + delta, lastModified := now, lastModifiedBy := uid);
      rooms := rooms[roomId := room.(objects := Put(room.objects, id, updated))];
      BroadcastToRoom(roomId, ObjectUpdated(id, delta, now, uid), None);
    }

    /** Checks role and object, then schedules the deferred write with the arrival time and snapshot. */
    method HandleMoveObject(roomId: RoomId, uid: UserId, id: ObjectId, x: int, y: int, now: Time)
      requires roomId in rooms && uid in rooms[roomId].users.m
      modifies this`rooms, this`outbox, this`pending
      ensures var o := MoveEffect(old(rooms)[roomId], roomId, uid, id, x, y, now);
        rooms == old(rooms)[roomId := o.room] && outbox == old(outbox) + o.sent && pending == old(pending) + o.tasks
    {
      var room := rooms[roomId];
      var user := room.users.m[uid];
      assert rooms[roomId := rooms[roomId]] == rooms;
      if user.role == Viewer {
        SendToUser(uid, user.open, Error(MoveDenied, Some("MOVE_OBJECT")));
        return;
      }
      if id !in room.objects.m {
        return;
      }
      pending := pending + [Commit(roomId, id, x, y, now, uid, room.objects.m[id])];
    }

    method HandleDeleteObject(roomId: RoomId, uid: UserId, id: ObjectId)
      requires roomId in rooms && uid in rooms[roomId].users.m
      modifies this`rooms, this`outbox
      ensures var o := DeleteEffect(old(rooms)[roomId], uid, id);
        rooms == old(rooms)[roomId := o.room] && outbox == old(outbox) + o.sent
    {
      var room := rooms[roomId];
      var user := room.users.m[uid];
      if user.role == Viewer {
        SendToUser(uid, user.open, Error(DeleteDenied, Some("DELETE_OBJECT")));
        assert rooms[roomId := rooms[roomId]] == rooms;
        return;
      }
      if id !in room.objects.m {
        assert rooms[roomId := rooms[roomId]] == rooms;
        return;
      }
      rooms := rooms[roomId := room.(objects := Delete(room.objects, id))];
      BroadcastToRoom(roomId, ObjectDeleted(id, uid), None);
    }

    method HandleCursorMove(roomId: RoomId, uid: UserId, x: int, y: int, now: Time)
      requires roomId in rooms
      modifies this`rooms, this`outbox
      ensures var o := CursorEffect(old(rooms)[roomId], uid, x, y, now);
        rooms == old(rooms)[roomId := o.room] && outbox == old(outbox) + o.sent
    {
      var room := rooms[roomId];
      rooms := rooms[roomId := room.(cursors := Put(room.cursors, uid, CursorRecord(x, y, now)))];
      BroadcastToRoom(roomId, CursorMoved(uid, x, y), Some(uid));
    }

    /** Creates the test object if it is missing, then schedules the two conflicting moves. */
    method HandleRaceConditionTest(roomId: RoomId, uid: UserId, testId: Option<string>, now: Time)
      requires roomId in rooms
      modifies this`rooms, this`outbox, this`pending
      ensures var o := RaceTestEffect(old(rooms)[roomId], roomId, uid, testId, now);
        rooms == old(rooms)[roomId := o.room] && outbox == old(outbox) + o.sent && pending == old(pending) + o.tasks
    {
      var room := rooms[roomId];
      var id := Or(testId, RaceTestId);
      if id !in room.objects.m {
        var rec := RaceTestRecord(uid, now);
        rooms := rooms[roomId := room.(objects := Put(room.objects, id, rec))];
        BroadcastToRoom(roomId, ObjectCreated(id, WithId(id, rec)), None);
      } else {
        assert rooms[roomId := rooms[roomId]] == rooms;
      }
      pending := pending + [Invoke(roomId, uid, id, 200, 200)];
      pending := pending + [Invoke(roomId, uid, id, 400, 400)];
    }

    /** The deferred write of a move: dropped if the object is strictly newer, else written and announced. */
    method CommitMove(t: Task)
      requires t.Commit? && t.roomId in rooms
      modifies this`rooms, this`outbox
      ensures var o := CommitEffect(old(rooms)[t.roomId], t);
        rooms == old(rooms)[t.roomId := o.room] && outbox == old(outbox) + o.sent
    {
      var room := rooms[t.roomId];
      var current := if t.objectId in room.objects.m then Some(room.objects.m[t.objectId]) else None;
      if current.Some? && current.value.lastModified > t.t0 {
        assert rooms[t.roomId := rooms[t.roomId]] == rooms;
        return;
      }
      var moved := Moved(t.snapshot, t.x, t.y, t.t0, t.userId);
      rooms := rooms[t.roomId := room.(objects := Put(room.objects, t.objectId, moved))];
      BroadcastToRoom(t.roomId, ObjectMoved(t.objectId, t.x, t.y, t.t0, t.userId), None);
    }

    /**
     * Fires the timer callback `pending[i]` at time `now`. `ok` is false when the callback throws
     * (an induced move whose sender has left), in which case nothing else happens.
     */
    method RunTask(i: nat, now: Time) returns (ok: bool)
      requires Valid() && clock <= now && i < |pending|
      modifies this
      ensures Valid() && clock == now && counter == old(counter)
      ensures old(pending[i]).roomId in old(rooms)
      ensures var t := old(pending[i]);
        var room := old(rooms)[t.roomId];
        var o := TaskEffect(room, t, now);
        && ok == !Throws(room, t)
        && rooms == old(rooms)[t.roomId := o.room]
        && outbox == old(outbox) + o.sent
        && pending == old(pending[..i] + pending[i + 1..]) + o.tasks
    {
      var t := pending[i];
      var room := rooms[t.roomId];
      ghost var o := TaskEffect(room, t, now);
      var rest := pending[..i] + pending[i + 1..];
      TaskKeepsValid(rooms, pending, i, counter, clock, now);
      pending := rest;
      clock := now;
      ok := true;
      match t
      case Commit(_, _, _, _, _, _, _) => CommitMove(t);
      case Invoke(roomId, uid, id, x, y) =>
        if uid !in room.users.m {
          ok := false;
          assert rooms[t.roomId := rooms[t.roomId]] == rooms;
          return;
        }
        HandleMoveObject(roomId, uid, id, x, y, now);
    }

    /** `ws.close()` on a member's socket: its readyState leaves OPEN, so it gets no more sends. */
    method SocketClosing(roomId: RoomId, uid: UserId)
      requires Valid()
      modifies this`rooms
      ensures Valid()
      ensures roomId in old(rooms) && uid in old(rooms)[roomId].users.m ==>
        var room := old(rooms)[roomId];
        rooms == old(rooms)[roomId := room.(users := Put(room.users, uid, room.users.m[uid].(open := false)))]
      ensures !(roomId in old(rooms) && uid in old(rooms)[roomId].users.m) ==> rooms == old(rooms)
    {
      if roomId in rooms && uid in rooms[roomId].users.m {
        var room := rooms[roomId];
        rooms := rooms[roomId := room.(users := Put(room.users, uid, room.users.m[uid].(open := false)))];
      }
    }
  }
}
