/**
 * The per-room semantics of websocket-server/RoomManager.js, as functions on one room's value.
 *
 * Every handler is a function from the room it runs on to an `Outcome`: the room afterwards, the
 * deliveries it makes (in the order `ws.send` is called) and the deferred tasks it schedules with
 * `setTimeout`. The class RoomServer.RoomManager performs the same steps in place and is proved
 * to agree with these functions; the properties of the protocol are lemmas about them.
 */
module RoomLogic {
  import opened Types
  import opened Decimal
  import opened JsMaps

  /** A member of a room; `open` is the readyState === OPEN test on the member's socket. */
  datatype User = User(role: string, name: string, color: string, joinedAt: Time, open: bool)

  /** An object as the server stores it (its id is the key it is stored under). */
  datatype ObjectRecord = ObjectRecord(
    kind: ObjectType,
    data: Data,
    createdAt: Time,
    createdBy: UserId,
    lastModified: Time,
    lastModifiedBy: UserId)

  datatype CursorRecord = CursorRecord(x: int, y: int, timestamp: Time)

  datatype Room = Room(
    users: OrderedMap<UserId, User>,
    objects: OrderedMap<ObjectId, ObjectRecord>,
    cursors: OrderedMap<UserId, CursorRecord>,
    createdAt: Time,
    lastActivity: Time)

  /**
   * A callback waiting in `setTimeout`. `Commit` is the deferred write of a MOVE_OBJECT: the
   * arrival time `t0` and the object as it was read at arrival (`snapshot`). `Invoke` is one of
   * the two handleMoveObject calls that TRIGGER_RACE_CONDITION schedules.
   */
  datatype Task =
    | Commit(roomId: RoomId, objectId: ObjectId, x: int, y: int, t0: Time, userId: UserId, snapshot: ObjectRecord)
    | Invoke(roomId: RoomId, userId: UserId, objectId: ObjectId, x: int, y: int)

  datatype Outcome = Outcome(room: Room, sent: seq<Delivery>, tasks: seq<Task>)

  const Palette: seq<string> := [
    "#FF6B6B", "#4ECDC4", "#45B7D1", "#FFA07A",
    "#98D8C8", "#F7B731", "#5F27CD", "#00D2D3",
    "#FF6348", "#1DD1A1", "#EE5A6F", "#C44569"]

  /** `Math.floor(Math.random() * colors.length)`. */
  type ColorIndex = i: int | 0 <= i < 12

  const RaceTestId: ObjectId := "race-test-object"

  const CreateDenied: string := "Viewers não têm permissão para criar objetos"
  const UpdateDenied: string := "Viewers não têm permissão para atualizar objetos"
  const MoveDenied: string := "Viewers não têm permissão para mover objetos"
  const DeleteDenied: string := "Viewers não têm permissão para deletar objetos"

  function NewRoom(now: Time): Room {
    Room(Empty(), Empty(), Empty(), now, now)
  }

  /** Only the exact role "viewer" is refused; every other role acts as an editor. */
  predicate IsViewer(u: User) {
    u.role == Viewer
  }

  /** The user record addUser builds from the join data. */
  function NewUser(uid: UserId, name: Option<string>, role: Option<string>, color: Option<string>,
                   pick: ColorIndex, now: Time, open: bool): (u: User)
    ensures role.None? ==> u.role == Editor && !IsViewer(u)
    ensures u.role == Viewer <==> role == Some(Viewer)
    ensures name.None? ==> u.name == "User " + uid
    ensures color.None? || color.value == "" ==> u.color in Palette
    ensures u.joinedAt == now && u.open == open
  {
    User(Or(role, Editor), Or(name, "User " + uid), Or(color, Palette[pick]), now, open)
  }

  function Info(uid: UserId, u: User): UserInfo {
    UserInfo(uid, u.name, u.color, u.role)
  }

  /** `{id, ...object}`. */
  function WithId(id: ObjectId, r: ObjectRecord): BoardObject {
    BoardObject(id, r.kind, r.data, r.createdAt, r.createdBy, r.lastModified, r.lastModifiedBy)
  }

  /** `{userId: id, ...cursor}`. */
  function WithUser(uid: UserId, c: CursorRecord): Cursor {
    Cursor(uid, c.x, c.y, c.timestamp)
  }

  // ---------------------------------------------------------------- broadcastToRoom

  /** The members `broadcastToRoom` writes to: open sockets, minus the excluded id. */
  predicate Receives(users: OrderedMap<UserId, User>, exclude: Option<UserId>, id: UserId) {
    id in users.m && exclude != Some(id) && users.m[id].open
  }

  function FanoutOver(ids: seq<UserId>, users: map<UserId, User>, msg: ServerMsg, exclude: Option<UserId>): seq<Delivery>
    requires forall id :: id in ids ==> id in users
  {
    if ids == [] then []
    else
      var last := ids[|ids| - 1];
      FanoutOver(ids[..|ids| - 1], users, msg, exclude)
        + (if exclude != Some(last) && users[last].open then [Delivery(last, msg)] else [])
  }

  /** The deliveries of `broadcastToRoom(roomId, msg, exclude)`, in the room's member order. */
  function Fanout(users: OrderedMap<UserId, User>, msg: ServerMsg, exclude: Option<UserId>): seq<Delivery> {
    FanoutOver(users.keys, users.m, msg, exclude)
  }

  ghost predicate DistinctRecipients(sent: seq<Delivery>) {
    forall a, b :: 0 <= a < b < |sent| ==> sent[a].to != sent[b].to
  }

  lemma {:induction false} FanoutOverExact(ids: seq<UserId>, users: map<UserId, User>, msg: ServerMsg, exclude: Option<UserId>)
    requires forall id :: id in ids ==> id in users
    requires NoDup(ids)
    ensures var r := FanoutOver(ids, users, msg, exclude);
      && (forall k :: 0 <= k < |r| ==> r[k].msg == msg && r[k].to in ids && exclude != Some(r[k].to) && users[r[k].to].open)
      && (forall id :: id in ids && exclude != Some(id) && users[id].open ==> Delivery(id, msg) in r)
      && DistinctRecipients(r)
  {
    if ids != [] {
      var init, last := ids[..|ids| - 1], ids[|ids| - 1];
      assert NoDup(init);
      assert last !in init;
      FanoutOverExact(init, users, msg, exclude);
      var r := FanoutOver(ids, users, msg, exclude);
      forall id | id in ids && exclude != Some(id) && users[id].open
        ensures Delivery(id, msg) in r
      {
        if id != last {
          assert id in init;
        }
      }
    }
  }

  /**
   * A broadcast reaches exactly the open members other than the excluded one, each of them once,
   * and carries the broadcast message to all of them.
   */
  lemma FanoutExact(users: OrderedMap<UserId, User>, msg: ServerMsg, exclude: Option<UserId>)
    ensures var r := Fanout(users, msg, exclude);
      && (forall d :: d in r ==> d.msg == msg && Receives(users, exclude, d.to))
      && (forall id :: Receives(users, exclude, id) ==> Delivery(id, msg) in r)
      && DistinctRecipients(r)
  {
    FanoutOverExact(users.keys, users.m, msg, exclude);
  }

  lemma {:induction false} FanoutOverCount(ids: seq<UserId>, users: map<UserId, User>, msg: ServerMsg, u: UserId)
    requires forall id :: id in ids ==> id in users && users[id].open
    requires NoDup(ids)
    ensures |FanoutOver(ids, users, msg, Some(u))| == |ids| - (if u in ids then 1 else 0)
  {
    if ids != [] {
      var init := ids[..|ids| - 1];
      assert NoDup(init);
      assert ids == init + [ids[|ids| - 1]];
      FanoutOverCount(init, users, msg, u);
    }
  }

  /** When every socket is open, a broadcast that excludes `u` makes one delivery per other member. */
  lemma FanoutCount(users: OrderedMap<UserId, User>, msg: ServerMsg, u: UserId)
    requires forall id :: id in users.m ==> users.m[id].open
    ensures |Fanout(users, msg, Some(u))| == |users.m.Keys - {u}|
  {
    FanoutOverCount(users.keys, users.m, msg, u);
    SizeIsLength(users);
    if u in users.m {
      assert users.m.Keys == (users.m.Keys - {u}) + {u};
    } else {
      assert users.m.Keys - {u} == users.m.Keys;
    }
  }

  // ---------------------------------------------------------------- sendInitialState

  function ObjectList(objects: OrderedMap<ObjectId, ObjectRecord>): seq<BoardObject> {
    seq(|objects.keys|, i requires 0 <= i < |objects.keys| => WithId(objects.keys[i], objects.m[objects.keys[i]]))
  }

  function InfosOf(ids: seq<UserId>, users: map<UserId, User>): seq<UserInfo>
    requires forall id :: id in ids ==> id in users
  {
    seq(|ids|, i requires 0 <= i < |ids| => Info(ids[i], users[ids[i]]))
  }

  function CursorsOf(ids: seq<UserId>, cursors: map<UserId, CursorRecord>): seq<Cursor>
    requires forall id :: id in ids ==> id in cursors
  {
    seq(|ids|, i requires 0 <= i < |ids| => WithUser(ids[i], cursors[ids[i]]))
  }

  /** The INITIAL_STATE payload for `uid`: every object, every other user, every other cursor. */
  function Snapshot(room: Room, uid: UserId): InitialData {
    WithoutMembers(room.users.keys, uid);
    WithoutMembers(room.cursors.keys, uid);
    InitialData(
      ObjectList(room.objects),
      InfosOf(Without(room.users.keys, uid), room.users.m),
      CursorsOf(Without(room.cursors.keys, uid), room.cursors.m))
  }

  /** The snapshot lists each object exactly once, under its own id, and nothing else. */
  lemma SnapshotObjectsExact(room: Room, uid: UserId)
    ensures var l := Snapshot(room, uid).objects;
      && |l| == |room.objects.m|
      && (forall i :: 0 <= i < |l| ==> l[i].id in room.objects.m && l[i] == WithId(l[i].id, room.objects.m[l[i].id]))
      && (forall id :: id in room.objects.m ==> WithId(id, room.objects.m[id]) in l)
      && (forall i, j :: 0 <= i < j < |l| ==> l[i].id != l[j].id)
  {
    var l := Snapshot(room, uid).objects;
    SizeIsLength(room.objects);
    forall id | id in room.objects.m ensures WithId(id, room.objects.m[id]) in l {
      var i :| 0 <= i < |room.objects.keys| && room.objects.keys[i] == id;
      assert l[i] == WithId(id, room.objects.m[id]);
    }
  }

  /** The snapshot lists every user but `uid` exactly once, and nobody else. */
  lemma SnapshotUsersExact(room: Room, uid: UserId)
    ensures var us := Snapshot(room, uid).users;
      && (forall i :: 0 <= i < |us| ==> us[i].id in room.users.m && us[i].id != uid && us[i] == Info(us[i].id, room.users.m[us[i].id]))
      && (forall id :: id in room.users.m && id != uid ==> Info(id, room.users.m[id]) in us)
      && (forall i, j :: 0 <= i < j < |us| ==> us[i].id != us[j].id)
  {
    var ids := Without(room.users.keys, uid);
    WithoutNoDup(room.users.keys, uid);
    var us := Snapshot(room, uid).users;
    forall i | 0 <= i < |us|
      ensures us[i].id in room.users.m && us[i].id != uid && us[i] == Info(us[i].id, room.users.m[us[i].id])
    {
      assert us[i] == Info(ids[i], room.users.m[ids[i]]);
      assert ids[i] in ids;
    }
    forall id | id in room.users.m && id != uid ensures Info(id, room.users.m[id]) in us {
      var i :| 0 <= i < |ids| && ids[i] == id;
      assert us[i] == Info(id, room.users.m[id]);
    }
  }

  /** The snapshot lists the cursor of every user but `uid` exactly once, and nothing else. */
  lemma SnapshotCursorsExact(room: Room, uid: UserId)
    ensures var cs := Snapshot(room, uid).cursors;
      && (forall i :: 0 <= i < |cs| ==> cs[i].userId in room.cursors.m && cs[i].userId != uid && cs[i] == WithUser(cs[i].userId, room.cursors.m[cs[i].userId]))
      && (forall id :: id in room.cursors.m && id != uid ==> WithUser(id, room.cursors.m[id]) in cs)
      && (forall i, j :: 0 <= i < j < |cs| ==> cs[i].userId != cs[j].userId)
  {
    var cids := Without(room.cursors.keys, uid);
    WithoutNoDup(room.cursors.keys, uid);
    var cs := Snapshot(room, uid).cursors;
    forall i | 0 <= i < |cs|
      ensures cs[i].userId in room.cursors.m && cs[i].userId != uid && cs[i] == WithUser(cs[i].userId, room.cursors.m[cs[i].userId])
    {
      assert cs[i] == WithUser(cids[i], room.cursors.m[cids[i]]);
      assert cids[i] in cids;
    }
    forall id | id in room.cursors.m && id != uid ensures WithUser(id, room.cursors.m[id]) in cs {
      var i :| 0 <= i < |cids| && cids[i] == id;
      assert cs[i] == WithUser(id, room.cursors.m[id]);
    }
  }

  // ---------------------------------------------------------------- addUser / removeUser

  /** addUser after the user id is drawn: register, send INITIAL_STATE, announce USER_JOINED. */
  function JoinEffect(room: Room, uid: UserId, user: User, now: Time): Outcome {
    var r := room.(users := Put(room.users, uid, user), lastActivity := now);
    Outcome(
      r,
      (if user.open then [Delivery(uid, InitialState(uid, Snapshot(r, uid)))] else [])
        + Fanout(r.users, UserJoined(uid, Info(uid, user)), Some(uid)),
      [])
  }

  /**
   * A fresh joiner gets exactly one message, INITIAL_STATE, first, listing the room as it was before
   * the join; every other open member gets exactly one USER_JOINED; objects are untouched.
   */
  lemma JoinAnnounces(room: Room, uid: UserId, user: User, now: Time)
    requires uid !in room.users.m && uid !in room.cursors.m
    ensures var o := JoinEffect(room, uid, user, now);
      && o.room.objects == room.objects && o.room.cursors == room.cursors
      && o.room.users.m == room.users.m[uid := user]
      && o.tasks == []
      && (forall d :: d in o.sent && d.to == uid ==> d.msg.InitialState?)
      && (forall k :: 0 <= k < |o.sent| && o.sent[k].to == uid ==> k == 0 && user.open)
      && (user.open ==> o.sent[0] == Delivery(uid, InitialState(uid, Snapshot(room, uid))))
      && (forall d :: d in o.sent && d.to != uid ==> d.msg == UserJoined(uid, Info(uid, user)) && d.to in room.users.m && room.users.m[d.to].open)
      && (forall id :: id in room.users.m && room.users.m[id].open ==> Delivery(id, UserJoined(uid, Info(uid, user))) in o.sent)
  {
    var o := JoinEffect(room, uid, user, now);
    FanoutExact(o.room.users, UserJoined(uid, Info(uid, user)), Some(uid));
    assert Without(o.room.users.keys, uid) == Without(room.users.keys, uid) by {
      assert o.room.users.keys == room.users.keys + [uid];
      assert (room.users.keys + [uid])[..|room.users.keys|] == room.users.keys;
    }
    WithoutMembers(room.users.keys, uid);
    assert Snapshot(o.room, uid) == Snapshot(room, uid);
  }

  /** removeUser: forget the user and its cursor, then announce USER_LEFT to who is left. */
  function LeaveEffect(room: Room, uid: UserId): Outcome {
    if uid !in room.users.m then Outcome(room, [], [])
    else
      var r := room.(users := Delete(room.users, uid), cursors := Delete(room.cursors, uid));
      Outcome(r, Fanout(r.users, UserLeft(uid), None), [])
  }

  /**
   * Leaving removes exactly that user and its cursor, keeps every object, tells exactly the open
   * members still present, each once, and a second leave of the same id is a no-op.
   */
  lemma LeaveRemovesOnlyLeaver(room: Room, uid: UserId)
    ensures var o := LeaveEffect(room, uid);
      && o.room.objects == room.objects && o.tasks == []
      && o.room.users.m == room.users.m - {uid} && o.room.cursors.m == (if uid in room.users.m then room.cursors.m - {uid} else room.cursors.m)
      && (forall d :: d in o.sent ==> d.msg == UserLeft(uid) && d.to != uid && d.to in room.users.m && room.users.m[d.to].open)
      && (uid in room.users.m ==> forall id :: id in o.room.users.m && o.room.users.m[id].open ==> Delivery(id, UserLeft(uid)) in o.sent)
      && DistinctRecipients(o.sent)
      && (uid !in room.users.m ==> o == Outcome(room, [], []))
      && LeaveEffect(o.room, uid) == Outcome(o.room, [], [])
  {
    if uid in room.users.m {
      var o := LeaveEffect(room, uid);
      FanoutExact(o.room.users, UserLeft(uid), None);
    } else {
      assert room.users.m - {uid} == room.users.m;
    }
  }

  // ---------------------------------------------------------------- the six handlers

  function Deny(room: Room, uid: UserId, text: string, action: string): seq<Delivery>
    requires uid in room.users.m
  {
    if room.users.m[uid].open then [Delivery(uid, Error(text, Some(action)))] else []
  }

  /** `obj_${Date.now()}_${suffix}`, the suffix being nine random base-36 digits. */
  function GeneratedId(now: Time, suffix: string): ObjectId {
    "obj_" + NatToString(now) + "_" + suffix
  }

  function CreateEffect(room: Room, uid: UserId, newId: Option<string>, kind: ObjectType, data: Data,
                        now: Time, suffix: string): Outcome
    requires uid in room.users.m
  {
    if IsViewer(room.users.m[uid]) then Outcome(room, Deny(room, uid, CreateDenied, "CREATE_OBJECT"), [])
    else
      var id := Or(newId, GeneratedId(now, suffix));
      var rec := ObjectRecord(kind, data, now, uid, now, uid);
      var r := room.(objects := Put(room.objects, id, rec));
      Outcome(r, Fanout(r.users, ObjectCreated(id, WithId(id, rec)), None), [])
  }

  function UpdateEffect(room: Room, uid: UserId, id: ObjectId, delta: Data, now: Time): Outcome
    requires uid in room.users.m
  {
    if IsViewer(room.users.m[uid]) then Outcome(room, Deny(room, uid, UpdateDenied, "UPDATE_OBJECT"), [])
    else if id !in room.objects.m then Outcome(room, [], [])
    else
      var old_ := room.objects.m[id];
      var rec := old_.(data := old_.data + delta, lastModified := now, lastModifiedBy := uid);
      var r := room.(objects := Put(room.objects, id, rec));
      Outcome(r, Fanout(r.users, ObjectUpdated(id, delta, now, uid), None), [])
  }

  function DeleteEffect(room: Room, uid: UserId, id: ObjectId): Outcome
    requires uid in room.users.m
  {
    if IsViewer(room.users.m[uid]) then Outcome(room, Deny(room, uid, DeleteDenied, "DELETE_OBJECT"), [])
    else if id !in room.objects.m then Outcome(room, [], [])
    else
      var r := room.(objects := Delete(room.objects, id));
      Outcome(r, Fanout(r.users, ObjectDeleted(id, uid), None), [])
  }

  /** handleMoveObject: check the role and the object, then defer the write. */
  function MoveEffect(room: Room, roomId: RoomId, uid: UserId, id: ObjectId, x: int, y: int, now: Time): Outcome
    requires uid in room.users.m
  {
    if IsViewer(room.users.m[uid]) then Outcome(room, Deny(room, uid, MoveDenied, "MOVE_OBJECT"), [])
    else if id !in room.objects.m then Outcome(room, [], [])
    else Outcome(room, [], [Commit(roomId, id, x, y, now, uid, room.objects.m[id])])
  }

  function CursorEffect(room: Room, uid: UserId, x: int, y: int, now: Time): Outcome {
    var r := room.(cursors := Put(room.cursors, uid, CursorRecord(x, y, now)));
    Outcome(r, Fanout(r.users, CursorMoved(uid, x, y), Some(uid)), [])
  }

  function RaceTestRecord(uid: UserId, now: Time): ObjectRecord {
    ObjectRecord(
      StickyNote,
      map["x" := Num(100), "y" := Num(100), "text" := Str("Race Test"),
          "width" := Num(200), "height" := Num(100), "color" := Str("#ffeb3b")],
      now, uid, now, uid)
  }

  /** handleRaceConditionTest: make sure the test object exists, then schedule two moves. */
  function RaceTestEffect(room: Room, roomId: RoomId, uid: UserId, testId: Option<string>, now: Time): Outcome {
    var id := Or(testId, RaceTestId);
    var tasks := [Invoke(roomId, uid, id, 200, 200), Invoke(roomId, uid, id, 400, 400)];
    if id in room.objects.m then Outcome(room, [], tasks)
    else
      var rec := RaceTestRecord(uid, now);
      var r := room.(objects := Put(room.objects, id, rec));
      Outcome(r, Fanout(r.users, ObjectCreated(id, WithId(id, rec)), None), tasks)
  }

  /** handleMessage for a sender that is a member: stamp the room's activity, then dispatch. */
  function DispatchEffect(room: Room, roomId: RoomId, uid: UserId, msg: ClientMsg, now: Time, suffix: string): Outcome
    requires uid in room.users.m
  {
    var r := room.(lastActivity := now);
    match msg
    case CreateObject(newId, kind, data) => CreateEffect(r, uid, newId, kind, data, now, suffix)
    case UpdateObject(id, delta) => UpdateEffect(r, uid, id, delta, now)
    case DeleteObject(id) => DeleteEffect(r, uid, id)
    case MoveObject(id, x, y) => MoveEffect(r, roomId, uid, id, x, y, now)
    case CursorMove(x, y) => CursorEffect(r, uid, x, y, now)
    case TriggerRaceCondition(testId) => RaceTestEffect(r, roomId, uid, testId, now)
    case UnknownType(_) => Outcome(r, [], [])
  }

  // ---------------------------------------------------------------- deferred tasks

  /** The object a committed move writes: the arrival-time snapshot with the new x, y. */
  function Moved(snapshot: ObjectRecord, x: int, y: int, t0: Time, uid: UserId): ObjectRecord {
    snapshot.(data := snapshot.data["x" := Num(x)]["y" := Num(y)], lastModified := t0, lastModifiedBy := uid)
  }

  /** The staleness test of the deferred write: the object exists and is strictly newer. */
  predicate Stale(room: Room, t: Task)
    requires t.Commit?
  {
    t.objectId in room.objects.m && room.objects.m[t.objectId].lastModified > t.t0
  }

  /** The body of the `setTimeout` callback of handleMoveObject. */
  function CommitEffect(room: Room, t: Task): Outcome
    requires t.Commit?
  {
    if Stale(room, t) then Outcome(room, [], [])
    else
      var r := room.(objects := Put(room.objects, t.objectId, Moved(t.snapshot, t.x, t.y, t.t0, t.userId)));
      Outcome(r, Fanout(r.users, ObjectMoved(t.objectId, t.x, t.y, t.t0, t.userId), None), [])
  }

  /**
   * Whether a task's callback throws: an induced move whose sender has left reads the role of an
   * undefined user, and nothing catches the TypeError inside a timer callback.
   */
  predicate Throws(room: Room, t: Task) {
    t.Invoke? && t.userId !in room.users.m
  }

  /** What running one pending task does to its room (nothing, when it throws). */
  function TaskEffect(room: Room, t: Task, now: Time): Outcome {
    match t
    case Commit(_, _, _, _, _, _, _) => CommitEffect(room, t)
    case Invoke(roomId, uid, id, x, y) =>
      if uid !in room.users.m then Outcome(room, [], [])
      else MoveEffect(room, roomId, uid, id, x, y, now)
  }

  // ---------------------------------------------------------------- properties

  ghost predicate StampedBy(room: Room, clock: Time) {
    forall id :: id in room.objects.m ==> room.objects.m[id].lastModified <= clock
  }

  /** No object present both before and after has a smaller lastModified afterwards. */
  ghost predicate NoRegression(before: Room, after: Room) {
    forall id :: id in before.objects.m && id in after.objects.m ==>
      before.objects.m[id].lastModified <= after.objects.m[id].lastModified
  }

  /**
   * The deferred write is dropped exactly when the object exists with a strictly newer
   * lastModified; otherwise it writes (x, y) with lastModified = t0 and announces OBJECT_MOVED.
   * Either way lastModified never goes down.
   */
  lemma CommitDecides(room: Room, t: Task)
    requires t.Commit?
    ensures var o := CommitEffect(room, t);
      && (Stale(room, t) ==> o.room == room && o.sent == [])
      && (!Stale(room, t) ==>
            && o.room.objects.m == room.objects.m[t.objectId := Moved(t.snapshot, t.x, t.y, t.t0, t.userId)]
            && o.room.objects.m[t.objectId].data["x"] == Num(t.x)
            && o.room.objects.m[t.objectId].data["y"] == Num(t.y)
            && (forall d :: d in o.sent ==> d.msg == ObjectMoved(t.objectId, t.x, t.y, t.t0, t.userId))
            && (forall id :: Receives(room.users, None, id) ==> Delivery(id, ObjectMoved(t.objectId, t.x, t.y, t.t0, t.userId)) in o.sent))
      && NoRegression(room, o.room)
      && o.room.users == room.users && o.room.cursors == room.cursors
  {
    if !Stale(room, t) {
      var o := CommitEffect(room, t);
      FanoutExact(o.room.users, ObjectMoved(t.objectId, t.x, t.y, t.t0, t.userId), None);
    }
  }

  /** A move whose object was deleted while it waited puts the object back, rebuilt from its snapshot. */
  lemma CommitReinsertsDeleted(room: Room, t: Task)
    requires t.Commit? && t.objectId !in room.objects.m
    ensures var o := CommitEffect(room, t);
      && t.objectId in o.room.objects.m
      && o.room.objects.m[t.objectId] == Moved(t.snapshot, t.x, t.y, t.t0, t.userId)
      && o.room.objects.keys == room.objects.keys + [t.objectId]
  {
  }

  /**
   * Last-Write-Wins keyed on arrival: two deferred moves of one object that arrived at
   * t0a < t0b, with no other write between them, leave the same room whichever callback runs
   * first, and in it the object is b's write.
   */
  lemma {:induction false} LaterArrivalWins(room: Room, a: Task, b: Task)
    requires a.Commit? && b.Commit? && a.objectId == b.objectId && a.t0 < b.t0
    requires a.objectId in room.objects.m ==> room.objects.m[a.objectId].lastModified <= b.t0
    ensures var ab := CommitEffect(CommitEffect(room, a).room, b).room;
      var ba := CommitEffect(CommitEffect(room, b).room, a).room;
      && ab == ba
      && ab.objects.m[b.objectId] == Moved(b.snapshot, b.x, b.y, b.t0, b.userId)
      && ab.objects.m[b.objectId].data["x"] == Num(b.x)
      && ab.objects.m[b.objectId].data["y"] == Num(b.y)
  {
    var id := a.objectId;
    var ra := CommitEffect(room, a).room;
    var rb := CommitEffect(room, b).room;
    assert !Stale(room, b);
    assert !Stale(ra, b);
    assert Stale(rb, a);
    var wb := Moved(b.snapshot, b.x, b.y, b.t0, b.userId);
    var ab := CommitEffect(ra, b).room;
    assert ab.objects.keys == rb.objects.keys;
    assert ab.objects.m == room.objects.m[id := wb];
  }

  /**
   * Equal arrival times are not ordered: neither write is stale for the other, so the callback
   * that runs last decides the position.
   */
  lemma EqualArrivalLastRunWins(room: Room, a: Task, b: Task)
    requires a.Commit? && b.Commit? && a.objectId == b.objectId && a.t0 == b.t0
    requires a.objectId in room.objects.m ==> room.objects.m[a.objectId].lastModified <= a.t0
    ensures CommitEffect(CommitEffect(room, a).room, b).room.objects.m[a.objectId] == Moved(b.snapshot, b.x, b.y, b.t0, b.userId)
    ensures CommitEffect(CommitEffect(room, b).room, a).room.objects.m[a.objectId] == Moved(a.snapshot, a.x, a.y, a.t0, a.userId)
  {
  }

  /**
   * A viewer's CREATE, UPDATE, DELETE or MOVE changes nothing but the room's activity time,
   * schedules nothing, and yields one ERROR to the viewer alone, naming the refused action.
   */
  lemma ViewerIsRefused(room: Room, roomId: RoomId, uid: UserId, msg: ClientMsg, now: Time, suffix: string)
    requires uid in room.users.m && IsViewer(room.users.m[uid])
    requires msg.CreateObject? || msg.UpdateObject? || msg.DeleteObject? || msg.MoveObject?
    ensures var o := DispatchEffect(room, roomId, uid, msg, now, suffix);
      && o.room == room.(lastActivity := now)
      && o.tasks == []
      && |o.sent| == (if room.users.m[uid].open then 1 else 0)
      && (forall d :: d in o.sent ==> d.to == uid && d.msg.Error? && d.msg.action == Some(ActionName(msg)))
  {
  }

  function ActionName(msg: ClientMsg): string {
    match msg
    case CreateObject(_, _, _) => "CREATE_OBJECT"
    case UpdateObject(_, _) => "UPDATE_OBJECT"
    case DeleteObject(_) => "DELETE_OBJECT"
    case MoveObject(_, _, _) => "MOVE_OBJECT"
    case CursorMove(_, _) => "CURSOR_MOVE"
    case TriggerRaceCondition(_) => "TRIGGER_RACE_CONDITION"
    case UnknownType(tag) => tag
  }

  /** TRIGGER_RACE_CONDITION has no role check: a viewer's trigger creates the test object too. */
  lemma RaceTestIgnoresRole(room: Room, roomId: RoomId, uid: UserId, now: Time, suffix: string)
    requires uid in room.users.m && RaceTestId !in room.objects.m
    ensures var o := DispatchEffect(room, roomId, uid, TriggerRaceCondition(None), now, suffix);
      && o.room.objects.m == room.objects.m[RaceTestId := RaceTestRecord(uid, now)]
      && o.room.objects.m[RaceTestId].data["x"] == Num(100) && o.room.objects.m[RaceTestId].data["y"] == Num(100)
      && o.tasks == [Invoke(roomId, uid, RaceTestId, 200, 200), Invoke(roomId, uid, RaceTestId, 400, 400)]
  {
  }

  /**
   * CREATE by an editor stores the object under the client's id, or a generated one, stamped
   * with the arrival time and the sender, replacing any object already under that id, and
   * announces it to every open member including the sender.
   */
  lemma CreateStamps(room: Room, roomId: RoomId, uid: UserId, newId: Option<string>, kind: ObjectType,
                     data: Data, now: Time, suffix: string)
    requires uid in room.users.m && !IsViewer(room.users.m[uid])
    ensures var o := DispatchEffect(room, roomId, uid, CreateObject(newId, kind, data), now, suffix);
      var id := if newId.Some? && newId.value != "" then newId.value else GeneratedId(now, suffix);
      && o.room.objects.m == room.objects.m[id := ObjectRecord(kind, data, now, uid, now, uid)]
      && o.room.users == room.users && o.room.cursors == room.cursors
      && o.tasks == []
      && (forall d :: d in o.sent ==> d.msg == ObjectCreated(id, WithId(id, o.room.objects.m[id])))
      && (forall m :: Receives(room.users, None, m) ==> Delivery(m, ObjectCreated(id, WithId(id, o.room.objects.m[id]))) in o.sent)
  {
    var o := DispatchEffect(room, roomId, uid, CreateObject(newId, kind, data), now, suffix);
    var id := if newId.Some? && newId.value != "" then newId.value else GeneratedId(now, suffix);
    FanoutExact(o.room.users, ObjectCreated(id, WithId(id, o.room.objects.m[id])), None);
  }

  /**
   * UPDATE by an editor of an existing object shallow-merges the delta into `data` and restamps
   * lastModified/lastModifiedBy, keeping type, createdAt and createdBy; the broadcast carries only
   * the delta and reaches every open member, the sender included, once. On an unknown id nothing
   * changes and nothing is sent.
   */
  lemma UpdateMerges(room: Room, roomId: RoomId, uid: UserId, id: ObjectId, delta: Data, now: Time, suffix: string)
    requires uid in room.users.m && !IsViewer(room.users.m[uid])
    ensures var o := DispatchEffect(room, roomId, uid, UpdateObject(id, delta), now, suffix);
      && o.tasks == []
      && (id !in room.objects.m ==> o.room == room.(lastActivity := now) && o.sent == [])
      && (id in room.objects.m ==>
            var was := room.objects.m[id];
            && o.room.objects.m == room.objects.m[id := o.room.objects.m[id]]
            && (forall k :: k in delta ==> k in o.room.objects.m[id].data && o.room.objects.m[id].data[k] == delta[k])
            && (forall k :: k in was.data && k !in delta ==> k in o.room.objects.m[id].data && o.room.objects.m[id].data[k] == was.data[k])
            && o.room.objects.m[id].data.Keys == was.data.Keys + delta.Keys
            && o.room.objects.m[id].kind == was.kind
            && o.room.objects.m[id].createdAt == was.createdAt
            && o.room.objects.m[id].createdBy == was.createdBy
            && o.room.objects.m[id].lastModified == now
            && o.room.objects.m[id].lastModifiedBy == uid
            && o.room.users == room.users && o.room.cursors == room.cursors
            && (forall d :: d in o.sent ==> d.msg == ObjectUpdated(id, delta, now, uid) && Receives(room.users, None, d.to))
            && (forall m :: Receives(room.users, None, m) ==> Delivery(m, ObjectUpdated(id, delta, now, uid)) in o.sent)
            && DistinctRecipients(o.sent))
  {
    if id in room.objects.m {
      var o := DispatchEffect(room, roomId, uid, UpdateObject(id, delta), now, suffix);
      FanoutExact(o.room.users, ObjectUpdated(id, delta, now, uid), None);
    }
  }

  /**
   * DELETE removes the object if present and tells every open member, the sender included, once;
   * a DELETE of an absent id is a no-op that sends nothing, so deleting twice is deleting once.
   */
  lemma DeleteIsIdempotent(room: Room, roomId: RoomId, uid: UserId, id: ObjectId, now: Time, suffix: string)
    requires uid in room.users.m && !IsViewer(room.users.m[uid])
    ensures var o := DispatchEffect(room, roomId, uid, DeleteObject(id), now, suffix);
      && o.room.objects.m == room.objects.m - {id}
      && o.room.users == room.users && o.room.cursors == room.cursors && o.tasks == []
      && (id !in room.objects.m ==> o.room == room.(lastActivity := now) && o.sent == [])
      && (id in room.objects.m ==>
            && (forall d :: d in o.sent ==> d.msg == ObjectDeleted(id, uid) && Receives(room.users, None, d.to))
            && (forall m :: Receives(room.users, None, m) ==> Delivery(m, ObjectDeleted(id, uid)) in o.sent)
            && DistinctRecipients(o.sent))
      && var o2 := DispatchEffect(o.room, roomId, uid, DeleteObject(id), now, suffix);
         o2.room == o.room && o2.sent == [] && o2.tasks == []
  {
    if id in room.objects.m {
      var o := DispatchEffect(room, roomId, uid, DeleteObject(id), now, suffix);
      FanoutExact(o.room.users, ObjectDeleted(id, uid), None);
    }
  }

  /**
   * MOVE by an editor of an existing object changes nothing yet and schedules one deferred write
   * carrying the arrival time and the object as it is now; on an unknown id it does nothing.
   */
  lemma MoveDefers(room: Room, roomId: RoomId, uid: UserId, id: ObjectId, x: int, y: int, now: Time, suffix: string)
    requires uid in room.users.m && !IsViewer(room.users.m[uid])
    ensures var o := DispatchEffect(room, roomId, uid, MoveObject(id, x, y), now, suffix);
      && o.room == room.(lastActivity := now) && o.sent == []
      && (id !in room.objects.m ==> o.tasks == [])
      && (id in room.objects.m ==> o.tasks == [Commit(roomId, id, x, y, now, uid, room.objects.m[id])])
  {
  }

  /**
   * CURSOR_MOVE needs no role, overwrites the sender's cursor, and reaches exactly the open
   * members other than the sender; with every socket open that is the room size minus one.
   */
  lemma CursorReachesOthers(room: Room, roomId: RoomId, uid: UserId, x: int, y: int, now: Time, suffix: string)
    requires uid in room.users.m
    ensures var o := DispatchEffect(room, roomId, uid, CursorMove(x, y), now, suffix);
      && o.room.cursors.m == room.cursors.m[uid := CursorRecord(x, y, now)]
      && o.room.objects == room.objects && o.room.users == room.users
      && (forall d :: d in o.sent ==> d.msg == CursorMoved(uid, x, y) && d.to != uid && Receives(room.users, None, d.to))
      && (forall m :: m != uid && Receives(room.users, None, m) ==> Delivery(m, CursorMoved(uid, x, y)) in o.sent)
      && ((forall m :: m in room.users.m ==> room.users.m[m].open) ==> |o.sent| == |room.users.m| - 1)
  {
    var o := DispatchEffect(room, roomId, uid, CursorMove(x, y), now, suffix);
    FanoutExact(o.room.users, CursorMoved(uid, x, y), Some(uid));
    if forall m :: m in room.users.m ==> room.users.m[m].open {
      FanoutCount(o.room.users, CursorMoved(uid, x, y), uid);
    }
  }

  /** An unknown message type only touches the activity time: no reply, no broadcast. */
  lemma UnknownTypeIgnored(room: Room, roomId: RoomId, uid: UserId, tag: string, now: Time, suffix: string)
    requires uid in room.users.m
    ensures DispatchEffect(room, roomId, uid, UnknownType(tag), now, suffix) == Outcome(room.(lastActivity := now), [], [])
  {
  }

  /** Writing an object stamped within the clock, and no older than what it replaces, keeps the stamps. */
  lemma WriteKeepsStamps(room: Room, id: ObjectId, rec: ObjectRecord, now: Time)
    requires StampedBy(room, now) && rec.lastModified <= now
    requires id in room.objects.m ==> room.objects.m[id].lastModified <= rec.lastModified
    ensures var r := room.(objects := Put(room.objects, id, rec));
      StampedBy(r, now) && NoRegression(room, r)
  {
  }

  /**
   * What handling a message keeps: every stamp within the clock, no lastModified lowered, the
   * member list as it was, a cursor only for the sender, and deferred work for this room only.
   */
  ghost predicate Keeps(room: Room, o: Outcome, roomId: RoomId, uid: UserId, now: Time) {
    && StampedBy(o.room, now) && NoRegression(room, o.room)
    && o.room.users == room.users
    && o.room.cursors.m.Keys <= room.cursors.m.Keys + {uid}
    && (forall t :: t in o.tasks ==> t.roomId == roomId && (t.Commit? ==> t.t0 == now))
  }

  lemma CreateKeeps(room: Room, roomId: RoomId, uid: UserId, newId: Option<string>, kind: ObjectType, data: Data,
                    now: Time, suffix: string)
    requires uid in room.users.m && StampedBy(room, now)
    ensures Keeps(room, CreateEffect(room.(lastActivity := now), uid, newId, kind, data, now, suffix), roomId, uid, now)
  {
    WriteKeepsStamps(room, Or(newId, GeneratedId(now, suffix)), ObjectRecord(kind, data, now, uid, now, uid), now);
  }

  lemma UpdateKeeps(room: Room, roomId: RoomId, uid: UserId, id: ObjectId, delta: Data, now: Time)
    requires uid in room.users.m && StampedBy(room, now)
    ensures Keeps(room, UpdateEffect(room.(lastActivity := now), uid, id, delta, now), roomId, uid, now)
  {
    if id in room.objects.m {
      var old_ := room.objects.m[id];
      WriteKeepsStamps(room, id, old_.(data := old_.data + delta, lastModified := now, lastModifiedBy := uid), now);
    }
  }

  lemma DeleteKeeps(room: Room, roomId: RoomId, uid: UserId, id: ObjectId, now: Time)
    requires uid in room.users.m && StampedBy(room, now)
    ensures Keeps(room, DeleteEffect(room.(lastActivity := now), uid, id), roomId, uid, now)
  {
  }

  lemma MoveKeeps(room: Room, roomId: RoomId, uid: UserId, id: ObjectId, x: int, y: int, now: Time)
    requires uid in room.users.m && StampedBy(room, now)
    ensures Keeps(room, MoveEffect(room.(lastActivity := now), roomId, uid, id, x, y, now), roomId, uid, now)
  {
  }

  lemma CursorKeeps(room: Room, roomId: RoomId, uid: UserId, x: int, y: int, now: Time)
    requires StampedBy(room, now)
    ensures Keeps(room, CursorEffect(room.(lastActivity := now), uid, x, y, now), roomId, uid, now)
  {
  }

  lemma RaceTestKeeps(room: Room, roomId: RoomId, uid: UserId, testId: Option<string>, now: Time)
    requires StampedBy(room, now)
    ensures Keeps(room, RaceTestEffect(room.(lastActivity := now), roomId, uid, testId, now), roomId, uid, now)
  {
    WriteKeepsStamps(room, Or(testId, RaceTestId), RaceTestRecord(uid, now), now);
  }

  /**
   * Every handler stamps with the current time, so with every lastModified at most `now` beforehand
   * it stays so, no object's lastModified goes down, and every deferred write carries t0 = now.
   */
  lemma DispatchKeepsStamps(room: Room, roomId: RoomId, uid: UserId, msg: ClientMsg, now: Time, suffix: string)
    requires uid in room.users.m && StampedBy(room, now)
    ensures Keeps(room, DispatchEffect(room, roomId, uid, msg, now, suffix), roomId, uid, now)
  {
    match msg
    case CreateObject(newId, kind, data) => CreateKeeps(room, roomId, uid, newId, kind, data, now, suffix);
    case UpdateObject(id, delta) => UpdateKeeps(room, roomId, uid, id, delta, now);
    case DeleteObject(id) => DeleteKeeps(room, roomId, uid, id, now);
    case MoveObject(id, x, y) => MoveKeeps(room, roomId, uid, id, x, y, now);
    case CursorMove(x, y) => CursorKeeps(room, roomId, uid, x, y, now);
    case TriggerRaceCondition(testId) => RaceTestKeeps(room, roomId, uid, testId, now);
    case UnknownType(_) =>
  }

  /** Running a task keeps every stamp within the clock and never lowers a lastModified. */
  lemma TaskKeepsStamps(room: Room, t: Task, now: Time)
    requires StampedBy(room, now) && (t.Commit? ==> t.t0 <= now)
    ensures var o := TaskEffect(room, t, now);
      && StampedBy(o.room, now) && NoRegression(room, o.room)
      && o.room.users == room.users && o.room.cursors == room.cursors
      && (forall t' :: t' in o.tasks ==> t'.roomId == t.roomId && t'.Commit? && t'.t0 == now)
  {
    if t.Commit? {
      CommitDecides(room, t);
    }
  }

  /**
   * The race test end to end: on a room without the test object, an editor's trigger creates it at
   * (100, 100); if the (200, 200) move is invoked before the (400, 400) one, at a strictly earlier
   * time, the two deferred writes leave the object at (400, 400) in either order.
   */
  lemma RaceTestConverges(room: Room, roomId: RoomId, uid: UserId, now: Time, ta: Time, tb: Time, suffix: string)
    requires uid in room.users.m && !IsViewer(room.users.m[uid]) && RaceTestId !in room.objects.m
    requires now <= ta < tb
    ensures var o := DispatchEffect(room, roomId, uid, TriggerRaceCondition(None), now, suffix);
      && |o.tasks| == 2
      && var oa := TaskEffect(o.room, o.tasks[0], ta);
      && var ob := TaskEffect(oa.room, o.tasks[1], tb);
      && |oa.tasks| == 1 && |ob.tasks| == 1 && oa.tasks[0].Commit? && ob.tasks[0].Commit?
      && var ab := CommitEffect(CommitEffect(ob.room, oa.tasks[0]).room, ob.tasks[0]).room;
      && var ba := CommitEffect(CommitEffect(ob.room, ob.tasks[0]).room, oa.tasks[0]).room;
      && ab == ba
      && ab.objects.m[RaceTestId].data["x"] == Num(400)
      && ab.objects.m[RaceTestId].data["y"] == Num(400)
  {
    var o := DispatchEffect(room, roomId, uid, TriggerRaceCondition(None), now, suffix);
    var oa := TaskEffect(o.room, o.tasks[0], ta);
    var ob := TaskEffect(oa.room, o.tasks[1], tb);
    assert o.room.objects.m[RaceTestId].lastModified == now;
    LaterArrivalWins(ob.room, oa.tasks[0], ob.tasks[0]);
  }

  /** A second move overwrites everything the first one wrote. */
  lemma MovedTwice(o: ObjectRecord, x1: int, y1: int, t1: Time, u1: UserId, x2: int, y2: int, t2: Time, u2: UserId)
    ensures Moved(Moved(o, x1, y1, t1, u1), x2, y2, t2, u2) == Moved(o, x2, y2, t2, u2)
  {
    assert o.data["x" := Num(x1)]["y" := Num(y1)]["x" := Num(x2)]["y" := Num(y2)] == o.data["x" := Num(x2)]["y" := Num(y2)];
  }

  /**
   * A deferred write `a`, on an object unchanged since `a` was invoked, that runs before another
   * move of the same object is even invoked, at a later time, leads to the room reached when both
   * moves are invoked first and `a` commits first.
   */
  lemma CommitBeforeInvoke(r: Room, a: Task, roomId: RoomId, uid: UserId, x: int, y: int, tb: Time)
    requires a.Commit? && a.t0 < tb
    requires uid in r.users.m && !IsViewer(r.users.m[uid])
    requires a.objectId in r.objects.m && r.objects.m[a.objectId] == a.snapshot && a.snapshot.lastModified <= a.t0
    ensures var b := Invoke(roomId, uid, a.objectId, x, y);
      var ob := TaskEffect(CommitEffect(r, a).room, b, tb);
      var ob' := TaskEffect(r, b, tb);
      && |ob.tasks| == 1 && ob.tasks[0].Commit? && |ob'.tasks| == 1 && ob'.tasks[0].Commit?
      && CommitEffect(ob.room, ob.tasks[0]).room == CommitEffect(CommitEffect(ob'.room, a).room, ob'.tasks[0]).room
      && CommitEffect(ob.room, ob.tasks[0]).room.objects.m[a.objectId] == Moved(r.objects.m[a.objectId], x, y, tb, uid)
  {
    var b := Invoke(roomId, uid, a.objectId, x, y);
    CommitDecides(r, a);
    var ca := CommitEffect(r, a).room;
    var ob := TaskEffect(ca, b, tb);
    assert ob.tasks == [Commit(roomId, a.objectId, x, y, tb, uid, ca.objects.m[a.objectId])];
    CommitDecides(ca, ob.tasks[0]);
    var ob' := TaskEffect(r, b, tb);
    assert ob' == Outcome(r, [], [Commit(roomId, a.objectId, x, y, tb, uid, r.objects.m[a.objectId])]);
    LaterArrivalWins(r, a, ob'.tasks[0]);
    assert ob.tasks[0].snapshot == Moved(a.snapshot, a.x, a.y, a.t0, a.userId);
    MovedTwice(a.snapshot, a.x, a.y, a.t0, a.userId, x, y, tb, uid);
  }

  /**
   * The third interleaving of the race test: the (200, 200) write runs before the (400, 400) move
   * is even invoked, which its random delay allows. The room is the one the other orders reach,
   * with the object at (400, 400).
   */
  lemma RaceTestInterleaved(room: Room, roomId: RoomId, uid: UserId, now: Time, ta: Time, tb: Time, suffix: string)
    requires uid in room.users.m && !IsViewer(room.users.m[uid]) && RaceTestId !in room.objects.m
    requires now <= ta < tb
    ensures var o := DispatchEffect(room, roomId, uid, TriggerRaceCondition(None), now, suffix);
      && o.tasks == [Invoke(roomId, uid, RaceTestId, 200, 200), Invoke(roomId, uid, RaceTestId, 400, 400)]
      && var oa := TaskEffect(o.room, o.tasks[0], ta);
      && |oa.tasks| == 1 && oa.tasks[0].Commit?
      && var ob := TaskEffect(CommitEffect(oa.room, oa.tasks[0]).room, o.tasks[1], tb);
      && var ob' := TaskEffect(oa.room, o.tasks[1], tb);
      && |ob.tasks| == 1 && ob.tasks[0].Commit? && |ob'.tasks| == 1 && ob'.tasks[0].Commit?
      && var last := CommitEffect(ob.room, ob.tasks[0]).room;
      && last == CommitEffect(CommitEffect(ob'.room, oa.tasks[0]).room, ob'.tasks[0]).room
      && last.objects.m[RaceTestId].data["x"] == Num(400)
      && last.objects.m[RaceTestId].data["y"] == Num(400)
  {
    RaceTestIgnoresRole(room, roomId, uid, now, suffix);
    var o := DispatchEffect(room, roomId, uid, TriggerRaceCondition(None), now, suffix);
    var oa := TaskEffect(o.room, o.tasks[0], ta);
    assert oa == Outcome(o.room, [], [Commit(roomId, RaceTestId, 200, 200, ta, uid, o.room.objects.m[RaceTestId])]);
    CommitBeforeInvoke(oa.room, oa.tasks[0], roomId, uid, 400, 400, tb);
  }
}