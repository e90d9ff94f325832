/**
 * The connection glue of websocket-server/index.js around one RoomManager: the join parameters
 * read from the connection URL, the `connections` table from socket to (room, user), the set
 * `wss.clients` with each socket's `isAlive` mark, and the message, close, heartbeat and SIGINT
 * handlers.
 *
 * A socket is named by the user id `addUser` gives it on connection, which it keeps for life.
 * Everything written to a socket, by the RoomManager or by these handlers, goes to the manager's
 * `outbox`; a write reaches a socket only while it is open.
 */
module Session {
  import opened Types
  import opened JsMaps
  import opened RoomLogic
  import opened RoomServer

  const DefaultRoom: RoomId := "default-room"
  const WelcomeText: string := "Conectado ao SyncBoard Pro WebSocket Server"
  const ProcessingError: string := "Erro ao processar mensagem"
  const ShutdownText: string := "O servidor está sendo encerrado"

  /** The query parameters of the connection URL, each absent when missing. */
  datatype JoinQuery = JoinQuery(roomId: Option<string>, userName: Option<string>, userRole: Option<string>,
                                 userColor: Option<string>)

  /** What the connection handler hands to addUser. */
  datatype JoinParams = JoinParams(roomId: RoomId, name: Option<string>, role: string, color: Option<string>)

  /**
   * `s || undefined`: an empty string counts as missing. The contract is the operator's own
   * definition; `ParamsOf` and `BareJoin` state what it means for a connection.
   */
  function OrUndefined(s: Option<string>): (r: Option<string>)
    ensures r.Some? <==> s.Some? && s.value != ""
    ensures r.Some? ==> r == s
  {
    if s.Some? && s.value != "" then s else None
  }

  /** The join parameters: a missing room or role falls back to `default-room` and `editor`. */
  function ParamsOf(q: JoinQuery): (p: JoinParams)
    ensures q.roomId.None? || q.roomId == Some("") ==> p.roomId == DefaultRoom
    ensures q.userRole.None? || q.userRole == Some("") ==> p.role == Editor
    ensures q.userName.None? ==> p.name.None?
    ensures q.userColor.None? ==> p.color.None?
    ensures q.roomId.Some? && q.roomId.value != "" ==> p.roomId == q.roomId.value
    ensures q.userRole.Some? && q.userRole.value != "" ==> p.role == q.userRole.value
    ensures q.userName.Some? && q.userName.value != "" ==> p.name == q.userName
    ensures q.userColor.Some? && q.userColor.value != "" ==> p.color == q.userColor
  {
    JoinParams(Or(q.roomId, DefaultRoom), OrUndefined(q.userName), Or(q.userRole, Editor), OrUndefined(q.userColor))
  }

  /**
   * A connection with no parameters joins `default-room` as an editor, named after its id and
   * coloured from the palette.
   */
  lemma BareJoin(uid: UserId, pick: ColorIndex, now: Time)
    ensures var p := ParamsOf(JoinQuery(None, None, None, None));
      var u := NewUser(uid, p.name, Some(p.role), p.color, pick, now, true);
      && p.roomId == DefaultRoom && u.role == Editor && !IsViewer(u)
      && u.name == "User " + uid && u.color in Palette
  {
  }

  /** One frame from a socket: a message that parses, or text that makes the handler throw. */
  datatype Incoming = Parsed(msg: ClientMsg) | Unparseable

  // ---------------------------------------------------------------- table and rooms agree

  /**
   * The connection table and the rooms name the same memberships: every recorded socket is a
   * member of the room it is recorded with, and every member of a room is recorded with it.
   */
  ghost predicate Agree(rooms: map<RoomId, Room>, table: map<UserId, RoomId>) {
    && (forall uid :: uid in table ==> table[uid] in rooms && uid in rooms[table[uid]].users.m)
    && (forall rid, uid :: rid in rooms && uid in rooms[rid].users.m ==> uid in table && table[uid] == rid)
  }

  /** Replacing a room by one with the same members keeps the agreement. */
  lemma AgreeSameMembers(rooms: map<RoomId, Room>, table: map<UserId, RoomId>, rid: RoomId, room: Room)
    requires Agree(rooms, table) && rid in rooms && room.users.m.Keys == rooms[rid].users.m.Keys
    ensures Agree(rooms[rid := room], table)
  {
  }

  /**
   * An id that is a member of no room is not in the table either; recorded in the table and added
   * to its room, it keeps the agreement.
   */
  lemma AgreeJoin(rooms: map<RoomId, Room>, table: map<UserId, RoomId>, rid: RoomId, uid: UserId, room: Room)
    requires Agree(rooms, table) && forall r :: r in rooms ==> uid !in rooms[r].users.m
    requires room.users.m.Keys == (if rid in rooms then rooms[rid].users.m.Keys else {}) + {uid}
    ensures uid !in table && Agree(rooms[rid := room], table[uid := rid])
  {
    var rooms', table' := rooms[rid := room], table[uid := rid];
    forall u | u in table' ensures table'[u] in rooms' && u in rooms'[table'[u]].users.m {
      if u != uid {
        assert u in table && table[u] in rooms && u in rooms[table[u]].users.m;
      }
    }
    forall r, u | r in rooms' && u in rooms'[r].users.m ensures u in table' && table'[u] == r {
      if r != rid {
        assert u in rooms[r].users.m;
      } else if u != uid {
        assert rid in rooms && u in rooms[rid].users.m;
      }
    }
  }

  /** `addUser`'s join, on an id that is a member of no room, keeps the agreement once recorded. */
  lemma AgreeJoined(rooms: map<RoomId, Room>, table: map<UserId, RoomId>, rid: RoomId, uid: UserId, user: User, now: Time)
    requires Agree(rooms, table) && forall r :: r in rooms ==> uid !in rooms[r].users.m
    ensures uid !in table
    ensures var room0 := if rid in rooms then rooms[rid] else NewRoom(now);
      Agree(rooms[rid := JoinEffect(room0, uid, user, now).room], table[uid := rid])
  {
    var room0 := if rid in rooms then rooms[rid] else NewRoom(now);
    AgreeJoin(rooms, table, rid, uid, JoinEffect(room0, uid, user, now).room);
  }

  /** Taking a recorded member out of its room and out of the table keeps the agreement. */
  lemma AgreeRemove(rooms: map<RoomId, Room>, table: map<UserId, RoomId>, uid: UserId, room: Room)
    requires Agree(rooms, table) && uid in table
    requires room.users.m.Keys == rooms[table[uid]].users.m.Keys - {uid}
    ensures Agree(rooms[table[uid] := room], table - {uid})
  {
    var rid := table[uid];
    var rooms', table' := rooms[rid := room], table - {uid};
    forall u | u in table' ensures table'[u] in rooms' && u in rooms'[table'[u]].users.m {
      assert table[u] in rooms && u in rooms[table[u]].users.m;
    }
    forall r, u | r in rooms' && u in rooms'[r].users.m ensures u in table' && table'[u] == r {
      if r == rid {
        assert u in rooms[rid].users.m && u != uid;
      } else {
        assert u in rooms[r].users.m;
      }
    }
  }

  /** Removing a recorded member from its room and from the table keeps the agreement. */
  lemma AgreeLeave(rooms: map<RoomId, Room>, table: map<UserId, RoomId>, uid: UserId)
    requires Agree(rooms, table) && uid in table
    ensures Agree(rooms[table[uid] := LeaveEffect(rooms[table[uid]], uid).room], table - {uid})
  {
    var left := LeaveEffect(rooms[table[uid]], uid).room;
    assert left.users.m.Keys == rooms[table[uid]].users.m.Keys - {uid};
    AgreeRemove(rooms, table, uid, left);
  }

  // ---------------------------------------------------------------- the heartbeat, as functions

  /** `ws.isAlive`: None while undefined, as it is from connection until the first heartbeat. */
  type Alive = Option<bool>

  /** One iteration of the heartbeat: a socket marked `false` is dropped, any other is marked. */
  function Visit(c: OrderedMap<UserId, Alive>, uid: UserId): OrderedMap<UserId, Alive> {
    if uid !in c.m then c
    else if c.m[uid] == Some(false) then Delete(c, uid)
    else Put(c, uid, Some(false))
  }

  /** `wss.clients` after the heartbeat has visited `ids`, in order. */
  function Sweep(c: OrderedMap<UserId, Alive>, ids: seq<UserId>): OrderedMap<UserId, Alive> {
    if ids == [] then c else Visit(Sweep(c, ids[..|ids| - 1]), ids[|ids| - 1])
  }

  /** The sockets of `ids` already marked `false`, in order: the ones the heartbeat drops. */
  function Marked(ids: seq<UserId>, alive: map<UserId, Alive>): seq<UserId> {
    if ids == [] then []
    else
      var last := ids[|ids| - 1];
      Marked(ids[..|ids| - 1], alive) + (if last in alive && alive[last] == Some(false) then [last] else [])
  }

  /** The rooms and the deliveries after some handler steps. */
  datatype Wire = Wire(rooms: map<RoomId, Room>, sent: seq<Delivery>)

  /** `removeUser` for a recorded socket, in the room the table names; nothing for another. */
  function Drop(rooms: map<RoomId, Room>, table: map<UserId, RoomId>, uid: UserId): Wire {
    if uid in table && table[uid] in rooms then
      var o := LeaveEffect(rooms[table[uid]], uid);
      Wire(rooms[table[uid] := o.room], o.sent)
    else Wire(rooms, [])
  }

  /** The room side of the heartbeat: `Drop` for each of `dead`, in order. */
  function Reap(rooms: map<RoomId, Room>, table: map<UserId, RoomId>, dead: seq<UserId>): Wire {
    if dead == [] then Wire(rooms, [])
    else
      var w := Reap(rooms, table, dead[..|dead| - 1]);
      var d := Drop(w.rooms, table, dead[|dead| - 1]);
      Wire(d.rooms, w.sent + d.sent)
  }

  lemma ReapStep(rooms: map<RoomId, Room>, table: map<UserId, RoomId>, dead: seq<UserId>, uid: UserId)
    ensures var w := Reap(rooms, table, dead);
      var d := Drop(w.rooms, table, uid);
      Reap(rooms, table, dead + [uid]) == Wire(d.rooms, w.sent + d.sent)
  {
    assert (dead + [uid])[..|dead|] == dead;
  }

  /**
   * A sweep over distinct ids drops exactly the visited sockets already marked `false` and marks
   * every other visited socket `false`; sockets it does not visit keep their entry.
   */
  lemma {:induction false} SweepExact(c: OrderedMap<UserId, Alive>, ids: seq<UserId>)
    requires NoDup(ids)
    ensures forall k :: k !in ids ==> (k in Sweep(c, ids).m <==> k in c.m)
    ensures forall k :: k !in ids && k in c.m ==> Sweep(c, ids).m[k] == c.m[k]
    ensures forall k :: k in ids ==> (k in Sweep(c, ids).m <==> k in c.m && c.m[k] != Some(false))
    ensures forall k :: k in ids && k in Sweep(c, ids).m ==> Sweep(c, ids).m[k] == Some(false)
  {
    if ids != [] {
      var init, last := ids[..|ids| - 1], ids[|ids| - 1];
      assert NoDup(init);
      assert last !in init;
      SweepExact(c, init);
      assert forall k :: k in ids <==> k in init || k == last;
    }
  }

  /**
   * No socket lives through a second heartbeat. `c` is `wss.clients` at one tick and `c2` at the
   * next; in between sockets may have closed and new ones may have connected, but nothing set
   * `isAlive`, so whatever is in both carries the mark the first tick left. Every socket present
   * at the first tick is gone after the second.
   */
  lemma SecondTickTerminates(c: OrderedMap<UserId, Alive>, c2: OrderedMap<UserId, Alive>)
    requires forall k :: k in c2.m && k in c.m ==> k in Sweep(c, c.keys).m && c2.m[k] == Sweep(c, c.keys).m[k]
    ensures forall k :: k in c.m ==> k !in Sweep(c2, c2.keys).m
  {
    SweepExact(c, c.keys);
    SweepExact(c2, c2.keys);
  }

  /** A socket that has not been marked yet survives its first heartbeat, marked. */
  lemma FirstTickMarks(c: OrderedMap<UserId, Alive>, uid: UserId)
    requires uid in c.m && c.m[uid] == None
    ensures uid in Sweep(c, c.keys).m && Sweep(c, c.keys).m[uid] == Some(false)
  {
    SweepExact(c, c.keys);
  }

  /** The heartbeat sends nothing but USER_LEFT notices for dropped sockets, never to the one dropped. */
  lemma {:induction false} ReapTellsLeaves(rooms: map<RoomId, Room>, table: map<UserId, RoomId>, dead: seq<UserId>)
    ensures forall d :: d in Reap(rooms, table, dead).sent ==>
      d.msg.UserLeft? && d.msg.userId in dead && d.to != d.msg.userId
  {
    if dead != [] {
      var init, uid := dead[..|dead| - 1], dead[|dead| - 1];
      ReapTellsLeaves(rooms, table, init);
      var w := Reap(rooms, table, init);
      if uid in table && table[uid] in w.rooms {
        LeaveRemovesOnlyLeaver(w.rooms[table[uid]], uid);
      }
      assert forall k :: k in init ==> k in dead;
    }
  }

  /** The connection glue and the RoomManager's rooms and wire log, as one value. */
  datatype Glue = Glue(table: OrderedMap<UserId, RoomId>, clients: OrderedMap<UserId, Alive>,
                       rooms: map<RoomId, Room>, sent: seq<Delivery>)

  /**
   * The heartbeat callback on one socket: one already marked `false` leaves its room (`Drop`),
   * the table and `wss.clients`; any other is marked.
   */
  function ProbeStep(g: Glue, uid: UserId): Glue {
    if uid in g.clients.m && g.clients.m[uid] == Some(false) then
      var d := Drop(g.rooms, g.table.m, uid);
      Glue(Delete(g.table, uid), Visit(g.clients, uid), d.rooms, g.sent + d.sent)
    else g.(clients := Visit(g.clients, uid))
  }

  /** The heartbeat interval body over `ids`, in order. */
  function Beat(g: Glue, ids: seq<UserId>): Glue {
    if ids == [] then g else ProbeStep(Beat(g, ids[..|ids| - 1]), ids[|ids| - 1])
  }

  lemma BeatStep(g: Glue, ids: seq<UserId>, i: nat)
    requires i < |ids|
    ensures Beat(g, ids[..i + 1]) == ProbeStep(Beat(g, ids[..i]), ids[i])
  {
    assert ids[..i + 1][..i] == ids[..i];
  }

  /**
   * On `wss.clients` the heartbeat is the sweep; the table only loses ids it visited that were
   * marked, and keeps the room of every other.
   */
  lemma {:induction false} BeatSweeps(g: Glue, ids: seq<UserId>)
    ensures Beat(g, ids).clients == Sweep(g.clients, ids)
    ensures forall k :: k in Beat(g, ids).table.m ==> k in g.table.m && Beat(g, ids).table.m[k] == g.table.m[k]
    ensures forall k :: k in g.table.m && k !in ids ==> k in Beat(g, ids).table.m
  {
    if ids != [] {
      BeatSweeps(g, ids[..|ids| - 1]);
      assert forall k :: k in ids[..|ids| - 1] ==> k in ids;
    }
  }

  /** A socket the heartbeat has not visited yet keeps its mark and its table entry. */
  lemma BeatUnvisited(g: Glue, ids: seq<UserId>, uid: UserId, rooms: map<RoomId, Room>)
    requires NoDup(ids) && uid !in ids
    ensures var b := Beat(g, ids);
      && ((uid in b.clients.m && b.clients.m[uid] == Some(false)) <==> (uid in g.clients.m && g.clients.m[uid] == Some(false)))
      && Drop(rooms, b.table.m, uid) == Drop(rooms, g.table.m, uid)
  {
    BeatSweeps(g, ids);
    SweepExact(g.clients, ids);
  }

  /**
   * Over distinct ids the heartbeat removes from their rooms exactly the sockets that were
   * already marked when it started, in order, with the USER_LEFT notices `Reap` sends.
   */
  lemma {:induction false} BeatReaps(g: Glue, ids: seq<UserId>)
    requires NoDup(ids)
    ensures var w := Reap(g.rooms, g.table.m, Marked(ids, g.clients.m));
      Beat(g, ids).rooms == w.rooms && Beat(g, ids).sent == g.sent + w.sent
  {
    if ids != [] {
      var init, uid := ids[..|ids| - 1], ids[|ids| - 1];
      assert NoDup(init) && uid !in init;
      BeatReaps(g, init);
      var b := Beat(g, init);
      var m0 := Marked(init, g.clients.m);
      var w := Reap(g.rooms, g.table.m, m0);
      assert Beat(g, ids) == ProbeStep(b, uid);
      BeatUnvisited(g, init, uid, w.rooms);
      if uid in g.clients.m && g.clients.m[uid] == Some(false) {
        assert Marked(ids, g.clients.m) == m0 + [uid];
        var d := Drop(w.rooms, g.table.m, uid);
        ReapStep(g.rooms, g.table.m, m0, uid);
        AppendAssoc(g.sent, w.sent, d.sent);
      } else {
        assert Marked(ids, g.clients.m) == m0;
      }
    }
  }

  // ---------------------------------------------------------------- SIGINT, as a function

  /** The socket `uid` is recorded, is a member of its room, and is open. */
  ghost predicate IsOpen(rooms: map<RoomId, Room>, table: map<UserId, RoomId>, uid: UserId) {
    uid in table && table[uid] in rooms && uid in rooms[table[uid]].users.m && rooms[table[uid]].users.m[uid].open
  }

  /** One iteration of the SIGINT loop: SERVER_SHUTDOWN if the socket is open, then `ws.close()`. */
  function ShutOne(rooms: map<RoomId, Room>, table: map<UserId, RoomId>, uid: UserId): Wire {
    if uid in table && table[uid] in rooms && uid in rooms[table[uid]].users.m then
      var room := rooms[table[uid]];
      var u := room.users.m[uid];
      Wire(rooms[table[uid] := room.(users := Put(room.users, uid, u.(open := false)))],
           if u.open then [Delivery(uid, ServerShutdown(ShutdownText))] else [])
    else Wire(rooms, [])
  }

  /** The SIGINT loop over `ids`, in order. */
  function ShutAll(rooms: map<RoomId, Room>, table: map<UserId, RoomId>, ids: seq<UserId>): Wire {
    if ids == [] then Wire(rooms, [])
    else
      var w := ShutAll(rooms, table, ids[..|ids| - 1]);
      var s := ShutOne(w.rooms, table, ids[|ids| - 1]);
      Wire(s.rooms, w.sent + s.sent)
  }

  /** Closing sockets keeps every room, its members, objects and cursors; only open flags change. */
  ghost predicate SameMembers(before: map<RoomId, Room>, after: map<RoomId, Room>) {
    && before.Keys == after.Keys
    && forall rid :: rid in before ==>
         && after[rid].users.m.Keys == before[rid].users.m.Keys
         && after[rid].objects == before[rid].objects && after[rid].cursors == before[rid].cursors
  }

  /** One iteration keeps every room and membership, so the table still agrees with the rooms. */
  lemma ShutOneKeeps(rooms: map<RoomId, Room>, table: map<UserId, RoomId>, uid: UserId)
    requires Agree(rooms, table)
    ensures SameMembers(rooms, ShutOne(rooms, table, uid).rooms) && Agree(ShutOne(rooms, table, uid).rooms, table)
  {
    if uid in table && table[uid] in rooms && uid in rooms[table[uid]].users.m {
      var rid := table[uid];
      var room := rooms[rid];
      var room' := room.(users := Put(room.users, uid, room.users.m[uid].(open := false)));
      assert room'.users.m.Keys == room.users.m.Keys;
      AgreeSameMembers(rooms, table, rid, room');
    }
  }

  /** One iteration closes `uid` and no other socket. */
  lemma ShutOneCloses(rooms: map<RoomId, Room>, table: map<UserId, RoomId>, uid: UserId)
    ensures forall v :: IsOpen(ShutOne(rooms, table, uid).rooms, table, v) <==> IsOpen(rooms, table, v) && v != uid
  {
    if uid in table && table[uid] in rooms && uid in rooms[table[uid]].users.m {
      var rid := table[uid];
      var room := rooms[rid];
      var room' := room.(users := Put(room.users, uid, room.users.m[uid].(open := false)));
      var rooms' := rooms[rid := room'];
      assert ShutOne(rooms, table, uid).rooms == rooms';
      forall v ensures IsOpen(rooms', table, v) <==> IsOpen(rooms, table, v) && v != uid {
        if v in table && table[v] == rid && v != uid && v in room.users.m {
          assert room'.users.m[v] == room.users.m[v];
        }
      }
    }
  }

  /** One iteration sends SERVER_SHUTDOWN to `uid` exactly when its socket is open, and nothing else. */
  lemma ShutOneSends(rooms: map<RoomId, Room>, table: map<UserId, RoomId>, uid: UserId)
    ensures ShutOne(rooms, table, uid).sent ==
      if IsOpen(rooms, table, uid) then [Delivery(uid, ServerShutdown(ShutdownText))] else []
  {
  }

  /** The loop closes every socket it visits and keeps every membership. */
  lemma {:induction false} ShutAllCloses(rooms: map<RoomId, Room>, table: map<UserId, RoomId>, ids: seq<UserId>)
    requires Agree(rooms, table)
    ensures var w := ShutAll(rooms, table, ids);
      && SameMembers(rooms, w.rooms) && Agree(w.rooms, table)
      && (forall v :: IsOpen(w.rooms, table, v) <==> IsOpen(rooms, table, v) && v !in ids)
  {
    if ids != [] {
      var init, uid := ids[..|ids| - 1], ids[|ids| - 1];
      ShutAllCloses(rooms, table, init);
      ShutOneKeeps(ShutAll(rooms, table, init).rooms, table, uid);
      ShutOneCloses(ShutAll(rooms, table, init).rooms, table, uid);
      assert forall k :: k in ids <==> k in init || k == uid;
    }
  }

  /** On SIGINT nothing is sent but SERVER_SHUTDOWN, and only to open sockets of `ids`. */
  lemma {:induction false} ShutAllNotifiesOnlyOpen(rooms: map<RoomId, Room>, table: map<UserId, RoomId>, ids: seq<UserId>)
    requires Agree(rooms, table)
    ensures forall d :: d in ShutAll(rooms, table, ids).sent ==>
      d.msg == ServerShutdown(ShutdownText) && d.to in ids && IsOpen(rooms, table, d.to)
  {
    if ids != [] {
      var init, uid := ids[..|ids| - 1], ids[|ids| - 1];
      ShutAllNotifiesOnlyOpen(rooms, table, init);
      ShutAllCloses(rooms, table, init);
      var w := ShutAll(rooms, table, init);
      ShutOneSends(w.rooms, table, uid);
      assert forall k :: k in init ==> k in ids;
    }
  }

  /** Appending a delivery to a new recipient keeps the recipients distinct. */
  lemma DistinctAppend(sent: seq<Delivery>, extra: seq<Delivery>)
    requires DistinctRecipients(sent) && |extra| <= 1
    requires forall a, b :: a in sent && b in extra ==> a.to != b.to
    ensures DistinctRecipients(sent + extra)
  {
    if extra != [] {
      forall a, b | 0 <= a < b < |sent + extra| ensures (sent + extra)[a].to != (sent + extra)[b].to {
        if b == |sent| {
          assert (sent + extra)[a] in sent;
        }
      }
    }
  }

  /** On SIGINT over distinct ids no socket gets SERVER_SHUTDOWN twice. */
  lemma {:induction false} ShutAllNotifiesOnce(rooms: map<RoomId, Room>, table: map<UserId, RoomId>, ids: seq<UserId>)
    requires Agree(rooms, table) && NoDup(ids)
    ensures DistinctRecipients(ShutAll(rooms, table, ids).sent)
  {
    if ids != [] {
      var init, uid := ids[..|ids| - 1], ids[|ids| - 1];
      assert NoDup(init) && uid !in init;
      ShutAllNotifiesOnce(rooms, table, init);
      ShutAllNotifiesOnlyOpen(rooms, table, init);
      var w := ShutAll(rooms, table, init);
      ShutOneSends(w.rooms, table, uid);
      DistinctAppend(w.sent, ShutOne(w.rooms, table, uid).sent);
    }
  }

  /** On SIGINT every socket of `ids` that is open gets SERVER_SHUTDOWN. */
  lemma {:induction false} ShutAllNotifiesEveryOpen(rooms: map<RoomId, Room>, table: map<UserId, RoomId>, ids: seq<UserId>)
    requires Agree(rooms, table) && NoDup(ids)
    ensures forall v :: v in ids && IsOpen(rooms, table, v) ==>
      Delivery(v, ServerShutdown(ShutdownText)) in ShutAll(rooms, table, ids).sent
  {
    if ids != [] {
      var init, uid := ids[..|ids| - 1], ids[|ids| - 1];
      assert NoDup(init);
      assert uid !in init;
      ShutAllNotifiesEveryOpen(rooms, table, init);
      ShutAllCloses(rooms, table, init);
      var w := ShutAll(rooms, table, init);
      ShutOneSends(w.rooms, table, uid);
      assert forall k :: k in ids ==> k in init || k == uid;
    }
  }

  /** A broadcast over members whose sockets are all closed sends nothing. */
  lemma {:induction false} FanoutOverClosed(ids: seq<UserId>, users: map<UserId, User>, msg: ServerMsg, exclude: Option<UserId>)
    requires forall id :: id in ids ==> id in users && !users[id].open
    ensures FanoutOver(ids, users, msg, exclude) == []
  {
    if ids != [] {
      FanoutOverClosed(ids[..|ids| - 1], users, msg, exclude);
    }
  }

  /** Once every recorded socket is closed, no broadcast in any room reaches anyone. */
  lemma QuietWhenAllClosed(rooms: map<RoomId, Room>, table: map<UserId, RoomId>, rid: RoomId,
                           msg: ServerMsg, exclude: Option<UserId>)
    requires Agree(rooms, table) && rid in rooms
    requires forall uid :: !IsOpen(rooms, table, uid)
    ensures Fanout(rooms[rid].users, msg, exclude) == []
  {
    var users := rooms[rid].users;
    forall id | id in users.keys ensures id in users.m && !users.m[id].open {
      assert id in table && table[id] == rid && !IsOpen(rooms, table, id);
    }
    FanoutOverClosed(users.keys, users.m, msg, exclude);
  }

  // ---------------------------------------------------------------- the server

  /** The SIGINT loop over one more socket is the loop so far followed by that socket's iteration. */
  lemma ShutAllStep(rooms: map<RoomId, Room>, table: map<UserId, RoomId>, ids: seq<UserId>, i: nat)
    requires i < |ids|
    ensures var w := ShutAll(rooms, table, ids[..i]);
      var s := ShutOne(w.rooms, table, ids[i]);
      ShutAll(rooms, table, ids[..i + 1]) == Wire(s.rooms, w.sent + s.sent)
  {
    assert ids[..i + 1][..i] == ids[..i];
  }

  lemma AppendAssoc<T>(a: seq<T>, b: seq<T>, c: seq<T>)
    ensures (a + b) + c == a + (b + c)
  {
  }

  /** No code path ever sets `isAlive` to true. */
  ghost predicate NeverAlive(alive: map<UserId, Alive>) {
    forall k :: k in alive ==> alive[k] != Some(true)
  }

  class Server {
    const rm: RoomManager
    var table: OrderedMap<UserId, RoomId>
    var clients: OrderedMap<UserId, Alive>

    ghost predicate Valid()
      reads this, rm
    {
      && rm.Valid()
      && Agree(rm.rooms, table.m)
      && clients.keys == table.keys
      && NeverAlive(clients.m)
    }

    /** The module's start: a fresh RoomManager, an empty table and no clients. */
    constructor (now: Time)
      ensures Valid() && fresh(rm)
      ensures rm.rooms == map[] && rm.outbox == [] && table.keys == [] && clients.keys == []
    {
      rm := new RoomManager(now);
      table := Empty();
      clients := Empty();
    }

    /**
     * The first half of a new connection: join with the URL's parameters on an open socket
     * (INITIAL_STATE to the joiner, USER_JOINED to the room's other open members), then record the
     * socket in the connection table and in `wss.clients` with `isAlive` still undefined.
     */
    method Join(q: JoinQuery, pick: ColorIndex, now: Time) returns (uid: UserId)
      requires Valid() && rm.clock <= now
      modifies this`table, this`clients, rm
      ensures Valid() && rm.clock == now
      ensures uid !in old(table.m) && table == Put(old(table), uid, ParamsOf(q).roomId)
      ensures clients == Put(old(clients), uid, None)
      ensures var p := ParamsOf(q);
        var room0 := if p.roomId in old(rm.rooms) then old(rm.rooms)[p.roomId] else NewRoom(now);
        var o := JoinEffect(room0, uid, NewUser(uid, p.name, Some(p.role), p.color, pick, now, true), now);
        && rm.rooms == old(rm.rooms)[p.roomId := o.room]
        && rm.outbox == old(rm.outbox) + o.sent
      ensures rm.pending == old(rm.pending)
    {
      var p := ParamsOf(q);
      ghost var rooms0 := rm.rooms;
      uid := rm.AddUser(p.roomId, p.name, Some(p.role), p.color, pick, true, now);
      AgreeJoined(rooms0, table.m, p.roomId, uid, NewUser(uid, p.name, Some(p.role), p.color, pick, now, true), now);
      Record(uid, p.roomId);
    }

    /** `connections.set(ws, …)` for a socket that has just joined `rid`, and its entry in `wss.clients`. */
    method Record(uid: UserId, rid: RoomId)
      requires rm.Valid() && uid !in table.m && Agree(rm.rooms, table.m[uid := rid])
      requires clients.keys == table.keys && NeverAlive(clients.m)
      modifies this`table, this`clients
      ensures Valid()
      ensures table == Put(old(table), uid, rid) && clients == Put(old(clients), uid, None)
    {
      assert uid !in clients.m;
      table := Put(table, uid, rid);
      clients := Put(clients, uid, None);
    }

    /** The WELCOME that closes the connection handler, sent on the new, open socket. */
    method Greet(uid: UserId, rid: RoomId, now: Time)
      requires Valid()
      modifies rm`outbox
      ensures Valid()
      ensures rm.outbox == old(rm.outbox) + [Delivery(uid, Welcome(uid, rid, now, WelcomeText))]
    {
      rm.SendToUser(uid, true, Welcome(uid, rid, now, WelcomeText));
    }

    /**
     * A new connection, as the handler runs it to completion: `Join`, then WELCOME after the
     * join's own messages.
     */
    method Connect(q: JoinQuery, pick: ColorIndex, now: Time) returns (uid: UserId)
      requires Valid() && rm.clock <= now
      modifies this`table, this`clients, rm
      ensures Valid() && rm.clock == now
      ensures uid !in old(table.m) && table == Put(old(table), uid, ParamsOf(q).roomId)
      ensures clients == Put(old(clients), uid, None)
      ensures var p := ParamsOf(q);
        var room0 := if p.roomId in old(rm.rooms) then old(rm.rooms)[p.roomId] else NewRoom(now);
        var o := JoinEffect(room0, uid, NewUser(uid, p.name, Some(p.role), p.color, pick, now, true), now);
        && rm.rooms == old(rm.rooms)[p.roomId := o.room]
        && rm.outbox == old(rm.outbox) + o.sent + [Delivery(uid, Welcome(uid, p.roomId, now, WelcomeText))]
      ensures rm.pending == old(rm.pending)
    {
      uid := Join(q, pick, now);
      Greet(uid, ParamsOf(q).roomId, now);
    }

    /**
     * A frame from a live socket. One that parses goes to handleMessage with the socket's room
     * and id; one that throws is answered with a single ERROR to that socket alone. Either way the
     * socket stays recorded.
     */
    method Message(uid: UserId, f: Incoming, now: Time, suffix: string)
      requires Valid() && rm.clock <= now && uid in clients.m
      modifies rm
      ensures Valid() && table == old(table) && clients == old(clients) && rm.counter == old(rm.counter)
      ensures uid in table.m && table.m[uid] in old(rm.rooms) && uid in old(rm.rooms)[table.m[uid]].users.m
      ensures f.Unparseable? ==>
        var open := old(rm.rooms)[table.m[uid]].users.m[uid].open;
        && rm.rooms == old(rm.rooms) && rm.pending == old(rm.pending)
        && rm.outbox == old(rm.outbox) + (if open then [Delivery(uid, Error(ProcessingError, None))] else [])
      ensures f.Parsed? ==>
        var rid := table.m[uid];
        var o := DispatchEffect(old(rm.rooms)[rid], rid, uid, f.msg, now, suffix);
        && rm.rooms == old(rm.rooms)[rid := o.room]
        && rm.outbox == old(rm.outbox) + o.sent && rm.pending == old(rm.pending) + o.tasks
    {
      var rid := table.m[uid];
      match f
      case Unparseable =>
        if rm.rooms[rid].users.m[uid].open {
          rm.outbox := rm.outbox + [Delivery(uid, Error(ProcessingError, None))];
        }
      case Parsed(msg) =>
        ghost var rooms0 := rm.rooms;
        DispatchKeepsStamps(rooms0[rid], rid, uid, msg, now, suffix);
        rm.HandleMessage(rid, uid, msg, now, suffix);
        AgreeSameMembers(rooms0, table.m, rid, rm.rooms[rid]);
    }

    /**
     * A socket's close event: a recorded socket leaves its room (USER_LEFT to the rest) and the
     * table; an unrecorded one touches no room and sends nothing.
     */
    method Close(uid: UserId)
      requires Valid()
      modifies this`table, this`clients, rm`rooms, rm`outbox
      ensures Valid()
      ensures clients == Delete(old(clients), uid) && table == Delete(old(table), uid)
      ensures uid !in old(table.m) ==> rm.rooms == old(rm.rooms) && rm.outbox == old(rm.outbox)
      ensures uid in old(table.m) ==>
        var rid := old(table.m)[uid];
        var o := LeaveEffect(old(rm.rooms)[rid], uid);
        rm.rooms == old(rm.rooms)[rid := o.room] && rm.outbox == old(rm.outbox) + o.sent
    {
      if uid in table.m {
        var rid := table.m[uid];
        AgreeLeave(rm.rooms, table.m, uid);
        rm.RemoveUser(rid, uid);
        table := Delete(table, uid);
      }
      clients := Delete(clients, uid);
    }

    /** A RoomManager timer fires; the connection glue is not involved and stays as it was. */
    method Timer(i: nat, now: Time) returns (ok: bool)
      requires Valid() && rm.clock <= now && i < |rm.pending|
      modifies rm
      ensures Valid() && table == old(table) && clients == old(clients)
      ensures var t := old(rm.pending[i]);
        var o := TaskEffect(old(rm.rooms)[t.roomId], t, now);
        && ok == !Throws(old(rm.rooms)[t.roomId], t)
        && rm.rooms == old(rm.rooms)[t.roomId := o.room] && rm.outbox == old(rm.outbox) + o.sent
    {
      ghost var rooms0 := rm.rooms;
      ghost var t := rm.pending[i];
      ok := rm.RunTask(i, now);
      TaskKeepsStamps(rooms0[t.roomId], t, now);
      AgreeSameMembers(rooms0, table.m, t.roomId, rm.rooms[t.roomId]);
    }

    /** The connection glue and the wire log as they stand. */
    ghost function State(): Glue
      reads this, rm
    {
      Glue(table, clients, rm.rooms, rm.outbox)
    }

    /**
     * The heartbeat callback on one socket: one already marked `false` is removed from its room
     * and the table, then terminated; any other is marked `false` and pinged.
     */
    method Probe(uid: UserId)
      requires Valid() && uid in clients.m
      modifies this`table, this`clients, rm`rooms, rm`outbox
      ensures Valid() && State() == ProbeStep(old(State()), uid)
    {
      if clients.m[uid] == Some(false) {
        if uid in table.m {
          var rid := table.m[uid];
          AgreeLeave(rm.rooms, table.m, uid);
          rm.RemoveUser(rid, uid);
          table := Delete(table, uid);
        }
        clients := Delete(clients, uid);
      } else {
        clients := Put(clients, uid, Some(false));
      }
    }

    /** The heartbeat interval body: `Probe` on each socket of `wss.clients`, in order. */
    method Heartbeat()
      requires Valid()
      modifies this`table, this`clients, rm`rooms, rm`outbox
      ensures Valid() && State() == Beat(old(State()), old(clients.keys))
    {
      var ids := clients.keys;
      ghost var g0 := State();
      var i := 0;
      assert ids[..0] == [];
      while i < |ids|
        invariant 0 <= i <= |ids|
        invariant Valid() && State() == Beat(g0, ids[..i])
        invariant forall j :: i <= j < |ids| ==> ids[j] in clients.m
      {
        BeatStep(g0, ids, i);
        Probe(ids[i]);
        assert forall j :: i + 1 <= j < |ids| ==> ids[j] in clients.m by {
          assert NoDup(ids);
        }
        i := i + 1;
      }
      assert ids[..i] == ids;
    }

    /** `ws.send` on a recorded socket: delivered only while the socket is open. */
    method Send(uid: UserId, msg: ServerMsg)
      requires Valid() && uid in table.m
      modifies rm`outbox
      ensures Valid()
      ensures rm.outbox == old(rm.outbox) + if IsOpen(rm.rooms, table.m, uid) then [Delivery(uid, msg)] else []
    {
      var rid := table.m[uid];
      rm.SendToUser(uid, rm.rooms[rid].users.m[uid].open, msg);
    }

    /** `ws.close()` on a recorded socket: it stays a member of its room but is no longer open. */
    method Hangup(uid: UserId)
      requires Valid() && uid in table.m
      modifies rm`rooms
      ensures Valid()
      ensures rm.rooms == ShutOne(old(rm.rooms), table.m, uid).rooms
    {
      var rid := table.m[uid];
      ghost var room := rm.rooms[rid];
      ghost var closed := room.(users := Put(room.users, uid, room.users.m[uid].(open := false)));
      assert closed.users.m.Keys == room.users.m.Keys;
      AgreeSameMembers(rm.rooms, table.m, rid, closed);
      rm.SocketClosing(rid, uid);
    }

    /** The SIGINT callback on one recorded socket: SERVER_SHUTDOWN if it is open, then `ws.close()`. */
    method NotifyAndClose(uid: UserId)
      requires Valid() && uid in table.m
      modifies rm`rooms, rm`outbox
      ensures Valid()
      ensures var s := ShutOne(old(rm.rooms), table.m, uid);
        rm.rooms == s.rooms && rm.outbox == old(rm.outbox) + s.sent
    {
      ghost var s := ShutOne(rm.rooms, table.m, uid);
      assert s.sent == if IsOpen(rm.rooms, table.m, uid) then [Delivery(uid, ServerShutdown(ShutdownText))] else [];
      Send(uid, ServerShutdown(ShutdownText));
      Hangup(uid);
    }

    /**
     * SIGINT: `NotifyAndClose` on every recorded socket, in table order; the process exit that
     * follows is not modelled.
     */
    method Shutdown()
      requires Valid()
      modifies rm`rooms, rm`outbox
      ensures Valid() && table == old(table) && clients == old(clients)
      ensures var w := ShutAll(old(rm.rooms), table.m, table.keys);
        rm.rooms == w.rooms && rm.outbox == old(rm.outbox) + w.sent
    {
      ghost var rooms0, out0 := rm.rooms, rm.outbox;
      var ids := table.keys;
      var i := 0;
      assert ids[..0] == [];
      while i < |ids|
        invariant 0 <= i <= |ids|
        invariant Valid()
        invariant rm.rooms == ShutAll(rooms0, table.m, ids[..i]).rooms
        invariant rm.outbox == out0 + ShutAll(rooms0, table.m, ids[..i]).sent
      {
        ghost var w := ShutAll(rooms0, table.m, ids[..i]);
        ShutAllStep(rooms0, table.m, ids, i);
        NotifyAndClose(ids[i]);
        AppendAssoc(out0, w.sent, ShutOne(w.rooms, table.m, ids[i]).sent);
        i := i + 1;
      }
      assert ids[..i] == ids;
    }
  }

  /**
   * After SIGINT every socket of the table counts as closed, so the USER_LEFT broadcasts of the
   * close events that follow reach nobody.
   */
  lemma ShutdownSilencesRooms(rooms: map<RoomId, Room>, table: OrderedMap<UserId, RoomId>, rid: RoomId,
                              msg: ServerMsg, exclude: Option<UserId>)
    requires Agree(rooms, table.m)
    requires rid in ShutAll(rooms, table.m, table.keys).rooms
    ensures Fanout(ShutAll(rooms, table.m, table.keys).rooms[rid].users, msg, exclude) == []
  {
    ShutAllCloses(rooms, table.m, table.keys);
    QuietWhenAllClosed(ShutAll(rooms, table.m, table.keys).rooms, table.m, rid, msg, exclude);
  }
}
