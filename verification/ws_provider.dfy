/**
 * The client side of the socket, frontend/components/WebSocketProvider.tsx: the table that turns
 * each server message into one call on the board store, and the connection life cycle with its
 * reconnect counter, exponential back-off and open-only `send`.
 */
module SocketProvider {
  import opened Types
  import BoardState

  /** One incoming frame: a recognised server message, a message with a `type` the switch does
      not list, or text whose parsing or handling throws. */
  datatype Frame = Message(msg: ServerMsg) | Unrecognised(tag: string) | Garbled

  /** Frames that reach no store action: ERROR, SERVER_SHUTDOWN, the default case and the catch. */
  predicate Inert(f: Frame) {
    f.Unrecognised? || f.Garbled? || f.msg.Error? || f.msg.ServerShutdown?
  }

  /**
   * `handleMessage`: the store after one frame. `role` is the role the provider was configured
   * with and `now` the local clock that `updateCursor` stamps with.
   */
  function Apply(s: BoardState.Store, f: Frame, role: string, now: Time): (r: BoardState.Store)
    ensures Inert(f) ==> r == s
    // each recognised message is exactly one store action (two for USER_LEFT)
    ensures f.Message? && f.msg.Welcome? ==> r == BoardState.SetCurrentUser(s, f.msg.userId, role)
    ensures f.Message? && f.msg.InitialState? ==> r == BoardState.FromServer(s, f.msg.state)
    ensures f.Message? && f.msg.UserJoined? ==> r == BoardState.AddUser(s, f.msg.user)
    ensures f.Message? && f.msg.UserLeft? ==> r == BoardState.RemoveCursor(BoardState.RemoveUser(s, f.msg.userId), f.msg.userId)
    ensures f.Message? && f.msg.ObjectCreated? ==> r == BoardState.AddObject(s, f.msg.obj)
    ensures f.Message? && f.msg.ObjectUpdated? ==> r == BoardState.UpdateObject(s, f.msg.objectId, f.msg.data)
    ensures f.Message? && f.msg.ObjectDeleted? ==> r == BoardState.DeleteObject(s, f.msg.objectId)
    ensures f.Message? && f.msg.ObjectMoved? ==>
      r == BoardState.MoveObject(s, f.msg.objectId, f.msg.x, f.msg.y, f.msg.lastModified, f.msg.lastModifiedBy)
    ensures f.Message? && f.msg.CursorMoved? ==> r == BoardState.UpdateCursor(s, f.msg.userId, f.msg.x, f.msg.y, now)
    // WELCOME: the id comes from the server, the role is the local one
    ensures f.Message? && f.msg.Welcome? ==>
      && r.currentUserId == Some(f.msg.userId) && r.currentUserRole == role
      && r.objects == s.objects && r.users == s.users && r.cursors == s.cursors
    // USER_LEFT drops the user and that user's cursor, and nobody else
    ensures f.Message? && f.msg.UserLeft? ==>
      && r.users == s.users - {f.msg.userId} && r.cursors == s.cursors - {f.msg.userId}
      && r == s.(users := r.users, cursors := r.cursors)
    // USER_JOINED, OBJECT_CREATED, OBJECT_DELETED and CURSOR_MOVED set or drop one entry of one map
    ensures f.Message? && f.msg.UserJoined? ==> r == s.(users := s.users[f.msg.user.id := f.msg.user])
    ensures f.Message? && f.msg.ObjectCreated? ==> r == s.(objects := s.objects[f.msg.obj.id := f.msg.obj])
    ensures f.Message? && f.msg.ObjectDeleted? ==> r == s.(objects := s.objects - {f.msg.objectId})
    ensures f.Message? && f.msg.CursorMoved? ==>
      r == s.(cursors := s.cursors[f.msg.userId := Cursor(f.msg.userId, f.msg.x, f.msg.y, now)])
    // OBJECT_UPDATED and OBJECT_MOVED on an object the client does not know change nothing
    ensures f.Message? && (f.msg.ObjectUpdated? || f.msg.ObjectMoved?) && f.msg.objectId !in s.objects ==> r == s
    // OBJECT_UPDATED merges the delta over the data and keeps the stamps the client already had
    ensures f.Message? && f.msg.ObjectUpdated? && f.msg.objectId in s.objects ==>
      var o := s.objects[f.msg.objectId];
      r == s.(objects := s.objects[f.msg.objectId := o.(data := o.data + f.msg.data)])
    // OBJECT_MOVED takes the message's position and stamps, older or not
    ensures f.Message? && f.msg.ObjectMoved? && f.msg.objectId in s.objects ==>
      && f.msg.objectId in r.objects
      && r.objects[f.msg.objectId].lastModified == f.msg.lastModified
      && r.objects[f.msg.objectId].lastModifiedBy == f.msg.lastModifiedBy
      && "x" in r.objects[f.msg.objectId].data && r.objects[f.msg.objectId].data["x"] == Num(f.msg.x)
      && "y" in r.objects[f.msg.objectId].data && r.objects[f.msg.objectId].data["y"] == Num(f.msg.y)
    ensures f.Message? && f.msg.InitialState? ==> r == s.(objects := r.objects, users := r.users, cursors := r.cursors)
    // no frame touches the tool or the connection flag
    ensures r.activeTool == s.activeTool && r.isConnected == s.isConnected
  {
    match f
    case Garbled => s
    case Unrecognised(_) => s
    case Message(m) =>
      match m
      case Welcome(uid, _, _, _) => BoardState.SetCurrentUser(s, uid, role)
      case InitialState(_, data) => BoardState.FromServer(s, data)
      case UserJoined(_, u) => BoardState.AddUser(s, u)
      case UserLeft(uid) => BoardState.RemoveCursor(BoardState.RemoveUser(s, uid), uid)
      case ObjectCreated(_, o) => BoardState.AddObject(s, o)
      case ObjectUpdated(id, delta, _, _) => BoardState.UpdateObject(s, id, delta)
      case ObjectDeleted(id, _) => BoardState.DeleteObject(s, id)
      case ObjectMoved(id, x, y, t, who) => BoardState.MoveObject(s, id, x, y, t, who)
      case CursorMoved(uid, x, y) => BoardState.UpdateCursor(s, uid, x, y, now)
      case Error(_, _) => s
      case ServerShutdown(_) => s
  }

  /** The store after a run of frames, first to last. */
  function ApplyAll(s: BoardState.Store, fs: seq<Frame>, role: string, now: Time): BoardState.Store
  {
    if fs == [] then s else Apply(ApplyAll(s, fs[..|fs| - 1], role, now), fs[|fs| - 1], role, now)
  }

  /** Neither the tool nor the connection flag moves under any run of frames. */
  lemma {:induction false} ApplyAllKeepsLocalFields(s: BoardState.Store, fs: seq<Frame>, role: string, now: Time)
    ensures ApplyAll(s, fs, role, now).activeTool == s.activeTool
    ensures ApplyAll(s, fs, role, now).isConnected == s.isConnected
  {
    if fs != [] {
      ApplyAllKeepsLocalFields(s, fs[..|fs| - 1], role, now);
    }
  }

  /** A run of frames the store ignores leaves it as it was. */
  lemma {:induction false} InertRunChangesNothing(s: BoardState.Store, fs: seq<Frame>, role: string, now: Time)
    requires forall i :: 0 <= i < |fs| ==> Inert(fs[i])
    ensures ApplyAll(s, fs, role, now) == s
  {
    if fs != [] {
      InertRunChangesNothing(s, fs[..|fs| - 1], role, now);
    }
  }

  // ---------------------------------------------------------------- reconnect back-off

  /**
   * `reconnectInterval || 3000`: a missing or zero interval falls back to three seconds. The
   * contract is the operator's own definition; the back-off lemmas below build on it.
   */
  function Base(interval: Option<int>): (b: int)
    ensures interval.None? || interval.value == 0 ==> b == 3000
    ensures interval.Some? && interval.value != 0 ==> b == interval.value
  {
    if interval.Some? && interval.value != 0 then interval.value else 3000
  }

  function Pow2(n: nat): (p: nat)
    ensures p >= 1
  {
    if n == 0 then 1 else 2 * Pow2(n - 1)
  }

  /** The wait before reconnect attempt number `attempts + 1`. */
  function Delay(interval: Option<int>, attempts: nat): int {
    Base(interval) * Pow2(attempts)
  }

  /** The delays of the first `n` reconnect attempts after a drop, in order. */
  function Schedule(interval: Option<int>, n: nat): (d: seq<int>)
    ensures |d| == n
  {
    if n == 0 then [] else Schedule(interval, n - 1) + [Delay(interval, n - 1)]
  }

  function Sum(s: seq<int>): int {
    if s == [] then 0 else Sum(s[..|s| - 1]) + s[|s| - 1]
  }

  /** Each wait is twice the one before it, starting from the base interval. */
  lemma {:induction false} ScheduleDoubles(interval: Option<int>, n: nat)
    ensures n > 0 ==> Schedule(interval, n)[0] == Base(interval)
    ensures forall k :: 0 <= k < n - 1 ==> Schedule(interval, n)[k + 1] == 2 * Schedule(interval, n)[k]
  {
    if n > 0 {
      ScheduleDoubles(interval, n - 1);
      var d := Schedule(interval, n);
      assert d[..n - 1] == Schedule(interval, n - 1);
      if n >= 2 {
        assert d[n - 1] == 2 * d[n - 2] by {
          assert Pow2(n - 1) == 2 * Pow2(n - 2);
          assert d[n - 2] == Base(interval) * Pow2(n - 2);
        }
      }
    }
  }

  /** The first `n` waits add up to 2^n - 1 base intervals. */
  lemma {:induction false} ScheduleTotal(interval: Option<int>, n: nat)
    ensures Sum(Schedule(interval, n)) == Base(interval) * (Pow2(n) - 1)
  {
    if n > 0 {
      ScheduleTotal(interval, n - 1);
      var d, b, p := Schedule(interval, n), Base(interval), Pow2(n - 1);
      assert d[..n - 1] == Schedule(interval, n - 1);
      assert Sum(d) == Sum(Schedule(interval, n - 1)) + b * p;
      Distribute(b, p);
    }
  }

  lemma Distribute(b: int, p: int)
    ensures b * (p - 1) + b * p == b * (2 * p - 1)
  {
  }

  /** The five attempts together wait 31 base intervals: 1 + 2 + 4 + 8 + 16. */
  lemma FiveAttemptsTotal(interval: Option<int>)
    ensures Sum(Schedule(interval, MaxAttempts)) == 31 * Base(interval)
  {
    ScheduleTotal(interval, MaxAttempts);
    assert Pow2(5) == 32;
  }

  // ---------------------------------------------------------------- the provider

  /** `WebSocket.readyState` of the socket in `wsRef`, between its creation and its close event. */
  datatype ReadyState = Opening | Open

  /** `ConnectionStatus`; `Failed` is the status the source spells 'error'. */
  datatype ConnectionStatus = Connecting | Connected | Disconnected | Failed

  const MaxAttempts: nat := 5

  /**
   * The provider's refs and state: `wsRef` (None when null), `reconnectAttemptsRef`, the pending
   * reconnect timeout with its delay, the connection status, the current user, the board store
   * and, as the only output, the frames handed to `ws.send`. `delays` records, as a proof aid,
   * the reconnect delays scheduled since the last successful open.
   */
  class Provider {
    const autoReconnect: bool
    const interval: Option<int>
    const role: string
    var socket: Option<ReadyState>
    var status: ConnectionStatus
    var attempts: nat
    var timer: Option<int>
    var currentUserId: Option<UserId>
    var store: BoardState.Store
    var sent: seq<ClientMsg>
    ghost var delays: seq<int>

    ghost predicate Valid()
      reads this
    {
      && attempts <= MaxAttempts
      && |delays| == attempts + (if timer.Some? then 1 else 0)
      && delays == Schedule(interval, |delays|)
      && (timer.Some? ==> socket.None? && attempts < MaxAttempts && timer.value == Delay(interval, attempts))
      && (store.isConnected <==> socket == Some(Open))
      && (status == Connected ==> socket == Some(Open))
    }

    /**
     * Mounting: the state the hooks start from (status 'connecting', role `userRole || 'editor'`,
     * an empty store), followed by the first `connect()`. `urlOk` says whether `new URL` and
     * `new WebSocket` accept the configured address.
     */
    constructor (autoReconnect: Option<bool>, interval: Option<int>, userRole: Option<string>, urlOk: bool)
      ensures Valid()
      ensures this.autoReconnect == (autoReconnect != Some(false)) && this.interval == interval
      ensures role == Or(userRole, Editor)
      ensures attempts == 0 && timer.None? && sent == [] && currentUserId.None?
      ensures store == BoardState.InitialStore
      ensures urlOk ==> socket == Some(Opening) && status == Connecting
      ensures !urlOk ==> socket.None? && status == Failed
    {
      this.autoReconnect := autoReconnect != Some(false);
      this.interval := interval;
      role := Or(userRole, Editor);
      socket := None;
      status := Connecting;
      attempts := 0;
      timer := None;
      currentUserId := None;
      store := BoardState.InitialStore;
      sent := [];
      delays := [];
      new;
      Connect(urlOk);
    }

    /**
     * `connect()`: nothing happens while the current socket is open; otherwise a new socket
     * replaces the current one, or, when the address is refused, the status becomes 'error' and
     * no socket and no retry exist.
     */
    method Connect(urlOk: bool)
      requires Valid() && timer.None?
      modifies this`socket, this`status
      ensures Valid()
      ensures old(socket) == Some(Open) ==> socket == old(socket) && status == old(status)
      ensures old(socket) != Some(Open) && urlOk ==> socket == Some(Opening) && status == Connecting
      ensures old(socket) != Some(Open) && !urlOk ==> socket == old(socket) && status == Failed
    {
      if socket == Some(Open) {
        return;
      }
      if !urlOk {
        status := Failed;
        return;
      }
      status := Connecting;
      socket := Some(Opening);
    }

    /** `onopen`: connected, the store told so, and the attempt counter back to zero. */
    method OnOpen()
      requires Valid() && socket == Some(Opening)
      modifies this`socket, this`status, this`store, this`attempts, this`delays
      ensures Valid()
      ensures socket == Some(Open) && status == Connected && attempts == 0
      ensures store == BoardState.SetConnected(old(store), true)
    {
      socket := Some(Open);
      status := Connected;
      store := BoardState.SetConnected(store, true);
      attempts := 0;
      delays := [];
    }

    /** `onerror`: only the status changes; the close event, if any, comes separately. */
    method OnError()
      requires Valid()
      modifies this`status
      ensures Valid() && status == Failed
    {
      status := Failed;
    }

    /**
     * `onclose`: disconnected, the store told so, `wsRef` cleared, and a reconnect timer armed
     * with the next back-off delay unless reconnecting is switched off or five attempts are used.
     */
    method OnClose()
      requires Valid() && socket.Some?
      modifies this`socket, this`status, this`store, this`timer, this`delays
      ensures Valid()
      ensures socket.None? && status == Disconnected
      ensures store == BoardState.SetConnected(old(store), false)
      ensures autoReconnect && attempts < MaxAttempts ==> timer == Some(Delay(interval, attempts))
      ensures !autoReconnect || attempts == MaxAttempts ==> timer.None?
    {
      status := Disconnected;
      store := BoardState.SetConnected(store, false);
      socket := None;
      if autoReconnect && attempts < MaxAttempts {
        timer := Some(Delay(interval, attempts));
        delays := delays + [Delay(interval, attempts)];
      }
    }

    /** The reconnect timeout fires: one more attempt is counted, then `connect()` runs. */
    method FireTimer(urlOk: bool)
      requires Valid() && timer.Some?
      modifies this`socket, this`status, this`timer, this`attempts
      ensures Valid()
      ensures timer.None? && attempts == old(attempts) + 1
      ensures urlOk ==> socket == Some(Opening) && status == Connecting
      ensures !urlOk ==> socket.None? && status == Failed
    {
      timer := None;
      attempts := attempts + 1;
      Connect(urlOk);
    }

    /** `send`: the message goes out only while the socket is open, and is dropped otherwise. */
    method Send(m: ClientMsg)
      requires Valid()
      modifies this`sent
      ensures Valid()
      ensures socket == Some(Open) ==> sent == old(sent) + [m]
      ensures socket != Some(Open) ==> sent == old(sent)
    {
      if socket == Some(Open) {
        sent := sent + [m];
      }
    }

    /** `onmessage`: WELCOME also sets the provider's own current user; the store takes `Apply`. */
    method OnMessage(f: Frame, now: Time)
      requires Valid()
      modifies this`currentUserId, this`store
      ensures Valid()
      ensures store == Apply(old(store), f, role, now)
      ensures f.Message? && f.msg.Welcome? ==> currentUserId == Some(f.msg.userId)
      ensures !(f.Message? && f.msg.Welcome?) ==> currentUserId == old(currentUserId)
    {
      if f.Message? && f.msg.Welcome? {
        currentUserId := Some(f.msg.userId);
      }
      store := Apply(store, f, role, now);
    }
  }

  /**
   * Without an open in between, the delays armed since the last open are the first ones of the
   * back-off schedule, and there are at most five of them: a sixth close arms nothing.
   */
  lemma BackoffIsBounded(p: Provider)
    requires p.Valid()
    ensures |p.delays| <= MaxAttempts
    ensures forall k :: 0 <= k < |p.delays| ==> p.delays[k] == Base(p.interval) * Pow2(k)
  {
    var n := |p.delays|;
    ScheduleIsPlan(p.interval, n);
  }

  lemma {:induction false} ScheduleIsPlan(interval: Option<int>, n: nat)
    ensures forall k :: 0 <= k < n ==> Schedule(interval, n)[k] == Base(interval) * Pow2(k)
  {
    if n > 0 {
      ScheduleIsPlan(interval, n - 1);
      assert Schedule(interval, n)[..n - 1] == Schedule(interval, n - 1);
    }
  }
}
