/** Decimal rendering of natural numbers, used to build the ids `user_<n>` and `obj_<time>_<suffix>`. */
module Decimal {

  function DigitChar(d: nat): (c: char)
    requires d < 10
    ensures '0' <= c <= '9'
  {
    (('0' as int) + d) as char
  }

  /** The decimal digits of `n`, most significant first, as JavaScript's template strings print it. */
  function NatToString(n: nat): (s: string)
    ensures 1 <= |s|
    ensures n < 10 <==> |s| == 1
    decreases n
  {
    if n < 10 then [DigitChar(n)] else NatToString(n / 10) + [DigitChar(n % 10)]
  }

  /** Distinct numbers print differently. */
  lemma {:induction false} NatToStringInjective(a: nat, b: nat)
    requires NatToString(a) == NatToString(b)
    ensures a == b
  {
    var s := NatToString(a);
    if a >= 10 && b >= 10 {
      assert s[|s| - 1] == DigitChar(a % 10) && s[|s| - 1] == DigitChar(b % 10);
      assert s[..|s| - 1] == NatToString(a / 10) && s[..|s| - 1] == NatToString(b / 10);
      NatToStringInjective(a / 10, b / 10);
    } else {
      assert s[0] == DigitChar(a) && s[0] == DigitChar(b);
    }
  }

  const UserPrefix: string := "user_"

  /** The id `user_<n>` that RoomManager.addUser gives its n-th user. */
  function UserIdOf(n: nat): (id: string)
    ensures |id| > |UserPrefix| && id[..|UserPrefix|] == UserPrefix
  {
    UserPrefix + NatToString(n)
  }

  lemma UserIdInjective(a: nat, b: nat)
    requires UserIdOf(a) == UserIdOf(b)
    ensures a == b
  {
    assert UserIdOf(a)[|UserPrefix|..] == NatToString(a);
    assert UserIdOf(b)[|UserPrefix|..] == NatToString(b);
    NatToStringInjective(a, b);
  }
}

/** The shared vocabulary of the board: values, objects, users, cursors and the two message schemas. */
module Types {

  datatype Option<+T> = None | Some(value: T)

  type UserId = string
  type ObjectId = string
  type RoomId = string
  /** Milliseconds as Date.now() returns them. */
  type Time = nat

  /** A JSON value stored in an object's `data` payload (coordinates are whole numbers here). */
  datatype Value = Num(n: int) | Str(s: string) | Flag(b: bool) | Points(ps: seq<(int, int)>)

  /** An object's `data` payload: a flat JSON object, so that a shallow merge is map union. */
  type Data = map<string, Value>

  datatype ObjectType = StickyNote | Drawing | Shape

  /** A board object as it travels on the wire and as the client store keeps it. */
  datatype BoardObject = BoardObject(
    id: ObjectId,
    kind: ObjectType,
    data: Data,
    createdAt: Time,
    createdBy: UserId,
    lastModified: Time,
    lastModifiedBy: UserId)

  /** The public part of a user: `{id, name, color, role}`. */
  datatype UserInfo = UserInfo(id: UserId, name: string, color: string, role: string)

  datatype Cursor = Cursor(userId: UserId, x: int, y: int, timestamp: Time)

  /** The payload of INITIAL_STATE. */
  datatype InitialData = InitialData(objects: seq<BoardObject>, users: seq<UserInfo>, cursors: seq<Cursor>)

  /** The messages a client sends; `UnknownType` is any other `type` tag. The optional `objectId`
      of CREATE_OBJECT and TRIGGER_RACE_CONDITION is named `newId` and `testId` here. */
  datatype ClientMsg =
    | CreateObject(newId: Option<string>, objectType: ObjectType, data: Data)
    | UpdateObject(objectId: ObjectId, data: Data)
    | DeleteObject(objectId: ObjectId)
    | MoveObject(objectId: ObjectId, x: int, y: int)
    | CursorMove(x: int, y: int)
    | TriggerRaceCondition(testId: Option<string>)
    | UnknownType(tag: string)

  /** The messages the server sends (INITIAL_STATE's `data` is named `state` here). */
  datatype ServerMsg =
    | Welcome(userId: UserId, roomId: RoomId, serverTime: Time, message: string)
    | InitialState(userId: UserId, state: InitialData)
    | UserJoined(userId: UserId, user: UserInfo)
    | UserLeft(userId: UserId)
    | ObjectCreated(objectId: ObjectId, obj: BoardObject)
    | ObjectUpdated(objectId: ObjectId, data: Data, lastModified: Time, lastModifiedBy: UserId)
    | ObjectDeleted(objectId: ObjectId, deletedBy: UserId)
    | ObjectMoved(objectId: ObjectId, x: int, y: int, lastModified: Time, lastModifiedBy: UserId)
    | CursorMoved(userId: UserId, x: int, y: int)
    | Error(message: string, action: Option<string>)
    | ServerShutdown(message: string)

  /** One `ws.send` on the socket of user `to`. */
  datatype Delivery = Delivery(to: UserId, msg: ServerMsg)

  const Editor: string := "editor"
  const Viewer: string := "viewer"

  /**
   * JavaScript's `s || dflt` on an optional string: a missing or empty string falls back. The
   * contract is the operator's own definition; what the defaults mean is proved where they are
   * used (`RoomLogic.NewUser`, `Session.ParamsOf`).
   */
  function Or(s: Option<string>, dflt: string): (r: string)
    ensures s.Some? && s.value != "" ==> r == s.value
    ensures s.None? || s.value == "" ==> r == dflt
  {
    if s.Some? && s.value != "" then s.value else dflt
  }
}
