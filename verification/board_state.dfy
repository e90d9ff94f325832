/**
 * The client's board store of frontend/hooks/useBoardState.ts: three maps (objects, users,
 * cursors) and four scalar fields. Every action copies one map, changes one entry of the copy
 * and installs it, so each is a function from store to store here. `initializeFromServer` fills
 * three fresh maps entry by entry; it is a method with a loop per map, proved equal to the fold
 * `IndexBy` that the pure side of the model uses.
 */
module BoardState {
  import opened Types

  datatype Tool = Select | Pen | StickyNoteTool

  datatype Store = Store(
    objects: map<ObjectId, BoardObject>,
    users: map<UserId, UserInfo>,
    cursors: map<UserId, Cursor>,
    currentUserId: Option<UserId>,
    currentUserRole: string,
    activeTool: Tool,
    isConnected: bool)

  /** `initialState`: nothing known, no current user, role editor, the selection tool, offline. */
  const InitialStore := Store(map[], map[], map[], None, Editor, Select, false)

  // ---------------------------------------------------------------- object actions

  /** Inserts `o` under its own id, replacing whatever was there. */
  function AddObject(s: Store, o: BoardObject): (r: Store)
    ensures o.id in r.objects && r.objects[o.id] == o
    ensures forall id :: id != o.id ==> (id in r.objects <==> id in s.objects)
    ensures forall id :: id != o.id && id in s.objects ==> r.objects[id] == s.objects[id]
    ensures r == s.(objects := r.objects)
  {
    s.(objects := s.objects[o.id := o])
  }

  /**
   * Shallow-merges `delta` into the data of an existing object; its stamps and every other field
   * stay. An unknown id leaves the store as it is.
   */
  function UpdateObject(s: Store, id: ObjectId, delta: Data): (r: Store)
    ensures id !in s.objects ==> r == s
    ensures id in s.objects ==>
      && r.objects.Keys == s.objects.Keys
      && r.objects[id] == s.objects[id].(data := r.objects[id].data)
      && (forall k :: k in delta ==> k in r.objects[id].data && r.objects[id].data[k] == delta[k])
      && (forall k :: k !in delta && k in s.objects[id].data ==> k in r.objects[id].data && r.objects[id].data[k] == s.objects[id].data[k])
      && (forall k :: k in r.objects[id].data ==> k in delta || k in s.objects[id].data)
    ensures forall k :: k != id && k in s.objects ==> r.objects[k] == s.objects[k]
    ensures r == s.(objects := r.objects)
  {
    if id in s.objects then
      var o := s.objects[id];
      s.(objects := s.objects[id := o.(data := o.data + delta)])
    else s
  }

  function DeleteObject(s: Store, id: ObjectId): (r: Store)
    ensures id !in r.objects
    ensures forall k :: k != id ==> (k in r.objects <==> k in s.objects)
    ensures forall k :: k != id && k in s.objects ==> r.objects[k] == s.objects[k]
    ensures r == s.(objects := r.objects)
  {
    s.(objects := s.objects - {id})
  }

  /**
   * Writes x and y into the data of an existing object and takes the given stamps as they come:
   * there is no comparison with the stamp already held. An unknown id leaves the store as it is.
   */
  function MoveObject(s: Store, id: ObjectId, x: int, y: int, lastModified: Time, lastModifiedBy: UserId): (r: Store)
    ensures id !in s.objects ==> r == s
    ensures id in s.objects ==>
      && r.objects.Keys == s.objects.Keys
      && var before, after := s.objects[id], r.objects[id];
      && after.data.Keys == before.data.Keys + {"x", "y"}
      && after.data["x"] == Num(x) && after.data["y"] == Num(y)
      && (forall k :: k in before.data && k != "x" && k != "y" ==> after.data[k] == before.data[k])
      && after.lastModified == lastModified && after.lastModifiedBy == lastModifiedBy
      && after == before.(data := after.data, lastModified := after.lastModified, lastModifiedBy := after.lastModifiedBy)
    ensures forall k :: k != id && k in s.objects ==> r.objects[k] == s.objects[k]
    ensures r == s.(objects := r.objects)
  {
    if id in s.objects then
      var o := s.objects[id];
      s.(objects := s.objects[id := o.(data := o.data["x" := Num(x)]["y" := Num(y)],
                                       lastModified := lastModified, lastModifiedBy := lastModifiedBy)])
    else s
  }

  function ClearAllObjects(s: Store): (r: Store)
    ensures r.objects == map[] && r == s.(objects := map[])
  {
    s.(objects := map[])
  }

  // ---------------------------------------------------------------- user, cursor, tool and connection actions

  function SetCurrentUser(s: Store, uid: UserId, role: string): (r: Store)
    ensures r.currentUserId == Some(uid) && r.currentUserRole == role
    ensures r.objects == s.objects && r.users == s.users && r.cursors == s.cursors
    ensures r.activeTool == s.activeTool && r.isConnected == s.isConnected
  {
    s.(currentUserId := Some(uid), currentUserRole := role)
  }

  function AddUser(s: Store, u: UserInfo): (r: Store)
    ensures u.id in r.users && r.users[u.id] == u
    ensures forall id :: id != u.id ==> (id in r.users <==> id in s.users)
    ensures forall id :: id != u.id && id in s.users ==> r.users[id] == s.users[id]
    ensures r == s.(users := r.users)
  {
    s.(users := s.users[u.id := u])
  }

  function RemoveUser(s: Store, uid: UserId): (r: Store)
    ensures uid !in r.users
    ensures forall id :: id != uid ==> (id in r.users <==> id in s.users)
    ensures forall id :: id != uid && id in s.users ==> r.users[id] == s.users[id]
    ensures r == s.(users := r.users)
  {
    s.(users := s.users - {uid})
  }

  /** Stores the cursor of `uid` under `uid`, stamped with the local clock. */
  function UpdateCursor(s: Store, uid: UserId, x: int, y: int, now: Time): (r: Store)
    ensures uid in r.cursors && r.cursors[uid] == Cursor(uid, x, y, now)
    ensures forall id :: id != uid ==> (id in r.cursors <==> id in s.cursors)
    ensures forall id :: id != uid && id in s.cursors ==> r.cursors[id] == s.cursors[id]
    ensures r == s.(cursors := r.cursors)
  {
    s.(cursors := s.cursors[uid := Cursor(uid, x, y, now)])
  }

  function RemoveCursor(s: Store, uid: UserId): (r: Store)
    ensures uid !in r.cursors
    ensures forall id :: id != uid ==> (id in r.cursors <==> id in s.cursors)
    ensures forall id :: id != uid && id in s.cursors ==> r.cursors[id] == s.cursors[id]
    ensures r == s.(cursors := r.cursors)
  {
    s.(cursors := s.cursors - {uid})
  }

  function SetActiveTool(s: Store, tool: Tool): (r: Store)
    ensures r.activeTool == tool && r == s.(activeTool := tool)
  {
    s.(activeTool := tool)
  }

  function SetConnected(s: Store, connected: bool): (r: Store)
    ensures r.isConnected == connected && r == s.(isConnected := connected)
  {
    s.(isConnected := connected)
  }

  /** `set(initialState)`: every field goes back to its initial value, whatever the store held. */
  function ResetState(s: Store): (r: Store)
    ensures r.objects == map[] && r.users == map[] && r.cursors == map[]
    ensures r.currentUserId == None && r.currentUserRole == Editor
    ensures r.activeTool == Select && !r.isConnected
  {
    InitialStore
  }

  // ---------------------------------------------------------------- initializeFromServer

  function ObjectKey(o: BoardObject): ObjectId { o.id }
  function UserKey(u: UserInfo): UserId { u.id }
  function CursorKey(c: Cursor): UserId { c.userId }

  /** The map that `forEach(e => m.set(key(e), e))` builds from an empty map. */
  function IndexBy<T>(s: seq<T>, key: T -> string): map<string, T>
  {
    if s == [] then map[] else IndexBy(s[..|s| - 1], key)[key(s[|s| - 1]) := s[|s| - 1]]
  }

  /**
   * The index holds exactly the keys of the list, and each key maps to the last element that
   * carries it: a later duplicate wins.
   */
  lemma {:induction false} IndexByExact<T>(s: seq<T>, key: T -> string)
    ensures forall k :: k in IndexBy(s, key) <==> exists i :: 0 <= i < |s| && key(s[i]) == k
    ensures forall i :: 0 <= i < |s| && (forall j :: i < j < |s| ==> key(s[j]) != key(s[i])) ==>
      IndexBy(s, key)[key(s[i])] == s[i]
  {
    if s != [] {
      var init, last := s[..|s| - 1], s[|s| - 1];
      IndexByExact(init, key);
      forall k | k in IndexBy(s, key) ensures exists i :: 0 <= i < |s| && key(s[i]) == k {
        if k != key(last) {
          assert k in IndexBy(init, key);
          var i :| 0 <= i < |init| && key(init[i]) == k;
          assert key(s[i]) == k;
        } else {
          assert key(s[|s| - 1]) == k;
        }
      }
      forall k | exists i :: 0 <= i < |s| && key(s[i]) == k ensures k in IndexBy(s, key) {
        var i :| 0 <= i < |s| && key(s[i]) == k;
        if i < |init| {
          assert key(init[i]) == k;
        }
      }
      forall i | 0 <= i < |s| && (forall j :: i < j < |s| ==> key(s[j]) != key(s[i]))
        ensures IndexBy(s, key)[key(s[i])] == s[i]
      {
        if i < |init| {
          assert key(last) != key(s[i]);
          assert forall j :: i < j < |init| ==> key(init[j]) != key(init[i]) by {
            forall j | i < j < |init| ensures key(init[j]) != key(init[i]) {
              assert key(s[j]) != key(s[i]);
            }
          }
        }
      }
    }
  }

  /** What `initializeFromServer(data)` leaves in the store. */
  function FromServer(s: Store, data: InitialData): Store {
    s.(objects := IndexBy(data.objects, ObjectKey),
       users := IndexBy(data.users, UserKey),
       cursors := IndexBy(data.cursors, CursorKey))
  }

  /**
   * Fills three fresh maps from the snapshot lists, in list order, and installs them; the current
   * user, role, tool and connection flag stay as they were.
   */
  method InitializeFromServer(s: Store, data: InitialData) returns (r: Store)
    ensures r == FromServer(s, data)
  {
    var objects: map<ObjectId, BoardObject> := map[];
    var i := 0;
    while i < |data.objects|
      invariant 0 <= i <= |data.objects|
      invariant objects == IndexBy(data.objects[..i], ObjectKey)
    {
      assert data.objects[..i + 1][..i] == data.objects[..i];
      objects := objects[data.objects[i].id := data.objects[i]];
      i := i + 1;
    }
    assert data.objects[..i] == data.objects;
    var users: map<UserId, UserInfo> := map[];
    i := 0;
    while i < |data.users|
      invariant 0 <= i <= |data.users|
      invariant users == IndexBy(data.users[..i], UserKey)
    {
      assert data.users[..i + 1][..i] == data.users[..i];
      users := users[data.users[i].id := data.users[i]];
      i := i + 1;
    }
    assert data.users[..i] == data.users;
    var cursors: map<UserId, Cursor> := map[];
    i := 0;
    while i < |data.cursors|
      invariant 0 <= i <= |data.cursors|
      invariant cursors == IndexBy(data.cursors[..i], CursorKey)
    {
      assert data.cursors[..i + 1][..i] == data.cursors[..i];
      cursors := cursors[data.cursors[i].userId := data.cursors[i]];
      i := i + 1;
    }
    assert data.cursors[..i] == data.cursors;
    r := s.(objects := objects, users := users, cursors := cursors);
  }

  /**
   * After initializeFromServer the object map holds exactly the listed ids, each under the last
   * object listed with it, and the scalar fields are untouched.
   */
  lemma FromServerObjects(s: Store, data: InitialData)
    ensures var r := FromServer(s, data);
      && (forall id :: id in r.objects <==> exists i :: 0 <= i < |data.objects| && data.objects[i].id == id)
      && (forall i :: 0 <= i < |data.objects| && (forall j :: i < j < |data.objects| ==> data.objects[j].id != data.objects[i].id) ==>
            r.objects[data.objects[i].id] == data.objects[i])
      && r.currentUserId == s.currentUserId && r.currentUserRole == s.currentUserRole
      && r.activeTool == s.activeTool && r.isConnected == s.isConnected
  {
    IndexByExact(data.objects, ObjectKey);
  }

  /** Likewise for users, keyed by id, and cursors, keyed by the user they belong to. */
  lemma FromServerUsersCursors(s: Store, data: InitialData)
    ensures var r := FromServer(s, data);
      && (forall id :: id in r.users <==> exists i :: 0 <= i < |data.users| && data.users[i].id == id)
      && (forall i :: 0 <= i < |data.users| && (forall j :: i < j < |data.users| ==> data.users[j].id != data.users[i].id) ==>
            r.users[data.users[i].id] == data.users[i])
      && (forall id :: id in r.cursors <==> exists i :: 0 <= i < |data.cursors| && data.cursors[i].userId == id)
      && (forall i :: 0 <= i < |data.cursors| && (forall j :: i < j < |data.cursors| ==> data.cursors[j].userId != data.cursors[i].userId) ==>
            r.cursors[data.cursors[i].userId] == data.cursors[i])
  {
    IndexByExact(data.users, UserKey);
    IndexByExact(data.cursors, CursorKey);
  }

  // ---------------------------------------------------------------- laws relating the actions

  /** Deleting an object undoes adding it, and deleting twice is deleting once. */
  lemma DeleteUndoesAdd(s: Store, o: BoardObject)
    ensures DeleteObject(AddObject(s, o), o.id) == DeleteObject(s, o.id)
    ensures DeleteObject(DeleteObject(s, o.id), o.id) == DeleteObject(s, o.id)
  {
    assert s.objects[o.id := o] - {o.id} == s.objects - {o.id};
    assert s.objects - {o.id} - {o.id} == s.objects - {o.id};
  }

  /** Two moves of one object leave the one applied last, whatever their stamps say. */
  lemma LastAppliedMoveWins(s: Store, id: ObjectId, x1: int, y1: int, t1: Time, u1: UserId,
                            x2: int, y2: int, t2: Time, u2: UserId)
    ensures MoveObject(MoveObject(s, id, x1, y1, t1, u1), id, x2, y2, t2, u2) == MoveObject(s, id, x2, y2, t2, u2)
  {
    if id in s.objects {
      var o := s.objects[id];
      assert o.data["x" := Num(x1)]["y" := Num(y1)]["x" := Num(x2)]["y" := Num(y2)]
          == o.data["x" := Num(x2)]["y" := Num(y2)];
      assert s.objects[id := MoveObject(s, id, x1, y1, t1, u1).objects[id]][id := MoveObject(s, id, x2, y2, t2, u2).objects[id]]
          == s.objects[id := MoveObject(s, id, x2, y2, t2, u2).objects[id]];
    }
  }

  /** Reset forgets everything: the store after a reset does not depend on the store before it. */
  lemma ResetForgets(s: Store, t: Store)
    ensures ResetState(s) == ResetState(t) == InitialStore
  {
  }
}
