/** The process-wide room store: room id -> {users, code, output?}. */
module RoomStore {
  import opened Types
  import opened OrderedSet

  /** The code a freshly created room starts with. */
  const DefaultCode: string := "// start code here"

  /** One room: its member names (a `Set` in insertion order), the shared
      code, and the last execution output (absent until the first run). */
  datatype Room = Room(users: seq<UserName>, code: string, output: Option<string>)

  type Store = map<RoomId, Room>

  /** Creates room `r` with no members and the default code unless it exists. */
  function EnsureRoom(store: Store, r: RoomId): (s: Store)
    ensures s.Keys == store.Keys + {r}
    ensures r !in store ==> s[r].users == [] && s[r].code == DefaultCode && s[r].output == None
    ensures forall k :: k in store ==> s[k] == store[k]
  {
    if r in store then store else store[r := Room([], DefaultCode, None)]
  }

  /** Adds `u` to the members of an existing room; nothing else changes. */
  function AddMember(store: Store, r: RoomId, u: UserName): (s: Store)
    requires r in store
    ensures s.Keys == store.Keys
    ensures Elems(s[r].users) == Elems(store[r].users) + {u}
    ensures NoDup(store[r].users) ==> NoDup(s[r].users)
    ensures var before := store[r].users;
      |before| <= |s[r].users| <= |before| + 1 && s[r].users[..|before|] == before
    ensures s[r].code == store[r].code && s[r].output == store[r].output
    ensures forall k :: k in store && k != r ==> s[k] == store[k]
  {
    store[r := store[r].(users := Add(store[r].users, u))]
  }

  /** Removes `u` from the members of an existing room; nothing else changes. */
  function RemoveMember(store: Store, r: RoomId, u: UserName): (s: Store)
    requires r in store
    ensures s.Keys == store.Keys
    ensures Elems(s[r].users) == Elems(store[r].users) - {u}
    ensures NoDup(store[r].users) ==> NoDup(s[r].users)
    ensures s[r].code == store[r].code && s[r].output == store[r].output
    ensures forall k :: k in store && k != r ==> s[k] == store[k]
  {
    store[r := store[r].(users := Delete(store[r].users, u))]
  }

  /** Overwrites the code of room `r` when it exists; otherwise a no-op. */
  function SetCode(store: Store, r: RoomId, code: string): (s: Store)
    ensures s.Keys == store.Keys
    ensures r in store ==> s[r].code == code
    ensures forall k :: k in store ==> s[k].users == store[k].users && s[k].output == store[k].output
    ensures forall k :: k in store && k != r ==> s[k] == store[k]
  {
    if r in store then store[r := store[r].(code := code)] else store
  }

  /** Overwrites the last output of room `r` when it exists; otherwise a no-op. */
  function SetOutput(store: Store, r: RoomId, out: string): (s: Store)
    ensures s.Keys == store.Keys
    ensures r in store ==> s[r].output == Some(out)
    ensures forall k :: k in store ==> s[k].users == store[k].users && s[k].code == store[k].code
    ensures forall k :: k in store && k != r ==> s[k] == store[k]
  {
    if r in store then store[r := store[r].(output := Some(out))] else store
  }
}
