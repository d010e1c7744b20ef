/** The event handlers of one server process: each inbound event is a pure
    step over the room store, the sessions of all live connections, the
    transport groups, the outbox of emitted events and the log of calls made
    to the execution provider. */
module Server {
  import opened Types
  import opened OrderedSet
  import opened RoomStore
  import opened ConnSession
  import opened Transport
  import opened Execution
  import opened Protocol

  datatype State = State(
    rooms: Store,
    sessions: map<ConnId, Session>,
    groups: Groups,
    outbox: seq<Delivery>,
    calls: seq<ExecRequest>)

  /** A freshly started process: no rooms, no connections, nothing emitted. */
  const Init: State := State(map[], map[], map[], [], [])

  /** The guard of the clean-up at the start of `join`: the connection's
      current room is truthy and stored (the user is not checked). */
  predicate JoinDeparts(st: State, c: ConnId)
    requires c in st.sessions
  {
    Truthy(st.sessions[c].room) && st.sessions[c].room.value in st.rooms
  }

  /** The guard of `leaveRoom` and `disconnect`: current room and current
      user both truthy, and the room stored. */
  predicate LeaveApplies(st: State, c: ConnId)
    requires c in st.sessions
  {
    JoinDeparts(st, c) && Truthy(st.sessions[c].user)
  }

  /** The name the clean-up at the start of `join` removes from room `k`. */
  function JoinRemoves(st: State, c: ConnId, k: RoomId): set<UserName>
    requires c in st.sessions
  {
    var s := st.sessions[c];
    if JoinDeparts(st, c) && k == s.room.value && s.user.Some? then {s.user.value} else {}
  }

  /** The old room's member list once the clean-up at the start of `join`
      has deleted `currentUser` from it. */
  function LeftBehind(st: State, c: ConnId): seq<UserName>
    requires c in st.sessions && JoinDeparts(st, c)
  {
    var s := st.sessions[c];
    var users := st.rooms[s.room.value].users;
    if s.user.Some? then Delete(users, s.user.value) else users
  }

  /** Removes `u` (when set) from stored room `r`, then emits the room's new
      member list to everyone in `r`'s group. */
  function Depart(st: State, r: RoomId, u: Option<UserName>): (d: State)
    requires r in st.rooms
    ensures d.rooms.Keys == st.rooms.Keys
    ensures Elems(d.rooms[r].users) == Elems(st.rooms[r].users) - (if u.Some? then {u.value} else {})
    ensures NoDup(st.rooms[r].users) ==> NoDup(d.rooms[r].users)
    ensures d.rooms[r].code == st.rooms[r].code && d.rooms[r].output == st.rooms[r].output
    ensures forall k :: k in st.rooms && k != r ==> d.rooms[k] == st.rooms[k]
    ensures d.sessions == st.sessions && d.groups == st.groups && d.calls == st.calls
    ensures d.outbox == st.outbox + [Delivery(InGroup(st.groups, r), UserJoined(d.rooms[r].users))]
  {
    var rooms := if u.Some? then RemoveMember(st.rooms, r, u.value) else st.rooms;
    st.(rooms := rooms, outbox := st.outbox + [Delivery(InGroup(st.groups, r), UserJoined(rooms[r].users))])
  }

  /** The clean-up at the start of `join`: when the guard holds, the old
      user leaves the old room, the old room gets its new member list, and
      the connection leaves the old group. */
  function JoinCleanup(st: State, c: ConnId): State
    requires c in st.sessions
  {
    var s := st.sessions[c];
    if JoinDeparts(st, c) then
      var d := Depart(st, s.room.value, s.user);
      d.(groups := LeaveGroup(d.groups, c, s.room.value))
    else st
  }

  /** What the clean-up changes: only the old room's members, the old
      group of this connection, and one emit to the old group. */
  lemma JoinCleanupEffect(st: State, c: ConnId)
    requires c in st.sessions
    ensures var st1 := JoinCleanup(st, c);
      && st1.sessions == st.sessions && st1.calls == st.calls
      && st1.rooms.Keys == st.rooms.Keys
      && (forall k :: k in st.rooms ==>
            && st1.rooms[k].code == st.rooms[k].code
            && st1.rooms[k].output == st.rooms[k].output
            && Elems(st1.rooms[k].users) == Elems(st.rooms[k].users) - JoinRemoves(st, c, k)
            && (NoDup(st.rooms[k].users) ==> NoDup(st1.rooms[k].users)))
      && (!JoinDeparts(st, c) ==> st1 == st)
      && (JoinDeparts(st, c) ==>
            var prev := st.sessions[c].room.value;
            && st1.groups.Keys == st.groups.Keys + {c}
            && GroupsOf(st1.groups, c) == GroupsOf(st.groups, c) - {prev}
            && (forall d :: d in st.groups && d != c ==> st1.groups[d] == st.groups[d])
            && (forall k :: k in st.rooms && k != prev ==> st1.rooms[k] == st.rooms[k])
            && st1.rooms[prev].users == LeftBehind(st, c)
            && |st1.outbox| == |st.outbox| + 1 && st1.outbox[..|st.outbox|] == st.outbox
            && st1.outbox[|st.outbox|].event == UserJoined(st1.rooms[prev].users)
            && RoomCast(st1.outbox[|st.outbox|].to, st.groups, prev))
  {
    if JoinDeparts(st, c) {
      InGroupIsRoomCast(st.groups, st.sessions[c].room.value);
    }
  }

  /** The rest of `join`: record the session, create the room when missing,
      add the user, join the group, send the code to the joiner alone and
      the member list to the whole room. */
  function JoinAttach(st: State, c: ConnId, roomId: RoomId, userName: UserName): State
  {
    var rooms := AddMember(EnsureRoom(st.rooms, roomId), roomId, userName);
    var groups := JoinGroup(st.groups, c, roomId);
    State(rooms, st.sessions[c := Session(Some(roomId), Some(userName))], groups,
          st.outbox + [Delivery({c}, CodeUpdate(rooms[roomId].code)),
                       Delivery(InGroup(groups, roomId), UserJoined(rooms[roomId].users))],
          st.calls)
  }

  /** What the attachment changes. */
  lemma JoinAttachEffect(st: State, c: ConnId, roomId: RoomId, userName: UserName)
    ensures var r := JoinAttach(st, c, roomId, userName);
      && r.sessions == st.sessions[c := Session(Some(roomId), Some(userName))]
      && r.groups.Keys == st.groups.Keys + {c}
      && GroupsOf(r.groups, c) == GroupsOf(st.groups, c) + {roomId}
      && (forall d :: d in st.groups && d != c ==> r.groups[d] == st.groups[d])
      && r.rooms.Keys == st.rooms.Keys + {roomId}
      && userName in r.rooms[roomId].users
      && (roomId !in st.rooms ==> r.rooms[roomId] == Room([userName], DefaultCode, None))
      && (forall k :: k in st.rooms ==>
            && r.rooms[k].code == st.rooms[k].code
            && r.rooms[k].output == st.rooms[k].output
            && Elems(r.rooms[k].users) == Elems(st.rooms[k].users) + (if k == roomId then {userName} else {})
            && (NoDup(st.rooms[k].users) ==> NoDup(r.rooms[k].users)))
      && r.calls == st.calls
      && |r.outbox| == |st.outbox| + 2 && r.outbox[..|st.outbox|] == st.outbox
      && r.outbox[|st.outbox|] == Delivery({c}, CodeUpdate(r.rooms[roomId].code))
      && r.outbox[|st.outbox| + 1].event == UserJoined(r.rooms[roomId].users)
      && RoomCast(r.outbox[|st.outbox| + 1].to, r.groups, roomId)
  {
    InGroupIsRoomCast(JoinAttach(st, c, roomId, userName).groups, roomId);
  }

  /** `join {roomId, userName}`: the clean-up, then the attachment. */
  function OnJoin(st: State, c: ConnId, roomId: RoomId, userName: UserName): (r: State)
    requires c in st.sessions
    ensures r.sessions == st.sessions[c := Session(Some(roomId), Some(userName))]
    ensures r.groups.Keys == st.groups.Keys + {c}
    ensures GroupsOf(r.groups, c) ==
      (if JoinDeparts(st, c) then GroupsOf(st.groups, c) - {st.sessions[c].room.value}
       else GroupsOf(st.groups, c)) + {roomId}
    ensures forall d :: d in st.groups && d != c ==> r.groups[d] == st.groups[d]
    ensures r.rooms.Keys == st.rooms.Keys + {roomId}
    ensures userName in r.rooms[roomId].users
    ensures roomId !in st.rooms ==> r.rooms[roomId] == Room([userName], DefaultCode, None)
    ensures forall k :: k in st.rooms ==>
      r.rooms[k].code == st.rooms[k].code && r.rooms[k].output == st.rooms[k].output
    ensures r.calls == st.calls
    // the joiner alone gets the room's code, then the whole room, joiner
    // included, gets the member list
    ensures |r.outbox| == |st.outbox| + (if JoinDeparts(st, c) then 3 else 2)
    ensures r.outbox[..|st.outbox|] == st.outbox
    ensures r.outbox[|r.outbox| - 2] == Delivery({c}, CodeUpdate(r.rooms[roomId].code))
    ensures r.outbox[|r.outbox| - 1].event == UserJoined(r.rooms[roomId].users)
    ensures RoomCast(r.outbox[|r.outbox| - 1].to, r.groups, roomId)
    ensures c in r.outbox[|r.outbox| - 1].to
    // when the clean-up ran, the old room got its list first, the connection
    // still being in the old group
    ensures JoinDeparts(st, c) ==>
      && r.outbox[|st.outbox|].event == UserJoined(LeftBehind(st, c))
      && RoomCast(r.outbox[|st.outbox|].to, st.groups, st.sessions[c].room.value)
  {
    JoinStateEffect(st, c, roomId, userName);
    JoinOutboxEffect(st, c, roomId, userName);
    JoinAttach(JoinCleanup(st, c), c, roomId, userName)
  }

  /** The store, sessions and groups after the clean-up and the attachment. */
  lemma JoinStateEffect(st: State, c: ConnId, roomId: RoomId, userName: UserName)
    requires c in st.sessions
    ensures var r := JoinAttach(JoinCleanup(st, c), c, roomId, userName);
      && r.sessions == st.sessions[c := Session(Some(roomId), Some(userName))]
      && r.groups.Keys == st.groups.Keys + {c}
      && GroupsOf(r.groups, c) ==
           (if JoinDeparts(st, c) then GroupsOf(st.groups, c) - {st.sessions[c].room.value}
            else GroupsOf(st.groups, c)) + {roomId}
      && (forall d :: d in st.groups && d != c ==> r.groups[d] == st.groups[d])
      && r.rooms.Keys == st.rooms.Keys + {roomId}
      && userName in r.rooms[roomId].users
      && (roomId !in st.rooms ==> r.rooms[roomId] == Room([userName], DefaultCode, None))
      && (forall k :: k in st.rooms ==>
            r.rooms[k].code == st.rooms[k].code && r.rooms[k].output == st.rooms[k].output)
      && r.calls == st.calls
  {
    JoinCleanupEffect(st, c);
    JoinAttachEffect(JoinCleanup(st, c), c, roomId, userName);
  }

  /** The deliveries of the clean-up and the attachment, in order. */
  lemma JoinOutboxEffect(st: State, c: ConnId, roomId: RoomId, userName: UserName)
    requires c in st.sessions
    ensures var r := JoinAttach(JoinCleanup(st, c), c, roomId, userName);
      && |r.outbox| == |st.outbox| + (if JoinDeparts(st, c) then 3 else 2)
      && r.outbox[..|st.outbox|] == st.outbox
      && r.outbox[|r.outbox| - 2] == Delivery({c}, CodeUpdate(r.rooms[roomId].code))
      && r.outbox[|r.outbox| - 1].event == UserJoined(r.rooms[roomId].users)
      && RoomCast(r.outbox[|r.outbox| - 1].to, r.groups, roomId)
      && c in r.outbox[|r.outbox| - 1].to
      && (JoinDeparts(st, c) ==>
            && r.outbox[|st.outbox|].event == UserJoined(LeftBehind(st, c))
            && RoomCast(r.outbox[|st.outbox|].to, st.groups, st.sessions[c].room.value))
  {
    var st1 := JoinCleanup(st, c);
    JoinCleanupEffect(st, c);
    JoinAttachEffect(st1, c, roomId, userName);
    var r := JoinAttach(st1, c, roomId, userName);
    assert JoinDeparts(st, c) ==> r.outbox[|st.outbox|] == st1.outbox[|st.outbox|];
  }

  /** What `join` does to the member lists: every stored room loses the
      name the clean-up removes and the joined room gains `userName`; a
      room that is neither the old nor the joined one is untouched. */
  lemma OnJoinMembers(st: State, c: ConnId, roomId: RoomId, userName: UserName)
    requires c in st.sessions
    ensures var r := OnJoin(st, c, roomId, userName);
      && (forall k :: k in st.rooms ==>
            Elems(r.rooms[k].users) ==
              Elems(st.rooms[k].users) - JoinRemoves(st, c, k) + (if k == roomId then {userName} else {}))
      && (forall k :: k in st.rooms && k != roomId && !(JoinDeparts(st, c) && k == st.sessions[c].room.value) ==>
            r.rooms[k] == st.rooms[k])
  {
    var st1 := JoinCleanup(st, c);
    JoinCleanupEffect(st, c);
    JoinAttachEffect(st1, c, roomId, userName);
    var r := JoinAttach(st1, c, roomId, userName);
    assert r == OnJoin(st, c, roomId, userName);
  }

  /** `codeChange {roomId, code}`: overwrites the room's code only when the
      room exists; the code goes to everyone in the group but the sender,
      whether or not the room exists. */
  function OnCodeChange(st: State, c: ConnId, roomId: RoomId, code: string): (r: State)
    ensures r.rooms.Keys == st.rooms.Keys
    ensures roomId in st.rooms ==> r.rooms[roomId] == st.rooms[roomId].(code := code)
    ensures forall k :: k in st.rooms && k != roomId ==> r.rooms[k] == st.rooms[k]
    ensures r.sessions == st.sessions && r.groups == st.groups && r.calls == st.calls
    ensures |r.outbox| == |st.outbox| + 1 && r.outbox[..|st.outbox|] == st.outbox
    ensures r.outbox[|st.outbox|].event == CodeUpdate(code)
    ensures RoomCastExcept(r.outbox[|st.outbox|].to, st.groups, roomId, c)
  {
    st.(rooms := SetCode(st.rooms, roomId, code),
        outbox := st.outbox + [Delivery(InGroup(st.groups, roomId) - {c}, CodeUpdate(code))])
  }

  /** `typing {roomId, userName}`: nothing is stored; the payload's name goes
      to everyone in the group but the sender. */
  function OnTyping(st: State, c: ConnId, roomId: RoomId, userName: UserName): (r: State)
    ensures r.rooms == st.rooms && r.sessions == st.sessions && r.groups == st.groups && r.calls == st.calls
    ensures |r.outbox| == |st.outbox| + 1 && r.outbox[..|st.outbox|] == st.outbox
    ensures r.outbox[|st.outbox|].event == UserTyping(userName)
    ensures RoomCastExcept(r.outbox[|st.outbox|].to, st.groups, roomId, c)
  {
    st.(outbox := st.outbox + [Delivery(InGroup(st.groups, roomId) - {c}, UserTyping(userName))])
  }

  /** `languageChange {roomId, language}`: nothing is stored (a room has no
      language field); the language goes to the whole group, sender included. */
  function OnLanguageChange(st: State, roomId: RoomId, language: string): (r: State)
    ensures r.rooms == st.rooms && r.sessions == st.sessions && r.groups == st.groups && r.calls == st.calls
    ensures |r.outbox| == |st.outbox| + 1 && r.outbox[..|st.outbox|] == st.outbox
    ensures r.outbox[|st.outbox|].event == LanguageUpdate(language)
    ensures RoomCast(r.outbox[|st.outbox|].to, st.groups, roomId)
  {
    st.(outbox := st.outbox + [Delivery(InGroup(st.groups, roomId), LanguageUpdate(language))])
  }

  /** `compileCode {code, roomId, language, version, input}`, with the call's
      outcome given: exactly one request is issued; on success the reply's
      `run.output` is stored in the room (when it exists) and the reply goes
      to the whole group; on failure nothing is stored and the error envelope
      goes to the whole group. Members and code are never touched. */
  function OnCompileCode(st: State, code: string, roomId: RoomId, language: string, version: string,
                         input: string, outcome: Outcome): (r: State)
    ensures r.calls == st.calls + [ExecRequest(language, version, [code], input)]
    ensures r.sessions == st.sessions && r.groups == st.groups
    ensures r.rooms.Keys == st.rooms.Keys
    ensures forall k :: k in st.rooms ==> r.rooms[k].users == st.rooms[k].users && r.rooms[k].code == st.rooms[k].code
    ensures forall k :: k in st.rooms && k != roomId ==> r.rooms[k] == st.rooms[k]
    ensures outcome.Success? && roomId in st.rooms ==> r.rooms[roomId].output == Some(outcome.body.run.output)
    ensures outcome.Failure? ==> r.rooms == st.rooms
    ensures |r.outbox| == |st.outbox| + 1 && r.outbox[..|st.outbox|] == st.outbox
    ensures r.outbox[|st.outbox|].event ==
      CodeResponse(if outcome.Success? then outcome.body else ErrorEnvelope)
    ensures RoomCast(r.outbox[|st.outbox|].to, st.groups, roomId)
  {
    var calls := st.calls + [RequestFor(code, language, version, input)];
    var rooms := if outcome.Success? then SetOutput(st.rooms, roomId, outcome.body.run.output) else st.rooms;
    st.(rooms := rooms, calls := calls,
        outbox := st.outbox + [Delivery(InGroup(st.groups, roomId), CodeResponse(Reply(outcome)))])
  }

  /** `leaveRoom`: when the guard holds, the user leaves the room, the room
      gets its new member list (the leaver still in the group, so it gets it
      too), the connection leaves the group and the session is reset;
      otherwise nothing happens. */
  function OnLeaveRoom(st: State, c: ConnId): (r: State)
    requires c in st.sessions
    ensures !LeaveApplies(st, c) ==> r == st
    ensures LeaveApplies(st, c) ==>
      var prev, u := st.sessions[c].room.value, st.sessions[c].user.value;
      && r.sessions == st.sessions[c := Unattached]
      && r.groups.Keys == st.groups.Keys + {c}
      && GroupsOf(r.groups, c) == GroupsOf(st.groups, c) - {prev}
      && (forall d :: d in st.groups && d != c ==> r.groups[d] == st.groups[d])
      && r.rooms.Keys == st.rooms.Keys
      && Elems(r.rooms[prev].users) == Elems(st.rooms[prev].users) - {u}
      && (NoDup(st.rooms[prev].users) ==> NoDup(r.rooms[prev].users))
      && r.rooms[prev].code == st.rooms[prev].code && r.rooms[prev].output == st.rooms[prev].output
      && (forall k :: k in st.rooms && k != prev ==> r.rooms[k] == st.rooms[k])
      && r.calls == st.calls
      && |r.outbox| == |st.outbox| + 1 && r.outbox[..|st.outbox|] == st.outbox
      && r.outbox[|st.outbox|].event == UserJoined(r.rooms[prev].users)
      && RoomCast(r.outbox[|st.outbox|].to, st.groups, prev)
  {
    var s := st.sessions[c];
    if LeaveApplies(st, c) then
      var d := Depart(st, s.room.value, s.user);
      d.(groups := LeaveGroup(d.groups, c, s.room.value), sessions := d.sessions[c := Unattached])
    else st
  }

  /** `disconnect`: the transport has already dropped the connection from
      every group; when the guard holds, the user leaves the room and the
      room gets its new member list; the session is discarded. */
  function OnDisconnect(st: State, c: ConnId): (r: State)
    requires c in st.sessions
    ensures r.sessions == st.sessions - {c} && r.groups == st.groups - {c} && r.calls == st.calls
    ensures r.rooms.Keys == st.rooms.Keys
    ensures !LeaveApplies(st, c) ==> r.rooms == st.rooms && r.outbox == st.outbox
    ensures LeaveApplies(st, c) ==>
      var prev, u := st.sessions[c].room.value, st.sessions[c].user.value;
      && Elems(r.rooms[prev].users) == Elems(st.rooms[prev].users) - {u}
      && (NoDup(st.rooms[prev].users) ==> NoDup(r.rooms[prev].users))
      && r.rooms[prev].code == st.rooms[prev].code && r.rooms[prev].output == st.rooms[prev].output
      && (forall k :: k in st.rooms && k != prev ==> r.rooms[k] == st.rooms[k])
      && |r.outbox| == |st.outbox| + 1 && r.outbox[..|st.outbox|] == st.outbox
      && r.outbox[|st.outbox|].event == UserJoined(r.rooms[prev].users)
      && RoomCastExcept(r.outbox[|st.outbox|].to, st.groups, prev, c)
  {
    var s := st.sessions[c];
    var torn := st.(groups := st.groups - {c});
    DropRecipients(st.groups, c);
    var d := if LeaveApplies(st, c) then Depart(torn, s.room.value, s.user) else torn;
    d.(sessions := d.sessions - {c})
  }

  /** A new connection: both session variables `null`, no group. */
  function OnConnect(st: State, c: ConnId): (r: State)
    ensures r.sessions.Keys == st.sessions.Keys + {c} && r.sessions[c] == Unattached
    ensures forall d :: d in st.sessions && d != c ==> r.sessions[d] == st.sessions[d]
    ensures r.groups.Keys == st.groups.Keys + {c} && GroupsOf(r.groups, c) == {}
    ensures forall d :: d in st.groups && d != c ==> r.groups[d] == st.groups[d]
    ensures r.rooms == st.rooms && r.outbox == st.outbox && r.calls == st.calls
  {
    st.(sessions := st.sessions[c := Unattached], groups := st.groups[c := {}])
  }

  /** Is `c` a live connection? The transport delivers events only for those. */
  predicate Live(st: State, c: ConnId)
  {
    c in st.sessions
  }

  /** One inbound event. A `Connect` for a live id and any other event for an
      id that is not live are not produced by the transport; they change nothing. */
  function Step(st: State, e: Event): (r: State)
    ensures st.rooms.Keys <= r.rooms.Keys
    ensures |st.outbox| <= |r.outbox| && r.outbox[..|st.outbox|] == st.outbox
  {
    var c := e.conn;
    if e.input.Connect? then
      if Live(st, c) then st else OnConnect(st, c)
    else if !Live(st, c) then st
    else
      match e.input
      case Connect => st
      case Join(roomId, userName) => OnJoin(st, c, roomId, userName)
      case CodeChange(roomId, code) => OnCodeChange(st, c, roomId, code)
      case Typing(roomId, userName) => OnTyping(st, c, roomId, userName)
      case LanguageChange(roomId, language) => OnLanguageChange(st, roomId, language)
      case CompileCode(code, roomId, language, version, input, outcome) =>
        OnCompileCode(st, code, roomId, language, version, input, outcome)
      case LeaveRoom => OnLeaveRoom(st, c)
      case Disconnect => OnDisconnect(st, c)
  }

  /** A sequence of inbound events, processed in order. No room is ever
      removed and the outbox only grows. */
  function Run(st: State, evs: seq<Event>): (r: State)
    ensures st.rooms.Keys <= r.rooms.Keys
    ensures |st.outbox| <= |r.outbox| && r.outbox[..|st.outbox|] == st.outbox
    decreases |evs|
  {
    if evs == [] then st
    else
      var next := Step(st, evs[0]);
      var r := Run(next, evs[1..]);
      assert r.outbox[..|st.outbox|] == r.outbox[..|next.outbox|][..|st.outbox|];
      r
  }

  /** Running one more event is one more step. */
  lemma {:induction false} RunSnoc(st: State, evs: seq<Event>, e: Event)
    ensures Run(st, evs + [e]) == Step(Run(st, evs), e)
    decreases |evs|
  {
    if evs == [] {
      assert [] + [e] == [e];
      assert [e][1..] == [];
    } else {
      assert (evs + [e])[0] == evs[0];
      assert (evs + [e])[1..] == evs[1..] + [e];
      RunSnoc(Step(st, evs[0]), evs[1..], e);
    }
  }

  /** Routing by sender: `codeChange` and `typing` never reach the sender;
      `languageChange` and `compileCode` reach it exactly when it is in the
      payload room's group. */
  lemma SenderRouting(st: State, e: Event)
    requires Live(st, e.conn) && !e.input.Connect? && !e.input.Join? && !e.input.LeaveRoom? && !e.input.Disconnect?
    ensures var r := Step(st, e);
      && |r.outbox| == |st.outbox| + 1
      && (e.input.CodeChange? || e.input.Typing? ==> e.conn !in r.outbox[|st.outbox|].to)
      && (e.input.LanguageChange? || e.input.CompileCode? ==>
            (e.conn in r.outbox[|st.outbox|].to <==> e.input.roomId in GroupsOf(st.groups, e.conn)))
  {
  }

  /** A second consecutive `leaveRoom` changes nothing and emits nothing. */
  lemma LeaveRoomTwice(st: State, c: ConnId)
    ensures var once := Step(st, Event(c, LeaveRoom));
      Step(once, Event(c, LeaveRoom)) == once
  {
  }
}
