/** The invariants the handlers keep over any sequence of events whose joins
    use non-empty room ids and names, and a name no other connection holds in
    that room. */
module Invariants {
  import opened Types
  import opened OrderedSet
  import opened RoomStore
  import opened ConnSession
  import opened Transport
  import opened Protocol
  import opened Server

  /** The names under which live connections are attached to room `r`. */
  ghost function AttachedNames(ss: map<ConnId, Session>, r: RoomId): set<UserName>
  {
    set c | c in ss && ss[c].room == Some(r) && ss[c].user.Some? :: ss[c].user.value
  }

  /** The name session `s` contributes to room `r`. */
  ghost function NameAt(s: Session, r: RoomId): set<UserName>
  {
    if s.room == Some(r) && s.user.Some? then {s.user.value} else {}
  }

  /** `currentRoom` and `currentUser` are both set or both null. */
  ghost predicate Paired(s: Session)
  {
    s.room.Some? <==> s.user.Some?
  }

  /** Connection `c`'s session is paired, an attached session names a stored
      room with non-empty id and name, and the connection's transport groups
      are exactly its session's room. */
  ghost predicate SessionOk(st: State, c: ConnId)
    requires c in st.sessions
  {
    var s := st.sessions[c];
    && Paired(s)
    && (s.room.Some? ==> s.room.value != "" && s.user.value != "" && s.room.value in st.rooms)
    && c in st.groups
    && st.groups[c] == (if s.room.Some? then {s.room.value} else {})
  }

  /** No two live connections are attached to one room under one name. */
  ghost predicate DistinctNames(ss: map<ConnId, Session>)
  {
    forall c1, c2 :: c1 in ss && c2 in ss && c1 != c2 && ss[c1].room.Some? ==> ss[c1] != ss[c2]
  }

  /** Each room's member list is duplicate-free and holds exactly the names
      of the connections attached to it. */
  ghost predicate MembershipMatches(st: State)
  {
    forall r :: r in st.rooms ==>
      NoDup(st.rooms[r].users) && Elems(st.rooms[r].users) == AttachedNames(st.sessions, r)
  }

  /** Every live session is consistent, and only live connections have groups. */
  ghost predicate SessionsOk(st: State)
  {
    && st.groups.Keys == st.sessions.Keys
    && (forall c :: c in st.sessions ==> SessionOk(st, c))
  }

  ghost predicate Inv(st: State)
  {
    && SessionsOk(st)
    && DistinctNames(st.sessions)
    && MembershipMatches(st)
  }

  /** What the invariant needs of an event: a join names a non-empty room
      and a non-empty user not held by another connection in that room. */
  ghost predicate Admissible(st: State, e: Event)
  {
    match e.input
    case Join(r, u) =>
      && r != "" && u != ""
      && forall d :: d in st.sessions && d != e.conn ==> st.sessions[d] != Session(Some(r), Some(u))
    case _ => true
  }

  /** Every event of `evs` is admissible in the state it meets. */
  ghost predicate AdmissibleRun(st: State, evs: seq<Event>)
    decreases |evs|
  {
    evs == [] || (Admissible(st, evs[0]) && AdmissibleRun(Step(st, evs[0]), evs[1..]))
  }

  // ---------------------------------------------------------------------
  // How the attached names change when one session changes

  lemma AttachedNamesInsert(m: map<ConnId, Session>, c: ConnId, s: Session, r: RoomId)
    requires c !in m
    ensures AttachedNames(m[c := s], r) == AttachedNames(m, r) + NameAt(s, r)
  {
    var m' := m[c := s];
    forall n | n in AttachedNames(m', r)
      ensures n in AttachedNames(m, r) + NameAt(s, r)
    {
      var d :| d in m' && m'[d].room == Some(r) && m'[d].user.Some? && m'[d].user.value == n;
      if d != c {
        assert d in m && m[d] == m'[d];
      }
    }
    forall n | n in AttachedNames(m, r) + NameAt(s, r)
      ensures n in AttachedNames(m', r)
    {
      if n in AttachedNames(m, r) {
        var d :| d in m && m[d].room == Some(r) && m[d].user.Some? && m[d].user.value == n;
        assert d != c && m'[d] == m[d];
      } else {
        assert m'[c] == s;
      }
    }
  }

  lemma AttachedNamesRemove(m: map<ConnId, Session>, c: ConnId, r: RoomId)
    requires c in m
    requires forall d :: d in m && d != c && m[c].room.Some? ==> m[d] != m[c]
    ensures AttachedNames(m - {c}, r) == AttachedNames(m, r) - NameAt(m[c], r)
  {
    var m' := m - {c};
    forall n | n in AttachedNames(m', r)
      ensures n in AttachedNames(m, r) - NameAt(m[c], r)
    {
      var d :| d in m' && m'[d].room == Some(r) && m'[d].user.Some? && m'[d].user.value == n;
      assert d in m && d != c && m[d] == m'[d];
    }
    forall n | n in AttachedNames(m, r) - NameAt(m[c], r)
      ensures n in AttachedNames(m', r)
    {
      var d :| d in m && m[d].room == Some(r) && m[d].user.Some? && m[d].user.value == n;
      assert d != c;
      assert d in m';
    }
  }

  lemma AttachedNamesReplace(m: map<ConnId, Session>, c: ConnId, s: Session, r: RoomId)
    requires c in m
    requires forall d :: d in m && d != c && m[c].room.Some? ==> m[d] != m[c]
    ensures AttachedNames(m[c := s], r) == AttachedNames(m, r) - NameAt(m[c], r) + NameAt(s, r)
  {
    assert m[c := s] == (m - {c})[c := s];
    AttachedNamesRemove(m, c, r);
    AttachedNamesInsert(m - {c}, c, s, r);
  }

  /** No connection is attached to a room that is not stored. */
  lemma NoNamesOutside(st: State, r: RoomId)
    requires Inv(st) && r !in st.rooms
    ensures AttachedNames(st.sessions, r) == {}
  {
    forall d | d in st.sessions
      ensures st.sessions[d].room != Some(r)
    {
      assert SessionOk(st, d);
    }
  }

  // ---------------------------------------------------------------------
  // Each handler keeps the invariant

  lemma InitInv()
    ensures Inv(Init)
  {
  }

  lemma ConnectKeepsInv(st: State, c: ConnId)
    requires Inv(st) && c !in st.sessions
    ensures Inv(OnConnect(st, c))
  {
    var r := OnConnect(st, c);
    forall k | k in r.rooms
      ensures Elems(r.rooms[k].users) == AttachedNames(r.sessions, k)
    {
      AttachedNamesInsert(st.sessions, c, Unattached, k);
    }
    forall d | d in r.sessions
      ensures SessionOk(r, d)
    {
      if d != c {
        assert SessionOk(st, d);
      }
    }
  }

  /** A handler that changes no session, no group, no member list and no
      room key keeps the invariant. */
  lemma QuietKeepsInv(st: State, r: State)
    requires Inv(st)
    requires r.sessions == st.sessions && r.groups == st.groups && r.rooms.Keys == st.rooms.Keys
    requires forall k :: k in st.rooms ==> r.rooms[k].users == st.rooms[k].users
    ensures Inv(r)
  {
    forall d | d in r.sessions
      ensures SessionOk(r, d)
    {
      assert SessionOk(st, d);
    }
  }

  /** The clean-up's effect on one stored room's members. */
  lemma CleanupUsers(st: State, c: ConnId, k: RoomId)
    requires c in st.sessions && k in st.rooms
    ensures var st1 := JoinCleanup(st, c);
      && st1.sessions == st.sessions && k in st1.rooms
      && Elems(st1.rooms[k].users) == Elems(st.rooms[k].users) - JoinRemoves(st, c, k)
      && (NoDup(st.rooms[k].users) ==> NoDup(st1.rooms[k].users))
  {
    JoinCleanupEffect(st, c);
  }

  /** The attachment's effect on one stored room's members. */
  lemma AttachUsers(st: State, c: ConnId, roomId: RoomId, userName: UserName, k: RoomId)
    requires k in st.rooms
    ensures var r := JoinAttach(st, c, roomId, userName);
      && r.sessions == st.sessions[c := Session(Some(roomId), Some(userName))] && k in r.rooms
      && Elems(r.rooms[k].users) == Elems(st.rooms[k].users) + (if k == roomId then {userName} else {})
      && (NoDup(st.rooms[k].users) ==> NoDup(r.rooms[k].users))
  {
    JoinAttachEffect(st, c, roomId, userName);
  }

  /** For a consistent session, the clean-up removes exactly the name the
      session contributes. */
  lemma RemovesIsName(st: State, c: ConnId, k: RoomId)
    requires c in st.sessions && SessionOk(st, c)
    ensures JoinRemoves(st, c, k) == NameAt(st.sessions[c], k)
  {
  }

  /** The member list of a room that existed before a join matches the
      sessions after it. */
  lemma JoinKeepsMembershipOld(st: State, c: ConnId, roomId: RoomId, userName: UserName, k: RoomId)
    requires c in st.sessions && k in st.rooms && SessionOk(st, c)
    requires NoDup(st.rooms[k].users) && Elems(st.rooms[k].users) == AttachedNames(st.sessions, k)
    requires forall d :: d in st.sessions && d != c && st.sessions[c].room.Some? ==> st.sessions[d] != st.sessions[c]
    ensures var r := JoinAttach(JoinCleanup(st, c), c, roomId, userName);
      NoDup(r.rooms[k].users) && Elems(r.rooms[k].users) == AttachedNames(r.sessions, k)
  {
    var s0, s1 := st.sessions[c], Session(Some(roomId), Some(userName));
    var st1 := JoinCleanup(st, c);
    CleanupUsers(st, c, k);
    AttachUsers(st1, c, roomId, userName, k);
    RemovesIsName(st, c, k);
    assert NameAt(s1, k) == (if k == roomId then {userName} else {});
    AttachedNamesReplace(st.sessions, c, s1, k);
  }

  /** The member list of a room a join creates matches the sessions after it. */
  lemma JoinKeepsMembershipNew(st: State, c: ConnId, roomId: RoomId, userName: UserName)
    requires c in st.sessions && roomId !in st.rooms && AttachedNames(st.sessions, roomId) == {}
    requires forall d :: d in st.sessions && d != c && st.sessions[c].room.Some? ==> st.sessions[d] != st.sessions[c]
    ensures var r := JoinAttach(JoinCleanup(st, c), c, roomId, userName);
      NoDup(r.rooms[roomId].users) && Elems(r.rooms[roomId].users) == AttachedNames(r.sessions, roomId)
  {
    var s0, s1 := st.sessions[c], Session(Some(roomId), Some(userName));
    var st1 := JoinCleanup(st, c);
    CleanupKeys(st, c);
    var r := JoinAttach(st1, c, roomId, userName);
    assert r.rooms[roomId].users == [userName];
    assert Elems([userName]) == {userName};
    AttachedNamesReplace(st.sessions, c, s1, roomId);
  }

  /** The clean-up keeps the sessions and the set of room keys. */
  lemma CleanupKeys(st: State, c: ConnId)
    requires c in st.sessions
    ensures JoinCleanup(st, c).sessions == st.sessions && JoinCleanup(st, c).rooms.Keys == st.rooms.Keys
  {
    JoinCleanupEffect(st, c);
  }

  lemma JoinKeepsInv(st: State, c: ConnId, roomId: RoomId, userName: UserName)
    requires Inv(st) && c in st.sessions
    requires roomId != "" && userName != ""
    requires forall d :: d in st.sessions && d != c ==> st.sessions[d] != Session(Some(roomId), Some(userName))
    ensures Inv(OnJoin(st, c, roomId, userName))
  {
    var r := OnJoin(st, c, roomId, userName);
    assert r == JoinAttach(JoinCleanup(st, c), c, roomId, userName);
    assert SessionOk(st, c);
    forall k | k in r.rooms
      ensures NoDup(r.rooms[k].users) && Elems(r.rooms[k].users) == AttachedNames(r.sessions, k)
    {
      if k in st.rooms {
        JoinKeepsMembershipOld(st, c, roomId, userName, k);
      } else {
        NoNamesOutside(st, roomId);
        JoinKeepsMembershipNew(st, c, roomId, userName);
      }
    }
    JoinKeepsSessions(st, c, roomId, userName);
  }

  /** A connection whose session and groups a handler leaves alone, in a
      handler that removes no room, stays consistent. */
  lemma SessionOkFrame(st: State, r: State, d: ConnId)
    requires d in st.sessions && SessionOk(st, d)
    requires d in r.sessions && r.sessions[d] == st.sessions[d]
    requires d in r.groups && r.groups[d] == st.groups[d]
    requires st.rooms.Keys <= r.rooms.Keys
    ensures SessionOk(r, d)
  {
  }

  /** Replacing one session by one no other connection holds keeps the
      names distinct. */
  lemma DistinctAfterSet(m: map<ConnId, Session>, c: ConnId, s: Session)
    requires DistinctNames(m)
    requires forall d :: d in m && d != c && s.room.Some? ==> m[d] != s
    ensures DistinctNames(m[c := s])
  {
  }

  /** The sessions, groups and room keys after a join. */
  lemma JoinFrame(st: State, c: ConnId, roomId: RoomId, userName: UserName)
    requires c in st.sessions
    ensures var r := JoinAttach(JoinCleanup(st, c), c, roomId, userName);
      && r.sessions == st.sessions[c := Session(Some(roomId), Some(userName))]
      && r.groups.Keys == st.groups.Keys + {c}
      && GroupsOf(r.groups, c) ==
           (if JoinDeparts(st, c) then GroupsOf(st.groups, c) - {st.sessions[c].room.value}
            else GroupsOf(st.groups, c)) + {roomId}
      && (forall d :: d in st.groups && d != c ==> r.groups[d] == st.groups[d])
      && r.rooms.Keys == st.rooms.Keys + {roomId}
  {
    JoinStateEffect(st, c, roomId, userName);
  }

  /** For a consistent session, the clean-up takes the connection out of the
      only group it was in, so after the attachment it is in `roomId` alone. */
  lemma JoinLeavesOldGroup(st: State, c: ConnId, roomId: RoomId)
    requires c in st.sessions && SessionOk(st, c)
    ensures (if JoinDeparts(st, c) then GroupsOf(st.groups, c) - {st.sessions[c].room.value}
             else GroupsOf(st.groups, c)) + {roomId} == {roomId}
  {
  }

  /** The sessions and groups after a join are consistent. */
  lemma JoinKeepsSessions(st: State, c: ConnId, roomId: RoomId, userName: UserName)
    requires SessionsOk(st) && DistinctNames(st.sessions) && c in st.sessions
    requires roomId != "" && userName != ""
    requires forall d :: d in st.sessions && d != c ==> st.sessions[d] != Session(Some(roomId), Some(userName))
    ensures var r := JoinAttach(JoinCleanup(st, c), c, roomId, userName);
      SessionsOk(r) && DistinctNames(r.sessions)
  {
    var r := JoinAttach(JoinCleanup(st, c), c, roomId, userName);
    JoinFrame(st, c, roomId, userName);
    JoinLeavesOldGroup(st, c, roomId);
    assert SessionOk(r, c);
    forall d | d in r.sessions
      ensures SessionOk(r, d)
    {
      if d != c {
        SessionOkFrame(st, r, d);
      }
    }
    DistinctAfterSet(st.sessions, c, Session(Some(roomId), Some(userName)));
  }

  /** A room's member list still matches the sessions after a leave. */
  lemma LeaveKeepsMembership(st: State, c: ConnId, k: RoomId)
    requires c in st.sessions && SessionOk(st, c) && k in st.rooms
    requires NoDup(st.rooms[k].users) && Elems(st.rooms[k].users) == AttachedNames(st.sessions, k)
    requires forall d :: d in st.sessions && d != c && st.sessions[c].room.Some? ==> st.sessions[d] != st.sessions[c]
    ensures var r := OnLeaveRoom(st, c);
      k in r.rooms && NoDup(r.rooms[k].users) && Elems(r.rooms[k].users) == AttachedNames(r.sessions, k)
  {
    if LeaveApplies(st, c) {
      AttachedNamesReplace(st.sessions, c, Unattached, k);
    }
  }

  /** The sessions and groups after a leave are consistent. */
  lemma LeaveKeepsSessions(st: State, c: ConnId)
    requires SessionsOk(st) && DistinctNames(st.sessions) && c in st.sessions
    ensures var r := OnLeaveRoom(st, c);
      SessionsOk(r) && DistinctNames(r.sessions)
  {
    var r := OnLeaveRoom(st, c);
    assert SessionOk(st, c);
    if LeaveApplies(st, c) {
      forall d | d in r.sessions
        ensures SessionOk(r, d)
      {
        if d != c {
          SessionOkFrame(st, r, d);
        }
      }
      DistinctAfterSet(st.sessions, c, Unattached);
    }
  }

  lemma LeaveKeepsInv(st: State, c: ConnId)
    requires Inv(st) && c in st.sessions
    ensures Inv(OnLeaveRoom(st, c))
  {
    var r := OnLeaveRoom(st, c);
    assert SessionOk(st, c);
    forall k | k in r.rooms
      ensures NoDup(r.rooms[k].users) && Elems(r.rooms[k].users) == AttachedNames(r.sessions, k)
    {
      LeaveKeepsMembership(st, c, k);
    }
    LeaveKeepsSessions(st, c);
  }

  /** A room's member list still matches the sessions after a disconnect. */
  lemma DisconnectKeepsMembership(st: State, c: ConnId, k: RoomId)
    requires c in st.sessions && SessionOk(st, c) && k in st.rooms
    requires NoDup(st.rooms[k].users) && Elems(st.rooms[k].users) == AttachedNames(st.sessions, k)
    requires forall d :: d in st.sessions && d != c && st.sessions[c].room.Some? ==> st.sessions[d] != st.sessions[c]
    ensures var r := OnDisconnect(st, c);
      k in r.rooms && NoDup(r.rooms[k].users) && Elems(r.rooms[k].users) == AttachedNames(r.sessions, k)
  {
    assert LeaveApplies(st, c) <==> st.sessions[c].room.Some?;
    AttachedNamesRemove(st.sessions, c, k);
  }

  lemma DisconnectKeepsInv(st: State, c: ConnId)
    requires Inv(st) && c in st.sessions
    ensures Inv(OnDisconnect(st, c))
  {
    var r := OnDisconnect(st, c);
    assert SessionOk(st, c);
    forall k | k in r.rooms
      ensures NoDup(r.rooms[k].users) && Elems(r.rooms[k].users) == AttachedNames(r.sessions, k)
    {
      DisconnectKeepsMembership(st, c, k);
    }
    forall d | d in r.sessions
      ensures SessionOk(r, d)
    {
      assert SessionOk(st, d);
    }
  }

  /** Every admissible event keeps the invariant. */
  lemma StepKeepsInv(st: State, e: Event)
    requires Inv(st) && Admissible(st, e)
    ensures Inv(Step(st, e))
  {
    var c := e.conn;
    if e.input.Connect? {
      if !Live(st, c) {
        ConnectKeepsInv(st, c);
      }
    } else if Live(st, c) {
      match e.input
      case Connect =>
      case Join(roomId, userName) => JoinKeepsInv(st, c, roomId, userName);
      case CodeChange(roomId, code) => QuietKeepsInv(st, Step(st, e));
      case Typing(roomId, userName) => QuietKeepsInv(st, Step(st, e));
      case LanguageChange(roomId, language) => QuietKeepsInv(st, Step(st, e));
      case CompileCode(code, roomId, language, version, input, outcome) => QuietKeepsInv(st, Step(st, e));
      case LeaveRoom => LeaveKeepsInv(st, c);
      case Disconnect => DisconnectKeepsInv(st, c);
    }
  }

  /** Every admissible run keeps the invariant. */
  lemma {:induction false} RunKeepsInv(st: State, evs: seq<Event>)
    requires Inv(st) && AdmissibleRun(st, evs)
    ensures Inv(Run(st, evs))
    decreases |evs|
  {
    if evs != [] {
      StepKeepsInv(st, evs[0]);
      RunKeepsInv(Step(st, evs[0]), evs[1..]);
    }
  }

  /** After any admissible run from a fresh process: each live session has
      both variables set or both null, each connection is in at most one
      transport group (its session's room), and each room's members are
      exactly the names of the connections attached to it. */
  lemma ReachableProperties(evs: seq<Event>)
    requires AdmissibleRun(Init, evs)
    ensures var st := Run(Init, evs);
      && (forall c :: c in st.sessions ==> (st.sessions[c].room == None <==> st.sessions[c].user == None))
      && (forall c :: c in st.sessions ==> |GroupsOf(st.groups, c)| <= 1)
      && (forall c :: c in st.sessions && st.sessions[c].room.Some? ==>
            GroupsOf(st.groups, c) == {st.sessions[c].room.value})
      && (forall r :: r in st.rooms ==> Elems(st.rooms[r].users) == AttachedNames(st.sessions, r))
  {
    InitInv();
    RunKeepsInv(Init, evs);
    var st := Run(Init, evs);
    forall c | c in st.sessions
      ensures |GroupsOf(st.groups, c)| <= 1
      ensures st.sessions[c].room == None <==> st.sessions[c].user == None
    {
      assert SessionOk(st, c);
    }
  }

  /** After a join from a consistent state the connection is in exactly one
      transport group, the joined room's. */
  lemma JoinSingleGroup(st: State, c: ConnId, roomId: RoomId, userName: UserName)
    requires Inv(st) && c in st.sessions
    ensures GroupsOf(OnJoin(st, c, roomId, userName).groups, c) == {roomId}
  {
    assert SessionOk(st, c);
  }
}
