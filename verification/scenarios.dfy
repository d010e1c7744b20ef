/** Concrete event sequences: a two-user session in one room, and the inputs that
    show why the invariants need non-empty ids and names and names that are
    not shared within a room. */
module Scenarios {
  import opened Types
  import opened OrderedSet
  import opened RoomStore
  import opened ConnSession
  import opened Transport
  import opened Execution
  import opened Protocol
  import opened Server

  const X: ConnId := 1
  const Y: ConnId := 2

  /** A fresh connection id gets a null/null session and no group. */
  lemma ConnectStep(st: State, c: ConnId)
    requires c !in st.sessions
    ensures Step(st, Event(c, Connect)) ==
      st.(sessions := st.sessions[c := Unattached], groups := st.groups[c := {}])
  {
  }

  /** A join the clean-up guard skips is the attachment alone. */
  lemma JoinStep(st: State, c: ConnId, roomId: RoomId, userName: UserName)
    requires c in st.sessions && !JoinDeparts(st, c)
    ensures Step(st, Event(c, Join(roomId, userName))) == JoinAttach(st, c, roomId, userName)
  {
    assert JoinCleanup(st, c) == st;
  }

  /** The attachment of a connection that is in no group. */
  lemma AttachFresh(st: State, c: ConnId, roomId: RoomId, userName: UserName)
    requires c in st.groups && st.groups[c] == {}
    ensures var a := JoinAttach(st, c, roomId, userName);
      && a.groups == st.groups[c := {roomId}]
      && a.sessions == st.sessions[c := Session(Some(roomId), Some(userName))]
      && a.rooms == (if roomId in st.rooms then AddMember(st.rooms, roomId, userName)
                     else st.rooms[roomId := Room([userName], DefaultCode, None)])
  {
    JoinAttachEffect(st, c, roomId, userName);
    assert GroupsOf(st.groups, c) + {roomId} == {roomId};
  }

  /** Connection `X` joins "r1" as "alice" on a fresh process: the joiner
      alone gets the default code, then the room gets ["alice"]. */
  lemma ScenarioJoin()
    ensures Run(Init, [Event(X, Connect), Event(X, Join("r1", "alice"))]).outbox ==
      [Delivery({X}, CodeUpdate("// start code here")), Delivery({X}, UserJoined(["alice"]))]
  {
    var e0, e1 := Event(X, Connect), Event(X, Join("r1", "alice"));
    RunSnoc(Init, [], e0);
    RunSnoc(Init, [e0], e1);
    assert [] + [e0] == [e0];
    assert [e0] + [e1] == [e0, e1];
    ConnectStep(Init, X);
    var s1 := State(map[], map[X := Unattached], map[X := {}], [], []);
    assert Step(Init, e0) == s1;
    JoinStep(s1, X, "r1", "alice");
    AttachFresh(s1, X, "r1", "alice");
    var s2 := JoinAttach(s1, X, "r1", "alice");
    assert s2.groups == map[X := {"r1"}];
    assert InGroup(s2.groups, "r1") == {X};
    assert s2.rooms == map["r1" := Room(["alice"], DefaultCode, None)];
  }

  /** "alice" on `X` and "bob" on `Y` in room "r1". */
  function TwoInRoom(): seq<Event>
  {
    [Event(X, Connect), Event(X, Join("r1", "alice")), Event(Y, Connect), Event(Y, Join("r1", "bob"))]
  }

  /** The state after `TwoInRoom`: each join sent two deliveries. */
  predicate TwoInRoomShape(st: State)
  {
    && |st.outbox| == 4
    && st.groups == map[X := {"r1"}, Y := {"r1"}]
    && st.sessions == map[X := Session(Some("r1"), Some("alice")), Y := Session(Some("r1"), Some("bob"))]
    && st.rooms == map["r1" := Room(["alice", "bob"], DefaultCode, None)]
  }

  /** A second connection `Y` arrives while `X` is attached to "r1" as `u`. */
  lemma SecondConnects(s2: State, u: UserName)
    requires s2.groups == map[X := {"r1"}]
    requires s2.sessions == map[X := Session(Some("r1"), Some(u))]
    ensures var s3 := Step(s2, Event(Y, Connect));
      && s3.groups == map[X := {"r1"}, Y := {}]
      && s3.sessions == map[X := Session(Some("r1"), Some(u)), Y := Unattached]
      && s3.rooms == s2.rooms && s3.outbox == s2.outbox
  {
    ConnectStep(s2, Y);
  }

  lemma BobJoins(s2: State)
    requires s2.groups == map[X := {"r1"}]
    requires s2.sessions == map[X := Session(Some("r1"), Some("alice"))]
    requires s2.rooms == map["r1" := Room(["alice"], DefaultCode, None)]
    requires |s2.outbox| == 2
    ensures TwoInRoomShape(Step(Step(s2, Event(Y, Connect)), Event(Y, Join("r1", "bob"))))
  {
    SecondConnects(s2, "alice");
    BobAttaches(Step(s2, Event(Y, Connect)));
  }

  lemma BobAttaches(s3: State)
    requires s3.groups == map[X := {"r1"}, Y := {}]
    requires s3.sessions == map[X := Session(Some("r1"), Some("alice")), Y := Unattached]
    requires s3.rooms == map["r1" := Room(["alice"], DefaultCode, None)]
    requires |s3.outbox| == 2
    ensures TwoInRoomShape(Step(s3, Event(Y, Join("r1", "bob"))))
  {
    JoinStep(s3, Y, "r1", "bob");
    AttachFresh(s3, Y, "r1", "bob");
    assert "bob" !in ["alice"];
    assert ["alice"] + ["bob"] == ["alice", "bob"];
  }

  /** Four events run as four steps. */
  lemma RunFour(st: State, e0: Event, e1: Event, e2: Event, e3: Event)
    ensures Run(st, [e0, e1, e2, e3]) == Step(Step(Step(Step(st, e0), e1), e2), e3)
  {
    RunSnoc(st, [], e0);
    RunSnoc(st, [e0], e1);
    RunSnoc(st, [e0, e1], e2);
    RunSnoc(st, [e0, e1, e2], e3);
    assert [] + [e0] == [e0];
    assert [e0] + [e1] == [e0, e1];
    assert [e0, e1] + [e2] == [e0, e1, e2];
    assert [e0, e1, e2] + [e3] == [e0, e1, e2, e3];
  }

  /** Three events run as three steps. */
  lemma RunThree(st: State, e0: Event, e1: Event, e2: Event)
    ensures Run(st, [e0, e1, e2]) == Step(Step(Step(st, e0), e1), e2)
  {
    RunSnoc(st, [], e0);
    RunSnoc(st, [e0], e1);
    RunSnoc(st, [e0, e1], e2);
    assert [] + [e0] == [e0];
    assert [e0] + [e1] == [e0, e1];
    assert [e0, e1] + [e2] == [e0, e1, e2];
  }

  lemma TwoInRoomState()
    ensures TwoInRoomShape(Run(Init, TwoInRoom()))
  {
    var evs := TwoInRoom();
    RunFour(Init, evs[0], evs[1], evs[2], evs[3]);
    FirstJoin("r1", "alice");
    BobJoins(Step(Step(Init, evs[0]), evs[1]));
  }

  /** Both connections are in the group of "r1". */
  lemma TwoInRoomGroup(st: State)
    requires TwoInRoomShape(st)
    ensures InGroup(st.groups, "r1") == {X, Y}
  {
  }

  /** Runs `TwoInRoom` and then `e`. */
  function AfterTwo(e: Event): State
  {
    Run(Init, TwoInRoom() + [e])
  }

  /** Running `TwoInRoom` then `e` is one step from a state of that shape. */
  lemma AfterTwoStep(e: Event)
    ensures exists st :: TwoInRoomShape(st) && AfterTwo(e) == Step(st, e)
  {
    TwoInRoomState();
    RunSnoc(Init, TwoInRoom(), e);
    var st := Run(Init, TwoInRoom());
    assert TwoInRoomShape(st) && AfterTwo(e) == Step(st, e);
  }

  /** With both in "r1", `X`'s code change adds one delivery to the four of
      the two joins, and it reaches `Y` and not `X`. */
  lemma ScenarioCodeChange()
    ensures var st := AfterTwo(Event(X, CodeChange("r1", "print(1)")));
      && |st.outbox| == 5
      && st.outbox[|st.outbox| - 1] == Delivery({Y}, CodeUpdate("print(1)"))
  {
    var e := Event(X, CodeChange("r1", "print(1)"));
    AfterTwoStep(e);
    var st :| TwoInRoomShape(st) && AfterTwo(e) == Step(st, e);
    TwoInRoomGroup(st);
    assert {X, Y} - {X} == {Y};
  }

  /** With both in "r1", a run whose provider call fails adds one delivery:
      the error envelope, whose output is "Error executing code", to both. */
  lemma ScenarioCompileFailure()
    ensures var st := AfterTwo(Event(X, CompileCode("print(1)", "r1", "python", "3", "", Failure)));
      && |st.outbox| == 5
      && st.outbox[|st.outbox| - 1] == Delivery({X, Y}, CodeResponse(ErrorEnvelope))
      && ErrorEnvelope.run.output == "Error executing code"
  {
    var e := Event(X, CompileCode("print(1)", "r1", "python", "3", "", Failure));
    AfterTwoStep(e);
    var st :| TwoInRoomShape(st) && AfterTwo(e) == Step(st, e);
    TwoInRoomGroup(st);
  }

  /** With both in "r1", `X` disconnecting adds one delivery: ["bob"] to
      `Y` alone. */
  lemma ScenarioDisconnect()
    ensures var st := AfterTwo(Event(X, Disconnect));
      && |st.outbox| == 5
      && st.outbox[|st.outbox| - 1] == Delivery({Y}, UserJoined(["bob"]))
  {
    var e := Event(X, Disconnect);
    AfterTwoStep(e);
    var st :| TwoInRoomShape(st) && AfterTwo(e) == Step(st, e);
    TwoInRoomGroup(st);
    assert LeaveApplies(st, X);
    assert {X, Y} - {X} == {Y};
    assert ["alice", "bob"][1..] == ["bob"];
    assert Delete(["bob"], "alice") == ["bob"];
    assert Delete(["alice", "bob"], "alice") == ["bob"];
  }

  /** A fresh connection `X` joining `roomId` as `userName` on a fresh process. */
  lemma FirstJoin(roomId: RoomId, userName: UserName)
    ensures var st := Step(Step(Init, Event(X, Connect)), Event(X, Join(roomId, userName)));
      && st.groups == map[X := {roomId}]
      && st.sessions == map[X := Session(Some(roomId), Some(userName))]
      && st.rooms == map[roomId := Room([userName], DefaultCode, None)]
      && |st.outbox| == 2
  {
    ConnectStep(Init, X);
    var s1 := State(map[], map[X := Unattached], map[X := {}], [], []);
    assert Step(Init, Event(X, Connect)) == s1;
    JoinStep(s1, X, roomId, userName);
    AttachFresh(s1, X, roomId, userName);
    var a := JoinAttach(s1, X, roomId, userName);
    assert a.rooms == map[][roomId := Room([userName], DefaultCode, None)];
    assert a.groups == map[X := {}][X := {roomId}];
    assert a.sessions == map[X := Unattached][X := Session(Some(roomId), Some(userName))];
  }

  /** The sequence: join room "", then join room "r". */
  function EmptyRoomIdRun(): State
  {
    Run(Init, [Event(X, Connect), Event(X, Join("", "a")), Event(X, Join("r", "b"))])
  }

  /** Joining room "" and then "r": the `currentRoom &&` guard treats "" as
      absent, so the connection stays in group "" and "a" stays in room ""
      although no session points there. */
  lemma EmptyRoomIdStrands()
    ensures var st := EmptyRoomIdRun();
      && GroupsOf(st.groups, X) == {"", "r"}
      && "" in st.rooms && st.rooms[""].users == ["a"]
      && st.sessions == map[X := Session(Some("r"), Some("b"))]
  {
    var e0, e1, e2 := Event(X, Connect), Event(X, Join("", "a")), Event(X, Join("r", "b"));
    RunThree(Init, e0, e1, e2);
    FirstJoin("", "a");
    var s2 := Step(Step(Init, e0), e1);
    EmptyRoomThenR(s2);
  }

  lemma EmptyRoomThenR(s2: State)
    requires s2.groups == map[X := {""}]
    requires s2.sessions == map[X := Session(Some(""), Some("a"))]
    requires s2.rooms == map["" := Room(["a"], DefaultCode, None)]
    ensures var st := Step(s2, Event(X, Join("r", "b")));
      && GroupsOf(st.groups, X) == {"", "r"}
      && "" in st.rooms && st.rooms[""].users == ["a"]
      && st.sessions == map[X := Session(Some("r"), Some("b"))]
  {
    assert !Truthy(Some(""));
    JoinStep(s2, X, "r", "b");
    assert GroupsOf(JoinGroup(s2.groups, X, "r"), X) == {"", "r"};
  }

  /** "a" on `X` and "a" on `Y`, both in "r1". */
  function SharedNameEvents(): seq<Event>
  {
    [Event(X, Connect), Event(X, Join("r1", "a")), Event(Y, Connect), Event(Y, Join("r1", "a"))]
  }

  /** The state after `SharedNameEvents`, outbox aside. */
  predicate SharedNameShape(st: State)
  {
    && st.groups == map[X := {"r1"}, Y := {"r1"}]
    && st.sessions == map[X := Session(Some("r1"), Some("a")), Y := Session(Some("r1"), Some("a"))]
    && st.rooms == map["r1" := Room(["a"], DefaultCode, None)]
  }

  lemma SecondSameName(s2: State)
    requires s2.groups == map[X := {"r1"}]
    requires s2.sessions == map[X := Session(Some("r1"), Some("a"))]
    requires s2.rooms == map["r1" := Room(["a"], DefaultCode, None)]
    ensures SharedNameShape(Step(Step(s2, Event(Y, Connect)), Event(Y, Join("r1", "a"))))
  {
    SecondConnects(s2, "a");
    SecondAttaches(Step(s2, Event(Y, Connect)));
  }

  lemma SecondAttaches(s3: State)
    requires s3.groups == map[X := {"r1"}, Y := {}]
    requires s3.sessions == map[X := Session(Some("r1"), Some("a")), Y := Unattached]
    requires s3.rooms == map["r1" := Room(["a"], DefaultCode, None)]
    ensures SharedNameShape(Step(s3, Event(Y, Join("r1", "a"))))
  {
    JoinStep(s3, Y, "r1", "a");
    AttachFresh(s3, Y, "r1", "a");
  }

  lemma SharedNameState()
    ensures SharedNameShape(Run(Init, SharedNameEvents()))
  {
    var evs := SharedNameEvents();
    RunFour(Init, evs[0], evs[1], evs[2], evs[3]);
    FirstJoin("r1", "a");
    SecondSameName(Step(Step(Init, evs[0]), evs[1]));
  }

  /** From that state, `X` leaves "r1". */
  lemma SharedNameLeave(st: State)
    requires SharedNameShape(st)
    ensures var r := Step(st, Event(X, LeaveRoom));
      && "r1" in r.rooms && r.rooms["r1"].users == []
      && Y in r.sessions && r.sessions[Y] == Session(Some("r1"), Some("a"))
  {
    assert LeaveApplies(st, X);
    assert Delete(["a"], "a") == [];
  }

  /** The sequence: "a" on `X` and "a" on `Y` in "r1", then `X` leaves. */
  function SharedNameRun(): State
  {
    Run(Init, SharedNameEvents() + [Event(X, LeaveRoom)])
  }

  /** Two connections in "r1" under one name: when one leaves, the name is
      gone from the room although the other is still attached under it. */
  lemma SharedNameEvicts()
    ensures var st := SharedNameRun();
      && "r1" in st.rooms && st.rooms["r1"].users == []
      && Y in st.sessions && st.sessions[Y] == Session(Some("r1"), Some("a"))
  {
    SharedNameState();
    RunSnoc(Init, SharedNameEvents(), Event(X, LeaveRoom));
    SharedNameLeave(Run(Init, SharedNameEvents()));
  }

  /** The sequence: join "r" as "", then disconnect. */
  function EmptyUserNameRun(): State
  {
    Run(Init, [Event(X, Connect), Event(X, Join("r", "")), Event(X, Disconnect)])
  }

  /** An empty user name: `disconnect`'s `currentUser &&` guard treats it as
      absent, so "" stays in the room after its only holder is gone. */
  lemma EmptyUserNameStrands()
    ensures var st := EmptyUserNameRun();
      && "r" in st.rooms && st.rooms["r"].users == [""]
      && st.sessions == map[]
  {
    var e0, e1, e2 := Event(X, Connect), Event(X, Join("r", "")), Event(X, Disconnect);
    RunThree(Init, e0, e1, e2);
    FirstJoin("r", "");
    var s2 := Step(Step(Init, e0), e1);
    assert !Truthy(Some(""));
    assert !LeaveApplies(s2, X);
  }
}
