# Room and session state machine of the real-time code editor

The backend of the collaborative editor keeps one process-wide store of
rooms. Each room has an ordered set of member names, the shared code and the
last execution output. Each socket connection carries a
`currentRoom`/`currentUser` pair. Seven handlers change the store and the
pair, then send events to a chosen set of connections:
`join`, `codeChange`, `typing`, `languageChange`, `compileCode`,
`leaveRoom` and `disconnect`. There are three kinds of recipient set:
- the sender alone (`socket.emit`);
- the room's transport group minus the sender (`socket.to(room)`);
- the whole group (`io.to(room)`).

The model is a pure transition system.

- **State.** `Server.State` holds five parts:
  - the room store;
  - the per-connection sessions;
  - the transport group membership of each connection;
  - an outbox of deliveries, each a concrete recipient set and an outbound event;
  - the log of requests sent to the execution provider.
- **Handlers.** Each handler is one function on the state. `Server.Step`
  dispatches a connection's event to its handler, and `Server.Run` folds a
  sequence of events.
- **Member lists.** A JavaScript `Set` is a duplicate-free sequence in
  insertion order (`OrderedSet`), so `Array.from` gives that sequence.
- **Truthiness.** The guards `currentRoom &&` and `currentUser &&` go through
  `Types.Truthy`, under which `""` counts as absent.

Modules, one per concern:
- `Types` holds ids, `Option` and truthiness.
- `OrderedSet` is the JavaScript `Set`.
- `RoomStore` is the `rooms` map.
- `ConnSession` is the per-connection pair.
- `Transport` is the socket groups and who a broadcast reaches.
- `Execution` is the provider's request, reply and error envelope.
- `Protocol` holds the inbound and outbound events.
- `Server` holds the handlers, `Step` and `Run`.
- `Invariants` holds the invariant and the lemmas that it is kept.
- `Scenarios` holds concrete runs.

Four points of behaviour the model states:

- **Disconnect runs on a torn-down connection.** The transport takes the
  connection out of every group before the `disconnect` handler runs. The
  member list that handler broadcasts therefore never reaches the departing
  connection.
- **`languageChange` stores nothing.** The handler only relays the language
  (backend/index.js:93-95): a room has no language field, so a client
  that joins later learns the language only from the next change.
- **The run input is read from `input`.** `compileCode` reads the field
  `input` (backend/index.js:98) and sends it to the provider as `stdin`.
  The model follows the code.
- **Same-named members collide.** Membership is a set of names, so two
  connections in one room under one name share one entry. When either
  leaves, the name is gone although the other is still attached
  (`Scenarios.SharedNameEvicts`).

The invariant (`Invariants.Inv`) has three parts:
- every session has both variables set or both null;
- an attached session names a stored room, and its connection is in that
  room's group and no other;
- each room's member list is exactly the names of the connections attached
  to it.

It is kept by every event whose `join` uses a non-empty room id, a non-empty
name, and a name no other connection holds in that room
(`Invariants.Admissible`). The user interface only sends such joins when
names are unique. Three lemmas in `Scenarios` show that each condition is
needed:
- `EmptyRoomIdStrands`: a join to room `""` is never cleaned up;
- `EmptyUserNameStrands`: a member named `""` is never removed;
- `SharedNameEvicts`: shared names, as above.

## Model

| member | source | states |
|---|---|---|
| OrderedSet.Add | backend/index.js:71 | `Set.add`: the elements become the old ones plus `x`; no duplicates are introduced; the old sequence is kept as a prefix, so a new name goes last |
| OrderedSet.Delete | backend/index.js:58 | `Set.delete`: the elements become the old ones minus `x`; no duplicates are introduced; the result is no longer |
| OrderedSet.AddThenDelete | backend/index.js:58-71 | adding a new name and deleting it again gives back the same sequence, order included |
| OrderedSet.DeleteCutsSlot | backend/index.js:120 | in a duplicate-free list, deleting the element at index `k` removes exactly that slot and keeps the others in order |
| OrderedSet.DeleteThenAddMovesLast | backend/index.js:58-71 | a name that leaves and joins again moves to the end of the member list |
| OrderedSet.DeleteAbsent | backend/index.js:58 | deleting a name that is not present leaves the list unchanged |
| RoomStore.EnsureRoom | backend/index.js:67-69 | a missing room is created with no members, code `"// start code here"` and no output; existing rooms are untouched; the key set gains only `r` |
| RoomStore.AddMember | backend/index.js:71 | the room's members gain `u` (appended if new); code, output and every other room are unchanged |
| RoomStore.RemoveMember | backend/index.js:120 | the room's members lose `u`; code, output and every other room are unchanged |
| RoomStore.SetCode | backend/index.js:83 | a stored room gets the new code; members, outputs and every other room are unchanged; a missing room is not created |
| RoomStore.SetOutput | backend/index.js:108 | a stored room gets the new output; members, code and every other room are unchanged; a missing room is not created |
| Transport.JoinGroup | backend/index.js:72 | the connection's groups gain the room; other connections' groups are unchanged |
| Transport.LeaveGroup | backend/index.js:122 | the connection's groups lose the room; other connections' groups are unchanged |
| Transport.JoinGroupRecipients | backend/index.js:72-78 | after joining, that group's recipients are the old ones plus the joiner; every other group's recipients are unchanged |
| Transport.LeaveGroupRecipients | backend/index.js:122 | after leaving, that group's recipients are the old ones minus the leaver; every other group's recipients are unchanged |
| Transport.DropRecipients | backend/index.js:129-133 | once a connection is torn down, every group's recipients lose exactly that connection |
| Transport.InGroupIsRoomCast | backend/index.js:84-89 | an `io.to(r)` delivery reaches exactly the connections in group `r`; a `socket.to(r)` delivery reaches those connections minus the sender |
| Execution.Reply | backend/index.js:110-113 | on success the provider's body is passed on untouched; on failure the body is `{run: {output: "Error executing code"}}` and nothing else |
| Server.Depart | backend/index.js:58-59 | the departing name leaves the room; code, output, other rooms, sessions and groups are unchanged; one member list goes to the room's whole group |
| Server.JoinCleanupEffect | backend/index.js:57-61 | when `currentRoom` is truthy and stored: the old room's list becomes the old list with `currentUser` deleted, other rooms are untouched, exactly that new list goes to the old group (sender included) and the connection leaves the old group; otherwise nothing changes |
| Server.JoinAttachEffect | backend/index.js:63-78 | the session becomes the pair `(roomId, userName)` and the room exists and holds the name; code and output of an existing room are kept; the joiner alone gets the code, then the whole group including the joiner gets the member list |
| Server.OnJoin | backend/index.js:55-79 | `join` as a whole. The clean-up delivery, when there is one, carries the old room's list with `currentUser` deleted and goes to the old group. The session is `(roomId, userName)`. A new room is `[userName]` with the default code. Existing rooms keep code and output. The connection is in group `roomId`. The joiner alone gets `codeUpdate`, and the whole room then gets `userJoined` |
| Server.OnJoinMembers | backend/index.js:57-71 | after `join` every stored room's members are the old ones minus the name the clean-up removes (the old room's `currentUser`, when the clean-up runs) plus `userName` for the joined room; a room that is neither the old nor the joined one is unchanged |
| Server.OnCodeChange | backend/index.js:82-85 | only a stored room's code changes; nothing else in the store does; `codeUpdate(code)` goes to the group minus the sender even when the room is not stored |
| Server.OnTyping | backend/index.js:88-90 | store, sessions and groups are unchanged; `userTyping(userName)` goes to the group minus the sender |
| Server.OnLanguageChange | backend/index.js:93-95 | store, sessions and groups are unchanged; `languageUpdate(language)` goes to the whole group, sender included |
| Server.OnCompileCode | backend/index.js:98-115 | exactly one provider request (language, version, one file with the code, `input` as stdin); members and code never change; on success a stored room's output becomes `run.output` and the body goes to the whole group; on failure the store is unchanged and the error envelope goes to the whole group |
| Server.OnLeaveRoom | backend/index.js:118-126 | with room and user truthy and the room stored: the name leaves the room, the list goes to the whole group (the leaver still in it), the connection leaves the group and the session becomes null/null; otherwise nothing at all changes |
| Server.OnDisconnect | backend/index.js:129-135 | the session and groups of the connection are discarded; with the guard true the name leaves the room and the list goes to the room's group without the departing connection; otherwise store and outbox are unchanged |
| Server.OnConnect | backend/index.js:48-52 | a new connection has a null/null session and no group; every other session and group, the store, the outbox and the calls are unchanged |
| Server.Step | backend/index.js:48-136 | one event: no room is removed and earlier deliveries are never changed |
| Server.Run | backend/index.js:45-136 | any event sequence: no room key is ever removed and the outbox only grows |
| Server.RunSnoc | backend/index.js:48-136 | running one more event is one more step after the run |
| Server.SenderRouting | backend/index.js:84-113 | `codeChange` and `typing` never reach the sender; `languageChange` and `compileCode` reach it exactly when it is in the payload room's group |
| Server.LeaveRoomTwice | backend/index.js:118-126 | a second consecutive `leaveRoom` changes nothing and emits nothing |
| Invariants.AttachedNamesReplace | backend/index.js:63-64 | when no other connection holds the same room and name as the changed connection, changing its session changes the attached names of a room by exactly what the old and new sessions contribute |
| Invariants.InitInv | backend/index.js:45 | the empty store with no connections satisfies the invariant |
| Invariants.ConnectKeepsInv | backend/index.js:48-52 | a new connection with a null/null session and no group keeps the invariant |
| Invariants.QuietKeepsInv | backend/index.js:82-115 | a handler that changes no session, group, member list or room key keeps the invariant |
| Invariants.JoinKeepsMembershipOld | backend/index.js:57-71 | after a join, the member list of each room that existed before is still duplicate-free and equal to the names attached to it |
| Invariants.JoinKeepsMembershipNew | backend/index.js:67-71 | the room a join creates holds exactly the joiner's name, which is the one name attached to it |
| Invariants.JoinKeepsSessions | backend/index.js:55-79 | after an admissible join every session is consistent and attached names stay distinct per room |
| Invariants.JoinKeepsInv | backend/index.js:55-79 | an admissible join keeps the whole invariant |
| Invariants.LeaveKeepsMembership | backend/index.js:118-126 | after `leaveRoom` each room's member list still equals the names attached to it |
| Invariants.LeaveKeepsSessions | backend/index.js:118-126 | after `leaveRoom` every session is consistent and names stay distinct |
| Invariants.LeaveKeepsInv | backend/index.js:118-126 | `leaveRoom` keeps the invariant |
| Invariants.DisconnectKeepsMembership | backend/index.js:129-135 | after `disconnect` each room's member list still equals the names of the remaining attached connections |
| Invariants.DisconnectKeepsInv | backend/index.js:129-135 | `disconnect` keeps the invariant |
| Invariants.StepKeepsInv | backend/index.js:48-136 | every admissible event keeps the invariant |
| Invariants.RunKeepsInv | backend/index.js:48-136 | every admissible event sequence keeps the invariant |
| Invariants.ReachableProperties | backend/index.js:51-135 | after any admissible run from a fresh process: `currentRoom` is null exactly when `currentUser` is; a connection is in at most one group, the one its session names; each room's members are exactly the names attached to it |
| Invariants.JoinSingleGroup | backend/index.js:57-72 | after a join from a consistent state the connection is in exactly one group, the joined room's |
| Scenarios.ScenarioJoin | backend/index.js:67-78 | the first joiner of "r1" gets the default code alone, then `["alice"]` |
| Scenarios.TwoInRoomState | backend/index.js:55-79 | after "alice" and then "bob" join "r1", both are in its group and the member list is `["alice", "bob"]` |
| Scenarios.ScenarioCodeChange | backend/index.js:82-85 | with both in "r1", a code change from `X` adds exactly one delivery after the four of the joins, and it reaches `Y` only |
| Scenarios.ScenarioCompileFailure | backend/index.js:111-113 | with both in "r1", a failed run adds exactly one delivery, the error envelope to both |
| Scenarios.ScenarioDisconnect | backend/index.js:129-133 | with both in "r1", `X` disconnecting adds exactly one delivery, `["bob"]` to `Y` only |
| Scenarios.EmptyRoomIdStrands | backend/index.js:57 | after joining room "" and then "r", the connection is in both groups and "a" stays in room "" |
| Scenarios.SharedNameEvicts | backend/index.js:119-120 | two connections named "a" in "r1": when one leaves, "r1" has no members while the other is still attached as "a" |
| Scenarios.EmptyUserNameStrands | backend/index.js:130-131 | a member named "" stays in the room after its connection disconnects |

## Left out

- The user interface (frontend/src/App.jsx) is not part of this model: it holds no server state.
- The keep-alive self-ping (backend/index.js:16-33) is left out. It is timer-driven network I/O that touches no room or session.
- Express static serving and `server.listen` (backend/index.js:11-13, 138-147) are left out as HTTP plumbing.
- The HTTP call to the execution provider (backend/index.js:100-105) is not made. Its settled outcome is a field of the `compileCode` event (`Execution.Outcome`). The request sent is logged in `State.calls`.
- Server.OnCompileCode: `compileCode` is atomic, so other events cannot interleave across its `await`. Only `output` and the broadcast follow the suspension, and they use the room and group as they are when the event is handled.
- Server.OnCompileCode: a provider reply whose `run` has no `output` stores `undefined` in the room. The model has no such value: a reply always carries an `output` string.
- Socket.IO internals are abstracted to group sets and concrete recipient sets: acknowledgements, buffering, delivery order across connections, and each socket's private room named by its id.
- Payloads are taken to be strings. Non-string or missing fields, which JavaScript would coerce, are not modelled.
- The transport never delivers an event for a connection that is not live, nor a second connection event for a live one. `Server.Step` treats both as no-ops.
- `console.log`, `console.error` and the CORS configuration are left out because they have no effect on state or routing.
- Invariants.StepKeepsInv: it covers only joins with a non-empty room id, a non-empty name, and a name no other connection holds in that room. The three `Scenarios` lemmas above show that the invariant fails without each condition.
