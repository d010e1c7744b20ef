/** The transport's room-scoped multicast groups, abstracted to sets. */
module Transport {
  import opened Types

  /** The groups each live connection is registered in. */
  type Groups = map<ConnId, set<RoomId>>

  /** The groups of `c`; none for a connection the transport does not know. */
  function GroupsOf(g: Groups, c: ConnId): set<RoomId>
  {
    if c in g then g[c] else {}
  }

  /** The connections registered in the group of room `r`. */
  function InGroup(g: Groups, r: RoomId): set<ConnId>
  {
    set c | c in g && r in g[c]
  }

  /** `socket.join(r)`: registers `c` in group `r`. */
  function JoinGroup(g: Groups, c: ConnId, r: RoomId): (h: Groups)
    ensures h.Keys == g.Keys + {c}
    ensures GroupsOf(h, c) == GroupsOf(g, c) + {r}
    ensures forall d :: d in g && d != c ==> h[d] == g[d]
  {
    g[c := GroupsOf(g, c) + {r}]
  }

  /** `socket.leave(r)`: unregisters `c` from group `r`. */
  function LeaveGroup(g: Groups, c: ConnId, r: RoomId): (h: Groups)
    ensures h.Keys == g.Keys + {c}
    ensures GroupsOf(h, c) == GroupsOf(g, c) - {r}
    ensures forall d :: d in g && d != c ==> h[d] == g[d]
  {
    g[c := GroupsOf(g, c) - {r}]
  }

  /** After `c` joins `r` it is a recipient of `r`'s multicasts, and the
      recipients of every other group are unchanged. */
  lemma JoinGroupRecipients(g: Groups, c: ConnId, r: RoomId)
    ensures InGroup(JoinGroup(g, c, r), r) == InGroup(g, r) + {c}
    ensures forall q :: q != r ==> InGroup(JoinGroup(g, c, r), q) == InGroup(g, q)
  {
  }

  /** After `c` leaves `r` it no longer receives `r`'s multicasts, and the
      recipients of every other group are unchanged. */
  lemma LeaveGroupRecipients(g: Groups, c: ConnId, r: RoomId)
    ensures InGroup(LeaveGroup(g, c, r), r) == InGroup(g, r) - {c}
    ensures forall q :: q != r ==> InGroup(LeaveGroup(g, c, r), q) == InGroup(g, q)
  {
  }

  /** Once the transport drops `c`, no group's multicast reaches it. */
  lemma DropRecipients(g: Groups, c: ConnId)
    ensures forall q :: InGroup(g - {c}, q) == InGroup(g, q) - {c}
  {
  }

  /** `to` is exactly the connections registered in group `r`. */
  ghost predicate RoomCast(to: set<ConnId>, g: Groups, r: RoomId)
  {
    forall d :: d in to <==> r in GroupsOf(g, d)
  }

  /** `to` is exactly the connections registered in group `r`, except `c`. */
  ghost predicate RoomCastExcept(to: set<ConnId>, g: Groups, r: RoomId, c: ConnId)
  {
    forall d :: d in to <==> r in GroupsOf(g, d) && d != c
  }

  /** The multicast to group `r` reaches exactly the group's members. */
  lemma InGroupIsRoomCast(g: Groups, r: RoomId)
    ensures RoomCast(InGroup(g, r), g, r)
    ensures forall c :: RoomCastExcept(InGroup(g, r) - {c}, g, r, c)
  {
  }
}
