/** The per-connection session: the `currentRoom` / `currentUser` pair each
    connection's handlers close over. */
module ConnSession {
  import opened Types

  /** `null` is None; after a join both hold the join's payload values. */
  datatype Session = Session(room: Option<RoomId>, user: Option<UserName>)

  /** The state of a connection that has not joined (or has left). */
  const Unattached: Session := Session(None, None)
}
