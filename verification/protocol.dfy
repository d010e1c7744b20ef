/** The events a connection sends and the events the server emits. */
module Protocol {
  import opened Types
  import opened Execution

  /** An inbound event, with its payload fields. `Connect` and `Disconnect`
      are raised by the transport; a `CompileCode` carries what its provider
      call settled to. */
  datatype Inbound =
    | Connect
    | Join(roomId: RoomId, userName: UserName)
    | CodeChange(roomId: RoomId, code: string)
    | Typing(roomId: RoomId, userName: UserName)
    | LanguageChange(roomId: RoomId, language: string)
    | CompileCode(code: string, roomId: RoomId, language: string, version: string, input: string, outcome: Outcome)
    | LeaveRoom
    | Disconnect

  /** An inbound event together with the connection that raised it. */
  datatype Event = Event(conn: ConnId, input: Inbound)

  /** An outbound event. */
  datatype Outbound =
    | CodeUpdate(code: string)
    | UserJoined(users: seq<UserName>)
    | UserTyping(userName: UserName)
    | LanguageUpdate(language: string)
    | CodeResponse(body: ExecBody)

  /** One emit: the connections it reaches, resolved when it is emitted. */
  datatype Delivery = Delivery(to: set<ConnId>, event: Outbound)
}
