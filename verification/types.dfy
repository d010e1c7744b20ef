/** Identifiers and the optional-value wrapper shared by every module of the model. */
module Types {

  /** A room id exactly as a client sends it (any string, "" included). */
  type RoomId = string

  /** A display name exactly as a client sends it. */
  type UserName = string

  /** The identity of one live transport connection (a socket id). */
  type ConnId = nat

  /** JavaScript `null` (None) or a present value. */
  datatype Option<T> = None | Some(value: T)

  /** JavaScript truthiness of a variable holding `null` or a string:
      `null` and the empty string are falsy, every other string is truthy. */
  predicate Truthy(o: Option<string>)
  {
    o.Some? && o.value != ""
  }
}
