/**
 * Values shared by every part of the model: the ids the store hands out,
 * the clock, and how one round trip to the store can end.
 */
module Store {

  /** A user id, as the store keeps it (a uuid string). */
  type UserId = string

  /** A row id, assigned by the store when a row is inserted. */
  type RowId = nat

  /** The clock, in milliseconds. */
  type Time = int

  datatype Option<+T> = None | Some(value: T)

  /**
   * How one request to the store ends: it goes through, or the store
   * (or the network on the way) reports an error with a message.
   */
  datatype Net = Up | Down(message: string)

  /** The `{ success: true, data }` / `{ success: false, msg }` shape every service call returns. */
  datatype Outcome<+T> = Ok(value: T) | Failed(msg: string)
}
