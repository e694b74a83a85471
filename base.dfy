/** Small value types shared by the board and the relay server models. */
module Base {

  /** An optional value: a JSON key that may be absent, a socket slot that may be null. */
  datatype Option<+T> = None | Some(value: T)

  /** One octet of a binary WebSocket payload or of the capture buffer. */
  type Byte = b: int | 0 <= b < 256
}
