/** The failure-carrying values the other modules share. */
module Wrappers {

  /** A value that may be absent. */
  datatype Option<+T> = None | Some(value: T)

  /** The outcome of an operation whose error carries no information: every error of the program is boxed away. */
  datatype Result<+T> = Err | Ok(value: T)

  /** One octet, and a sequence of them. */
  type Byte = x: int | 0 <= x < 256

  type Bytes = seq<Byte>

  /** A text that may be missing, as its bytes. */
  function OrEmpty(text: Option<Bytes>): Bytes {
    if text.Some? then text.value else []
  }
}
