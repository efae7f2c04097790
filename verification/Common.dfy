/** Types shared by every component. */
module Common {

  datatype Option<+T> = None | Some(value: T)

  datatype Result<+T, +E> = Ok(value: T) | Err(error: E)

  /** A byte of a stream, which is combined bit by bit. */
  type byte = bv8

  /** A byte where its value as a number matters. */
  type Octet = n: nat | n < 256

  const UINT64_BOUND: nat := 0x1_0000_0000_0000_0000

  /** Go's uint64: additions on it wrap around. */
  type uint64 = n: nat | n < UINT64_BOUND

  function Max(a: int, b: int): (m: int) {
    if a < b then b else a
  }
}
