/** Types shared by every module of the model. */
module Prelude {

  const TWO_TO_THE_32: int := 0x1_0000_0000
  const TWO_TO_THE_64: int := 0x1_0000_0000_0000_0000

  newtype byte = x: int | 0 <= x < 0x100

  type u32 = x: int | 0 <= x < TWO_TO_THE_32
  type u64 = x: int | 0 <= x < TWO_TO_THE_64

  /** A Rust `String`, seen as its bytes. No allocation is longer than `isize::MAX`. */
  type Text = s: seq<byte> | |s| < 0x8000_0000_0000_0000

  datatype Option<+T> = None | Some(value: T)

  datatype Result<+T, +E> = Ok(value: T) | Err(error: E)

  /** The cast `n as u32`. */
  function AsU32(n: nat): u32 {
    n % TWO_TO_THE_32
  }
}
