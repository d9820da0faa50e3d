/** Types shared by every component. */
module Common {
  datatype Option<+T> = None | Some(value: T)

  datatype Result<+T, +E> = Ok(value: T) | Err(error: E)

  type Byte = b: int | 0 <= b < 0x100

  type Uint16 = n: int | 0 <= n < 0x1_0000

  type Uint32 = n: int | 0 <= n < 0x1_0000_0000
}
