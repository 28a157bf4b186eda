/** Shared value types of the serial link: bytes and optional values. */
module Bytes {

  /** One octet on the serial line. */
  type Byte = b: int | 0 <= b < 256

  /** A value that may be absent, such as the latest frame before any frame arrived. */
  datatype Option<+T> = None | Some(value: T)

  /** Header pair that opens every frame in both directions. */
  const HeaderHi: Byte := 255
  const HeaderLo: Byte := 254
}
