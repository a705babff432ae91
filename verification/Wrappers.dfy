// The result shapes, number ranges and the point that every other module uses.

module Wrappers {

  datatype Option<+T> = None | Some(value: T)

  datatype Result<+T, +E> = Ok(value: T) | Err(error: E)

  // The source's integer widths, where they matter.
  const U16_LIMIT := 0x1_0000
  const U32_LIMIT := 0x1_0000_0000
  const I32_LIMIT := 0x8000_0000

  type U16 = x: int | 0 <= x < 0x1_0000
  type U32 = x: int | 0 <= x < 0x1_0000_0000

  const U32_MAX := 0xFFFF_FFFF

  type Byte = b: int | 0 <= b < 256

  datatype Point = Point(x: U32, y: U32)
}
