/** Types and constants shared by all components. */
module Basics {
  /** The number of values of a 32-bit unsigned integer. */
  const UINT32: int := 0x1_0000_0000

  datatype Option<+T> = None | Some(value: T)
}
