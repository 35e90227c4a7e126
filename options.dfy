/** Small value types shared by every module of the model. */
module Options {

  /** The `Option` of the source: a value or nothing. */
  datatype Option<+T> = None | Some(value: T)

  /** Fixed-width unsigned integers of the source (`u8`, `u32`). */
  newtype uint8 = x: int | 0 <= x < 0x100
  newtype uint32 = x: int | 0 <= x < 0x1_0000_0000
}
