/** Fixed-width unsigned integers, as the C types they stand for, and an optional value. */
module Words {
  type U8 = x: int | 0 <= x < 0x100
  type U12 = x: int | 0 <= x < 0x1000
  type U16 = x: int | 0 <= x < 0x1_0000
  type U32 = x: int | 0 <= x < 0x1_0000_0000

  datatype Option<+T> = None | Some(value: T)
}
