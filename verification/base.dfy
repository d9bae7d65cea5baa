/** Fixed-width unsigned integers and the small helpers shared by the whole model. */
module Base {

  /** An unsigned 8-bit value (`uint8_t`). */
  type Byte = x: int | 0 <= x < 0x100

  /** An unsigned 16-bit value (`uint16_t`). */
  type Word = x: int | 0 <= x < 0x1_0000

  /** A 4-bit field of an instruction word. */
  type Nibble = x: int | 0 <= x < 0x10

  datatype Option<T> = None | Some(value: T)

  /** Assignment of an integer expression to a `uint16_t`: keeps it modulo 2^16. */
  function Wrap16(x: int): Word
  {
    x % 0x1_0000
  }

  /** Assignment of an integer expression to a `uint8_t`: keeps it modulo 2^8. */
  function Wrap8(x: int): Byte
  {
    x % 0x100
  }

  /** The value `cond ? 1 : 0` stored into the flag register. */
  function Flag(b: bool): Byte
  {
    if b then 1 else 0
  }
}
