/** Fixed-width C integers: the value ranges and the conversions between them. */
module Words {

  type Int16 = x: int | -0x8000 <= x < 0x8000
  type Word16 = x: int | 0 <= x < 0x1_0000
  type Int32 = x: int | -0x8000_0000 <= x < 0x8000_0000
  type Word32 = x: int | 0 <= x < 0x1_0000_0000

  function ToWord16(x: int): Word16 { x % 0x1_0000 }

  function ToWord32(x: int): Word32 { x % 0x1_0000_0000 }

  function ToInt16(x: int): Int16 {
    if ToWord16(x) < 0x8000 then ToWord16(x) else ToWord16(x) - 0x1_0000
  }

  function ToInt32(x: int): Int32 {
    if ToWord32(x) < 0x8000_0000 then ToWord32(x) else ToWord32(x) - 0x1_0000_0000
  }
}
