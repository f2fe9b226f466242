/**
 The source's unsigned integer types: their values, and what a result too large for them becomes.
 */
module Words {

  type U32 = x: int | 0 <= x < 0x1_0000_0000
  type U64 = x: int | 0 <= x < 0x1_0000_0000_0000_0000

  function Wrap32(x: nat): U32 { x % 0x1_0000_0000 }
  function Wrap64(x: nat): U64 { x % 0x1_0000_0000_0000_0000 }
}
