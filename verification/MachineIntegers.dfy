/** The fixed-width integers of the simulator and its explicit conversions between them. */
module MachineIntegers {

  const TWO_TO_THE_8: int := 0x100
  const TWO_TO_THE_31: int := 0x8000_0000
  const TWO_TO_THE_32: int := 0x1_0000_0000

  newtype uint8 = x: int | 0 <= x < 0x100
  newtype uint16 = x: int | 0 <= x < 0x1_0000
  newtype uint32 = x: int | 0 <= x < 0x1_0000_0000
  newtype uint64 = x: int | 0 <= x < 0x1_0000_0000_0000_0000
  newtype int32 = x: int | -0x8000_0000 <= x < 0x8000_0000

  // The conversion uint32(x) of a signed value: two's complement.
  function ToUint32(x: int32): (r: uint32)
    ensures x >= 0 ==> r as int == x as int
    ensures x < 0 ==> r as int == x as int + TWO_TO_THE_32
  {
    if x < 0 then (x as int + TWO_TO_THE_32) as uint32 else x as uint32
  }

  // The conversion int32(x) of an unsigned value: two's complement.
  function ToInt32(x: uint32): (r: int32)
    ensures ToUint32(r) == x
  {
    if x as int < TWO_TO_THE_31 then x as int32 else (x as int - TWO_TO_THE_32) as int32
  }

  function Wrap8(x: int): uint8 {
    (x % TWO_TO_THE_8) as uint8
  }

  function Wrap32(x: int): uint32 {
    (x % TWO_TO_THE_32) as uint32
  }
}
