/** Shared types: the C integer widths the introspection code works with,
    and the Option wrapper used for "the OS could not supply this". */
module Common {

  datatype Option<+T> = None | Some(value: T)

  /** C `unsigned char` / Windows `BYTE`. */
  newtype uint8 = x: int | 0 <= x < 0x100

  /** C `unsigned int` / Windows `DWORD`. */
  newtype uint32 = x: int | 0 <= x < 0x1_0000_0000

  const IntMin: int := -0x8000_0000
  const IntMax: int := 0x7FFF_FFFF
  const UintMax: uint32 := 0xFFFF_FFFF

  /** A value representable in a 32-bit C `int`. */
  predicate InInt(v: int)
  {
    IntMin <= v <= IntMax
  }
}
