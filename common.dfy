/** Machine types and failure wrappers shared by every module of the model. */
module Common {

  /** C `uint32_t`. */
  newtype uint32 = x: int | 0 <= x < 0x1_0000_0000

  /** C `int32_t` (the width of `int` on the platforms the daemons run on). */
  newtype int32 = x: int | -0x8000_0000 <= x < 0x8000_0000

  /** A `uint32_t` converted to `int32_t`: the same 32 bits, read as two's complement. */
  function AsInt32(u: uint32): (i: int32)
    ensures 0 <= i as int ==> i as int == u as int
    ensures i < 0 ==> i as int == u as int - 0x1_0000_0000
  {
    if u < 0x8000_0000 then u as int as int32 else (u as int - 0x1_0000_0000) as int32
  }

  /** A negative errno-style code, as sd-bus and sd-event return on failure. */
  type Errno = x: int | x < 0 witness -1

  datatype Option<+T> = None | Some(value: T)

  /** The reply to one library call: a value, or the negative code the call failed with. */
  datatype Reply<+T> = Ok(value: T) | Fail(errno: Errno)

  /** A string that can live in a NUL-terminated C buffer. */
  predicate IsCString(s: string) {
    '\0' !in s
  }
}
