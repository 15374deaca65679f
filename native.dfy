/**
 * The fixed-width C++ integer types the source uses, and the conversions
 * between them that the source performs implicitly.  Every conversion wraps
 * modulo the width, as C++20 defines it for integral conversions.
 */
module Native {

  const TWO_31: int := 0x8000_0000
  const TWO_32: int := 0x1_0000_0000
  const TWO_63: int := 0x8000_0000_0000_0000
  const TWO_64: int := 0x1_0000_0000_0000_0000

  type int32 = x: int | -0x8000_0000 <= x < 0x8000_0000
  type uint32 = x: int | 0 <= x < 0x1_0000_0000
  type int64 = x: int | -0x8000_0000_0000_0000 <= x < 0x8000_0000_0000_0000
  type uint64 = x: int | 0 <= x < 0x1_0000_0000_0000_0000

  predicate IsInt64(x: int) { -TWO_63 <= x < TWO_63 }

  /** Conversion of any integer to int32_t (e.g. the long returned by std::stol). */
  function WrapInt32(x: int): (r: int32)
    ensures (r - x) % TWO_32 == 0
    ensures -TWO_31 <= x < TWO_31 ==> r == x
  {
    (x + TWO_31) % TWO_32 - TWO_31
  }

  /** Conversion of any integer to unsigned int. */
  function WrapUInt32(x: int): (r: uint32)
    ensures (r - x) % TWO_32 == 0
    ensures 0 <= x < TWO_32 ==> r == x
  {
    x % TWO_32
  }

  /** Conversion of an unsigned 64-bit value to int64_t (two's complement). */
  function ToInt64(u: uint64): (r: int64)
    ensures (r - u) % TWO_64 == 0
    ensures u < TWO_63 ==> r == u
  {
    if u < TWO_63 then u else u - TWO_64
  }

  /** Conversion of an int64_t to uint64_t, i.e. reading its bytes as unsigned. */
  function ToUInt64(i: int64): (r: uint64)
    ensures (r - i) % TWO_64 == 0
    ensures 0 <= i ==> r == i
  {
    if i < 0 then i + TWO_64 else i
  }

  /** Conversion of an unsigned int (a client-library error number) to int. */
  function UInt32ToInt32(u: uint32): (r: int32)
    ensures (r - u) % TWO_32 == 0
    ensures r == 0 <==> u == 0
  {
    if u < TWO_31 then u else u - TWO_32
  }

  /** Reading 8 bytes back with the other signedness restores the original. */
  lemma SignednessRoundTrip(i: int64, u: uint64)
    ensures ToInt64(ToUInt64(i)) == i
    ensures ToUInt64(ToInt64(u)) == u
  {
  }
}
