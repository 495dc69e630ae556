/** Go's fixed-width integers and Go's integer division, written out over unbounded `int`. */
module GoInts {

  const TwoTo32: int := 0x1_0000_0000
  const MinInt32: int := -0x8000_0000
  const MaxInt32: int := 0x7fff_ffff
  const MinInt64: int := -0x8000_0000_0000_0000
  const MaxInt64: int := 0x7fff_ffff_ffff_ffff

  type Int32 = x: int | MinInt32 <= x <= MaxInt32
  type Int64 = x: int | MinInt64 <= x <= MaxInt64

  function Abs(x: int): (a: nat)
    ensures a == x || a == -x
  {
    if x < 0 then -x else x
  }

  /** Go's conversion `int32(x)`: keep the low 32 bits and read them as two's complement.
      The result is the one 32-bit value congruent to `x` modulo 2^32. */
  function ToInt32(x: int): (r: Int32)
    ensures (x - r) % TwoTo32 == 0
    ensures MinInt32 <= x <= MaxInt32 ==> r == x
  {
    var low := x % TwoTo32;
    if low <= MaxInt32 then low else low - TwoTo32
  }

  /** Two 32-bit values congruent modulo 2^32 are equal, so `ToInt32` is fully determined by its
      congruence contract. */
  lemma Int32CongruenceUnique(a: Int32, b: Int32)
    requires (a - b) % TwoTo32 == 0
    ensures a == b
  {
    assert a - b == (a - b) / TwoTo32 * TwoTo32;
  }

  /** Go's integer division `a / b`, which truncates toward zero (Dafny's `/` is Euclidean).
      The remainder is smaller than the divisor in magnitude and never has the opposite sign
      of the dividend. */
  function Quot(a: int, b: int): (q: int)
    requires b != 0
    ensures Abs(a - q * b) < Abs(b)
    ensures a - q * b == 0 || (a - q * b < 0 <==> a < 0)
  {
    var n := Abs(a) / Abs(b);
    if (a < 0) == (b < 0) then n else -n
  }
}
