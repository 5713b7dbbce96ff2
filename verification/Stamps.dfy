/** Time stamps in machine integers: seconds are int32, nanoseconds uint32, the sum is taken in
    uint64 and compared as int64.  None of the casts loses anything, also before 1970.
 */
module Stamps {

  const TWO_31: int := 0x8000_0000
  const TWO_32: int := 0x1_0000_0000
  const TWO_63: int := 0x8000_0000_0000_0000
  const TWO_64: int := 0x1_0000_0000_0000_0000
  const BILLION: int := 1_000_000_000

  datatype Time = Time(sec: int, nanosec: int) {
    predicate InRange() {
      -TWO_31 <= sec < TWO_31 && 0 <= nanosec < TWO_32
    }

    /** The instant that the stamp denotes. */
    function Instant(): int {
      sec * BILLION + nanosec
    }
  }

  /** Reduction to 64 bits, unsigned and in two's complement. */
  function U64(x: int): int {
    x % TWO_64
  }

  function I64(x: int): int {
    var u := x % TWO_64;
    if u >= TWO_63 then u - TWO_64 else u
  }

  /** The program's conversion, every operation in uint64. */
  function RosTimeToNs(t: Time): int {
    U64(U64(U64(t.sec) * BILLION) + t.nanosec)
  }

  /** The program's signed difference of two converted stamps. */
  function TimeDiff(a: Time, b: Time): int {
    I64(I64(RosTimeToNs(a)) - I64(RosTimeToNs(b)))
  }

  lemma Multiple(x: int, k: int)
    ensures (x + k * TWO_64) % TWO_64 == x % TWO_64
  {
    var q, r := x / TWO_64, x % TWO_64;
    assert x + k * TWO_64 == (q + k) * TWO_64 + r;
  }

  lemma I64Exact(x: int)
    requires -TWO_63 <= x < TWO_63
    ensures I64(x) == x && I64(U64(x)) == x
  {
    if x < 0 {
      Multiple(x, 1);
    }
  }

  lemma ConversionExact(t: Time)
    requires t.InRange()
    ensures U64(t.Instant()) == RosTimeToNs(t)
  {
    var k := if t.sec < 0 then 1 else 0;
    Multiple(t.sec, k);
    assert U64(t.sec) == t.sec + k * TWO_64;
    var x := U64(t.sec) * BILLION;
    assert x == t.sec * BILLION + (k * BILLION) * TWO_64;
    Multiple(t.sec * BILLION, k * BILLION);
    assert U64(x) == (t.sec * BILLION) % TWO_64;
    var q := (t.sec * BILLION) / TWO_64;
    assert U64(x) + t.nanosec == t.Instant() + (-q) * TWO_64;
    Multiple(t.Instant(), -q);
  }

  /** The compared difference is the difference of the instants, and its absolute value fits. */
  lemma TimeDiffExact(a: Time, b: Time)
    requires a.InRange() && b.InRange()
    ensures TimeDiff(a, b) == a.Instant() - b.Instant()
    ensures TimeDiff(a, b) == (a.sec - b.sec) * 1_000_000_000 + (a.nanosec - b.nanosec)
    ensures -TWO_63 < TimeDiff(a, b) < TWO_63
  {
    ConversionExact(a);
    ConversionExact(b);
    I64Exact(a.Instant());
    I64Exact(b.Instant());
    I64Exact(a.Instant() - b.Instant());
  }
}
