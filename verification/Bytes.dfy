/** Bytes, and payload lengths stored in bytes. */
module Bytes {

  type byte = bv8

  /** The byte reached by counting up from zero n times. */
  function Counted(n: nat): byte {
    if n == 0 then 0 else Counted(n - 1) + 1
  }

  /** A length as the program stores it, truncated to a byte. */
  function LenByte(n: nat): byte {
    Counted(n % 256)
  }

  function Value(b: byte): (n: nat)
    ensures n <= 255
  {
    b as nat
  }

  lemma ValueOfNext(b: byte)
    requires b != 255
    ensures Value(b + 1) == Value(b) + 1
  {}

  lemma ValueOfZero()
    ensures Value(0) == 0
  {}

  lemma {:induction false} CountedValue(b: byte)
    ensures Counted(Value(b)) == b
    decreases Value(b)
  {
    hide Value;
    if b == 0 {
      ValueOfZero();
    } else {
      ValueOfNext(b - 1);
      CountedValue(b - 1);
    }
  }

  lemma {:induction false} ValueOfCounted(n: nat)
    requires n < 256
    ensures Value(Counted(n)) == n
  {
    hide Value;
    if n == 0 {
      ValueOfZero();
    } else {
      ValueOfCounted(n - 1);
      ValueOfLast();
      ValueOfNext(Counted(n - 1));
    }
  }

  lemma ValueOfLast()
    ensures Value(255) == 255
  {}

  lemma ValueOfLen(n: nat)
    ensures Value(LenByte(n)) == n % 256
  {
    hide Value, Counted;
    ValueOfCounted(n % 256);
  }

  lemma LenOfValue(b: byte)
    ensures LenByte(Value(b)) == b
  {
    hide Value;
    CountedValue(b);
  }
}
