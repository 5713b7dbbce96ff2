/** The checksum as polynomial arithmetic over GF(2).

    A sequence of bits is the list of a polynomial's coefficients, highest degree first.
    The register, lowest bit first, is then the remainder of the message, followed by
    sixteen zeros and with its first sixteen coefficients inverted, modulo
    x^16 + x^15 + x^2 + 1.
 */
module CrcPolynomial {
  import opened BitWords
  import opened Bytes
  import opened Crc16

  /** x^16 + x^15 + x^2 + 1. */
  const MODULUS: seq<bool> := [true, true] + Zeros(12) + [true, false, true]

  /** The modulus, shifted by n degrees, or zero. */
  function ShiftedModulus(lead: bool, n: nat): (r: seq<bool>)
    ensures |r| == 17 + n && forall i :: 0 <= i < 17 + n ==> r[i] == (lead && i < 17 && MODULUS[i])
  {
    (if lead then MODULUS else Zeros(17)) + Zeros(n)
  }

  /** Schoolbook product of a polynomial with the modulus. */
  function Times(q: seq<bool>): (r: seq<bool>)
    ensures |r| == |q| + 16
  {
    if q == [] then Zeros(16)
    else XorBits(ShiftedModulus(q[0], |q| - 1), [false] + Times(q[1..]))
  }

  /** p is q times the modulus plus r, a polynomial of degree below sixteen. */
  predicate IsDivision(p: seq<bool>, q: seq<bool>, r: Register) {
    |p| == |q| + 16 && p == XorBits(Times(q), Zeros(|q|) + r)
  }

  /** One step of long division: cancel the leading coefficient and drop it. */
  function Cancel(p: seq<bool>): (p': seq<bool>)
    requires |p| > 16
    ensures |p'| == |p| - 1
  {
    if p[0] then XorBits(p, MODULUS + Zeros(|p| - 17))[1..] else p[1..]
  }

  function Remainder(p: seq<bool>): Register
    requires |p| >= 16
    decreases |p|
  {
    if |p| == 16 then p else Remainder(Cancel(p))
  }

  function Quotient(p: seq<bool>): (q: seq<bool>)
    requires |p| >= 16
    ensures |q| == |p| - 16
    decreases |p|
  {
    if |p| == 16 then [] else [p[0]] + Quotient(Cancel(p))
  }

  lemma XorShifted(a: seq<bool>, b: seq<bool>, i: nat)
    requires |a| == |b| + 1 && i < |a|
    ensures XorBits(a, [false] + b)[i] == (a[i] != (i > 0 && b[i - 1]))
  {}

  lemma TimesStep(q: seq<bool>, i: nat)
    requires q != [] && i < |q| + 16
    ensures Times(q)[i] == ((q[0] && i < 17 && MODULUS[i]) != (i > 0 && Times(q[1..])[i - 1]))
  {
    assert Times(q) == XorBits(ShiftedModulus(q[0], |q| - 1), [false] + Times(q[1..]));
    XorShifted(ShiftedModulus(q[0], |q| - 1), Times(q[1..]), i);
  }

  lemma CancelStep(p: seq<bool>, i: nat)
    requires |p| > 16 && i < |p| - 1
    ensures Cancel(p)[i] == (p[i + 1] != (p[0] && i < 16 && MODULUS[i + 1]))
  {}

  /** Undoing a step of long division: the leading coefficient joins the quotient. */
  lemma DivisionStep(p: seq<bool>, q: seq<bool>, r: Register)
    requires |p| > 16 && |q| == |p| - 16 && q[0] == p[0]
    requires IsDivision(Cancel(p), q[1..], r)
    ensures IsDivision(p, q, r)
  {
    var p', q' := Cancel(p), q[1..];
    var back := XorBits(Times(q), Zeros(|q|) + r);
    var back' := XorBits(Times(q'), Zeros(|q'|) + r);
    forall i | 0 <= i < |p|
      ensures back[i] == p[i]
    {
      TimesStep(q, i);
      if i > 0 {
        CancelStep(p, i - 1);
        assert p'[i - 1] == back'[i - 1];
      }
    }
  }

  /** Long division is a division. */
  lemma {:induction false} LongDivision(p: seq<bool>)
    requires |p| >= 16
    ensures IsDivision(p, Quotient(p), Remainder(p))
    decreases |p|
  {
    if |p| == 16 {
      assert XorBits(Times([]), Zeros(0) + p) == p;
    } else {
      LongDivision(Cancel(p));
      DivisionStep(p, Quotient(p), Remainder(p));
    }
  }

  /** There is no other division: the remainder is determined by the dividend. */
  lemma {:induction false} RemainderUnique(p: seq<bool>, q: seq<bool>, r: Register)
    requires IsDivision(p, q, r)
    ensures q == Quotient(p) && r == Remainder(p)
    decreases |p|
  {
    hide IsDivision, Times, Cancel;
    if q == [] {
      EmptyDivision(p, r);
    } else {
      DivisionLength(p, q, r);
      DivisionBehind(p, q, r);
      RemainderUnique(Cancel(p), q[1..], r);
    }
  }

  lemma EmptyDivision(p: seq<bool>, r: Register)
    requires IsDivision(p, [], r)
    ensures p == r
  {}

  /** A division's dividend is sixteen longer than its quotient. */
  lemma DivisionLength(p: seq<bool>, q: seq<bool>, r: Register)
    requires IsDivision(p, q, r)
    ensures |p| == |q| + 16
  {}

  /** Dropping the leading coefficient of a division's quotient is a step of long division. */
  lemma DivisionBehind(p: seq<bool>, q: seq<bool>, r: Register)
    requires IsDivision(p, q, r) && q != []
    ensures p[0] == q[0] && IsDivision(Cancel(p), q[1..], r)
  {
    TimesStep(q, 0);
    assert p[0] == q[0];
    var p', q' := Cancel(p), q[1..];
    var back := XorBits(Times(q'), Zeros(|q'|) + r);
    forall i | 0 <= i < |p'|
      ensures back[i] == p'[i]
    {
      CancelStep(p, i);
      TimesStep(q, i + 1);
    }
    assert p' == back;
  }

  /** The polynomial that the register divides: message, sixteen zeros, initial value on top. */
  function Dividend(r: Register, bits: seq<bool>): (p: seq<bool>)
    ensures |p| == |bits| + 16
  {
    XorBits(r + Zeros(|bits|), bits + Zeros(16))
  }

  lemma ModulusIsGenerator(i: nat)
    requires i < 16
    ensures MODULUS[i + 1] == GENERATOR[i]
  {
    GeneratorAt(i);
  }

  /** One register step is one step of long division. */
  lemma FeedCancels(r: Register, bits: seq<bool>)
    requires bits != []
    ensures Cancel(Dividend(r, bits)) == Dividend(Shift(WithBit(r, bits[0])), bits[1..])
  {
    var p := Dividend(r, bits);
    var w := WithBit(r, bits[0]);
    var p' := Dividend(Shift(w), bits[1..]);
    forall i | 0 <= i < |p'|
      ensures Cancel(p)[i] == p'[i]
    {
      CancelStep(p, i);
      if i < 16 {
        ShiftAt(w, i);
        ModulusIsGenerator(i);
      }
    }
  }

  lemma {:induction false} FeedIsRemainder(r: Register, bits: seq<bool>)
    ensures Feed(r, bits) == Remainder(Dividend(r, bits))
    decreases |bits|
  {
    if bits == [] {
      assert Dividend(r, bits) == r;
    } else {
      FeedCancels(r, bits);
      FeedIsRemainder(Shift(WithBit(r, bits[0])), bits[1..]);
    }
  }

  /** The checksum is the remainder of the message polynomial, and the only one. */
  lemma CrcIsRemainder(message: seq<byte>, r: Register)
    ensures r == WordBits(Crc(message)) <==>
            exists q :: IsDivision(Dividend(INITIAL, Bits(message)), q, r)
  {
    var bits := Bits(message);
    CrcBits(message);
    FeedIsRemainder(INITIAL, bits);
    IsRemainderIff(Dividend(INITIAL, bits), r);
  }

  lemma IsRemainderIff(p: seq<bool>, r: Register)
    requires |p| >= 16
    ensures r == Remainder(p) <==> exists q :: IsDivision(p, q, r)
  {
    LongDivision(p);
    if exists q :: IsDivision(p, q, r) {
      var q :| IsDivision(p, q, r);
      RemainderUnique(p, q, r);
    }
  }
}
