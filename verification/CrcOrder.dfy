/** How far apart two flipped bits must be to go unnoticed.  The register's shift multiplies by x
    modulo x^16+x^15+x^2+1, and the smallest power of x that is one again is the 32767th.
 */
module CrcOrder {
  import opened BitWords
  import opened Bytes
  import opened Crc16
  import opened CrcDetection

  // ---------- powers of x ----------

  /** The register that stands for the polynomial one: the highest bit. */
  const ONE: bv16 := 0x8000

  function Power(n: nat): bv16 {
    ShiftedWordN(n, ONE)
  }

  lemma ShiftedWordLinear(a: bv16, b: bv16)
    ensures ShiftedWord(Sum(a, b)) == Sum(ShiftedWord(a), ShiftedWord(b))
  {
    XorHalf(a, b);
    XorLow(a, b);
    XorThree(a >> 1, b >> 1, 0xA001);
  }

  lemma XorThree(x: bv16, y: bv16, g: bv16)
    ensures (x ^ g) ^ y == (x ^ y) ^ g && x ^ (y ^ g) == (x ^ y) ^ g && (x ^ g) ^ (y ^ g) == x ^ y
  {}

  lemma ShiftedWordInjective(a: bv16, b: bv16)
    ensures ShiftedWord(a) == ShiftedWord(b) <==> a == b
  {}

  function Sum(a: bv16, b: bv16): bv16 {
    a ^ b
  }

  lemma {:induction false} ShiftedWordNLinear(n: nat, a: bv16, b: bv16)
    ensures ShiftedWordN(n, Sum(a, b)) == Sum(ShiftedWordN(n, a), ShiftedWordN(n, b))
    decreases n
  {
    if n > 0 {
      ShiftedWordLinear(a, b);
      hide ShiftedWord, Sum;
      ShiftedWordNLinear(n - 1, ShiftedWord(a), ShiftedWord(b));
    }
  }

  lemma {:induction false} ShiftedWordNInjective(n: nat, a: bv16, b: bv16)
    ensures ShiftedWordN(n, a) == ShiftedWordN(n, b) <==> a == b
    decreases n
  {
    hide ShiftedWord;
    if n > 0 {
      ShiftedWordInjective(a, b);
      ShiftedWordNInjective(n - 1, ShiftedWord(a), ShiftedWord(b));
    }
  }

  // ---------- products ----------

  /** One step of Horner's scheme: the highest bit of b is its constant coefficient. */
  function Term(a: bv16, b: bv16, rest: bv16): bv16 {
    Sum(if b & 0x8000 == 0x8000 then a else 0, ShiftedWord(rest))
  }

  function FourTerms(a: bv16, b: bv16, rest: bv16): bv16 {
    Term(a, b, Term(a, b << 1, Term(a, b << 2, Term(a, b << 3, rest))))
  }

  /** The product of two polynomials modulo the generator. */
  function Product(a: bv16, b: bv16): bv16 {
    FourTerms(a, b, FourTerms(a, b << 4, FourTerms(a, b << 8, FourTerms(a, b << 12, 0))))
  }

  /** The constant coefficient of a word. */
  function Constant(b: bv16): bv16 {
    if b & 0x8000 == 0x8000 then ONE else 0
  }

  /** A word is its constant coefficient and x times the rest. */
  lemma Horner(b: bv16, d: bv16)
    requires d == b << 1
    ensures b == Sum(Constant(b), ShiftedWord(d))
  {
    hide ShiftedWord, Sum, Constant;
    Shifted(b, d);
    TopAndRest(b, ShiftedWord(d));
  }

  lemma Shifted(b: bv16, d: bv16)
    requires d == b << 1
    ensures ShiftedWord(d) == b & 0x7FFF
  {
    assert d & 1 == 0;
    assert d >> 1 == b & 0x7FFF;
  }

  lemma TopAndRest(b: bv16, e: bv16)
    requires e == b & 0x7FFF
    ensures b == Sum(Constant(b), e)
  {
    hide Sum, Constant;
    if b & 0x8000 == 0x8000 {
      SetTop(b, e);
    } else {
      ClearTop(b, e);
    }
  }

  lemma SetTop(b: bv16, e: bv16)
    requires e == b & 0x7FFF && b & 0x8000 == 0x8000
    ensures b == Sum(Constant(b), e)
  {}

  lemma ClearTop(b: bv16, e: bv16)
    requires e == b & 0x7FFF && b & 0x8000 != 0x8000
    ensures b == Sum(Constant(b), e)
  {}

  lemma {:induction false} ShiftedZero(n: nat)
    ensures ShiftedWordN(n, 0) == 0
  {
    if n > 0 {
      ShiftedZero(n - 1);
    }
  }

  lemma ShiftedLast(n: nat, c: bv16)
    ensures ShiftedWordN(n, ShiftedWord(c)) == ShiftedWord(ShiftedWordN(n, c))
  {
    hide ShiftedWord;
    ShiftedTwice(n, 1, c);
    assert ShiftedWordN(1, ShiftedWordN(n, c)) == ShiftedWordN(0, ShiftedWord(ShiftedWordN(n, c)));
    assert ShiftedWordN(n + 1, c) == ShiftedWordN(n, ShiftedWord(c));
  }

  lemma OneTerm(m: nat, b: bv16, d: bv16)
    requires d == b << 1
    ensures ShiftedWordN(m, b) == Term(Power(m), b, ShiftedWordN(m, d))
  {
    hide ShiftedWord, ShiftedWordN, Constant, Sum;
    Horner(b, d);
    ShiftedWordNLinear(m, Constant(b), ShiftedWord(d));
    ShiftedLast(m, d);
    ConstantShifted(m, b);
  }

  lemma ConstantShifted(m: nat, b: bv16)
    ensures ShiftedWordN(m, Constant(b)) == if b & 0x8000 == 0x8000 then Power(m) else 0
  {
    hide ShiftedWordN;
    ShiftedZero(m);
  }

  lemma FourMoreTerms(m: nat, b: bv16)
    ensures ShiftedWordN(m, b) == FourTerms(Power(m), b, ShiftedWordN(m, b << 4))
  {
    hide Term, ShiftedWordN, Power;
    ShiftsByOne(b);
    TermsAtShifts(m, b, b << 1, b << 2, b << 3, b << 4);
  }

  lemma TermsAtShifts(m: nat, b: bv16, b1: bv16, b2: bv16, b3: bv16, b4: bv16)
    requires b1 == b << 1 && b2 == b1 << 1 && b3 == b2 << 1 && b4 == b3 << 1
    ensures ShiftedWordN(m, b)
         == Term(Power(m), b, Term(Power(m), b1, Term(Power(m), b2, Term(Power(m), b3, ShiftedWordN(m, b4)))))
  {
    hide Term, ShiftedWordN, Power;
    OneTerm(m, b, b1);
    OneTerm(m, b1, b2);
    OneTerm(m, b2, b3);
    OneTerm(m, b3, b4);
  }

  lemma ShiftsByOne(b: bv16)
    ensures (b << 1) << 1 == b << 2 && (b << 2) << 1 == b << 3 && (b << 3) << 1 == b << 4
  {}

  lemma ShiftsByFour(b: bv16)
    ensures (b << 4) << 4 == b << 8 && (b << 8) << 4 == b << 12 && (b << 12) << 4 == 0
  {}

  /** Shifting m times is multiplying by the m-th power. */
  lemma ShiftsAreProduct(m: nat, b: bv16)
    ensures ShiftedWordN(m, b) == Product(Power(m), b)
  {
    hide FourTerms, ShiftedWordN, Power;
    FourMoreTerms(m, b);
    FourMoreTerms(m, b << 4);
    FourMoreTerms(m, b << 8);
    FourMoreTerms(m, b << 12);
    ShiftsByFour(b);
    ShiftedZero(m);
  }

  lemma Multiplied(m: nat, n: nat, a: bv16, b: bv16, c: bv16)
    requires Power(m) == a && Power(n) == b && Product(a, b) == c
    ensures Power(m + n) == c
  {
    hide Product, ShiftedWordN;
    ShiftedTwice(n, m, ONE);
    ShiftsAreProduct(m, Power(n));
  }

  // ---------- the order of x ----------

  const ORDER: nat := 32767

  /** Powers by repeated squaring. */
  lemma Squares()
    ensures Power(1) == 0x4000
    ensures Power(2) == 0x2000
    ensures Power(4) == 0x0800
    ensures Power(8) == 0x0080
    ensures Power(16) == 0xA001
    ensures Power(32) == 0xE801
    ensures Power(64) == 0xC881
    ensures Power(128) == 0x6080
    ensures Power(512) == 0xE081
    ensures Power(1024) == 0x6800
    ensures Power(4096) == 0xA881
    ensures Power(32768) == Power(1)
  {
    assert Power(1) == ShiftedWordN(0, ShiftedWord(ONE));
    hide Power;
    Multiplied(1, 1, 0x4000, 0x4000, 0x2000);
    Multiplied(2, 2, 0x2000, 0x2000, 0x0800);
    Multiplied(4, 4, 0x0800, 0x0800, 0x0080);
    Multiplied(8, 8, 0x0080, 0x0080, 0xA001);
    Multiplied(16, 16, 0xA001, 0xA001, 0xE801);
    Multiplied(32, 32, 0xE801, 0xE801, 0xC881);
    Multiplied(64, 64, 0xC881, 0xC881, 0x6080);
    Multiplied(128, 128, 0x6080, 0x6080, 0x8801);
    Multiplied(256, 256, 0x8801, 0x8801, 0xE081);
    Multiplied(512, 512, 0xE081, 0xE081, 0x6800);
    Multiplied(1024, 1024, 0x6800, 0x6800, 0x2880);
    Multiplied(2048, 2048, 0x2880, 0x2880, 0xA881);
    Multiplied(4096, 4096, 0xA881, 0xA881, 0x4880);
    Multiplied(8192, 8192, 0x4880, 0x4880, 0x8081);
    Multiplied(16384, 16384, 0x8081, 0x8081, 0x4000);
  }

  lemma OrderPower()
    ensures Power(ORDER) == ONE
  {
    hide Power;
    Squares();
    NextPower(0);
    NextPower(ORDER);
    ShiftedWordInjective(Power(ORDER), Power(0));
    ZerothPower();
  }

  lemma NextPower(n: nat)
    ensures Power(n + 1) == ShiftedWord(Power(n))
  {
    hide ShiftedWord;
    ShiftedLast(n, ONE);
  }

  lemma ZerothPower()
    ensures Power(0) == ONE
  {}

  /** None of the largest proper divisors will do. */
  lemma NoSmallerPower()
    ensures Power(217) != ONE && Power(1057) != ONE && Power(4681) != ONE
  {
    hide Power;
    Squares();
    Multiplied(128, 64, 0x6080, 0xC881, 0x6668);
    Multiplied(192, 16, 0x6668, 0xA001, 0xEAAF);
    Multiplied(208, 8, 0xEAAF, 0x0080, 0x7CAA);
    Multiplied(216, 1, 0x7CAA, 0x4000, 0x3E55);
    Multiplied(1024, 32, 0x6800, 0xE801, 0xDC81);
    Multiplied(1056, 1, 0xDC81, 0x4000, 0xCE41);
    Multiplied(4096, 512, 0xA881, 0xE081, 0x7A48);
    Multiplied(4608, 64, 0x7A48, 0xC881, 0x51DE);
    Multiplied(4672, 8, 0x51DE, 0x0080, 0x58D1);
    Multiplied(4680, 1, 0x58D1, 0x4000, 0x8C69);
  }

  /** Powers repeat with every exponent whose power is one. */
  lemma {:induction false} Repeats(k: nat, d: nat, q: nat, r: nat)
    requires Power(d) == ONE && k == q * d + r
    ensures Power(k) == Power(r)
    decreases q
  {
    hide Power;
    if q > 0 {
      assert k - d == (q - 1) * d + r >= 0;
      AfterPeriod(d, k - d);
      Repeats(k - d, d, q - 1, r);
    }
  }

  lemma AfterPeriod(d: nat, k: nat)
    requires Power(d) == ONE
    ensures Power(k + d) == Power(k)
  {
    hide ShiftedWordN;
    ShiftedTwice(d, k, ONE);
  }

  /** The least positive exponent whose power is one. */
  lemma {:induction false} LeastPeriod(k: nat) returns (d: nat)
    requires k > 0 && Power(k) == ONE
    ensures 0 < d <= k && Power(d) == ONE
    ensures forall j: nat :: 0 < j < d ==> Power(j) != ONE
  {
    hide Power;
    if j: nat :| 0 < j < k && Power(j) == ONE {
      d := LeastPeriod(j);
    } else {
      d := k;
    }
  }

  /** The prime factors of the order. */
  predicate Factor(p: int) {
    p == 7 || p == 31 || p == 151
  }

  lemma IsPrime(p: int, q: int, i: int)
    requires Factor(p) && 0 < i < p && q * i == p
    ensures i == 1
  {
    SmallFactor(q, i);
    NotBetween(p, q, i);
    NotBetween(p, i, q);
  }

  lemma SmallFactor(q: int, i: int)
    requires 0 < i && q * i <= 151
    ensures q <= 12 || i <= 12
  {
    ProductAtLeast(q, i);
  }

  lemma ProductAtLeast(q: int, i: int)
    ensures q >= 13 && i >= 13 ==> q * i >= 13 * 13
  {}

  lemma NotBetween(p: int, q: int, i: int)
    requires Factor(p) && q * i == p
    ensures i < 2 || 12 < i || i == p
  {}

  /** A prime that divides i j, with i below it, divides j. */
  lemma {:induction false} Euclid(p: int, i: int, j: int, t: int) returns (s: int)
    requires Factor(p) && 0 < i < p && i * j == p * t
    ensures j == p * s
    decreases i
  {
    if i == 1 {
      s := t;
    } else {
      var q, r := p / i, p % i;
      Descent(p, q, r, i, j, t);
      if r == 0 {
        IsPrime(p, q, i);
      }
      s := Euclid(p, r, j, j - q * t);
    }
  }

  lemma Descent(p: int, q: int, r: int, i: int, j: int, t: int)
    requires p == q * i + r && i * j == p * t
    ensures r * j == p * (j - q * t)
  {
    assert p * j == q * (i * j) + r * j;
    assert p * (j - q * t) == p * j - q * (p * t);
  }

  /** A prime that divides a product divides a factor. */
  lemma DividesFactor(p: int, m: int, d: int, n: int) returns (first: bool, s: int)
    requires Factor(p) && m * d == p * n
    ensures if first then m == p * s else d == p * s
  {
    var a, i := m / p, m % p;
    if i == 0 {
      first, s := true, a;
    } else {
      Rest(p, a, i, m, d, n);
      s := Euclid(p, i, d, n - a * d);
      first := false;
    }
  }

  lemma Rest(p: int, a: int, i: int, m: int, d: int, n: int)
    requires m == p * a + i && m * d == p * n
    ensures i * d == p * (n - a * d)
  {
    assert m * d == p * (a * d) + i * d;
    assert p * (n - a * d) == p * n - p * (a * d);
  }

  lemma Cancel(p: int, s: int, d: int, n: int)
    requires p > 0 && (p * s) * d == p * n
    ensures s * d == n
  {
    assert p * (s * d - n) == 0;
  }

  /** A proper divisor of the order divides one of the three largest. */
  lemma ProperDivisor(d: int, m: int) returns (n: nat, e: int)
    requires m * d == ORDER && 0 < d < ORDER
    ensures n == e * d && (n == 217 || n == 1057 || n == 4681)
  {
    var first, s := DividesFactor(7, m, d, 4681);
    if first {
      Cancel(7, s, d, 4681);
      n, e := 4681, s;
    } else {
      Cancel(7, s, m, 4681);
      var second, u := DividesFactor(31, m, s, 151);
      if second {
        Cancel(31, u, s, 151);
        n, e := 1057, u;
      } else {
        Cancel(31, u, m, 151);
        LastFactor(u, m);
        n, e := 217, 1;
      }
    }
  }

  lemma LastFactor(u: int, m: int)
    requires u * m == 151 && 0 < u < 151
    ensures u == 1
  {
    IsPrime(151, m, u);
  }

  /** The powers of x that are one are exactly those of the multiples of 32767. */
  lemma PowerIsOneIff(k: nat)
    ensures Power(k) == ONE <==> k % ORDER == 0
  {
    hide Power;
    OrderPower();
    ZerothPower();
    Repeats(k, ORDER, k / ORDER, k % ORDER);
    if k % ORDER != 0 {
      NoneBelow(k % ORDER);
    }
  }

  lemma NoneBelow(k: nat)
    requires 0 < k < ORDER
    ensures Power(k) != ONE
  {
    hide Power;
    if Power(k) == ONE {
      var d := LeastPeriod(k);
      OrderPower();
      ZerothPower();
      var m, r := ORDER / d, ORDER % d;
      Repeats(ORDER, d, m, r);
      var n, e := ProperDivisor(d, m);
      NoSmallerPower();
      Repeats(n, d, e, 0);
    }
  }

  // ---------- two flipped bits ----------

  /** The bit where a message enters the register stands for the fifteenth power. */
  lemma EntryPower()
    ensures Power(15) == 1
  {
    hide Power;
    Squares();
    Multiplied(8, 4, 0x0080, 0x0800, 0x0008);
    Multiplied(12, 2, 0x0008, 0x2000, 0x0002);
    Multiplied(14, 1, 0x0002, 0x4000, 0x0001);
  }

  lemma EntryBit()
    ensures WithBit(Zeros(16), true) == WordBits(1)
  {
    forall i | 0 <= i < 16
      ensures WordBits(1)[i] == (i == 0)
    {
      WordNibbleAt(1, i);
    }
  }

  lemma EntryReturnsIff(k: nat)
    ensures ShiftedWordN(k, 1) == 1 <==> k % ORDER == 0
  {
    hide ShiftedWordN;
    EntryPower();
    ShiftedTwice(15, k, ONE);
    ShiftedTwice(k, 15, ONE);
    ShiftedWordNInjective(15, Power(k), ONE);
    PowerIsOneIff(k);
  }

  /** Two flips k places apart, and nothing between them. */
  function Flipped(k: nat): seq<bool>
    requires k > 0
  {
    [true] + (Zeros(k - 1) + [true])
  }

  lemma FeedOne(r: Register, b: bool)
    ensures Feed(r, [b]) == Shift(WithBit(r, b))
  {
    assert [b][1..] == [];
    assert Feed(r, [b]) == Feed(Shift(WithBit(r, b)), []);
  }

  lemma FeedFlipped(k: nat)
    requires k > 0
    ensures Feed(Zeros(16), Flipped(k)) == Shift(XorBits(WordBits(ShiftedWordN(k, 1)), WordBits(1)))
  {
    hide Feed, Shift, ShiftedWordN, WordBits;
    var first := Shift(WithBit(Zeros(16), true));
    FeedConcat(Zeros(16), [true], Zeros(k - 1) + [true]);
    FeedOne(Zeros(16), true);
    FeedConcat(first, Zeros(k - 1), [true]);
    FeedZeros(first, k - 1);
    EntryBit();
    assert ShiftN(k, WordBits(1)) == ShiftN(k - 1, Shift(WordBits(1)));
    ShiftedWordNIs(k, 1);
    var r := WordBits(ShiftedWordN(k, 1));
    FeedOne(r, true);
    FlippedEntry(r);
  }

  lemma FlippedEntry(r: Register)
    ensures WithBit(r, true) == XorBits(r, WithBit(Zeros(16), true))
  {}

  lemma FlippedIff(k: nat)
    requires k > 0
    ensures Feed(Zeros(16), Flipped(k)) == Zeros(16) <==> k % ORDER == 0
  {
    hide Feed, Shift, ShiftedWordN, WordBits, Flipped;
    var c := ShiftedWordN(k, 1);
    FeedFlipped(k);
    ShiftInjective(XorBits(WordBits(c), WordBits(1)));
    XorSelf(WordBits(c), WordBits(1));
    if WordBits(c) == WordBits(1) {
      WordBitsInjective(c, 1);
    }
    EntryReturnsIff(k);
  }

  /** An error of exactly two bits. */
  ghost predicate TwoFlips(e: seq<bool>, i: nat, j: nat) {
    i < j < |e| && forall k :: 0 <= k < |e| ==> (e[k] <==> k == i || k == j)
  }

  /** It goes unnoticed exactly when the bits are a multiple of 32767 apart. */
  lemma TwoFlipsVanishIff(e: seq<bool>, i: nat, j: nat)
    requires TwoFlips(e, i, j)
    ensures Feed(Zeros(16), e) == Zeros(16) <==> (j - i) % ORDER == 0
  {
    hide Feed;
    Surrounded(e, i, j + 1);
    FeedSurrounded(i, e[i..j + 1], |e| - (j + 1));
    assert e[i..j + 1] == Flipped(j - i);
    FlippedIff(j - i);
  }

  // ---------- up to three flipped bits ----------

  /** How many bits are flipped. */
  function Flips(e: seq<bool>): nat {
    if e == [] then 0 else (if e[0] then 1 else 0) + Flips(e[1..])
  }

  lemma {:induction false} FlipsParity(e: seq<bool>)
    ensures Odd(e) <==> Flips(e) % 2 == 1
  {
    if e != [] {
      FlipsParity(e[1..]);
    }
  }

  lemma {:induction false} NoFlip(e: seq<bool>)
    requires Flips(e) == 0
    ensures forall k :: 0 <= k < |e| ==> !e[k]
  {
    if e != [] {
      NoFlip(e[1..]);
      assert forall k :: 1 <= k < |e| ==> e[k] == e[1..][k - 1];
    }
  }

  lemma {:induction false} OneFlip(e: seq<bool>) returns (i: nat)
    requires Flips(e) == 1
    ensures i < |e| && forall k :: 0 <= k < |e| ==> (e[k] <==> k == i)
  {
    assert forall k :: 1 <= k < |e| ==> e[k] == e[1..][k - 1];
    if e[0] {
      NoFlip(e[1..]);
      i := 0;
    } else {
      i := OneFlip(e[1..]);
      i := i + 1;
    }
  }

  lemma {:induction false} WhichTwo(e: seq<bool>) returns (i: nat, j: nat)
    requires Flips(e) == 2
    ensures TwoFlips(e, i, j)
  {
    assert forall k :: 1 <= k < |e| ==> e[k] == e[1..][k - 1];
    if e[0] {
      j := OneFlip(e[1..]);
      i, j := 0, j + 1;
    } else {
      i, j := WhichTwo(e[1..]);
      i, j := i + 1, j + 1;
    }
  }

  lemma FewFlipsNonzero(e: seq<bool>)
    requires 1 <= Flips(e) <= 3 && |e| <= ORDER
    ensures Feed(Zeros(16), e) != Zeros(16)
  {
    hide Feed, Odd, Flips, TwoFlips;
    FlipsParity(e);
    if Flips(e) == 2 {
      var i, j := WhichTwo(e);
      Ordered(e, i, j);
      TwoFlipsVanishIff(e, i, j);
    } else {
      OddErrorNonzero(e);
    }
  }

  /** Whether a corrupted codeword is taken for a good one depends on the error alone. */
  lemma MissedIff(message: seq<byte>, message': seq<byte>, low: byte, high: byte)
    requires |message'| == |message|
    ensures Join(low, high) == Crc(message')
       <==> Feed(Zeros(16), Error(Codeword(message), message' + [low, high])) == Zeros(16)
  {
    hide Feed, Crc, Join, Codeword, Error;
    CodewordLength(message);
    ResidueOfSent(message);
    ResidueOfCorrupted(Codeword(message), message' + [low, high]);
    ResidueIff(message', low, high);
  }

  lemma CodewordLength(message: seq<byte>)
    ensures |Codeword(message)| == |message| + 2
  {}

  /** In a codeword of at most 4095 bytes any one, two or three flipped bits fail the receiver's
      test, wherever they are.
   */
  lemma FewFlipsDetected(message: seq<byte>, message': seq<byte>, low: byte, high: byte)
    requires |message'| == |message| <= 4093
    requires 1 <= Flips(Error(Codeword(message), message' + [low, high])) <= 3
    ensures Join(low, high) != Crc(message')
  {
    hide Feed, Crc, Join, Codeword, Flips;
    CodewordLength(message);
    MissedIff(message, message', low, high);
    FewFlipsNonzero(Error(Codeword(message), message' + [low, high]));
  }

  /** All that is detected in such a codeword, whatever changed. */
  lemma ShortCorruptionDetected(message: seq<byte>, message': seq<byte>, low: byte, high: byte)
    requires |message'| == |message| <= 4093
    requires var e := Error(Codeword(message), message' + [low, high]); Burst(e) || Odd(e) || Flips(e) == 2
    ensures Join(low, high) != Crc(message')
  {
    if Flips(Error(Codeword(message), message' + [low, high])) == 2 {
      FewFlipsDetected(message, message', low, high);
    } else {
      CorruptionDetected(message, message', low, high);
    }
  }

  /** So two codewords of one such length differ in an even number of bits, at least four, and not
      within sixteen.
   */
  lemma CodewordsFarApart(a: seq<byte>, b: seq<byte>)
    requires |a| == |b| <= 4093
    ensures |Codeword(a)| == |Codeword(b)|
    ensures var e := Error(Codeword(a), Codeword(b));
            !Burst(e) && !Odd(e) && Flips(e) != 2 && (a != b ==> Flips(e) >= 4)
  {
    hide Crc, Join, Low, High, Error, Burst, Odd, Flips;
    var e := Error(Codeword(a), Codeword(b));
    JoinSplit(Crc(b));
    FlipsParity(e);
    if Burst(e) || Odd(e) || Flips(e) == 2 {
      ShortCorruptionDetected(a, b, Low(Crc(b)), High(Crc(b)));
    } else if Flips(e) == 0 {
      SameWhereNoFlip(a, b);
    }
  }

  lemma SameWhereNoFlip(a: seq<byte>, b: seq<byte>)
    requires |a| == |b| && Flips(Error(Codeword(a), Codeword(b))) == 0
    ensures a == b
  {
    var e := Error(Codeword(a), Codeword(b));
    NoFlip(e);
    hide Error, Flips, Crc, Low, High;
    if j: nat :| j < |a| && a[j] != b[j] {
      DifferentBytes(Codeword(a), Codeword(b), j);
    }
  }

  /** In a codeword of any length two flipped bits are missed if and only if they are a multiple of
      32767 apart.
   */
  lemma TwoFlipsMissedIff(message: seq<byte>, message': seq<byte>, low: byte, high: byte, i: nat, j: nat)
    requires |message'| == |message|
    requires TwoFlips(Error(Codeword(message), message' + [low, high]), i, j)
    ensures i < j && (Join(low, high) == Crc(message') <==> (j - i) % ORDER == 0)
  {
    hide Feed, Crc, Join, Codeword, Error, TwoFlips;
    CodewordLength(message);
    var e := Error(Codeword(message), message' + [low, high]);
    Ordered(e, i, j);
    MissedIff(message, message', low, high);
    TwoFlipsVanishIff(e, i, j);
  }

  lemma Ordered(e: seq<bool>, i: nat, j: nat)
    requires TwoFlips(e, i, j)
    ensures i < j < |e|
  {}
}
