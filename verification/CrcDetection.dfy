/** What the checksum detects.  All results hold for messages of every length: they follow
    from the linearity of the register, the injectivity of its shift and its parity.
 */
module CrcDetection {
  import opened BitWords
  import opened Bytes
  import opened Crc16

  // ---------- linearity ----------

  lemma ShiftLinear(r: Register, s: Register)
    ensures Shift(XorBits(r, s)) == XorBits(Shift(r), Shift(s))
  {
    forall i | 0 <= i < 16
      ensures Shift(XorBits(r, s))[i] == XorBits(Shift(r), Shift(s))[i]
    {
      ShiftAt(r, i);
      ShiftAt(s, i);
      ShiftAt(XorBits(r, s), i);
    }
  }

  /** Xor-linearity of the register: errors travel independently of the message. */
  lemma {:induction false} FeedLinear(r: Register, s: Register, a: seq<bool>, b: seq<bool>)
    requires |a| == |b|
    ensures Feed(XorBits(r, s), XorBits(a, b)) == XorBits(Feed(r, a), Feed(s, b))
    decreases |a|
  {
    if a != [] {
      var r', s' := WithBit(r, a[0]), WithBit(s, b[0]);
      assert WithBit(XorBits(r, s), a[0] != b[0]) == XorBits(r', s');
      ShiftLinear(r', s');
      assert XorBits(a, b)[1..] == XorBits(a[1..], b[1..]);
      FeedLinear(Shift(r'), Shift(s'), a[1..], b[1..]);
    }
  }

  // ---------- the shift loses nothing ----------

  lemma ShiftInjective(r: Register)
    ensures Shift(r) == Zeros(16) <==> r == Zeros(16)
  {
    ShiftAt(r, 15);
    GeneratorAt(15);
    if Shift(r) == Zeros(16) {
      assert !r[0];
      forall i | 0 < i < 16
        ensures !r[i]
      {
        ShiftAt(r, i - 1);
        assert !Shift(r)[i - 1];
      }
    }
    if r == Zeros(16) {
      forall i | 0 <= i < 16
        ensures !Shift(r)[i]
      {
        ShiftAt(r, i);
      }
    }
  }

  lemma {:induction false} ShiftNInjective(n: nat, r: Register)
    ensures ShiftN(n, r) == Zeros(16) <==> r == Zeros(16)
    decreases n
  {
    if n > 0 {
      ShiftInjective(r);
      ShiftNInjective(n - 1, Shift(r));
    }
  }

  lemma {:induction false} FeedZeros(r: Register, n: nat)
    ensures Feed(r, Zeros(n)) == ShiftN(n, r)
    decreases n
  {
    if n > 0 {
      assert Zeros(n)[1..] == Zeros(n - 1);
      assert WithBit(r, false) == r;
      FeedZeros(Shift(r), n - 1);
    }
  }

  lemma XorSelf(r: seq<bool>, s: seq<bool>)
    requires |r| == |s|
    ensures XorBits(r, s) == Zeros(|r|) <==> r == s
  {
    if XorBits(r, s) == Zeros(|r|) {
      assert forall i :: 0 <= i < |r| ==> XorBits(r, s)[i] == (r[i] != s[i]);
    }
    if r == s {
      assert XorBits(r, s) == Zeros(|r|);
    }
  }

  lemma XorZeros(r: seq<bool>)
    ensures XorBits(r, Zeros(|r|)) == r == XorBits(Zeros(|r|), r)
  {}

  // ---------- the transmitted codeword ----------

  function Codeword(message: seq<byte>): seq<byte> {
    message + [Low(Crc(message)), High(Crc(message))]
  }

  /** The receiver's comparison is exactly "the whole codeword leaves residue zero". */
  lemma ResidueIff(message: seq<byte>, low: byte, high: byte)
    ensures Feed(INITIAL, Bits(message + [low, high])) == Zeros(16) <==> Join(low, high) == Crc(message)
  {
    var r := Feed(INITIAL, Bits(message));
    var tail := ByteBits(low) + ByteBits(high);
    BitsConcat(message, [low, high]);
    BitsConcat([low], [high]);
    assert [low] + [high] == [low, high];
    BitsOne(low);
    BitsOne(high);
    FeedConcat(INITIAL, Bits(message), tail);
    FeedWindow(r, tail);
    assert tail + Zeros(0) == tail;
    JoinBits(low, high);
    ShiftNInjective(16, XorBits(r, tail));
    XorSelf(r, tail);
    if r == tail {
      WordBitsInjective(Join(low, high), Crc(message));
    }
  }

  /** Appending the low and then the high byte of the CRC leaves residue zero. */
  lemma ResidueOfSent(message: seq<byte>)
    ensures Feed(INITIAL, Bits(Codeword(message))) == Zeros(16)
  {
    JoinSplit(Crc(message));
    ResidueIff(message, Low(Crc(message)), High(Crc(message)));
  }

  /** The bits in which two byte sequences of one length differ. */
  function Error(a: seq<byte>, b: seq<byte>): (e: seq<bool>)
    requires |a| == |b|
    ensures |e| == 8 * |a|
  {
    XorBits(Bits(a), Bits(b))
  }

  /** The error alone decides whether a corrupted codeword still has residue zero. */
  lemma ResidueOfCorrupted(sent: seq<byte>, received: seq<byte>)
    requires |sent| == |received|
    requires Feed(INITIAL, Bits(sent)) == Zeros(16)
    ensures Feed(INITIAL, Bits(received)) == Feed(Zeros(16), Error(sent, received))
  {
    FeedLinear(INITIAL, INITIAL, Bits(sent), Bits(received));
    XorSelf(INITIAL, INITIAL);
    XorZeros(Feed(INITIAL, Bits(received)));
  }

  // ---------- bursts ----------

  /** Some bit is flipped, and all flipped bits lie within sixteen positions from p. */
  ghost predicate BurstAt(e: seq<bool>, p: nat) {
    && (forall i :: 0 <= i < |e| && e[i] ==> p <= i < p + 16)
    && (exists i :: 0 <= i < |e| && e[i])
  }

  ghost predicate Burst(e: seq<bool>) {
    exists p: nat :: BurstAt(e, p)
  }

  /** A nonzero window of at most sixteen bits, alone, leaves a nonzero register. */
  lemma WindowNonzero(bits: seq<bool>, k: nat)
    requires k < |bits| <= 16 && bits[k]
    ensures Feed(Zeros(16), bits) != Zeros(16)
  {
    var padded := bits + Zeros(16 - |bits|);
    FeedWindow(Zeros(16), bits);
    XorZeros(padded);
    assert padded[k];
    ShiftNInjective(|bits|, padded);
  }

  /** Zeros around a window change nothing about whether the register ends at zero. */
  lemma FeedSurrounded(p: nat, window: seq<bool>, q: nat)
    ensures Feed(Zeros(16), Zeros(p) + (window + Zeros(q))) == Zeros(16) <==> Feed(Zeros(16), window) == Zeros(16)
  {
    FeedConcat(Zeros(16), Zeros(p), window + Zeros(q));
    FeedZeros(Zeros(16), p);
    ShiftNInjective(p, Zeros(16));
    FeedConcat(Zeros(16), window, Zeros(q));
    FeedZeros(Feed(Zeros(16), window), q);
    ShiftNInjective(q, Feed(Zeros(16), window));
  }

  /** An error that is zero outside of [p, q) is its window between zeros. */
  lemma Surrounded(e: seq<bool>, p: nat, q: nat)
    requires p <= q <= |e|
    requires forall i :: 0 <= i < |e| && e[i] ==> p <= i < q
    ensures e == Zeros(p) + (e[p..q] + Zeros(|e| - q))
  {
    var r := Zeros(p) + (e[p..q] + Zeros(|e| - q));
    assert |r| == |e|;
    forall i | 0 <= i < |e|
      ensures r[i] == e[i]
    {}
  }

  lemma BurstNonzero(e: seq<bool>, p: nat)
    requires BurstAt(e, p)
    ensures Feed(Zeros(16), e) != Zeros(16)
  {
    hide Feed;
    var i :| 0 <= i < |e| && e[i];
    var q := if p + 16 <= |e| then p + 16 else |e|;
    assert e[p..q][i - p];
    WindowNonzero(e[p..q], i - p);
    FeedSurrounded(p, e[p..q], |e| - q);
    Surrounded(e, p, q);
  }

  // ---------- parity ----------

  lemma {:induction false} OddZeros(n: nat)
    ensures !Odd(Zeros(n))
  {
    if n > 0 {
      OddZeros(n - 1);
      assert Zeros(n)[1..] == Zeros(n - 1);
    }
  }

  lemma {:induction false} OddOnes(bits: seq<bool>)
    requires forall i :: 0 <= i < |bits| ==> bits[i]
    ensures Odd(bits) == (|bits| % 2 == 1)
  {
    if bits != [] {
      OddOnes(bits[1..]);
    }
  }

  lemma GeneratorOdd()
    ensures Odd(GENERATOR)
  {
    var tail := [true, false, true];
    forall i | 0 <= i < 16
      ensures GENERATOR[i] == (i == 0 || i == 13 || i == 15)
    {
      GeneratorAt(i);
    }
    assert GENERATOR == [true] + (Zeros(12) + tail);
    OddConcat([true], Zeros(12) + tail);
    OddConcat(Zeros(12), tail);
    OddZeros(12);
    assert tail[1..] == [false, true] && tail[1..][1..] == [true] && tail[1..][1..][1..] == [];
    assert [true][1..] == [];
  }

  lemma InitialEven()
    ensures !Odd(INITIAL)
  {
    forall i | 0 <= i < 16
      ensures INITIAL[i]
    {
      InitialAt(i);
    }
    OddOnes(INITIAL);
  }

  lemma OddStep(r: Register, b: bool)
    ensures Odd(Shift(WithBit(r, b))) == (Odd(r) != b)
  {
    var w := WithBit(r, b);
    assert w[1..] == r[1..];
    OddConcat(w[1..], [false]);
    assert [false][1..] == [];
    OddXor(w[1..] + [false], GENERATOR);
    GeneratorOdd();
  }

  /** The register's parity is the parity of everything fed to it. */
  lemma {:induction false} FeedParity(r: Register, bits: seq<bool>)
    ensures Odd(Feed(r, bits)) == (Odd(r) != Odd(bits))
    decreases |bits|
  {
    if bits != [] {
      OddStep(r, bits[0]);
      FeedParity(Shift(WithBit(r, bits[0])), bits[1..]);
    }
  }

  /** The bit parity of the CRC is the bit parity of the message. */
  lemma CrcParity(message: seq<byte>)
    ensures Odd(WordBits(Crc(message))) == Odd(Bits(message))
  {
    InitialEven();
    FeedParity(INITIAL, Bits(message));
  }

  lemma OddErrorNonzero(e: seq<bool>)
    requires Odd(e)
    ensures Feed(Zeros(16), e) != Zeros(16)
  {
    OddZeros(16);
    FeedParity(Zeros(16), e);
  }

  // ---------- the detection theorem ----------

  /** A codeword hit by one burst, or by any odd number of flipped bits, fails the receiver's test. */
  lemma CorruptionDetected(message: seq<byte>, message': seq<byte>, low: byte, high: byte)
    requires |message'| == |message|
    requires var e := Error(Codeword(message), message' + [low, high]); Burst(e) || Odd(e)
    ensures Join(low, high) != Crc(message')
  {
    var received := message' + [low, high];
    var e := Error(Codeword(message), received);
    ResidueOfSent(message);
    ResidueOfCorrupted(Codeword(message), received);
    ResidueIff(message', low, high);
    if Burst(e) {
      var p: nat :| BurstAt(e, p);
      BurstNonzero(e, p);
    } else {
      OddErrorNonzero(e);
    }
  }

  lemma {:induction false} BitsAt(bytes: seq<byte>, k: nat, i: nat)
    requires k < |bytes| && i < 8
    ensures Bits(bytes)[8 * k + i] == ByteBits(bytes[k])[i]
  {
    if k > 0 {
      BitsAt(bytes[1..], k - 1, i);
      assert bytes[1..][k - 1] == bytes[k];
    }
  }

  lemma ByteBitsInjective(a: byte, b: byte)
    requires ByteBits(a) == ByteBits(b)
    ensures a == b
  {
    WideBits(a);
    WideBits(b);
    WordBitsInjective(a as bv16, b as bv16);
  }

  /** Changing one byte, or two adjacent ones, is such a burst. */
  lemma AdjacentBytesAreBurst(sent: seq<byte>, received: seq<byte>, k: nat)
    requires |sent| == |received| && sent != received
    requires forall j :: 0 <= j < |sent| && j != k && j != k + 1 ==> sent[j] == received[j]
    ensures Burst(Error(sent, received))
  {
    var e := Error(sent, received);
    forall i | 0 <= i < |e| && e[i]
      ensures 8 * k <= i < 8 * k + 16
    {
      hide ByteBits;
      BitsAt(sent, i / 8, i % 8);
      BitsAt(received, i / 8, i % 8);
    }
    var j :| 0 <= j < |sent| && sent[j] != received[j];
    DifferentBytes(sent, received, j);
    hide ByteBits, Error;
    assert BurstAt(e, 8 * k);
  }

  /** Where two bytes differ, the error has a flipped bit. */
  lemma DifferentBytes(sent: seq<byte>, received: seq<byte>, j: nat)
    requires j < |sent| == |received| && sent[j] != received[j]
    ensures exists i :: 0 <= i < |Error(sent, received)| && Error(sent, received)[i]
  {
    var a, b := ByteBits(sent[j]), ByteBits(received[j]);
    hide ByteBits;
    if a == b {
      ByteBitsInjective(sent[j], received[j]);
    }
    var i :| 0 <= i < 8 && a[i] != b[i];
    BitsAt(sent, j, i);
    BitsAt(received, j, i);
    assert Error(sent, received)[8 * j + i];
  }
}
