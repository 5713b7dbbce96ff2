/** Sequences of bits, and the bits of the program's bytes and 16-bit words.

    The checksum is computed on machine words but reasoned about on sequences of bits, lowest
    bit first; this module connects the two.
 */
module BitWords {
  import opened Bytes

  // ---------- sequences of bits ----------

  function Zeros(n: nat): (r: seq<bool>)
    ensures |r| == n && forall i :: 0 <= i < n ==> !r[i]
  {
    seq(n, _ => false)
  }

  function XorBits(a: seq<bool>, b: seq<bool>): (r: seq<bool>)
    requires |a| == |b|
    ensures |r| == |a| && forall i :: 0 <= i < |a| ==> r[i] == (a[i] != b[i])
  {
    seq(|a|, i requires 0 <= i < |a| => a[i] != b[i])
  }

  /** Whether an odd number of the bits are set. */
  function Odd(bits: seq<bool>): bool {
    bits != [] && bits[0] != Odd(bits[1..])
  }

  lemma {:induction false} OddXor(a: seq<bool>, b: seq<bool>)
    requires |a| == |b|
    ensures Odd(XorBits(a, b)) == (Odd(a) != Odd(b))
  {
    if a != [] {
      OddXor(a[1..], b[1..]);
      assert XorBits(a, b)[1..] == XorBits(a[1..], b[1..]);
    }
  }

  lemma {:induction false} OddConcat(a: seq<bool>, b: seq<bool>)
    ensures Odd(a + b) == (Odd(a) != Odd(b))
  {
    if a == [] {
      assert a + b == b;
    } else {
      OddConcat(a[1..], b);
      assert (a + b)[1..] == a[1..] + b;
    }
  }

  // ---------- bits of a word ----------

  /** Bit i of a word, the lowest being bit 0. */
  function BitAt(c: bv16, i: nat): bool
    decreases i
  {
    if i == 0 then c & 1 == 1 else BitAt(c >> 1, i - 1)
  }

  type Register = r: seq<bool> | |r| == 16 witness Zeros(16)

  function WordBits(c: bv16): (r: Register)
    ensures forall i :: 0 <= i < 16 ==> r[i] == BitAt(c, i)
  {
    seq(16, i requires 0 <= i < 16 => BitAt(c, i))
  }

  /** The bits of a byte in transmission order, least significant first. */
  function ByteBits(b: byte): (r: seq<bool>)
    ensures |r| == 8 && forall i :: 0 <= i < 8 ==> r[i] == BitAt(b as bv16, i)
  {
    WordBits(b as bv16)[..8]
  }

  function Bits(bytes: seq<byte>): (bits: seq<bool>)
    ensures |bits| == 8 * |bytes|
  {
    if bytes == [] then [] else ByteBits(bytes[0]) + Bits(bytes[1..])
  }

  lemma {:induction false} BitsConcat(a: seq<byte>, b: seq<byte>)
    ensures Bits(a + b) == Bits(a) + Bits(b)
  {
    if a == [] {
      assert a + b == b;
    } else {
      assert (a + b)[0] == a[0] && (a + b)[1..] == a[1..] + b;
      BitsConcat(a[1..], b);
      assert ByteBits(a[0]) + (Bits(a[1..]) + Bits(b)) == (ByteBits(a[0]) + Bits(a[1..])) + Bits(b);
    }
  }

  lemma BitsOne(b: byte)
    ensures Bits([b]) == ByteBits(b)
  {
    assert [b][1..] == [];
  }

  lemma XorHalf(a: bv16, b: bv16)
    ensures (a ^ b) >> 1 == (a >> 1) ^ (b >> 1)
  {}

  lemma XorLow(a: bv16, b: bv16)
    ensures ((a ^ b) & 1 == 1) == ((a & 1 == 1) != (b & 1 == 1))
  {}

  lemma {:induction false} XorAt(a: bv16, b: bv16, x: bv16, i: nat)
    requires x == a ^ b
    ensures BitAt(x, i) == (BitAt(a, i) != BitAt(b, i))
    decreases i
  {
    if i == 0 {
      XorLow(a, b);
    } else {
      XorHalf(a, b);
      hide BitAt;
      XorAt(a >> 1, b >> 1, x >> 1, i - 1);
      BitAtHalf(a, i - 1);
      BitAtHalf(b, i - 1);
      BitAtHalf(x, i - 1);
    }
  }

  lemma WordBitsXor(a: bv16, b: bv16)
    ensures WordBits(a ^ b) == XorBits(WordBits(a), WordBits(b))
  {
    var x, y, z := WordBits(a ^ b), WordBits(a), WordBits(b);
    forall i | 0 <= i < 16
      ensures x[i] == (y[i] != z[i])
    {
      XorAt(a, b, a ^ b, i);
    }
  }

  lemma {:induction false} ZeroAt(i: nat)
    ensures !BitAt(0, i)
  {
    if i > 0 {
      ZeroAt(i - 1);
    }
  }

  // ---------- shifting by a byte ----------

  lemma Halves(c: bv16)
    ensures (c >> 1) >> 1 == c >> 2
    ensures (c >> 2) >> 2 == c >> 4
    ensures (c >> 4) >> 4 == c >> 8
    ensures (c >> 8) >> 8 == 0
    ensures (c >> 1) >> 8 == (c >> 8) >> 1
  {}

  lemma BitAtHalf(c: bv16, i: nat)
    ensures BitAt(c, i + 1) == BitAt(c >> 1, i)
  {}

  lemma BitAtQuarter(c: bv16, i: nat)
    ensures BitAt(c, i + 2) == BitAt(c >> 2, i)
  {
    BitAtHalf(c, i + 1);
    BitAtHalf(c >> 1, i);
    Halves(c);
  }

  lemma BitAtNibble(c: bv16, i: nat)
    ensures BitAt(c, i + 4) == BitAt(c >> 4, i)
  {
    BitAtQuarter(c, i + 2);
    BitAtQuarter(c >> 2, i);
    Halves(c);
  }

  /** Bits eight places further up are the bits of the word shifted by eight. */
  lemma BitAtByte(c: bv16, i: nat)
    ensures BitAt(c, i + 8) == BitAt(c >> 8, i)
  {
    BitAtNibble(c, i + 4);
    BitAtNibble(c >> 4, i);
    Halves(c);
  }

  lemma NibbleAt(c: bv16, i: nat)
    requires i < 4
    ensures BitAt(c, i) ==
      (if i == 0 then c & 1 == 1 else if i == 1 then c & 2 == 2 else if i == 2 then c & 4 == 4 else c & 8 == 8)
  {
    NibbleMasks(c);
    if i == 1 {
      BitAtHalf(c, 0);
    } else if i == 2 {
      BitAtQuarter(c, 0);
    } else if i == 3 {
      BitAtQuarter(c, 1);
      BitAtHalf(c >> 2, 0);
    }
  }

  lemma NibbleMasks(c: bv16)
    ensures ((c >> 1) & 1 == 1) == (c & 2 == 2)
    ensures ((c >> 2) & 1 == 1) == (c & 4 == 4)
    ensures (((c >> 2) >> 1) & 1 == 1) == (c & 8 == 8)
  {}

  /** Bit i of a word is found in its nibble. */
  lemma WordNibbleAt(c: bv16, i: nat)
    requires i < 16
    ensures var d := if i < 4 then c else if i < 8 then c >> 4 else if i < 12 then c >> 8 else c >> 12;
            var j := i % 4;
            BitAt(c, i) ==
            (if j == 0 then d & 1 == 1 else if j == 1 then d & 2 == 2 else if j == 2 then d & 4 == 4 else d & 8 == 8)
  {
    if i < 4 {
      NibbleAt(c, i);
    } else if i < 8 {
      BitAtNibble(c, i - 4);
      NibbleAt(c >> 4, i - 4);
    } else {
      BitAtByte(c, i - 8);
      if i < 12 {
        NibbleAt(c >> 8, i - 8);
      } else {
        BitAtNibble(c >> 8, i - 12);
        assert (c >> 8) >> 4 == c >> 12;
        NibbleAt(c >> 12, i - 12);
      }
    }
  }

  lemma HalfTop(c: bv16)
    ensures !BitAt(c >> 1, 15)
  {
    BitAtHalf(c, 15);
    BitAtByte(c, 8);
    BitAtByte(c >> 8, 0);
    Halves(c);
    ZeroAt(0);
  }

  lemma HalfBits(c: bv16)
    ensures WordBits(c >> 1) == WordBits(c)[1..] + [false]
  {
    var h, w := WordBits(c >> 1), WordBits(c);
    HalfTop(c);
    forall i | 0 <= i < 16
      ensures h[i] == (w[1..] + [false])[i]
    {
      BitAtHalf(c, i);
    }
  }

  // ---------- two bytes in a word ----------

  function Low(c: bv16): byte { (c & 0xFF) as byte }

  function High(c: bv16): byte { ((c >> 8) & 0xFF) as byte }

  function Join(low: byte, high: byte): bv16 { (low as bv16) | ((high as bv16) << 8) }

  lemma JoinSplit(c: bv16)
    ensures Join(Low(c), High(c)) == c
  {}

  lemma SplitJoin(low: byte, high: byte)
    ensures Low(Join(low, high)) == low && High(Join(low, high)) == high
  {}

  lemma JoinParts(low: byte, high: byte)
    ensures Join(low, high) == (low as bv16) ^ ((high as bv16) << 8)
    ensures Join(low, high) >> 8 == high as bv16
    ensures (low as bv16) >> 8 == 0
  {}

  lemma RaisedNibbles(h: bv16)
    requires h & 0xFF00 == 0
    ensures (h << 8) & 0xF == 0 && ((h << 8) >> 4) & 0xF == 0
  {}

  /** A byte moved to the upper half leaves the lower half clear. */
  lemma RaisedAt(high: byte, i: nat)
    requires i < 8
    ensures !BitAt((high as bv16) << 8, i)
  {
    var h := high as bv16;
    RaisedNibbles(h);
    ClearNibbleAt(h << 8, i);
  }

  lemma ClearNibbleAt(c: bv16, i: nat)
    requires i < 8 && c & 0xF == 0 && (c >> 4) & 0xF == 0
    ensures !BitAt(c, i)
  {
    WordNibbleAt(c, i);
  }

  lemma JoinAt(low: byte, high: byte, i: nat)
    requires i < 8
    ensures BitAt(Join(low, high), i) == BitAt(low as bv16, i)
    ensures BitAt(Join(low, high), i + 8) == BitAt(high as bv16, i)
  {
    JoinParts(low, high);
    XorAt(low as bv16, (high as bv16) << 8, Join(low, high), i);
    RaisedAt(high, i);
    BitAtByte(Join(low, high), i);
  }

  lemma JoinBits(low: byte, high: byte)
    ensures WordBits(Join(low, high)) == ByteBits(low) + ByteBits(high)
  {
    var w, l, h := WordBits(Join(low, high)), ByteBits(low), ByteBits(high);
    forall i | 0 <= i < 16
      ensures w[i] == (l + h)[i]
    {
      JoinAt(low, high, if i < 8 then i else i - 8);
    }
  }

  lemma WideBits(b: byte)
    ensures WordBits(b as bv16) == ByteBits(b) + Zeros(8)
  {
    var w := WordBits(b as bv16);
    JoinParts(b, b);
    forall i | 8 <= i < 16
      ensures !w[i]
    {
      BitAtByte(b as bv16, i - 8);
      ZeroAt(i - 8);
    }
  }

  // ---------- a word is determined by its bits ----------

  /** What is left of the word after n shifts. */
  function Rest(c: bv16, n: nat): bv16
    decreases n
  {
    if n == 0 then c else Rest(c >> 1, n - 1)
  }

  lemma HalfZero(c: bv16)
    requires c >> 1 == 0 && c & 1 != 1
    ensures c == 0
  {}

  lemma {:induction false} ClearWord(c: bv16, n: nat)
    requires Rest(c, n) == 0
    requires forall i :: 0 <= i < n ==> !BitAt(c, i)
    ensures c == 0
    decreases n
  {
    if n > 0 {
      var h := c >> 1;
      forall i | 0 <= i < n - 1
        ensures !BitAt(h, i)
      {
        BitAtHalf(c, i);
      }
      ClearWord(h, n - 1);
      assert !BitAt(c, 0);
      HalfZero(c);
    }
  }

  lemma RestQuarter(c: bv16, n: nat)
    ensures Rest(c, n + 2) == Rest(c >> 2, n)
  {
    Halves(c);
    assert Rest(c, n + 2) == Rest(c >> 1, n + 1);
  }

  lemma RestByte(c: bv16, n: nat)
    ensures Rest(c, n + 8) == Rest(c >> 8, n)
  {
    RestQuarter(c, n + 6);
    RestQuarter(c >> 2, n + 4);
    Halves(c);
    RestQuarter(c >> 4, n + 2);
    RestQuarter((c >> 4) >> 2, n);
    Halves(c >> 4);
  }

  lemma WordBitsInjective(a: bv16, b: bv16)
    requires WordBits(a) == WordBits(b)
    ensures a == b
  {
    var x := WordBits(a ^ b);
    WordBitsXor(a, b);
    assert forall i :: 0 <= i < 16 ==> !x[i] && x[i] == BitAt(a ^ b, i);
    RestByte(a ^ b, 8);
    RestByte((a ^ b) >> 8, 0);
    Halves(a ^ b);
    ClearWord(a ^ b, 16);
    XorEqual(a, b);
  }

  lemma XorEqual(a: bv16, b: bv16)
    ensures a ^ b == 0 <==> a == b
  {}

  // ---------- the word with given bits ----------

  lemma TopAt(i: nat)
    requires i < 16
    ensures BitAt(0x8000, i) == (i == 15)
  {
    WordNibbleAt(0x8000, i);
  }

  /** Moving a bit in from the top. */
  function PushTop(c: bv16, b: bool): bv16 {
    (c >> 1) ^ (if b then 0x8000 else 0)
  }

  lemma PushTopAt(c: bv16, b: bool, i: nat)
    requires i < 16
    ensures BitAt(PushTop(c, b), i) == if i == 15 then b else BitAt(c, i + 1)
  {
    XorAt(c >> 1, if b then 0x8000 else 0, PushTop(c, b), i);
    TopAt(i);
    ZeroAt(i);
    HalfTop(c);
    BitAtHalf(c, i);
  }

  /** The word whose n highest bits are the register's n lowest. */
  function WordFrom(r: Register, n: nat): (c: bv16)
    requires n <= 16
    ensures forall i :: 16 - n <= i < 16 ==> BitAt(c, i) == r[i - (16 - n)]
  {
    if n == 0 then 0
    else
      var c := WordFrom(r, n - 1);
      PushTopAll(c, r[n - 1]);
      PushTop(c, r[n - 1])
  }

  lemma PushTopAll(c: bv16, b: bool)
    ensures forall i :: 0 <= i < 16 ==> BitAt(PushTop(c, b), i) == if i == 15 then b else BitAt(c, i + 1)
  {
    forall i | 0 <= i < 16
      ensures BitAt(PushTop(c, b), i) == if i == 15 then b else BitAt(c, i + 1)
    {
      PushTopAt(c, b, i);
    }
  }

  function WordOf(r: Register): (c: bv16)
    ensures WordBits(c) == r
  {
    WordFrom(r, 16)
  }
}
