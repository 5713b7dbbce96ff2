/** The MODBUS CRC-16 of the serial link (MODBUS over Serial Line Specification and
    Implementation Guide V1.02, sections 2.5.1.2 and 6.2.2).

    The program computes it byte by byte on a 16-bit word, with an inner loop of eight
    shifts.  The specification here is the bit-serial shift register on sequences of bits:
    one message bit at a time, least significant bit of each byte first.  Everything about
    error detection is proved about that register.
 */
module Crc16 {
  import opened BitWords
  import opened Bytes

  // ---------- the shift register ----------

  /** The reflected polynomial 0xA001, lowest bit first. */
  const GENERATOR: Register := WordBits(0xA001)

  const INITIAL: Register := WordBits(0xFFFF)

  lemma GeneratorAt(i: nat)
    requires i < 16
    ensures GENERATOR[i] == (i == 0 || i == 13 || i == 15)
  {
    WordNibbleAt(0xA001, i);
  }

  lemma InitialAt(i: nat)
    requires i < 16
    ensures INITIAL[i]
  {
    WordNibbleAt(0xFFFF, i);
  }

  /** One shift of the register without input. */
  function Shift(r: Register): Register {
    if r[0] then XorBits(r[1..] + [false], GENERATOR) else r[1..] + [false]
  }

  function WithBit(r: Register, b: bool): Register {
    r[0 := r[0] != b]
  }

  /** The register after a sequence of message bits. */
  function Feed(r: Register, bits: seq<bool>): Register
    decreases |bits|
  {
    if bits == [] then r else Feed(Shift(WithBit(r, bits[0])), bits[1..])
  }

  lemma {:induction false} FeedConcat(r: Register, a: seq<bool>, b: seq<bool>)
    ensures Feed(r, a + b) == Feed(Feed(r, a), b)
    decreases |a|
  {
    if a == [] {
      assert a + b == b;
    } else {
      assert (a + b)[0] == a[0] && (a + b)[1..] == a[1..] + b;
      FeedConcat(Shift(WithBit(r, a[0])), a[1..], b);
    }
  }

  function ShiftN(n: nat, r: Register): Register
    decreases n
  {
    if n == 0 then r else ShiftN(n - 1, Shift(r))
  }

  lemma {:induction false} ShiftNLast(n: nat, r: Register)
    ensures ShiftN(n + 1, r) == Shift(ShiftN(n, r))
    decreases n
  {
    if n > 0 {
      ShiftNLast(n - 1, Shift(r));
    }
  }

  /** The checksum: the register fed with all bits of the message, read as a word. */
  function Crc(bytes: seq<byte>): bv16 {
    WordOf(Feed(INITIAL, Bits(bytes)))
  }

  lemma CrcBits(bytes: seq<byte>)
    ensures WordBits(Crc(bytes)) == Feed(INITIAL, Bits(bytes))
  {}

  // ---------- the program's loop ----------

  lemma ShiftWord(c: bv16)
    ensures c & 1 == 1 ==> WordBits((c >> 1) ^ 0xA001) == Shift(WordBits(c))
    ensures c & 1 != 1 ==> WordBits(c >> 1) == Shift(WordBits(c))
  {
    HalfBits(c);
    WordBitsXor(c >> 1, 0xA001);
    assert WordBits(c)[0] == BitAt(c, 0);
  }

  /** One shift of a word, as the program computes it. */
  function ShiftedWord(c: bv16): bv16 {
    if c & 1 == 1 then (c >> 1) ^ 0xA001 else c >> 1
  }

  lemma ShiftedWordIs(c: bv16)
    ensures WordBits(ShiftedWord(c)) == Shift(WordBits(c))
  {
    hide WordBits, Shift;
    ShiftWord(c);
  }

  function ShiftedWordN(n: nat, c: bv16): bv16
    decreases n
  {
    if n == 0 then c else ShiftedWordN(n - 1, ShiftedWord(c))
  }

  lemma {:induction false} ShiftedWordNIs(n: nat, c: bv16)
    ensures WordBits(ShiftedWordN(n, c)) == ShiftN(n, WordBits(c))
    decreases n
  {
    hide ShiftedWord, WordBits, Shift;
    if n > 0 {
      ShiftedWordIs(c);
      ShiftedWordNIs(n - 1, ShiftedWord(c));
    }
  }

  lemma {:induction false} ShiftedTwice(m: nat, n: nat, c: bv16)
    ensures ShiftedWordN(n, ShiftedWordN(m, c)) == ShiftedWordN(m + n, c)
    decreases m
  {
    hide ShiftedWord;
    if m > 0 {
      ShiftedTwice(m - 1, n, ShiftedWord(c));
    }
  }

  lemma ShiftAt(r: Register, i: nat)
    requires i < 16
    ensures Shift(r)[i] == ((i < 15 && r[i + 1]) != (r[0] && GENERATOR[i]))
  {}

  /** Feeding a short window equals mixing it in at once and shifting. */
  lemma {:induction false} FeedWindow(r: Register, bits: seq<bool>)
    requires |bits| <= 16
    ensures Feed(r, bits) == ShiftN(|bits|, XorBits(r, bits + Zeros(16 - |bits|)))
    decreases |bits|
  {
    var mixed := XorBits(r, bits + Zeros(16 - |bits|));
    if bits == [] {
      assert mixed == r;
    } else {
      FirstMixed(r, bits);
      hide Shift, WithBit;
      FeedWindow(Shift(WithBit(r, bits[0])), bits[1..]);
    }
  }

  /** The first bit of a window is fed by one shift of the mixture. */
  lemma FirstMixed(r: Register, bits: seq<bool>)
    requires 0 < |bits| <= 16
    ensures XorBits(Shift(WithBit(r, bits[0])), bits[1..] + Zeros(17 - |bits|))
         == Shift(XorBits(r, bits + Zeros(16 - |bits|)))
  {
    var w, mixed := Shift(WithBit(r, bits[0])), XorBits(r, bits + Zeros(16 - |bits|));
    forall i | 0 <= i < 16
      ensures XorBits(w, bits[1..] + Zeros(17 - |bits|))[i] == Shift(mixed)[i]
    {
      ShiftAt(WithBit(r, bits[0]), i);
      ShiftAt(mixed, i);
    }
  }

  /** Mixing a byte into the word and shifting eight times feeds the byte's bits. */
  lemma ByteFed(c: bv16, done: seq<byte>, b: byte)
    requires WordBits(c) == Feed(INITIAL, Bits(done))
    ensures ShiftN(8, WordBits(c ^ (b as bv16))) == Feed(INITIAL, Bits(done + [b]))
  {
    hide WordBits, Shift;
    WordBitsXor(c, b as bv16);
    WideBits(b);
    FeedWindow(WordBits(c), ByteBits(b));
    BitsConcat(done, [b]);
    BitsOne(b);
    FeedConcat(INITIAL, Bits(done), ByteBits(b));
  }

  /** The byte loop on words computes the bit-serial register. */
  method Compute(data: seq<byte>) returns (crc: bv16)
    ensures crc == Crc(data)
  {
    crc := 0xFFFF;
    CrcBits(data);
    hide WordBits, Shift, Crc;
    for i := 0 to |data|
      invariant WordBits(crc) == Feed(INITIAL, Bits(data[..i]))
    {
      ByteFed(crc, data[..i], data[i]);
      crc := crc ^ (data[i] as bv16);
      ghost var mixed := WordBits(crc);
      for j := 0 to 8
        invariant WordBits(crc) == ShiftN(j, mixed)
      {
        ShiftNLast(j, mixed);
        ShiftWord(crc);
        if crc & 0x0001 != 0 {
          crc := (crc >> 1) ^ 0xA001;
        } else {
          crc := crc >> 1;
        }
      }
      assert data[..i + 1] == data[..i] + [data[i]];
    }
    assert data[..|data|] == data;
    WordBitsInjective(crc, Crc(data));
  }
}
