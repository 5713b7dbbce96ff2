/** Known checksums and a known frame, number by number. */
module KnownValues {
  import opened BitWords
  import opened Bytes
  import opened Crc16
  import opened Frames

  function EightShifts(c: bv16): bv16 {
    ShiftedWord(ShiftedWord(ShiftedWord(ShiftedWord(ShiftedWord(ShiftedWord(ShiftedWord(ShiftedWord(c))))))))
  }

  lemma EightShiftsAre(c: bv16)
    ensures ShiftedWordN(8, c) == EightShifts(c)
  {
    hide ShiftedWord;
    var d := ShiftedWord(ShiftedWord(ShiftedWord(ShiftedWord(c))));
    assert ShiftedWordN(8, c) == ShiftedWordN(4, d);
  }

  /** The word holds the register fed with the bytes. */
  ghost predicate Holds(c: bv16, bytes: seq<byte>) {
    WordBits(c) == Feed(INITIAL, Bits(bytes))
  }

  lemma NothingFed()
    ensures Holds(0xFFFF, [])
  {}

  /** One more byte. */
  lemma NextByte(c: bv16, done: seq<byte>, b: byte, d: bv16)
    requires Holds(c, done) && d == EightShifts(c ^ (b as bv16))
    ensures Holds(d, done + [b])
  {
    hide WordBits, EightShifts, ShiftedWordN;
    ByteFed(c, done, b);
    EightShiftsAre(c ^ (b as bv16));
    ShiftedWordNIs(8, c ^ (b as bv16));
  }

  lemma ChecksumIs(c: bv16, bytes: seq<byte>)
    requires Holds(c, bytes)
    ensures Crc(bytes) == c
  {
    hide WordBits;
    CrcBits(bytes);
    WordBitsInjective(Crc(bytes), c);
  }

  lemma TwoBytes(a: byte, b: byte, c: bv16, d: bv16)
    requires c == EightShifts(0xFFFF ^ (a as bv16)) && d == EightShifts(c ^ (b as bv16))
    ensures Holds(d, [a, b])
  {
    hide EightShifts, Holds;
    NothingFed();
    NextByte(0xFFFF, [], a, c);
    assert [] + [a] == [a];
    NextByte(c, [a], b, d);
    assert [a] + [b] == [a, b];
  }

  /** The MODBUS guide's example (section 6.2.2 there): device 2, function 7. */
  lemma DeviceTwoFunctionSeven()
    ensures Crc([0x02, 0x07]) == 0x1241
  {
    hide Holds, Crc;
    TwoBytes(0x02, 0x07, 0x813E, 0x1241);
    ChecksumIs(0x1241, [0x02, 0x07]);
  }

  lemma ChecksumOfExample()
    ensures Crc([0x01, 0x01, 0x07]) == 0x5260
  {
    hide Holds, Crc;
    TwoBytes(0x01, 0x01, 0x807E, 0xE0C1);
    var two: seq<byte> := [0x01, 0x01];
    NextByte(0xE0C1, two, 0x07, 0x5260);
    assert two + [0x07] == [0x01, 0x01, 0x07];
    ChecksumIs(0x5260, [0x01, 0x01, 0x07]);
  }

  /** Command 1 with the payload 7, byte by byte. */
  lemma ExampleFrame()
    ensures Encode(Frame(0x01, [0x07])) == [0xA5, 0x01, 0x01, 0x07, 0x60, 0x52, 0x5A]
  {
    hide Crc, LenByte, Low, High;
    LengthOne();
    ExampleHalves();
    ChecksumOfExample();
    assert Body(Frame(0x01, [0x07])) == [0x01, 0x01, 0x07];
  }

  lemma LengthOne()
    ensures LenByte(1) == 0x01
  {}

  lemma ExampleHalves()
    ensures Low(0x5260) == 0x60 && High(0x5260) == 0x52
  {}
}
