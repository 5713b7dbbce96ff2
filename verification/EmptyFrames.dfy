/** The checksums of zero-length frames never contain the start marker. */
module EmptyFrames {
  import opened Bytes
  import opened BitWords
  import opened Crc16
  import opened Frames

  /** The checksum of an empty frame, as sixteen shifts of a word: its LEN byte is zero. */
  lemma EmptyCrc(cmd: byte)
    ensures Crc([cmd, 0]) == ShiftedWordN(16, 0xFFFF ^ (cmd as bv16))
  {
    hide WordBits, Shift, ShiftedWord, Crc;
    var c := 0xFFFF ^ (cmd as bv16);
    var d := ShiftedWordN(8, c);
    assert Bits([]) == [];
    assert WordBits(0xFFFF) == Feed(INITIAL, Bits([]));
    ByteFed(0xFFFF, [], cmd);
    ShiftedWordNIs(8, c);
    assert [] + [cmd] == [cmd];
    ByteFed(d, [cmd], 0);
    assert d ^ 0 == d;
    ShiftedWordNIs(8, d);
    assert [cmd] + [0] == [cmd, 0];
    ShiftedTwice(8, 8, c);
    CrcBits([cmd, 0]);
    WordBitsInjective(Crc([cmd, 0]), ShiftedWordN(16, c));
  }

  /** Two shifts at once. */
  function ShiftedPair(c: bv16): bv16 {
    var x, y := c & 1 == 1, (c >> 1) & 1 == 1;
    (c >> 2) ^ (if x then 0x5000 else 0) ^ (if x != y then 0xA001 else 0)
  }

  lemma TwoShifts(c: bv16, d: bv16)
    requires d == ShiftedWord(c)
    ensures ShiftedWord(d) == ShiftedPair(c)
  {
    var h := c >> 1;
    Halves(c);
    if c & 1 == 1 {
      XorHalf(h, 0xA001);
      XorLow(h, 0xA001);
      assert 0xA001 >> 1 == 0x5000 as bv16;
    }
  }

  /** Four shifts at once. */
  function ShiftedNibble(c: bv16): bv16 {
    ShiftedPair(ShiftedPair(c))
  }

  lemma NextNibble(n: nat, c: bv16)
    ensures ShiftedWordN(n + 4, c) == ShiftedWordN(n, ShiftedNibble(c))
  {
    hide ShiftedWord, ShiftedPair;
    var c1 := ShiftedWord(c);
    var c2 := ShiftedWord(c1);
    var c3 := ShiftedWord(c2);
    assert ShiftedWordN(n + 4, c) == ShiftedWordN(n + 3, c1);
    assert ShiftedWordN(n + 3, c1) == ShiftedWordN(n + 2, c2);
    assert ShiftedWordN(n + 2, c2) == ShiftedWordN(n + 1, c3);
    TwoShifts(c, c1);
    TwoShifts(c2, c3);
  }

  /** From any word with a high byte of ones, sixteen shifts lead to no marker byte. */
  lemma NoMarkerAfterShifts(c: bv16, d: bv16, e: bv16, f: bv16, g: bv16)
    requires c >> 8 == 0xFF && d == ShiftedNibble(c) && e == ShiftedNibble(d)
    requires f == ShiftedNibble(e) && g == ShiftedNibble(f)
    ensures g & 0xFF != 0xA5 && (g >> 8) & 0xFF != 0xA5
  {}

  /** No command has a zero-length frame whose checksum contains the start marker. */
  lemma NoMarkerInEmptyCrc(cmd: byte)
    ensures Low(Crc([cmd, 0])) != SOF && High(Crc([cmd, 0])) != SOF
  {
    hide Crc, ShiftedNibble, Low, High;
    EmptyCrc(cmd);
    var c := 0xFFFF ^ (cmd as bv16);
    HighOnes(cmd, c);
    var d := ShiftedNibble(c);
    var e := ShiftedNibble(d);
    var f := ShiftedNibble(e);
    var g := ShiftedNibble(f);
    NextNibble(12, c);
    NextNibble(8, d);
    NextNibble(4, e);
    NextNibble(0, f);
    NoMarkerAfterShifts(c, d, e, f, g);
    MarkerFree(g);
  }

  lemma HighOnes(cmd: byte, c: bv16)
    requires c == 0xFFFF ^ (cmd as bv16)
    ensures c >> 8 == 0xFF
  {}

  lemma MarkerFree(c: bv16)
    requires c & 0xFF != 0xA5 && (c >> 8) & 0xFF != 0xA5
    ensures Low(c) != SOF && High(c) != SOF
  {}
}
