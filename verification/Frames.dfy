/** The serial frame format and the buffer parser.

    | SOF | CMD | LEN | DATA (LEN bytes) | CRC low | CRC high | EOF |

    The parser is specified through the printer: it accepts exactly at the offsets where
    the buffer holds the encoding of some frame, leftmost first and without overlap.
 */
module Frames {
  import opened BitWords
  import opened Bytes
  import opened Crc16
  import opened CrcDetection
  import opened CrcOrder
  import opened Options
  import opened Scanning

  const SOF: byte := 0xA5
  const EOF: byte := 0x5A
  const MAX_DATA_LEN: nat := 255
  const OVERHEAD: nat := 6

  datatype Frame = Frame(cmd: byte, data: seq<byte>)

  /** The bytes under the checksum. */
  function Body(f: Frame): seq<byte> {
    [f.cmd, LenByte(|f.data|)] + f.data
  }

  function Encode(f: Frame): (r: seq<byte>)
    ensures |r| == OVERHEAD + |f.data|
  {
    [SOF] + Codeword(Body(f)) + [EOF]
  }

  /** The program's printer, field by field. */
  method PackFrame(cmd: byte, data: seq<byte>) returns (frame: seq<byte>)
    ensures frame == Encode(Frame(cmd, data))
  {
    hide LenByte, Crc, Low, High;
    frame := [];
    frame := frame + [SOF];
    frame := frame + [cmd];
    frame := frame + [LenByte(|data|)];
    if |data| > 0 {
      frame := frame + data;
    }
    var input := [cmd, LenByte(|data|)];
    if |data| > 0 {
      input := input + data;
    }
    assert input == Body(Frame(cmd, data));
    var crc := Compute(input);
    frame := frame + [Low(crc)];
    frame := frame + [High(crc)];
    frame := frame + [EOF];
    assert frame == Encode(Frame(cmd, data));
  }

  // ---------- which offsets hold a frame ----------

  /** The buffer holds, from offset i on, the complete encoding of f. */
  predicate FrameAt(buf: seq<byte>, i: nat, f: Frame) {
    && |f.data| <= MAX_DATA_LEN
    && i + OVERHEAD + |f.data| <= |buf|
    && buf[i..i + OVERHEAD + |f.data|] == Encode(f)
  }

  /** The receiver's checks on the bytes from offset i on, for payload length n. */
  predicate ChecksPass(buf: seq<byte>, i: nat, n: nat)
    requires i + OVERHEAD + n <= |buf|
  {
    && buf[i] == SOF
    && Value(buf[i + 2]) == n
    && Join(buf[i + 3 + n], buf[i + 4 + n]) == Crc([buf[i + 1], buf[i + 2]] + buf[i + 3..i + 3 + n])
    && buf[i + 5 + n] == EOF
  }

  /** The parts of an encoding, by position. */
  ghost predicate Parts(e: seq<byte>, f: Frame)
    requires |e| == OVERHEAD + |f.data|
  {
    var n := |f.data|;
    && e[0] == SOF && e[1] == f.cmd && e[2] == LenByte(n) && e[3..3 + n] == f.data
    && e[3 + n] == Low(Crc(Body(f))) && e[4 + n] == High(Crc(Body(f))) && e[5 + n] == EOF
  }

  lemma EncodeParts(e: seq<byte>, f: Frame)
    requires |e| == OVERHEAD + |f.data|
    ensures Parts(e, f) <==> e == Encode(f)
  {
    var n := |f.data|;
    var crc := Crc(Body(f));
    var low, high := Low(crc), High(crc);
    hide Crc, LenByte, Low, High;
    assert Encode(f) == [SOF] + ([f.cmd, LenByte(n)] + f.data + [low, high]) + [EOF];
    Rebuild(e, n, [SOF, f.cmd, LenByte(n)], f.data, [low, high, EOF]);
    assert Encode(f) == [SOF, f.cmd, LenByte(n)] + f.data + [low, high, EOF];
  }

  /** A sequence is three pieces exactly when its slices are those pieces. */
  lemma Rebuild(e: seq<byte>, n: nat, head: seq<byte>, middle: seq<byte>, tail: seq<byte>)
    requires |head| == |tail| == 3 && |middle| == n && |e| == n + 6
    ensures e == head + middle + tail <==>
            && e[0] == head[0] && e[1] == head[1] && e[2] == head[2] && e[3..3 + n] == middle
            && e[3 + n] == tail[0] && e[4 + n] == tail[1] && e[5 + n] == tail[2]
  {
    var whole := head + middle + tail;
    assert whole[3..3 + n] == middle;
    assert e == e[..3] + e[3..3 + n] + e[3 + n..];
  }

  lemma SliceOfSlice<T>(s: seq<T>, i: nat, n: nat, a: nat, b: nat)
    requires i + n <= |s| && a <= b <= n
    ensures s[i..i + n][a..b] == s[i + a..i + b]
  {
    var w := s[i..i + n];
    forall k | 0 <= k < b - a
      ensures w[a..b][k] == s[i + a..i + b][k]
    {
      assert w[a..b][k] == w[a + k] == s[i + (a + k)];
    }
  }

  function FrameFrom(buf: seq<byte>, i: nat, n: nat): Frame
    requires i + OVERHEAD + n <= |buf|
  {
    Frame(buf[i + 1], buf[i + 3..i + 3 + n])
  }

  lemma WindowAt(buf: seq<byte>, i: nat, n: nat)
    requires i + OVERHEAD + n <= |buf|
    ensures var e := buf[i..i + OVERHEAD + n];
            && e[0] == buf[i] && e[1] == buf[i + 1] && e[2] == buf[i + 2] && e[3..3 + n] == buf[i + 3..i + 3 + n]
            && e[3 + n] == buf[i + 3 + n] && e[4 + n] == buf[i + 4 + n] && e[5 + n] == buf[i + 5 + n]
  {
    SliceOfSlice(buf, i, OVERHEAD + n, 3, 3 + n);
  }

  /** The test on the length byte and the two checksum bytes, by value and by byte. */
  lemma SameBytes(len: byte, low: byte, high: byte, n: nat, crc: bv16)
    requires n <= MAX_DATA_LEN
    ensures Value(len) == n <==> len == LenByte(n)
    ensures Join(low, high) == crc <==> low == Low(crc) && high == High(crc)
  {
    ValueOfLen(n);
    LenOfValue(len);
    JoinSplit(crc);
    SplitJoin(low, high);
    hide LenByte, Value, Low, High, Join;
  }

  lemma ChecksAreParts(buf: seq<byte>, i: nat, n: nat)
    requires n <= MAX_DATA_LEN && i + OVERHEAD + n <= |buf|
    ensures ChecksPass(buf, i, n) <==> Parts(buf[i..i + OVERHEAD + n], FrameFrom(buf, i, n))
  {
    hide Crc, LenByte, Value, Low, High, Join;
    var f := FrameFrom(buf, i, n);
    WindowAt(buf, i, n);
    SameBytes(buf[i + 2], buf[i + 3 + n], buf[i + 4 + n], n, Crc(Body(f)));
    if buf[i + 2] == LenByte(n) {
      assert Body(f) == [buf[i + 1], buf[i + 2]] + buf[i + 3..i + 3 + n];
    }
  }

  /** The receiver's checks recognise exactly the encodings. */
  lemma ChecksRecogniseEncodings(buf: seq<byte>, i: nat, n: nat)
    requires n <= MAX_DATA_LEN && i + OVERHEAD + n <= |buf|
    ensures ChecksPass(buf, i, n) <==> FrameAt(buf, i, FrameFrom(buf, i, n))
  {
    ChecksAreParts(buf, i, n);
    EncodeParts(buf[i..i + OVERHEAD + n], FrameFrom(buf, i, n));
    hide ChecksPass, Parts, Encode;
  }

  /** The only frame that can be at an offset is the one its LEN byte delimits. */
  lemma FrameIsDelimited(buf: seq<byte>, i: nat, f: Frame)
    requires FrameAt(buf, i, f)
    ensures buf[i] == SOF && Value(buf[i + 2]) == |f.data| && f == FrameFrom(buf, i, |f.data|)
  {
    hide Crc, LenByte, Value, Low, High, Encode, Body;
    var n := |f.data|;
    var e := buf[i..i + OVERHEAD + n];
    EncodeParts(e, f);
    ValueOfLen(n);
    WindowAt(buf, i, n);
  }

  /** An offset holds at most one frame. */
  lemma FrameAtUnique(buf: seq<byte>, i: nat, f: Frame, g: Frame)
    requires FrameAt(buf, i, f) && FrameAt(buf, i, g)
    ensures f == g
  {
    hide FrameAt, Value;
    FrameIsDelimited(buf, i, f);
    FrameIsDelimited(buf, i, g);
  }

  /** The frame that starts at offset i, if any. */
  ghost function Accept(buf: seq<byte>, i: nat): (r: Option<Frame>)
    ensures forall f :: FrameAt(buf, i, f) <==> r == Some(f)
  {
    hide FrameAt;
    if exists f :: FrameAt(buf, i, f) then
      var f :| FrameAt(buf, i, f);
      assert forall g :: FrameAt(buf, i, g) ==> f == g by {
        forall g | FrameAt(buf, i, g) ensures f == g { FrameAtUnique(buf, i, f, g); }
      }
      Some(f)
    else None
  }

  lemma AcceptFits(buf: seq<byte>, i: nat)
    ensures Accept(buf, i).Some? ==> i + OVERHEAD + |Accept(buf, i).value.data| <= |buf|
  {
    if Accept(buf, i).Some? {
      assert FrameAt(buf, i, Accept(buf, i).value);
    }
  }

  // ---------- the greedy leftmost scan ----------

  function HitAt(i: nat, f: Frame): Hit<Frame> {
    Hit(i, i + OVERHEAD + |f.data|, f)
  }

  /** The frames of the buffer as items to scan for. */
  ghost function Found(buf: seq<byte>): Finder<Frame> {
    (i: nat) => if Accept(buf, i).Some? then Some(HitAt(i, Accept(buf, i).value)) else None
  }

  lemma FoundSound(buf: seq<byte>)
    ensures Sound(Found(buf), |buf|)
  {
    hide Accept;
    forall i: nat
      ensures SoundAt(Found(buf), |buf|, i)
    {
      AcceptFits(buf, i);
    }
  }

  /** The leftmost scan of the buffer from offset i on. */
  ghost function FrameScan(buf: seq<byte>, i: nat): seq<Hit<Frame>> {
    FoundSound(buf);
    Scan(Found(buf), |buf|, i)
  }

  function FramesOf(hits: seq<Hit<Frame>>): (r: seq<Frame>)
    ensures |r| == |hits|
  {
    seq(|hits|, k requires 0 <= k < |hits| => hits[k].item)
  }

  /** The parse of a buffer is the only greedy leftmost scan: its hits are the encodings found at
      increasing disjoint offsets, and an encoding is passed over only inside an accepted one. */
  lemma ParseIsGreedy(buf: seq<byte>, hits: seq<Hit<Frame>>)
    ensures IsScan(Found(buf), 0, hits) <==> hits == FrameScan(buf, 0)
    ensures forall h :: h in FrameScan(buf, 0) ==> FrameAt(buf, h.at, h.item) && h == HitAt(h.at, h.item)
    ensures forall i, f :: FrameAt(buf, i, f) ==> Covered(FrameScan(buf, 0), i)
  {
    hide FrameAt;
    FoundSound(buf);
    var found, scan := Found(buf), FrameScan(buf, 0);
    ScanIsScan(found, |buf|, 0);
    if IsScan(found, 0, hits) {
      ScanUnique(found, |buf|, 0, hits, scan, 0);
    }
    forall h | h in scan
      ensures FrameAt(buf, h.at, h.item) && h == HitAt(h.at, h.item)
    {
      assert IsHit(found, 0, h);
    }
    forall i, f | FrameAt(buf, i, f)
      ensures Covered(scan, i)
    {
      assert found(i).Some?;
    }
  }

  // ---------- the program's parser ----------

  lemma ScanNone(buf: seq<byte>, i: nat)
    requires i < |buf| && Accept(buf, i) == None
    ensures FrameScan(buf, i) == FrameScan(buf, i + 1)
  {
    hide FrameAt;
    FoundSound(buf);
    assert SoundAt(Found(buf), |buf|, i);
  }

  lemma ScanSome(buf: seq<byte>, i: nat, f: Frame)
    requires FrameAt(buf, i, f)
    ensures FrameScan(buf, i) == [HitAt(i, f)] + FrameScan(buf, i + OVERHEAD + |f.data|)
  {
    hide FrameAt;
    AcceptFits(buf, i);
    FoundSound(buf);
    assert SoundAt(Found(buf), |buf|, i);
  }

  lemma {:induction false} ScanShort(buf: seq<byte>, i: nat)
    requires i + OVERHEAD > |buf|
    ensures FrameScan(buf, i) == []
    decreases |buf| - i
  {
    hide FrameAt;
    FoundSound(buf);
    assert SoundAt(Found(buf), |buf|, i);
    if i < |buf| {
      ScanShort(buf, i + 1);
      AcceptFits(buf, i);
      ScanNone(buf, i);
    }
  }

  /** The frames that parsing from offset i on delivers. */
  ghost function Parsed(buf: seq<byte>, i: nat): seq<Frame> {
    FramesOf(FrameScan(buf, i))
  }

  /** When one of the program's tests fails at i, no frame starts there. */
  lemma NoFrame(buf: seq<byte>, i: nat)
    requires i < |buf|
    requires
      || buf[i] != SOF
      || (i + OVERHEAD <= |buf| && i + OVERHEAD + Value(buf[i + 2]) > |buf|)
      || (i + OVERHEAD <= |buf| && i + OVERHEAD + Value(buf[i + 2]) <= |buf| && !ChecksPass(buf, i, Value(buf[i + 2])))
    ensures Parsed(buf, i) == Parsed(buf, i + 1)
  {
    hide Value, ChecksPass, FrameAt, FrameScan;
    AcceptFits(buf, i);
    match Accept(buf, i)
    case None =>
      ScanNone(buf, i);
    case Some(f) =>
      FrameIsDelimited(buf, i, f);
      ChecksRecogniseEncodings(buf, i, |f.data|);
  }

  lemma FrameFromLength(buf: seq<byte>, i: nat, n: nat)
    requires i + OVERHEAD + n <= |buf|
    ensures |FrameFrom(buf, i, n).data| == n
  {}

  lemma FramesOfCons(h: Hit<Frame>, hits: seq<Hit<Frame>>)
    ensures FramesOf([h] + hits) == [h.item] + FramesOf(hits)
  {}

  /** When all of them pass, the frame is the next one delivered. */
  lemma NextFrame(buf: seq<byte>, i: nat, n: nat)
    requires n <= MAX_DATA_LEN && i + OVERHEAD + n <= |buf| && ChecksPass(buf, i, n)
    ensures Parsed(buf, i) == [FrameFrom(buf, i, n)] + Parsed(buf, i + OVERHEAD + n)
  {
    ChecksRecogniseEncodings(buf, i, n);
    hide Value, ChecksPass, FrameAt, FrameScan, FrameFrom;
    var f := FrameFrom(buf, i, n);
    FrameFromLength(buf, i, n);
    ScanSome(buf, i, f);
    FramesOfCons(HitAt(i, f), FrameScan(buf, i + OVERHEAD + n));
  }

  /** The checksum and end marker tests of the loop, for a candidate at i. */
  method CheckTail(buffer: seq<byte>, i: nat, len: nat) returns (valid: bool)
    requires i + OVERHEAD + len <= |buffer| && buffer[i] == SOF && Value(buffer[i + 2]) == len
    ensures valid == ChecksPass(buffer, i, len)
  {
    hide Crc, Value, Join;
    var input := [buffer[i + 1], buffer[i + 2]] + buffer[i + 3..i + 3 + len];
    var calculated := Compute(input);
    var received := Join(buffer[i + 3 + len], buffer[i + 3 + len + 1]);
    valid := !(calculated != received || buffer[i + 3 + len + 2] != EOF);
  }

  /** The loop of the program: appends the parsed frames and counts them. */
  method ParseFrames(buffer: seq<byte>, into: seq<Frame>) returns (count: nat, frames: seq<Frame>)
    ensures frames == into + Parsed(buffer, 0)
    ensures count == |Parsed(buffer, 0)|
  {
    count, frames := 0, into;
    var i := 0;
    hide Value, ChecksPass, Parsed;
    while i < |buffer|
      invariant frames + Parsed(buffer, i) == into + Parsed(buffer, 0)
      invariant count + |into| == |frames|
      decreases |buffer| - i
    {
      if buffer[i] != SOF {
        NoFrame(buffer, i);
        i := i + 1;
        continue;
      }
      if i + OVERHEAD > |buffer| {
        break;
      }
      var cmd, len := buffer[i + 1], Value(buffer[i + 2]);
      if len > MAX_DATA_LEN || i + OVERHEAD + len > |buffer| {
        NoFrame(buffer, i);
        i := i + 1;
        continue;
      }
      var valid := CheckTail(buffer, i, len);
      if !valid {
        NoFrame(buffer, i);
        i := i + 1;
        continue;
      }
      NextFrame(buffer, i, len);
      var data := buffer[i + 3..i + 3 + len];
      Regroup(frames, Frame(cmd, data), Parsed(buffer, i + OVERHEAD + len));
      frames := frames + [Frame(cmd, data)];
      count := count + 1;
      i := i + (OVERHEAD + len);
    }
    ScanShort(buffer, i);
    ParsedNothing(buffer, i);
    assert frames + [] == frames;
  }

  lemma Regroup(a: seq<Frame>, f: Frame, b: seq<Frame>)
    ensures a + ([f] + b) == (a + [f]) + b
  {}

  lemma ParsedNothing(buf: seq<byte>, i: nat)
    requires FrameScan(buf, i) == []
    ensures Parsed(buf, i) == []
  {}

  // ---------- round trips ----------

  function EncodeAll(fs: seq<Frame>): seq<byte> {
    if fs == [] then [] else Encode(fs[0]) + EncodeAll(fs[1..])
  }

  lemma FrameAtWindow(before: seq<byte>, f: Frame, after: seq<byte>)
    requires |f.data| <= MAX_DATA_LEN
    ensures FrameAt(before + Encode(f) + after, |before|, f)
  {
    var buf := before + Encode(f) + after;
    assert buf[|before|..|before| + OVERHEAD + |f.data|] == Encode(f);
  }

  lemma {:induction false} ScanOfEncoded(before: seq<byte>, fs: seq<Frame>)
    requires forall f :: f in fs ==> |f.data| <= MAX_DATA_LEN
    ensures Parsed(before + EncodeAll(fs), |before|) == fs
    decreases |fs|
  {
    hide Encode, FrameAt, FrameScan;
    var buf := before + EncodeAll(fs);
    if fs == [] {
      ScanShort(buf, |before|);
    } else {
      var f := fs[0];
      var before' := before + Encode(f);
      assert buf == before + Encode(f) + EncodeAll(fs[1..]);
      assert buf == before' + EncodeAll(fs[1..]);
      FrameAtWindow(before, f, EncodeAll(fs[1..]));
      ScanOfEncoded(before', fs[1..]);
      var rest := FrameScan(buf, |before'|);
      ScanSome(buf, |before|, f);
      assert FramesOf([HitAt(|before|, f)] + rest) == [f] + FramesOf(rest);
    }
  }

  /** Parsing the concatenation of encoded frames gives back exactly those frames, whatever
      marker bytes their payloads contain. */
  lemma {:induction false} RoundTrip(fs: seq<Frame>)
    requires forall f :: f in fs ==> |f.data| <= MAX_DATA_LEN
    ensures Parsed(EncodeAll(fs), 0) == fs
  {
    ScanOfEncoded([], fs);
    assert [] + EncodeAll(fs) == EncodeAll(fs);
  }

  /** One frame survives the trip exactly when its payload fits the length byte. */
  lemma RoundTripIff(f: Frame)
    ensures Parsed(Encode(f), 0) == [f] <==> |f.data| <= MAX_DATA_LEN
  {
    if |f.data| <= MAX_DATA_LEN {
      RoundTrip([f]);
      assert EncodeAll([f]) == Encode(f) + EncodeAll([]) == Encode(f);
    }
    hide Encode;
    var hits := FrameScan(Encode(f), 0);
    ParseIsGreedy(Encode(f), hits);
    if FramesOf(hits) == [f] {
      assert hits[0] in hits && FramesOf(hits)[0] == hits[0].item;
      assert FrameAt(Encode(f), hits[0].at, f);
    }
  }

  // ---------- corrupted frames ----------

  lemma EncodeCodeword(f: Frame)
    ensures Encode(f)[1..5 + |f.data|] == Codeword(Body(f))
  {
    hide Crc, LenByte, Low, High;
  }

  lemma CodewordAt(buf: seq<byte>, i: nat, f: Frame)
    requires FrameAt(buf, i, f)
    ensures buf[i + 1..i + 5 + |f.data|] == Codeword(Body(f))
  {
    EncodeCodeword(f);
    hide Encode, Codeword;
    SliceOfSlice(buf, i, OVERHEAD + |f.data|, 1, 5 + |f.data|);
  }

  /** A frame whose CMD, DATA or CRC was hit by a burst of at most sixteen bits, by any odd number
      of flips or by any two, with LEN unchanged, is not accepted at its offset. */
  lemma CorruptedFrameRejected(buf: seq<byte>, buf': seq<byte>, i: nat, f: Frame)
    requires FrameAt(buf, i, f) && |buf'| == |buf| && buf'[i + 2] == buf[i + 2]
    requires var end := i + 5 + |f.data|;
             var e := Error(buf[i + 1..end], buf'[i + 1..end]);
             Burst(e) || Odd(e) || Flips(e) == 2
    ensures Accept(buf', i) == None
  {
    FrameIsDelimited(buf, i, f);
    CodewordAt(buf, i, f);
    hide FrameAt, Value, Codeword, Error, Burst, Odd, Flips, Body;
    match Accept(buf', i)
    case None =>
    case Some(g) =>
      assert FrameAt(buf', i, g);
      FrameIsDelimited(buf', i, g);
      CodewordAt(buf', i, g);
      BodyLength(f);
      BodyLength(g);
      CodewordsFarApart(Body(f), Body(g));
  }

  lemma BodyLength(f: Frame)
    ensures |Body(f)| == 2 + |f.data|
  {}
}
