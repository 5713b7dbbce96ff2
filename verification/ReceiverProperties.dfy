/** What the receiver guarantees, for every script of bytes and timeouts. */
module ReceiverProperties {
  import opened Bytes
  import opened BitWords
  import opened Crc16
  import opened Options
  import opened Scanning
  import opened Frames
  import opened EmptyFrames
  import opened Receiver

  // ---------- everything delivered was sent ----------

  /** The reads under the hit are the bytes of the frame's encoding, without a timeout. */
  ghost predicate IsEncoded(s: seq<Read>, h: Hit<Frame>) {
    && h == HitAt(h.at, h.item)
    && 1 <= |h.item.data| <= MAX_DATA_LEN
    && AllBytes(s, h.at, h.end)
    && Window(s, h.at, h.end) == Encode(h.item)
  }

  lemma TurnIsEncoded(s: seq<Read>, p: nat)
    requires p < |s|
    ensures var t := TakeTurn(s, p);
            t.frame.Some? ==> IsEncoded(s, Hit(p, t.next, t.frame.value))
  {
    hide ReadBlock, ChecksPass, FrameAt, Encode, Crc;
    var t := TakeTurn(s, p);
    if t.frame.Some? {
      var n := Value(s[p + 2].b);
      var w := Window(s, p, p + OVERHEAD + n);
      assert ReadBlock(s, p + 3, n + 3).ok && ReadBlock(s, p + 1, 2).ok;
      JoinBlocks(s, p, p + 3, p + OVERHEAD + n);
      CheckedIsEncoded(w, n);
    }
  }

  lemma CheckedIsEncoded(w: seq<byte>, n: nat)
    requires |w| == OVERHEAD + n && n <= MAX_DATA_LEN
    ensures Checked(w, n).Some? ==> w == Encode(Checked(w, n).value) && |Checked(w, n).value.data| == n
    ensures Checked(w, n).Some? <==> FrameAt(w, 0, FrameFrom(w, 0, n))
  {
    hide ChecksPass, Encode;
    ChecksRecogniseEncodings(w, 0, n);
    assert w[0..0 + OVERHEAD + n] == w;
  }

  /** Every delivered frame is a contiguous run of bytes that is its encoding, and the runs are
      disjoint and in order. */
  lemma {:induction false} DeliveredIsEncoded(s: seq<Read>, p: nat)
    requires p <= |s|
    ensures var hits := Delivered(s, p);
            && Ordered(hits)
            && forall k :: 0 <= k < |hits| ==> p <= hits[k].at && IsEncoded(s, hits[k])
    decreases |s| - p
  {
    hide TakeTurn, IsEncoded, Ordered;
    if p < |s| {
      var t := TakeTurn(s, p);
      TurnIsEncoded(s, p);
      DeliveredIsEncoded(s, t.next);
      if t.frame.Some? {
        OrderedCons(Hit(p, t.next, t.frame.value), Delivered(s, t.next));
      }
    } else {
      NothingOrdered();
    }
  }

  lemma NothingOrdered()
    ensures Ordered<Frame>([])
  {}

  // ---------- a timeout resynchronises ----------

  lemma {:induction false} BlockBeforeTimeout(s: seq<Read>, p: nat, n: nat, t: nat)
    requires p <= t < |s| && s[t].Timeout?
    ensures ReadBlock(s[..t + 1], p, n) == ReadBlock(s, p, n)
    ensures var r := ReadBlock(s, p, n); if r.ok then r.next <= t else r.next <= t + 1
    decreases n
  {
    if n > 0 && s[p].Byte? {
      BlockBeforeTimeout(s, p + 1, n - 1, t);
    }
  }

  /** No turn reads past a timeout. */
  lemma TurnBeforeTimeout(s: seq<Read>, p: nat, t: nat)
    requires p <= t < |s| && s[t].Timeout?
    ensures TakeTurn(s[..t + 1], p) == TakeTurn(s, p)
    ensures TakeTurn(s, p).next <= t + 1
  {
    hide ReadBlock, Checked, Value;
    var u := s[..t + 1];
    if s[p] == Byte(SOF) {
      BlockBeforeTimeout(s, p + 1, 2, t);
      if ReadBlock(s, p + 1, 2).ok {
        var n := Value(s[p + 2].b);
        BlockBeforeTimeout(s, p + 3, n + 3, t);
        if ReadBlock(s, p + 3, n + 3).ok {
          assert u[p + 2] == s[p + 2];
          JoinBlocks(s, p, p + 3, p + OVERHEAD + n);
          JoinBlocks(u, p, p + 3, p + OVERHEAD + n);
          assert Window(u, p, p + OVERHEAD + n) == Window(s, p, p + OVERHEAD + n);
        }
      }
    }
  }

  /** After any timeout the receiver is hunting: what it delivers from there on does not depend
      on what came before, and what it delivered before does not depend on what comes after. */
  lemma {:induction false} TimeoutSplits(s: seq<Read>, p: nat, t: nat)
    requires p <= t + 1 && t < |s| && s[t].Timeout?
    ensures Delivered(s, p) == Delivered(s[..t + 1], p) + Delivered(s, t + 1)
    decreases |s| - p
  {
    hide TakeTurn;
    if p <= t {
      TurnBeforeTimeout(s, p, t);
      TimeoutSplits(s, TakeTurn(s, p).next, t);
    }
  }

  // ---------- cleanly sent frames ----------

  lemma {:induction false} ReadAllBytes(s: seq<Read>, p: nat, n: nat)
    requires AllBytes(s, p, p + n)
    ensures ReadBlock(s, p, n) == Block(p + n, true)
    decreases n
  {
    if n > 0 {
      ReadAllBytes(s, p + 1, n - 1);
    }
  }

  /** The encoding of f was read from p on, without a timeout. */
  ghost predicate CleanAt(s: seq<Read>, p: nat, f: Frame) {
    && |f.data| <= MAX_DATA_LEN
    && AllBytes(s, p, p + OVERHEAD + |f.data|)
    && Window(s, p, p + OVERHEAD + |f.data|) == Encode(f)
  }

  lemma CleanHeader(s: seq<Read>, p: nat, f: Frame)
    requires CleanAt(s, p, f)
    ensures s[p] == Byte(SOF) && s[p + 1] == Byte(f.cmd) && s[p + 2].Byte? && Value(s[p + 2].b) == |f.data|
  {
    var w := Window(s, p, p + OVERHEAD + |f.data|);
    EncodingHeader(w, f);
    hide Encode, Value;
    assert w[0] == s[p].b && w[1] == s[p + 1].b && w[2] == s[p + 2].b;
  }

  lemma EncodingHeader(w: seq<byte>, f: Frame)
    requires |f.data| <= MAX_DATA_LEN && w == Encode(f)
    ensures w[0] == SOF && w[1] == f.cmd && Value(w[2]) == |f.data|
  {
    hide Encode, LenByte, Value, Crc, Body, Low, High;
    EncodeParts(w, f);
    ValueOfLen(|f.data|);
  }

  lemma SubBytes(s: seq<Read>, p: nat, q: nat, a: nat, b: nat)
    requires AllBytes(s, p, q) && p <= a <= b <= q
    ensures AllBytes(s, a, b)
  {}

  lemma CleanBody(s: seq<Read>, p: nat, f: Frame)
    requires CleanAt(s, p, f) && AllBytes(s, p + 1, p + 3)
    ensures TakeBody(s, p, |f.data|) == Turn(p + OVERHEAD + |f.data|, Some(f))
  {
    var n := |f.data|;
    hide ReadBlock, Checked, Encode, Window;
    CleanChecked(Window(s, p, p + OVERHEAD + n), f);
    SubBytes(s, p, p + OVERHEAD + n, p + 3, p + OVERHEAD + n);
    hide AllBytes;
    ReadAllBytes(s, p + 3, n + 3);
  }

  lemma CleanTurn(s: seq<Read>, p: nat, f: Frame)
    requires CleanAt(s, p, f) && f.data != []
    ensures p + OVERHEAD + |f.data| <= |s|
    ensures TakeTurn(s, p) == Turn(p + OVERHEAD + |f.data|, Some(f))
  {
    CleanHeader(s, p, f);
    SubBytes(s, p, p + OVERHEAD + |f.data|, p + 1, p + 3);
    ReadAllBytes(s, p + 1, 2);
    CleanBody(s, p, f);
    hide ReadBlock, TakeBody, Value, CleanAt, AllBytes;
  }

  lemma CleanFrameDelivered(s: seq<Read>, p: nat, f: Frame)
    requires CleanAt(s, p, f) && f.data != []
    ensures Delivered(s, p) == [HitAt(p, f)] + Delivered(s, p + OVERHEAD + |f.data|)
  {
    hide TakeTurn, CleanAt, Encode, AllBytes;
    CleanTurn(s, p, f);
  }

  lemma CleanChecked(w: seq<byte>, f: Frame)
    requires |f.data| <= MAX_DATA_LEN && w == Encode(f)
    ensures Checked(w, |f.data|) == Some(f)
  {
    hide Encode, ChecksPass;
    assert w[0..0 + OVERHEAD + |f.data|] == w;
    assert FrameAt(w, 0, f);
    FrameIsDelimited(w, 0, f);
    ChecksRecogniseEncodings(w, 0, |f.data|);
  }

  /** After a timeout, a cleanly sent nonempty frame is delivered, whatever came before it. */
  lemma ResumesAfterTimeout(s: seq<Read>, t: nat, f: Frame)
    requires t < |s| && s[t].Timeout? && CleanAt(s, t + 1, f) && f.data != []
    ensures Delivered(s, 0) == Delivered(s[..t + 1], 0) + [HitAt(t + 1, f)] + Delivered(s, t + 1 + OVERHEAD + |f.data|)
  {
    hide Delivered;
    TimeoutSplits(s, 0, t);
    CleanFrameDelivered(s, t + 1, f);
    var a, b, c := Delivered(s[..t + 1], 0), [HitAt(t + 1, f)], Delivered(s, t + 1 + OVERHEAD + |f.data|);
    assert a + (b + c) == a + b + c;
  }

  // ---------- clean streams ----------

  /** A cleanly sent empty frame is dropped, and hunting inside its tail finds no marker. */
  lemma EmptyFrameDropped(s: seq<Read>, p: nat, f: Frame)
    requires CleanAt(s, p, f) && f.data == []
    ensures Delivered(s, p) == Delivered(s, p + OVERHEAD)
  {
    CleanHeader(s, p, f);
    SubBytes(s, p, p + OVERHEAD, p + 1, p + 3);
    EmptyTail(s, p, f);
    ReadAllBytes(s, p + 1, 2);
    hide ReadBlock, TakeBody, Value, CleanAt, AllBytes;
    assert TakeTurn(s, p) == Turn(p + 3, None);
    assert TakeTurn(s, p + 3) == Turn(p + 4, None);
    assert TakeTurn(s, p + 4) == Turn(p + 5, None);
    assert TakeTurn(s, p + 5) == Turn(p + 6, None);
    hide TakeTurn;
    assert Delivered(s, p) == Delivered(s, p + 3);
    assert Delivered(s, p + 3) == Delivered(s, p + 4);
    assert Delivered(s, p + 4) == Delivered(s, p + 5);
  }

  lemma EmptyTail(s: seq<Read>, p: nat, f: Frame)
    requires CleanAt(s, p, f) && f.data == []
    ensures p + OVERHEAD <= |s|
    ensures s[p + 3] != Byte(SOF) && s[p + 4] != Byte(SOF) && s[p + 5] != Byte(SOF)
  {
    var w := Window(s, p, p + OVERHEAD);
    EncodeParts(w, f);
    EmptyBody(f);
    NoMarkerInEmptyCrc(f.cmd);
    hide Encode, LenByte, Crc, Low, High;
    assert w[3] == s[p + 3].b && w[4] == s[p + 4].b && w[5] == s[p + 5].b;
  }

  lemma EmptyBody(f: Frame)
    requires f.data == []
    ensures Body(f) == [f.cmd, 0]
  {
    assert LenByte(0) == 0;
    hide LenByte;
  }

  function Raw(bytes: seq<byte>): (s: seq<Read>)
    ensures |s| == |bytes| && forall k :: 0 <= k < |s| ==> s[k] == Byte(bytes[k])
  {
    seq(|bytes|, k requires 0 <= k < |bytes| => Byte(bytes[k]))
  }

  function Timeouts(n: nat): seq<Read> {
    seq(n, _ => Timeout)
  }

  /** Frames sent cleanly, with gaps[k] timeouts before the k-th. */
  function Clean(fs: seq<Frame>, gaps: seq<nat>): seq<Read>
    requires |gaps| == |fs|
  {
    if fs == [] then [] else Timeouts(gaps[0]) + (Raw(Encode(fs[0])) + Clean(fs[1..], gaps[1..]))
  }

  function Kept(f: Frame): seq<Frame> {
    if f.data == [] then [] else [f]
  }

  function NonEmpty(fs: seq<Frame>): seq<Frame> {
    if fs == [] then [] else Kept(fs[0]) + NonEmpty(fs[1..])
  }

  lemma {:induction false} NonEmptyIff(fs: seq<Frame>)
    ensures |NonEmpty(fs)| <= |fs|
    ensures NonEmpty(fs) == fs <==> forall f :: f in fs ==> f.data != []
  {
    if fs != [] {
      NonEmptyIff(fs[1..]);
      assert fs == [fs[0]] + fs[1..];
      if fs[0].data != [] && NonEmpty(fs) == fs {
        assert NonEmpty(fs)[1..] == NonEmpty(fs[1..]);
      }
    }
  }

  lemma {:induction false} GapSkipped(before: seq<Read>, n: nat, after: seq<Read>)
    ensures Delivered(before + (Timeouts(n) + after), |before|)
         == Delivered(before + (Timeouts(n) + after), |before| + n)
    decreases n
  {
    hide TakeTurn;
    if n > 0 {
      var s := before + (Timeouts(n) + after);
      assert s == (before + [Timeout]) + (Timeouts(n - 1) + after);
      GapSkipped(before + [Timeout], n - 1, after);
      TimeoutTurn(s, |before|);
    }
  }

  lemma TimeoutTurn(s: seq<Read>, p: nat)
    requires p < |s| && s[p].Timeout?
    ensures TakeTurn(s, p) == Turn(p + 1, None)
  {}

  lemma CleanInContext(before: seq<Read>, f: Frame, after: seq<Read>)
    requires |f.data| <= MAX_DATA_LEN
    ensures CleanAt(before + (Raw(Encode(f)) + after), |before|, f)
  {
    var s := before + (Raw(Encode(f)) + after);
    var q := |before| + OVERHEAD + |f.data|;
    var e := Encode(f);
    hide Encode;
    assert forall k :: |before| <= k < q ==> s[k] == Byte(e[k - |before|]);
    assert Window(s, |before|, q) == e;
  }

  /** One cleanly sent frame, in any context. */
  lemma FrameInContext(s: seq<Read>, p: nat, f: Frame)
    requires CleanAt(s, p, f)
    ensures p + OVERHEAD + |f.data| <= |s|
    ensures FramesOf(Delivered(s, p)) == Kept(f) + FramesOf(Delivered(s, p + OVERHEAD + |f.data|))
  {
    if f.data == [] {
      EmptyFrameDropped(s, p, f);
    } else {
      CleanFrameDelivered(s, p, f);
      hide CleanAt, Delivered;
      FramesOfCons(HitAt(p, f), Delivered(s, p + OVERHEAD + |f.data|));
    }
  }

  lemma {:induction false} CleanDelivered(before: seq<Read>, fs: seq<Frame>, gaps: seq<nat>)
    requires |gaps| == |fs| && forall f :: f in fs ==> |f.data| <= MAX_DATA_LEN
    ensures FramesOf(Delivered(before + Clean(fs, gaps), |before|)) == NonEmpty(fs)
    decreases |fs|
  {
    hide Encode, Delivered, CleanAt, Raw;
    var s := before + Clean(fs, gaps);
    if fs == [] {
      AtEnd(s);
    } else {
      var f, rest := fs[0], Clean(fs[1..], gaps[1..]);
      var at := before + Timeouts(gaps[0]);
      GapSkipped(before, gaps[0], Raw(Encode(f)) + rest);
      assert s == at + (Raw(Encode(f)) + rest);
      CleanInContext(at, f, rest);
      FrameInContext(s, |at|, f);
      var next := at + Raw(Encode(f));
      assert |next| == |at| + OVERHEAD + |f.data| by { RawLength(f); }
      assert s == next + rest;
      CleanDelivered(next, fs[1..], gaps[1..]);
    }
  }

  lemma RawLength(f: Frame)
    ensures |Raw(Encode(f))| == OVERHEAD + |f.data|
  {}

  lemma AtEnd(s: seq<Read>)
    ensures Delivered(s, |s|) == []
  {}

  /** On frames sent cleanly, with timeouts anywhere between them, the receiver delivers exactly
      what the buffer parser finds in the same bytes, except for the zero-length frames. */
  lemma {:induction false} ReceiverMatchesParser(fs: seq<Frame>, gaps: seq<nat>)
    requires |gaps| == |fs| && forall f :: f in fs ==> |f.data| <= MAX_DATA_LEN
    ensures FramesOf(Delivered(Clean(fs, gaps), 0)) == NonEmpty(Parsed(EncodeAll(fs), 0))
    ensures FramesOf(Delivered(Clean(fs, gaps), 0)) == Parsed(EncodeAll(fs), 0)
       <==> forall f :: f in fs ==> f.data != []
  {
    hide Delivered, Parsed, Clean, EncodeAll;
    CleanDelivered([], fs, gaps);
    assert [] + Clean(fs, gaps) == Clean(fs, gaps);
    RoundTrip(fs);
    NonEmptyIff(fs);
  }
}
