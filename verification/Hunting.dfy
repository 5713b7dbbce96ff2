/** How the receiver finds the next frame.  Reads from which nothing is delivered fall into pieces of
    five kinds, described by the reads alone; behind any number of such pieces a cleanly sent frame
    is delivered, and every script is such pieces with clean frames between them.
 */
module Hunting {
  import opened Bytes
  import opened BitWords
  import opened Crc16
  import opened Options
  import opened Scanning
  import opened Frames
  import opened Receiver
  import opened ReceiverProperties

  // ---------- the pieces ----------

  /** Timeouts, and bytes that are not the start marker. */
  predicate Noise(s: seq<Read>, p: nat, q: nat) {
    p <= q <= |s| && forall k :: p <= k < q ==> s[k] != Byte(SOF)
  }

  predicate Starts(s: seq<Read>, p: nat, q: nat) {
    p < q <= |s| && s[p] == Byte(SOF) && AllBytes(s, p, q)
  }

  /** The bytes from p to q are a candidate, from its start marker on, that is not complete. */
  predicate Incomplete(s: seq<Read>, p: nat, q: nat) {
    Starts(s, p, q) && (q <= p + 2 || (s[p + 2].b != 0 && q < p + 6 + Value(s[p + 2].b)))
  }

  /** A candidate broken off by a timeout. */
  predicate BrokenOff(s: seq<Read>, p: nat, q: nat) {
    0 < q <= |s| && Incomplete(s, p, q - 1) && s[q - 1].Timeout?
  }

  /** A candidate cut short by the end of the script. */
  predicate CutShort(s: seq<Read>, p: nat, q: nat) {
    q == |s| && Incomplete(s, p, q)
  }

  /** A start marker, a command and a length of zero. */
  predicate EmptyCandidate(s: seq<Read>, p: nat, q: nat) {
    q == p + 3 && Starts(s, p, q) && s[p + 2].b == 0
  }

  /** A complete candidate that fails the test of its end marker or of its checksum. */
  predicate Rejected(s: seq<Read>, p: nat, q: nat) {
    && Starts(s, p, q) && q >= p + 7 && q == p + 6 + Value(s[p + 2].b)
    && (s[q - 1].b != 0x5A || Join(s[q - 3].b, s[q - 2].b) != Crc(Window(s, p + 1, q - 3)))
  }

  predicate Piece(s: seq<Read>, p: nat, q: nat) {
    && p < q
    && (Noise(s, p, q) || BrokenOff(s, p, q) || CutShort(s, p, q) || EmptyCandidate(s, p, q) || Rejected(s, p, q))
  }

  /** Any number of pieces. */
  ghost predicate Junk(s: seq<Read>, p: nat, q: nat)
    decreases q - p
  {
    p == q || exists m :: p < m <= q && Piece(s, p, m) && Junk(s, m, q)
  }

  // ---------- reading through a piece ----------

  lemma {:induction false} BlockBreaks(s: seq<Read>, p: nat, n: nat, t: nat)
    requires AllBytes(s, p, t) && t < p + n
    ensures t < |s| && s[t].Timeout? ==> ReadBlock(s, p, n) == Block(t + 1, false)
    ensures t == |s| ==> ReadBlock(s, p, n) == Block(t, false)
    decreases n
  {
    if p < t {
      BlockBreaks(s, p + 1, n - 1, t);
    }
  }

  lemma {:induction false} BlockFails(s: seq<Read>, p: nat, n: nat) returns (t: nat)
    requires p <= |s| && !ReadBlock(s, p, n).ok
    ensures p <= t < p + n && AllBytes(s, p, t)
    ensures if t < |s| then s[t].Timeout? && ReadBlock(s, p, n).next == t + 1 else ReadBlock(s, p, n).next == |s|
    decreases n
  {
    if p < |s| && s[p].Byte? {
      t := BlockFails(s, p + 1, n - 1);
    } else {
      t := p;
    }
  }

  lemma ZeroLength(b: byte)
    ensures Value(b) == 0 <==> b == 0
  {}

  lemma IncompleteTurn(s: seq<Read>, p: nat, t: nat)
    requires Incomplete(s, p, t)
    ensures t < |s| && s[t].Timeout? ==> TakeTurn(s, p) == Turn(t + 1, None)
    ensures t == |s| ==> TakeTurn(s, p) == Turn(t, None)
  {
    hide ReadBlock, Checked, Value;
    SubBytes(s, p, t, p + 1, t);
    if t <= p + 2 {
      BlockBreaks(s, p + 1, 2, t);
    } else {
      var n := Value(s[p + 2].b);
      ZeroLength(s[p + 2].b);
      SubBytes(s, p, t, p + 1, p + 3);
      ReadAllBytes(s, p + 1, 2);
      SubBytes(s, p, t, p + 3, t);
      BlockBreaks(s, p + 3, n + 3, t);
    }
  }

  lemma RejectedTurn(s: seq<Read>, p: nat, q: nat)
    requires Rejected(s, p, q)
    ensures TakeTurn(s, p) == Turn(q, None)
  {
    hide ReadBlock, Value, Crc, Join, Window;
    var n := Value(s[p + 2].b);
    SubBytes(s, p, q, p + 1, p + 3);
    ReadAllBytes(s, p + 1, 2);
    SubBytes(s, p, q, p + 3, q);
    ReadAllBytes(s, p + 3, n + 3);
    WindowChecks(s, p, n);
  }

  /** The receiver's checks on a complete candidate, by the reads. */
  lemma WindowChecks(s: seq<Read>, p: nat, n: nat)
    requires Starts(s, p, p + OVERHEAD + n) && Value(s[p + 2].b) == n
    ensures Checked(Window(s, p, p + OVERHEAD + n), n).Some?
       <==> s[p + 5 + n].b == EOF && Join(s[p + 3 + n].b, s[p + 4 + n].b) == Crc(Window(s, p + 1, p + 3 + n))
  {
    hide Value, Crc, Join;
    var w := Window(s, p, p + OVERHEAD + n);
    assert Window(s, p + 1, p + 3 + n) == [w[1], w[2]] + w[0 + 3..0 + 3 + n];
  }

  lemma EmptyTurn(s: seq<Read>, p: nat, q: nat)
    requires EmptyCandidate(s, p, q)
    ensures TakeTurn(s, p) == Turn(q, None)
  {
    hide ReadBlock, Value, TakeBody;
    SubBytes(s, p, q, p + 1, q);
    ReadAllBytes(s, p + 1, 2);
    ZeroLength(s[p + 2].b);
  }

  lemma {:induction false} NoiseSkipped(s: seq<Read>, p: nat, q: nat)
    requires Noise(s, p, q)
    ensures Delivered(s, p) == Delivered(s, q)
    decreases q - p
  {
    hide ReadBlock, TakeBody, Value;
    if p < q {
      assert TakeTurn(s, p) == Turn(p + 1, None);
      hide TakeTurn;
      NoiseSkipped(s, p + 1, q);
    }
  }

  lemma PieceSkipped(s: seq<Read>, p: nat, q: nat)
    requires Piece(s, p, q)
    ensures q <= |s| && Delivered(s, p) == Delivered(s, q)
  {
    hide TakeTurn, Noise, Incomplete, Rejected, EmptyCandidate;
    if Noise(s, p, q) {
      assert q <= |s| by { NoiseInside(s, p, q); }
      NoiseSkipped(s, p, q);
    } else {
      SilentTurn(s, p, q);
    }
  }

  lemma NoiseInside(s: seq<Read>, p: nat, q: nat)
    requires Noise(s, p, q)
    ensures p <= q <= |s|
  {}

  /** A piece that starts with the marker takes one turn. */
  lemma SilentTurn(s: seq<Read>, p: nat, q: nat)
    requires BrokenOff(s, p, q) || CutShort(s, p, q) || EmptyCandidate(s, p, q) || Rejected(s, p, q)
    ensures p < q <= |s| && TakeTurn(s, p) == Turn(q, None)
  {
    if BrokenOff(s, p, q) {
      IncompleteTurn(s, p, q - 1);
    } else if CutShort(s, p, q) {
      IncompleteTurn(s, p, q);
    } else if EmptyCandidate(s, p, q) {
      EmptyTurn(s, p, q);
    } else {
      RejectedTurn(s, p, q);
    }
  }

  lemma {:induction false} JunkSkipped(s: seq<Read>, p: nat, q: nat)
    requires Junk(s, p, q) && p <= q <= |s|
    ensures Delivered(s, p) == Delivered(s, q)
    decreases q - p
  {
    hide Piece, Delivered;
    if p < q {
      var m :| p < m <= q && Piece(s, p, m) && Junk(s, m, q);
      PieceSkipped(s, p, m);
      JunkSkipped(s, m, q);
    }
  }

  // ---------- what is found ----------

  /** Behind any timeouts and any bytes other than the start marker, a clean nonempty frame is
      delivered.
   */
  lemma FrameBehindNoise(s: seq<Read>, p: nat, q: nat, f: Frame)
    requires p <= q <= |s| && forall k :: p <= k < q ==> s[k] != Byte(0xA5)
    requires CleanAt(s, q, f) && f.data != []
    ensures Delivered(s, p) == [HitAt(q, f)] + Delivered(s, q + OVERHEAD + |f.data|)
  {
    hide Delivered, CleanAt;
    NoiseSkipped(s, p, q);
    CleanFrameDelivered(s, q, f);
  }

  /** The same behind any sequence of noise, broken off, empty and rejected candidates. */
  lemma FrameBehindJunk(s: seq<Read>, p: nat, q: nat, f: Frame)
    requires p <= q <= |s| && Junk(s, p, q) && CleanAt(s, q, f) && f.data != []
    ensures Delivered(s, p) == [HitAt(q, f)] + Delivered(s, q + OVERHEAD + |f.data|)
  {
    hide Delivered, CleanAt, Junk;
    JunkSkipped(s, p, q);
    CleanFrameDelivered(s, q, f);
  }

  /** A turn that delivers nothing takes a piece. */
  lemma SilentIsPiece(s: seq<Read>, p: nat)
    requires p < |s| && TakeTurn(s, p).frame.None?
    ensures Piece(s, p, TakeTurn(s, p).next)
  {
    hide ReadBlock, Checked, Value;
    var t := TakeTurn(s, p);
    if s[p] != Byte(SOF) {
      assert Noise(s, p, p + 1);
    } else if !ReadBlock(s, p + 1, 2).ok {
      var end := BlockFails(s, p + 1, 2);
      assert Incomplete(s, p, end);
      assert if end < |s| then BrokenOff(s, p, end + 1) else CutShort(s, p, end);
    } else if Value(s[p + 2].b) == 0 {
      ZeroLength(s[p + 2].b);
      assert EmptyCandidate(s, p, p + 3);
    } else {
      SilentBody(s, p, Value(s[p + 2].b));
    }
  }

  lemma SilentBody(s: seq<Read>, p: nat, n: nat)
    requires p + 3 <= |s| && s[p] == Byte(SOF) && AllBytes(s, p + 1, p + 3) && Value(s[p + 2].b) == n > 0
    requires TakeBody(s, p, n).frame.None?
    ensures Piece(s, p, TakeBody(s, p, n).next)
  {
    hide ReadBlock, Value, Crc, Join, Window, Checked;
    ZeroLength(s[p + 2].b);
    if ReadBlock(s, p + 3, n + 3).ok {
      JoinBlocks(s, p, p + 3, p + OVERHEAD + n);
      WindowChecks(s, p, n);
      assert Rejected(s, p, p + OVERHEAD + n);
    } else {
      var end := BlockFails(s, p + 3, n + 3);
      JoinBlocks(s, p, p + 3, end);
      assert Incomplete(s, p, end);
      assert if end < |s| then BrokenOff(s, p, end + 1) else CutShort(s, p, end);
    }
  }

  lemma JunkCons(s: seq<Read>, p: nat, m: nat, q: nat)
    requires p < m <= q && Piece(s, p, m) && Junk(s, m, q)
    ensures Junk(s, p, q)
  {}

  /** Every script is junk, or junk up to a clean nonempty frame, which is the first delivered. */
  lemma {:induction false} FirstDelivered(s: seq<Read>, p: nat)
    requires p <= |s|
    ensures Delivered(s, p) == [] <==> Junk(s, p, |s|)
    ensures Delivered(s, p) != [] ==>
      var h := Delivered(s, p)[0];
      && p <= h.at < |s| && Junk(s, p, h.at) && CleanAt(s, h.at, h.item) && h.item.data != []
      && h == HitAt(h.at, h.item) && h.end <= |s| && Delivered(s, p) == [h] + Delivered(s, h.end)
    decreases |s| - p
  {
    if p < |s| {
      var t := TakeTurn(s, p);
      TurnIsEncoded(s, p);
      hide TakeTurn, Piece, CleanAt, IsEncoded;
      if t.frame.Some? {
        DeliveredHere(s, p, t.next, t.frame.value);
      } else {
        SilentIsPiece(s, p);
        FirstDelivered(s, t.next);
        JunkAfterPiece(s, p, t.next);
      }
    }
    if Junk(s, p, |s|) {
      JunkSkipped(s, p, |s|);
      AtEnd(s);
    }
  }

  lemma DeliveredHere(s: seq<Read>, p: nat, next: nat, f: Frame)
    requires p < |s| && TakeTurn(s, p) == Turn(next, Some(f)) && IsEncoded(s, Hit(p, next, f))
    ensures CleanAt(s, p, f) && f.data != [] && Hit(p, next, f) == HitAt(p, f) && next <= |s|
    ensures Delivered(s, p) == [HitAt(p, f)] + Delivered(s, next)
  {
    hide TakeTurn, Encode;
  }

  lemma JunkAfterPiece(s: seq<Read>, p: nat, m: nat)
    requires p < m <= |s| && Piece(s, p, m)
    ensures Junk(s, m, |s|) ==> Junk(s, p, |s|)
    ensures forall q :: m <= q && Junk(s, m, q) ==> Junk(s, p, q)
  {
    forall q | m <= q && Junk(s, m, q)
      ensures Junk(s, p, q)
    {
      JunkCons(s, p, m, q);
    }
  }
}
