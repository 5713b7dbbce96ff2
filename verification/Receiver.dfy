/** The byte-at-a-time receiver of the serial node.

    The port is a script of reads, each a byte or a timeout.  The receiver hunts for SOF, reads
    the frame behind it byte by byte and gives up at the first timeout.
 */
module Receiver {
  import opened Bytes
  import opened BitWords
  import opened Crc16
  import opened Options
  import opened Scanning
  import opened Frames

  datatype Read = Byte(b: byte) | Timeout

  /** A block of consecutive reads: where reading stopped, and whether every read gave a byte. */
  datatype Block = Block(next: nat, ok: bool)

  /** Reading n bytes from position p; a timeout is consumed and ends the block. */
  function ReadBlock(s: seq<Read>, p: nat, n: nat): (r: Block)
    requires p <= |s|
    ensures p <= r.next <= |s|
    ensures r.ok ==> r.next == p + n && AllBytes(s, p, p + n)
    decreases n
  {
    if n == 0 then Block(p, true)
    else if p == |s| then Block(p, false)
    else if s[p].Timeout? then Block(p + 1, false)
    else ReadBlock(s, p + 1, n - 1)
  }

  predicate AllBytes(s: seq<Read>, p: nat, q: nat) {
    p <= q <= |s| && forall k :: p <= k < q ==> s[k].Byte?
  }

  /** The bytes read between two positions. */
  function Window(s: seq<Read>, p: nat, q: nat): (w: seq<byte>)
    requires AllBytes(s, p, q)
    ensures |w| == q - p && forall k :: 0 <= k < q - p ==> w[k] == s[p + k].b
  {
    seq(q - p, k requires 0 <= k < q - p => s[p + k].b)
  }

  lemma JoinBlocks(s: seq<Read>, p: nat, q: nat, r: nat)
    requires p < q <= |s| && s[p].Byte? && AllBytes(s, p + 1, q) && AllBytes(s, q, r)
    ensures AllBytes(s, p, r)
  {}

  /** The frame in a completely received candidate, if it passes the checks. */
  function Checked(w: seq<byte>, n: nat): Option<Frame>
    requires |w| == OVERHEAD + n
  {
    if ChecksPass(w, 0, n) then Some(FrameFrom(w, 0, n)) else None
  }

  /** One turn of the receive loop: where the next turn starts, and the frame delivered, if any. */
  datatype Turn = Turn(next: nat, frame: Option<Frame>)

  function TakeTurn(s: seq<Read>, p: nat): (r: Turn)
    requires p < |s|
    ensures p < r.next <= |s|
  {
    if s[p] != Byte(SOF) then Turn(p + 1, None)
    else
      var head := ReadBlock(s, p + 1, 2);
      if !head.ok then Turn(head.next, None)
      else if Value(s[p + 2].b) == 0 then Turn(p + 3, None)
      else TakeBody(s, p, Value(s[p + 2].b))
  }

  /** The rest of a turn, behind SOF, CMD and LEN. */
  function TakeBody(s: seq<Read>, p: nat, n: nat): (r: Turn)
    requires p + 3 <= |s| && s[p].Byte? && AllBytes(s, p + 1, p + 3)
    ensures p < r.next <= |s|
  {
    var tail := ReadBlock(s, p + 3, n + 3);
    if !tail.ok then Turn(tail.next, None)
    else
      JoinBlocks(s, p, p + 3, p + OVERHEAD + n);
      Turn(p + OVERHEAD + n, Checked(Window(s, p, p + OVERHEAD + n), n))
  }

  /** Everything delivered from position p on, with the stretch of reads it came from. */
  function Delivered(s: seq<Read>, p: nat): seq<Hit<Frame>>
    requires p <= |s|
    decreases |s| - p
  {
    if p == |s| then []
    else
      var turn := TakeTurn(s, p);
      var rest := Delivered(s, turn.next);
      if turn.frame.Some? then [Hit(p, turn.next, turn.frame.value)] + rest else rest
  }

  // ---------- the program's loop ----------

  class SerialPort {
    const script: seq<Read>
    var pos: nat

    constructor (script: seq<Read>)
      ensures this.script == script && pos == 0
    {
      this.script := script;
      pos := 0;
    }

    /** Reads the next byte; at the end of the script no byte comes any more. */
    method ReadByte() returns (ok: bool, b: byte)
      requires pos <= |script|
      modifies this`pos
      ensures pos <= |script|
      ensures Block(pos, ok) == ReadBlock(script, old(pos), 1)
      ensures ok ==> script[old(pos)] == Byte(b)
    {
      b := 0;
      if pos == |script| {
        ok := false;
      } else if script[pos].Timeout? {
        ok := false;
        pos := pos + 1;
      } else {
        ok := true;
        b := script[pos].b;
        pos := pos + 1;
      }
    }
  }

  lemma {:induction false} ReadMore(s: seq<Read>, p: nat, n: nat)
    requires p <= |s|
    ensures var r := ReadBlock(s, p, n);
            ReadBlock(s, p, n + 1) == if r.ok then ReadBlock(s, r.next, 1) else r
    decreases n
  {
    if n > 0 && p < |s| && s[p].Byte? {
      ReadMore(s, p + 1, n - 1);
    }
  }

  lemma {:induction false} ReadStops(s: seq<Read>, p: nat, m: nat, n: nat)
    requires p <= |s| && m <= n && !ReadBlock(s, p, m).ok
    ensures ReadBlock(s, p, n) == ReadBlock(s, p, m)
    decreases n
  {
    if m > 0 && p < |s| && s[p].Byte? {
      ReadStops(s, p + 1, m - 1, n - 1);
    }
  }

  /** The receive loop: delivers exactly the frames of the specification, in order. */
  method ReceiveLoop(port: SerialPort) returns (delivered: seq<Frame>)
    requires port.pos <= |port.script|
    modifies port
    ensures delivered == FramesOf(Delivered(port.script, old(port.pos)))
    ensures port.pos == |port.script|
  {
    delivered := [];
    ghost var s, start := port.script, port.pos;
    while port.pos < |port.script|
      invariant start <= port.pos <= |s|
      invariant delivered + FramesOf(Delivered(s, port.pos)) == FramesOf(Delivered(s, start))
      decreases |s| - port.pos
    {
      ghost var p := port.pos;
      var frame := ReceiveTurn(port);
      StepDelivered(s, p);
      if frame.Some? {
        assert delivered + ([frame.value] + FramesOf(Delivered(s, port.pos)))
            == (delivered + [frame.value]) + FramesOf(Delivered(s, port.pos));
        delivered := delivered + [frame.value];
      }
    }
  }

  lemma StepDelivered(s: seq<Read>, p: nat)
    requires p < |s|
    ensures var t := TakeTurn(s, p);
            FramesOf(Delivered(s, p)) ==
            (if t.frame.Some? then [t.frame.value] else []) + FramesOf(Delivered(s, t.next))
  {
    hide TakeTurn;
  }

  /** The body of the loop. */
  method ReceiveTurn(port: SerialPort) returns (frame: Option<Frame>)
    requires port.pos < |port.script|
    modifies port
    ensures port.pos <= |port.script|
    ensures Turn(port.pos, frame) == TakeTurn(port.script, old(port.pos))
  {
    hide Checked, Value, ReadBlock;
    ghost var s, p := port.script, port.pos;
    var ok, b := port.ReadByte();
    OneByte(s, p);
    if !ok || b != SOF {
      return None;
    }
    var cmd, len, ok1, ok2;
    ok1, cmd := port.ReadByte();
    ReadMore(s, p + 1, 1);
    if !ok1 {
      return None;
    }
    ok2, len := port.ReadByte();
    if !ok2 {
      return None;
    }
    var n := Value(len);
    if n == 0 {
      return None;
    }
    frame := ReceiveBody(port, p, n, cmd, len);
  }

  /** The rest of the body, behind SOF, CMD and LEN. */
  method ReceiveBody(port: SerialPort, ghost p: nat, n: nat, cmd: byte, len: byte) returns (frame: Option<Frame>)
    requires port.pos == p + 3 <= |port.script| && AllBytes(port.script, p, p + 3)
    requires port.script[p] == Byte(SOF) && port.script[p + 1] == Byte(cmd) && port.script[p + 2] == Byte(len)
    requires Value(len) == n
    modifies port
    ensures port.pos <= |port.script|
    ensures Turn(port.pos, frame) == TakeBody(port.script, p, n)
  {
    hide Checked, Value, ReadBlock;
    ghost var s := port.script;
    var ok, data := ReceiveData(port, p + 3, n);
    if !ok {
      return None;
    }
    var low, high, eof, ok3;
    ok3, low, high, eof := ReceiveTail(port, p + 3, n);
    if !ok3 {
      return None;
    }
    JoinBlocks(s, p, p + 3, p + OVERHEAD + n);
    ghost var w := Window(s, p, p + OVERHEAD + n);
    assert data == w[3..3 + n];
    frame := CheckCandidate(w, n, cmd, len, data, low, high, eof);
  }

  /** The payload loop. */
  method ReceiveData(port: SerialPort, ghost start: nat, n: nat) returns (ok: bool, payload: seq<byte>)
    requires port.pos == start <= |port.script| && n <= MAX_DATA_LEN
    modifies port
    ensures port.pos <= |port.script|
    ensures ok ==> ReadBlock(port.script, start, n) == Block(port.pos, true)
    ensures ok ==> |payload| == n && forall k :: 0 <= k < n ==> port.script[start + k] == Byte(payload[k])
    ensures !ok ==> ReadBlock(port.script, start, n + 3) == Block(port.pos, false)
  {
    hide ReadBlock;
    ghost var s := port.script;
    var data := new byte[MAX_DATA_LEN];
    var i := 0;
    NoBytes(s, start);
    while i < n
      invariant i <= n && port.pos <= |s|
      invariant ReadBlock(s, start, i) == Block(port.pos, true)
      invariant forall k :: 0 <= k < i ==> s[start + k] == Byte(data[k])
    {
      ReadMore(s, start, i);
      var okData, d := port.ReadByte();
      if !okData {
        ReadStops(s, start, i + 1, n + 3);
        return false, [];
      }
      data[i] := d;
      i := i + 1;
    }
    return true, data[..n];
  }

  lemma NoBytes(s: seq<Read>, p: nat)
    requires p <= |s|
    ensures ReadBlock(s, p, 0) == Block(p, true)
  {}

  lemma OneByte(s: seq<Read>, p: nat)
    requires p < |s|
    ensures ReadBlock(s, p, 1) == Block(p + 1, s[p].Byte?)
  {
    if s[p].Byte? {
      NoBytes(s, p + 1);
    }
  }

  /** The three reads behind the payload. */
  method ReceiveTail(port: SerialPort, ghost start: nat, ghost n: nat)
    returns (ok: bool, low: byte, high: byte, eof: byte)
    requires start + n <= port.pos <= |port.script|
    requires ReadBlock(port.script, start, n) == Block(port.pos, true)
    modifies port
    ensures port.pos <= |port.script|
    ensures ReadBlock(port.script, start, n + 3) == Block(port.pos, ok)
    ensures ok ==> port.script[start + n] == Byte(low) && port.script[start + n + 1] == Byte(high)
                   && port.script[start + n + 2] == Byte(eof)
  {
    hide ReadBlock;
    ghost var s := port.script;
    low, high, eof := 0, 0, 0;
    ReadMore(s, start, n);
    ok, low := port.ReadByte();
    if !ok {
      ReadStops(s, start, n + 1, n + 3);
      return;
    }
    ReadMore(s, start, n + 1);
    ok, high := port.ReadByte();
    if !ok {
      ReadStops(s, start, n + 2, n + 3);
      return;
    }
    ReadMore(s, start, n + 2);
    ok, eof := port.ReadByte();
  }

  /** The end marker and checksum tests on a completely received candidate. */
  method CheckCandidate(ghost w: seq<byte>, ghost n: nat, cmd: byte, len: byte, data: seq<byte>,
                        low: byte, high: byte, eof: byte)
    returns (frame: Option<Frame>)
    requires |w| == OVERHEAD + n && |data| == n && Value(len) == n
    requires w[0] == SOF && w[1] == cmd && w[2] == len && w[3..3 + n] == data
    requires w[3 + n] == low && w[4 + n] == high && w[5 + n] == eof
    ensures frame == Checked(w, n)
  {
    hide Crc, Value, Join;
    assert w[0 + 3..0 + 3 + n] == data;
    if eof != EOF {
      return None;
    }
    var calculated := Compute([cmd, len] + data);
    var received := Join(low, high);
    if calculated != received {
      return None;
    }
    return Some(Frame(cmd, data));
  }
}
