/** The packet ring of a lidar: free-running 32-bit read and write counters over an array whose
    size is a power of two.  The counters wrap around; because the size divides 2^32, the ring is
    still a bounded FIFO queue.
 */
module RingQueue {
  import opened Options

  const TWO_32: nat := 0x1_0000_0000

  function Pow2(k: nat): (n: nat)
    ensures n >= 1
  {
    if k == 0 then 1 else 2 * Pow2(k - 1)
  }

  /** Bitwise and of two unsigned numbers. */
  function BitAnd(a: nat, b: nat): nat {
    if a == 0 || b == 0 then 0 else (a % 2) * (b % 2) + 2 * BitAnd(a / 2, b / 2)
  }

  lemma Pow2Step(k: nat)
    ensures Pow2(k) == if k == 0 then 1 else 2 * Pow2(k - 1)
  {}

  lemma AndStep(a: nat, b: nat)
    requires a > 0 && b > 0
    ensures BitAnd(a, b) == (a % 2) * (b % 2) + 2 * BitAnd(a / 2, b / 2)
  {}

  lemma BitTimesItself(r: nat)
    requires r < 2
    ensures r * r == r
  {}

  lemma {:induction false} AndSelf(x: nat)
    ensures BitAnd(x, x) == x
  {
    if x > 0 {
      AndStep(x, x);
      BitTimesItself(x % 2);
      hide BitAnd;
      AndSelf(x / 2);
    }
  }

  /** The test with the predecessor recognises the powers of two. */
  lemma {:induction false} PowerOf2Test(size: nat)
    requires size > 0
    ensures BitAnd(size, size - 1) == 0 <==> exists k: nat :: size == Pow2(k)
  {
    if size == 1 {
      assert size == Pow2(0);
    } else if size % 2 == 1 {
      AndSelf(size / 2);
      assert (size - 1) / 2 == size / 2 && (size - 1) % 2 == 0;
      assert BitAnd(size, size - 1) != 0;
      forall k: nat
        ensures size != Pow2(k)
      {
        Pow2Step(k);
      }
    } else {
      PowerOf2Test(size / 2);
      AndEven(size / 2);
      DoublePower(size / 2);
    }
  }

  lemma AndEven(h: nat)
    requires h > 0
    ensures BitAnd(2 * h, 2 * h - 1) == 2 * BitAnd(h, h - 1)
  {
    assert (2 * h - 1) / 2 == h - 1;
  }

  lemma DoublePower(h: nat)
    ensures (exists k: nat :: h == Pow2(k)) ==> exists k: nat :: 2 * h == Pow2(k)
    ensures h > 0 && (exists k: nat :: 2 * h == Pow2(k)) ==> exists k: nat :: h == Pow2(k)
  {
    if k: nat :| h == Pow2(k) {
      Pow2Step(k + 1);
    }
    if k: nat :| 2 * h == Pow2(k) {
      Pow2Step(k);
      if h > 0 {
        assert h == Pow2(k - 1);
      }
    }
  }

  lemma {:induction false} Pow2Monotone(j: nat, k: nat)
    requires j < k
    ensures 2 * Pow2(j) <= Pow2(k)
  {
    if j + 1 < k {
      Pow2Monotone(j, k - 1);
    }
  }

  /** The smallest power of two that holds the size, capped at 2^31. */
  ghost predicate RoundsUp(size: nat, exponent: nat) {
    && exponent <= 31
    && (size <= Pow2(exponent) || exponent == 31)
    && (forall j :: 0 <= j < exponent ==> Pow2(j) < size)
  }

  ghost function ExponentOf(size: nat): (k: nat)
    requires IsPowerOf2(size) && size < TWO_32
    ensures size == Pow2(k) && RoundsUp(size, k)
  {
    PowerOf2Test(size);
    var k: nat :| size == Pow2(k);
    PowerRoundsToItself(k);
    k
  }

  lemma PowerRoundsToItself(k: nat)
    requires Pow2(k) < TWO_32
    ensures RoundsUp(Pow2(k), k)
  {
    hide Pow2;
    if k > 31 {
      SizeDivides(32);
      Pow2Step(0);
      if k > 32 {
        Pow2Monotone(32, k);
      }
    }
    forall j | 0 <= j < k
      ensures Pow2(j) < Pow2(k)
    {
      Pow2Monotone(j, k);
    }
  }

  predicate IsPowerOf2(size: nat) {
    size != 0 && BitAnd(size, size - 1) == 0
  }

  method RoundupPowerOf2(size: nat) returns (power2: nat)
    ensures exists k: nat :: RoundsUp(size, k) && power2 == Pow2(k)
  {
    hide Pow2;
    power2 := 0;
    var i := 0;
    while i < 32
      invariant 0 <= i <= 32
      invariant i > 0 ==> power2 == Pow2(i - 1)
      invariant forall j: nat :: j < i ==> Pow2(j) < size
    {
      power2 := if i == 0 then 1 else 2 * power2;
      Pow2Step(i);
      if size <= power2 {
        assert RoundsUp(size, i);
        return;
      }
      i := i + 1;
    }
    assert RoundsUp(size, 31);
  }

  /** Masking with a power of two minus one is the remainder. */
  lemma {:induction false} MaskIsRemainder(x: nat, k: nat)
    ensures BitAnd(x, Pow2(k) - 1) == x % Pow2(k)
    decreases k
  {
    if k > 0 {
      var h := Pow2(k - 1);
      MaskIsRemainder(x / 2, k - 1);
      AndOdd(x, h);
      HalfRemainder(x, h);
      Pow2Step(k);
      hide Pow2, BitAnd;
    }
  }

  lemma AndOdd(x: nat, h: nat)
    requires h > 0
    ensures BitAnd(x, 2 * h - 1) == x % 2 + 2 * BitAnd(x / 2, h - 1)
  {
    assert (2 * h - 1) % 2 == 1 && (2 * h - 1) / 2 == h - 1;
  }

  lemma HalfRemainder(x: nat, h: nat)
    requires h >= 1
    ensures x % (2 * h) == x % 2 + 2 * ((x / 2) % h)
  {
    var q, r := (x / 2) / h, (x / 2) % h;
    assert x / 2 == h * q + r;
    assert x == (2 * h) * q + (2 * r + x % 2);
    RemainderIs(x, 2 * h, q, 2 * r + x % 2);
  }

  lemma RemainderIs(x: int, n: int, q: int, r: int)
    requires n > 0 && x == n * q + r && 0 <= r < n
    ensures x % n == r
  {
    var d := x / n - q;
    assert x == n * (x / n) + x % n;
    assert n * d == r - x % n;
    assert d > 0 ==> n * d >= n;
    assert d < 0 ==> n * d <= -n;
  }

  lemma {:induction false} SizeDivides(k: nat)
    requires k <= 32
    ensures Pow2(k) * Pow2(32 - k) == TWO_32 && Pow2(k) <= TWO_32
    decreases k
  {
    if k == 0 {
      assert Pow2(8) == 256;
      assert Pow2(16) == 65536;
      assert Pow2(24) == 16777216;
      assert Pow2(32) == TWO_32;
    } else {
      SizeDivides(k - 1);
      var a, b := Pow2(k - 1), Pow2(32 - k);
      assert Pow2(33 - k) == 2 * b && Pow2(k) == 2 * a;
      hide Pow2;
      Double(a, b);
    }
  }

  lemma Double(a: nat, b: nat)
    requires b >= 1
    ensures (2 * a) * b == a * (2 * b) && 2 * a <= (2 * a) * b
  {}

  lemma WrapByMultiple(x: nat, n: nat, m: nat, t: nat)
    requires n >= 1 && t >= 1 && n * m == t
    ensures (x % t) % n == x % n
  {
    var a, y := x / t, x % t;
    var q, r := y / n, y % n;
    assert x == t * a + y && y == n * q + r;
    assert t * a == n * (m * a);
    assert n * (m * a + q) == n * (m * a) + n * q;
    RemainderIs(x, n, m * a + q, r);
  }

  /** Counting past the 32-bit wrap does not disturb the slot numbers. */
  lemma WrapKeepsSlot(x: nat, k: nat)
    requires k <= 32
    ensures (x % TWO_32) % Pow2(k) == x % Pow2(k)
  {
    SizeDivides(k);
    hide Pow2;
    WrapByMultiple(x, Pow2(k), Pow2(32 - k), TWO_32);
  }

  lemma NextSlots(x: nat, j: nat, n: nat)
    requires n >= 1 && j < n
    ensures (x + j) % n == if x % n + j < n then x % n + j else x % n + j - n
  {
    var q, r := x / n, x % n;
    assert x == n * q + r;
    if r + j < n {
      RemainderIs(x + j, n, q, r + j);
    } else {
      assert x + j == n * (q + 1) + (r + j - n);
      RemainderIs(x + j, n, q + 1, r + j - n);
    }
  }

  /** The slot of the element at position j of the queue. */
  function SlotOf(rd: nat, j: nat, n: nat): nat
    requires n >= 1
  {
    (rd + j) % n
  }

  lemma SlotsDistinct(rd: nat, i: nat, j: nat, n: nat)
    requires n >= 1 && i < j < n
    ensures SlotOf(rd, i, n) != SlotOf(rd, j, n)
  {
    NextSlots(rd, i, n);
    NextSlots(rd, j, n);
  }

  /** The counters and the storage of a ring, as values. */
  ghost predicate Ring<T>(exponent: nat, storage: seq<T>, rd: nat, wr: nat) {
    exponent <= 31 && |storage| == Pow2(exponent) && rd < TWO_32 && wr < TWO_32 && Used(rd, wr) <= |storage|
  }

  /** The unsigned 32-bit difference of the counters. */
  function Used(rd: nat, wr: nat): nat {
    (wr - rd) % TWO_32
  }

  /** The queued elements, oldest first. */
  ghost function Contents<T>(storage: seq<T>, rd: nat, wr: nat): (s: seq<T>)
    requires |storage| >= 1
    ensures |s| == Used(rd, wr)
  {
    seq(Used(rd, wr), (j: nat) => storage[SlotOf(rd, j, |storage|)])
  }

  function Next(x: nat): nat {
    (x + 1) % TWO_32
  }

  lemma UsedAfterPush(rd: nat, wr: nat)
    requires rd < TWO_32 && wr < TWO_32 && Used(rd, wr) < TWO_32 - 1
    ensures Used(rd, Next(wr)) == Used(rd, wr) + 1
  {}

  lemma UsedAfterPop(rd: nat, wr: nat)
    requires rd < TWO_32 && wr < TWO_32 && Used(rd, wr) > 0
    ensures Used(Next(rd), wr) == Used(rd, wr) - 1
  {}

  lemma UsedZero(rd: nat, wr: nat)
    requires rd < TWO_32 && wr < TWO_32
    ensures Used(rd, wr) == 0 <==> rd == wr
  {}

  /** The write slot is the slot behind the last element. */
  lemma WriteSlot(exponent: nat, rd: nat, wr: nat)
    requires exponent <= 31 && rd < TWO_32 && wr < TWO_32
    ensures wr % Pow2(exponent) == SlotOf(rd, Used(rd, wr), Pow2(exponent))
  {
    hide Pow2;
    SameResidue(wr, rd + Used(rd, wr), if rd <= wr then 0 else 1, TWO_32);
    SameWrapSameSlot(wr, rd + Used(rd, wr), exponent);
    hide Used;
  }

  lemma SameWrapSameSlot(x: nat, y: nat, k: nat)
    requires k <= 32 && x % TWO_32 == y % TWO_32
    ensures x % Pow2(k) == y % Pow2(k)
  {
    WrapKeepsSlot(x, k);
    WrapKeepsSlot(y, k);
  }

  /** Element j behind the next read counter is element j + 1 behind this one. */
  lemma ReadSlot(exponent: nat, rd: nat, j: nat)
    requires exponent <= 31 && rd < TWO_32
    ensures SlotOf(Next(rd), j, Pow2(exponent)) == SlotOf(rd, j + 1, Pow2(exponent))
  {
    hide Pow2;
    SameResidue(Next(rd) + j, rd + 1 + j, if rd + 1 == TWO_32 then 1 else 0, TWO_32);
    SameWrapSameSlot(Next(rd) + j, rd + 1 + j, exponent);
    hide Next;
  }

  lemma SameResidue(y: nat, x: nat, q: nat, n: nat)
    requires n >= 1 && x == y + n * q
    ensures x % n == y % n
  {
    assert y == n * (y / n) + y % n;
    assert n * (y / n + q) == n * (y / n) + n * q;
    RemainderIs(x, n, y / n + q, y % n);
  }

  /** Storing behind the last element and advancing the write counter appends. */
  lemma PushAppends<T>(exponent: nat, storage: seq<T>, rd: nat, wr: nat, x: T)
    requires Ring(exponent, storage, rd, wr) && Used(rd, wr) < |storage|
    ensures var stored := storage[wr % |storage| := x];
            && Ring(exponent, stored, rd, Next(wr))
            && Contents(stored, rd, Next(wr)) == Contents(storage, rd, wr) + [x]
  {
    var n, u := |storage|, Used(rd, wr);
    var stored := storage[wr % n := x];
    SizeDivides(exponent);
    SizeBelow(exponent);
    UsedAfterPush(rd, wr);
    WriteSlot(exponent, rd, wr);
    hide Pow2, Used, Next, SlotOf;
    forall j | 0 <= j <= u
      ensures Contents(stored, rd, Next(wr))[j] == (Contents(storage, rd, wr) + [x])[j]
    {
      if j < u {
        SlotsDistinct(rd, j, u, n);
      }
    }
  }

  lemma SizeBelow(exponent: nat)
    requires exponent <= 31
    ensures Pow2(exponent) <= TWO_32 / 2
  {
    SizeDivides(exponent);
    var a, b := Pow2(exponent), Pow2(32 - exponent);
    assert b == 2 * Pow2(31 - exponent);
    hide Pow2;
    assert a * 2 <= a * b;
  }

  /** Advancing the read counter drops the first element. */
  lemma PopDrops<T>(exponent: nat, storage: seq<T>, rd: nat, wr: nat)
    requires Ring(exponent, storage, rd, wr) && Used(rd, wr) > 0
    ensures Ring(exponent, storage, Next(rd), wr)
    ensures storage[rd % |storage|] == Contents(storage, rd, wr)[0]
    ensures Contents(storage, Next(rd), wr) == Contents(storage, rd, wr)[1..]
  {
    UsedAfterPop(rd, wr);
    var before, after := Contents(storage, rd, wr), Contents(storage, Next(rd), wr);
    forall j | 0 <= j < |after|
      ensures after[j] == before[1..][j]
    {
      ReadSlot(exponent, rd, j);
    }
  }

  /** One writer and one reader without a lock.  A push first stores the packet and then advances
      the write counter; a pop first copies the packet and then advances the read counter.
   */
  datatype Shared<T> = Shared(
    storage: seq<T>, rd: nat, wr: nat, storing: Option<T>, copied: Option<T>, pushed: seq<T>, popped: seq<T>)

  datatype Event<T> = Store(x: T) | AdvanceWrite | Copy | AdvanceRead

  ghost predicate Enabled<T>(s: Shared<T>, e: Event<T>) {
    match e
    case Store(_) => s.storing.None? && |s.storage| > 0 && Used(s.rd, s.wr) <= |s.storage| - 1
    case AdvanceWrite => s.storing.Some?
    case Copy => s.copied.None? && |s.storage| > 0 && s.rd != s.wr
    case AdvanceRead => s.copied.Some?
  }

  ghost function Step<T>(s: Shared<T>, e: Event<T>): Shared<T>
    requires Enabled(s, e)
  {
    match e
    case Store(x) => s.(storage := s.storage[s.wr % |s.storage| := x], storing := Some(x))
    case AdvanceWrite => s.(wr := Next(s.wr), storing := None, pushed := s.pushed + [s.storing.value])
    case Copy => s.(copied := Some(s.storage[s.rd % |s.storage|]))
    case AdvanceRead => s.(rd := Next(s.rd), copied := None, popped := s.popped + [s.copied.value])
  }

  /** What is popped and what is still in the ring is what was pushed, in order. */
  ghost predicate Fifo<T>(exponent: nat, s: Shared<T>) {
    && Ring(exponent, s.storage, s.rd, s.wr)
    && s.pushed == s.popped + Contents(s.storage, s.rd, s.wr)
    && (s.storing.Some? ==> Used(s.rd, s.wr) < |s.storage| && s.storage[s.wr % |s.storage|] == s.storing.value)
    && (s.copied.Some? ==> Used(s.rd, s.wr) > 0 && s.storage[s.rd % |s.storage|] == s.copied.value)
  }

  /** Storing behind the last element is invisible until the write counter moves. */
  lemma StoreInvisible<T>(exponent: nat, storage: seq<T>, rd: nat, wr: nat, x: T)
    requires Ring(exponent, storage, rd, wr) && Used(rd, wr) < |storage|
    ensures Contents(storage[wr % |storage| := x], rd, wr) == Contents(storage, rd, wr)
    ensures Used(rd, wr) > 0 ==> rd % |storage| != wr % |storage|
  {
    var u, n := Used(rd, wr), |storage|;
    WriteSlot(exponent, rd, wr);
    hide Pow2, Used, SlotOf;
    forall j | 0 <= j < u
      ensures SlotOf(rd, j, n) != SlotOf(rd, u, n)
    {
      SlotsDistinct(rd, j, u, n);
    }
    assert u > 0 ==> SlotOf(rd, 0, n) == rd % n by { FirstSlot(rd, n); }
  }

  lemma FirstSlot(rd: nat, n: nat)
    requires n >= 1
    ensures SlotOf(rd, 0, n) == rd % n
  {}

  lemma StoreKeepsFifo<T>(exponent: nat, s: Shared<T>, x: T)
    requires Fifo(exponent, s) && Enabled(s, Store(x))
    ensures Fifo(exponent, Step(s, Store(x)))
  {
    StoreInvisible(exponent, s.storage, s.rd, s.wr, x);
    hide Pow2, Used, Contents;
  }

  lemma WriteKeepsFifo<T>(exponent: nat, s: Shared<T>)
    requires Fifo(exponent, s) && s.storing.Some?
    ensures Fifo(exponent, Step(s, AdvanceWrite))
  {
    hide Pow2, Used, Contents, Next;
    var i, x := s.wr % |s.storage|, s.storing.value;
    assert s.storage[i := x] == s.storage;
    PushAppends(exponent, s.storage, s.rd, s.wr, x);
    SizeBelow(exponent);
    UsedAfterPush(s.rd, s.wr);
    var queued := Contents(s.storage, s.rd, s.wr);
    assert s.popped + (queued + [x]) == s.popped + queued + [x];
  }

  lemma CopyKeepsFifo<T>(exponent: nat, s: Shared<T>)
    requires Fifo(exponent, s) && Enabled(s, Copy)
    ensures Fifo(exponent, Step(s, Copy))
  {
    UsedZero(s.rd, s.wr);
    hide Pow2, Used, Contents;
  }

  lemma ReadKeepsFifo<T>(exponent: nat, s: Shared<T>)
    requires Fifo(exponent, s) && s.copied.Some?
    ensures Fifo(exponent, Step(s, AdvanceRead))
  {
    hide Pow2, Used, Contents, Next;
    PopDrops(exponent, s.storage, s.rd, s.wr);
    UsedAfterPop(s.rd, s.wr);
    var queued := Contents(s.storage, s.rd, s.wr);
    assert queued == [queued[0]] + queued[1..];
    assert s.popped + ([queued[0]] + queued[1..]) == s.popped + [queued[0]] + queued[1..];
  }

  lemma StepKeepsFifo<T>(exponent: nat, s: Shared<T>, e: Event<T>)
    requires Fifo(exponent, s) && Enabled(s, e)
    ensures Fifo(exponent, Step(s, e))
  {
    hide Fifo, Step;
    match e
    case Store(x) => StoreKeepsFifo(exponent, s, x);
    case AdvanceWrite => WriteKeepsFifo(exponent, s);
    case Copy => CopyKeepsFifo(exponent, s);
    case AdvanceRead => ReadKeepsFifo(exponent, s);
  }

  ghost predicate Runs<T>(s: Shared<T>, es: seq<Event<T>>, t: Shared<T>)
    decreases |es|
  {
    if es == [] then s == t else Enabled(s, es[0]) && Runs(Step(s, es[0]), es[1..], t)
  }

  /** Every interleaving of the writer's and the reader's steps keeps the FIFO relation. */
  lemma {:induction false} RingIsFifo<T>(exponent: nat, s: Shared<T>, es: seq<Event<T>>, t: Shared<T>)
    requires Fifo(exponent, s) && Runs(s, es, t)
    ensures Fifo(exponent, t)
    decreases |es|
  {
    if es != [] {
      hide Fifo, Step;
      StepKeepsFifo(exponent, s, es[0]);
      RingIsFifo(exponent, Step(s, es[0]), es[1..], t);
    }
  }

  /** A ring just initialised, whatever its storage holds and wherever its counters stand. */
  ghost predicate Fresh<T>(exponent: nat, s: Shared<T>) {
    && exponent <= 31 && |s.storage| == Pow2(exponent) && s.rd == s.wr < TWO_32
    && s.storing.None? && s.copied.None? && s.pushed == s.popped == []
  }

  /** From an empty ring, at any moment of any interleaving, what was popped followed by what the
      ring holds is what was pushed, and the ring never holds more than its size.
   */
  lemma RingFromEmpty<T>(exponent: nat, s: Shared<T>, es: seq<Event<T>>, t: Shared<T>)
    requires Fresh(exponent, s) && Runs(s, es, t)
    ensures |t.storage| == Pow2(exponent) && Used(t.rd, t.wr) <= |t.storage|
    ensures t.pushed == t.popped + Contents(t.storage, t.rd, t.wr)
  {
    UsedZero(s.rd, s.wr);
    assert Contents(s.storage, s.rd, s.wr) == [];
    assert Fifo(exponent, s);
    hide Runs, Pow2, Used, Contents;
    RingIsFifo(exponent, s, es, t);
  }

  /** With no pop or push under way: whenever there is room, a push goes through and appends; and
      whenever there is a packet, a pop goes through and takes the front.
   */
  lemma TransfersGoThrough<T>(exponent: nat, s: Shared<T>, x: T)
    requires Fifo(exponent, s) && s.storing.None? && s.copied.None?
    ensures |Contents(s.storage, s.rd, s.wr)| < |s.storage| ==> exists t ::
              Runs(s, [Store(x), AdvanceWrite], t) && t.pushed == s.pushed + [x] && t.popped == s.popped
              && t.storing.None? && t.copied.None?
    ensures Contents(s.storage, s.rd, s.wr) != [] ==> exists t ::
              Runs(s, [Copy, AdvanceRead], t) && t.pushed == s.pushed
              && t.popped == s.popped + [Contents(s.storage, s.rd, s.wr)[0]]
              && t.storing.None? && t.copied.None?
  {
    UsedZero(s.rd, s.wr);
    if |Contents(s.storage, s.rd, s.wr)| < |s.storage| {
      var u := Step(s, Store(x));
      RunsTwo(s, Store(x), u, AdvanceWrite, Step(u, AdvanceWrite));
    }
    if Contents(s.storage, s.rd, s.wr) != [] {
      var u := Step(s, Copy);
      FrontInSlot(exponent, s);
      RunsTwo(s, Copy, u, AdvanceRead, Step(u, AdvanceRead));
    }
  }

  lemma FrontInSlot<T>(exponent: nat, s: Shared<T>)
    requires Fifo(exponent, s) && Contents(s.storage, s.rd, s.wr) != []
    ensures |s.storage| > 0 && s.storage[s.rd % |s.storage|] == Contents(s.storage, s.rd, s.wr)[0]
  {
    FirstSlot(s.rd, |s.storage|);
    PopDrops(exponent, s.storage, s.rd, s.wr);
  }

  lemma RunsTwo<T>(s: Shared<T>, e: Event<T>, u: Shared<T>, f: Event<T>, t: Shared<T>)
    requires Enabled(s, e) && Step(s, e) == u && Enabled(u, f) && Step(u, f) == t
    ensures Runs(s, [e, f], t)
  {
    hide Step, Enabled;
    assert Runs(t, [], t);
    assert [f][1..] == [] && [e, f][1..] == [f];
    assert Runs(u, [f], t);
  }

  class LidarDataQueue<T(0)> {
    ghost const exponent: nat
    const storage: array<T>
    const mask: nat
    var rdIdx: nat
    var wrIdx: nat

    ghost predicate Valid()
      reads this, storage
    {
      Ring(exponent, storage[..], rdIdx, wrIdx) && mask == storage.Length - 1
    }

    ghost function Queue(): (s: seq<T>)
      requires Valid()
      reads this, storage
    {
      Contents(storage[..], rdIdx, wrIdx)
    }

    /** Initialising an empty ring; a size that is not a power of two is rounded up. */
    constructor (queueSize: nat)
      requires queueSize < TWO_32
      ensures Valid() && fresh(storage) && Queue() == []
      ensures RoundsUp(queueSize, exponent)
    {
      var size := queueSize;
      if !IsPowerOf2(queueSize) {
        size := RoundupPowerOf2(queueSize);
        ghost var k: nat :| RoundsUp(queueSize, k) && size == Pow2(k);
        exponent := k;
      } else {
        exponent := ExponentOf(queueSize);
      }
      storage := new T[size];
      rdIdx, wrIdx := 0, 0;
      mask := size - 1;
    }

    method IsFull() returns (full: bool)
      requires Valid()
      ensures full <==> |Queue()| == storage.Length
    {
      full := (wrIdx - rdIdx) % 0x1_0000_0000 > mask;
    }

    method IsEmpty() returns (empty: bool)
      requires Valid()
      ensures empty <==> Queue() == []
    {
      UsedZero(rdIdx, wrIdx);
      empty := rdIdx == wrIdx;
    }

    method PushAny(x: T)
      requires Valid() && |Queue()| < storage.Length
      modifies this`wrIdx, storage
      ensures Valid() && Queue() == old(Queue()) + [x]
    {
      PushAppends(exponent, storage[..], rdIdx, wrIdx, x);
      MaskIsRemainder(wrIdx, exponent);
      var slot := BitAnd(wrIdx, mask);
      ghost var before := storage[..];
      storage[slot] := x;
      assert storage[..] == before[slot := x];
      wrIdx := (wrIdx + 1) % 0x1_0000_0000;
    }

    method Pop() returns (ok: bool, x: T)
      requires Valid()
      modifies this`rdIdx
      ensures Valid()
      ensures ok <==> old(Queue()) != []
      ensures ok ==> x == old(Queue())[0] && Queue() == old(Queue())[1..]
      ensures !ok ==> Queue() == old(Queue())
    {
      MaskIsRemainder(rdIdx, exponent);
      var slot := BitAnd(rdIdx, mask);
      x := storage[slot];
      var empty := IsEmpty();
      if empty {
        ok := false;
      } else {
        ok := true;
        PopDrops(exponent, storage[..], rdIdx, wrIdx);
        rdIdx := (rdIdx + 1) % 0x1_0000_0000;
      }
    }
  }
}
