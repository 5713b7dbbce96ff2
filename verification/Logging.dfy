/** The batching file writer of the data logger.

    Producers append frames to `pending` and, when a batch is full, move it to `writeQueue`
    under the mutex; they notify the condition variable after releasing it.  The worker opens
    the file, waits for a batch or for `stop`, takes one batch in the lock and writes it outside.
    A run is any sequence of these atomic steps.
 */
module Logging {

  type Blob = seq<bv8>

  datatype Worker =
    | Opening                         // about to open the file
    | Checking                        // about to evaluate the wait predicate in the lock
    | Waiting                         // blocked in the condition variable
    | Writing(batch: seq<Blob>)       // holds a batch, outside the lock
    | Exited(hadFile: bool)

  datatype State = State(
    pending: seq<Blob>, writeQueue: seq<seq<Blob>>, stop: bool, worker: Worker,
    file: seq<bv8>,                   // what was appended to the file
    toNotify: nat,                    // threads between unlocking and notifying
    // history
    enqueued: seq<Blob>,              // every frame handed to the writer
    flushed: seq<seq<Blob>>,          // the batches written so far
    beforeStop: nat,                  // how many frames were enqueued before stop was set,
    stopBatches: nat,                 // in how many batches,
    atExit: nat)                      // and how many frames when the worker left

  datatype Event =
    | Open(ok: bool)                  // the worker opens the file
    | Enqueue(frame: Blob)
    | Stop                            // the lock section of shutdown
    | Notify                          // some thread's notify_one
    | Check                           // the worker's lock section
    | Spurious                        // the condition variable wakes up by itself
    | Write                           // the worker writes and flushes its batch

  const INITIAL := State([], [], false, Opening, [], 0, [], [], 0, 0, 0)

  function Concat<T>(parts: seq<seq<T>>): seq<T> {
    if parts == [] then [] else parts[0] + Concat(parts[1..])
  }

  /** Moving what is pending to the write queue, if there is anything. */
  function SwapPending(s: State): State {
    if s.pending == [] then s else s.(writeQueue := s.writeQueue + [s.pending], pending := [])
  }

  function EnqueueFrame(s: State, batchSize: nat, frame: Blob): State {
    var t := s.(pending := s.pending + [frame], enqueued := s.enqueued + [frame], toNotify := s.toNotify + 1);
    if |t.pending| >= batchSize then SwapPending(t) else t
  }

  /** Shutting down: only the first call does anything. */
  function StopWriter(s: State): State {
    if s.stop then s
    else
      var t := SwapPending(s);
      t.(stop := true, toNotify := s.toNotify + 1, beforeStop := |s.enqueued|, stopBatches := |Batches(t)|)
  }

  function CheckQueue(s: State): State {
    if s.writeQueue != [] then s.(worker := Writing(s.writeQueue[0]), writeQueue := s.writeQueue[1..])
    else if s.stop then s.(worker := Exited(true), atExit := |s.enqueued|)
    else s.(worker := Waiting)
  }

  function Step(s: State, batchSize: nat, e: Event): State {
    match e
    case Open(ok) => if s.worker.Opening? then s.(worker := if ok then Checking else Exited(false)) else s
    case Enqueue(frame) => EnqueueFrame(s, batchSize, frame)
    case Stop => StopWriter(s)
    case Notify =>
      if s.toNotify == 0 then s
      else s.(toNotify := s.toNotify - 1, worker := if s.worker.Waiting? then Checking else s.worker)
    case Check => if s.worker.Checking? then CheckQueue(s) else s
    case Spurious => if s.worker.Waiting? then s.(worker := Checking) else s
    case Write =>
      if s.worker.Writing? then
        s.(file := s.file + Concat(s.worker.batch), flushed := s.flushed + [s.worker.batch], worker := Checking)
      else s
  }

  function Run(s: State, batchSize: nat, events: seq<Event>): State
    decreases |events|
  {
    if events == [] then s else Run(Step(s, batchSize, events[0]), batchSize, events[1..])
  }

  // ---------- invariants ----------

  /** All batches ever formed, oldest first. */
  function Batches(s: State): seq<seq<Blob>> {
    s.flushed + (if s.worker.Writing? then [s.worker.batch] else []) + s.writeQueue
  }

  /** The size of a full batch; a batch size of zero makes batches of one frame. */
  function Full(batchSize: nat): nat {
    if batchSize == 0 then 1 else batchSize
  }

  /** The file, the worker's batch, the queued batches and the pending frames are everything ever
      enqueued, in order. */
  ghost predicate Conserved(s: State) {
    && s.file == Concat(Concat(s.flushed))
    && Concat(Batches(s)) + s.pending == s.enqueued
  }

  /** Every batch has the full size, except that the one made by shutdown may be shorter. */
  ghost predicate FullBatches(batches: seq<seq<Blob>>, stop: bool, stopBatches: nat, full: nat) {
    forall k :: 0 <= k < |batches| ==>
      1 <= |batches[k]| <= full && ((stop && k == stopBatches - 1) || |batches[k]| == full)
  }

  /** Shutdown cuts the batches at the frames enqueued before it. */
  ghost predicate CutAt(batches: seq<seq<Blob>>, enqueued: seq<Blob>, stopBatches: nat, beforeStop: nat) {
    && beforeStop <= |enqueued| && stopBatches <= |batches|
    && Concat(batches[..stopBatches]) == enqueued[..beforeStop]
  }

  ghost predicate Batched(s: State, batchSize: nat) {
    && |s.pending| < Full(batchSize)
    && FullBatches(Batches(s), s.stop, s.stopBatches, Full(batchSize))
    && (s.stop ==> CutAt(Batches(s), s.enqueued, s.stopBatches, s.beforeStop))
  }

  /** A worker that opened the file leaves only when everything enqueued before stop is written. */
  ghost predicate LeavesDone(s: State, batchSize: nat) {
    s.worker == Exited(true) ==>
      && s.stop && s.stopBatches <= |s.flushed| && s.atExit <= |s.enqueued|
      && |Concat(s.flushed)| <= s.atExit < |Concat(s.flushed)| + Full(batchSize)
  }

  /** No wake-up is lost: a waiting worker that has something to do has a notification coming. */
  predicate WakeupComing(s: State) {
    s.worker.Waiting? && (s.stop || s.writeQueue != []) ==> s.toNotify > 0
  }

  ghost predicate Valid(s: State, batchSize: nat) {
    Conserved(s) && Batched(s, batchSize) && LeavesDone(s, batchSize) && WakeupComing(s)
  }

  // ---------- sequences of sequences ----------

  lemma {:induction false} ConcatAppend<T>(a: seq<seq<T>>, b: seq<seq<T>>)
    ensures Concat(a + b) == Concat(a) + Concat(b)
  {
    if a == [] {
      assert a + b == b;
    } else {
      ConcatAppend(a[1..], b);
      assert (a + b)[1..] == a[1..] + b && (a + b)[0] == a[0];
      var x, y, z := a[0], Concat(a[1..]), Concat(b);
      assert x + (y + z) == (x + y) + z;
    }
  }

  lemma ConcatOne<T>(x: seq<T>)
    ensures Concat([x]) == x
  {
    assert [x][1..] == [];
    assert x + [] == x;
  }

  lemma ConcatLast<T>(a: seq<seq<T>>, x: seq<T>)
    ensures Concat(a + [x]) == Concat(a) + x
  {
    ConcatAppend(a, [x]);
    ConcatOne(x);
  }

  // ---------- every step keeps them ----------

  lemma FullBatchesMore(batches: seq<seq<Blob>>, stop: bool, stopBatches: nat, full: nat, x: seq<Blob>)
    requires FullBatches(batches, stop, stopBatches, full) && |x| == full >= 1
    ensures FullBatches(batches + [x], stop, stopBatches, full)
  {}

  lemma FullBatchesStop(batches: seq<seq<Blob>>, full: nat, x: seq<Blob>)
    requires FullBatches(batches, false, 0, full) && 1 <= |x| <= full
    ensures FullBatches(batches + [x], true, |batches| + 1, full)
  {}

  lemma CutMore(batches: seq<seq<Blob>>, enqueued: seq<Blob>, stopBatches: nat, beforeStop: nat,
                moreBatches: seq<seq<Blob>>, more: seq<Blob>)
    requires CutAt(batches, enqueued, stopBatches, beforeStop)
    ensures CutAt(batches + moreBatches, enqueued + more, stopBatches, beforeStop)
  {
    assert (batches + moreBatches)[..stopBatches] == batches[..stopBatches];
    assert (enqueued + more)[..beforeStop] == enqueued[..beforeStop];
  }

  lemma EnqueueKeeps(s: State, batchSize: nat, frame: Blob)
    requires Conserved(s) && Batched(s, batchSize)
    ensures Conserved(EnqueueFrame(s, batchSize, frame)) && Batched(EnqueueFrame(s, batchSize, frame), batchSize)
  {
    hide FullBatches, CutAt, Concat;
    var t := EnqueueFrame(s, batchSize, frame);
    var p := s.pending + [frame];
    var full := Full(batchSize);
    assert Concat(Batches(s)) + p == (Concat(Batches(s)) + s.pending) + [frame];
    if |p| >= batchSize {
      assert Batches(t) == Batches(s) + [p];
      ConcatLast(Batches(s), p);
      FullBatchesMore(Batches(s), s.stop, s.stopBatches, full, p);
      if s.stop {
        CutMore(Batches(s), s.enqueued, s.stopBatches, s.beforeStop, [p], [frame]);
      }
    } else {
      assert Batches(t) == Batches(s) == Batches(s) + [];
      if s.stop {
        CutMore(Batches(s), s.enqueued, s.stopBatches, s.beforeStop, [], [frame]);
      }
    }
  }

  lemma StopKeeps(s: State, batchSize: nat)
    requires Conserved(s) && Batched(s, batchSize) && !s.stop
    ensures Conserved(StopWriter(s)) && Batched(StopWriter(s), batchSize)
  {
    hide FullBatches, Concat;
    var t := StopWriter(s);
    StopAnyIndex(Batches(s), s.stopBatches, Full(batchSize));
    if s.pending != [] {
      assert Batches(t) == Batches(s) + [s.pending];
      ConcatLast(Batches(s), s.pending);
      FullBatchesStop(Batches(s), Full(batchSize), s.pending);
    } else {
      assert Batches(t) == Batches(s);
      assert Concat(Batches(s)) + [] == Concat(Batches(s));
    }
    assert Batches(t)[..t.stopBatches] == Batches(t);
    assert t.enqueued[..t.beforeStop] == t.enqueued;
  }

  /** Before stop the cut does not matter. */
  lemma StopAnyIndex(batches: seq<seq<Blob>>, stopBatches: nat, full: nat)
    requires FullBatches(batches, false, stopBatches, full)
    ensures FullBatches(batches, false, 0, full)
    ensures FullBatches(batches, true, |batches|, full)
  {}

  /** The worker's own steps move batches along, but make none. */
  lemma WorkerMakesNone(s: State, batchSize: nat, e: Event)
    requires e.Open? || e.Notify? || e.Check? || e.Spurious? || e.Write?
    ensures Batches(Step(s, batchSize, e)) == Batches(s)
  {}

  lemma FileKeeps(s: State, batchSize: nat, e: Event)
    requires s.file == Concat(Concat(s.flushed))
    ensures var t := Step(s, batchSize, e); t.file == Concat(Concat(t.flushed))
  {
    hide Concat;
    if e.Write? && s.worker.Writing? {
      ConcatLast(s.flushed, s.worker.batch);
      ConcatAppend(Concat(s.flushed), s.worker.batch);
    }
  }

  lemma ContentsKept(s: State, batchSize: nat, e: Event)
    requires Conserved(s) && Batched(s, batchSize)
    ensures Conserved(Step(s, batchSize, e)) && Batched(Step(s, batchSize, e), batchSize)
  {
    hide FullBatches, CutAt, Concat, Batches;
    match e
    case Enqueue(frame) => EnqueueKeeps(s, batchSize, frame);
    case Stop =>
      if !s.stop {
        StopKeeps(s, batchSize);
      }
    case _ =>
      FileKeeps(s, batchSize, e);
      WorkerMakesNone(s, batchSize, e);
  }

  lemma LeavingKept(s: State, batchSize: nat, e: Event)
    requires Valid(s, batchSize)
    ensures LeavesDone(Step(s, batchSize, e), batchSize)
  {
    hide FullBatches, Concat;
    if e.Check? && s.worker.Checking? && s.writeQueue == [] && s.stop {
      assert Batches(s) == s.flushed;
      hide Batches, CutAt;
    }
  }

  lemma WakeupKept(s: State, batchSize: nat, e: Event)
    requires WakeupComing(s)
    ensures WakeupComing(Step(s, batchSize, e))
  {}

  lemma StepKeepsValid(s: State, batchSize: nat, e: Event)
    requires Valid(s, batchSize)
    ensures Valid(Step(s, batchSize, e), batchSize)
  {
    hide Conserved, Batched, LeavesDone, WakeupComing, Step;
    ContentsKept(s, batchSize, e);
    LeavingKept(s, batchSize, e);
    WakeupKept(s, batchSize, e);
  }

  lemma {:induction false} RunKeepsValid(s: State, batchSize: nat, events: seq<Event>)
    requires Valid(s, batchSize)
    ensures Valid(Run(s, batchSize, events), batchSize)
    decreases |events|
  {
    hide Valid, Step;
    if events != [] {
      StepKeepsValid(s, batchSize, events[0]);
      RunKeepsValid(Step(s, batchSize, events[0]), batchSize, events[1..]);
    }
  }

  lemma InitialValid(batchSize: nat)
    ensures Valid(INITIAL, batchSize)
  {
    assert Concat<Blob>([]) == [] && Concat<bv8>([]) == [];
  }

  // ---------- what the runs guarantee ----------

  /** In every interleaving: nothing is lost, duplicated or reordered; only the shutdown batch may
      be short; and a waiting worker with work to do is about to be notified. */
  lemma NothingLost(batchSize: nat, events: seq<Event>)
    ensures var s := Run(INITIAL, batchSize, events);
            Conserved(s) && Batched(s, batchSize) && WakeupComing(s)
  {
    hide Conserved, Batched, WakeupComing;
    InitialValid(batchSize);
    RunKeepsValid(INITIAL, batchSize, events);
  }

  /** The first n batches are a prefix of the frames. */
  lemma FlushedPrefix(s: State, batchSize: nat)
    requires Valid(s, batchSize)
    ensures Concat(s.flushed) <= s.enqueued
  {
    var rest := (if s.worker.Writing? then [s.worker.batch] else []) + s.writeQueue;
    assert Batches(s) == s.flushed + rest;
    ConcatAppend(s.flushed, rest);
  }

  lemma {:induction false} ConcatSize<T>(parts: seq<seq<T>>, n: nat)
    requires forall k :: 0 <= k < |parts| ==> |parts[k]| == n
    ensures |Concat(parts)| == n * |parts|
  {
    if parts != [] {
      ConcatSize(parts[1..], n);
    }
  }

  lemma TailFull(batches: seq<seq<Blob>>, stopBatches: nat, full: nat, flushed: seq<seq<Blob>>)
    requires FullBatches(batches, true, stopBatches, full) && flushed <= batches && stopBatches <= |flushed|
    ensures forall k :: 0 <= k < |flushed| - stopBatches ==> |flushed[stopBatches..][k]| == full
  {
    forall k | 0 <= k < |flushed| - stopBatches
      ensures |flushed[stopBatches..][k]| == full
    {
      assert flushed[stopBatches..][k] == batches[stopBatches + k];
    }
  }

  /** The batches flushed when the worker has left: those up to the cut, then full ones. */
  lemma FlushedAfterExit(s: State, batchSize: nat)
    requires Valid(s, batchSize) && s.worker == Exited(true)
    ensures s.beforeStop <= |s.enqueued| && s.stopBatches <= |s.flushed|
    ensures Concat(s.flushed[..s.stopBatches]) == s.enqueued[..s.beforeStop]
    ensures |Concat(s.flushed)| == s.beforeStop + Full(batchSize) * (|s.flushed| - s.stopBatches)
  {
    hide Concat, Conserved, Full;
    var head, tail := s.flushed[..s.stopBatches], s.flushed[s.stopBatches..];
    var batches := Batches(s);
    assert s.flushed == head + tail;
    ConcatAppend(head, tail);
    assert batches[..s.stopBatches] == head;
    TailFull(batches, s.stopBatches, Full(batchSize), s.flushed);
    ConcatSize(tail, Full(batchSize));
  }

  /** Once the worker has left with the file opened, the file holds the frames enqueued before
      stop, followed by as many full batches as were completed between stop and its leaving. */
  lemma FileAfterExit(batchSize: nat, events: seq<Event>) returns (extra: nat)
    requires Run(INITIAL, batchSize, events).worker == Exited(true)
    ensures var s := Run(INITIAL, batchSize, events);
            var full := Full(batchSize);
            && s.beforeStop + full * extra <= s.atExit < s.beforeStop + full * (extra + 1)
            && s.atExit <= |s.enqueued|
            && s.file == Concat(s.enqueued[..s.beforeStop + full * extra])
  {
    hide Run, Valid;
    InitialValid(batchSize);
    RunKeepsValid(INITIAL, batchSize, events);
    extra := FileOfExited(Run(INITIAL, batchSize, events), batchSize);
  }

  lemma FileOfExited(s: State, batchSize: nat) returns (extra: nat)
    requires Valid(s, batchSize) && s.worker == Exited(true)
    ensures var full := Full(batchSize);
            && s.beforeStop + full * extra <= s.atExit < s.beforeStop + full * (extra + 1)
            && s.atExit <= |s.enqueued|
            && s.file == Concat(s.enqueued[..s.beforeStop + full * extra])
  {
    hide Batched, FullBatches, CutAt, Full, Concat;
    FlushedPrefix(s, batchSize);
    FlushedAfterExit(s, batchSize);
    extra := |s.flushed| - s.stopBatches;
    var n := |Concat(s.flushed)|;
    assert n == s.beforeStop + Full(batchSize) * extra;
    OneMore(Full(batchSize), extra);
    assert Concat(s.flushed) == s.enqueued[..n];
  }

  lemma OneMore(full: nat, extra: nat)
    ensures full * (extra + 1) == full * extra + full && full * extra >= 0
  {}

  /** The frames in the file are exactly those enqueued before stop if and only if less than a
      batch was enqueued between stop and the worker's leaving. */
  lemma ExactlyBeforeStopIff(batchSize: nat, events: seq<Event>)
    requires Run(INITIAL, batchSize, events).worker == Exited(true)
    ensures var s := Run(INITIAL, batchSize, events);
            && s.beforeStop <= |s.enqueued|
            && (Concat(s.flushed) == s.enqueued[..s.beforeStop] <==> s.atExit - s.beforeStop < Full(batchSize))
  {
    var s := Run(INITIAL, batchSize, events);
    hide Run;
    InitialValid(batchSize);
    RunKeepsValid(INITIAL, batchSize, events);
    FlushedPrefix(s, batchSize);
    FlushedAfterExit(s, batchSize);
    var full, extra := Full(batchSize), |s.flushed| - s.stopBatches;
    hide Batched, FullBatches, CutAt, Full, Concat, Conserved;
    var n := |Concat(s.flushed)|;
    assert Concat(s.flushed) == s.enqueued[..n];
    NoExtraIff(n, s.beforeStop, s.atExit, full, extra);
    PrefixIff(s.enqueued, n, s.beforeStop);
  }

  lemma NoExtraIff(n: nat, before: nat, atExit: nat, full: nat, extra: nat)
    requires n == before + full * extra && n <= atExit < n + full
    ensures n == before <==> atExit - before < full
  {
    if extra > 0 {
      assert full * extra == full + full * (extra - 1) >= full;
    }
  }

  lemma PrefixIff(a: seq<Blob>, m: nat, n: nat)
    requires m <= |a| && n <= |a|
    ensures a[..m] == a[..n] <==> m == n
  {
    assert |a[..m]| == m && |a[..n]| == n;
  }

  /** After the worker has left, nothing reaches the file any more. */
  lemma {:induction false} FileFrozen(s: State, batchSize: nat, events: seq<Event>)
    requires s.worker.Exited?
    ensures Run(s, batchSize, events).file == s.file && Run(s, batchSize, events).worker == s.worker
    decreases |events|
  {
    if events != [] {
      FileFrozen(Step(s, batchSize, events[0]), batchSize, events[1..]);
    }
  }

  /** In every run: a frame enqueued after the worker has left is lost, whatever follows. */
  lemma LateFrameLost(batchSize: nat, before: seq<Event>, frame: Blob, after: seq<Event>)
    requires Run(INITIAL, batchSize, before).worker.Exited?
    ensures var s := Run(INITIAL, batchSize, before);
            var t := Run(EnqueueFrame(s, batchSize, frame), batchSize, after);
            t.file == s.file && s.enqueued + [frame] <= t.enqueued
  {
    var s := Run(INITIAL, batchSize, before);
    FileFrozen(EnqueueFrame(s, batchSize, frame), batchSize, after);
    EnqueuedGrows(EnqueueFrame(s, batchSize, frame), batchSize, after);
  }

  lemma {:induction false} EnqueuedGrows(s: State, batchSize: nat, events: seq<Event>)
    ensures s.enqueued <= Run(s, batchSize, events).enqueued
    decreases |events|
  {
    if events != [] {
      EnqueuedGrows(Step(s, batchSize, events[0]), batchSize, events[1..]);
    }
  }

  // ---------- two runs ----------

  lemma {:induction false} RunConcat(s: State, batchSize: nat, a: seq<Event>, b: seq<Event>)
    ensures Run(s, batchSize, a + b) == Run(Run(s, batchSize, a), batchSize, b)
    decreases |a|
  {
    hide Step;
    if a == [] {
      assert a + b == b;
    } else {
      RunConcat(Step(s, batchSize, a[0]), batchSize, a[1..], b);
      assert (a + b)[1..] == a[1..] + b;
    }
  }

  lemma RunTwo(s: State, batchSize: nat, a: Event, b: Event)
    ensures Run(s, batchSize, [a, b]) == Step(Step(s, batchSize, a), batchSize, b)
  {
    hide Step;
    assert [a, b][1..] == [b] && [b][1..] == [];
    assert Run(s, batchSize, [a, b]) == Run(Step(s, batchSize, a), batchSize, [b]);
  }

  lemma RunThree(s: State, batchSize: nat, a: Event, b: Event, c: Event)
    ensures Run(s, batchSize, [a, b, c]) == Step(Step(Step(s, batchSize, a), batchSize, b), batchSize, c)
  {
    hide Step;
    assert [a, b, c][1..] == [b, c];
    RunTwo(Step(s, batchSize, a), batchSize, b, c);
  }

  function Enqueues(frames: seq<Blob>): seq<Event> {
    if frames == [] then [] else Enqueues(frames[..|frames| - 1]) + [Enqueue(frames[|frames| - 1])]
  }

  /** Fewer frames than a batch stay pending. */
  lemma {:induction false} FramesPending(s: State, batchSize: nat, frames: seq<Blob>)
    requires s.pending == [] && |frames| < Full(batchSize)
    ensures Run(s, batchSize, Enqueues(frames))
         == s.(pending := frames, enqueued := s.enqueued + frames, toNotify := s.toNotify + |frames|)
    decreases |frames|
  {
    if frames != [] {
      var init, x := frames[..|frames| - 1], frames[|frames| - 1];
      FramesPending(s, batchSize, init);
      assert frames == init + [x];
      RunConcat(s, batchSize, Enqueues(init), [Enqueue(x)]);
      assert [Enqueue(x)][1..] == [];
    }
  }

  lemma BatchQueued(s: State, batchSize: nat, frames: seq<Blob>)
    requires s.pending == [] && s.writeQueue == [] && |frames| == Full(batchSize)
    ensures Run(s, batchSize, Enqueues(frames))
         == s.(writeQueue := [frames], enqueued := s.enqueued + frames, toNotify := s.toNotify + |frames|)
  {
    var init, x := frames[..|frames| - 1], frames[|frames| - 1];
    FramesPending(s, batchSize, init);
    assert frames == init + [x];
    RunConcat(s, batchSize, Enqueues(init), [Enqueue(x)]);
    assert [Enqueue(x)][1..] == [];
  }

  /** Shutting down at once, and a full batch of frames enqueued after it. */
  function StragglerRun(frames: seq<Blob>): seq<Event> {
    [Open(true), Stop] + Enqueues(frames) + [Check, Write, Check]
  }

  /** The worker writes that batch before it leaves, though nothing was enqueued before stop. */
  lemma StragglersWritten(batchSize: nat, frames: seq<Blob>)
    requires |frames| == Full(batchSize)
    ensures var s := Run(INITIAL, batchSize, StragglerRun(frames));
            s.worker == Exited(true) && s.beforeStop == 0 && s.enqueued == frames && s.file == Concat(frames)
  {
    var s1 := INITIAL.(worker := Checking, stop := true, toNotify := 1);
    assert Run(INITIAL, batchSize, [Open(true), Stop]) == s1 by {
      RunTwo(INITIAL, batchSize, Open(true), Stop);
    }
    var s2 := s1.(writeQueue := [frames], enqueued := frames, toNotify := 1 + |frames|);
    BatchQueued(s1, batchSize, frames);
    assert [] + frames == frames;
    RunThree(s2, batchSize, Check, Write, Check);
    RunConcat(INITIAL, batchSize, [Open(true), Stop], Enqueues(frames));
    RunConcat(INITIAL, batchSize, [Open(true), Stop] + Enqueues(frames), [Check, Write, Check]);
    hide Run, Concat, Enqueues, Full;
    assert [] + Concat(frames) == Concat(frames);
  }

  /** Shutting down at once; a frame enqueued after the worker has left never reaches the file. */
  lemma FrameLostAfterShutdown(batchSize: nat, frame: Blob, after: seq<Event>)
    ensures var s := Run(INITIAL, batchSize, [Open(true), Stop, Check] + ([Enqueue(frame)] + after));
            s.worker == Exited(true) && s.file == [] && [frame] <= s.enqueued
  {
    var before, last := [Open(true), Stop, Check], [Enqueue(frame)] + after;
    RunThree(INITIAL, batchSize, Open(true), Stop, Check);
    RunConcat(INITIAL, batchSize, before, last);
    var s := Run(INITIAL, batchSize, before);
    assert s == INITIAL.(worker := Exited(true), stop := true, toNotify := 1);
    assert last[0] == Enqueue(frame) && last[1..] == after;
    FileFrozen(s, batchSize, last);
    LateFrameLost(batchSize, before, frame, after);
  }

  // ---------- shutdown comes to an end ----------

  /** How many steps are left to the worker and to the threads about to notify. */
  function StepsLeft(s: State): nat {
    3 * |s.writeQueue| + s.toNotify +
    match s.worker
    case Opening => 2
    case Checking => 1
    case Waiting => 2
    case Writing(_) => 3
    case Exited(_) => 0
  }

  /** After stop every step but an enqueue uses up one of the steps left, or does nothing. */
  lemma ShutdownAdvances(s: State, batchSize: nat, e: Event)
    requires s.stop && !e.Enqueue?
    ensures var t := Step(s, batchSize, e);
            t.stop && t.enqueued == s.enqueued && (t == s || StepsLeft(t) < StepsLeft(s))
  {}

  /** The step that the worker, or a thread about to wake it, takes next. */
  function NextEvent(s: State): Event {
    match s.worker
    case Opening => Open(true)
    case Checking => Check
    case Waiting => Notify
    case Writing(_) => Write
    case Exited(_) => Check
  }

  /** Until the worker has left, there is such a step. */
  lemma NextAdvances(s: State, batchSize: nat)
    requires WakeupComing(s) && s.stop && !s.worker.Exited?
    ensures var t := Step(s, batchSize, NextEvent(s));
            && t.stop && t.enqueued == s.enqueued && t.beforeStop == s.beforeStop && StepsLeft(t) < StepsLeft(s)
            && (t.worker.Exited? ==> t.worker == Exited(true) && t.atExit == |s.enqueued|)
  {}

  ghost function WorkerRun(s: State, batchSize: nat): seq<Event>
    requires Valid(s, batchSize) && s.stop
    decreases StepsLeft(s)
  {
    if s.worker.Exited? then [] else
    NextAdvances(s, batchSize);
    StepKeepsValid(s, batchSize, NextEvent(s));
    [NextEvent(s)] + WorkerRun(Step(s, batchSize, NextEvent(s)), batchSize)
  }

  lemma {:induction false} WorkerLeaves(s: State, batchSize: nat) returns (t: State)
    requires Valid(s, batchSize) && s.stop && !s.worker.Exited?
    ensures t == Run(s, batchSize, WorkerRun(s, batchSize)) && Valid(t, batchSize)
    ensures t.worker == Exited(true) && t.atExit == |s.enqueued|
    ensures t.enqueued == s.enqueued && t.beforeStop == s.beforeStop
    decreases StepsLeft(s)
  {
    hide Valid, Step;
    var e := NextEvent(s);
    var u := Step(s, batchSize, e);
    assert WakeupComing(s) by { WakeupOf(s, batchSize); }
    NextAdvances(s, batchSize);
    StepKeepsValid(s, batchSize, e);
    var rest := WorkerRun(u, batchSize);
    assert ([e] + rest)[0] == e && ([e] + rest)[1..] == rest;
    if u.worker.Exited? {
      t := u;
    } else {
      t := WorkerLeaves(u, batchSize);
    }
  }

  lemma WakeupOf(s: State, batchSize: nat)
    requires Valid(s, batchSize)
    ensures WakeupComing(s)
  {}

  /** In every run: once the writer is stopped and the producers pause, the worker alone leaves,
      with everything enqueued in the file but what does not fill a batch after stop.
   */
  lemma ShutdownReturns(batchSize: nat, events: seq<Event>) returns (t: State, written: nat)
    requires var s := Run(INITIAL, batchSize, events); s.stop && !s.worker.Exited?
    ensures var s := Run(INITIAL, batchSize, events);
            && Valid(s, batchSize) && t == Run(s, batchSize, WorkerRun(s, batchSize))
            && t.worker == Exited(true) && t.enqueued == s.enqueued
            && s.beforeStop <= written <= |s.enqueued| < written + Full(batchSize)
            && t.file == Concat(s.enqueued[..written])
  {
    var s := Run(INITIAL, batchSize, events);
    hide Run, Valid, Concat, Full;
    InitialValid(batchSize);
    RunKeepsValid(INITIAL, batchSize, events);
    t := WorkerLeaves(s, batchSize);
    var extra := FileOfExited(t, batchSize);
    OneMore(Full(batchSize), extra);
    written := t.beforeStop + Full(batchSize) * extra;
  }

  // ---------- a file that cannot be opened ----------

  predicate NothingYet(s: State) {
    s.worker.Opening? ==> s.file == []
  }

  lemma StepKeepsNothing(s: State, batchSize: nat, e: Event)
    requires NothingYet(s)
    ensures NothingYet(Step(s, batchSize, e))
  {}

  lemma {:induction false} RunKeepsNothing(s: State, batchSize: nat, events: seq<Event>)
    requires NothingYet(s)
    ensures NothingYet(Run(s, batchSize, events))
    decreases |events|
  {
    hide Step, NothingYet;
    if events != [] {
      StepKeepsNothing(s, batchSize, events[0]);
      RunKeepsNothing(Step(s, batchSize, events[0]), batchSize, events[1..]);
    }
  }

  /** In every run: once opening the file has failed the worker has left, and the file is empty
      whatever is enqueued.
   */
  lemma FailedOpenWritesNothing(batchSize: nat, before: seq<Event>, after: seq<Event>)
    requires Run(INITIAL, batchSize, before).worker.Opening?
    ensures var t := Run(Step(Run(INITIAL, batchSize, before), batchSize, Open(false)), batchSize, after);
            t.worker == Exited(false) && t.file == []
  {
    RunKeepsNothing(INITIAL, batchSize, before);
    FileFrozen(Step(Run(INITIAL, batchSize, before), batchSize, Open(false)), batchSize, after);
  }

  // ---------- while it runs, full batches reach the file ----------

  /** The worker waits, and there is no batch for it. */
  predicate Idle(s: State) {
    s.worker.Waiting? && s.writeQueue == []
  }

  function StepsToIdle(s: State): nat {
    3 * |s.writeQueue| +
    match s.worker
    case Opening => 2
    case Checking => 1
    case Waiting => if s.writeQueue == [] then 0 else 2
    case Writing(_) => 3
    case Exited(_) => 0
  }

  lemma IdleNearer(s: State, batchSize: nat)
    requires WakeupComing(s) && !s.stop && !s.worker.Exited? && !Idle(s)
    ensures var t := Step(s, batchSize, NextEvent(s));
            && !t.stop && !t.worker.Exited? && StepsToIdle(t) < StepsToIdle(s)
            && t.enqueued == s.enqueued && t.pending == s.pending
  {}

  ghost function WriterRun(s: State, batchSize: nat): seq<Event>
    requires Valid(s, batchSize) && !s.stop && !s.worker.Exited?
    decreases StepsToIdle(s)
  {
    if Idle(s) then [] else
    IdleNearer(s, batchSize);
    StepKeepsValid(s, batchSize, NextEvent(s));
    [NextEvent(s)] + WriterRun(Step(s, batchSize, NextEvent(s)), batchSize)
  }

  lemma {:induction false} WriterComesToIdle(s: State, batchSize: nat) returns (t: State)
    requires Valid(s, batchSize) && !s.stop && !s.worker.Exited?
    ensures t == Run(s, batchSize, WriterRun(s, batchSize)) && Valid(t, batchSize) && Idle(t)
    ensures t.enqueued == s.enqueued && t.pending == s.pending
    decreases StepsToIdle(s)
  {
    if Idle(s) {
      t := s;
    } else {
      hide Valid, Step, Idle, StepsToIdle;
      var e := NextEvent(s);
      var u := Step(s, batchSize, e);
      WakeupOf(s, batchSize);
      IdleNearer(s, batchSize);
      StepKeepsValid(s, batchSize, e);
      t := WriterComesToIdle(u, batchSize);
      var rest := WriterRun(u, batchSize);
      assert ([e] + rest)[0] == e && ([e] + rest)[1..] == rest;
    }
  }

  /** In every run: whenever the producers pause before stop, the worker alone, with the notifications
      on their way, writes everything but the frames too few for a batch, and waits.
   */
  lemma PauseWrites(batchSize: nat, events: seq<Event>) returns (t: State)
    requires var s := Run(INITIAL, batchSize, events); !s.stop && !s.worker.Exited?
    ensures var s := Run(INITIAL, batchSize, events);
            && Valid(s, batchSize) && t == Run(s, batchSize, WriterRun(s, batchSize)) && Idle(t)
            && t.enqueued == s.enqueued && t.pending == s.pending
            && |s.pending| < Full(batchSize) && |s.pending| <= |s.enqueued|
            && t.file == Concat(s.enqueued[..|s.enqueued| - |s.pending|])
  {
    var s := Run(INITIAL, batchSize, events);
    InitialValid(batchSize);
    hide Run, Valid, Concat;
    RunKeepsValid(INITIAL, batchSize, events);
    t := WriterComesToIdle(s, batchSize);
    IdleFile(t, batchSize);
  }

  lemma IdleFile(t: State, batchSize: nat)
    requires Valid(t, batchSize) && Idle(t)
    ensures |t.pending| < Full(batchSize) && |t.pending| <= |t.enqueued|
    ensures t.file == Concat(t.enqueued[..|t.enqueued| - |t.pending|])
  {
    hide Concat;
    assert Batches(t) == t.flushed;
    assert Concat(t.flushed) == t.enqueued[..|t.enqueued| - |t.pending|];
  }

  // ---------- the program's object ----------

  class Writer {
    const batchSize: nat
    var pending: seq<Blob>
    var writeQueue: seq<seq<Blob>>
    var stop: bool
    var file: seq<bv8>
    ghost var worker: Worker
    ghost var toNotify: nat
    ghost var enqueued: seq<Blob>
    ghost var flushed: seq<seq<Blob>>
    ghost var beforeStop: nat
    ghost var stopBatches: nat
    ghost var atExit: nat

    constructor (batchSize: nat)
      ensures Now() == INITIAL && this.batchSize == batchSize
    {
      this.batchSize := batchSize;
      pending, writeQueue, stop, file := [], [], false, [];
      worker, toNotify, enqueued, flushed := Opening, 0, [], [];
      beforeStop, stopBatches, atExit := 0, 0, 0;
    }

    ghost function Now(): State
      reads this
    {
      State(pending, writeQueue, stop, worker, file, toNotify, enqueued, flushed, beforeStop, stopBatches, atExit)
    }

    method SwapPendingUnlocked()
      modifies this`pending, this`writeQueue
      ensures Now() == SwapPending(old(Now()))
    {
      if pending != [] {
        writeQueue := writeQueue + [pending];
        pending := [];
      }
    }

    /** The lock section of enqueue; the notification follows outside the lock. */
    method Enqueue(frame: Blob)
      modifies this
      ensures Now() == Step(old(Now()), batchSize, Event.Enqueue(frame))
    {
      pending := pending + [frame];
      enqueued := enqueued + [frame];
      toNotify := toNotify + 1;
      if |pending| >= batchSize {
        SwapPendingUnlocked();
      }
    }

    /** The lock section of shutdown. */
    method Shutdown()
      modifies this
      ensures Now() == Step(old(Now()), batchSize, Event.Stop)
    {
      if stop {
        return;
      }
      if pending != [] {
        SwapPendingUnlocked();
      }
      stop := true;
      toNotify := toNotify + 1;
      beforeStop, stopBatches := |enqueued|, |Batches(Now())|;
    }

    /** The lock section of the worker loop, once awake: the next batch, or whether to leave, or
        neither when the wait predicate is still false. */
    method TakeBatch() returns (batch: seq<Blob>, leave: bool)
      requires worker == Checking
      modifies this
      ensures Now() == Step(old(Now()), batchSize, Check)
      ensures leave <==> worker == Exited(true)
      ensures worker.Writing? ==> batch == worker.batch
      ensures !worker.Writing? ==> batch == []
    {
      batch, leave := [], false;
      if !(stop || writeQueue != []) {
        worker := Waiting;
        return;
      }
      if writeQueue != [] {
        batch := writeQueue[0];
        writeQueue := writeQueue[1..];
        worker := Writing(batch);
      } else if stop {
        leave := true;
        worker, atExit := Exited(true), |enqueued|;
      }
    }

    /** Writing the batch frame by frame; empty frames write nothing. */
    method WriteBatch(batch: seq<Blob>)
      requires worker == Writing(batch)
      modifies this
      ensures Now() == Step(old(Now()), batchSize, Write)
    {
      ghost var start := file;
      for i := 0 to |batch|
        invariant file + Concat(batch[i..]) == start + Concat(batch)
        invariant Now() == old(Now()).(file := file)
      {
        assert batch[i..][0] == batch[i] && batch[i..][1..] == batch[i + 1..];
        assert file + (batch[i] + Concat(batch[i + 1..])) == (file + batch[i]) + Concat(batch[i + 1..]);
        if batch[i] != [] {
          file := file + batch[i];
        }
      }
      assert batch[|batch|..] == [];
      assert file + [] == file;
      flushed, worker := flushed + [batch], Checking;
    }
  }
}
