/** The inertial samples' own thread.  The device callback appends samples to a bounded queue and
    drops the oldest one when it is full; the thread waits on a condition variable, takes the
    samples one at a time and publishes them outside the lock; stopping clears a flag without the
    lock, notifies, joins the thread and empties the queue.
 */
module ImuQueue {

  const IMU_QUEUE_MAX_SIZE: nat := 8000

  datatype Worker<T> =
    | Top                  // about to test the flag of the outer loop
    | Entering             // about to take the lock
    | Testing              // holds the lock, about to evaluate the wait predicate
    | MustBlock            // holds the lock, the predicate was false
    | Blocked              // waits for a notification, lock released
    | AfterWait            // holds the lock, about to test the flag
    | InnerTest            // holds the lock, about to test the inner loop
    | Publishing(item: T)  // lock released, one sample in hand
    | Relocking            // about to take the lock again
    | Exited

  datatype Stopper = NotStopping | Notifying | Joining

  datatype State<T> = State(
    queue: seq<T>,
    running: bool,
    worker: Worker<T>,
    notified: bool,
    mustNotify: bool,
    stopper: Stopper,
    received: seq<T>,
    taken: seq<nat>,
    lost: nat,
    lastClear: nat,
    published: seq<T>)

  datatype Event<T> =
    | Receive(item: T)
    | NotifyOne
    | WorkerStep
    | Spurious
    | Clear
    | StopFlag
    | StopNotify
    | StopJoined
    | Start

  predicate HoldsLock<T>(w: Worker<T>) {
    w.Testing? || w.MustBlock? || w.AfterWait? || w.InnerTest?
  }

  predicate WorkerEnabled<T>(s: State<T>) {
    !s.worker.Exited? && (s.worker.Blocked? ==> s.notified)
  }

  predicate Enabled<T>(s: State<T>, e: Event<T>) {
    match e
    case Receive(_) => !s.mustNotify && !HoldsLock(s.worker)
    case NotifyOne => s.mustNotify
    case WorkerStep => WorkerEnabled(s)
    case Spurious => s.worker.Blocked?
    case Clear => !HoldsLock(s.worker)
    case StopFlag => s.running && s.stopper.NotStopping?
    case StopNotify => s.stopper.Notifying?
    case StopJoined => s.stopper.Joining? && s.worker.Exited?
    case Start => !s.running && s.stopper.NotStopping? && s.worker.Exited?
  }

  /** Emptying the queue loses what it holds. */
  function Cleared<T>(s: State<T>): State<T> {
    s.(queue := [], lost := s.lost + |s.queue|, lastClear := |s.received|)
  }

  /** The next step of the worker thread. */
  function Work<T>(s: State<T>): State<T>
    requires WorkerEnabled(s)
  {
    match s.worker
    case Top => s.(worker := if s.running then Entering else Exited)
    case Entering => s.(worker := Testing)
    case Testing => s.(worker := if s.queue != [] || !s.running then AfterWait else MustBlock)
    case MustBlock => s.(worker := Blocked, notified := false)
    case Blocked => s.(worker := Testing, notified := false)
    case AfterWait => s.(worker := if s.running then InnerTest else Exited)
    case InnerTest =>
      if s.queue != [] && s.running then
        s.(worker := Publishing(s.queue[0]), queue := s.queue[1..],
           taken := s.taken + [if |s.queue| <= |s.received| then |s.received| - |s.queue| else 0])
      else
        s.(worker := Top)
    case Publishing(x) => s.(worker := Relocking, published := s.published + [x])
    case Relocking => s.(worker := InnerTest)
  }

  function Step<T>(s: State<T>, e: Event<T>): State<T>
    requires Enabled(s, e)
  {
    match e
    case Receive(x) =>
      var full := |s.queue| >= IMU_QUEUE_MAX_SIZE;
      s.(queue := (if full then s.queue[1..] else s.queue) + [x],
         lost := s.lost + if full then 1 else 0,
         received := s.received + [x],
         mustNotify := true)
    case NotifyOne => s.(mustNotify := false, notified := s.notified || s.worker.Blocked?)
    case WorkerStep => Work(s)
    case Spurious => s.(worker := Testing, notified := false)
    case Clear => Cleared(s)
    case StopFlag => s.(running := false, stopper := Notifying)
    case StopNotify => s.(stopper := Joining, notified := s.notified || s.worker.Blocked?)
    case StopJoined => Cleared(s).(stopper := NotStopping)
    case Start => s.(running := true, worker := Top)
  }

  function Initial<T>(): State<T> {
    State([], false, Exited, false, false, NotStopping, [], [], 0, 0, [])
  }

  ghost predicate Runs<T>(s: State<T>, es: seq<Event<T>>, t: State<T>)
    decreases |es|
  {
    if es == [] then s == t else Enabled(s, es[0]) && Runs(Step(s, es[0]), es[1..], t)
  }

  // -- What happens to the samples -----------------------------------------------------------

  function InHand<T>(w: Worker<T>): seq<T> {
    if w.Publishing? then [w.item] else []
  }

  /** The queue is the end of what was received since it was last cleared. */
  ghost predicate QueueIsSuffix<T>(s: State<T>) {
    && |s.queue| <= IMU_QUEUE_MAX_SIZE
    && s.lastClear + |s.queue| <= |s.received|
    && s.queue == s.received[|s.received| - |s.queue|..]
  }

  /** The samples taken, at their positions in what was received: strictly increasing, so in
      order and without repetition, and all before the queue.
   */
  ghost predicate TakenInOrder<T>(s: State<T>) {
    && |s.queue| <= |s.received|
    && (forall i, j :: 0 <= i < j < |s.taken| ==> s.taken[i] < s.taken[j])
    && (forall i :: 0 <= i < |s.taken| ==> s.taken[i] < |s.received| - |s.queue|)
  }

  /** What was published, with the sample in hand, are the samples taken. */
  ghost predicate PublishedIsTaken<T>(s: State<T>) {
    && (forall i :: 0 <= i < |s.taken| ==> s.taken[i] < |s.received|)
    && |s.published| + |InHand(s.worker)| == |s.taken|
    && forall i :: 0 <= i < |s.taken| ==> (s.published + InHand(s.worker))[i] == s.received[s.taken[i]]
  }

  ghost predicate Accounted<T>(s: State<T>) {
    |s.received| == |s.taken| + |s.queue| + s.lost
  }

  ghost predicate SamplesSound<T>(s: State<T>) {
    QueueIsSuffix(s) && TakenInOrder(s) && PublishedIsTaken(s) && Accounted(s)
  }

  lemma ReceiveSound<T>(s: State<T>, x: T)
    requires SamplesSound(s) && Enabled(s, Receive(x))
    ensures SamplesSound(Step(s, Receive(x)))
  {
    var t := Step(s, Receive(x));
    var n, q := |s.received|, |s.queue|;
    assert t.received[|t.received| - |t.queue|..] == t.queue;
    assert t.published + InHand(t.worker) == s.published + InHand(s.worker);
  }

  lemma TakeSound<T>(s: State<T>)
    requires SamplesSound(s) && s.worker.InnerTest? && s.queue != [] && s.running
    ensures SamplesSound(Work(s))
  {
    var t := Work(s);
    var n := |s.received| - |s.queue|;
    assert t.queue == t.received[|t.received| - |t.queue|..];
    assert t.taken == s.taken + [n];
    assert s.queue[0] == s.received[n];
    assert s.published + InHand(s.worker) == s.published;
  }

  lemma PublishSound<T>(s: State<T>)
    requires SamplesSound(s) && s.worker.Publishing?
    ensures SamplesSound(Work(s))
  {
    var t := Work(s);
    assert t.published + InHand(t.worker) == s.published + InHand(s.worker);
  }

  lemma ClearSound<T>(s: State<T>)
    requires SamplesSound(s)
    ensures SamplesSound(Cleared(s))
  {}

  /** Steps that touch neither the queue nor the sample in hand. */
  lemma SameSamples<T>(s: State<T>, t: State<T>)
    requires SamplesSound(s)
    requires t.queue == s.queue && t.received == s.received && t.taken == s.taken && t.lost == s.lost
    requires t.lastClear == s.lastClear && t.published == s.published && InHand(t.worker) == InHand(s.worker)
    ensures SamplesSound(t)
  {}

  lemma WorkKeepsSamples<T>(s: State<T>)
    requires SamplesSound(s) && WorkerEnabled(s)
    ensures SamplesSound(Work(s))
  {
    if s.worker.InnerTest? && s.queue != [] && s.running {
      TakeSound(s);
    } else if s.worker.Publishing? {
      PublishSound(s);
    } else {
      hide SamplesSound;
      SameSamples(s, Work(s));
    }
  }

  lemma StepKeepsSamples<T>(s: State<T>, e: Event<T>)
    requires SamplesSound(s) && Enabled(s, e)
    ensures SamplesSound(Step(s, e))
  {
    hide SamplesSound, Work;
    match e
    case Receive(x) => ReceiveSound(s, x);
    case WorkerStep => WorkKeepsSamples(s);
    case Clear => ClearSound(s);
    case StopJoined =>
      ClearSound(s);
      SameSamples(Cleared(s), Step(s, e));
    case _ => SameSamples(s, Step(s, e));
  }

  /** In every interleaving: at most 8000 samples queued, the queue a contiguous suffix of what
      was received since the last clearing, and the published samples in order without repetition.
   */
  lemma {:induction false} SamplesSoundOnRun<T>(s: State<T>, es: seq<Event<T>>, t: State<T>)
    requires SamplesSound(s) && Runs(s, es, t)
    ensures SamplesSound(t)
    decreases |es|
  {
    if es != [] {
      StepKeepsSamples(s, es[0]);
      SamplesSoundOnRun(Step(s, es[0]), es[1..], t);
    }
  }

  lemma {:induction false} IncreasingFromZero(ks: seq<nat>, i: nat)
    requires forall i, j :: 0 <= i < j < |ks| ==> ks[i] < ks[j]
    requires i < |ks|
    ensures i <= ks[i] && ks[i] + (|ks| - 1 - i) <= ks[|ks| - 1]
    decreases i
  {
    if i > 0 {
      IncreasingFromZero(ks, i - 1);
    }
    IncreasingToEnd(ks, i);
  }

  lemma {:induction false} IncreasingToEnd(ks: seq<nat>, i: nat)
    requires forall i, j :: 0 <= i < j < |ks| ==> ks[i] < ks[j]
    requires i < |ks|
    ensures ks[i] + (|ks| - 1 - i) <= ks[|ks| - 1]
    decreases |ks| - i
  {
    if i + 1 < |ks| {
      IncreasingToEnd(ks, i + 1);
    }
  }

  /** Published, then in hand, then queued is exactly what was received if and only if nothing was
      lost, neither to a full queue nor to a clearing.
   */
  lemma NothingLostIff<T>(s: State<T>)
    requires SamplesSound(s)
    ensures s.published + InHand(s.worker) + s.queue == s.received <==> s.lost == 0
  {
    if s.lost == 0 {
      AllTaken(s);
      var n := |s.received| - |s.queue|;
      assert s.received == s.received[..n] + s.received[n..];
    } else {
      assert |s.published + InHand(s.worker) + s.queue| < |s.received|;
    }
  }

  lemma AllTaken<T>(s: State<T>)
    requires SamplesSound(s) && s.lost == 0
    ensures s.published + InHand(s.worker) == s.received[..|s.received| - |s.queue|]
  {
    var n := |s.received| - |s.queue|;
    var done := s.published + InHand(s.worker);
    forall i | 0 <= i < n
      ensures s.taken[i] == i
    {
      IncreasingFromZero(s.taken, i);
    }
  }

  // -- The thread is woken for every sample --------------------------------------------------

  /** A thread that is blocked, not notified, while samples are queued is about to be notified;
      and it never decides to block while samples are queued.
   */
  ghost predicate SamplesWake<T>(s: State<T>) {
    && (s.worker.MustBlock? ==> s.queue == [])
    && (s.worker.Blocked? && !s.notified && s.queue != [] ==> s.mustNotify)
  }

  lemma StepKeepsWake<T>(s: State<T>, e: Event<T>)
    requires SamplesWake(s) && Enabled(s, e)
    ensures SamplesWake(Step(s, e))
  {}

  /** Stopping and starting keep the flag, the stopper and the thread in step. */
  ghost predicate FlagSound<T>(s: State<T>) {
    && (s.stopper != NotStopping ==> !s.running)
    && (!s.running && s.stopper.NotStopping? ==> s.worker.Exited?)
    && (s.worker.Exited? ==> !s.running)
  }

  lemma StepKeepsFlag<T>(s: State<T>, e: Event<T>)
    requires FlagSound(s) && Enabled(s, e)
    ensures FlagSound(Step(s, e))
  {}

  lemma {:induction false} ThreadSoundOnRun<T>(s: State<T>, es: seq<Event<T>>, t: State<T>)
    requires SamplesWake(s) && FlagSound(s) && Runs(s, es, t)
    ensures SamplesWake(t) && FlagSound(t)
    decreases |es|
  {
    if es != [] {
      StepKeepsWake(s, es[0]);
      StepKeepsFlag(s, es[0]);
      hide SamplesWake, FlagSound, Step, Enabled;
      ThreadSoundOnRun(Step(s, es[0]), es[1..], t);
    }
  }

  // -- Does stopping return? -----------------------------------------------------------------

  function WorkerRank<T>(s: State<T>): nat {
    match s.worker
    case Exited => 0
    case Top => 1
    case AfterWait => 1
    case InnerTest => 2
    case Relocking => 3
    case Publishing(_) => 4
    case Testing => 2
    case Entering => 3
    case Blocked => 3
    case MustBlock => 4
  }

  /** The worker running alone once the flag is cleared. */
  function WorkerAlone<T>(s: State<T>): (t: State<T>)
    requires !s.running
    ensures t.stopper == s.stopper && !WorkerEnabled(t)
    decreases WorkerRank(s), s.notified
  {
    if WorkerEnabled(s) then WorkerAlone(Work(s)) else s
  }

  /** The thread has found its wait predicate false but does not wait yet. */
  predicate DecidedToBlock<T>(s: State<T>) {
    s.worker.MustBlock?
  }

  /** After the flag is cleared and the waiters are notified, the thread comes to its end on its
      own exactly when the notification did not fall between the thread's test of the predicate
      and its wait.
   */
  lemma StopReturnsIff<T>(s: State<T>)
    requires FlagSound(s) && Enabled(s, StopNotify)
    ensures var t := WorkerAlone(Step(s, StopNotify));
      && (Enabled(t, StopJoined) <==> !DecidedToBlock(s))
      && (DecidedToBlock(s) ==> t.worker.Blocked? && !t.notified)
  {
    var u := Step(s, StopNotify);
    match s.worker
    case Exited =>
    case Top =>
    case MustBlock => assert WorkerAlone(u) == WorkerAlone(Work(u));
    case Blocked => TestingExits(Work(u));
    case Testing => TestingExits(u);
    case Entering => TestingExits(Work(u));
    case AfterWait =>
    case InnerTest => InnerExits(u);
    case Relocking => InnerExits(Work(u));
    case Publishing(_) => InnerExits(Work(Work(u)));
  }

  lemma TestingExits<T>(s: State<T>)
    requires !s.running && s.worker.Testing?
    ensures WorkerAlone(s).worker.Exited?
  {
    assert WorkerAlone(s) == WorkerAlone(Work(s)) == WorkerAlone(Work(Work(s)));
  }

  lemma InnerExits<T>(s: State<T>)
    requires !s.running && s.worker.InnerTest?
    ensures WorkerAlone(s).worker.Exited?
  {
    assert WorkerAlone(s) == WorkerAlone(Work(s)) == WorkerAlone(Work(Work(s)));
  }

  /** A blocked thread that missed the notification ends with the next sample. */
  lemma NextSampleReleasesStop<T>(s: State<T>, x: T)
    requires s.stopper.Joining? && !s.running && s.worker.Blocked? && !s.notified && !s.mustNotify
    ensures Enabled(s, Receive(x)) && Enabled(Step(s, Receive(x)), NotifyOne)
    ensures Enabled(WorkerAlone(Step(Step(s, Receive(x)), NotifyOne)), StopJoined)
  {
    var t := Step(Step(s, Receive(x)), NotifyOne);
    TestingExits(Work(t));
  }

  /** Such a missed notification can happen: the thread tests, the stopper clears and notifies,
      the thread waits.
   */
  lemma MissedStop<T>()
    ensures var t := Initial<T>().(worker := Blocked, stopper := Joining);
      && Runs(Initial(), [Start, WorkerStep, WorkerStep, WorkerStep, StopFlag, StopNotify, WorkerStep], t)
      && !Enabled(t, StopJoined) && !Enabled(t, WorkerStep)
  {
    var s0 := Initial<T>();
    var up := s0.(running := true);
    var t := s0.(worker := Blocked, stopper := Joining);
    var u := s0.(worker := MustBlock, stopper := Joining);
    assert Step(u, WorkerStep) == t;
    assert Runs(t, [], t);
    assert Runs(u, [WorkerStep], t);
    assert Runs(u.(stopper := Notifying), [StopNotify, WorkerStep], t);
    assert Runs(up.(worker := MustBlock), [StopFlag, StopNotify, WorkerStep], t);
    assert Runs(up.(worker := Testing), [WorkerStep, StopFlag, StopNotify, WorkerStep], t);
    assert Runs(up.(worker := Entering), [WorkerStep, WorkerStep, StopFlag, StopNotify, WorkerStep], t);
    assert Runs(up.(worker := Top), [WorkerStep, WorkerStep, WorkerStep, StopFlag, StopNotify, WorkerStep], t);
  }

  lemma InitialSound<T>()
    ensures SamplesSound(Initial<T>()) && SamplesWake(Initial<T>()) && FlagSound(Initial<T>())
  {
    var s := Initial<T>();
    assert s.received[|s.received| - |s.queue|..] == [];
    assert s.published + InHand(s.worker) == [];
  }

  /** Everything starts sound, so every run does everything the invariants say. */
  lemma EveryRun<T>(es: seq<Event<T>>, t: State<T>)
    requires Runs(Initial(), es, t)
    ensures SamplesSound(t) && SamplesWake(t) && FlagSound(t)
    ensures t.published + InHand(t.worker) + t.queue == t.received <==> t.lost == 0
  {
    hide Runs, SamplesSound, SamplesWake, FlagSound, Initial, InHand;
    InitialSound<T>();
    SamplesSoundOnRun(Initial(), es, t);
    ThreadSoundOnRun(Initial(), es, t);
    NothingLostIff(t);
  }

  // -- The thread publishes ------------------------------------------------------------------

  /** The thread waits, and nothing is on its way to wake it. */
  predicate Resting<T>(s: State<T>) {
    s.worker.Blocked? && !s.notified && !s.mustNotify
  }

  /** The outstanding notification, then the thread's own steps. */
  function AloneEvent<T>(s: State<T>): Event<T> {
    if s.mustNotify then NotifyOne else WorkerStep
  }

  /** What is published, and what is to be. */
  function Outgoing<T>(s: State<T>): seq<T> {
    s.published + InHand(s.worker) + s.queue
  }

  /** How many steps the thread can take before it takes a sample, or before it rests. */
  function StepsToGo<T>(s: State<T>): nat {
    match s.worker
    case Exited => 0
    case InnerTest => if s.queue == [] then 5 else 0
    case AfterWait => 6
    case Relocking => 6
    case Publishing(_) => 7
    case Blocked => if s.queue == [] && !s.notified then 0 else 8
    case MustBlock => 1
    case Testing => if s.queue == [] then 2 else 7
    case Entering => if s.queue == [] then 3 else 8
    case Top => if s.queue == [] then 4 else 9
  }

  lemma AloneEnabled<T>(s: State<T>)
    requires FlagSound(s) && s.running && !Resting(s)
    ensures Enabled(s, AloneEvent(s))
  {}

  lemma OutgoingKept<T>(s: State<T>)
    requires s.running && Enabled(s, AloneEvent(s))
    ensures var t := Step(s, AloneEvent(s));
      && t.running && !t.mustNotify && t.received == s.received && t.lost == s.lost && Outgoing(t) == Outgoing(s)
  {
    if s.worker.InnerTest? && s.queue != [] && !s.mustNotify {
      var x, rest := s.queue[0], s.queue[1..];
      assert s.queue == [x] + rest;
      assert s.published + [] + ([x] + rest) == s.published + [x] + rest;
    }
  }

  lemma AloneGetsOn<T>(s: State<T>)
    requires SamplesWake(s) && s.running && !Resting(s) && Enabled(s, AloneEvent(s)) && !s.worker.Exited?
    ensures var t := Step(s, AloneEvent(s));
      |t.queue| <= |s.queue| && (s.mustNotify || |t.queue| < |s.queue| || StepsToGo(t) < StepsToGo(s))
  {}

  lemma AloneAdvances<T>(s: State<T>)
    requires SamplesWake(s) && FlagSound(s) && s.running && !Resting(s)
    ensures Enabled(s, AloneEvent(s))
    ensures var t := Step(s, AloneEvent(s));
      && SamplesWake(t) && FlagSound(t) && t.running && !t.mustNotify
      && t.received == s.received && t.lost == s.lost && Outgoing(t) == Outgoing(s)
      && |t.queue| <= |s.queue| && (s.mustNotify || |t.queue| < |s.queue| || StepsToGo(t) < StepsToGo(s))
  {
    assert !s.worker.Exited?;
    hide SamplesWake, FlagSound, Step, Resting, StepsToGo, Outgoing, Enabled, AloneEvent;
    AloneEnabled(s);
    StepKeepsWake(s, AloneEvent(s));
    StepKeepsFlag(s, AloneEvent(s));
    OutgoingKept(s);
    AloneGetsOn(s);
  }

  ghost function AloneRun<T>(s: State<T>): seq<Event<T>>
    requires SamplesWake(s) && FlagSound(s) && s.running
    decreases s.mustNotify, |s.queue|, StepsToGo(s)
  {
    if Resting(s) then [] else
    AloneAdvances(s);
    [AloneEvent(s)] + AloneRun(Step(s, AloneEvent(s)))
  }

  /** While the flag is set and no more samples come, the thread with its outstanding notification
      comes to rest with the queue empty, and has published exactly what was in hand and queued.
   */
  lemma {:induction false} ThreadPublishes<T>(s: State<T>) returns (t: State<T>)
    requires SamplesWake(s) && FlagSound(s) && s.running
    ensures Runs(s, AloneRun(s), t) && Resting(t) && t.queue == []
    ensures t.published == s.published + InHand(s.worker) + s.queue
    ensures t.running && t.received == s.received && t.lost == s.lost
    decreases s.mustNotify, |s.queue|, StepsToGo(s)
  {
    if Resting(s) {
      t := s;
      assert s.published + [] + [] == s.published;
    } else {
      hide SamplesWake, FlagSound, Step, Resting, StepsToGo;
      var e := AloneEvent(s);
      AloneAdvances(s);
      var u := Step(s, e);
      t := ThreadPublishes(u);
      var es := AloneRun(u);
      assert ([e] + es)[0] == e && ([e] + es)[1..] == es;
      assert Outgoing(u) == Outgoing(s);
    }
  }

  /** So from every reachable state in which the flag is set. */
  lemma EveryRunPublishes<T>(es: seq<Event<T>>, s: State<T>) returns (t: State<T>)
    requires Runs(Initial(), es, s) && s.running
    ensures SamplesWake(s) && FlagSound(s) && Runs(s, AloneRun(s), t) && Resting(t) && t.queue == []
    ensures t.published == s.published + InHand(s.worker) + s.queue
  {
    hide Runs, SamplesSound, SamplesWake, FlagSound, Initial, InHand, Resting;
    InitialSound<T>();
    ThreadSoundOnRun(Initial(), es, s);
    t := ThreadPublishes(s);
  }

  /** With the number: a sample is lost to a full queue exactly when 8000 are queued. */
  lemma LossAtEightThousand<T>(s: State<T>, x: T)
    requires SamplesSound(s) && Enabled(s, Receive(x))
    ensures var t := Step(s, Receive(x));
      && |s.queue| <= 8000
      && (|s.queue| < 8000 ==> t.lost == s.lost && t.queue == s.queue + [x])
      && (|s.queue| == 8000 ==> t.lost == s.lost + 1 && t.queue == s.queue[1..] + [x])
  {}

  // -- The code ------------------------------------------------------------------------------

  /** The effect of one critical section of the callback, apart from the notification. */
  function Received<T>(s: State<T>, x: T): State<T> {
    var full := |s.queue| >= IMU_QUEUE_MAX_SIZE;
    s.(queue := (if full then s.queue[1..] else s.queue) + [x], lost := s.lost + if full then 1 else 0,
       received := s.received + [x])
  }

  lemma ReceiveQuiet<T>(s: State<T>, x: T)
    requires SamplesSound(s) && Enabled(s, Receive(x))
    ensures SamplesSound(Received(s, x)) && Step(s, Receive(x)) == Received(s, x).(mustNotify := true)
  {
    ReceiveSound(s, x);
    SameSamples(Step(s, Receive(x)), Received(s, x));
  }

  /** One round of the inner loop. */
  function TakenOne<T>(s: State<T>): State<T>
    requires 0 < |s.queue| <= |s.received|
  {
    s.(queue := s.queue[1..], taken := s.taken + [|s.received| - |s.queue|], published := s.published + [s.queue[0]])
  }

  lemma TakeAndPublish<T>(s: State<T>)
    requires SamplesSound(s) && s.worker.InnerTest? && s.queue != [] && s.running
    ensures |s.queue| <= |s.received| && SamplesSound(TakenOne(s))
  {
    TakeSound(s);
    PublishSound(Work(s));
    SameSamples(Work(Work(s)), TakenOne(s));
  }

  lemma NoSteps<T>(s: State<T>)
    ensures Runs(s, [], s)
  {}

  /** One round of the inner loop is three steps of the thread. */
  lemma RoundIsSteps<T>(s: State<T>)
    requires SamplesSound(s) && s.worker.InnerTest? && s.queue != [] && s.running
    ensures |s.queue| <= |s.received| && Runs(s, [WorkerStep, WorkerStep, WorkerStep], TakenOne(s))
  {
    RoundOfWork(s);
    ThreeSteps(s, Work(s), Work(Work(s)), TakenOne(s), WorkerStep);
  }

  lemma RoundOfWork<T>(s: State<T>)
    requires SamplesSound(s) && s.worker.InnerTest? && s.queue != [] && s.running
    ensures WorkerEnabled(s) && WorkerEnabled(Work(s)) && WorkerEnabled(Work(Work(s)))
    ensures |s.queue| <= |s.received| && Work(Work(Work(s))) == TakenOne(s)
  {}

  lemma ThreeSteps<T>(s: State<T>, u: State<T>, v: State<T>, t: State<T>, e: Event<T>)
    requires Enabled(s, e) && Step(s, e) == u && Enabled(u, e) && Step(u, e) == v && Enabled(v, e) && Step(v, e) == t
    ensures Runs(s, [e, e, e], t)
  {
    hide Step, Enabled;
    assert Runs(t, [], t);
    assert [e][1..] == [] && [e, e][1..] == [e] && [e, e, e][1..] == [e, e];
    assert Runs(v, [e], t);
    assert Runs(u, [e, e], t);
  }

  lemma {:induction false} RunsConcat<T>(s: State<T>, es: seq<Event<T>>, t: State<T>, fs: seq<Event<T>>, u: State<T>)
    requires Runs(s, es, t) && Runs(t, fs, u)
    ensures Runs(s, es + fs, u)
    decreases |es|
  {
    if es == [] {
      assert es + fs == fs;
    } else {
      hide Step, Enabled;
      RunsConcat(Step(s, es[0]), es[1..], t, fs, u);
      assert (es + fs)[0] == es[0] && (es + fs)[1..] == es[1..] + fs;
    }
  }

  /** Leaving the inner loop is one step. */
  lemma LeavingIsStep<T>(s: State<T>)
    requires s.worker.InnerTest? && (s.queue == [] || !s.running)
    ensures Runs(s, [WorkerStep], s.(worker := Top))
  {
    var t := s.(worker := Top);
    assert Step(s, WorkerStep) == t;
    assert Runs(t, [], t);
  }

  /** The queue shared by the device callback and the dedicated thread. */
  class ImuDispatcher<T> {
    var queue: seq<T>
    var running: bool
    var published: seq<T>
    ghost var received: seq<T>
    ghost var taken: seq<nat>
    ghost var lost: nat
    ghost var lastClear: nat

    ghost function At(w: Worker<T>): State<T>
      reads this
    {
      State(queue, running, w, false, false, NotStopping, received, taken, lost, lastClear, published)
    }

    ghost predicate Valid()
      reads this
    {
      SamplesSound(At(Top))
    }

    constructor ()
      ensures Valid() && At(Exited) == Initial()
    {
      queue, running, published := [], false, [];
      received, taken, lost, lastClear := [], [], 0, 0;
    }

    /** The callback's critical section. */
    method LidarDataCallback(item: T)
      requires Valid()
      modifies `queue, `received, `lost
      ensures Valid()
      ensures At(Top) == Received(old(At(Top)), item)
      ensures old(|queue|) < IMU_QUEUE_MAX_SIZE ==> queue == old(queue) + [item]
    {
      hide SamplesSound;
      ReceiveQuiet(At(Top), item);
      if |queue| >= IMU_QUEUE_MAX_SIZE {
        queue := queue[1..];
        lost := lost + 1;
      }
      queue := queue + [item];
      received := received + [item];
    }

    /** The thread's inner loop, when nobody interferes, is a run of the thread's own steps: every
        queued sample is published, in order, unless the flag was cleared before.
     */
    method ProcessPending() returns (ghost es: seq<Event<T>>)
      requires Valid()
      modifies `queue, `published, `taken
      ensures Valid()
      ensures published + queue == old(published + queue)
      ensures queue == if running then [] else old(queue)
      ensures Runs(old(At(InnerTest)), es, At(Top)) && forall e :: e in es ==> e == WorkerStep
    {
      hide SamplesSound, Runs;
      ghost var start := At(InnerTest);
      es := [];
      SameSamples(At(Top), start);
      NoSteps(start);
      while queue != [] && running
        invariant SamplesSound(At(InnerTest))
        invariant published + queue == old(published + queue)
        invariant !running ==> queue == old(queue)
        invariant Runs(start, es, At(InnerTest)) && forall e :: e in es ==> e == WorkerStep
        decreases |queue|
      {
        ghost var here := At(InnerTest);
        TakeAndPublish(here);
        RoundIsSteps(here);
        ghost var before := published + queue;
        var item := queue[0];
        assert queue == [item] + queue[1..];
        taken := taken + [|received| - |queue|];
        queue := queue[1..];
        published := published + [item];
        assert published + queue == before;
        RunsConcat(start, es, here, [WorkerStep, WorkerStep, WorkerStep], At(InnerTest));
        es := es + [WorkerStep, WorkerStep, WorkerStep];
      }
      LeavingIsStep(At(InnerTest));
      RunsConcat(start, es, At(InnerTest), [WorkerStep], At(Top));
      es := es + [WorkerStep];
      SameSamples(At(InnerTest), At(Top));
    }

    /** The end of stopping: the queue is emptied, and what it held is lost. */
    method ClearQueue()
      requires Valid()
      modifies `queue, `lost, `lastClear
      ensures Valid() && queue == [] && At(Exited) == Cleared(old(At(Exited)))
    {
      ClearSound(At(Top));
      hide SamplesSound;
      lost := lost + |queue|;
      lastClear := |received|;
      while queue != []
        invariant At(Top).(queue := []) == Cleared(old(At(Top)))
        decreases |queue|
      {
        queue := queue[1..];
      }
    }
  }
}
