/** The wake-up protocol between the threads that store lidar packets and the thread that publishes
    them.  A producer stores a packet, looks whether the queue is nonempty, reads the semaphore's
    count and signals only when the count is zero.  The consumer takes the semaphore once and then
    sweeps over all lidars, draining the queue of every lidar that is sampling.
 */
module LivoxWakeup {

  datatype Packet = Packet(baseTime: nat, points: seq<nat>)

  datatype Producer = Idle | AfterPush(lidar: nat) | BeforeCount | Armed

  datatype Consumer = Waiting | Visiting(lidar: nat) | Draining(lidar: nat)

  datatype State = State(
    queues: seq<seq<Packet>>,
    capacity: nat,
    sampling: seq<bool>,
    count: nat,
    producers: seq<Producer>,
    consumer: Consumer,
    accepted: seq<seq<Packet>>,
    popped: seq<seq<Packet>>)

  datatype Event =
    | Push(producer: nat, lidar: nat, packet: Packet)
    | TestEmpty(producer: nat)
    | ReadCount(producer: nat)
    | Signal(producer: nat)
    | Take
    | Visit
    | Drain
    | TurnOn(lidar: nat)
    | TurnOff(lidar: nat)

  predicate WellFormed(s: State) {
    && |s.sampling| == |s.queues| == |s.accepted| == |s.popped|
    && s.capacity > 0
    && match s.consumer
       case Waiting => true
       case Visiting(i) => i <= |s.queues|
       case Draining(i) => i < |s.queues|
  }

  predicate Enabled(s: State, e: Event) {
    && WellFormed(s)
    && match e
       case Push(p, l, _) => p < |s.producers| && s.producers[p] == Idle && l < |s.queues|
       case TestEmpty(p) =>
         p < |s.producers| && s.producers[p].AfterPush? && s.producers[p].lidar < |s.queues|
       case ReadCount(p) => p < |s.producers| && s.producers[p] == BeforeCount
       case Signal(p) => p < |s.producers| && s.producers[p] == Armed
       case Take => s.consumer == Waiting && s.count > 0
       case Visit => s.consumer.Visiting?
       case Drain => s.consumer.Draining?
       case TurnOn(l) => l < |s.queues|
       case TurnOff(l) => l < |s.queues|
  }

  function Step(s: State, e: Event): State
    requires Enabled(s, e)
  {
    match e
    case Push(p, l, x) =>
      if |s.queues[l]| < s.capacity then
        s.(queues := s.queues[l := s.queues[l] + [x]],
           accepted := s.accepted[l := s.accepted[l] + [x]],
           producers := s.producers[p := AfterPush(l)])
      else
        s.(producers := s.producers[p := BeforeCount])
    case TestEmpty(p) =>
      s.(producers := s.producers[p := if s.queues[s.producers[p].lidar] != [] then BeforeCount else Idle])
    case ReadCount(p) => s.(producers := s.producers[p := if s.count <= 0 then Armed else Idle])
    case Signal(p) => s.(producers := s.producers[p := Idle], count := s.count + 1)
    case Take => s.(count := s.count - 1, consumer := Visiting(0))
    case Visit =>
      var i := s.consumer.lidar;
      s.(consumer := if i == |s.queues| then Waiting else if s.sampling[i] then Draining(i) else Visiting(i + 1))
    case Drain =>
      var i := s.consumer.lidar;
      if s.queues[i] == [] then
        s.(consumer := Visiting(i + 1))
      else
        s.(queues := s.queues[i := s.queues[i][1..]], popped := s.popped[i := s.popped[i] + [s.queues[i][0]]])
    case TurnOn(l) => s.(sampling := s.sampling[l := true])
    case TurnOff(l) => s.(sampling := s.sampling[l := false])
  }

  ghost predicate Runs(s: State, es: seq<Event>, t: State)
    decreases |es|
  {
    if es == [] then s == t else Enabled(s, es[0]) && Runs(Step(s, es[0]), es[1..], t)
  }

  function Initial(lidars: nat, producers: nat, capacity: nat): State {
    State(seq(lidars, _ => []), capacity, seq(lidars, _ => false), 0, seq(producers, _ => Idle), Waiting,
          seq(lidars, _ => []), seq(lidars, _ => []))
  }

  // -- Conservation --------------------------------------------------------------------------

  /** Lidar by lidar, what was accepted is what was popped followed by what is queued, and no
      queue outgrows its capacity.
   */
  ghost predicate Conserves(s: State) {
    && WellFormed(s)
    && (forall l :: 0 <= l < |s.queues| ==> s.accepted[l] == s.popped[l] + s.queues[l])
    && (forall l :: 0 <= l < |s.queues| ==> |s.queues[l]| <= s.capacity)
    && (forall p :: 0 <= p < |s.producers| && s.producers[p].AfterPush? ==> s.producers[p].lidar < |s.queues|)
  }

  lemma StepConserves(s: State, e: Event)
    requires Conserves(s) && Enabled(s, e)
    ensures Conserves(Step(s, e))
  {
    if e.Drain? && s.queues[s.consumer.lidar] != [] {
      var q := s.queues[s.consumer.lidar];
      assert q == [q[0]] + q[1..];
    }
  }

  // -- No lost wake-up -----------------------------------------------------------------------

  /** Producer p is certain to leave the semaphore positive, whatever the queues hold. */
  predicate Pending(p: Producer) {
    p.BeforeCount? || p.Armed?
  }

  ghost predicate SomePending(s: State) {
    exists p :: 0 <= p < |s.producers| && Pending(s.producers[p])
  }

  ghost predicate SomePushed(s: State, l: nat) {
    exists p :: 0 <= p < |s.producers| && s.producers[p] == AfterPush(l)
  }

  /** The sweep has not passed lidar l. */
  predicate Ahead(c: Consumer, l: nat) {
    match c
    case Waiting => false
    case Visiting(i) => i <= l
    case Draining(i) => i <= l
  }

  /** Somebody will still look at lidar l. */
  ghost predicate Watched(s: State, l: nat) {
    s.count > 0 || SomePending(s) || SomePushed(s, l) || Ahead(s.consumer, l)
  }

  ghost predicate NoLostWakeup(s: State) {
    && WellFormed(s)
    && forall l :: 0 <= l < |s.queues| && s.sampling[l] && s.queues[l] != [] ==> Watched(s, l)
  }

  /** Switching a lidar to sampling is harmless when nothing is queued for it, or when somebody
      will look at it anyway.
   */
  ghost predicate Harmless(s: State, e: Event)
    requires Enabled(s, e)
  {
    e.TurnOn? ==> s.queues[e.lidar] == [] || Watched(s, e.lidar)
  }

  lemma WatchedAfter(s: State, e: Event, l: nat)
    requires Enabled(s, e) && l < |s.queues| && Watched(s, l)
    requires Step(s, e).sampling[l] && Step(s, e).queues[l] != []
    ensures Watched(Step(s, e), l)
  {
    var t := Step(s, e);
    if SomePending(s) {
      var p :| 0 <= p < |s.producers| && Pending(s.producers[p]);
      KeptPending(s, e, p);
    } else if SomePushed(s, l) {
      var p :| 0 <= p < |s.producers| && s.producers[p] == AfterPush(l);
      assert t.producers[p] == AfterPush(l) || Pending(t.producers[p]);
    }
  }

  lemma KeptPending(s: State, e: Event, p: nat)
    requires Enabled(s, e) && p < |s.producers| && Pending(s.producers[p])
    ensures SomePending(Step(s, e)) || Step(s, e).count > 0
  {
    var t := Step(s, e);
    if t.producers[p] != s.producers[p] {
      assert t.producers[p] == Armed || t.count > 0;
    }
    assert Pending(t.producers[p]) || t.count > 0;
  }

  /** One step keeps the invariant exactly when it is harmless. */
  lemma StepKeepsWatchIff(s: State, e: Event)
    requires NoLostWakeup(s) && Enabled(s, e)
    ensures NoLostWakeup(Step(s, e)) <==> Harmless(s, e)
  {
    var t := Step(s, e);
    if Harmless(s, e) {
      forall l | 0 <= l < |t.queues| && t.sampling[l] && t.queues[l] != []
        ensures Watched(t, l)
      {
        if e.Push? && e.lidar == l && s.queues[l] == [] {
          assert t.producers[e.producer] == AfterPush(l);
          assert SomePushed(t, l);
        } else if s.queues[l] != [] && (s.sampling[l] || e == TurnOn(l)) {
          WatchedAfter(s, e, l);
        }
      }
    } else {
      var l := e.lidar;
      assert t.producers == s.producers;
      assert !Watched(t, l);
    }
  }

  ghost predicate AllHarmless(s: State, es: seq<Event>, t: State)
    requires Runs(s, es, t)
    decreases |es|
  {
    es != [] ==> Harmless(s, es[0]) && AllHarmless(Step(s, es[0]), es[1..], t)
  }

  /** In every interleaving a nonempty queue of a sampling lidar is watched. */
  lemma {:induction false} NoLostWakeupOnRun(s: State, es: seq<Event>, t: State)
    requires NoLostWakeup(s) && Runs(s, es, t) && AllHarmless(s, es, t)
    ensures NoLostWakeup(t)
    decreases |es|
  {
    if es != [] {
      StepKeepsWatchIff(s, es[0]);
      NoLostWakeupOnRun(Step(s, es[0]), es[1..], t);
    }
  }

  lemma {:induction false} ConservesOnRun(s: State, es: seq<Event>, t: State)
    requires Conserves(s) && Runs(s, es, t)
    ensures Conserves(t)
    decreases |es|
  {
    if es != [] {
      StepConserves(s, es[0]);
      ConservesOnRun(Step(s, es[0]), es[1..], t);
    }
  }

  lemma InitialIsSound(lidars: nat, producers: nat, capacity: nat)
    requires capacity > 0
    ensures NoLostWakeup(Initial(lidars, producers, capacity)) && Conserves(Initial(lidars, producers, capacity))
    ensures CountBounded(Initial(lidars, producers, capacity))
  {
    NoneArmed(Initial(lidars, producers, capacity).producers);
  }

  lemma RunsCons(s: State, e: Event, u: State, es: seq<Event>, t: State)
    requires Enabled(s, e) && Step(s, e) == u && Runs(u, es, t)
    ensures Runs(s, [e] + es, t)
  {
    assert ([e] + es)[1..] == es;
  }

  function OneLidar(x: Packet, sampling: bool, count: nat, p: Producer, c: Consumer): State {
    State([[x]], 1, [sampling], count, [p], c, [[x]], [[]])
  }

  lemma StrandedStart(x: Packet)
    ensures Runs(Initial(1, 1, 1), [Push(0, 0, x)], OneLidar(x, false, 0, AfterPush(0), Waiting))
  {
    var s := Initial(1, 1, 1);
    assert s == State([[]], 1, [false], 0, [Idle], Waiting, [[]], [[]]);
    var t := OneLidar(x, false, 0, AfterPush(0), Waiting);
    assert s.queues[0] + [x] == [x] && s.accepted[0] + [x] == [x];
    assert Step(s, Push(0, 0, x)) == t;
    assert Runs(t, [], t);
    RunsCons(s, Push(0, 0, x), t, [], t);
  }

  lemma StrandedSignal(x: Packet)
    ensures Runs(OneLidar(x, false, 0, AfterPush(0), Waiting), [TestEmpty(0), ReadCount(0), Signal(0)],
                 OneLidar(x, false, 1, Idle, Waiting))
  {
    var s1, s2 := OneLidar(x, false, 0, BeforeCount, Waiting), OneLidar(x, false, 0, Armed, Waiting);
    var t := OneLidar(x, false, 1, Idle, Waiting);
    assert Runs(t, [], t);
    hide Runs;
    RunsCons(s2, Signal(0), t, [], t);
    RunsCons(s1, ReadCount(0), s2, [Signal(0)], t);
    RunsCons(OneLidar(x, false, 0, AfterPush(0), Waiting), TestEmpty(0), s1, [ReadCount(0)] + [Signal(0)], t);
    assert [TestEmpty(0)] + ([ReadCount(0)] + [Signal(0)]) == [TestEmpty(0), ReadCount(0), Signal(0)];
  }

  lemma StrandedSweep(x: Packet)
    ensures Runs(OneLidar(x, false, 1, Idle, Waiting), [Take, Visit, Visit, TurnOn(0)],
                 OneLidar(x, true, 0, Idle, Waiting))
  {
    var s1, s2 := OneLidar(x, false, 0, Idle, Visiting(0)), OneLidar(x, false, 0, Idle, Visiting(1));
    var s3, t := OneLidar(x, false, 0, Idle, Waiting), OneLidar(x, true, 0, Idle, Waiting);
    assert Runs(t, [], t);
    hide Runs;
    RunsCons(s3, TurnOn(0), t, [], t);
    RunsCons(s2, Visit, s3, [TurnOn(0)], t);
    RunsCons(s1, Visit, s2, [Visit] + [TurnOn(0)], t);
    RunsCons(OneLidar(x, false, 1, Idle, Waiting), Take, s1, [Visit] + ([Visit] + [TurnOn(0)]), t);
    assert [Take] + ([Visit] + ([Visit] + [TurnOn(0)])) == [Take, Visit, Visit, TurnOn(0)];
  }

  lemma {:induction false} RunsConcat(s: State, es: seq<Event>, t: State, fs: seq<Event>, u: State)
    requires Runs(s, es, t) && Runs(t, fs, u)
    ensures Runs(s, es + fs, u)
    decreases |es|
  {
    if es == [] {
      assert es + fs == fs;
    } else {
      RunsConcat(Step(s, es[0]), es[1..], t, fs, u);
      assert (es + fs)[1..] == es[1..] + fs;
    }
  }

  /** A lidar that starts sampling with packets already queued can be left unwatched: the sweep
      skipped it, the semaphore is spent and every thread waits.
   */
  lemma StrandedPacket(x: Packet)
    ensures exists es :: Runs(Initial(1, 1, 1), es, OneLidar(x, true, 0, Idle, Waiting))
    ensures Quiet(OneLidar(x, true, 0, Idle, Waiting)) && !NoLostWakeup(OneLidar(x, true, 0, Idle, Waiting))
  {
    StrandedStart(x);
    StrandedSignal(x);
    StrandedSweep(x);
    var s1, s2 := OneLidar(x, false, 0, AfterPush(0), Waiting), OneLidar(x, false, 1, Idle, Waiting);
    var t := OneLidar(x, true, 0, Idle, Waiting);
    assert t.sampling[0] && t.queues[0] != [] && !Watched(t, 0);
    hide Runs, NoLostWakeup;
    var e0, e1 := [Push(0, 0, x)], [TestEmpty(0), ReadCount(0), Signal(0)];
    RunsConcat(Initial(1, 1, 1), e0, s1, e1, s2);
    RunsConcat(Initial(1, 1, 1), e0 + e1, s2, [Take, Visit, Visit, TurnOn(0)], t);
  }

  // -- The semaphore's count -----------------------------------------------------------------

  function ArmedOf(ps: seq<Producer>): (n: nat)
    ensures n <= |ps|
  {
    if ps == [] then 0 else (if ps[0] == Armed then 1 else 0) + ArmedOf(ps[1..])
  }

  /** Signals given or about to be given never outnumber the producers. */
  ghost predicate CountBounded(s: State) {
    s.count + ArmedOf(s.producers) <= |s.producers|
  }

  lemma {:induction false} NoneArmed(ps: seq<Producer>)
    requires forall p :: 0 <= p < |ps| ==> ps[p] == Idle
    ensures ArmedOf(ps) == 0
  {
    if ps != [] {
      NoneArmed(ps[1..]);
    }
  }

  lemma {:induction false} ArmedUpdate(ps: seq<Producer>, p: nat, x: Producer)
    requires p < |ps|
    ensures ArmedOf(ps[p := x]) ==
            ArmedOf(ps) - (if ps[p] == Armed then 1 else 0) + (if x == Armed then 1 else 0)
  {
    if p == 0 {
      assert ps[p := x][1..] == ps[1..];
    } else {
      ArmedUpdate(ps[1..], p - 1, x);
      assert ps[p := x][1..] == ps[1..][p - 1 := x];
    }
  }

  lemma StepKeepsCount(s: State, e: Event)
    requires CountBounded(s) && Enabled(s, e)
    ensures CountBounded(Step(s, e))
  {
    match e
    case Push(p, l, _) => ArmedUpdate(s.producers, p, AfterPush(l)); ArmedUpdate(s.producers, p, BeforeCount);
    case TestEmpty(p) => ArmedUpdate(s.producers, p, BeforeCount); ArmedUpdate(s.producers, p, Idle);
    case ReadCount(p) => ArmedUpdate(s.producers, p, Idle);
    case Signal(p) => ArmedUpdate(s.producers, p, Idle);
    case _ =>
  }

  /** The count never exceeds the number of producers; with one producer it is zero or one. */
  lemma {:induction false} CountBoundedOnRun(s: State, es: seq<Event>, t: State)
    requires CountBounded(s) && Runs(s, es, t)
    ensures CountBounded(t) && t.count <= |s.producers|
    decreases |es|
  {
    if es != [] {
      StepKeepsCount(s, es[0]);
      CountBoundedOnRun(Step(s, es[0]), es[1..], t);
    }
  }

  /** Every run from the start conserves packets and bounds the count; and it watches every nonempty
      queue of a sampling lidar as long as lidars are switched to sampling harmlessly.
   */
  lemma EveryRun(lidars: nat, producers: nat, capacity: nat, es: seq<Event>, t: State)
    requires capacity > 0 && Runs(Initial(lidars, producers, capacity), es, t)
    ensures Conserves(t) && t.count <= producers
    ensures AllHarmless(Initial(lidars, producers, capacity), es, t) ==> NoLostWakeup(t)
  {
    var s := Initial(lidars, producers, capacity);
    InitialIsSound(lidars, producers, capacity);
    ConservesOnRun(s, es, t);
    CountBoundedOnRun(s, es, t);
    if AllHarmless(s, es, t) {
      NoLostWakeupOnRun(s, es, t);
    }
  }

  // -- Delivery ------------------------------------------------------------------------------

  predicate AllIdle(s: State) {
    forall p :: 0 <= p < |s.producers| ==> s.producers[p] == Idle
  }

  /** Every thread is at rest and no signal is outstanding. */
  predicate Quiet(s: State) {
    AllIdle(s) && s.consumer == Waiting && s.count == 0
  }

  /** When everything is at rest, everything accepted for a sampling lidar has been popped. */
  lemma QuietMeansDelivered(s: State, l: nat)
    requires NoLostWakeup(s) && Conserves(s) && Quiet(s) && l < |s.queues| && s.sampling[l]
    ensures s.queues[l] == [] && s.popped[l] == s.accepted[l]
  {
    assert !Watched(s, l);
  }

  function Rank(s: State): (r: nat)
    requires WellFormed(s)
  {
    match s.consumer
    case Waiting => 0
    case Visiting(i) => 2 * (|s.queues| - i) + 1
    case Draining(i) => 2 * (|s.queues| - i)
  }

  function Left(s: State): nat
    requires WellFormed(s)
  {
    if s.consumer.Draining? then |s.queues[s.consumer.lidar]| else 0
  }

  /** The consumer's next step, when it has one. */
  function ConsumerEvent(s: State): (e: Event)
    requires WellFormed(s) && !(s.consumer == Waiting && s.count == 0)
    ensures Enabled(s, e) && WellFormed(Step(s, e)) && Step(s, e).producers == s.producers
  {
    match s.consumer
    case Waiting => Take
    case Visiting(_) => Visit
    case Draining(_) => Drain
  }

  /** The consumer running on its own comes to rest. */
  ghost function ConsumerRun(s: State): (es: seq<Event>)
    requires WellFormed(s)
    decreases s.count, Rank(s), Left(s)
  {
    if s.consumer == Waiting && s.count == 0 then [] else
    [ConsumerEvent(s)] + ConsumerRun(Step(s, ConsumerEvent(s)))
  }

  /** Once the producers pause, the consumer alone delivers everything that was accepted for the
      sampling lidars.
   */
  lemma {:induction false} PauseDelivers(s: State) returns (t: State)
    requires NoLostWakeup(s) && Conserves(s) && AllIdle(s)
    ensures Runs(s, ConsumerRun(s), t) && Quiet(t)
    ensures t.sampling == s.sampling && t.accepted == s.accepted && |t.popped| == |s.sampling|
    ensures forall l :: 0 <= l < |s.sampling| && s.sampling[l] ==> t.popped[l] == s.accepted[l]
    decreases s.count, Rank(s), Left(s)
  {
    if s.consumer == Waiting && s.count == 0 {
      t := s;
      forall l | 0 <= l < |s.sampling| && s.sampling[l]
        ensures t.popped[l] == s.accepted[l]
      {
        QuietMeansDelivered(s, l);
      }
    } else {
      var e := ConsumerEvent(s);
      var u := Step(s, e);
      StepKeepsWatchIff(s, e);
      StepConserves(s, e);
      t := PauseDelivers(u);
      var es := ConsumerRun(u);
      assert ([e] + es)[1..] == es;
    }
  }

  lemma ConsumerLeaves(s: State, l: nat)
    requires WellFormed(s) && !(s.consumer == Waiting && s.count == 0)
    requires l < |s.queues| && !s.sampling[l] && s.consumer != Draining(l)
    ensures var t := Step(s, ConsumerEvent(s));
      && t.sampling == s.sampling && t.consumer != Draining(l)
      && |t.queues| == |s.queues| && |t.popped| == |s.popped|
      && t.queues[l] == s.queues[l] && t.popped[l] == s.popped[l]
  {}

  lemma {:induction false} NotSamplingIsLeft(s: State, l: nat, t: State)
    requires WellFormed(s) && l < |s.queues| && !s.sampling[l] && s.consumer != Draining(l)
    requires Runs(s, ConsumerRun(s), t)
    ensures WellFormed(t) && t.sampling == s.sampling && l < |t.queues|
    ensures t.queues[l] == s.queues[l] && t.popped[l] == s.popped[l]
    decreases s.count, Rank(s), Left(s)
  {
    if !(s.consumer == Waiting && s.count == 0) {
      var e := ConsumerEvent(s);
      var u := Step(s, e);
      ConsumerLeaves(s, l);
      var es := ConsumerRun(u);
      assert ([e] + es)[0] == e && ([e] + es)[1..] == es;
      NotSamplingIsLeft(u, l, t);
    }
  }

  /** A lidar that is switched off keeps what is queued for it: unless its queue is being drained just
      then, the consumer alone comes to rest without having popped any of it.
   */
  lemma SwitchedOffIsLeft(s: State, l: nat, t: State)
    requires Enabled(s, TurnOff(l)) && s.consumer != Draining(l)
    requires Runs(Step(s, TurnOff(l)), ConsumerRun(Step(s, TurnOff(l))), t)
    ensures l < |t.queues| == |t.sampling| == |t.popped|
    ensures !t.sampling[l] && t.queues[l] == s.queues[l] && t.popped[l] == s.popped[l]
  {
    hide Runs;
    NotSamplingIsLeft(Step(s, TurnOff(l)), l, t);
  }

  // -- The code ------------------------------------------------------------------------------

  /** The packets that are published: those with points. */
  function WithPoints(ps: seq<Packet>): (r: seq<Packet>)
    ensures forall x :: x in r ==> x.points != []
  {
    if ps == [] then [] else WithPoints(ps[..|ps| - 1]) + if ps[|ps| - 1].points == [] then [] else [ps[|ps| - 1]]
  }

  lemma WithPointsAppend(ps: seq<Packet>, x: Packet)
    ensures WithPoints(ps + [x]) == WithPoints(ps) + if x.points == [] then [] else [x]
  {
    assert (ps + [x])[..|ps|] == ps;
  }

  /** The events of one undisturbed call of the producer. */
  function PushEvents(s: State, l: nat, x: Packet): seq<Event> {
    if l < |s.queues| && |s.queues[l]| >= s.capacity then [Push(0, l, x)] + CountEvents(s)
    else [Push(0, l, x), TestEmpty(0)] + CountEvents(s)
  }

  function CountEvents(s: State): seq<Event> {
    if s.count <= 0 then [ReadCount(0), Signal(0)] else [ReadCount(0)]
  }

  lemma CountIsRun(s: State)
    requires WellFormed(s) && s.producers == [BeforeCount]
    ensures Runs(s, CountEvents(s), s.(producers := [Idle], count := if s.count == 0 then 1 else s.count))
  {
    var t := s.(producers := [Idle], count := if s.count == 0 then 1 else s.count);
    assert Runs(t, [], t);
    hide Runs;
    if s.count == 0 {
      RunsCons(s.(producers := [Armed]), Signal(0), t, [], t);
      RunsCons(s, ReadCount(0), s.(producers := [Armed]), [Signal(0)], t);
      assert [ReadCount(0)] + [Signal(0)] == CountEvents(s);
    } else {
      RunsCons(s, ReadCount(0), t, [], t);
      assert [ReadCount(0)] + [] == CountEvents(s);
    }
  }

  /** The state after an undisturbed call of the producer. */
  function Pushed(s: State, l: nat, x: Packet): State
    requires WellFormed(s) && l < |s.queues|
  {
    s.(count := if s.count == 0 then 1 else s.count,
       queues := if |s.queues[l]| < s.capacity then s.queues[l := s.queues[l] + [x]] else s.queues,
       accepted := if |s.queues[l]| < s.capacity then s.accepted[l := s.accepted[l] + [x]] else s.accepted)
  }

  lemma PushIsRun(s: State, l: nat, x: Packet)
    requires WellFormed(s) && l < |s.queues| && s.producers == [Idle]
    ensures Runs(s, PushEvents(s, l, x), Pushed(s, l, x))
  {
    var t := Pushed(s, l, x);
    if |s.queues[l]| < s.capacity {
      var s1 := Step(s, Push(0, l, x));
      var s2 := s1.(producers := [BeforeCount]);
      CountIsRun(s2);
      assert t == s2.(producers := [Idle], count := if s2.count == 0 then 1 else s2.count);
      hide Runs;
      RunsCons(s1, TestEmpty(0), s2, CountEvents(s), t);
      RunsCons(s, Push(0, l, x), s1, [TestEmpty(0)] + CountEvents(s), t);
      assert [Push(0, l, x)] + ([TestEmpty(0)] + CountEvents(s)) == PushEvents(s, l, x);
    } else {
      var s1 := s.(producers := [BeforeCount]);
      CountIsRun(s1);
      assert t == s1.(producers := [Idle], count := if s1.count == 0 then 1 else s1.count);
      hide Runs;
      RunsCons(s, Push(0, l, x), s1, CountEvents(s), t);
    }
  }

  /** From any state, stranded packets or not, the next packet of any lidar has everything accepted
      for the sampling lidars delivered.
   */
  lemma NextPacketServes(s: State, l: nat, x: Packet) returns (t: State)
    requires Conserves(s) && l < |s.queues| && s.producers == [Idle]
    ensures WellFormed(Pushed(s, l, x))
    ensures Runs(s, PushEvents(s, l, x) + ConsumerRun(Pushed(s, l, x)), t) && Quiet(t)
    ensures t.sampling == s.sampling && |t.popped| == |s.queues|
    ensures forall k :: 0 <= k < |s.queues| && s.sampling[k] ==>
              t.popped[k] == Pushed(s, l, x).accepted[k] && s.accepted[k] <= t.popped[k]
  {
    var u := Pushed(s, l, x);
    PushIsRun(s, l, x);
    ConservesOnRun(s, PushEvents(s, l, x), u);
    assert NoLostWakeup(u) && AllIdle(u);
    hide Runs, NoLostWakeup, Conserves, AllIdle, Quiet, PushEvents;
    t := PauseDelivers(u);
    RunsConcat(s, PushEvents(s, l, x), u, ConsumerRun(u), t);
  }

  lemma RunsOne(s: State, e: Event, t: State)
    requires Enabled(s, e) && Step(s, e) == t
    ensures Runs(s, [e], t)
  {
    assert Runs(t, [], t);
    RunsCons(s, e, t, [], t);
  }

  lemma RunsSnoc(s: State, es: seq<Event>, t: State, e: Event, u: State)
    requires Runs(s, es, t) && Enabled(t, e) && Step(t, e) == u
    ensures Runs(s, es + [e], u)
  {
    RunsOne(t, e, u);
    RunsConcat(s, es, t, [e], u);
  }

  /** The state after the first k packets of lidar i have been drained. */
  function Drained(s: State, i: nat, k: nat): State
    requires WellFormed(s) && i < |s.queues| && k <= |s.queues[i]|
  {
    s.(consumer := Draining(i),
       queues := s.queues[i := s.queues[i][k..]],
       popped := s.popped[i := s.popped[i] + s.queues[i][..k]])
  }

  lemma DrainedStep(s: State, i: nat, k: nat)
    requires WellFormed(s) && i < |s.queues| && k <= |s.queues[i]|
    ensures Enabled(Drained(s, i, k), Drain) && Drained(s, i, k).queues[i] == s.queues[i][k..]
    ensures k < |s.queues[i]| ==> Step(Drained(s, i, k), Drain) == Drained(s, i, k + 1)
    ensures k == |s.queues[i]| ==> Step(Drained(s, i, k), Drain) == Drained(s, i, k).(consumer := Visiting(i + 1))
  {
    var q := s.queues[i];
    if k < |q| {
      assert q[k..][1..] == q[k + 1..];
      assert s.popped[i] + q[..k] + [q[k]] == s.popped[i] + q[..k + 1];
    }
  }

  lemma DrainedFrom(s: State, c: Consumer, i: nat)
    requires WellFormed(s) && WellFormed(s.(consumer := c)) && i < |s.queues|
    ensures Drained(s, i, |s.queues[i]|) == Drained(s.(consumer := c), i, |s.queues[i]|)
  {}

  lemma DrainedNothing(s: State, i: nat)
    requires WellFormed(s) && i < |s.queues|
    ensures Drained(s, i, 0) == s.(consumer := Draining(i))
  {
    assert s.popped[i] + s.queues[i][..0] == s.popped[i];
  }

  /** The state when the sweep begun in s has reached lidar i. */
  function Swept(s: State, i: nat): State
    requires WellFormed(s) && s.count > 0 && i <= |s.queues|
  {
    s.(count := s.count - 1,
       consumer := Visiting(i),
       queues := seq(|s.queues|, l requires 0 <= l < |s.queues| =>
         if l < i && s.sampling[l] then [] else s.queues[l]),
       popped := seq(|s.queues|, l requires 0 <= l < |s.queues| =>
         if l < i && s.sampling[l] then s.popped[l] + s.queues[l] else s.popped[l]))
  }

  lemma SweepSizes(s: State, i: nat)
    requires WellFormed(s) && s.count > 0 && i <= |s.queues|
    ensures |Swept(s, i).queues| == |s.queues| && WellFormed(Swept(s, i))
  {}

  lemma SweepStarts(s: State)
    requires WellFormed(s) && s.count > 0 && s.consumer == Waiting
    ensures Swept(s, 0) == s.(count := s.count - 1, consumer := Visiting(0))
    ensures Runs(s, [Take], Swept(s, 0))
  {
    RunsOne(s, Take, Swept(s, 0));
  }

  /** The state after lidar i has been visited. */
  function Visited(s: State, i: nat): State
    requires WellFormed(s) && i < |s.queues|
  {
    (if s.sampling[i] then Drained(s, i, |s.queues[i]|) else s).(consumer := Visiting(i + 1))
  }

  lemma SweepEnds(s: State)
    requires WellFormed(s) && s.consumer == Visiting(|s.queues|)
    ensures Enabled(s, Visit) && Step(s, Visit) == s.(consumer := Waiting)
  {}

  lemma SweptNext(s: State, i: nat)
    requires WellFormed(s) && s.count > 0 && i < |s.queues|
    ensures var u := Swept(s, i).(consumer := Waiting);
      WellFormed(u) && |u.queues| == |s.queues| && Visited(u, i) == Swept(s, i + 1)
  {
    assert s.queues[i][..|s.queues[i]|] == s.queues[i];
    assert s.queues[i][|s.queues[i]|..] == [];
  }

  /** Conservation, and what is published of what is popped. */
  ghost predicate Sound(s: State, published: seq<seq<Packet>>) {
    && Conserves(s.(consumer := Waiting))
    && |published| == |s.queues|
    && forall l :: 0 <= l < |published| ==> published[l] == WithPoints(s.popped[l])
  }

  lemma SoundAnywhere(s: State, c: Consumer, published: seq<seq<Packet>>)
    ensures Sound(s.(consumer := c), published) == Sound(s, published)
  {
    assert s.(consumer := c).(consumer := Waiting) == s.(consumer := Waiting);
  }

  lemma PushSound(s: State, l: nat, x: Packet, published: seq<seq<Packet>>)
    requires WellFormed(s) && Sound(s, published) && l < |s.queues|
    ensures Sound(Pushed(s, l, x), published)
  {
    if |s.queues[l]| < s.capacity {
      assert s.popped[l] + (s.queues[l] + [x]) == s.popped[l] + s.queues[l] + [x];
    }
  }

  lemma TakeKeepsSound(s: State, published: seq<seq<Packet>>)
    requires Sound(s, published) && s.count > 0
    ensures WellFormed(s.(consumer := Waiting)) && Sound(s.(count := s.count - 1), published)
  {}

  lemma PopSound(s: State, i: nat, published: seq<seq<Packet>>)
    requires Sound(s, published) && s.consumer == Draining(i) && i < |s.queues| && s.queues[i] != []
    ensures var x := s.queues[i][0];
      Sound(Step(s, Drain), if x.points == [] then published else published[i := published[i] + [x]])
  {
    var x, q := s.queues[i][0], s.queues[i];
    WithPointsAppend(s.popped[i], x);
    hide WithPoints;
    assert q == [x] + q[1..];
    assert s.popped[i] + q == s.popped[i] + [x] + q[1..];
  }

  /** The packet queues of all lidars, their semaphore, and what has been published so far. */
  class Lds {
    var queues: seq<seq<Packet>>
    var sampling: seq<bool>
    var published: seq<seq<Packet>>
    var pcdSemaphore: nat
    const capacity: nat
    ghost var accepted: seq<seq<Packet>>
    ghost var popped: seq<seq<Packet>>

    ghost function At(c: Consumer): State
      reads this
    {
      State(queues, capacity, sampling, pcdSemaphore, [Idle], c, accepted, popped)
    }

    ghost predicate Valid()
      reads this
    {
      Sound(At(Waiting), published)
    }

    constructor (lidarCount: nat, capacity: nat)
      requires capacity > 0
      ensures Valid() && At(Waiting) == Initial(lidarCount, 1, capacity)
    {
      queues, sampling := seq(lidarCount, _ => []), seq(lidarCount, _ => false);
      published := seq(lidarCount, _ => []);
      pcdSemaphore := 0;
      this.capacity := capacity;
      accepted, popped := seq(lidarCount, _ => []), seq(lidarCount, _ => []);
    }

    method Signal()
      modifies `pcdSemaphore
      ensures pcdSemaphore == old(pcdSemaphore) + 1
    {
      pcdSemaphore := pcdSemaphore + 1;
    }

    method PushLidarData(packet: Packet, index: nat)
      requires Valid() && index < |queues|
      modifies `queues, `pcdSemaphore, `accepted
      ensures Valid()
      ensures At(Waiting) == Pushed(old(At(Waiting)), index, packet)
      ensures Runs(old(At(Waiting)), PushEvents(old(At(Waiting)), index, packet), At(Waiting))
    {
      PushIsRun(At(Waiting), index, packet);
      PushSound(At(Waiting), index, packet, published);
      hide Runs, PushEvents, Conserves, WithPoints;
      if !(|queues[index]| >= capacity) {
        queues := queues[index := queues[index] + [packet]];
        accepted := accepted[index := accepted[index] + [packet]];
        if queues[index] != [] {
          if pcdSemaphore <= 0 {
            Signal();
          }
        }
      } else {
        if pcdSemaphore <= 0 {
          Signal();
        }
      }
      hide Sound;
    }

    /** Popping one packet is the consumer's drain step. */
    method QueuePop(index: nat) returns (packet: Packet)
      requires Valid() && index < |queues| && queues[index] != []
      modifies `queues, `popped
      ensures packet == old(queues[index][0])
      ensures At(Draining(index)) == Step(old(At(Draining(index))), Drain)
    {
      packet := queues[index][0];
      popped := popped[index := popped[index] + [packet]];
      queues := queues[index := queues[index][1..]];
    }

    /** One round of the drain loop: pop a packet and publish it if it has points. */
    method PublishOne(index: nat)
      requires Valid() && index < |queues| && queues[index] != []
      modifies `queues, `popped, `published
      ensures Valid()
      ensures At(Draining(index)) == Step(old(At(Draining(index))), Drain)
    {
      SoundAnywhere(At(Waiting), Draining(index), published);
      PopSound(At(Draining(index)), index, published);
      var packet := QueuePop(index);
      SoundAnywhere(At(Draining(index)), Waiting, published);
      SoundAnywhere(At(Draining(index)), Waiting, published[index := published[index] + [packet]]);
      hide Sound, Step;
      if packet.points != [] {
        published := published[index := published[index] + [packet]];
      }
    }

    /** The drain loop that every supported format shares. */
    method PollingLidarPointCloudData(index: nat) returns (ghost es: seq<Event>)
      requires Valid() && index < |queues|
      modifies `queues, `popped, `published
      ensures Valid()
      ensures At(Visiting(index + 1)) ==
              Drained(old(At(Waiting)), index, |old(queues)[index]|).(consumer := Visiting(index + 1))
      ensures Runs(old(At(Draining(index))), es, At(Visiting(index + 1)))
    {
      ghost var s := At(Draining(index));
      ghost var k := 0;
      es := [];
      DrainedNothing(s, index);
      assert Runs(s, [], s);
      hide Runs, Drained, Step, Sound;
      while queues[index] != []
        invariant |queues| == |s.queues| && k <= |s.queues[index]| && WellFormed(s)
        invariant Sound(At(Waiting), published)
        invariant At(Draining(index)) == Drained(s, index, k)
        invariant Runs(s, es, At(Draining(index)))
        decreases |queues[index]|
      {
        DrainedStep(s, index, k);
        RunsSnoc(s, es, At(Draining(index)), Drain, Drained(s, index, k + 1));
        PublishOne(index);
        es, k := es + [Drain], k + 1;
      }
      DrainedStep(s, index, k);
      RunsSnoc(s, es, At(Draining(index)), Drain, At(Visiting(index + 1)));
      es := es + [Drain];
      DrainedFrom(s, Waiting, index);
    }

    /** A lidar that is not sampling is skipped. */
    method VisitLidar(i: nat) returns (ghost es: seq<Event>)
      requires Valid() && i < |queues|
      modifies `queues, `popped, `published
      ensures Valid()
      ensures At(Visiting(i + 1)) == Visited(old(At(Waiting)), i)
      ensures Runs(old(At(Visiting(i))), es, At(Visiting(i + 1)))
    {
      es := [Visit];
      if !sampling[i] {
        RunsOne(At(Visiting(i)), Visit, At(Visiting(i + 1)));
        return;
      }
      ghost var s, middle, more := At(Visiting(i)), At(Draining(i)), [];
      RunsOne(s, Visit, middle);
      hide Runs, Drained, Step, Sound;
      more := PollingLidarPointCloudData(i);
      RunsConcat(s, [Visit], middle, more, At(Visiting(i + 1)));
      es := [Visit] + more;
    }

    /** One wake-up: take the semaphore, then empty the queue of every sampling lidar. */
    method DistributePointCloudData() returns (ghost es: seq<Event>)
      requires Valid() && pcdSemaphore > 0
      modifies `queues, `popped, `published, `pcdSemaphore
      ensures Valid()
      ensures At(Waiting) == Swept(old(At(Waiting)), |old(queues)|).(consumer := Waiting)
      ensures Runs(old(At(Waiting)), es, At(Waiting))
    {
      ghost var s := At(Waiting);
      TakeKeepsSound(s, published);
      hide Runs, Sound, Visited, Swept, Step, Enabled;
      SweepStarts(s);
      pcdSemaphore := pcdSemaphore - 1;
      es := [Take];
      es := Sweep(s, es);
    }

    method Sweep(ghost s: State, ghost before: seq<Event>) returns (ghost es: seq<Event>)
      requires Valid() && WellFormed(s) && s.count > 0
      requires At(Visiting(0)) == Swept(s, 0) && Runs(s, before, Swept(s, 0))
      modifies `queues, `popped, `published
      ensures Valid()
      ensures At(Waiting) == Swept(s, |s.queues|).(consumer := Waiting)
      ensures Runs(s, es, At(Waiting))
    {
      hide Runs, Sound, Visited, Swept, Step, Enabled;
      es := before;
      assert |queues| == |s.queues| by { SweepSizes(s, 0); }
      var i := 0;
      while i < |queues|
        invariant |queues| == |s.queues| && i <= |queues|
        invariant Valid()
        invariant At(Visiting(i)) == Swept(s, i)
        invariant Runs(s, es, Swept(s, i))
      {
        SweptNext(s, i);
        ghost var more := [];
        more := VisitLidar(i);
        SweepSizes(s, i + 1);
        RunsConcat(s, es, Swept(s, i), more, Swept(s, i + 1));
        es := es + more;
        i := i + 1;
      }
      SweepSizes(s, i);
      SweepEnds(At(Visiting(i)));
      RunsSnoc(s, es, At(Visiting(i)), Visit, At(Waiting));
      es := es + [Visit];
    }
  }
}
