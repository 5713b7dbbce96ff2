/** The two bounded queues between the sensor callbacks and the pairing loop.

    The callbacks push, evicting the oldest message of a full queue.  The loop looks at both
    fronts in one lock section and pops in a second one, so arrivals and evictions may come in
    between.  A run is any sequence of these atomic steps.
 */
module PairQueues {
  import opened Matching
  import opened Options

  const CAPACITY: nat := 10

  /** A message: its arrival number on its own side, and its stamp in nanoseconds. */
  datatype Msg = Msg(id: nat, stamp: int)

  datatype State = State(rgb: seq<Msg>, pcd: seq<Msg>, rgbCount: nat, pcdCount: nat,
                         hand: Option<(Msg, Msg)>, emitted: seq<(Msg, Msg)>)

  datatype Event = ArriveRgb(stamp: int) | ArrivePcd(stamp: int) | Peek | Pop

  const INITIAL := State([], [], 0, 0, None, [])

  function Evict(q: seq<Msg>): seq<Msg> {
    if |q| >= CAPACITY then q[1..] else q
  }

  /** Popping the front; on an empty queue the program's pop is undefined, here it does nothing. */
  function PopFront(q: seq<Msg>): seq<Msg> {
    if q == [] then q else q[1..]
  }

  function Step(s: State, e: Event): State {
    match e
    case ArriveRgb(t) => s.(rgb := Evict(s.rgb) + [Msg(s.rgbCount, t)], rgbCount := s.rgbCount + 1)
    case ArrivePcd(t) => s.(pcd := Evict(s.pcd) + [Msg(s.pcdCount, t)], pcdCount := s.pcdCount + 1)
    case Peek =>
      if s.hand.None? && s.rgb != [] && s.pcd != [] then s.(hand := Some((s.rgb[0], s.pcd[0]))) else s
    case Pop =>
      match s.hand
      case None => s
      case Some((r, p)) =>
        if Close(r.stamp, p.stamp) then
          s.(rgb := PopFront(s.rgb), pcd := PopFront(s.pcd), hand := None, emitted := s.emitted + [(r, p)])
        else if r.stamp > p.stamp then s.(pcd := PopFront(s.pcd), hand := None)
        else s.(rgb := PopFront(s.rgb), hand := None)
  }

  function Run(s: State, events: seq<Event>): State
    decreases |events|
  {
    if events == [] then s else Run(Step(s, events[0]), events[1..])
  }

  // ---------- what every run keeps ----------

  /** A queue holds the most recent arrivals, consecutively numbered, at most ten. */
  predicate Window(q: seq<Msg>, count: nat) {
    && |q| <= CAPACITY && |q| <= count
    && forall k :: 0 <= k < |q| ==> q[k].id == count - |q| + k
  }

  /** The arrival number of the front of a queue, or of the next arrival. */
  function Front(q: seq<Msg>, count: nat): int {
    count - |q|
  }

  /** Emitted pairs are within the window, and on both sides strictly in order of arrival. */
  ghost predicate InOrder(emitted: seq<(Msg, Msg)>) {
    && (forall k :: 0 <= k < |emitted| ==> Close(emitted[k].0.stamp, emitted[k].1.stamp))
    && (forall j, k :: 0 <= j < k < |emitted| ==>
          emitted[j].0.id < emitted[k].0.id && emitted[j].1.id < emitted[k].1.id)
  }

  /** Everything emitted arrived before the given numbers. */
  ghost predicate Below(emitted: seq<(Msg, Msg)>, r: int, p: int) {
    forall k :: 0 <= k < |emitted| ==> emitted[k].0.id < r && emitted[k].1.id < p
  }

  ghost predicate Valid(s: State) {
    && Window(s.rgb, s.rgbCount) && Window(s.pcd, s.pcdCount)
    && InOrder(s.emitted)
    && match s.hand
       case None => Below(s.emitted, Front(s.rgb, s.rgbCount), Front(s.pcd, s.pcdCount))
       case Some((r, p)) =>
         && s.rgb != [] && s.pcd != []
         && r.id <= Front(s.rgb, s.rgbCount) && p.id <= Front(s.pcd, s.pcdCount)
         && Below(s.emitted, r.id, p.id)
  }

  lemma WindowArrive(q: seq<Msg>, count: nat, t: int)
    requires Window(q, count)
    ensures Window(Evict(q) + [Msg(count, t)], count + 1)
    ensures Front(Evict(q) + [Msg(count, t)], count + 1) >= Front(q, count)
  {}

  lemma EmitInOrder(emitted: seq<(Msg, Msg)>, r: Msg, p: Msg)
    requires InOrder(emitted) && Below(emitted, r.id, p.id) && Close(r.stamp, p.stamp)
    ensures InOrder(emitted + [(r, p)])
    ensures Below(emitted + [(r, p)], r.id + 1, p.id + 1)
  {}

  lemma BelowGrows(emitted: seq<(Msg, Msg)>, r: int, p: int, r': int, p': int)
    requires Below(emitted, r, p) && r <= r' && p <= p'
    ensures Below(emitted, r', p')
  {}

  lemma StepKeepsValid(s: State, e: Event)
    requires Valid(s)
    ensures Valid(Step(s, e))
  {
    hide InOrder, Below, Close;
    var t := Step(s, e);
    match e
    case ArriveRgb(x) =>
      WindowArrive(s.rgb, s.rgbCount, x);
      if s.hand.None? {
        BelowGrows(s.emitted, Front(s.rgb, s.rgbCount), Front(s.pcd, s.pcdCount),
                   Front(t.rgb, t.rgbCount), Front(t.pcd, t.pcdCount));
      }
    case ArrivePcd(x) =>
      WindowArrive(s.pcd, s.pcdCount, x);
      if s.hand.None? {
        BelowGrows(s.emitted, Front(s.rgb, s.rgbCount), Front(s.pcd, s.pcdCount),
                   Front(t.rgb, t.rgbCount), Front(t.pcd, t.pcdCount));
      }
    case Peek =>
    case Pop =>
      if s.hand.Some? {
        var (r, p) := s.hand.value;
        if Close(r.stamp, p.stamp) {
          EmitInOrder(s.emitted, r, p);
          BelowGrows(t.emitted, r.id + 1, p.id + 1, Front(t.rgb, t.rgbCount), Front(t.pcd, t.pcdCount));
        } else {
          BelowGrows(s.emitted, r.id, p.id, Front(t.rgb, t.rgbCount), Front(t.pcd, t.pcdCount));
        }
      }
  }

  lemma {:induction false} RunKeepsValid(s: State, events: seq<Event>)
    requires Valid(s)
    ensures Valid(Run(s, events))
    decreases |events|
  {
    hide Valid, Step;
    if events != [] {
      StepKeepsValid(s, events[0]);
      RunKeepsValid(Step(s, events[0]), events[1..]);
    }
  }

  lemma InitialValid()
    ensures Valid(INITIAL)
  {}

  /** In every interleaving: both queues stay within their capacity, a pop never meets an empty
      queue, and no message is paired twice or out of order. */
  lemma SafeInterleaving(events: seq<Event>)
    ensures var s := Run(INITIAL, events);
            && |s.rgb| <= CAPACITY && |s.pcd| <= CAPACITY
            && (s.hand.Some? ==> s.rgb != [] && s.pcd != [])
            && InOrder(s.emitted)
  {
    InitialValid();
    RunKeepsValid(INITIAL, events);
  }

  // ---------- eviction between the two lock sections ----------

  /** A pop takes the very messages that were looked at. */
  predicate PopsWhatWasPeeked(s: State) {
    s.hand.Some? ==> s.rgb != [] && s.pcd != [] && s.hand.value == (s.rgb[0], s.pcd[0])
  }

  /** The stamps that arrive on either side during a run. */
  function RgbStamps(events: seq<Event>): seq<int> {
    if events == [] then []
    else (if events[0].ArriveRgb? then [events[0].stamp] else []) + RgbStamps(events[1..])
  }

  function PcdStamps(events: seq<Event>): seq<int> {
    if events == [] then []
    else (if events[0].ArrivePcd? then [events[0].stamp] else []) + PcdStamps(events[1..])
  }

  ghost predicate OnlyArrivals(events: seq<Event>) {
    forall e :: e in events ==> e.ArriveRgb? || e.ArrivePcd?
  }

  lemma ArrivalKeepsFront(s: State, e: Event)
    requires Valid(s) && s.rgb != [] && s.pcd != [] && (e.ArriveRgb? || e.ArrivePcd?)
    ensures var t := Step(s, e);
            && t.rgb != [] && t.pcd != [] && t.hand == s.hand
            && t.rgb[0].id >= s.rgb[0].id && t.pcd[0].id >= s.pcd[0].id
            && (e.ArrivePcd? || |s.rgb| < CAPACITY ==> t.rgb[0] == s.rgb[0])
            && (e.ArriveRgb? || |s.pcd| < CAPACITY ==> t.pcd[0] == s.pcd[0])
            && (e.ArriveRgb? && |s.rgb| >= CAPACITY ==> t.rgb[0].id > s.rgb[0].id)
            && (e.ArrivePcd? && |s.pcd| >= CAPACITY ==> t.pcd[0].id > s.pcd[0].id)
  {
    hide InOrder, Below;
  }

  /** Arrivals leave the front of a queue in place exactly when the queue has room for all of its
      arrivals; otherwise a later message is in front.
   */
  lemma {:induction false} FrontKeptIff(s: State, events: seq<Event>)
    requires Valid(s) && s.rgb != [] && s.pcd != [] && OnlyArrivals(events)
    ensures var t := Run(s, events);
            && t.rgb != [] && t.pcd != [] && t.hand == s.hand
            && (if |s.rgb| + |RgbStamps(events)| <= CAPACITY then t.rgb[0] == s.rgb[0]
                else t.rgb[0].id > s.rgb[0].id)
            && (if |s.pcd| + |PcdStamps(events)| <= CAPACITY then t.pcd[0] == s.pcd[0]
                else t.pcd[0].id > s.pcd[0].id)
    decreases |events|
  {
    if events != [] {
      var e, t := events[0], Step(s, events[0]);
      assert e in events;
      StepKeepsValid(s, e);
      ArrivalKeepsFront(s, e);
      ArrivalCounts(s, e);
      hide Valid, Step;
      FrontKeptIff(t, events[1..]);
    }
  }

  lemma ArrivalCounts(s: State, e: Event)
    requires e.ArriveRgb? || e.ArrivePcd?
    ensures |Step(s, e).rgb| == if e.ArriveRgb? && |s.rgb| < CAPACITY then |s.rgb| + 1 else |s.rgb|
    ensures |Step(s, e).pcd| == if e.ArrivePcd? && |s.pcd| < CAPACITY then |s.pcd| + 1 else |s.pcd|
  {}

  /** The pop takes an image, or a cloud: both when they match, the older one otherwise. */
  predicate TakesRgb(r: Msg, p: Msg) {
    Close(r.stamp, p.stamp) || r.stamp <= p.stamp
  }

  predicate TakesPcd(r: Msg, p: Msg) {
    Close(r.stamp, p.stamp) || r.stamp > p.stamp
  }

  /** That is what the pop does. */
  lemma PopTakes(s: State)
    requires s.hand.Some? && s.rgb != [] && s.pcd != []
    ensures var (r, p) := s.hand.value;
            && Step(s, Pop).rgb == (if TakesRgb(r, p) then s.rgb[1..] else s.rgb)
            && Step(s, Pop).pcd == (if TakesPcd(r, p) then s.pcd[1..] else s.pcd)
  {}

  /** Every message the pop removes is the one that is held. */
  predicate PopsHeld(s: State)
    requires s.hand.Some? && s.rgb != [] && s.pcd != []
  {
    var (r, p) := s.hand.value;
    (TakesRgb(r, p) ==> s.rgb[0] == r) && (TakesPcd(r, p) ==> s.pcd[0] == p)
  }

  /** In every run: when the loop looks at the fronts and messages arrive before it pops, each
      front is still the one it looked at if and only if its queue had room for its arrivals; and
      the pop removes nothing else if and only if every side it takes had room.
   */
  lemma PopsHeldIff(before: seq<Event>, arrivals: seq<Event>)
    requires var s := Run(INITIAL, before); s.hand.None? && s.rgb != [] && s.pcd != []
    requires OnlyArrivals(arrivals)
    ensures var s := Run(INITIAL, before);
            var t := Run(Step(s, Peek), arrivals);
            var (r, p) := (s.rgb[0], s.pcd[0]);
            && t.hand == Some((r, p)) && t.rgb != [] && t.pcd != []
            && (t.rgb[0] == r <==> |s.rgb| + |RgbStamps(arrivals)| <= CAPACITY)
            && (t.pcd[0] == p <==> |s.pcd| + |PcdStamps(arrivals)| <= CAPACITY)
            && (PopsHeld(t) <==>
                  && (TakesRgb(r, p) ==> |s.rgb| + |RgbStamps(arrivals)| <= CAPACITY)
                  && (TakesPcd(r, p) ==> |s.pcd| + |PcdStamps(arrivals)| <= CAPACITY))
  {
    var s := Run(INITIAL, before);
    InitialValid();
    hide Run, Valid, TakesRgb, TakesPcd;
    RunKeepsValid(INITIAL, before);
    StepKeepsValid(s, Peek);
    FrontKeptIff(Step(s, Peek), arrivals);
  }

  // ---------- what a spoiled pop loses ----------

  /** An image that is neither queued, nor held, nor paired, and never will be. */
  ghost predicate RgbGone(s: State, id: int) {
    && 0 <= id < Front(s.rgb, s.rgbCount)
    && (s.hand.Some? ==> id < s.hand.value.0.id)
    && forall k :: 0 <= k < |s.emitted| ==> s.emitted[k].0.id != id
  }

  ghost predicate PcdGone(s: State, id: int) {
    && 0 <= id < Front(s.pcd, s.pcdCount)
    && (s.hand.Some? ==> id < s.hand.value.1.id)
    && forall k :: 0 <= k < |s.emitted| ==> s.emitted[k].1.id != id
  }

  lemma GoneStays(s: State, e: Event, id: int)
    requires Valid(s)
    ensures RgbGone(s, id) ==> RgbGone(Step(s, e), id)
    ensures PcdGone(s, id) ==> PcdGone(Step(s, e), id)
  {
    hide InOrder, Below, Close;
    match e
    case ArriveRgb(x) => WindowArrive(s.rgb, s.rgbCount, x);
    case ArrivePcd(x) => WindowArrive(s.pcd, s.pcdCount, x);
    case Peek =>
    case Pop =>
  }

  lemma {:induction false} GoneForever(s: State, events: seq<Event>, id: int)
    requires Valid(s)
    ensures RgbGone(s, id) ==> RgbGone(Run(s, events), id)
    ensures PcdGone(s, id) ==> PcdGone(Run(s, events), id)
    decreases |events|
  {
    hide Valid, Step, RgbGone, PcdGone;
    if events != [] {
      StepKeepsValid(s, events[0]);
      GoneStays(s, events[0], id);
      GoneForever(Step(s, events[0]), events[1..], id);
    }
  }

  lemma SpoiledPopDrops(s: State)
    requires Valid(s) && s.hand.Some?
    ensures s.rgb != [] && s.pcd != []
    ensures s.hand.value.0.id < s.rgb[0].id && TakesRgb(s.hand.value.0, s.hand.value.1)
      ==> RgbGone(Step(s, Pop), s.rgb[0].id)
    ensures s.hand.value.1.id < s.pcd[0].id && TakesPcd(s.hand.value.0, s.hand.value.1)
      ==> PcdGone(Step(s, Pop), s.pcd[0].id)
  {
    hide InOrder, Close;
  }

  /** In every run: when the held message of a side the pop takes has been evicted, the pop removes
      that side's front instead, which was not looked at and is never paired, whatever follows.
   */
  lemma EvictionLosesNext(before: seq<Event>, after: seq<Event>)
    requires var s := Run(INITIAL, before); s.hand.Some? && s.rgb != [] && s.pcd != []
    ensures var s := Run(INITIAL, before);
            var (r, p) := s.hand.value;
            var t := Run(Step(s, Pop), after);
            && (r.id < s.rgb[0].id && TakesRgb(r, p) ==> RgbGone(t, s.rgb[0].id))
            && (p.id < s.pcd[0].id && TakesPcd(r, p) ==> PcdGone(t, s.pcd[0].id))
  {
    var s := Run(INITIAL, before);
    InitialValid();
    hide Run, Valid, RgbGone, PcdGone, Step, TakesRgb, TakesPcd;
    RunKeepsValid(INITIAL, before);
    SpoiledPopDrops(s);
    StepKeepsValid(s, Pop);
    GoneForever(Step(s, Pop), after, s.rgb[0].id);
    GoneForever(Step(s, Pop), after, s.pcd[0].id);
  }

  lemma {:induction false} RunConcat(s: State, a: seq<Event>, b: seq<Event>)
    ensures Run(s, a + b) == Run(Run(s, a), b)
    decreases |a|
  {
    hide Step;
    if a == [] {
      assert a + b == b;
    } else {
      RunConcat(Step(s, a[0]), a[1..], b);
      assert (a + b)[1..] == a[1..] + b;
    }
  }

  function Images(n: nat): seq<Event> {
    if n == 0 then [] else [ArriveRgb(0)] + Images(n - 1)
  }

  function ImageMsgs(first: nat, n: nat): seq<Msg> {
    seq(n, k requires 0 <= k < n => Msg(first + k, 0))
  }

  lemma {:induction false} ImagesArrive(s: State, n: nat)
    requires |s.rgb| + n <= CAPACITY
    ensures Run(s, Images(n)) == s.(rgb := s.rgb + ImageMsgs(s.rgbCount, n), rgbCount := s.rgbCount + n)
    decreases n
  {
    if n > 0 {
      var t := Step(s, ArriveRgb(0));
      ImagesArrive(t, n - 1);
      assert t.rgb + ImageMsgs(t.rgbCount, n - 1) == s.rgb + ImageMsgs(s.rgbCount, n);
    }
  }

  /** Ten images and a cloud arrive, the loop looks at the fronts, an image arrives, the loop pops. */
  function LosingRun(): seq<Event> {
    Images(10) + [ArrivePcd(0), Peek, ArriveRgb(0), Pop]
  }

  lemma RunFour(s: State, a: Event, b: Event, c: Event, d: Event)
    ensures Run(s, [a, b, c, d]) == Step(Step(Step(Step(s, a), b), c), d)
  {
    hide Step;
    assert [a, b, c, d][1..] == [b, c, d] && [b, c, d][1..] == [c, d] && [c, d][1..] == [d] && [d][1..] == [];
    var s1 := Step(s, a);
    var s2 := Step(s1, b);
    assert Run(s, [a, b, c, d]) == Run(s1, [b, c, d]) == Run(s2, [c, d]) == Run(Step(s2, c), [d]);
  }

  lemma ReadyRun()
    ensures Run(INITIAL, Images(10)) == State(ImageMsgs(0, 10), [], 10, 0, None, [])
  {
    hide Run, Images;
    ImagesArrive(INITIAL, 10);
    assert [] + ImageMsgs(0, 10) == ImageMsgs(0, 10);
  }

  lemma LastSteps()
    ensures var s := State(ImageMsgs(0, 10), [], 10, 0, None, []);
            var t := Step(Step(Step(Step(s, ArrivePcd(0)), Peek), ArriveRgb(0)), Pop);
            t == State(ImageMsgs(2, 9), [], 11, 1, None, [(Msg(0, 0), Msg(0, 0))])
  {
    var s := State(ImageMsgs(0, 10), [], 10, 0, None, []);
    var held := Step(Step(s, ArrivePcd(0)), Peek);
    assert held == State(ImageMsgs(0, 10), [Msg(0, 0)], 10, 1, Some((Msg(0, 0), Msg(0, 0))), []);
    var full := Step(held, ArriveRgb(0));
    assert ImageMsgs(0, 10)[1..] + [Msg(10, 0)] == ImageMsgs(1, 10);
    assert full == State(ImageMsgs(1, 10), [Msg(0, 0)], 11, 1, Some((Msg(0, 0), Msg(0, 0))), []);
    assert ImageMsgs(1, 10)[1..] == ImageMsgs(2, 9);
  }

  /** That run loses the second image for good, without its having been looked at. */
  lemma MessageLost(after: seq<Event>)
    ensures Run(INITIAL, LosingRun()) == State(ImageMsgs(2, 9), [], 11, 1, None, [(Msg(0, 0), Msg(0, 0))])
    ensures RgbGone(Run(INITIAL, LosingRun() + after), 1)
  {
    hide Run, Images, Step, ImageMsgs, RgbGone;
    ReadyRun();
    LastSteps();
    InitialValid();
    var s := State(ImageMsgs(0, 10), [], 10, 0, None, []);
    RunConcat(INITIAL, Images(10), [ArrivePcd(0), Peek, ArriveRgb(0), Pop]);
    RunFour(s, ArrivePcd(0), Peek, ArriveRgb(0), Pop);
    RunKeepsValid(INITIAL, LosingRun());
    SecondGone();
    GoneForever(Run(INITIAL, LosingRun()), after, 1);
    RunConcat(INITIAL, LosingRun(), after);
  }

  lemma SecondGone()
    ensures RgbGone(State(ImageMsgs(2, 9), [], 11, 1, None, [(Msg(0, 0), Msg(0, 0))]), 1)
  {}

  /** The same with a cloud a second older: the image queue overflows, but the pop takes only the
      cloud, which is the one that is held.
   */
  lemma OverflowWithoutHarm()
    ensures Run(INITIAL, Images(10) + [ArrivePcd(-1000000000), Peek, ArriveRgb(0), Pop])
         == State(ImageMsgs(1, 10), [], 11, 1, None, [])
  {
    var s := State(ImageMsgs(0, 10), [], 10, 0, None, []);
    OverflowSteps();
    hide Run, Images, Step, ImageMsgs;
    ReadyRun();
    RunConcat(INITIAL, Images(10), [ArrivePcd(-1000000000), Peek, ArriveRgb(0), Pop]);
    RunFour(s, ArrivePcd(-1000000000), Peek, ArriveRgb(0), Pop);
  }

  lemma OverflowSteps()
    ensures var s := State(ImageMsgs(0, 10), [], 10, 0, None, []);
            Step(Step(Step(Step(s, ArrivePcd(-1000000000)), Peek), ArriveRgb(0)), Pop)
              == State(ImageMsgs(1, 10), [], 11, 1, None, [])
  {
    var s, older := State(ImageMsgs(0, 10), [], 10, 0, None, []), Msg(0, -1000000000);
    var held := Step(Step(s, ArrivePcd(-1000000000)), Peek);
    assert held == State(ImageMsgs(0, 10), [older], 10, 1, Some((Msg(0, 0), older)), []);
    assert ImageMsgs(0, 10)[1..] + [Msg(10, 0)] == ImageMsgs(1, 10);
    assert Step(held, ArriveRgb(0)) == State(ImageMsgs(1, 10), [older], 11, 1, Some((Msg(0, 0), older)), []);
    assert [older][1..] == [];
  }

  // ---------- without eviction: independence of the interleaving ----------

  /** An arrival finds room: nothing is evicted. */
  predicate FindsRoom(s: State, e: Event) {
    match e
    case ArriveRgb(_) => |s.rgb| < CAPACITY
    case ArrivePcd(_) => |s.pcd| < CAPACITY
    case Peek => true
    case Pop => true
  }

  predicate NoEviction(s: State, events: seq<Event>)
    decreases |events|
  {
    events == [] || (FindsRoom(s, events[0]) && NoEviction(Step(s, events[0]), events[1..]))
  }

  function Ids(emitted: seq<(Msg, Msg)>): (r: seq<Pair>)
    ensures |r| == |emitted|
  {
    seq(|emitted|, k requires 0 <= k < |emitted| => (emitted[k].0.id, emitted[k].1.id))
  }

  /** A queue holds exactly the arrivals from its front on, out of the complete stream a. */
  ghost predicate Holds(q: seq<Msg>, count: nat, a: seq<int>) {
    && |q| <= count <= |a|
    && forall k :: 0 <= k < |q| ==> q[k] == Msg(count - |q| + k, a[count - |q| + k])
  }

  /** What was emitted, followed by the drain of everything not yet popped, is the drain of the
      complete streams a and b, including what has not arrived yet. */
  ghost predicate OnTrack(s: State, a: seq<int>, b: seq<int>) {
    && Holds(s.rgb, s.rgbCount, a) && Holds(s.pcd, s.pcdCount, b)
    && PopsWhatWasPeeked(s)
    && Ids(s.emitted) + Drain(a, b, s.rgbCount - |s.rgb|, s.pcdCount - |s.pcd|) == Drain(a, b, 0, 0)
  }

  /** The event brings the next stamp of the complete stream of its side. */
  predicate Follows(s: State, e: Event, a: seq<int>, b: seq<int>) {
    match e
    case ArriveRgb(t) => s.rgbCount < |a| && a[s.rgbCount] == t
    case ArrivePcd(t) => s.pcdCount < |b| && b[s.pcdCount] == t
    case Peek => true
    case Pop => true
  }

  lemma HoldsMore(q: seq<Msg>, count: nat, a: seq<int>)
    requires Holds(q, count, a) && |q| < CAPACITY && count < |a|
    ensures Holds(Evict(q) + [Msg(count, a[count])], count + 1, a)
  {}

  lemma IdsLast(emitted: seq<(Msg, Msg)>, r: Msg, p: Msg)
    ensures Ids(emitted + [(r, p)]) == Ids(emitted) + [(r.id, p.id)]
  {}

  lemma StepOnTrack(s: State, e: Event, a: seq<int>, b: seq<int>)
    requires OnTrack(s, a, b) && FindsRoom(s, e) && Follows(s, e, a, b)
    ensures OnTrack(Step(s, e), a, b)
  {
    match e
    case ArriveRgb(t) =>
      hide Drain;
      HoldsMore(s.rgb, s.rgbCount, a);
    case ArrivePcd(t) =>
      hide Drain;
      HoldsMore(s.pcd, s.pcdCount, b);
    case Peek =>
      hide Drain;
    case Pop =>
      if s.hand.Some? {
        PopOnTrack(s, a, b);
      }
  }

  lemma PopOnTrack(s: State, a: seq<int>, b: seq<int>)
    requires OnTrack(s, a, b) && s.hand.Some?
    ensures OnTrack(Step(s, Pop), a, b)
  {
    var t := Step(s, Pop);
    var (r, p) := s.hand.value;
    var i, j := s.rgbCount - |s.rgb|, s.pcdCount - |s.pcd|;
    assert r == Msg(i, a[i]) && p == Msg(j, b[j]);
    assert Holds(PopFront(s.rgb), s.rgbCount, a) && Holds(PopFront(s.pcd), s.pcdCount, b);
    if Close(r.stamp, p.stamp) {
      IdsLast(s.emitted, r, p);
      var rest := Drain(a, b, i + 1, j + 1);
      assert Drain(a, b, i, j) == [(i, j)] + rest;
      assert (Ids(s.emitted) + [(i, j)]) + rest == Ids(s.emitted) + ([(i, j)] + rest);
    }
  }

  lemma {:induction false} RunOnTrack(s: State, events: seq<Event>, a: seq<int>, b: seq<int>)
    requires OnTrack(s, a, b) && NoEviction(s, events)
    requires a[s.rgbCount..] == RgbStamps(events) && b[s.pcdCount..] == PcdStamps(events)
    ensures OnTrack(Run(s, events), a, b)
    ensures Run(s, events).rgbCount == |a| && Run(s, events).pcdCount == |b|
    decreases |events|
  {
    if events != [] {
      var e, t := events[0], Step(s, events[0]);
      NextStamps(s, events, a, b);
      hide OnTrack, Step, FindsRoom;
      StepOnTrack(s, e, a, b);
      RunOnTrack(t, events[1..], a, b);
    }
  }

  lemma NextStamps(s: State, events: seq<Event>, a: seq<int>, b: seq<int>)
    requires events != [] && s.rgbCount <= |a| && s.pcdCount <= |b|
    requires a[s.rgbCount..] == RgbStamps(events) && b[s.pcdCount..] == PcdStamps(events)
    ensures Follows(s, events[0], a, b)
    ensures var t := Step(s, events[0]);
            && t.rgbCount <= |a| && t.pcdCount <= |b|
            && a[t.rgbCount..] == RgbStamps(events[1..]) && b[t.pcdCount..] == PcdStamps(events[1..])
  {
    match events[0]
    case ArriveRgb(x) =>
      assert a[s.rgbCount] == a[s.rgbCount..][0];
      assert a[s.rgbCount + 1..] == a[s.rgbCount..][1..];
    case ArrivePcd(x) =>
      assert b[s.pcdCount] == b[s.pcdCount..][0];
      assert b[s.pcdCount + 1..] == b[s.pcdCount..][1..];
    case Peek =>
    case Pop =>
  }

  /** The loop has nothing left to do: it holds nothing and one queue is empty. */
  predicate Quiet(s: State) {
    s.hand.None? && (s.rgb == [] || s.pcd == [])
  }

  /** Without eviction the emitted pairs do not depend on the interleaving: they are a prefix of
      the one-shot drain of the complete streams, and all of it once the loop is quiet. */
  lemma InterleavingIrrelevant(events: seq<Event>)
    requires NoEviction(INITIAL, events)
    ensures var s := Run(INITIAL, events);
            var all := Drain(RgbStamps(events), PcdStamps(events), 0, 0);
            && Ids(s.emitted) <= all
            && (Quiet(s) ==> Ids(s.emitted) == all)
  {
    var a, b := RgbStamps(events), PcdStamps(events);
    hide Run, NoEviction;
    assert Ids(INITIAL.emitted) + Drain(a, b, 0, 0) == Drain(a, b, 0, 0);
    assert OnTrack(INITIAL, a, b);
    RunOnTrack(INITIAL, events, a, b);
  }

  /** On sorted streams, without eviction, a quiet loop has made as many pairs as any one-to-one
      matching within the window could. */
  lemma InterleavingOptimal(events: seq<Event>, m: set<Pair>)
    requires NoEviction(INITIAL, events) && Quiet(Run(INITIAL, events))
    requires Sorted(RgbStamps(events)) && Sorted(PcdStamps(events))
    requires IsMatching(RgbStamps(events), PcdStamps(events), 0, 0, m)
    ensures |m| <= |Run(INITIAL, events).emitted|
  {
    hide Run, NoEviction, Drain, Sorted, IsMatching;
    InterleavingIrrelevant(events);
    DrainOptimal(RgbStamps(events), PcdStamps(events), 0, 0, m);
  }

  // ---------- one image and one cloud ----------

  /** An image and a cloud are emitted if and only if they are at most 50 ms apart; otherwise the
      later one, and nothing else, is kept.
   */
  lemma OnePairIff(r: int, p: int)
    ensures var t := Run(INITIAL, [ArriveRgb(r), ArrivePcd(p), Peek, Pop]);
            && t.emitted == (if -50_000_000 <= r - p <= 50_000_000 then [(Msg(0, r), Msg(0, p))] else [])
            && t.rgb == (if r - p > 50_000_000 then [Msg(0, r)] else [])
            && t.pcd == (if p - r > 50_000_000 then [Msg(0, p)] else [])
            && t.hand == None
  {
    RunFour(INITIAL, ArriveRgb(r), ArrivePcd(p), Peek, Pop);
    var s1 := Step(INITIAL, ArriveRgb(r));
    assert s1 == State([Msg(0, r)], [], 1, 0, None, []);
    var s2 := Step(s1, ArrivePcd(p));
    assert s2 == State([Msg(0, r)], [Msg(0, p)], 1, 1, None, []);
    assert Step(s2, Peek) == s2.(hand := Some((Msg(0, r), Msg(0, p))));
    hide Run;
    assert [Msg(0, r)][1..] == [] && [Msg(0, p)][1..] == [];
  }

  // ---------- the program's objects ----------

  /** The steps of one undisturbed call of the pairing loop. */
  function Settle(s: State): (r: State)
    requires Valid(s) && s.hand.None?
    ensures Valid(r) && Quiet(r)
    decreases |s.rgb| + |s.pcd|
  {
    if Quiet(s) then s
    else
      StepKeepsValid(s, Peek);
      StepKeepsValid(Step(s, Peek), Pop);
      Settle(Step(Step(s, Peek), Pop))
  }

  lemma {:induction false} SettleIsRun(s: State) returns (events: seq<Event>)
    requires Valid(s) && s.hand.None?
    ensures Settle(s) == Run(s, events)
    ensures forall e :: e in events ==> e.Peek? || e.Pop?
    decreases |s.rgb| + |s.pcd|
  {
    events := [];
    if !Quiet(s) {
      StepKeepsValid(s, Peek);
      StepKeepsValid(Step(s, Peek), Pop);
      var rest := SettleIsRun(Step(Step(s, Peek), Pop));
      events := [Peek, Pop] + rest;
      hide Valid, Quiet;
      assert events[1..] == [Pop] + rest && events[1..][1..] == rest;
      assert Run(s, events) == Run(Step(s, Peek), events[1..]) == Run(Step(Step(s, Peek), Pop), rest);
    }
  }

  class Pairing {
    var rgbQueue: seq<Msg>
    var pcdQueue: seq<Msg>
    var hand: Option<(Msg, Msg)>
    ghost var rgbCount: nat
    ghost var pcdCount: nat
    ghost var emitted: seq<(Msg, Msg)>

    constructor ()
      ensures Now() == INITIAL
    {
      rgbQueue, pcdQueue, hand := [], [], None;
      rgbCount, pcdCount, emitted := 0, 0, [];
    }

    ghost function Now(): State
      reads this
    {
      State(rgbQueue, pcdQueue, rgbCount, pcdCount, hand, emitted)
    }

    /** Caching an image (the cloud side is alike). */
    method PublishRgb(msg: Msg)
      requires msg.id == rgbCount
      modifies this
      ensures Now() == Step(old(Now()), ArriveRgb(msg.stamp))
    {
      if |rgbQueue| >= 10 {
        rgbQueue := rgbQueue[1..];
      }
      rgbQueue := rgbQueue + [msg];
      rgbCount := rgbCount + 1;
    }

    method PublishPcd(msg: Msg)
      requires msg.id == pcdCount
      modifies this
      ensures Now() == Step(old(Now()), ArrivePcd(msg.stamp))
    {
      if |pcdQueue| >= 10 {
        pcdQueue := pcdQueue[1..];
      }
      pcdQueue := pcdQueue + [msg];
      pcdCount := pcdCount + 1;
    }

    /** The first lock section of a round. */
    method LookAtFronts()
      requires hand.None?
      modifies this
      ensures Now() == Step(old(Now()), Event.Peek)
    {
      if rgbQueue != [] && pcdQueue != [] {
        hand := Some((rgbQueue[0], pcdQueue[0]));
      }
    }

    /** The rest of a round, with its second lock section: both fronts of the held pair's queues
        exist, by `SafeInterleaving`. */
    method PopAndProcess()
      requires hand.Some? && rgbQueue != [] && pcdQueue != []
      modifies this
      ensures Now() == Step(old(Now()), Event.Pop)
    {
      var (rgb, pcd) := hand.value;
      hand := None;
      var diff := rgb.stamp - pcd.stamp;
      var absDiff := if diff < 0 then -diff else diff;
      if absDiff > 50000000 {
        if diff > 0 {
          pcdQueue := pcdQueue[1..];
        } else {
          rgbQueue := rgbQueue[1..];
        }
        return;
      }
      rgbQueue := rgbQueue[1..];
      pcdQueue := pcdQueue[1..];
      emitted := emitted + [(rgb, pcd)];
    }

    /** The pairing loop without interference ends with one queue empty. */
    method TryProcessPair()
      requires Valid(Now()) && hand.None?
      modifies this
      ensures Now() == Settle(old(Now()))
    {
      hide Valid, Step;
      while true
        invariant Valid(Now()) && hand.None?
        invariant Settle(Now()) == Settle(old(Now()))
        decreases |rgbQueue| + |pcdQueue|
      {
        ghost var before := Now();
        StepKeepsValid(before, Event.Peek);
        LookAtFronts();
        ghost var held := Now();
        PeekHolds(before);
        if hand.None? {
          break;
        }
        StepKeepsValid(held, Event.Pop);
        PopShrinks(held);
        PopAndProcess();
      }
    }
  }

  lemma PeekHolds(s: State)
    requires Valid(s) && s.hand.None?
    ensures var t := Step(s, Peek);
            && (t.hand.Some? <==> !Quiet(s)) && (t.hand.None? ==> t == s)
            && |t.rgb| == |s.rgb| && |t.pcd| == |s.pcd|
  {}

  lemma PopShrinks(s: State)
    requires Valid(s) && s.hand.Some?
    ensures s.rgb != [] && s.pcd != []
    ensures var t := Step(s, Pop); t.hand.None? && |t.rgb| + |t.pcd| < |s.rgb| + |s.pcd|
  {}
}
