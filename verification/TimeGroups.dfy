/** Points of one scan that share their time are processed together.  The groups are found by
    counting; for each group the measurement rows are built in two passes.
 */
module TimeGroups {
  import opened RealAlgebra

  function Total(sizes: seq<nat>): nat {
    if sizes == [] then 0 else Total(sizes[..|sizes| - 1]) + sizes[|sizes| - 1]
  }

  lemma TotalAppend(sizes: seq<nat>, n: nat)
    ensures Total(sizes + [n]) == Total(sizes) + n
  {
    assert (sizes + [n])[..|sizes|] == sizes;
  }

  /** The index at which a group starts. */
  function Start(sizes: seq<nat>, g: nat): nat
    requires g <= |sizes|
  {
    Total(sizes[..g])
  }

  lemma StartNext(sizes: seq<nat>, g: nat)
    requires g < |sizes|
    ensures Start(sizes, g + 1) == Start(sizes, g) + sizes[g]
  {
    assert sizes[..g + 1] == sizes[..g] + [sizes[g]];
    TotalAppend(sizes[..g], sizes[g]);
  }

  lemma {:induction false} StartMonotone(sizes: seq<nat>, g: nat, h: nat)
    requires g <= h <= |sizes|
    ensures Start(sizes, g) <= Start(sizes, h) <= Total(sizes)
    decreases |sizes| - g
  {
    if g < h {
      StartNext(sizes, g);
      StartMonotone(sizes, g + 1, h);
    } else if h < |sizes| {
      StartNext(sizes, h);
      StartMonotone(sizes, h + 1, h + 1);
    } else {
      assert sizes[..h] == sizes;
    }
  }

  predicate Rises(times: seq<real>, i: int)
    requires 0 < i < |times|
  {
    times[i] > times[i - 1]
  }

  ghost predicate InGroup(sizes: seq<nat>, g: nat, i: int)
    requires g < |sizes|
  {
    Start(sizes, g) <= i < Start(sizes, g) + sizes[g]
  }

  /** Group g begins where the time rises, or at the very beginning, and does not rise inside. */
  ghost predicate GoodGroup(times: seq<real>, sizes: seq<nat>, g: nat)
    requires g < |sizes|
  {
    var a := Start(sizes, g);
    && sizes[g] > 0 && a + sizes[g] <= |times|
    && (g > 0 ==> a > 0 && Rises(times, a))
    && forall i :: a < i < a + sizes[g] ==> !Rises(times, i)
  }

  /** The groups cut the scan exactly where the time rises. */
  ghost predicate IsGrouping(times: seq<real>, sizes: seq<nat>) {
    Total(sizes) == |times| && GoodGroups(times, sizes)
  }

  ghost predicate GoodGroups(times: seq<real>, sizes: seq<nat>) {
    forall g :: 0 <= g < |sizes| ==> GoodGroup(times, sizes, g)
  }

  lemma AppendGroup(times: seq<real>, sizes: seq<nat>, n: nat)
    requires GoodGroups(times, sizes)
    requires n > 0 && Total(sizes) + n <= |times|
    requires sizes != [] ==> Total(sizes) > 0 && Rises(times, Total(sizes))
    requires forall i :: Total(sizes) < i < Total(sizes) + n ==> !Rises(times, i)
    ensures GoodGroups(times, sizes + [n])
    ensures Total(sizes + [n]) == Total(sizes) + n
  {
    var more := sizes + [n];
    TotalAppend(sizes, n);
    assert more[..|sizes|] == sizes;
    forall g | 0 <= g < |more|
      ensures GoodGroup(times, more, g)
    {
      if g < |sizes| {
        assert more[..g] == sizes[..g];
        assert GoodGroup(times, sizes, g);
      }
    }
  }

  /** After point i: complete groups, then j points of the current one before point i. */
  ghost predicate SoFar(times: seq<real>, sizes: seq<nat>, i: nat, j: nat) {
    && i < |times|
    && Total(sizes) + j == i
    && GoodGroups(times, sizes)
    && (sizes != [] ==> Total(sizes) > 0 && Rises(times, Total(sizes)))
    && (forall m :: Total(sizes) < m <= i ==> !Rises(times, m))
  }

  lemma NextPoint(times: seq<real>, sizes: seq<nat>, i: nat, j: nat)
    requires SoFar(times, sizes, i, j) && i + 1 < |times|
    ensures !Rises(times, i + 1) ==> SoFar(times, sizes, i + 1, j + 1)
    ensures Rises(times, i + 1) ==> SoFar(times, sizes + [j + 1], i + 1, 0)
  {
    hide GoodGroups, Total;
    if Rises(times, i + 1) {
      AppendGroup(times, sizes, j + 1);
    }
  }

  lemma LastPoint(times: seq<real>, sizes: seq<nat>, i: nat, j: nat)
    requires SoFar(times, sizes, i, j) && i + 1 == |times|
    ensures IsGrouping(times, sizes + [j + 1])
  {
    AppendGroup(times, sizes, j + 1);
  }

  /** What the loop keeps, for the empty cloud too. */
  ghost predicate Counting(times: seq<real>, sizes: seq<nat>, i: nat, j: nat) {
    if times == [] then sizes == [] && i == 0 && j == 0 else SoFar(times, sizes, i, j)
  }

  lemma NothingYet(times: seq<real>)
    ensures Counting(times, [], 0, 0)
  {
    hide Rises;
    assert Total([]) == 0;
  }

  lemma CountingNext(times: seq<real>, sizes: seq<nat>, i: nat, j: nat)
    requires Counting(times, sizes, i, j) && i + 1 < |times|
    ensures times[i + 1] > times[i] ==> Counting(times, sizes + [j + 1], i + 1, 0)
    ensures times[i + 1] <= times[i] ==> Counting(times, sizes, i + 1, j + 1)
  {
    assert Rises(times, i + 1) == (times[i + 1] > times[i]);
    hide SoFar, Rises;
    NextPoint(times, sizes, i, j);
  }

  /** At the last point, if there is one, the counted points and one more are the last group. */
  lemma CountingEnds(times: seq<real>, sizes: seq<nat>, i: nat, j: nat)
    requires Counting(times, sizes, i, j) && i + 1 >= |times|
    ensures times != [] ==> IsGrouping(times, sizes + [j + 1])
    ensures times == [] ==> sizes + [j + 1] == [1]
  {
    if times != [] {
      assert i + 1 == |times|;
      hide SoFar, IsGrouping;
      LastPoint(times, sizes, i, j);
    }
  }

  /** Every cloud, sorted or not; the empty cloud alone gets a group that it does not have. */
  method TimeCompressing(times: seq<real>) returns (timeSeq: seq<nat>)
    ensures times != [] ==> IsGrouping(times, timeSeq)
    ensures times == [] ==> timeSeq == [1]
  {
    hide Counting, IsGrouping;
    var pointsSize: int := |times|;
    var j: nat := 0;
    timeSeq := [];
    NothingYet(times);
    var i: nat := 0;
    while i < pointsSize - 1
      invariant Counting(times, timeSeq, i, j)
    {
      CountingNext(times, timeSeq, i, j);
      j := j + 1;
      if times[i + 1] > times[i] {
        timeSeq := timeSeq + [j];
        j := 0;
      }
      i := i + 1;
    }
    CountingEnds(times, timeSeq, i, j);
    timeSeq := timeSeq + [j + 1];
  }

  /** The sizes add up to the number of points exactly when there are points. */
  lemma GroupsAddUpIff(times: seq<real>, timeSeq: seq<nat>)
    requires times != [] ==> IsGrouping(times, timeSeq)
    requires times == [] ==> timeSeq == [1]
    ensures Total(timeSeq) == |times| <==> times != []
  {
    TotalAppend([], 1);
    assert [] + [1] == [1];
  }

  /** Every point belongs to exactly one group. */
  lemma {:induction false} GroupOf(sizes: seq<nat>, i: nat) returns (g: nat)
    requires i < Total(sizes)
    ensures g < |sizes| && InGroup(sizes, g, i)
    decreases |sizes|
  {
    var n := |sizes| - 1;
    var front := sizes[..n];
    if i < Total(front) {
      g := GroupOf(front, i);
      assert front[..g] == sizes[..g];
    } else {
      g := n;
    }
  }

  lemma GroupsDisjoint(sizes: seq<nat>, g: nat, h: nat, i: nat)
    requires g < |sizes| && h < |sizes| && InGroup(sizes, g, i) && InGroup(sizes, h, i)
    ensures g == h
  {
    StartNext(sizes, g);
    StartNext(sizes, h);
    if g < h {
      StartMonotone(sizes, g + 1, h);
    } else if h < g {
      StartMonotone(sizes, h + 1, g);
    }
  }

  /** In every cloud, sorted or not, a point shares the group of the point before it if and only if
      its time is not larger: neither an equal nor a falling time starts a group.
   */
  lemma SameGroupIff(times: seq<real>, sizes: seq<nat>, g: nat, i: nat)
    requires IsGrouping(times, sizes) && 0 < i < |times| && g < |sizes| && InGroup(sizes, g, i - 1)
    ensures InGroup(sizes, g, i) <==> times[i] <= times[i - 1]
  {
    assert GoodGroup(times, sizes, g);
    if InGroup(sizes, g, i) {
      assert !Rises(times, i);
    } else {
      StartNext(sizes, g);
      assert sizes[..|sizes|] == sizes;
      assert Start(sizes, |sizes|) == |times|;
      assert i == Start(sizes, g + 1) && g + 1 != |sizes|;
      assert GoodGroup(times, sizes, g + 1);
      assert Rises(times, i);
    }
  }

  /** In a sorted scan all points of a group have one time, and later groups have later times. */
  lemma SortedGroups(times: seq<real>, sizes: seq<nat>, g: nat, h: nat, i: nat, j: nat)
    requires Sorted(times) && IsGrouping(times, sizes) && g <= h < |sizes|
    requires InGroup(sizes, g, i) && InGroup(sizes, h, j)
    ensures i < |times| && j < |times|
    ensures g == h ==> times[i] == times[j]
    ensures g < h ==> times[i] < times[j]
  {
    assert GoodGroup(times, sizes, g) && GoodGroup(times, sizes, h);
    if g == h {
      EqualInside(times, sizes, g, i);
      EqualInside(times, sizes, g, j);
    } else {
      StartNext(sizes, g);
      StartMonotone(sizes, g + 1, h);
      var b := Start(sizes, h);
      assert Rises(times, b);
      assert times[i] <= times[b - 1] < times[b] <= times[j];
    }
  }

  lemma {:induction false} EqualInside(times: seq<real>, sizes: seq<nat>, g: nat, i: nat)
    requires Sorted(times) && g < |sizes| && GoodGroup(times, sizes, g) && InGroup(sizes, g, i)
    ensures times[i] == times[Start(sizes, g)]
    decreases i
  {
    if i > Start(sizes, g) {
      EqualInside(times, sizes, g, i - 1);
      assert !Rises(times, i);
    }
  }
}
