/** Pairing images and clouds by time stamp: the greedy drain of two queues is optimal.

    Stamps are nanoseconds.  Two messages match when their stamps differ by at most 50 ms.
 */
module Matching {

  const WINDOW: int := 50_000_000

  predicate Close(a: int, b: int) {
    -WINDOW <= a - b <= WINDOW
  }

  type Pair = (nat, nat)

  /** The pairs, by position, that the greedy drain of a[i..] and b[j..] makes. */
  function Drain(a: seq<int>, b: seq<int>, i: nat, j: nat): seq<Pair>
    requires i <= |a| && j <= |b|
    decreases |a| - i + |b| - j
  {
    if i == |a| || j == |b| then []
    else if Close(a[i], b[j]) then [(i, j)] + Drain(a, b, i + 1, j + 1)
    else if a[i] > b[j] then Drain(a, b, i, j + 1)
    else Drain(a, b, i + 1, j)
  }

  ghost predicate Sorted(a: seq<int>) {
    forall x, y :: 0 <= x <= y < |a| ==> a[x] <= a[y]
  }

  /** A one-to-one matching of a[i..] and b[j..] within the window. */
  ghost predicate IsMatching(a: seq<int>, b: seq<int>, i: nat, j: nat, m: set<Pair>) {
    && (forall p :: p in m ==> i <= p.0 < |a| && j <= p.1 < |b| && Close(a[p.0], b[p.1]))
    && (forall p, q :: p in m && q in m && p != q ==> p.0 != q.0 && p.1 != q.1)
  }

  // ---------- the drain is a matching ----------

  ghost predicate Increasing(s: seq<Pair>) {
    forall x, y :: 0 <= x < y < |s| ==> s[x].0 < s[y].0 && s[x].1 < s[y].1
  }

  /** Pairs within the window, at positions of a[i..] and b[j..]. */
  ghost predicate Inside(a: seq<int>, b: seq<int>, i: nat, j: nat, s: seq<Pair>) {
    forall k :: 0 <= k < |s| ==> i <= s[k].0 < |a| && j <= s[k].1 < |b| && Close(a[s[k].0], b[s[k].1])
  }

  lemma ConsPair(a: seq<int>, b: seq<int>, i: nat, j: nat, rest: seq<Pair>)
    requires i < |a| && j < |b| && Close(a[i], b[j])
    requires Increasing(rest) && Inside(a, b, i + 1, j + 1, rest)
    ensures Increasing([(i, j)] + rest) && Inside(a, b, i, j, [(i, j)] + rest)
  {
    var s: seq<Pair> := [(i, j)] + rest;
    forall x, y | 0 <= x < y < |s|
      ensures s[x].0 < s[y].0 && s[x].1 < s[y].1
    {
      assert s[y] == rest[y - 1];
      if x > 0 {
        assert s[x] == rest[x - 1];
      }
    }
    forall k | 0 <= k < |s|
      ensures i <= s[k].0 < |a| && j <= s[k].1 < |b| && Close(a[s[k].0], b[s[k].1])
    {
      if k > 0 {
        assert s[k] == rest[k - 1];
      }
    }
  }

  /** The drain's pairs are within the window and strictly increasing on both sides. */
  lemma {:induction false} DrainIncreasing(a: seq<int>, b: seq<int>, i: nat, j: nat)
    requires i <= |a| && j <= |b|
    ensures Increasing(Drain(a, b, i, j)) && Inside(a, b, i, j, Drain(a, b, i, j))
    decreases |a| - i + |b| - j
  {
    hide Increasing;
    if i == |a| || j == |b| {
      NoPairs();
    } else if Close(a[i], b[j]) {
      DrainIncreasing(a, b, i + 1, j + 1);
      ConsPair(a, b, i, j, Drain(a, b, i + 1, j + 1));
    } else if a[i] > b[j] {
      DrainIncreasing(a, b, i, j + 1);
    } else {
      DrainIncreasing(a, b, i + 1, j);
    }
  }

  lemma NoPairs()
    ensures Increasing([])
  {}

  function PairSet(s: seq<Pair>): set<Pair> {
    set p | p in s
  }

  lemma {:induction false} PairSetSize(s: seq<Pair>)
    requires Increasing(s)
    ensures |PairSet(s)| == |s|
  {
    if s != [] {
      var t := s[..|s| - 1];
      var last := s[|s| - 1];
      PairSetSize(t);
      assert s == t + [last];
      assert last !in t;
      assert PairSet(s) == PairSet(t) + {last};
    }
  }

  lemma DrainIsMatching(a: seq<int>, b: seq<int>, i: nat, j: nat)
    requires i <= |a| && j <= |b|
    ensures IsMatching(a, b, i, j, PairSet(Drain(a, b, i, j)))
    ensures |PairSet(Drain(a, b, i, j))| == |Drain(a, b, i, j)|
  {
    var s := Drain(a, b, i, j);
    DrainIncreasing(a, b, i, j);
    PairSetSize(s);
  }

  // ---------- no matching is larger ----------

  /** Without the pairs that use position i or j, a matching is one of the rest. */
  lemma MatchingBehind(a: seq<int>, b: seq<int>, i: nat, j: nat, m: set<Pair>, m': set<Pair>)
    requires IsMatching(a, b, i, j, m) && m' <= m
    requires forall p :: p in m' ==> p.0 != i && p.1 != j
    ensures IsMatching(a, b, i + 1, j + 1, m')
  {}

  /** Partners of the two front elements match each other. */
  lemma ExchangeBoth(a: seq<int>, b: seq<int>, i: nat, j: nat, m: set<Pair>, p: Pair, q: Pair)
    requires Sorted(a) && Sorted(b) && i < |a| && j < |b|
    requires IsMatching(a, b, i, j, m) && p in m && q in m && p != q && p.0 == i && q.1 == j
    ensures IsMatching(a, b, i + 1, j + 1, m - {p, q} + {(q.0, p.1)})
    ensures |m| == |m - {p, q} + {(q.0, p.1)}| + 1
  {
    var r := (q.0, p.1);
    var rest := m - {p, q};
    MatchingBehind(a, b, i, j, m, rest);
    assert a[i] <= a[q.0] && b[j] <= b[p.1];
    assert Close(a[i], b[p.1]) && Close(a[q.0], b[j]);
    assert r.0 > i && r.1 > j && Close(a[r.0], b[r.1]);
    assert forall x :: x in rest ==> x.0 != r.0 && x.1 != r.1;
    WithPair(a, b, i + 1, j + 1, rest, r);
    assert rest == (m - {p}) - {q};
    assert r !in rest;
  }

  lemma WithPair(a: seq<int>, b: seq<int>, i: nat, j: nat, m: set<Pair>, r: Pair)
    requires IsMatching(a, b, i, j, m)
    requires i <= r.0 < |a| && j <= r.1 < |b| && Close(a[r.0], b[r.1])
    requires forall x :: x in m ==> x.0 != r.0 && x.1 != r.1
    ensures IsMatching(a, b, i, j, m + {r})
  {}

  /** The front elements match: exchange whatever the matching does with them. */
  lemma ExchangeFront(a: seq<int>, b: seq<int>, i: nat, j: nat, m: set<Pair>) returns (m': set<Pair>)
    requires Sorted(a) && Sorted(b) && i < |a| && j < |b| && Close(a[i], b[j])
    requires IsMatching(a, b, i, j, m)
    ensures IsMatching(a, b, i + 1, j + 1, m')
    ensures |m| <= |m'| + 1
  {
    if p :| p in m && p.0 == i {
      if q :| q in m && q.1 == j && q != p {
        hide Sorted, Close;
        m' := m - {p, q} + {(q.0, p.1)};
        ExchangeBoth(a, b, i, j, m, p, q);
      } else {
        m' := m - {p};
        MatchingBehind(a, b, i, j, m, m');
      }
    } else if q :| q in m && q.1 == j {
      m' := m - {q};
      MatchingBehind(a, b, i, j, m, m');
    } else {
      m' := m;
      MatchingBehind(a, b, i, j, m, m');
    }
  }

  /** Greedy is optimal: no one-to-one matching within the window has more pairs. */
  lemma {:induction false} DrainOptimal(a: seq<int>, b: seq<int>, i: nat, j: nat, m: set<Pair>)
    requires Sorted(a) && Sorted(b) && i <= |a| && j <= |b|
    requires IsMatching(a, b, i, j, m)
    ensures |m| <= |Drain(a, b, i, j)|
    decreases |a| - i + |b| - j
  {
    if i == |a| || j == |b| {
      assert m == {};
    } else if Close(a[i], b[j]) {
      var m' := ExchangeFront(a, b, i, j, m);
      DrainOptimal(a, b, i + 1, j + 1, m');
    } else if a[i] > b[j] {
      assert forall p :: p in m ==> a[i] <= a[p.0] && p.1 != j;
      DrainOptimal(a, b, i, j + 1, m);
    } else {
      assert forall p :: p in m ==> b[j] <= b[p.1] && p.0 != i;
      DrainOptimal(a, b, i + 1, j, m);
    }
  }

  // ---------- the window, and both sides alike ----------

  /** With the number: the drain pairs stamps at most 50 ms apart, and of sorted queues nobody can
      pair more stamps that are at most 50 ms apart.
   */
  lemma DrainWithinFiftyMs(a: seq<int>, b: seq<int>, m: set<Pair>)
    requires Sorted(a) && Sorted(b)
    requires forall p :: p in m ==> p.0 < |a| && p.1 < |b| && -50_000_000 <= a[p.0] - b[p.1] <= 50_000_000
    requires forall p, q :: p in m && q in m && p != q ==> p.0 != q.0 && p.1 != q.1
    ensures |m| <= |Drain(a, b, 0, 0)|
    ensures forall k :: 0 <= k < |Drain(a, b, 0, 0)| ==>
              var (x, y) := Drain(a, b, 0, 0)[k];
              x < |a| && y < |b| && -50_000_000 <= a[x] - b[y] <= 50_000_000
  {
    assert IsMatching(a, b, 0, 0, m);
    DrainOptimal(a, b, 0, 0, m);
    DrainIncreasing(a, b, 0, 0);
    hide Drain, Sorted;
  }

  function Mirrored(s: seq<Pair>): (r: seq<Pair>)
    ensures |r| == |s| && forall k :: 0 <= k < |s| ==> r[k] == (s[k].1, s[k].0)
  {
    seq(|s|, k requires 0 <= k < |s| => (s[k].1, s[k].0))
  }

  /** Draining with the sides exchanged makes the same pairs, exchanged. */
  lemma {:induction false} DrainMirrored(a: seq<int>, b: seq<int>, i: nat, j: nat)
    requires i <= |a| && j <= |b|
    ensures Drain(b, a, j, i) == Mirrored(Drain(a, b, i, j))
    decreases |a| - i + |b| - j
  {
    if i == |a| || j == |b| {
    } else if Close(a[i], b[j]) {
      DrainMirrored(a, b, i + 1, j + 1);
    } else if a[i] > b[j] {
      DrainMirrored(a, b, i, j + 1);
    } else {
      DrainMirrored(a, b, i + 1, j);
    }
  }
}
