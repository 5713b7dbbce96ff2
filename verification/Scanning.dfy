/** Greedy leftmost scanning, for any kind of item.

    `find(i)` is the item that starts at offset i, if any, with its length.  A scan takes the
    leftmost item, goes on behind it, and so on.
 */
module Scanning {
  import opened Options

  /** An item and the stretch [at, end) that it occupies. */
  datatype Hit<+T> = Hit(at: nat, end: nat, item: T)

  type Finder<!T> = nat -> Option<Hit<T>>

  /** Found items start where they are found, are not empty and lie below the limit. */
  ghost predicate Sound<T(!new)>(find: Finder<T>, limit: nat) {
    forall i :: SoundAt(find, limit, i)
  }

  ghost predicate SoundAt<T(!new)>(find: Finder<T>, limit: nat, i: nat) {
    find(i).Some? ==> find(i).value.at == i < find(i).value.end <= limit
  }

  /** What a scan from offset `from` must be, without saying how to compute it: every hit is an
      item, hits are ordered and disjoint, and every item start lies inside some hit, so that
      an item is passed over only if an accepted one covers its start. */
  ghost predicate IsScan<T(!new)>(find: Finder<T>, from: nat, hits: seq<Hit<T>>) {
    && (forall k :: 0 <= k < |hits| ==> IsHit(find, from, hits[k]))
    && Ordered(hits)
    && (forall i :: i >= from && find(i).Some? ==> Covered(hits, i))
  }

  ghost predicate Ordered<T>(hits: seq<Hit<T>>) {
    forall j, k :: 0 <= j < k < |hits| ==> hits[j].end <= hits[k].at
  }

  ghost predicate IsHit<T(!new)>(find: Finder<T>, from: nat, h: Hit<T>) {
    h.at >= from && find(h.at) == Some(h)
  }

  ghost predicate Covered<T>(hits: seq<Hit<T>>, i: nat) {
    exists k :: 0 <= k < |hits| && hits[k].at <= i < hits[k].end
  }

  /** The leftmost scan: take the item at i and go on behind it, or go on at i + 1. */
  ghost function Scan<T(!new)>(find: Finder<T>, limit: nat, i: nat): (hits: seq<Hit<T>>)
    requires Sound(find, limit)
    decreases limit - i
  {
    assert SoundAt(find, limit, i);
    if i >= limit then []
    else match find(i)
      case None => Scan(find, limit, i + 1)
      case Some(h) => [h] + Scan(find, limit, h.end)
  }

  lemma OrderedAt<T>(hits: seq<Hit<T>>, j: nat, k: nat)
    requires Ordered(hits) && j < k < |hits|
    ensures hits[j].end <= hits[k].at
  {}

  lemma CoveredBy<T>(hits: seq<Hit<T>>, i: nat) returns (k: nat)
    requires Covered(hits, i)
    ensures k < |hits| && hits[k].at <= i < hits[k].end
  {
    k :| 0 <= k < |hits| && hits[k].at <= i < hits[k].end;
  }

  lemma OrderedCons<T>(h: Hit<T>, rest: seq<Hit<T>>)
    requires Ordered(rest) && forall k :: 0 <= k < |rest| ==> h.end <= rest[k].at
    ensures Ordered([h] + rest)
  {
    var hits := [h] + rest;
    forall j, k | 0 <= j < k < |hits|
      ensures hits[j].end <= hits[k].at
    {
      if j > 0 {
        OrderedAt(rest, j - 1, k - 1);
      }
    }
  }

  lemma CoveredCons<T>(h: Hit<T>, rest: seq<Hit<T>>, x: nat)
    requires h.at <= x < h.end || Covered(rest, x)
    ensures Covered([h] + rest, x)
  {
    var hits := [h] + rest;
    if h.at <= x < h.end {
      assert hits[0].at <= x < hits[0].end;
    } else {
      var k := CoveredBy(rest, x);
      assert hits[k + 1].at <= x < hits[k + 1].end;
    }
  }

  lemma ScanStep<T(!new)>(find: Finder<T>, i: nat, h: Hit<T>, rest: seq<Hit<T>>)
    requires find(i) == Some(h) && h.at == i < h.end
    requires IsScan(find, h.end, rest)
    ensures IsScan(find, i, [h] + rest)
  {
    hide Ordered, Covered;
    var hits := [h] + rest;
    forall k | 0 <= k < |hits|
      ensures IsHit(find, i, hits[k])
    {
      assert k > 0 ==> hits[k] == rest[k - 1] && IsHit(find, h.end, rest[k - 1]);
    }
    assert forall k :: 0 <= k < |rest| ==> IsHit(find, h.end, rest[k]);
    OrderedCons(h, rest);
    forall x | x >= i && find(x).Some?
      ensures Covered(hits, x)
    {
      CoveredCons(h, rest, x);
    }
  }

  /** The recursive scan satisfies the declarative description. */
  lemma {:induction false} ScanIsScan<T(!new)>(find: Finder<T>, limit: nat, i: nat)
    requires Sound(find, limit)
    ensures IsScan(find, i, Scan(find, limit, i))
    decreases limit - i
  {
    assert SoundAt(find, limit, i);
    if i < limit {
      match find(i)
      case None =>
        ScanIsScan(find, limit, i + 1);
      case Some(h) =>
        ScanIsScan(find, limit, h.end);
        ScanStep(find, i, h, Scan(find, limit, h.end));
    } else {
      forall x | x >= i
        ensures find(x) == None
      {
        assert SoundAt(find, limit, x);
      }
    }
  }

  /** After a common prefix, the other scan goes on, and no later. */
  lemma HitFollows<T(!new)>(find: Finder<T>, limit: nat, from: nat, a: seq<Hit<T>>, b: seq<Hit<T>>, n: nat)
    requires Sound(find, limit) && IsScan(find, from, a) && IsScan(find, from, b)
    requires n < |a| && n <= |b| && forall k :: 0 <= k < n ==> a[k] == b[k]
    ensures n < |b| && b[n].at <= a[n].at
  {
    hide Ordered, Covered;
    var x := a[n].at;
    assert IsHit(find, from, a[n]);
    var k := CoveredBy(b, x);
    if k < n {
      OrderedAt(a, k, n);
    } else if k > n {
      OrderedAt(b, n, k);
      assert IsHit(find, from, b[n]) && SoundAt(find, limit, b[n].at);
    }
  }

  /** Only one sequence of hits satisfies it. */
  lemma {:induction false} ScanUnique<T(!new)>(find: Finder<T>, limit: nat, from: nat,
                                             a: seq<Hit<T>>, b: seq<Hit<T>>, n: nat)
    requires Sound(find, limit) && IsScan(find, from, a) && IsScan(find, from, b)
    requires n <= |a| && n <= |b| && forall k :: 0 <= k < n ==> a[k] == b[k]
    ensures a == b
    decreases |a| - n
  {
    hide Ordered, Covered;
    if n < |a| {
      HitFollows(find, limit, from, a, b, n);
      HitFollows(find, limit, from, b, a, n);
      assert IsHit(find, from, a[n]) && IsHit(find, from, b[n]);
      ScanUnique(find, limit, from, a, b, n + 1);
    } else if n < |b| {
      HitFollows(find, limit, from, b, a, n);
    }
  }
}
