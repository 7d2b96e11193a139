/**
 * Choosing the next version to adapt: the pending version nearest, by release
 * position, to some already reproduced version, together with that version.
 */
module VersionSelector {
  import opened Wrappers

  /** `all.index(v)`: the first position of `v` */
  function IndexOf(all: seq<string>, v: string): (k: nat)
    requires v in all
    ensures k < |all| && all[k] == v
  {
    if all[0] == v then 0 else IndexOf(all[1..], v) + 1
  }

  /** The position found is the first occurrence */
  lemma {:induction false} IndexOfFirst(all: seq<string>, v: string)
    requires v in all
    ensures forall k :: 0 <= k < IndexOf(all, v) ==> all[k] != v
  {
    if all[0] != v {
      IndexOfFirst(all[1..], v);
      forall k | 0 < k < IndexOf(all, v) ensures all[k] != v {
        assert all[k] == all[1..][k - 1];
      }
    }
  }

  /** Every version listed occurs in the release list */
  predicate AllIn(vs: seq<string>, all: seq<string>) {
    forall k :: 0 <= k < |vs| ==> vs[k] in all
  }

  /** `[all_versions.index(v) for v in vs]` */
  function Positions(all: seq<string>, vs: seq<string>): (ps: seq<nat>)
    requires AllIn(vs, all)
    ensures |ps| == |vs| && forall k :: 0 <= k < |vs| ==> ps[k] == IndexOf(all, vs[k])
  {
    seq(|vs|, k requires 0 <= k < |vs| => IndexOf(all, vs[k]))
  }

  /** `abs(a - b)` on release positions */
  function Apart(a: nat, b: nat): nat { if a >= b then a - b else b - a }

  /** `abs(all.index(p) - all.index(q))` */
  function Distance(all: seq<string>, p: string, q: string): nat
    requires p in all && q in all
  {
    Apart(IndexOf(all, p), IndexOf(all, q))
  }

  /** The position of the first least value: what `min` returns, and what a strict `<` scan settles on */
  function FirstMin(xs: seq<nat>): (i: nat)
    requires xs != []
    ensures i < |xs|
    ensures forall k :: 0 <= k < |xs| ==> xs[i] <= xs[k]
    ensures forall k :: 0 <= k < i ==> xs[i] < xs[k]
  {
    if |xs| == 1 then 0
    else
      var n := |xs| - 1;
      var i := FirstMin(xs[..n]);
      assert forall k :: 0 <= k < n ==> xs[..n][k] == xs[k];
      if xs[n] < xs[i] then n else i
  }

  /** Only one position is the first least value */
  lemma FirstMinUnique(xs: seq<nat>, p: nat)
    requires p < |xs|
    requires forall k :: 0 <= k < |xs| ==> xs[p] <= xs[k]
    requires forall k :: 0 <= k < p ==> xs[p] < xs[k]
    ensures p == FirstMin(xs)
  {
    var i := FirstMin(xs);
    assert xs[i] == xs[p];
  }

  /** The distances from release position `idx` to each reproduced position */
  function DistancesFrom(idx: nat, reps: seq<nat>): (ds: seq<nat>)
    ensures |ds| == |reps| && forall k :: 0 <= k < |reps| ==> ds[k] == Apart(idx, reps[k])
  {
    seq(|reps|, k requires 0 <= k < |reps| => Apart(idx, reps[k]))
  }

  /** The position in `reps` that `min(..., key=distance)` returns for `idx` */
  function ClosestAt(idx: nat, reps: seq<nat>): nat
    requires reps != []
  {
    FirstMin(DistancesFrom(idx, reps))
  }

  /** The least distance from `idx` to a reproduced position */
  function GapAt(idx: nat, reps: seq<nat>): nat
    requires reps != []
  {
    DistancesFrom(idx, reps)[ClosestAt(idx, reps)]
  }

  /** The gap of each pending position */
  function GapsOf(pendingIdx: seq<nat>, reps: seq<nat>): (gs: seq<nat>)
    requires reps != []
    ensures |gs| == |pendingIdx| && forall k :: 0 <= k < |pendingIdx| ==> gs[k] == GapAt(pendingIdx[k], reps)
  {
    seq(|pendingIdx|, k requires 0 <= k < |pendingIdx| => GapAt(pendingIdx[k], reps))
  }

  /** The pending position the loop settles on: the first with the least gap */
  function NearestAt(pendingIdx: seq<nat>, reps: seq<nat>): nat
    requires pendingIdx != [] && reps != []
  {
    FirstMin(GapsOf(pendingIdx, reps))
  }

  /** The pair the selector returns: the version to adapt and the reproduced version to start from */
  datatype Pick = Pick(version: string, base: string)

  /**
   * What `select_nearest_reproduced_version_from_lists` returns: None for an
   * empty list, a ValueError when a listed version is not a release, and
   * otherwise the pending version with the least gap together with the
   * release at its nearest reproduced position.
   */
  function Selection(pending: seq<string>, reps: seq<string>, all: seq<string>): (r: Result<Option<Pick>, string>)
    ensures pending == [] || reps == [] ==> r == Success(None)
    ensures pending != [] && reps != [] && !(AllIn(pending, all) && AllIn(reps, all)) ==> r.Failure?
    ensures pending != [] && reps != [] && AllIn(pending, all) && AllIn(reps, all) ==> r.Success? && r.value.Some?
    ensures r.Success? && r.value.Some? ==> r.value.value.version in pending && r.value.value.base in reps
  {
    if pending == [] || reps == [] then Success(None)
    else if !(AllIn(reps, all) && AllIn(pending, all)) then Failure("ValueError")
    else
      var pi := Positions(all, pending);
      var ri := Positions(all, reps);
      var i := NearestAt(pi, ri);
      var j := ClosestAt(pi[i], ri);
      assert all[ri[j]] == reps[j];
      Success(Some(Pick(pending[i], all[ri[j]])))
  }

  /**
   * The pair at positions `i` of `pending` and `j` of `reps` is the one the
   * selector must return: no pair is nearer, every earlier pending version is
   * strictly farther from all reproduced versions, and every earlier
   * reproduced version is strictly farther from `pending[i]`.
   */
  ghost predicate NearestPair(all: seq<string>, pending: seq<string>, reps: seq<string>, i: nat, j: nat)
    requires AllIn(pending, all) && AllIn(reps, all)
  {
    i < |pending| && j < |reps|
    && (forall i', j' :: 0 <= i' < |pending| && 0 <= j' < |reps| ==>
          Distance(all, pending[i], reps[j]) <= Distance(all, pending[i'], reps[j']))
    && (forall i', j' :: 0 <= i' < i && 0 <= j' < |reps| ==>
          Distance(all, pending[i], reps[j]) < Distance(all, pending[i'], reps[j']))
    && (forall j' :: 0 <= j' < j ==> Distance(all, pending[i], reps[j]) < Distance(all, pending[i], reps[j']))
  }

  /** The gap is the least distance to any reproduced position */
  lemma GapAtLeast(idx: nat, reps: seq<nat>, k: nat)
    requires reps != [] && k < |reps|
    ensures GapAt(idx, reps) <= Apart(idx, reps[k])
    ensures ClosestAt(idx, reps) < |reps| && GapAt(idx, reps) == Apart(idx, reps[ClosestAt(idx, reps)])
  {
  }

  /** The selected pair is the nearest pair, with first-wins tie-breaking on both lists */
  lemma SelectionIsNearest(pending: seq<string>, reps: seq<string>, all: seq<string>)
    requires pending != [] && reps != [] && AllIn(pending, all) && AllIn(reps, all)
    ensures exists i: nat, j: nat :: (NearestPair(all, pending, reps, i, j)
      && Selection(pending, reps, all) == Success(Some(Pick(pending[i], reps[j]))))
  {
    var pi := Positions(all, pending);
    var ri := Positions(all, reps);
    var gaps := GapsOf(pi, ri);
    var i := NearestAt(pi, ri);
    var ds := DistancesFrom(pi[i], ri);
    var j := ClosestAt(pi[i], ri);
    assert Distance(all, pending[i], reps[j]) == gaps[i];
    forall i', j' | 0 <= i' < |pending| && 0 <= j' < |reps|
      ensures Distance(all, pending[i], reps[j]) <= Distance(all, pending[i'], reps[j'])
      ensures i' < i ==> Distance(all, pending[i], reps[j]) < Distance(all, pending[i'], reps[j'])
    {
      GapAtLeast(pi[i'], ri, j');
      assert gaps[i'] <= Distance(all, pending[i'], reps[j']);
    }
    forall j' | 0 <= j' < j ensures Distance(all, pending[i], reps[j]) < Distance(all, pending[i], reps[j']) {
      assert ds[j] < ds[j'];
    }
    assert NearestPair(all, pending, reps, i, j);
  }

  /** There is only one nearest pair, so the specification leaves no choice */
  lemma NearestPairUnique(all: seq<string>, pending: seq<string>, reps: seq<string>, i: nat, j: nat, i2: nat, j2: nat)
    requires AllIn(pending, all) && AllIn(reps, all)
    requires NearestPair(all, pending, reps, i, j) && NearestPair(all, pending, reps, i2, j2)
    ensures i == i2 && j == j2
  {
    assert Distance(all, pending[i], reps[j]) == Distance(all, pending[i2], reps[j2]);
    assert i == i2;
    assert Distance(all, pending[i], reps[j]) == Distance(all, pending[i], reps[j2]);
  }

  /**
   * `min(((abs(idx - rep_idx), rep_idx) for rep_idx in reproduced_indices), key=lambda x: x[0])`:
   * `min` keeps the first least distance.
   */
  method ClosestReproduced(idx: nat, repIndices: seq<nat>) returns (distance: nat, closest: nat)
    requires repIndices != []
    ensures distance == GapAt(idx, repIndices)
    ensures closest == repIndices[ClosestAt(idx, repIndices)]
  {
    ghost var ds := DistancesFrom(idx, repIndices);
    closest := repIndices[0];
    distance := Apart(idx, closest);
    ghost var pos := 0;
    var k := 1;
    while k < |repIndices|
      invariant 1 <= k <= |repIndices|
      invariant pos < k && closest == repIndices[pos] && distance == ds[pos]
      invariant forall m :: 0 <= m < k ==> distance <= ds[m]
      invariant forall m :: 0 <= m < pos ==> distance < ds[m]
    {
      var d := Apart(idx, repIndices[k]);
      if d < distance {
        distance, closest, pos := d, repIndices[k], k;
      }
      k := k + 1;
    }
    FirstMinUnique(ds, pos);
  }

  /** `[all_versions.index(v) for v in vs]`, or None for the ValueError */
  method Indices(vs: seq<string>, all: seq<string>) returns (r: Option<seq<nat>>)
    ensures r.Some? <==> AllIn(vs, all)
    ensures r.Some? ==> r.value == Positions(all, vs)
  {
    var indices: seq<nat> := [];
    var k := 0;
    while k < |vs|
      invariant 0 <= k <= |vs| && |indices| == k
      invariant forall m :: 0 <= m < k ==> vs[m] in all && indices[m] == IndexOf(all, vs[m])
    {
      if vs[k] !in all {
        return None;
      }
      indices := indices + [IndexOf(all, vs[k])];
      k := k + 1;
    }
    return Some(indices);
  }

  /**
   * The `for ver, idx in zip(...)` loop. The running least distance starts at
   * infinity, so the first pending version is always taken; the loop below
   * starts from it, and a later version replaces it only when strictly nearer.
   */
  method ScanPending(pendingIdx: seq<nat>, reps: seq<nat>) returns (best: nat, bestRep: nat)
    requires pendingIdx != [] && reps != []
    ensures best == NearestAt(pendingIdx, reps)
    ensures bestRep == reps[ClosestAt(pendingIdx[best], reps)]
  {
    ghost var gaps := GapsOf(pendingIdx, reps);
    var minDistance;
    minDistance, bestRep := ClosestReproduced(pendingIdx[0], reps);
    best := 0;
    var i := 1;
    while i < |pendingIdx|
      invariant 1 <= i <= |pendingIdx|
      invariant best < i && minDistance == gaps[best]
      invariant bestRep == reps[ClosestAt(pendingIdx[best], reps)]
      invariant forall k :: 0 <= k < i ==> minDistance <= gaps[k]
      invariant forall k :: 0 <= k < best ==> minDistance < gaps[k]
    {
      var distance, closest := ClosestReproduced(pendingIdx[i], reps);
      if distance < minDistance {
        minDistance := distance;
        best := i;
        bestRep := closest;
      }
      i := i + 1;
    }
    FirstMinUnique(gaps, best);
  }

  /** `select_nearest_reproduced_version_from_lists` */
  method SelectNearestReproducedVersion(pending: seq<string>, reproduced: seq<string>, all: seq<string>)
    returns (r: Result<Option<Pick>, string>)
    ensures r == Selection(pending, reproduced, all)
  {
    if pending == [] || reproduced == [] {
      return Success(None);
    }
    var repIndices := Indices(reproduced, all);
    var pendingIndices := Indices(pending, all);
    if repIndices.None? || pendingIndices.None? {
      return Failure("ValueError");
    }
    var best, bestRep := ScanPending(pendingIndices.value, repIndices.value);
    r := Success(Some(Pick(pending[best], all[bestRep])));
  }
}
