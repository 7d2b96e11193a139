/**
 * The controller of `main_process`: it splits the affected versions into
 * pending and reproduced ones, then repeatedly picks the pending version
 * nearest to a reproduced one, tries the exploit on it directly, then by
 * adaptation, and stops at the first version it cannot adapt.
 */
module MainProcess {
  import opened Wrappers
  import opened VersionSelector

  /** One entry of `result_log` */
  datatype Attempt = DirectSuccess(version: string) | AdaptationSuccess(version: string) | AdaptationFailed(version: string)

  /** The "method", "status" and "message" fields of an entry */
  function Fields(a: Attempt): (string, string, string) {
    match a
    case DirectSuccess(_) => ("direct", "success", "Direct reproduction succeeded")
    case AdaptationSuccess(_) => ("adaptation", "success", "Adaptation and reproduction succeeded")
    case AdaptationFailed(_) => ("adaptation", "fail_adaptation", "Adaptation failed")
  }

  predicate IsSuccess(a: Attempt) { !a.AdaptationFailed? }

  /**
   * How the process ends: the loop found no version to try and `result.json`
   * receives the log; `exit(1)` after a failed adaptation; or a ValueError
   * from `all_versions.index`.
   */
  datatype Outcome = Finished(log: seq<Attempt>, reproduced: seq<string>) | Exited(log: seq<Attempt>) | Raised(error: string)

  /** The loop's variables */
  datatype Progress = Progress(pending: seq<string>, reproduced: seq<string>, attempted: set<string>, log: seq<Attempt>)

  // ---------------------------------------------------------------------------
  // Lists ordered by release position

  /**
   * The sort key `all_versions.index(v)`. The controller checks that every
   * version is a release before it sorts (where Python would raise), so the
   * value given to other versions is never used.
   */
  function Pos(all: seq<string>, v: string): (k: nat)
    ensures v in all ==> k == IndexOf(all, v)
  {
    if v in all then IndexOf(all, v) else |all|
  }

  /** Positions in the release list never decrease along `xs` */
  predicate SortedByPos(all: seq<string>, xs: seq<string>) {
    forall i, j :: 0 <= i < j < |xs| ==> Pos(all, xs[i]) <= Pos(all, xs[j])
  }

  /** No version occurs twice */
  ghost predicate Distinct(xs: seq<string>) {
    forall v :: multiset(xs)[v] <= 1
  }

  lemma AllInMultiset(xs: seq<string>, ys: seq<string>, all: seq<string>)
    requires multiset(xs) <= multiset(ys) && AllIn(ys, all)
    ensures AllIn(xs, all)
  {
    forall k | 0 <= k < |xs| ensures xs[k] in all {
      assert xs[k] in multiset(ys);
    }
  }

  /** Put `x` after every element whose position is not greater */
  function InsertByPos(all: seq<string>, sorted: seq<string>, x: string): (r: seq<string>)
    ensures multiset(r) == multiset(sorted) + multiset{x}
  {
    if sorted == [] || Pos(all, sorted[|sorted| - 1]) <= Pos(all, x) then sorted + [x]
    else
      var n := |sorted| - 1;
      assert sorted == sorted[..n] + [sorted[n]];
      InsertByPos(all, sorted[..n], x) + [sorted[n]]
  }

  /** `sorted(xs, key=lambda v: all_versions.index(v))`, a stable sort */
  function SortByPos(all: seq<string>, xs: seq<string>): (r: seq<string>)
    ensures multiset(r) == multiset(xs)
  {
    if xs == [] then []
    else
      var n := |xs| - 1;
      assert xs == xs[..n] + [xs[n]];
      InsertByPos(all, SortByPos(all, xs[..n]), xs[n])
  }

  /** Every element of a sorted list is at or before its last one */
  lemma BelowLast(all: seq<string>, sorted: seq<string>, x: string, w: string)
    requires sorted != [] && SortedByPos(all, sorted) && Pos(all, x) < Pos(all, sorted[|sorted| - 1])
    requires w in multiset(sorted[..|sorted| - 1]) + multiset{x}
    ensures Pos(all, w) <= Pos(all, sorted[|sorted| - 1])
  {
    if w != x {
      assert w in sorted[..|sorted| - 1];
      var k :| 0 <= k < |sorted| - 1 && sorted[..|sorted| - 1][k] == w;
      assert sorted[k] == w;
    }
  }

  /** Inserting into a sorted list keeps it sorted */
  lemma {:induction false} InsertByPosSorted(all: seq<string>, sorted: seq<string>, x: string)
    requires SortedByPos(all, sorted)
    ensures SortedByPos(all, InsertByPos(all, sorted, x))
  {
    var r := InsertByPos(all, sorted, x);
    if sorted == [] || Pos(all, sorted[|sorted| - 1]) <= Pos(all, x) {
      assert r == sorted + [x];
      forall i, j | 0 <= i < j < |r| ensures Pos(all, r[i]) <= Pos(all, r[j]) {
        assert r[i] == sorted[i];
        if j < |sorted| {
          assert r[j] == sorted[j];
        } else if i < |sorted| - 1 {
          assert Pos(all, sorted[i]) <= Pos(all, sorted[|sorted| - 1]);
        }
      }
    } else {
      var n := |sorted| - 1;
      var init := sorted[..n];
      assert forall k :: 0 <= k < n ==> init[k] == sorted[k];
      InsertByPosSorted(all, init, x);
      var mid := InsertByPos(all, init, x);
      assert r == mid + [sorted[n]];
      forall i, j | 0 <= i < j < |r| ensures Pos(all, r[i]) <= Pos(all, r[j]) {
        assert r[i] == mid[i];
        if j < |mid| {
          assert r[j] == mid[j];
        } else {
          assert r[j] == sorted[n];
          assert mid[i] in multiset(mid);
          BelowLast(all, sorted, x, mid[i]);
        }
      }
    }
  }

  /** The stable sort orders by release position */
  lemma {:induction false} SortByPosSorted(all: seq<string>, xs: seq<string>)
    ensures SortedByPos(all, SortByPos(all, xs))
  {
    if xs != [] {
      var n := |xs| - 1;
      SortByPosSorted(all, xs[..n]);
      InsertByPosSorted(all, SortByPos(all, xs[..n]), xs[n]);
    }
  }

  /** `list.remove(v)`: drops the first occurrence */
  function RemoveFirst(xs: seq<string>, v: string): (r: seq<string>)
    ensures v in xs ==> multiset(r) == multiset(xs) - multiset{v} && |r| == |xs| - 1
    ensures v !in xs ==> r == xs
  {
    if xs == [] then []
    else if xs[0] == v then
      assert xs == [xs[0]] + xs[1..];
      xs[1..]
    else
      assert xs == [xs[0]] + xs[1..];
      [xs[0]] + RemoveFirst(xs[1..], v)
  }

  // ---------------------------------------------------------------------------
  // Setup

  /** `[v for v in affected_versions if v not in reproduced_versions]` */
  function Unreproduced(affected: seq<string>, reproduced: seq<string>): (r: seq<string>)
    ensures multiset(r) <= multiset(affected)
    ensures forall v :: v in r <==> v in affected && v !in reproduced
  {
    if affected == [] then []
    else
      assert affected == [affected[0]] + affected[1..];
      (if affected[0] in reproduced then [] else [affected[0]]) + Unreproduced(affected[1..], reproduced)
  }

  /** `[v for v in xs if all_versions.index(v) <= from_index]` (`after` false) or `> from_index` (`after` true) */
  function SplitAt(all: seq<string>, xs: seq<string>, from: nat, after: bool): (r: seq<string>)
    ensures multiset(r) <= multiset(xs)
    ensures forall v :: v in r <==> v in xs && (Pos(all, v) > from <==> after)
  {
    if xs == [] then []
    else
      assert xs == [xs[0]] + xs[1..];
      var rest := SplitAt(all, xs[1..], from, after);
      if (Pos(all, xs[0]) > from) == after then [xs[0]] + rest else rest
  }

  /** The filter keeps release order */
  lemma {:induction false} SplitAtSorted(all: seq<string>, xs: seq<string>, from: nat, after: bool)
    requires SortedByPos(all, xs)
    ensures SortedByPos(all, SplitAt(all, xs, from, after))
  {
    if xs != [] {
      var rest := SplitAt(all, xs[1..], from, after);
      assert SortedByPos(all, xs[1..]) by {
        forall i, j | 0 <= i < j < |xs| - 1 ensures Pos(all, xs[1..][i]) <= Pos(all, xs[1..][j]) {
          assert xs[1..][i] == xs[i + 1] && xs[1..][j] == xs[j + 1];
        }
      }
      SplitAtSorted(all, xs[1..], from, after);
      if (Pos(all, xs[0]) > from) == after {
        forall j | 0 <= j < |rest| ensures Pos(all, xs[0]) <= Pos(all, rest[j]) {
          assert rest[j] in xs[1..];
          var m :| 0 <= m < |xs[1..]| && xs[1..][m] == rest[j];
          assert xs[m + 1] == rest[j];
        }
      }
    }
  }

  /** The two filters split the list: every version lands on exactly one side */
  lemma {:induction false} SplitAtPartition(all: seq<string>, xs: seq<string>, from: nat)
    ensures multiset(SplitAt(all, xs, from, true)) + multiset(SplitAt(all, xs, from, false)) == multiset(xs)
  {
    if xs != [] {
      SplitAtPartition(all, xs[1..], from);
      assert xs == [xs[0]] + xs[1..];
    }
  }

  /**
   * Lines 66-87 of the controller: pending is the unreproduced affected
   * versions by release position; with a start version, the pending ones
   * after it count as reproduced.
   */
  function Setup(all: seq<string>, affected: seq<string>, reproduced: seq<string>, fromVersion: Option<string>)
    : (r: Result<Progress, string>)
    ensures r.Success? ==> r.value.attempted == {} && r.value.log == []
  {
    var pending := Unreproduced(affected, reproduced);
    if !AllIn(pending, all) then Failure("ValueError")
    else
      var pendingSorted := SortByPos(all, pending);
      var split := fromVersion.Some? && fromVersion.value != [] && fromVersion.value in all;
      var from := if split then Pos(all, fromVersion.value) else 0;
      var reproducedAll := if split then reproduced + SplitAt(all, pendingSorted, from, true) else reproduced;
      var pendingKept := if split then SplitAt(all, pendingSorted, from, false) else pendingSorted;
      if !AllIn(reproducedAll, all) then Failure("ValueError")
      else Success(Progress(pendingKept, SortByPos(all, reproducedAll), {}, []))
  }

  /** The invariant of the loop: the lists are disjoint, pending has no repeats, reproduced is in release order */
  ghost predicate Good(all: seq<string>, p: Progress) {
    AllIn(p.pending, all) && AllIn(p.reproduced, all) && Distinct(p.pending)
    && (forall v :: v in p.pending ==> v !in p.reproduced && v !in p.attempted)
    && SortedByPos(all, p.reproduced)
  }

  /** Distinctness passes to a sub-multiset */
  lemma DistinctSub(xs: seq<string>, ys: seq<string>)
    requires multiset(xs) <= multiset(ys) && Distinct(ys)
    ensures Distinct(xs)
  {
    forall v ensures multiset(xs)[v] <= 1 {
      assert multiset(xs)[v] <= multiset(ys)[v];
    }
  }

  /** The state the setup builds satisfies the invariant when what it keeps pending is not reproduced */
  lemma StartGood(all: seq<string>, affected: seq<string>, reproduced: seq<string>, kept: seq<string>, reproducedAll: seq<string>)
    requires Distinct(affected) && AllIn(reproducedAll, all)
    requires AllIn(Unreproduced(affected, reproduced), all)
    requires multiset(kept) <= multiset(Unreproduced(affected, reproduced))
    requires forall v :: v in kept ==> v !in reproducedAll
    ensures Good(all, Progress(kept, SortByPos(all, reproducedAll), {}, []))
    ensures forall v :: v in kept ==> v in affected && v !in reproduced
  {
    var pending := Unreproduced(affected, reproduced);
    var sorted := SortByPos(all, reproducedAll);
    AllInMultiset(kept, pending, all);
    AllInMultiset(sorted, reproducedAll, all);
    SortByPosSorted(all, reproducedAll);
    DistinctSub(kept, pending);
    DistinctSub(kept, affected);
    forall v | v in kept ensures v !in sorted && v in pending {
      assert v in multiset(kept);
      assert v !in multiset(reproducedAll);
    }
  }

  /**
   * A successful setup satisfies the loop invariant (the affected versions
   * come from a set, so they are distinct), keeps pending only unreproduced
   * affected versions, and with a start version every version left pending is
   * at or before it.
   */
  lemma SetupGood(all: seq<string>, affected: seq<string>, reproduced: seq<string>, fromVersion: Option<string>)
    requires Distinct(affected)
    requires Setup(all, affected, reproduced, fromVersion).Success?
    ensures var p := Setup(all, affected, reproduced, fromVersion).value;
      Good(all, p)
      && (forall v :: v in p.pending ==> v in affected && v !in reproduced)
      && (fromVersion.Some? && fromVersion.value != [] && fromVersion.value in all ==>
            forall v :: v in p.pending ==> Pos(all, v) <= Pos(all, fromVersion.value))
  {
    var p := Setup(all, affected, reproduced, fromVersion).value;
    var pending := Unreproduced(affected, reproduced);
    var pendingSorted := SortByPos(all, pending);
    if fromVersion.Some? && fromVersion.value != [] && fromVersion.value in all {
      var from := Pos(all, fromVersion.value);
      var kept := SplitAt(all, pendingSorted, from, false);
      var moved := SplitAt(all, pendingSorted, from, true);
      assert p == Progress(kept, SortByPos(all, reproduced + moved), {}, []);
      forall v | v in kept ensures v !in reproduced + moved {
        assert v in pendingSorted;
        assert v in multiset(pending);
      }
      StartGood(all, affected, reproduced, kept, reproduced + moved);
    } else {
      assert p == Progress(pendingSorted, SortByPos(all, reproduced), {}, []);
      forall v | v in pendingSorted ensures v !in reproduced {
        assert v in multiset(pending);
      }
      StartGood(all, affected, reproduced, pendingSorted, reproduced);
    }
  }

  /** Sorting by release position raises `ValueError` exactly when a pending or reproduced version is not released */
  lemma SetupSucceedsIff(all: seq<string>, affected: seq<string>, reproduced: seq<string>, fromVersion: Option<string>)
    ensures var r := Setup(all, affected, reproduced, fromVersion);
      (r.Success? <==> AllIn(Unreproduced(affected, reproduced), all) && AllIn(reproduced, all))
      && (r.Failure? ==> r.error == "ValueError")
  {
    var pending := Unreproduced(affected, reproduced);
    if AllIn(pending, all) {
      var pendingSorted := SortByPos(all, pending);
      AllInMultiset(pendingSorted, pending, all);
      if fromVersion.Some? && fromVersion.value != [] && fromVersion.value in all {
        var moved := SplitAt(all, pendingSorted, Pos(all, fromVersion.value), true);
        AllInMultiset(moved, pendingSorted, all);
        var both := reproduced + moved;
        assert AllIn(both, all) <==> AllIn(reproduced, all) by {
          if AllIn(reproduced, all) {
            forall k | 0 <= k < |both| ensures both[k] in all {
              if k >= |reproduced| {
                assert both[k] == moved[k - |reproduced|];
              }
            }
          }
          if AllIn(both, all) {
            forall k | 0 <= k < |reproduced| ensures reproduced[k] in all {
              assert both[k] == reproduced[k];
            }
          }
        }
      }
    }
  }

  /**
   * The setup loses no version: pending is in release order (the order that
   * breaks the selector's ties), and pending and reproduced together hold the
   * unreproduced affected versions and the reproduced ones, each as often as
   * before; with a start version the later pending ones are the ones moved.
   */
  lemma SetupSplit(all: seq<string>, affected: seq<string>, reproduced: seq<string>, fromVersion: Option<string>)
    requires Setup(all, affected, reproduced, fromVersion).Success?
    ensures var p := Setup(all, affected, reproduced, fromVersion).value;
      SortedByPos(all, p.pending)
      && multiset(p.pending) + multiset(p.reproduced) == multiset(Unreproduced(affected, reproduced)) + multiset(reproduced)
  {
    var p := Setup(all, affected, reproduced, fromVersion).value;
    var pending := Unreproduced(affected, reproduced);
    var pendingSorted := SortByPos(all, pending);
    SortByPosSorted(all, pending);
    if fromVersion.Some? && fromVersion.value != [] && fromVersion.value in all {
      var from := Pos(all, fromVersion.value);
      var kept := SplitAt(all, pendingSorted, from, false);
      var moved := SplitAt(all, pendingSorted, from, true);
      assert p == Progress(kept, SortByPos(all, reproduced + moved), {}, []);
      SplitAtSorted(all, pendingSorted, from, false);
      SplitAtPartition(all, pendingSorted, from);
      assert multiset(reproduced + moved) == multiset(reproduced) + multiset(moved);
    } else {
      assert p == Progress(pendingSorted, SortByPos(all, reproduced), {}, []);
    }
  }

  // ---------------------------------------------------------------------------
  // The loop

  datatype Step = Continue(next: Progress) | Stop(outcome: Outcome)

  /** One pass through the `while True` body */
  function Next(p: Progress, all: seq<string>, execute: string -> bool, adapt: (string, string) -> bool): (s: Step)
    ensures s.Continue? ==> |s.next.pending| < |p.pending|
  {
    PassWith(p, Selection(p.pending, p.reproduced, all), all, execute, adapt)
  }

  /** The pass, given what the selector returned */
  function PassWith(p: Progress, sel: Result<Option<Pick>, string>, all: seq<string>,
                    execute: string -> bool, adapt: (string, string) -> bool): (s: Step)
    requires sel.Success? && sel.value.Some? ==> sel.value.value.version in p.pending
    ensures s.Continue? ==> |s.next.pending| < |p.pending|
  {
    match sel
    case Failure(e) => Stop(Raised(e))
    case Success(None) => Stop(Finished(p.log, p.reproduced))
    case Success(Some(pick)) =>
      var v := pick.version;
      if v == [] then Stop(Finished(p.log, p.reproduced))
      else if v in p.attempted then
        Continue(p.(pending := if v in p.pending then RemoveFirst(p.pending, v) else p.pending))
      else
        var pending := if v in p.pending then RemoveFirst(p.pending, v) else p.pending;
        var attempted := p.attempted + {v};
        var base := if p.reproduced != [] then Some(pick.base) else None;
        if execute(v) then
          Continue(Progress(pending, SortByPos(all, p.reproduced + [v]), attempted, p.log + [DirectSuccess(v)]))
        else if base.Some? && base.value != [] && adapt(base.value, v) then
          Continue(Progress(pending, SortByPos(all, p.reproduced + [v]), attempted, p.log + [AdaptationSuccess(v)]))
        else
          Stop(Exited(p.log + [AdaptationFailed(v)]))
  }

  /** The loop run to its end */
  function Run(p: Progress, all: seq<string>, execute: string -> bool, adapt: (string, string) -> bool): Outcome
    decreases |p.pending|
  {
    match Next(p, all, execute, adapt)
    case Stop(o) => o
    case Continue(q) => Run(q, all, execute, adapt)
  }

  /** `main_process` from line 66 on, given the versions the processor found */
  function Process(all: seq<string>, affected: seq<string>, reproduced: seq<string>, fromVersion: Option<string>,
                   execute: string -> bool, adapt: (string, string) -> bool): Outcome
  {
    match Setup(all, affected, reproduced, fromVersion)
    case Failure(e) => Raised(e)
    case Success(p) => Run(p, all, execute, adapt)
  }

  /** The version the selector offers, if any */
  function Offered(p: Progress, all: seq<string>): Option<Pick> {
    match Selection(p.pending, p.reproduced, all)
    case Success(o) => o
    case Failure(_) => None
  }

  /** The entry for a version that the executor or the adapter reproduced */
  function SuccessEntry(v: string, execute: string -> bool): Attempt {
    if execute(v) then DirectSuccess(v) else AdaptationSuccess(v)
  }

  /**
   * Under the invariant one pass either stops with nothing new (no version
   * offered), or attempts the offered pending version once: on success it
   * leaves pending, joins reproduced and is logged, and the invariant holds
   * again; on failure it is logged as failed and the process exits.
   */
  lemma NextGood(p: Progress, all: seq<string>, execute: string -> bool, adapt: (string, string) -> bool)
    requires Good(all, p)
    ensures Selection(p.pending, p.reproduced, all).Success?
    ensures var s := Next(p, all, execute, adapt);
      (Offered(p, all).None? || Offered(p, all).value.version == [] ==> s == Stop(Finished(p.log, p.reproduced)))
      && (Offered(p, all).Some? && Offered(p, all).value.version != [] ==>
            var v := Offered(p, all).value.version;
            v in p.pending && v !in p.attempted
            && (s.Continue? ==>
                  s.next == Progress(RemoveFirst(p.pending, v), SortByPos(all, p.reproduced + [v]),
                                     p.attempted + {v}, p.log + [SuccessEntry(v, execute)])
                  && Good(all, s.next)
                  && (!execute(v) ==> adapt(Offered(p, all).value.base, v) && Offered(p, all).value.base != []))
            && (s.Stop? ==> s.outcome == Exited(p.log + [AdaptationFailed(v)]) && !execute(v)))
  {
    var sel := Selection(p.pending, p.reproduced, all);
    assert Next(p, all, execute, adapt) == PassWith(p, sel, all, execute, adapt);
    if p.pending != [] && p.reproduced != [] {
      var pick := sel.value.value;
      if pick.version != [] {
        PassGood(all, p, pick, execute, adapt);
      }
    }
  }

  /** A pass that attempts a pending version, under the invariant */
  lemma PassGood(all: seq<string>, p: Progress, pick: Pick, execute: string -> bool, adapt: (string, string) -> bool)
    requires Good(all, p) && pick.version in p.pending && pick.version != [] && p.reproduced != []
    ensures var v := pick.version;
      var s := PassWith(p, Success(Some(pick)), all, execute, adapt);
      v !in p.attempted
      && (s.Continue? ==>
            s.next == Progress(RemoveFirst(p.pending, v), SortByPos(all, p.reproduced + [v]),
                               p.attempted + {v}, p.log + [SuccessEntry(v, execute)])
            && Good(all, s.next)
            && (!execute(v) ==> adapt(pick.base, v) && pick.base != []))
      && (s.Stop? ==> s.outcome == Exited(p.log + [AdaptationFailed(v)]) && !execute(v))
  {
    StepGood(all, p, pick.version, p.log + [SuccessEntry(pick.version, execute)]);
  }

  /** Moving a pending version to reproduced keeps the invariant */
  lemma StepGood(all: seq<string>, p: Progress, v: string, log: seq<Attempt>)
    requires Good(all, p) && v in p.pending
    ensures v !in p.attempted
    ensures var q := Progress(RemoveFirst(p.pending, v), SortByPos(all, p.reproduced + [v]), p.attempted + {v}, log);
      Good(all, q) && v !in q.pending
  {
    var pending := RemoveFirst(p.pending, v);
    var rep := p.reproduced + [v];
    var sorted := SortByPos(all, rep);
    assert AllIn(rep, all);
    AllInMultiset(sorted, rep, all);
    SortByPosSorted(all, rep);
    AllInMultiset(pending, p.pending, all);
    DistinctSub(pending, p.pending);
    assert v !in pending by {
      assert multiset(p.pending)[v] <= 1;
    }
    forall w | w in pending ensures w !in sorted && w !in p.attempted + {v} {
      assert w in multiset(pending);
      assert w in p.pending;
      assert w !in multiset(rep);
    }
  }

  /** The versions of a run of entries */
  function Versions(log: seq<Attempt>): seq<string> {
    seq(|log|, k requires 0 <= k < |log| => log[k].version)
  }

  /** What an entry says about the oracles: its version was or was not reproduced directly, or adapted */
  ghost predicate Truthful(a: Attempt, execute: string -> bool, adapt: (string, string) -> bool) {
    (a.DirectSuccess? <==> execute(a.version))
    && (a.AdaptationSuccess? ==> exists base: string :: base != [] && adapt(base, a.version))
  }

  /**
   * The entries one run adds: each is truthful and about a version that was
   * pending, no version appears twice, and all but the last are successes.
   */
  ghost predicate AddedOk(added: seq<Attempt>, pending: seq<string>, execute: string -> bool, adapt: (string, string) -> bool) {
    (forall k :: 0 <= k < |added| ==> added[k].version in pending && Truthful(added[k], execute, adapt))
    && (forall i, j :: 0 <= i < j < |added| ==> added[i].version != added[j].version)
    && (forall k :: 0 <= k < |added| - 1 ==> IsSuccess(added[k]))
  }

  /** A pass that stops raises nothing; it either adds nothing or one failed attempt at a pending version */
  lemma StopFacts(p: Progress, all: seq<string>, execute: string -> bool, adapt: (string, string) -> bool)
    requires Good(all, p) && Next(p, all, execute, adapt).Stop?
    ensures var o := Next(p, all, execute, adapt).outcome;
      !o.Raised?
      && (o.Finished? ==> o.log == p.log && o.reproduced == p.reproduced)
      && (o.Exited? ==>
            Offered(p, all).Some?
            && (var v := Offered(p, all).value.version;
                o.log == p.log + [AdaptationFailed(v)] && v in p.pending && !execute(v)))
  {
    NextGood(p, all, execute, adapt);
  }

  /** A pass that continues moves the offered version from pending to reproduced and logs its success */
  lemma ContinueFacts(p: Progress, all: seq<string>, execute: string -> bool, adapt: (string, string) -> bool)
    requires Good(all, p) && Next(p, all, execute, adapt).Continue?
    ensures Offered(p, all).Some?
    ensures var v := Offered(p, all).value.version;
      var q := Next(p, all, execute, adapt).next;
      var e := SuccessEntry(v, execute);
      Good(all, q) && q.log == p.log + [e] && e.version == v && IsSuccess(e) && Truthful(e, execute, adapt)
      && v in p.pending && (forall w :: w in q.pending ==> w in p.pending && w != v)
      && multiset(q.reproduced) == multiset(p.reproduced) + multiset{v}
  {
    NextGood(p, all, execute, adapt);
    var pick := Offered(p, all).value;
    var v := pick.version;
    var q := Next(p, all, execute, adapt).next;
    if !execute(v) {
      assert pick.base != [] && adapt(pick.base, v);
    }
    forall w | w in q.pending ensures w in p.pending {
      assert w in multiset(q.pending);
    }
  }

  /** Prepending a truthful success about a version no later entry mentions keeps the entries well formed */
  lemma ConsAddedOk(e: Attempt, later: seq<Attempt>, pending: seq<string>, rest: seq<string>,
                    execute: string -> bool, adapt: (string, string) -> bool)
    requires AddedOk(later, rest, execute, adapt)
    requires IsSuccess(e) && Truthful(e, execute, adapt) && e.version in pending
    requires forall w :: w in rest ==> w in pending && w != e.version
    ensures AddedOk([e] + later, pending, execute, adapt)
  {
    var added := [e] + later;
    forall k | 0 < k < |added| ensures added[k] == later[k - 1] && added[k].version in rest {
    }
  }

  /** What follows a prefix ending in `e` starts with `e` */
  lemma SliceCons(log: seq<Attempt>, prefix: seq<Attempt>, e: Attempt)
    requires prefix + [e] <= log
    ensures log[|prefix|..] == [e] + log[|prefix| + 1..]
  {
    assert log[|prefix|] == (prefix + [e])[|prefix|];
  }

  lemma VersionsCons(e: Attempt, later: seq<Attempt>)
    ensures Versions([e] + later) == [e.version] + Versions(later)
  {
  }

  /**
   * How a run that raised nothing ends, relative to the log it started with:
   * the log only grows, and the run exits exactly when it has added an entry
   * and the last entry is a failure.
   */
  predicate ExitShape(before: seq<Attempt>, o: Outcome) {
    !o.Raised? && before <= o.log && (o.Exited? <==> |o.log| > |before| && !IsSuccess(o.log[|o.log| - 1]))
  }

  /** A log that ends in one failure after `before`, or equals it, has the exit shape */
  lemma StopShape(o: Outcome, before: seq<Attempt>, v: string)
    requires o.Exited? ==> o.log == before + [AdaptationFailed(v)]
    requires o.Finished? ==> o.log == before
    requires !o.Raised?
    ensures ExitShape(before, o)
  {
  }

  /** A success in front of a run keeps the exit shape */
  lemma ContinueShape(o: Outcome, before: seq<Attempt>, e: Attempt)
    requires IsSuccess(e) && ExitShape(before + [e], o)
    ensures ExitShape(before, o)
  {
    if |o.log| == |before| + 1 {
      assert o.log[|o.log| - 1] == (before + [e])[|before|];
    }
  }

  /** A run from a state satisfying the invariant raises nothing and has the exit shape */
  lemma {:induction false} RunExits(p: Progress, all: seq<string>, execute: string -> bool, adapt: (string, string) -> bool)
    requires Good(all, p)
    decreases |p.pending|
    ensures ExitShape(p.log, Run(p, all, execute, adapt))
  {
    var s := Next(p, all, execute, adapt);
    if s.Stop? {
      StopFacts(p, all, execute, adapt);
      var v := if Offered(p, all).Some? then Offered(p, all).value.version else [];
      StopShape(s.outcome, p.log, v);
    } else {
      ContinueFacts(p, all, execute, adapt);
      var q := s.next;
      RunExits(q, all, execute, adapt);
      ContinueShape(Run(q, all, execute, adapt), p.log, SuccessEntry(Offered(p, all).value.version, execute));
    }
  }

  /** The log grew from `before`, and the entries added are well formed for `pending` (see `AddedOk`) */
  ghost predicate AddedShape(before: seq<Attempt>, pending: seq<string>, o: Outcome,
                             execute: string -> bool, adapt: (string, string) -> bool) {
    !o.Raised? && before <= o.log && AddedOk(o.log[|before|..], pending, execute, adapt)
  }

  /** The entries a run adds are well formed */
  lemma {:induction false} RunAdded(p: Progress, all: seq<string>, execute: string -> bool, adapt: (string, string) -> bool)
    requires Good(all, p)
    decreases |p.pending|
    ensures AddedShape(p.log, p.pending, Run(p, all, execute, adapt), execute, adapt)
  {
    RunExits(p, all, execute, adapt);
    var s := Next(p, all, execute, adapt);
    if s.Stop? {
      StopFacts(p, all, execute, adapt);
      var o := s.outcome;
      if o.Exited? {
        assert o.log[|p.log|..] == [AdaptationFailed(Offered(p, all).value.version)];
      } else {
        assert o.log[|p.log|..] == [];
      }
    } else {
      ContinueFacts(p, all, execute, adapt);
      var q := s.next;
      RunAdded(q, all, execute, adapt);
      ConsAdded(Run(q, all, execute, adapt), p.log, SuccessEntry(Offered(p, all).value.version, execute),
                p.pending, q.pending, execute, adapt);
    }
  }

  /** A truthful success in front of a run about a version the run never mentions keeps the added entries well formed */
  lemma ConsAdded(o: Outcome, before: seq<Attempt>, e: Attempt, pending: seq<string>, rest: seq<string>,
                  execute: string -> bool, adapt: (string, string) -> bool)
    requires AddedShape(before + [e], rest, o, execute, adapt)
    requires IsSuccess(e) && Truthful(e, execute, adapt) && e.version in pending
    requires forall w :: w in rest ==> w in pending && w != e.version
    ensures AddedShape(before, pending, o, execute, adapt)
  {
    SliceCons(o.log, before, e);
    ConsAddedOk(e, o.log[|before| + 1..], pending, rest, execute, adapt);
  }

  /** When the run finished, reproduced holds the versions it started with and the versions added, in release order */
  ghost predicate FinishedShape(all: seq<string>, before: seq<Attempt>, reproduced: seq<string>, o: Outcome) {
    o.Finished? ==>
      before <= o.log && AllIn(o.reproduced, all) && SortedByPos(all, o.reproduced)
      && multiset(o.reproduced) == multiset(reproduced) + multiset(Versions(o.log[|before|..]))
  }

  /** A success in front of a run adds its version to what the run reproduced */
  lemma ConsFinished(all: seq<string>, o: Outcome, before: seq<Attempt>, e: Attempt, reproduced: seq<string>, next: seq<string>)
    requires FinishedShape(all, before + [e], next, o)
    requires multiset(next) == multiset(reproduced) + multiset{e.version}
    ensures FinishedShape(all, before, reproduced, o)
  {
    if o.Finished? {
      var later := o.log[|before| + 1..];
      SliceCons(o.log, before, e);
      VersionsCons(e, later);
      assert multiset(Versions(o.log[|before|..])) == multiset{e.version} + multiset(Versions(later));
    }
  }

  /** When a run finishes, reproduced holds the earlier and the newly reproduced versions in release order */
  lemma {:induction false} RunFinished(p: Progress, all: seq<string>, execute: string -> bool, adapt: (string, string) -> bool)
    requires Good(all, p)
    decreases |p.pending|
    ensures FinishedShape(all, p.log, p.reproduced, Run(p, all, execute, adapt))
  {
    var s := Next(p, all, execute, adapt);
    if s.Stop? {
      StopFacts(p, all, execute, adapt);
      if s.outcome.Finished? {
        assert s.outcome.log[|p.log|..] == [];
        assert Versions([]) == [];
      }
    } else {
      ContinueFacts(p, all, execute, adapt);
      var q := s.next;
      RunFinished(q, all, execute, adapt);
      ConsFinished(all, Run(q, all, execute, adapt), p.log, SuccessEntry(Offered(p, all).value.version, execute),
                   p.reproduced, q.reproduced);
    }
  }

  /**
   * The whole controller: it raises only the ValueError of the setup, and
   * every other property of `RunLog` holds of the log it writes or exits with.
   */
  lemma ProcessLog(all: seq<string>, affected: seq<string>, reproduced: seq<string>, fromVersion: Option<string>,
                   execute: string -> bool, adapt: (string, string) -> bool)
    requires Distinct(affected)
    ensures var o := Process(all, affected, reproduced, fromVersion, execute, adapt);
      (o.Raised? <==> Setup(all, affected, reproduced, fromVersion).Failure?)
      && (!o.Raised? ==>
            (forall k :: 0 <= k < |o.log| ==> o.log[k].version in affected && o.log[k].version !in reproduced
                                               && Truthful(o.log[k], execute, adapt))
            && (forall i, j :: 0 <= i < j < |o.log| ==> o.log[i].version != o.log[j].version)
            && (o.Exited? <==> o.log != [] && !IsSuccess(o.log[|o.log| - 1])))
  {
    var st := Setup(all, affected, reproduced, fromVersion);
    if st.Success? {
      SetupGood(all, affected, reproduced, fromVersion);
      RunExits(st.value, all, execute, adapt);
      RunAdded(st.value, all, execute, adapt);
      var o := Run(st.value, all, execute, adapt);
      assert Process(all, affected, reproduced, fromVersion, execute, adapt) == o;
      LogFacts(o, st.value.pending, affected, reproduced, execute, adapt);
    } else {
      assert Process(all, affected, reproduced, fromVersion, execute, adapt) == Raised(st.error);
    }
  }

  /** What the exit and added shapes of a whole run say about its log */
  lemma LogFacts(o: Outcome, pending: seq<string>, affected: seq<string>, reproduced: seq<string>,
                 execute: string -> bool, adapt: (string, string) -> bool)
    requires AddedShape([], pending, o, execute, adapt) && ExitShape([], o)
    requires forall v :: v in pending ==> v in affected && v !in reproduced
    ensures (forall k :: 0 <= k < |o.log| ==> o.log[k].version in affected && o.log[k].version !in reproduced
                                               && Truthful(o.log[k], execute, adapt))
            && (forall i, j :: 0 <= i < j < |o.log| ==> o.log[i].version != o.log[j].version)
            && (o.Exited? <==> o.log != [] && !IsSuccess(o.log[|o.log| - 1]))
  {
    assert o.log[0..] == o.log;
  }

  // ---------------------------------------------------------------------------
  // The imperative controller

  /** The passes that stop the loop without attempting a version */
  lemma RunOfSelection(p: Progress, all: seq<string>, execute: string -> bool, adapt: (string, string) -> bool)
    ensures var sel := Selection(p.pending, p.reproduced, all);
      (sel.Failure? ==> Run(p, all, execute, adapt) == Raised(sel.error))
      && (sel.Success? && (sel.value.None? || sel.value.value.version == []) ==>
            Run(p, all, execute, adapt) == Finished(p.log, p.reproduced))
  {
  }

  /** One pass that attempts the picked version, unfolded */
  lemma NextOfPick(p: Progress, all: seq<string>, execute: string -> bool, adapt: (string, string) -> bool, pick: Pick)
    requires Selection(p.pending, p.reproduced, all) == Success(Some(pick)) && pick.version != []
    ensures var v := pick.version;
      var pending := if v in p.pending then RemoveFirst(p.pending, v) else p.pending;
      var reproduced := SortByPos(all, p.reproduced + [v]);
      var adapted := p.reproduced != [] && pick.base != [] && adapt(pick.base, v);
      var s := Next(p, all, execute, adapt);
      (v in p.attempted ==> s == Continue(p.(pending := pending)))
      && (v !in p.attempted && execute(v) ==>
            s == Continue(Progress(pending, reproduced, p.attempted + {v}, p.log + [DirectSuccess(v)])))
      && (v !in p.attempted && !execute(v) && adapted ==>
            s == Continue(Progress(pending, reproduced, p.attempted + {v}, p.log + [AdaptationSuccess(v)])))
      && (v !in p.attempted && !execute(v) && !adapted ==> s == Stop(Exited(p.log + [AdaptationFailed(v)])))
  {
    assert Next(p, all, execute, adapt) == PassWith(p, Success(Some(pick)), all, execute, adapt);
  }

  /**
   * `main_process` from line 66: `execute` and `adapt` stand for
   * `executor.execute` and `adapter.adapt`, `affected` for the order in which
   * the affected-version set is iterated.
   */
  method RunMainProcess(all: seq<string>, affected: seq<string>, reproduced: seq<string>, fromVersion: Option<string>,
                        execute: string -> bool, adapt: (string, string) -> bool) returns (out: Outcome)
    ensures out == Process(all, affected, reproduced, fromVersion, execute, adapt)
  {
    var setup := Setup(all, affected, reproduced, fromVersion);
    if setup.Failure? {
      return Raised(setup.error);
    }
    var pendingVersions := setup.value.pending;
    var reproducedVersions := setup.value.reproduced;
    var attemptedVersions: set<string> := {};
    var resultLog: seq<Attempt> := [];
    ghost var start := setup.value;
    while true
      invariant Run(Progress(pendingVersions, reproducedVersions, attemptedVersions, resultLog), all, execute, adapt)
                == Run(start, all, execute, adapt)
      decreases |pendingVersions|
    {
      ghost var p := Progress(pendingVersions, reproducedVersions, attemptedVersions, resultLog);
      var selected := SelectNearestReproducedVersion(pendingVersions, reproducedVersions, all);
      RunOfSelection(p, all, execute, adapt);
      if selected.Failure? {
        return Raised(selected.error);
      }
      if selected.value.None? || selected.value.value.version == [] {
        return Finished(resultLog, reproducedVersions);
      }
      var nextVersion := selected.value.value.version;
      NextOfPick(p, all, execute, adapt, selected.value.value);
      if nextVersion in attemptedVersions {
        if nextVersion in pendingVersions {
          pendingVersions := RemoveFirst(pendingVersions, nextVersion);
        }
        continue;
      }
      attemptedVersions := attemptedVersions + {nextVersion};
      if nextVersion in pendingVersions {
        pendingVersions := RemoveFirst(pendingVersions, nextVersion);
      }
      var baseVersion: Option<string> := if reproducedVersions != [] then Some(selected.value.value.base) else None;
      if execute(nextVersion) {
        reproducedVersions := SortByPos(all, reproducedVersions + [nextVersion]);
        resultLog := resultLog + [DirectSuccess(nextVersion)];
        continue;
      }
      if baseVersion.Some? && baseVersion.value != [] && adapt(baseVersion.value, nextVersion) {
        reproducedVersions := SortByPos(all, reproducedVersions + [nextVersion]);
        resultLog := resultLog + [AdaptationSuccess(nextVersion)];
      } else {
        resultLog := resultLog + [AdaptationFailed(nextVersion)];
        return Exited(resultLog);
      }
    }
  }
}
