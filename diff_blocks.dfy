/**
 * Runs of added or removed lines inside one hunk, the removal run that sits
 * next to an added run, and the similarity score built on them.
 */
module DiffBlocks {
  import opened Wrappers
  import opened Strings

  /** A run `(start, end, lines)` with `lines == content[start..end + 1]` */
  datatype Block = Block(start: int, end: int, lines: seq<string>)

  // ---------------------------------------------------------------------------
  // Maximal runs of lines with the same sign

  predicate Signed(content: seq<string>, sign: string, k: int) {
    0 <= k < |content| && StartsWith(content[k], sign)
  }

  /** `b` is a maximal run of lines starting with `sign` */
  ghost predicate IsRun(content: seq<string>, sign: string, b: Block) {
    0 <= b.start <= b.end < |content| && b.lines == content[b.start..b.end + 1]
    && (forall k :: b.start <= k <= b.end ==> Signed(content, sign, k))
    && !Signed(content, sign, b.start - 1) && !Signed(content, sign, b.end + 1)
  }

  ghost predicate Covered(bs: seq<Block>, k: int) {
    exists i :: 0 <= i < |bs| && bs[i].start <= k <= bs[i].end
  }

  /** `bs` lists every maximal run, in order */
  ghost predicate IsRunList(content: seq<string>, sign: string, bs: seq<Block>) {
    (forall i :: 0 <= i < |bs| ==> IsRun(content, sign, bs[i]))
    && (forall i :: 0 <= i < |bs| - 1 ==> bs[i].end < bs[i + 1].start)
    && (forall k :: Signed(content, sign, k) ==> Covered(bs, k))
  }

  /** The loop variables of `_group_continuous_blocks` after the first `n` lines */
  datatype Scan = Scan(blocks: seq<Block>, open: Option<nat>)

  function ScanPrefix(content: seq<string>, sign: string, n: nat): (sc: Scan)
    requires n <= |content|
    ensures sc.open.Some? ==> sc.open.value < n
  {
    if n == 0 then Scan([], None)
    else
      var sc := ScanPrefix(content, sign, n - 1);
      var i := n - 1;
      if StartsWith(content[i], sign) then (if sc.open.None? then sc.(open := Some(i)) else sc)
      else if sc.open.Some? then Scan(sc.blocks + [Block(sc.open.value, i - 1, content[sc.open.value..i])], None)
      else sc
  }

  /** `_group_continuous_blocks(content, sign)` */
  function Blocks(content: seq<string>, sign: string): seq<Block> {
    var sc := ScanPrefix(content, sign, |content|);
    if sc.open.Some? then sc.blocks + [Block(sc.open.value, |content| - 1, content[sc.open.value..])]
    else sc.blocks
  }

  /** Every block is a maximal run ending before line `n - 1`, and the blocks are in order */
  ghost predicate RunsBefore(content: seq<string>, sign: string, bs: seq<Block>, n: int) {
    (forall i :: 0 <= i < |bs| ==> IsRun(content, sign, bs[i]) && bs[i].end + 1 < n)
    && (forall i :: 0 <= i < |bs| - 1 ==> bs[i].end < bs[i + 1].start)
  }

  /** Every line with the sign before `n` lies in a block or at or after `open` */
  ghost predicate CoveredUpTo(content: seq<string>, sign: string, bs: seq<Block>, n: int, open: Option<nat>) {
    forall k :: 0 <= k < n && Signed(content, sign, k) ==> Covered(bs, k) || (open.Some? && open.value <= k)
  }

  /** An open run starts a maximal run, is signed up to `n` and lies after every block */
  ghost predicate OpenRun(content: seq<string>, sign: string, sc: Scan, n: int) {
    sc.open.Some? ==>
      sc.open.value < n && !Signed(content, sign, sc.open.value - 1)
      && (forall k :: sc.open.value <= k < n ==> Signed(content, sign, k))
      && (forall i :: 0 <= i < |sc.blocks| ==> sc.blocks[i].end + 1 < sc.open.value)
  }

  /** What holds of the scan after `n` lines */
  ghost predicate ScanInv(content: seq<string>, sign: string, n: nat, sc: Scan)
    requires n <= |content|
  {
    RunsBefore(content, sign, sc.blocks, n) && OpenRun(content, sign, sc, n)
    && (sc.open.None? ==> !Signed(content, sign, n - 1))
    && CoveredUpTo(content, sign, sc.blocks, n, sc.open)
  }

  /**
   * Closing the open run at `s` after its last signed line `e` adds a
   * maximal run, and every signed line up to `e + 1` is then covered.
   */
  lemma CloseRun(content: seq<string>, sign: string, blocks: seq<Block>, s: nat, e: nat)
    requires s <= e < |content|
    requires RunsBefore(content, sign, blocks, s) && !Signed(content, sign, s - 1) && !Signed(content, sign, e + 1)
    requires forall k :: s <= k <= e ==> Signed(content, sign, k)
    requires CoveredUpTo(content, sign, blocks, s, None)
    ensures var bs := blocks + [Block(s, e, content[s..e + 1])];
      RunsBefore(content, sign, bs, e + 2) && CoveredUpTo(content, sign, bs, e + 2, None)
  {
    var b := Block(s, e, content[s..e + 1]);
    var bs := blocks + [b];
    assert IsRun(content, sign, b);
    forall i | 0 <= i < |bs| ensures IsRun(content, sign, bs[i]) && bs[i].end + 1 < e + 2 {
      if i < |blocks| {
        assert bs[i] == blocks[i];
      }
    }
    forall k | 0 <= k < e + 2 && Signed(content, sign, k) ensures Covered(bs, k) {
      if s <= k {
        assert bs[|blocks|] == b;
      } else {
        var j :| 0 <= j < |blocks| && blocks[j].start <= k <= blocks[j].end;
        assert bs[j] == blocks[j];
      }
    }
  }

  /** Coverage of the lines before an open run, read off the invariant */
  lemma CoveredBeforeOpen(content: seq<string>, sign: string, n: nat, sc: Scan)
    requires n <= |content| && ScanInv(content, sign, n, sc) && sc.open.Some?
    ensures CoveredUpTo(content, sign, sc.blocks, sc.open.value, None)
  {
  }

  /** A signed line after no open run opens one */
  lemma OpenStep(content: seq<string>, sign: string, n: nat, sc: Scan)
    requires 0 < n <= |content| && ScanInv(content, sign, n - 1, sc)
    requires Signed(content, sign, n - 1) && sc.open.None?
    ensures ScanInv(content, sign, n, sc.(open := Some(n - 1)))
  {
  }

  /** A signed line extends the open run */
  lemma ExtendStep(content: seq<string>, sign: string, n: nat, sc: Scan)
    requires 0 < n <= |content| && ScanInv(content, sign, n - 1, sc)
    requires Signed(content, sign, n - 1) && sc.open.Some?
    ensures ScanInv(content, sign, n, sc)
  {
  }

  /** An unsigned line with no open run changes nothing */
  lemma SkipStep(content: seq<string>, sign: string, n: nat, sc: Scan)
    requires 0 < n <= |content| && ScanInv(content, sign, n - 1, sc)
    requires !Signed(content, sign, n - 1) && sc.open.None?
    ensures ScanInv(content, sign, n, sc)
  {
  }

  /** An unsigned line closes the open run */
  lemma CloseStep(content: seq<string>, sign: string, n: nat, sc: Scan)
    requires 0 < n <= |content| && ScanInv(content, sign, n - 1, sc)
    requires !Signed(content, sign, n - 1) && sc.open.Some?
    ensures ScanInv(content, sign, n, Scan(sc.blocks + [Block(sc.open.value, n - 2, content[sc.open.value..n - 1])], None))
  {
    CoveredBeforeOpen(content, sign, n - 1, sc);
    CloseRun(content, sign, sc.blocks, sc.open.value, n - 2);
  }

  /** One line keeps the invariant */
  lemma ScanStep(content: seq<string>, sign: string, n: nat)
    requires 0 < n <= |content|
    requires ScanInv(content, sign, n - 1, ScanPrefix(content, sign, n - 1))
    ensures ScanInv(content, sign, n, ScanPrefix(content, sign, n))
  {
    var sc := ScanPrefix(content, sign, n - 1);
    if Signed(content, sign, n - 1) {
      if sc.open.None? {
        OpenStep(content, sign, n, sc);
      } else {
        ExtendStep(content, sign, n, sc);
      }
    } else {
      if sc.open.None? {
        SkipStep(content, sign, n, sc);
      } else {
        CloseStep(content, sign, n, sc);
      }
    }
  }

  lemma {:induction false} ScanInvHolds(content: seq<string>, sign: string, n: nat)
    requires n <= |content|
    ensures ScanInv(content, sign, n, ScanPrefix(content, sign, n))
  {
    if n > 0 {
      ScanInvHolds(content, sign, n - 1);
      ScanStep(content, sign, n);
    }
  }

  /**
   * The blocks are exactly the maximal runs of lines starting with `sign`,
   * in order, each with its slice of the content.
   */
  lemma BlocksAreRuns(content: seq<string>, sign: string)
    ensures IsRunList(content, sign, Blocks(content, sign))
  {
    var sc := ScanPrefix(content, sign, |content|);
    ScanInvHolds(content, sign, |content|);
    var bs := Blocks(content, sign);
    if sc.open.Some? {
      CoveredBeforeOpen(content, sign, |content|, sc);
      CloseRun(content, sign, sc.blocks, sc.open.value, |content| - 1);
      assert content[sc.open.value..] == content[sc.open.value..|content|];
    }
    assert RunsBefore(content, sign, bs, |content| + 1) && CoveredUpTo(content, sign, bs, |content| + 1, None);
  }

  /** No line with the sign: no block */
  lemma NoSignNoBlocks(content: seq<string>, sign: string)
    requires forall k :: 0 <= k < |content| ==> !StartsWith(content[k], sign)
    ensures Blocks(content, sign) == []
  {
    BlocksAreRuns(content, sign);
    var bs := Blocks(content, sign);
    assert |bs| > 0 ==> Signed(content, sign, bs[0].start);
  }

  /** Every line with the sign: one block spanning everything */
  lemma AllSignOneBlock(content: seq<string>, sign: string)
    requires content != []
    requires forall k :: 0 <= k < |content| ==> StartsWith(content[k], sign)
    ensures Blocks(content, sign) == [Block(0, |content| - 1, content)]
  {
    BlocksAreRuns(content, sign);
    var bs := Blocks(content, sign);
    assert Signed(content, sign, 0);
    assert Covered(bs, 0);
    assert |bs| > 0;
    assert IsRun(content, sign, bs[0]);
    assert !Signed(content, sign, bs[0].start - 1) && !Signed(content, sign, bs[0].end + 1);
    assert bs[0].start == 0 && bs[0].end == |content| - 1;
    assert content[0..|content|] == content;
    if |bs| > 1 {
      SecondRunAfterFirst(content, sign, bs);
      assert false;
    }
  }

  lemma SecondRunAfterFirst(content: seq<string>, sign: string, bs: seq<Block>)
    requires IsRunList(content, sign, bs) && |bs| > 1
    ensures bs[0].end < bs[1].start <= bs[1].end < |content|
  {
    assert IsRun(content, sign, bs[1]);
  }

  /** `_group_continuous_blocks` */
  method GroupContinuousBlocks(content: seq<string>, sign: string) returns (blocks: seq<Block>)
    ensures blocks == Blocks(content, sign)
  {
    blocks := [];
    var start: Option<nat> := None;
    var i := 0;
    while i < |content|
      invariant 0 <= i <= |content|
      invariant Scan(blocks, start) == ScanPrefix(content, sign, i)
    {
      if StartsWith(content[i], sign) {
        if start.None? {
          start := Some(i);
        }
      } else {
        if start.Some? {
          blocks := blocks + [Block(start.value, i - 1, content[start.value..i])];
          start := None;
        }
      }
      i := i + 1;
    }
    if start.Some? {
      blocks := blocks + [Block(start.value, |content| - 1, content[start.value..])];
    }
  }

  // ---------------------------------------------------------------------------
  // The removal runs next to an added run

  predicate IsBlankLine(l: string) { Strip(l) == [] }

  /** `has_empty_line_between(a, b)`: a blank line strictly between positions `a` and `b` */
  predicate BlankBetween(lines: seq<string>, a: int, b: int) {
    exists i :: a + 1 <= i < b && 0 <= i < |lines| && IsBlankLine(lines[i])
  }

  method HasEmptyLineBetween(lines: seq<string>, a: int, b: int) returns (r: bool)
    requires -1 <= a && b <= |lines|
    ensures r == BlankBetween(lines, a, b)
  {
    var i := a + 1;
    while i < b
      invariant a + 1 <= i
      invariant forall j :: a + 1 <= j < i && j < b ==> !IsBlankLine(lines[j])
    {
      if Strip(lines[i]) == [] {
        return true;
      }
      i := i + 1;
    }
    return false;
  }

  /** The index of the first block containing position `idx` */
  function BlockAt(bs: seq<Block>, idx: int): (r: Option<nat>)
    ensures r.Some? ==> r.value < |bs| && bs[r.value].start <= idx <= bs[r.value].end
    ensures r.Some? ==> forall j :: 0 <= j < r.value ==> !(bs[j].start <= idx <= bs[j].end)
    ensures r.None? ==> forall j :: 0 <= j < |bs| ==> !(bs[j].start <= idx <= bs[j].end)
  {
    if bs == [] then None
    else if bs[0].start <= idx <= bs[0].end then Some(0)
    else
      match BlockAt(bs[1..], idx)
      case None => None
      case Some(j) => Some(j + 1)
  }

  /** A removal run before position `p` with no blank line between */
  predicate FitsBefore(lines: seq<string>, b: Block, p: int) { b.end < p && !BlankBetween(lines, b.end, p) }

  /** A removal run after position `p` with no blank line between */
  predicate FitsAfter(lines: seq<string>, b: Block, p: int) { b.start > p && !BlankBetween(lines, p, b.start) }

  /** The last block that fits before `p` */
  function LastFitBefore(lines: seq<string>, bs: seq<Block>, p: int): (r: Option<nat>)
    ensures r.Some? ==> r.value < |bs| && FitsBefore(lines, bs[r.value], p)
    ensures r.Some? ==> forall j :: r.value < j < |bs| ==> !FitsBefore(lines, bs[j], p)
    ensures r.None? ==> forall j :: 0 <= j < |bs| ==> !FitsBefore(lines, bs[j], p)
  {
    if bs == [] then None
    else if FitsBefore(lines, bs[|bs| - 1], p) then Some(|bs| - 1)
    else LastFitBefore(lines, bs[..|bs| - 1], p)
  }

  /** The first block that fits after `p` */
  function FirstFitAfter(lines: seq<string>, bs: seq<Block>, p: int): (r: Option<nat>)
    ensures r.Some? ==> r.value < |bs| && FitsAfter(lines, bs[r.value], p)
    ensures r.Some? ==> forall j :: 0 <= j < r.value ==> !FitsAfter(lines, bs[j], p)
    ensures r.None? ==> forall j :: 0 <= j < |bs| ==> !FitsAfter(lines, bs[j], p)
  {
    if bs == [] then None
    else if FitsAfter(lines, bs[0], p) then Some(0)
    else
      match FirstFitAfter(lines, bs[1..], p)
      case None => None
      case Some(j) => Some(j + 1)
  }

  function LinesOf(bs: seq<Block>, r: Option<nat>): seq<string>
    requires r.Some? ==> r.value < |bs|
  {
    if r.Some? then bs[r.value].lines else []
  }

  /**
   * `find_nearby_delete_blocks(diff, plus_idx)`: for the `+` run holding
   * `plus_idx`, the last `-` run ending before its start and the first
   * starting after it, each counting only without a blank line in between.
   */
  function Nearby(content: seq<string>, plusIdx: int): (seq<string>, seq<string>) {
    var plus := Blocks(content, "+");
    var dels := Blocks(content, "-");
    match BlockAt(plus, plusIdx)
    case None => ([], [])
    case Some(c) =>
      var p := plus[c].start;
      (LinesOf(dels, LastFitBefore(content, dels, p)), LinesOf(dels, FirstFitAfter(content, dels, p)))
  }

  /** The two searches `Nearby` makes land on `-` runs of the hunk */
  lemma NearbyAreRuns(content: seq<string>, plusIdx: int)
    ensures var (prev, next) := Nearby(content, plusIdx);
      (prev == [] || exists b :: IsRun(content, "-", b) && b.lines == prev)
      && (next == [] || exists b :: IsRun(content, "-", b) && b.lines == next)
  {
    BlocksAreRuns(content, "-");
    var dels := Blocks(content, "-");
    var plus := Blocks(content, "+");
    match BlockAt(plus, plusIdx)
    case None =>
    case Some(c) =>
      var p := plus[c].start;
      var before := LastFitBefore(content, dels, p);
      var after := FirstFitAfter(content, dels, p);
      if before.Some? {
        assert IsRun(content, "-", dels[before.value]);
      }
      if after.Some? {
        assert IsRun(content, "-", dels[after.value]);
      }
  }

  /** `find_nearby_delete_blocks` */
  method FindNearbyDeleteBlocks(content: seq<string>, plusIdx: int) returns (prev: seq<string>, next: seq<string>)
    ensures (prev, next) == Nearby(content, plusIdx)
  {
    var plusBlocks := GroupContinuousBlocks(content, "+");
    var delBlocks := GroupContinuousBlocks(content, "-");
    var current := FindBlockAt(plusBlocks, plusIdx);
    prev, next := [], [];
    if current.Some? {
      var plusStart := plusBlocks[current.value].start;
      BlocksAreRuns(content, "+");
      assert IsRun(content, "+", plusBlocks[current.value]);
      BlocksAreRuns(content, "-");
      var before := FindLastFitBefore(content, delBlocks, plusStart);
      prev := LinesOf(delBlocks, before);
      var after := FindFirstFitAfter(content, delBlocks, plusStart);
      next := LinesOf(delBlocks, after);
    }
  }

  /** The search for the `+` run holding `plus_idx` */
  method FindBlockAt(bs: seq<Block>, idx: int) returns (r: Option<nat>)
    ensures r == BlockAt(bs, idx)
  {
    r := None;
    var i := 0;
    while i < |bs|
      invariant 0 <= i <= |bs|
      invariant forall j :: 0 <= j < i ==> !(bs[j].start <= idx <= bs[j].end)
    {
      if bs[i].start <= idx <= bs[i].end {
        r := Some(i);
        break;
      }
      i := i + 1;
    }
  }

  /** The backward search over the `-` runs */
  method FindLastFitBefore(lines: seq<string>, bs: seq<Block>, p: int) returns (r: Option<nat>)
    requires p <= |lines|
    requires forall j :: 0 <= j < |bs| ==> -1 <= bs[j].end
    ensures r == LastFitBefore(lines, bs, p)
  {
    r := None;
    var k := |bs|;
    while k > 0
      invariant 0 <= k <= |bs|
      invariant forall j :: k <= j < |bs| ==> !FitsBefore(lines, bs[j], p)
      invariant LastFitBefore(lines, bs, p) == LastFitBefore(lines, bs[..k], p)
    {
      var b := bs[k - 1];
      assert bs[..k][..k - 1] == bs[..k - 1];
      if b.end < p {
        var blank := HasEmptyLineBetween(lines, b.end, p);
        if !blank {
          r := Some(k - 1);
          return;
        }
      }
      k := k - 1;
    }
    assert bs[..k] == [];
  }

  /** The forward search over the `-` runs */
  method FindFirstFitAfter(lines: seq<string>, bs: seq<Block>, p: int) returns (r: Option<nat>)
    requires -1 <= p
    requires forall j :: 0 <= j < |bs| ==> bs[j].start <= |lines|
    ensures r == FirstFitAfter(lines, bs, p)
  {
    r := None;
    var m := 0;
    while m < |bs|
      invariant 0 <= m <= |bs|
      invariant forall j :: 0 <= j < m ==> !FitsAfter(lines, bs[j], p)
    {
      var b := bs[m];
      if b.start > p {
        var blank := HasEmptyLineBetween(lines, p, b.start);
        if !blank {
          r := Some(m);
          return;
        }
      }
      m := m + 1;
    }
  }

  // ---------------------------------------------------------------------------
  // The similarity score

  /** `line[1:]` */
  function DropSign(l: string): string { if l == [] then [] else l[1..] }

  /** `"\n".join(line[1:].strip() for line in lines)` */
  function BlockText(lines: seq<string>): string {
    Join(seq(|lines|, i requires 0 <= i < |lines| => Strip(DropSign(lines[i]))), "\n")
  }

  /** Some line of the block contains some cause */
  predicate MentionsCause(lines: seq<string>, causes: seq<string>) {
    exists i, j :: 0 <= i < |lines| && 0 <= j < |causes| && Contains(lines[i], causes[j])
  }

  function Max(a: real, b: real): real { if a >= b then a else b }

  /**
   * The similarity of an added run to its neighbouring removal runs; `ratio`
   * stands for `difflib.SequenceMatcher(None, a, b).ratio()`.
   */
  function RunSimilarity(content: seq<string>, b: Block, ratio: (string, string) -> real): real {
    var (prev, next) := Nearby(content, b.start);
    var plusText := BlockText(b.lines);
    var prevText := BlockText(prev);
    var nextText := BlockText(next);
    var simPrev := if prevText != [] then ratio(prevText, plusText) else 0.0;
    var simNext := if nextText != [] then ratio(nextText, plusText) else 0.0;
    Max(simPrev, simNext)
  }

  /** The running score and the two one-shot flags */
  datatype Tally = Tally(score: real, high: bool, mid: bool)

  /** One block's effect on the tally */
  function TallyStep(t: Tally, similarity: real): Tally {
    if similarity > 0.7 && !t.high && !t.mid then Tally(t.score + 4.0, true, t.mid)
    else if similarity > 0.7 && !t.high && t.mid then Tally(t.score + 2.0, true, t.mid)
    else if similarity > 0.5 && !t.mid && !t.high then Tally(t.score + 2.0, t.high, true)
    else t
  }

  /** The tally after the given added runs */
  function TallyRuns(content: seq<string>, runs: seq<Block>, causes: seq<string>, ratio: (string, string) -> real): Tally {
    if runs == [] then Tally(0.0, false, false)
    else
      var t := TallyRuns(content, runs[..|runs| - 1], causes, ratio);
      var b := runs[|runs| - 1];
      if MentionsCause(b.lines, causes) then TallyStep(t, RunSimilarity(content, b, ratio)) else t
  }

  /** `sum(1 for cause in causes if cause in text)` */
  function CausesIn(causes: seq<string>, text: string): (n: nat)
    ensures n <= |causes|
    ensures n == 0 <==> forall j :: 0 <= j < |causes| ==> !Contains(text, causes[j])
  {
    if causes == [] then 0
    else
      var init := causes[..|causes| - 1];
      var n := CausesIn(init, text) + (if Contains(text, causes[|causes| - 1]) then 1 else 0);
      assert forall j :: 0 <= j < |init| ==> init[j] == causes[j];
      n
  }

  /** `_score_semantic_similarity(diff, causes)` */
  function SemanticScore(content: seq<string>, causes: seq<string>, ratio: (string, string) -> real): real {
    TallyRuns(content, Blocks(content, "+"), causes, ratio).score * (CausesIn(causes, Join(content, "\n")) as real)
  }

  /** The subtotal is fixed by the flags: 4 once high, 2 once only mid, 0 before either */
  predicate TallyOk(t: Tally) {
    t.score == (if t.high then 4.0 else if t.mid then 2.0 else 0.0)
  }

  lemma TallyStepOk(t: Tally, similarity: real)
    requires TallyOk(t)
    ensures TallyOk(TallyStep(t, similarity))
    ensures t.high ==> TallyStep(t, similarity) == t
  {
  }

  lemma {:induction false} TallyRunsOk(content: seq<string>, runs: seq<Block>, causes: seq<string>, ratio: (string, string) -> real)
    ensures TallyOk(TallyRuns(content, runs, causes, ratio))
  {
    if runs != [] {
      var init := runs[..|runs| - 1];
      TallyRunsOk(content, init, causes, ratio);
      var t := TallyRuns(content, init, causes, ratio);
      TallyStepOk(t, RunSimilarity(content, runs[|runs| - 1], ratio));
    }
  }

  /**
   * The score is 0, 2 or 4 times the number of causes found in the hunk's
   * text, and 0 when no cause occurs in it.
   */
  lemma SemanticScoreValues(content: seq<string>, causes: seq<string>, ratio: (string, string) -> real)
    ensures var n := CausesIn(causes, Join(content, "\n")) as real;
      var s := SemanticScore(content, causes, ratio);
      s == 0.0 || s == 2.0 * n || s == 4.0 * n
    ensures (forall j :: 0 <= j < |causes| ==> !Contains(Join(content, "\n"), causes[j])) ==>
      SemanticScore(content, causes, ratio) == 0.0
  {
    TallyRunsOk(content, Blocks(content, "+"), causes, ratio);
  }

  /** The tally after one more run */
  lemma TallyRunsStep(content: seq<string>, runs: seq<Block>, i: nat, causes: seq<string>, ratio: (string, string) -> real)
    requires i < |runs|
    ensures var t := TallyRuns(content, runs[..i], causes, ratio);
      TallyRuns(content, runs[..i + 1], causes, ratio)
      == if MentionsCause(runs[i].lines, causes) then TallyStep(t, RunSimilarity(content, runs[i], ratio)) else t
  {
    assert runs[..i + 1][..i] == runs[..i];
  }

  /** The body of the loop in `_score_semantic_similarity`, for one added run */
  method ScoreBlock(content: seq<string>, b: Block, causes: seq<string>, ratio: (string, string) -> real,
                    score: real, highFound: bool, midFound: bool)
    returns (score': real, highFound': bool, midFound': bool)
    ensures var t := Tally(score, highFound, midFound);
      Tally(score', highFound', midFound')
      == if MentionsCause(b.lines, causes) then TallyStep(t, RunSimilarity(content, b, ratio)) else t
  {
    score', highFound', midFound' := score, highFound, midFound;
    if MentionsCause(b.lines, causes) {
      var prev, next := FindNearbyDeleteBlocks(content, b.start);
      var plusText := BlockText(b.lines);
      var prevText := BlockText(prev);
      var nextText := BlockText(next);
      var simPrev := if prevText != [] then ratio(prevText, plusText) else 0.0;
      var simNext := if nextText != [] then ratio(nextText, plusText) else 0.0;
      var similarity := Max(simPrev, simNext);
      assert similarity == RunSimilarity(content, b, ratio);
      if similarity > 0.7 && !highFound && !midFound {
        score' := score + 4.0;
        highFound' := true;
      } else if similarity > 0.7 && !highFound && midFound {
        score' := score + 2.0;
        highFound' := true;
      } else if similarity > 0.5 && !midFound && !highFound {
        score' := score + 2.0;
        midFound' := true;
      }
    }
  }

  /** `_score_semantic_similarity` */
  method ScoreSemanticSimilarity(content: seq<string>, causes: seq<string>, ratio: (string, string) -> real)
    returns (result: real)
    ensures result == SemanticScore(content, causes, ratio)
  {
    var relevant := CausesIn(causes, Join(content, "\n"));
    var score := 0.0;
    var highFound := false;
    var midFound := false;
    var plusBlocks := GroupContinuousBlocks(content, "+");
    var i := 0;
    while i < |plusBlocks|
      invariant 0 <= i <= |plusBlocks|
      invariant Tally(score, highFound, midFound) == TallyRuns(content, plusBlocks[..i], causes, ratio)
    {
      TallyRunsStep(content, plusBlocks, i, causes, ratio);
      score, highFound, midFound := ScoreBlock(content, plusBlocks[i], causes, ratio, score, highFound, midFound);
      i := i + 1;
    }
    assert plusBlocks[..i] == plusBlocks;
    result := score * (relevant as real);
  }
}
