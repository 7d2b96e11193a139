/**
 * The diff manager: the store of hunks loaded from a diff, and the three
 * rankers that pick the hunks most related to a build error.
 */
module DiffManager {
  import opened Wrappers
  import opened Strings
  import opened DiffUnits
  import opened DiffBlocks

  // ---------------------------------------------------------------------------
  // Ranking

  /** An `(idx, score)` pair */
  datatype Scored = Scored(index: nat, score: real)

  /** `a` precedes `b`: a higher score, or the same score and an earlier index */
  predicate Before(a: Scored, b: Scored) {
    a.score > b.score || (a.score == b.score && a.index < b.index)
  }

  predicate Ranked(xs: seq<Scored>) {
    forall i, j :: 0 <= i < j < |xs| ==> Before(xs[i], xs[j])
  }

  predicate IndicesIncreasing(xs: seq<Scored>) {
    forall i, j :: 0 <= i < j < |xs| ==> xs[i].index < xs[j].index
  }

  /** Insert `x` after every element scoring at least as much */
  function Insert(sorted: seq<Scored>, x: Scored): (r: seq<Scored>)
    ensures multiset(r) == multiset(sorted) + multiset{x}
  {
    if sorted == [] || sorted[|sorted| - 1].score >= x.score then sorted + [x]
    else
      var init := sorted[..|sorted| - 1];
      assert sorted == init + [sorted[|sorted| - 1]];
      Insert(init, x) + [sorted[|sorted| - 1]]
  }

  /** Python's stable sort by descending score */
  function SortByScore(xs: seq<Scored>): (r: seq<Scored>)
    ensures multiset(r) == multiset(xs)
  {
    if xs == [] then []
    else
      var init := xs[..|xs| - 1];
      assert xs == init + [xs[|xs| - 1]];
      Insert(SortByScore(init), xs[|xs| - 1])
  }

  /** At most five results are kept */
  const TopCount := 5

  /** `sorted(scores, key=score, reverse=True)[:5]`, also `scores.sort(key=-score); scores[:5]` */
  function Rank(scores: seq<Scored>): seq<Scored> {
    var sorted := SortByScore(scores);
    sorted[..Min(TopCount, |sorted|)]
  }

  lemma {:induction false} InsertRanked(sorted: seq<Scored>, x: Scored)
    requires Ranked(sorted)
    requires forall y :: y in sorted ==> y.index < x.index
    ensures Ranked(Insert(sorted, x))
  {
    if sorted == [] || sorted[|sorted| - 1].score >= x.score {
      var r := sorted + [x];
      forall i, j | 0 <= i < j < |r| ensures Before(r[i], r[j]) {
        if j == |sorted| && i < |sorted| - 1 {
          assert Before(sorted[i], sorted[|sorted| - 1]);
        }
        if j == |sorted| {
          assert r[i] in sorted;
        }
      }
    } else {
      var init := sorted[..|sorted| - 1];
      var last := sorted[|sorted| - 1];
      assert Ranked(init);
      forall y | y in init ensures y.index < x.index {
        assert y in sorted;
      }
      InsertRanked(init, x);
      var mid := Insert(init, x);
      var r := mid + [last];
      forall i, j | 0 <= i < j < |r| ensures Before(r[i], r[j]) {
        if j == |mid| {
          assert r[i] in multiset(init) + multiset{x};
          if r[i] != x {
            var k :| 0 <= k < |init| && init[k] == r[i];
            assert Before(sorted[k], sorted[|sorted| - 1]);
          }
        }
      }
    }
  }

  /** Sorting pairs listed in index order ranks them by score, ties in index order */
  lemma {:induction false} SortRanked(xs: seq<Scored>)
    requires IndicesIncreasing(xs)
    ensures Ranked(SortByScore(xs))
  {
    if xs != [] {
      var init := xs[..|xs| - 1];
      var last := xs[|xs| - 1];
      SortRanked(init);
      forall y | y in SortByScore(init) ensures y.index < last.index {
        assert y in multiset(init);
        var k :| 0 <= k < |init| && init[k] == y;
      }
      InsertRanked(SortByScore(init), last);
    }
  }

  /**
   * A ranking holds at most five pairs, all from the scores, best first with
   * ties in index order, and no pair left out beats one kept.
   */
  lemma RankTop(scores: seq<Scored>)
    requires IndicesIncreasing(scores)
    ensures var r := Rank(scores);
      |r| == Min(TopCount, |scores|) && Ranked(r)
      && (forall y :: y in r ==> y in scores)
      && (forall x :: x in scores && x !in r ==> forall y :: y in r ==> Before(y, x))
  {
    var sorted := SortByScore(scores);
    SortRanked(scores);
    assert |sorted| == |multiset(sorted)| == |scores|;
    var r := sorted[..Min(TopCount, |sorted|)];
    forall y | y in r ensures y in scores {
      assert y in multiset(sorted);
    }
    forall x | x in scores && x !in r ensures forall y :: y in r ==> Before(y, x) {
      assert x in multiset(sorted);
      var p :| 0 <= p < |sorted| && sorted[p] == x;
      forall y | y in r ensures Before(y, x) {
        var q :| 0 <= q < |r| && r[q] == y;
        assert sorted[q] == y;
      }
    }
  }

  // ---------------------------------------------------------------------------
  // Scores

  /** `"\n".join(diff.content)` */
  function ContentText(u: DiffUnit): string { Join(u.content, "\n") }

  /** A character of `[\w\.\-]` */
  predicate IsTokenChar(c: char) {
    ('a' <= c <= 'z') || ('A' <= c <= 'Z') || ('0' <= c <= '9') || c == '_' || c == '.' || c == '-'
  }

  /** `re.findall(r"[\w\.\-]+", text)` finds at least one token */
  predicate HasToken(text: string) { exists i :: 0 <= i < |text| && IsTokenChar(text[i]) }

  /**
   * The pom ranker's points for one cause: 5 when it occurs in the text, and 1
   * when the one token the loop looks at (the first the token set yields) is
   * close to it; `closeToken(c, text)` stands for `ratio(c, token) > 0.8` on that token.
   */
  function PomCauseScore(c: string, text: string, closeToken: (string, string) -> bool): real {
    (if Contains(text, c) then 5.0 else 0.0) + (if HasToken(text) && closeToken(c, text) then 1.0 else 0.0)
  }

  function PomCausesScore(causes: seq<string>, text: string, closeToken: (string, string) -> bool): real {
    if causes == [] then 0.0
    else PomCausesScore(causes[..|causes| - 1], text, closeToken) + PomCauseScore(causes[|causes| - 1], text, closeToken)
  }

  /** The score `select_related_diff_pom` gives one hunk */
  function PomScore(u: DiffUnit, causes: seq<string>, closeToken: (string, string) -> bool): real {
    (if EndsWith(u.file, "pom.xml") then 1.0 else 0.0) + PomCausesScore(causes, ContentText(u), closeToken)
  }

  function PomScores(units: seq<DiffUnit>, causes: seq<string>, closeToken: (string, string) -> bool): (r: seq<Scored>)
    ensures |r| == |units| && IndicesIncreasing(r)
    ensures forall i :: 0 <= i < |r| ==> r[i] == Scored(i, PomScore(units[i], causes, closeToken))
  {
    seq(|units|, i requires 0 <= i < |units| => Scored(i, PomScore(units[i], causes, closeToken)))
  }

  /** Each cause found in the text is worth 5, and the fuzzy token adds at most 1 per cause */
  lemma {:induction false} PomCausesBounds(causes: seq<string>, text: string, closeToken: (string, string) -> bool)
    ensures var n := CausesIn(causes, text) as real;
      5.0 * n <= PomCausesScore(causes, text, closeToken) <= 5.0 * n + (|causes| as real)
  {
    if causes != [] {
      PomCausesBounds(causes[..|causes| - 1], text, closeToken);
    }
  }

  /**
   * The similarity part of the assert and test rankers: the semantic score,
   * halved outside `.java` files; `ratio` stands for `SequenceMatcher.ratio`.
   */
  function SimilarityPart(u: DiffUnit, causes: seq<string>, ratio: (string, string) -> real): real {
    var s := SemanticScore(u.content, causes, ratio);
    if EndsWith(u.file, ".java") then s else s / 2.0
  }

  /**
   * The `(idx, score)` pairs of the hunks that are not new files, in order.
   * The assert and test rankers skip NEW_FILE hunks before scoring.
   */
  function ScoresOf(units: seq<DiffUnit>, score: DiffUnit -> real): (r: seq<Scored>)
    ensures |r| <= |units| && IndicesIncreasing(r)
    ensures forall k :: 0 <= k < |r| ==>
      r[k].index < |units| && units[r[k].index].diffType != NewFile && r[k].score == score(units[r[k].index])
  {
    if units == [] then []
    else
      var n := |units| - 1;
      var init := units[..n];
      var rest := ScoresOf(init, score);
      assert forall i :: 0 <= i < n ==> init[i] == units[i];
      if units[n].diffType == NewFile then rest
      else rest + [Scored(n, score(units[n]))]
  }

  /** Every unit that is not a new file is scored */
  lemma {:induction false} ScoresOfCovers(units: seq<DiffUnit>, score: DiffUnit -> real, i: nat)
    requires i < |units| && units[i].diffType != NewFile
    ensures exists k :: 0 <= k < |ScoresOf(units, score)| && ScoresOf(units, score)[k].index == i
  {
    var n := |units| - 1;
    var r := ScoresOf(units, score);
    if i == n {
      assert r[|r| - 1].index == i;
    } else {
      var init := units[..n];
      assert init[i] == units[i];
      ScoresOfCovers(init, score, i);
      var rest := ScoresOf(init, score);
      var k :| 0 <= k < |rest| && rest[k].index == i;
      assert r[k] == rest[k];
    }
  }

  /** The score `select_related_diff_assert` gives one hunk (the +10 for a method definition never applies) */
  function AssertScore(u: DiffUnit, causes: seq<string>, ratio: (string, string) -> real): real {
    SimilarityPart(u, causes, ratio)
  }

  /** `AssertScore` as the scoring function of `ScoresOf` */
  function AssertScorer(causes: seq<string>, ratio: (string, string) -> real): DiffUnit -> real {
    u => AssertScore(u, causes, ratio)
  }

  function AssertScores(units: seq<DiffUnit>, causes: seq<string>, ratio: (string, string) -> real): seq<Scored> {
    ScoresOf(units, AssertScorer(causes, ratio))
  }

  // ---------------------------------------------------------------------------
  // Error types and the test ranker

  datatype ErrorKind = MissingPackage | MissingClass | MissingMethod | TypeMismatch | TestFailure | UnknownKind

  /** The five rules of `detect_error_type`, in the order they are tried */
  predicate PackageRule(key: string) { Contains(key, "package") && Contains(key, "does not exist") }
  predicate ClassRule(key: string) { Contains(key, "cannot find symbol") && Contains(key, "class") }
  predicate MethodRule(key: string) { Contains(key, "cannot find symbol") && Contains(key, "method") }
  predicate TypeRule(key: string) { Contains(key, "incompatible types") }
  predicate TestRule(key: string) { Contains(key, "There are test failures.") }

  /** `detect_error_type`: the first rule that matches, in a fixed order */
  function DetectErrorType(key: string): (r: ErrorKind)
    ensures r == MissingPackage <==> PackageRule(key)
    ensures r == MissingClass <==> !PackageRule(key) && ClassRule(key)
    ensures r == MissingMethod <==> !PackageRule(key) && !ClassRule(key) && MethodRule(key)
    ensures r == TypeMismatch <==> !PackageRule(key) && !ClassRule(key) && !MethodRule(key) && TypeRule(key)
    ensures r == TestFailure <==>
      !PackageRule(key) && !ClassRule(key) && !MethodRule(key) && !TypeRule(key) && TestRule(key)
    ensures r == UnknownKind <==>
      !PackageRule(key) && !ClassRule(key) && !MethodRule(key) && !TypeRule(key) && !TestRule(key)
  {
    if PackageRule(key) then MissingPackage
    else if ClassRule(key) then MissingClass
    else if MethodRule(key) then MissingMethod
    else if TypeRule(key) then TypeMismatch
    else if TestRule(key) then TestFailure
    else UnknownKind
  }

  /** The place of a kind in the rule order; `UnknownKind` comes last */
  function RuleRank(k: ErrorKind): nat {
    match k
    case MissingPackage => 0
    case MissingClass => 1
    case MissingMethod => 2
    case TypeMismatch => 3
    case TestFailure => 4
    case UnknownKind => 5
  }

  /** A rule that matches a key matches every key that contains it */
  lemma ContainsGrows(key: string, more: string, p: string)
    requires Contains(key, p)
    ensures Contains(key + more, p)
  {
    ContainsInConcat([], key, more, p);
    assert [] + key + more == key + more;
  }

  /**
   * First match: extending a group key can only move it to an earlier rule,
   * because every rule asks only for substrings.
   */
  lemma DetectExtends(key: string, more: string)
    ensures RuleRank(DetectErrorType(key + more)) <= RuleRank(DetectErrorType(key))
  {
    var lits := ["package", "does not exist", "cannot find symbol", "class", "method", "incompatible types", "There are test failures."];
    forall i | 0 <= i < |lits| && Contains(key, lits[i]) ensures Contains(key + more, lits[i]) {
      ContainsGrows(key, more, lits[i]);
    }
    assert lits[0] == "package" && lits[1] == "does not exist" && lits[2] == "cannot find symbol";
    assert lits[3] == "class" && lits[4] == "method" && lits[5] == "incompatible types";
    assert lits[6] == "There are test failures.";
  }

  /** The name `detect_error_type` returns */
  function KindName(k: ErrorKind): string {
    match k
    case MissingPackage => "MissingPackage"
    case MissingClass => "MissingClass"
    case MissingMethod => "MissingMethod"
    case TypeMismatch => "TypeMismatch"
    case TestFailure => "TestFailure"
    case UnknownKind => "Unknown"
  }

  /** `os.path.basename`: the text after the last `/` */
  function Basename(path: string): (r: string)
    ensures |r| <= |path| && '/' !in r && r == path[|path| - |r|..]
  {
    if '/' in path then Basename(path[FirstIndex(path, '/') + 1..]) else path
  }

  /** The kinds for which a hunk of the cause's own file earns +10 */
  predicate FileBonusKind(k: ErrorKind) { k == MissingPackage || k == MissingClass || k == TestFailure }

  /**
   * The test ranker's bonus for one cause: 10 when the hunk is in `<cause>.java`
   * and mentions "package" or "parameters", for the kinds that look at files
   * (the MissingMethod bonus never applies).
   */
  function TestCauseBonus(u: DiffUnit, c: string, kind: ErrorKind): real {
    var text := ContentText(u);
    if FileBonusKind(kind) && u.diffType != NewFile && Basename(u.file) == c + ".java"
       && (Contains(text, "package") || Contains(text, "parameters"))
    then 10.0 else 0.0
  }

  function TestBonus(u: DiffUnit, causes: seq<string>, kind: ErrorKind): real {
    if causes == [] then 0.0
    else TestBonus(u, causes[..|causes| - 1], kind) + TestCauseBonus(u, causes[|causes| - 1], kind)
  }

  /** The bonus is 10 per qualifying cause: 0 for the other kinds, at most 10 per cause */
  lemma {:induction false} TestBonusBounds(u: DiffUnit, causes: seq<string>, kind: ErrorKind)
    ensures 0.0 <= TestBonus(u, causes, kind) <= 10.0 * (|causes| as real)
    ensures !FileBonusKind(kind) ==> TestBonus(u, causes, kind) == 0.0
  {
    if causes != [] {
      TestBonusBounds(u, causes[..|causes| - 1], kind);
    }
  }

  /** The score `select_related_diff_test` gives one hunk */
  function TestScore(u: DiffUnit, kind: ErrorKind, causes: seq<string>, ratio: (string, string) -> real): real {
    TestBonus(u, causes, kind) + SimilarityPart(u, causes, ratio)
  }

  function TestScores(units: seq<DiffUnit>, groupKey: string, causes: seq<string>, ratio: (string, string) -> real): seq<Scored> {
    ScoresOf(units, TestScorer(DetectErrorType(groupKey), causes, ratio))
  }

  /** `TestScore` as the scoring function of `ScoresOf` */
  function TestScorer(kind: ErrorKind, causes: seq<string>, ratio: (string, string) -> real): DiffUnit -> real {
    u => TestScore(u, kind, causes, ratio)
  }

  // ---------------------------------------------------------------------------
  // The store

  class DiffManager {
    var diffUnits: seq<DiffUnit>

    /** Load the diff; `diffLines` is None when the diff file does not exist */
    constructor (diffLines: Option<seq<string>>)
      ensures diffUnits == (if diffLines.Some? then LoadUnits(diffLines.value) else [])
    {
      diffUnits := [];
      new;
      if diffLines.Some? {
        LoadDiff(diffLines.value);
      }
    }

    /** `_load_diff` over the lines of the diff file */
    method LoadDiff(lines: seq<string>)
      modifies this
      ensures diffUnits == old(diffUnits) + LoadUnits(lines)
    {
      var currentFile: Option<string> := None;
      var currentHunk: Option<string> := None;
      var currentContent: seq<string> := [];
      var deletedFileCandidate: Option<string> := None;
      var currentDiffType := Modified;
      ghost var base := diffUnits;
      var i := 0;
      while i < |lines|
        invariant 0 <= i <= |lines|
        invariant var st := FeedAll(lines[..i]);
          st.file == currentFile && st.hunk == currentHunk && st.content == currentContent
          && st.candidate == deletedFileCandidate && st.diffType == currentDiffType
          && diffUnits == base + st.units
      {
        var line := lines[i];
        assert lines[..i + 1][..i] == lines[..i];
        ghost var st := FeedAll(lines[..i]);
        if StartsWith(line, "diff --git") {
          if Truthy(currentFile) && Truthy(currentHunk) && currentContent != [] {
            diffUnits := diffUnits + [DiffUnit(currentFile.value, currentHunk.value, currentContent, currentDiffType)];
          }
          currentFile := None;
          currentHunk := None;
          currentContent := [];
          currentDiffType := Modified;
          deletedFileCandidate := None;
        } else if StartsWith(line, "deleted file mode") {
          currentDiffType := DeletedFile;
        } else if StartsWith(line, "new file mode") {
          currentDiffType := NewFile;
        } else if StartsWith(line, "--- a/") {
          deletedFileCandidate := Some(ReplaceAll(Strip(line), "--- a/", ""));
        } else if StartsWith(line, "+++ b/") {
          currentFile := Some(ReplaceAll(Strip(line), "+++ b/", ""));
        } else if StartsWith(line, "+++ /dev/null") {
          if currentDiffType == DeletedFile {
            currentFile := deletedFileCandidate;
          }
        } else if StartsWith(line, "@@") {
          if Truthy(currentFile) && Truthy(currentHunk) && currentContent != [] {
            diffUnits := diffUnits + [DiffUnit(currentFile.value, currentHunk.value, currentContent, Modified)];
          }
          currentHunk := Some(Strip(line));
          currentContent := [];
        } else if Truthy(currentHunk) {
          currentContent := currentContent + [TrimEnd(line)];
        }
        i := i + 1;
      }
      assert lines[..i] == lines;
      if Truthy(currentFile) && Truthy(currentHunk) && currentContent != [] {
        diffUnits := diffUnits + [DiffUnit(currentFile.value, currentHunk.value, currentContent, Modified)];
      }
    }

    /** `get_diff_by_id` */
    function GetDiffById(id: Option<int>): (r: Option<string>)
      reads this
      ensures r.Some? <==> id.Some? && 0 <= id.value < |diffUnits|
    {
      RenderById(diffUnits, id)
    }

    /** `get_diff_brief_by_id` */
    function GetDiffBriefById(id: int): (r: (string, string, seq<string>))
      reads this
      ensures 0 <= id < |diffUnits| ==> r == (diffUnits[id].file, diffUnits[id].hunkHeader, diffUnits[id].content)
      ensures !(0 <= id < |diffUnits|) ==> r == ("<unknown>", "<none>", [])
    {
      BriefById(diffUnits, id)
    }

    /** `select_related_diff_pom` */
    method SelectRelatedDiffPom(causes: seq<string>, closeToken: (string, string) -> bool) returns (top: seq<Scored>)
      ensures top == Rank(PomScores(diffUnits, causes, closeToken))
    {
      var scores: seq<Scored> := [];
      var idx := 0;
      while idx < |diffUnits|
        invariant 0 <= idx <= |diffUnits|
        invariant scores == PomScores(diffUnits[..idx], causes, closeToken)
      {
        var diff := diffUnits[idx];
        var contentStr := Join(diff.content, "\n");
        var score := 0.0;
        if EndsWith(diff.file, "pom.xml") {
          score := score + 1.0;
        }
        var j := 0;
        while j < |causes|
          invariant 0 <= j <= |causes|
          invariant score == (if EndsWith(diff.file, "pom.xml") then 1.0 else 0.0) + PomCausesScore(causes[..j], contentStr, closeToken)
        {
          var c := causes[j];
          assert causes[..j + 1][..j] == causes[..j];
          if Contains(contentStr, c) {
            score := score + 5.0;
          }
          if HasToken(contentStr) && closeToken(c, contentStr) {
            score := score + 1.0;
          }
          j := j + 1;
        }
        assert causes[..j] == causes;
        scores := scores + [Scored(idx, score)];
        idx := idx + 1;
      }
      assert diffUnits[..idx] == diffUnits;
      top := Rank(scores);
    }

    /** `select_related_diff_assert` */
    method SelectRelatedDiffAssert(causes: seq<string>, ratio: (string, string) -> real) returns (top: seq<Scored>)
      ensures top == Rank(AssertScores(diffUnits, causes, ratio))
    {
      var scores: seq<Scored> := [];
      var idx := 0;
      while idx < |diffUnits|
        invariant 0 <= idx <= |diffUnits|
        invariant scores == ScoresOf(diffUnits[..idx], AssertScorer(causes, ratio))
      {
        var diff := diffUnits[idx];
        ScoresOfSnoc(diffUnits, AssertScorer(causes, ratio), idx);
        if diff.diffType != NewFile {
          var score := ScoreAssertHunk(diff, causes, ratio);
          scores := scores + [Scored(idx, score)];
        }
        idx := idx + 1;
      }
      assert diffUnits[..idx] == diffUnits;
      top := Rank(scores);
    }

    /** `select_related_diff_test` */
    method SelectRelatedDiffTest(groupKey: string, causes: seq<string>, ratio: (string, string) -> real)
      returns (top: seq<Scored>)
      ensures top == Rank(TestScores(diffUnits, groupKey, causes, ratio))
    {
      var errorType := DetectErrorType(groupKey);
      var scores: seq<Scored> := [];
      var idx := 0;
      while idx < |diffUnits|
        invariant 0 <= idx <= |diffUnits|
        invariant scores == ScoresOf(diffUnits[..idx], TestScorer(errorType, causes, ratio))
      {
        var diff := diffUnits[idx];
        ScoresOfSnoc(diffUnits, TestScorer(errorType, causes, ratio), idx);
        if diff.diffType != NewFile {
          var score := ScoreTestHunk(diff, errorType, causes, ratio);
          scores := scores + [Scored(idx, score)];
        }
        idx := idx + 1;
      }
      assert diffUnits[..idx] == diffUnits;
      top := Rank(scores);
    }
  }

  /** One more hunk adds its pair unless it is a new file */
  lemma ScoresOfSnoc(units: seq<DiffUnit>, score: DiffUnit -> real, n: nat)
    requires n < |units|
    ensures ScoresOf(units[..n + 1], score) ==
      if units[n].diffType == NewFile then ScoresOf(units[..n], score)
      else ScoresOf(units[..n], score) + [Scored(n, score(units[n]))]
  {
    assert units[..n + 1][..n] == units[..n];
  }

  /** The loop body of `select_related_diff_assert` for a hunk that is not a new file */
  method ScoreAssertHunk(diff: DiffUnit, causes: seq<string>, ratio: (string, string) -> real) returns (score: real)
    ensures score == AssertScore(diff, causes, ratio)
  {
    var semantic := ScoreSemanticSimilarity(diff.content, causes, ratio);
    score := 0.0;
    if EndsWith(diff.file, ".java") {
      score := score + semantic;
    } else {
      score := score + semantic / 2.0;
    }
  }

  /** The loop body of `select_related_diff_test` for a hunk that is not a new file */
  method ScoreTestHunk(diff: DiffUnit, errorType: ErrorKind, causes: seq<string>, ratio: (string, string) -> real)
    returns (score: real)
    ensures score == TestScore(diff, errorType, causes, ratio)
  {
    var contentStr := Join(diff.content, "\n");
    score := 0.0;
    var j := 0;
    while j < |causes|
      invariant 0 <= j <= |causes|
      invariant score == TestBonus(diff, causes[..j], errorType)
    {
      var cause := causes[j];
      assert causes[..j + 1][..j] == causes[..j];
      if FileBonusKind(errorType) {
        if diff.diffType != NewFile && Basename(diff.file) == cause + ".java"
           && (Contains(contentStr, "package") || Contains(contentStr, "parameters")) {
          score := score + 10.0;
        }
      }
      j := j + 1;
    }
    assert causes[..j] == causes;
    var semantic := ScoreSemanticSimilarity(diff.content, causes, ratio);
    if EndsWith(diff.file, ".java") {
      score := score + semantic;
    } else {
      score := score + semantic / 2.0;
    }
  }
}
