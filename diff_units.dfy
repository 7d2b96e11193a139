/**
 * The diff store: a git-style unified diff, read line by line, becomes a list
 * of hunks (`DiffUnit`), each with its file, its `@@` header, its lines and the
 * kind of change; hunks are then looked up by position.
 */
module DiffUnits {
  import opened Wrappers
  import opened Strings

  datatype DiffType = Modified | NewFile | DeletedFile

  /** `DiffType.X.name` */
  function TypeName(t: DiffType): string {
    match t
    case Modified => "MODIFIED"
    case NewFile => "NEW_FILE"
    case DeletedFile => "DELETED_FILE"
  }

  /** One hunk: the file it touches, its stripped `@@` line, its right-stripped lines */
  datatype DiffUnit = DiffUnit(file: string, hunkHeader: string, content: seq<string>, diffType: DiffType)

  // ---------------------------------------------------------------------------
  // Loading

  /** The loop variables of `_load_diff`; `units` holds the hunks appended so far */
  datatype Loader = Loader(
    file: Option<string>, hunk: Option<string>, content: seq<string>,
    candidate: Option<string>, diffType: DiffType, units: seq<DiffUnit>)

  const Start := Loader(None, None, [], None, Modified, [])

  /** Python truthiness of an optional string */
  predicate Truthy(s: Option<string>) { s.Some? && s.value != [] }

  /** `current_file and current_hunk and current_content` */
  predicate Ready(st: Loader) { Truthy(st.file) && Truthy(st.hunk) && st.content != [] }

  /** The hunks once the open one, if complete, is appended with type `t` */
  function Flushed(st: Loader, t: DiffType): seq<DiffUnit> {
    if Ready(st) then st.units + [DiffUnit(st.file.value, st.hunk.value, st.content, t)] else st.units
  }

  /** One iteration of the loop of `_load_diff` */
  function Feed(st: Loader, line: string): Loader {
    if StartsWith(line, "diff --git") then Loader(None, None, [], None, Modified, Flushed(st, st.diffType))
    else if StartsWith(line, "deleted file mode") then st.(diffType := DeletedFile)
    else if StartsWith(line, "new file mode") then st.(diffType := NewFile)
    else if StartsWith(line, "--- a/") then st.(candidate := Some(ReplaceAll(Strip(line), "--- a/", "")))
    else if StartsWith(line, "+++ b/") then st.(file := Some(ReplaceAll(Strip(line), "+++ b/", "")))
    else if StartsWith(line, "+++ /dev/null") then
      (if st.diffType == DeletedFile then st.(file := st.candidate) else st)
    else if StartsWith(line, "@@") then st.(units := Flushed(st, Modified), hunk := Some(Strip(line)), content := [])
    else if Truthy(st.hunk) then st.(content := st.content + [TrimEnd(line)])
    else st
  }

  /** The loop variables after the given lines */
  function FeedAll(lines: seq<string>): Loader {
    if lines == [] then Start else Feed(FeedAll(lines[..|lines| - 1]), lines[|lines| - 1])
  }

  /** `_load_diff` over the lines `readlines()` returns: the loop, then the last flush (as MODIFIED) */
  function LoadUnits(lines: seq<string>): seq<DiffUnit> {
    Flushed(FeedAll(lines), Modified)
  }

  predicate NoTrailingSpace(l: string) { l == [] || !IsSpace(l[|l| - 1]) }

  /** What every stored hunk satisfies */
  predicate GoodUnit(u: DiffUnit) {
    u.file != [] && StartsWith(u.hunkHeader, "@@") && u.content != []
    && forall i :: 0 <= i < |u.content| ==> NoTrailingSpace(u.content[i])
  }

  predicate GoodLoader(st: Loader) {
    (forall i :: 0 <= i < |st.units| ==> GoodUnit(st.units[i]))
    && (st.hunk.Some? ==> StartsWith(st.hunk.value, "@@"))
    && (forall i :: 0 <= i < |st.content| ==> NoTrailingSpace(st.content[i]))
  }

  lemma FlushedGood(st: Loader, t: DiffType)
    requires GoodLoader(st)
    ensures forall i :: 0 <= i < |Flushed(st, t)| ==> GoodUnit(Flushed(st, t)[i])
  {
  }

  lemma FeedGood(st: Loader, line: string)
    requires GoodLoader(st)
    ensures GoodLoader(Feed(st, line))
  {
    if StartsWith(line, "diff --git") {
      FlushedGood(st, st.diffType);
    } else if StartsWith(line, "deleted file mode") || StartsWith(line, "new file mode")
              || StartsWith(line, "--- a/") || StartsWith(line, "+++ b/") || StartsWith(line, "+++ /dev/null") {
    } else if StartsWith(line, "@@") {
      FlushedGood(st, Modified);
      StripKeepsPrefix(line, "@@");
    } else if Truthy(st.hunk) {
      TrimEndSpec(line);
      ContentGood(st.content, TrimEnd(line));
    }
  }

  /** Appending a right-stripped line keeps every line free of trailing space */
  lemma ContentGood(content: seq<string>, l: string)
    requires forall i :: 0 <= i < |content| ==> NoTrailingSpace(content[i])
    requires NoTrailingSpace(l)
    ensures forall i :: 0 <= i < |content + [l]| ==> NoTrailingSpace((content + [l])[i])
  {
  }

  /**
   * Every loaded hunk has a non-empty file, a header starting with `@@`, at
   * least one line, and no line ending in white space.
   */
  lemma {:induction false} LoadUnitsGood(lines: seq<string>)
    ensures forall i :: 0 <= i < |LoadUnits(lines)| ==> GoodUnit(LoadUnits(lines)[i])
  {
    LoaderGood(lines);
    FlushedGood(FeedAll(lines), Modified);
  }

  lemma {:induction false} LoaderGood(lines: seq<string>)
    ensures GoodLoader(FeedAll(lines))
  {
    if lines != [] {
      LoaderGood(lines[..|lines| - 1]);
      FeedGood(FeedAll(lines[..|lines| - 1]), lines[|lines| - 1]);
    }
  }

  /**
   * A line appends at most one hunk after those already there, and only a
   * `diff --git` line gives it the pending type: a hunk closed by `@@` is MODIFIED.
   */
  lemma FeedAppends(st: Loader, line: string)
    ensures st.units <= Feed(st, line).units
    ensures |Feed(st, line).units| <= |st.units| + 1
    ensures |Feed(st, line).units| == |st.units| + 1 ==>
      Feed(st, line).units[|st.units|].diffType == (if StartsWith(line, "diff --git") then st.diffType else Modified)
  {
  }

  /** Loading keeps the hunks in input order: the hunks of a prefix come first */
  lemma {:induction false} LoadKeepsOrder(lines: seq<string>, n: nat)
    requires n <= |lines|
    ensures FeedAll(lines[..n]).units <= FeedAll(lines).units
    decreases |lines| - n
  {
    if n < |lines| {
      var longer := lines[..n + 1];
      assert longer[..n] == lines[..n];
      FeedAppends(FeedAll(lines[..n]), lines[n]);
      LoadKeepsOrder(lines, n + 1);
      assert FeedAll(longer) == Feed(FeedAll(lines[..n]), lines[n]);
    } else {
      assert lines[..n] == lines;
    }
  }

  /** The hunk still open at the end of input is stored as MODIFIED, whatever type was pending */
  lemma LastHunkModified(lines: seq<string>)
    requires Ready(FeedAll(lines))
    ensures var us := LoadUnits(lines);
      |us| == |FeedAll(lines).units| + 1 && us[|us| - 1].diffType == Modified
  {
  }

  /** A new file at the end of the diff is stored as MODIFIED */
  lemma NewFileAtEndIsModified()
    ensures LoadUnits(["diff --git a/A.java b/A.java\n", "new file mode 100644\n",
      "+++ b/A.java\n", "@@ -0,0 +1 @@\n", "+class A {}\n"])
      == [DiffUnit("A.java", "@@ -0,0 +1 @@", ["+class A {}"], Modified)]
  {
    var lines := ["diff --git a/A.java b/A.java\n", "new file mode 100644\n",
      "+++ b/A.java\n", "@@ -0,0 +1 @@\n", "+class A {}\n"];
    assert lines[..0] == [] && lines[..1][..0] == [];
    assert lines[..2][..1] == lines[..1] && lines[..3][..2] == lines[..2];
    assert lines[..4][..3] == lines[..3] && lines[..5][..4] == lines[..4] && lines[..5] == lines;
    ExampleGitLine(Start);
    assert FeedAll(lines[..1]) == Start;
    ExampleNewFileLine(Start);
    var s2 := Start.(diffType := NewFile);
    assert FeedAll(lines[..2]) == s2;
    ExampleFileLine(s2);
    var s3 := s2.(file := Some("A.java"));
    assert FeedAll(lines[..3]) == s3;
    ExampleHunkLine(s3);
    var s4 := s3.(hunk := Some("@@ -0,0 +1 @@"));
    assert Flushed(s3, Modified) == [];
    assert FeedAll(lines[..4]) == s4;
    ExampleContentLine(s4);
    var s5 := s4.(content := ["+class A {}"]);
    assert FeedAll(lines) == s5;
    assert Ready(s5);
  }

  /** A `diff --git` line flushes the open hunk with the pending type and resets file, hunk, content and type */
  lemma ExampleGitLine(st: Loader)
    ensures Feed(st, "diff --git a/A.java b/A.java\n") == Loader(None, None, [], None, Modified, Flushed(st, st.diffType))
  {
    assert StartsWith("diff --git a/A.java b/A.java\n", "diff --git");
  }

  lemma ExampleNewFileLine(st: Loader)
    ensures Feed(st, "new file mode 100644\n") == st.(diffType := NewFile)
  {
    var l := "new file mode 100644\n";
    assert l[0] == 'n' && "diff --git"[0] == 'd' && "deleted file mode"[0] == 'd';
    assert StartsWith(l, "new file mode");
  }

  lemma ExampleFileLine(st: Loader)
    ensures Feed(st, "+++ b/A.java\n") == st.(file := Some("A.java"))
  {
    var l := "+++ b/A.java\n";
    assert l[0] == '+' && "--- a/"[0] == '-';
    assert StartsWith(l, "+++ b/");
    ExampleFileStrip();
    ExampleFileReplace();
  }

  lemma ExampleFileStrip()
    ensures Strip("+++ b/A.java\n") == "+++ b/A.java"
  {
    assert TrimEnd("+++ b/A.java\n") == "+++ b/A.java";
  }

  lemma ExampleFileReplace()
    ensures ReplaceAll("+++ b/A.java", "+++ b/", "") == "A.java"
  {
    assert !Contains("A.java", "+++ b/") by {
      assert Find("A.java", "+++ b/", 1) == None;
      assert "A.java"[0..6] != "+++ b/" by { assert "A.java"[0] == 'A'; }
    }
  }

  lemma ExampleHunkLine(st: Loader)
    ensures Feed(st, "@@ -0,0 +1 @@\n")
      == st.(units := Flushed(st, Modified), hunk := Some("@@ -0,0 +1 @@"), content := [])
  {
    var l := "@@ -0,0 +1 @@\n";
    assert l[0] == '@';
    assert StartsWith(l, "@@");
    assert TrimEnd(l) == "@@ -0,0 +1 @@";
  }

  lemma ExampleContentLine(st: Loader)
    requires Truthy(st.hunk)
    ensures Feed(st, "+class A {}\n") == st.(content := st.content + ["+class A {}"])
  {
    var l := "+class A {}\n";
    assert l[0] == '+' && l[1] == 'c';
    assert TrimEnd(l) == "+class A {}";
  }

  // ---------------------------------------------------------------------------
  // Lookup

  /** The operation that undoes a hunk: a new file is reported as deleted and vice versa */
  function ReversedType(t: DiffType): (r: DiffType) {
    match t
    case Modified => Modified
    case NewFile => DeletedFile
    case DeletedFile => NewFile
  }

  /** Reversal swaps NEW_FILE and DELETED_FILE, fixes MODIFIED, and undoes itself */
  lemma ReversedTypeInvolution(t: DiffType)
    ensures ReversedType(ReversedType(t)) == t
    ensures ReversedType(t) == Modified <==> t == Modified
    ensures t != Modified ==> ReversedType(t) != t
  {
  }

  /** At most this many hunk lines are rendered */
  const MaxRenderedLines := 100

  function Min(a: int, b: int): int { if a <= b then a else b }

  /** The first line of a rendered hunk */
  function RenderHeader(u: DiffUnit): string {
    "Operation: " + TypeName(ReversedType(u.diffType)) + ", File: " + u.file + ", Hunk: " + u.hunkHeader
  }

  /** The lines of a hunk that are rendered (every line is kept unchanged, whatever its sign) */
  function RenderedLines(u: DiffUnit): (r: seq<string>)
    ensures |r| <= MaxRenderedLines && r <= u.content
    ensures |r| == Min(MaxRenderedLines, |u.content|)
  {
    u.content[..Min(MaxRenderedLines, |u.content|)]
  }

  /** `get_diff_by_id`: the reversed-operation header and at most 100 lines, or None */
  function RenderById(units: seq<DiffUnit>, id: Option<int>): (r: Option<string>)
    ensures r.Some? <==> id.Some? && 0 <= id.value < |units|
  {
    if id.None? || !(0 <= id.value < |units|) then None
    else
      var u := units[id.value];
      Some(RenderHeader(u) + "\n" + Join(RenderedLines(u), "\n"))
  }

  predicate NoNewline(s: string) { '\n' !in s }

  /**
   * The rendered text splits at newlines into its header line and the hunk's
   * first lines (one empty line for an empty hunk), when no field holds a newline.
   */
  lemma RenderSplits(units: seq<DiffUnit>, id: nat)
    requires id < |units|
    requires NoNewline(units[id].file) && NoNewline(units[id].hunkHeader)
    requires forall i :: 0 <= i < |units[id].content| ==> NoNewline(units[id].content[i])
    ensures var lines := RenderedLines(units[id]);
      Split(RenderById(units, Some(id)).value, '\n')
        == [RenderHeader(units[id])] + (if lines == [] then [""] else lines)
  {
    var u := units[id];
    var lines := RenderedLines(u);
    var h := RenderHeader(u);
    assert NoNewline(TypeName(ReversedType(u.diffType)));
    assert NoNewline(h);
    var pieces := [h] + (if lines == [] then [""] else lines);
    if lines == [] {
      assert Join(pieces, "\n") == h + "\n" + "";
    } else {
      JoinCons(h, lines, "\n");
    }
    assert forall i :: 0 <= i < |pieces| ==> '\n' !in pieces[i];
    SplitJoin(pieces, '\n');
  }

  /** `get_diff_brief_by_id`: file, header and all lines in range, placeholders otherwise */
  function BriefById(units: seq<DiffUnit>, id: int): (r: (string, string, seq<string>))
    ensures 0 <= id < |units| ==> r == (units[id].file, units[id].hunkHeader, units[id].content)
    ensures !(0 <= id < |units|) ==> r == ("<unknown>", "<none>", [])
  {
    if 0 <= id < |units| then (units[id].file, units[id].hunkHeader, units[id].content)
    else ("<unknown>", "<none>", [])
  }
}
