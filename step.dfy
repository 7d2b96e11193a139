/**
 * The step report of the ablation study: for each target version it counts,
 * in each group's log, how often the exploit was executed again after the
 * adaptation started, and writes one tab-separated row per target.
 */
module ScriptStep {
  import opened Wrappers
  import opened Strings
  import opened ScriptRun

  // ---------------------------------------------------------------------------
  // ANSI colour codes

  const Esc: char := '\U{001B}'

  /** A character of the `[0-9;]` class */
  predicate IsParam(c: char) { '0' <= c <= '9' || c == ';' }

  /** A whole colour code, `ESC [ [0-9;]* m` */
  predicate IsCode(t: string) {
    |t| >= 3 && t[0] == Esc && t[1] == '[' && t[|t| - 1] == 'm'
    && forall i :: 2 <= i < |t| - 1 ==> IsParam(t[i])
  }

  /** The end of the run of `[0-9;]` characters that starts at `k` */
  function ParamRun(s: string, k: nat): (e: nat)
    requires k <= |s|
    ensures k <= e <= |s| && (e == |s| || !IsParam(s[e]))
    ensures forall i :: k <= i < e ==> IsParam(s[i])
    decreases |s| - k
  {
    if k < |s| && IsParam(s[k]) then ParamRun(s, k + 1) else k
  }

  /** The length of the colour code that the pattern matches at the start of `s`, if any */
  function CodeAt(s: string): (n: Option<nat>)
    ensures n.Some? ==> n.value <= |s| && IsCode(s[..n.value])
    ensures n.None? ==> forall m :: 0 <= m <= |s| ==> !IsCode(s[..m])
  {
    if 2 <= |s| && s[0] == Esc && s[1] == '[' then
      var e := ParamRun(s, 2);
      if e < |s| && s[e] == 'm' then
        assert forall i :: 2 <= i < e ==> s[..e + 1][i] == s[i];
        Some(e + 1)
      else
        assert forall m :: 3 <= m <= |s| && IsCode(s[..m]) ==> IsParam(s[..m][e]) || m - 1 == e;
        None
    else None
  }

  /** A colour code can only be matched in one way: `m` ends it */
  lemma CodeUnique(s: string, m1: nat, m2: nat)
    requires m1 <= m2 <= |s| && IsCode(s[..m1]) && IsCode(s[..m2])
    ensures m1 == m2
  {
  }

  /** `remove_ansi`: deletes the colour codes the pattern finds, scanning from left to right */
  function RemoveAnsi(s: string): (r: string)
    ensures |r| <= |s|
    ensures Esc !in s ==> r == s
    decreases |s|
  {
    if s == [] then []
    else
      match CodeAt(s)
      case Some(n) => RemoveAnsi(s[n..])
      case None =>
        assert s == [s[0]] + s[1..];
        [s[0]] + RemoveAnsi(s[1..])
  }

  /** A leading colour code disappears */
  lemma RemoveAnsiCode(p: string, s: string)
    requires forall i :: 0 <= i < |p| ==> IsParam(p[i])
    ensures RemoveAnsi([Esc, '['] + p + ['m'] + s) == RemoveAnsi(s)
  {
    var t := [Esc, '['] + p + ['m'] + s;
    assert IsCode(t[..|p| + 3]);
    var n := CodeAt(t);
    if n.Some? {
      if n.value <= |p| + 3 { CodeUnique(t, n.value, |p| + 3); } else { CodeUnique(t, |p| + 3, n.value); }
    }
    assert t[|p| + 3..] == s;
  }

  /** A character other than ESC is kept */
  lemma RemoveAnsiKeeps(c: char, s: string)
    requires c != Esc
    ensures RemoveAnsi([c] + s) == [c] + RemoveAnsi(s)
  {
    assert ([c] + s)[1..] == s;
  }

  // ---------------------------------------------------------------------------
  // Executions after the adaptation

  const StartMarker: string := "[Adapter] Start adapting exploit from"

  function ExecPattern(cve: string, version: string): (p: string)
    ensures p != []
  {
    "[Executor] Executing exploit for " + cve + " on version " + version + "..."
  }

  /** A line that starts the adaptation of `version`; the version is matched as a substring */
  predicate IsStartLine(line: string, version: string) {
    Contains(line, StartMarker) && Contains(line, version)
  }

  /** The first start line of `version` */
  function FirstStart(lines: seq<string>, version: string): (k: Option<nat>)
    ensures k.Some? ==> k.value < |lines| && IsStartLine(lines[k.value], version)
    ensures k.Some? ==> forall j :: 0 <= j < k.value ==> !IsStartLine(lines[j], version)
    ensures k.None? ==> forall j :: 0 <= j < |lines| ==> !IsStartLine(lines[j], version)
  {
    if lines == [] then None
    else if IsStartLine(lines[0], version) then Some(0)
    else
      match FirstStart(lines[1..], version)
      case None => None
      case Some(k) => Some(k + 1)
  }

  /**
   * The re-executions after the adaptation of `version` started: one less
   * than the executions counted from the first start line on, and 0 when
   * there is no start line.
   */
  function CountAfterAdaptation(log: string, cve: string, version: string): (n: nat)
    ensures FirstStart(SplitLines(log), version).None? ==> n == 0
    ensures FirstStart(SplitLines(log), version).Some? ==>
              var lines := SplitLines(log);
              var c := Count(Join(lines[FirstStart(lines, version).value..], "\n"), ExecPattern(cve, version));
              n + 1 == c || (c == 0 && n == 0)
  {
    var lines := SplitLines(log);
    match FirstStart(lines, version)
    case None => 0
    case Some(i) =>
      var c := Count(Join(lines[i..], "\n"), ExecPattern(cve, version));
      if c == 0 then 0 else c - 1
  }

  /** `count_reproduction_after_adaptation` */
  method CountReproductionAfterAdaptation(log: string, cve: string, version: string) returns (n: int)
    ensures n == CountAfterAdaptation(log, cve, version)
  {
    var lines := SplitLines(log);
    var start: Option<nat> := None;
    var i := 0;
    while i < |lines|
      invariant 0 <= i <= |lines|
      invariant forall j :: 0 <= j < i ==> !IsStartLine(lines[j], version)
    {
      if Contains(lines[i], StartMarker) && Contains(lines[i], version) {
        start := Some(i);
        break;
      }
      i := i + 1;
    }
    if start.None? {
      NoStartLine(lines, version);
      return 0;
    }
    FirstStartAt(lines, version, start.value);
    var count: int := Count(Join(lines[start.value..], "\n"), ExecPattern(cve, version));
    n := if count - 1 > 0 then count - 1 else 0;
  }

  lemma FirstStartAt(lines: seq<string>, version: string, i: nat)
    requires i < |lines| && IsStartLine(lines[i], version)
    requires forall j :: 0 <= j < i ==> !IsStartLine(lines[j], version)
    ensures FirstStart(lines, version) == Some(i)
  {
    var k := FirstStart(lines, version);
    assert k.Some? && !(k.value < i) && !(i < k.value);
  }

  lemma NoStartLine(lines: seq<string>, version: string)
    requires forall j :: 0 <= j < |lines| ==> !IsStartLine(lines[j], version)
    ensures FirstStart(lines, version) == None
  {
  }

  /** A start line of a version is also one of each of its prefixes: "1.2" matches a "1.21" line */
  lemma StartLineOfPrefix(line: string, v: string, w: string)
    requires IsStartLine(line, v + w)
    ensures IsStartLine(line, v)
  {
    ContainsIff(line, v + w);
    var k: nat :| OccursAt(line, v + w, k);
    assert line[k..k + |v|] == (v + w)[..|v|] == v;
    ContainsAt(line, v, k);
  }

  // ---------------------------------------------------------------------------
  // Migration lookup

  /** The summary key of a group: three names map explicitly, the others are lowercased */
  function JsonKey(group: string): string {
    if group == "Diffploit-Causing" then "diffploit-causing"
    else if group == "Diffploit-Supporting" then "diffploit-supporting"
    else if group == "Diffploit-Annealing" then "diffploit-annealing"
    else Lower(group)
  }

  /** The explicit entries agree with lowercasing, so every group's key is its lowercased name */
  lemma JsonKeyIsLower(group: string)
    ensures JsonKey(group) == Lower(group)
  {
    if group == "Diffploit-Causing" {
      assert Lower(group) == "diffploit-causing";
    } else if group == "Diffploit-Supporting" {
      assert Lower(group) == "diffploit-supporting";
    } else if group == "Diffploit-Annealing" {
      assert Lower(group) == "diffploit-annealing";
    }
  }

  /** `is_version_migrated`: the version has a positive interval count in the group's entry for the CVE */
  function IsVersionMigrated(data: Summary, cve: string, version: string, group: string): (b: bool)
    ensures b ==> cve in data && JsonKey(group) in data[cve]
  {
    if cve !in data then false
    else if JsonKey(group) !in data[cve] then false
    else
      var intervals := data[cve][JsonKey(group)].intervals;
      var m := if intervals.Some? then intervals.value else map[];
      version in m && m[version] > 0
  }

  /**
   * Reading back what the batch runner wrote: right after a module's summary
   * is written, a version counts as migrated for the group of that module
   * exactly when it has a positive interval count.
   */
  lemma MigratedAfterWrite(data: Summary, cve: string, group: string, intervals: map<string, int>, total: int, v: string)
    ensures IsVersionMigrated(WriteSummary(data, cve, JsonKey(group), intervals, total), cve, v, group)
            <==> v in intervals && intervals[v] > 0
  {
  }

  /** Writing another CVE's summary does not change whether a version is migrated */
  lemma MigratedOtherCve(data: Summary, cve: string, other: string, m: string, intervals: map<string, int>, total: int,
                         v: string, group: string)
    requires other != cve
    ensures IsVersionMigrated(WriteSummary(data, other, m, intervals, total), cve, v, group)
            == IsVersionMigrated(data, cve, v, group)
  {
  }

  // ---------------------------------------------------------------------------
  // The report

  const GroupOrder: seq<string> := ["Diffploit", "Diffploit-Causing", "Diffploit-Supporting", "Diffploit-Annealing"]

  /** The log file of a group for a CVE */
  function LogPath(group: string, cve: string): string {
    PathJoin(PathJoin(PathJoin("result", group), "log"), cve + ".txt")
  }

  /** `get_log_count`: `logs` maps each existing log path to its text */
  function LogCount(logs: map<string, string>, group: string, cve: string, version: string): (n: nat)
    ensures LogPath(group, cve) !in logs ==> n == 0
  {
    var path := LogPath(group, cve);
    if path in logs then CountAfterAdaptation(RemoveAnsi(logs[path]), cve, version) else 0
  }

  method GetLogCount(logs: map<string, string>, group: string, cve: string, version: string) returns (n: int)
    ensures n == LogCount(logs, group, cve, version)
  {
    var path := LogPath(group, cve);
    if path !in logs {
      return 0;
    }
    n := CountReproductionAfterAdaptation(RemoveAnsi(logs[path]), cve, version);
  }

  /** The cell of one group: the main group always gets its count; another gets 999 unless migrated */
  function Cell(data: Summary, logs: map<string, string>, group: string, cve: string, version: string): nat {
    if group == "Diffploit" then LogCount(logs, group, cve, version)
    else if !IsVersionMigrated(data, cve, version, group) then 999
    else LogCount(logs, group, cve, version)
  }

  /** The row of one target: one cell per group, in group order */
  function Row(data: Summary, logs: map<string, string>, cve: string, version: string): (row: seq<nat>)
    ensures |row| == |GroupOrder|
  {
    seq(|GroupOrder|, k requires 0 <= k < |GroupOrder| => Cell(data, logs, GroupOrder[k], cve, version))
  }

  /** The first column is always the main group's count; the others are 999 unless migrated */
  lemma RowColumns(data: Summary, logs: map<string, string>, cve: string, version: string)
    ensures Row(data, logs, cve, version)[0] == LogCount(logs, "Diffploit", cve, version)
    ensures forall k :: 1 <= k < |GroupOrder| ==>
              Row(data, logs, cve, version)[k] ==
                if IsVersionMigrated(data, cve, version, GroupOrder[k]) then LogCount(logs, GroupOrder[k], cve, version) else 999
  {
    var row := Row(data, logs, cve, version);
    assert row[0] == Cell(data, logs, "Diffploit", cve, version);
    forall k | 1 <= k < |GroupOrder|
      ensures row[k] == if IsVersionMigrated(data, cve, version, GroupOrder[k]) then LogCount(logs, GroupOrder[k], cve, version) else 999
    {
      assert |GroupOrder[k]| != |"Diffploit"|;
      assert row[k] == Cell(data, logs, GroupOrder[k], cve, version);
      CellOfOther(data, logs, GroupOrder[k], cve, version);
    }
  }

  /** Outside the main group, a cell is 999 unless the version is migrated */
  lemma CellOfOther(data: Summary, logs: map<string, string>, group: string, cve: string, version: string)
    requires group != "Diffploit"
    ensures Cell(data, logs, group, cve, version)
            == if IsVersionMigrated(data, cve, version, group) then LogCount(logs, group, cve, version) else 999
  {
  }

  /** The row up to column `k + 1` extends the row up to `k` by that column's cell */
  lemma RowPrefixStep(data: Summary, logs: map<string, string>, cve: string, version: string, k: nat)
    requires k < |GroupOrder|
    ensures Row(data, logs, cve, version)[..k + 1]
            == Row(data, logs, cve, version)[..k] + [Cell(data, logs, GroupOrder[k], cve, version)]
  {
  }

  /** The group loop of `main` for one target */
  method RowFor(data: Summary, logs: map<string, string>, cve: string, version: string) returns (row: seq<nat>)
    ensures row == Row(data, logs, cve, version)
  {
    row := [];
    for k := 0 to |GroupOrder|
      invariant row == Row(data, logs, cve, version)[..k]
    {
      var group := GroupOrder[k];
      var count: int;
      if group == "Diffploit" {
        count := GetLogCount(logs, group, cve, version);
      } else if !IsVersionMigrated(data, cve, version, group) {
        count := 999;
      } else {
        count := GetLogCount(logs, group, cve, version);
      }
      assert count == Cell(data, logs, group, cve, version);
      RowPrefixStep(data, logs, cve, version, k);
      row := row + [count];
    }
  }

  /** A target of the batch list */
  datatype Target = Target(cveId: string, version: string)

  /** The written line of a row: the counts in decimal, separated by tabs */
  function RowLine(row: seq<nat>): string {
    Join(seq(|row|, i requires 0 <= i < |row| => NatString(row[i])), "\t") + "\n"
  }

  /** The counts of a written line */
  function ParseRow(line: string): seq<int> {
    var body := if line != [] && line[|line| - 1] == '\n' then line[..|line| - 1] else line;
    var cells := Split(body, '\t');
    seq(|cells|, i requires 0 <= i < |cells| =>
      if forall j :: 0 <= j < |cells[i]| ==> IsDigit(cells[i][j]) then DecimalValue(cells[i]) else -1)
  }

  /** Each written line reads back as its row */
  lemma RowLineRoundTrip(row: seq<nat>)
    requires row != []
    ensures ParseRow(RowLine(row)) == row
  {
    var cells := seq(|row|, i requires 0 <= i < |row| => NatString(row[i]));
    var line := RowLine(row);
    assert line[..|line| - 1] == Join(cells, "\t");
    forall i | 0 <= i < |cells|
      ensures '\t' !in cells[i] && DecimalValue(cells[i]) == row[i]
    {
      NatStringValue(row[i]);
      assert forall j :: 0 <= j < |cells[i]| ==> IsDigit(cells[i][j]);
    }
    SplitJoin(cells, '\t');
  }

  /** The report text for the targets `ts` */
  function Report(data: Summary, logs: map<string, string>, ts: seq<Target>): string {
    if ts == [] then []
    else
      var t := ts[|ts| - 1];
      Report(data, logs, ts[..|ts| - 1])
      + RowLine(Row(data, logs, t.cveId, t.version))
  }

  /** `main`, after the batch list and the summary are loaded: one row per target */
  method StepReport(data: Summary, logs: map<string, string>, targets: seq<Target>) returns (out: string)
    ensures out == Report(data, logs, targets)
  {
    out := [];
    for i := 0 to |targets|
      invariant out == Report(data, logs, targets[..i])
    {
      assert targets[..i + 1][..i] == targets[..i] && targets[..i + 1][i] == targets[i];
      var row := RowFor(data, logs, targets[i].cveId, targets[i].version);
      out := out + RowLine(row);
    }
    assert targets[..|targets|] == targets;
  }
}
