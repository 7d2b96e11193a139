/**
 * The ablation batch runner: it groups the batch list by CVE, runs every
 * module on each CVE, counts the intervals of the versions each run
 * reproduced, and records the counts per CVE and module in the ablation
 * summary.
 */
module ScriptRun {
  import opened Wrappers

  /**
   * `MODULE_LIST`. The comma after "diffploit" is missing, so Python joins
   * that literal to the next one: the list has five entries, and neither
   * "diffploit" nor "diffploit-causing" is among them.
   */
  function ModuleList(): (ms: seq<string>)
    ensures |ms| == 5 && ms[0] == "diffploitdiffploit-causing"
    ensures "diffploit" !in ms && "diffploit-causing" !in ms
    ensures forall i, j :: 0 <= i < j < |ms| ==> ms[i] != ms[j]
  {
    ["diffploit" + "diffploit-causing", "diffploit-supporting", "diffploit-annealing",
     "diffploit-deepseek-only", "diffploit-chatgpt-only"]
  }

  // ---------------------------------------------------------------------------
  // Loading the batch list

  /** One item of the batch list, with its "count" already an integer */
  datatype BatchItem = BatchItem(cveId: string, version: string, count: int)

  predicate Distinct(xs: seq<string>) {
    forall i, j :: 0 <= i < j < |xs| ==> xs[i] != xs[j]
  }

  /** The CVEs of the list, each once, in the order they first appear */
  function CveOrder(items: seq<BatchItem>): (order: seq<string>)
    ensures Distinct(order)
    ensures forall k :: 0 <= k < |items| ==> items[k].cveId in order
    ensures forall c :: c in order ==> exists k :: 0 <= k < |items| && items[k].cveId == c
  {
    if items == [] then []
    else
      var p := items[..|items| - 1];
      var c := items[|items| - 1].cveId;
      var order := CveOrder(p);
      assert forall k :: 0 <= k < |p| ==> p[k] == items[k];
      if c in order then order else order + [c]
  }

  /** The versions listed for `c`, in list order, duplicates kept */
  function VersionsFor(items: seq<BatchItem>, c: string): (vs: seq<string>)
    ensures |vs| <= |items|
    ensures (forall k :: 0 <= k < |items| ==> items[k].cveId != c) ==> vs == []
  {
    if items == [] then []
    else
      var last := items[|items| - 1];
      VersionsFor(items[..|items| - 1], c) + (if last.cveId == c then [last.version] else [])
  }

  /** The item lists version `v` of `c` */
  predicate Lists(item: BatchItem, c: string, v: string) {
    item.cveId == c && item.version == v
  }

  /** The position of the last item for `(c, v)`, whose count is the one kept */
  function LastIndex(items: seq<BatchItem>, c: string, v: string): (k: Option<nat>)
    ensures k.None? ==> forall j :: 0 <= j < |items| ==> !Lists(items[j], c, v)
    ensures k.Some? ==> k.value < |items| && Lists(items[k.value], c, v)
    ensures k.Some? ==> forall j :: k.value < j < |items| ==> !Lists(items[j], c, v)
  {
    if items == [] then None
    else if Lists(items[|items| - 1], c, v) then Some(|items| - 1)
    else
      var p := items[..|items| - 1];
      assert forall j :: 0 <= j < |p| ==> p[j] == items[j];
      LastIndex(p, c, v)
  }

  /** The versions per CVE after the items `items` */
  function JobsMap(items: seq<BatchItem>): map<string, seq<string>> {
    if items == [] then map[]
    else
      var m := JobsMap(items[..|items| - 1]);
      var last := items[|items| - 1];
      m[last.cveId := (if last.cveId in m then m[last.cveId] else []) + [last.version]]
  }

  /** The count per (CVE, version) pair after the items `items` */
  function CountsMap(items: seq<BatchItem>): map<(string, string), int> {
    if items == [] then map[]
    else
      var last := items[|items| - 1];
      CountsMap(items[..|items| - 1])[(last.cveId, last.version) := last.count]
  }

  /** The versions per CVE are keyed by the CVEs of the list and hold each CVE's versions in list order */
  lemma {:induction false} JobsMapMeaning(items: seq<BatchItem>)
    ensures forall c :: c in JobsMap(items) <==> c in CveOrder(items)
    ensures forall c :: c in JobsMap(items) ==> JobsMap(items)[c] == VersionsFor(items, c)
  {
    if items != [] {
      var p := items[..|items| - 1];
      var last := items[|items| - 1];
      JobsMapMeaning(p);
      if last.cveId !in JobsMap(p) {
        assert forall k :: 0 <= k < |p| ==> p[k].cveId in CveOrder(p);
        assert VersionsFor(p, last.cveId) == [];
      }
    }
  }

  /** What one more item changes in the loaded lists */
  lemma LoadStepFacts(items: seq<BatchItem>, i: nat)
    requires i < |items|
    ensures var c := items[i].cveId; var order := CveOrder(items[..i]); var m := JobsMap(items[..i]);
      && (c in m <==> c in order)
      && CveOrder(items[..i + 1]) == (if c in order then order else order + [c])
      && JobsMap(items[..i + 1]) == m[c := (if c in m then m[c] else []) + [items[i].version]]
      && CountsMap(items[..i + 1]) == CountsMap(items[..i])[(c, items[i].version) := items[i].count]
  {
    assert items[..i + 1][..i] == items[..i] && items[..i + 1][i] == items[i];
    JobsMapMeaning(items[..i]);
  }

  /** A pair has a count exactly when some item lists it, and the count is that of the last such item */
  lemma {:induction false} CountsMapMeaning(items: seq<BatchItem>)
    ensures forall c, v :: (c, v) in CountsMap(items) <==> LastIndex(items, c, v).Some?
    ensures forall c, v :: (c, v) in CountsMap(items) ==> CountsMap(items)[(c, v)] == items[LastIndex(items, c, v).value].count
  {
    if items != [] {
      var p := items[..|items| - 1];
      CountsMapMeaning(p);
      forall c, v | !Lists(items[|items| - 1], c, v) && LastIndex(p, c, v).Some?
        ensures items[LastIndex(p, c, v).value] == p[LastIndex(p, c, v).value]
      {
      }
    }
  }

  /**
   * `load_batch_jobs_from_json` after parsing: `order` and `jobs` together are
   * the insertion-ordered dictionary of versions per CVE, `counts` the count
   * per (CVE, version) pair.
   */
  method LoadBatchJobs(items: seq<BatchItem>)
    returns (order: seq<string>, jobs: map<string, seq<string>>, counts: map<(string, string), int>)
    ensures order == CveOrder(items) && jobs == JobsMap(items) && counts == CountsMap(items)
  {
    order, jobs, counts := [], map[], map[];
    var i := 0;
    while i < |items|
      invariant 0 <= i <= |items|
      invariant order == CveOrder(items[..i])
      invariant jobs == JobsMap(items[..i])
      invariant counts == CountsMap(items[..i])
    {
      var item := items[i];
      LoadStepFacts(items, i);
      var versions := if item.cveId in jobs then jobs[item.cveId] else [];
      if item.cveId !in jobs {
        order := order + [item.cveId];
      }
      jobs := jobs[item.cveId := versions + [item.version]];
      counts := counts[(item.cveId, item.version) := item.count];
      i := i + 1;
    }
    assert items[..i] == items;
  }

  /** The total number of versions listed under the CVEs `cs` */
  function SumLengths(items: seq<BatchItem>, cs: seq<string>): nat {
    if cs == [] then 0 else |VersionsFor(items, cs[0])| + SumLengths(items, cs[1..])
  }

  /** Adding one item adds one version under each listing of its CVE */
  lemma {:induction false} SumLengthsStep(items: seq<BatchItem>, cs: seq<string>)
    requires items != []
    ensures SumLengths(items, cs) == SumLengths(items[..|items| - 1], cs) + multiset(cs)[items[|items| - 1].cveId]
  {
    if cs != [] {
      assert cs == [cs[0]] + cs[1..];
      SumLengthsStep(items, cs[1..]);
    }
  }

  lemma {:induction false} SumLengthsSnoc(items: seq<BatchItem>, cs: seq<string>, c: string)
    ensures SumLengths(items, cs + [c]) == SumLengths(items, cs) + |VersionsFor(items, c)|
  {
    if cs != [] {
      assert (cs + [c])[1..] == cs[1..] + [c];
      SumLengthsSnoc(items, cs[1..], c);
    }
  }

  lemma DistinctOnce(cs: seq<string>, c: string)
    requires Distinct(cs) && c in cs
    ensures multiset(cs)[c] == 1
  {
    var k :| 0 <= k < |cs| && cs[k] == c;
    assert cs == cs[..k] + [c] + cs[k + 1..];
    assert c !in cs[..k] && c !in cs[k + 1..];
    assert multiset(cs[..k])[c] == 0 && multiset(cs[k + 1..])[c] == 0;
  }

  /** Grouping by CVE loses no item: the versions of all CVEs together are as many as the items */
  lemma {:induction false} GroupingKeepsEveryItem(items: seq<BatchItem>)
    ensures SumLengths(items, CveOrder(items)) == |items|
  {
    if items != [] {
      var p := items[..|items| - 1];
      var c := items[|items| - 1].cveId;
      GroupingKeepsEveryItem(p);
      var order := CveOrder(items);
      SumLengthsStep(items, order);
      DistinctOnce(order, c);
      if c !in CveOrder(p) {
        SumLengthsSnoc(p, CveOrder(p), c);
        assert forall k :: 0 <= k < |p| ==> p[k].cveId in CveOrder(p);
        assert VersionsFor(p, c) == [];
      }
    }
  }

  // ---------------------------------------------------------------------------
  // Counting the intervals of one module run

  /** One entry of the run's "results": the version and its "exit_code", `None` when absent */
  datatype RunResult = RunResult(version: string, exitCode: Option<int>)

  /** A version that exited with 0 counts its listed intervals (0 when unlisted); any other exit counts 0 */
  function IntervalCount(cve: string, r: RunResult, counts: map<(string, string), int>): (n: int)
    ensures r.exitCode != Some(0) ==> n == 0
    ensures r.exitCode == Some(0) && (cve, r.version) !in counts ==> n == 0
    ensures r.exitCode == Some(0) && (cve, r.version) in counts ==> n == counts[(cve, r.version)]
  {
    if r.exitCode != Some(0) then 0
    else if (cve, r.version) in counts then counts[(cve, r.version)]
    else 0
  }

  /** The `interval_counts` dictionary after the results `rs` */
  function Intervals(cve: string, rs: seq<RunResult>, counts: map<(string, string), int>): map<string, int> {
    if rs == [] then map[]
    else
      var last := rs[|rs| - 1];
      Intervals(cve, rs[..|rs| - 1], counts)[last.version := IntervalCount(cve, last, counts)]
  }

  /** The running `sum` after the results `rs` */
  function Total(cve: string, rs: seq<RunResult>, counts: map<(string, string), int>): int {
    if rs == [] then 0
    else Total(cve, rs[..|rs| - 1], counts) + IntervalCount(cve, rs[|rs| - 1], counts)
  }

  /** The interval-count block of `run_diffploit_batch` for one module's results */
  method CountIntervals(cve: string, rs: seq<RunResult>, counts: map<(string, string), int>)
    returns (intervals: map<string, int>, total: int)
    ensures intervals == Intervals(cve, rs, counts) && total == Total(cve, rs, counts)
  {
    intervals, total := map[], 0;
    var i := 0;
    while i < |rs|
      invariant 0 <= i <= |rs|
      invariant intervals == Intervals(cve, rs[..i], counts) && total == Total(cve, rs[..i], counts)
    {
      assert rs[..i + 1][..i] == rs[..i] && rs[..i + 1][i] == rs[i];
      var n := IntervalCount(cve, rs[i], counts);
      total := total + n;
      intervals := intervals[rs[i].version := n];
      i := i + 1;
    }
    assert rs[..i] == rs;
  }

  /** The recorded versions are exactly the versions of the results */
  lemma {:induction false} IntervalsKeys(cve: string, rs: seq<RunResult>, counts: map<(string, string), int>)
    ensures Intervals(cve, rs, counts).Keys == set k | 0 <= k < |rs| :: rs[k].version
  {
    if rs != [] {
      var p := rs[..|rs| - 1];
      IntervalsKeys(cve, p, counts);
      assert (set k | 0 <= k < |rs| :: rs[k].version) == (set k | 0 <= k < |p| :: p[k].version) + {rs[|rs| - 1].version} by {
        assert forall k :: 0 <= k < |p| ==> p[k] == rs[k];
      }
    }
  }

  predicate DistinctVersions(rs: seq<RunResult>) {
    forall i, j :: 0 <= i < j < |rs| ==> rs[i].version != rs[j].version
  }

  /** The versions of a results dictionary are distinct, so each one records its own count */
  lemma {:induction false} IntervalsRecordEach(cve: string, rs: seq<RunResult>, counts: map<(string, string), int>, k: nat)
    requires DistinctVersions(rs) && k < |rs|
    ensures rs[k].version in Intervals(cve, rs, counts)
    ensures Intervals(cve, rs, counts)[rs[k].version] == IntervalCount(cve, rs[k], counts)
  {
    if k < |rs| - 1 {
      var p := rs[..|rs| - 1];
      assert p[k] == rs[k];
      assert DistinctVersions(p) by {
        assert forall a :: 0 <= a < |p| ==> p[a] == rs[a];
      }
      IntervalsRecordEach(cve, p, counts, k);
      assert rs[k].version != rs[|rs| - 1].version;
    }
  }

  /** The sum of the recorded counts of the versions of `rs` */
  function RecordedSum(m: map<string, int>, rs: seq<RunResult>): int
    requires forall k :: 0 <= k < |rs| ==> rs[k].version in m
  {
    if rs == [] then 0 else RecordedSum(m, rs[..|rs| - 1]) + m[rs[|rs| - 1].version]
  }

  /** The reported total is the sum of the recorded counts */
  lemma {:induction false} TotalIsRecordedSum(cve: string, rs: seq<RunResult>, counts: map<(string, string), int>)
    requires DistinctVersions(rs)
    ensures forall k :: 0 <= k < |rs| ==> rs[k].version in Intervals(cve, rs, counts)
    ensures Total(cve, rs, counts) == RecordedSum(Intervals(cve, rs, counts), rs)
  {
    forall k | 0 <= k < |rs|
      ensures rs[k].version in Intervals(cve, rs, counts)
              && Intervals(cve, rs, counts)[rs[k].version] == IntervalCount(cve, rs[k], counts)
    {
      IntervalsRecordEach(cve, rs, counts, k);
    }
    TotalIsCountSum(cve, rs, counts, Intervals(cve, rs, counts));
  }

  /** The total sums the counts of the results, so any map recording each count sums to it */
  lemma {:induction false} TotalIsCountSum(cve: string, rs: seq<RunResult>, counts: map<(string, string), int>, m: map<string, int>)
    requires forall k :: 0 <= k < |rs| ==> rs[k].version in m && m[rs[k].version] == IntervalCount(cve, rs[k], counts)
    ensures Total(cve, rs, counts) == RecordedSum(m, rs)
  {
    if rs != [] {
      var p := rs[..|rs| - 1];
      assert forall k :: 0 <= k < |p| ==> p[k] == rs[k];
      TotalIsCountSum(cve, p, counts, m);
    }
  }

  // ---------------------------------------------------------------------------
  // The ablation summary

  /** One module's entry of the summary, with its "intervals" and "total" keys, `None` when absent */
  datatype ModuleSummary = ModuleSummary(intervals: Option<map<string, int>>, total: Option<int>)

  type Summary = map<string, map<string, ModuleSummary>>

  /** `write_ablation_summary`, on the summary as read from (and written back to) its file */
  function WriteSummary(data: Summary, cve: string, moduleName: string, intervals: map<string, int>, total: int): (r: Summary)
    ensures cve in r && moduleName in r[cve] && r[cve][moduleName] == ModuleSummary(Some(intervals), Some(total))
    ensures r.Keys == data.Keys + {cve}
    ensures forall c :: c in data && c != cve ==> r[c] == data[c]
    ensures cve in data ==> r[cve].Keys == data[cve].Keys + {moduleName}
    ensures cve !in data ==> r[cve].Keys == {moduleName}
    ensures cve in data ==> forall m :: m in data[cve] && m != moduleName ==> r[cve][m] == data[cve][m]
  {
    var inner := if cve in data then data[cve] else map[];
    data[cve := inner[moduleName := ModuleSummary(Some(intervals), Some(total))]]
  }

  /**
   * What one module run produced: `None` when the subprocess failed,
   * `Some(None)` when no results file could be read, `Some(Some(rs))` for
   * the parsed results.
   */
  type RunOutput = Option<Option<seq<RunResult>>>

  /** The summary after the modules `ms` have run on `cve` */
  function BatchSummary(data: Summary, cve: string, ms: seq<string>, counts: map<(string, string), int>,
                        run: string -> RunOutput): Summary
  {
    if ms == [] then data
    else
      var p := BatchSummary(data, cve, ms[..|ms| - 1], counts, run);
      var m := ms[|ms| - 1];
      match run(m)
      case Some(Some(rs)) => WriteSummary(p, cve, m, Intervals(cve, rs, counts), Total(cve, rs, counts))
      case _ => p
  }

  /** `run_diffploit_batch`: each module of `MODULE_LIST` in turn; `run` stands for the subprocess and its output file */
  method RunDiffploitBatch(data: Summary, cve: string, counts: map<(string, string), int>, run: string -> RunOutput)
    returns (r: Summary)
    ensures r == BatchSummary(data, cve, ModuleList(), counts, run)
  {
    var ms := ModuleList();
    r := data;
    for i := 0 to |ms|
      invariant r == BatchSummary(data, cve, ms[..i], counts, run)
    {
      assert ms[..i + 1][..i] == ms[..i] && ms[..i + 1][i] == ms[i];
      var out := run(ms[i]);
      if out.Some? && out.value.Some? {
        var intervals, total := CountIntervals(cve, out.value.value, counts);
        r := WriteSummary(r, cve, ms[i], intervals, total);
      }
    }
    assert ms[..|ms|] == ms;
  }

  /**
   * After the batch, every module whose results were read has its own entry
   * for the CVE, which later modules do not overwrite; a module whose run
   * failed or left no results keeps the entry it had.
   */
  lemma {:induction false} BatchRecordsEachModule(data: Summary, cve: string, ms: seq<string>,
                                                  counts: map<(string, string), int>, run: string -> RunOutput, k: nat)
    requires Distinct(ms) && k < |ms|
    ensures var r := BatchSummary(data, cve, ms, counts, run);
      match run(ms[k])
      case Some(Some(rs)) =>
        cve in r && ms[k] in r[cve] && r[cve][ms[k]] == ModuleSummary(Some(Intervals(cve, rs, counts)), Some(Total(cve, rs, counts)))
      case _ =>
        ((cve in data && ms[k] in data[cve]) <==> (cve in r && ms[k] in r[cve]))
        && (cve in data && ms[k] in data[cve] ==> r[cve][ms[k]] == data[cve][ms[k]])
  {
    var p := ms[..|ms| - 1];
    assert forall j :: 0 <= j < |p| ==> p[j] == ms[j];
    if k < |ms| - 1 {
      BatchRecordsEachModule(data, cve, p, counts, run, k);
    } else if p != [] {
      assert ms[k] !in p;
      BatchKeepsOthers(data, cve, p, counts, run, ms[k]);
    }
  }

  /** A module that is not run keeps its entry */
  lemma {:induction false} BatchKeepsOthers(data: Summary, cve: string, ms: seq<string>,
                                            counts: map<(string, string), int>, run: string -> RunOutput, m: string)
    requires m !in ms
    ensures var r := BatchSummary(data, cve, ms, counts, run);
      ((cve in data && m in data[cve]) <==> (cve in r && m in r[cve]))
      && (cve in data && m in data[cve] ==> r[cve][m] == data[cve][m])
  {
    if ms != [] {
      BatchKeepsOthers(data, cve, ms[..|ms| - 1], counts, run, m);
    }
  }

  /** Because of the missing comma, a batch never writes a "diffploit" entry */
  lemma BatchNeverWritesDiffploit(data: Summary, cve: string, counts: map<(string, string), int>, run: string -> RunOutput)
    ensures var r := BatchSummary(data, cve, ModuleList(), counts, run);
      (cve in data && "diffploit" in data[cve]) <==> (cve in r && "diffploit" in r[cve])
  {
    BatchKeepsOthers(data, cve, ModuleList(), counts, run, "diffploit");
  }
}
