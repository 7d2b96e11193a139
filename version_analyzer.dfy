/**
 * The CVE processor: it finds the record of one CVE in the adaptation list,
 * derives the affected and already reproduced versions from it, and lists
 * every released version of the library, from a cache file when there is one.
 */
module VersionAnalyzer {
  import opened Wrappers
  import opened Strings

  /**
   * One record of the adaptation list. A key that is absent is `None`; JSON
   * `null` values are not distinguished from absent keys.
   */
  datatype CveEntry = CveEntry(
    cve: Option<string>,
    affected: Option<seq<string>>,
    requiredAdaptVersions: Option<seq<string>>,
    groupId: Option<string>,
    artifactId: Option<string>,
    reproducedBehavior: Option<string>,
    reproducedDetail: Option<seq<string>>,
    repositoryUrl: Option<string>,
    owner: Option<string>,
    repo: Option<string>)

  // ---------------------------------------------------------------------------
  // Finding the record

  /** The position of the first record whose "CVE" is `cveId` */
  function FindEntry(data: seq<CveEntry>, cveId: string): (k: Option<nat>)
    ensures k.Some? ==> k.value < |data| && data[k.value].cve == Some(cveId)
                        && forall j :: 0 <= j < k.value ==> data[j].cve != Some(cveId)
    ensures k.None? ==> forall j :: 0 <= j < |data| ==> data[j].cve != Some(cveId)
  {
    if data == [] then None
    else if data[0].cve == Some(cveId) then Some(0)
    else
      match FindEntry(data[1..], cveId)
      case None => None
      case Some(k) => Some(k + 1)
  }

  /**
   * `_load_cve_data`: `data` is the parsed adaptation file, `None` when the
   * file does not exist. The first matching record is returned; no match is
   * a ValueError.
   */
  method LoadCveData(data: Option<seq<CveEntry>>, cveId: string) returns (r: Result<CveEntry, string>)
    ensures data.None? ==> r == Failure("FileNotFoundError")
    ensures data.Some? && FindEntry(data.value, cveId).Some? ==> r == Success(data.value[FindEntry(data.value, cveId).value])
    ensures data.Some? && FindEntry(data.value, cveId).None? ==> r == Failure("ValueError")
  {
    if data.None? {
      return Failure("FileNotFoundError");
    }
    var entries := data.value;
    var i := 0;
    while i < |entries|
      invariant 0 <= i <= |entries|
      invariant forall j :: 0 <= j < i ==> entries[j].cve != Some(cveId)
    {
      if entries[i].cve == Some(cveId) {
        FirstMatchIsFound(entries, cveId, i);
        return Success(entries[i]);
      }
      i := i + 1;
    }
    NoMatchIsNotFound(entries, cveId);
    return Failure("ValueError");
  }

  /** A record that matches and is preceded by no match is the one `FindEntry` names */
  lemma FirstMatchIsFound(data: seq<CveEntry>, cveId: string, i: nat)
    requires i < |data| && data[i].cve == Some(cveId)
    requires forall j :: 0 <= j < i ==> data[j].cve != Some(cveId)
    ensures FindEntry(data, cveId) == Some(i)
  {
    var k := FindEntry(data, cveId);
    assert k.Some?;
    assert !(k.value < i) && !(i < k.value);
  }

  lemma NoMatchIsNotFound(data: seq<CveEntry>, cveId: string)
    requires forall j :: 0 <= j < |data| ==> data[j].cve != Some(cveId)
    ensures FindEntry(data, cveId) == None
  {
  }

  // ---------------------------------------------------------------------------
  // Versions of the record

  /** `entry.get(key, [])` */
  function OrEmpty(xs: Option<seq<string>>): seq<string> {
    if xs.Some? then xs.value else []
  }

  /** `set(xs)` */
  function SetOf(xs: seq<string>): set<string> {
    set x | x in xs
  }

  /** `[v for v in all if v in keep]` */
  function KeepIn(all: seq<string>, keep: set<string>): (r: seq<string>)
    ensures |r| <= |all|
    ensures forall v :: v in r <==> v in all && v in keep
  {
    if all == [] then []
    else
      assert all == [all[0]] + all[1..];
      (if all[0] in keep then [all[0]] else []) + KeepIn(all[1..], keep)
  }

  /** The filter works element by element, so it keeps the order of `all` */
  lemma {:induction false} KeepInConcat(a: seq<string>, b: seq<string>, keep: set<string>)
    ensures KeepIn(a + b, keep) == KeepIn(a, keep) + KeepIn(b, keep)
  {
    if a == [] {
      assert a + b == b;
    } else {
      assert (a + b)[0] == a[0] && (a + b)[1..] == a[1..] + b;
      KeepInConcat(a[1..], b, keep);
    }
  }

  /** The filter keeps every copy of a kept version and no copy of another */
  lemma {:induction false} KeepInCount(all: seq<string>, keep: set<string>, v: string)
    ensures multiset(KeepIn(all, keep))[v] == if v in keep then multiset(all)[v] else 0
  {
    if all != [] {
      assert all == [all[0]] + all[1..];
      KeepInCount(all[1..], keep, v);
    }
  }

  /** Line 50: the released versions, in release order, that are affected and need no adaptation */
  function ReproducedAmong(all: seq<string>, entry: CveEntry): seq<string> {
    KeepIn(all, SetOf(OrEmpty(entry.affected)) - SetOf(OrEmpty(entry.requiredAdaptVersions)))
  }

  // ---------------------------------------------------------------------------
  // Names derived from the coordinates

  const CacheDir: string := "/PoCAdaptation/library"

  /** `f"{group_id.replace('.', '_')}_{artifact_id}.txt"` */
  function CacheFileName(groupId: string, artifactId: string): (name: string)
    ensures |name| == |groupId| + |artifactId| + 5
    ensures '.' !in name[..|groupId|] && name[|groupId|] == '_'
    ensures name[|groupId| + 1..|groupId| + 1 + |artifactId|] == artifactId && EndsWith(name, ".txt")
  {
    var r := ReplaceChar(groupId, '.', '_') + "_" + artifactId + ".txt";
    assert r[..|groupId|] == ReplaceChar(groupId, '.', '_');
    r
  }

  /** A group id without `_` can be read back from the cache file name */
  lemma CacheFileNameGroup(groupId: string, artifactId: string)
    requires '_' !in groupId
    ensures ReplaceChar(CacheFileName(groupId, artifactId)[..|groupId|], '_', '.') == groupId
  {
    var name := CacheFileName(groupId, artifactId);
    assert name[..|groupId|] == ReplaceChar(groupId, '.', '_');
    ReplaceCharInverse(groupId, '.', '_');
  }

  /** `f"https://repo.maven.apache.org/maven2/{group_id.replace('.', '/')}/{artifact_id}/maven-metadata.xml"` */
  function MetadataUrl(groupId: string, artifactId: string): (url: string)
    ensures StartsWith(url, "https://repo.maven.apache.org/maven2/") && EndsWith(url, "/maven-metadata.xml")
    ensures |url| == 37 + |groupId| + 1 + |artifactId| + 19
    ensures '.' !in url[37..37 + |groupId|] && url[37 + |groupId|] == '/'
  {
    var r := "https://repo.maven.apache.org/maven2/" + ReplaceChar(groupId, '.', '/') + "/" + artifactId + "/maven-metadata.xml";
    assert r[37..37 + |groupId|] == ReplaceChar(groupId, '.', '/');
    r
  }

  /** A group id without `/` can be read back from the metadata URL */
  lemma MetadataUrlGroup(groupId: string, artifactId: string)
    requires '/' !in groupId
    ensures ReplaceChar(MetadataUrl(groupId, artifactId)[37..37 + |groupId|], '/', '.') == groupId
  {
    var url := MetadataUrl(groupId, artifactId);
    assert url[37..37 + |groupId|] == ReplaceChar(groupId, '.', '/');
    ReplaceCharInverse(groupId, '.', '/');
  }

  // ---------------------------------------------------------------------------
  // The cache file

  /** A version as it can be read back: not empty and without white space at its ends */
  predicate Clean(v: string) {
    v != [] && !IsSpace(v[0]) && !IsSpace(v[|v| - 1])
  }

  /** `[line.strip() for line in lines if line.strip()]` */
  function StripNonBlank(lines: seq<string>): (r: seq<string>)
    ensures |r| <= |lines|
    ensures forall k :: 0 <= k < |r| ==> Clean(r[k])
  {
    if lines == [] then []
    else
      var s := Strip(lines[0]);
      StripSpec(lines[0]);
      var rest := StripNonBlank(lines[1..]);
      if s == [] then rest else [s] + rest
  }

  /** Line 94: the versions read from a cache file with text `text` */
  function CachedVersions(text: string): seq<string> {
    StripNonBlank(Split(text, '\n'))
  }

  /** Lines 108-110: the text written to the cache, one version per line */
  function CacheText(versions: seq<string>): (text: string)
    ensures versions == [] <==> text == []
  {
    if versions == [] then [] else versions[0] + "\n" + CacheText(versions[1..])
  }

  /** The first line of text that starts with a line without a newline */
  lemma SplitFirstLine(v: string, rest: string)
    requires '\n' !in v
    ensures Split(v + "\n" + rest, '\n') == [v] + Split(rest, '\n')
  {
    FirstIndexAfterFree(v, '\n', "\n" + rest);
    assert v + "\n" + rest == v + ("\n" + rest);
    var s := v + "\n" + rest;
    assert s[..|v|] == v && s[|v| + 1..] == rest;
  }

  /** A cache written from clean single-line versions reads back as the same list */
  lemma {:induction false} CacheRoundTrip(versions: seq<string>)
    requires forall k :: 0 <= k < |versions| ==> Clean(versions[k]) && '\n' !in versions[k]
    ensures CachedVersions(CacheText(versions)) == versions
  {
    if versions == [] {
      assert Split([], '\n') == [[]];
      assert Strip([]) == [];
    } else {
      var v := versions[0];
      SplitFirstLine(v, CacheText(versions[1..]));
      CacheRoundTrip(versions[1..]);
      StripBlankFree(v);
      var lines := Split(CacheText(versions), '\n');
      assert lines[0] == v && lines[1..] == Split(CacheText(versions[1..]), '\n');
    }
  }

  // ---------------------------------------------------------------------------
  // The processor

  class CVEProcessor {
    var cveId: string
    var cveData: CveEntry
    var reproducedVersions: seq<string>
    var affectedVersions: set<string>
    var allMavenVersions: seq<string>
    var groupId: Option<string>
    var artifactId: Option<string>
    var reproducedBehavior: Option<string>
    var reproducedDetail: set<string>
    var repositoryUrl: Option<string>
    var owner: Option<string>
    var repo: Option<string>

    /** `__init__` once `_load_cve_data` has found `entry` */
    constructor(cveId: string, entry: CveEntry)
      ensures this.cveId == cveId && cveData == entry
      ensures reproducedVersions == [] && affectedVersions == {} && allMavenVersions == []
      ensures groupId == Some("") && artifactId == Some("") && reproducedBehavior == Some("")
      ensures reproducedDetail == {} && repositoryUrl == Some("") && owner == Some("") && repo == Some("")
    {
      this.cveId := cveId;
      cveData := entry;
      reproducedVersions := [];
      affectedVersions := {};
      allMavenVersions := [];
      groupId := Some("");
      artifactId := Some("");
      reproducedBehavior := Some("");
      reproducedDetail := {};
      repositoryUrl := Some("");
      owner := Some("");
      repo := Some("");
    }

    /**
     * `identify_reproduced_versions`: copies the record's fields and takes as
     * reproduced the released versions that are affected and not listed as
     * needing adaptation, in release order.
     */
    method IdentifyReproducedVersions()
      modifies this
      ensures cveId == old(cveId) && cveData == old(cveData) && allMavenVersions == old(allMavenVersions)
      ensures affectedVersions == SetOf(OrEmpty(cveData.affected))
      ensures reproducedVersions == ReproducedAmong(allMavenVersions, cveData)
      ensures groupId == cveData.groupId && artifactId == cveData.artifactId
      ensures reproducedBehavior == cveData.reproducedBehavior
      ensures reproducedDetail == SetOf(OrEmpty(cveData.reproducedDetail))
      ensures repositoryUrl == cveData.repositoryUrl && owner == cveData.owner && repo == cveData.repo
    {
      var affected := SetOf(OrEmpty(cveData.affected));
      var required := SetOf(OrEmpty(cveData.requiredAdaptVersions));
      groupId := cveData.groupId;
      artifactId := cveData.artifactId;
      reproducedBehavior := cveData.reproducedBehavior;
      reproducedDetail := SetOf(OrEmpty(cveData.reproducedDetail));
      repositoryUrl := cveData.repositoryUrl;
      owner := cveData.owner;
      repo := cveData.repo;
      affectedVersions := affected;
      reproducedVersions := KeepIn(allMavenVersions, affected - required);
    }

    /**
     * `fetch_all_maven_versions`: `cache` maps each existing cache path to its
     * text and `fetch` stands for the metadata download. A record without
     * "groupId" or "artifactId" is a KeyError and changes nothing.
     */
    method FetchAllMavenVersions(cache: map<string, string>, fetch: string -> seq<string>) returns (err: Option<string>)
      modifies this
      ensures cveId == old(cveId) && cveData == old(cveData) && reproducedVersions == old(reproducedVersions)
      ensures affectedVersions == old(affectedVersions) && groupId == old(groupId) && artifactId == old(artifactId)
      ensures reproducedBehavior == old(reproducedBehavior) && reproducedDetail == old(reproducedDetail)
      ensures repositoryUrl == old(repositoryUrl) && owner == old(owner) && repo == old(repo)
      ensures (cveData.groupId.None? || cveData.artifactId.None?) ==>
                err == Some("KeyError") && allMavenVersions == old(allMavenVersions)
      ensures cveData.groupId.Some? && cveData.artifactId.Some? ==>
                var path := PathJoin(CacheDir, CacheFileName(cveData.groupId.value, cveData.artifactId.value));
                err.None?
                && (path in cache ==> allMavenVersions == CachedVersions(cache[path]))
                && (path !in cache ==> allMavenVersions == fetch(MetadataUrl(cveData.groupId.value, cveData.artifactId.value)))
    {
      if cveData.groupId.None? || cveData.artifactId.None? {
        return Some("KeyError");
      }
      var g := cveData.groupId.value;
      var a := cveData.artifactId.value;
      var cachePath := PathJoin(CacheDir, CacheFileName(g, a));
      if cachePath in cache {
        allMavenVersions := CachedVersions(cache[cachePath]);
        return None;
      }
      allMavenVersions := fetch(MetadataUrl(g, a));
      return None;
    }
  }

  /**
   * Building the processor: the constructor raises whatever `_load_cve_data`
   * raises, and otherwise holds the first matching record.
   */
  method NewProcessor(cveId: string, data: Option<seq<CveEntry>>) returns (r: Result<CVEProcessor, string>)
    ensures data.None? ==> r == Failure("FileNotFoundError")
    ensures data.Some? && FindEntry(data.value, cveId).None? ==> r == Failure("ValueError")
    ensures data.Some? && FindEntry(data.value, cveId).Some? ==>
              r.Success? && fresh(r.value) && r.value.cveId == cveId
              && r.value.cveData == data.value[FindEntry(data.value, cveId).value]
              && r.value.allMavenVersions == [] && r.value.reproducedVersions == []
  {
    var entry := LoadCveData(data, cveId);
    if entry.Failure? {
      return Failure(entry.error);
    }
    var p := new CVEProcessor(cveId, entry.value);
    return Success(p);
  }

  /** Before any release list is known, nothing counts as reproduced */
  lemma NoReleasesNoneReproduced(entry: CveEntry)
    ensures ReproducedAmong([], entry) == []
  {
  }
}
