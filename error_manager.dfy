/**
 * The Maven diagnostic parser: `[ERROR]` lines of a build log become
 * structured diagnostics, deduplicated, sorted by position and given the
 * source line they point at.
 *
 * Each regular expression of the parser is written out as a predicate or a
 * partial function over one (stripped) line; `Classify` combines them into
 * one line kind, in the order in which the parser tries them.
 */
module ErrorManager {
  import opened Wrappers
  import opened Strings

  /** One diagnostic. `codeLine` is filled in after parsing and takes no part in identity. */
  datatype StructuredError = StructuredError(
    file: string, line: int, column: int, message: string,
    symbol: Option<string>, location: Option<string>, codeLine: Option<string>)

  /** The six fields that `__eq__` compares and `__hash__` hashes */
  datatype Identity = Identity(
    file: string, line: int, column: int, message: string,
    symbol: Option<string>, location: Option<string>)

  function IdentityOf(e: StructuredError): Identity {
    Identity(e.file, e.line, e.column, e.message, e.symbol, e.location)
  }

  /** `a == b` on diagnostics */
  predicate SameError(a: StructuredError, b: StructuredError) {
    IdentityOf(a) == IdentityOf(b)
  }

  /** `hash(e)` is a function of the identity tuple; the tuple itself stands for it here */
  function HashOf(e: StructuredError): Identity {
    IdentityOf(e)
  }

  lemma SameErrorIff(a: StructuredError, b: StructuredError)
    ensures SameError(a, b) <==>
      a.file == b.file && a.line == b.line && a.column == b.column &&
      a.message == b.message && a.symbol == b.symbol && a.location == b.location
    ensures SameError(a, b) ==> HashOf(a) == HashOf(b)
    ensures SameError(a, a.(codeLine := b.codeLine))
  {
  }

  // ---------------------------------------------------------------------------
  // Selecting the marker lines of a log

  const ErrorTag := "[ERROR]"
  const GoalBanner := "[ERROR] Failed to execute goal"

  /** The lines that contain `[ERROR]`, in order */
  function MarkedLines(lines: seq<string>): (r: seq<string>)
    ensures |r| <= |lines|
    ensures forall i :: 0 <= i < |r| ==> Contains(r[i], ErrorTag)
    ensures forall l :: l in lines && Contains(l, ErrorTag) ==> l in r
    ensures forall l :: l in r ==> l in lines
  {
    if lines == [] then []
    else if Contains(lines[0], ErrorTag) then [lines[0]] + MarkedLines(lines[1..])
    else MarkedLines(lines[1..])
  }

  /**
   * `extract_maven_error_lines`: when the banner occurs, only the text from its
   * first occurrence on is split into lines; otherwise the whole log is.
   */
  function ExtractErrorLines(log: string): (r: seq<string>)
    ensures forall i :: 0 <= i < |r| ==> Contains(r[i], ErrorTag)
    ensures !Contains(log, GoalBanner) ==> r == MarkedLines(SplitLines(log))
    ensures Contains(log, GoalBanner) ==> r != [] && StartsWith(r[0], GoalBanner)
    ensures Contains(log, GoalBanner) ==> r == MarkedLines(SplitLines(log[Find(log, GoalBanner, 0).value..]))
  {
    match Find(log, GoalBanner, 0)
    case None => MarkedLines(SplitLines(log))
    case Some(k) =>
      var tail := log[k..];
      var errors := MarkedLines(SplitLines(tail));
      BannerLineFirst(tail);
      if errors != [] then errors else MarkedLines(SplitLines(log))
  }

  /**
   * The partner of `ExtractErrorLines`: with the banner first at `k`, the lines
   * kept are exactly the `[ERROR]` lines of the text from `k` to the end.
   */
  lemma ExtractFromFirstBanner(log: string, k: nat)
    requires OccursAt(log, GoalBanner, k)
    requires forall j :: 0 <= j < k ==> !OccursAt(log, GoalBanner, j)
    ensures ExtractErrorLines(log) == MarkedLines(SplitLines(log[k..]))
  {
    ContainsAt(log, GoalBanner, k);
  }

  /** The banner is a single line */
  lemma BannerOneLine()
    ensures '\n' !in GoalBanner
  {
  }

  /** The first line of text that opens with the banner is that banner's line, and it is kept */
  lemma BannerLineFirst(tail: string)
    requires StartsWith(tail, GoalBanner)
    ensures MarkedLines(SplitLines(tail)) != []
    ensures StartsWith(MarkedLines(SplitLines(tail))[0], GoalBanner)
  {
    var first := FirstLine(tail);
    var lines := SplitLines(tail);
    BannerOneLine();
    assert StartsWith(first, GoalBanner);
    BannerHasTag(first);
    assert lines != [] && lines[0] == first;
    assert MarkedLines(lines) == [first] + MarkedLines(lines[1..]);
  }

  lemma BannerHasTag(l: string)
    requires StartsWith(l, GoalBanner)
    ensures Contains(l, ErrorTag)
  {
    assert OccursAt(l, ErrorTag, 0) by {
      assert l[..|ErrorTag|] == GoalBanner[..|ErrorTag|];
    }
    ContainsAt(l, ErrorTag, 0);
  }

  /** The first element of `SplitLines(s)`, for text that does not start with a newline */
  function FirstLine(s: string): (r: string)
    requires s != [] && s[0] != '\n'
    ensures SplitLines(s) != [] && SplitLines(s)[0] == r
    ensures forall p :: '\n' !in p && StartsWith(s, p) ==> StartsWith(r, p)
  {
    if '\n' !in s then s
    else
      var k := FirstIndex(s, '\n');
      assert Split(s, '\n')[0] == s[..k];
      assert forall p :: '\n' !in p && StartsWith(s, p) ==> StartsWith(s[..k], p) by {
        forall p | '\n' !in p && StartsWith(s, p) ensures StartsWith(s[..k], p) {
        }
      }
      s[..k]
  }

  // ---------------------------------------------------------------------------
  // The patterns

  /** Length of the run of ASCII digits at the front of `s` (`\d+` is greedy) */
  function LeadingDigits(s: string): (n: nat)
    ensures n <= |s|
    ensures forall k :: 0 <= k < n ==> IsDigit(s[k])
    ensures n == |s| || !IsDigit(s[n])
  {
    if s == [] || !IsDigit(s[0]) then 0 else 1 + LeadingDigits(s[1..])
  }

  /**
   * Literals separated by `.*`, starting at `from`: the end of the last literal,
   * each found at its earliest place (earliest is best, so this decides the match).
   */
  function MatchInOrder(s: string, from: nat, lits: seq<string>): (r: Option<nat>)
    ensures r.Some? ==> from <= r.value <= |s|
    decreases |lits|
  {
    if lits == [] then (if from <= |s| then Some(from) else None)
    else
      match Find(s, lits[0], from)
      case None => None
      case Some(k) => MatchInOrder(s, k + |lits[0]|, lits[1..])
  }

  /** The literals occur one after another, without overlapping, from `from` on */
  ghost predicate InOrder(s: string, from: nat, lits: seq<string>)
    decreases |lits|
  {
    if lits == [] then from <= |s|
    else exists k: nat :: from <= k && OccursAt(s, lits[0], k) && InOrder(s, k + |lits[0]|, lits[1..])
  }

  /** Starting earlier never loses a placement */
  lemma {:induction false} InOrderEarlier(s: string, a: nat, b: nat, lits: seq<string>)
    requires b <= a && InOrder(s, a, lits)
    ensures InOrder(s, b, lits)
  {
    if lits != [] {
      var k: nat :| a <= k && OccursAt(s, lits[0], k) && InOrder(s, k + |lits[0]|, lits[1..]);
      assert b <= k;
    }
  }

  /** `.*`-separated literals match exactly when they can be placed in order: taking each at its earliest place loses nothing */
  lemma {:induction false} MatchInOrderIff(s: string, from: nat, lits: seq<string>)
    ensures MatchInOrder(s, from, lits).Some? <==> InOrder(s, from, lits)
    decreases |lits|
  {
    if lits != [] {
      match Find(s, lits[0], from)
      case None =>
      case Some(k0) =>
        MatchInOrderIff(s, k0 + |lits[0]|, lits[1..]);
        if InOrder(s, from, lits) {
          var k: nat :| from <= k && OccursAt(s, lits[0], k) && InOrder(s, k + |lits[0]|, lits[1..]);
          assert k0 <= k;
          InOrderEarlier(s, k + |lits[0]|, k0 + |lits[0]|, lits[1..]);
        }
    }
  }

  const GoalPrefix := "[ERROR] Failed to execute goal "

  /** `\[Help \d+\]` right after prefix `p`: what follows the closing bracket */
  function AfterHelpRef(s: string, p: string): Option<string> {
    if !StartsWith(s, p) then None
    else
      var rest := s[|p|..];
      var n := LeadingDigits(rest);
      if n == 0 || !StartsWith(rest[n..], "]") then None else Some(rest[n + 1..])
  }

  /** The boilerplate lines the parser skips, one disjunct per pattern */
  predicate IsIgnored(l: string) {
    IgnoredGoal(l) || IgnoredHelp(l) || IgnoredNotice(l) || IgnoredReport(l)
  }

  /** The three "Failed to execute goal" patterns */
  predicate IgnoredGoal(l: string) {
    // ^\[ERROR\] Failed to execute goal .* on project .*: Compilation failure:.*
    (StartsWith(l, GoalPrefix) && MatchInOrder(l, |GoalPrefix|, [" on project ", ": Compilation failure:"]).Some?)
    // ^\[ERROR\] Failed to execute goal .* on project .*: Compilation failure
    || (StartsWith(l, GoalPrefix) && MatchInOrder(l, |GoalPrefix|, [" on project ", ": Compilation failure"]).Some?)
    // ^\[ERROR\] Failed to execute goal .* on project .*: There are test failures.
    || (StartsWith(l, GoalPrefix)
        && (var e := MatchInOrder(l, |GoalPrefix|, [" on project ", ": There are test failures"]); e.Some? && e.value < |l|))
  }

  /** The bare tag and the two help-reference patterns */
  predicate IgnoredHelp(l: string) {
    // ^\[ERROR\]$
    l == ErrorTag
    // \[ERROR\] -> \[Help \d+\]
    || AfterHelpRef(l, "[ERROR] -> [Help ").Some?
    // ^\[ERROR\] \[Help \d+\]( .*)?$
    || (var a := AfterHelpRef(l, "[ERROR] [Help "); a.Some? && (a.value == [] || StartsWith(a.value, " ")))
  }

  /** Info and warning lines and Maven's closing advice */
  predicate IgnoredNotice(l: string) {
    // \[INFO\] .*   and   \[WARNING\] .*
    StartsWith(l, "[INFO] ")
    || StartsWith(l, "[WARNING] ")
    || StartsWith(l, "[ERROR] For more information about the errors and possible solutions, please read")
    || StartsWith(l, "[ERROR] To see the full stack trace of the errors, re-run Maven with the -e switch")
    || StartsWith(l, "[ERROR] Re-run Maven using the -X switch to enable full debug logging")
  }

  /** The two pointers to surefire reports and dump files */
  predicate IgnoredReport(l: string) {
    // ^\[ERROR\] Please refer to .*/surefire-reports.*$
    (StartsWith(l, "[ERROR] Please refer to ") && MatchInOrder(l, 24, ["/surefire-reports"]).Some?)
    // ^\[ERROR\] Please refer to dump files \(if any exist\) \[.*\]\.dump.*
    || (StartsWith(l, "[ERROR] Please refer to dump files (if any exist) [")
        && MatchInOrder(l, 51, ["].dump"]).Some?)
  }


  const SurefireGoal := "Failed to execute goal org.apache.maven.plugins:maven-surefire-plugin:"

  /** The surefire pattern matched at position `k` */
  predicate SurefireAt(l: string, k: nat) {
    k <= |l| && StartsWith(l[k..], SurefireGoal)
    && (var rest := l[k + |SurefireGoal|..];
        var n := LeadingVersionChars(rest);
        n > 0 && StartsWith(rest[n..], ":test (default-test) on project ")
        && MatchInOrder(rest[n..], 32, [": There are test failures."]).Some?)
  }

  /** A character of `[\d\.]` */
  predicate IsVersionChar(c: char) { IsDigit(c) || c == '.' }

  /** Length of the run of `[\d\.]` at the front of `s` (`[\d\.]+` is greedy) */
  function LeadingVersionChars(s: string): (n: nat)
    ensures n <= |s|
    ensures forall k :: 0 <= k < n ==> IsVersionChar(s[k])
    ensures n == |s| || !IsVersionChar(s[n])
  {
    if s == [] || !IsVersionChar(s[0]) then 0 else 1 + LeadingVersionChars(s[1..])
  }

  /** `re.search` of the surefire pattern from position `k` on */
  predicate SurefireFrom(l: string, k: nat)
    decreases |l| - k
  {
    k <= |l| && (SurefireAt(l, k) || SurefireFrom(l, k + 1))
  }

  /** The line announces failed surefire tests */
  predicate IsSurefireLine(l: string) { SurefireFrom(l, 0) }

  /** The tail of a header after the file part: `:[line,col] message`, message non-empty */
  function HeaderTail(t: string): (r: Option<(nat, nat, string)>)
    ensures r.Some? ==> StartsWith(t, ":[") && r.value.2 != []
  {
    if !StartsWith(t, ":[") then None
    else
      var a := t[2..];
      var n := LeadingDigits(a);
      if n == 0 || n == |a| || a[n] != ',' then None
      else
        var b := a[n + 1..];
        var m := LeadingDigits(b);
        if m == 0 || !StartsWith(b[m..], "] ") || |b[m..]| < 3 then None
        else Some((DecimalValue(a[..n]), DecimalValue(b[..m]), b[m + 2..]))
  }

  /**
   * A lazy `(.*?)` group followed by the pattern `tail`: the first split point
   * from `j` on at which `tail` matches the rest, with the text before it.
   */
  function LazySplit<T>(rest: string, j: nat, tail: string -> Option<T>): Option<(string, T)>
    decreases |rest| - j
  {
    if j > |rest| then None
    else
      match tail(rest[j..])
      case Some(h) => Some((rest[..j], h))
      case None => LazySplit(rest, j + 1, tail)
  }

  /** The split is the shortest prefix from `j` on after which `tail` matches; none when no split point does */
  lemma {:induction false} LazySplitSpec<T>(rest: string, j: nat, tail: string -> Option<T>)
    ensures var r := LazySplit(rest, j, tail);
      (r.Some? ==> j <= |r.value.0| <= |rest| && r.value.0 == rest[..|r.value.0|]
                   && tail(rest[|r.value.0|..]) == Some(r.value.1)
                   && forall i :: j <= i < |r.value.0| ==> tail(rest[i..]).None?)
      && (r.None? ==> forall i :: j <= i <= |rest| ==> tail(rest[i..]).None?)
    decreases |rest| - j
  {
    if j <= |rest| && tail(rest[j..]).None? {
      LazySplitSpec(rest, j + 1, tail);
    }
  }

  /** The header pattern after `[ERROR] `: the file part and the parsed tail */
  function FindHeader(rest: string): Option<(string, (nat, nat, string))> {
    LazySplit(rest, 0, HeaderTail)
  }

  /** `\[ERROR\]\s+(.*)`: a marker followed by white space */
  predicate IsMarkerLine(l: string) {
    StartsWith(l, ErrorTag) && |l| > 7 && IsSpace(l[7])
  }

  /** `\[ERROR\]\s+<key>\s+(.+)`, the group stripped */
  function KeyedValue(l: string, key: string): Option<string> {
    if !IsMarkerLine(l) then None
    else
      var t := TrimStart(l[7..]);
      if !StartsWith(t, key) then None
      else
        var after := t[|key|..];
        if |after| >= 2 && IsSpace(after[0]) then Some(Strip(after)) else None
  }

  /** What kind of line the parser sees, in the order it tests the patterns */
  datatype LineKind =
    | Ignored
    | Header(file: string, line: nat, column: nat, message: string)
    | SymbolLine(value: string, text: string)
    | LocationLine(value: string, text: string)
    | Marked(text: string)
    | Unmatched

  /** `re.match(r'\[ERROR\] (.*?):\[(\d+),(\d+)\] (.+)', line)` succeeds */
  predicate IsHeaderLine(l: string) {
    StartsWith(l, "[ERROR] ") && FindHeader(l[8..]).Some?
  }

  /**
   * The kind is decided by the first pattern that matches: ignored, header,
   * `symbol:`, `location:`, a bare marker, nothing.
   */
  function Classify(l: string): (k: LineKind)
    ensures k.Ignored? <==> IsIgnored(l)
    ensures k.Header? <==> !IsIgnored(l) && IsHeaderLine(l)
    ensures k.SymbolLine? <==> !IsIgnored(l) && !IsHeaderLine(l) && KeyedValue(l, "symbol:").Some?
    ensures k.LocationLine? <==>
      !IsIgnored(l) && !IsHeaderLine(l) && KeyedValue(l, "symbol:").None? && KeyedValue(l, "location:").Some?
    ensures k.Marked? <==>
      !IsIgnored(l) && !IsHeaderLine(l) && KeyedValue(l, "symbol:").None? && KeyedValue(l, "location:").None?
      && IsMarkerLine(l)
    ensures k.SymbolLine? || k.LocationLine? || k.Marked? ==> IsMarkerLine(l)
    ensures k.Header? ==>
      var h := FindHeader(l[8..]).value;
      k.file == Strip(h.0) && k.line == h.1.0 && k.column == h.1.1 && k.message == Strip(h.1.2)
    ensures k.SymbolLine? ==> k.value == KeyedValue(l, "symbol:").value && k.text == Strip(l[7..])
    ensures k.LocationLine? ==> k.value == KeyedValue(l, "location:").value && k.text == Strip(l[7..])
    ensures k.Marked? ==> k.text == Strip(l[7..])
  {
    if IsIgnored(l) then Ignored
    else if IsHeaderLine(l) then
      var h := FindHeader(l[8..]).value;
      Header(Strip(h.0), h.1.0, h.1.1, Strip(h.1.2))
    else if KeyedValue(l, "symbol:").Some? then SymbolLine(KeyedValue(l, "symbol:").value, Strip(l[7..]))
    else if KeyedValue(l, "location:").Some? then LocationLine(KeyedValue(l, "location:").value, Strip(l[7..]))
    else if IsMarkerLine(l) then Marked(Strip(l[7..]))
    else Unmatched
  }

  // ---------------------------------------------------------------------------
  // The line-by-line state machine

  /** What the parser reads off one raw line: its kind once stripped, and whether it is the surefire line */
  datatype LineInfo = LineInfo(kind: LineKind, surefire: bool, stripped: string)

  function Inspect(raw: string): LineInfo {
    LineInfo(Classify(Strip(raw)), IsSurefireLine(raw), Strip(raw))
  }

  function InspectAll(lines: seq<string>): (r: seq<LineInfo>)
    ensures |r| == |lines|
    ensures forall i :: 0 <= i < |lines| ==> r[i] == Inspect(lines[i])
  {
    seq(|lines|, i requires 0 <= i < |lines| => Inspect(lines[i]))
  }

  const UnknownFile := "UNKNOWN"

  function Unknown(message: string): StructuredError {
    StructuredError(UnknownFile, -1, -1, message, None, None, None)
  }

  /** The open diagnostic and the ones already pushed */
  datatype ParseState = ParseState(current: Option<StructuredError>, pending: seq<StructuredError>)

  /** Push the open diagnostic, if any */
  function Flush(st: ParseState): seq<StructuredError> {
    st.pending + (if st.current.Some? then [st.current.value] else [])
  }

  /** Any other marker line: open an UNKNOWN diagnostic, or extend the open one's message */
  function Generic(st: ParseState, text: string): ParseState {
    match st.current
    case None => st.(current := Some(Unknown(text)))
    case Some(e) => st.(current := Some(e.(message := e.message + " " + text)))
  }

  /** One iteration of the loop over the raw lines */
  function Step(st: ParseState, k: LineKind): ParseState {
    match k
    case Ignored => st
    case Unmatched => st
    case Header(f, l, c, m) => ParseState(Some(StructuredError(f, l, c, m, None, None, None)), Flush(st))
    case SymbolLine(v, text) =>
      if st.current.Some? then st.(current := Some(st.current.value.(symbol := Some(v)))) else Generic(st, text)
    case LocationLine(v, text) =>
      if st.current.Some? then st.(current := Some(st.current.value.(location := Some(v)))) else Generic(st, text)
    case Marked(text) => Generic(st, text)
  }

  /** The state after the loop has seen `infos`, starting on the diagnostics already pending */
  function Run(existing: seq<StructuredError>, infos: seq<LineInfo>): ParseState {
    if infos == [] then ParseState(None, existing)
    else Step(Run(existing, infos[..|infos| - 1]), infos[|infos| - 1].kind)
  }

  /** The diagnostics of the lines, before deduplication */
  function Diagnostics(infos: seq<LineInfo>): seq<StructuredError> {
    Flush(Run([], infos))
  }

  /** Starting on pending diagnostics only puts them in front */
  lemma {:induction false} RunFromExisting(existing: seq<StructuredError>, infos: seq<LineInfo>)
    ensures Run(existing, infos).current == Run([], infos).current
    ensures Run(existing, infos).pending == existing + Run([], infos).pending
    ensures Flush(Run(existing, infos)) == existing + Diagnostics(infos)
  {
    if infos != [] {
      RunFromExisting(existing, infos[..|infos| - 1]);
    }
  }

  /** The stripped first line announcing failed surefire tests */
  function SurefireLine(infos: seq<LineInfo>): (r: Option<string>)
    ensures r.Some? <==> exists i :: 0 <= i < |infos| && infos[i].surefire
    ensures r.Some? ==> exists i :: (0 <= i < |infos| && infos[i].surefire && r.value == infos[i].stripped
      && forall j :: 0 <= j < i ==> !infos[j].surefire)
  {
    if infos == [] then None
    else if infos[0].surefire then Some(infos[0].stripped)
    else
      var r := SurefireLine(infos[1..]);
      assert forall i :: 1 <= i < |infos| ==> infos[i] == infos[1..][i - 1];
      r
  }

  /** Some diagnostic of `errors` equals `e` */
  predicate HasSame(errors: seq<StructuredError>, e: StructuredError) {
    exists i :: 0 <= i < |errors| && SameError(errors[i], e)
  }

  /** `list(set(errors))`: one diagnostic per identity (the first one; the source's order is a set's) */
  function Deduplicate(errors: seq<StructuredError>): (r: seq<StructuredError>)
    ensures forall i, j :: 0 <= i < j < |r| ==> !SameError(r[i], r[j])
    ensures forall e :: e in r ==> e in errors
    ensures forall e :: e in errors ==> HasSame(r, e)
    ensures |r| <= |errors|
  {
    if errors == [] then []
    else
      var init := errors[..|errors| - 1];
      var last := errors[|errors| - 1];
      var rest := Deduplicate(init);
      assert errors == init + [last];
      if HasSame(rest, last) then rest
      else
        var r := rest + [last];
        assert forall e :: e in errors ==> HasSame(r, e) by {
          forall e | e in errors ensures HasSame(r, e) {
            if e == last {
              assert SameError(r[|rest|], e);
            } else {
              assert e in init;
              var i :| 0 <= i < |rest| && SameError(rest[i], e);
              assert r[i] == rest[i];
            }
          }
        }
        r
  }

  /** `_parse_errors` over inspected lines, on top of the diagnostics already pending */
  function ParseInfos(existing: seq<StructuredError>, infos: seq<LineInfo>): seq<StructuredError> {
    var unique := Deduplicate(Flush(Run(existing, infos)));
    match SurefireLine(infos)
    case Some(l) => if unique == [] then [Unknown(l)] else unique
    case None => unique
  }

  /** `_parse_errors` over the raw `[ERROR]` lines */
  function ParseErrors(existing: seq<StructuredError>, lines: seq<string>): seq<StructuredError> {
    ParseInfos(existing, InspectAll(lines))
  }

  /** The result of parsing holds no two equal diagnostics */
  lemma ParseErrorsDistinct(existing: seq<StructuredError>, infos: seq<LineInfo>)
    ensures var r := ParseInfos(existing, infos);
      forall i, j :: 0 <= i < j < |r| ==> !SameError(r[i], r[j])
  {
  }

  /** With nothing found, the surefire line is the sole UNKNOWN diagnostic; otherwise nothing is added */
  lemma ParseErrorsFallback(infos: seq<LineInfo>)
    ensures Diagnostics(infos) == [] && SurefireLine(infos).Some? ==>
      ParseInfos([], infos) == [Unknown(SurefireLine(infos).value)]
    ensures Diagnostics(infos) != [] ==>
      forall e :: e in ParseInfos([], infos) ==> e in Diagnostics(infos)
  {
    var d := Diagnostics(infos);
    var u := Deduplicate(d);
    assert ParseInfos([], infos) == match SurefireLine(infos)
      case Some(l) => (if u == [] then [Unknown(l)] else u)
      case None => u;
    if d != [] {
      assert HasSame(u, d[0]);
    }
  }

  // ---------------------------------------------------------------------------
  // What the state machine guarantees

  /** The (file, line, column) of a diagnostic */
  function Position(e: StructuredError): (string, int, int) { (e.file, e.line, e.column) }

  predicate IsHeaderAt(infos: seq<LineInfo>, i: int) {
    0 <= i < |infos| && infos[i].kind.Header?
  }

  function HeaderPosition(infos: seq<LineInfo>, i: int): (string, int, int)
    requires IsHeaderAt(infos, i)
  {
    var h := infos[i].kind;
    (h.file, h.line, h.column)
  }

  /** A diagnostic comes from a header line, or is an UNKNOWN one at (-1, -1) */
  predicate HasOrigin(infos: seq<LineInfo>, e: StructuredError) {
    (e.file == UnknownFile && e.line == -1 && e.column == -1)
    || exists i :: 0 <= i < |infos| && IsHeaderAt(infos, i) && HeaderPosition(infos, i) == Position(e)
  }

  /** Once a diagnostic is open one always is, so nothing is pushed before the first one opens */
  lemma {:induction false} NothingPendingWhileClosed(infos: seq<LineInfo>)
    ensures Run([], infos).current.None? ==> Run([], infos).pending == []
  {
    if infos != [] {
      NothingPendingWhileClosed(infos[..|infos| - 1]);
    }
  }

  /** Every diagnostic is an UNKNOWN one or sits at the position of some header line */
  lemma {:induction false} DiagnosticsHaveOrigin(infos: seq<LineInfo>)
    ensures forall e :: e in Diagnostics(infos) ==> HasOrigin(infos, e)
  {
    if infos != [] {
      var prefix := infos[..|infos| - 1];
      DiagnosticsHaveOrigin(prefix);
      forall e | e in Diagnostics(infos) ensures HasOrigin(infos, e) {
        OriginStep(prefix, infos, e);
      }
    }
  }

  lemma OriginStep(prefix: seq<LineInfo>, infos: seq<LineInfo>, e: StructuredError)
    requires infos != [] && prefix == infos[..|infos| - 1]
    requires forall d :: d in Diagnostics(prefix) ==> HasOrigin(prefix, d)
    requires e in Diagnostics(infos)
    ensures HasOrigin(infos, e)
  {
    var st := Run([], prefix);
    var last := |infos| - 1;
    var k := infos[last].kind;
    assert Run([], infos) == Step(st, k);
    StepOrigin(st, k, e);
    if k.Header? && Step(st, k).current == Some(e) {
      assert IsHeaderAt(infos, last) && HeaderPosition(infos, last) == Position(e);
    } else if !(e.file == UnknownFile && e.line == -1 && e.column == -1) {
      var d :| d in Flush(st) && Position(d) == Position(e);
      assert HasOrigin(prefix, d);
      if !(d.file == UnknownFile && d.line == -1 && d.column == -1) {
        var i :| 0 <= i < |prefix| && IsHeaderAt(prefix, i) && HeaderPosition(prefix, i) == Position(d);
        assert infos[i] == prefix[i];
        assert IsHeaderAt(infos, i) && HeaderPosition(infos, i) == Position(e);
      }
    }
  }

  /** What one step can push: an UNKNOWN diagnostic, the header's, or one at a position already there */
  lemma StepOrigin(st: ParseState, k: LineKind, e: StructuredError)
    requires e in Flush(Step(st, k))
    ensures (e.file == UnknownFile && e.line == -1 && e.column == -1)
      || (k.Header? && Step(st, k).current == Some(e))
      || exists d :: d in Flush(st) && Position(d) == Position(e)
  {
    var st' := Step(st, k);
    if e in st'.pending {
      if k.Header? {
        assert e in Flush(st);
      } else {
        assert st'.pending == st.pending;
        assert e in Flush(st);
      }
    } else {
      assert st'.current == Some(e);
      if !k.Header? && st.current.Some? {
        assert st.current.value in Flush(st);
        assert Position(st.current.value) == Position(e);
      }
    }
  }

  function PositionsOf(errors: seq<StructuredError>): set<(string, int, int)> {
    set e | e in errors :: Position(e)
  }

  /** A step never loses a position: diagnostics are only pushed, extended or added */
  lemma PositionsKept(st: ParseState, k: LineKind)
    ensures PositionsOf(Flush(st)) <= PositionsOf(Flush(Step(st, k)))
  {
    var st' := Step(st, k);
    forall p | p in PositionsOf(Flush(st)) ensures p in PositionsOf(Flush(st')) {
      var d :| d in Flush(st) && Position(d) == p;
      if d in st.pending {
        assert d in Flush(st');
      } else {
        assert st'.current.Some? && st'.current.value in Flush(st');
      }
    }
  }

  /** Every header line leaves a diagnostic at its position */
  lemma {:induction false} HeadersYieldDiagnostics(infos: seq<LineInfo>)
    ensures forall i :: IsHeaderAt(infos, i) ==> HeaderPosition(infos, i) in PositionsOf(Diagnostics(infos))
  {
    if infos != [] {
      var prefix := infos[..|infos| - 1];
      var last := |infos| - 1;
      HeadersYieldDiagnostics(prefix);
      PositionsKept(Run([], prefix), infos[last].kind);
      forall i | IsHeaderAt(infos, i)
        ensures HeaderPosition(infos, i) in PositionsOf(Diagnostics(infos))
      {
        if i < last {
          assert infos[i] == prefix[i];
          assert IsHeaderAt(prefix, i) && HeaderPosition(prefix, i) == HeaderPosition(infos, i);
        } else {
          var e := Run([], infos).current.value;
          assert e in Diagnostics(infos);
        }
      }
    }
  }

  /** Two identical header lines make one diagnostic */
  lemma RepeatedHeaderOnce(info: LineInfo)
    requires info.kind.Header? && !info.surefire
    ensures |ParseInfos([], [info, info])| == 1
  {
    var h := info.kind;
    var e := StructuredError(h.file, h.line, h.column, h.message, None, None, None);
    assert [info, info][..1] == [info];
    assert [info][..0] == [];
    assert Run([], [info]) == ParseState(Some(e), []);
    assert Run([], [info, info]) == ParseState(Some(e), [e]);
    assert Flush(Run([], [info, info])) == [e, e];
    assert [e, e][..1] == [e];
    assert [e][..0] == [];
    assert Deduplicate([e]) == [e];
    assert Deduplicate([e, e]) == [e];
  }

  // ---------------------------------------------------------------------------
  // Ordering by (file, line, column)

  /** Python's `<=` on strings: lexicographic by code point */
  predicate StrLe(a: string, b: string)
    decreases |a|
  {
    a == [] || (b != [] && (a[0] < b[0] || (a[0] == b[0] && StrLe(a[1..], b[1..]))))
  }

  lemma {:induction false} StrLeTotal(a: string, b: string)
    ensures StrLe(a, b) || StrLe(b, a)
    decreases |a|
  {
    if a != [] && b != [] && a[0] == b[0] { StrLeTotal(a[1..], b[1..]); }
  }

  lemma {:induction false} StrLeAntisymmetric(a: string, b: string)
    requires StrLe(a, b) && StrLe(b, a)
    ensures a == b
    decreases |a|
  {
    if a != [] {
      StrLeAntisymmetric(a[1..], b[1..]);
      assert a == [a[0]] + a[1..] && b == [b[0]] + b[1..];
    }
  }

  lemma {:induction false} StrLeTransitive(a: string, b: string, c: string)
    requires StrLe(a, b) && StrLe(b, c)
    ensures StrLe(a, c)
    decreases |a|
  {
    if a != [] && b != [] && c != [] && a[0] == b[0] && b[0] == c[0] {
      StrLeTransitive(a[1..], b[1..], c[1..]);
    }
  }

  /** The sort key `(e.file, e.line, e.column)` compared as a Python tuple */
  predicate PositionLe(x: StructuredError, y: StructuredError) {
    if x.file != y.file then StrLe(x.file, y.file)
    else if x.line != y.line then x.line < y.line
    else x.column <= y.column
  }

  lemma PositionLeTotal(x: StructuredError, y: StructuredError)
    ensures PositionLe(x, y) || PositionLe(y, x)
  {
    StrLeTotal(x.file, y.file);
  }

  lemma PositionLeTransitive(x: StructuredError, y: StructuredError, z: StructuredError)
    requires PositionLe(x, y) && PositionLe(y, z)
    ensures PositionLe(x, z)
  {
    if x.file != y.file && y.file != z.file {
      StrLeTransitive(x.file, y.file, z.file);
      if x.file == z.file { StrLeAntisymmetric(x.file, y.file); }
    }
  }

  predicate SortedByPosition(s: seq<StructuredError>) {
    forall i, j :: 0 <= i < j < |s| ==> PositionLe(s[i], s[j])
  }

  function InsertByPosition(x: StructuredError, s: seq<StructuredError>): (r: seq<StructuredError>)
    requires SortedByPosition(s)
    ensures SortedByPosition(r)
    ensures multiset(r) == multiset(s) + multiset{x}
  {
    if s == [] then [x]
    else if PositionLe(x, s[0]) then
      BeforeSorted(x, s);
      [x] + s
    else
      PositionLeTotal(x, s[0]);
      var rest := InsertByPosition(x, s[1..]);
      HeadBeforeInsert(s, x, rest);
      assert s == [s[0]] + s[1..];
      [s[0]] + rest
  }

  /** An error placed before the head of a sorted list keeps it sorted */
  lemma BeforeSorted(x: StructuredError, s: seq<StructuredError>)
    requires SortedByPosition(s) && s != [] && PositionLe(x, s[0])
    ensures SortedByPosition([x] + s)
  {
    forall j | 0 <= j < |s| ensures PositionLe(x, s[j]) {
      if j > 0 { PositionLeTransitive(x, s[0], s[j]); }
    }
    forall i, j | 0 <= i < j < |[x] + s| ensures PositionLe(([x] + s)[i], ([x] + s)[j]) {
      if i > 0 {
        assert ([x] + s)[i] == s[i - 1];
      }
    }
  }

  /** The head of a sorted list stays first when an error after it is inserted into its tail */
  lemma HeadBeforeInsert(s: seq<StructuredError>, x: StructuredError, rest: seq<StructuredError>)
    requires SortedByPosition(s) && s != [] && PositionLe(s[0], x)
    requires SortedByPosition(rest) && multiset(rest) == multiset(s[1..]) + multiset{x}
    ensures SortedByPosition([s[0]] + rest)
  {
    forall e | e in rest ensures PositionLe(s[0], e) {
      assert e in multiset(rest);
      if e != x {
        assert e in multiset(s[1..]);
        var k :| 0 <= k < |s[1..]| && s[1..][k] == e;
        assert s[k + 1] == e;
      }
    }
    forall i, j | 0 <= i < j < |[s[0]] + rest| ensures PositionLe(([s[0]] + rest)[i], ([s[0]] + rest)[j]) {
      if i == 0 {
        assert rest[j - 1] in rest;
      } else {
        assert ([s[0]] + rest)[i] == rest[i - 1];
      }
    }
  }

  function SortByPosition(s: seq<StructuredError>): (r: seq<StructuredError>)
    ensures SortedByPosition(r)
    ensures multiset(r) == multiset(s)
  {
    if s == [] then []
    else
      var r := InsertByPosition(s[0], SortByPosition(s[1..]));
      assert s == [s[0]] + s[1..];
      r
  }

  // ---------------------------------------------------------------------------
  // Source lines

  /**
   * `code_line` for one diagnostic: `files` maps each readable path to its
   * `readlines()`; an unreadable file leaves the diagnostic as it was.
   */
  function WithCodeLine(e: StructuredError, files: map<string, seq<string>>): (r: StructuredError)
    ensures SameError(r, e)
    ensures e.file !in files ==> r == e
    ensures e.file in files && 1 <= e.line <= |files[e.file]| ==>
      r.codeLine == Some(TrimEndChar(files[e.file][e.line - 1], '\n'))
    ensures e.file in files && !(1 <= e.line <= |files[e.file]|) ==> r.codeLine == None
  {
    if e.file !in files then e
    else
      var all := files[e.file];
      if 1 <= e.line <= |all| then e.(codeLine := Some(TrimEndChar(all[e.line - 1], '\n')))
      else e.(codeLine := None)
  }

  /** Every diagnostic with its source line */
  function Annotate(errors: seq<StructuredError>, files: map<string, seq<string>>): (r: seq<StructuredError>)
    ensures |r| == |errors|
    ensures forall i :: 0 <= i < |r| ==> r[i] == WithCodeLine(errors[i], files)
  {
    seq(|errors|, i requires 0 <= i < |errors| => WithCodeLine(errors[i], files))
  }

  /** `e.message | symbol` stripped: the key of `group_errors_by_type` */
  function GroupKey(e: StructuredError): string {
    var sym := if e.symbol.Some? then e.symbol.value else "";
    Strip(e.message + " | " + sym)
  }

  /** The diagnostics with key `k`, in order */
  function WithKey(errors: seq<StructuredError>, k: string): (r: seq<StructuredError>)
    ensures forall e :: e in r <==> e in errors && GroupKey(e) == k
  {
    if errors == [] then []
    else
      var rest := WithKey(errors[..|errors| - 1], k);
      var last := errors[|errors| - 1];
      assert forall e :: e in errors <==> e in errors[..|errors| - 1] || e == last by {
        assert errors == errors[..|errors| - 1] + [last];
      }
      if GroupKey(last) == k then rest + [last] else rest
  }

  /** Some diagnostic of `errors` has key `k` */
  predicate HasKey(errors: seq<StructuredError>, k: string) {
    exists i :: 0 <= i < |errors| && GroupKey(errors[i]) == k
  }

  /** The keys of the diagnostics (`GroupKeysIff` says which) */
  function GroupKeys(errors: seq<StructuredError>): set<string> {
    if errors == [] then {} else GroupKeys(errors[..|errors| - 1]) + {GroupKey(errors[|errors| - 1])}
  }

  /** A key is a group's exactly when some diagnostic has it */
  lemma {:induction false} GroupKeysIff(errors: seq<StructuredError>, k: string)
    ensures k in GroupKeys(errors) <==> HasKey(errors, k)
  {
    if errors != [] {
      var init := errors[..|errors| - 1];
      GroupKeysIff(init, k);
      if HasKey(errors, k) {
        var i :| 0 <= i < |errors| && GroupKey(errors[i]) == k;
        if i < |init| { assert init[i] == errors[i]; }
      }
      if HasKey(init, k) {
        var i :| 0 <= i < |init| && GroupKey(init[i]) == k;
        assert init[i] == errors[i];
      }
    }
  }

  /** One more diagnostic adds its key */
  lemma GroupKeysStep(errors: seq<StructuredError>, i: nat)
    requires i < |errors|
    ensures GroupKeys(errors[..i + 1]) == GroupKeys(errors[..i]) + {GroupKey(errors[i])}
  {
    assert errors[..i + 1][..i] == errors[..i];
  }

  /** One more diagnostic joins its group at the end */
  lemma WithKeyStep(errors: seq<StructuredError>, i: nat, k: string)
    requires i < |errors|
    ensures GroupKey(errors[i]) == k ==> WithKey(errors[..i + 1], k) == WithKey(errors[..i], k) + [errors[i]]
    ensures GroupKey(errors[i]) != k ==> WithKey(errors[..i + 1], k) == WithKey(errors[..i], k)
  {
    assert errors[..i + 1][..i] == errors[..i];
  }

  /** The diagnostics of `file`, in order */
  function ErrorsOfFile(errors: seq<StructuredError>, file: string): (r: seq<StructuredError>)
    ensures |r| <= |errors|
  {
    if errors == [] then []
    else
      var rest := ErrorsOfFile(errors[1..], file);
      if errors[0].file == file then [errors[0]] + rest else rest
  }

  /** A diagnostic is kept exactly when it is in the list and belongs to the file */
  lemma {:induction false} ErrorsOfFileMembers(errors: seq<StructuredError>, file: string)
    ensures forall e :: e in ErrorsOfFile(errors, file) <==> e in errors && e.file == file
  {
    if errors != [] {
      ErrorsOfFileMembers(errors[1..], file);
      assert errors == [errors[0]] + errors[1..];
    }
  }

  /** Each diagnostic of `file` is kept as often as it occurs, every other one dropped */
  lemma {:induction false} ErrorsOfFileCount(errors: seq<StructuredError>, file: string, e: StructuredError)
    ensures multiset(ErrorsOfFile(errors, file))[e] == if e.file == file then multiset(errors)[e] else 0
  {
    if errors != [] {
      ErrorsOfFileCount(errors[1..], file, e);
      assert errors == [errors[0]] + errors[1..];
    }
  }

  /** The filter distributes over concatenation, so the diagnostics keep their relative order */
  lemma {:induction false} ErrorsOfFileConcat(a: seq<StructuredError>, b: seq<StructuredError>, file: string)
    ensures ErrorsOfFile(a + b, file) == ErrorsOfFile(a, file) + ErrorsOfFile(b, file)
  {
    if a == [] {
      assert a + b == b;
    } else {
      var head := if a[0].file == file then [a[0]] else [];
      var ra := ErrorsOfFile(a[1..], file);
      var rb := ErrorsOfFile(b, file);
      ErrorsOfFileConcat(a[1..], b, file);
      ErrorsOfFileCons(a, file);
      ErrorsOfFileCons(a + b, file);
      assert (a + b)[1..] == a[1..] + b;
      assert ErrorsOfFile(a + b, file) == head + (ra + rb);
      assert head + (ra + rb) == (head + ra) + rb;
    }
  }

  /** One step of the filter */
  lemma ErrorsOfFileCons(xs: seq<StructuredError>, file: string)
    requires xs != []
    ensures ErrorsOfFile(xs, file) == (if xs[0].file == file then [xs[0]] else []) + ErrorsOfFile(xs[1..], file)
  {
  }

  /** The search for the first surefire line in `_parse_errors` */
  method FindSurefireLine(infos: seq<LineInfo>) returns (fallback: Option<string>)
    ensures fallback == SurefireLine(infos)
  {
    fallback := None;
    var i := 0;
    while i < |infos|
      invariant 0 <= i <= |infos|
      invariant SurefireLine(infos) == SurefireLine(infos[i..])
    {
      assert infos[i..][1..] == infos[i + 1..];
      if infos[i].surefire {
        fallback := Some(infos[i].stripped);
        break;
      }
      i := i + 1;
    }
    if fallback.None? {
      assert infos[i..] == [];
    }
  }

  /** The main loop of `_parse_errors`, on top of the diagnostics already pending */
  method RunLines(existing: seq<StructuredError>, infos: seq<LineInfo>) returns (st: ParseState)
    ensures st == Run(existing, infos)
  {
    var current: Option<StructuredError> := None;
    var pending := existing;
    var n := 0;
    while n < |infos|
      invariant 0 <= n <= |infos|
      invariant ParseState(current, pending) == Run(existing, infos[..n])
    {
      var next := Step(ParseState(current, pending), infos[n].kind);
      assert infos[..n + 1][..n] == infos[..n];
      current, pending := next.current, next.pending;
      n := n + 1;
    }
    assert infos[..n] == infos;
    st := ParseState(current, pending);
  }

  /** The loop of `group_errors_by_type`: a map from each key to its diagnostics, in order */
  method GroupErrors(errors: seq<StructuredError>) returns (grouped: map<string, seq<StructuredError>>)
    ensures IsGrouping(grouped, errors)
  {
    grouped := map[];
    var i := 0;
    while i < |errors|
      invariant 0 <= i <= |errors|
      invariant IsGrouping(grouped, errors[..i])
    {
      var e := errors[i];
      var k := GroupKey(e);
      ghost var before := grouped;
      if k in grouped {
        grouped := grouped[k := grouped[k] + [e]];
      } else {
        grouped := grouped[k := [e]];
      }
      GroupingStep(before, errors, i, grouped);
      i := i + 1;
    }
    assert errors[..i] == errors;
  }

  /** `grouped` maps exactly the keys of `errors`, each to its diagnostics in order */
  ghost predicate IsGrouping(grouped: map<string, seq<StructuredError>>, errors: seq<StructuredError>) {
    grouped.Keys == GroupKeys(errors) && forall k :: k in grouped ==> grouped[k] == WithKey(errors, k)
  }

  /** Appending the next diagnostic to its key's list (opening the list if needed) keeps the grouping */
  lemma GroupingStep(grouped: map<string, seq<StructuredError>>, errors: seq<StructuredError>, i: nat,
                     grouped': map<string, seq<StructuredError>>)
    requires i < |errors| && IsGrouping(grouped, errors[..i])
    requires GroupKey(errors[i]) in grouped ==> grouped' == grouped[GroupKey(errors[i]) := grouped[GroupKey(errors[i])] + [errors[i]]]
    requires GroupKey(errors[i]) !in grouped ==> grouped' == grouped[GroupKey(errors[i]) := [errors[i]]]
    ensures IsGrouping(grouped', errors[..i + 1])
  {
    var k := GroupKey(errors[i]);
    GroupKeysStep(errors, i);
    assert grouped'.Keys == grouped.Keys + {k};
    forall k' | k' in grouped' ensures grouped'[k'] == WithKey(errors[..i + 1], k') {
      WithKeyStep(errors, i, k');
      if k' == k {
        GroupedKeyStep(grouped, errors, i, grouped');
      } else {
        assert grouped'[k'] == grouped[k'];
      }
    }
  }

  /** The key of the next diagnostic: its list gains that diagnostic */
  lemma GroupedKeyStep(grouped: map<string, seq<StructuredError>>, errors: seq<StructuredError>, i: nat,
                       grouped': map<string, seq<StructuredError>>)
    requires i < |errors| && IsGrouping(grouped, errors[..i])
    requires GroupKey(errors[i]) in grouped ==> grouped' == grouped[GroupKey(errors[i]) := grouped[GroupKey(errors[i])] + [errors[i]]]
    requires GroupKey(errors[i]) !in grouped ==> grouped' == grouped[GroupKey(errors[i]) := [errors[i]]]
    ensures GroupKey(errors[i]) in grouped' && grouped'[GroupKey(errors[i])] == WithKey(errors[..i], GroupKey(errors[i])) + [errors[i]]
  {
    var k := GroupKey(errors[i]);
    if k !in grouped {
      NoKeyNoGroup(errors[..i], k);
      assert WithKey(errors[..i], k) + [errors[i]] == [errors[i]];
    }
  }

  lemma {:induction false} NoKeyNoGroup(errors: seq<StructuredError>, k: string)
    requires k !in GroupKeys(errors)
    ensures WithKey(errors, k) == []
  {
    if errors != [] {
      NoKeyNoGroup(errors[..|errors| - 1], k);
    }
  }

  /** The parser's state: the `[ERROR]` lines and the pending and resolved diagnostics */
  class ErrorManager {
    var rawLines: seq<string>
    var pendingErrors: seq<StructuredError>
    var resolvedErrors: seq<StructuredError>

    /** Parse, sort and annotate the diagnostics of `errorLog`; `files` holds the readable sources */
    constructor (errorLog: string, files: map<string, seq<string>>)
      ensures rawLines == ExtractErrorLines(errorLog)
      ensures resolvedErrors == []
      ensures pendingErrors == Annotate(SortByPosition(ParseErrors([], rawLines)), files)
    {
      rawLines := ExtractErrorLines(errorLog);
      pendingErrors := [];
      resolvedErrors := [];
      new;
      ParseAll();
      SortErrors();
      LoadCodeLines(files);
    }

    /** `_parse_errors` */
    method ParseAll()
      modifies this
      ensures rawLines == old(rawLines) && resolvedErrors == old(resolvedErrors)
      ensures pendingErrors == ParseErrors(old(pendingErrors), rawLines)
    {
      var infos := InspectAll(rawLines);
      var fallback := FindSurefireLine(infos);
      var st := RunLines(pendingErrors, infos);
      var current, pending := st.current, st.pending;
      pending := pending + (if current.Some? then [current.value] else []);
      var unique := Deduplicate(pending);
      if unique == [] && fallback.Some? {
        unique := [Unknown(fallback.value)];
      }
      pendingErrors := unique;
    }

    /** `sort_errors` */
    method SortErrors()
      modifies this
      ensures rawLines == old(rawLines)
      ensures pendingErrors == SortByPosition(old(pendingErrors))
      ensures resolvedErrors == SortByPosition(old(resolvedErrors))
    {
      pendingErrors := SortByPosition(pendingErrors);
      resolvedErrors := SortByPosition(resolvedErrors);
    }

    /** `_load_code_lines` */
    method LoadCodeLines(files: map<string, seq<string>>)
      modifies this
      ensures rawLines == old(rawLines) && resolvedErrors == old(resolvedErrors)
      ensures pendingErrors == Annotate(old(pendingErrors), files)
    {
      var i := 0;
      while i < |pendingErrors|
        invariant 0 <= i <= |pendingErrors| == |old(pendingErrors)|
        invariant rawLines == old(rawLines) && resolvedErrors == old(resolvedErrors)
        invariant forall k :: 0 <= k < i ==> pendingErrors[k] == WithCodeLine(old(pendingErrors)[k], files)
        invariant forall k :: i <= k < |pendingErrors| ==> pendingErrors[k] == old(pendingErrors)[k]
      {
        pendingErrors := pendingErrors[i := WithCodeLine(pendingErrors[i], files)];
        i := i + 1;
      }
    }

    /** `get_errors_by_file` */
    function ErrorsByFile(file: string): (r: seq<StructuredError>)
      reads this
      ensures forall e :: e in r <==> e in pendingErrors && e.file == file
      ensures r == ErrorsOfFile(pendingErrors, file)
    {
      ErrorsOfFileMembers(pendingErrors, file);
      ErrorsOfFile(pendingErrors, file)
    }

    /** `group_errors_by_type` */
    method GroupByType() returns (grouped: map<string, seq<StructuredError>>)
      ensures IsGrouping(grouped, pendingErrors)
    {
      grouped := GroupErrors(pendingErrors);
    }
  }
}
