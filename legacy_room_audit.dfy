/**
 * The legacy Room usage audit (`tools/legacy_room_audit.py`): it walks the
 * source tree, runs a fixed list of named patterns over every line of every
 * Kotlin, Java and XML file, and turns the matches into a report (per file,
 * per pattern, with totals) and a plain-text rendering of that report.
 */
module LegacyRoomAudit {
  import opened Wrappers
  import opened Text
  import opened Regex

  // ---------------------------------------------------------------------------
  // Paths

  /**
   * A pathlib path as its `parts`: `Path("a/b.kt")` is `["a", "b.kt"]`, an
   * absolute path starts with the part "/", and `Path(".")` has no parts.
   */
  type Path = seq<string>

  predicate IsAbsolute(p: Path) {
    |p| > 0 && p[0] == "/"
  }

  /** `e in p.parents`: a proper leading part of `p`; the empty path `.` is a
      parent of every non-empty relative path, but of no absolute one. */
  predicate IsParentOf(e: Path, p: Path) {
    |e| < |p| && p[..|e|] == e && (|e| > 0 || !IsAbsolute(p))
  }

  /** pathlib's `name`: the last part, or "" for `.` and `/`. */
  function LastPart(p: Path): string {
    if |p| == 0 || p == ["/"] then "" else p[|p| - 1]
  }

  /** `str(path)`. */
  function PathStr(p: Path): string {
    if |p| == 0 then "."
    else if IsAbsolute(p) then "/" + Join(p[1..], "/")
    else Join(p, "/")
  }

  // ---------------------------------------------------------------------------
  // Patterns

  /** One named search pattern; `regex` is the pattern's source text. */
  datatype PatternSpec = PatternSpec(
    name: string,
    description: string,
    regex: string,
    excludes: seq<Path>,
    tags: seq<string>)

  /** The path is one of the pattern's excluded paths or lies below one. */
  predicate IsExcluded(spec: PatternSpec, path: Path) {
    exists k :: 0 <= k < |spec.excludes| && (path == spec.excludes[k] || IsParentOf(spec.excludes[k], path))
  }

  /** `PatternSpec.matches`: excluded paths never match; otherwise the regex is
      searched for in the line. */
  predicate Matches(spec: PatternSpec, path: Path, line: string, search: RegexSearch) {
    !IsExcluded(spec, path) && search(spec.regex, line)
  }

  const VAULT_REPOSITORY_SOURCE: Path :=
    ["android", "app", "src", "main", "java", "com", "julien", "genpwdpro", "data", "repository",
     "VaultRepository.kt"]

  /**
   * The `room_database_builder` and `room_imports` regexes as written. They are
   * raw strings, so `\\.` reaches the regex engine as an escaped backslash
   * followed by "any character".
   */
  const ROOM_DATABASE_BUILDER_AS_WRITTEN := @"androidx\\.room|Room\\.databaseBuilder"
  const ROOM_IMPORTS_AS_WRITTEN := @"import.*androidx\\.room|import.*VaultDao|import.*VaultEntity"

  /** The same two regexes with the dot escaped once, which is what their
      descriptions ask for. */
  const ROOM_DATABASE_BUILDER_REGEX := @"androidx\.room|Room\.databaseBuilder"
  const ROOM_IMPORTS_REGEX := @"import.*androidx\.room|import.*VaultDao|import.*VaultEntity"

  /** The configured patterns, in order, with their regexes as written. */
  const PATTERNS: seq<PatternSpec> := [
    PatternSpec("legacy_vault_repository", "References to the Room-backed VaultRepository",
                @"\bVaultRepository\b", [VAULT_REPOSITORY_SOURCE], ["legacy", "room"]),
    PatternSpec("room_database_builder", "Direct references to androidx.room APIs",
                ROOM_DATABASE_BUILDER_AS_WRITTEN, [], ["room", "database"]),
    PatternSpec("room_imports", "Import statements for Room classes",
                ROOM_IMPORTS_AS_WRITTEN, [], ["imports", "room"]),
    PatternSpec("room_annotations", "Usage of Room annotations (Entity, Dao, Query, Database)",
                @"@Database|@Entity|@Dao|@Query", [], ["room", "annotations"]),
    PatternSpec("app_database_singletons", "References to AppDatabase (Room concrete DB)",
                @"\bAppDatabase\b", [], ["room", "database"]),
    PatternSpec("flow_vault_entities", "Flow emissions of Room entities",
                @"Flow<.*Vault(Entity|Dao).*>", [], ["reactive", "room"]),
    PatternSpec("coroutine_dao_calls", "Coroutine calls to DAO methods",
                @"suspend\s+fun\s+\w+.*\(.*\).*:\s*(Flow|List)<.*Vault", [], ["coroutines", "room"])
  ]

  predicate DistinctNames(patterns: seq<PatternSpec>) {
    forall i, j :: 0 <= i < j < |patterns| ==> patterns[i].name != patterns[j].name
  }

  /** The configured pattern names are pairwise distinct. */
  lemma PatternNamesDistinct()
    ensures DistinctNames(PATTERNS)
  {
    forall i, j | 0 <= i < j < |PATTERNS| ensures PATTERNS[i].name != PATTERNS[j].name {
      assert |PATTERNS[i].name| != |PATTERNS[j].name| || PATTERNS[i].name[0] != PATTERNS[j].name[0];
    }
  }

  /** The patterns whose name was selected (all of them when nothing was), in
      their configured order. */
  function SelectPatterns(all: seq<PatternSpec>, selected: Option<seq<string>>): (r: seq<PatternSpec>)
    ensures |r| <= |all|
    ensures forall p :: p in r <==> p in all && (selected.None? || p.name in selected.value)
    decreases |all|
  {
    if |all| == 0 then []
    else
      (if selected.None? || all[0].name in selected.value then [all[0]] else [])
      + SelectPatterns(all[1..], selected)
  }

  /** Without a selection every pattern is kept, in order. */
  lemma {:induction false} SelectAll(all: seq<PatternSpec>)
    ensures SelectPatterns(all, None) == all
    decreases |all|
  {
    if |all| > 0 {
      SelectAll(all[1..]);
    }
  }

  /** Selection keeps the configured order: the selected patterns are a
      subsequence of all of them. */
  lemma {:induction false} SelectPatternsInOrder(all: seq<PatternSpec>, selected: Option<seq<string>>)
    ensures exists idx :: SubsequenceAt(idx, SelectPatterns(all, selected), all)
    decreases |all|
  {
    if |all| == 0 {
      assert SubsequenceAt([], SelectPatterns(all, selected), all);
    } else {
      SelectPatternsInOrder(all[1..], selected);
      var rest := SelectPatterns(all[1..], selected);
      var idx: seq<nat> :| SubsequenceAt(idx, rest, all[1..]);
      SubsequenceCons(idx, rest, all[1..], all[0]);
      assert [all[0]] + all[1..] == all;
      if selected.None? || all[0].name in selected.value {
        assert SubsequenceAt([0] + Shifted(idx), SelectPatterns(all, selected), all);
      } else {
        assert SubsequenceAt(Shifted(idx), SelectPatterns(all, selected), all);
      }
    }
  }

  /** Selection keeps pattern names distinct. */
  lemma {:induction false} SelectKeepsNamesDistinct(all: seq<PatternSpec>, selected: Option<seq<string>>)
    requires DistinctNames(all)
    ensures DistinctNames(SelectPatterns(all, selected))
    decreases |all|
  {
    if |all| > 0 {
      var rest := SelectPatterns(all[1..], selected);
      assert DistinctNames(all[1..]) by {
        forall i, j | 0 <= i < j < |all[1..]| ensures all[1..][i].name != all[1..][j].name {
          assert all[1..][i] == all[i + 1] && all[1..][j] == all[j + 1];
        }
      }
      SelectKeepsNamesDistinct(all[1..], selected);
      forall k | 0 <= k < |rest| ensures rest[k].name != all[0].name {
        assert rest[k] in all[1..];
        var m :| 0 <= m < |all[1..]| && all[1..][m] == rest[k];
        assert all[m + 1] == rest[k];
      }
    }
  }

  // ---------------------------------------------------------------------------
  // The source tree

  const DEFAULT_EXTENSIONS: set<string> := {".kt", ".kts", ".java", ".xml"}
  const EXCLUDED_DIR_NAMES: set<string> := {".git", "build", "node_modules", ".gradle", "audit_results"}

  /** A regular file below the scanned root: its path relative to the root and its text. */
  datatype Entry = Entry(rel: Path, text: string)

  /** `iter_source_files` keeps a file when its suffix is a scanned extension and
      no part of its full path is an excluded directory name. */
  predicate Listed(root: Path, e: Entry) {
    var full := root + e.rel;
    FileSuffix(LastPart(full)) in DEFAULT_EXTENSIONS
    && forall k :: 0 <= k < |full| ==> full[k] !in EXCLUDED_DIR_NAMES
  }

  /** The files `iter_source_files` yields, in tree-walk order. */
  function SourceFiles(root: Path, tree: seq<Entry>): (r: seq<Entry>)
    ensures |r| <= |tree|
    ensures forall e :: e in r <==> e in tree && Listed(root, e)
    decreases |tree|
  {
    if |tree| == 0 then []
    else
      var init := SourceFiles(root, tree[..|tree| - 1]);
      var last := tree[|tree| - 1];
      assert forall e :: e in tree <==> e in tree[..|tree| - 1] || e == last;
      if Listed(root, last) then init + [last] else init
  }

  // ---------------------------------------------------------------------------
  // Scanning one file

  /** One reported line: its 1-based number and its stripped text. */
  datatype Match = Match(line: nat, content: string)

  /** The matches of one file, keyed by pattern name. */
  type Findings = map<string, seq<Match>>

  /** `findings.get(name, [])`. */
  function Get(f: Findings, name: string): seq<Match> {
    if name in f then f[name] else []
  }

  /** The findings after the first `k` patterns were tried on one line; `hit`
      is the record a matching pattern appends for that line. */
  function LineStep(acc: Findings, patterns: seq<PatternSpec>, k: nat, path: Path, line: string,
                    hit: Match, search: RegexSearch): Findings
    requires k <= |patterns|
  {
    if k == 0 then acc
    else
      var prev := LineStep(acc, patterns, k - 1, path, line, hit, search);
      var p := patterns[k - 1];
      if Matches(p, path, line, search) then prev[p.name := Get(prev, p.name) + [hit]]
      else prev
  }

  /** The findings of `scan_file` after the first `n` lines. */
  function FileFindings(patterns: seq<PatternSpec>, path: Path, lines: seq<string>, n: nat,
                        search: RegexSearch): Findings
    requires n <= |lines|
  {
    if n == 0 then map[]
    else LineStep(FileFindings(patterns, path, lines, n - 1, search), patterns, |patterns|, path,
                  lines[n - 1], Match(n, Strip(lines[n - 1])), search)
  }

  /** Reference definition: the matches of one pattern among the first `n` lines. */
  function MatchesOf(p: PatternSpec, path: Path, lines: seq<string>, n: nat, search: RegexSearch): seq<Match>
    requires n <= |lines|
  {
    if n == 0 then []
    else MatchesOf(p, path, lines, n - 1, search)
         + (if Matches(p, path, lines[n - 1], search) then [Match(n, Strip(lines[n - 1]))] else [])
  }

  /** The line numbers among the first `n` on which a pattern matches. */
  function MatchingLines(p: PatternSpec, path: Path, lines: seq<string>, n: nat, search: RegexSearch): set<nat>
    requires n <= |lines|
  {
    set i: nat | i < n && Matches(p, path, lines[i], search) :: i + 1
  }

  /** The names of the patterns. */
  function Names(patterns: seq<PatternSpec>): set<string> {
    set q | 0 <= q < |patterns| :: patterns[q].name
  }

  /** No pattern name is kept with an empty list of matches. */
  predicate Sparse(f: Findings) {
    forall key :: key in f ==> f[key] != []
  }

  /** One line adds only pattern names as keys, and never an empty entry. */
  lemma {:induction false} LineStepKeys(acc: Findings, patterns: seq<PatternSpec>, k: nat, path: Path,
                                        line: string, hit: Match, search: RegexSearch)
    requires k <= |patterns| && Sparse(acc)
    ensures Sparse(LineStep(acc, patterns, k, path, line, hit, search))
    ensures LineStep(acc, patterns, k, path, line, hit, search).Keys <= acc.Keys + Names(patterns)
    decreases k
  {
    if k > 0 {
      LineStepKeys(acc, patterns, k - 1, path, line, hit, search);
      assert patterns[k - 1].name in Names(patterns);
    }
  }

  /** Every finding key is a pattern name and no entry is empty. */
  lemma {:induction false} FileFindingsKeys(patterns: seq<PatternSpec>, path: Path, lines: seq<string>,
                                            n: nat, search: RegexSearch)
    requires n <= |lines|
    ensures Sparse(FileFindings(patterns, path, lines, n, search))
    ensures FileFindings(patterns, path, lines, n, search).Keys <= Names(patterns)
    decreases n
  {
    if n > 0 {
      FileFindingsKeys(patterns, path, lines, n - 1, search);
      LineStepKeys(FileFindings(patterns, path, lines, n - 1, search), patterns, |patterns|, path,
                   lines[n - 1], Match(n, Strip(lines[n - 1])), search);
    }
  }

  /** One line adds a match under pattern `q`'s name exactly when that pattern matches it. */
  lemma {:induction false} LineStepGet(acc: Findings, patterns: seq<PatternSpec>, k: nat, path: Path,
                                       line: string, hit: Match, search: RegexSearch, q: nat)
    requires k <= |patterns| && q < |patterns| && DistinctNames(patterns)
    ensures Get(LineStep(acc, patterns, k, path, line, hit, search), patterns[q].name)
            == Get(acc, patterns[q].name)
               + (if q < k && Matches(patterns[q], path, line, search) then [hit] else [])
    decreases k
  {
    if k > 0 {
      var prev := LineStep(acc, patterns, k - 1, path, line, hit, search);
      var p := patterns[k - 1];
      LineStepGet(acc, patterns, k - 1, path, line, hit, search, q);
      if q != k - 1 {
        assert p.name != patterns[q].name;
      }
      if Matches(p, path, line, search) {
        assert LineStep(acc, patterns, k, path, line, hit, search)
               == prev[p.name := Get(prev, p.name) + [hit]];
      } else {
        assert LineStep(acc, patterns, k, path, line, hit, search) == prev;
      }
    }
  }

  /**
   * `scan_file` keys its findings by pattern name: the name of pattern `q`
   * holds exactly that pattern's matches (and so is present only when it
   * matched at least once).
   */
  lemma {:induction false} FileFindingsPerPattern(patterns: seq<PatternSpec>, path: Path, lines: seq<string>,
                                                  n: nat, search: RegexSearch, q: nat)
    requires n <= |lines| && q < |patterns| && DistinctNames(patterns)
    ensures Get(FileFindings(patterns, path, lines, n, search), patterns[q].name)
            == MatchesOf(patterns[q], path, lines, n, search)
    decreases n
  {
    if n > 0 {
      FileFindingsPerPattern(patterns, path, lines, n - 1, search, q);
      LineStepGet(FileFindings(patterns, path, lines, n - 1, search), patterns, |patterns|, path,
                  lines[n - 1], Match(n, Strip(lines[n - 1])), search, q);
    }
  }

  /** Each match of a pattern is one of its matching lines, with that line's stripped text. */
  lemma {:induction false} MatchesOfAreMatchingLines(p: PatternSpec, path: Path, lines: seq<string>, n: nat,
                                                     search: RegexSearch)
    requires n <= |lines|
    ensures forall m :: m in MatchesOf(p, path, lines, n, search) ==>
              1 <= m.line <= n && m.content == Strip(lines[m.line - 1]) && Matches(p, path, lines[m.line - 1], search)
    decreases n
  {
    if n > 0 {
      MatchesOfAreMatchingLines(p, path, lines, n - 1, search);
      var before := MatchesOf(p, path, lines, n - 1, search);
      forall m | m in MatchesOf(p, path, lines, n, search)
        ensures 1 <= m.line <= n && m.content == Strip(lines[m.line - 1]) && Matches(p, path, lines[m.line - 1], search)
      {
        if m !in before {
          assert m == Match(n, Strip(lines[n - 1]));
        }
      }
    }
  }

  /** The matches of a pattern come in strictly ascending line order. */
  lemma {:induction false} MatchesOfAscending(p: PatternSpec, path: Path, lines: seq<string>, n: nat,
                                              search: RegexSearch)
    requires n <= |lines|
    ensures forall k, j :: 0 <= k < j < |MatchesOf(p, path, lines, n, search)| ==>
              MatchesOf(p, path, lines, n, search)[k].line < MatchesOf(p, path, lines, n, search)[j].line
    decreases n
  {
    if n > 0 {
      MatchesOfAscending(p, path, lines, n - 1, search);
      MatchesOfAreMatchingLines(p, path, lines, n - 1, search);
      var before := MatchesOf(p, path, lines, n - 1, search);
      assert forall k :: 0 <= k < |before| ==> before[k] in before;
    }
  }

  /** There is one match per matching line. */
  lemma {:induction false} MatchesOfCount(p: PatternSpec, path: Path, lines: seq<string>, n: nat,
                                          search: RegexSearch)
    requires n <= |lines|
    ensures |MatchesOf(p, path, lines, n, search)| == |MatchingLines(p, path, lines, n, search)|
    decreases n
  {
    if n > 0 {
      MatchesOfCount(p, path, lines, n - 1, search);
      var before := MatchingLines(p, path, lines, n - 1, search);
      var now := MatchingLines(p, path, lines, n, search);
      if Matches(p, path, lines[n - 1], search) {
        assert now == before + {n};
        assert n !in before;
      } else {
        assert now == before;
      }
    }
  }

  /**
   * The exclusion list of a pattern, as `PatternSpec.matches` applies it: a
   * path equal to or below an excluded path matches on no line.
   */
  lemma {:induction false} ExcludedPathHasNoMatches(p: PatternSpec, path: Path, lines: seq<string>, n: nat,
                                                    search: RegexSearch)
    requires n <= |lines| && IsExcluded(p, path)
    ensures MatchesOf(p, path, lines, n, search) == []
    decreases n
  {
    if n > 0 {
      ExcludedPathHasNoMatches(p, path, lines, n - 1, search);
    }
  }

  /** The inner loop of `scan_file`: one line against every pattern, in order. */
  method ScanLine(acc: Findings, patterns: seq<PatternSpec>, path: Path, line: string, lineNum: nat,
                  search: RegexSearch) returns (findings: Findings)
    ensures findings == LineStep(acc, patterns, |patterns|, path, line, Match(lineNum, Strip(line)), search)
  {
    findings := acc;
    for j := 0 to |patterns|
      invariant findings == LineStep(acc, patterns, j, path, line, Match(lineNum, Strip(line)), search)
    {
      var p := patterns[j];
      if Matches(p, path, line, search) {
        var current := if p.name in findings then findings[p.name] else [];
        findings := findings[p.name := current + [Match(lineNum, Strip(line))]];
      }
    }
  }

  /** `scan_file`: every line of the file against every pattern, in order. */
  method ScanFile(path: Path, text: string, patterns: seq<PatternSpec>, search: RegexSearch)
    returns (findings: Findings)
    ensures findings == FileFindings(patterns, path, SplitLines(text), |SplitLines(text)|, search)
    ensures Sparse(findings) && findings.Keys <= Names(patterns)
    ensures DistinctNames(patterns) ==> forall q :: 0 <= q < |patterns| ==>
              Get(findings, patterns[q].name) == MatchesOf(patterns[q], path, SplitLines(text), |SplitLines(text)|, search)
  {
    var lines := SplitLines(text);
    findings := map[];
    for i := 0 to |lines|
      invariant findings == FileFindings(patterns, path, lines, i, search)
    {
      findings := ScanLine(findings, patterns, path, lines[i], i + 1, search);
    }
    FileFindingsKeys(patterns, path, lines, |lines|, search);
    if DistinctNames(patterns) {
      forall q | 0 <= q < |patterns|
        ensures Get(findings, patterns[q].name) == MatchesOf(patterns[q], path, lines, |lines|, search)
      {
        FileFindingsPerPattern(patterns, path, lines, |lines|, search, q);
      }
    }
  }

  // ---------------------------------------------------------------------------
  // Excluded paths and the scanned root

  /** Every configured exclude is a relative path. */
  predicate RelativeExcludes(spec: PatternSpec) {
    forall k :: 0 <= k < |spec.excludes| ==> !IsAbsolute(spec.excludes[k])
  }

  /**
   * `build_report` hands `scan_file` the file's path under the root, and the
   * command line always resolves the root to an absolute path. A relative
   * exclude can neither equal such a path nor be one of its parents, so the
   * pattern then matches every line its regex matches, excluded or not.
   */
  lemma AbsoluteRootDisablesExcludes(spec: PatternSpec, root: Path, rel: Path, line: string,
                                     search: RegexSearch)
    requires IsAbsolute(root) && RelativeExcludes(spec)
    ensures Matches(spec, root + rel, line, search) <==> search(spec.regex, line)
  {
    var full := root + rel;
    assert full[0] == "/";
    forall k | 0 <= k < |spec.excludes|
      ensures full != spec.excludes[k] && !IsParentOf(spec.excludes[k], full)
    {
      var e := spec.excludes[k];
      assert |e| == 0 || e[0] != full[0];
      assert |e| == 0 || |e| > |full| || full[..|e|][0] != e[0];
    }
  }

  /**
   * The repository's own `VaultRepository.kt`, which the first pattern
   * excludes, is excluded under its path relative to the root but not under
   * the absolute path the command line scans it with.
   */
  lemma VaultRepositoryExcludedOnlyWhenRelative(line: string, search: RegexSearch)
    ensures !Matches(PATTERNS[0], VAULT_REPOSITORY_SOURCE, line, search)
    ensures Matches(PATTERNS[0], ["/", "repo"] + VAULT_REPOSITORY_SOURCE, line, search) <==> search(PATTERNS[0].regex, line)
  {
    assert VAULT_REPOSITORY_SOURCE == PATTERNS[0].excludes[0];
    assert VAULT_REPOSITORY_SOURCE[0] != "/";
    AbsoluteRootDisablesExcludes(PATTERNS[0], ["/", "repo"], VAULT_REPOSITORY_SOURCE, line, search);
  }

  // ---------------------------------------------------------------------------
  // The report

  /** The description and tags `build_report` records for a pattern. */
  datatype PatternMeta = PatternMeta(description: string, tags: seq<string>)

  /** The report: the scanned root, the selected patterns, the findings of every
      file with at least one match (keyed by its path under the root) and the
      number of matches per pattern. */
  datatype Report = Report(
    root: string,
    patterns: map<string, PatternMeta>,
    files: map<string, Findings>,
    totals: map<string, nat>)

  const NO_PATTERNS_SELECTED := "No patterns selected for the scan"

  /** `{p.name: {...} for p in patterns}`. */
  function MetaOf(patterns: seq<PatternSpec>): (r: map<string, PatternMeta>)
    ensures r.Keys == Names(patterns)
    decreases |patterns|
  {
    if |patterns| == 0 then map[]
    else
      var init := patterns[..|patterns| - 1];
      var last := patterns[|patterns| - 1];
      NamesOfSnoc(init, last);
      assert patterns == init + [last];
      MetaOf(init)[last.name := PatternMeta(last.description, last.tags)]
  }

  /** `{p.name: 0 for p in patterns}`. */
  function ZeroTotals(patterns: seq<PatternSpec>): (r: map<string, nat>)
    ensures r.Keys == Names(patterns)
    ensures forall k :: k in r ==> r[k] == 0
    decreases |patterns|
  {
    if |patterns| == 0 then map[]
    else
      var init := patterns[..|patterns| - 1];
      var last := patterns[|patterns| - 1];
      NamesOfSnoc(init, last);
      assert patterns == init + [last];
      ZeroTotals(init)[last.name := 0]
  }

  lemma NamesOfSnoc(init: seq<PatternSpec>, last: PatternSpec)
    ensures Names(init + [last]) == Names(init) + {last.name}
  {
    var s := init + [last];
    assert forall q :: 0 <= q < |init| ==> s[q] == init[q];
    assert s[|init|] == last;
  }

  /** Each total grows by the number of matches the file has for that name. */
  function AddCounts(totals: map<string, nat>, f: Findings): (r: map<string, nat>)
    ensures r.Keys == totals.Keys
  {
    map k | k in totals :: totals[k] + |Get(f, k)|
  }

  /** `scan_file(file_path, patterns)` in `build_report`: the patterns see the
      path the tree walk yields, the root followed by the file's path below it. */
  function ScanOf(root: Path, e: Entry, patterns: seq<PatternSpec>, search: RegexSearch): Findings {
    FileFindings(patterns, root + e.rel, SplitLines(e.text), |SplitLines(e.text)|, search)
  }

  /** The `files` entry after the first `n` listed files. */
  function FilesOf(root: Path, sources: seq<Entry>, patterns: seq<PatternSpec>, search: RegexSearch, n: nat): map<string, Findings>
    requires n <= |sources|
  {
    if n == 0 then map[]
    else
      var prev := FilesOf(root, sources, patterns, search, n - 1);
      var f := ScanOf(root, sources[n - 1], patterns, search);
      if f == map[] then prev else prev[PathStr(sources[n - 1].rel) := f]
  }

  /** The `totals` entry after the first `n` listed files. */
  function TotalsOf(root: Path, sources: seq<Entry>, patterns: seq<PatternSpec>, search: RegexSearch, n: nat): map<string, nat>
    requires n <= |sources|
  {
    if n == 0 then ZeroTotals(patterns)
    else
      var prev := TotalsOf(root, sources, patterns, search, n - 1);
      TotalsAfter(prev, ScanOf(root, sources[n - 1], patterns, search))
  }

  /** The totals after one file: a file without findings changes nothing. */
  function TotalsAfter(prev: map<string, nat>, f: Findings): map<string, nat> {
    if f == map[] then prev else AddCounts(prev, f)
  }

  /** The report `build_report` returns for the given patterns. */
  function ReportOf(root: Path, tree: seq<Entry>, patterns: seq<PatternSpec>, search: RegexSearch): Report {
    var sources := SourceFiles(root, tree);
    Report(PathStr(root), MetaOf(patterns), FilesOf(root, sources, patterns, search, |sources|),
           TotalsOf(root, sources, patterns, search, |sources|))
  }

  /** Reference definition: how many lines of the first `n` listed files pattern `p` matches. */
  function MatchTotal(p: PatternSpec, root: Path, sources: seq<Entry>, search: RegexSearch, n: nat): nat
    requires n <= |sources|
  {
    if n == 0 then 0
    else
      var lines := SplitLines(sources[n - 1].text);
      MatchTotal(p, root, sources, search, n - 1) + |MatchingLines(p, root + sources[n - 1].rel, lines, |lines|, search)|
  }

  /** The totals keep one entry per selected pattern. */
  lemma {:induction false} TotalsKeys(root: Path, sources: seq<Entry>, patterns: seq<PatternSpec>, search: RegexSearch, n: nat)
    requires n <= |sources|
    ensures TotalsOf(root, sources, patterns, search, n).Keys == Names(patterns)
    decreases n
  {
    if n > 0 {
      TotalsKeys(root, sources, patterns, search, n - 1);
    }
  }

  /** A file's findings added to the totals counts its matches under each name. */
  lemma TotalsAfterCounts(prev: map<string, nat>, f: Findings, name: string)
    requires name in prev
    ensures name in TotalsAfter(prev, f)
    ensures TotalsAfter(prev, f)[name] == prev[name] + |Get(f, name)|
  {
    if f == map[] {
      assert Get(f, name) == [];
    }
  }

  /** The matches one file records under a pattern's name are as many as the lines it matches. */
  lemma ScanCountsMatchingLines(root: Path, e: Entry, patterns: seq<PatternSpec>, search: RegexSearch, q: nat)
    requires q < |patterns| && DistinctNames(patterns)
    ensures |Get(ScanOf(root, e, patterns, search), patterns[q].name)|
            == |MatchingLines(patterns[q], root + e.rel, SplitLines(e.text), |SplitLines(e.text)|, search)|
  {
    var lines := SplitLines(e.text);
    FileFindingsPerPattern(patterns, root + e.rel, lines, |lines|, search, q);
    MatchesOfCount(patterns[q], root + e.rel, lines, |lines|, search);
  }

  /** One more file adds to a pattern's total what that file adds to its match count. */
  lemma TotalsStep(root: Path, sources: seq<Entry>, patterns: seq<PatternSpec>, search: RegexSearch, n: nat, q: nat)
    requires 0 < n <= |sources| && q < |patterns| && DistinctNames(patterns)
    requires patterns[q].name in TotalsOf(root, sources, patterns, search, n - 1)
    ensures patterns[q].name in TotalsOf(root, sources, patterns, search, n)
    ensures TotalsOf(root, sources, patterns, search, n)[patterns[q].name]
            == TotalsOf(root, sources, patterns, search, n - 1)[patterns[q].name]
               + MatchTotal(patterns[q], root, sources, search, n) - MatchTotal(patterns[q], root, sources, search, n - 1)
  {
    var prev := TotalsOf(root, sources, patterns, search, n - 1);
    var f := ScanOf(root, sources[n - 1], patterns, search);
    TotalsAfterCounts(prev, f, patterns[q].name);
    ScanCountsMatchingLines(root, sources[n - 1], patterns, search, q);
  }

  /** Each pattern's total is the number of lines it matches across all listed files. */
  lemma {:induction false} TotalsCountMatchingLines(root: Path, sources: seq<Entry>, patterns: seq<PatternSpec>,
                                                    search: RegexSearch, n: nat, q: nat)
    requires n <= |sources| && q < |patterns| && DistinctNames(patterns)
    ensures patterns[q].name in TotalsOf(root, sources, patterns, search, n)
    ensures TotalsOf(root, sources, patterns, search, n)[patterns[q].name] == MatchTotal(patterns[q], root, sources, search, n)
    decreases n
  {
    if n > 0 {
      TotalsCountMatchingLines(root, sources, patterns, search, n - 1, q);
      TotalsStep(root, sources, patterns, search, n, q);
    } else {
      TotalsKeys(root, sources, patterns, search, n);
      assert patterns[q].name in Names(patterns);
      assert TotalsOf(root, sources, patterns, search, n) == ZeroTotals(patterns);
    }
  }

  /**
   * Every file in the report is a listed file with at least one match, keyed
   * by its path under the root, and holds that file's findings.
   */
  lemma {:induction false} FilesRecordScans(root: Path, sources: seq<Entry>, patterns: seq<PatternSpec>,
                                            search: RegexSearch, n: nat)
    requires n <= |sources|
    ensures forall key :: key in FilesOf(root, sources, patterns, search, n) ==>
              exists i :: 0 <= i < n && key == PathStr(sources[i].rel)
                          && FilesOf(root, sources, patterns, search, n)[key] == ScanOf(root, sources[i], patterns, search)
                          && ScanOf(root, sources[i], patterns, search) != map[]
    decreases n
  {
    if n > 0 {
      FilesRecordScans(root, sources, patterns, search, n - 1);
    }
  }

  /** A listed file with a match is in the report under its path (the last
      listed file with that path wins, as in a dictionary). */
  lemma {:induction false} ScannedFilesRecorded(root: Path, sources: seq<Entry>, patterns: seq<PatternSpec>,
                                                search: RegexSearch, n: nat, i: nat)
    requires i < n <= |sources| && ScanOf(root, sources[i], patterns, search) != map[]
    ensures PathStr(sources[i].rel) in FilesOf(root, sources, patterns, search, n)
    decreases n
  {
    if i < n - 1 {
      ScannedFilesRecorded(root, sources, patterns, search, n - 1, i);
    }
  }

  /** A file below one of a pattern's excluded paths gets no entry for that
      pattern when it is scanned under its path below the root. */
  lemma ExcludedFileHasNoFindings(e: Entry, patterns: seq<PatternSpec>, search: RegexSearch, q: nat)
    requires q < |patterns| && DistinctNames(patterns) && IsExcluded(patterns[q], e.rel)
    ensures patterns[q].name !in IntendedScanOf(e, patterns, search)
  {
    var lines := SplitLines(e.text);
    FileFindingsPerPattern(patterns, e.rel, lines, |lines|, search, q);
    ExcludedPathHasNoMatches(patterns[q], e.rel, lines, |lines|, search);
    FileFindingsKeys(patterns, e.rel, lines, |lines|, search);
  }

  // ---------------------------------------------------------------------------
  // The path the patterns see

  /** The scan the exclusion lists are written for: the patterns see the
      file's path below the root. */
  function IntendedScanOf(e: Entry, patterns: seq<PatternSpec>, search: RegexSearch): Findings {
    FileFindings(patterns, e.rel, SplitLines(e.text), |SplitLines(e.text)|, search)
  }

  /** No pattern has an exclusion list. */
  predicate NoExcludes(patterns: seq<PatternSpec>) {
    forall q :: 0 <= q < |patterns| ==> patterns[q].excludes == []
  }

  /** Without exclusion lists the path a line is tried under makes no difference. */
  lemma {:induction false} LineStepPathFree(acc: Findings, patterns: seq<PatternSpec>, k: nat, path: Path,
                                            other: Path, line: string, hit: Match, search: RegexSearch)
    requires k <= |patterns| && NoExcludes(patterns)
    ensures LineStep(acc, patterns, k, path, line, hit, search) == LineStep(acc, patterns, k, other, line, hit, search)
    decreases k
  {
    if k > 0 {
      LineStepPathFree(acc, patterns, k - 1, path, other, line, hit, search);
      var p := patterns[k - 1];
      assert p.excludes == [];
      assert Matches(p, path, line, search) == Matches(p, other, line, search);
    }
  }

  lemma {:induction false} FileFindingsPathFree(patterns: seq<PatternSpec>, path: Path, other: Path,
                                                lines: seq<string>, n: nat, search: RegexSearch)
    requires n <= |lines| && NoExcludes(patterns)
    ensures FileFindings(patterns, path, lines, n, search) == FileFindings(patterns, other, lines, n, search)
    decreases n
  {
    if n > 0 {
      FileFindingsPathFree(patterns, path, other, lines, n - 1, search);
      LineStepPathFree(FileFindings(patterns, path, lines, n - 1, search), patterns, |patterns|, path, other,
                       lines[n - 1], Match(n, Strip(lines[n - 1])), search);
    }
  }

  /** The scan as written and the intended one agree when the root is `.` or
      when no selected pattern excludes anything. */
  lemma ScanAgreesWithIntended(root: Path, e: Entry, patterns: seq<PatternSpec>, search: RegexSearch)
    requires root == [] || NoExcludes(patterns)
    ensures ScanOf(root, e, patterns, search) == IntendedScanOf(e, patterns, search)
  {
    var lines := SplitLines(e.text);
    if root == [] {
      assert root + e.rel == e.rel;
    } else {
      FileFindingsPathFree(patterns, root + e.rel, e.rel, lines, |lines|, search);
    }
  }

  /** A pattern that matches one of the lines has an entry in the file's findings. */
  lemma MatchingLineRecorded(patterns: seq<PatternSpec>, path: Path, lines: seq<string>, search: RegexSearch,
                             q: nat, i: nat)
    requires q < |patterns| && DistinctNames(patterns) && i < |lines|
    requires Matches(patterns[q], path, lines[i], search)
    ensures patterns[q].name in FileFindings(patterns, path, lines, |lines|, search)
  {
    FileFindingsPerPattern(patterns, path, lines, |lines|, search, q);
    MatchesOfCount(patterns[q], path, lines, |lines|, search);
    assert i + 1 in MatchingLines(patterns[q], path, lines, |lines|, search);
  }

  /**
   * Under an absolute root, as `main` always passes, the repository's own
   * `VaultRepository.kt` gets an entry for the pattern that excludes it as
   * soon as one of its lines matches the regex; scanned under its path below
   * the root it gets none.
   */
  lemma VaultRepositoryReportedUnderAbsoluteRoot(root: Path, text: string, search: RegexSearch, i: nat)
    requires IsAbsolute(root) && i < |SplitLines(text)|
    requires search(PATTERNS[0].regex, SplitLines(text)[i])
    ensures PATTERNS[0].name in ScanOf(root, Entry(VAULT_REPOSITORY_SOURCE, text), PATTERNS, search)
    ensures PATTERNS[0].name !in IntendedScanOf(Entry(VAULT_REPOSITORY_SOURCE, text), PATTERNS, search)
  {
    var e := Entry(VAULT_REPOSITORY_SOURCE, text);
    var lines := SplitLines(text);
    PatternNamesDistinct();
    assert RelativeExcludes(PATTERNS[0]) by {
      assert PATTERNS[0].excludes == [VAULT_REPOSITORY_SOURCE];
      assert VAULT_REPOSITORY_SOURCE[0] != "/";
    }
    AbsoluteRootDisablesExcludes(PATTERNS[0], root, e.rel, lines[i], search);
    MatchingLineRecorded(PATTERNS, root + e.rel, lines, search, 0, i);
    assert IsExcluded(PATTERNS[0], e.rel) by {
      assert e.rel == PATTERNS[0].excludes[0];
    }
    ExcludedFileHasNoFindings(e, PATTERNS, search, 0);
  }

  /** The totals once the names in `done` have been added. */
  function PartialCounts(totals: map<string, nat>, f: Findings, done: set<string>): map<string, nat> {
    map k | k in totals :: totals[k] + (if k in done then |Get(f, k)| else 0)
  }

  lemma PartialCountsStep(totals: map<string, nat>, f: Findings, done: set<string>, name: string)
    requires name in totals && name !in done
    ensures PartialCounts(totals, f, done + {name})
            == PartialCounts(totals, f, done)[name := PartialCounts(totals, f, done)[name] + |Get(f, name)|]
  {
  }

  lemma PartialCountsAll(totals: map<string, nat>, f: Findings)
    ensures PartialCounts(totals, f, f.Keys) == AddCounts(totals, f)
  {
  }

  /** `totals[name] += len(matches)` for every name of one file's findings, in
      whatever order the findings are enumerated. */
  method AddTotals(totals: map<string, nat>, f: Findings) returns (t: map<string, nat>)
    requires f.Keys <= totals.Keys
    ensures t == AddCounts(totals, f)
  {
    t := totals;
    var remaining := f.Keys;
    while remaining != {}
      invariant remaining <= f.Keys
      invariant t == PartialCounts(totals, f, f.Keys - remaining)
      decreases remaining
    {
      var name :| name in remaining;
      PartialCountsStep(totals, f, f.Keys - remaining, name);
      assert f.Keys - (remaining - {name}) == (f.Keys - remaining) + {name};
      t := t[name := t[name] + |f[name]|];
      remaining := remaining - {name};
    }
    PartialCountsAll(totals, f);
  }

  /** The body of `build_report`'s loop: scan one listed file and, when it has
      a match, record its findings and add them to the totals. */
  method RecordFile(files: map<string, Findings>, totals: map<string, nat>, root: Path, e: Entry,
                    patterns: seq<PatternSpec>, search: RegexSearch)
    returns (files': map<string, Findings>, totals': map<string, nat>)
    requires totals.Keys == Names(patterns)
    ensures var f := ScanOf(root, e, patterns, search);
            files' == (if f == map[] then files else files[PathStr(e.rel) := f])
            && totals' == TotalsAfter(totals, f)
  {
    var fileFindings := ScanFile(root + e.rel, e.text, patterns, search);
    if fileFindings == map[] {
      return files, totals;
    }
    files' := files[PathStr(e.rel) := fileFindings];
    totals' := AddTotals(totals, fileFindings);
  }

  /** The loop of `build_report` over the listed files. */
  method ScanSources(root: Path, sources: seq<Entry>, patterns: seq<PatternSpec>, search: RegexSearch)
    returns (files: map<string, Findings>, totals: map<string, nat>)
    ensures files == FilesOf(root, sources, patterns, search, |sources|)
    ensures totals == TotalsOf(root, sources, patterns, search, |sources|)
  {
    files := map[];
    totals := ZeroTotals(patterns);
    for i := 0 to |sources|
      invariant files == FilesOf(root, sources, patterns, search, i)
      invariant totals == TotalsOf(root, sources, patterns, search, i)
    {
      TotalsKeys(root, sources, patterns, search, i);
      files, totals := RecordFile(files, totals, root, sources[i], patterns, search);
    }
  }

  /** `build_report`: scans every listed file with the selected patterns, or
      stops when the selection leaves no pattern. */
  method BuildReport(root: Path, tree: seq<Entry>, selected: Option<seq<string>>, search: RegexSearch)
    returns (r: Result<Report, string>)
    ensures r.Failure? <==> SelectPatterns(PATTERNS, selected) == []
    ensures r.Failure? ==> r.error == NO_PATTERNS_SELECTED
    ensures r.Success? ==> r.value == ReportOf(root, tree, SelectPatterns(PATTERNS, selected), search)
  {
    var patterns := SelectPatterns(PATTERNS, selected);
    if patterns == [] {
      return Failure(NO_PATTERNS_SELECTED);
    }
    var files, totals := ScanSources(root, SourceFiles(root, tree), patterns, search);
    r := Success(Report(PathStr(root), MetaOf(patterns), files, totals));
  }

  // ---------------------------------------------------------------------------
  // The plain-text rendering

  const REPORT_TITLE := "Legacy Room usage report"
  /** The file's text holds the closing emoji and the bullet as the characters
      of their UTF-8 bytes read as Windows-1252; the model keeps them so. */
  const NO_MATCHES_LINE := "  No matches found. \U{00F0}\U{0178}\U{017D}\U{2030}"

  /** `patterns_meta.get(name, {}).get("description", "")`. */
  function Description(meta: map<string, PatternMeta>, name: string): string {
    if name in meta then meta[name].description else ""
  }

  function SummaryLine(name: string, description: string, count: nat): string {
    "- " + name + " (" + description + "): " + NatToString(count)
  }

  function PatternHeader(name: string, count: nat): string {
    "  \U{00E2}\U{20AC}\U{00A2} " + name + " (" + NatToString(count) + " match(es))"
  }

  function MatchLine(m: Match): string {
    "    L" + NatToString(m.line) + ": " + m.content
  }

  /** The summary lines of the first `n` names. */
  function SummaryLines(names: seq<string>, totals: map<string, nat>, meta: map<string, PatternMeta>, n: nat): seq<string>
    requires n <= |names|
  {
    if n == 0 then []
    else
      var name := names[n - 1];
      SummaryLines(names, totals, meta, n - 1)
      + [SummaryLine(name, Description(meta, name), if name in totals then totals[name] else 0)]
  }

  /** The lines of the first `n` matches of one pattern. */
  function MatchLines(matches: seq<Match>, n: nat): seq<string>
    requires n <= |matches|
  {
    if n == 0 then [] else MatchLines(matches, n - 1) + [MatchLine(matches[n - 1])]
  }

  /** The blocks of the first `n` pattern names of one file. */
  function PatternBlocks(f: Findings, names: seq<string>, n: nat): seq<string>
    requires n <= |names|
  {
    if n == 0 then []
    else
      var matches := Get(f, names[n - 1]);
      PatternBlocks(f, names, n - 1) + [PatternHeader(names[n - 1], |matches|)] + MatchLines(matches, |matches|)
  }

  /** One file: its path, a block per pattern name in the given order, then a blank line. */
  function FileBlock(path: string, f: Findings, names: seq<string>): seq<string> {
    ["- " + path] + PatternBlocks(f, names, |names|) + [""]
  }

  function FindingsAt(files: map<string, Findings>, path: string): Findings {
    if path in files then files[path] else map[]
  }

  /** The blocks of the first `n` paths. */
  function FileBlocks(files: map<string, Findings>, paths: seq<string>, n: nat): seq<string>
    requires n <= |paths|
  {
    if n == 0 then []
    else
      var f := FindingsAt(files, paths[n - 1]);
      FileBlocks(files, paths, n - 1) + FileBlock(paths[n - 1], f, SortedStrings(f.Keys))
  }

  function ReportHeader(r: Report): seq<string> {
    [REPORT_TITLE, "Root: " + r.root, "", "Summary by pattern:"]
  }

  /** The lines `_format_human_report` collects, in order. */
  function ReportLines(r: Report): seq<string> {
    var names := SortedStrings(r.totals.Keys);
    var paths := SortedStrings(r.files.Keys);
    ReportHeader(r) + SummaryLines(names, r.totals, r.patterns, |names|) + ["", "Detailed findings:"]
    + (if r.files == map[] then [NO_MATCHES_LINE] else FileBlocks(r.files, paths, |paths|))
  }

  /** The text `_format_human_report` returns. */
  function Render(r: Report): string {
    if r.files == map[] then Join(ReportLines(r), "\n")
    else RStrip(Join(ReportLines(r), "\n")) + "\n"
  }

  /** Appends the block of one pattern of one file to the report lines. */
  method AppendPattern(lines: seq<string>, name: string, matches: seq<Match>) returns (out: seq<string>)
    ensures out == lines + [PatternHeader(name, |matches|)] + MatchLines(matches, |matches|)
  {
    out := lines + [PatternHeader(name, |matches|)];
    for k := 0 to |matches|
      invariant out == lines + [PatternHeader(name, |matches|)] + MatchLines(matches, k)
    {
      out := out + [MatchLine(matches[k])];
    }
  }

  /** One more pattern block extends the blocks of the names before it. */
  lemma PatternBlockStep(start: seq<string>, before: seq<string>, after: seq<string>, f: Findings,
                         names: seq<string>, j: nat)
    requires j < |names|
    requires before == start + PatternBlocks(f, names, j)
    requires after == before + [PatternHeader(names[j], |Get(f, names[j])|)] + MatchLines(Get(f, names[j]), |Get(f, names[j])|)
    ensures after == start + PatternBlocks(f, names, j + 1)
  {
    var matches := Get(f, names[j]);
    var blocks := PatternBlocks(f, names, j);
    var header := [PatternHeader(names[j], |matches|)];
    var body := MatchLines(matches, |matches|);
    calc {
      after;
      ((start + blocks) + header) + body;
      { AppendAssoc(start + blocks, header, body); }
      (start + blocks) + (header + body);
      { AppendAssoc(start, blocks, header + body); }
      start + (blocks + (header + body));
      { AppendAssoc(blocks, header, body); }
      start + ((blocks + header) + body);
    }
  }

  /** Appends the lines of one file, with its pattern names in the given order. */
  method AppendFile(lines: seq<string>, path: string, f: Findings, names: seq<string>) returns (out: seq<string>)
    ensures out == lines + FileBlock(path, f, names)
  {
    out := lines + ["- " + path];
    for j := 0 to |names|
      invariant out == lines + ["- " + path] + PatternBlocks(f, names, j)
    {
      ghost var before := out;
      out := AppendPattern(out, names[j], Get(f, names[j]));
      PatternBlockStep(lines + ["- " + path], before, out, f, names, j);
    }
    out := out + [""];
    AppendAssoc(lines, ["- " + path] + PatternBlocks(f, names, |names|), [""]);
  }

  /** Appends the summary line of every name. */
  method AppendSummary(lines: seq<string>, names: seq<string>, totals: map<string, nat>,
                       meta: map<string, PatternMeta>) returns (out: seq<string>)
    ensures out == lines + SummaryLines(names, totals, meta, |names|)
  {
    out := lines;
    for j := 0 to |names|
      invariant out == lines + SummaryLines(names, totals, meta, j)
    {
      var name := names[j];
      var count := if name in totals then totals[name] else 0;
      out := out + [SummaryLine(name, Description(meta, name), count)];
    }
  }

  /** Appends the blocks of the files at `paths`, in that order. */
  method AppendFiles(lines: seq<string>, files: map<string, Findings>, paths: seq<string>) returns (out: seq<string>)
    ensures out == lines + FileBlocks(files, paths, |paths|)
  {
    out := lines;
    for i := 0 to |paths|
      invariant out == lines + FileBlocks(files, paths, i)
    {
      var findings := FindingsAt(files, paths[i]);
      var names := SortedStrings(findings.Keys);
      out := AppendFile(out, paths[i], findings, names);
      AppendAssoc(lines, FileBlocks(files, paths, i), FileBlock(paths[i], findings, names));
    }
  }

  /** `_format_human_report`. */
  method FormatHumanReport(report: Report) returns (text: string)
    ensures text == Render(report)
  {
    var names := SortedStrings(report.totals.Keys);
    var lines := AppendSummary(ReportHeader(report), names, report.totals, report.patterns);
    lines := lines + ["", "Detailed findings:"];
    if report.files == map[] {
      lines := lines + [NO_MATCHES_LINE];
      return Join(lines, "\n");
    }
    var paths := SortedStrings(report.files.Keys);
    lines := AppendFiles(lines, report.files, paths);
    text := RStrip(Join(lines, "\n")) + "\n";
  }

  // ---------------------------------------------------------------------------
  // Properties of the rendering

  /** The first report line is the title; without files the last one says so. */
  lemma ReportLinesEnds(r: Report)
    ensures |ReportLines(r)| >= 1 && ReportLines(r)[0] == REPORT_TITLE
    ensures r.files == map[] ==> ReportLines(r)[|ReportLines(r)| - 1] == NO_MATCHES_LINE
  {
  }

  /**
   * The text starts with the title line. A report without files ends with
   * the "no matches" line; any other report ends with exactly one newline,
   * right after the last non-blank character.
   */
  lemma RenderEnds(r: Report)
    ensures IsPrefix(REPORT_TITLE, Render(r))
    ensures r.files == map[] ==> EndsWith(Render(r), NO_MATCHES_LINE)
    ensures r.files != map[] ==>
              |Render(r)| >= 2 && Render(r)[|Render(r)| - 1] == '\n' && !IsSpace(Render(r)[|Render(r)| - 2])
  {
    var lines := ReportLines(r);
    ReportLinesEnds(r);
    var s := Join(lines, "\n");
    JoinStartsWithFirst(lines, "\n");
    JoinEndsWithLast(lines, "\n");
    if r.files != map[] {
      assert REPORT_TITLE[|REPORT_TITLE| - 1] == 't';
      RStripKeepsPrefix(REPORT_TITLE, s);
      RStripTrims(s);
      var kept := RStrip(s);
      assert Render(r) == kept + "\n";
      assert (kept + "\n")[..|REPORT_TITLE|] == kept[..|REPORT_TITLE|];
    }
  }

  /** Without files, the text is exactly the report lines joined by newlines,
      so splitting it at newlines gives the lines back. */
  lemma EmptyReportSplitsIntoLines(r: Report)
    requires r.files == map[]
    requires forall k :: 0 <= k < |ReportLines(r)| ==> '\n' !in ReportLines(r)[k]
    ensures Split(Render(r), '\n') == ReportLines(r)
  {
    SplitJoin(ReportLines(r), '\n');
  }

  lemma {:induction false} SummaryLinesContain(names: seq<string>, totals: map<string, nat>,
                                               meta: map<string, PatternMeta>, n: nat, k: nat)
    requires k < n <= |names|
    ensures SummaryLine(names[k], Description(meta, names[k]), if names[k] in totals then totals[names[k]] else 0)
            in SummaryLines(names, totals, meta, n)
    decreases n
  {
    if k < n - 1 {
      SummaryLinesContain(names, totals, meta, n - 1, k);
    }
  }

  /** The summary has a line for every pattern in the totals, with its description and count. */
  lemma SummaryCoversTotals(r: Report, name: string)
    requires name in r.totals
    ensures SummaryLine(name, Description(r.patterns, name), r.totals[name]) in ReportLines(r)
  {
    var names := SortedStrings(r.totals.Keys);
    var k :| 0 <= k < |names| && names[k] == name;
    SummaryLinesContain(names, r.totals, r.patterns, |names|, k);
  }

  lemma {:induction false} MatchLinesContain(matches: seq<Match>, n: nat, k: nat)
    requires k < n <= |matches|
    ensures MatchLine(matches[k]) in MatchLines(matches, n)
    decreases n
  {
    if k < n - 1 {
      MatchLinesContain(matches, n - 1, k);
    }
  }

  lemma {:induction false} PatternBlocksContain(f: Findings, names: seq<string>, n: nat, j: nat, x: string)
    requires j < n <= |names|
    requires x in [PatternHeader(names[j], |Get(f, names[j])|)] + MatchLines(Get(f, names[j]), |Get(f, names[j])|)
    ensures x in PatternBlocks(f, names, n)
    decreases n
  {
    if j < n - 1 {
      PatternBlocksContain(f, names, n - 1, j, x);
    }
  }

  lemma {:induction false} FileBlocksContain(files: map<string, Findings>, paths: seq<string>, n: nat, i: nat, x: string)
    requires i < n <= |paths|
    requires x in FileBlock(paths[i], FindingsAt(files, paths[i]), SortedStrings(FindingsAt(files, paths[i]).Keys))
    ensures x in FileBlocks(files, paths, n)
    decreases n
  {
    if i < n - 1 {
      FileBlocksContain(files, paths, n - 1, i, x);
    }
  }

  /**
   * Nothing recorded is dropped from the details: every file of the report
   * has its path line, every pattern of that file its header with the number
   * of matches, and every match its own line.
   */
  lemma DetailsCoverMatches(r: Report, path: string, name: string, m: Match)
    requires path in r.files && name in r.files[path] && m in r.files[path][name]
    ensures "- " + path in ReportLines(r)
    ensures PatternHeader(name, |r.files[path][name]|) in ReportLines(r)
    ensures MatchLine(m) in ReportLines(r)
  {
    var paths := SortedStrings(r.files.Keys);
    var i :| 0 <= i < |paths| && paths[i] == path;
    var f := r.files[path];
    var names := SortedStrings(f.Keys);
    var j :| 0 <= j < |names| && names[j] == name;
    var matches := f[name];
    var k :| 0 <= k < |matches| && matches[k] == m;
    assert FindingsAt(r.files, path) == f && Get(f, name) == matches;
    MatchLinesContain(matches, |matches|, k);
    PatternBlocksContain(f, names, |names|, j, PatternHeader(name, |matches|));
    PatternBlocksContain(f, names, |names|, j, MatchLine(m));
    FileBlocksContain(r.files, paths, |paths|, i, "- " + path);
    FileBlocksContain(r.files, paths, |paths|, i, PatternHeader(name, |matches|));
    FileBlocksContain(r.files, paths, |paths|, i, MatchLine(m));
  }

  // ---------------------------------------------------------------------------
  // The doubled escapes

  /** `\\.` in Python's regex syntax: a backslash, then any character. */
  const BACKSLASH_THEN_ANY: seq<Item> := [One(Char('\\')), One(Any)]
  const IMPORT_THEN_ANY: seq<Item> := Literal("import") + [Star(Any)]

  /** What `ROOM_DATABASE_BUILDER_AS_WRITTEN` means. */
  const ROOM_DATABASE_BUILDER_AS_WRITTEN_PATTERN: Pattern := [
    Literal("androidx") + BACKSLASH_THEN_ANY + Literal("room"),
    Literal("Room") + BACKSLASH_THEN_ANY + Literal("databaseBuilder")
  ]

  /** What `ROOM_DATABASE_BUILDER_REGEX` means. */
  const ROOM_DATABASE_BUILDER_PATTERN: Pattern := Literals(["androidx.room", "Room.databaseBuilder"])

  /** What `ROOM_IMPORTS_AS_WRITTEN` means. */
  const ROOM_IMPORTS_AS_WRITTEN_PATTERN: Pattern := [
    IMPORT_THEN_ANY + Literal("androidx") + BACKSLASH_THEN_ANY + Literal("room"),
    IMPORT_THEN_ANY + Literal("VaultDao"),
    IMPORT_THEN_ANY + Literal("VaultEntity")
  ]

  /** What `ROOM_IMPORTS_REGEX` means. */
  const ROOM_IMPORTS_PATTERN: Pattern := [
    IMPORT_THEN_ANY + Literal("androidx.room"),
    IMPORT_THEN_ANY + Literal("VaultDao"),
    IMPORT_THEN_ANY + Literal("VaultEntity")
  ]

  /** As written, `room_database_builder` matches no line without a backslash,
      so no ordinary Kotlin or Java line ever counts for it. */
  lemma RoomDatabaseBuilderAsWrittenNeedsBackslash(line: string)
    requires '\\' !in line
    ensures !Search(ROOM_DATABASE_BUILDER_AS_WRITTEN_PATTERN, line)
  {
    var p := ROOM_DATABASE_BUILDER_AS_WRITTEN_PATTERN;
    assert p[0][8] == One(Char('\\'));
    assert p[1][4] == One(Char('\\'));
    SearchNeedsChars(p, ['\\', '\\'], line);
  }

  /** With the dot escaped once, `room_database_builder` matches exactly the
      lines that mention `androidx.room` or `Room.databaseBuilder`. */
  lemma RoomDatabaseBuilderMatchesMentions(line: string)
    ensures Search(ROOM_DATABASE_BUILDER_PATTERN, line)
            <==> Contains(line, "androidx.room") || Contains(line, "Room.databaseBuilder")
  {
    var words := ["androidx.room", "Room.databaseBuilder"];
    SearchLiterals(words, line);
    assert (exists k :: 0 <= k < |words| && Contains(line, words[k]))
           <==> Contains(line, words[0]) || Contains(line, words[1]);
  }

  const ROOM_IMPORT_LINE := "import androidx.room.Room"

  /** As written, `room_imports` misses the plainest Room import. */
  lemma RoomImportMissedAsWritten()
    ensures !Search(ROOM_IMPORTS_AS_WRITTEN_PATTERN, ROOM_IMPORT_LINE)
  {
    var written := ROOM_IMPORTS_AS_WRITTEN_PATTERN;
    assert written[0][15] == One(Char('\\'));
    assert written[1][7] == One(Char('V'));
    assert written[2][7] == One(Char('V'));
    assert '\\' !in ROOM_IMPORT_LINE && 'V' !in ROOM_IMPORT_LINE;
    SearchNeedsChars(written, ['\\', 'V', 'V'], ROOM_IMPORT_LINE);
  }

  /** `import`, one more character, then `word`, matches `import.*word`. */
  lemma ImportThenWord(word: string, s: string)
    requires IsPrefix("import", s) && |s| > 6 && s[6] != '\n' && IsPrefix(word, s[7..])
    ensures MatchHere(IMPORT_THEN_ANY + Literal(word), s)
  {
    var rest := [Star(Any)] + Literal(word);
    assert rest[1..] == Literal(word);
    LiteralMatch(word, s[7..]);
    assert MatchHere(rest, s[7..]);
    assert s[6..][1..] == s[7..];
    assert MatchHere(rest, s[6..]);
    LiteralThen("import", rest, s);
    assert IMPORT_THEN_ANY + Literal(word) == Literal("import") + rest;
  }

  /** With the dot escaped once, `room_imports` reports that import. */
  lemma RoomImportFoundWhenFixed()
    ensures Search(ROOM_IMPORTS_PATTERN, ROOM_IMPORT_LINE)
  {
    var s := ROOM_IMPORT_LINE;
    assert s[..6] == "import" && s[6] == ' ' && s[7..][..13] == "androidx.room";
    ImportThenWord("androidx.room", s);
    assert MatchHere(ROOM_IMPORTS_PATTERN[0], s);
  }
}
