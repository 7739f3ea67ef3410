# GenPwd Pro audit scanners in Dafny

This project models the two line-oriented scanners of the GenPwd Pro repository.

**The security audit agent** (`security_agent.py`, class `GenPwdAuditor`) runs five passes over the project tree and appends each finding to an append-only `issues` list:

- the Android manifest's backup and debuggable flags;
- exported components, skipping XML comments and an allow-list of five components;
- sensitive logging and `java.util.Random` in Kotlin sources;
- insecure `webPreferences` in the Electron entry files;
- `eval(` and `Math.random()` in JavaScript sources;
- hard-coded secrets.

It also keeps a count of scanned source files. The report then shows the Critical/High and Medium tallies.

**The legacy Room usage audit** (`tools/legacy_room_audit.py`) walks the tree for Kotlin, Java and XML files and works in four steps:

1. It runs a fixed list of named patterns over every line. A pattern does not match a path equal to or below one of its excluded paths.
2. It collects a sparse map from pattern name to (line number, stripped line).
3. It builds a report: the selected patterns, the files with findings and the per-pattern totals.
4. It renders the report as text.

Each piece of the model takes the form of the code it models:

- **Classes and loops for imperative code.** The auditor is a `class` whose methods append to `issues` and count `scannedFiles`. `scan_file`, the loop of `build_report` and `_format_human_report` are methods with loops. Each method is proved against a specification function.
- **Functions for pure code.** The pattern filter, the path filter and pattern selection are functions.

File contents and the tree listing are inputs. The tree listing is a sequence of files in tree-walk order. Regular-expression search is a parameter `search(regex, subject)`.

Files:
- `wrappers.dfy`: the `Option` and `Result` types.
- `text.dfy`: the Python string operations the scanners rely on, with their properties. These are `in`, `split`, `join`, `readlines`, `splitlines`, `strip`/`rstrip`, `lower`, `str(int)`, `sorted`, and pathlib's `name` and `suffix`.
- `regex.dfy`: a small fragment of `re.search`. It is used only to state what two of the legacy patterns can match as written.
- `security_agent.dfy`: the audit agent.
- `legacy_room_audit.dfy`: the legacy Room audit.

## Model

| member | source | states |
|---|---|---|
| SecurityAgent.Lookup | security_agent.py:94-96 | a file is found exactly when the tree holds one at that path, and its text is that file's |
| SecurityAgent.GenPwdAuditor.constructor | security_agent.py:61-64 | a new auditor has no issues and has scanned no files |
| SecurityAgent.GenPwdAuditor.AddIssue | security_agent.py:69-70 | appends exactly the one issue, leaves earlier issues and the file count unchanged |
| SecurityAgent.GenPwdAuditor.AuditAndroidManifest | security_agent.py:92-148 | no manifest adds nothing; otherwise the flag findings, then the exported findings in line order, are appended |
| SecurityAgent.GenPwdAuditor.AuditManifestFlags | security_agent.py:104-112 | backup-enabled HIGH then debuggable CRITICAL, each once at line 0 when its attribute occurs anywhere |
| SecurityAgent.GenPwdAuditor.AuditManifestLine | security_agent.py:129-148 | one loop pass keeps the comment flag equal to the toggle over the lines read so far and reports line i+1 exactly when it is an unsafe exported line |
| SecurityAgent.ContextIsSafe | security_agent.py:119-145 | the allow-list test is true exactly when some safe name occurs in the context |
| SecurityAgent.ExportedFindingIff | security_agent.py:128-148 | line i is reported as i+1 exactly when it is outside comments, not a comment boundary, has the exported attribute and its three-line context names no safe component |
| SecurityAgent.ClosingCommentLineNotReported | security_agent.py:131-135 | a line with the comment-close token is never reported, even if it also opens a comment, and leaves the scanner outside comments |
| SecurityAgent.ExportedIssuesInOrder | security_agent.py:129-148 | exported findings are MEDIUM manifest issues with line numbers in 1..n, strictly ascending (at most one per line) |
| SecurityAgent.ManifestFlagCounts | security_agent.py:102-148 | the manifest gives exactly one HIGH when the backup attribute occurs (else none), exactly one CRITICAL for debuggable, and the rest are MEDIUM |
| SecurityAgent.FlagCounts | security_agent.py:104-112 | the two flag checks give one HIGH and one CRITICAL at most, however often the attributes occur, and no MEDIUM |
| SecurityAgent.GenPwdAuditor.AuditAndroidCode | security_agent.py:150-170 | appends the Kotlin findings of every `.kt` file in tree order and adds the number of `.kt` files to the count |
| SecurityAgent.GenPwdAuditor.AuditKotlinFileAt | security_agent.py:153-170 | one loop pass extends findings and count from the first j files to the first j+1 |
| SecurityAgent.GenPwdAuditor.AuditKotlinCandidate | security_agent.py:153-154 | only `.kt` files are counted and scanned |
| SecurityAgent.GenPwdAuditor.AuditKotlinFile | security_agent.py:155-170 | every line read with `readlines` is checked, in order, numbered from 1 |
| SecurityAgent.GenPwdAuditor.AuditKotlinLine | security_agent.py:157-170 | the leak check, then the weak-random check, on one line |
| SecurityAgent.KotlinLineFindings | security_agent.py:160-170 | in one line the leak finding and the weak-random finding each occur exactly when their own test holds, independently |
| SecurityAgent.KotlinLeakIff | security_agent.py:160-165 | a file has a MEDIUM Data Leakage finding at line i+1 exactly when that line has a `Log.d/e/i/w(` call, no `SafeLog.`/`SecureLogger.`, and lower-cased mentions password, token or key |
| SecurityAgent.KotlinWeakRandomIff | security_agent.py:168-170 | a file has a LOW Cryptography finding at line i+1 exactly when that line mentions `java.util.Random` |
| SecurityAgent.KotlinCheckNumbers | security_agent.py:157-170 | each Kotlin finding carries the number of the line it came from |
| SecurityAgent.LineFindingsNumbered | security_agent.py:157-170 | per-line findings of a file have line numbers in 1..number of lines |
| SecurityAgent.LineFindingsAt | security_agent.py:157-170 | a finding numbered j is among a file's findings exactly when line j produced it |
| SecurityAgent.GenPwdAuditor.AuditElectronMain | security_agent.py:172-200 | the three candidate entry files are checked in order; missing ones add nothing |
| SecurityAgent.GenPwdAuditor.AuditElectronEntry | security_agent.py:178-197 | an existing entry file gives CRITICAL for `nodeIntegration: true`, HIGH for `contextIsolation: false`, HIGH for `enableRemoteModule: true`, each at line 0 |
| SecurityAgent.GenPwdAuditor.AuditJsSource | security_agent.py:202-221 | appends the findings of every `.js` file outside `node_modules`, in tree order, and counts exactly those files |
| SecurityAgent.GenPwdAuditor.AuditJsFileAt | security_agent.py:204-221 | one loop pass extends findings and count from the first j files to the first j+1 |
| SecurityAgent.GenPwdAuditor.AuditJsCandidate | security_agent.py:204-206 | a `node_modules` path is skipped before it is counted; any other `.js` file is counted and scanned |
| SecurityAgent.GenPwdAuditor.AuditJsFile | security_agent.py:208-221 | every line is checked, in order, numbered from 1 |
| SecurityAgent.GenPwdAuditor.AuditJsLine | security_agent.py:210-221 | the `eval(` check, then the `Math.random()` check, on one line |
| SecurityAgent.JsCheckNumbers | security_agent.py:210-221 | each JavaScript finding carries the number of the line it came from |
| SecurityAgent.JsEvalIff | security_agent.py:212-214 | a HIGH Code Execution finding at line i+1 exactly when that line contains `eval(` |
| SecurityAgent.JsMathRandomIff | security_agent.py:217-221 | a MEDIUM Cryptography finding at line i+1 exactly when the line has `Math.random()` and the path has no `crypto` but has `generator` or `vault` |
| SecurityAgent.WithoutNodeModules | security_agent.py:205 | the filtered tree holds no `node_modules` path and is no longer than the tree |
| SecurityAgent.WithoutNodeModulesKeepsOthers | security_agent.py:204-205 | a file is kept exactly when it is in the tree and its path does not mention `node_modules`, and the kept files are a subsequence of the tree, in tree-walk order |
| SecurityAgent.JsPrefix | security_agent.py:204-221 | the JavaScript pass over the first n files depends on those files only |
| SecurityAgent.JsAppend | security_agent.py:204-221 | one more file appends its own findings and count |
| SecurityAgent.NodeModulesAddNoIssues | security_agent.py:205 | the JavaScript findings are the same with every `node_modules` file removed |
| SecurityAgent.NodeModulesNotCounted | security_agent.py:205-206 | the scanned count is the same with every `node_modules` file removed |
| SecurityAgent.GenPwdAuditor.ScanForSecrets | security_agent.py:223-245 | appends the secret findings of every file in tree order; the file count is unchanged |
| SecurityAgent.GenPwdAuditor.ScanSecretsOfFileAt | security_agent.py:233-243 | one loop pass extends the findings from the first j files to the first j+1 |
| SecurityAgent.GenPwdAuditor.ScanCandidateForSecrets | security_agent.py:234-235 | only files with a listed suffix outside `node_modules` and `.git` are read |
| SecurityAgent.GenPwdAuditor.ScanFileForSecrets | security_agent.py:238-243 | each secret pattern is searched once in the whole text, in dictionary order |
| SecurityAgent.SecretFindingsOfFile | security_agent.py:231-243 | at most one HIGH Hardcoded Secret finding per pattern, each at line 0, present exactly when the pattern is found in a scanned file; nothing for other files |
| SecurityAgent.SecretFindingsFromScannedFiles | security_agent.py:233-243 | every secret finding comes from a file with a listed suffix outside `node_modules` and `.git` |
| SecurityAgent.GenPwdAuditor.RunAudit | security_agent.py:75-90 | the issues become the old ones followed by manifest, Kotlin, Electron, JavaScript and secret findings in that order; the count grows by the Kotlin and JavaScript files |
| SecurityAgent.GenPwdAuditor.Summary | security_agent.py:247-264 | files scanned and total issues are the auditor's; Critical/High counts HIGH and CRITICAL, Medium counts MEDIUM, their sum is at most the total, and the all-clear branch is chosen exactly when every issue is LOW |
| SecurityAgent.CountIn | security_agent.py:252-253 | a severity tally never exceeds the number of issues |
| SecurityAgent.TallyFacts | security_agent.py:252-264 | Critical/High plus Medium is at most the total, and both are zero exactly when every issue is LOW |
| SecurityAgent.CountInAppend | security_agent.py:252-253 | tallies add up over concatenated issue lists |
| SecurityAgent.CountInNone | security_agent.py:252-253 | issues of other severities are not tallied |
| SecurityAgent.CountAll | security_agent.py:252-253 | a list of one severity is tallied in full |
| LegacyRoomAudit.PatternNamesDistinct | tools/legacy_room_audit.py:43-89 | the configured pattern names are pairwise distinct |
| LegacyRoomAudit.ExcludedPathHasNoMatches | tools/legacy_room_audit.py:37-40 | a path equal to or below an excluded path matches on no line, whatever the regex |
| LegacyRoomAudit.SelectPatterns | tools/legacy_room_audit.py:122 | a pattern is kept exactly when it is configured and selected (or nothing was selected), in configured order; unknown names are dropped |
| LegacyRoomAudit.SelectPatternsInOrder | tools/legacy_room_audit.py:122 | the selected patterns are a subsequence of the configured ones, in configured order |
| LegacyRoomAudit.SelectAll | tools/legacy_room_audit.py:122 | without a selection every pattern is kept, in order |
| LegacyRoomAudit.SelectKeepsNamesDistinct | tools/legacy_room_audit.py:122 | selected patterns keep distinct names |
| LegacyRoomAudit.SourceFiles | tools/legacy_room_audit.py:94-102 | a file is yielded exactly when its suffix is a scanned extension and no part of its path is an excluded directory name |
| LegacyRoomAudit.ScanLine | tools/legacy_room_audit.py:113-117 | one line is tried against every pattern, in order, appending (line, stripped text) under each matching name |
| LegacyRoomAudit.ScanFile | tools/legacy_room_audit.py:105-118 | the findings have no empty list and only pattern names as keys, and each pattern's list is exactly its matches in line order |
| LegacyRoomAudit.LineStepKeys | tools/legacy_room_audit.py:113-117 | one line adds only pattern names as keys and no empty list |
| LegacyRoomAudit.FileFindingsKeys | tools/legacy_room_audit.py:105-118 | the findings of a file are sparse and keyed by pattern names |
| LegacyRoomAudit.LineStepGet | tools/legacy_room_audit.py:113-117 | one line appends to pattern q's list exactly when pattern q matches it |
| LegacyRoomAudit.FileFindingsPerPattern | tools/legacy_room_audit.py:112-117 | the list under a pattern's name is exactly that pattern's matches |
| LegacyRoomAudit.MatchesOfAreMatchingLines | tools/legacy_room_audit.py:112-117 | each match has a line number in 1..n whose line the pattern matches, and its content is that line stripped |
| LegacyRoomAudit.MatchesOfAscending | tools/legacy_room_audit.py:112-117 | a pattern's matches have strictly ascending line numbers |
| LegacyRoomAudit.MatchesOfCount | tools/legacy_room_audit.py:112-117 | a pattern has as many matches as lines it matches |
| LegacyRoomAudit.ExcludedFileHasNoFindings | tools/legacy_room_audit.py:37-40 | scanned under its path below the root, a file under a pattern's excluded path has no entry for that pattern |
| LegacyRoomAudit.LineStepPathFree | tools/legacy_room_audit.py:113-117 | without exclusion lists, the path a line is tried under does not change its findings |
| LegacyRoomAudit.FileFindingsPathFree | tools/legacy_room_audit.py:105-118 | without exclusion lists, the path a file is scanned under does not change its findings |
| LegacyRoomAudit.ScanAgreesWithIntended | tools/legacy_room_audit.py:133-134 | the scan under the root-prefixed path equals the scan under the path below the root when the root is `.` or no selected pattern has excludes |
| LegacyRoomAudit.MatchingLineRecorded | tools/legacy_room_audit.py:112-117 | a pattern that matches some line of a file has an entry in the file's findings |
| LegacyRoomAudit.VaultRepositoryReportedUnderAbsoluteRoot | tools/legacy_room_audit.py:133-134 | under an absolute root, `VaultRepository.kt` gets a `vault_repository_usage` entry as soon as one of its lines matches, while scanned below the root it gets none |
| LegacyRoomAudit.MetaOf | tools/legacy_room_audit.py:128 | the pattern metadata has one key per selected pattern |
| LegacyRoomAudit.ZeroTotals | tools/legacy_room_audit.py:130 | the totals start with one key per selected pattern, each 0 |
| LegacyRoomAudit.AddCounts | tools/legacy_room_audit.py:138-139 | adding a file's counts keeps the set of total keys |
| LegacyRoomAudit.AddTotals | tools/legacy_room_audit.py:138-139 | the `+=` loop adds each name's match count to its total, in any enumeration order |
| LegacyRoomAudit.RecordFile | tools/legacy_room_audit.py:134-139 | the file is scanned under the root followed by its path; a file without findings changes nothing; otherwise its findings are recorded under its path below the root and its counts are added |
| LegacyRoomAudit.ScanSources | tools/legacy_room_audit.py:133-139 | the loop leaves the files and totals of all listed files, each scanned under the root followed by its path |
| LegacyRoomAudit.BuildReport | tools/legacy_room_audit.py:121-141 | fails with "No patterns selected for the scan" exactly when the selection is empty; otherwise returns the report of the selected patterns over the listed files, each scanned under the root followed by its path |
| LegacyRoomAudit.TotalsKeys | tools/legacy_room_audit.py:130-139 | the totals keep exactly one key per selected pattern |
| LegacyRoomAudit.TotalsAfterCounts | tools/legacy_room_audit.py:135-139 | one file raises a total by its number of matches for that pattern |
| LegacyRoomAudit.ScanCountsMatchingLines | tools/legacy_room_audit.py:112-117 | a file records as many matches for a pattern as the lines it matches |
| LegacyRoomAudit.TotalsStep | tools/legacy_room_audit.py:134-139 | one more file raises a pattern's total by the number of that file's lines it matches |
| LegacyRoomAudit.TotalsCountMatchingLines | tools/legacy_room_audit.py:126-139 | each pattern's total is the number of lines it matches across all listed files |
| LegacyRoomAudit.FilesRecordScans | tools/legacy_room_audit.py:133-137 | every recorded file is a listed file with at least one match, holding that file's findings |
| LegacyRoomAudit.ScannedFilesRecorded | tools/legacy_room_audit.py:133-137 | every listed file with a match is recorded under its path |
| LegacyRoomAudit.FormatHumanReport | tools/legacy_room_audit.py:150-179 | returns the text of the report rendering |
| LegacyRoomAudit.AppendSummary | tools/legacy_room_audit.py:160-163 | appends one summary line per name, in the order given |
| LegacyRoomAudit.AppendFiles | tools/legacy_room_audit.py:170-178 | appends one block per path, in the order given |
| LegacyRoomAudit.AppendFile | tools/legacy_room_audit.py:171-178 | appends the path line, a block per pattern name, then a blank line |
| LegacyRoomAudit.AppendPattern | tools/legacy_room_audit.py:172-176 | appends the pattern header with its match count, then one `L<line>: <content>` line per match |
| LegacyRoomAudit.ReportLinesEnds | tools/legacy_room_audit.py:155-168 | the first line is the title; without files the last line is the no-matches line |
| LegacyRoomAudit.RenderEnds | tools/legacy_room_audit.py:166-179 | the text starts with the title; without files it ends with the no-matches line (no newline); otherwise it ends with exactly one newline after a non-blank character |
| LegacyRoomAudit.EmptyReportSplitsIntoLines | tools/legacy_room_audit.py:166-168 | without files the text is exactly the report lines joined by newlines |
| LegacyRoomAudit.SummaryCoversTotals | tools/legacy_room_audit.py:160-163 | every total has its summary line with its description and count |
| LegacyRoomAudit.SummaryLinesContain | tools/legacy_room_audit.py:160-163 | each name's summary line is among the summary lines |
| LegacyRoomAudit.MatchLinesContain | tools/legacy_room_audit.py:174-176 | each match's line is among its pattern's lines |
| LegacyRoomAudit.PatternBlocksContain | tools/legacy_room_audit.py:172-176 | each pattern block is within the file's blocks |
| LegacyRoomAudit.FileBlocksContain | tools/legacy_room_audit.py:170-178 | each file block is within the details |
| LegacyRoomAudit.DetailsCoverMatches | tools/legacy_room_audit.py:170-178 | every recorded file has its path line, every pattern its header with the match count, every match its own line |
| LegacyRoomAudit.AbsoluteRootDisablesExcludes | tools/legacy_room_audit.py:37-40 | under an absolute root, a pattern with relative excludes matches exactly where its regex does |
| LegacyRoomAudit.VaultRepositoryExcludedOnlyWhenRelative | tools/legacy_room_audit.py:45-49 | `VaultRepository.kt` is excluded under its relative path but not under an absolute one |
| LegacyRoomAudit.RoomDatabaseBuilderAsWrittenNeedsBackslash | tools/legacy_room_audit.py:56 | as written, `room_database_builder` matches no line without a backslash |
| LegacyRoomAudit.RoomDatabaseBuilderMatchesMentions | tools/legacy_room_audit.py:54-58 | with the dot escaped once, it matches exactly the lines mentioning `androidx.room` or `Room.databaseBuilder` |
| LegacyRoomAudit.RoomImportMissedAsWritten | tools/legacy_room_audit.py:62 | as written, `room_imports` misses `import androidx.room.Room` |
| LegacyRoomAudit.ImportThenWord | tools/legacy_room_audit.py:62 | `import`, one character, then the word matches `import.*word` |
| LegacyRoomAudit.RoomImportFoundWhenFixed | tools/legacy_room_audit.py:60-64 | with the dot escaped once, `room_imports` reports that import |
| Text.Lower | security_agent.py:163 | `lower()` keeps the length and lower-cases each character |
| Text.Split | security_agent.py:102 | `split('\n')` gives at least one piece, none holding the separator |
| Text.JoinSplit | security_agent.py:102 | joining the pieces of a split gives the text back |
| Text.SplitJoin | tools/legacy_room_audit.py:168 | splitting a join of separator-free lines gives the lines back |
| Text.JoinStartsWithFirst | tools/legacy_room_audit.py:166-179 | a join starts with its first line |
| Text.JoinEndsWithLast | tools/legacy_room_audit.py:166-179 | a join ends with its last line |
| Text.ReadLines | security_agent.py:155-156 | `readlines` gives no empty line |
| Text.ConcatReadLines | security_agent.py:155-156 | the lines read are the text cut into pieces |
| Text.ReadLinesEndAtNewlines | security_agent.py:155-156 | every line read but the last ends in a newline, and no line holds a newline before its last character |
| Text.SplitLines | tools/legacy_room_audit.py:112 | `splitlines` gives no more lines than characters |
| Text.SplitLinesHaveNoBoundary | tools/legacy_room_audit.py:112 | no line from `splitlines` holds a line boundary |
| Text.SplitLinesOfNewlineText | tools/legacy_room_audit.py:112 | on text whose only line boundary is a newline, `splitlines` is `split('\n')` without the empty piece after a final newline |
| Text.RStripTrims | tools/legacy_room_audit.py:179 | `rstrip` keeps the longest prefix that ends in a non-blank |
| Text.RStripKeepsPrefix | tools/legacy_room_audit.py:179 | `rstrip` keeps a prefix that ends in a non-blank character |
| Text.LStripTrims | tools/legacy_room_audit.py:115 | `lstrip` keeps the longest suffix that starts with a non-blank |
| Text.StripTrims | tools/legacy_room_audit.py:115 | `strip` leaves text with no blank at either end, no longer than the line, and is idempotent |
| Text.NatToString | tools/legacy_room_audit.py:163-176 | `str(n)` is a non-empty digit string without a leading zero |
| Text.DecimalValueOfNatToString | tools/legacy_room_audit.py:163-176 | the decimal text of n reads back as n |
| Text.SortedStrings | tools/legacy_room_audit.py:160-172 | `sorted` lists each key of the set, no more and no fewer |
| Text.SortedStringsAscending | tools/legacy_room_audit.py:160-172 | `sorted` lists the keys in strictly ascending order |
| Text.LessIrreflexive | tools/legacy_room_audit.py:160 | string order is irreflexive |
| Text.LessTransitive | tools/legacy_room_audit.py:160 | string order is transitive |
| Text.LessTotal | tools/legacy_room_audit.py:160 | different strings are ordered one way or the other |
| Text.LessAsymmetric | tools/legacy_room_audit.py:160 | string order is asymmetric |
| Text.LeastExists | tools/legacy_room_audit.py:160 | a non-empty set of strings has exactly one least member |
| Text.BaseNameHasNoSlash | security_agent.py:164 | a file name holds no `/` |
| Text.BaseNameIsLastComponent | security_agent.py:164 | a file name is the path after its last `/` |
| Text.LastIndexOf | security_agent.py:234 | the index of the last occurrence lies in -1..length-1 |
| Text.LastIndexOfIsLast | security_agent.py:234 | it finds the last occurrence, and -1 only when there is none |
| Text.FileSuffixShape | security_agent.py:234 | a suffix is empty, or a dot and at least one more character with no other dot, ending the name and shorter than it |
| Text.OccursImpliesContains | security_agent.py:105 | an occurrence at a position is a substring match |
| Text.ContainsIffOccurs | security_agent.py:105 | `in` holds exactly when the text occurs at some position |
| Text.ContainsInConcat | security_agent.py:144-145 | a text occurring in a part of a concatenation occurs in the whole |
| Regex.Literal | tools/legacy_room_audit.py:56 | a literal word becomes one item per character |
| Regex.LiteralMatch | tools/legacy_room_audit.py:56 | a literal matches at the start of a text exactly when it is a prefix |
| Regex.LiteralThen | tools/legacy_room_audit.py:62 | a literal followed by more items matches when the rest matches after it |
| Regex.RequiredCharMissing | tools/legacy_room_audit.py:56-62 | an alternative that needs a character the text lacks does not match |
| Regex.SearchNeedsChars | tools/legacy_room_audit.py:56-62 | a pattern whose alternatives each need a missing character is found nowhere |
| Regex.Literals | tools/legacy_room_audit.py:56 | an alternation of words has one literal alternative per word |
| Regex.SearchLiterals | tools/legacy_room_audit.py:56 | an alternation of words is found exactly in texts containing one of the words |

## Left out

- Console output is not modelled. This covers the `log` and `print` calls, the ANSI colours, and the lines `add_issue` and `print_report` print. Findings are recorded, not printed. `GenPwdAuditor.Summary` gives the figures `print_report` prints.
- Filesystem access becomes input. This covers `rglob`, `exists`, `is_file`, `open` and `read_text`.
  - The tree is a sequence of regular files in tree-walk order. rglob's own order is not modelled.
  - The model assumes that directories whose names end in `.kt` or `.js` do not exist. In the source, opening such a directory raises an error.
- The UTF-8 `errors="ignore"` and decode fallbacks (`tools/legacy_room_audit.py:107-110`) are not modelled. Texts are taken after decoding.
- The `except Exception: pass` around each file of the secret scan (`security_agent.py:244-245`) is not modelled. With the text given as input, reading cannot fail.
- The regular-expression engine is a parameter. This covers `PatternSpec.regex` and the secret patterns. Only the two doubled-escape patterns are given a meaning, in `regex.dfy`.
- The compiled but unused `exported_regex` (`security_agent.py:116`) is not modelled.
- The `found` flag and the "entry point not found" message of `audit_electron_main` are not modelled. They only affect logging.
- `persist_report`, `_ensure_results_dir`, `print_report` and `parse_args` in `tools/legacy_room_audit.py` are not modelled. Neither is the exit-code handling of `main`, which depends on the filesystem and the clock. `main` matters only for the absolute root it passes on (see Findings).
- Text.Lower: folds ASCII letters only. Python's `str.lower()` also folds other letters, and some of them fold to ASCII: the Kelvin sign U+212A lowers to `k`. So a Kotlin line with `Log.d(` and `\u212Aey` is a sensitive-logging finding in the source but not in the model.
- SecurityAgent.GenPwdAuditor: paths are relative to the root, so the model takes `root_path` to be `.`, as the source's entry point does (`security_agent.py:268`). For another root, the substring tests on `str(path)` (`security_agent.py:205`, `:217`, `:219` and `:235`) would also see the root's own name.
- SecurityAgent.GenPwdAuditor.AuditAndroidManifest and SecurityAgent.GenPwdAuditor.AuditElectronEntry: the manifest and the Electron entry are opened without `errors=` (`security_agent.py:100` and `:181`). Invalid UTF-8 there raises `UnicodeDecodeError` and ends `run_audit`. The model takes the texts as already decoded.
- Dictionary insertion order is not modelled, because the report's maps are unordered. Nothing in the rendering depends on that order, since it sorts names and paths.
- LegacyRoomAudit.TotalsCountMatchingLines: the total is stated against the lines each pattern matches in every listed file. It is not stated as a sum over the `files` map. The two agree because listed paths are distinct.
- Character encoding is not normalised in the rendering. The closing emoji of the no-matches line and the bullet of the pattern header are kept as they appear in the source file, which holds them as the Windows-1252 reading of their UTF-8 bytes.

## Findings

| source | as written | input that shows it | evidently intended | confidence | as-written member | corrected member |
|---|---|---|---|---|---|---|
| tools/legacy_room_audit.py:38 | `matches` compares the configured relative excludes with the path it is given. `build_report` passes the file's path under the root (line 134), and `main` always resolves the root to an absolute path (line 231). | root `/repo`, file `android/app/src/main/java/com/julien/genpwdpro/data/repository/VaultRepository.kt`, a line mentioning `VaultRepository`: the excluded file is reported | the exclusion applies to the path relative to the root | not executed | LegacyRoomAudit.VaultRepositoryReportedUnderAbsoluteRoot | LegacyRoomAudit.ExcludedFileHasNoFindings |
| tools/legacy_room_audit.py:56-62 | raw strings with `\\.`, which the regex engine reads as a literal backslash followed by any character | the line `import androidx.room.Room` matches neither `room_database_builder` nor `room_imports` | `\.`, a literal dot | not executed | LegacyRoomAudit.RoomImportMissedAsWritten | LegacyRoomAudit.RoomImportFoundWhenFixed |

The first finding, in more detail:
- The model scans as the source does. `LegacyRoomAudit.ScanOf`, and through it `BuildReport`, apply the patterns to the root followed by the file's path.
- `LegacyRoomAudit.IntendedScanOf` is the corrected scan: it applies the patterns to the path below the root.
- `LegacyRoomAudit.AbsoluteRootDisablesExcludes` states the general case: under an absolute root, relative excludes never apply.
- `LegacyRoomAudit.VaultRepositoryExcludedOnlyWhenRelative` shows it on one line of `VaultRepository.kt`.
- `LegacyRoomAudit.ScanAgreesWithIntended` proves the two scans equal when the root is `.` or no selected pattern has excludes.

The second finding, in more detail:
- `LegacyRoomAudit.RoomDatabaseBuilderAsWrittenNeedsBackslash` shows that, as written, `room_database_builder` needs a backslash in the line.
- `LegacyRoomAudit.RoomDatabaseBuilderMatchesMentions` proves the intended meaning.
- The model's pattern list `PATTERNS` holds the expressions as written. `ROOM_DATABASE_BUILDER_REGEX` and `ROOM_IMPORTS_REGEX` hold the corrected ones, and the corrected lemmas are stated with them.
