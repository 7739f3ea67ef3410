/**
 * The GenPwd Pro security audit agent: a line-oriented scanner that looks for
 * risky Android manifest flags, insecure logging and random number generation
 * in Kotlin, dangerous calls in JavaScript, insecure Electron settings and
 * hard-coded secrets, and collects every finding in an append-only list.
 *
 * The scanned directory tree is given as a `Workspace`: the regular files under
 * the root, in the order the tree walk visits them, each with its path relative
 * to the root and its text (after text-mode newline translation). Regular
 * expression search is a parameter `search(regex, subject)`.
 */
module SecurityAgent {
  import opened Wrappers
  import opened Text

  // ---------------------------------------------------------------------------
  // Data model

  datatype Severity = Low | Medium | High | Critical

  /** One finding; the line number is 0 for a file-level finding. */
  datatype SecurityIssue = SecurityIssue(
    severity: Severity,
    category: string,
    filePath: string,
    lineNum: nat,
    message: string)

  /** A regular file under the scanned root. */
  datatype SourceFile = SourceFile(path: string, text: string)

  /** The files under the scanned root, in tree-walk order. */
  type Workspace = seq<SourceFile>

  /** The text of the file at `path`, if the workspace holds one. */
  function Lookup(ws: Workspace, path: string): (r: Option<string>)
    ensures r.Some? <==> exists k :: 0 <= k < |ws| && ws[k].path == path
    ensures r.Some? ==> exists k :: 0 <= k < |ws| && ws[k] == SourceFile(path, r.value)
    decreases |ws|
  {
    if |ws| == 0 then None
    else if ws[0].path == path then Some(ws[0].text)
    else
      var r := Lookup(ws[1..], path);
      assert forall k :: 1 <= k < |ws| ==> ws[k] == ws[1..][k - 1];
      r
  }

  // ---------------------------------------------------------------------------
  // Fixed strings of the rules

  const ANDROID_SECURITY := "Android Security"
  const MANIFEST_PATH := "android/app/src/main/AndroidManifest.xml"
  const MANIFEST_NAME := "AndroidManifest.xml"
  const ALLOW_BACKUP := "android:allowBackup=\"true\""
  const DEBUGGABLE := "android:debuggable=\"true\""
  const EXPORTED := "android:exported=\"true\""
  const COMMENT_OPEN := "<!--"
  const COMMENT_CLOSE := "-->"
  const SAFE_EXPORTED: seq<string> :=
    ["MainActivity", "OAuthCallbackActivity", "OtpImportActivity", "PasswordWidget", "GenPwdAutofillService"]
  const BACKUP_MESSAGE := "Backup is enabled (android:allowBackup='true'). Vault data could be extracted via ADB."
  const DEBUGGABLE_MESSAGE := "App is debuggable. Attackers can hook into the process easily."
  const EXPORTED_MESSAGE := "Component is exported. Ensure it is protected by permissions or Intent filters are safe."

  const LEAK_MESSAGE := "Potential logging of sensitive data (password/token)."
  const WEAK_RANDOM_MESSAGE := "Usage of insecure RNG (java.util.Random). Use SecureRandom instead."

  const ELECTRON_SECURITY := "Electron Security"
  const ELECTRON_MAIN_FILES: seq<string> := ["electron-main.cjs", "main.js", "src/electron-main.js"]
  const NODE_INTEGRATION_MESSAGE := "nodeIntegration is enabled. RCE risk if XSS occurs."
  const CONTEXT_ISOLATION_MESSAGE := "contextIsolation is disabled. Preload scripts can be manipulated."
  const REMOTE_MODULE_MESSAGE := "Remote module enabled. This is deprecated and insecure."

  const EVAL_MESSAGE := "Usage of eval() detected. High risk of XSS -> RCE."
  const MATH_RANDOM_MESSAGE := "Math.random() used in security context. Use window.crypto.getRandomValues()."

  /** The secret patterns, as (name, regular expression), in dictionary order. */
  const SECRET_PATTERNS: seq<(string, string)> := [
    ("Google API Key", @"AIza[0-9A-Za-z-_]{35}"),
    ("Generic Token", @"(?i)(api_key|access_token|secret_key)\s*[:=]\s*['\""][A-Za-z0-9_\-]{20,}['\""]")
  ]
  const SECRET_EXTENSIONS: set<string> := {".js", ".kt", ".xml", ".json", ".gradle", ".properties"}

  // ---------------------------------------------------------------------------
  // Android manifest

  /** The file-level flags: backup enabled (HIGH), debuggable (CRITICAL). */
  function ManifestFlagIssues(content: string): seq<SecurityIssue> {
    (if Contains(content, ALLOW_BACKUP)
     then [SecurityIssue(High, ANDROID_SECURITY, MANIFEST_NAME, 0, BACKUP_MESSAGE)] else [])
    + (if Contains(content, DEBUGGABLE)
       then [SecurityIssue(Critical, ANDROID_SECURITY, MANIFEST_NAME, 0, DEBUGGABLE_MESSAGE)] else [])
  }

  /** The comment toggle after reading one more line. */
  function CommentStep(inComment: bool, line: string): bool {
    if Contains(line, COMMENT_CLOSE) then false
    else if Contains(line, COMMENT_OPEN) then true
    else inComment
  }

  /** The `in_comment` flag once the first `n` lines have been read. */
  function InCommentAfter(lines: seq<string>, n: nat): bool
    requires n <= |lines|
  {
    if n == 0 then false else CommentStep(InCommentAfter(lines, n - 1), lines[n - 1])
  }

  /** Line `i` is outside every comment and is not a comment's closing line. */
  predicate OutsideComment(lines: seq<string>, i: nat)
    requires i < |lines|
  {
    !Contains(lines[i], COMMENT_CLOSE) && !Contains(lines[i], COMMENT_OPEN) && !InCommentAfter(lines, i)
  }

  /** Line `i` together with the (up to) two lines before it. */
  function ExportContext(lines: seq<string>, i: nat): string
    requires i < |lines|
  {
    lines[i] + (if i > 0 then lines[i - 1] else "") + (if i > 1 then lines[i - 2] else "")
  }

  /** Some allow-listed component name occurs in the text. */
  predicate NamesSafeComponent(context: string) {
    exists k :: 0 <= k < |SAFE_EXPORTED| && Contains(context, SAFE_EXPORTED[k])
  }

  /** Line `i` declares an exported component that is not allow-listed. */
  predicate ExportedFindingAt(lines: seq<string>, i: nat)
    requires i < |lines|
  {
    OutsideComment(lines, i) && Contains(lines[i], EXPORTED) && !NamesSafeComponent(ExportContext(lines, i))
  }

  /** The allow-list loop: whether any safe component name occurs in the context. */
  method ContextIsSafe(context: string) returns (isSafe: bool)
    ensures isSafe <==> NamesSafeComponent(context)
  {
    isSafe := false;
    for k := 0 to |SAFE_EXPORTED|
      invariant isSafe <==> exists j :: 0 <= j < k && Contains(context, SAFE_EXPORTED[j])
    {
      isSafe := isSafe || Contains(context, SAFE_EXPORTED[k]);
    }
  }

  function ExportedIssue(lineNum: nat): SecurityIssue {
    SecurityIssue(Medium, ANDROID_SECURITY, MANIFEST_NAME, lineNum, EXPORTED_MESSAGE)
  }

  /** The exported-component findings of the first `n` lines, in line order. */
  function ExportedIssues(lines: seq<string>, n: nat): seq<SecurityIssue>
    requires n <= |lines|
  {
    if n == 0 then []
    else ExportedIssues(lines, n - 1) + (if ExportedFindingAt(lines, n - 1) then [ExportedIssue(n)] else [])
  }

  /** Everything the manifest audit reports; nothing when the manifest is missing. */
  function ManifestIssues(manifest: Option<string>): seq<SecurityIssue> {
    match manifest
    case None => []
    case Some(content) =>
      var lines := Split(content, '\n');
      ManifestFlagIssues(content) + ExportedIssues(lines, |lines|)
  }

  // ---------------------------------------------------------------------------
  // Line-by-line passes

  /** A per-line check: the findings of one line, given its text and its 1-based number. */
  type LineCheck = (string, nat) -> seq<SecurityIssue>

  /** Every finding carries the given line number. */
  predicate NumberedAt(findings: seq<SecurityIssue>, lineNum: nat) {
    forall k :: 0 <= k < |findings| ==> findings[k].lineNum == lineNum
  }

  /** The line check numbers each finding with the line it was given. */
  ghost predicate NumbersFindings(check: LineCheck) {
    forall line, lineNum :: NumberedAt(check(line, lineNum), lineNum)
  }

  /** The findings of a per-line check over the first `n` lines, in line order. */
  function LineFindings(check: LineCheck, lines: seq<string>, n: nat): seq<SecurityIssue>
    requires n <= |lines|
  {
    if n == 0 then [] else LineFindings(check, lines, n - 1) + check(lines[n - 1], n)
  }

  // ---------------------------------------------------------------------------
  // Kotlin sources

  /** `rglob("*.kt")`: the file name ends in `.kt`. */
  predicate IsKotlinSource(f: SourceFile) {
    EndsWith(BaseName(f.path), ".kt")
  }

  /** A `Log` call that is not a safe wrapper and mentions a secret. */
  predicate LogsSensitiveData(line: string) {
    && (Contains(line, "Log.d(") || Contains(line, "Log.e(") || Contains(line, "Log.i(") || Contains(line, "Log.w("))
    && !Contains(line, "SafeLog.") && !Contains(line, "SecureLogger.")
    && (Contains(Lower(line), "password") || Contains(Lower(line), "token") || Contains(Lower(line), "key"))
  }

  predicate UsesJavaRandom(line: string) {
    Contains(line, "java.util.Random")
  }

  function LeakIssue(name: string, lineNum: nat): SecurityIssue {
    SecurityIssue(Medium, "Data Leakage", name, lineNum, LEAK_MESSAGE)
  }

  function WeakRandomIssue(name: string, lineNum: nat): SecurityIssue {
    SecurityIssue(Low, "Cryptography", name, lineNum, WEAK_RANDOM_MESSAGE)
  }

  /** The findings of one Kotlin line, numbered `lineNum`. */
  function KotlinLineIssues(name: string, line: string, lineNum: nat): seq<SecurityIssue> {
    (if LogsSensitiveData(line) then [LeakIssue(name, lineNum)] else [])
    + (if UsesJavaRandom(line) then [WeakRandomIssue(name, lineNum)] else [])
  }

  /** The Kotlin line check for the file named `name`. */
  function KotlinCheck(name: string): LineCheck {
    (line: string, lineNum: nat) => KotlinLineIssues(name, line, lineNum)
  }

  /** The findings of one file of the Kotlin pass (none for other files). */
  function KotlinIssuesOf(f: SourceFile): seq<SecurityIssue> {
    if IsKotlinSource(f) then
      var lines := ReadLines(f.text);
      LineFindings(KotlinCheck(BaseName(f.path)), lines, |lines|)
    else []
  }

  /** The findings of the Kotlin pass over the first `n` files. */
  function KotlinIssues(ws: Workspace, n: nat): seq<SecurityIssue>
    requires n <= |ws|
  {
    if n == 0 then [] else KotlinIssues(ws, n - 1) + KotlinIssuesOf(ws[n - 1])
  }

  /** How many of the first `n` files the Kotlin pass counts as scanned. */
  function KotlinCount(ws: Workspace, n: nat): nat
    requires n <= |ws|
  {
    if n == 0 then 0 else KotlinCount(ws, n - 1) + (if IsKotlinSource(ws[n - 1]) then 1 else 0)
  }

  // ---------------------------------------------------------------------------
  // Electron entry points

  /** The findings of one Electron entry file. */
  function ElectronFileIssues(mainFile: string, content: string): seq<SecurityIssue> {
    (if Contains(content, "nodeIntegration: true")
     then [SecurityIssue(Critical, ELECTRON_SECURITY, mainFile, 0, NODE_INTEGRATION_MESSAGE)] else [])
    + (if Contains(content, "contextIsolation: false")
       then [SecurityIssue(High, ELECTRON_SECURITY, mainFile, 0, CONTEXT_ISOLATION_MESSAGE)] else [])
    + (if Contains(content, "enableRemoteModule: true")
       then [SecurityIssue(High, ELECTRON_SECURITY, mainFile, 0, REMOTE_MODULE_MESSAGE)] else [])
  }

  /** The findings for one candidate entry file: none when it does not exist. */
  function ElectronEntryIssues(ws: Workspace, mainFile: string): seq<SecurityIssue> {
    match Lookup(ws, mainFile)
    case None => []
    case Some(content) => ElectronFileIssues(mainFile, content)
  }

  /** The findings for the first `n` candidate entry files. */
  function ElectronIssues(ws: Workspace, n: nat): seq<SecurityIssue>
    requires n <= |ELECTRON_MAIN_FILES|
  {
    if n == 0 then []
    else ElectronIssues(ws, n - 1) + ElectronEntryIssues(ws, ELECTRON_MAIN_FILES[n - 1])
  }

  // ---------------------------------------------------------------------------
  // JavaScript sources

  /** `rglob("*.js")`: the file name ends in `.js`. */
  predicate IsJsSource(f: SourceFile) {
    EndsWith(BaseName(f.path), ".js")
  }

  predicate InNodeModules(f: SourceFile) {
    Contains(f.path, "node_modules")
  }

  /** `Math.random()` in a file whose path suggests a security context. */
  predicate WeakRandomInSecurityContext(path: string, line: string) {
    Contains(line, "Math.random()") && !Contains(path, "crypto")
    && (Contains(path, "generator") || Contains(path, "vault"))
  }

  function EvalIssue(name: string, lineNum: nat): SecurityIssue {
    SecurityIssue(High, "Code Execution", name, lineNum, EVAL_MESSAGE)
  }

  function MathRandomIssue(name: string, lineNum: nat): SecurityIssue {
    SecurityIssue(Medium, "Cryptography", name, lineNum, MATH_RANDOM_MESSAGE)
  }

  /** The findings of one JavaScript line, numbered `lineNum`, of the file at `path`. */
  function JsLineIssues(path: string, line: string, lineNum: nat): seq<SecurityIssue> {
    (if Contains(line, "eval(") then [EvalIssue(BaseName(path), lineNum)] else [])
    + (if WeakRandomInSecurityContext(path, line) then [MathRandomIssue(BaseName(path), lineNum)] else [])
  }

  /** The JavaScript line check for the file at `path`. */
  function JsCheck(path: string): LineCheck {
    (line: string, lineNum: nat) => JsLineIssues(path, line, lineNum)
  }

  /** The JavaScript pass scans a file: a `.js` file outside `node_modules`. */
  predicate JsScanned(f: SourceFile) {
    IsJsSource(f) && !InNodeModules(f)
  }

  function JsIssuesOf(f: SourceFile): seq<SecurityIssue> {
    if JsScanned(f) then
      var lines := ReadLines(f.text);
      LineFindings(JsCheck(f.path), lines, |lines|)
    else []
  }

  /** The findings of the JavaScript pass over the first `n` files. */
  function JsIssues(ws: Workspace, n: nat): seq<SecurityIssue>
    requires n <= |ws|
  {
    if n == 0 then [] else JsIssues(ws, n - 1) + JsIssuesOf(ws[n - 1])
  }

  /** How many of the first `n` files the JavaScript pass counts as scanned. */
  function JsCount(ws: Workspace, n: nat): nat
    requires n <= |ws|
  {
    if n == 0 then 0 else JsCount(ws, n - 1) + (if JsScanned(ws[n - 1]) then 1 else 0)
  }

  // ---------------------------------------------------------------------------
  // Hard-coded secrets

  /** The secret scan reads a file: a listed extension, outside `node_modules` and `.git`. */
  predicate SecretScanned(f: SourceFile) {
    FileSuffix(BaseName(f.path)) in SECRET_EXTENSIONS
    && !Contains(f.path, "node_modules") && !Contains(f.path, ".git")
  }

  function SecretIssue(f: SourceFile, patternName: string): SecurityIssue {
    SecurityIssue(High, "Hardcoded Secret", BaseName(f.path), 0, "Possible " + patternName + " found.")
  }

  /** The findings of the first `k` secret patterns in one file's whole text. */
  function SecretPatternIssues(f: SourceFile, search: RegexSearch, k: nat): seq<SecurityIssue>
    requires k <= |SECRET_PATTERNS|
  {
    if k == 0 then []
    else
      SecretPatternIssues(f, search, k - 1)
      + (if search(SECRET_PATTERNS[k - 1].1, f.text) then [SecretIssue(f, SECRET_PATTERNS[k - 1].0)] else [])
  }

  function SecretIssuesOf(f: SourceFile, search: RegexSearch): seq<SecurityIssue> {
    if SecretScanned(f) then SecretPatternIssues(f, search, |SECRET_PATTERNS|) else []
  }

  /** The findings of the secret scan over the first `n` files. */
  function SecretIssues(ws: Workspace, search: RegexSearch, n: nat): seq<SecurityIssue>
    requires n <= |ws|
  {
    if n == 0 then [] else SecretIssues(ws, search, n - 1) + SecretIssuesOf(ws[n - 1], search)
  }

  // ---------------------------------------------------------------------------
  // Report tallies

  /** How many issues have a severity in `sevs`. */
  function CountIn(issues: seq<SecurityIssue>, sevs: set<Severity>): (c: nat)
    ensures c <= |issues|
  {
    if |issues| == 0 then 0
    else CountIn(issues[..|issues| - 1], sevs) + (if issues[|issues| - 1].severity in sevs then 1 else 0)
  }

  /** The figures of the final report. */
  datatype AuditSummary = AuditSummary(
    filesScanned: nat,
    totalIssues: nat,
    criticalHigh: nat,
    medium: nat,
    noObviousVulnerabilities: bool)

  // ---------------------------------------------------------------------------
  // The auditor

  class GenPwdAuditor {
    /** The tree under the root path. */
    const workspace: Workspace
    var issues: seq<SecurityIssue>
    var scannedFiles: nat

    constructor (workspace: Workspace)
      ensures this.workspace == workspace && issues == [] && scannedFiles == 0
    {
      this.workspace := workspace;
      issues := [];
      scannedFiles := 0;
    }

    /** Records one finding; earlier findings stay as they are. */
    method AddIssue(severity: Severity, category: string, filePath: string, lineNum: nat, message: string)
      modifies this
      ensures issues == old(issues) + [SecurityIssue(severity, category, filePath, lineNum, message)]
      ensures scannedFiles == old(scannedFiles)
    {
      issues := issues + [SecurityIssue(severity, category, filePath, lineNum, message)];
    }

    method AuditAndroidManifest()
      modifies this
      ensures issues == old(issues) + ManifestIssues(Lookup(workspace, MANIFEST_PATH))
      ensures scannedFiles == old(scannedFiles)
    {
      var manifest := Lookup(workspace, MANIFEST_PATH);
      if manifest.None? {
        return;
      }
      var content := manifest.value;
      var lines := Split(content, '\n');

      AuditManifestFlags(content);
      ghost var flagged := issues;

      var inComment := false;
      for i := 0 to |lines|
        invariant inComment == InCommentAfter(lines, i)
        invariant issues == flagged + ExportedIssues(lines, i)
        invariant scannedFiles == old(scannedFiles)
      {
        inComment := AuditManifestLine(lines, i, inComment);
        AppendAssoc(flagged, ExportedIssues(lines, i), if ExportedFindingAt(lines, i) then [ExportedIssue(i + 1)] else []);
      }
      AppendAssoc(old(issues), ManifestFlagIssues(content), ExportedIssues(lines, |lines|));
    }

    /** The two file-level checks: backup enabled, then debuggable. */
    method AuditManifestFlags(content: string)
      modifies this
      ensures issues == old(issues) + ManifestFlagIssues(content)
      ensures scannedFiles == old(scannedFiles)
    {
      if Contains(content, ALLOW_BACKUP) {
        AddIssue(High, ANDROID_SECURITY, MANIFEST_NAME, 0, BACKUP_MESSAGE);
      }
      if Contains(content, DEBUGGABLE) {
        AddIssue(Critical, ANDROID_SECURITY, MANIFEST_NAME, 0, DEBUGGABLE_MESSAGE);
      }
    }

    /** One pass of the manifest's line loop: the comment toggle, then the
        exported-component check for a line outside every comment. */
    method AuditManifestLine(lines: seq<string>, i: nat, inComment: bool) returns (next: bool)
      requires i < |lines| && inComment == InCommentAfter(lines, i)
      modifies this
      ensures next == InCommentAfter(lines, i + 1)
      ensures issues == old(issues) + (if ExportedFindingAt(lines, i) then [ExportedIssue(i + 1)] else [])
      ensures scannedFiles == old(scannedFiles)
    {
      var line := lines[i];
      next := inComment;
      if Contains(line, COMMENT_OPEN) {
        next := true;
      }
      if Contains(line, COMMENT_CLOSE) {
        next := false;
        return;
      }
      if next {
        return;
      }
      if Contains(line, EXPORTED) {
        var isSafe := ContextIsSafe(line + (if i > 0 then lines[i - 1] else "") + (if i > 1 then lines[i - 2] else ""));
        if !isSafe {
          AddIssue(Medium, ANDROID_SECURITY, MANIFEST_NAME, i + 1, EXPORTED_MESSAGE);
        }
      }
    }

    method AuditAndroidCode()
      modifies this
      ensures issues == old(issues) + KotlinIssues(workspace, |workspace|)
      ensures scannedFiles == old(scannedFiles) + KotlinCount(workspace, |workspace|)
    {
      for j := 0 to |workspace|
        invariant issues == old(issues) + KotlinIssues(workspace, j)
        invariant scannedFiles == old(scannedFiles) + KotlinCount(workspace, j)
      {
        AuditKotlinFileAt(j, old(issues), old(scannedFiles));
      }
    }

    /** The Kotlin pass over the `j`-th file extends the findings and the count of the files before it. */
    method AuditKotlinFileAt(j: nat, ghost start: seq<SecurityIssue>, ghost startCount: int)
      requires j < |workspace|
      requires issues == start + KotlinIssues(workspace, j) && scannedFiles == startCount + KotlinCount(workspace, j)
      modifies this
      ensures issues == start + KotlinIssues(workspace, j + 1)
      ensures scannedFiles == startCount + KotlinCount(workspace, j + 1)
    {
      ghost var before := issues;
      AuditKotlinCandidate(workspace[j]);
      KotlinStep(start, before, issues, workspace, j);
    }

    /** One file of the Kotlin pass: counted and scanned when it is a `.kt` file. */
    method AuditKotlinCandidate(f: SourceFile)
      modifies this
      ensures issues == old(issues) + KotlinIssuesOf(f)
      ensures scannedFiles == old(scannedFiles) + (if IsKotlinSource(f) then 1 else 0)
    {
      if EndsWith(BaseName(f.path), ".kt") {
        scannedFiles := scannedFiles + 1;
        AuditKotlinFile(f);
      }
    }

    /** The Kotlin checks on every line of one `.kt` file. */
    method AuditKotlinFile(f: SourceFile)
      requires IsKotlinSource(f)
      modifies this
      ensures issues == old(issues) + KotlinIssuesOf(f)
      ensures scannedFiles == old(scannedFiles)
    {
      var name := BaseName(f.path);
      var lines := ReadLines(f.text);
      for i := 0 to |lines|
        invariant issues == old(issues) + LineFindings(KotlinCheck(name), lines, i)
        invariant scannedFiles == old(scannedFiles)
      {
        AuditKotlinLine(name, lines[i], i + 1);
        AppendAssoc(old(issues), LineFindings(KotlinCheck(name), lines, i), KotlinLineIssues(name, lines[i], i + 1));
      }
    }

    /** One Kotlin line: the data-leak check, then the weak-random check. */
    method AuditKotlinLine(name: string, line: string, lineNum: nat)
      modifies this
      ensures issues == old(issues) + KotlinLineIssues(name, line, lineNum)
      ensures scannedFiles == old(scannedFiles)
    {
      if Contains(line, "Log.d(") || Contains(line, "Log.e(") || Contains(line, "Log.i(") || Contains(line, "Log.w(") {
        if !Contains(line, "SafeLog.") && !Contains(line, "SecureLogger.") {
          if Contains(Lower(line), "password") || Contains(Lower(line), "token") || Contains(Lower(line), "key") {
            AddIssue(Medium, "Data Leakage", name, lineNum, LEAK_MESSAGE);
          }
        }
      }
      if Contains(line, "java.util.Random") {
        AddIssue(Low, "Cryptography", name, lineNum, WEAK_RANDOM_MESSAGE);
      }
    }

    method AuditElectronMain()
      modifies this
      ensures issues == old(issues) + ElectronIssues(workspace, |ELECTRON_MAIN_FILES|)
      ensures scannedFiles == old(scannedFiles)
    {
      for j := 0 to |ELECTRON_MAIN_FILES|
        invariant issues == old(issues) + ElectronIssues(workspace, j)
        invariant scannedFiles == old(scannedFiles)
      {
        AuditElectronEntry(ELECTRON_MAIN_FILES[j]);
        AppendAssoc(old(issues), ElectronIssues(workspace, j), ElectronEntryIssues(workspace, ELECTRON_MAIN_FILES[j]));
      }
    }

    /** Checks one candidate entry file, if it exists, for the three settings. */
    method AuditElectronEntry(mainFile: string)
      modifies this
      ensures issues == old(issues) + ElectronEntryIssues(workspace, mainFile)
      ensures scannedFiles == old(scannedFiles)
    {
      var found := Lookup(workspace, mainFile);
      if found.Some? {
        var content := found.value;
        if Contains(content, "nodeIntegration: true") {
          AddIssue(Critical, ELECTRON_SECURITY, mainFile, 0, NODE_INTEGRATION_MESSAGE);
        }
        if Contains(content, "contextIsolation: false") {
          AddIssue(High, ELECTRON_SECURITY, mainFile, 0, CONTEXT_ISOLATION_MESSAGE);
        }
        if Contains(content, "enableRemoteModule: true") {
          AddIssue(High, ELECTRON_SECURITY, mainFile, 0, REMOTE_MODULE_MESSAGE);
        }
      }
    }

    method AuditJsSource()
      modifies this
      ensures issues == old(issues) + JsIssues(workspace, |workspace|)
      ensures scannedFiles == old(scannedFiles) + JsCount(workspace, |workspace|)
    {
      for j := 0 to |workspace|
        invariant issues == old(issues) + JsIssues(workspace, j)
        invariant scannedFiles == old(scannedFiles) + JsCount(workspace, j)
      {
        AuditJsFileAt(j, old(issues), old(scannedFiles));
      }
    }

    /** The JavaScript pass over the `j`-th file extends the findings and the count of the files before it. */
    method AuditJsFileAt(j: nat, ghost start: seq<SecurityIssue>, ghost startCount: int)
      requires j < |workspace|
      requires issues == start + JsIssues(workspace, j) && scannedFiles == startCount + JsCount(workspace, j)
      modifies this
      ensures issues == start + JsIssues(workspace, j + 1)
      ensures scannedFiles == startCount + JsCount(workspace, j + 1)
    {
      ghost var before := issues;
      AuditJsCandidate(workspace[j]);
      JsStep(start, before, issues, workspace, j);
    }

    /** One file of the JavaScript pass: skipped unless it is a `.js` file
        outside `node_modules`, otherwise counted and scanned. */
    method AuditJsCandidate(f: SourceFile)
      modifies this
      ensures issues == old(issues) + JsIssuesOf(f)
      ensures scannedFiles == old(scannedFiles) + (if JsScanned(f) then 1 else 0)
    {
      if !EndsWith(BaseName(f.path), ".js") {
        return;
      }
      if Contains(f.path, "node_modules") {
        return;
      }
      scannedFiles := scannedFiles + 1;
      AuditJsFile(f);
    }

    /** The JavaScript checks on every line of one scanned `.js` file. */
    method AuditJsFile(f: SourceFile)
      requires JsScanned(f)
      modifies this
      ensures issues == old(issues) + JsIssuesOf(f)
      ensures scannedFiles == old(scannedFiles)
    {
      var lines := ReadLines(f.text);
      for i := 0 to |lines|
        invariant issues == old(issues) + LineFindings(JsCheck(f.path), lines, i)
        invariant scannedFiles == old(scannedFiles)
      {
        AuditJsLine(f.path, lines[i], i + 1);
        AppendAssoc(old(issues), LineFindings(JsCheck(f.path), lines, i), JsLineIssues(f.path, lines[i], i + 1));
      }
    }

    /** One JavaScript line: the `eval(` check, then the `Math.random()` check. */
    method AuditJsLine(path: string, line: string, lineNum: nat)
      modifies this
      ensures issues == old(issues) + JsLineIssues(path, line, lineNum)
      ensures scannedFiles == old(scannedFiles)
    {
      if Contains(line, "eval(") {
        AddIssue(High, "Code Execution", BaseName(path), lineNum, EVAL_MESSAGE);
      }
      if Contains(line, "Math.random()") && !Contains(path, "crypto") {
        if Contains(path, "generator") || Contains(path, "vault") {
          AddIssue(Medium, "Cryptography", BaseName(path), lineNum, MATH_RANDOM_MESSAGE);
        }
      }
    }

    method ScanForSecrets(search: RegexSearch)
      modifies this
      ensures issues == old(issues) + SecretIssues(workspace, search, |workspace|)
      ensures scannedFiles == old(scannedFiles)
    {
      for j := 0 to |workspace|
        invariant issues == old(issues) + SecretIssues(workspace, search, j)
        invariant scannedFiles == old(scannedFiles)
      {
        ScanSecretsOfFileAt(j, search, old(issues));
      }
    }

    /** The secret scan of the `j`-th file extends the findings of the files before it. */
    method ScanSecretsOfFileAt(j: nat, search: RegexSearch, ghost start: seq<SecurityIssue>)
      requires j < |workspace| && issues == start + SecretIssues(workspace, search, j)
      modifies this
      ensures issues == start + SecretIssues(workspace, search, j + 1)
      ensures scannedFiles == old(scannedFiles)
    {
      ghost var before := issues;
      ScanCandidateForSecrets(workspace[j], search);
      SecretStep(start, before, issues, workspace, search, j);
    }

    /** One file of the secret scan: skipped unless its suffix is listed and it
        lies outside `node_modules` and `.git`. */
    method ScanCandidateForSecrets(f: SourceFile, search: RegexSearch)
      modifies this
      ensures issues == old(issues) + SecretIssuesOf(f, search)
      ensures scannedFiles == old(scannedFiles)
    {
      if FileSuffix(BaseName(f.path)) in SECRET_EXTENSIONS {
        if Contains(f.path, "node_modules") || Contains(f.path, ".git") {
          return;
        }
        ScanFileForSecrets(f, search);
      }
    }

    /** Each secret pattern searched once in the whole text of one file. */
    method ScanFileForSecrets(f: SourceFile, search: RegexSearch)
      requires SecretScanned(f)
      modifies this
      ensures issues == old(issues) + SecretIssuesOf(f, search)
      ensures scannedFiles == old(scannedFiles)
    {
      for k := 0 to |SECRET_PATTERNS|
        invariant issues == old(issues) + SecretPatternIssues(f, search, k)
        invariant scannedFiles == old(scannedFiles)
      {
        var (name, pattern) := SECRET_PATTERNS[k];
        if search(pattern, f.text) {
          AddIssue(High, "Hardcoded Secret", BaseName(f.path), 0, "Possible " + name + " found.");
        }
      }
    }

    /** The whole audit, in the order the agent runs its passes. */
    method RunAudit(search: RegexSearch)
      modifies this
      ensures issues == old(issues)
                        + ManifestIssues(Lookup(workspace, MANIFEST_PATH))
                        + KotlinIssues(workspace, |workspace|)
                        + ElectronIssues(workspace, |ELECTRON_MAIN_FILES|)
                        + JsIssues(workspace, |workspace|)
                        + SecretIssues(workspace, search, |workspace|)
      ensures scannedFiles == old(scannedFiles) + KotlinCount(workspace, |workspace|) + JsCount(workspace, |workspace|)
    {
      AuditAndroidManifest();
      AuditAndroidCode();
      AuditElectronMain();
      AuditJsSource();
      ScanForSecrets(search);
    }

    /**
     * The figures `print_report` prints: Critical/High counts HIGH and
     * CRITICAL, Medium counts MEDIUM, and the all-clear message is chosen
     * exactly when every recorded issue is LOW.
     */
    function Summary(): (s: AuditSummary)
      reads this
      ensures s.filesScanned == scannedFiles && s.totalIssues == |issues|
      ensures s.criticalHigh == CountIn(issues, {High, Critical})
      ensures s.medium == CountIn(issues, {Medium})
      ensures s.criticalHigh + s.medium <= s.totalIssues
      ensures s.noObviousVulnerabilities <==> forall k :: 0 <= k < |issues| ==> issues[k].severity == Low
    {
      var high := CountIn(issues, {High, Critical});
      var medium := CountIn(issues, {Medium});
      TallyFacts(issues);
      AuditSummary(scannedFiles, |issues|, high, medium, high == 0 && medium == 0)
    }
  }

  // ---------------------------------------------------------------------------
  // Properties

  /** Critical/High and Medium never overlap and never exceed the issue count;
      both are zero exactly when every issue is LOW. */
  lemma {:induction false} TallyFacts(issues: seq<SecurityIssue>)
    ensures CountIn(issues, {High, Critical}) + CountIn(issues, {Medium}) <= |issues|
    ensures (CountIn(issues, {High, Critical}) == 0 && CountIn(issues, {Medium}) == 0)
            <==> forall k :: 0 <= k < |issues| ==> issues[k].severity == Low
    decreases |issues|
  {
    if |issues| > 0 {
      var init := issues[..|issues| - 1];
      TallyFacts(init);
      assert forall k :: 0 <= k < |init| ==> init[k] == issues[k];
    }
  }

  /** Counting is additive over concatenation. */
  lemma {:induction false} CountInAppend(a: seq<SecurityIssue>, b: seq<SecurityIssue>, sevs: set<Severity>)
    ensures CountIn(a + b, sevs) == CountIn(a, sevs) + CountIn(b, sevs)
    decreases |b|
  {
    if |b| > 0 {
      var init := b[..|b| - 1];
      CountInAppend(a, init, sevs);
      assert (a + b)[..|a + b| - 1] == a + init;
      assert (a + b)[|a + b| - 1] == b[|b| - 1];
    } else {
      assert a + b == a;
    }
  }

  /** No issue of a severity outside `sevs` is counted. */
  lemma {:induction false} CountInNone(issues: seq<SecurityIssue>, sevs: set<Severity>)
    requires forall k :: 0 <= k < |issues| ==> issues[k].severity !in sevs
    ensures CountIn(issues, sevs) == 0
    decreases |issues|
  {
    if |issues| > 0 {
      var init := issues[..|issues| - 1];
      assert forall k :: 0 <= k < |init| ==> init[k] == issues[k];
      CountInNone(init, sevs);
    }
  }

  /**
   * The exported-component findings are MEDIUM "Android Security" issues of
   * the manifest, one per line at most, with line numbers in 1..n in strictly
   * ascending order.
   */
  lemma {:induction false} ExportedIssuesInOrder(lines: seq<string>, n: nat)
    requires n <= |lines|
    ensures forall k :: 0 <= k < |ExportedIssues(lines, n)| ==>
              ExportedIssues(lines, n)[k] == ExportedIssue(ExportedIssues(lines, n)[k].lineNum)
              && 1 <= ExportedIssues(lines, n)[k].lineNum <= n
    ensures forall k, m :: 0 <= k < m < |ExportedIssues(lines, n)| ==>
              ExportedIssues(lines, n)[k].lineNum < ExportedIssues(lines, n)[m].lineNum
    decreases n
  {
    if n > 0 {
      ExportedIssuesInOrder(lines, n - 1);
    }
  }

  /** Line `i` (0-based) is reported, as line `i + 1`, exactly when it is an
      exported component outside comments whose context names no safe component. */
  lemma {:induction false} ExportedFindingIff(lines: seq<string>, n: nat, i: nat)
    requires i < n <= |lines|
    ensures ExportedIssue(i + 1) in ExportedIssues(lines, n) <==> ExportedFindingAt(lines, i)
    decreases n
  {
    ExportedIssuesInOrder(lines, n - 1);
    if i < n - 1 {
      ExportedFindingIff(lines, n - 1, i);
    } else {
      var e := ExportedIssues(lines, n - 1);
      assert forall k :: 0 <= k < |e| ==> e[k].lineNum < i + 1;
    }
  }

  /**
   * A line holding the comment-close token is never reported, even when it
   * also opens a comment, and after it the scanner is outside any comment.
   */
  lemma ClosingCommentLineNotReported(lines: seq<string>, i: nat)
    requires i < |lines| && Contains(lines[i], COMMENT_CLOSE)
    ensures ExportedIssue(i + 1) !in ExportedIssues(lines, |lines|)
    ensures !InCommentAfter(lines, i + 1)
  {
    ExportedFindingIff(lines, |lines|, i);
  }

  /**
   * The backup flag gives exactly one HIGH issue, at line 0 and first in the
   * list, however often it occurs; the debuggable flag likewise gives exactly
   * one CRITICAL issue. Every other manifest issue is MEDIUM.
   */
  lemma ManifestFlagCounts(content: string)
    ensures CountIn(ManifestIssues(Some(content)), {High}) == if Contains(content, ALLOW_BACKUP) then 1 else 0
    ensures CountIn(ManifestIssues(Some(content)), {Critical}) == if Contains(content, DEBUGGABLE) then 1 else 0
    ensures Contains(content, ALLOW_BACKUP) ==>
              ManifestIssues(Some(content))[0] == SecurityIssue(High, ANDROID_SECURITY, MANIFEST_NAME, 0, BACKUP_MESSAGE)
    ensures |ManifestIssues(Some(content))| == CountIn(ManifestIssues(Some(content)), {High})
              + CountIn(ManifestIssues(Some(content)), {Critical}) + CountIn(ManifestIssues(Some(content)), {Medium})
  {
    var lines := Split(content, '\n');
    var flags := ManifestFlagIssues(content);
    var exported := ExportedIssues(lines, |lines|);
    ExportedIssuesInOrder(lines, |lines|);
    CountInNone(exported, {High});
    CountInNone(exported, {Critical});
    CountAll(exported, Medium);
    FlagCounts(content);
    CountInAppend(flags, exported, {High});
    CountInAppend(flags, exported, {Critical});
    CountInAppend(flags, exported, {Medium});
  }

  /** The two manifest flags on their own. */
  lemma FlagCounts(content: string)
    ensures CountIn(ManifestFlagIssues(content), {High}) == if Contains(content, ALLOW_BACKUP) then 1 else 0
    ensures CountIn(ManifestFlagIssues(content), {Critical}) == if Contains(content, DEBUGGABLE) then 1 else 0
    ensures CountIn(ManifestFlagIssues(content), {Medium}) == 0
    ensures |ManifestFlagIssues(content)| == CountIn(ManifestFlagIssues(content), {High})
              + CountIn(ManifestFlagIssues(content), {Critical})
  {
    var backup := if Contains(content, ALLOW_BACKUP)
      then [SecurityIssue(High, ANDROID_SECURITY, MANIFEST_NAME, 0, BACKUP_MESSAGE)] else [];
    var debug := if Contains(content, DEBUGGABLE)
      then [SecurityIssue(Critical, ANDROID_SECURITY, MANIFEST_NAME, 0, DEBUGGABLE_MESSAGE)] else [];
    assert ManifestFlagIssues(content) == backup + debug;
    CountInAppend(backup, debug, {High});
    CountInAppend(backup, debug, {Critical});
    CountInAppend(backup, debug, {Medium});
  }


  /** When every issue has severity `sev`, all of them are counted. */
  lemma {:induction false} CountAll(issues: seq<SecurityIssue>, sev: Severity)
    requires forall k :: 0 <= k < |issues| ==> issues[k].severity == sev
    ensures CountIn(issues, {sev}) == |issues|
    decreases |issues|
  {
    if |issues| > 0 {
      var init := issues[..|issues| - 1];
      assert forall k :: 0 <= k < |init| ==> init[k] == issues[k];
      CountAll(init, sev);
    }
  }

  /** One more file of the Kotlin pass extends the findings so far by its own. */
  lemma KotlinStep(start: seq<SecurityIssue>, before: seq<SecurityIssue>, after: seq<SecurityIssue>, ws: Workspace, j: nat)
    requires j < |ws|
    requires before == start + KotlinIssues(ws, j) && after == before + KotlinIssuesOf(ws[j])
    ensures after == start + KotlinIssues(ws, j + 1)
  {
    AppendAssoc(start, KotlinIssues(ws, j), KotlinIssuesOf(ws[j]));
  }

  /** One more file of the JavaScript pass extends the findings so far by its own. */
  lemma JsStep(start: seq<SecurityIssue>, before: seq<SecurityIssue>, after: seq<SecurityIssue>, ws: Workspace, j: nat)
    requires j < |ws|
    requires before == start + JsIssues(ws, j) && after == before + JsIssuesOf(ws[j])
    ensures after == start + JsIssues(ws, j + 1)
  {
    AppendAssoc(start, JsIssues(ws, j), JsIssuesOf(ws[j]));
  }

  /** One more file of the secret scan extends the findings so far by its own. */
  lemma SecretStep(start: seq<SecurityIssue>, before: seq<SecurityIssue>, after: seq<SecurityIssue>,
                   ws: Workspace, search: RegexSearch, j: nat)
    requires j < |ws|
    requires before == start + SecretIssues(ws, search, j) && after == before + SecretIssuesOf(ws[j], search)
    ensures after == start + SecretIssues(ws, search, j + 1)
  {
    AppendAssoc(start, SecretIssues(ws, search, j), SecretIssuesOf(ws[j], search));
  }

  /** The findings of the first `n` lines carry line numbers in 1..n. */
  lemma {:induction false} LineFindingsNumbered(check: LineCheck, lines: seq<string>, n: nat)
    requires NumbersFindings(check) && n <= |lines|
    ensures forall k :: 0 <= k < |LineFindings(check, lines, n)| ==> 1 <= LineFindings(check, lines, n)[k].lineNum <= n
    decreases n
  {
    if n > 0 {
      LineFindingsNumbered(check, lines, n - 1);
      assert NumberedAt(check(lines[n - 1], n), n);
    }
  }

  /** An issue numbered `j` is among a file's findings exactly when it is among
      the findings of line `j` alone. */
  lemma {:induction false} LineFindingsAt(check: LineCheck, lines: seq<string>, n: nat, x: SecurityIssue)
    requires NumbersFindings(check) && 1 <= x.lineNum <= n <= |lines|
    ensures x in LineFindings(check, lines, n) <==> x in check(lines[x.lineNum - 1], x.lineNum)
    decreases n
  {
    var before := LineFindings(check, lines, n - 1);
    var last := check(lines[n - 1], n);
    assert LineFindings(check, lines, n) == before + last;
    if x.lineNum < n {
      assert x !in last by {
        assert NumberedAt(last, n);
      }
      LineFindingsAt(check, lines, n - 1, x);
    } else {
      assert x !in before by {
        LineFindingsNumbered(check, lines, n - 1);
      }
    }
  }

  lemma KotlinCheckNumbers(name: string)
    ensures NumbersFindings(KotlinCheck(name))
  {
    forall line, lineNum ensures NumberedAt(KotlinCheck(name)(line, lineNum), lineNum) {
      assert KotlinCheck(name)(line, lineNum) == KotlinLineIssues(name, line, lineNum);
    }
  }

  /** Within one Kotlin line, each finding is present exactly when its check fires. */
  lemma KotlinLineFindings(name: string, line: string, lineNum: nat)
    ensures LeakIssue(name, lineNum) in KotlinLineIssues(name, line, lineNum) <==> LogsSensitiveData(line)
    ensures WeakRandomIssue(name, lineNum) in KotlinLineIssues(name, line, lineNum) <==> UsesJavaRandom(line)
  {
    var leak := if LogsSensitiveData(line) then [LeakIssue(name, lineNum)] else [];
    var weak := if UsesJavaRandom(line) then [WeakRandomIssue(name, lineNum)] else [];
    assert KotlinLineIssues(name, line, lineNum) == leak + weak;
    assert LeakIssue(name, lineNum).severity != WeakRandomIssue(name, lineNum).severity;
  }

  /** A Kotlin file has a data-leak finding at line `i + 1` exactly when that
      line logs sensitive data through a plain `Log` call. */
  lemma KotlinLeakIff(name: string, lines: seq<string>, i: nat)
    requires i < |lines|
    ensures LeakIssue(name, i + 1) in LineFindings(KotlinCheck(name), lines, |lines|) <==> LogsSensitiveData(lines[i])
  {
    var check := KotlinCheck(name);
    var x := LeakIssue(name, i + 1);
    assert x.lineNum == i + 1;
    KotlinCheckNumbers(name);
    LineFindingsAt(check, lines, |lines|, x);
    assert x in LineFindings(check, lines, |lines|) <==> x in check(lines[i], i + 1);
    assert check(lines[i], i + 1) == KotlinLineIssues(name, lines[i], i + 1);
    KotlinLineFindings(name, lines[i], i + 1);
  }

  /** A Kotlin file has a weak-random finding at line `i + 1` exactly when that
      line mentions `java.util.Random`. */
  lemma KotlinWeakRandomIff(name: string, lines: seq<string>, i: nat)
    requires i < |lines|
    ensures WeakRandomIssue(name, i + 1) in LineFindings(KotlinCheck(name), lines, |lines|) <==> UsesJavaRandom(lines[i])
  {
    var check := KotlinCheck(name);
    var x := WeakRandomIssue(name, i + 1);
    assert x.lineNum == i + 1;
    KotlinCheckNumbers(name);
    LineFindingsAt(check, lines, |lines|, x);
    assert x in LineFindings(check, lines, |lines|) <==> x in check(lines[i], i + 1);
    assert check(lines[i], i + 1) == KotlinLineIssues(name, lines[i], i + 1);
    KotlinLineFindings(name, lines[i], i + 1);
  }

  lemma JsCheckNumbers(path: string)
    ensures NumbersFindings(JsCheck(path))
  {
    forall line, lineNum ensures NumberedAt(JsCheck(path)(line, lineNum), lineNum) {
      assert JsCheck(path)(line, lineNum) == JsLineIssues(path, line, lineNum);
    }
  }

  /** JavaScript line `i` gives a HIGH "Code Execution" issue exactly when it contains `eval(`. */
  lemma JsEvalIff(path: string, lines: seq<string>, i: nat)
    requires i < |lines|
    ensures EvalIssue(BaseName(path), i + 1) in LineFindings(JsCheck(path), lines, |lines|) <==> Contains(lines[i], "eval(")
  {
    var check := JsCheck(path);
    JsCheckNumbers(path);
    LineFindingsAt(check, lines, |lines|, EvalIssue(BaseName(path), i + 1));
    assert check(lines[i], i + 1) == JsLineIssues(path, lines[i], i + 1);
  }

  /**
   * JavaScript line `i` gives a MEDIUM "Cryptography" issue exactly when it
   * calls `Math.random()` in a file whose path has no `crypto` but has
   * `generator` or `vault`.
   */
  lemma JsMathRandomIff(path: string, lines: seq<string>, i: nat)
    requires i < |lines|
    ensures MathRandomIssue(BaseName(path), i + 1) in LineFindings(JsCheck(path), lines, |lines|)
            <==> WeakRandomInSecurityContext(path, lines[i])
  {
    var check := JsCheck(path);
    JsCheckNumbers(path);
    LineFindingsAt(check, lines, |lines|, MathRandomIssue(BaseName(path), i + 1));
    assert check(lines[i], i + 1) == JsLineIssues(path, lines[i], i + 1);
  }

  /** The workspace without the files whose path mentions `node_modules`. */
  function WithoutNodeModules(ws: Workspace): (r: Workspace)
    ensures forall k :: 0 <= k < |r| ==> !InNodeModules(r[k])
    ensures |r| <= |ws|
  {
    if |ws| == 0 then []
    else WithoutNodeModules(ws[..|ws| - 1]) + (if InNodeModules(ws[|ws| - 1]) then [] else [ws[|ws| - 1]])
  }

  /** Dropping the `node_modules` files keeps every other file, in its order. */
  lemma {:induction false} WithoutNodeModulesKeepsOthers(ws: Workspace)
    ensures forall f :: f in WithoutNodeModules(ws) <==> f in ws && !InNodeModules(f)
    ensures exists idx :: SubsequenceAt(idx, WithoutNodeModules(ws), ws)
    decreases |ws|
  {
    if |ws| == 0 {
      assert SubsequenceAt([], WithoutNodeModules(ws), ws);
    } else {
      var init, last := ws[..|ws| - 1], ws[|ws| - 1];
      WithoutNodeModulesKeepsOthers(init);
      assert init + [last] == ws;
      var kept := WithoutNodeModules(init);
      var idx: seq<nat> :| SubsequenceAt(idx, kept, init);
      SubsequenceSnoc(idx, kept, init, last);
      if InNodeModules(last) {
        assert WithoutNodeModules(ws) == kept;
        assert SubsequenceAt(idx, WithoutNodeModules(ws), ws);
      } else {
        assert WithoutNodeModules(ws) == kept + [last];
        assert SubsequenceAt(idx + [|init|], WithoutNodeModules(ws), ws);
      }
    }
  }

  /** The JavaScript pass over the first `n` files only looks at those files. */
  lemma {:induction false} JsPrefix(ws: Workspace, n: nat)
    requires n <= |ws|
    ensures JsIssues(ws, n) == JsIssues(ws[..n], n) && JsCount(ws, n) == JsCount(ws[..n], n)
    decreases n
  {
    if n > 0 {
      var pre := ws[..n];
      JsPrefix(ws, n - 1);
      JsPrefix(pre, n - 1);
      assert pre[..n - 1] == ws[..n - 1];
      assert pre[n - 1] == ws[n - 1];
    }
  }

  /** Appending one file appends its findings and its scanned count. */
  lemma JsAppend(ws: Workspace, f: SourceFile)
    ensures JsIssues(ws + [f], |ws| + 1) == JsIssues(ws, |ws|) + JsIssuesOf(f)
    ensures JsCount(ws + [f], |ws| + 1) == JsCount(ws, |ws|) + (if JsScanned(f) then 1 else 0)
  {
    var all := ws + [f];
    JsPrefix(all, |ws|);
    assert all[..|ws|] == ws;
    assert all[|ws|] == f;
  }

  /** Files under `node_modules` add no JavaScript findings: the pass finds the
      same issues once they are removed. */
  lemma {:induction false} NodeModulesAddNoIssues(ws: Workspace)
    ensures JsIssues(ws, |ws|) == JsIssues(WithoutNodeModules(ws), |WithoutNodeModules(ws)|)
    decreases |ws|
  {
    if |ws| > 0 {
      var init := ws[..|ws| - 1];
      var last := ws[|ws| - 1];
      var kept := WithoutNodeModules(init);
      assert init + [last] == ws;
      calc {
        JsIssues(ws, |ws|);
      == { JsAppend(init, last); }
        JsIssues(init, |init|) + JsIssuesOf(last);
      == { NodeModulesAddNoIssues(init); }
        JsIssues(kept, |kept|) + JsIssuesOf(last);
      }
      if InNodeModules(last) {
        assert WithoutNodeModules(ws) == kept;
        assert JsIssues(kept, |kept|) + JsIssuesOf(last) == JsIssues(kept, |kept|);
      } else {
        assert WithoutNodeModules(ws) == kept + [last];
        JsAppend(kept, last);
      }
    }
  }

  /** Files under `node_modules` are not counted as scanned JavaScript files. */
  lemma {:induction false} NodeModulesNotCounted(ws: Workspace)
    ensures JsCount(ws, |ws|) == JsCount(WithoutNodeModules(ws), |WithoutNodeModules(ws)|)
    decreases |ws|
  {
    if |ws| > 0 {
      var init := ws[..|ws| - 1];
      var last := ws[|ws| - 1];
      var kept := WithoutNodeModules(init);
      NodeModulesNotCounted(init);
      assert init + [last] == ws;
      JsAppend(init, last);
      if InNodeModules(last) {
        assert WithoutNodeModules(ws) == kept;
      } else {
        assert WithoutNodeModules(ws) == kept + [last];
        JsAppend(kept, last);
      }
    }
  }


  /**
   * The secret scan of one file: one HIGH "Hardcoded Secret" issue at line 0
   * for each secret pattern found in its whole text (so at most one per
   * pattern, however many times it occurs), and nothing at all for files
   * without a listed extension or under `node_modules` or `.git`.
   */
  lemma SecretFindingsOfFile(f: SourceFile, search: RegexSearch)
    ensures |SecretIssuesOf(f, search)| <= |SECRET_PATTERNS|
    ensures forall k :: 0 <= k < |SecretIssuesOf(f, search)| ==>
              var s := SecretIssuesOf(f, search)[k];
              s.severity == High && s.lineNum == 0 && s.category == "Hardcoded Secret" && s.filePath == BaseName(f.path)
    ensures forall p :: 0 <= p < |SECRET_PATTERNS| ==>
              (SecretIssue(f, SECRET_PATTERNS[p].0) in SecretIssuesOf(f, search)
               <==> SecretScanned(f) && search(SECRET_PATTERNS[p].1, f.text))
    ensures !SecretScanned(f) ==> SecretIssuesOf(f, search) == []
  {
    var google := SecretIssue(f, SECRET_PATTERNS[0].0);
    var generic := SecretIssue(f, SECRET_PATTERNS[1].0);
    var first := if search(SECRET_PATTERNS[0].1, f.text) then [google] else [];
    var second := if search(SECRET_PATTERNS[1].1, f.text) then [generic] else [];
    assert SecretPatternIssues(f, search, 1) == first;
    assert SecretPatternIssues(f, search, 2) == first + second;
    if SecretScanned(f) {
      assert SecretIssuesOf(f, search) == first + second;
    } else {
      assert SecretIssuesOf(f, search) == [];
    }
    assert google.message != generic.message by {
      assert google.message[9] == 'G' && google.message[10] == 'o';
      assert generic.message[9] == 'G' && generic.message[10] == 'e';
    }
  }

  /** Every secret finding of the workspace comes from a file the scan reads. */
  lemma {:induction false} SecretFindingsFromScannedFiles(ws: Workspace, search: RegexSearch, n: nat, s: SecurityIssue)
    requires n <= |ws| && s in SecretIssues(ws, search, n)
    ensures exists k :: 0 <= k < n && SecretScanned(ws[k]) && s in SecretIssuesOf(ws[k], search)
    decreases n
  {
    assert SecretIssues(ws, search, n) == SecretIssues(ws, search, n - 1) + SecretIssuesOf(ws[n - 1], search);
    if s in SecretIssues(ws, search, n - 1) {
      SecretFindingsFromScannedFiles(ws, search, n - 1, s);
    } else {
      assert s in SecretIssuesOf(ws[n - 1], search);
      assert SecretScanned(ws[n - 1]);
    }
  }

}
