/** The Patch Owner's own path filter and the writes behind it (scripts/github_agent_fixer.py).
    The filter repeats the canonical policy's tables, so that the two can be compared. */
module FixerPaths {
  import opened Wrappers
  import opened RepoPath
  import PathPolicy

  type Folding = PathPolicy.Folding

  const MAX_FILES: nat := 16
  const MAX_FILE_BYTES: nat := 350000
  const MAX_REASON: nat := 2000

  const SUPPORTED_SUFFIXES: set<string> := {
    ".py", ".json", ".toml", ".yml", ".yaml", ".sh", ".bash", ".js", ".mjs", ".cjs", ".jsx", ".ts", ".tsx"}
  const AUTOMATIC_SOURCE_ROOTS: seq<string> := ["services/", "web/", "contracts/"]
  const FORBIDDEN_PATH_PARTS: set<string> := {"tests", "test", "e2e", "__tests__"}
  const FORBIDDEN_BASENAMES: set<string> := {
    "pyproject.toml", "uv.lock", "package.json", "package-lock.json", "pnpm-lock.yaml", "yarn.lock", "dockerfile"}
  const PROTECTED_PREFIXES: seq<string> := ["governance/", "skill-system/", ".github/", ".git/", ".quality/"]
  const PROTECTED_EXACT: set<string> := {
    "scripts/quality_loop.py", "scripts/repair_loop.py", "scripts/github_failure_ingest.py",
    "scripts/github_agent_fixer.py", "scripts/github_repair_orchestrator.py",
    "scripts/github_repair_orchestrator_control_plane.py", "scripts/github_repair_authority.py",
    "scripts/github_repair_rca.py", "skill-system/registry/product-source-baseline.json"}

  datatype Refusal =
    | InvalidPath
    | Protected
    | OutsideBoundary
    | UnsupportedType
    | NotARegularFile
    | EscapesWorkspace
    | EmptySet
    | TooMany

  /** What the workspace holds under a path. */
  datatype Entry = Regular(text: string, inside: bool) | Symlink | Directory

  /** The workspace, by path components: `a//b` and `a/b` name one file. */
  type Files = map<seq<string>, Entry>

  // ---------- The filter ----------

  function PlainText(raw: string): string {
    DropDotSlash(Trim(Slashes(raw)))
  }

  function Normalize(raw: string): Result<string, Refusal> {
    var value := PlainText(raw);
    if value == [] || IsAbsolute(value) || ".." in Parts(value) then Failure(InvalidPath) else Success(value)
  }

  method NormalizePath(raw: string) returns (r: Result<string, Refusal>)
    ensures r == Normalize(raw)
  {
    var value := Trim(Slashes(raw));
    while StartsDotSlash(value)
      invariant DropDotSlash(value) == PlainText(raw)
      decreases |value|
    {
      value := value[2..];
    }
    if value == [] || IsAbsolute(value) || ".." in Parts(value) {
      return Failure(InvalidPath);
    }
    return Success(value);
  }

  predicate AutomaticSource(path: string, fold: Folding) {
    var name := fold.casefold(PathPolicy.Name(path));
    var lowered := fold.casefold(path);
    && PathPolicy.StartsWithAny(path, AUTOMATIC_SOURCE_ROOTS)
    && PathPolicy.FoldedParts(path, fold) * FORBIDDEN_PATH_PARTS == {}
    && !("test_" <= name || PathPolicy.ContainsText(name, ".test.") || PathPolicy.ContainsText(name, ".spec."))
    && name !in FORBIDDEN_BASENAMES && !PathPolicy.EndsWith(name, ".lock")
    && !PathPolicy.EndsWith(lowered, "/.env") && !PathPolicy.EndsWith(lowered, "/.env.example")
  }

  function TextRefusal(path: string, fold: Folding): Option<Refusal> {
    if path in PROTECTED_EXACT || PathPolicy.StartsWithAny(path, PROTECTED_PREFIXES) then Some(Protected)
    else if !AutomaticSource(path, fold) then Some(OutsideBoundary)
    else if fold.lower(PathPolicy.Suffix(path)) !in SUPPORTED_SUFFIXES then Some(UnsupportedType)
    else None
  }

  function FileRefusal(path: string, files: Files): Option<Refusal> {
    if Parts(path) !in files || !files[Parts(path)].Regular? then Some(NotARegularFile)
    else if !files[Parts(path)].inside then Some(EscapesWorkspace)
    else None
  }

  /** The fixer's tables as a filter. */
  function TextFilter(fold: Folding): string -> Option<Refusal> {
    path => TextRefusal(path, fold)
  }

  function Examine(raw: string, files: Files, filter: string -> Option<Refusal>): Result<string, Refusal> {
    match Normalize(raw)
    case Failure(e) => Failure(e)
    case Success(path) =>
      match filter(path)
      case Some(e) => Failure(e)
      case None =>
        match FileRefusal(path, files)
        case Some(e) => Failure(e)
        case None => Success(path)
  }

  function Examiner(files: Files, filter: string -> Option<Refusal>): string -> Result<string, Refusal> {
    raw => Examine(raw, files, filter)
  }

  /** The outcome after the first `n` paths: a path seen before is dropped, not refused. */
  function AllowFirst(paths: seq<string>, n: nat, examine: string -> Result<string, Refusal>)
    : Result<seq<string>, Refusal>
    requires n <= |paths|
  {
    if n == 0 then
      Success([])
    else
      match AllowFirst(paths, n - 1, examine)
      case Failure(e) => Failure(e)
      case Success(result) =>
        match examine(paths[n - 1])
        case Failure(e) => Failure(e)
        case Success(path) => Success(if path in result then result else result + [path])
  }

  function Allow(paths: seq<string>, examine: string -> Result<string, Refusal>): Result<seq<string>, Refusal> {
    match AllowFirst(paths, |paths|, examine)
    case Failure(e) => Failure(e)
    case Success(result) =>
      if result == [] then Failure(EmptySet)
      else if |result| > MAX_FILES then Failure(TooMany)
      else Success(result)
  }

  function AllowedPaths(paths: seq<string>, files: Files,
      filter: string -> Option<Refusal>): Result<seq<string>, Refusal>
  {
    Allow(paths, Examiner(files, filter))
  }

  /** Why the fixer refuses a path. */
  lemma {:induction false} RefusalExactly(path: string, files: Files, fold: Folding)
    ensures TextRefusal(path, fold) == Some(Protected) <==>
              path in PROTECTED_EXACT || PathPolicy.StartsWithAny(path, PROTECTED_PREFIXES)
    ensures TextRefusal(path, fold) == Some(OutsideBoundary) <==>
              path !in PROTECTED_EXACT && !PathPolicy.StartsWithAny(path, PROTECTED_PREFIXES)
                && !AutomaticSource(path, fold)
    ensures FileRefusal(path, files) == Some(NotARegularFile) <==>
              Parts(path) !in files || files[Parts(path)] == Symlink || files[Parts(path)] == Directory
    ensures FileRefusal(path, files) == Some(EscapesWorkspace) <==>
              exists text :: Parts(path) in files && files[Parts(path)] == Regular(text, false)
    ensures FileRefusal(path, files) == None <==>
              exists text :: Parts(path) in files && files[Parts(path)] == Regular(text, true)
  {
    hide AutomaticSource, PathPolicy.StartsWithAny, PathPolicy.Suffix, Parts, PROTECTED_EXACT, PROTECTED_PREFIXES;
  }

  method ExaminePath(raw: string, files: Files, filter: string -> Option<Refusal>) returns (r: Result<string, Refusal>)
    ensures r == Examiner(files, filter)(raw)
  {
    hide FileRefusal, Normalize;
    var path := NormalizePath(raw);
    if path.Success? {
      var text := filter(path.value);
      if text.Some? {
        return Failure(text.value);
      }
      var file := FileRefusal(path.value, files);
      if file.Some? {
        return Failure(file.value);
      }
    }
    return path;
  }

  method ValidateAllowedPaths(paths: seq<string>, files: Files, filter: string -> Option<Refusal>)
    returns (r: Result<seq<string>, Refusal>)
    ensures r == AllowedPaths(paths, files, filter)
  {
    hide Examiner;
    ghost var examine := Examiner(files, filter);
    var normalized: seq<string> := [];
    for i := 0 to |paths|
      invariant AllowFirst(paths, i, examine) == Success(normalized)
    {
      var path := ExaminePath(paths[i], files, filter);
      if path.Failure? {
        RefusedEarly(paths, i + 1, |paths|, examine);
        return Failure(path.error);
      }
      if path.value !in normalized {
        normalized := normalized + [path.value];
      }
    }
    if normalized == [] {
      return Failure(EmptySet);
    }
    if |normalized| > MAX_FILES {
      return Failure(TooMany);
    }
    return Success(normalized);
  }

  lemma {:induction false} RefusedEarly(paths: seq<string>, k: nat, n: nat, examine: string -> Result<string, Refusal>)
    requires k <= n <= |paths| && AllowFirst(paths, k, examine).Failure?
    ensures AllowFirst(paths, n, examine) == AllowFirst(paths, k, examine)
    decreases n
  {
    if k < n {
      RefusedEarly(paths, k, n - 1, examine);
    }
  }

  // ---------- Agreement with the canonical policy ----------

  /** Two normalizers, two orders of replacing and trimming, one text. */
  lemma {:induction false} SameText(raw: string)
    ensures PlainText(raw) == PathPolicy.NormalizedText(raw)
  {
    SlashesTrim(raw);
  }

  /** The canonical normalizer accepts what the fixer's accepts and, besides, asks for POSIX form. */
  lemma {:induction false} NormalizersDifferByForm(raw: string, path: string)
    ensures PathPolicy.Normalize(raw) == Success(path) <==> Normalize(raw) == Success(path) && AsPosix(path) == path
  {
    SameText(raw);
  }

  /** A policy and a filter pass the same fixed points of the canonical normalizer. */
  ghost predicate SameFilter(policy: string -> Option<PathPolicy.Violation>, filter: string -> Option<Refusal>) {
    forall p :: PathPolicy.FixedPoint(p) ==> (policy(p) == None <==> filter(p) == None)
  }

  lemma {:induction false} SameTables(path: string, fold: Folding)
    ensures TextRefusal(path, fold) == None <==> PathPolicy.Ineligible(path, PathPolicy.Product, fold) == None
  {
    hide PathPolicy.StartsWithAny, PathPolicy.EndsWith, PathPolicy.ContainsText, PathPolicy.Suffix,
      PathPolicy.Name, PathPolicy.FoldedParts;
  }

  /** The two independently written tables agree, whatever case folding does. */
  lemma {:induction false} TablesAgree(fold: Folding)
    ensures SameFilter(PathPolicy.Policy(PathPolicy.Product, fold), TextFilter(fold))
  {
    hide TextRefusal, PathPolicy.Ineligible, PathPolicy.Normalize;
    forall p | PathPolicy.FixedPoint(p)
      ensures PathPolicy.Policy(PathPolicy.Product, fold)(p) == None <==> TextFilter(fold)(p) == None
    {
      SameTables(p, fold);
    }
  }

  /** The canonical verdict, at the fixed points of its normalizer, in terms of the fixer's. */
  lemma {:induction false} SameVerdict(
    raw: string, path: string, files: Files, policy: string -> Option<PathPolicy.Violation>,
    filter: string -> Option<Refusal>)
    requires SameFilter(policy, filter) && FileRefusal(path, files) == None && PathPolicy.FixedPoint(path)
    ensures PathPolicy.Judge(policy)(raw) == Success(path) <==> Examiner(files, filter)(raw) == Success(path)
  {
    hide PathPolicy.Normalize, Normalize, FileRefusal, AsPosix;
    NormalizersDifferByForm(raw, path);
    NormalizersDifferByForm(path, path);
  }

  ghost predicate Examined(paths: seq<string>, result: seq<string>, examine: string -> Result<string, Refusal>) {
    && |result| == |paths|
    && (forall i :: 0 <= i < |paths| ==> examine(paths[i]) == Success(result[i]))
    && (forall i, j :: 0 <= i < j < |result| ==> result[i] != result[j])
  }

  lemma {:induction false} AllowShort(paths: seq<string>, n: nat, examine: string -> Result<string, Refusal>)
    requires n <= |paths| && AllowFirst(paths, n, examine).Success?
    ensures |AllowFirst(paths, n, examine).value| <= n
    ensures |AllowFirst(paths, n, examine).value| == n ==>
            Examined(paths[..n], AllowFirst(paths, n, examine).value, examine)
  {
    if n > 0 {
      AllowShort(paths, n - 1, examine);
      var front := AllowFirst(paths, n - 1, examine).value;
      assert paths[..n] == paths[..n - 1] + [paths[n - 1]];
    }
  }

  lemma {:induction false} AllowAll(paths: seq<string>, n: nat, result: seq<string>,
      examine: string -> Result<string, Refusal>)
    requires n <= |paths| && Examined(paths[..n], result, examine)
    ensures AllowFirst(paths, n, examine) == Success(result)
  {
    if n > 0 {
      var front := result[..n - 1];
      forall i | 0 <= i < n - 1
        ensures examine(paths[..n - 1][i]) == Success(front[i])
      {
        assert paths[..n - 1][i] == paths[..n][i];
      }
      AllowAll(paths, n - 1, front, examine);
      assert paths[..n][n - 1] == paths[n - 1];
      assert result == front + [result[n - 1]];
    }
  }

  /** Nothing is dropped exactly when every path passes and no two agree. */
  lemma {:induction false} AllowedExactly(paths: seq<string>, result: seq<string>,
      examine: string -> Result<string, Refusal>)
    requires |result| == |paths|
    ensures Allow(paths, examine) == Success(result) <==> Examined(paths, result, examine) && 1 <= |paths| <= MAX_FILES
  {
    assert paths[..|paths|] == paths;
    if AllowFirst(paths, |paths|, examine).Success? {
      AllowShort(paths, |paths|, examine);
    }
    if Examined(paths, result, examine) {
      AllowAll(paths, |paths|, result, examine);
    }
  }

  /** The agreement of the two validators: under filters that pass the same fixed points, for existing
      regular files whose paths are fixed points, the policy accepts a raw path list with a result
      exactly when the fixer does. */
  lemma {:induction false} FiltersAgree(
    paths: seq<string>, result: seq<string>, files: Files, policy: string -> Option<PathPolicy.Violation>,
    filter: string -> Option<Refusal>)
    requires SameFilter(policy, filter) && |result| == |paths|
    requires forall i :: 0 <= i < |result| ==> PathPolicy.FixedPoint(result[i]) && FileRefusal(result[i], files) == None
    ensures PathPolicy.Collect(paths, PathPolicy.Judge(policy)) == Success(result)
            <==> AllowedPaths(paths, files, filter) == Success(result)
  {
    hide PathPolicy.FixedPoint, FileRefusal, Examiner, PathPolicy.Judge, SameFilter;
    var judge, examine := PathPolicy.Judge(policy), Examiner(files, filter);
    PathPolicy.AcceptedExactly(paths, result, judge);
    AllowedExactly(paths, result, examine);
    forall i | 0 <= i < |paths|
      ensures judge(paths[i]) == Success(result[i]) <==> examine(paths[i]) == Success(result[i])
    {
      SameVerdict(paths[i], result[i], files, policy, filter);
    }
  }

  /** What the policy accepts unchanged consists of fixed points. */
  lemma {:induction false} UnchangedAreFixedPoints(paths: seq<string>, policy: string -> Option<PathPolicy.Violation>)
    requires PathPolicy.Collect(paths, PathPolicy.Judge(policy)) == Success(paths)
    ensures forall i :: 0 <= i < |paths| ==> PathPolicy.FixedPoint(paths[i])
  {
    hide PathPolicy.Normalize;
    PathPolicy.AcceptedExactly(paths, paths, PathPolicy.Judge(policy));
    forall i | 0 <= i < |paths|
      ensures PathPolicy.FixedPoint(paths[i])
    {
      assert PathPolicy.Judge(policy)(paths[i]) == Success(paths[i]);
    }
  }

  /** What the policy accepts unchanged, the fixer accepts unchanged, given the files. */
  lemma {:induction false} PolicyAcceptedIsFixerAccepted(
    paths: seq<string>, files: Files, policy: string -> Option<PathPolicy.Violation>, filter: string -> Option<Refusal>)
    requires SameFilter(policy, filter) && PathPolicy.Collect(paths, PathPolicy.Judge(policy)) == Success(paths)
    requires forall p :: p in paths ==> FileRefusal(p, files) == None
    ensures AllowedPaths(paths, files, filter) == Success(paths)
  {
    hide FileRefusal, PathPolicy.FixedPoint, PathPolicy.Collect, AllowedPaths, SameFilter;
    UnchangedAreFixedPoints(paths, policy);
    FiltersAgree(paths, paths, files, policy, filter);
  }

  /** The fixer alone would let one more kind of path through: what it accepts unchanged the policy
      accepts unchanged exactly when every path is its own POSIX form (`services//a.py` is not). */
  lemma {:induction false} FixerAcceptedIsPolicyAcceptedExactly(
    paths: seq<string>, files: Files, policy: string -> Option<PathPolicy.Violation>, filter: string -> Option<Refusal>)
    requires SameFilter(policy, filter) && AllowedPaths(paths, files, filter) == Success(paths)
    ensures PathPolicy.Collect(paths, PathPolicy.Judge(policy)) == Success(paths) <==>
            forall p :: p in paths ==> AsPosix(p) == p
  {
    hide PathPolicy.Normalize, Normalize, FileRefusal, AsPosix, AllowFirst, PathPolicy.Collect, SameFilter;
    AllowedExactly(paths, paths, Examiner(files, filter));
    forall i | 0 <= i < |paths|
      ensures Normalize(paths[i]) == Success(paths[i]) && FileRefusal(paths[i], files) == None
      ensures PathPolicy.FixedPoint(paths[i]) <==> AsPosix(paths[i]) == paths[i]
    {
      assert Examiner(files, filter)(paths[i]) == Success(paths[i]);
      NormalizersDifferByForm(paths[i], paths[i]);
    }
    if forall p :: p in paths ==> AsPosix(p) == p {
      FiltersAgree(paths, paths, files, policy, filter);
    }
    if PathPolicy.Collect(paths, PathPolicy.Judge(policy)) == Success(paths) {
      UnchangedAreFixedPoints(paths, policy);
      forall p | p in paths
        ensures AsPosix(p) == p
      {
        var i :| 0 <= i < |paths| && paths[i] == p;
      }
    }
  }

  /** Doubling a separator of an eligible path keeps it acceptable for a fixer whose filter passes it,
      and acceptable for no policy. */
  lemma {:induction false} DoubledSlashPassesFixer(a: string, b: string, files: Files,
      filter: string -> Option<Refusal>)
    requires '/' !in a && PathPolicy.FixedPoint(a + "/" + b) && a + "/" + b != "."
    requires filter(a + "//" + b) == None && FileRefusal(a + "/" + b, files) == None
    ensures AllowedPaths([a + "//" + b], files, filter) == Success([a + "//" + b])
    ensures forall policy :: PathPolicy.Collect([a + "//" + b], PathPolicy.Judge(policy)).Failure?
  {
    hide Parts, Normalize, PathPolicy.Normalize, PathPolicy.Collect, AllowFirst;
    var path := a + "//" + b;
    var paths := [path];
    DoubledPlain(a, b);
    assert Examiner(files, filter)(path) == Success(path);
    AllowedExactly(paths, paths, Examiner(files, filter));
    forall policy
      ensures PathPolicy.Collect(paths, PathPolicy.Judge(policy)).Failure?
    {
      RefusedByForm(path, policy);
    }
  }

  lemma {:induction false} DoubledPlain(a: string, b: string)
    requires '/' !in a && PathPolicy.FixedPoint(a + "/" + b) && a + "/" + b != "."
    ensures var path := a + "//" + b;
            && Normalize(path) == Success(path) && AsPosix(path) == a + "/" + b && Parts(path) == Parts(a + "/" + b)
            && Trimmed(path) && '\\' !in path && !StartsDotSlash(path)
  {
    hide Kept, Split, Trim, Trimmed;
    var path, p := a + "//" + b, a + "/" + b;
    PathPolicy.FixedPointShape(p);
    PlainIsPosix(p);
    DoubledParts(a, b);
    EndsPlain(a, b);
    assert path[0] == p[0] && path[|path| - 1] == p[|p| - 1] && '\\' !in path;
    TrimFixed(p);
    SameEndsTrimmed(path, p);
    TrimFixed(path);
    SlashesFixed(path);
    assert |a| >= 2 ==> a[1] in a;
    assert |a| == 1 ==> path[0] == a[0];
    assert !StartsDotSlash(path);
  }

  lemma {:induction false} SameEndsTrimmed(s: string, t: string)
    requires s != "" && t != "" && s[0] == t[0] && s[|s| - 1] == t[|t| - 1] && Trimmed(t)
    ensures Trimmed(s)
  {
  }

  lemma {:induction false} RefusedByForm(path: string, policy: string -> Option<PathPolicy.Violation>)
    requires Normalize(path) == Success(path) && AsPosix(path) != path
    ensures PathPolicy.Collect([path], PathPolicy.Judge(policy)).Failure?
  {
    hide Normalize, PathPolicy.Normalize, AsPosix;
    if PathPolicy.Normalize(path).Success? {
      NormalizersDifferByForm(path, PathPolicy.Normalize(path).value);
    }
    var judge := PathPolicy.Judge(policy);
    if PathPolicy.Collect([path], judge).Success? {
      PathPolicy.AcceptedExactly([path], PathPolicy.Collect([path], judge).value, judge);
    }
  }

  /** No case folding at all. */
  const PLAIN_FOLDING := PathPolicy.Folding((s: string) => s, (s: string) => s)

  lemma {:induction false} ExampleParts()
    ensures Parts("services//a.py") == ["services", "a.py"] && Plain(Split("services/a.py"))
    ensures Parts("services/a.py") == ["services", "a.py"] && AsPosix("services/a.py") == "services/a.py"
  {
    hide Split, Kept;
    SplitPlain("a.py");
    SplitAtSlash("services", "a.py");
    assert "services" + "/" + "a.py" == "services/a.py" && "services" + "//" + "a.py" == "services//a.py";
    PlainIsPosix("services/a.py");
    DoubledParts("services", "a.py");
  }

  lemma {:induction false} ExampleName()
    ensures PathPolicy.Name("services//a.py") == "a.py" && PathPolicy.Suffix("services//a.py") == ".py"
  {
    hide Parts;
    ExampleParts();
    var name := "a.py";
    assert name[..3] == "a.p" && name[..3][..2] == "a.";
    assert PathPolicy.LastDot("a.") == 1 && PathPolicy.LastDot("a.p") == 1 && PathPolicy.LastDot(name) == 1;
    assert name[1..] == ".py";
  }

  lemma {:induction false} ExampleRoots()
    ensures PathPolicy.StartsWithAny("services//a.py", AUTOMATIC_SOURCE_ROOTS)
  {
    var root := AUTOMATIC_SOURCE_ROOTS[0];
    assert root == "services/";
    assert root in AUTOMATIC_SOURCE_ROOTS && root <= "services//a.py";
  }

  lemma {:induction false} ExamplePartsAllowed()
    ensures "services" !in FORBIDDEN_PATH_PARTS && "a.py" !in FORBIDDEN_PATH_PARTS
  {
  }

  lemma {:induction false} FoldedPair(path: string, a: string, b: string)
    requires Parts(path) == [a, b]
    ensures PathPolicy.FoldedParts(path, PLAIN_FOLDING) == {a, b}
  {
    hide Parts;
    assert forall c :: c in Parts(path) <==> c == a || c == b;
    assert forall c :: PLAIN_FOLDING.casefold(c) == c;
    forall c
      ensures c in PathPolicy.FoldedParts(path, PLAIN_FOLDING) <==> c == a || c == b
    {
      assert c in Parts(path) ==> PLAIN_FOLDING.casefold(c) in PathPolicy.FoldedParts(path, PLAIN_FOLDING);
    }
  }

  lemma {:induction false} ExampleFolded()
    ensures PathPolicy.FoldedParts("services//a.py", PLAIN_FOLDING) * FORBIDDEN_PATH_PARTS == {}
  {
    hide Parts, PathPolicy.FoldedParts, FORBIDDEN_PATH_PARTS;
    ExampleParts();
    ExamplePartsAllowed();
    FoldedPair("services//a.py", "services", "a.py");
  }

  lemma {:induction false} ExampleNameAllowed()
    ensures !PathPolicy.ContainsText("a.py", ".test.") && !PathPolicy.ContainsText("a.py", ".spec.")
            && !("test_" <= "a.py")
    ensures "a.py" !in FORBIDDEN_BASENAMES && !PathPolicy.EndsWith("a.py", ".lock")
  {
  }

  lemma {:induction false} ExampleNoEnvironment()
    ensures !PathPolicy.EndsWith("services//a.py", "/.env") && !PathPolicy.EndsWith("services//a.py", "/.env.example")
  {
    var path := "services//a.py";
    assert path[|path| - 1] == 'y';
  }

  lemma {:induction false} ExampleText()
    ensures AutomaticSource("services//a.py", PLAIN_FOLDING)
  {
    hide PathPolicy.Name, Parts, PathPolicy.StartsWithAny, PathPolicy.FoldedParts, PathPolicy.ContainsText,
      PathPolicy.EndsWith;
    ExampleName();
    ExampleRoots();
    ExampleFolded();
    ExampleNameAllowed();
    ExampleNoEnvironment();
  }

  lemma {:induction false} ExampleUnprotected()
    ensures "services//a.py" !in PROTECTED_EXACT && !PathPolicy.StartsWithAny("services//a.py", PROTECTED_PREFIXES)
  {
    var path := "services//a.py";
    assert forall p :: p in PROTECTED_PREFIXES ==> p[0] != path[0] || p[1] != path[1];
  }

  lemma {:induction false} ExampleConcat()
    ensures "services" + "/" + "a.py" == "services/a.py" && "services" + "//" + "a.py" == "services//a.py"
    ensures '/' !in "services" && "services/a.py" != "."
  {
  }

  lemma {:induction false} ExampleLetters()
    ensures var p := "services/a.py"; Trimmed(p) && '\\' !in p && !StartsDotSlash(p)
  {
  }

  lemma {:induction false} ExampleFixedPoint()
    ensures PathPolicy.FixedPoint("services/a.py")
  {
    hide Parts, Split, AsPosix, Trim, Trimmed, Slashes, Plain, StartsDotSlash;
    var p := "services/a.py";
    ExampleParts();
    ExampleLetters();
    TrimFixed(p);
    SlashesFixed(p);
    DropDotSlashFacts(p);
    PathPolicy.NormalizeAcceptsExactly(p);
  }

  lemma {:induction false} ExampleSuffix()
    ensures PLAIN_FOLDING.lower(".py") in SUPPORTED_SUFFIXES
  {
  }

  lemma {:induction false} Passes(path: string, fold: Folding)
    requires path !in PROTECTED_EXACT && !PathPolicy.StartsWithAny(path, PROTECTED_PREFIXES)
             && AutomaticSource(path, fold)
    requires fold.lower(PathPolicy.Suffix(path)) in SUPPORTED_SUFFIXES
    ensures TextFilter(fold)(path) == None
  {
    hide AutomaticSource, PathPolicy.Suffix, PathPolicy.StartsWithAny, PROTECTED_EXACT, PROTECTED_PREFIXES,
      SUPPORTED_SUFFIXES;
  }

  lemma {:induction false} ExamplePasses()
    ensures TextFilter(PLAIN_FOLDING)("services//a.py") == None
  {
    hide *;
    ExampleText();
    ExampleName();
    ExampleUnprotected();
    ExampleSuffix();
    Passes("services//a.py", PLAIN_FOLDING);
  }

  /** One of the family, with the fixer's own tables: `services//a.py`. */
  lemma {:induction false} DoubledSlashExample(files: Files)
    requires FileRefusal("services/a.py", files) == None
    ensures AllowedPaths(["services//a.py"], files, TextFilter(PLAIN_FOLDING)) == Success(["services//a.py"])
    ensures PathPolicy.ValidateRepairPaths(["services//a.py"], PathPolicy.Product, PLAIN_FOLDING).Failure?
  {
    hide TextFilter, FileRefusal, PathPolicy.FixedPoint, AllowedPaths, PathPolicy.Collect, PathPolicy.Policy,
      PathPolicy.Judge;
    ExamplePasses();
    ExampleFixedPoint();
    ExampleConcat();
    DoubledSlashPassesFixer("services", "a.py", files, TextFilter(PLAIN_FOLDING));
  }

  /** All of this for the tables as they are. */
  lemma {:induction false} CanonicalAgreement(paths: seq<string>, files: Files, fold: Folding)
    requires forall p :: p in paths ==> FileRefusal(p, files) == None
    ensures PathPolicy.ValidateRepairPaths(paths, PathPolicy.Product, fold) == Success(paths) <==>
              AllowedPaths(paths, files, TextFilter(fold)) == Success(paths) && forall p :: p in paths ==>
                AsPosix(p) == p
  {
    hide FileRefusal, PathPolicy.Policy, TextFilter, PathPolicy.Collect, AllowedPaths, AsPosix, SameFilter;
    var policy, filter := PathPolicy.Policy(PathPolicy.Product, fold), TextFilter(fold);
    TablesAgree(fold);
    if PathPolicy.ValidateRepairPaths(paths, PathPolicy.Product, fold) == Success(paths) {
      PolicyAcceptedIsFixerAccepted(paths, files, policy, filter);
    }
    if AllowedPaths(paths, files, filter) == Success(paths) {
      FixerAcceptedIsPolicyAcceptedExactly(paths, files, policy, filter);
    }
  }
}
