/** Where an automatic repair may write (scripts/governed_repair_path_policy.py). */
module PathPolicy {
  import opened Wrappers
  import opened RepoPath

  const MAX_WRITE_PATHS: nat := 16

  const SUPPORTED_SUFFIXES: set<string> :=
    {".py", ".json", ".toml", ".yml", ".yaml", ".sh", ".bash", ".js", ".mjs", ".cjs", ".jsx", ".ts", ".tsx"}
  const AUTOMATIC_SOURCE_ROOTS: seq<string> := ["services/", "web/", "contracts/"]
  const FORBIDDEN_PATH_PARTS: set<string> := {"tests", "test", "e2e", "__tests__"}
  const FORBIDDEN_BASENAMES: set<string> :=
    {"pyproject.toml", "uv.lock", "package.json", "package-lock.json", "pnpm-lock.yaml", "yarn.lock", "dockerfile"}
  const PROTECTED_PREFIXES: seq<string> := ["governance/", "skill-system/", ".github/", ".git/", ".quality/"]
  const PROTECTED_EXACT: set<string> := {
    "scripts/quality_loop.py", "scripts/repair_loop.py", "scripts/github_failure_ingest.py",
    "scripts/github_agent_fixer.py", "scripts/github_repair_orchestrator.py",
    "scripts/github_repair_orchestrator_control_plane.py", "scripts/github_repair_authority.py",
    "scripts/github_repair_rca.py", "skill-system/registry/product-source-baseline.json"
  }
  const CONTROL_PREFIXES: seq<string> := ["scripts/verify_engineering_"]
  const CONTROL_SUFFIXES: set<string> := {".py"}

  datatype RepairDomain = Product | ControlPlane

  datatype Violation =
    | InvalidPath
    | ProtectedPath
    | TestPath
    | TestFilename
    | BuildManifest
    | EnvironmentFile
    | OutsideProductRoots
    | UnsupportedType
    | OutsideControlPrefixes
    | UnsupportedControlType
    | DuplicatePath
    | EmptyPathSet
    | TooManyPaths

  /** Unicode case folding and lower-casing, which the policy applies but does not define. */
  datatype Folding = Folding(casefold: string -> string, lower: string -> string)

  predicate StartsWithAny(s: string, prefixes: seq<string>) {
    exists p :: p in prefixes && p <= s
  }

  predicate EndsWith(s: string, suffix: string) {
    |suffix| <= |s| && s[|s| - |suffix|..] == suffix
  }

  predicate ContainsText(s: string, t: string) {
    exists i :: 0 <= i <= |s| && t <= s[i..]
  }

  /** Last component of a path, and the suffix of that component. */
  function Name(path: string): string {
    var parts := Parts(path);
    if parts == [] then "" else parts[|parts| - 1]
  }

  function LastDot(s: string): (i: int)
    ensures -1 <= i < |s|
  {
    if s == [] then -1 else if s[|s| - 1] == '.' then |s| - 1 else LastDot(s[..|s| - 1])
  }

  function Suffix(path: string): string {
    var name := Name(path);
    var i := LastDot(name);
    if 0 < i < |name| - 1 then name[i..] else ""
  }

  function FoldedParts(path: string, fold: Folding): set<string> {
    set c | c in Parts(path) :: fold.casefold(c)
  }

  /** The text tests are those of Python: a suffix, a part, and the last extension of a name, which neither
      starts nor ends the name. */
  lemma {:induction false} TextTestsExactly(s: string, t: string)
    ensures EndsWith(s, t) <==> exists front :: s == front + t
    ensures ContainsText(s, t) <==> exists front, back :: s == front + t + back
  {
    if EndsWith(s, t) {
      assert s == s[..|s| - |t|] + t;
    }
    if front :| s == front + t {
      assert s[|front|..] == t;
    }
    if i :| 0 <= i <= |s| && t <= s[i..] {
      assert s == s[..i] + t + s[i + |t|..];
    }
    if front, back :| s == front + t + back {
      assert s[|front|..] == t + back && t <= s[|front|..];
    }
  }

  lemma {:induction false} LastDotExactly(s: string)
    ensures LastDot(s) >= 0 ==> s[LastDot(s)] == '.' && '.' !in s[LastDot(s) + 1..]
    ensures LastDot(s) == -1 ==> '.' !in s
  {
    if s != [] && s[|s| - 1] != '.' {
      var front := s[..|s| - 1];
      LastDotExactly(front);
      assert s == front + [s[|s| - 1]];
      if LastDot(s) >= 0 {
        assert s[LastDot(s) + 1..] == front[LastDot(s) + 1..] + [s[|s| - 1]];
      }
    }
  }

  lemma {:induction false} SuffixExactly(path: string, suffix: string)
    requires suffix != ""
    ensures Suffix(path) == suffix <==>
              && |suffix| >= 2 && suffix[0] == '.' && '.' !in suffix[1..]
              && exists stem :: stem != "" && Name(path) == stem + suffix
  {
    hide Name, LastDot;
    var name := Name(path);
    LastDotExactly(name);
    var i := LastDot(name);
    if Suffix(path) == suffix {
      assert name == name[..i] + suffix && suffix[1..] == name[i + 1..];
    }
    if |suffix| >= 2 && suffix[0] == '.' && '.' !in suffix[1..] {
      forall stem | stem != "" && name == stem + suffix
        ensures Suffix(path) == suffix
      {
        assert name[|stem|] == '.' && name[|stem| + 1..] == suffix[1..];
        assert i == |stem|;
      }
    }
  }

  // ---------- The canonical normalizer ----------

  function NormalizedText(raw: string): string {
    DropDotSlash(Slashes(Trim(raw)))
  }

  function Normalize(raw: string): Result<string, Violation> {
    var value := NormalizedText(raw);
    if value == [] || IsAbsolute(value) || ".." in Parts(value) || AsPosix(value) != value then
      Failure(InvalidPath)
    else
      Success(value)
  }

  /** The normalizer as the loop it is. */
  method NormalizeRepoPath(raw: string) returns (r: Result<string, Violation>)
    ensures r == Normalize(raw)
  {
    var value := Slashes(Trim(raw));
    while StartsDotSlash(value)
      invariant DropDotSlash(value) == NormalizedText(raw)
      decreases |value|
    {
      value := value[2..];
    }
    if value == [] || IsAbsolute(value) || ".." in Parts(value) || AsPosix(value) != value {
      return Failure(InvalidPath);
    }
    return Success(value);
  }

  /** A path is accepted exactly when, trimmed and stripped of leading `./`, it is `.` or a relative
      path of plain components. */
  lemma {:induction false} NormalizeAcceptsExactly(raw: string)
    ensures Normalize(raw).Success? <==>
              NormalizedText(raw) != "" && (NormalizedText(raw) == "." || Plain(Split(NormalizedText(raw))))
  {
    if NormalizedText(raw) != "" {
      PosixFormExactly(NormalizedText(raw));
    }
  }

  /** The accepted form of a path is a fixed point exactly when it does not start with whitespace,
      which a `./` before the whitespace can bring about. */
  lemma {:induction false} FixedPointExactly(raw: string)
    requires Normalize(raw).Success?
    ensures var v := Normalize(raw).value;
            v != "" && (Normalize(v) == Success(v) <==> !IsSpace(v[0]))
  {
    var v := Normalize(raw).value;
    var trimmed := Trim(raw);
    TrimIsTrimmed(raw);
    SlashesFixed(trimmed);
    DropDotSlashFacts(Slashes(trimmed));
    assert !IsSpace(v[|v| - 1]);
    SlashesFixed(v);
    DropDotSlashFacts(v);
    TrimFixed(v);
    if IsSpace(v[0]) {
      TrimIsTrimmed(v);
      TrimShrinks(v);
      DropDotSlashFacts(Slashes(Trim(v)));
    }
  }

  lemma {:induction false} TrimShrinks(s: string)
    requires s != [] && IsSpace(s[0])
    ensures |Trim(s)| < |s|
  {
    TrimLeftStarts(s[1..]);
    TrimRightEnds(TrimLeft(s));
  }

  predicate FixedPoint(path: string) {
    Normalize(path) == Success(path)
  }

  // ---------- The policy of one path ----------

  function CommonViolation(path: string, fold: Folding): Option<Violation> {
    var name := fold.casefold(Name(path));
    var lowered := fold.casefold(path);
    if path in PROTECTED_EXACT || StartsWithAny(path, PROTECTED_PREFIXES) then Some(ProtectedPath)
    else if FoldedParts(path, fold) * FORBIDDEN_PATH_PARTS != {} then Some(TestPath)
    else if "test_" <= name || ContainsText(name, ".test.") || ContainsText(name, ".spec.") then Some(TestFilename)
    else if name in FORBIDDEN_BASENAMES || EndsWith(name, ".lock") then Some(BuildManifest)
    else if EndsWith(lowered, "/.env") || EndsWith(lowered, "/.env.example") then Some(EnvironmentFile)
    else None
  }

  /** The violation of a normalized path. */
  function Ineligible(path: string, domain: RepairDomain, fold: Folding): Option<Violation> {
    var common := CommonViolation(path, fold);
    if common.Some? then
      common
    else
      match domain
      case Product =>
        if !StartsWithAny(path, AUTOMATIC_SOURCE_ROOTS) then Some(OutsideProductRoots)
        else if fold.lower(Suffix(path)) !in SUPPORTED_SUFFIXES then Some(UnsupportedType)
        else None
      case ControlPlane =>
        if !StartsWithAny(path, CONTROL_PREFIXES) then Some(OutsideControlPrefixes)
        else if fold.lower(Suffix(path)) !in CONTROL_SUFFIXES then Some(UnsupportedControlType)
        else None
  }

  /** The violation of any path: it is normalized, once more if it already was, and then judged. */
  function PathViolation(raw: string, domain: RepairDomain, fold: Folding): Option<Violation> {
    match Normalize(raw)
    case Failure(e) => Some(e)
    case Success(path) => Ineligible(path, domain, fold)
  }

  function Policy(domain: RepairDomain, fold: Folding): string -> Option<Violation> {
    path => PathViolation(path, domain, fold)
  }

  predicate Protected(path: string) {
    path in PROTECTED_EXACT || StartsWithAny(path, PROTECTED_PREFIXES)
  }

  predicate OfTest(path: string, fold: Folding) {
    exists c :: c in Parts(path) && fold.casefold(c) in {"tests", "test", "e2e", "__tests__"}
  }

  predicate NamesTest(path: string, fold: Folding) {
    var name := fold.casefold(Name(path));
    "test_" <= name || ContainsText(name, ".test.") || ContainsText(name, ".spec.")
  }

  predicate OfBuild(path: string, fold: Folding) {
    var name := fold.casefold(Name(path));
    name in FORBIDDEN_BASENAMES || EndsWith(name, ".lock")
  }

  predicate OfEnvironment(path: string, fold: Folding) {
    EndsWith(fold.casefold(path), "/.env") || EndsWith(fold.casefold(path), "/.env.example")
  }

  /** Which violation a path is refused for: the first that applies of protected, test component, test name,
      build manifest and environment file, then the roots and the file types of the domain. */
  lemma {:induction false} ViolationExactly(path: string, domain: RepairDomain, fold: Folding)
    ensures var v, type_ := Ineligible(path, domain, fold), fold.lower(Suffix(path));
            && (v == Some(ProtectedPath) <==> Protected(path))
            && (v == Some(TestPath) <==> !Protected(path) && OfTest(path, fold))
            && (v == Some(TestFilename) <==> !Protected(path) && !OfTest(path, fold) && NamesTest(path, fold))
            && (v == Some(BuildManifest) <==>
                  !Protected(path) && !OfTest(path, fold) && !NamesTest(path, fold) && OfBuild(path, fold))
            && (v == Some(EnvironmentFile) <==>
                  && !Protected(path) && !OfTest(path, fold) && !NamesTest(path, fold) && !OfBuild(path, fold)
                  && OfEnvironment(path, fold))
            && (CommonViolation(path, fold) == None ==>
                  && (v == Some(OutsideProductRoots) <==>
                        domain == Product && !("services/" <= path || "web/" <= path || "contracts/" <= path))
                  && (v == Some(UnsupportedType) <==>
                        && domain == Product && ("services/" <= path || "web/" <= path || "contracts/" <= path)
                        && type_ !in SUPPORTED_SUFFIXES)
                  && (v == Some(OutsideControlPrefixes) <==>
                        domain == ControlPlane && !("scripts/verify_engineering_" <= path))
                  && (v == Some(UnsupportedControlType) <==>
                        domain == ControlPlane && "scripts/verify_engineering_" <= path && type_ != ".py"))
            && (v == None <==>
                  && !Protected(path) && !OfTest(path, fold) && !NamesTest(path, fold) && !OfBuild(path, fold)
                  && !OfEnvironment(path, fold)
                  && match domain
                     case Product =>
                       ("services/" <= path || "web/" <= path || "contracts/" <= path) && type_ in SUPPORTED_SUFFIXES
                     case ControlPlane => "scripts/verify_engineering_" <= path && type_ == ".py")
  {
    hide Name, Parts, ContainsText, EndsWith, Suffix, PROTECTED_EXACT, PROTECTED_PREFIXES, FORBIDDEN_BASENAMES,
      SUPPORTED_SUFFIXES;
    OfTestExactly(path, fold);
    RootsExactly(path);
  }

  lemma {:induction false} OfTestExactly(path: string, fold: Folding)
    ensures FoldedParts(path, fold) * FORBIDDEN_PATH_PARTS != {} <==> OfTest(path, fold)
  {
    hide Parts;
    if c :| c in Parts(path) && fold.casefold(c) in FORBIDDEN_PATH_PARTS {
      assert fold.casefold(c) in FoldedParts(path, fold) * FORBIDDEN_PATH_PARTS;
    }
    if FoldedParts(path, fold) * FORBIDDEN_PATH_PARTS != {} {
      var f :| f in FoldedParts(path, fold) * FORBIDDEN_PATH_PARTS;
    }
  }

  lemma {:induction false} RootsExactly(path: string)
    ensures StartsWithAny(path, AUTOMATIC_SOURCE_ROOTS) <==>
              "services/" <= path || "web/" <= path || "contracts/" <= path
    ensures StartsWithAny(path, CONTROL_PREFIXES) <==> "scripts/verify_engineering_" <= path
  {
    var roots := AUTOMATIC_SOURCE_ROOTS;
    assert roots[0] == "services/" && roots[1] == "web/" && roots[2] == "contracts/" && |roots| == 3;
    assert roots[0] in roots && roots[1] in roots && roots[2] in roots;
    assert CONTROL_PREFIXES[0] in CONTROL_PREFIXES;
  }

  // ---------- The policy of a path set ----------

  /** What a policy makes of one raw path: its accepted form, or a violation. */
  function Judged(raw: string, policy: string -> Option<Violation>): Result<string, Violation> {
    match Normalize(raw)
    case Failure(e) => Failure(e)
    case Success(path) =>
      match policy(path)
      case Some(violation) => Failure(violation)
      case None => Success(path)
  }

  function Judge(policy: string -> Option<Violation>): string -> Result<string, Violation> {
    raw => Judged(raw, policy)
  }

  /** The outcome after the first `n` paths. */
  function CollectFirst(paths: seq<string>, n: nat, judge: string -> Result<string, Violation>)
    : Result<seq<string>, Violation>
    requires n <= |paths|
  {
    if n == 0 then
      Success([])
    else
      match CollectFirst(paths, n - 1, judge)
      case Failure(e) => Failure(e)
      case Success(result) =>
        match judge(paths[n - 1])
        case Failure(e) => Failure(e)
        case Success(path) => if path in result then Failure(DuplicatePath) else Success(result + [path])
  }

  function Collect(paths: seq<string>, judge: string -> Result<string, Violation>): Result<seq<string>, Violation> {
    match CollectFirst(paths, |paths|, judge)
    case Failure(e) => Failure(e)
    case Success(result) =>
      if result == [] then Failure(EmptyPathSet)
      else if |result| > MAX_WRITE_PATHS then Failure(TooManyPaths)
      else Success(result)
  }

  function ValidateRepairPaths(paths: seq<string>, domain: RepairDomain,
      fold: Folding): Result<seq<string>, Violation>
  {
    Collect(paths, Judge(Policy(domain, fold)))
  }

  method JudgePath(raw: string, policy: string -> Option<Violation>) returns (r: Result<string, Violation>)
    ensures r == Judge(policy)(raw)
  {
    var normalized := NormalizeRepoPath(raw);
    if normalized.Success? {
      var violation := policy(normalized.value);
      if violation.Some? {
        return Failure(violation.value);
      }
    }
    return normalized;
  }

  /** The validator as the loop it is. */
  method CollectPaths(paths: seq<string>, policy: string -> Option<Violation>)
    returns (r: Result<seq<string>, Violation>)
    ensures r == Collect(paths, Judge(policy))
  {
    hide Judge, Normalize;
    ghost var judge := Judge(policy);
    var result: seq<string> := [];
    for i := 0 to |paths|
      invariant CollectFirst(paths, i, judge) == Success(result)
    {
      var judged := JudgePath(paths[i], policy);
      if judged.Failure? {
        StopsEarly(paths, i + 1, |paths|, judge);
        return Failure(judged.error);
      }
      if judged.value in result {
        StopsEarly(paths, i + 1, |paths|, judge);
        return Failure(DuplicatePath);
      }
      result := result + [judged.value];
    }
    if result == [] {
      return Failure(EmptyPathSet);
    }
    if |result| > MAX_WRITE_PATHS {
      return Failure(TooManyPaths);
    }
    return Success(result);
  }

  method ValidatePaths(paths: seq<string>, domain: RepairDomain, fold: Folding)
    returns (r: Result<seq<string>, Violation>)
    ensures r == ValidateRepairPaths(paths, domain, fold)
  {
    r := CollectPaths(paths, Policy(domain, fold));
  }

  lemma {:induction false} StopsEarly(paths: seq<string>, k: nat, n: nat, judge: string -> Result<string, Violation>)
    requires k <= n <= |paths| && CollectFirst(paths, k, judge).Failure?
    ensures CollectFirst(paths, n, judge) == CollectFirst(paths, k, judge)
    decreases n
  {
    if k < n {
      StopsEarly(paths, k, n - 1, judge);
    }
  }

  /** Element by element, `result` holds the accepted forms of `paths`, without repetition. */
  ghost predicate AdmitsAll(paths: seq<string>, result: seq<string>, judge: string -> Result<string, Violation>) {
    && |result| == |paths|
    && (forall i :: 0 <= i < |paths| ==> judge(paths[i]) == Success(result[i]))
    && (forall i, j :: 0 <= i < j < |result| ==> result[i] != result[j])
  }

  lemma {:induction false} CollectSound(paths: seq<string>, n: nat, judge: string -> Result<string, Violation>)
    requires n <= |paths| && CollectFirst(paths, n, judge).Success?
    ensures AdmitsAll(paths[..n], CollectFirst(paths, n, judge).value, judge)
  {
    if n > 0 {
      CollectSound(paths, n - 1, judge);
      var front := CollectFirst(paths, n - 1, judge).value;
      var last := judge(paths[n - 1]).value;
      assert paths[..n] == paths[..n - 1] + [paths[n - 1]];
      assert last !in front;
    }
  }

  lemma {:induction false} CollectComplete(paths: seq<string>, n: nat, result: seq<string>,
      judge: string -> Result<string, Violation>)
    requires n <= |paths| && AdmitsAll(paths[..n], result, judge)
    ensures CollectFirst(paths, n, judge) == Success(result)
  {
    if n > 0 {
      var front := result[..n - 1];
      forall i | 0 <= i < n - 1
        ensures judge(paths[..n - 1][i]) == Success(front[i])
      {
        assert paths[..n - 1][i] == paths[..n][i];
      }
      CollectComplete(paths, n - 1, front, judge);
      assert paths[..n][n - 1] == paths[n - 1];
      assert result == front + [result[n - 1]];
    }
  }

  /** A path set is accepted, with this result, exactly when every path is admitted, no two admitted
      forms agree, and there are one to sixteen of them. */
  lemma {:induction false} AcceptedExactly(paths: seq<string>, result: seq<string>,
      judge: string -> Result<string, Violation>)
    ensures Collect(paths, judge) == Success(result) <==>
              AdmitsAll(paths, result, judge) && 1 <= |paths| <= MAX_WRITE_PATHS
  {
    assert paths[..|paths|] == paths;
    if CollectFirst(paths, |paths|, judge).Success? {
      CollectSound(paths, |paths|, judge);
    }
    if AdmitsAll(paths, result, judge) {
      CollectComplete(paths, |paths|, result, judge);
    }
  }

  // ---------- Accepted, and yet not itself inside the roots ----------

  function Roots(domain: RepairDomain): seq<string> {
    match domain
    case Product => AUTOMATIC_SOURCE_ROOTS
    case ControlPlane => CONTROL_PREFIXES
  }

  lemma {:induction false} RootsStartPlain(path: string, domain: RepairDomain)
    requires StartsWithAny(path, Roots(domain))
    ensures path != "" && !IsSpace(path[0]) && path != "."
  {
    var p :| p in Roots(domain) && p <= path;
    assert p[0] == path[0];
  }

  lemma {:induction false} IneligibleOutsideRoots(path: string, domain: RepairDomain, fold: Folding)
    requires Ineligible(path, domain, fold) == None
    ensures StartsWithAny(path, Roots(domain))
  {
  }

  /** An accepted path lies inside the roots of its domain exactly when it is a fixed point of the
      normalizer: the policy judges the path normalized once more, the caller gets the path. */
  lemma {:induction false} AcceptedInsideRootsExactly(raw: string, path: string, domain: RepairDomain, fold: Folding)
    requires Judge(Policy(domain, fold))(raw) == Success(path)
    ensures FixedPoint(path) <==> StartsWithAny(path, Roots(domain))
  {
    FixedPointExactly(raw);
    assert Policy(domain, fold)(path) == None;
    if StartsWithAny(path, Roots(domain)) {
      RootsStartPlain(path, domain);
    } else if FixedPoint(path) {
      IneligibleOutsideRoots(path, domain, fold);
    }
  }

  lemma {:induction false} SplitSpaced(w: string)
    requires w != [] && Plain(Split(w))
    ensures Plain(Split([' '] + w))
  {
    assert ([' '] + w)[1..] == w;
    var cs := Split(w);
    var spaced := [[' '] + cs[0]] + cs[1..];
    assert Split([' '] + w) == spaced;
    forall i | 0 <= i < |spaced|
      ensures spaced[i] != "" && spaced[i] != "." && spaced[i] != ".."
    {
      assert i > 0 ==> spaced[i] == cs[i];
      assert i == 0 ==> spaced[i][0] == ' ';
    }
  }

  lemma {:induction false} FixedPointShape(w: string)
    requires FixedPoint(w)
    ensures w != "" && (w == "." || Plain(Split(w))) && '\\' !in w && !IsSpace(w[|w| - 1])
    ensures Trim(w) == w
  {
    NormalizeAcceptsExactly(w);
    FixedPointExactly(w);
    TrimIsTrimmed(w);
    SlashesFixed(Trim(w));
    DropDotSlashFacts(Slashes(Trim(w)));
    TrimFixed(w);
  }

  lemma {:induction false} TextOfBlank(w: string)
    requires w != "" && '\\' !in w && !IsSpace(w[|w| - 1])
    ensures NormalizedText(['.', '/', ' '] + w) == [' '] + w
  {
    var raw, path := ['.', '/', ' '] + w, [' '] + w;
    assert raw[|raw| - 1] == w[|w| - 1];
    TrimFixed(raw);
    SlashesFixed(raw);
    assert raw[2..] == path;
    assert path[0] == ' ';
    assert Slashes(Trim(raw)) == raw;
    assert DropDotSlash(raw) == DropDotSlash(path);
    assert DropDotSlash(path) == path;
  }

  lemma {:induction false} NormalizeBlank(w: string)
    requires FixedPoint(w) && w != "."
    ensures Normalize(['.', '/', ' '] + w) == Success([' '] + w)
  {
    FixedPointShape(w);
    TextOfBlank(w);
    SplitSpaced(w);
    PlainIsPosix([' '] + w);
  }

  lemma {:induction false} NormalizeSpaced(w: string)
    requires FixedPoint(w)
    ensures Normalize([' '] + w) == Success(w)
  {
    FixedPointShape(w);
    assert ([' '] + w)[1..] == w;
    assert TrimLeft([' '] + w) == TrimLeft(w);
  }

  lemma {:induction false} SameFormSameViolation(a: string, b: string, domain: RepairDomain, fold: Folding)
    requires Normalize(a) == Normalize(b)
    ensures Policy(domain, fold)(a) == Policy(domain, fold)(b)
  {
  }

  lemma {:induction false} OneAccepted(raw: string, path: string, judge: string -> Result<string, Violation>)
    requires judge(raw) == Success(path)
    ensures Collect([raw], judge) == Success([path])
  {
    AcceptedExactly([raw], [path], judge);
  }

  /** For every eligible path there is a raw text that is accepted as that path behind a blank, a
      form the normalizer would change again. */
  lemma {:induction false} BlankSurvives(w: string, domain: RepairDomain, fold: Folding)
    requires FixedPoint(w) && w != "." && Policy(domain, fold)(w) == None
    ensures ValidateRepairPaths([['.', '/', ' '] + w], domain, fold) == Success([[' '] + w])
    ensures !FixedPoint([' '] + w)
  {
    var raw, path := ['.', '/', ' '] + w, [' '] + w;
    NormalizeBlank(w);
    NormalizeSpaced(w);
    SameFormSameViolation(path, w, domain, fold);
    OneAccepted(raw, path, Judge(Policy(domain, fold)));
  }
}
