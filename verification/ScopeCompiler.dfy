/** From frozen evidence to the largest writable scope, and the wrapper that compiles the grant
    (scripts/github_repair_orchestrator_control_plane.py, scripts/github_repair_domain_adapter.py). */
module ScopeCompiler {
  import opened Wrappers
  import opened RepoPath
  import opened FailureRecords
  import PathPolicy
  import FixerPaths
  import WriteAuthority

  datatype ScopeError =
    | UnsupportedSchema
    | FeedbackContract
    | UnsupportedLoopDomain
    | FailureClassDrift
    | FeedbackDomainChanged
    | FeedbackExpansion
    | NoCandidateScope
    | CandidateScopeInvalid
    | RoundInvalid
    | DigestInvalid
    | ScopeDrift
    | GuardDrift

  // ---------- Evidence ----------

  /** The non-empty normalized forms among the first `n`, each once. */
  function DistinctFirst(items: seq<string>, n: nat): seq<string>
    requires n <= |items|
  {
    if n == 0 then
      []
    else
      var front := DistinctFirst(items, n - 1);
      var path := PathPolicy.NormalizedText(items[n - 1]);
      if path != "" && path !in front then front + [path] else front
  }

  function DistinctPaths(items: seq<string>): seq<string> {
    DistinctFirst(items, |items|)
  }

  lemma {:induction false} DistinctMembers(items: seq<string>, n: nat, p: string)
    requires n <= |items|
    ensures p in DistinctFirst(items, n) <==>
            p != "" && exists i :: 0 <= i < n && PathPolicy.NormalizedText(items[i]) == p
  {
    hide PathPolicy.NormalizedText;
    if n > 0 {
      DistinctMembers(items, n - 1, p);
    }
  }

  method CollectDistinct(items: seq<string>) returns (paths: seq<string>)
    ensures paths == DistinctPaths(items)
  {
    hide Trim, Slashes;
    paths := [];
    for i := 0 to |items|
      invariant paths == DistinctFirst(items, i)
    {
      var path := Slashes(Trim(items[i]));
      while StartsDotSlash(path)
        invariant DropDotSlash(path) == PathPolicy.NormalizedText(items[i])
        decreases |path|
      {
        path := path[2..];
      }
      if path != "" && path !in paths {
        paths := paths + [path];
      }
    }
  }

  function Mapped(items: seq<string>): (paths: seq<string>)
    ensures |paths| == |items| && forall i :: 0 <= i < |items| ==> paths[i] == PathPolicy.NormalizedText(items[i])
  {
    seq(|items|, i requires 0 <= i < |items| => PathPolicy.NormalizedText(items[i]))
  }

  predicate Distinct(paths: seq<string>) {
    forall i, j :: 0 <= i < j < |paths| ==> paths[i] != paths[j]
  }

  predicate CleanUpTo(all: seq<string>, n: nat)
    requires n <= |all|
  {
    && (forall i :: 0 <= i < n ==> all[i] != "")
    && forall i, j :: 0 <= i < j < n ==> all[i] != all[j]
  }

  /** Collecting loses nothing exactly when no form is empty or repeated. */
  lemma {:induction false} DistinctFirstExactly(items: seq<string>, n: nat)
    requires n <= |items|
    ensures |DistinctFirst(items, n)| <= n
    ensures DistinctFirst(items, n) == Mapped(items)[..n] <==> CleanUpTo(Mapped(items), n)
  {
    hide PathPolicy.NormalizedText;
    var all := Mapped(items);
    if n > 0 {
      DistinctFirstExactly(items, n - 1);
      var front, last := DistinctFirst(items, n - 1), all[n - 1];
      assert all[..n] == all[..n - 1] + [last];
      if DistinctFirst(items, n) == all[..n] {
        assert front + [last] == all[..n - 1] + [last];
        assert front == all[..n - 1] && last !in front && last != "";
        assert forall i :: 0 <= i < n - 1 ==> all[i] == front[i];
      }
    }
  }

  lemma {:induction false} DistinctPathsExactly(items: seq<string>)
    ensures DistinctPaths(items) == Mapped(items) <==> "" !in Mapped(items) && Distinct(Mapped(items))
  {
    hide PathPolicy.NormalizedText, DistinctFirst;
    DistinctFirstExactly(items, |items|);
    var all := Mapped(items);
    assert all[..|items|] == all;
  }

  // ---------- The binding of a fed-back failure case ----------

  function ExpectedClass(domain: DomainField): Option<LoopClass> {
    match domain.name
    case ProductCode => Some(ProductSourceFailure)
    case ControlPlaneDomain => Some(ControlPlaneFailure)
    case NoDomain | OtherDomain(_) => None
  }

  function ValidateLoopBinding(report: FailureCase, candidates: seq<string>): Outcome<ScopeError> {
    match report.feedback
    case None => Granted
    case Some(feedback) =>
      if feedback.schema != FeedbackSchema then Denied(FeedbackContract)
      else if ExpectedClass(report.suppliedDomain) == None then Denied(UnsupportedLoopDomain)
      else if Some(feedback.failureClass) != ExpectedClass(report.suppliedDomain) then Denied(FailureClassDrift)
      else if feedback.repairDomain != report.suppliedDomain then Denied(FeedbackDomainChanged)
      else if feedback.scopeExpanded != Some(false) then Denied(FeedbackExpansion)
      else if report.candidatePaths == [] then Denied(NoCandidateScope)
      else if "" in Mapped(report.candidatePaths) || !Distinct(Mapped(report.candidatePaths))
              || Mapped(report.candidatePaths) != candidates then Denied(CandidateScopeInvalid)
      else if feedback.repairRound < 1 || feedback.nextRepairRound != feedback.repairRound + 1 then Denied(RoundInvalid)
      else if feedback.pathsDigest.OtherText? then Denied(DigestInvalid)
      else if OfPaths(candidates) != feedback.pathsDigest then Denied(ScopeDrift)
      else Granted
  }

  /** A fed-back case is bound exactly when its feedback is about its own domain, expands nothing, continues a
      round, and carries the digest of exactly its candidates, each once and in the compiler's form. */
  lemma {:induction false} LoopBindingExactly(report: FailureCase, candidates: seq<string>)
    ensures ValidateLoopBinding(report, candidates) == Granted <==>
              (report.feedback.Some? ==>
                 var f, mapped := report.feedback.value, Mapped(report.candidatePaths);
                 && f.schema == FeedbackSchema && f.repairDomain == report.suppliedDomain
                 && ((report.suppliedDomain.name == ProductCode && f.failureClass == ProductSourceFailure)
                     || (report.suppliedDomain.name == ControlPlaneDomain && f.failureClass == ControlPlaneFailure))
                 && f.scopeExpanded == Some(false) && 1 <= f.repairRound == f.nextRepairRound - 1
                 && report.candidatePaths != [] && "" !in mapped && Distinct(mapped) && mapped == candidates
                 && f.pathsDigest == OfPaths(candidates))
  {
    hide Mapped, Distinct;
  }

  /** The error of a case that is not bound is that of the first thing wrong with it. */
  lemma {:induction false} LoopBindingErrors(report: FailureCase, candidates: seq<string>)
    requires report.feedback.Some?
    ensures var f, mapped, r :=
              report.feedback.value, Mapped(report.candidatePaths), ValidateLoopBinding(report, candidates);
            var known := report.suppliedDomain.name in {ProductCode, ControlPlaneDomain};
            && (r == Denied(FeedbackContract) <==> f.schema != FeedbackSchema)
            && (r == Denied(UnsupportedLoopDomain) <==> f.schema == FeedbackSchema && !known)
            && (r == Denied(FailureClassDrift) ==> known && f.schema == FeedbackSchema)
            && (r == Denied(FeedbackDomainChanged) ==> f.repairDomain != report.suppliedDomain)
            && (r == Denied(FeedbackExpansion) ==> f.scopeExpanded != Some(false))
            && (r == Denied(NoCandidateScope) ==> report.candidatePaths == [])
            && (r == Denied(CandidateScopeInvalid) ==> "" in mapped || !Distinct(mapped) || mapped != candidates)
            && (r == Denied(RoundInvalid) ==> f.repairRound < 1 || f.nextRepairRound != f.repairRound + 1)
            && (r == Denied(DigestInvalid) ==> f.pathsDigest.OtherText?)
            && (r == Denied(ScopeDrift) ==> !f.pathsDigest.OtherText? && f.pathsDigest != OfPaths(candidates))
  {
    hide Mapped, Distinct;
  }

  // ---------- The writable scope ----------

  function Intersect(paths: seq<string>, changed: seq<string>): (common: seq<string>)
    ensures forall p :: p in common <==> p in paths && p in changed
  {
    if paths == [] then
      []
    else
      var n := |paths| - 1;
      if paths[n] in changed then Intersect(paths[..n], changed) + [paths[n]] else Intersect(paths[..n], changed)
  }

  function EvidencePaths(report: FailureCase): (paths: seq<string>)
    ensures forall p :: p in paths ==> p in DistinctPaths(report.candidatePaths)
  {
    var candidates := DistinctPaths(report.candidatePaths);
    var changed := match report.changedFiles case None => [] case Some(files) => DistinctPaths(files);
    if changed == [] then candidates else Intersect(candidates, changed)
  }

  /** The evidence keeps the order of the candidates; with changed files it is the candidates among them. */
  lemma {:induction false} EvidenceExactly(report: FailureCase)
    ensures var candidates, paths := DistinctPaths(report.candidatePaths), EvidencePaths(report);
            var changed := if report.changedFiles.Some? then DistinctPaths(report.changedFiles.value) else [];
            && (changed == [] ==> paths == candidates)
            && (changed != [] ==> forall p :: p in paths <==> p in candidates && p in changed)
            && forall i, j :: 0 <= i < j < |paths| ==> InOrder(candidates, paths[i], paths[j])
  {
    var candidates := DistinctPaths(report.candidatePaths);
    var changed := if report.changedFiles.Some? then DistinctPaths(report.changedFiles.value) else [];
    var paths := EvidencePaths(report);
    forall i, j | 0 <= i < j < |paths|
      ensures InOrder(candidates, paths[i], paths[j])
    {
      if changed == [] {
        assert candidates[i] == paths[i] && candidates[j] == paths[j];
      } else {
        IntersectInOrder(candidates, changed, i, j);
      }
    }
  }

  ghost predicate InOrder(paths: seq<string>, p: string, q: string) {
    exists a, b :: 0 <= a < b < |paths| && paths[a] == p && paths[b] == q
  }

  lemma {:induction false} IntersectInOrder(paths: seq<string>, changed: seq<string>, i: nat, j: nat)
    requires i < j < |Intersect(paths, changed)|
    ensures InOrder(paths, Intersect(paths, changed)[i], Intersect(paths, changed)[j])
  {
    var n := |paths| - 1;
    var front := Intersect(paths[..n], changed);
    if j < |front| {
      IntersectInOrder(paths[..n], changed, i, j);
      var a, b :| 0 <= a < b < n && paths[..n][a] == front[i] && paths[..n][b] == front[j];
      assert paths[a] == front[i] && paths[b] == front[j];
    } else {
      assert front[i] in front;
      var a :| 0 <= a < n && paths[..n][a] == front[i];
      assert paths[a] == front[i] && paths[n] == Intersect(paths, changed)[j];
    }
  }

  function NormalizeFailureCase(report: FailureCase): Result<FailureCase, ScopeError> {
    var candidates := DistinctPaths(report.candidatePaths);
    :- Need(report.schema == IngestSchema, UnsupportedSchema);
    :- ValidateLoopBinding(report, candidates);
    var scoped := EvidencePaths(report);
    Success(report.(candidatePaths := scoped, scope := Some(ScopeRecord(scoped, [], [], [], Uncompiled, None))))
  }

  /** The domain's path guard: the canonical policy, then existing regular files of the workspace. */
  function DomainGuard(paths: seq<string>, domain: PathPolicy.RepairDomain, files: FixerPaths.Files,
      host: WriteAuthority.Host)
    : Option<seq<string>>
  {
    match PathPolicy.Collect(paths, PathPolicy.Judge(host.policy(domain)))
    case Failure(_) => None
    case Success(admitted) =>
      if forall p :: p in admitted ==> FixerPaths.FileRefusal(p, files) == None then Some(admitted) else None
  }

  /** What the guard makes of one evidence path. */
  datatype Sorted = Writable | Excluded(oracle: bool) | Renamed

  function Sort(path: string, guard: string -> Option<seq<string>>, oracle: string -> bool): Sorted {
    match guard(path)
    case None => Excluded(oracle(path))
    case Some(allowed) => if allowed == [path] then Writable else Renamed
  }

  datatype Scope = Scope(writable: seq<string>, oracles: seq<string>, excluded: seq<string>)

  function SortFirst(paths: seq<string>, n: nat, sort: string -> Sorted): (r: Result<Scope, ScopeError>)
    requires n <= |paths|
    ensures r.Success? <==> forall i :: 0 <= i < n ==> sort(paths[i]) != Renamed
    ensures r.Success? ==> forall p :: p in r.value.writable <==>
            exists i :: 0 <= i < n && paths[i] == p && sort(p) == Writable
    ensures r.Failure? ==> r.error == GuardDrift
  {
    if n == 0 then
      Success(Scope([], [], []))
    else
      var s :- SortFirst(paths, n - 1, sort);
      var path := paths[n - 1];
      match sort(path)
      case Renamed => Failure(GuardDrift)
      case Writable => Success(s.(writable := s.writable + [path]))
      case Excluded(oracle) =>
        Success(s.(oracles := if oracle then s.oracles + [path] else s.oracles, excluded := s.excluded + [path]))
  }

  function StatusOf(s: Scope): ScopeStatus {
    if s.writable != [] && s.oracles != [] then RcaRequiredWithOracles
    else if s.writable != [] then RcaRequired
    else if s.oracles != [] then TestContractReview
    else NoRepairableSource
  }

  function CompileScope(report: FailureCase, sort: string -> Sorted): Result<FailureCase, ScopeError> {
    var normalized :- NormalizeFailureCase(report);
    var evidence := normalized.candidatePaths;
    var s :- SortFirst(evidence, |evidence|, sort);
    Success(normalized.(candidatePaths := s.writable,
                        scope := Some(ScopeRecord(evidence, s.writable, s.oracles, s.excluded, StatusOf(s), None))))
  }

  /** What the compiled case reports: a repair needs an analysis exactly when some evidence path is writable,
      a contract review exactly when none is but one is an oracle, and else there is nothing to repair. */
  lemma {:induction false} StatusExactly(report: FailureCase, sort: string -> Sorted)
    requires CompileScope(report, sort).Success? && NormalizeFailureCase(report).Success?
    ensures var c, evidence := CompileScope(report, sort).value, NormalizeFailureCase(report).value.candidatePaths;
            && c.scope.Some? && c.scope.value.writablePaths == c.candidatePaths
               && c.scope.value.evidencePaths == evidence
            && var status := c.scope.value.status;
               var writes, reviews := Sorts(evidence, |evidence|, sort, Writable),
                   Sorts(evidence, |evidence|, sort, Excluded(true));
               && (status == RcaRequiredWithOracles <==> writes && reviews)
               && (status == RcaRequired <==> writes && !reviews)
               && (status == TestContractReview <==> !writes && reviews)
               && (status == NoRepairableSource <==> !writes && !reviews)
  {
    hide NormalizeFailureCase;
    var evidence := NormalizeFailureCase(report).value.candidatePaths;
    SortedExactly(evidence, |evidence|, sort);
  }

  /** One of the first `n` paths is sorted so. */
  predicate Sorts(paths: seq<string>, n: nat, sort: string -> Sorted, sorted: Sorted)
    requires n <= |paths|
  {
    exists i :: 0 <= i < n && sort(paths[i]) == sorted
  }

  lemma {:induction false} SortedExactly(paths: seq<string>, n: nat, sort: string -> Sorted)
    requires n <= |paths| && SortFirst(paths, n, sort).Success?
    ensures var s := SortFirst(paths, n, sort).value;
            && (s.writable != [] <==> Sorts(paths, n, sort, Writable))
            && (s.oracles != [] <==> Sorts(paths, n, sort, Excluded(true)))
  {
    if n > 0 {
      SortedExactly(paths, n - 1, sort);
      SortsNext(paths, n, sort, Writable);
      SortsNext(paths, n, sort, Excluded(true));
      hide Sorts;
      assert SortFirst(paths, n - 1, sort).Success? && sort(paths[n - 1]) != Renamed;
    }
  }

  lemma {:induction false} SortsNext(paths: seq<string>, n: nat, sort: string -> Sorted, sorted: Sorted)
    requires 1 <= n <= |paths|
    ensures Sorts(paths, n, sort, sorted) <==> Sorts(paths, n - 1, sort, sorted) || sort(paths[n - 1]) == sorted
  {
  }

  /** The compiler as the loop it is. */
  method CompileRepairScope(report: FailureCase, sort: string -> Sorted) returns (r: Result<FailureCase, ScopeError>)
    ensures r == CompileScope(report, sort)
  {
    hide NormalizeFailureCase, StatusOf;
    var normalized := NormalizeFailureCase(report);
    if normalized.Failure? {
      return Failure(normalized.error);
    }
    var evidence := normalized.value.candidatePaths;
    var writable: seq<string>, oracles: seq<string>, excluded: seq<string> := [], [], [];
    for i := 0 to |evidence|
      invariant SortFirst(evidence, i, sort) == Success(Scope(writable, oracles, excluded))
    {
      match sort(evidence[i])
      case Renamed =>
        SortStops(evidence, i + 1, |evidence|, sort);
        return Failure(GuardDrift);
      case Writable =>
        writable := writable + [evidence[i]];
      case Excluded(oracle) =>
        if oracle {
          oracles := oracles + [evidence[i]];
        }
        excluded := excluded + [evidence[i]];
    }
    var status := StatusOf(Scope(writable, oracles, excluded));
    return Success(normalized.value.(candidatePaths := writable,
                                     scope := Some(ScopeRecord(evidence, writable, oracles, excluded, status, None))));
  }

  lemma {:induction false} SortStops(paths: seq<string>, k: nat, n: nat, sort: string -> Sorted)
    requires k <= n <= |paths| && SortFirst(paths, k, sort).Failure?
    ensures SortFirst(paths, n, sort) == SortFirst(paths, k, sort)
    decreases n
  {
    if k < n {
      SortStops(paths, k, n - 1, sort);
    }
  }

  function Guard(domain: PathPolicy.RepairDomain, files: FixerPaths.Files,
      host: WriteAuthority.Host): string -> Option<seq<string>>
  {
    path => DomainGuard([path], domain, files, host)
  }

  function Sorter(guard: string -> Option<seq<string>>, oracle: string -> bool): string -> Sorted {
    path => Sort(path, guard, oracle)
  }

  /** A path is sorted as writable exactly when it is an eligible fixed point and a regular file. */
  lemma {:induction false} WritableExactly(
    path: string, domain: PathPolicy.RepairDomain, files: FixerPaths.Files, host: WriteAuthority.Host,
    oracle: string -> bool)
    ensures Sorter(Guard(domain, files, host), oracle)(path) == Writable <==>
              && PathPolicy.FixedPoint(path) && host.policy(domain)(path) == None
              && FixerPaths.FileRefusal(path, files) == None
  {
    hide PathPolicy.Normalize, FixerPaths.FileRefusal;
    var judge := PathPolicy.Judge(host.policy(domain));
    PathPolicy.AcceptedExactly([path], [path], judge);
    if PathPolicy.Collect([path], judge) == Success([path]) {
      assert judge([path][0]) == Success([path][0]);
    }
  }

  /** The compiled scope: evidence candidates only, all of them writable where they stand, and every
      writable one kept. */
  lemma {:induction false} CompiledScopeExactly(
    report: FailureCase, domain: PathPolicy.RepairDomain, files: FixerPaths.Files, host: WriteAuthority.Host,
    oracle: string -> bool)
    requires CompileScope(report, Sorter(Guard(domain, files, host), oracle)).Success?
    ensures var compiled := CompileScope(report, Sorter(Guard(domain, files, host), oracle)).value;
            && (forall p :: p in compiled.candidatePaths <==>
                  && p in EvidencePaths(report)
                  && PathPolicy.FixedPoint(p) && host.policy(domain)(p) == None
                  && FixerPaths.FileRefusal(p, files) == None)
            && (forall p :: p in compiled.candidatePaths ==> p in DistinctPaths(report.candidatePaths))
            && compiled.binding == report.binding && compiled.feedback == report.feedback
            && compiled.scope.Some? && compiled.scope.value.grantedPaths == None
  {
    hide DistinctPaths, PathPolicy.FixedPoint, FixerPaths.FileRefusal, Sorter, Guard, StatusOf, ValidateLoopBinding;
    var sort := Sorter(Guard(domain, files, host), oracle);
    var compiled := CompileScope(report, sort).value;
    var evidence := EvidencePaths(report);
    forall p
      ensures p in compiled.candidatePaths <==>
                && p in evidence && PathPolicy.FixedPoint(p) && host.policy(domain)(p) == None
                && FixerPaths.FileRefusal(p, files) == None
    {
      WritableExactly(p, domain, files, host, oracle);
    }
  }

  /** The guard renames no path that is its own normalized text. */
  lemma {:induction false} NeverRenamed(
    path: string, domain: PathPolicy.RepairDomain, files: FixerPaths.Files, host: WriteAuthority.Host,
    oracle: string -> bool)
    requires PathPolicy.NormalizedText(path) == path
    ensures Sorter(Guard(domain, files, host), oracle)(path) != Renamed
  {
    hide FixerPaths.FileRefusal, PathPolicy.NormalizedText, AsPosix, Parts;
    var judge := PathPolicy.Judge(host.policy(domain));
    if PathPolicy.Collect([path], judge).Success? {
      var admitted := PathPolicy.Collect([path], judge).value;
      PathPolicy.AcceptedExactly([path], admitted, judge);
      assert judge([path][0]) == Success(admitted[0]);
      assert admitted == [path];
    }
  }

  /** A report that normalizes to such paths compiles. */
  lemma {:induction false} CompilesWhenNormal(
    report: FailureCase, domain: PathPolicy.RepairDomain, files: FixerPaths.Files, host: WriteAuthority.Host,
    oracle: string -> bool)
    requires NormalizeFailureCase(report).Success?
    requires forall p :: p in EvidencePaths(report) ==> PathPolicy.NormalizedText(p) == p
    ensures CompileScope(report, Sorter(Guard(domain, files, host), oracle)).Success?
  {
    hide EvidencePaths, PathPolicy.NormalizedText, Sorter, Guard, ValidateLoopBinding, DistinctPaths, StatusOf;
    var evidence := EvidencePaths(report);
    forall i | 0 <= i < |evidence|
      ensures Sorter(Guard(domain, files, host), oracle)(evidence[i]) != Renamed
    {
      NeverRenamed(evidence[i], domain, files, host, oracle);
    }
  }

  // ---------- The wrapper ----------

  /** The wrapper rewrites the failure case once the grant is compiled. */
  function MarkGranted(report: FailureCase, granted: seq<string>): FailureCase
    requires report.scope.Some?
  {
    report.(scope := Some(report.scope.value.(grantedPaths := Some(granted), status := ScopeGranted)),
            governedState := CaseWriteGranted)
  }

  /** The rewritten case says that writes are granted, and for which paths, and nothing else differs. */
  lemma {:induction false} MarkGrantedExactly(report: FailureCase, granted: seq<string>)
    requires report.scope.Some?
    ensures var marked := MarkGranted(report, granted);
            && marked.governedState == CaseWriteGranted && marked.scope.Some?
            && marked.scope.value.status == ScopeGranted && marked.scope.value.grantedPaths == Some(granted)
            && marked.scope.value.writablePaths == report.scope.value.writablePaths
            && marked.(governedState := report.governedState, scope := report.scope) == report
  {
  }

  /** The preflight of Stage 2 on the written failure case, as far as it concerns authority. */
  function Preflight(
    grant: Grant, failureCase: FailureCase, rca: Rca, domain: PathPolicy.RepairDomain, files: FixerPaths.Files,
    host: WriteAuthority.Host): Option<seq<string>>
  {
    match DomainGuard(failureCase.candidatePaths, domain, files, host)
    case None => None
    case Some(candidates) =>
      match WriteAuthority.ValidateGrant(grant, failureCase, rca, candidates, host)
      case Failure(_) => None
      case Success(allowed) =>
        if DomainGuard(allowed, domain, files, host) == Some(allowed) then Some(allowed) else None
  }

  lemma {:induction false} GuardAdmits(
    paths: seq<string>, domain: PathPolicy.RepairDomain, files: FixerPaths.Files, host: WriteAuthority.Host)
    requires WriteAuthority.AdmitUnchanged(paths, domain, host) == Granted
    requires forall p :: p in paths ==> FixerPaths.FileRefusal(p, files) == None
    ensures DomainGuard(paths, domain, files, host) == Some(paths)
  {
    hide PathPolicy.Collect, FixerPaths.FileRefusal;
  }

  /** Without the rewriting, the preflight of a compiled grant succeeds with the recommended paths. */
  lemma {:induction false} UnchangedCasePassesPreflight(
    report: FailureCase, compiled: FailureCase, rca: Rca, domain: PathPolicy.RepairDomain, files: FixerPaths.Files,
    host: WriteAuthority.Host, oracle: string -> bool)
    requires CompileScope(report, Sorter(Guard(domain, files, host), oracle)) == Success(compiled)
    requires WriteAuthority.RepairDomainOf(compiled) == Success(domain)
    requires WriteAuthority.CompileGrant(compiled, rca, compiled.candidatePaths, host).Success?
    ensures var grant := WriteAuthority.CompileGrant(compiled, rca, compiled.candidatePaths, host).value;
            Preflight(grant, compiled, rca, domain, files, host) == Some(grant.body.allowedPaths)
  {
    hide CompileScope, Sorter, Guard, PathPolicy.FixedPoint, FixerPaths.FileRefusal, DomainGuard,
      WriteAuthority.RepairDomainOf, WriteAuthority.ValidateRca, WriteAuthority.ValidateGrant,
      WriteAuthority.NormalizePaths, WriteAuthority.AdmitUnchanged, WriteAuthority.CompileGrant,
      WriteAuthority.Decision, WriteAuthority.Eligible, DistinctPaths;
    var paths := compiled.candidatePaths;
    var grant := WriteAuthority.CompileGrant(compiled, rca, paths, host).value;
    CompiledScopeExactly(report, domain, files, host, oracle);
    WriteAuthority.CompiledValidates(compiled, rca, paths, host);
    WriteAuthority.AcceptedRca(rca, compiled, paths, host);
    CandidatesAdmitted(rca, compiled, paths, host);
    WriteAuthority.GrantRests(grant, compiled, rca, paths, host);
    GuardAdmits(paths, domain, files, host);
    GuardAdmits(grant.body.allowedPaths, domain, files, host);
  }

  /** Eligible candidates are admitted as they stand by the analysis that was accepted for them. */
  lemma {:induction false} CandidatesAdmitted(rca: Rca, failureCase: FailureCase, candidates: seq<string>,
      host: WriteAuthority.Host)
    requires WriteAuthority.ValidateRca(rca, failureCase, candidates, host).Success?
    requires forall p :: p in candidates ==> PathPolicy.FixedPoint(p)
    ensures WriteAuthority.NormalizePaths(candidates) == Success(candidates)
    ensures WriteAuthority.RepairDomainOf(failureCase).Success?
    ensures WriteAuthority.AdmitUnchanged(candidates, WriteAuthority.RepairDomainOf(failureCase).value, host) == Granted
  {
    hide PathPolicy.Normalize, WriteAuthority.RepairDomainOf, WriteAuthority.AdmitUnchanged, WriteAuthority.Recommended;
    assert candidates[..|candidates|] == candidates;
    PathPolicy.CollectSound(candidates, |candidates|, WriteAuthority.Normalizer());
    var normalized := WriteAuthority.NormalizePaths(candidates).value;
    forall i | 0 <= i < |candidates|
      ensures normalized[i] == candidates[i]
    {
      assert PathPolicy.FixedPoint(candidates[i]);
      assert WriteAuthority.Normalizer()(candidates[i]) == Success(candidates[i]);
    }
    assert normalized == candidates;
  }

  /** With the rewriting, the preflight never succeeds: the analysis and the grant are bound to the
      failure case as it was before. */
  lemma {:induction false} RewrittenCaseFailsPreflight(
    report: FailureCase, compiled: FailureCase, rca: Rca, granted: seq<string>, domain: PathPolicy.RepairDomain,
    files: FixerPaths.Files, host: WriteAuthority.Host, oracle: string -> bool)
    requires CompileScope(report, Sorter(Guard(domain, files, host), oracle)) == Success(compiled)
    requires WriteAuthority.CompileGrant(compiled, rca, compiled.candidatePaths, host).Success?
    ensures compiled.scope.Some?
    ensures var grant := WriteAuthority.CompileGrant(compiled, rca, compiled.candidatePaths, host).value;
            Preflight(grant, MarkGranted(compiled, granted), rca, domain, files, host) == None
  {
    hide CompileScope, Sorter, Guard, DomainGuard, WriteAuthority.ValidateRca, WriteAuthority.ValidateGrant,
      WriteAuthority.CompileGrant, PathPolicy.FixedPoint, FixerPaths.FileRefusal, DistinctPaths;
    CompiledScopeExactly(report, domain, files, host, oracle);
    WriteAuthority.CompiledValidates(compiled, rca, compiled.candidatePaths, host);
    var grant := WriteAuthority.CompileGrant(compiled, rca, compiled.candidatePaths, host).value;
    var rewritten := MarkGranted(compiled, granted);
    if DomainGuard(rewritten.candidatePaths, domain, files, host).Some? {
      WriteAuthority.ChangedCaseIsRefused(
        grant, rca, compiled, rewritten, compiled.candidatePaths,
        DomainGuard(rewritten.candidatePaths, domain, files, host).value, host);
    }
  }
}
