/** When a dispatched product round can start on the patch of the round before
    (scripts/github_repair_orchestrator.py). */
module SeedRound {
  import opened Wrappers
  import opened FailureRecords
  import PathPolicy
  import FixerPaths
  import WriteAuthority
  import ScopeCompiler
  import FeedbackScope
  import StatusListing
  import Publication

  /** The seed patch stands if it changes something, and granted paths only; `status` is what git reports
      once it is applied. */
  predicate SeedStands(status: string, allowed: seq<string>) {
    var current := StatusListing.Stage3Listing(status);
    current != [] && forall p :: p in current ==> p in allowed
  }

  /** Under some analysis a grant is compiled and the seed patch stands. */
  ghost predicate CanStart(compiled: FailureCase, status: string, host: WriteAuthority.Host) {
    exists rca :: StartsWith(compiled, rca, status, host)
  }

  predicate StartsWith(compiled: FailureCase, rca: Rca, status: string, host: WriteAuthority.Host) {
    var grant := WriteAuthority.CompileGrant(compiled, rca, compiled.candidatePaths, host);
    grant.Success? && SeedStands(status, grant.value.body.allowedPaths)
  }

  // ---------- What the compiled case keeps ----------

  lemma {:induction false} CompiledKeeps(report: FailureCase, sort: string -> ScopeCompiler.Sorted)
    requires ScopeCompiler.CompileScope(report, sort).Success?
    ensures var compiled := ScopeCompiler.CompileScope(report, sort).value;
            compiled == report.(candidatePaths := compiled.candidatePaths, scope := compiled.scope)
  {
    hide ScopeCompiler.DistinctPaths, ScopeCompiler.ValidateLoopBinding, ScopeCompiler.EvidencePaths,
      ScopeCompiler.StatusOf;
  }

  lemma {:induction false} SortedDistinct(paths: seq<string>, n: nat, sort: string -> ScopeCompiler.Sorted)
    requires n <= |paths| && ScopeCompiler.Distinct(paths) && ScopeCompiler.SortFirst(paths, n, sort).Success?
    ensures ScopeCompiler.Distinct(ScopeCompiler.SortFirst(paths, n, sort).value.writable)
  {
    if n > 0 {
      SortedDistinct(paths, n - 1, sort);
      var front := ScopeCompiler.SortFirst(paths, n - 1, sort).value.writable;
      assert forall p :: p in front ==> p != paths[n - 1];
    }
  }

  lemma {:induction false} FirstDistinct(items: seq<string>, n: nat)
    requires n <= |items|
    ensures ScopeCompiler.Distinct(ScopeCompiler.DistinctFirst(items, n))
  {
    hide PathPolicy.NormalizedText;
    if n > 0 {
      FirstDistinct(items, n - 1);
    }
  }

  lemma {:induction false} CompiledDistinct(report: FailureCase, sort: string -> ScopeCompiler.Sorted)
    requires ScopeCompiler.CompileScope(report, sort).Success? && report.changedFiles == None
    ensures ScopeCompiler.Distinct(ScopeCompiler.CompileScope(report, sort).value.candidatePaths)
  {
    hide ScopeCompiler.ValidateLoopBinding, ScopeCompiler.StatusOf, ScopeCompiler.Distinct, ScopeCompiler.DistinctFirst,
      ScopeCompiler.SortFirst;
    FirstDistinct(report.candidatePaths, |report.candidatePaths|);
    var evidence := ScopeCompiler.EvidencePaths(report);
    SortedDistinct(evidence, |evidence|, sort);
  }

  /** A path list of at most sixteen distinct eligible fixed points is admitted as it stands. */
  lemma {:induction false} EligibleIsAdmitted(paths: seq<string>, domain: PathPolicy.RepairDomain,
      host: WriteAuthority.Host)
    requires paths != [] && |paths| <= PathPolicy.MAX_WRITE_PATHS && ScopeCompiler.Distinct(paths)
    requires WriteAuthority.Eligible(paths, domain, host)
    ensures WriteAuthority.AdmitUnchanged(paths, domain, host) == Granted
  {
    hide PathPolicy.Normalize;
    var judge := PathPolicy.Judge(host.policy(domain));
    forall i | 0 <= i < |paths|
      ensures judge(paths[i]) == Success(paths[i])
    {
      assert paths[i] in paths;
    }
    PathPolicy.AcceptedExactly(paths, paths, judge);
  }

  // ---------- The dispatched round ----------

  /** A product failure fed back under the authority of a round, and its compiled form. */
  ghost predicate FedBack(
    current: FailureCase, d: FeedbackScope.Delivery, next: FailureCase, compiled: FailureCase,
    run: Publication.Stage3Run, oracle: string -> bool)
  {
    && ScopeCompiler.CompileScope(next, Sorting(run, oracle)) == Success(compiled)
    && FeedbackScope.SourceAuthority(current).Success?
    && var original := FeedbackScope.SourceAuthority(current).value;
       && FeedbackScope.Dispatched(d, original) && FeedbackScope.OriginalDomain(original) == Success(PathPolicy.Product)
       && FeedbackScope.Emitted(d, original) == Success(next)
  }

  /** The compiler's view of the checkout the round before was prepared in. */
  function Sorting(run: Publication.Stage3Run, oracle: string -> bool): string -> ScopeCompiler.Sorted {
    ScopeCompiler.Sorter(ScopeCompiler.Guard(PathPolicy.Product, run.files, run.host), oracle)
  }

  lemma {:induction false} FedBackFacts(
    current: FailureCase, d: FeedbackScope.Delivery, next: FailureCase, compiled: FailureCase,
    run: Publication.Stage3Run, oracle: string -> bool)
    requires FedBack(current, d, next, compiled, run, oracle)
    ensures WriteAuthority.RepairDomainOf(compiled) == Success(PathPolicy.Product)
    ensures WriteAuthority.RequiredGuardIds(compiled) != [] && ScopeCompiler.Distinct(compiled.candidatePaths)
    ensures forall p :: p in compiled.candidatePaths <==>
              && p in FeedbackScope.RepairPaths(d) && PathPolicy.FixedPoint(p)
              && run.host.policy(PathPolicy.Product)(p) == None && FixerPaths.FileRefusal(p, run.files) == None
  {
    hide FeedbackScope.Dispatched, FeedbackScope.Emitted, FeedbackScope.OriginalDomain, ScopeCompiler.CompileScope,
      PathPolicy.FixedPoint, FixerPaths.FileRefusal, ScopeCompiler.DistinctPaths, ScopeCompiler.Distinct,
      FeedbackScope.Stable, WriteAuthority.RequiredGuardIds, FeedbackScope.HandoffFirst, ScopeCompiler.EvidencePaths,
      FeedbackScope.RepairPaths;
    var original := FeedbackScope.SourceAuthority(current).value;
    FeedbackScope.DispatchedFeedbackIsAccepted(d, original);
    ProductEmitted(d, original);
    CompiledKeeps(next, Sorting(run, oracle));
    CompiledDistinct(next, Sorting(run, oracle));
    Publication.FeedbackGuard(compiled, PathPolicy.Product);
    ProductDomain(compiled);
    FeedbackScope.PlainEvidence(next);
    ScopeCompiler.CompiledScopeExactly(next, PathPolicy.Product, run.files, run.host, oracle);
    forall p
      ensures p in ScopeCompiler.DistinctPaths(next.candidatePaths) <==> p in FeedbackScope.RepairPaths(d)
    {
      FeedbackScope.StableDistinct(next, p);
    }
  }

  lemma {:induction false} ProductEmitted(d: FeedbackScope.Delivery, original: FailureCase)
    requires FeedbackScope.Emitted(d, original).Success?
    requires FeedbackScope.OriginalDomain(original) == Success(PathPolicy.Product)
    ensures var next := FeedbackScope.Emitted(d, original).value;
            && next.classification == CodeOrContract && next.suppliedDomain.name == ProductCode
            && next.changedFiles == original.changedFiles
            && next.failedGates == Some([GateRow(FeedbackScope.FeedbackGate(PathPolicy.Product))])
  {
    hide FeedbackScope.LoopPaths, FeedbackScope.OriginalDomain, FeedbackScope.ControlPath, FeedbackScope.PathsDigest,
      FeedbackScope.FeedbackOf, FeedbackScope.FeedbackGate, FeedbackScope.RoundOf, FeedbackScope.Valid;
  }

  lemma {:induction false} ProductDomain(failureCase: FailureCase)
    requires failureCase.classification == CodeOrContract && failureCase.suppliedDomain.name == ProductCode
    ensures WriteAuthority.RepairDomainOf(failureCase) == Success(PathPolicy.Product)
  {
    hide WriteAuthority.NormalizePaths, WriteAuthority.LegacyShape;
  }

  // ---------- The round before ----------

  /** The round before: its handoff was inspected and its candidate prepared, in the product domain. */
  ghost predicate Before(
    run: Publication.Stage3Run, result: Publication.Stage2Result, failureCase: FailureCase, rca: Rca, grant: Grant)
  {
    && Publication.InspectHandoff(result, failureCase, rca, grant, run.host) == Success(run.handoff)
    && run.handoff.domain == PathPolicy.Product && Publication.PreparedIn(run)
  }

  /** What its candidate changed are eligible regular files. */
  lemma {:induction false} ChangedAreWritable(
    run: Publication.Stage3Run, result: Publication.Stage2Result, failureCase: FailureCase, rca: Rca, grant: Grant)
    requires Before(run, result, failureCase, rca, grant)
    ensures run.handoff.changed != [] && forall p :: p in run.handoff.changed ==>
              && PathPolicy.FixedPoint(p) && run.host.policy(PathPolicy.Product)(p) == None
              && FixerPaths.FileRefusal(p, run.files) == None
    ensures run.candidate.Child?
    ensures forall p :: p in StatusListing.Diff(run.head.tree, run.candidate.tree) <==> p in run.handoff.changed
  {
    hide Publication.InspectHandoff, Publication.PreparedIn, PathPolicy.FixedPoint, FixerPaths.FileRefusal,
      Publication.CanonicalAll, WriteAuthority.ValidateGrant, WriteAuthority.NormalizePaths,
      WriteAuthority.RepairDomainOf, Publication.AllCanonical, StatusListing.Diff, Publication.PathsAllowed,
      ScopeCompiler.Distinct, WriteAuthority.TrimAll;
    Publication.InspectedHandoff(result, failureCase, rca, grant, run.host);
    var candidates := Publication.CanonicalAll(failureCase.candidatePaths).value;
    WriteAuthority.GrantedPathsAreEligible(grant, failureCase, rca, candidates, run.host);
    Publication.PreparedChangesExactly(run);
    Publication.AllowedExist(run.handoff.changed, PathPolicy.Product, run.files, run.host, run.filter);
    forall p | p in run.handoff.changed
      ensures FixerPaths.FileRefusal(p, run.files) == None
    {
      var i :| 0 <= i < |run.handoff.changed| && run.handoff.changed[i] == p;
    }
  }

  /** After the seed patch git reports what the candidate before changed. */
  lemma {:induction false} SeedListing(
    run: Publication.Stage3Run, rows: seq<StatusListing.Row>, allowed: seq<string>)
    requires StatusListing.IsStatus(rows, run.head.tree, run.candidate.tree)
    requires forall p :: p in StatusListing.Diff(run.head.tree, run.candidate.tree) <==> p in run.handoff.changed
    requires run.handoff.changed != []
    ensures SeedStands(StatusListing.Text(rows), allowed) <==> forall p :: p in run.handoff.changed ==> p in allowed
  {
    hide StatusListing.Diff, StatusListing.PrintsAsIs, StatusListing.Columns, StatusListing.Text,
      StatusListing.Stage3Listing;
    StatusListing.Stage3Reads(rows, run.head.tree, run.candidate.tree);
    assert run.handoff.changed[0] in StatusListing.Paths(rows);
  }

  // ---------- When the round can start ----------

  /** Whatever is granted to a compiled case lies among its candidates, of which there are at most sixteen. */
  lemma {:induction false} GrantLimits(compiled: FailureCase, rca: Rca, host: WriteAuthority.Host)
    requires WriteAuthority.CompileGrant(compiled, rca, compiled.candidatePaths, host).Success?
    requires forall p :: p in compiled.candidatePaths ==> PathPolicy.FixedPoint(p)
    ensures WriteAuthority.BindingComplete(WriteAuthority.FailureBinding(compiled))
    ensures |compiled.candidatePaths| <= PathPolicy.MAX_WRITE_PATHS
    ensures var grant := WriteAuthority.CompileGrant(compiled, rca, compiled.candidatePaths, host).value;
            forall p :: p in grant.body.allowedPaths ==> p in compiled.candidatePaths
  {
    hide WriteAuthority.CompileGrant, WriteAuthority.ValidateGrant, WriteAuthority.ValidateRca, PathPolicy.FixedPoint,
      WriteAuthority.NormalizePaths, WriteAuthority.RepairDomainOf, WriteAuthority.AdmitUnchanged,
      WriteAuthority.Decision, WriteAuthority.BindingComplete, WriteAuthority.FailureBinding, WriteAuthority.Eligible;
    var paths := compiled.candidatePaths;
    WriteAuthority.CompiledValidates(compiled, rca, paths, host);
    WriteAuthority.AcceptedRca(rca, compiled, paths, host);
    WriteAuthority.IdentityAccepted(rca, compiled, paths, host);
    ScopeCompiler.CandidatesAdmitted(rca, compiled, paths, host);
    WriteAuthority.AdmittedIsEligible(paths, WriteAuthority.RepairDomainOf(compiled).value, host);
  }

  /** A dispatched product round can start on the patch of the round before, under some analysis, exactly
      when its binding is complete, it has at most sixteen writable candidates, and its repair paths name
      every path the candidate before changed. One changed file that the failed verification does not
      name keeps the round from starting. */
  lemma {:induction false} RoundStartsExactly(
    current: FailureCase, d: FeedbackScope.Delivery, next: FailureCase, compiled: FailureCase, oracle: string -> bool,
    run: Publication.Stage3Run, result: Publication.Stage2Result, failureCase: FailureCase, rca: Rca, grant: Grant,
    rows: seq<StatusListing.Row>, word: string)
    requires FedBack(current, d, next, compiled, run, oracle) && Before(run, result, failureCase, rca, grant)
    requires StatusListing.IsStatus(rows, run.head.tree, run.candidate.tree)
    requires run.host.decide(word) == WriteAuthority.GrantWord
    ensures CanStart(compiled, StatusListing.Text(rows), run.host) <==>
              && WriteAuthority.BindingComplete(WriteAuthority.FailureBinding(compiled))
              && |compiled.candidatePaths| <= PathPolicy.MAX_WRITE_PATHS
              && forall p :: p in run.handoff.changed ==> p in FeedbackScope.RepairPaths(d)
  {
    hide FedBack, Before, StatusListing.IsStatus, StatusListing.Text, StatusListing.Diff, PathPolicy.FixedPoint,
      FixerPaths.FileRefusal, SeedStands, WriteAuthority.CompileGrant, WriteAuthority.BindingComplete,
      WriteAuthority.FailureBinding, FeedbackScope.RepairPaths, ScopeCompiler.Distinct, WriteAuthority.RepairDomainOf,
      WriteAuthority.RequiredGuardIds;
    var status := StatusListing.Text(rows);
    FedBackFacts(current, d, next, compiled, run, oracle);
    ChangedAreWritable(run, result, failureCase, rca, grant);
    if rca2 :| StartsWith(compiled, rca2, status, run.host) {
      GrantLimits(compiled, rca2, run.host);
      SeedListing(run, rows, WriteAuthority.CompileGrant(compiled, rca2, compiled.candidatePaths,
                                                         run.host).value.body.allowedPaths);
    }
    if && WriteAuthority.BindingComplete(WriteAuthority.FailureBinding(compiled))
       && |compiled.candidatePaths| <= PathPolicy.MAX_WRITE_PATHS
       && forall p :: p in run.handoff.changed ==> p in FeedbackScope.RepairPaths(d) {
      assert run.handoff.changed[0] in compiled.candidatePaths;
      GrantsAll(compiled, word, run.host);
      var all :| WriteAuthority.Grants(compiled, all, compiled.candidatePaths, run.host);
      SeedListing(run, rows, compiled.candidatePaths);
      assert StartsWith(compiled, all, status, run.host);
    }
  }

  lemma {:induction false} GrantsAll(compiled: FailureCase, word: string, host: WriteAuthority.Host)
    requires WriteAuthority.BindingComplete(WriteAuthority.FailureBinding(compiled))
    requires WriteAuthority.RepairDomainOf(compiled) == Success(PathPolicy.Product)
    requires WriteAuthority.RequiredGuardIds(compiled) != [] && host.decide(word) == WriteAuthority.GrantWord
    requires compiled.candidatePaths != [] && |compiled.candidatePaths| <= PathPolicy.MAX_WRITE_PATHS
    requires ScopeCompiler.Distinct(compiled.candidatePaths)
    requires forall p :: p in compiled.candidatePaths ==>
               PathPolicy.FixedPoint(p) && host.policy(PathPolicy.Product)(p) == None
    ensures exists rca :: WriteAuthority.Grants(compiled, rca, compiled.candidatePaths, host)
  {
    hide PathPolicy.FixedPoint, WriteAuthority.BindingComplete, WriteAuthority.FailureBinding,
      WriteAuthority.RepairDomainOf, WriteAuthority.RequiredGuardIds, ScopeCompiler.Distinct,
      WriteAuthority.AdmitUnchanged, WriteAuthority.Grants;
    EligibleIsAdmitted(compiled.candidatePaths, PathPolicy.Product, host);
    WriteAuthority.GrantableExactly(compiled, compiled.candidatePaths, word, host);
  }
}
