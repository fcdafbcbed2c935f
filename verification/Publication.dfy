/** From a Stage-2 candidate to the published commit (scripts/github_repair_stage3.py,
    scripts/github_repair_stage3_tree.py, scripts/github_repair_stage3_publish.py). */
module Publication {
  import opened Wrappers
  import opened RepoPath
  import opened FailureRecords
  import StatusListing
  import PathPolicy
  import FixerPaths
  import WriteAuthority
  import ScopeCompiler
  import FeedbackScope

  const ANTI_DRIFT_GATE := "python-test-suites"
  const CONTROL_COMPONENT := "skill-control-plane"

  datatype Stage3Error =
    | NotReady
    | PathInvalid
    | ChangedSetInvalid
    | HeadMismatch
    | SignatureMismatch
    | CandidatesMissing
    | GrantInvalid
    | DigestMismatch
    | GuardBindingMismatch
    | ScopeMismatch
    | PatchEscaped
    | PathRefused
    | AppliedMismatch
    | TargetedFailed
    | TargetedMismatch
    | QuickFailed
    | GuardNotReverified
    | AntiDriftNotReverified
    | MetadataMismatch
    | TreeMismatch

  // ---------- Git ----------

  type Tree = StatusListing.Tree

  datatype Commit = Root(tree: Tree) | Child(parent: Commit, tree: Tree, message: string)

  /** The identities git gives commits and trees. */
  datatype Names = Names(commit: Commit -> string, tree: Tree -> string)

  // ---------- The handoff ----------

  /** Stage 3 takes canonical paths only. */
  function Canonical(raw: string): Option<string> {
    var v := Slashes(Trim(raw));
    if v == "" || IsAbsolute(v) || ".." in Parts(v) || AsPosix(v) != v then None else Some(v)
  }

  function CanonicalFirst(items: seq<string>, n: nat): Option<seq<string>>
    requires n <= |items|
  {
    if n == 0 then
      Some([])
    else
      match CanonicalFirst(items, n - 1)
      case None => None
      case Some(front) =>
        match Canonical(items[n - 1])
        case None => None
        case Some(path) => Some(front + [path])
  }

  function CanonicalAll(items: seq<string>): Result<seq<string>, Stage3Error> {
    match CanonicalFirst(items, |items|)
    case None => Failure(PathInvalid)
    case Some(paths) => Success(paths)
  }

  datatype Stage2Result = Stage2Result(
    ready: bool, headName: string, signature: string, changed: seq<string>, scope: seq<string>,
    rcaDigest: Digest, grantDigest: Digest, guardIds: seq<string>)

  datatype Handoff = Handoff(
    headName: string, changed: seq<string>, scope: seq<string>, guardIds: seq<string>, rcaDigest: Digest,
    grantDigest: Digest, domain: PathPolicy.RepairDomain)

  function InspectHandoff(
    result: Stage2Result, failureCase: FailureCase, rca: Rca, grant: Grant, host: WriteAuthority.Host)
    : Result<Handoff, Stage3Error>
  {
    var guards := WriteAuthority.TrimAll(grant.body.guardIds);
    :- Need(result.ready, NotReady);
    var changed :- CanonicalAll(result.changed);
    :- Need(changed != [] && ScopeCompiler.Distinct(changed), ChangedSetInvalid);
    :- Need(failureCase.binding.headSha == result.headName, HeadMismatch);
    :- Need(failureCase.binding.signature == result.signature, SignatureMismatch);
    var candidates :- CanonicalAll(failureCase.candidatePaths);
    :- Need(candidates != [], CandidatesMissing);
    :- Need(WriteAuthority.ValidateGrant(grant, failureCase, rca, candidates, host).Success?, GrantInvalid);
    var granted := WriteAuthority.ValidateGrant(grant, failureCase, rca, candidates, host).value;
    :- Need(result.rcaDigest == OfRca(rca.body) && result.grantDigest == OfGrant(grant.body), DigestMismatch);
    :- Need(WriteAuthority.TrimAll(result.guardIds) == guards && result.guardIds != [],
            GuardBindingMismatch);
    var scope :- CanonicalAll(result.scope);
    :- Need(scope == granted, ScopeMismatch);
    :- Need(forall p :: p in changed ==> p in granted, PatchEscaped);
    :- Need(WriteAuthority.RepairDomainOf(failureCase).Success?, GrantInvalid);
    Success(Handoff(result.headName, changed, granted, result.guardIds, result.rcaDigest, result.grantDigest,
                    WriteAuthority.RepairDomainOf(failureCase).value))
  }

  // ---------- The candidate ----------

  datatype Plan = Plan(
    handoff: Handoff, candidateName: string, publicationPaths: seq<string>, treeName: string, parentName: string,
    bound: bool)

  /** Product paths go through the fixer's filter, control-plane paths through the policy. */
  predicate PathsAllowed(
    paths: seq<string>, domain: PathPolicy.RepairDomain, files: FixerPaths.Files, host: WriteAuthority.Host,
    filter: string -> Option<FixerPaths.Refusal>)
  {
    match domain
    case Product => FixerPaths.AllowedPaths(paths, files, filter).Success?
    case ControlPlane => ScopeCompiler.DomainGuard(paths, domain, files, host).Some?
  }

  predicate SamePaths(a: seq<string>, b: seq<string>) {
    |a| == |b| && Members(a) == Members(b)
  }

  function Members(a: seq<string>): set<string> {
    set p | p in a
  }

  /** Applying the patch on the failed head and committing it locally; `status` is the text git reports. */
  function PrepareCandidate(
    handoff: Handoff, head: Commit, files: FixerPaths.Files, applied: Tree, status: string, message: string,
    names: Names, host: WriteAuthority.Host, filter: string -> Option<FixerPaths.Refusal>): Result<Plan, Stage3Error>
  {
    var candidate, listing := Child(head, applied, message), StatusListing.Stage3Listing(status);
    :- Need(names.commit(head) == handoff.headName, HeadMismatch);
    :- Need(PathsAllowed(handoff.changed, handoff.domain, files, host, filter), PathRefused);
    :- Need(SamePaths(listing, handoff.changed), AppliedMismatch);
    :- Need(forall p :: p in listing ==> p in handoff.scope, PatchEscaped);
    :- Need(PathsAllowed(listing, handoff.domain, files, host, filter), PathRefused);
    Success(Plan(handoff, names.commit(candidate), [], "", "", false))
  }

  predicate Bindable(plan: Plan, head: Commit, names: Names) {
    && head.Child? && names.commit(head) == plan.candidateName
    && names.commit(head.parent) == plan.handoff.headName
    && plan.handoff.changed != [] && (forall p :: p in plan.handoff.changed ==> p in plan.handoff.scope)
    && |names.tree(head.tree)| == 40
  }

  function BoundPlan(plan: Plan, head: Commit, names: Names): Plan
    requires Bindable(plan, head, names)
  {
    plan.(publicationPaths := plan.handoff.changed, treeName := names.tree(head.tree),
          parentName := names.commit(head.parent), bound := true)
  }

  /** The plan file, which tree binding rewrites in place. */
  class PlanFile {
    var plan: Plan

    constructor (plan: Plan)
      ensures this.plan == plan
    {
      this.plan := plan;
    }

    method BindTree(head: Commit, names: Names) returns (ok: bool)
      modifies this
      ensures ok == Bindable(old(plan), head, names)
      ensures plan == if ok then BoundPlan(old(plan), head, names) else old(plan)
    {
      if !head.Child? || names.commit(head) != plan.candidateName {
        return false;
      }
      if names.commit(head.parent) != plan.handoff.headName {
        return false;
      }
      if plan.handoff.changed == [] || exists p :: p in plan.handoff.changed && p !in plan.handoff.scope {
        return false;
      }
      var tree := names.tree(head.tree);
      if |tree| != 40 {
        return false;
      }
      plan := plan.(publicationPaths := plan.handoff.changed);
      plan := plan.(treeName := tree);
      plan := plan.(parentName := names.commit(head.parent));
      plan := plan.(bound := true);
      return true;
    }
  }

  // ---------- Independent validation ----------

  datatype GateResult = GateResult(id: string, status: string)

  datatype QuickSummary = QuickSummary(
    mode: string, runKind: string, decision: string, loopStatus: string, completionEligible: bool,
    required: seq<string>, results: seq<GateResult>)

  datatype TargetRow = TargetRow(component: string, passed: bool)

  datatype Targeted = Targeted(
    passed: bool, candidateName: string, rcaDigest: Digest, grantDigest: Digest, domain: PathPolicy.RepairDomain,
    rows: seq<TargetRow>)

  /** The status a mapping by id ends up with: the last one. */
  function StatusOf(results: seq<GateResult>, id: string): Option<string> {
    if results == [] then
      None
    else
      var n := |results| - 1;
      if results[n].id == id then Some(results[n].status) else StatusOf(results[..n], id)
  }

  predicate QuickPassed(s: QuickSummary) {
    && s.mode == "quick" && s.runKind == "verification" && s.decision == "PASS" && s.loopStatus == "CI_VERIFIED"
    && s.completionEligible
    && forall g :: g in s.required ==> StatusOf(s.results, g) == Some("PASS")
  }

  predicate ControlGuardPassed(targeted: Targeted) {
    exists row :: row in targeted.rows && row.component == CONTROL_COMPONENT && row.passed
  }

  predicate GuardReverified(guard: string, s: QuickSummary, targeted: Targeted, domain: PathPolicy.RepairDomain) {
    if domain == PathPolicy.ControlPlane && guard == CONTROL_COMPONENT then
      ControlGuardPassed(targeted)
    else
      guard in s.required && StatusOf(s.results, guard) == Some("PASS")
  }

  predicate GuardsReverified(ids: seq<string>, s: QuickSummary, targeted: Targeted, domain: PathPolicy.RepairDomain) {
    var guards := WriteAuthority.TrimAll(ids);
    && guards != [] && "" !in guards && ScopeCompiler.Distinct(guards)
    && forall g :: g in guards ==> GuardReverified(g, s, targeted, domain)
  }

  datatype Validation = Validation(
    headName: string, candidateName: string, changed: seq<string>, scope: seq<string>, guardIds: seq<string>,
    rcaDigest: Digest, grantDigest: Digest)

  function RecordValidation(plan: Plan, targeted: Targeted, s: QuickSummary,
      headName: string): Result<Validation, Stage3Error>
  {
    var h := plan.handoff;
    :- Need(targeted.passed, TargetedFailed);
    :- Need(targeted.candidateName == plan.candidateName && targeted.rcaDigest == h.rcaDigest
            && targeted.grantDigest == h.grantDigest && targeted.domain == h.domain, TargetedMismatch);
    :- Need(QuickPassed(s), QuickFailed);
    :- Need(GuardsReverified(h.guardIds, s, targeted, h.domain), GuardNotReverified);
    :- Need(ANTI_DRIFT_GATE in s.required && StatusOf(s.results, ANTI_DRIFT_GATE) == Some("PASS"),
            AntiDriftNotReverified);
    :- Need(headName == plan.candidateName, HeadMismatch);
    Success(Validation(h.headName, plan.candidateName, h.changed, h.scope, h.guardIds, h.rcaDigest, h.grantDigest))
  }

  // ---------- Publication ----------

  datatype Published = Published(commit: Commit, paths: seq<string>, scope: seq<string>)

  predicate MetadataAgrees(plan: Plan, v: Validation) {
    var h := plan.handoff;
    && plan.bound
    && v == Validation(h.headName, plan.candidateName, h.changed, h.scope, h.guardIds, h.rcaDigest, h.grantDigest)
    && plan.publicationPaths == h.changed && plan.treeName != "" && plan.parentName == h.headName
  }

  function PreparePublication(
    plan: Plan, v: Validation, base: Commit, applied: Tree, status: string, message: string, names: Names)
    : Result<Published, Stage3Error>
  {
    var h, listing := plan.handoff, StatusListing.PublisherListing(status);
    :- Need(MetadataAgrees(plan, v), MetadataMismatch);
    :- Need(names.commit(base) == h.headName, HeadMismatch);
    var paths :- CanonicalAll(h.changed);
    var scope :- CanonicalAll(h.scope);
    :- Need(paths != [] && ScopeCompiler.Distinct(paths), ChangedSetInvalid);
    :- Need(forall p :: p in paths ==> p in scope, PatchEscaped);
    :- Need(SamePaths(listing, paths), AppliedMismatch);
    :- Need(names.tree(applied) == plan.treeName, TreeMismatch);
    Success(Published(Child(base, applied, message), paths, scope))
  }

  // ---------- Nothing but granted paths is ever published ----------

  /** Canonical paths stand under every later check. */
  lemma {:induction false} CanonicalStands(raw: string)
    requires Canonical(raw).Some?
    ensures Canonical(Canonical(raw).value) == Canonical(raw)
  {
    hide Parts;
    var v := Canonical(raw).value;
    SlashesTrim(raw);
    TrimIsTrimmed(Slashes(raw));
    TrimFixed(v);
    SlashesFixed(Trim(raw));
    SlashesFixed(v);
  }

  ghost predicate AllCanonical(paths: seq<string>) {
    forall i :: 0 <= i < |paths| ==> Canonical(paths[i]) == Some(paths[i])
  }

  lemma {:induction false} CanonicalFirstFacts(items: seq<string>, n: nat)
    requires n <= |items|
    ensures CanonicalFirst(items, n).Some? ==> AllCanonical(CanonicalFirst(items, n).value)
    ensures AllCanonical(items) ==> CanonicalFirst(items, n) == Some(items[..n])
  {
    hide Canonical;
    if n > 0 {
      CanonicalFirstFacts(items, n - 1);
      if Canonical(items[n - 1]).Some? {
        CanonicalStands(items[n - 1]);
      }
      assert items[..n] == items[..n - 1] + [items[n - 1]];
    }
  }

  lemma {:induction false} CanonicalAllFacts(items: seq<string>)
    ensures CanonicalAll(items).Success? ==> AllCanonical(CanonicalAll(items).value)
    ensures AllCanonical(items) ==> CanonicalAll(items) == Success(items)
  {
    hide AllCanonical, CanonicalFirst;
    CanonicalFirstFacts(items, |items|);
    assert items[..|items|] == items;
  }

  /** Distinct canonical paths inside a canonical scope. */
  ghost predicate Clean(h: Handoff) {
    && AllCanonical(h.changed) && AllCanonical(h.scope) && h.changed != [] && ScopeCompiler.Distinct(h.changed)
    && forall p :: p in h.changed ==> p in h.scope
  }

  lemma {:induction false} InspectedHandoff(
    result: Stage2Result, failureCase: FailureCase, rca: Rca, grant: Grant, host: WriteAuthority.Host)
    requires InspectHandoff(result, failureCase, rca, grant, host).Success?
    ensures var h := InspectHandoff(result, failureCase, rca, grant, host).value;
            && CanonicalAll(failureCase.candidatePaths).Success?
            && WriteAuthority.ValidateGrant(grant, failureCase, rca, CanonicalAll(failureCase.candidatePaths).value,
                                            host)
               == Success(h.scope)
            && WriteAuthority.RepairDomainOf(failureCase) == Success(h.domain)
            && Clean(h)
            && WriteAuthority.TrimAll(h.guardIds) == WriteAuthority.TrimAll(grant.body.guardIds)
  {
    hide CanonicalAll, WriteAuthority.ValidateGrant, WriteAuthority.RepairDomainOf, WriteAuthority.TrimAll,
      AllCanonical, ScopeCompiler.Distinct;
    CanonicalAllFacts(result.changed);
    CanonicalAllFacts(result.scope);
  }

  /** A handoff is taken exactly when the result is ready, is about the failed head and failure of the case,
      carries the digests of this analysis and grant and the guards of the grant, and names distinct
      canonical paths inside the validated scope. */
  lemma {:induction false} InspectedExactly(
    result: Stage2Result, failureCase: FailureCase, rca: Rca, grant: Grant, host: WriteAuthority.Host)
    ensures InspectHandoff(result, failureCase, rca, grant, host).Success? <==>
              && result.ready
              && result.headName == failureCase.binding.headSha && result.signature == failureCase.binding.signature
              && result.rcaDigest == OfRca(rca.body) && result.grantDigest == OfGrant(grant.body)
              && result.guardIds != []
              && WriteAuthority.TrimAll(result.guardIds) == WriteAuthority.TrimAll(grant.body.guardIds)
              && CanonicalAll(failureCase.candidatePaths).Success? && failureCase.candidatePaths != []
              && CanonicalAll(result.changed).Success? && CanonicalAll(result.scope).Success?
              && var candidates, changed, scope := CanonicalAll(failureCase.candidatePaths).value,
                   CanonicalAll(result.changed).value, CanonicalAll(result.scope).value;
                 && WriteAuthority.ValidateGrant(grant, failureCase, rca, candidates, host) == Success(scope)
                 && changed != [] && ScopeCompiler.Distinct(changed) && forall p :: p in changed ==> p in scope
    ensures InspectHandoff(result, failureCase, rca, grant, host).Success? ==>
              var h := InspectHandoff(result, failureCase, rca, grant, host).value;
              && h.headName == result.headName && Success(h.changed) == CanonicalAll(result.changed)
              && Success(h.scope) == CanonicalAll(result.scope) && h.guardIds == result.guardIds
              && h.rcaDigest == result.rcaDigest && h.grantDigest == result.grantDigest
              && WriteAuthority.RepairDomainOf(failureCase) == Success(h.domain)
  {
    hide CanonicalFirst, WriteAuthority.ValidateGrant, WriteAuthority.TrimAll, ScopeCompiler.Distinct;
    SameSize(failureCase.candidatePaths, |failureCase.candidatePaths|);
    if CanonicalAll(failureCase.candidatePaths).Success? {
      var candidates := CanonicalAll(failureCase.candidatePaths).value;
      if WriteAuthority.ValidateGrant(grant, failureCase, rca, candidates, host).Success? {
        GrantHasDomain(grant, failureCase, rca, candidates, host);
      }
    }
  }

  lemma {:induction false} SameSize(items: seq<string>, n: nat)
    requires n <= |items|
    ensures CanonicalFirst(items, n).Some? ==> |CanonicalFirst(items, n).value| == n
  {
    hide Canonical;
    if n > 0 {
      SameSize(items, n - 1);
    }
  }

  lemma {:induction false} GrantHasDomain(
    grant: Grant, failureCase: FailureCase, rca: Rca, candidates: seq<string>, host: WriteAuthority.Host)
    requires WriteAuthority.ValidateGrant(grant, failureCase, rca, candidates, host).Success?
    ensures WriteAuthority.RepairDomainOf(failureCase).Success?
  {
    hide WriteAuthority.ValidateRca, WriteAuthority.RepairDomainOf, WriteAuthority.GrantIdentity,
      WriteAuthority.GrantBinding, WriteAuthority.GrantedPaths;
  }

  // ---------- What independent validation checks ----------

  /** The last result with this id has this status. */
  ghost predicate LastStatus(results: seq<GateResult>, id: string, status: string) {
    exists i :: 0 <= i < |results| && results[i] == GateResult(id, status)
                && forall j :: i < j < |results| ==> results[j].id != id
  }

  lemma {:induction false} StatusOfExactly(results: seq<GateResult>, id: string, status: string)
    ensures StatusOf(results, id) == Some(status) <==> LastStatus(results, id, status)
  {
    if results != [] {
      var n := |results| - 1;
      var front := results[..n];
      StatusOfExactly(front, id, status);
      if results[n].id == id {
        assert results[n] == GateResult(id, results[n].status);
      } else {
        if LastStatus(front, id, status) {
          var i :| 0 <= i < n && front[i] == GateResult(id, status) && forall j :: i < j < n ==> front[j].id != id;
          assert results[i] == GateResult(id, status);
          assert forall j :: i < j < n ==> results[j] == front[j];
        }
        if LastStatus(results, id, status) {
          var i :| 0 <= i < |results| && results[i] == GateResult(id, status)
                   && forall j :: i < j < |results| ==> results[j].id != id;
          assert front[i] == GateResult(id, status);
          assert forall j :: i < j < n ==> results[j] == front[j];
        }
      }
    }
  }

  /** The gate was mandatory in the Quick run, and passed; or it is the control plane's own guard, and the
      targeted profile of that component passed. */
  ghost predicate RanAgain(guard: string, s: QuickSummary, targeted: Targeted, domain: PathPolicy.RepairDomain) {
    if domain == PathPolicy.ControlPlane && guard == "skill-control-plane" then
      exists row :: row in targeted.rows && row == TargetRow("skill-control-plane", true)
    else guard in s.required && LastStatus(s.results, guard, "PASS")
  }

  lemma {:induction false} RanAgainExactly(guard: string, s: QuickSummary, targeted: Targeted,
      domain: PathPolicy.RepairDomain)
    ensures GuardReverified(guard, s, targeted, domain) <==> RanAgain(guard, s, targeted, domain)
  {
    hide LastStatus;
    StatusOfExactly(s.results, guard, "PASS");
    if row :| row in targeted.rows && row.component == "skill-control-plane" && row.passed {
      assert row == TargetRow("skill-control-plane", true);
    }
  }

  /** A validation is recorded exactly for the candidate of the plan, on a targeted pass under the same
      analysis, grant and domain, and a completed Quick verification in which every mandatory gate, the test
      suites among them, passed and every guard ran again. */
  lemma {:induction false} RecordedExactly(plan: Plan, targeted: Targeted, s: QuickSummary, headName: string)
    ensures RecordValidation(plan, targeted, s, headName).Success? <==>
              var h, guards := plan.handoff, WriteAuthority.TrimAll(plan.handoff.guardIds);
              && targeted.passed && headName == targeted.candidateName == plan.candidateName
              && targeted.rcaDigest == h.rcaDigest && targeted.grantDigest == h.grantDigest
                 && targeted.domain == h.domain
              && s.mode == "quick" && s.runKind == "verification" && s.decision == "PASS"
              && s.loopStatus == "CI_VERIFIED" && s.completionEligible
              && "python-test-suites" in s.required && (forall g :: g in s.required ==>
                                                        LastStatus(s.results, g, "PASS"))
              && guards != [] && "" !in guards && ScopeCompiler.Distinct(guards)
              && forall g :: g in guards ==> RanAgain(g, s, targeted, h.domain)
    ensures RecordValidation(plan, targeted, s, headName).Success? ==>
              RecordValidation(plan, targeted, s, headName).value ==
              Validation(plan.handoff.headName, plan.candidateName, plan.handoff.changed, plan.handoff.scope,
                         plan.handoff.guardIds, plan.handoff.rcaDigest, plan.handoff.grantDigest)
  {
    hide GuardReverified, RanAgain, LastStatus, StatusOf, WriteAuthority.TrimAll, ScopeCompiler.Distinct;
    forall g
      ensures GuardReverified(g, s, targeted, plan.handoff.domain) <==> RanAgain(g, s, targeted, plan.handoff.domain)
      ensures StatusOf(s.results, g) == Some("PASS") <==> LastStatus(s.results, g, "PASS")
    {
      RanAgainExactly(g, s, targeted, plan.handoff.domain);
      StatusOfExactly(s.results, g, "PASS");
    }
  }

  /** A commit is published exactly from a bound plan and its own validation, on the failed head, with the
      validated tree, for distinct canonical paths inside the scope that the status lists. */
  lemma {:induction false} PublisherChecksExactly(
    plan: Plan, v: Validation, base: Commit, applied: Tree, status: string, message: string, names: Names)
    ensures PreparePublication(plan, v, base, applied, status, message, names).Success? <==>
              var h := plan.handoff;
              && plan.bound && plan.treeName != "" && plan.publicationPaths == h.changed
                 && plan.parentName == h.headName
              && v.headName == h.headName && v.candidateName == plan.candidateName && v.changed == h.changed
              && v.scope == h.scope && v.guardIds == h.guardIds && v.rcaDigest == h.rcaDigest
              && v.grantDigest == h.grantDigest
              && names.commit(base) == h.headName && names.tree(applied) == plan.treeName
              && CanonicalAll(h.changed).Success? && CanonicalAll(h.scope).Success?
              && var paths, scope := CanonicalAll(h.changed).value, CanonicalAll(h.scope).value;
                 && paths != [] && ScopeCompiler.Distinct(paths) && (forall p :: p in paths ==> p in scope)
                 && SamePaths(StatusListing.PublisherListing(status), paths)
  {
    hide CanonicalAll, ScopeCompiler.Distinct, SamePaths, StatusListing.PublisherListing;
  }

  // ---------- One Stage-3 run ----------

  /** What was handed off, the failed head, the candidate committed on it, and its validation. */
  datatype Stage3Run = Stage3Run(
    handoff: Handoff, head: Commit, files: FixerPaths.Files, host: WriteAuthority.Host,
    filter: string -> Option<FixerPaths.Refusal>, names: Names, plan: Plan, candidate: Commit, targeted: Targeted,
    quick: QuickSummary, validation: Validation)

  ghost predicate PreparedIn(run: Stage3Run) {
    exists applied, rows, message ::
      && PrepareCandidate(run.handoff, run.head, run.files, applied, StatusListing.Text(rows), message, run.names,
                          run.host, run.filter)
         == Success(run.plan)
      && StatusListing.IsStatus(rows, run.head.tree, applied) && run.candidate == Child(run.head, applied, message)
  }

  ghost predicate ValidatedIn(run: Stage3Run) {
    && PreparedIn(run) && Bindable(run.plan, run.candidate, run.names)
    && RecordValidation(run.plan, run.targeted, run.quick, run.names.commit(run.candidate)) == Success(run.validation)
  }

  /** The publisher on the bound plan, with the work tree and status text it finds. */
  function Publish(run: Stage3Run, base: Commit, applied: Tree, status: string,
      message: string): Result<Published, Stage3Error>
    requires Bindable(run.plan, run.candidate, run.names)
  {
    PreparePublication(BoundPlan(run.plan, run.candidate, run.names), run.validation, base, applied, status, message,
                       run.names)
  }

  ghost predicate PublishedIn(run: Stage3Run, published: Published) {
    && ValidatedIn(run)
    && exists base, applied, rows, message ::
         && Publish(run, base, applied, StatusListing.Text(rows), message) == Success(published)
         && StatusListing.IsStatus(rows, base.tree, applied)
  }

  /** Git's names tell this commit and its tree from the failed head and the candidate's tree. */
  ghost predicate ToldApart(run: Stage3Run, commit: Commit) {
    && (commit.Child? && run.names.commit(commit.parent) == run.names.commit(run.head) ==> commit.parent == run.head)
    && (run.names.tree(commit.tree) == run.names.tree(run.candidate.tree) ==> commit.tree == run.candidate.tree)
  }

  lemma {:induction false} SamePathsSameMembers(a: seq<string>, b: seq<string>)
    requires SamePaths(a, b)
    ensures forall p :: p in a <==> p in b
  {
    forall p
      ensures p in a <==> p in b
    {
      assert p in Members(a) <==> p in Members(b);
    }
  }

  lemma {:induction false} SameMembersSamePaths(a: seq<string>, b: seq<string>)
    requires ScopeCompiler.Distinct(a) && ScopeCompiler.Distinct(b) && forall p :: p in a <==> p in b
    ensures SamePaths(a, b)
  {
    DistinctCount(a);
    DistinctCount(b);
    assert Members(a) == Members(b);
  }

  lemma {:induction false} DistinctCount(a: seq<string>)
    requires ScopeCompiler.Distinct(a)
    ensures |Members(a)| == |a|
  {
    if a != [] {
      var n := |a| - 1;
      DistinctCount(a[..n]);
      assert a[n] !in a[..n];
      assert Members(a) == Members(a[..n]) + {a[n]};
    }
  }

  /** A prepared candidate changes exactly the handed-off paths, within the scope. */
  lemma {:induction false} PreparedChangesExactly(run: Stage3Run)
    requires PreparedIn(run)
    ensures run.candidate.Child? && run.candidate.parent == run.head
            && run.names.commit(run.head) == run.handoff.headName
    ensures forall p :: p in StatusListing.Diff(run.head.tree, run.candidate.tree) <==> p in run.handoff.changed
    ensures forall p :: p in run.handoff.changed ==> p in run.handoff.scope
    ensures run.plan.handoff == run.handoff && !run.plan.bound
            && run.plan.candidateName == run.names.commit(run.candidate)
    ensures PathsAllowed(run.handoff.changed, run.handoff.domain, run.files, run.host, run.filter)
  {
    hide StatusListing.Diff, PathsAllowed, StatusListing.Stage3Listing, StatusListing.Text, StatusListing.PrintsAsIs,
      StatusListing.Columns;
    var applied, rows, message :|
      && PrepareCandidate(run.handoff, run.head, run.files, applied, StatusListing.Text(rows), message, run.names,
                          run.host, run.filter)
         == Success(run.plan)
      && StatusListing.IsStatus(rows, run.head.tree, applied) && run.candidate == Child(run.head, applied, message);
    StatusListing.Stage3Reads(rows, run.head.tree, applied);
    SamePathsSameMembers(StatusListing.Paths(rows), run.handoff.changed);
  }

  /** The plan of a prepared candidate can be bound to that candidate only, and then names its tree and
      the failed head. */
  lemma {:induction false} BoundExactly(run: Stage3Run, commit: Commit)
    requires PreparedIn(run) && (run.names.commit(commit) == run.names.commit(run.candidate) ==>
                                 commit == run.candidate)
    ensures Bindable(run.plan, commit, run.names) <==>
              commit == run.candidate && run.handoff.changed != [] && |run.names.tree(run.candidate.tree)| == 40
    ensures Bindable(run.plan, commit, run.names) ==>
              var bound := BoundPlan(run.plan, commit, run.names);
              && bound.treeName == run.names.tree(run.candidate.tree) && bound.parentName == run.names.commit(run.head)
              && bound.publicationPaths == run.handoff.changed && bound.handoff == run.handoff
  {
    hide StatusListing.Diff, PathsAllowed, PreparedIn;
    PreparedChangesExactly(run);
  }

  /** The published commit is the candidate's change on the failed head: it changes exactly the
      handed-off paths. And all of them are new files, since else the publisher loses one. */
  lemma {:induction false} PublishedChangesExactly(run: Stage3Run, published: Published)
    requires PublishedIn(run, published) && Clean(run.handoff) && ToldApart(run, published.commit)
    ensures published.commit.Child? && published.commit.parent == run.head
            && published.commit.tree == run.candidate.tree
    ensures published.paths == run.handoff.changed && published.scope == run.handoff.scope
    ensures forall p :: p in StatusListing.Diff(run.head.tree, published.commit.tree) <==> p in run.handoff.changed
    ensures forall p :: p in run.handoff.changed ==> p in run.handoff.scope && p !in run.head.tree
  {
    hide StatusListing.Diff, CanonicalAll, AllCanonical, ScopeCompiler.Distinct, RecordValidation, PreparedIn,
      PathsAllowed, StatusListing.PublisherListing, StatusListing.Text, StatusListing.IsStatus;
    var base, applied, rows, message :|
      && Publish(run, base, applied, StatusListing.Text(rows), message) == Success(published)
      && StatusListing.IsStatus(rows, base.tree, applied);
    PreparedChangesExactly(run);
    CanonicalAllFacts(run.handoff.changed);
    CanonicalAllFacts(run.handoff.scope);
    SamePathsSameMembers(StatusListing.PublisherListing(StatusListing.Text(rows)), run.handoff.changed);
    NothingLost(rows, run.head.tree, applied, run.handoff.changed);
  }

  /** A listing of the publisher that agrees with what changed has lost nothing. */
  lemma {:induction false} NothingLost(rows: seq<StatusListing.Row>, before: Tree, after: Tree, changed: seq<string>)
    requires StatusListing.IsStatus(rows, before, after)
    requires forall p :: p in changed <==> p in StatusListing.Diff(before, after)
    requires forall p :: p in changed <==> p in StatusListing.PublisherListing(StatusListing.Text(rows))
    ensures forall p :: p in changed ==> p !in before
  {
    hide StatusListing.PublisherListing, StatusListing.Text, StatusListing.Diff, StatusListing.PrintsAsIs,
      StatusListing.Columns;
    StatusListing.PublisherReadsExactly(rows, before, after);
    if rows != [] {
      assert StatusListing.Paths(rows)[0] in StatusListing.Paths(rows);
    }
  }

  /** A validated candidate is published, from the state it was validated in, exactly when it changes
      no file the failed head has. */
  lemma {:induction false} PublicationSucceedsExactly(run: Stage3Run, rows: seq<StatusListing.Row>, message: string)
    requires ValidatedIn(run) && Clean(run.handoff) && StatusListing.IsStatus(rows, run.head.tree, run.candidate.tree)
    ensures var published := Publish(run, run.head, run.candidate.tree, StatusListing.Text(rows), message);
            if forall p :: p in run.handoff.changed ==> p !in run.head.tree then
              published == Success(Published(Child(run.head, run.candidate.tree, message), run.handoff.changed,
                                             run.handoff.scope))
            else published == Failure(AppliedMismatch)
  {
    hide StatusListing.Diff, CanonicalAll, AllCanonical, PreparedIn, PathsAllowed, StatusListing.PublisherListing,
      StatusListing.Text, StatusListing.PrintsAsIs, StatusListing.Columns, SamePaths, GuardsReverified, QuickPassed,
      StatusOf;
    var changed, listing := run.handoff.changed, StatusListing.PublisherListing(StatusListing.Text(rows));
    PreparedChangesExactly(run);
    CanonicalAllFacts(changed);
    CanonicalAllFacts(run.handoff.scope);
    StatusListing.PublisherReadsExactly(rows, run.head.tree, run.candidate.tree);
    assert changed[0] in changed;
    assert rows != [];
    assert StatusListing.Paths(rows)[0] in StatusListing.Paths(rows);
    if forall p :: p in changed ==> p !in run.head.tree {
      SameMembersSamePaths(listing, changed);
    } else if SamePaths(listing, changed) {
      SamePathsSameMembers(listing, changed);
    }
  }

  /** The files of a clean checkout are those of its commit. */
  ghost predicate Checkout(files: FixerPaths.Files, tree: Tree) {
    forall p :: Canonical(p) == Some(p) && FixerPaths.FileRefusal(p, files) == None ==> p in tree
  }

  /** Since a repair may only change files that exist, the publisher refuses every validated candidate
      that was prepared in a clean checkout of the failed head. */
  lemma {:induction false} ExistingFilesAreNeverPublished(run: Stage3Run, rows: seq<StatusListing.Row>, message: string)
    requires ValidatedIn(run) && Clean(run.handoff) && StatusListing.IsStatus(rows, run.head.tree, run.candidate.tree)
    requires Checkout(run.files, run.head.tree)
    ensures Publish(run, run.head, run.candidate.tree, StatusListing.Text(rows), message) == Failure(AppliedMismatch)
  {
    hide StatusListing.IsStatus, PreparedIn, PathsAllowed, Canonical, FixerPaths.FileRefusal, StatusListing.Text,
      Publish, ScopeCompiler.Distinct, RecordValidation, StatusListing.Diff;
    PreparedChangesExactly(run);
    var p := run.handoff.changed[0];
    AllowedExist(run.handoff.changed, run.handoff.domain, run.files, run.host, run.filter);
    assert p in run.handoff.changed && p in run.head.tree;
    PublicationSucceedsExactly(run, rows, message);
  }

  lemma {:induction false} AllowedExist(
    paths: seq<string>, domain: PathPolicy.RepairDomain, files: FixerPaths.Files, host: WriteAuthority.Host,
    filter: string -> Option<FixerPaths.Refusal>)
    requires PathsAllowed(paths, domain, files, host, filter) && AllCanonical(paths)
    ensures forall i :: 0 <= i < |paths| ==> FixerPaths.FileRefusal(paths[i], files) == None
  {
    hide FixerPaths.FileRefusal, Canonical, FixerPaths.Normalize, PathPolicy.Normalize;
    match domain
    case Product =>
      forall i | 0 <= i < |paths|
        ensures FixerPaths.FileRefusal(paths[i], files) == None
      {
        EachExamined(paths, |paths|, i, files, filter);
        CanonicalForms(paths[i]);
      }
    case ControlPlane =>
      var judge := PathPolicy.Judge(host.policy(domain));
      PathPolicy.AcceptedExactly(paths, PathPolicy.Collect(paths, judge).value, judge);
      forall i | 0 <= i < |paths|
        ensures FixerPaths.FileRefusal(paths[i], files) == None
      {
        CanonicalForms(paths[i]);
        var admitted := PathPolicy.Collect(paths, judge).value;
        assert judge(paths[i]) == Success(admitted[i]);
        assert admitted[i] in admitted;
      }
  }

  lemma {:induction false} EachExamined(
    paths: seq<string>, n: nat, i: nat, files: FixerPaths.Files, filter: string -> Option<FixerPaths.Refusal>)
    requires i < n <= |paths| && FixerPaths.AllowFirst(paths, n, FixerPaths.Examiner(files, filter)).Success?
    ensures FixerPaths.Examine(paths[i], files, filter).Success?
  {
    hide FixerPaths.Examine;
    if i < n - 1 {
      EachExamined(paths, n - 1, i, files, filter);
    }
  }

  lemma {:induction false} CanonicalForms(p: string)
    requires Canonical(p) == Some(p)
    ensures PathPolicy.Normalize(p) == Success(p) && FixerPaths.Normalize(p) == Success(p)
  {
    hide Parts;
    SlashesFixed(Trim(p));
    SlashesFixed(p);
    TrimLengths(p);
    TrimFixed(p);
    CanonicalPlain(p);
    FixerPaths.NormalizersDifferByForm(p, p);
  }

  lemma {:induction false} TrimLengths(p: string)
    requires Slashes(Trim(p)) == p
    ensures Trim(p) == p && '\\' !in p
  {
    TrimLeftStarts(p);
    TrimRightEnds(TrimLeft(p));
    SlashesFixed(Trim(p));
    LongTrim(p);
  }

  lemma {:induction false} LongTrim(s: string)
    requires |Trim(s)| == |s|
    ensures Trim(s) == s
  {
    TrimLeftStarts(s);
    TrimRightEnds(TrimLeft(s));
    if s != "" && IsSpace(s[0]) {
      TrimLeftStarts(s[1..]);
    }
  }

  lemma {:induction false} CanonicalPlain(p: string)
    requires p != "" && !IsAbsolute(p) && ".." !in Parts(p) && AsPosix(p) == p
    ensures DropDotSlash(p) == p
  {
    PosixFormExactly(p);
    FeedbackScope.SplitFirst(p);
    DropDotSlashFacts(p);
    if p != "." {
      assert Split(p)[0] != ".";
    }
  }

  /** Every path a published commit changes lies in the grant that validates for the failure case, hence
      is an eligible fixed point of its domain and among its candidates. */
  lemma {:induction false} PublishedWithinGrant(
    result: Stage2Result, failureCase: FailureCase, rca: Rca, grant: Grant, run: Stage3Run, published: Published)
    requires InspectHandoff(result, failureCase, rca, grant, run.host) == Success(run.handoff)
    requires PublishedIn(run, published) && ToldApart(run, published.commit)
    ensures published.commit.Child? && published.commit.tree == run.candidate.tree
    ensures CanonicalAll(failureCase.candidatePaths).Success?
    ensures var candidates := CanonicalAll(failureCase.candidatePaths).value;
            && WriteAuthority.ValidateGrant(grant, failureCase, rca, candidates, run.host).Success?
            && WriteAuthority.RepairDomainOf(failureCase).Success? && WriteAuthority.NormalizePaths(candidates).Success?
            && forall p :: p in StatusListing.Diff(published.commit.parent.tree, published.commit.tree) ==>
                 && p in WriteAuthority.ValidateGrant(grant, failureCase, rca, candidates, run.host).value
                 && p in WriteAuthority.NormalizePaths(candidates).value
                 && PathPolicy.FixedPoint(p)
                 && run.host.policy(WriteAuthority.RepairDomainOf(failureCase).value)(p) == None
  {
    hide InspectHandoff, CanonicalAll, AllCanonical, StatusListing.Diff, WriteAuthority.ValidateGrant,
      WriteAuthority.NormalizePaths, WriteAuthority.RepairDomainOf, PathPolicy.FixedPoint, PublishedIn, Clean,
      ToldApart, WriteAuthority.TrimAll;
    InspectedHandoff(result, failureCase, rca, grant, run.host);
    CleanScope(run.handoff);
    PublishedChangesExactly(run, published);
    WriteAuthority.GrantedPathsAreEligible(grant, failureCase, rca, CanonicalAll(failureCase.candidatePaths).value,
                                           run.host);
  }

  lemma {:induction false} CleanScope(h: Handoff)
    requires Clean(h)
    ensures forall p :: p in h.changed ==> p in h.scope
  {
  }

  // ---------- From the first evidence to the commit ----------

  lemma {:induction false} FixedPointIsCanonical(p: string)
    requires PathPolicy.FixedPoint(p)
    ensures Canonical(p) == Some(p)
  {
    hide Parts, AsPosix;
    PathPolicy.FixedPointShape(p);
    SlashesFixed(p);
  }

  lemma {:induction false} FixedPointsStand(paths: seq<string>)
    requires forall p :: p in paths ==> PathPolicy.FixedPoint(p)
    ensures CanonicalAll(paths) == Success(paths)
  {
    hide PathPolicy.FixedPoint, Canonical, CanonicalAll;
    forall i | 0 <= i < |paths|
      ensures Canonical(paths[i]) == Some(paths[i])
    {
      FixedPointIsCanonical(paths[i]);
    }
    CanonicalAllFacts(paths);
  }

  /** Scope only narrows, from evidence to commit: whatever a round publishes was considered by the
      compiler in that round and in every round before it; by the first one, if the path is the form
      of a candidate that is its own POSIX form. */
  lemma {:induction false} PublishedWithinEveryEarlierRound(
    cases: seq<FailureCase>, i: nat, k: nat, domain: PathPolicy.RepairDomain, oracle: string -> bool,
    compiled: FailureCase, result: Stage2Result, rca: Rca, grant: Grant, run: Stage3Run, published: Published,
    p: string)
    requires FeedbackScope.Rounds(cases) && i <= k < |cases|
    requires var guard := ScopeCompiler.Guard(domain, run.files, run.host);
             ScopeCompiler.CompileScope(cases[k], ScopeCompiler.Sorter(guard, oracle)) == Success(compiled)
    requires InspectHandoff(result, compiled, rca, grant, run.host) == Success(run.handoff)
    requires PublishedIn(run, published) && ToldApart(run, published.commit)
    requires published.commit.Child? && p in StatusListing.Diff(published.commit.parent.tree, published.commit.tree)
    ensures p in compiled.candidatePaths && run.host.policy(domain)(p) == None
    ensures p in ScopeCompiler.DistinctPaths(cases[k].candidatePaths)
    ensures i >= 1 || FeedbackScope.OwnForms(cases[0]) ==> p in ScopeCompiler.DistinctPaths(cases[i].candidatePaths)
    ensures k >= 1 ==> && FeedbackScope.FormOf(p, cases[0])
                       && (p in ScopeCompiler.DistinctPaths(cases[0].candidatePaths) <==>
                           FeedbackScope.OwnFormOf(p, cases[0]))
  {
    hide InspectHandoff, PublishedIn, StatusListing.Diff, FeedbackScope.Rounds, ScopeCompiler.CompileScope,
      ScopeCompiler.Sorter, ScopeCompiler.Guard, ScopeCompiler.DistinctPaths, PathPolicy.FixedPoint,
      FixerPaths.FileRefusal, WriteAuthority.ValidateGrant, WriteAuthority.ValidateRca, WriteAuthority.NormalizePaths,
      WriteAuthority.RepairDomainOf, CanonicalAll, WriteAuthority.AdmitUnchanged, ToldApart, FeedbackScope.FormOf,
      FeedbackScope.OwnFormOf, FeedbackScope.OwnForms, ScopeCompiler.EvidencePaths;
    PublishedWithinGrant(result, compiled, rca, grant, run, published);
    ScopeCompiler.CompiledScopeExactly(cases[k], domain, run.files, run.host, oracle);
    FixedPointsStand(compiled.candidatePaths);
    WriteAuthority.GrantRests(grant, compiled, rca, compiled.candidatePaths, run.host);
    ScopeCompiler.CandidatesAdmitted(rca, compiled, compiled.candidatePaths, run.host);
    FeedbackScope.ScopeOnlyNarrows(cases, i, k);
  }

  // ---------- Guards ----------

  lemma {:induction false} GrantGuards(
    grant: Grant, failureCase: FailureCase, rca: Rca, candidates: seq<string>, host: WriteAuthority.Host)
    requires WriteAuthority.ValidateGrant(grant, failureCase, rca, candidates, host).Success?
    ensures WriteAuthority.TrimAll(grant.body.guardIds) == WriteAuthority.RequiredGuardIds(failureCase)
    ensures WriteAuthority.RequiredGuardIds(failureCase) != []
  {
    hide WriteAuthority.ValidateRca, WriteAuthority.RepairDomainOf, WriteAuthority.GrantIdentity,
      WriteAuthority.GrantedPaths, WriteAuthority.RequiredGuardIds, WriteAuthority.TrimAll,
      WriteAuthority.FailureBinding;
  }

  /** Validation is recorded only if every gate that failed in the failure case was run again and
      passed: as a mandatory Quick gate, or as the control plane's own targeted profile. */
  lemma {:induction false} RecordedMeansReverified(
    result: Stage2Result, failureCase: FailureCase, rca: Rca, grant: Grant, host: WriteAuthority.Host,
    plan: Plan, targeted: Targeted, s: QuickSummary, headName: string)
    requires InspectHandoff(result, failureCase, rca, grant, host).Success?
    requires plan.handoff == InspectHandoff(result, failureCase, rca, grant, host).value
    requires RecordValidation(plan, targeted, s, headName).Success?
    ensures forall g :: g in WriteAuthority.RequiredGuardIds(failureCase) ==>
              GuardReverified(g, s, targeted, plan.handoff.domain) && RanAgain(g, s, targeted, plan.handoff.domain)
  {
    hide RanAgain, InspectHandoff, CanonicalAll, AllCanonical, WriteAuthority.ValidateGrant,
      WriteAuthority.RepairDomainOf, WriteAuthority.RequiredGuardIds, WriteAuthority.TrimAll, GuardReverified,
      QuickPassed;
    InspectedHandoff(result, failureCase, rca, grant, host);
    GrantGuards(grant, failureCase, rca, CanonicalAll(failureCase.candidatePaths).value, host);
    AllRanAgain(s, targeted, plan.handoff.domain);
  }

  lemma {:induction false} AllRanAgain(s: QuickSummary, targeted: Targeted, domain: PathPolicy.RepairDomain)
    ensures forall g :: GuardReverified(g, s, targeted, domain) <==> RanAgain(g, s, targeted, domain)
  {
    hide RanAgain, GuardReverified;
    forall g
      ensures GuardReverified(g, s, targeted, domain) <==> RanAgain(g, s, targeted, domain)
    {
      RanAgainExactly(g, s, targeted, domain);
    }
  }

  lemma {:induction false} OneGuard(id: string)
    requires WriteAuthority.GuardId(id) && Trim(id) == id
    ensures WriteAuthority.GuardIdsFirst([GateRow(id)], 1) == [id]
  {
    hide WriteAuthority.GuardId, Trim;
    assert WriteAuthority.GuardIdsFirst([GateRow(id)], 0) == [];
  }

  lemma {:induction false} FeedbackGuard(failureCase: FailureCase, domain: PathPolicy.RepairDomain)
    requires failureCase.failedGates == Some([GateRow(FeedbackScope.FeedbackGate(domain))])
    ensures WriteAuthority.RequiredGuardIds(failureCase) == [FeedbackScope.FeedbackGate(domain)]
  {
    hide FeedbackScope.FeedbackGate, Trimmed, Trim, WriteAuthority.GuardId;
    GateIsGuard(domain);
    TrimFixed(FeedbackScope.FeedbackGate(domain));
    OneGuard(FeedbackScope.FeedbackGate(domain));
  }

  lemma {:induction false} GateIsGuard(domain: PathPolicy.RepairDomain)
    ensures WriteAuthority.GuardId(FeedbackScope.FeedbackGate(domain)) && Trimmed(FeedbackScope.FeedbackGate(domain))
  {
    var gate := FeedbackScope.FeedbackGate(domain);
    forall i | 0 <= i < |gate|
      ensures gate[i] != '\n' && gate[i] != '\r'
    {
      if domain == PathPolicy.ControlPlane {
        assert gate[i] == "skill-control-plane"[i];
      } else {
        assert gate[i] == "governed-stage3-targeted"[i];
      }
    }
  }

  lemma {:induction false} OneReverified(gate: string, ids: seq<string>, s: QuickSummary, targeted: Targeted,
      domain: PathPolicy.RepairDomain)
    requires WriteAuthority.TrimAll(ids) == [gate] && gate != ""
    ensures GuardsReverified(ids, s, targeted, domain) <==> GuardReverified(gate, s, targeted, domain)
  {
    hide GuardReverified, WriteAuthority.TrimAll;
    assert [gate][0] in [gate];
  }

  /** A fed-back product failure names one guard, the outer loop's own label, whatever the repair. So
      against a passing Quick run the guards of a later product round are re-verified exactly when
      that run makes a gate of this name mandatory; in the control-plane domain, exactly when the
      targeted profile passed. */
  lemma {:induction false} LaterRoundReverifiedExactly(
    original: FailureCase, repairPaths: seq<string>, round: int, rest: string, failureCase: FailureCase,
    result: Stage2Result, rca: Rca, grant: Grant, host: WriteAuthority.Host, targeted: Targeted, s: QuickSummary)
    requires FeedbackScope.SafeFeedback(original, repairPaths, round, rest).Success?
    requires FeedbackScope.OriginalDomain(original).Success?
    requires failureCase.failedGates == FeedbackScope.SafeFeedback(original, repairPaths, round, rest).value.failedGates
    requires InspectHandoff(result, failureCase, rca, grant, host).Success?
    requires InspectHandoff(result, failureCase, rca, grant, host).value.domain
             == FeedbackScope.OriginalDomain(original).value
    requires QuickPassed(s)
    ensures var h := InspectHandoff(result, failureCase, rca, grant, host).value;
            GuardsReverified(h.guardIds, s, targeted, h.domain) <==>
              if h.domain == PathPolicy.ControlPlane then ControlGuardPassed(targeted)
              else "governed-stage3-targeted" in s.required
  {
    hide FeedbackScope.SafeFeedback, InspectHandoff, FeedbackScope.OriginalDomain, WriteAuthority.ValidateGrant,
      CanonicalAll, WriteAuthority.RequiredGuardIds, WriteAuthority.TrimAll, ControlGuardPassed, AllCanonical,
      WriteAuthority.RepairDomainOf, GuardsReverified, StatusOf;
    FeedbackScope.EmittedPaths(original, repairPaths, round, rest);
    var h := InspectHandoff(result, failureCase, rca, grant, host).value;
    FeedbackGuard(failureCase, h.domain);
    InspectedHandoff(result, failureCase, rca, grant, host);
    GrantGuards(grant, failureCase, rca, CanonicalAll(failureCase.candidatePaths).value, host);
    OneReverified(FeedbackScope.FeedbackGate(h.domain), h.guardIds, s, targeted, h.domain);
  }
}
