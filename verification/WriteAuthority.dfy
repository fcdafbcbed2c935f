/** RCA validation and exact write grants (scripts/github_repair_authority.py,
    scripts/governed_repair_contract.py). */
module WriteAuthority {
  import opened Wrappers
  import opened RepoPath
  import opened FailureRecords
  import opened PathPolicy

  const MAX_PLAN_STEPS: nat := 12

  const PREWRITE_STATES: seq<LifecycleState> :=
    [Detected, EvidenceFrozen, RcaReadOnly, InvariantBound, RepairPlanFrozen, WriteGranted]

  /** Write authority and nothing beside it. */
  const GRANT_AUTHORITY: map<Power, bool> := map[
    WritePower := true, ScopePower := false, TestPower := false, WorkflowPower := false, GovernancePower := false,
    SkillPower := false, BaselinePower := false, DependencyPower := false, SecretPower := false, MergePower := false,
    DeployPower := false, ProductionPower := false]

  const ROUTE_PROTECTED: set<RouteFlag> :=
    {TestWrite, AcceptanceWrite, OracleWrite, ExpandScope, MergeFlag, DeployFlag, ProductionClosed}

  datatype Refusal =
    | PathInvalid(violation: Violation)
    | ProductSwitchedDomain
    | OutsideWriteAuthority
    | ControlDomainMissing
    | RouteMissing
    | RouteClassInvalid
    | RouteDomainDrift
    | RouteDeniedWrite
    | RouteCrossedBoundary
    | RouteScopeDiffers
    | PolicyDenied(violation: Violation)
    | PolicyDrift
    | RcaSchemaUnsupported
    | RcaNotReadOnly
    | RcaMutatedWorkspace
    | RcaClosesProduction
    | RcaDomainDrift
    | BindingIncomplete
    | RcaBindingMissing
    | RcaBindingMismatch
    | RcaCaseMismatch
    | RcaPathsMismatch
    | RcaTextMissing
    | RcaPlanInvalid
    | RecommendationMissing
    | DecisionInvalid
    | ScopeExpansion
    | EmptyGrantScope
    | DenyWithPaths
    | RcaDigestMismatch
    | RcaDenied
    | NoMachineGuard
    | GrantSchemaUnsupported
    | GrantStateInvalid
    | GrantHistoryDrift
    | ContractDrift
    | PolicyIdentityDrift
    | GrantDomainDrift
    | GrantModeInvalid
    | GrantClosesProduction
    | GrantBindingMissing
    | GrantBindingMismatch
    | GrantCaseMismatch
    | GrantRcaMismatch
    | GuardMismatch
    | GrantPathMismatch
    | AuthorityDrift
    | GrantDigestMismatch

  datatype DecisionWord = GrantWord | DenyWord | OtherWord

  /** The path policy of each domain, and the word a decision is once upper-cased. Everything below
      holds for any policy; the canonical one is `PathPolicy.Policy`. */
  datatype Host = Host(policy: RepairDomain -> string -> Option<Violation>, decide: string -> DecisionWord)

  // ---------- Paths and guards ----------

  function Normalizer(): string -> Result<string, Violation> {
    raw => Normalize(raw)
  }

  function NormalizePaths(paths: seq<string>): Result<seq<string>, Refusal> {
    match CollectFirst(paths, |paths|, Normalizer())
    case Success(result) => Success(result)
    case Failure(violation) => Failure(PathInvalid(violation))
  }

  method NormalizeAll(paths: seq<string>) returns (r: Result<seq<string>, Refusal>)
    ensures r == NormalizePaths(paths)
  {
    hide Normalize;
    var result: seq<string> := [];
    for i := 0 to |paths|
      invariant CollectFirst(paths, i, Normalizer()) == Success(result)
    {
      var path := NormalizeRepoPath(paths[i]);
      if path.Failure? {
        StopsEarly(paths, i + 1, |paths|, Normalizer());
        return Failure(PathInvalid(path.error));
      }
      if path.value in result {
        StopsEarly(paths, i + 1, |paths|, Normalizer());
        return Failure(PathInvalid(DuplicatePath));
      }
      result := result + [path.value];
    }
    return Success(result);
  }

  predicate GuardId(id: string) {
    id != "" && '\n' !in id && '\r' !in id
  }

  /** The guard ids named by the first `n` failed gates, each at its first occurrence. */
  function GuardIdsFirst(rows: seq<GateRow>, n: nat): seq<string>
    requires n <= |rows|
  {
    if n == 0 then
      []
    else
      var ids := GuardIdsFirst(rows, n - 1);
      match rows[n - 1]
      case NotAnObject => ids
      case GateRow(raw) =>
        var id := Trim(raw);
        if GuardId(id) && id !in ids then ids + [id] else ids
  }

  function RequiredGuardIds(failureCase: FailureCase): seq<string> {
    match failureCase.failedGates
    case None => []
    case Some(rows) => GuardIdsFirst(rows, |rows|)
  }

  method CollectGuardIds(failureCase: FailureCase) returns (ids: seq<string>)
    ensures ids == RequiredGuardIds(failureCase)
  {
    hide Trim;
    if failureCase.failedGates.None? {
      return [];
    }
    var rows := failureCase.failedGates.value;
    ids := [];
    for i := 0 to |rows|
      invariant ids == GuardIdsFirst(rows, i)
    {
      if rows[i].GateRow? {
        var id := Trim(rows[i].gateId);
        if GuardId(id) && id !in ids {
          ids := ids + [id];
        }
      }
    }
  }

  predicate NamesGuard(row: GateRow, id: string) {
    row.GateRow? && Trim(row.gateId) == id && GuardId(id)
  }

  predicate Distinct(ids: seq<string>) {
    forall i, j :: 0 <= i < j < |ids| ==> ids[i] != ids[j]
  }

  /** The guard ids are the well-formed trimmed gate ids, each once. */
  lemma {:induction false} GuardIdsExactly(rows: seq<GateRow>, n: nat)
    requires n <= |rows|
    ensures forall id :: id in GuardIdsFirst(rows, n) <==> exists i :: 0 <= i < n && NamesGuard(rows[i], id)
    ensures Distinct(GuardIdsFirst(rows, n))
  {
    hide Trim, GuardId;
    if n > 0 {
      GuardIdsExactly(rows, n - 1);
      var front, ids := GuardIdsFirst(rows, n - 1), GuardIdsFirst(rows, n);
      forall id
        ensures id in ids <==> id in front || NamesGuard(rows[n - 1], id)
      {
        if rows[n - 1].GateRow? {
          var own := Trim(rows[n - 1].gateId);
          assert ids == if GuardId(own) && own !in front then front + [own] else front;
          assert NamesGuard(rows[n - 1], id) <==> id == own && GuardId(own);
        }
      }
      if ids != front {
        assert ids == front + [ids[|front|]] && ids[|front|] !in front;
      }
    }
  }

  // ---------- The repair domain ----------

  function NameOf(domain: RepairDomain): DomainName {
    match domain
    case Product => ProductCode
    case ControlPlane => ControlPlaneDomain
  }

  function FailureBinding(failureCase: FailureCase): Binding {
    var b := failureCase.binding;
    Binding(Trim(b.repository), Trim(b.runId), Trim(if b.runAttempt == "" then "1" else b.runAttempt),
            Trim(b.headSha), Trim(b.signature))
  }

  predicate BindingComplete(b: Binding) {
    Trim(b.repository) != "" && Trim(b.runId) != "" && Trim(b.runAttempt) != "" && Trim(b.headSha) != ""
      && Trim(b.signature) != ""
  }

  /** Product evidence older than repair-domain routing. */
  predicate LegacyShape(failureCase: FailureCase) {
    && failureCase.schema == IngestSchema
    && failureCase.changedFiles.None?
    && failureCase.route.NoRoute?
    && failureCase.candidatePaths != []
    && BindingComplete(failureCase.binding)
  }

  predicate Flagged(flags: map<RouteFlag, bool>, flag: RouteFlag, value: bool) {
    flag in flags && flags[flag] == value
  }

  function RepairDomainOf(failureCase: FailureCase): Result<RepairDomain, Refusal> {
    var classification, supplied := failureCase.classification, failureCase.suppliedDomain.name;
    if classification == CodeOrContract then
      if supplied == NoDomain || supplied == ProductCode then Success(Product) else Failure(ProductSwitchedDomain)
    else if classification == Unclassified && supplied == NoDomain && LegacyShape(failureCase) then
      Success(Product)
    else
      :- Need(classification == ControlPlaneImplementation, OutsideWriteAuthority);
      :- Need(supplied == ControlPlaneDomain, ControlDomainMissing);
      var route := failureCase.route;
      :- Need(route.Route?, RouteMissing);
      :- Need(route.repairClass == ControlPlaneRepairable, RouteClassInvalid);
      :- Need(route.repairDomain == ControlPlaneDomain, RouteDomainDrift);
      :- Need(Flagged(route.flags, AutomaticWrite, true), RouteDeniedWrite);
      :- Need(forall f :: f in ROUTE_PROTECTED ==> Flagged(route.flags, f, false), RouteCrossedBoundary);
      var routed :- NormalizePaths(route.allowedPaths);
      var candidates :- NormalizePaths(failureCase.candidatePaths);
      :- Need(routed != [] && routed == candidates, RouteScopeDiffers);
      Success(ControlPlane)
  }

  /** The path policy of the failure's domain admits the paths, and admits them as they are. */
  function AdmitUnchanged(paths: seq<string>, domain: RepairDomain, host: Host): Outcome<Refusal> {
    match Collect(paths, Judge(host.policy(domain)))
    case Failure(violation) => Denied(PolicyDenied(violation))
    case Success(admitted) => Need(admitted == paths, PolicyDrift)
  }

  // ---------- The read-only analysis ----------

  predicate TextsPresent(texts: map<RcaText, string>) {
    forall t: RcaText :: TextOf(texts, t) != ""
  }

  function TextOf(texts: map<RcaText, string>, t: RcaText): string {
    if t in texts then Trim(texts[t]) else ""
  }

  predicate PlanValid(plan: Option<seq<Option<string>>>) {
    && plan.Some? && 1 <= |plan.value| <= MAX_PLAN_STEPS
    && forall step :: step in plan.value ==> step.Some? && Trim(step.value) != ""
  }

  /** The analysis is read-only and about this failure case; its domain. */
  function RcaIdentity(body: RcaBody, failureCase: FailureCase): Result<RepairDomain, Refusal> {
    var binding := FailureBinding(failureCase);
    :- Need(body.schema == RcaSchema, RcaSchemaUnsupported);
    :- Need(body.readOnly == Some(true), RcaNotReadOnly);
    :- Need(body.workspaceMutated == Some(false), RcaMutatedWorkspace);
    :- Need(body.productionClosed == Some(false), RcaClosesProduction);
    var domain :- RepairDomainOf(failureCase);
    :- Need(body.domain == NoDomain || body.domain == NameOf(domain), RcaDomainDrift);
    :- Need(BindingComplete(binding), BindingIncomplete);
    :- Need(body.binding.Some?, RcaBindingMissing);
    :- Need(body.binding.value == binding, RcaBindingMismatch);
    :- Need(body.caseDigest == OfCase(failureCase), RcaCaseMismatch);
    Success(domain)
  }

  /** The candidate paths of the analysis are the caller's, and eligible. */
  function RcaScope(body: RcaBody, domain: RepairDomain, candidates: seq<string>,
      host: Host): Result<seq<string>, Refusal>
  {
    var expected :- NormalizePaths(candidates);
    :- AdmitUnchanged(expected, domain, host);
    var evidence :- NormalizePaths(body.candidatePaths);
    :- Need(evidence == expected, RcaPathsMismatch);
    Success(expected)
  }

  function Decision(body: RcaBody, host: Host): DecisionWord
    requires body.recommendation.Some?
  {
    host.decide(body.recommendation.value.decision)
  }

  /** The recommended paths, which only narrow the expected ones. */
  function Recommended(body: RcaBody, domain: RepairDomain, expected: seq<string>,
      host: Host): Result<seq<string>, Refusal>
  {
    var recommendation := body.recommendation;
    :- Need(TextsPresent(body.texts), RcaTextMissing);
    :- Need(PlanValid(body.plan), RcaPlanInvalid);
    :- Need(recommendation.Some?, RecommendationMissing);
    var decision := Decision(body, host);
    :- Need(decision != OtherWord, DecisionInvalid);
    var paths :- NormalizePaths(recommendation.value.paths);
    :- Need(forall p :: p in paths ==> p in expected, ScopeExpansion);
    if decision == GrantWord then
      :- Need(paths != [], EmptyGrantScope);
      :- AdmitUnchanged(paths, domain, host);
      Success(paths)
    else
      :- Need(paths == [], DenyWithPaths);
      Success(paths)
  }

  function ValidateRca(rca: Rca, failureCase: FailureCase, candidates: seq<string>,
      host: Host): Result<seq<string>, Refusal>
  {
    var domain :- RcaIdentity(rca.body, failureCase);
    var expected :- RcaScope(rca.body, domain, candidates, host);
    var recommended :- Recommended(rca.body, domain, expected, host);
    :- Need(rca.digest == OfRca(rca.body), RcaDigestMismatch);
    Success(recommended)
  }

  // ---------- The grant ----------

  function GrantBodyFor(failureCase: FailureCase, rca: RcaBody, domain: RepairDomain, paths: seq<string>): GrantBody {
    GrantBody(
      GrantSchema, StateSchema, WriteGranted, PREWRITE_STATES, ContractId, OfContract, PathPolicyId,
      OfPathPolicy, NameOf(domain), Some(FailureBinding(failureCase)), OfCase(failureCase), OfRca(rca), paths,
      RequiredGuardIds(failureCase), ExactAllowlist, Some(GRANT_AUTHORITY), Some(false),
      Unchecked(TextOf(rca.texts, ViolatedInvariant), TextOf(rca.texts, AuthorityOwner),
                TextOf(rca.texts, DriftedProjection), TextOf(rca.texts, PermanentGuard),
                if rca.plan.Some? then rca.plan.value else [],
                [OfCase(failureCase), OfRca(rca), OfContract, OfPathPolicy]))
  }

  function CompileGrant(failureCase: FailureCase, rca: Rca, candidates: seq<string>,
      host: Host): Result<Grant, Refusal>
  {
    var paths :- ValidateRca(rca, failureCase, candidates, host);
    :- Need(rca.body.recommendation.Some? && Decision(rca.body, host) == GrantWord, RcaDenied);
    :- Need(RequiredGuardIds(failureCase) != [], NoMachineGuard);
    var domain :- RepairDomainOf(failureCase);
    var body := GrantBodyFor(failureCase, rca.body, domain, paths);
    Success(Grant(body, OfGrant(body)))
  }

  function TrimAll(texts: seq<string>): seq<string> {
    seq(|texts|, i requires 0 <= i < |texts| => Trim(texts[i]))
  }

  /** The grant's own identity. */
  function GrantIdentity(g: GrantBody, domain: RepairDomain): Outcome<Refusal> {
    if g.schema != GrantSchema then Denied(GrantSchemaUnsupported)
    else if g.stateSchema != StateSchema || g.state != WriteGranted then Denied(GrantStateInvalid)
    else if g.stateHistory != PREWRITE_STATES then Denied(GrantHistoryDrift)
    else if g.contractId != ContractId || g.contractDigest != OfContract then Denied(ContractDrift)
    else if g.policyId != PathPolicyId || g.policyDigest != OfPathPolicy then Denied(PolicyIdentityDrift)
    else if g.domain != NameOf(domain) then Denied(GrantDomainDrift)
    else if g.scopeMode != ExactAllowlist then Denied(GrantModeInvalid)
    else if g.productionClosed != Some(false) then Denied(GrantClosesProduction)
    else Granted
  }

  function GrantBinding(g: GrantBody, failureCase: FailureCase, rca: RcaBody): Outcome<Refusal> {
    if g.binding.None? then Denied(GrantBindingMissing)
    else if g.binding.value != FailureBinding(failureCase) then Denied(GrantBindingMismatch)
    else if g.caseDigest != OfCase(failureCase) then Denied(GrantCaseMismatch)
    else if g.rcaDigest != OfRca(rca) then Denied(GrantRcaMismatch)
    else if RequiredGuardIds(failureCase) == [] then Denied(NoMachineGuard)
    else if TrimAll(g.guardIds) != RequiredGuardIds(failureCase) then Denied(GuardMismatch)
    else Granted
  }

  function GrantedPaths(g: GrantBody, domain: RepairDomain, recommended: seq<string>,
      host: Host): Result<seq<string>, Refusal>
  {
    var granted :- NormalizePaths(g.allowedPaths);
    :- AdmitUnchanged(granted, domain, host);
    :- Need(granted == recommended, GrantPathMismatch);
    Success(granted)
  }

  function ValidateGrant(grant: Grant, failureCase: FailureCase, rca: Rca, candidates: seq<string>, host: Host)
    : Result<seq<string>, Refusal>
  {
    var recommended :- ValidateRca(rca, failureCase, candidates, host);
    var domain :- RepairDomainOf(failureCase);
    :- GrantIdentity(grant.body, domain);
    :- GrantBinding(grant.body, failureCase, rca.body);
    var granted :- GrantedPaths(grant.body, domain, recommended, host);
    :- Need(grant.body.authority == Some(GRANT_AUTHORITY), AuthorityDrift);
    :- Need(grant.digest == OfGrant(grant.body), GrantDigestMismatch);
    Success(granted)
  }

  // ---------- What an accepted analysis means ----------

  /** Every path is a fixed point of the normalizer and eligible in the domain. */
  ghost predicate Eligible(paths: seq<string>, domain: RepairDomain, host: Host) {
    forall p :: p in paths ==> FixedPoint(p) && host.policy(domain)(p) == None
  }

  lemma {:induction false} AdmittedIsEligible(paths: seq<string>, domain: RepairDomain, host: Host)
    requires AdmitUnchanged(paths, domain, host) == Granted
    ensures Eligible(paths, domain, host) && 1 <= |paths| <= MAX_WRITE_PATHS
    ensures NormalizePaths(paths) == Success(paths)
  {
    hide Normalize;
    var judge := Judge(host.policy(domain));
    AcceptedExactly(paths, paths, judge);
    forall i | 0 <= i < |paths|
      ensures Normalizer()(paths[i]) == Success(paths[i]) && host.policy(domain)(paths[i]) == None
    {
      assert judge(paths[i]) == Success(paths[i]);
    }
    assert paths[..|paths|] == paths;
    CollectComplete(paths, |paths|, paths, Normalizer());
  }

  /** The candidate paths of an accepted analysis are eligible fixed points, and the recommended ones
      are among them: none for DENY, some for GRANT. */
  lemma {:induction false} AcceptedRca(rca: Rca, failureCase: FailureCase, candidates: seq<string>, host: Host)
    requires ValidateRca(rca, failureCase, candidates, host).Success?
    ensures RepairDomainOf(failureCase).Success? && NormalizePaths(candidates).Success?
    ensures var domain, expected := RepairDomainOf(failureCase).value, NormalizePaths(candidates).value;
            var recommended := ValidateRca(rca, failureCase, candidates, host).value;
            && Eligible(expected, domain, host) && NormalizePaths(rca.body.candidatePaths) == Success(expected)
            && (forall p :: p in recommended ==> p in expected)
            && Eligible(recommended, domain, host)
            && rca.body.recommendation.Some?
            && Decision(rca.body, host) == (if recommended == [] then DenyWord else GrantWord)
            && (recommended != [] ==> AdmitUnchanged(recommended, domain, host) == Granted)
            && rca == Rca(rca.body, OfRca(rca.body)) && rca.body.caseDigest == OfCase(failureCase)
  {
    hide NormalizePaths, AdmitUnchanged, RepairDomainOf, TextsPresent, PlanValid, FailureBinding, BindingComplete,
      FixedPoint;
    var domain, expected := RepairDomainOf(failureCase).value, NormalizePaths(candidates).value;
    AdmittedIsEligible(expected, domain, host);
  }

  /** The route of a control-plane repair: automatic writes, none of the seven protected ones, for exactly the
      candidates. */
  ghost predicate RoutesWrites(failureCase: FailureCase) {
    var route := failureCase.route;
    && route.Route? && route.repairClass == ControlPlaneRepairable && route.repairDomain == ControlPlaneDomain
    && (forall f: RouteFlag :: f in route.flags && (route.flags[f] <==> f == AutomaticWrite))
    && NormalizePaths(route.allowedPaths).Success? && NormalizePaths(route.allowedPaths).value != []
    && NormalizePaths(route.allowedPaths) == NormalizePaths(failureCase.candidatePaths)
  }

  /** A failure may be repaired as a product's, when it is classified so or is older than the classification, or
      as the control plane's along its route; any other is outside the write authority. */
  lemma {:induction false} DomainExactly(failureCase: FailureCase)
    ensures RepairDomainOf(failureCase) == Success(Product) <==>
              var supplied := failureCase.suppliedDomain.name;
              || (failureCase.classification == CodeOrContract && (supplied == NoDomain || supplied == ProductCode))
              || (&& failureCase.classification == Unclassified && supplied == NoDomain
                  && failureCase.schema == IngestSchema && failureCase.changedFiles == None
                  && failureCase.route == NoRoute && failureCase.candidatePaths != []
                  && BindingComplete(failureCase.binding))
    ensures RepairDomainOf(failureCase) == Success(ControlPlane) <==>
              && failureCase.classification == ControlPlaneImplementation
              && failureCase.suppliedDomain.name == ControlPlaneDomain && RoutesWrites(failureCase)
  {
    hide NormalizePaths, BindingComplete, Flagged, ROUTE_PROTECTED;
    if failureCase.route.Route? {
      FlagsExactly(failureCase);
    }
  }

  lemma {:induction false} FlagsExactly(failureCase: FailureCase)
    requires failureCase.route.Route?
    ensures var route := failureCase.route;
            && (Flagged(route.flags, AutomaticWrite, true)
                && (forall f :: f in ROUTE_PROTECTED ==> Flagged(route.flags, f, false)) <==>
                forall f: RouteFlag :: f in route.flags && (route.flags[f] <==> f == AutomaticWrite))
  {
    var flags := failureCase.route.flags;
    if Flagged(flags, AutomaticWrite, true) && (forall f :: f in ROUTE_PROTECTED ==> Flagged(flags, f, false)) {
      forall f: RouteFlag
        ensures f in flags && (flags[f] <==> f == AutomaticWrite)
      {
        assert f != AutomaticWrite ==> f in ROUTE_PROTECTED;
      }
    }
  }

  /** An analysis is accepted exactly when it is read-only and its own, about this very failure case, complete,
      and decides: to grant some of the eligible candidates, or to deny. */
  lemma {:induction false} RcaExactly(rca: Rca, failureCase: FailureCase, candidates: seq<string>, host: Host)
    ensures ValidateRca(rca, failureCase, candidates, host).Success? <==>
              var b := rca.body;
              && rca.digest == OfRca(b) && b.schema == RcaSchema
              && b.readOnly == Some(true) && b.workspaceMutated == Some(false) && b.productionClosed == Some(false)
              && RepairDomainOf(failureCase).Success?
              && var domain := RepairDomainOf(failureCase).value;
                 && (b.domain == NoDomain || b.domain == NameOf(domain))
                 && BindingComplete(FailureBinding(failureCase)) && b.binding == Some(FailureBinding(failureCase))
                 && b.caseDigest == OfCase(failureCase)
                 && NormalizePaths(candidates).Success?
                    && NormalizePaths(b.candidatePaths) == NormalizePaths(candidates)
                 && AdmitUnchanged(NormalizePaths(candidates).value, domain, host) == Granted
                 && (forall t: RcaText :: t in b.texts && Trim(b.texts[t]) != "")
                 && b.plan.Some? && 1 <= |b.plan.value| <= 12
                 && (forall step :: step in b.plan.value ==> step.Some? && Trim(step.value) != "")
                 && b.recommendation.Some? && NormalizePaths(b.recommendation.value.paths).Success?
                 && var paths, word := NormalizePaths(b.recommendation.value.paths).value,
                      host.decide(b.recommendation.value.decision);
                    && (forall p :: p in paths ==> p in NormalizePaths(candidates).value)
                    && ((word == GrantWord && paths != [] && AdmitUnchanged(paths, domain, host) == Granted)
                        || (word == DenyWord && paths == []))
    ensures ValidateRca(rca, failureCase, candidates, host).Success? ==>
              ValidateRca(rca, failureCase, candidates, host) == NormalizePaths(rca.body.recommendation.value.paths)
  {
    hide NormalizePaths, AdmitUnchanged, RepairDomainOf, FailureBinding, BindingComplete, TextsPresent, PlanValid, Trim;
    TextsExactly(rca.body.texts);
    PlanExactly(rca.body.plan);
  }

  lemma {:induction false} TextsExactly(texts: map<RcaText, string>)
    ensures TextsPresent(texts) <==> forall t: RcaText :: t in texts && Trim(texts[t]) != ""
  {
    hide Trim;
    forall t: RcaText
      ensures TextOf(texts, t) != "" <==> t in texts && Trim(texts[t]) != ""
    {
    }
  }

  lemma {:induction false} PlanExactly(plan: Option<seq<Option<string>>>)
    ensures PlanValid(plan) <==>
              && plan.Some? && 1 <= |plan.value| <= 12
              && forall step :: step in plan.value ==> step.Some? && Trim(step.value) != ""
  {
  }

  /** A failure is bound completely exactly when repository, run, head and signature are not blank, nor the
      attempt, which is the first unless it is given. */
  lemma {:induction false} BindingExactly(failureCase: FailureCase)
    ensures var b, bound := failureCase.binding, FailureBinding(failureCase);
            && bound == Binding(Trim(b.repository), Trim(b.runId), bound.runAttempt, Trim(b.headSha), Trim(b.signature))
            && (b.runAttempt == "" ==> bound.runAttempt == "1")
               && (b.runAttempt != "" ==> bound.runAttempt == Trim(b.runAttempt))
            && (BindingComplete(bound) <==>
                  && Trim(b.repository) != "" && Trim(b.runId) != "" && Trim(b.headSha) != "" && Trim(b.signature) != ""
                  && (b.runAttempt == "" || Trim(b.runAttempt) != ""))
  {
    hide Trim;
    var b := failureCase.binding;
    TrimTwice(b.repository);
    TrimTwice(b.runId);
    TrimTwice(b.headSha);
    TrimTwice(b.signature);
    TrimTwice(b.runAttempt);
    TrimTwice("1");
    OneIsTrimmed();
  }

  lemma {:induction false} TrimTwice(s: string)
    ensures Trim(Trim(s)) == Trim(s)
  {
    TrimIsTrimmed(s);
    TrimFixed(Trim(s));
  }

  lemma {:induction false} OneIsTrimmed()
    ensures Trim("1") == "1"
  {
    TrimFixed("1");
  }

  /** The refusal of a grant names something that is wrong with it. */
  lemma {:induction false} GrantRefusals(g: GrantBody, domain: RepairDomain, failureCase: FailureCase, rca: RcaBody)
    ensures var r := GrantIdentity(g, domain);
            && (r == Denied(GrantSchemaUnsupported) <==> g.schema != GrantSchema)
            && (r == Denied(GrantStateInvalid) ==> g.stateSchema != StateSchema || g.state != WriteGranted)
            && (r == Denied(GrantHistoryDrift) ==> g.stateHistory != PREWRITE_STATES)
            && (r == Denied(ContractDrift) ==> g.contractId != ContractId || g.contractDigest != OfContract)
            && (r == Denied(PolicyIdentityDrift) ==> g.policyId != PathPolicyId || g.policyDigest != OfPathPolicy)
            && (r == Denied(GrantDomainDrift) ==> g.domain != NameOf(domain))
            && (r == Denied(GrantModeInvalid) ==> g.scopeMode != ExactAllowlist)
            && (r == Denied(GrantClosesProduction) ==> g.productionClosed != Some(false))
    ensures var r := GrantBinding(g, failureCase, rca);
            && (r == Denied(GrantBindingMissing) <==> g.binding == None)
            && (r == Denied(GrantBindingMismatch) <==>
                g.binding.Some? && g.binding != Some(FailureBinding(failureCase)))
            && (r == Denied(GrantCaseMismatch) ==> g.caseDigest != OfCase(failureCase))
            && (r == Denied(GrantRcaMismatch) ==> g.rcaDigest != OfRca(rca))
            && (r == Denied(NoMachineGuard) ==> RequiredGuardIds(failureCase) == [])
            && (r == Denied(GuardMismatch) ==>
                  RequiredGuardIds(failureCase) != [] && TrimAll(g.guardIds) != RequiredGuardIds(failureCase))
  {
    hide FailureBinding, RequiredGuardIds, TrimAll, PREWRITE_STATES;
  }

  // ---------- Grants ----------

  lemma {:induction false} GuardIdsTrimmed(failureCase: FailureCase)
    ensures TrimAll(RequiredGuardIds(failureCase)) == RequiredGuardIds(failureCase)
  {
    hide Trim, Trimmed;
    if failureCase.failedGates.Some? {
      var rows := failureCase.failedGates.value;
      var ids := GuardIdsFirst(rows, |rows|);
      GuardIdsExactly(rows, |rows|);
      forall i | 0 <= i < |ids|
        ensures Trim(ids[i]) == ids[i]
      {
        assert ids[i] in ids;
        var j :| 0 <= j < |rows| && NamesGuard(rows[j], ids[i]);
        TrimIsTrimmed(rows[j].gateId);
        TrimFixed(ids[i]);
      }
    }
  }

  /** A grant and a compiled one agree on everything a validator compares. */
  ghost predicate Agrees(g: GrantBody, compiled: GrantBody) {
    && g.(allowedPaths := compiled.allowedPaths, guardIds := compiled.guardIds,
          unchecked := compiled.unchecked) == compiled
    && NormalizePaths(g.allowedPaths) == Success(compiled.allowedPaths)
    && TrimAll(g.guardIds) == compiled.guardIds
  }

  /** Every named power is decided: writing is granted, the eleven others are not. */
  ghost predicate WritesOnly(authority: Option<map<Power, bool>>) {
    && authority.Some?
    && (forall p :: p in authority.value <==> !p.OtherPower?)
    && forall p :: p in authority.value ==> (authority.value[p] <==> p == WritePower)
  }

  lemma {:induction false} NamedPowers(p: Power)
    ensures !p.OtherPower? <==>
              p in {WritePower, ScopePower, TestPower, WorkflowPower, GovernancePower, SkillPower, BaselinePower,
                    DependencyPower, SecretPower, MergePower, DeployPower, ProductionPower}
  {
    match p
    case WritePower | ScopePower | TestPower | WorkflowPower | GovernancePower | SkillPower =>
    case BaselinePower | DependencyPower | SecretPower | MergePower | DeployPower | ProductionPower =>
    case OtherPower(_) =>
  }

  lemma {:induction false} GrantAuthorityWritesOnly()
    ensures WritesOnly(Some(GRANT_AUTHORITY))
  {
    forall p: Power
      ensures p in GRANT_AUTHORITY <==> !p.OtherPower?
    {
      NamedPowers(p);
    }
  }

  /** What a validated grant carries: write authority and none of the eleven protected powers, an exact
      allowlist, an open production gate, and the six states before writing in their order. */
  lemma {:induction false} ValidatedCarriesOnlyWrites(
    grant: Grant, failureCase: FailureCase, rca: Rca, candidates: seq<string>, host: Host)
    requires ValidateGrant(grant, failureCase, rca, candidates, host).Success?
    ensures WritesOnly(grant.body.authority)
    ensures grant.body.scopeMode == ExactAllowlist && grant.body.productionClosed == Some(false)
    ensures grant.body.state == WriteGranted
    ensures grant.body.stateHistory == [Detected, EvidenceFrozen, RcaReadOnly, InvariantBound, RepairPlanFrozen,
                                        WriteGranted]
  {
    hide ValidateRca, NormalizePaths, AdmitUnchanged, RepairDomainOf, RequiredGuardIds, FailureBinding, TrimAll,
      GRANT_AUTHORITY, WritesOnly;
    GrantAuthorityWritesOnly();
  }

  lemma {:induction false} PlanThere(rca: Rca, failureCase: FailureCase, candidates: seq<string>, host: Host)
    requires ValidateRca(rca, failureCase, candidates, host).Success?
    ensures rca.body.plan.Some?
  {
    hide RcaIdentity, RcaScope, TextsPresent;
  }

  /** What a compiled grant carries. */
  lemma {:induction false} CompiledCarriesOnlyWrites(
    failureCase: FailureCase, rca: Rca, candidates: seq<string>, host: Host)
    requires CompileGrant(failureCase, rca, candidates, host).Success?
    ensures var b := CompileGrant(failureCase, rca, candidates, host).value.body;
            && WritesOnly(b.authority) && b.scopeMode == ExactAllowlist && b.productionClosed == Some(false)
            && b.schema == GrantSchema && b.stateSchema == StateSchema && b.contractId == ContractId
            && b.contractDigest == OfContract && b.policyId == PathPolicyId && b.policyDigest == OfPathPolicy
            && b.state == WriteGranted
            && b.stateHistory == [Detected, EvidenceFrozen, RcaReadOnly, InvariantBound, RepairPlanFrozen, WriteGranted]
            && b.binding == Some(FailureBinding(failureCase)) && b.caseDigest == OfCase(failureCase)
            && b.rcaDigest == OfRca(rca.body) && b.guardIds == RequiredGuardIds(failureCase)
            && ValidateRca(rca, failureCase, candidates, host) == Success(b.allowedPaths)
            && (b.domain == ProductCode || b.domain == ControlPlaneDomain)
            && (b.domain == ProductCode <==> RepairDomainOf(failureCase) == Success(Product))
  {
    hide ValidateRca, NormalizePaths, AdmitUnchanged, RepairDomainOf, RequiredGuardIds, FailureBinding, TrimAll, TextOf,
      GRANT_AUTHORITY, WritesOnly;
    GrantAuthorityWritesOnly();
  }

  /** A compiled grant repeats what the analysis says, and names the digests it rests on. */
  lemma {:induction false} CompiledRepeatsAnalysis(failureCase: FailureCase, rca: Rca, candidates: seq<string>,
      host: Host)
    requires CompileGrant(failureCase, rca, candidates, host).Success?
    ensures var u := CompileGrant(failureCase, rca, candidates, host).value.body.unchecked;
            && u.violatedInvariant == TextOf(rca.body.texts, ViolatedInvariant)
            && u.authorityOwner == TextOf(rca.body.texts, AuthorityOwner)
            && u.driftedProjection == TextOf(rca.body.texts, DriftedProjection)
            && u.permanentGuard == TextOf(rca.body.texts, PermanentGuard)
            && Some(u.plan) == rca.body.plan
            && u.gateEvidence == [OfCase(failureCase), OfRca(rca.body), OfContract, OfPathPolicy]
  {
    hide ValidateRca, RepairDomainOf, RequiredGuardIds, FailureBinding, TextOf, GRANT_AUTHORITY, PREWRITE_STATES;
    PlanThere(rca, failureCase, candidates, host);
  }

  /** A grant validates, with these paths, exactly when a grant can be compiled from the same failure
      case, analysis and candidates, the two agree, and the digest is the grant's own; then it grants
      writing and nothing else. In particular a denying analysis backs no grant,
        though the validator never reads its decision. */
  lemma {:induction false} GrantExactly(
    grant: Grant, failureCase: FailureCase, rca: Rca, candidates: seq<string>, paths: seq<string>, host: Host)
    ensures ValidateGrant(grant, failureCase, rca, candidates, host) == Success(paths) <==>
              && CompileGrant(failureCase, rca, candidates, host).Success?
              && Agrees(grant.body, CompileGrant(failureCase, rca, candidates, host).value.body)
              && grant.digest == OfGrant(grant.body)
              && paths == CompileGrant(failureCase, rca, candidates, host).value.body.allowedPaths
    ensures ValidateGrant(grant, failureCase, rca, candidates, host) == Success(paths) ==>
              WritesOnly(grant.body.authority)
  {
    hide ValidateRca, NormalizePaths, AdmitUnchanged, RepairDomainOf, RequiredGuardIds, FailureBinding, TrimAll,
      Eligible, GRANT_AUTHORITY, WritesOnly;
    GrantAuthorityWritesOnly();
    if ValidateRca(rca, failureCase, candidates, host).Success? {
      AcceptedRca(rca, failureCase, candidates, host);
      var recommended := ValidateRca(rca, failureCase, candidates, host).value;
      if recommended == [] {
        EmptyNotAdmitted(RepairDomainOf(failureCase).value, host);
      }
    }
  }

  lemma {:induction false} EmptyNotAdmitted(domain: RepairDomain, host: Host)
    ensures AdmitUnchanged([], domain, host) != Granted
  {
  }

  /** The round trip: what was compiled validates, and yields the recommended paths. */
  lemma {:induction false} CompiledValidates(failureCase: FailureCase, rca: Rca, candidates: seq<string>, host: Host)
    requires CompileGrant(failureCase, rca, candidates, host).Success?
    ensures var grant := CompileGrant(failureCase, rca, candidates, host).value;
            && ValidateGrant(grant, failureCase, rca, candidates, host) ==
               ValidateRca(rca, failureCase, candidates, host)
            && ValidateGrant(grant, failureCase, rca, candidates, host) == Success(grant.body.allowedPaths)
            && WritesOnly(grant.body.authority)
  {
    hide ValidateRca, NormalizePaths, AdmitUnchanged, RepairDomainOf, FailureBinding, TrimAll, Eligible, ValidateGrant,
      RequiredGuardIds, WritesOnly, GRANT_AUTHORITY;
    var grant := CompileGrant(failureCase, rca, candidates, host).value;
    AcceptedRca(rca, failureCase, candidates, host);
    AdmittedIsEligible(grant.body.allowedPaths, RepairDomainOf(failureCase).value, host);
    GuardIdsTrimmed(failureCase);
    GrantExactly(grant, failureCase, rca, candidates, grant.body.allowedPaths, host);
  }

  /** One grant, one failure case, one analysis, one candidate set. */
  lemma {:induction false} GrantBindsOneCase(
    grant: Grant, case1: FailureCase, rca1: Rca, candidates1: seq<string>,
    case2: FailureCase, rca2: Rca, candidates2: seq<string>, host: Host)
    requires ValidateGrant(grant, case1, rca1, candidates1, host).Success?
    requires ValidateGrant(grant, case2, rca2, candidates2, host).Success?
    ensures case1 == case2 && rca1 == rca2 && NormalizePaths(candidates1) == NormalizePaths(candidates2)
  {
    hide ValidateRca, NormalizePaths, AdmitUnchanged, RepairDomainOf, FailureBinding, TrimAll, Eligible,
      RequiredGuardIds, GrantIdentity, GrantedPaths;
    AcceptedRca(rca1, case1, candidates1, host);
    AcceptedRca(rca2, case2, candidates2, host);
  }

  lemma {:induction false} GrantRests(grant: Grant, failureCase: FailureCase, rca: Rca, candidates: seq<string>,
      host: Host)
    requires ValidateGrant(grant, failureCase, rca, candidates, host).Success?
    ensures ValidateRca(rca, failureCase, candidates, host) == ValidateGrant(grant, failureCase, rca, candidates, host)
    ensures RepairDomainOf(failureCase).Success?
    ensures AdmitUnchanged(ValidateGrant(grant, failureCase, rca, candidates, host).value,
                           RepairDomainOf(failureCase).value, host) == Granted
  {
    hide ValidateRca, NormalizePaths, AdmitUnchanged, RepairDomainOf, GrantIdentity, GrantBinding;
  }

  /** A failure case that differs in any way is refused by the analysis bound to the original. */
  lemma {:induction false} ChangedCaseIsRefused(
    grant: Grant, rca: Rca, original: FailureCase, changed: FailureCase,
    candidates: seq<string>, otherCandidates: seq<string>, host: Host)
    requires ValidateRca(rca, original, candidates, host).Success? && changed != original
    ensures ValidateRca(rca, changed, otherCandidates, host).Failure?
    ensures ValidateGrant(grant, changed, rca, otherCandidates, host).Failure?
  {
    hide ValidateRca, Decision, Eligible;
    AcceptedRca(rca, original, candidates, host);
    if ValidateRca(rca, changed, otherCandidates, host).Success? {
      AcceptedRca(rca, changed, otherCandidates, host);
    }
    if ValidateGrant(grant, changed, rca, otherCandidates, host).Success? {
      GrantRests(grant, changed, rca, otherCandidates, host);
    }
  }

  /** Granted paths are eligible fixed points of the domain; in the control-plane domain, if the
      caller passes the failure case's own candidates, they are also on the semantic route. */
  lemma {:induction false} GrantedPathsAreEligible(
    grant: Grant, failureCase: FailureCase, rca: Rca, candidates: seq<string>, host: Host)
    requires ValidateGrant(grant, failureCase, rca, candidates, host).Success?
    ensures RepairDomainOf(failureCase).Success? && NormalizePaths(candidates).Success?
    ensures var paths := ValidateGrant(grant, failureCase, rca, candidates, host).value;
            var domain := RepairDomainOf(failureCase).value;
            && 1 <= |paths| <= MAX_WRITE_PATHS && Eligible(paths, domain, host)
            && (forall p :: p in paths ==> p in NormalizePaths(candidates).value)
            && (domain == ControlPlane && candidates == failureCase.candidatePaths ==>
                  && failureCase.route.Route? && NormalizePaths(failureCase.route.allowedPaths).Success?
                  && forall p :: p in paths ==> p in NormalizePaths(failureCase.route.allowedPaths).value)
  {
    hide ValidateGrant, ValidateRca, NormalizePaths, AdmitUnchanged, RepairDomainOf, Eligible, Decision;
    GrantRests(grant, failureCase, rca, candidates, host);
    AcceptedRca(rca, failureCase, candidates, host);
    if RepairDomainOf(failureCase) == Success(ControlPlane) {
      ControlRoute(failureCase);
    }
    AdmittedIsEligible(ValidateGrant(grant, failureCase, rca, candidates, host).value,
                       RepairDomainOf(failureCase).value, host);
  }

  lemma {:induction false} ControlRoute(failureCase: FailureCase)
    requires RepairDomainOf(failureCase) == Success(ControlPlane)
    ensures failureCase.route.Route?
    ensures NormalizePaths(failureCase.route.allowedPaths) == NormalizePaths(failureCase.candidatePaths)
  {
    hide NormalizePaths, Trim, LegacyShape;
  }

  // ---------- Which path sets can be granted at all ----------

  function AllTexts(): map<RcaText, string> {
    map[FailureClassText := "x", ViolatedInvariant := "x", AuthorityOwner := "x", DriftedProjection := "x",
        RootCause := "x", GateGap := "x", PermanentGuard := "x"]
  }

  /** The plainest analysis that recommends all of `paths`. */
  function GrantingRca(failureCase: FailureCase, paths: seq<string>, word: string): Rca {
    var body := RcaBody(
      RcaSchema, Some(true), Some(false), Some(false), NoDomain, Some(FailureBinding(failureCase)),
      OfCase(failureCase), paths,
      AllTexts(), Some([Some("x")]), Some(Recommendation(word, paths)), "");
    Rca(body, OfRca(body))
  }

  lemma {:induction false} GrantingRcaAccepted(failureCase: FailureCase, paths: seq<string>, word: string, host: Host)
    requires host.decide(word) == GrantWord && RepairDomainOf(failureCase).Success?
             && BindingComplete(FailureBinding(failureCase))
    requires AdmitUnchanged(paths, RepairDomainOf(failureCase).value, host) == Granted
    ensures ValidateRca(GrantingRca(failureCase, paths, word), failureCase, paths, host) == Success(paths)
  {
    hide NormalizePaths, AdmitUnchanged, RepairDomainOf, FailureBinding, BindingComplete, Eligible;
    AdmittedIsEligible(paths, RepairDomainOf(failureCase).value, host);
    TrimFixed("x");
    forall t: RcaText
      ensures TextOf(AllTexts(), t) != ""
    {
      match t
      case FailureClassText =>
      case ViolatedInvariant =>
      case AuthorityOwner =>
      case DriftedProjection =>
      case RootCause =>
      case GateGap =>
      case PermanentGuard =>
    }
  }

  /** For some analysis a grant of exactly these paths can be compiled, if and only if the failure is
      in a domain, its binding complete, a machine guard failed, and the policy admits the paths as
      they stand: the authority neither grants more nor withholds anything else. */
  lemma {:induction false} GrantableExactly(failureCase: FailureCase, paths: seq<string>, word: string, host: Host)
    requires host.decide(word) == GrantWord
    ensures (exists rca :: Grants(failureCase, rca, paths, host)) <==>
              && RepairDomainOf(failureCase).Success? && BindingComplete(FailureBinding(failureCase))
              && RequiredGuardIds(failureCase) != []
              && AdmitUnchanged(paths, RepairDomainOf(failureCase).value, host) == Granted
  {
    hide NormalizePaths, AdmitUnchanged, RepairDomainOf, FailureBinding, BindingComplete, RequiredGuardIds, Grants;
    if exists rca :: Grants(failureCase, rca, paths, host) {
      var rca :| Grants(failureCase, rca, paths, host);
      GrantsMeans(failureCase, rca, paths, host);
    }
    if && RepairDomainOf(failureCase).Success? && BindingComplete(FailureBinding(failureCase))
       && RequiredGuardIds(failureCase) != []
       && AdmitUnchanged(paths, RepairDomainOf(failureCase).value, host) == Granted {
      GrantingRcaGrants(failureCase, paths, word, host);
    }
  }

  predicate Grants(failureCase: FailureCase, rca: Rca, paths: seq<string>, host: Host) {
    var grant := CompileGrant(failureCase, rca, paths, host);
    grant.Success? && grant.value.body.allowedPaths == paths
  }

  lemma {:induction false} GrantsMeans(failureCase: FailureCase, rca: Rca, paths: seq<string>, host: Host)
    requires Grants(failureCase, rca, paths, host)
    ensures RepairDomainOf(failureCase).Success? && BindingComplete(FailureBinding(failureCase))
            && RequiredGuardIds(failureCase) != []
    ensures AdmitUnchanged(paths, RepairDomainOf(failureCase).value, host) == Granted
  {
    hide NormalizePaths, AdmitUnchanged, RepairDomainOf, FailureBinding, BindingComplete, RequiredGuardIds, Eligible,
      ValidateRca;
    AcceptedRca(rca, failureCase, paths, host);
    IdentityAccepted(rca, failureCase, paths, host);
  }

  lemma {:induction false} IdentityAccepted(rca: Rca, failureCase: FailureCase, candidates: seq<string>, host: Host)
    requires ValidateRca(rca, failureCase, candidates, host).Success?
    ensures BindingComplete(FailureBinding(failureCase))
  {
    hide NormalizePaths, RepairDomainOf, FailureBinding, BindingComplete, RcaScope, Recommended;
  }

  lemma {:induction false} GrantingRcaGrants(failureCase: FailureCase, paths: seq<string>, word: string, host: Host)
    requires host.decide(word) == GrantWord && RepairDomainOf(failureCase).Success?
             && BindingComplete(FailureBinding(failureCase))
    requires RequiredGuardIds(failureCase) != []
    requires AdmitUnchanged(paths, RepairDomainOf(failureCase).value, host) == Granted
    ensures Grants(failureCase, GrantingRca(failureCase, paths, word), paths, host)
  {
    hide NormalizePaths, AdmitUnchanged, RepairDomainOf, FailureBinding, BindingComplete, RequiredGuardIds, ValidateRca,
      AllTexts;
    GrantingRcaAccepted(failureCase, paths, word, host);
  }
}
