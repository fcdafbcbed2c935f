/** The records that travel from the frozen failure evidence to a write grant, and their digests.
    A digest is symbolic: equal digests have equal contents. */
module FailureRecords {
  import opened Wrappers

  datatype Digest =
    | OfCase(failureCase: FailureCase)
    | OfRca(rca: RcaBody)
    | OfGrant(grant: GrantBody)
    | OfPaths(paths: seq<string>)
    | OfContract
    | OfPathPolicy
    | OtherText(text: string)

  // ---------- Vocabularies ----------
  // Fields that the code compares with fixed words; anything else is one of the `Other` words.

  datatype Schema = IngestSchema | RcaSchema | GrantSchema | StateSchema | FeedbackSchema | OtherSchema(text: string)

  /** A classification, blanks stripped. */
  datatype Classification = CodeOrContract | ControlPlaneImplementation | Unclassified | OtherClass(text: string)

  datatype DomainName = ProductCode | ControlPlaneDomain | NoDomain | OtherDomain(text: string)

  /** A supplied repair domain: the name, and the blanks around it. */
  datatype DomainField = DomainField(name: DomainName, padding: string)

  datatype RepairClass = ControlPlaneRepairable | OtherRepairClass(text: string)

  datatype RouteFlag =
    | AutomaticWrite | TestWrite | AcceptanceWrite | OracleWrite | ExpandScope | MergeFlag | DeployFlag
      | ProductionClosed

  datatype LoopClass = ProductSourceFailure | ControlPlaneFailure | OtherLoopClass(text: string)

  datatype ScopeStatus =
    | Uncompiled | RcaRequired | RcaRequiredWithOracles | TestContractReview | NoRepairableSource | ScopeGranted

  datatype GovernedState = CaseWriteGranted | OtherGoverned(text: string)

  datatype RcaText =
    | FailureClassText | ViolatedInvariant | AuthorityOwner | DriftedProjection | RootCause | GateGap | PermanentGuard

  datatype LifecycleState =
    | Detected | EvidenceFrozen | RcaReadOnly | InvariantBound | RepairPlanFrozen | WriteGranted
      | OtherLifecycle(text: string)

  datatype Identity = ContractId | PathPolicyId | OtherId(text: string)

  datatype ScopeMode = ExactAllowlist | OtherMode(text: string)

  datatype Power =
    | WritePower | ScopePower | TestPower | WorkflowPower | GovernancePower | SkillPower | BaselinePower
      | DependencyPower
    | SecretPower | MergePower | DeployPower | ProductionPower | OtherPower(text: string)

  // ---------- Records ----------

  datatype Binding = Binding(repository: string, runId: string, runAttempt: string, headSha: string, signature: string)

  /** The semantic route of a control-plane failure; `flags` are its boolean fields. */
  datatype Route =
    | NoRoute
    | NotAMapping
    | Route(repairClass: RepairClass, repairDomain: DomainName, flags: map<RouteFlag, bool>, allowedPaths: seq<string>)

  datatype GateRow = NotAnObject | GateRow(gateId: string)

  /** What the outer loop adds to a failure case that it sends into another repair round. */
  datatype Feedback = Feedback(
    schema: Schema, repairRound: int, nextRepairRound: int, failureClass: LoopClass, repairDomain: DomainField,
    pathsDigest: Digest, scopeExpanded: Option<bool>, rest: string)

  datatype ScopeRecord = ScopeRecord(
    evidencePaths: seq<string>, writablePaths: seq<string>, oraclePaths: seq<string>, excludedPaths: seq<string>,
    status: ScopeStatus, grantedPaths: Option<seq<string>>)

  /** The fields the repair authority looks at; `rest` is everything else. */
  datatype FailureCase = FailureCase(
    schema: Schema, classification: Classification, suppliedDomain: DomainField, candidatePaths: seq<string>,
    changedFiles: Option<seq<string>>, route: Route, binding: Binding, failedGates: Option<seq<GateRow>>,
    feedback: Option<Feedback>, scope: Option<ScopeRecord>, governedState: GovernedState, rest: string)

  datatype Recommendation = Recommendation(decision: string, paths: seq<string>)

  /** A read-only root-cause analysis without its own digest; a plan step that is no string is absent. */
  datatype RcaBody = RcaBody(
    schema: Schema, readOnly: Option<bool>, workspaceMutated: Option<bool>, productionClosed: Option<bool>,
    domain: DomainName, binding: Option<Binding>, caseDigest: Digest, candidatePaths: seq<string>,
    texts: map<RcaText, string>, plan: Option<seq<Option<string>>>,
    recommendation: Option<Recommendation>, rest: string)

  datatype Rca = Rca(body: RcaBody, digest: Digest)

  /** A write grant without its own digest. */
  datatype GrantBody = GrantBody(
    schema: Schema, stateSchema: Schema, state: LifecycleState, stateHistory: seq<LifecycleState>, contractId: Identity,
    contractDigest: Digest, policyId: Identity, policyDigest: Digest, domain: DomainName, binding: Option<Binding>,
    caseDigest: Digest, rcaDigest: Digest, allowedPaths: seq<string>, guardIds: seq<string>, scopeMode: ScopeMode,
    authority: Option<map<Power, bool>>, productionClosed: Option<bool>, unchecked: Unchecked)

  /** The grant fields no validator reads. */
  datatype Unchecked = Unchecked(
    violatedInvariant: string, authorityOwner: string, driftedProjection: string, permanentGuard: string,
    plan: seq<Option<string>>, gateEvidence: seq<Digest>)

  datatype Grant = Grant(body: GrantBody, digest: Digest)
}
