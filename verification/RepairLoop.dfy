/** The durable outer Repair -> Verify loop (scripts/github_repair_loop_controller.py). */
module RepairLoop {
  import opened Wrappers

  const MAX_REPAIR_ROUNDS: nat := 8
  const STAGNATION_LIMIT: nat := 2
  const MAX_VALIDATION_RETRIES_PER_CANDIDATE: nat := 3

  datatype Domain = ProductCode | ControlPlane

  datatype FailureClass =
    | Passed
    | ProductFailure
    | ControlFailure
    | ContractReview
    | HarnessFailure
    | EnvironmentFailure
    | TransientInfra
    | UnknownFailure

  predicate Repairable(c: FailureClass) {
    c == ProductFailure || c == ControlFailure
  }

  predicate Retryable(c: FailureClass) {
    c == EnvironmentFailure || c == TransientInfra
  }

  // ---------- Typed classification of an independent validation failure ----------

  datatype Row = Row(controlComponent: bool, timedOut: bool, exitCode: int, passed: bool)

  /** What the combined output of some rows says; which words say it is immaterial here. */
  datatype Scan = Scan(environmentTerm: bool, harnessTerm: bool, namedPaths: seq<string>,
                       testEvidence: bool, assertionTerm: bool)

  datatype Context = Targeted | CompleteQuick

  /** The immutable Stage-1 authority: its domain and its candidate paths. */
  datatype Original = Original(domain: Domain, candidates: seq<string>)

  datatype Verdict = Verdict(failure: FailureClass, paths: seq<string>)

  function Named(found: seq<string>, allowed: seq<string>): (paths: seq<string>)
    ensures forall p :: p in paths <==> p in found && p in allowed
  {
    if found == [] then
      []
    else
      var n := |found| - 1;
      var front := Named(found[..n], allowed);
      if found[n] in allowed && found[n] !in front then front + [found[n]] else front
  }

  function ClassifyRows(rows: seq<Row>, scan: Scan, original: Original, context: Context): Verdict {
    if exists r :: r in rows && (r.timedOut || r.exitCode == 124) then
      Verdict(TransientInfra, [])
    else if scan.environmentTerm then
      Verdict(EnvironmentFailure, [])
    else if scan.harnessTerm then
      Verdict(HarnessFailure, [])
    else
      var named := Named(scan.namedPaths, original.candidates);
      if named != [] then
        Verdict(if original.domain == ControlPlane then ControlFailure else ProductFailure, named)
      else if original.domain == ControlPlane && context == Targeted && scan.testEvidence && scan.assertionTerm
              && (exists r :: r in rows && r.controlComponent && !r.passed) then
        Verdict(ControlFailure, original.candidates)
      else if scan.testEvidence && scan.assertionTerm then
        Verdict(ContractReview, [])
      else
        Verdict(UnknownFailure, [])
  }

  datatype TargetedStatus = TargetedPassed | TargetedFailed | TargetedIncomplete

  datatype TargetedResult = TargetedResult(status: TargetedStatus, rows: seq<Row>, scan: Scan)

  datatype QuickSummary = QuickSummary(
    completePass: bool,     // quick verification, decision PASS, CI_VERIFIED and completion eligible
    environmentBlocked: bool, failedRows: seq<Row>, scan: Scan)

  function ClassifyIndependent(targeted: TargetedResult, quick: Option<QuickSummary>, original: Original): Verdict {
    match targeted.status
    case TargetedIncomplete => Verdict(HarnessFailure, [])
    case TargetedFailed => ClassifyRows(targeted.rows, targeted.scan, original, Targeted)
    case TargetedPassed =>
      match quick
      case None => Verdict(HarnessFailure, [])
      case Some(q) =>
        if q.completePass then
          Verdict(Passed, [])
        else if q.environmentBlocked then
          Verdict(EnvironmentFailure, [])
        else if q.failedRows == [] then
          Verdict(HarnessFailure, [])
        else
          ClassifyRows(q.failedRows, q.scan, original, CompleteQuick)
  }

  /** A verdict is a pass exactly on complete evidence, and a repairable verdict always names some
      paths, all inside the original authority and of its domain. */
  lemma {:induction false} ClassificationStaysInAuthority(targeted: TargetedResult, quick: Option<QuickSummary>,
      original: Original)
    requires original.candidates != []
    ensures var v := ClassifyIndependent(targeted, quick, original);
            && (v.failure == Passed <==> targeted.status == TargetedPassed && quick.Some? && quick.value.completePass)
            && (Repairable(v.failure) <==> v.paths != [])
            && (forall p :: p in v.paths ==> p in original.candidates)
            && (v.failure == ProductFailure ==> original.domain == ProductCode)
            && (v.failure == ControlFailure ==> original.domain == ControlPlane)
    ensures var failure, judged := ClassifyIndependent(targeted, quick, original).failure, Judged(targeted, quick);
            && (failure == TransientInfra <==> judged.Some? && TimedOut(judged.value))
            && (failure == EnvironmentFailure <==>
                  || QuickBlocked(targeted, quick)
                  || (judged.Some? && !TimedOut(judged.value) && judged.value.scan.environmentTerm))
            && (failure == HarnessFailure <==>
                  || Incomplete(targeted, quick)
                  || (&& judged.Some? && !TimedOut(judged.value) && !judged.value.scan.environmentTerm
                      && judged.value.scan.harnessTerm))
  {
    ClassExactly(targeted, quick, original);
  }

  // ---------- The classes, evidence by evidence ----------

  datatype Evidence = Evidence(rows: seq<Row>, scan: Scan, context: Context)

  /** The evidence a failed verification is judged by. */
  function Judged(targeted: TargetedResult, quick: Option<QuickSummary>): Option<Evidence> {
    if targeted.status == TargetedFailed then Some(Evidence(targeted.rows, targeted.scan, Targeted))
    else if targeted.status == TargetedPassed && quick.Some? && !quick.value.completePass
            && !quick.value.environmentBlocked && quick.value.failedRows != [] then
      Some(Evidence(quick.value.failedRows, quick.value.scan, CompleteQuick))
    else None
  }

  /** There is no verdict to judge: none was completed, or Quick passed in no way and failed no gate. */
  predicate Incomplete(targeted: TargetedResult, quick: Option<QuickSummary>) {
    || targeted.status == TargetedIncomplete
    || (&& targeted.status == TargetedPassed
        && (quick.None? || (!quick.value.completePass && !quick.value.environmentBlocked
                            && quick.value.failedRows == [])))
  }

  /** Targeted validation passed, and the environment kept Quick from passing. */
  predicate QuickBlocked(targeted: TargetedResult, quick: Option<QuickSummary>) {
    targeted.status == TargetedPassed && quick.Some? && !quick.value.completePass && quick.value.environmentBlocked
  }

  predicate TimedOut(e: Evidence) {
    exists r :: r in e.rows && (r.timedOut || r.exitCode == 124)
  }

  /** Nothing outside the repaired source explains the failure. */
  predicate Own(e: Evidence) {
    !TimedOut(e) && !e.scan.environmentTerm && !e.scan.harnessTerm
  }

  /** The output names a path of the original authority. */
  predicate NamesSource(e: Evidence, original: Original) {
    exists p :: p in e.scan.namedPaths && p in original.candidates
  }

  predicate AssertionFailed(e: Evidence) {
    e.scan.testEvidence && e.scan.assertionTerm
  }

  predicate ControlComponentFailed(e: Evidence) {
    e.context == Targeted && exists r :: r in e.rows && r.controlComponent && !r.passed
  }

  /** Which evidence has which class, class by class. */
  lemma {:induction false} ClassExactly(targeted: TargetedResult, quick: Option<QuickSummary>, original: Original)
    ensures var failure, judged := ClassifyIndependent(targeted, quick, original).failure, Judged(targeted, quick);
            && (failure == Passed <==> targeted.status == TargetedPassed && quick.Some? && quick.value.completePass)
            && (failure == TransientInfra <==> judged.Some? && TimedOut(judged.value))
            && (failure == EnvironmentFailure <==>
                  || QuickBlocked(targeted, quick)
                  || (judged.Some? && !TimedOut(judged.value) && judged.value.scan.environmentTerm))
            && (failure == HarnessFailure <==>
                  || Incomplete(targeted, quick)
                  || (&& judged.Some? && !TimedOut(judged.value) && !judged.value.scan.environmentTerm
                      && judged.value.scan.harnessTerm))
            && (failure == ProductFailure <==>
                  judged.Some? && Own(judged.value) && original.domain == ProductCode
                    && NamesSource(judged.value, original))
            && (failure == ControlFailure <==>
                  && judged.Some? && Own(judged.value) && original.domain == ControlPlane
                  && (NamesSource(judged.value, original)
                      || (AssertionFailed(judged.value) && ControlComponentFailed(judged.value))))
            && (failure == ContractReview <==>
                  && judged.Some? && Own(judged.value) && !NamesSource(judged.value, original)
                  && AssertionFailed(judged.value)
                  && (original.domain == ControlPlane ==> !ControlComponentFailed(judged.value)))
            && (failure == UnknownFailure <==>
                  judged.Some? && Own(judged.value) && !NamesSource(judged.value, original)
                    && !AssertionFailed(judged.value))
  {
    if targeted.status == TargetedFailed {
      NamedExactly(targeted.scan.namedPaths, original);
    } else if targeted.status == TargetedPassed && quick.Some? {
      NamedExactly(quick.value.scan.namedPaths, original);
    }
  }

  lemma {:induction false} NamedExactly(found: seq<string>, original: Original)
    ensures Named(found, original.candidates) != [] <==> exists p :: p in found && p in original.candidates
  {
    if p :| p in found && p in original.candidates {
      assert p in Named(found, original.candidates);
    }
    if Named(found, original.candidates) != [] {
      assert Named(found, original.candidates)[0] in Named(found, original.candidates);
    }
  }

  /** What a repair is to write: the named paths of the authority, or all of it when a control-plane
      verifier failed that names none. */
  lemma {:induction false} RepairPathsExactly(targeted: TargetedResult, quick: Option<QuickSummary>, original: Original)
    requires Repairable(ClassifyIndependent(targeted, quick, original).failure)
    ensures var paths, e := ClassifyIndependent(targeted, quick, original).paths, Judged(targeted, quick).value;
            if NamesSource(e, original) then forall p :: p in paths <==>
              p in e.scan.namedPaths && p in original.candidates
            else paths == original.candidates
  {
    ClassExactly(targeted, quick, original);
    NamedExactly(Judged(targeted, quick).value.scan.namedPaths, original);
  }

  /** The named paths come once each, in the order in which they are first named. */
  lemma {:induction false} NamedInOrder(found: seq<string>, allowed: seq<string>, i: nat, j: nat)
    requires i < j < |Named(found, allowed)|
    ensures Named(found, allowed)[i] != Named(found, allowed)[j]
    ensures exists k ::
              && 0 <= k < |found| && found[k] == Named(found, allowed)[i]
              && Named(found, allowed)[j] !in found[..k]
  {
    var n := |found| - 1;
    var front := Named(found[..n], allowed);
    if j < |front| {
      NamedInOrder(found[..n], allowed, i, j);
      var k :| 0 <= k < n && found[..n][k] == front[i] && front[j] !in found[..n][..k];
      assert found[..n][..k] == found[..k];
    } else {
      assert front[i] in front;
      var k :| 0 <= k < n && found[k] == front[i];
      assert forall p :: p in found[..k] ==> p in found[..n];
      assert found[n] in allowed && found[n] !in front;
    }
  }

  // ---------- The loop state and its router ----------

  datatype Event = Event(runId: string, attempt: nat)

  datatype Continuation = Continuation(id: string, maxRounds: nat, maxRetries: nat) {
    predicate Valid() {
      1 <= maxRounds <= MAX_REPAIR_ROUNDS && 1 <= maxRetries <= MAX_VALIDATION_RETRIES_PER_CANDIDATE
    }
  }

  datatype Action =
    | DispatchRepair
    | RetryValidation
    | StopMaxRounds
    | ArchitectureReplan
    | ReviewContract
    | PublisherRepair
    | HarnessRepair
    | RetryExhausted
    | StopUnknown
    | NoopDuplicate

  datatype LoopState = LoopState(
    event: Event, candidate: string, round: nat, maxRounds: nat, nextRound: Option<nat>, attempt: nat,
    verdict: Verdict, fingerprint: string, stagnant: nat, retries: nat, maxRetries: nat,
    action: Action, continuation: Option<Continuation>)

  /** The loop record in the durable TaskRun metadata. */
  datatype Meta = Meta(round: nat, attempt: nat, maxRounds: nat, maxRetries: nat, continuation: Option<Continuation>)

  /** One finished independent verification: its evidence, already classified. */
  datatype Verification = Verification(
    event: Event, candidate: string, stage2Round: nat, continuation: Option<Continuation>,
    verdict: Verdict, fingerprint: string, receipt: bool)

  datatype LoopError =
    | ContinuationBudgetDrift
    | ContinuationConflict
    | ContinuationDisappeared
    | ContinuationAppeared
    | ContinuationChanged
    | RoundOverBudget
    | ControlScopeChanged

  function PriorContinuation(previous: Option<LoopState>, meta: Option<Meta>): Option<Continuation> {
    if meta.Some? && meta.value.continuation.Some? then meta.value.continuation
    else if previous.Some? then previous.value.continuation
    else None
  }

  predicate BudgetBound(continuation: Option<Continuation>, maxRounds: nat, maxRetries: nat) {
    continuation.Some? ==> maxRounds == continuation.value.maxRounds && maxRetries == continuation.value.maxRetries
  }

  /** The owner's autonomy continuation must be there from the first round on and never change. */
  function ResolveContinuation(previous: Option<LoopState>, meta: Option<Meta>, raw: Option<Continuation>)
    : Result<Option<Continuation>, LoopError>
  {
    if previous.Some? && !BudgetBound(previous.value.continuation, previous.value.maxRounds,
                                      previous.value.maxRetries) then
      Failure(ContinuationBudgetDrift)
    else if meta.Some? && !BudgetBound(meta.value.continuation, meta.value.maxRounds, meta.value.maxRetries) then
      Failure(ContinuationBudgetDrift)
    else if previous.Some? && meta.Some? && previous.value.continuation.Some? && meta.value.continuation.Some?
            && previous.value.continuation != meta.value.continuation then
      Failure(ContinuationConflict)
    else
      var prior := PriorContinuation(previous, meta);
      if raw.None? then
        if prior.Some? then Failure(ContinuationDisappeared) else Success(None)
      else if previous.Some? || meta.Some? then
        if prior.None? then Failure(ContinuationAppeared)
        else if prior != raw then Failure(ContinuationChanged)
        else Success(raw)
      else
        Success(raw)
  }

  function Max(a: nat, b: nat): nat {
    if a < b then b else a
  }

  function RoundOf(previous: Option<LoopState>, meta: Option<Meta>, v: Verification): nat {
    Max(1, Max(if previous.Some? then previous.value.round else 0,
               Max(if meta.Some? then meta.value.round else 0, v.stage2Round)))
  }

  function MaxRoundsOf(previous: Option<LoopState>, continuation: Option<Continuation>): nat {
    if continuation.Some? then
      continuation.value.maxRounds
    else if previous.Some? && 0 < previous.value.maxRounds < MAX_REPAIR_ROUNDS then
      previous.value.maxRounds
    else
      MAX_REPAIR_ROUNDS
  }

  /** The previous verdict of a smaller round was this same repairable verdict. */
  predicate Repeats(previous: Option<LoopState>, v: Verification, round: nat) {
    && previous.Some?
    && Repairable(v.verdict.failure)
    && previous.value.verdict.failure == v.verdict.failure
    && previous.value.fingerprint == v.fingerprint
    && previous.value.round < round
  }

  function StagnantOf(previous: Option<LoopState>, v: Verification, round: nat): nat {
    var before := if previous.Some? then previous.value.stagnant else 0;
    if Repeats(previous, v, round) then before + 1
    else if Repairable(v.verdict.failure) then 0
    else before
  }

  function RetriesOf(previous: Option<LoopState>, v: Verification): nat {
    if !Retryable(v.verdict.failure) then 0
    else if previous.Some? && previous.value.candidate == v.candidate then previous.value.retries + 1
    else 1
  }

  function ActionOf(v: Verification, round: nat, maxRounds: nat, stagnant: nat, retries: nat, maxRetries: nat): Action {
    match v.verdict.failure
    case Passed => if v.receipt then PublisherRepair else HarnessRepair
    case ContractReview => ReviewContract
    case HarnessFailure => HarnessRepair
    case UnknownFailure => StopUnknown
    case EnvironmentFailure => if retries > maxRetries then RetryExhausted else RetryValidation
    case TransientInfra => if retries > maxRetries then RetryExhausted else RetryValidation
    case _ =>
      if round >= maxRounds then StopMaxRounds
      else if stagnant >= STAGNATION_LIMIT then ArchitectureReplan
      else if v.verdict.paths == [] then ReviewContract
      else DispatchRepair
  }

  /** The state after one verification that is not a duplicate delivery. */
  function Route(previous: Option<LoopState>, meta: Option<Meta>, original: Original, v: Verification)
    : Result<LoopState, LoopError>
  {
    match ResolveContinuation(previous, meta, v.continuation)
    case Failure(e) => Failure(e)
    case Success(continuation) =>
      var round := RoundOf(previous, meta, v);
      var maxRounds := MaxRoundsOf(previous, continuation);
      var maxRetries :=
        if continuation.Some? then continuation.value.maxRetries else MAX_VALIDATION_RETRIES_PER_CANDIDATE;
      if continuation.Some? && round > maxRounds then
        Failure(RoundOverBudget)
      else
        var attempt := Max(Max(if previous.Some? then previous.value.attempt else 0,
                               if meta.Some? then meta.value.attempt else 0) + 1, v.event.attempt);
        var stagnant := StagnantOf(previous, v, round);
        var retries := RetriesOf(previous, v);
        var action := ActionOf(v, round, maxRounds, stagnant, retries, maxRetries);
        if action == DispatchRepair && original.domain == ControlPlane && v.verdict.paths != original.candidates then
          Failure(ControlScopeChanged)
        else
          Success(LoopState(v.event, v.candidate, round, maxRounds,
                            if action == DispatchRepair then Some(round + 1) else None, attempt,
                            v.verdict, v.fingerprint, stagnant, retries, maxRetries, action, continuation))
  }

  /** The action of every routed verification, action by action. */
  lemma {:induction false} ActionExactly(previous: Option<LoopState>, meta: Option<Meta>, original: Original,
      v: Verification)
    requires Route(previous, meta, original, v).Success?
    ensures var t, failure := Route(previous, meta, original, v).value, v.verdict.failure;
            && (t.action == RetryValidation <==>
                  (failure == EnvironmentFailure || failure == TransientInfra) && t.retries <= t.maxRetries)
            && (t.action == RetryExhausted <==>
                  (failure == EnvironmentFailure || failure == TransientInfra) && t.retries > t.maxRetries)
            && (t.action == PublisherRepair <==> failure == Passed && v.receipt)
            && (t.action == HarnessRepair <==> failure == HarnessFailure || (failure == Passed && !v.receipt))
            && (t.action == StopUnknown <==> failure == UnknownFailure)
            && (t.action == StopMaxRounds <==> Repairable(failure) && t.round >= t.maxRounds)
            && (t.action == ArchitectureReplan <==> Repairable(failure) && t.round < t.maxRounds && t.stagnant >= 2)
            && (t.action == ReviewContract <==>
                  || failure == ContractReview
                  || (Repairable(failure) && t.round < t.maxRounds && t.stagnant < 2 && v.verdict.paths == []))
            && (t.action == DispatchRepair <==>
                  Repairable(failure) && t.round < t.maxRounds && t.stagnant < 2 && v.verdict.paths != [])
            && t.nextRound == (if t.action == DispatchRepair then Some(t.round + 1) else None)
  {
    hide ResolveContinuation, RoundOf, MaxRoundsOf, StagnantOf, RetriesOf;
  }

  /** From evidence to action: what is retried, what stops, what goes to review, and what is repaired. */
  lemma {:induction false} EvidenceIsRouted(
    previous: Option<LoopState>, meta: Option<Meta>, original: Original, v: Verification, targeted: TargetedResult,
    quick: Option<QuickSummary>)
    requires v.verdict == ClassifyIndependent(targeted, quick, original) && original.candidates != []
    requires Route(previous, meta, original, v).Success?
    ensures var t, judged := Route(previous, meta, original, v).value, Judged(targeted, quick);
            var external := QuickBlocked(targeted, quick)
                            || (judged.Some? && (TimedOut(judged.value) || judged.value.scan.environmentTerm));
            && (t.action in {RetryValidation, RetryExhausted} <==> external)
            && (t.action == RetryValidation ==> t.retries <= t.maxRetries)
            && (t.action == RetryExhausted ==> t.retries > t.maxRetries)
            && (t.action in {PublisherRepair, HarnessRepair} <==>
                  || (targeted.status == TargetedPassed && quick.Some? && quick.value.completePass)
                  || Incomplete(targeted, quick)
                  || (judged.Some? && !external && judged.value.scan.harnessTerm))
            && (t.action == StopUnknown <==>
                  judged.Some? && Own(judged.value) && !NamesSource(judged.value, original)
                    && !AssertionFailed(judged.value))
            && (t.action == ReviewContract <==>
                  && judged.Some? && Own(judged.value) && !NamesSource(judged.value, original)
                  && AssertionFailed(judged.value)
                  && (original.domain == ControlPlane ==> !ControlComponentFailed(judged.value)))
            && (t.action in {StopMaxRounds, ArchitectureReplan, DispatchRepair} <==>
                  && judged.Some? && Own(judged.value)
                  && (NamesSource(judged.value, original)
                      || (&& original.domain == ControlPlane && AssertionFailed(judged.value)
                          && ControlComponentFailed(judged.value))))
  {
    hide Route, ClassifyIndependent, Judged, TimedOut, NamesSource, AssertionFailed, ControlComponentFailed;
    ClassificationStaysInAuthority(targeted, quick, original);
    ClassExactly(targeted, quick, original);
    ActionExactly(previous, meta, original, v);
    OnlyJudged(targeted, quick);
  }

  lemma {:induction false} OnlyJudged(targeted: TargetedResult, quick: Option<QuickSummary>)
    ensures Judged(targeted, quick).Some? ==> !QuickBlocked(targeted, quick) && !Incomplete(targeted, quick)
  {
  }

  /** The round never goes back and is the first or one that was recorded or noted before; the attempt
      is new; the budgets are the owner's, or the fixed ones. */
  lemma {:induction false} CountersMeaning(previous: Option<LoopState>, meta: Option<Meta>, original: Original,
      v: Verification)
    requires Route(previous, meta, original, v).Success?
    ensures var t := Route(previous, meta, original, v).value;
            && t.round >= 1 && t.round >= v.stage2Round && (previous.Some? ==> t.round >= previous.value.round)
            && (meta.Some? ==> t.round >= meta.value.round)
            && (|| t.round == 1 || t.round == v.stage2Round || (previous.Some? && t.round == previous.value.round)
                || (meta.Some? && t.round == meta.value.round))
            && t.attempt >= 1 && t.attempt >= v.event.attempt
            && (previous.Some? ==> t.attempt > previous.value.attempt)
               && (meta.Some? ==> t.attempt > meta.value.attempt)
            && (|| t.attempt == 1 || t.attempt == v.event.attempt
                || (previous.Some? && t.attempt == previous.value.attempt + 1)
                || (meta.Some? && t.attempt == meta.value.attempt + 1))
            && t.continuation == v.continuation
            && (v.continuation.Some? ==>
                  && t.maxRounds == v.continuation.value.maxRounds && t.maxRetries == v.continuation.value.maxRetries
                  && t.round <= t.maxRounds)
            && (v.continuation.None? ==>
                  && 1 <= t.maxRounds <= 8 && t.maxRetries == 3
                  && (previous.None? ==> t.maxRounds == 8)
                  && (previous.Some? && 1 <= previous.value.maxRounds <= 8 ==> t.maxRounds == previous.value.maxRounds))
            && t.event == v.event && t.candidate == v.candidate && t.verdict == v.verdict
               && t.fingerprint == v.fingerprint
  {
    hide ActionOf, StagnantOf, RetriesOf;
  }

  /** A verification is routed exactly when its continuation is the one both records have, the budgets in
      the records are those of their continuations, the round is inside the owner's budget, and a
      control-plane repair is about the whole authority. */
  lemma {:induction false} RoutedExactly(previous: Option<LoopState>, meta: Option<Meta>, original: Original,
      v: Verification)
    ensures Route(previous, meta, original, v).Success? <==>
              && (previous.Some? ==> BudgetBound(previous.value.continuation, previous.value.maxRounds,
                                                 previous.value.maxRetries))
              && (meta.Some? ==> BudgetBound(meta.value.continuation, meta.value.maxRounds, meta.value.maxRetries))
              && (previous.Some? && previous.value.continuation.Some? ==> previous.value.continuation == v.continuation)
              && (meta.Some? && meta.value.continuation.Some? ==> meta.value.continuation == v.continuation)
              && (v.continuation.Some? && (previous.Some? || meta.Some?) ==>
                    || (previous.Some? && previous.value.continuation.Some?)
                    || (meta.Some? && meta.value.continuation.Some?))
              && (v.continuation.Some? ==> RoundOf(previous, meta, v) <= v.continuation.value.maxRounds)
              && (original.domain == ControlPlane && WouldDispatch(previous, meta, v) ==>
                  v.verdict.paths == original.candidates)
  {
    hide StagnantOf, RetriesOf, RoundOf;
  }

  /** The verdict is repairable, names paths, and neither budget nor stagnation stops it. */
  predicate WouldDispatch(previous: Option<LoopState>, meta: Option<Meta>, v: Verification) {
    && Repairable(v.verdict.failure) && v.verdict.paths != []
    && RoundOf(previous, meta, v) < MaxRoundsOf(previous, v.continuation)
    && StagnantOf(previous, v, RoundOf(previous, meta, v)) < STAGNATION_LIMIT
  }

  // ---------- The controller object ----------

  datatype TaskStatus = Validating | FailedRecoverable | TaskBlocked

  /** The controller over its two durable records: the loop-state artifact and the TaskRun metadata. */
  class Controller {
    const original: Original
    var previous: Option<LoopState>
    var meta: Option<Meta>
    var status: TaskStatus

    constructor (original: Original)
      ensures this.original == original && previous == None && meta == None && status == Validating
    {
      this.original, previous, meta, status := original, None, None, Validating;
    }

    /** The stagnation and same-candidate retry counters after this verification. */
    method Count(v: Verification, round: nat) returns (stagnant: nat, retries: nat)
      ensures stagnant == StagnantOf(previous, v, round) && retries == RetriesOf(previous, v)
    {
      stagnant, retries := 0, 0;
      if previous.Some? {
        stagnant := previous.value.stagnant;
      }
      if Repeats(previous, v, round) {
        stagnant := stagnant + 1;
      } else if Repairable(v.verdict.failure) {
        stagnant := 0;
      }
      if Retryable(v.verdict.failure) {
        if previous.Some? && previous.value.candidate == v.candidate {
          retries := previous.value.retries;
        }
        retries := retries + 1;
      }
    }

    /** The router's chain of cases. */
    method Decide(v: Verification, round: nat, maxRounds: nat, stagnant: nat, retries: nat, maxRetries: nat)
      returns (action: Action)
      ensures action == ActionOf(v, round, maxRounds, stagnant, retries, maxRetries)
    {
      action := StopUnknown;
      if v.verdict.failure == Passed {
        action := if v.receipt then PublisherRepair else HarnessRepair;
      } else if Repairable(v.verdict.failure) {
        if round >= maxRounds {
          action := StopMaxRounds;
        } else if stagnant >= STAGNATION_LIMIT {
          action := ArchitectureReplan;
        } else if v.verdict.paths == [] {
          action := ReviewContract;
        } else {
          action := DispatchRepair;
        }
      } else if v.verdict.failure == ContractReview {
        action := ReviewContract;
      } else if v.verdict.failure == HarnessFailure {
        action := HarnessRepair;
      } else if Retryable(v.verdict.failure) {
        action := if retries > maxRetries then RetryExhausted else RetryValidation;
      }
    }

    /** Handles the delivery of one verification result. A redelivery of the last event changes no
        counter; any other delivery moves the loop to its routed state, or nothing at all. */
    method RouteFailure(v: Verification) returns (r: Result<LoopState, LoopError>)
      modifies this
      ensures var duplicate := old(previous.Some? && previous.value.event == v.event);
              var resolved := ResolveContinuation(old(previous), old(meta), v.continuation);
              if resolved.Failure? then
                r == Failure(resolved.error) && unchanged(this)
              else if duplicate then
                r == Success(old(previous).value.(action := NoopDuplicate)) &&
                previous == Some(r.value) && unchanged(`meta) && unchanged(`status)
              else
                r == Route(old(previous), old(meta), original, v) &&
                if r.Failure? then
                  unchanged(this)
                else
                  previous == Some(r.value) && meta == Some(MetaOf(r.value)) &&
                  status == if r.value.action in {DispatchRepair, RetryValidation} then FailedRecoverable
                    else TaskBlocked
    {
      hide ResolveContinuation, ActionOf, StagnantOf, RetriesOf;
      var resolved := ResolveContinuation(previous, meta, v.continuation);
      if resolved.Failure? {
        return Failure(resolved.error);
      }
      var continuation := resolved.value;
      if previous.Some? && previous.value.event == v.event {
        previous := Some(previous.value.(action := NoopDuplicate));
        return Success(previous.value);
      }
      var round := RoundOf(previous, meta, v);
      var maxRounds, maxRetries := MaxRoundsOf(previous, None), MAX_VALIDATION_RETRIES_PER_CANDIDATE;
      if continuation.Some? {
        maxRounds, maxRetries := continuation.value.maxRounds, continuation.value.maxRetries;
        if round > maxRounds {
          return Failure(RoundOverBudget);
        }
      }
      var attempt := if previous.Some? then previous.value.attempt else 0;
      if meta.Some? && meta.value.attempt > attempt {
        attempt := meta.value.attempt;
      }
      attempt := attempt + 1;
      if v.event.attempt > attempt {
        attempt := v.event.attempt;
      }

      var stagnant, retries := Count(v, round);
      var action := Decide(v, round, maxRounds, stagnant, retries, maxRetries);
      if action == DispatchRepair && original.domain == ControlPlane && v.verdict.paths != original.candidates {
        return Failure(ControlScopeChanged);
      }
      var nextRound := if action == DispatchRepair then Some(round + 1) else None;
      var nextStatus := if action in {DispatchRepair, RetryValidation} then FailedRecoverable else TaskBlocked;
      var state := LoopState(v.event, v.candidate, round, maxRounds, nextRound, attempt, v.verdict, v.fingerprint,
                             stagnant, retries, maxRetries, action, continuation);
      previous, meta, status := Some(state), Some(MetaOf(state)), nextStatus;
      return Success(state);
    }
  }

  function MetaOf(s: LoopState): Meta {
    Meta(s.round, s.attempt, s.maxRounds, s.maxRetries, s.continuation)
  }

  // ---------- Chained runs of the loop ----------

  /** The loop goes on after this state. */
  predicate Continues(s: LoopState) {
    s.action == DispatchRepair || s.action == RetryValidation
  }

  /** The round the next verification belongs to. */
  function Pending(s: LoopState): nat {
    if s.nextRound.Some? then s.nextRound.value else s.round
  }

  predicate RouterShape(s: LoopState) {
    && 1 <= s.round
    && 1 <= s.maxRounds <= MAX_REPAIR_ROUNDS && 1 <= s.maxRetries <= MAX_VALIDATION_RETRIES_PER_CANDIDATE
    && (s.nextRound.Some? <==> s.action == DispatchRepair)
    && (s.action == DispatchRepair ==> s.nextRound == Some(s.round + 1) && s.round < s.maxRounds && s.retries == 0)
    && (s.action == RetryValidation ==> 1 <= s.retries <= s.maxRetries)
    && (s.retries > 0 <==> Retryable(s.verdict.failure))
    && BudgetBound(s.continuation, s.maxRounds, s.maxRetries)
    && (s.continuation.None? ==> s.maxRetries == MAX_VALIDATION_RETRIES_PER_CANDIDATE)
  }

  predicate ValidBudget(v: Verification) {
    v.continuation.Some? ==> v.continuation.value.Valid()
  }

  lemma {:induction false} RouteShape(previous: Option<LoopState>, meta: Option<Meta>, original: Original,
      v: Verification)
    requires ValidBudget(v) && Route(previous, meta, original, v).Success?
    ensures RouterShape(Route(previous, meta, original, v).value)
  {
  }

  /** The record the next verification finds: the TaskRun of this state, its round possibly already
      raised by Stage 2 to the dispatched one. */
  predicate CarriesOver(s: LoopState, meta: Meta) {
    && s.round <= meta.round <= Pending(s)
    && meta.continuation == s.continuation
  }

  /** The next verification is chained to this state: a dispatch is verified at its own round, a retry
      keeps round and candidate. */
  predicate Chained(s: LoopState, meta: Meta, v: Verification) {
    && CarriesOver(s, meta)
    && ValidBudget(v)
    && v.event != s.event
    && v.stage2Round == Pending(s)
    && (s.action == RetryValidation ==> v.candidate == s.candidate)
  }

  ghost predicate ChainStep(original: Original, s: LoopState, t: LoopState) {
    Continues(s) && exists meta, v :: Chained(s, meta, v) && Route(Some(s), Some(meta), original, v) == Success(t)
  }

  ghost predicate FirstState(original: Original, s: LoopState) {
    exists meta: Option<Meta>, v :: ValidBudget(v) && Route(None, meta, original, v) == Success(s)
  }

  ghost predicate IsChain(original: Original, run: seq<LoopState>) {
    && run != [] && FirstState(original, run[0])
    && forall i :: 0 <= i < |run| - 1 ==> ChainStep(original, run[i], run[i + 1])
  }

  /** (rounds left, retries left), both counted from the budgets of the loop. */
  predicate MeasureDecreases(s: LoopState, t: LoopState) {
    Pending(s) < Pending(t) || (Pending(s) == Pending(t) && s.retries < t.retries)
  }

  /** When a step that goes on makes progress, for every step of the router, chained or not: unless a
      dispatch is verified again at its old round, or a retry of the same round changes the candidate. */
  lemma {:induction false} ProgressExactly(s: LoopState, meta: Option<Meta>, original: Original, v: Verification)
    requires RouterShape(s) && Continues(s) && ValidBudget(v)
    requires Route(Some(s), meta, original, v).Success? && Continues(Route(Some(s), meta, original, v).value)
    ensures var t := Route(Some(s), meta, original, v).value;
            MeasureDecreases(s, t) <==>
              (t.round > Pending(s) ||
               (t.round == Pending(s) &&
                (t.action == DispatchRepair || s.action == DispatchRepair || v.candidate == s.candidate)))
  {
    RouteShape(Some(s), meta, original, v);
  }

  lemma {:induction false} ChainStepFacts(original: Original, s: LoopState, t: LoopState)
    requires RouterShape(s) && ChainStep(original, s, t)
    ensures RouterShape(t) && t.round == Pending(s) && s.attempt < t.attempt
    ensures t.continuation == s.continuation && t.maxRounds == s.maxRounds && t.maxRetries == s.maxRetries
    ensures Continues(t) ==> MeasureDecreases(s, t)
  {
    var meta, v :| Chained(s, meta, v) && Route(Some(s), Some(meta), original, v) == Success(t);
    RouteShape(Some(s), Some(meta), original, v);
    if Continues(t) {
      ProgressExactly(s, Some(meta), original, v);
    }
  }

  lemma {:induction false} ChainShape(original: Original, run: seq<LoopState>, i: nat)
    requires IsChain(original, run) && i < |run|
    ensures RouterShape(run[i])
    ensures run[i].maxRounds == run[0].maxRounds && run[i].maxRetries == run[0].maxRetries
  {
    if i == 0 {
      var meta: Option<Meta>, v :| ValidBudget(v) && Route(None, meta, original, v) == Success(run[0]);
      RouteShape(None, meta, original, v);
    } else {
      ChainShape(original, run, i - 1);
      var s, t := run[i - 1], run[i - 1 + 1];
      assert ChainStep(original, s, t);
      ChainStepFacts(original, s, t);
    }
  }

  /** The measure as one number. */
  function Rank(s: LoopState): int
    requires s.retries <= s.maxRetries
  {
    (if Pending(s) < s.maxRounds then s.maxRounds - Pending(s) else 0) * (s.maxRetries + 1) + s.maxRetries - s.retries
  }

  lemma {:induction false} Scale(a: nat, b: nat, k: nat)
    requires a < b
    ensures a * k + k <= b * k
    decreases b
  {
    if a + 1 < b {
      Scale(a, b - 1, k);
    }
  }

  lemma {:induction false} RankDecreases(s: LoopState, t: LoopState)
    requires RouterShape(s) && RouterShape(t) && Continues(s) && Continues(t)
    requires t.maxRounds == s.maxRounds && t.maxRetries == s.maxRetries
    requires t.round == Pending(s) && MeasureDecreases(s, t)
    ensures 0 <= Rank(t) < Rank(s)
  {
    var m, k := s.maxRounds, s.maxRetries + 1;
    var a := if Pending(s) < m then m - Pending(s) else 0;
    var b := if Pending(t) < m then m - Pending(t) else 0;
    assert 0 <= b * k;
    if b < a {
      Scale(b, a, k);
    } else {
      assert a == b;
    }
  }

  /** A chained loop is over after at most maxRounds * (maxRetries + 1) verifications: never more than 32. */
  lemma {:induction false} LoopEnds(original: Original, run: seq<LoopState>)
    requires IsChain(original, run)
    ensures |run| <= run[0].maxRounds * (run[0].maxRetries + 1) <= 32
  {
    ChainShape(original, run, 0);
    var m, k := run[0].maxRounds, run[0].maxRetries + 1;
    Product(m, k);
    if |run| > 1 {
      RankBounds(original, run, |run| - 2);
      assert Continues(run[0]) by {
        assert ChainStep(original, run[0], run[0 + 1]);
      }
      FirstRank(run[0]);
    } else {
      Product2(m, k);
    }
  }

  lemma {:induction false} Product(m: nat, k: nat)
    requires 1 <= m <= 8 && 1 <= k <= 4
    ensures m * k <= 32
  {
    assert m * k <= 8 * k;
  }

  lemma {:induction false} Product2(m: nat, k: nat)
    requires 1 <= m && 1 <= k
    ensures 1 <= m * k
  {
  }

  lemma {:induction false} FirstRank(s: LoopState)
    requires RouterShape(s) && Continues(s)
    ensures Rank(s) <= s.maxRounds * (s.maxRetries + 1) - 2
  {
    var m, k := s.maxRounds, s.maxRetries + 1;
    var a := if Pending(s) < m then m - Pending(s) else 0;
    assert a <= m - 1;
    if s.action == DispatchRepair {
      assert a + 1 <= m - 1;
      Scale(a, m - 1, k);
      Scale(m - 1, m, k);
    } else {
      Scale(a, m, k);
    }
  }

  lemma {:induction false} ChainStepAt(original: Original, run: seq<LoopState>, i: nat)
    requires IsChain(original, run) && i < |run| - 1
    ensures ChainStep(original, run[i], run[i + 1]) && Continues(run[i])
  {
  }

  lemma {:induction false} RankIsNatural(s: LoopState)
    requires RouterShape(s) && s.retries <= s.maxRetries
    ensures 0 <= Rank(s)
  {
    var left := if Pending(s) < s.maxRounds then s.maxRounds - Pending(s) else 0;
    assert 0 <= left * (s.maxRetries + 1);
  }

  lemma {:induction false} RankBounds(original: Original, run: seq<LoopState>, i: nat)
    requires IsChain(original, run) && i < |run| - 1
    ensures RouterShape(run[0]) && RouterShape(run[i])
    ensures Continues(run[i]) && 0 <= Rank(run[i]) && Rank(run[i]) + i <= Rank(run[0])
  {
    hide IsChain, ChainStep, Rank;
    ChainShape(original, run, i);
    ChainShape(original, run, 0);
    ChainStepAt(original, run, i);
    if i == 0 {
      RankIsNatural(run[0]);
    } else {
      RankBounds(original, run, i - 1);
      ChainShape(original, run, i - 1);
      ChainStepAt(original, run, i - 1);
      var s, t := run[i - 1], run[i];
      ChainStepFacts(original, s, t);
      RankDecreases(s, t);
    }
  }

  function Dispatches(run: seq<LoopState>, n: nat): nat
    requires n <= |run|
  {
    if n == 0 then 0 else Dispatches(run, n - 1) + if run[n - 1].action == DispatchRepair then 1 else 0
  }

  /** A chained loop dispatches at most maxRounds - 1 repairs. */
  lemma {:induction false} DispatchBudget(original: Original, run: seq<LoopState>)
    requires IsChain(original, run)
    ensures Dispatches(run, |run|) <= run[0].maxRounds - 1
  {
    DispatchesRaiseRound(original, run, |run| - 1);
    ChainShape(original, run, |run| - 1);
    DispatchesBelow(original, run, |run|);
  }

  lemma {:induction false} DispatchesRaiseRound(original: Original, run: seq<LoopState>, i: nat)
    requires IsChain(original, run) && i < |run|
    ensures run[i].round >= 1 + Dispatches(run, i)
  {
    ChainShape(original, run, i);
    if i > 0 {
      DispatchesRaiseRound(original, run, i - 1);
      ChainShape(original, run, i - 1);
      var s, t := run[i - 1], run[i - 1 + 1];
      assert ChainStep(original, s, t);
      ChainStepFacts(original, s, t);
    }
  }

  lemma {:induction false} DispatchesBelow(original: Original, run: seq<LoopState>, n: nat)
    requires IsChain(original, run) && n <= |run|
    ensures Dispatches(run, n) <= run[0].maxRounds - 1
  {
    ChainShape(original, run, 0);
    if n > 0 {
      DispatchesBelow(original, run, n - 1);
      DispatchesRaiseRound(original, run, n - 1);
      ChainShape(original, run, n - 1);
    }
  }

  // ---------- The counters refine definitions over the whole history ----------

  /** Any sequence of routed states, each step reading the state before it; rounds, candidates and
      TaskRun metadata are arbitrary. */
  ghost predicate RoutedFrom(original: Original, s: LoopState, t: LoopState) {
    exists meta: Option<Meta>, v :: Route(Some(s), meta, original, v) == Success(t)
  }

  ghost predicate IsHistory(original: Original, run: seq<LoopState>) {
    && run != [] && (exists meta: Option<Meta>, v :: Route(None, meta, original, v) == Success(run[0]))
    && forall i :: 0 <= i < |run| - 1 ==> RoutedFrom(original, run[i], run[i + 1])
  }

  /** The part of a state that gave the counters their values. */
  function Seen(t: LoopState): Verification {
    Verification(t.event, t.candidate, t.round, t.continuation, t.verdict, t.fingerprint, t.action == PublisherRepair)
  }

  predicate Counted(previous: Option<LoopState>, t: LoopState) {
    && t.retries == RetriesOf(previous, Seen(t))
    && t.stagnant == StagnantOf(previous, Seen(t), t.round)
    && t.action == ActionOf(Seen(t), t.round, t.maxRounds, t.stagnant, t.retries, t.maxRetries)
  }

  function Before(run: seq<LoopState>, i: nat): Option<LoopState>
    requires i < |run|
  {
    if i == 0 then None else Some(run[i - 1])
  }

  lemma {:induction false} RouteCounts(previous: Option<LoopState>, meta: Option<Meta>, original: Original,
      v: Verification)
    requires Route(previous, meta, original, v).Success?
    ensures Counted(previous, Route(previous, meta, original, v).value)
  {
  }

  lemma {:induction false} HistoryCounts(original: Original, run: seq<LoopState>, i: nat)
    requires IsHistory(original, run) && i < |run|
    ensures Counted(Before(run, i), run[i])
  {
    if i == 0 {
      var meta: Option<Meta>, v :| Route(None, meta, original, v) == Success(run[0]);
      RouteCounts(None, meta, original, v);
    } else {
      var s, t := run[i - 1], run[i - 1 + 1];
      assert RoutedFrom(original, s, t);
      var meta: Option<Meta>, v :| Route(Some(s), meta, original, v) == Success(t);
      RouteCounts(Some(s), meta, original, v);
    }
  }

  /** Two consecutive verifications of rising rounds with the same class and fingerprint. */
  predicate SameVerdict(s: LoopState, t: LoopState) {
    s.verdict.failure == t.verdict.failure && s.fingerprint == t.fingerprint && s.round < t.round
  }

  /** How many verifications, ending at `i`, have the same verdict in a row. */
  function Streak(run: seq<LoopState>, i: nat): nat
    requires i < |run|
  {
    if i > 0 && SameVerdict(run[i - 1], run[i]) then Streak(run, i - 1) + 1 else 1
  }

  lemma {:induction false} StreakMeaning(run: seq<LoopState>, i: nat, n: nat)
    requires i < |run|
    ensures Streak(run, i) > n <==> n <= i && forall k :: i - n <= k < i ==> SameVerdict(run[k], run[k + 1])
    decreases i
  {
    if i > 0 && n > 0 {
      StreakMeaning(run, i - 1, n - 1);
      if SameVerdict(run[i - 1], run[i - 1 + 1]) {
      } else if n <= i {
        assert i - n <= i - 1 < i;
      }
    }
  }

  /** After a repairable verdict the stagnation counter is the length of the current streak of equal
      verdicts, minus one: in every history, whatever its rounds and candidates. */
  lemma {:induction false} StagnationIsStreak(original: Original, run: seq<LoopState>, i: nat)
    requires IsHistory(original, run) && i < |run| && Repairable(run[i].verdict.failure)
    ensures run[i].stagnant == Streak(run, i) - 1
    decreases i
  {
    HistoryCounts(original, run, i);
    if i > 0 && SameVerdict(run[i - 1], run[i]) {
      StagnationIsStreak(original, run, i - 1);
    }
  }

  /** The router dispatches a repair exactly on a repairable verdict inside the budget whose verdict is
      not the third equal one in a row. */
  lemma {:induction false} DispatchExactly(original: Original, run: seq<LoopState>, i: nat)
    requires IsHistory(original, run) && i < |run|
    requires Repairable(run[i].verdict.failure) ==> run[i].verdict.paths != []
    ensures run[i].action == DispatchRepair <==>
              && Repairable(run[i].verdict.failure)
              && run[i].round < run[i].maxRounds
              && !(i >= 2 && SameVerdict(run[i - 2], run[i - 1]) && SameVerdict(run[i - 1], run[i]))
  {
    HistoryCounts(original, run, i);
    if Repairable(run[i].verdict.failure) {
      StagnationIsStreak(original, run, i);
      if i > 0 {
        assert Streak(run, i - 1) >= 1;
      }
    }
  }

  /** Consecutive retryable verdicts on one candidate, ending at `i`. */
  function RetryStreak(run: seq<LoopState>, i: nat): nat
    requires i < |run|
  {
    if !Retryable(run[i].verdict.failure) then 0
    else if i > 0 && run[i - 1].candidate == run[i].candidate then RetryStreak(run, i - 1) + 1
    else 1
  }

  /** The retry counter is that streak, and the loop retries exactly while the budget covers it. */
  lemma {:induction false} RetriesAreStreak(original: Original, run: seq<LoopState>, i: nat)
    requires IsHistory(original, run) && i < |run|
    ensures run[i].retries == RetryStreak(run, i)
    ensures run[i].action == RetryValidation <==> 0 < RetryStreak(run, i) <= run[i].maxRetries
  {
    HistoryCounts(original, run, i);
    if i > 0 {
      RetriesAreStreak(original, run, i - 1);
    }
  }

  /** A redelivered event leaves every later state as if it had been delivered once. */
  lemma {:induction false} DuplicatesNeverCount(s: LoopState, meta: Option<Meta>, original: Original, v: Verification)
    ensures Route(Some(s.(action := NoopDuplicate)), meta, original, v) == Route(Some(s), meta, original, v)
  {
    var d := Some(s.(action := NoopDuplicate));
    assert ResolveContinuation(d, meta, v.continuation) == ResolveContinuation(Some(s), meta, v.continuation);
    assert RoundOf(d, meta, v) == RoundOf(Some(s), meta, v);
    assert StagnantOf(d, v, RoundOf(d, meta, v)) == StagnantOf(Some(s), v, RoundOf(d, meta, v));
  }

  // ---------- Where the counters see less than the history ----------

  /** Only the verification right before counts. After any dispatched product failure, an environment
      retry followed by the very same failure is dispatched again with an empty streak, so repeated
      over and over this pattern is never seen as stagnation. */
  lemma {:induction false} EnvironmentRetryHidesStagnation(original: Original, run: seq<LoopState>, c: string)
    returns (longer: seq<LoopState>)
    requires IsHistory(original, run) && original.domain == ProductCode
    requires var s := run[|run| - 1];
             && s.action == DispatchRepair && s.verdict.failure == ProductFailure && s.verdict.paths != []
             && s.continuation == None && s.round + 1 < s.maxRounds <= MAX_REPAIR_ROUNDS
    ensures IsHistory(original, longer) && |longer| == |run| + 2 && longer[..|run|] == run
    ensures var s, t := run[|run| - 1], longer[|run| + 1];
            && t.verdict == s.verdict && t.fingerprint == s.fingerprint && t.round == s.round + 1
            && t.stagnant == 0 && t.action == DispatchRepair && t.continuation == None && t.maxRounds == s.maxRounds
  {
    var s := run[|run| - 1];
    var env := Verification(Event("env", 1), c, s.round + 1, None, Verdict(EnvironmentFailure, []), "", false);
    EnvironmentStep(s, original, env);
    longer := Deliver(original, run, env);
    var again := Verification(Event("again", 1), c, s.round + 1, None, s.verdict, s.fingerprint, false);
    AgainStep(s, longer[|run|], original, again);
    longer := Deliver(original, longer, again);
  }

  lemma {:induction false} EnvironmentStep(s: LoopState, original: Original, v: Verification)
    requires s.continuation == None && v.continuation == None && s.maxRounds <= MAX_REPAIR_ROUNDS
    requires s.round < v.stage2Round < s.maxRounds && v.verdict.failure == EnvironmentFailure
    ensures var t := Route(Some(s), Some(MetaOf(s)), original, v);
            && t.Success? && t.value.verdict == v.verdict && t.value.round == v.stage2Round
            && t.value.continuation == None && t.value.maxRounds == s.maxRounds
  {
  }

  lemma {:induction false} AgainStep(s: LoopState, e: LoopState, original: Original, v: Verification)
    requires e.continuation == None && v.continuation == None && e.maxRounds <= MAX_REPAIR_ROUNDS
    requires e.round == v.stage2Round < e.maxRounds && e.round >= 1 && e.verdict.failure == EnvironmentFailure
    requires original.domain == ProductCode && v.verdict.failure == ProductFailure && v.verdict.paths != []
    ensures var t := Route(Some(e), Some(MetaOf(e)), original, v);
            && t.Success? && t.value.verdict == v.verdict && t.value.fingerprint == v.fingerprint
            && t.value.round == e.round && t.value.stagnant == 0 && t.value.action == DispatchRepair
            && t.value.continuation == None && t.value.maxRounds == e.maxRounds
  {
  }

  /** One more verification, routed with the TaskRun record of the state before it. */
  lemma {:induction false} Deliver(original: Original, run: seq<LoopState>, v: Verification)
    returns (longer: seq<LoopState>)
    requires IsHistory(original, run)
    requires Route(Some(run[|run| - 1]), Some(MetaOf(run[|run| - 1])), original, v).Success?
    ensures IsHistory(original, longer)
    ensures longer == run + [Route(Some(run[|run| - 1]), Some(MetaOf(run[|run| - 1])), original, v).value]
  {
    var s := run[|run| - 1];
    var t := Route(Some(s), Some(MetaOf(s)), original, v).value;
    assert RoutedFrom(original, s, t);
    longer := run + [t];
    forall i | 0 <= i < |longer| - 1
      ensures RoutedFrom(original, longer[i], longer[i + 1])
    {
      if i < |run| - 1 {
        assert RoutedFrom(original, run[i], run[i + 1]);
      }
    }
  }

  /** When the loop-state artifact is lost, the TaskRun still holds round and attempt, but neither
      counter. The next verification gets the counters it would have had exactly when it does not
      repeat the lost verdict, is repairable or had no stagnation before it, and is no further retry
      of the lost candidate. */
  lemma {:induction false} LostArtifactKeepsCountersExactly(s: LoopState, original: Original, v: Verification)
    requires Route(Some(s), Some(MetaOf(s)), original, v).Success? && Route(None, Some(MetaOf(s)), original, v).Success?
    ensures var with, without := Route(Some(s), Some(MetaOf(s)), original, v).value,
            Route(None, Some(MetaOf(s)), original, v).value;
            && without.round == with.round && without.attempt == with.attempt && without.stagnant == 0
               && without.retries <= 1
            && (without.stagnant == with.stagnant <==>
                  if Repairable(v.verdict.failure) then
                    !(s.verdict.failure == v.verdict.failure && s.fingerprint == v.fingerprint
                      && s.round < Max(1, v.stage2Round))
                  else s.stagnant == 0)
            && (without.retries == with.retries <==>
                !Retryable(v.verdict.failure) || s.candidate != v.candidate || s.retries == 0)
  {
    hide ActionOf, ResolveContinuation, MaxRoundsOf;
  }

  /** A candidate whose retries are used up is then retried again. */
  lemma {:induction false} LostArtifactGrantsRetry(s: LoopState, original: Original, v: Verification)
    requires s.continuation == None && v.continuation == None && s.candidate == v.candidate
    requires Retryable(v.verdict.failure) && s.retries == MAX_VALIDATION_RETRIES_PER_CANDIDATE
    ensures var with, without := Route(Some(s), Some(MetaOf(s)), original, v),
            Route(None, Some(MetaOf(s)), original, v);
            && with.Success? && with.value.action == RetryExhausted
            && without.Success? && without.value.action == RetryValidation
  {
  }

  // ---------- Stage 2 and the continuation ----------

  /** Stage 2 notes its round in the TaskRun before it repairs; rounds never move backwards. */
  function NoteStage2Round(meta: Option<Meta>, round: nat, maxRounds: nat): Option<Meta> {
    if meta.Some? && meta.value.round > round then None
    else if meta.Some? then Some(meta.value.(round := round, maxRounds := maxRounds))
    else Some(Meta(round, 0, maxRounds, 0, None))
  }

  /** On a fresh TaskRun the first verification is routed, after Stage 2 has noted its round, exactly
      when it carries no autonomy continuation: with one it is taken for a loop that started without. */
  lemma {:induction false} FirstContinuationIsRefused(original: Original, v: Verification, round: nat, maxRounds: nat)
    requires v.verdict.paths == original.candidates || original.domain == ProductCode || !Repairable(v.verdict.failure)
    ensures var meta := NoteStage2Round(None, round, maxRounds);
            && (Route(None, meta, original, v).Success? <==> v.continuation.None?)
            && (v.continuation.Some? ==> Route(None, meta, original, v) == Failure(ContinuationAppeared))
  {
  }

  /** The two durable records of one TaskRun. */
  datatype Durable = Durable(previous: Option<LoopState>, meta: Option<Meta>)

  /** Stage 2 notes its round, a verification is delivered, or the loop-state artifact is lost. */
  datatype Happening = Stage2Noted(round: nat, maxRounds: nat) | Verified(verification: Verification) | ArtifactLost

  function AfterHappening(s: Durable, original: Original, h: Happening): Durable {
    match h
    case ArtifactLost => s.(previous := None)
    case Stage2Noted(round, maxRounds) =>
      var noted := NoteStage2Round(s.meta, round, maxRounds);
      if noted.None? then s else s.(meta := noted)
    case Verified(v) =>
      if ResolveContinuation(s.previous, s.meta, v.continuation).Failure? then s
      else if s.previous.Some? && s.previous.value.event == v.event then
        s.(previous := Some(s.previous.value.(action := NoopDuplicate)))
      else
        match Route(s.previous, s.meta, original, v)
        case Failure(_) => s
        case Success(t) => Durable(Some(t), Some(MetaOf(t)))
  }

  /** The records after the first `n` happenings on a fresh TaskRun. */
  function RecordsAfter(happenings: seq<Happening>, n: nat, original: Original): Durable
    requires n <= |happenings|
  {
    if n == 0 then Durable(None, None)
    else AfterHappening(RecordsAfter(happenings, n - 1, original), original, happenings[n - 1])
  }

  predicate WithoutContinuation(s: Durable) {
    && s.meta.Some? && s.meta.value.continuation.None?
    && (s.previous.Some? ==> s.previous.value.continuation.None?)
  }

  lemma {:induction false} StaysWithout(s: Durable, original: Original, h: Happening)
    requires WithoutContinuation(s)
    ensures WithoutContinuation(AfterHappening(s, original, h))
  {
    hide ActionOf, StagnantOf, RetriesOf, RoundOf, MaxRoundsOf;
  }

  lemma {:induction false} NeverGainsOne(happenings: seq<Happening>, n: nat, original: Original)
    requires 1 <= n <= |happenings| && happenings[0].Stage2Noted?
    ensures WithoutContinuation(RecordsAfter(happenings, n, original))
  {
    hide AfterHappening, WithoutContinuation;
    var start := Durable(None, None);
    if n == 1 {
      FirstNote(original, happenings[0]);
      assert RecordsAfter(happenings, 0, original) == start;
    } else {
      NeverGainsOne(happenings, n - 1, original);
      StaysWithout(RecordsAfter(happenings, n - 1, original), original, happenings[n - 1]);
    }
  }

  lemma {:induction false} FirstNote(original: Original, h: Happening)
    requires h.Stage2Noted?
    ensures WithoutContinuation(AfterHappening(Durable(None, None), original, h))
  {
  }

  /** No run on a fresh TaskRun ever routes a verification with an autonomy continuation, whatever happens
      in it: Stage 2 comes first, notes its round without one, and from then on one only ever appears. */
  lemma {:induction false} NoContinuationIsEverRouted(happenings: seq<Happening>, i: nat, original: Original)
    requires i < |happenings| && happenings[0].Stage2Noted?
    requires happenings[i].Verified? && happenings[i].verification.continuation.Some?
    ensures var s := RecordsAfter(happenings, i, original);
            && Route(s.previous, s.meta, original, happenings[i].verification) == Failure(ContinuationAppeared)
            && RecordsAfter(happenings, i + 1, original) == s
  {
    NeverGainsOne(happenings, i, original);
  }
}
