# A verified model of the governed repair control plane

The repository runs bounded "repair, verify, publish, govern" loops over CI evidence. Nearly all of it
is deterministic decision code over plain records, and the same facts are carried from stage to stage
and checked again. This project models that code in Dafny and proves what holds over whole runs, over
all interleavings, and between files that must agree. `dafny verify dfyconfig.toml` checks all of it.

## What is modelled

- **Gate executor** (`GateGraph`, `GateRun`, `LocalRounds`, `TargetRun`, `RunLocks`): ordering the quality
  gates, targeted reruns, the gate loop with its checkpoint and crash recovery, the rounds of a local
  target, a whole run of a target with its crash points, and the two-lock exclusion protocol as a transition system over all interleavings.
- **Outer repair loop** (`RepairLoop`, `Stage2Loop`, `SeedRound`): the durable router with its counters
  and budgets, the fixer's inner cycle loop, and the start of a dispatched round on the patch before it.
- **Write authority** (`RepoPath`, `PathPolicy`, `FixerPaths`, `FixerChanges`, `FailureRecords`,
  `WriteAuthority`): two independently written path filters, the root-cause analysis, the exact write
  grant, and the writes under it.
- **Scope from evidence to commit** (`ScopeCompiler`, `FeedbackScope`, `StatusListing`, `Publication`):
  the compiler of the writable scope, the failure case handed from round to round, Stage 3 with the status
  listings it and the publisher read, and the published commit.
- **Evidence reducers** (`CiConvergence`, `ProjectConvergence`, `ArtifactPages`, `TurnMatching`).
- **Release tree** (`ReleaseLines`, `ReleaseTree`): writer and verifier of a self-describing tree.
- **Governance lifecycle** (`TaskLedger`, `Receipts`): the shared TaskRun ledger under concurrent
  controllers, and the chain of receipts up to the merge grant.

Code that changes state is modelled by classes, methods and loops (`QualityRun`, `Controller`,
`RepairTask`, `Workspace`, `PlanFile`, `Stage`, `TargetState`, `TargetRun`, `TaskRunStore`), each proved against a
specification function; the main results are lemmas about those functions. Validators are functions.

Conventions: JSON objects are datatypes and a field no modelled code reads is part of a `rest` field.
A SHA-256 digest inside the repair authority is a datatype constructor applied to its content, so
equal digests mean equal content; the release tree instead takes the hash as a parameter and assumes
collision-freedom only between the two trees compared. Git, the file system, subprocesses, the model
and the clock are parameters that a theorem quantifies over. Case folding, upper- and lower-casing are
parameters too. Words of a fixed vocabulary (schemas, classifications, states, powers) are enumerations
with an `Other` word. Everything from the write authority to publication is proved for an arbitrary path
policy; `PathPolicy` defines the canonical one and proves what is special about it.

## Where the specification functions come from

The rows of the model table name the members that state properties. The functions those properties are
about follow the code branch by branch. What each of them answers is also stated by itself, in terms of its
inputs and not of the function: statuses and decisions (`GateRun.DecisionExactly`, `RepairLoop.ClassExactly`,
`RepairLoop.ActionExactly`, `CiConvergence.StatusExactly`, `Stage2Loop.VerdictExactly`,
`LocalRounds.OutcomeExactly`), authority (`WriteAuthority.ValidatedCarriesOnlyWrites`,
`WriteAuthority.RcaExactly`, `WriteAuthority.DomainExactly`), and the checks of each stage up to the merge
grant (`Publication.InspectedExactly`, `RecordedExactly`, `PublisherChecksExactly`, `Receipts.DraftExactly`
to `Receipts.GrantIssuedExactly`).

- `GateRun.StepResult`, `RunFirst`: `scripts/quality_loop.py:379-444`; `TargetRun.Next`, `LoopAfter`:
  `:311-738`; `RunLocks.Next`: `:746-803`. `SeedRound.SeedStands`: `scripts/github_repair_orchestrator.py:206-252`.
- `RepairLoop.Route`: `scripts/github_repair_loop_controller.py:652-909`; `FeedbackScope.SafeFeedback`:
  `:576-649`; `ScopeCompiler.ValidateLoopBinding`, `NormalizeFailureCase` and `CompileScope`:
  `scripts/github_repair_orchestrator_control_plane.py:61-252`.
- `WriteAuthority.RepairDomainOf`, `ValidateRca`, `CompileGrant`, `ValidateGrant`:
  `scripts/github_repair_authority.py:129-418`.
- `Publication.InspectHandoff`, `PrepareCandidate`, `RecordValidation`: `scripts/github_repair_stage3.py:221-786`;
  `PreparePublication`: `scripts/github_repair_stage3_publish.py:108-292`.
- `Stage2Loop.VerdictAt`: one cycle of `scripts/github_repair_orchestrator.py:414-652`.
- `CiConvergence.CheckFor`, `Reduce`: `scripts/ci_convergence.py:149-324`; `ProjectConvergence.AssessOrdered`:
  `scripts/project_convergence_controller.py:404-503`.
- `ReleaseTree.Accepted`: `scripts/release_artifact.py:522-640`; `ReleaseTree.Written`: `:420-519`.
- `StatusListing.PublisherListing`: `scripts/github_repair_stage3_publish.py:47-86`; `StatusListing.Stage3Listing`:
  `scripts/github_repair_stage3.py:102-116`.
- `TaskLedger.Program`: the order in which each controller marks, checkpoints and writes its receipt;
  `TaskLedger.Apply`: `skill-system/controller/task_run.py:264-371`; `Receipts`: the checks of each controller
  on the receipt before it.

## Properties the code does not have

Where an expected property fails, the code is kept as it is and the exact condition is proved.

- **The Stage-2 wrapper invalidates its own grant.** `github_repair_orchestrator_control_plane.py:305-310`
  rewrites the failure case after the analysis and the grant were bound to its digest. The preflight
  accepts no compiled grant for the rewritten case (`ScopeCompiler.RewrittenCaseFailsPreflight`) and
  every one for the unchanged case (`ScopeCompiler.UnchangedCasePassesPreflight`). The module's
  documentation says that the grant is bound to the exact failure case; that holds, of the case before
  the rewriting.
- **Later product rounds cannot be validated.** The fed-back failure case names as its only failed gate
  the label `governed-stage3-targeted`, which then becomes the guard Stage 3 must see re-verified, and
  no Quick gate in the repository carries that name (`Publication.LaterRoundReverifiedExactly`).
- **The normalizer is not idempotent.** Text such as `./ services/a.py` is accepted as a path that
  starts with a blank (`PathPolicy.FixedPointExactly`, `PathPolicy.BlankSurvives`). Analyses and grants
  are not affected: they admit fixed points only.
- **The fixer's filter alone is wider.** It accepts `services//a.py`
  (`FixerPaths.DoubledSlashExample`, `FixerPaths.FixerAcceptedIsPolicyAcceptedExactly`).
- **Scope can widen once.** The first evidence may name a candidate such as `contracts//x.py`, which the
  first compiler excludes, beside one that it keeps. If the verification of the repair names both files,
  the loop hands on both in POSIX form, and the second compiler may write the one that the first excluded
  (`FeedbackScope.DoubledSlashWidens`, `FeedbackScope.DoubledSlashExample`). A round narrows exactly when
  its repair paths are forms of candidates that are their own POSIX form
  (`FeedbackScope.RoundNarrowsExactly`); from the second round on all rounds do
  (`FeedbackScope.LaterRoundsNarrow`).
- **No repair of an existing file is published.** The publisher strips the text of `git status` before it
  cuts the columns off, and so loses the first character of the first changed tracked file
  (`StatusListing.LostCharacterExample`). It publishes a validated candidate exactly when that changes no
  existing file (`Publication.PublicationSucceedsExactly`), and repairs change nothing else
  (`Publication.ExistingFilesAreNeverPublished`). Stage 3 has the corrected parser
  (`StatusListing.Stage3Reads`). The theorems about published commits are about whatever text git reports.
- **A change can be reported that was none.** The fixer compares a proposed content with the file as read in
  text mode, so a file with a carriage return that is proposed as it stands counts as changed
  (`FixerChanges.ChangedExactly`, `FixerChanges.UnchangedIsReported`).
- **Stagnation sees only the verification right before.** An environment retry between equal failures
  restarts the count (`RepairLoop.EnvironmentRetryHidesStagnation`), a lost loop-state artifact restarts
  both counters (`RepairLoop.LostArtifactKeepsCountersExactly`, `RepairLoop.LostArtifactGrantsRetry`), and
  the measure of the loop fails to decrease in exactly two situations (`RepairLoop.ProgressExactly`).
- **No autonomy continuation is ever routed** on a TaskRun in which Stage 2 noted its round first, as it
  always does (`RepairLoop.NoContinuationIsEverRouted`, `RepairLoop.FirstContinuationIsRefused`).
- **A dispatched round may be unable to start.** Its grant covers the paths that the failed verification
  names, and the patch it starts on must stay inside the grant: one changed file that the verification does
  not name stops it (`SeedRound.RoundStartsExactly`).
- **An environment failure uses up a repair** from round two on
  (`LocalRounds.HeldRunCannotBeRepeatedExactly`, `LocalRounds.HeldSecondRoundIsLost`).
- **A crash late in a round loses it.** The state of the target is written before the checkpoint is cleared.
  A process that dies in between resumes into a state that no longer admits the round, unless it was a first
  round that neither failed nor completed the target; the target may be completed while its evidence
  reports an invalid input (`TargetRun.LosingCrashExactly`, `TargetRun.MayStartAgainExactly`,
  `TargetRun.TargetRun.RunToEnd`).
- **A project can wait for a repair that no finding asks for**
  (`ProjectConvergence.VerdictExactly`, `ProjectConvergence.WaitsWithoutFinding`).
- **One successful run is not enough for the trigger's workflow:** if the only remaining record is not
  the trigger attempt, the verdict is PENDING (`CiConvergence.OtherRunIsPending`, `CiConvergence.PassExactly`).
- **A governance receipt can exist although governance was never closed** in the TaskRun
  (`TaskLedger.GovernanceReceiptMeansClosureExactly`).
- **A truncated last page goes unnoticed** when artifacts are listed
  (`ArtifactPages.TruncatedPageIsAccepted`, `ArtifactPages.SuccessSawItsPages`).

## Model

| member | source | states |
|---|---|---|
| GateGraph.OrderGates | scripts/quality_control/claims.py:92-104 | the layered ordering loop returns the order of the layer recursion, and an error exactly when a layer is empty with gates left |
| GateGraph.ReadyGates | scripts/quality_control/claims.py:95-98 | one layer: the gates, in policy order, whose unmet dependencies are empty |
| GateGraph.ValidatePolicy | scripts/quality_control/claims.py:67-104 | a policy is accepted exactly when ids are unique, dependencies known, modes nested and some dependency order exists; then the result is one |
| GateGraph.LayersSound | scripts/quality_control/claims.py:92-104 | an order that is returned holds every gate once, each after all its dependencies |
| GateGraph.LayersComplete | scripts/quality_control/claims.py:92-104 | whenever any dependency order exists the layers find one |
| GateGraph.WaitingNeverPlaced | scripts/quality_control/claims.py:96-98 | a set of gates that all wait for each other is in no dependency order |
| GateGraph.OrderExistsExactly | scripts/quality_control/claims.py:92-104 | ordering succeeds if and only if a dependency order exists, that is, the policy has no cycle |
| GateGraph.FilterKeepsOrder | scripts/quality_control/claims.py:106-107 | dropping gates against a dependency-closed selection keeps the order a dependency order |
| GateGraph.ModeSelectionIsClosed | scripts/quality_control/claims.py:106-107 | the gates of a mode are closed under dependencies, so every mode runs a complete dependency order |
| GateGraph.Descendants | scripts/quality_control/claims.py:360-369 | the fixpoint loop finds exactly the gates that transitively need the root |
| GateGraph.PrerequisiteClosure | scripts/quality_control/claims.py:370-378 | the prerequisite loop ends with the least selection that is closed under dependencies |
| GateGraph.DownstreamSteps | scripts/quality_control/claims.py:351-379 | a targeted rerun executes exactly the gates that need the root and everything those need, in policy order |
| GateRun.RunAllIsRun | scripts/quality_loop.py:379-444 | every selected gate gets exactly one result, in selection order, and that of an executed gate is what executing it yields |
| GateRun.RunIsUnique | scripts/quality_loop.py:379-444 | the declarative description of a run has one solution, so result list and description agree |
| GateRun.ExecutedExactly | scripts/quality_loop.py:407-441 | a gate is executed if and only if all its dependencies passed earlier in the run; it then reports what executing it yields, and only an executed gate passes |
| GateRun.PassHasPassedClosure | scripts/quality_loop.py:407-443 | a reported PASS has its whole transitive dependency closure PASS, no later in the same run |
| GateRun.NeverMissingPrerequisites | scripts/quality_loop.py:408-419 | on a dependency-ordered selection the missing-prerequisite branch is dead |
| GateRun.PassesExactly | scripts/quality_loop.py:407-442 | an executed gate reports what executing it yields; a gate passes if and only if its dependencies passed earlier and it yields a pass |
| GateRun.SkippedExactly | scripts/quality_loop.py:409-437 | on an ordered selection a gate is skipped if and only if some dependency did not pass, and the skip names exactly those |
| GateRun.MissingExactly | scripts/quality_loop.py:409-419 | in any order a gate is blocked unexecuted if and only if some dependency has no earlier result, and the block names exactly those |
| GateRun.PassIsClean | scripts/quality_loop.py:407-443 | whatever the order, a gate passes if and only if it and every gate it transitively needs yield a pass |
| GateRun.SkipHasCause | scripts/quality_loop.py:409-437 | a skipped gate has an earlier dependency that did not pass |
| GateRun.SkipHasRoot | scripts/quality_loop.py:409-437 | following the causes of a skip ends at a gate that failed or was blocked |
| GateRun.DecisionMeaning | scripts/quality_control/convergence.py:31-41 | PASS means every gate passed; FAIL and BLOCKED each have a gate of that kind; a skip alone never decides |
| GateRun.DecisionExactly | scripts/quality_control/convergence.py:31-41 | in terms of the gates alone: the run passes if and only if every gate yields a pass, and fails if and only if some gate all of whose needs yield a pass yields a failure |
| GateRun.RecordAcceptedExactly | scripts/quality_control/checkpoint.py:182-209 | a record is taken if and only if it is the one the run itself would write for this gate and the log on disk is that of the result |
| GateRun.QualityRun.ValidateCompleted | scripts/quality_control/checkpoint.py:164-210 | re-validation accepts a recorded prefix that matches the selection and the evidence on disk, and returns the recorded results |
| GateRun.QualityRun.Open | scripts/quality_loop.py:311-354 | a fresh or interrupted run opens with exactly its recorded prefix; an untampered checkpoint is never rejected |
| GateRun.QualityRun.RunGate | scripts/quality_loop.py:384-459 | each of the durable steps of a gate may be the last one; the invariant of the checkpoint survives every crash point |
| GateRun.QualityRun.RunRemaining | scripts/quality_loop.py:384-459 | the loop executes only gates without a record and records each |
| GateRun.QualityRun.Attempt | scripts/quality_loop.py:311-459 | one process either finishes with the uninterrupted result list or dies with a longer recorded prefix |
| GateRun.QualityRun.RunInterrupted | scripts/quality_loop.py:311-459 | any number of crashes at any points, then one surviving process: the result list equals the uninterrupted one, no process executes a gate recorded before it started, each executes a gate at most once, and each crash costs at most one more execution |
| TargetRun.RunOfExactly | scripts/quality_loop.py:462-519 | what a run of gates is to its target: it completes it if and only if every gate passed and the claims are met, and counts exactly its failed and skipped gates |
| TargetRun.MayStartAgainExactly | scripts/quality_loop.py:572-644 | once its state is written a run may start again exactly when it is no round, or a first round that neither failed nor completed the target, and a second writing then changes nothing |
| TargetRun.LosingCrashExactly | scripts/quality_loop.py:625-738 | the crashes that lose a run are those in the two steps between the writing of the state and the clearing of the checkpoint |
| TargetRun.TargetRun.Process | scripts/quality_loop.py:260-739 | one process leaves the run exactly where its durable steps say, finishes it or dies; it is rejected, and leaves an invalid-input summary, exactly when an unrepeatable run had its state written |
| TargetRun.TargetRun.RunToEnd | scripts/quality_loop.py:260-739 | any number of crashes at any durable step: the run finishes exactly when none fell between the writing of the state and the clearing of the checkpoint, or it is repeatable; otherwise the state has moved on, completed if all passed, while the evidence reports an invalid input |
| RunLocks.LocksAreAscending | scripts/quality_loop.py:760-763 | the locks of a request are distinct and in path order |
| RunLocks.NeverStuck | scripts/quality_loop.py:766-803 | in every state every live controller has a step of its own: nothing waits |
| RunLocks.MutualExclusion | scripts/quality_loop.py:746-803 | in every interleaving two controllers inside never share an evidence directory, nor a target under one state directory |
| RunLocks.DoneHoldsNothing | scripts/quality_loop.py:771-803 | in every interleaving a controller that has finished, been refused or been killed holds no lock |
| RunLocks.SomeoneEntered | scripts/quality_loop.py:763-797 | if a finite group of contenders has finished without a kill, at least one of them entered |
| RunLocks.UnsortedCanRefuseAll | scripts/quality_loop.py:757-763 | without the sorted order two controllers can refuse each other: the sort is what the guarantee rests on |
| RunLocks.RunsAreShort | scripts/quality_loop.py:766-803 | N controllers take at most 7N steps together, in any interleaving |
| LocalRounds.RoundsCountFailures | scripts/quality_control/state.py:126-156 | in every history the required round counts the failed rounds and never exceeds the maximum |
| LocalRounds.FailedRoundsAreBounded | scripts/quality_loop.py:588-625 | however often it is invoked, a target sees at most its maximum of failed rounds |
| LocalRounds.ImprovedExactly | skill-system/controller/progress.py:7-31 | a round improves exactly when it is the first compared one, or resolves a failure and adds only failures that had been skipped; the third test never decides |
| LocalRounds.OutcomeExactly | scripts/quality_loop.py:575-644 | the outcome of every run, case by case, from the state, the verdict, the round and the comparison with the round before |
| LocalRounds.StateExactly | scripts/quality_loop.py:575-644 | what each outcome leaves in the state of the target: repair, failures, round, and whether the loop is completed or stopped |
| LocalRounds.StagnationIsHistory | scripts/quality_control/convergence.py:67-94 | the counter is the number of failed rounds without improvement the history ends in, and stays below two while the loop may go on |
| LocalRounds.HeldSecondRoundIsLost | scripts/quality_control/state.py:149-153 | a history from the first round on that ends so: round one fails, round two is held up by its environment, and its repetition with that repair is rejected and changes nothing |
| LocalRounds.HeldRunCannotBeRepeatedExactly | scripts/quality_control/state.py:149-153 | a run held up by its environment is rejected when repeated unchanged exactly from round two on |
| RepairLoop.ClassificationStaysInAuthority | scripts/github_repair_loop_controller.py:266-367 | which evidence passes, is transient, environmental or the harness's, exactly; a repairable verdict always names paths, all inside the authority and of its domain |
| RepairLoop.ClassExactly | scripts/github_repair_loop_controller.py:264-367 | for each of the eight classes the evidence that has it, over targeted result, Quick summary and authority |
| RepairLoop.RepairPathsExactly | scripts/github_repair_loop_controller.py:283-310 | a repairable verdict names exactly the paths of the authority that the output names, or all of it when a control-plane verifier failed and none is named |
| RepairLoop.NamedInOrder | scripts/github_repair_loop_controller.py:283-291 | the named paths come once each, in the order of their first mention |
| RepairLoop.ActionExactly | scripts/github_repair_loop_controller.py:777-827 | for each action the verdicts, budgets and counters that lead to it |
| RepairLoop.EvidenceIsRouted | scripts/github_repair_loop_controller.py:264-827 | classifier and router composed: which evidence is retried, goes to the harness or the publisher, to review, to a stop, or into a repair |
| RepairLoop.CountersMeaning | scripts/github_repair_loop_controller.py:707-740 | round and attempt never go back, each comes from a record or the event, and the budgets are the owner's or eight rounds and three retries |
| RepairLoop.RoutedExactly | scripts/github_repair_loop_controller.py:524-567 | a verification is routed if and only if its continuation is that of both records, within budget, and a control-plane repair is about the whole authority |
| RepairLoop.Controller.RouteFailure | scripts/github_repair_loop_controller.py:652-909 | a redelivery of the last event changes no counter; any other delivery moves the state to the routed one or nothing at all |
| RepairLoop.ProgressExactly | scripts/github_repair_loop_controller.py:715-823 | a non-terminal step decreases the lexicographic measure if and only if it neither re-verifies a dispatch at its old round nor retries the round with another candidate |
| RepairLoop.LoopEnds | scripts/github_repair_loop_controller.py:715-823 | a chained loop is over after at most maxRounds * (maxRetries + 1) verifications |
| RepairLoop.DispatchBudget | scripts/github_repair_loop_controller.py:790-823 | a chained loop dispatches at most maxRounds - 1 repairs |
| RepairLoop.StreakMeaning | scripts/github_repair_loop_controller.py:753-762 | a streak longer than n is n consecutive equal verdicts at rising rounds |
| RepairLoop.StagnationIsStreak | scripts/github_repair_loop_controller.py:753-762 | after a repairable verdict the counter is the length of the current streak of equal verdicts minus one, over every history |
| RepairLoop.DispatchExactly | scripts/github_repair_loop_controller.py:790-823 | a repair is dispatched if and only if the verdict is repairable, inside the budget, and not the third equal one in a row |
| RepairLoop.RetriesAreStreak | scripts/github_repair_loop_controller.py:764-820 | the retry counter is the streak of retryable verdicts on one candidate, and the loop retries exactly while the budget covers it |
| RepairLoop.DuplicatesNeverCount | scripts/github_repair_loop_controller.py:706-713 | a redelivered event leaves every later state as if it had been delivered once |
| RepairLoop.EnvironmentRetryHidesStagnation | scripts/github_repair_loop_controller.py:753-762 | after any dispatched failure an environment retry lets the very same failure be dispatched again with an empty streak, each step routed with the TaskRun record of the one before |
| RepairLoop.LostArtifactKeepsCountersExactly | scripts/github_repair_loop_controller.py:686-776 | without the loop-state artifact round and attempt survive in the TaskRun; each counter comes out as with it if and only if the next verification does not continue the lost streak, or the lost retries |
| RepairLoop.LostArtifactGrantsRetry | scripts/github_repair_loop_controller.py:764-823 | without the artifact a candidate whose retries are used up is retried again |
| RepairLoop.NoContinuationIsEverRouted | scripts/github_repair_loop_controller.py:524-567 | in no run on a fresh TaskRun, with Stage 2 first and then verifications, notes and lost artifacts in any order, is a verification with an autonomy continuation ever routed |
| RepairLoop.FirstContinuationIsRefused | scripts/github_repair_loop_controller.py:524-567 | after Stage 2 noted its round on a fresh TaskRun, the first verification is routed exactly when it carries no autonomy continuation |
| RepoPath.PosixFormExactly | scripts/governed_repair_path_policy.py:142-154 | a relative path is its own POSIX form without parent components exactly when it is `.` or all its components are plain |
| PathPolicy.NormalizeRepoPath | scripts/governed_repair_path_policy.py:142-154 | the normalizing loop computes the specified normalization |
| PathPolicy.NormalizeAcceptsExactly | scripts/governed_repair_path_policy.py:142-154 | a text is accepted exactly when, trimmed and freed of leading `./`, it is `.` or a relative path of plain components |
| PathPolicy.FixedPointExactly | scripts/governed_repair_path_policy.py:142-154 | an accepted form is a fixed point of the normalizer exactly when it does not start with whitespace |
| PathPolicy.CollectPaths | scripts/governed_repair_path_policy.py:217-233 | the validating loop accepts, refuses and orders as the element-wise specification |
| PathPolicy.ValidatePaths | scripts/governed_repair_path_policy.py:209-233 | the validator of a domain is that loop under the policy of the domain |
| PathPolicy.AcceptedExactly | scripts/governed_repair_path_policy.py:209-233 | a path list is accepted with this result if and only if each path is admitted as the result lists it, no two agree, and there are one to sixteen |
| PathPolicy.ViolationExactly | scripts/governed_repair_path_policy.py:157-206 | which violation a path is refused for, violation by violation, and which paths are eligible in each domain |
| PathPolicy.AcceptedInsideRootsExactly | scripts/governed_repair_path_policy.py:176-233 | an accepted path lies inside the roots of its domain if and only if it is a fixed point: the policy judges the path normalized once more |
| PathPolicy.BlankSurvives | scripts/governed_repair_path_policy.py:142-233 | for every eligible path there is a text that is accepted as that path behind a blank |
| FixerPaths.NormalizePath | scripts/github_agent_fixer.py:105-112 | the fixer's normalizing loop computes its specification |
| FixerPaths.ValidateAllowedPaths | scripts/github_agent_fixer.py:130-155 | the fixer's filter loop drops repeats and refuses as specified |
| FixerPaths.SameText | scripts/github_agent_fixer.py:105-112 | replacing before trimming or after it, the two normalizers see the same text |
| FixerPaths.NormalizersDifferByForm | scripts/github_agent_fixer.py:105-112 | the canonical normalizer accepts exactly what the fixer's accepts and is its own POSIX form |
| FixerPaths.TablesAgree | scripts/github_agent_fixer.py:115-144 | the two independently written text filters pass the same fixed points, whatever case folding does |
| FixerPaths.AllowedExactly | scripts/github_agent_fixer.py:130-155 | nothing is dropped if and only if every path passes and no two agree |
| FixerPaths.FiltersAgree | scripts/github_agent_fixer.py:130-155 | for existing files at fixed points the policy accepts a raw list with a result if and only if the fixer does |
| FixerPaths.PolicyAcceptedIsFixerAccepted | scripts/github_agent_fixer.py:130-155 | a list the policy accepts unchanged the fixer accepts unchanged, given the files |
| FixerPaths.FixerAcceptedIsPolicyAcceptedExactly | scripts/github_agent_fixer.py:105-155 | a list the fixer accepts unchanged the policy accepts unchanged if and only if every path is its own POSIX form |
| FixerPaths.DoubledSlashPassesFixer | scripts/github_agent_fixer.py:105-155 | an eligible path with a doubled separator passes the fixer, if its filter lets it, and no policy |
| FixerPaths.DoubledSlashExample | scripts/github_agent_fixer.py:39-155 | with the tables as they are the fixer accepts `services//a.py` and the canonical policy refuses it |
| FixerPaths.CanonicalAgreement | scripts/github_agent_fixer.py:39-155 | for existing files, with the tables as they are: the policy accepts a list unchanged if and only if the fixer does and every path is its own POSIX form |
| FixerChanges.ValidateChanges | scripts/github_agent_fixer.py:322-353 | a proposal is taken if and only if it has entries and none offends; otherwise the error is the first offence |
| FixerChanges.OffenceExactly | scripts/github_agent_fixer.py:322-353 | what is wrong with an entry, and what is taken of a clean one |
| FixerChanges.CleanRows | scripts/github_agent_fixer.py:322-353 | the rows taken name granted paths, each once |
| FixerChanges.Workspace.ApplyChanges | scripts/github_agent_fixer.py:356-382 | each file that does not read as the proposed content is replaced; if there is none, that is an error |
| FixerChanges.Workspace.Repair | scripts/github_agent_fixer.py:491-523 | only the text of files under granted paths can change, nothing changes on an error, every granted path whose file differs is reported, and a reported file differs or held a carriage return |
| FixerChanges.AsReadExactly | scripts/github_agent_fixer.py:361 | reading translates line ends: it keeps a text as it is if and only if the text holds no carriage return |
| FixerChanges.LineEndsExactly | scripts/github_agent_fixer.py:365-372 | each line end, of one character or of two, is read as one line feed |
| FixerChanges.ChangedExactly | scripts/github_agent_fixer.py:356-382 | with distinct places a path is reported if and only if its file did not read as the content, and its file then differs unless the content is its very text and holds a carriage return; the rest is untouched |
| FixerChanges.UnchangedIsReported | scripts/github_agent_fixer.py:361-379 | a file with a carriage return that is proposed as it stands is reported as changed and is not |
| WriteAuthority.NormalizeAll | scripts/github_repair_authority.py:93-100 | the normalizing loop computes the specified list or error |
| WriteAuthority.CollectGuardIds | scripts/github_repair_authority.py:204-215 | the guard loop computes the specified list |
| WriteAuthority.GuardIdsExactly | scripts/github_repair_authority.py:204-215 | the guard ids are exactly the well-formed trimmed gate ids of the failed gates, each once |
| WriteAuthority.AcceptedRca | scripts/github_repair_authority.py:218-289 | an accepted analysis has eligible fixed points as candidates; the recommended ones are among them, none for DENY and some for GRANT |
| WriteAuthority.GrantExactly | scripts/github_repair_authority.py:350-418 | a grant validates with these paths if and only if one compiles from the same inputs, the two agree on every compared field, and the digest is its own; it then carries write authority and nothing else |
| WriteAuthority.ValidatedCarriesOnlyWrites | scripts/governed_repair_contract.py:51-63 | a validated grant carries write authority, each of the eleven protected powers as refused, and no other power; exact allowlist, open production gate, the six states in order |
| WriteAuthority.CompiledCarriesOnlyWrites | scripts/github_repair_authority.py:292-347 | the same of a compiled grant, which also names this case, this analysis, its guards, binding and domain |
| WriteAuthority.DomainExactly | scripts/github_repair_authority.py:103-170 | a case may be repaired as a product's or the control plane's if and only if so classified, the latter along a route that allows automatic writes and none of the seven protected ones |
| WriteAuthority.RcaExactly | scripts/github_repair_authority.py:218-289 | an analysis is accepted if and only if it is read-only, its own, about this very case, complete, and grants some of the eligible candidates or denies |
| WriteAuthority.CompiledValidates | scripts/github_repair_authority.py:292-418 | what was compiled validates, yields the recommended paths, and carries write authority and nothing else |
| WriteAuthority.GrantBindsOneCase | scripts/github_repair_authority.py:350-418 | one grant validates for one failure case, one analysis and one candidate set only |
| WriteAuthority.ChangedCaseIsRefused | scripts/github_repair_authority.py:245-248 | a failure case changed in any way is refused by analysis and grant bound to the original |
| WriteAuthority.GrantedPathsAreEligible | scripts/github_repair_authority.py:350-418 | granted paths are one to sixteen eligible fixed points among the candidates; control-plane ones also lie on the semantic route |
| WriteAuthority.GrantableExactly | scripts/github_repair_authority.py:292-347 | some analysis lets exactly these paths be granted if and only if the failure is in a domain, its binding complete, a machine guard failed, and the policy admits the paths as they stand |
| ScopeCompiler.CollectDistinct | scripts/github_repair_orchestrator_control_plane.py:171-182 | the collecting loop keeps each non-empty normalized form once |
| ScopeCompiler.DistinctPathsExactly | scripts/github_repair_orchestrator_control_plane.py:112-119 | collecting loses nothing if and only if no form is empty or repeated |
| ScopeCompiler.CompileRepairScope | scripts/github_repair_orchestrator_control_plane.py:205-252 | the compiling loop sorts evidence into writable, oracle and excluded paths as specified |
| ScopeCompiler.WritableExactly | scripts/github_repair_orchestrator_control_plane.py:218-230 | a path is writable if and only if it is an eligible fixed point and an existing regular file |
| ScopeCompiler.CompiledScopeExactly | scripts/github_repair_orchestrator_control_plane.py:205-252 | the compiled candidates are exactly the evidence paths that are writable, all from the report's candidates |
| ScopeCompiler.StatusExactly | scripts/github_repair_orchestrator_control_plane.py:205-252 | the status of a compiled case says exactly whether some evidence path is writable and whether one is an oracle |
| ScopeCompiler.EvidenceExactly | scripts/github_repair_orchestrator_control_plane.py:166-202 | the evidence is the candidates in their order, or with changed files exactly those among them |
| ScopeCompiler.LoopBindingExactly | scripts/github_repair_orchestrator_control_plane.py:80-133 | a fed-back case is bound if and only if its feedback is about its domain, expands nothing, continues a round and has the digest of exactly its candidates |
| ScopeCompiler.UnchangedCasePassesPreflight | scripts/github_repair_orchestrator_control_plane.py:274-323 | if the failure case stayed as it was, the Stage-2 preflight would accept every compiled grant with the recommended paths |
| ScopeCompiler.RewrittenCaseFailsPreflight | scripts/github_repair_orchestrator_control_plane.py:305-323 | as written, the wrapper rewrites the failure case after binding, and the preflight accepts no compiled grant |
| FeedbackScope.FeedbackAcceptedExactly | scripts/github_repair_loop_controller.py:576-649 | what the outer loop emits the next round accepts if and only if every emitted path, as the receiver normalizes it, is its own POSIX form |
| FeedbackScope.OriginalDomainExactly | scripts/github_repair_loop_controller.py:180-229 | the original authority is a product's or the control plane's if and only if so classified, the latter with distinct engineering verifiers as candidates and a route that lets nothing else be written |
| FeedbackScope.EmittedExactly | scripts/github_repair_loop_controller.py:576-649 | a repair is fed back if and only if its paths are distinct forms of the original candidates, all of them in the control-plane domain |
| FeedbackScope.SourceAuthorityExactly | scripts/github_stage2_handoff.py:54-160 | a round has a source authority if and only if it has candidates and each is a relative path inside the workspace |
| FeedbackScope.FeedbackBindsPaths | scripts/github_repair_orchestrator_control_plane.py:110-133 | an accepted feedback is refused under any other candidate list: altered, longer, shorter or reordered |
| FeedbackScope.TrimmedIsStable | scripts/github_repair_loop_controller.py:124-133 | an emitted path without blanks at its ends is a fixed point of all three normalizers on the way |
| FeedbackScope.SpaceFreeFeedbackIsAccepted | scripts/github_repair_loop_controller.py:576-649 | for repair paths without whitespace the round trip always succeeds |
| FeedbackScope.DispatchedPaths | scripts/github_repair_loop_controller.py:266-326 | what a dispatched verification names are candidates of the authority, each once, that no normalizer changes; in the control-plane domain all of them in order |
| FeedbackScope.DispatchedFeedbackIsAccepted | scripts/github_repair_loop_controller.py:790-905 | whatever the classifier finds and the router dispatches, its feedback is emitted, hands on exactly the repair paths, and is taken by the compiler of the next round |
| FeedbackScope.BlankComponentIsLost | scripts/github_repair_loop_controller.py:124-151 | taken by themselves sender and receiver do not fit: a failure case with the candidate `w/. /` is emitted for that path and then refused; no dispatch has such a repair path |
| FeedbackScope.RoundNarrowsExactly | scripts/github_stage2_handoff.py:108-117 | a round narrows the candidates if and only if each of its repair paths is the form of a candidate that is its own POSIX form; what it hands on are always forms of candidates |
| FeedbackScope.LaterRoundsNarrow | scripts/github_repair_loop_controller.py:585-604 | from the second round on the candidates only narrow, whatever the first failure case is |
| FeedbackScope.DoubledSlashWidens | scripts/github_repair_loop_controller.py:124-133 | of a candidate with a doubled separator and a plain one the first compiler keeps the plain one alone; if the verification names both, the next case has both, and the second compiler writes the other one exactly when it is a regular file and eligible |
| FeedbackScope.DoubledSlashExample | scripts/github_repair_loop_controller.py:55-60 | one of the family: `contracts//x.py` beside `contracts/y.py` |
| FeedbackScope.ScopeOnlyNarrows | scripts/github_repair_loop_controller.py:585-604 | over any run of rounds no later round considers a path an earlier one did not, except for POSIX forms of first candidates that are not their own; each later path is a form of a first candidate, and was considered first if and only if of one that is its own |
| FeedbackScope.ControlRoundsKeepScope | scripts/github_repair_loop_controller.py:592-601 | in the control-plane domain every round hands on exactly its own candidate sequence |
| SeedRound.RoundStartsExactly | scripts/github_repair_orchestrator.py:206-252 | a dispatched product round can start on the patch of the round before exactly when its binding is complete, it has at most sixteen compiled candidates, and its repair paths name every path the candidate before changed |
| Stage2Loop.RepairTask.RunStage2 | scripts/github_repair_orchestrator.py:283-652 | the cycle loop ends as the history-based specification says, the round never goes back and stays noted when the configuration is missing, and only a ready result marks the source changed |
| Stage2Loop.EndIsUnique | scripts/github_repair_orchestrator.py:414-652 | the specification gives each world one verdict and one list of cycles |
| Stage2Loop.EveryRun | scripts/github_repair_orchestrator.py:414-636 | at most min(max_cycles, 8) cycles; each changes the diff within the grant; all but the last fail; only the last two can share a verifier signature |
| Stage2Loop.ReadyExactly | scripts/github_repair_orchestrator.py:524-607 | a run is ready if and only if its last recorded cycle passed with a non-empty patch |
| Stage2Loop.RevokedExactly | scripts/github_repair_orchestrator.py:609-635 | write authority is revoked if and only if the last two recorded cycles failed with one signature |
| Stage2Loop.VerdictExactly | scripts/github_repair_orchestrator.py:414-652 | why a run ended, verdict by verdict, from the recorded cycles and the one after them; the budget is used up at exactly the smaller of the requested number and eight |
| Publication.BoundExactly | scripts/github_repair_stage3_tree.py:65-111 | a prepared plan can be bound to its own candidate and to no other commit, and then names its tree and the failed head |
| Publication.CanonicalStands | scripts/github_repair_stage3.py:125-133 | a canonical path stands under every later canonical check |
| Publication.InspectedHandoff | scripts/github_repair_stage3.py:221-349 | an inspected handoff carries exactly the scope the grant validates for, and changes inside it |
| Publication.InspectedExactly | scripts/github_repair_stage3.py:221-349 | a handoff is taken if and only if result, failed head, digests, guards, candidates and scope all agree with the grant |
| Publication.PreparedChangesExactly | scripts/github_repair_stage3.py:436-517 | a prepared candidate changes, on the failed head, exactly the handed-off paths, all inside the scope |
| StatusListing.CollectRows | scripts/github_repair_stage3_publish.py:79-86 | the loop over the rows of a status listing collects each path once |
| StatusListing.Stage3Reads | scripts/github_repair_stage3.py:102-116 | Stage 3 reads the paths of a status listing as git reports them |
| StatusListing.PublisherReadsExactly | scripts/github_repair_stage3_publish.py:47-86 | the publisher reads them so if and only if the first row has no blank index column, that is, no tracked file changed; otherwise it misses the first path |
| StatusListing.FirstCharacterIsLost | scripts/github_repair_stage3_publish.py:47-86 | of one changed tracked file the publisher reads the path without its first character, Stage 3 the path |
| StatusListing.LostCharacterExample | scripts/github_repair_stage3_publish.py:47-86 | the publisher reads ` M services/a.py` as `ervices/a.py` |
| Publication.PublicationSucceedsExactly | scripts/github_repair_stage3_publish.py:168-292 | a validated candidate is published, from the state it was validated in, if and only if it changes no file the failed head has |
| Publication.ExistingFilesAreNeverPublished | scripts/github_repair_stage3_publish.py:216-225 | since a repair only changes existing files, the publisher refuses every validated candidate that was prepared in a clean checkout |
| Publication.PublishedChangesExactly | scripts/github_repair_stage3_publish.py:108-292 | a published commit has the validated tree on the failed head, changes exactly the handed-off paths, and all of them are new files |
| Publication.PublishedWithinGrant | scripts/github_repair_stage3_publish.py:168-292 | every published path lies in a grant that validates for the failure case, is an eligible fixed point and a candidate |
| Publication.PublishedWithinEveryEarlierRound | scripts/github_repair_stage3_publish.py:193-225 | whatever a round publishes the compiler considered in that round and every earlier one; in the first, if and only if the path is the form of a candidate that is its own POSIX form |
| Publication.RecordedMeansReverified | scripts/github_repair_stage3.py:735-786 | validation is recorded only if every gate that failed in the failure case was run again and passed |
| Publication.RecordedExactly | scripts/github_repair_stage3.py:708-967 | a validation is recorded if and only if targeted and complete Quick validation passed for this candidate, with the test suites and every guard run again |
| Publication.PublisherChecksExactly | scripts/github_repair_stage3_publish.py:108-292 | the publisher prepares a commit if and only if bound plan and validation agree in every field, head and tree are the validated ones, and the listed paths are the granted ones |
| Publication.LaterRoundReverifiedExactly | scripts/github_repair_stage3.py:735-786 | the guards of a later product round are re-verified if and only if Quick makes the outer loop's own label mandatory; of a control round, if and only if the targeted profile passed |
| CiConvergence.GroupById | scripts/ci_convergence.py:165-172 | grouping fails if and only if an id is malformed, and otherwise holds each id with its rows in order |
| CiConvergence.CheckForRuns | scripts/ci_convergence.py:149-268 | the check with its rebuilt grouping computes the specified check |
| CiConvergence.ReduceCiConvergence | scripts/ci_convergence.py:271-324 | the reducer with its rebuilt grouping computes the specified reduction; on well-formed records its status is the more urgent of the two declaratively specified ones |
| CiConvergence.PassExactly | scripts/ci_convergence.py:149-268 | a workflow passes if and only if, without older attempts of the trigger run, one record is left, it completed with success, and for the trigger's workflow it is the trigger attempt |
| CiConvergence.OtherRunIsPending | scripts/ci_convergence.py:174-200 | a single successful run that is not the trigger's leaves the trigger's workflow pending |
| CiConvergence.PassRestsOnRun | scripts/ci_convergence.py:66-268 | a workflow passes only on a successful run for exactly this head, pull request and workflow file, for the trigger's workflow the trigger itself; and one such run is enough |
| CiConvergence.StatusExactly | scripts/ci_convergence.py:149-268 | on well-formed records the status of a workflow is that of its current records: stale, blocked, failed, passed or pending, each exactly |
| CiConvergence.OverallExactly | scripts/ci_convergence.py:271-324 | the overall status is the most urgent of the two, in the order stale, blocked, failed, pending, passed |
| CiConvergence.MalformedExactly | scripts/ci_convergence.py:149-268 | a workflow is refused if and only if a record has no id, or no attempt where the attempt is looked at |
| CiConvergence.ReducePassExactly | scripts/ci_convergence.py:314-324 | the overall verdict is PASS if and only if both workflows meet that specification |
| CiConvergence.OrderIsImmaterial | scripts/ci_convergence.py:149-324 | permuting the records changes neither verdict nor checks nor errors |
| CiConvergence.IrrelevantRecordsChangeNothing | scripts/ci_convergence.py:66-81 | records that do not match, and older attempts of the trigger run, change nothing wherever they stand |
| ProjectConvergence.OrderSummaries | scripts/project_convergence_controller.py:172-228 | the summaries are taken if and only if there is one valid one per profile of the chain, of one workspace and one catalog; then in chain order |
| ProjectConvergence.AdmissibleMeans | scripts/project_convergence_controller.py:137-228 | admissible summaries are one per profile, verification runs of schema 6 or later with required gates, of one change, workspace and catalog |
| ProjectConvergence.GateExactly | scripts/project_convergence_controller.py:343-401 | a required gate passes or is environment-blocked by its last result |
| ProjectConvergence.RequirementExactly | scripts/project_convergence_controller.py:258-340 | a requirement has no finding if and only if its claim is VERIFIED, and its finding is of the kind its evidence has |
| ProjectConvergence.CollectClaims | scripts/project_convergence_controller.py:231-255 | the claim loops compute the specified evidence or the duplicate error |
| ProjectConvergence.CollectFindings | scripts/project_convergence_controller.py:420-470 | the three finding loops compute the specified list |
| ProjectConvergence.AssessCumulative | scripts/project_convergence_controller.py:404-503 | the whole assessment is the specified one for the chain order of admissible summaries |
| ProjectConvergence.RequirementsConserved | scripts/project_convergence_controller.py:258-340 | verified requirements plus requirement findings are the required requirements, and each unverified one has its own finding |
| ProjectConvergence.NothingIsLost | scripts/project_convergence_controller.py:343-470 | every required gate that did not pass is named by a finding of its profile, and every profile whose decision is not PASS has one |
| ProjectConvergence.NoFindingExactly | scripts/project_convergence_controller.py:427-470 | there is no finding if and only if every requirement is verified, every required gate passed and every decision is PASS |
| ProjectConvergence.VerdictExactly | scripts/project_convergence_controller.py:481-503 | the project is clean if and only if its evidence is clean and every loop closed; clean evidence with an open loop waits for a repair that has no finding |
| ProjectConvergence.WaitsWithoutFinding | scripts/project_convergence_controller.py:481-503 | one admissible passing summary with its requirement verified, whose loop is not `CI_VERIFIED`, makes the project wait for a repair without any finding |
| ProjectConvergence.SupplyOrderIsImmaterial | scripts/project_convergence_controller.py:172-228 | the order of the supplied summaries is immaterial |
| ProjectConvergence.OpenVerdictsExactly | scripts/project_convergence_controller.py:481-503 | the assessment asks for a new plan if and only if a requirement is unaccountable or a failed decision unexplained, and waits for the environment if and only if something is open and the environment accounts for all of it |
| ReleaseLines.ListReadBackExactly | scripts/release_artifact.py:435-435 | the file list is read back as written if and only if every name is non-empty, trimmed and free of line boundaries |
| ReleaseLines.SumsReadBackExactly | scripts/release_artifact.py:506-508 | the checksum list is read back as written if and only if no name holds a line boundary |
| ReleaseTree.VerifyReleaseTree | scripts/release_artifact.py:522-640 | the verifier reports no problem if and only if the tree is accepted |
| ReleaseTree.AcceptedMeans | scripts/release_artifact.py:561-640 | what the manifest, the evidence and the checksums of an accepted tree can be relied on for |
| ReleaseTree.Stage.WriteMetadata | scripts/release_artifact.py:420-519 | the files in the end are those of the stage with the embedded evidence under their description, although manifest and checksums are written twice; it stops, with nothing outside release/ changed and no manifest, exactly when an evidence file or the bundle digest is missing |
| ReleaseTree.CopiesExactly | scripts/release_artifact.py:432-456 | the four embedded copies, each with its source |
| ReleaseTree.RoundTripExactly | scripts/release_artifact.py:420-640 | the verifier accepts what the writer wrote, candidate or protected release, with or without embedded evidence, if and only if the stage, the evidence and the level fit |
| ReleaseTree.ChecksumsPinTheTree | scripts/release_artifact.py:545-559 | two accepted trees with the same checksum list have the same files, given digests that tell their contents apart |
| TaskLedger.TaskRunStore.Perform | skill-system/controller/task_run.py:319-371 | each operation is refused, does nothing, or changes the file by exactly itself, or conflicts |
| TaskLedger.NoLostUpdate | skill-system/controller/task_run.py:264-293 | in every state that keeps the invariant a write changes the file by exactly one operation applied to what is in it |
| TaskLedger.TransitionsExactly | skill-system/controller/task_run.py:28-61 | the status transitions by where they lead: completion only from running or validating, cancellation from all that is not final, nothing out of a final one |
| TaskLedger.LifecycleHolds | scripts/github_repair_exact_head.py:199-256 | over all interleavings: phases imply their conditions, conditions are never cleared, no write is lost, exact-head receipts mean a completed TaskRun |
| TaskLedger.RequiredStays | skill-system/controller/task_run.py:264-371 | what a TaskRun requires never changes over any run, and the five governance conditions are always among it |
| TaskLedger.LooksExactly | scripts/github_repair_exact_head.py:200-213 | a controller goes on after its first look at the TaskRun if and only if that is in its phase and, to publish or certify, waits or validates |
| TaskLedger.GovernanceReceiptComesFirst | scripts/github_repair_governance.py:168-175 | every run with a draft receipt goes on to a governance receipt with the TaskRun as it was; its process goes on if and only if the TaskRun awaited governance |
| TaskLedger.GovernanceReceiptMeansClosureExactly | scripts/github_repair_governance.py:168-199 | a governance receipt means a closed governance if and only if the TaskRun is in a phase from baseline acceptance on; in every other phase some run has the receipt without the closure |
| TaskLedger.StoredReceiptsAreTraced | scripts/github_repair_baseline_acceptance.py:79-116 | over all interleavings every receipt written so far allows no merge, deployment or production close, has the G6 of its stage, and was made from a stored receipt of the stage before with the same G0 to G5 and source identity, carrying its digest |
| TaskLedger.GrantTracesToDraft | scripts/github_repair_merge_grant.py:71-188 | a merge grant issued on any stored receipt, at any time, leads back digest by digest through the store to a published draft, whose tree the baseline receipt still carries; the TaskRun is then completed, and the grant alone allows a merge |
| Receipts.CollectApproved | scripts/github_repair_governance.py:125-131 | the approval loop keeps each cleaned path once |
| Receipts.ValidateExactHeadCi | scripts/github_repair_exact_head.py:77-123 | evidence is taken if and only if every mandatory workflow completed with success, for this commit, as a pull-request run of this very draft |
| Receipts.DraftExactly | scripts/github_repair_stage3_record_publication.py:48-195 | a draft receipt is made if and only if validation and publication agree, G0 to G5 passed and nothing was asserted |
| Receipts.GovernanceExactly | scripts/github_repair_governance.py:58-170 | governance is closed if and only if the draft receipt is in order, actor and approval are named and some path is |
| Receipts.BaselineExactly | scripts/github_repair_baseline_acceptance.py:79-200 | a baseline is accepted if and only if the governance receipt is intact, the checkout is the clean published source, and the drift is exactly the approved one |
| Receipts.ExactHeadExactly | scripts/github_repair_exact_head.py:77-285 | an exact-head receipt is made if and only if the baseline receipt is in order and both mandatory workflows completed with success on the baseline commit, for this draft |
| Receipts.GrantIssuedExactly | scripts/github_repair_merge_grant.py:71-188 | a merge grant is issued if and only if the exact-head receipt is intact, the owner approves, and the pull request is open, ready, mergeable and current with a certified or verified head |
| Receipts.GrantRests | scripts/github_repair_merge_grant.py:80-188 | a merge grant rests on an exact-head receipt, for its commit or a verified merge of it with the live base |
| Receipts.BaselineDriftExactly | scripts/github_repair_baseline_acceptance.py:146-184 | an accepted baseline drifts at exactly the protected paths the published change named |
| ArtifactPages.Scan | scripts/p4_8_evidence_producer.py:361-392 | the paging loop ends and computes the specified scan |
| ArtifactPages.ScanExactly | scripts/p4_8_evidence_producer.py:361-392 | against a fixed list the scan sees exactly the whole list up to ten thousand entries, and is refused beyond |
| ArtifactPages.BindExactly | scripts/p4_8_evidence_producer.py:394-398 | the artifact is bound if and only if the list is short enough and it is the only one with its name |
| ArtifactPages.SuccessSawItsPages | scripts/p4_8_evidence_producer.py:376-392 | against any server a success has seen full pages up to a last one, and everything announced if and only if that one is as long as announced |
| ArtifactPages.TruncatedPageIsAccepted | scripts/p4_8_evidence_producer.py:376-398 | a server that announces two artifacts and returns one is believed: the one is bound as unique |
| TurnMatching.MatchTurns | scripts/analyze_context_campaign.py:229-247 | the k-th turn with a prompt gets the k-th snapshot with that text, and none if and only if there is none |
| TurnMatching.GreedyIsJoin | scripts/analyze_context_campaign.py:229-247 | each snapshot is used at most once |
| TurnMatching.GreedyIsLargest | scripts/analyze_context_campaign.py:229-247 | per prompt the greedy join reaches the smaller of the two counts, and no join reaches more |

## Left out

- Command-line parsing, JSON reading and writing, `GITHUB_OUTPUT` files, printing and exit codes: plumbing.
- Prompt texts, model requests and format retries, syntax checks of changed files, timeouts, process groups: foreign effects.
- SHA-256, HMAC and ZIP bytes, file modes and file times: abstract, as said above.
- The words of the failure classifier's term lists and of the secret redaction: a scan result says which kind of term occurs; the order of the tests is modelled.
- Building the failure fingerprint of the outer loop and the texts of its stop reasons: an opaque fingerprint is compared.
- `scripts/quality_loop.py`: baseline capture, claim evaluation, the workspace-immutability result appended after the loop, the fields of summaries and attestation.
- GateRun.QualityRun.RunGate: the atomic rename behind a checkpoint write is one step; a crash inside the rename is not modelled.
- TargetRun.TargetRun.Process: writing the state is one step, and so is writing the summary with its plan and attestation; a baseline that reproduces no failure, which is rejected before its state is written, and changes of the workspace between two processes are not modelled.
- RunLocks.MutualExclusion: the lock file's name identifies the evidence directory and the target, as the code assumes of resolved paths; hard links and bind mounts are outside.
- RepairLoop.LoopEnds: the chain assumptions (each verification reads the state before it, a dispatch is verified at its next round, a retry keeps its candidate) are stated in `Chained`; `RepairLoop.ProgressExactly` says what happens without them.
- Stage2Loop.RepairTask.RunStage2: the preflight checks, the seed patch and the grant re-validation of each cycle are one input each; the preflight's authority part is `ScopeCompiler.Preflight`, and the check of the seed patch is `SeedRound.SeedStands`.
- SeedRound.RoundStartsExactly: the form, size and application of the seed patch; the analysis of the new round is any that the grant compiler takes.
- FixerChanges.Workspace.Repair: files are named by path components; two paths that meet through a symbolic link of a parent directory are not identified, and a failure between two file replacements is not modelled.
- FixerPaths.FiltersAgree: reading candidate contents, their size limits and the secrecy of oracle files.
- WriteAuthority.GrantExactly: the analysis step that produces the RCA, and revocation receipts.
- ScopeCompiler.CompileRepairScope: the recognition of test oracles is a parameter, and the reasons recorded for excluded paths are dropped.
- FeedbackScope.ScopeOnlyNarrows: branch names, run ids and the route digest of the source authority, and the fields of a handoff result that Stage 3 checks again.
- FeedbackScope.DispatchedFeedbackIsAccepted: the classifier's path pattern is modelled by what it never matches, whitespace, and by the loop's form of what it matches.
- Publication.PublishedWithinGrant: patch digests, Git configuration, the choice of targeted components, and the derived-path fields that are always empty.
- StatusListing.PublisherReadsExactly: renames and the paths git prints in quotes (blanks, quotes, backslashes, control or non-ASCII characters); a status listing is that of a work tree a patch was applied to.
- Publication.PublishedChangesExactly: that git's names tell apart the commits and trees it compares is a hypothesis (`ToldApart`).
- CiConvergence.ReduceCiConvergence: the format checks of its scalar arguments, the convergence digest, and `build_source_convergence`.
- ProjectConvergence.AssessCumulative: the catalog's own validation, the descriptive texts of a finding, the final sort for display with its next finding, and the state and report files.
- ReleaseTree.Stage.WriteMetadata: verifying the quality evidence before it is embedded, and packing its bundle; what the summary says of the run is a parameter.
- ReleaseTree.RoundTripExactly: which names are forbidden and which top-level names are allowed is a parameter; a tree without a VERSION file, at which the verifier raises, is simply not accepted.
- TaskLedger.LifecycleHolds: evidence references, timestamps and metadata of checkpoints, action attempts, and the resume fingerprint; the conditions a ledger knows are those it requires.
- TaskLedger.GrantTracesToDraft: receipts are self-digested but not signed; controllers read the receipts that controllers wrote.
- Receipts.BaselineDriftExactly: building the protected snapshot and committing the baseline file.
- ArtifactPages.BindExactly: the field checks of one artifact and the binding to the workflow run.
- TurnMatching.MatchTurns: classification, tool traces and the Markdown report.
- `production_certification_contract.py`, `release_admission_contract.py`, `protected_environment_preflight.py`, `host_execution_preflight.py`, `quality_toolchain_contract.py` and the event binders: long lists of independent field checks that would add only easy members.
- Fixture generators, cleaners, bootstrap and wrapper scripts.
