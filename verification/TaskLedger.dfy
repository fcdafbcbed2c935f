/** The durable task ledger and the governance controllers that share it
    (skill-system/controller/task_run.py, scripts/github_repair_stage3_record_publication.py,
    scripts/github_repair_governance.py, scripts/github_repair_baseline_acceptance.py,
    scripts/github_repair_exact_head.py). */
module TaskLedger {
  import opened Wrappers
  import Receipts

  datatype Status =
    | CREATED | PLANNED | RUNNING | WAITING_EXTERNAL_RESULT | FAILED_RECOVERABLE | REPAIRING | VALIDATING
    | COMPLETED | BLOCKED | CANCELLED

  function Allowed(s: Status): set<Status> {
    match s
    case CREATED => {PLANNED, RUNNING, BLOCKED, CANCELLED}
    case PLANNED => {RUNNING, BLOCKED, CANCELLED}
    case RUNNING =>
      {RUNNING, WAITING_EXTERNAL_RESULT, FAILED_RECOVERABLE, REPAIRING, VALIDATING, BLOCKED, COMPLETED, CANCELLED}
    case WAITING_EXTERNAL_RESULT => {RUNNING, FAILED_RECOVERABLE, VALIDATING, BLOCKED, CANCELLED}
    case FAILED_RECOVERABLE => {RUNNING, REPAIRING, VALIDATING, BLOCKED, CANCELLED}
    case REPAIRING => {RUNNING, FAILED_RECOVERABLE, VALIDATING, BLOCKED, CANCELLED}
    case VALIDATING =>
      {RUNNING, WAITING_EXTERNAL_RESULT, FAILED_RECOVERABLE, REPAIRING, VALIDATING, BLOCKED, COMPLETED, CANCELLED}
    case COMPLETED => {}
    case BLOCKED => {RUNNING, REPAIRING, VALIDATING, CANCELLED}
    case CANCELLED => {}
  }

  /** The transitions, by where they lead: nothing leads back to the start, completion comes only from running or
      validating, cancellation from every status that is not final, and nothing leaves a final one. */
  lemma {:induction false} TransitionsExactly(from: Status, to: Status)
    ensures to in Allowed(from) <==>
              match to
              case CREATED => false
              case PLANNED => from == CREATED
              case RUNNING => from != COMPLETED && from != CANCELLED
              case WAITING_EXTERNAL_RESULT | COMPLETED => from == RUNNING || from == VALIDATING
              case FAILED_RECOVERABLE => from in {RUNNING, WAITING_EXTERNAL_RESULT, REPAIRING, VALIDATING}
              case REPAIRING => from in {RUNNING, FAILED_RECOVERABLE, VALIDATING, BLOCKED}
              case VALIDATING => from !in {CREATED, PLANNED, COMPLETED, CANCELLED}
              case BLOCKED => from !in {BLOCKED, COMPLETED, CANCELLED}
              case CANCELLED => from !in {COMPLETED, CANCELLED}
  {
  }

  datatype Condition =
    | DraftPrPublished | GovernanceClosed | BaselineAccepted | ExactHeadCertified | ReadyForReview
    | OtherCondition(name: string)

  datatype Phase =
    | GovernanceRequired
    | BaselineRequired
    | ExactHeadRequired
    | ExactHeadValidating
    | CompletedPhase
    | DraftPrRequired
    | OtherPhase(name: string)

  datatype Ledger = Ledger(revision: nat, status: Status, phase: Phase, required: set<Condition>,
      satisfied: set<Condition>)

  datatype Op =
    | Mark(condition: Condition)
    | MarkUnlessSet(condition: Condition)
    | Checkpoint(status: Status, phase: Phase)
    | CheckpointUnlessThere(status: Status, phase: Phase)
    | Complete

  /** What an operation makes of a ledger before it is written. */
  datatype Effect = Refused | Nothing | Change(ledger: Ledger)

  function CheckpointEffect(l: Ledger, status: Status, phase: Phase): Effect {
    if status == l.status || status in Allowed(l.status) then Change(l.(status := status, phase := phase)) else Refused
  }

  /** Conditions are known because they are required. */
  function MarkEffect(l: Ledger, c: Condition): Effect {
    if c in l.required then Change(l.(satisfied := l.satisfied + {c})) else Refused
  }

  function Apply(op: Op, l: Ledger): Effect {
    match op
    case Mark(c) => MarkEffect(l, c)
    case MarkUnlessSet(c) => if c in l.satisfied then Nothing else MarkEffect(l, c)
    case Checkpoint(status, phase) => CheckpointEffect(l, status, phase)
    case CheckpointUnlessThere(status, phase) =>
      if l.status == status && l.phase == phase then Nothing else CheckpointEffect(l, status, phase)
    case Complete => if l.required <= l.satisfied then CheckpointEffect(l, COMPLETED, CompletedPhase) else Refused
  }

  // ---------- The store ----------

  class LedgerFile {
    var ledger: Ledger

    constructor (ledger: Ledger)
      ensures this.ledger == ledger
    {
      this.ledger := ledger;
    }
  }

  datatype Written = Ok | OpRefused | Conflict

  /** One process's copy of the ledger file. */
  class TaskRunStore {
    const file: LedgerFile
    var payload: Ledger

    constructor (file: LedgerFile)
      ensures this.file == file && payload == file.ledger
    {
      this.file := file;
      this.payload := file.ledger;
    }

    /** Writes only over the revision this copy was read at. */
    method LockedWrite() returns (ok: bool)
      modifies this, file
      ensures ok == (old(file.ledger).revision == old(payload).revision)
      ensures file.ledger == if ok then old(payload).(revision := old(payload).revision + 1) else old(file.ledger)
      ensures ok ==> payload == file.ledger
    {
      if file.ledger.revision != payload.revision {
        return false;
      }
      payload := payload.(revision := payload.revision + 1);
      file.ledger := payload;
      return true;
    }

    /** One operation on the copy and, if it changes anything, its write. */
    method Perform(op: Op) returns (w: Written)
      modifies this, file
      ensures match Apply(op, old(payload))
              case Refused => w == OpRefused && file.ledger == old(file.ledger)
              case Nothing => w == Ok && file.ledger == old(file.ledger) && payload == old(payload)
              case Change(next) =>
                if old(file.ledger).revision == old(payload).revision then
                  && w == Ok && file.ledger == next.(revision := next.revision + 1) && payload == file.ledger
                else w == Conflict && file.ledger == old(file.ledger)
    {
      match op
      case Mark(c) => w := MarkCondition(c);
      case MarkUnlessSet(c) =>
        if c in payload.satisfied {
          return Ok;
        }
        w := MarkCondition(c);
      case Checkpoint(status, phase) => w := WriteCheckpoint(status, phase);
      case CheckpointUnlessThere(status, phase) =>
        if payload.status == status && payload.phase == phase {
          return Ok;
        }
        w := WriteCheckpoint(status, phase);
      case Complete =>
        if !(payload.required <= payload.satisfied) {
          return OpRefused;
        }
        w := WriteCheckpoint(COMPLETED, CompletedPhase);
    }

    method MarkCondition(c: Condition) returns (w: Written)
      modifies this, file
      ensures c !in old(payload).required ==> w == OpRefused && file.ledger == old(file.ledger)
      ensures c in old(payload).required ==>
                if old(file.ledger).revision == old(payload).revision then
                  && w == Ok && payload == file.ledger
                  && file.ledger == old(payload).(satisfied := old(payload).satisfied + {c},
                                                  revision := old(payload).revision + 1)
                else w == Conflict && file.ledger == old(file.ledger)
    {
      if c !in payload.required {
        return OpRefused;
      }
      payload := payload.(satisfied := payload.satisfied + {c});
      var ok := LockedWrite();
      return if ok then Ok else Conflict;
    }

    method WriteCheckpoint(status: Status, phase: Phase) returns (w: Written)
      modifies this, file
      ensures CheckpointEffect(old(payload), status, phase) == Refused ==>
              w == OpRefused && file.ledger == old(file.ledger)
      ensures CheckpointEffect(old(payload), status, phase) != Refused ==>
                if old(file.ledger).revision == old(payload).revision then
                  && w == Ok && payload == file.ledger
                  && file.ledger == old(payload).(status := status, phase := phase,
                                                  revision := old(payload).revision + 1)
                else w == Conflict && file.ledger == old(file.ledger)
    {
      if status != payload.status && status !in Allowed(payload.status) {
        return OpRefused;
      }
      payload := payload.(status := status, phase := phase);
      var ok := LockedWrite();
      return if ok then Ok else Conflict;
    }
  }

  // ---------- Controllers as processes ----------

  type Receipt = Receipts.Receipt

  datatype Todo =
    | WriteReceipt(receipt: Receipt)
    | Load(phases: set<Phase>, statuses: set<Status>)
    | Reload
    | Do(op: Op)

  /** A controller with its inputs; all but the first read a receipt of an earlier stage. */
  datatype Controller =
    | RecordPublication(publication: Receipts.Publication)
    | CloseGovernance(draft: Receipt, actor: string, approval: string)
    | AcceptBaseline(governed: Receipt, world: Receipts.BaselineWorld)
    | FinalizeExactHead(baseline: Receipt, ci: Receipts.CiEvidence, numberOf: string -> Option<nat>)
    | Other(ops: seq<Op>)

  /** The receipt a controller makes of its inputs, if it accepts them. */
  function Made(c: Controller): Option<Receipt> {
    match c
    case RecordPublication(publication) => Receipts.RecordPublication(publication)
    case CloseGovernance(draft, actor, approval) => Receipts.CloseGovernance(draft, actor, approval)
    case AcceptBaseline(governed, world) => Receipts.AcceptBaseline(governed, world)
    case FinalizeExactHead(baseline, ci, numberOf) => Receipts.FinalizeExactHead(baseline, ci, numberOf)
    case Other(_) => None
  }

  function Read(c: Controller): Option<Receipt> {
    match c
    case CloseGovernance(draft, _, _) => Some(draft)
    case AcceptBaseline(governed, _) => Some(governed)
    case FinalizeExactHead(baseline, _, _) => Some(baseline)
    case RecordPublication(_) | Other(_) => None
  }

  /** What a controller that accepted its inputs does to the ledger, and when it writes its receipt. */
  function Program(c: Controller): seq<Todo>
    requires c.Other? || Made(c).Some?
  {
    match c
    case RecordPublication(_) =>
      [Load({DraftPrRequired}, {WAITING_EXTERNAL_RESULT, VALIDATING}), Do(MarkUnlessSet(DraftPrPublished)),
       Do(Checkpoint(WAITING_EXTERNAL_RESULT, GovernanceRequired)), WriteReceipt(Made(c).value)]
    case CloseGovernance(_, _, _) =>
      [WriteReceipt(Made(c).value), Load({GovernanceRequired}, AllStatuses()), Do(Mark(GovernanceClosed)),
       Do(Checkpoint(WAITING_EXTERNAL_RESULT, BaselineRequired))]
    case AcceptBaseline(_, _) =>
      [WriteReceipt(Made(c).value), Load({BaselineRequired}, AllStatuses()), Do(Mark(BaselineAccepted)),
       Do(Checkpoint(WAITING_EXTERNAL_RESULT, ExactHeadRequired))]
    case FinalizeExactHead(_, _, _) =>
      [Load({ExactHeadRequired, ExactHeadValidating}, {WAITING_EXTERNAL_RESULT, VALIDATING}),
       Do(Mark(ExactHeadCertified)),
       Do(Mark(ReadyForReview)), Do(CheckpointUnlessThere(VALIDATING, ExactHeadValidating)), Do(Complete),
       WriteReceipt(Made(c).value)]
    case Other(ops) => [Reload] + seq(|ops|, i requires 0 <= i < |ops| => Do(ops[i]))
  }

  function AllStatuses(): set<Status> {
    {CREATED, PLANNED, RUNNING, WAITING_EXTERNAL_RESULT, FAILED_RECOVERABLE, REPAIRING, VALIDATING, COMPLETED, BLOCKED,
     CANCELLED}
  }

  /** Every other controller may mark conditions, complete the TaskRun, or checkpoint phases of its own. */
  predicate Outside(op: Op) {
    match op
    case Mark(_) | MarkUnlessSet(_) | Complete => true
    case Checkpoint(status, phase) => status != COMPLETED && (phase.OtherPhase? || phase.DraftPrRequired?)
    case CheckpointUnlessThere(status, phase) => status != COMPLETED && (phase.OtherPhase? || phase.DraftPrRequired?)
  }

  /** Receipts are read from those written before. */
  predicate CanStart(c: Controller, store: set<Receipt>) {
    if c.Other? then
      forall i :: 0 <= i < |c.ops| ==> Outside(c.ops[i])
    else
      Made(c).Some? && (Read(c).Some? ==> Read(c).value in store)
  }

  datatype Process = Process(local: Option<Ledger>, todo: seq<Todo>)

  /** The ledger file, the controllers at work, and all receipts written so far. */
  datatype State = State(disk: Ledger, processes: seq<Process>, store: set<Receipt>)

  const GOVERNED: set<Condition> :=
    {DraftPrPublished, GovernanceClosed, BaselineAccepted, ExactHeadCertified, ReadyForReview}

  /** A failed operation ends the process. */
  function Dead(): Process {
    Process(None, [])
  }

  /** One process executes its next action against the shared ledger. */
  function Step(s: State, i: nat): State
    requires i < |s.processes| && s.processes[i].todo != []
  {
    var p := s.processes[i];
    var rest := p.todo[1..];
    match p.todo[0]
    case WriteReceipt(receipt) =>
      s.(store := s.store + {receipt}, processes := s.processes[i := p.(todo := rest)])
    case Reload =>
      s.(processes := s.processes[i := Process(Some(s.disk), rest)])
    case Load(phases, statuses) =>
      if s.disk.phase in phases && s.disk.status in statuses then
        s.(processes := s.processes[i := Process(Some(s.disk), rest)])
      else
        s.(processes := s.processes[i := Dead()])
    case Do(op) =>
      if p.local.None? then s.(processes := s.processes[i := Dead()])
      else
        match Apply(op, p.local.value)
        case Refused => s.(processes := s.processes[i := Dead()])
        case Nothing => s.(processes := s.processes[i := p.(todo := rest)])
        case Change(next) =>
          if s.disk.revision != p.local.value.revision then s.(processes := s.processes[i := Dead()])
          else
            var written := next.(revision := next.revision + 1);
            s.(disk := written, processes := s.processes[i := Process(Some(written), rest)])
  }

  ghost predicate Next(s: State, t: State) {
    || (exists i :: 0 <= i < |s.processes| && s.processes[i].todo != [] && t == Step(s, i))
    || exists c :: CanStart(c, s.store) && t == Started(s, c)
  }

  function Started(s: State, c: Controller): State
    requires CanStart(c, s.store)
  {
    s.(processes := s.processes + [Process(None, Program(c))])
  }

  predicate Initial(s: State) {
    && s.processes == [] && s.store == {} && GOVERNED <= s.disk.required
    && (s.disk.phase.OtherPhase? || s.disk.phase.DraftPrRequired?) && s.disk.status != COMPLETED
  }

  ghost predicate Run(states: seq<State>) {
    && states != [] && Initial(states[0])
    && forall i :: 0 <= i < |states| - 1 ==> Next(states[i], states[i + 1])
  }

  // ---------- What every interleaving keeps ----------

  /** The conditions a phase stands for. */
  function Needs(phase: Phase): set<Condition> {
    match phase
    case GovernanceRequired => {DraftPrPublished}
    case BaselineRequired => {DraftPrPublished, GovernanceClosed}
    case ExactHeadRequired => {DraftPrPublished, GovernanceClosed, BaselineAccepted}
    case ExactHeadValidating => GOVERNED
    case CompletedPhase => GOVERNED
    case DraftPrRequired | OtherPhase(_) => {}
  }

  predicate Earned(l: Ledger) {
    && GOVERNED <= l.required
    && Needs(l.phase) <= l.satisfied
    && (l.status == COMPLETED ==> l.required <= l.satisfied && l.phase == CompletedPhase)
    && (l.phase == CompletedPhase ==> l.status == COMPLETED)
  }

  /** The rest of a program only reaches phases it has earned by then, starting from `have`. */
  ghost predicate Fits(todo: seq<Todo>, have: set<Condition>) {
    if todo == [] then
      true
    else
      match todo[0]
      case WriteReceipt(receipt) =>
        && (receipt.body.stage == Receipts.DraftPublished ==> DraftPrPublished in have)
        && receipt.body.stage != Receipts.ReadyForReview
        && Fits(todo[1..], have)
      case Reload => Fits(todo[1..], {})
      case Load(phases, _) => forall phase :: phase in phases ==> Fits(todo[1..], Needs(phase))
      case Do(Mark(c)) => Fits(todo[1..], have + {c})
      case Do(MarkUnlessSet(c)) => Fits(todo[1..], have + {c})
      case Do(Checkpoint(status, phase)) =>
        status != COMPLETED && phase != CompletedPhase && Needs(phase) <= have && Fits(todo[1..], have)
      case Do(CheckpointUnlessThere(status, phase)) =>
        status != COMPLETED && phase != CompletedPhase && Needs(phase) <= have && Fits(todo[1..], have)
      case Do(Complete) => ExactHeadIsLeft(todo[1..]) || Fits(todo[1..], have)
  }

  /** All that is left to do is to write an exact-head receipt. */
  predicate ExactHeadIsLeft(todo: seq<Todo>) {
    |todo| == 1 && todo[0].WriteReceipt? && todo[0].receipt.body.stage == Receipts.ReadyForReview
  }

  /** No copy is ahead of the file, and a copy of the file's revision is the file. */
  ghost predicate Current(local: Ledger, disk: Ledger) {
    local.revision <= disk.revision && (local.revision == disk.revision ==> local == disk)
  }

  ghost predicate ProcessOk(p: Process, disk: Ledger) {
    && (p.local.Some? ==>
          Current(p.local.value, disk) && Earned(p.local.value) && p.local.value.satisfied <= disk.satisfied)
    && (ExactHeadIsLeft(p.todo) || Fits(p.todo, if p.local.Some? then p.local.value.satisfied else {}))
    && (ExactHeadIsLeft(p.todo) ==> disk.status == COMPLETED)
  }

  ghost predicate Inv(s: State) {
    && Earned(s.disk)
    && (forall i :: 0 <= i < |s.processes| ==> ProcessOk(s.processes[i], s.disk))
    && forall r :: r in s.store ==> StageReached(r.body.stage, s.disk)
  }

  /** What a receipt of this stage proves about the ledger. */
  predicate StageReached(stage: Receipts.Stage, disk: Ledger) {
    && (stage == Receipts.DraftPublished ==> DraftPrPublished in disk.satisfied)
    && (stage == Receipts.ReadyForReview ==> disk.status == COMPLETED)
  }

  lemma {:induction false} FitsMonotone(todo: seq<Todo>, have: set<Condition>, more: set<Condition>)
    requires Fits(todo, have) && have <= more
    ensures Fits(todo, more)
  {
    if todo != [] {
      match todo[0]
      case WriteReceipt(_) => FitsMonotone(todo[1..], have, more);
      case Reload =>
      case Load(phases, _) =>
      case Do(Mark(c)) => FitsMonotone(todo[1..], have + {c}, more + {c});
      case Do(MarkUnlessSet(c)) => FitsMonotone(todo[1..], have + {c}, more + {c});
      case Do(Checkpoint(_, _)) => FitsMonotone(todo[1..], have, more);
      case Do(CheckpointUnlessThere(_, _)) => FitsMonotone(todo[1..], have, more);
      case Do(Complete) =>
        if !ExactHeadIsLeft(todo[1..]) {
          FitsMonotone(todo[1..], have, more);
        }
    }
  }

  /** Operations keep what is earned, never clear a condition and never leave COMPLETED. */
  lemma {:induction false} ApplyKeeps(todo: seq<Todo>, l: Ledger)
    requires todo != [] && todo[0].Do? && Earned(l) && Fits(todo, l.satisfied)
    requires Apply(todo[0].op, l).Change?
    ensures var next := Apply(todo[0].op, l).ledger;
            && Earned(next) && l.satisfied <= next.satisfied && next.revision == l.revision
            && (l.status == COMPLETED ==> next.status == COMPLETED)
            && (if ExactHeadIsLeft(todo[1..]) then next.status == COMPLETED
                else Fits(todo[1..], next.satisfied))
  {
    hide Allowed;
    if ExactHeadIsLeft(todo[1..]) {
      ExactNeedsComplete(todo, l.satisfied);
    }
    if l.status == COMPLETED {
      CompletedIsFinal();
    }
  }

  lemma {:induction false} CompletedIsFinal()
    ensures Allowed(COMPLETED) == {} && Needs(CompletedPhase) == GOVERNED
  {
  }

  lemma {:induction false} ExactNeedsComplete(todo: seq<Todo>, have: set<Condition>)
    requires todo != [] && todo[0].Do? && Fits(todo, have) && ExactHeadIsLeft(todo[1..])
    ensures todo[0].op == Complete
  {
    ExactAlone(todo[1..]);
  }

  lemma {:induction false} ExactAlone(todo: seq<Todo>)
    ensures forall have :: ExactHeadIsLeft(todo) ==> !Fits(todo, have)
  {
  }

  /** A process is undisturbed when another one writes. */
  lemma {:induction false} OthersStayOk(p: Process, disk: Ledger, next: Ledger)
    requires ProcessOk(p, disk) && next.revision > disk.revision && disk.satisfied <= next.satisfied
    requires disk.status == COMPLETED ==> next.status == COMPLETED
    ensures ProcessOk(p, next)
  {
    hide Fits, Earned;
  }

  lemma {:induction false} NothingKeeps(todo: seq<Todo>, l: Ledger)
    requires todo != [] && todo[0].Do? && Fits(todo, l.satisfied) && Apply(todo[0].op, l) == Nothing
    ensures ExactHeadIsLeft(todo[1..]) || Fits(todo[1..], l.satisfied)
    ensures !ExactHeadIsLeft(todo[1..])
  {
    if ExactHeadIsLeft(todo[1..]) {
      ExactNeedsComplete(todo, l.satisfied);
    }
    if todo[0].op.MarkUnlessSet? {
      assert l.satisfied + {todo[0].op.condition} == l.satisfied;
    }
  }

  /** A write by a process that is up to date changes the file by exactly its operation. */
  lemma {:induction false} NoLostUpdate(s: State, i: nat)
    requires Inv(s) && i < |s.processes| && s.processes[i].todo != []
    ensures Step(s, i).disk == s.disk ||
            exists op :: Apply(op, s.disk).Change?
                         && Step(s, i).disk == Apply(op, s.disk).ledger.(revision := s.disk.revision + 1)
  {
    hide Fits, Earned;
    var p := s.processes[i];
    if p.todo[0].Do? && Step(s, i).disk != s.disk {
      assert ProcessOk(p, s.disk);
      assert p.local.value == s.disk;
      assert Apply(p.todo[0].op, s.disk).ledger.revision == s.disk.revision;
    }
  }

  lemma {:induction false} StepDoKeeps(s: State, i: nat)
    requires Inv(s) && i < |s.processes| && s.processes[i].todo != [] && s.processes[i].todo[0].Do?
    ensures Inv(Step(s, i)) && s.disk.satisfied <= Step(s, i).disk.satisfied
            && s.disk.revision <= Step(s, i).disk.revision
  {
    hide Fits, Earned, Apply;
    var p, t := s.processes[i], Step(s, i);
    assert ProcessOk(p, s.disk);
    DeadIsOk(s.disk);
    if p.local.Some? {
      ExactHeadIsNoOp(p.todo);
      match Apply(p.todo[0].op, p.local.value)
      case Refused =>
      case Nothing => NothingKeeps(p.todo, p.local.value);
      case Change(next) =>
        if s.disk.revision == p.local.value.revision {
          ApplyKeeps(p.todo, p.local.value);
          EarnedRevision(next, next.revision + 1);
          forall j | 0 <= j < |t.processes|
            ensures ProcessOk(t.processes[j], t.disk)
          {
            if j != i {
              OthersStayOk(s.processes[j], s.disk, t.disk);
            }
          }
        }
    }
  }

  lemma {:induction false} ExactHeadIsNoOp(todo: seq<Todo>)
    requires todo != [] && todo[0].Do?
    ensures !ExactHeadIsLeft(todo)
  {
  }

  lemma {:induction false} EarnedRevision(l: Ledger, revision: nat)
    requires Earned(l)
    ensures Earned(l.(revision := revision))
  {
  }

  lemma {:induction false} DeadIsOk(disk: Ledger)
    ensures ProcessOk(Dead(), disk)
  {
  }

  lemma {:induction false} StepReadKeeps(s: State, i: nat)
    requires Inv(s) && i < |s.processes| && s.processes[i].todo != [] && !s.processes[i].todo[0].Do?
    ensures Inv(Step(s, i)) && Step(s, i).disk == s.disk
  {
    hide Earned, Needs;
    var p := s.processes[i];
    assert ProcessOk(p, s.disk);
    DeadIsOk(s.disk);
    if !ExactHeadIsLeft(p.todo) {
      match p.todo[0]
      case WriteReceipt(_) => RestOfReceipt(p.todo, if p.local.Some? then p.local.value.satisfied else {});
      case Reload => LoadFits(p.todo, {}, s.disk);
      case Load(phases, _) =>
        if s.disk.phase in phases {
          NeedsEarned(s.disk);
          LoadFits(p.todo, Needs(s.disk.phase), s.disk);
        }
    }
  }

  lemma {:induction false} NeedsEarned(l: Ledger)
    requires Earned(l)
    ensures Needs(l.phase) <= l.satisfied
  {
  }

  lemma {:induction false} LoadFits(todo: seq<Todo>, have: set<Condition>, disk: Ledger)
    requires todo != [] && Fits(todo[1..], have) && have <= disk.satisfied
    ensures Fits(todo[1..], disk.satisfied)
  {
    FitsMonotone(todo[1..], have, disk.satisfied);
  }

  lemma {:induction false} RestOfReceipt(todo: seq<Todo>, have: set<Condition>)
    requires todo != [] && todo[0].WriteReceipt? && Fits(todo, have)
    ensures Fits(todo[1..], have) && todo[0].receipt.body.stage != Receipts.ReadyForReview
    ensures todo[0].receipt.body.stage == Receipts.DraftPublished ==> DraftPrPublished in have
  {
  }

  // ---------- Starting ----------

  lemma {:induction false} OutsideFits(ops: seq<Op>, have: set<Condition>)
    requires forall i :: 0 <= i < |ops| ==> Outside(ops[i])
    ensures Fits(seq(|ops|, i requires 0 <= i < |ops| => Do(ops[i])), have)
  {
    var todo := seq(|ops|, i requires 0 <= i < |ops| => Do(ops[i]));
    if ops != [] {
      var more := if ops[0].Mark? || ops[0].MarkUnlessSet? then have + {ops[0].condition} else have;
      OutsideFits(ops[1..], more);
      assert todo[1..] == seq(|ops[1..]|, i requires 0 <= i < |ops[1..]| => Do(ops[1..][i]));
      assert todo[0] == Do(ops[0]) && Outside(ops[0]);
    }
  }

  lemma {:induction false} ProgramFits(c: Controller, store: set<Receipt>)
    requires CanStart(c, store)
    ensures Fits(Program(c), {}) && !ExactHeadIsLeft(Program(c))
  {
    match c
    case RecordPublication(_) => PublicationFits(c);
    case CloseGovernance(_, _, _) => MiddleFits(Made(c).value, GovernanceRequired, GovernanceClosed, BaselineRequired);
    case AcceptBaseline(_, _) => MiddleFits(Made(c).value, BaselineRequired, BaselineAccepted, ExactHeadRequired);
    case FinalizeExactHead(_, _, _) => FinalizeFits(c);
    case Other(ops) =>
      OutsideFits(ops, {});
      var rest := seq(|ops|, i requires 0 <= i < |ops| => Do(ops[i]));
      assert ([Reload] + rest)[1..] == rest;
  }

  lemma {:induction false} FitsStep(first: Todo, rest: seq<Todo>, have: set<Condition>)
    requires first.Do? && (first.op.Mark? || first.op.MarkUnlessSet?)
    ensures Fits([first] + rest, have) == Fits(rest, have + {first.op.condition})
  {
    assert ([first] + rest)[1..] == rest;
  }

  lemma {:induction false} FitsCheckpoint(first: Todo, rest: seq<Todo>, have: set<Condition>)
    requires first.Do? && (first.op.Checkpoint? || first.op.CheckpointUnlessThere?)
    requires first.op.status != COMPLETED && first.op.phase != CompletedPhase && Needs(first.op.phase) <= have
    ensures Fits([first] + rest, have) == Fits(rest, have)
  {
    assert ([first] + rest)[1..] == rest;
  }

  lemma {:induction false} PublicationFits(c: Controller)
    requires c.RecordPublication? && Made(c).Some?
    ensures Fits(Program(c), {})
  {
    var have: set<Condition> := {} + {DraftPrPublished};
    var write := [WriteReceipt(Made(c).value)];
    assert write[1..] == [];
    var check := Do(Checkpoint(WAITING_EXTERNAL_RESULT, GovernanceRequired));
    FitsCheckpoint(check, write, have);
    FitsStep(Do(MarkUnlessSet(DraftPrPublished)), [check] + write, {});
    assert Program(c)[1..] == [Do(MarkUnlessSet(DraftPrPublished))] + ([check] + write);
  }

  lemma {:induction false} MiddleFits(r: Receipt, at: Phase, c: Condition, to: Phase)
    requires r.body.stage == Receipts.GovernanceDone || r.body.stage == Receipts.BaselineDone
    requires Needs(to) <= Needs(at) + {c} && to != CompletedPhase
    ensures Fits([WriteReceipt(r), Load({at}, AllStatuses()), Do(Mark(c)),
                  Do(Checkpoint(WAITING_EXTERNAL_RESULT, to))], {})
  {
    var check := Do(Checkpoint(WAITING_EXTERNAL_RESULT, to));
    assert [check] + [] == [check];
    FitsCheckpoint(check, [], Needs(at) + {c});
    FitsStep(Do(Mark(c)), [check], Needs(at));
    var loaded := [Load({at}, AllStatuses()), Do(Mark(c)), check];
    assert loaded[1..] == [Do(Mark(c))] + [check];
    assert [WriteReceipt(r), Load({at}, AllStatuses()), Do(Mark(c)), check][1..] == loaded;
  }

  lemma {:induction false} FinalizeFits(c: Controller)
    requires c.FinalizeExactHead? && Made(c).Some?
    ensures Fits(Program(c), {})
  {
    var write := [WriteReceipt(Made(c).value)];
    var complete := [Do(Complete)] + write;
    assert complete[1..] == write;
    var check := Do(CheckpointUnlessThere(VALIDATING, ExactHeadValidating));
    var first, second := Do(Mark(ExactHeadCertified)), Do(Mark(ReadyForReview));
    forall phase | phase in {ExactHeadRequired, ExactHeadValidating}
      ensures Fits([first] + ([second] + ([check] + complete)), Needs(phase))
    {
      var have := Needs(phase) + {ExactHeadCertified} + {ReadyForReview};
      assert GOVERNED <= have;
      FitsCheckpoint(check, complete, have);
      FitsStep(second, [check] + complete, Needs(phase) + {ExactHeadCertified});
      FitsStep(first, [second] + ([check] + complete), Needs(phase));
    }
    assert Program(c)[1..] == [first] + ([second] + ([check] + complete));
  }

  // ---------- Runs ----------

  lemma {:induction false} InitialInv(s: State)
    requires Initial(s)
    ensures Inv(s)
  {
  }

  lemma {:induction false} StartKeeps(s: State, c: Controller)
    requires Inv(s) && CanStart(c, s.store)
    ensures Inv(Started(s, c))
  {
    hide Fits, Earned, Program, Made, ExactHeadIsLeft;
    ProgramFits(c, s.store);
    assert ProcessOk(Process(None, Program(c)), s.disk);
  }

  lemma {:induction false} NextKeeps(s: State, t: State)
    requires Inv(s) && Next(s, t)
    ensures Inv(t) && s.disk.satisfied <= t.disk.satisfied && s.disk.revision <= t.disk.revision
    ensures t.disk == s.disk || exists op ::
              Apply(op, s.disk).Change? && t.disk == Apply(op, s.disk).ledger.(revision := s.disk.revision + 1)
  {
    hide Inv, Step, CanStart, Apply;
    if i :| 0 <= i < |s.processes| && s.processes[i].todo != [] && t == Step(s, i) {
      NoLostUpdate(s, i);
      if s.processes[i].todo[0].Do? {
        StepDoKeeps(s, i);
      } else {
        StepReadKeeps(s, i);
      }
    } else {
      var c :| CanStart(c, s.store) && t == Started(s, c);
      StartKeeps(s, c);
    }
  }

  lemma {:induction false} RunInv(states: seq<State>, k: nat)
    requires Run(states) && k < |states|
    ensures Inv(states[k])
  {
    hide Inv, Next;
    if k == 0 {
      InitialInv(states[0]);
    } else {
      RunInv(states, k - 1);
      assert Next(states[k - 1], states[k - 1 + 1]);
      NextKeeps(states[k - 1], states[k]);
    }
  }

  /** In every interleaving of every set of controllers: a phase at or past a stage means that all
      conditions before it were marked, no condition is ever cleared, no write is lost, a draft
      receipt means a published draft, and an exact-head receipt means a completed task. */
  lemma {:induction false} LifecycleHolds(states: seq<State>, k: nat)
    requires Run(states) && k < |states|
    ensures var s := states[k];
            && Needs(s.disk.phase) <= s.disk.satisfied
            && (s.disk.status == COMPLETED ==> s.disk.required <= s.disk.satisfied)
            && (forall r :: r in s.store && r.body.stage == Receipts.DraftPublished ==>
                DraftPrPublished in s.disk.satisfied)
            && (forall r :: r in s.store && r.body.stage == Receipts.ReadyForReview ==>
                  s.disk.status == COMPLETED && s.disk.required <= s.disk.satisfied)
    ensures k + 1 < |states| ==>
              var s, t := states[k].disk, states[k + 1].disk;
              && s.satisfied <= t.satisfied
              && (t == s || exists op :: Apply(op, s).Change? && t == Apply(op, s).ledger.(revision := s.revision + 1))
  {
    hide Next, Apply;
    RunInv(states, k);
    if k + 1 < |states| {
      assert Next(states[k], states[k + 1]);
      NextKeeps(states[k], states[k + 1]);
    }
  }

  /** What a TaskRun requires never changes, and the five stages of governance are always among it. */
  lemma {:induction false} RequiredStays(states: seq<State>, k: nat)
    requires Run(states) && k < |states|
    ensures states[k].disk.required == states[0].disk.required
    ensures {DraftPrPublished, GovernanceClosed, BaselineAccepted, ExactHeadCertified, ReadyForReview}
            <= states[k].disk.required
  {
    hide Next;
    if k > 0 {
      RequiredStays(states, k - 1);
      LifecycleHolds(states, k - 1);
      assert Next(states[k - 1], states[k - 1 + 1]);
    }
  }

  // ---------- What the stored receipts prove ----------

  function G6Of(stage: Receipts.Stage): Receipts.G6 {
    match stage
    case DraftPublished => Receipts.Pending
    case GovernanceDone => Receipts.GovernanceClosedBaselinePending
    case BaselineDone => Receipts.BaselineAcceptedExactHeadPending
    case ReadyForReview => Receipts.G6Pass
  }

  function Before(stage: Receipts.Stage): Option<Receipts.Stage> {
    match stage
    case DraftPublished => None
    case GovernanceDone => Some(Receipts.DraftPublished)
    case BaselineDone => Some(Receipts.GovernanceDone)
    case ReadyForReview => Some(Receipts.BaselineDone)
  }

  /** `r` was made from `q`: it carries its digest, its G0 to G5 and its source identity, and takes G6 one
      stage further; the exact-head receipt is about the baseline commit. */
  ghost predicate Follows(r: Receipt, q: Receipt) {
    && r.digest == Receipts.OfBody(r.body) && r.body.previous == Receipts.OfBody(q.body)
    && Before(r.body.stage) == Some(q.body.stage)
    && q.body.gates.g6 == G6Of(q.body.stage) && r.body.gates == q.body.gates.(g6 := G6Of(r.body.stage))
    && Receipts.SameIdentity(r.body, q.body)
    && (r.body.stage == Receipts.ReadyForReview ==> r.body.content.baselineCommit == q.body.content.baselineCommit)
    && Receipts.Grounded(r.body, q.body)
  }

  ghost predicate Traced(r: Receipt, store: set<Receipt>) {
    && Receipts.Harmless(r.body) && r.body.gates.g6 == G6Of(r.body.stage)
       && Receipts.FlagsOf(r.body.stage, r.body.flags)
    && if r.body.stage == Receipts.DraftPublished then
         && (exists publication :: Receipts.RecordPublication(publication) == Some(r))
         && Receipts.Grounded(r.body, r.body)
       else exists q :: q in store && Follows(r, q)
  }

  ghost predicate PendingTraced(todo: seq<Todo>, store: set<Receipt>) {
    forall k :: 0 <= k < |todo| && todo[k].WriteReceipt? ==> Traced(todo[k].receipt, store)
  }

  ghost predicate StoreInv(s: State) {
    && (forall r :: r in s.store ==> Traced(r, s.store))
    && forall i :: 0 <= i < |s.processes| ==> PendingTraced(s.processes[i].todo, s.store)
  }

  lemma {:induction false} TracedMonotone(r: Receipt, store: set<Receipt>, more: set<Receipt>)
    requires Traced(r, store) && store <= more
    ensures Traced(r, more)
  {
    hide Follows, Receipts.Harmless, Receipts.RecordPublication;
  }

  /** What a controller makes of a stored receipt is traced. */
  lemma {:induction false} MadeIsTraced(c: Controller, store: set<Receipt>)
    requires !c.Other? && CanStart(c, store)
    ensures Traced(Made(c).value, store)
  {
    hide Receipts.RecordPublication, Receipts.CloseGovernance, Receipts.AcceptBaseline, Receipts.FinalizeExactHead,
      Receipts.PrefixPasses;
    match c
    case RecordPublication(publication) => Receipts.DraftAdvances(publication);
    case CloseGovernance(draft, actor, approval) =>
      Receipts.GovernanceAdvances(draft, actor, approval);
      assert Follows(Made(c).value, draft);
    case AcceptBaseline(governed, world) =>
      Receipts.BaselineAdvances(governed, world);
      assert Follows(Made(c).value, governed);
    case FinalizeExactHead(baseline, ci, numberOf) =>
      Receipts.ExactHeadAdvances(baseline, ci, numberOf);
      assert Follows(Made(c).value, baseline);
  }

  /** The only receipt a program writes is the one it made. */
  lemma {:induction false} ProgramWrites(c: Controller, store: set<Receipt>)
    requires CanStart(c, store)
    ensures PendingTraced(Program(c), store)
  {
    hide Made, Traced;
    if !c.Other? {
      MadeIsTraced(c, store);
    }
  }

  lemma {:induction false} RestTraced(todo: seq<Todo>, store: set<Receipt>, more: set<Receipt>)
    requires PendingTraced(todo, store) && store <= more
    ensures PendingTraced(todo, more)
    ensures todo != [] ==> PendingTraced(todo[1..], more)
  {
    hide Traced;
    forall k | 0 <= k < |todo| && todo[k].WriteReceipt?
      ensures Traced(todo[k].receipt, more)
    {
      TracedMonotone(todo[k].receipt, store, more);
    }
    assert todo != [] ==> forall k :: 0 <= k < |todo[1..]| ==> todo[1..][k] == todo[k + 1];
  }

  lemma {:induction false} StepKeepsStore(s: State, i: nat)
    requires StoreInv(s) && i < |s.processes| && s.processes[i].todo != []
    ensures StoreInv(Step(s, i)) && s.store <= Step(s, i).store
  {
    hide Traced, PendingTraced, Apply;
    var t, p := Step(s, i), s.processes[i];
    StepShape(s, i);
    forall r | r in t.store
      ensures Traced(r, t.store)
    {
      if r in s.store {
        TracedMonotone(r, s.store, t.store);
      } else {
        HeadTraced(p.todo, s.store);
        TracedMonotone(r, s.store, t.store);
      }
    }
    forall j | 0 <= j < |t.processes|
      ensures PendingTraced(t.processes[j].todo, t.store)
    {
      RestTraced(s.processes[j].todo, s.store, t.store);
      NothingPending(t.store);
    }
  }

  lemma {:induction false} HeadTraced(todo: seq<Todo>, store: set<Receipt>)
    requires todo != [] && PendingTraced(todo, store)
    ensures todo[0].WriteReceipt? ==> Traced(todo[0].receipt, store)
  {
    hide Traced;
  }

  lemma {:induction false} NothingPending(store: set<Receipt>)
    ensures PendingTraced([], store)
  {
  }

  lemma {:induction false} StepShape(s: State, i: nat)
    requires i < |s.processes| && s.processes[i].todo != []
    ensures var t, todo := Step(s, i), s.processes[i].todo;
            && |t.processes| == |s.processes|
            && (forall j :: 0 <= j < |s.processes| && j != i ==> t.processes[j] == s.processes[j])
            && (t.processes[i].todo == todo[1..] || t.processes[i].todo == [])
            && t.store == if todo[0].WriteReceipt? then s.store + {todo[0].receipt} else s.store
  {
    hide Apply;
  }

  lemma {:induction false} RunStore(states: seq<State>, k: nat)
    requires Run(states) && k < |states|
    ensures StoreInv(states[k])
  {
    hide StoreInv, Step, CanStart, Program;
    if k == 0 {
      NoStore(states[0]);
    } else {
      RunStore(states, k - 1);
      assert Next(states[k - 1], states[k - 1 + 1]);
      NextKeepsStore(states[k - 1], states[k]);
    }
  }

  lemma {:induction false} NoStore(s: State)
    requires Initial(s)
    ensures StoreInv(s)
  {
  }

  lemma {:induction false} NextKeepsStore(s: State, t: State)
    requires StoreInv(s) && Next(s, t)
    ensures StoreInv(t) && s.store <= t.store
  {
    hide Step, Traced, PendingTraced, CanStart, Program;
    if i :| 0 <= i < |s.processes| && s.processes[i].todo != [] && t == Step(s, i) {
      StepKeepsStore(s, i);
    } else {
      var c :| CanStart(c, s.store) && t == Started(s, c);
      ProgramWrites(c, s.store);
    }
  }

  /** In every interleaving, at any time, every receipt in the store is harmless, has the G6 of its stage,
      and was made from a stored receipt of the stage before, whose digest, gates and identity it carries;
      a draft receipt was made from an agreeing publication. Receipts are never lost. */
  lemma {:induction false} StoredReceiptsAreTraced(states: seq<State>, k: nat, r: Receipt)
    requires Run(states) && k < |states| && r in states[k].store
    ensures Receipts.Harmless(r.body) && r.body.gates.g6 == G6Of(r.body.stage)
    ensures Receipts.FlagsOf(r.body.stage, r.body.flags)
    ensures r.body.stage == Receipts.DraftPublished ==>
              && (exists publication :: Receipts.RecordPublication(publication) == Some(r))
              && exists p :: Receipts.AgreedDraft(p, r.body)
    ensures r.body.stage != Receipts.DraftPublished ==> exists q :: q in states[k].store && Follows(r, q)
    ensures k + 1 < |states| ==> r in states[k + 1].store
  {
    hide Next, Follows, Receipts.Harmless, Receipts.RecordPublication;
    RunStore(states, k);
    assert Traced(r, states[k].store);
    if k + 1 < |states| {
      assert Next(states[k], states[k + 1]);
      NextKeepsStore(states[k], states[k + 1]);
    }
  }

  /** The receipts a grant rests on, back to the draft. */
  datatype Trace = Trace(draft: Receipt, governed: Receipt, baseline: Receipt)

  ghost predicate LeadsBack(ready: Receipt, trace: Trace, store: set<Receipt>) {
    && trace.draft in store && trace.governed in store && trace.baseline in store
    && Follows(ready, trace.baseline) && Follows(trace.baseline, trace.governed) && Follows(trace.governed, trace.draft)
    && (exists publication :: Receipts.RecordPublication(publication) == Some(trace.draft))
    && exists p :: Receipts.AgreedDraft(p, trace.draft.body)
  }

  /** Whatever receipt of the store a merge grant is issued on, at any time in any interleaving: it leads
      back, digest by digest through the store, to a published draft of the same source and pull request,
      whose tree the baseline receipt carries; the baseline was committed for exactly the approved drift; the
      grant is for the baseline commit, on which both workflows succeeded, or a verified merge of it; the
      TaskRun is completed with every required condition; and no stored receipt allows a merge by itself. */
  lemma {:induction false} GrantTracesToDraft(
    states: seq<State>, k: nat, ready: Receipt, pr: Receipts.PrState, base: Receipts.BaseState, actor: string,
    owner: string, approval: string, numberOf: string -> Option<nat>)
    requires Run(states) && k < |states| && ready in states[k].store
    requires Receipts.IssueMergeGrant(ready, pr, base, actor, owner, approval, numberOf).Some?
    ensures var grant := Receipts.IssueMergeGrant(ready, pr, base, actor, owner, approval, numberOf).value;
            && grant.exactHead == Receipts.OfBody(ready.body) && grant.merge && !grant.deploy && !grant.production
            && grant.certifiedHead == ready.body.content.baselineCommit
            && (exists ci :: Receipts.SucceededOn(ci, ready.body.content))
            && exists trace ::
                 && LeadsBack(ready, trace, states[k].store)
                 && Receipts.SameIdentity(ready.body, trace.draft.body)
                 && ready.body.gates == trace.draft.body.gates.(g6 := Receipts.G6Pass)
                 && grant.certifiedHead == trace.baseline.body.content.baselineCommit
                 && trace.baseline.body.content.treeSha == trace.draft.body.content.treeSha
                 && (exists w :: Receipts.CommittedFrom(w, trace.baseline.body, trace.governed.body))
    ensures states[k].disk.status == COMPLETED && states[k].disk.required <= states[k].disk.satisfied
    ensures {DraftPrPublished, GovernanceClosed, BaselineAccepted, ExactHeadCertified, ReadyForReview}
            <= states[k].disk.satisfied
    ensures forall r :: r in states[k].store ==> r.body.flags.merge == Some(false)
  {
    hide Run, Follows, Receipts.IssueMergeGrant, Receipts.PrefixPasses, Receipts.RecordPublication,
      Receipts.SucceededOn, Receipts.CommittedFrom, Receipts.AgreedDraft;
    Receipts.GrantRests(ready, pr, base, actor, owner, approval, numberOf);
    StoredReceiptsAreTraced(states, k, ready);
    var baseline :| baseline in states[k].store && Follows(ready, baseline);
    FollowsMeans(ready, baseline);
    StoredReceiptsAreTraced(states, k, baseline);
    var governed :| governed in states[k].store && Follows(baseline, governed);
    FollowsMeans(baseline, governed);
    StoredReceiptsAreTraced(states, k, governed);
    var draft :| draft in states[k].store && Follows(governed, draft);
    FollowsMeans(governed, draft);
    StoredReceiptsAreTraced(states, k, draft);
    assert LeadsBack(ready, Trace(draft, governed, baseline), states[k].store);
    LifecycleHolds(states, k);
    RequiredStays(states, k);
    forall r | r in states[k].store
      ensures r.body.flags.merge == Some(false)
    {
      StoredReceiptsAreTraced(states, k, r);
    }
  }

  lemma {:induction false} FollowsMeans(r: Receipt, q: Receipt)
    requires Follows(r, q)
    ensures Before(r.body.stage) == Some(q.body.stage) && Receipts.SameIdentity(r.body, q.body)
    ensures r.body.gates == q.body.gates.(g6 := G6Of(r.body.stage))
    ensures r.body.stage == Receipts.ReadyForReview ==>
              && r.body.content.baselineCommit == q.body.content.baselineCommit
              && exists ci :: Receipts.SucceededOn(ci, r.body.content)
    ensures r.body.stage == Receipts.BaselineDone ==> exists w :: Receipts.CommittedFrom(w, r.body, q.body)
  {
    hide Receipts.SucceededOn, Receipts.CommittedFrom;
  }

  /** A process goes on after its first look at the TaskRun exactly in its phase, and those that publish or
      certify only while the TaskRun waits or validates. */
  lemma {:induction false} LooksExactly(s: State, i: nat, c: Controller)
    requires i < |s.processes| && !c.Other? && Made(c).Some?
    requires s.processes[i].todo == if c.RecordPublication? || c.FinalizeExactHead? then Program(c) else Program(c)[1..]
    ensures var phase, waits := s.disk.phase, s.disk.status == WAITING_EXTERNAL_RESULT || s.disk.status == VALIDATING;
            Step(s, i).processes[i] != Dead() <==>
              match c
              case RecordPublication(_) => phase == DraftPrRequired && waits
              case CloseGovernance(_, _, _) => phase == GovernanceRequired
              case AcceptBaseline(_, _) => phase == BaselineRequired
              case FinalizeExactHead(_, _, _) => (phase == ExactHeadRequired || phase == ExactHeadValidating) && waits
              case Other(_) => false
  {
    hide Made;
    EveryStatus(s.disk.status);
  }

  // ---------- A governance receipt before governance is closed ----------

  lemma {:induction false} Extended(states: seq<State>, t: State)
    requires Run(states) && Next(states[|states| - 1], t)
    ensures Run(states + [t])
  {
    hide Next;
    var longer := states + [t];
    forall i | 0 <= i < |longer| - 1
      ensures Next(longer[i], longer[i + 1])
    {
      assert i < |states| - 1 ==> Next(states[i], states[i + 1]);
    }
  }

  lemma {:induction false} StepTaken(states: seq<State>, i: nat) returns (longer: seq<State>)
    requires Run(states)
    requires var s := states[|states| - 1]; i < |s.processes| && s.processes[i].todo != []
    ensures Run(longer) && longer == states + [Step(states[|states| - 1], i)]
  {
    hide Step, Next;
    var s := states[|states| - 1];
    assert Next(s, Step(s, i)) by { StepIsNext(s, i); }
    Extended(states, Step(s, i));
    longer := states + [Step(s, i)];
  }

  lemma {:induction false} StepIsNext(s: State, i: nat)
    requires i < |s.processes| && s.processes[i].todo != []
    ensures Next(s, Step(s, i))
  {
    hide Step;
  }

  lemma {:induction false} Joined(states: seq<State>, c: Controller) returns (longer: seq<State>)
    requires Run(states) && CanStart(c, states[|states| - 1].store)
    ensures Run(longer) && longer == states + [Started(states[|states| - 1], c)]
  {
    hide Step, Initial, Program, CanStart;
    var s := states[|states| - 1];
    assert Next(s, Started(s, c));
    Extended(states, Started(s, c));
    longer := states + [Started(s, c)];
  }

  /** A governance receipt, unlike draft and exact-head receipts, proves nothing about the TaskRun:
      governance writes its receipt before it looks at the phase of the TaskRun (as baseline acceptance
      does). Every run with a draft receipt can be continued to a governance receipt with the TaskRun as
      it was, and a process that goes on exactly when the TaskRun awaited governance. */
  lemma {:induction false} GovernanceReceiptComesFirst(states: seq<State>, draft: Receipt, actor: string,
      approval: string)
    returns (longer: seq<State>)
    requires Run(states) && draft in states[|states| - 1].store
             && Receipts.CloseGovernance(draft, actor, approval).Some?
    ensures Run(longer) && |longer| == |states| + 3 && longer[..|states|] == states
    ensures var s, t := states[|states| - 1], longer[|longer| - 1];
            && t.disk == s.disk && t.store == s.store + {Receipts.CloseGovernance(draft, actor, approval).value}
            && |t.processes| == |s.processes| + 1
            && (t.processes[|s.processes|] == Dead() <==> s.disk.phase != GovernanceRequired)
  {
    hide Next, Initial, Receipts.CloseGovernance;
    var s, c := states[|states| - 1], CloseGovernance(draft, actor, approval);
    var i := |s.processes|;
    longer := Joined(states, c);
    assert longer[|states|].processes[i].todo == Program(c);
    longer := StepTaken(longer, i);
    assert longer[|states| + 1].processes[i].todo == Program(c)[1..];
    assert Program(c)[1..][0] == Load({GovernanceRequired}, AllStatuses());
    longer := StepTaken(longer, i);
    EveryStatus(s.disk.status);
  }

  /** The run ends in this phase, with a governance receipt written and governance not closed. */
  ghost predicate Unclosed(states: seq<State>, phase: Phase) {
    && Run(states)
    && var s := states[|states| - 1];
       && s.disk.phase == phase && GovernanceClosed !in s.disk.satisfied
       && exists r :: r in s.store && r.body.stage == Receipts.GovernanceDone
  }

  /** Publications the controllers accept exist. */
  lemma {:induction false} SomePublication() returns (publication: Receipts.Publication)
    ensures Receipts.RecordPublication(publication).Some?
    ensures Receipts.CloseGovernance(Receipts.RecordPublication(publication).value, "a", "b").Some?
  {
    var sha := seq(40, _ => 'a');
    var prefix := map[Receipts.G0 := "PASS", Receipts.G1 := "PASS", Receipts.G2 := "PASS", Receipts.G3 := "PASS",
                      Receipts.G4 := "PASS", Receipts.G5 := "PASS"];
    var content := Receipts.Content(sha, Some(sha), "https://github.com/x/pull/1", "main", ["a"], "", 0, "");
    publication := Receipts.Publication(Receipts.Gates(prefix, Receipts.Pending), Receipts.NOT_YET, true, content);
    forall g: Receipts.Gate
      ensures g in prefix && prefix[g] == "PASS"
    {
      match g
      case G0 =>
      case G1 =>
      case G2 =>
      case G3 =>
      case G4 =>
      case G5 =>
    }
    Receipts.AcceptedExample(publication);
  }

  /** The first publication of a fresh TaskRun. */
  lemma {:induction false} PublicationRun(publication: Receipts.Publication) returns (states: seq<State>)
    requires Receipts.RecordPublication(publication).Some?
    ensures Run(states)
    ensures var s := states[|states| - 1];
            && s.disk == Ledger(2, WAITING_EXTERNAL_RESULT, GovernanceRequired, GOVERNED, {DraftPrPublished})
            && s.store == {Receipts.RecordPublication(publication).value} && |s.processes| == 1
  {
    hide Next, Receipts.RecordPublication;
    var c := RecordPublication(publication);
    var draft := Receipts.RecordPublication(publication).value;
    states := [State(Ledger(0, WAITING_EXTERNAL_RESULT, DraftPrRequired, GOVERNED, {}), [], {})];
    assert Run(states);
    states := Joined(states, c);
    var todo := Program(c);
    assert states[1] == State(states[0].disk, [Process(None, todo)], {});
    states := StepTaken(states, 0);
    assert states[2] == State(states[0].disk, [Process(Some(states[0].disk), todo[1..])], {});
    states := StepTaken(states, 0);
    var marked := Ledger(1, WAITING_EXTERNAL_RESULT, DraftPrRequired, GOVERNED, {DraftPrPublished});
    assert {} + {DraftPrPublished} == {DraftPrPublished} && todo[1..][1..] == todo[2..];
    assert todo[1] == Do(MarkUnlessSet(DraftPrPublished)) && DraftPrPublished in GOVERNED;
    assert states[3] == State(marked, [Process(Some(marked), todo[2..])], {});
    states := StepTaken(states, 0);
    var waiting := Ledger(2, WAITING_EXTERNAL_RESULT, GovernanceRequired, GOVERNED, {DraftPrPublished});
    assert states[4] == State(waiting, [Process(Some(waiting), todo[3..])], {});
    states := StepTaken(states, 0);
    assert states[5].store == {draft};
  }

  /** From any run another controller may checkpoint a phase of its own. */
  lemma {:induction false} OtherPhaseRun(states: seq<State>, phase: Phase) returns (longer: seq<State>)
    requires Run(states) && (phase.OtherPhase? || phase.DraftPrRequired?)
    requires states[|states| - 1].disk.status == WAITING_EXTERNAL_RESULT
    ensures Run(longer)
    ensures var s, t := states[|states| - 1], longer[|longer| - 1];
            t.store == s.store && t.disk.phase == phase && t.disk.satisfied == s.disk.satisfied
  {
    hide Next, Initial;
    var s, op := states[|states| - 1], Checkpoint(WAITING_EXTERNAL_RESULT, phase);
    var c, i := Other([op]), |s.processes|;
    longer := Joined(states, c);
    assert longer[|states|].processes[i].todo == [Reload, Do(op)];
    longer := StepTaken(longer, i);
    assert longer[|states| + 1].processes[i] == Process(Some(s.disk), [Reload, Do(op)][1..]);
    longer := StepTaken(longer, i);
  }

  /** A governance receipt means that governance was closed in the TaskRun at exactly the phases from
      baseline acceptance on: in any other phase some run has the receipt without the closure. */
  lemma {:induction false} GovernanceReceiptMeansClosureExactly(phase: Phase)
    ensures (exists states: seq<State> :: Unclosed(states, phase)) <==>
              phase !in {BaselineRequired, ExactHeadRequired, ExactHeadValidating, CompletedPhase}
  {
    hide Run;
    if states: seq<State> :| Unclosed(states, phase) {
      UnclosedEarly(states, phase);
    }
    if phase !in {BaselineRequired, ExactHeadRequired, ExactHeadValidating, CompletedPhase} {
      var states := UnclosedRun(phase);
      assert Unclosed(states, phase);
    }
  }

  lemma {:induction false} UnclosedEarly(states: seq<State>, phase: Phase)
    requires Unclosed(states, phase)
    ensures phase !in {BaselineRequired, ExactHeadRequired, ExactHeadValidating, CompletedPhase}
  {
    hide Next, Initial;
    LifecycleHolds(states, |states| - 1);
  }

  lemma {:induction false} UnclosedRun(phase: Phase) returns (states: seq<State>)
    requires phase.GovernanceRequired? || phase.DraftPrRequired? || phase.OtherPhase?
    ensures Unclosed(states, phase)
  {
    hide Next, Initial, Receipts.CloseGovernance, Receipts.RecordPublication;
    var publication := SomePublication();
    var draft := Receipts.RecordPublication(publication).value;
    states := PublicationRun(publication);
    states := GovernanceReceiptComesFirst(states, draft, "a", "b");
    var governed := Receipts.CloseGovernance(draft, "a", "b").value;
    Receipts.GovernanceAdvances(draft, "a", "b");
    assert governed in states[|states| - 1].store;
    if !phase.GovernanceRequired? {
      states := OtherPhaseRun(states, phase);
      assert governed in states[|states| - 1].store;
    }
  }

  lemma {:induction false} EveryStatus(status: Status)
    ensures status in AllStatuses()
  {
    match status
    case CREATED =>
    case PLANNED =>
    case RUNNING =>
    case WAITING_EXTERNAL_RESULT =>
    case FAILED_RECOVERABLE =>
    case REPAIRING =>
    case VALIDATING =>
    case COMPLETED =>
    case BLOCKED =>
    case CANCELLED =>
  }
}
