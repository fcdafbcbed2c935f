/** One whole run of a target: the gate loop between the check of the target's state and the writing of
    that state, and what an interruption in between costs (scripts/quality_loop.py). */
module TargetRun {
  import opened Wrappers
  import opened GateGraph
  import G = GateRun
  import L = LocalRounds

  /** A run in continuous integration, the baseline of a target, a targeted rerun, or a round. */
  datatype Purpose = CiRun | Baseline | TargetedRerun | Round

  /** What one run verifies. With `closes`, a passing run completes the target: every claim is verified
      and the mode suffices. */
  datatype Target = Target(purpose: Purpose, round: nat, maxRounds: nat, repair: string, closes: bool)

  /** What the evidence directory reports in the end. */
  datatype Summary = RunSummary(results: seq<G.GateResult>) | InvalidInput

  datatype Outcome = Interrupted | Conflict | Rejected | Finished(results: seq<G.GateResult>)

  /** The state of the target is checked before the run. */
  predicate Governed(purpose: Purpose) {
    purpose == TargetedRerun || purpose == Round
  }

  /** The state of the target is written after the gates. */
  predicate Noting(purpose: Purpose) {
    purpose == Baseline || purpose == Round
  }

  function RunOf(t: Target, results: seq<G.GateResult>): L.Run {
    var verdict :=
      match G.Decide(results)
      case Passing => if t.closes then L.Eligible else L.OtherVerdict
      case Failing => L.Fail
      case BlockedByEnvironment => L.OtherVerdict;
    L.Run(t.round, t.repair, verdict, set r | r in results && r.status == G.Fail :: L.Gate(r.id.name),
          set r | r in results && r.status == G.Skipped :: L.Gate(r.id.name))
  }

  /** What a run of gates is to the target: it completes it exactly when every gate passed and it closes, it fails
      with the ids of the failed gates, and the skipped ones are those skipped. */
  lemma {:induction false} RunOfExactly(t: Target, results: seq<G.GateResult>)
    ensures var run := RunOf(t, results);
            && run.round == t.round && run.repair == t.repair
            && (run.verdict == L.Fail <==> G.Decide(results) == G.Failing)
            && (run.verdict == L.Eligible <==> (forall r :: r in results ==> r.status == G.Pass) && t.closes)
            && (forall g :: g in run.failed <==> exists r :: r in results && r.status == G.Fail && r.id.name == g.id)
            && (forall g :: g in run.skipped <==>
                exists r :: r in results && r.status == G.Skipped && r.id.name == g.id)
  {
  }

  predicate MayStart(t: Target, s: L.LoopState) {
    Governed(t.purpose) ==> L.Admitted(s, L.Run(t.round, t.repair, L.OtherVerdict, {}, {}))
  }

  function LoopAfter(t: Target, s: L.LoopState, results: seq<G.GateResult>): L.LoopState {
    match t.purpose
    case Round => L.After(s, RunOf(t, results), t.maxRounds)
    case Baseline => L.Fresh()
    case CiRun | TargetedRerun => s
  }

  /** The run is a first round that neither fails nor completes the target, or no round at all. */
  predicate Repeatable(t: Target, results: seq<G.GateResult>) {
    t.purpose == Round ==>
      && t.round <= 1
      && G.Decide(results) != G.Failing
      && (t.closes ==> G.Decide(results) != G.Passing)
  }

  /** Once its state is written, a run may start again exactly when it is repeatable, and writing the
      state a second time then changes nothing. */
  lemma {:induction false} MayStartAgainExactly(t: Target, s: L.LoopState, results: seq<G.GateResult>)
    requires MayStart(t, s)
    ensures var after := LoopAfter(t, s, results);
            && (MayStart(t, after) <==> Repeatable(t, results))
            && (MayStart(t, after) ==> LoopAfter(t, after, results) == after)
  {
    hide L.Improved, G.Decide;
    if t.purpose == Round {
      assert L.Admitted(s, RunOf(t, results));
    }
  }

  // ---------- What is durable after each step ----------

  /** How far a run has come: nothing written, `count` gates recorded under its checkpoint, the state of
      the target written under its checkpoint, or its checkpoint cleared. */
  datatype Point = Unopened | Recorded(count: nat) | Written | Closed

  function OpenCost(p: Point): nat {
    if p.Unopened? then 2 else 1
  }

  function StartOf(p: Point, n: nat): nat {
    match p
    case Unopened => 0
    case Recorded(count) => count
    case Written | Closed => n
  }

  /** Where a process that lives for `budget` durable steps leaves a run of `n` gates. A fresh run writes
      its checkpoint and the copied inputs, a resumed one only these; a gate takes four steps; then come
      the state of the target, the summary, and the clearing of the checkpoint. */
  function Next(p: Point, budget: nat, n: nat, noting: bool, repeatable: bool): (q: Point)
    requires p.Recorded? ==> p.count <= n
    ensures q.Recorded? ==> q.count <= n
  {
    var open, start := OpenCost(p), StartOf(p, n);
    if p.Closed? || (p.Written? && !repeatable) then p
    else if budget < open then (if p.Unopened? && budget == 1 then Recorded(0) else p)
    else if budget - open < 4 * (n - start) then Recorded(start + (budget - open) / 4)
    else
      var rest := budget - open - 4 * (n - start);
      if rest >= (if noting then 3 else 2) then Closed
      else if p.Written? || (noting && rest >= 1) then Written
      else Recorded(n)
  }

  /** Where the first `i` processes leave a run. */
  function PointAfter(budgets: seq<nat>, i: nat, n: nat, noting: bool, repeatable: bool): (q: Point)
    requires i <= |budgets|
    ensures q.Recorded? ==> q.count <= n
  {
    if i == 0 then Unopened
    else Next(PointAfter(budgets, i - 1, n, noting, repeatable), budgets[i - 1], n, noting, repeatable)
  }

  /** The crash points that lose a run: after the state of the target was written and before the
      checkpoint was cleared, two of the steps of a process, whatever was recorded before it. */
  lemma {:induction false} LosingCrashExactly(p: Point, budget: nat, n: nat, noting: bool, repeatable: bool)
    requires p.Unopened? || (p.Recorded? && p.count <= n)
    ensures var ran := OpenCost(p) + 4 * (n - StartOf(p, n));
            && (Next(p, budget, n, noting, repeatable).Written? <==> noting && ran + 1 <= budget <= ran + 2)
            && (Next(p, budget, n, noting, repeatable).Closed? <==> budget >= ran + if noting then 3 else 2)
  {
    assert 4 * (n - StartOf(p, n)) >= 0;
  }

  /** Where a process dies that has recorded `count` gates and has fewer than the four steps of a gate left. */
  lemma {:induction false} DiesInGates(p: Point, count: nat, left: nat, n: nat, noting: bool, repeatable: bool)
    requires (p.Recorded? ==> p.count <= n) && StartOf(p, n) <= count < n && left < 4
    ensures Next(p, OpenCost(p) + 4 * (count - StartOf(p, n)) + left, n, noting, repeatable) == Recorded(count)
  {
    assert (4 * (count - StartOf(p, n)) + left) / 4 == count - StartOf(p, n);
  }

  /** Where a process ends that has `rest` steps left after the gates. */
  lemma {:induction false} EndsAfterGates(p: Point, rest: nat, n: nat, noting: bool, repeatable: bool)
    requires (p.Recorded? ==> p.count <= n) && !p.Closed? && (p.Written? ==> repeatable)
    ensures Next(p, OpenCost(p) + 4 * (n - StartOf(p, n)) + rest, n, noting, repeatable) ==
            if rest >= (if noting then 3 else 2) then Closed
            else if p.Written? || (noting && rest >= 1) then Written
            else Recorded(n)
  {
  }

  /** Where a process leaves a run that it does not open, or may not. */
  lemma {:induction false} NeverOpened(p: Point, budget: nat, n: nat, noting: bool, repeatable: bool)
    requires (p.Recorded? ==> p.count <= n) && !p.Closed?
    requires budget < OpenCost(p) || (p.Written? && !repeatable)
    ensures Next(p, budget, n, noting, repeatable) == if p.Unopened? && budget == 1 then Recorded(0) else p
  {
  }

  // ---------- The run over its files ----------

  /** One run of one target over its state file, its checkpoint and its evidence directory. */
  class TargetRun {
    const target: Target
    const quality: G.QualityRun

    // The state of the target when the run was started.
    ghost const start: L.LoopState

    var loop: L.LoopState
    var summary: Option<Summary>

    constructor (target: Target, loop: L.LoopState, quality: G.QualityRun)
      requires quality.Valid() && !quality.Resumable() && !quality.evidenceHasContent && MayStart(target, loop)
      ensures this.target == target && this.quality == quality && start == loop == this.loop
      ensures At(Unopened)
    {
      this.target, this.quality, start, this.loop, summary := target, quality, loop, loop, None;
    }

    /** The files are those of a run that has come as far as `p`. */
    ghost predicate At(p: Point)
      reads this, quality
    {
      && quality.Valid() && MayStart(target, start)
      && match p
         case Unopened => !quality.Resumable() && !quality.evidenceHasContent && loop == start
         case Recorded(count) => quality.Resumable() && quality.Frontier() == count <= |quality.gates| && loop == start
         case Written =>
           && quality.Resumable() && quality.Frontier() == |quality.gates| && Noting(target.purpose) && loop == End()
         case Closed => quality.checkpoint == None && loop == End() && summary == Some(RunSummary(quality.all))
    }

    /** The state of the target after an uninterrupted run. */
    ghost function End(): L.LoopState
      reads this
    {
      LoopAfter(target, start, quality.all)
    }

    ghost function NextPoint(p: Point, budget: nat): Point
      requires p.Recorded? ==> p.count <= |quality.gates|
      reads this
    {
      Next(p, budget, |quality.gates|, Noting(target.purpose), Repeatable(target, quality.all))
    }

    /** The end of one process: write the state and the summary, clear the checkpoint it owns. */
    method Close(token: nat, results: seq<G.GateResult>, budget: nat) returns (outcome: Outcome)
      requires quality.Valid() && quality.Resumable() && quality.checkpoint.value.token == token
      modifies this, quality`checkpoint
      ensures quality.Valid() && outcome != Conflict && outcome != Rejected
      ensures loop == if Noting(target.purpose) && budget >= 1 then LoopAfter(target, old(loop), results) else old(loop)
      ensures outcome.Finished? <==> budget >= if Noting(target.purpose) then 3 else 2
      ensures outcome.Finished? ==> outcome.results == results && summary == Some(RunSummary(results))
      ensures quality.checkpoint == if outcome.Finished? then None else old(quality.checkpoint)
    {
      hide LoopAfter, G.IsRun, G.Recorded;
      var left := budget;
      if Noting(target.purpose) {
        if left == 0 { return Interrupted; }
        loop := LoopAfter(target, loop, results);
        left := left - 1;
      }
      if left == 0 { return Interrupted; }
      summary := Some(RunSummary(results));
      left := left - 1;
      if left == 0 { return Interrupted; }
      if quality.checkpoint.None? || quality.checkpoint.value.token != token {
        return Conflict;
      }
      quality.checkpoint := None;
      return Finished(results);
    }

    /** One process on a target that may start: run the gates that are left and close the run. */
    method Continue(budget: nat, ghost p: Point) returns (outcome: Outcome)
      requires At(p) && !p.Closed? && (p.Written? ==> Repeatable(target, quality.all))
      modifies this, quality
      ensures At(NextPoint(p, budget))
      ensures outcome.Finished? <==> NextPoint(p, budget).Closed?
      ensures outcome.Finished? ==> outcome.results == quality.all
      ensures outcome != Rejected && outcome != Conflict
    {
      ghost var n, noting, repeatable := |quality.gates|, Noting(target.purpose), Repeatable(target, quality.all);
      MayStartAgainExactly(target, start, quality.all);
      hide Next, MayStart, LoopAfter, Repeatable, Noting, G.IsRun, G.Recorded, G.RanOnce;
      if quality.evidenceHasContent && !quality.Resumable() {
        return Conflict;
      }
      var recovered, left, problem := quality.Open(budget);
      if recovered.None? {
        NeverOpened(p, budget, n, noting, repeatable);
        return Interrupted;
      }
      var token := quality.checkpoint.value.token;
      var died, results;
      left, died, results := quality.RunRemaining(left);
      if died {
        DiesInGates(p, quality.Frontier(), left, n, noting, repeatable);
        return Interrupted;
      }
      EndsAfterGates(p, left, n, noting, repeatable);
      assert results == quality.all && quality.Frontier() == n;
      outcome := Close(token, results, left);
    }

    /** One process: check the state of the target, run the gates that are left, write the state and the
        summary, clear the checkpoint. A rejected one leaves its own summary in the evidence directory. */
    method Process(budget: nat, ghost p: Point) returns (outcome: Outcome)
      requires At(p) && !p.Closed?
      modifies this, quality
      ensures At(NextPoint(p, budget))
      ensures outcome.Finished? <==> NextPoint(p, budget).Closed?
      ensures outcome.Finished? ==> outcome.results == quality.all
      ensures outcome == Rejected <==> p.Written? && !Repeatable(target, quality.all)
      ensures outcome == Rejected ==> summary == Some(InvalidInput) && loop == old(loop)
      ensures outcome != Conflict
    {
      MayStartAgainExactly(target, start, quality.all);
      hide Next, MayStart, LoopAfter, Repeatable, Noting, G.IsRun, G.Recorded;
      if quality.evidenceHasContent &&
         (quality.checkpoint.None? || quality.checkpoint.value.key.evidenceDir != quality.key.evidenceDir) {
        return Conflict;
      }
      if !MayStart(target, loop) {
        NeverOpened(p, budget, |quality.gates|, Noting(target.purpose), Repeatable(target, quality.all));
        quality.evidenceHasContent := true;
        summary := Some(InvalidInput);
        return Rejected;
      }
      outcome := Continue(budget, p);
    }

    /** Any number of interruptions at any durable step, then a process that lives long enough: the run
        finishes exactly when no process died between the writing of the state and the clearing of the
        checkpoint, or the run is repeatable. Otherwise the state of the target has moved on, to a completed
        one if the gates passed, and the evidence reports an invalid input. */
    method RunToEnd(budgets: seq<nat>, last: nat) returns (outcome: Outcome)
      requires At(Unopened) && last >= 4 * |quality.gates| + 5
      modifies this, quality
      ensures outcome.Finished? || outcome == Rejected
      ensures outcome.Finished? <==>
                (PointAfter(budgets, |budgets|, |quality.gates|, Noting(target.purpose),
                            Repeatable(target, quality.all)).Written?
                 ==> Repeatable(target, quality.all))
      ensures loop == LoopAfter(target, old(loop), quality.all)
      ensures outcome.Finished? ==> outcome.results == quality.all && summary == Some(RunSummary(quality.all))
      ensures outcome == Rejected ==> summary == Some(InvalidInput)
      ensures outcome == Rejected && G.Decide(quality.all) == G.Passing && target.closes ==> loop.completed
    {
      hide Next, MayStart, LoopAfter, Repeatable, Noting, G.Decide, G.IsRun, G.Recorded;
      ghost var p := Unopened;
      ghost var n, noting, repeatable := |quality.gates|, Noting(target.purpose), Repeatable(target, quality.all);
      for i := 0 to |budgets|
        invariant p == PointAfter(budgets, i, n, noting, repeatable)
        invariant At(p) && !p.Closed?
      {
        outcome := Process(budgets[i], p);
        p := NextPoint(p, budgets[i]);
        if outcome.Finished? {
          StaysClosed(budgets, i + 1, n, noting, repeatable);
          return;
        }
      }
      EnoughToClose(p, last, n, noting, repeatable);
      outcome := Process(last, p);
      if outcome == Rejected && G.Decide(quality.all) == G.Passing && target.closes {
        CompletedWhenPassing(target, start, quality.all);
      }
    }
  }

  /** Time for every gate and the longest opening and end is enough, unless the run is lost. */
  lemma {:induction false} EnoughToClose(p: Point, budget: nat, n: nat, noting: bool, repeatable: bool)
    requires (p.Recorded? ==> p.count <= n) && budget >= 4 * n + 5
    ensures Next(p, budget, n, noting, repeatable) == if p.Written? && !repeatable then Written else Closed
  {
    assert 4 * (n - StartOf(p, n)) <= 4 * n;
  }

  lemma {:induction false} StaysClosed(budgets: seq<nat>, i: nat, n: nat, noting: bool, repeatable: bool)
    requires i <= |budgets| && PointAfter(budgets, i, n, noting, repeatable).Closed?
    ensures PointAfter(budgets, |budgets|, n, noting, repeatable).Closed?
    decreases |budgets| - i
  {
    if i < |budgets| {
      StaysClosed(budgets, i + 1, n, noting, repeatable);
    }
  }

  /** A passing round that closes the target completes it. */
  lemma {:induction false} CompletedWhenPassing(t: Target, s: L.LoopState, results: seq<G.GateResult>)
    requires MayStart(t, s) && !Repeatable(t, results) && G.Decide(results) == G.Passing && t.closes
    ensures LoopAfter(t, s, results).completed
  {
  }
}
