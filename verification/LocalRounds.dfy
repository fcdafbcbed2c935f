/** The local target loop: rounds, stagnation and repair detection over repeated verification runs
    (scripts/quality_loop.py, scripts/quality_control/state.py, scripts/quality_control/convergence.py,
    skill-system/controller/progress.py). */
module LocalRounds {
  import opened Wrappers

  const STAGNATION_LIMIT: nat := 2

  datatype Gate = Gate(id: string)

  datatype Verdict = Eligible | Fail | OtherVerdict

  /** One verification run: the round the target declares, the fingerprint of the repair, the verdict
      and the gates that failed or were skipped. */
  datatype Run = Run(round: nat, repair: string, verdict: Verdict, failed: set<Gate>, skipped: set<Gate>)

  /** The durable state of a target; `compared` once a failed round has been recorded. */
  datatype LoopState = LoopState(
    required: nat, completed: bool, stopped: bool, stagnant: nat, lastRepair: Option<string>,
    compared: bool, failed: set<Gate>, skipped: set<Gate>)

  datatype Outcome =
    | Rejected
    | Converged
    | StoppedMaxRepairs
    | ReplanRequired
    | RepairRequired
    | EnvironmentHold

  function Fresh(): LoopState {
    LoopState(1, false, false, 0, None, false, {}, {})
  }

  function Improved(s: LoopState, run: Run): bool {
    var resolved := s.failed - run.failed;
    var unexpected := run.failed - s.failed - s.skipped;
    || (s.failed == {} && !s.compared)
    || (resolved != {} && unexpected == {})
    || (|run.failed| < |s.failed| && unexpected == {})
  }

  predicate Admitted(s: LoopState, run: Run) {
    && !s.completed && !s.stopped && s.required == run.round
    && (run.round > 1 ==> s.lastRepair != Some(run.repair))
  }

  function Stagnant(s: LoopState, run: Run): nat {
    if Improved(s, run) then 0 else s.stagnant + 1
  }

  function OutcomeOf(s: LoopState, run: Run, maxRounds: nat): Outcome {
    if !Admitted(s, run) then Rejected
    else
      match run.verdict
      case Eligible => Converged
      case OtherVerdict => EnvironmentHold
      case Fail =>
        if run.round >= maxRounds then StoppedMaxRepairs
        else if Stagnant(s, run) >= STAGNATION_LIMIT then ReplanRequired
        else RepairRequired
  }

  function After(s: LoopState, run: Run, maxRounds: nat): LoopState {
    var t := s.(lastRepair := Some(run.repair));
    match OutcomeOf(s, run, maxRounds)
    case Rejected => s
    case Converged => t.(completed := true, stagnant := 0)
    case EnvironmentHold => t
    case StoppedMaxRepairs | ReplanRequired | RepairRequired =>
      t.(stopped := OutcomeOf(s, run, maxRounds) != RepairRequired, stagnant := Stagnant(s, run), compared := true,
         failed := run.failed, skipped := run.skipped,
         required := if OutcomeOf(s, run, maxRounds) == RepairRequired then s.required + 1 else s.required)
  }

  /** The state file of one target. */
  class TargetState {
    var state: LoopState

    constructor ()
      ensures state == Fresh()
    {
      state := Fresh();
    }

    method Verify(run: Run, maxRounds: nat) returns (outcome: Outcome)
      modifies this
      ensures outcome == OutcomeOf(old(state), run, maxRounds)
      ensures state == After(old(state), run, maxRounds)
    {
      if state.completed || state.stopped || state.required != run.round {
        return Rejected;
      }
      if run.round > 1 && state.lastRepair == Some(run.repair) {
        return Rejected;
      }
      var s := state.(lastRepair := Some(run.repair));
      match run.verdict {
        case Eligible =>
          s := s.(completed := true, stagnant := 0);
          outcome := Converged;
        case OtherVerdict =>
          outcome := EnvironmentHold;
        case Fail =>
          var stagnant := if Improved(state, run) then 0 else state.stagnant + 1;
          s := s.(stagnant := stagnant, compared := true, failed := run.failed, skipped := run.skipped);
          if run.round >= maxRounds {
            s := s.(stopped := true);
            outcome := StoppedMaxRepairs;
          } else if stagnant >= STAGNATION_LIMIT {
            s := s.(stopped := true);
            outcome := ReplanRequired;
          } else {
            s := s.(stopped := false, required := run.round + 1);
            outcome := RepairRequired;
          }
      }
      state := s;
    }
  }

  // ---------- Histories ----------

  function StateAfter(runs: seq<Run>, n: nat, maxRounds: nat): LoopState
    requires n <= |runs|
  {
    if n == 0 then Fresh() else After(StateAfter(runs, n - 1, maxRounds), runs[n - 1], maxRounds)
  }

  function OutcomeAt(runs: seq<Run>, i: nat, maxRounds: nat): Outcome
    requires i < |runs|
  {
    OutcomeOf(StateAfter(runs, i, maxRounds), runs[i], maxRounds)
  }

  predicate FailedRound(o: Outcome) {
    o == StoppedMaxRepairs || o == ReplanRequired || o == RepairRequired
  }

  function FailedRounds(runs: seq<Run>, n: nat, maxRounds: nat): nat
    requires n <= |runs|
  {
    if n == 0 then 0
    else FailedRounds(runs, n - 1, maxRounds) + (if FailedRound(OutcomeAt(runs, n - 1, maxRounds)) then 1 else 0)
  }

  /** What a run of a target leads to, case by case: a second failure in a row without improvement calls for
      a replan, the last round stops, and anything but a failure or a completion holds. */
  lemma {:induction false} OutcomeExactly(s: LoopState, run: Run, maxRounds: nat)
    ensures var outcome := OutcomeOf(s, run, maxRounds);
            var admitted := !s.completed && !s.stopped && s.required == run.round &&
                            (run.round <= 1 || s.lastRepair != Some(run.repair));
            && (outcome == Rejected <==> !admitted)
            && (outcome == Converged <==> admitted && run.verdict == Eligible)
            && (outcome == EnvironmentHold <==> admitted && run.verdict == OtherVerdict)
            && (outcome == StoppedMaxRepairs <==> admitted && run.verdict == Fail && run.round >= maxRounds)
            && (outcome == ReplanRequired <==>
                  admitted && run.verdict == Fail && run.round < maxRounds && !Improved(s, run) && s.stagnant >= 1)
            && (outcome == RepairRequired <==>
                  admitted && run.verdict == Fail && run.round < maxRounds && (Improved(s, run) || s.stagnant == 0))
  {
    hide Improved;
  }

  /** What a run leaves behind: every admitted one its repair, a failed one its failures, and only the
      completing, stopping and repairing ones change whether and in which round the loop goes on. */
  lemma {:induction false} StateExactly(s: LoopState, run: Run, maxRounds: nat)
    ensures var outcome, t := OutcomeOf(s, run, maxRounds), After(s, run, maxRounds);
            && (outcome == Rejected ==> t == s)
            && (outcome != Rejected ==> t.lastRepair == Some(run.repair))
            && (t.completed <==> s.completed || outcome == Converged)
            && (t.stopped <==> s.stopped || outcome == StoppedMaxRepairs || outcome == ReplanRequired)
            && t.required == (if outcome == RepairRequired then s.required + 1 else s.required)
            && (FailedRound(outcome) ==> t.compared && t.failed == run.failed && t.skipped == run.skipped)
            && (!FailedRound(outcome) ==> t.compared == s.compared && t.failed == s.failed && t.skipped == s.skipped)
  {
    hide Improved;
  }

  /** The required round counts the failed rounds; once the loop stopped or completed nothing runs. */
  lemma {:induction false} RoundsCountFailures(runs: seq<Run>, n: nat, maxRounds: nat)
    requires n <= |runs| && maxRounds >= 1
    ensures var s := StateAfter(runs, n, maxRounds);
            && s.required <= maxRounds
            && FailedRounds(runs, n, maxRounds) == (if s.stopped then s.required else s.required - 1)
  {
    hide Improved;
    if n > 0 {
      RoundsCountFailures(runs, n - 1, maxRounds);
    }
  }

  /** However often it is invoked, a target sees at most its maximum of failed rounds. */
  lemma {:induction false} FailedRoundsAreBounded(runs: seq<Run>, maxRounds: nat)
    requires maxRounds >= 1
    ensures FailedRounds(runs, |runs|, maxRounds) <= maxRounds
  {
    RoundsCountFailures(runs, |runs|, maxRounds);
  }

  /** A failed round improves on the one before exactly when it is the first, or resolves a failure
      and adds none but those that had been skipped: the third test of the comparison never decides. */
  lemma {:induction false} ImprovedExactly(s: LoopState, run: Run)
    ensures Improved(s, run) <==>
              || (s.failed == {} && !s.compared)
              || (&& (exists g :: g in s.failed && g !in run.failed)
                  && forall g :: g in run.failed && g !in s.failed ==> g in s.skipped)
  {
    var resolved := s.failed - run.failed;
    var unexpected := run.failed - s.failed - s.skipped;
    if resolved == {} {
      forall g | g in s.failed
        ensures g in run.failed
      {
        assert g !in resolved;
      }
      assert run.failed == s.failed + (run.failed - s.failed);
      assert |run.failed| >= |s.failed|;
    } else {
      var g :| g in resolved;
    }
    if unexpected == {} {
      forall g | g in run.failed && g !in s.failed
        ensures g in s.skipped
      {
        assert g !in unexpected;
      }
    } else {
      var g :| g in unexpected;
    }
  }

  /** The last `k` failed rounds before `n` did not improve. */
  ghost predicate EndsStagnant(runs: seq<Run>, n: nat, k: nat, maxRounds: nat)
    requires n <= |runs|
    decreases n
  {
    if k == 0 then true
    else if n == 0 then false
    else if FailedRound(OutcomeAt(runs, n - 1, maxRounds)) then
      !Improved(StateAfter(runs, n - 1, maxRounds), runs[n - 1]) && EndsStagnant(runs, n - 1, k - 1, maxRounds)
    else EndsStagnant(runs, n - 1, k, maxRounds)
  }

  /** While the loop may go on, its counter is the number of failed rounds without improvement that
      the history ends in, and that is less than two. */
  lemma {:induction false} StagnationIsHistory(runs: seq<Run>, n: nat, maxRounds: nat)
    requires n <= |runs| && !StateAfter(runs, n, maxRounds).completed
    ensures var s := StateAfter(runs, n, maxRounds);
            && EndsStagnant(runs, n, s.stagnant, maxRounds) && !EndsStagnant(runs, n, s.stagnant + 1, maxRounds)
            && (!s.stopped ==> s.stagnant < 2)
    decreases n
  {
    hide Improved;
    if n > 0 {
      StagnationIsHistory(runs, n - 1, maxRounds);
    }
  }

  /** An environment failure takes the repair with it: from round two on, the run that was held up
      cannot be repeated as it was, because its repair then counts as already tried. */
  lemma {:induction false} HeldRunCannotBeRepeatedExactly(s: LoopState, run: Run, again: Run, maxRounds: nat)
    requires OutcomeOf(s, run, maxRounds) == EnvironmentHold && again.round == run.round && again.repair == run.repair
    ensures OutcomeOf(After(s, run, maxRounds), again, maxRounds) == Rejected <==> run.round > 1
  {
  }

  /** Such a run is reached: after a failed first round and a new repair, the second round is held up by
      its environment, and repeating it with that repair is rejected whatever it would find. */
  lemma {:induction false} HeldSecondRoundIsLost(first: Run, held: Run, again: Run, maxRounds: nat)
    requires maxRounds >= 2 && first.round == 1 && first.verdict == Fail
    requires held.round == 2 && held.verdict == OtherVerdict && held.repair != first.repair
    requires again.round == 2 && again.repair == held.repair
    ensures var runs := [first, held, again];
            && OutcomeAt(runs, 0, maxRounds) == RepairRequired && OutcomeAt(runs, 1, maxRounds) == EnvironmentHold
            && OutcomeAt(runs, 2, maxRounds) == Rejected
            && StateAfter(runs, 3, maxRounds) == StateAfter(runs, 2, maxRounds)
  {
    hide OutcomeOf, After;
    var runs := [first, held, again];
    var s1, s2 := After(Fresh(), first, maxRounds), After(After(Fresh(), first, maxRounds), held, maxRounds);
    FirstRoundFails(first, maxRounds);
    SecondRoundHeld(s1, held, again, maxRounds);
    assert StateAfter(runs, 0, maxRounds) == Fresh() && runs[1 - 1] == first;
    assert StateAfter(runs, 1, maxRounds) == s1 && runs[2 - 1] == held;
    assert StateAfter(runs, 2, maxRounds) == s2 && runs[3 - 1] == again;
  }

  lemma {:induction false} FirstRoundFails(first: Run, maxRounds: nat)
    requires maxRounds >= 2 && first.round == 1 && first.verdict == Fail
    ensures OutcomeOf(Fresh(), first, maxRounds) == RepairRequired
    ensures var s := After(Fresh(), first, maxRounds);
            s.required == 2 && !s.completed && !s.stopped && s.lastRepair == Some(first.repair)
  {
  }

  lemma {:induction false} SecondRoundHeld(s: LoopState, held: Run, again: Run, maxRounds: nat)
    requires s.required == 2 && !s.completed && !s.stopped && s.lastRepair.Some? && s.lastRepair.value != held.repair
    requires held.round == 2 && held.verdict == OtherVerdict && again.round == 2 && again.repair == held.repair
    ensures OutcomeOf(s, held, maxRounds) == EnvironmentHold
    ensures OutcomeOf(After(s, held, maxRounds), again, maxRounds) == Rejected
    ensures After(After(s, held, maxRounds), again, maxRounds) == After(s, held, maxRounds)
  {
  }
}
