/** The inner fixer loop of one Stage-2 run (scripts/github_repair_orchestrator.py). */
module Stage2Loop {
  import opened Wrappers

  const MAX_CYCLES: nat := 8

  /** What one fixer cycle does to the workspace and reports: the paths git lists as changed, the
      whole diff of the workspace, the verifier's verdict and the signature of its findings. */
  datatype Cycle = Cycle(changed: seq<string>, diff: string, passed: bool, signature: string)

  datatype Step = FixerFailed | Ran(cycle: Cycle)

  /** The statuses of the durable task a run passes through. */
  datatype Status = CREATED | RUNNING | REPAIRING | VALIDATING | WAITING_EXTERNAL_RESULT | BLOCKED

  datatype Verdict =
    | Ready
    | RoundRejected
    | PreflightRejected
    | FixerError
    | ScopeViolation
    | NoProgress
    | EmptyPatch
    | RevokedOnRepeat
    | BudgetExhausted

  function Limit(maxCycles: nat): nat {
    if maxCycles < MAX_CYCLES then maxCycles else MAX_CYCLES
  }

  // ---------- The loop in terms of its history ----------

  predicate InScope(cycle: Cycle, allowed: seq<string>) {
    forall p :: p in cycle.changed ==> p in allowed
  }

  /** The diff the workspace had before cycle `i`. */
  function DiffBefore(world: nat -> Step, seed: string, i: nat): string {
    if i > 0 && world(i - 1).Ran? then world(i - 1).cycle.diff else seed
  }

  /** Cycle `i` is recorded. */
  predicate Recorded(world: nat -> Step, allowed: seq<string>, seed: string, i: nat) {
    && world(i).Ran? && InScope(world(i).cycle, allowed)
    && world(i).cycle.diff != DiffBefore(world, seed, i)
  }

  predicate Repeats(world: nat -> Step, i: nat) {
    i > 0 && world(i).Ran? && world(i - 1).Ran? && world(i).cycle.signature == world(i - 1).cycle.signature
  }

  /** After cycle `i` the loop goes on: it is recorded, fails, and fails in a new way. */
  predicate GoesOn(world: nat -> Step, allowed: seq<string>, seed: string, i: nat) {
    Recorded(world, allowed, seed, i) && !world(i).cycle.passed && !Repeats(world, i)
  }

  function VerdictAt(world: nat -> Step, allowed: seq<string>, seed: string, i: nat): Verdict {
    if world(i).FixerFailed? then FixerError
    else if !InScope(world(i).cycle, allowed) then ScopeViolation
    else if world(i).cycle.diff == DiffBefore(world, seed, i) then NoProgress
    else if !world(i).cycle.passed then RevokedOnRepeat
    else if world(i).cycle.diff == "" then EmptyPatch
    else Ready
  }

  /** The recorded cycles and the verdict of a run that ends in cycle `n`, counted from zero, or
      after the last allowed one. */
  ghost predicate Ends(world: nat -> Step, allowed: seq<string>, seed: string, maxCycles: nat, n: nat,
                       cycles: seq<Cycle>, verdict: Verdict)
  {
    && n <= Limit(maxCycles)
    && (forall i :: 0 <= i < n ==> GoesOn(world, allowed, seed, i))
    && (if n == Limit(maxCycles) then
          verdict == BudgetExhausted && |cycles| == n
        else
          && !GoesOn(world, allowed, seed, n) && verdict == VerdictAt(world, allowed, seed, n)
          && |cycles| == n + (if Recorded(world, allowed, seed, n) then 1 else 0))
    && forall i :: 0 <= i < |cycles| ==> world(i) == Ran(cycles[i])
  }

  ghost predicate SoFar(world: nat -> Step, allowed: seq<string>, seed: string, n: nat, cycles: seq<Cycle>) {
    && |cycles| == n
    && forall i :: 0 <= i < n ==> GoesOn(world, allowed, seed, i) && world(i) == Ran(cycles[i])
  }

  lemma {:induction false} OneMore(world: nat -> Step, allowed: seq<string>, seed: string, n: nat, cycles: seq<Cycle>)
    requires SoFar(world, allowed, seed, n, cycles) && GoesOn(world, allowed, seed, n)
    ensures SoFar(world, allowed, seed, n + 1, cycles + [world(n).cycle])
  {
    hide InScope, Repeats;
  }

  lemma {:induction false} StopsHere(world: nat -> Step, allowed: seq<string>, seed: string, maxCycles: nat, n: nat,
      cycles: seq<Cycle>)
    requires SoFar(world, allowed, seed, n, cycles) && n < Limit(maxCycles) && !GoesOn(world, allowed, seed, n)
    ensures Ends(world, allowed, seed, maxCycles, n,
                 if Recorded(world, allowed, seed, n) then cycles + [world(n).cycle] else cycles,
                 VerdictAt(world, allowed, seed, n))
  {
    hide GoesOn, VerdictAt, InScope;
  }

  lemma {:induction false} Exhausted(world: nat -> Step, allowed: seq<string>, seed: string, maxCycles: nat,
      cycles: seq<Cycle>)
    requires SoFar(world, allowed, seed, Limit(maxCycles), cycles)
    ensures Ends(world, allowed, seed, maxCycles, Limit(maxCycles), cycles, BudgetExhausted)
  {
    hide GoesOn;
  }

  lemma {:induction false} Begins(world: nat -> Step, allowed: seq<string>, seed: string)
    ensures SoFar(world, allowed, seed, 0, []) && DiffBefore(world, seed, 0) == seed
  {
  }

  lemma {:induction false} DiffAfter(world: nat -> Step, seed: string, n: nat)
    requires world(n).Ran?
    ensures DiffBefore(world, seed, n + 1) == world(n).cycle.diff
  {
  }

  /** The durable record of the repair run. */
  class RepairTask {
    var round: nat
    var sourceChanged: bool
    var status: Status

    constructor ()
      ensures round == 0 && !sourceChanged
    {
      round, sourceChanged, status := 0, false, CREATED;
    }

    /** One Stage-2 run: the round may not go back, then cycles until a verdict. The round is noted
        before the model's configuration is looked at, so a missing one leaves it noted. */
    method RunStage2(
      world: nat -> Step, allowed: seq<string>, seed: string, maxCycles: nat, requested: int, maxRounds: nat,
      preflight: bool, configured: bool)
      returns (verdict: Verdict, cycles: seq<Cycle>)
      modifies this
      ensures verdict == RoundRejected <==> requested < 1 || requested > maxRounds
      ensures verdict == PreflightRejected <==>
                1 <= requested <= maxRounds && (!preflight || old(round) > requested || !configured)
      ensures verdict == RoundRejected || verdict == PreflightRejected ==> cycles == []
      ensures round == if 1 <= requested <= maxRounds && preflight && old(round) <= requested then requested
              else old(round)
      ensures round >= old(round)
      ensures verdict != RoundRejected && verdict != PreflightRejected ==>
                exists n: nat :: Ends(world, allowed, seed, maxCycles, n, cycles, verdict)
      ensures sourceChanged == (old(sourceChanged) || verdict == Ready)
      ensures status == if verdict == Ready then WAITING_EXTERNAL_RESULT else BLOCKED
    {
      hide Ends, SoFar, InScope, DiffBefore, Limit;
      cycles := [];
      status := BLOCKED;
      if requested < 1 || requested > maxRounds {
        return RoundRejected, cycles;
      }
      if !preflight || round > requested {
        return PreflightRejected, cycles;
      }
      round := requested;
      if !configured {
        return PreflightRejected, cycles;
      }
      status := RUNNING;
      var previousSignature: Option<string> := None;
      var repeated := 0;
      var before := seed;
      Begins(world, allowed, seed);
      for n := 0 to Limit(maxCycles)
        invariant SoFar(world, allowed, seed, n, cycles)
        invariant before == DiffBefore(world, seed, n)
        invariant n == 0 ==> previousSignature == None && repeated == 0
        invariant n > 0 ==>
                    world(n - 1).Ran? && previousSignature == Some(world(n - 1).cycle.signature) && repeated == 1
        invariant round == requested && sourceChanged == old(sourceChanged)
      {
        status := REPAIRING;
        match world(n)
        case FixerFailed =>
          StopsHere(world, allowed, seed, maxCycles, n, cycles);
          status := BLOCKED;
          return FixerError, cycles;
        case Ran(cycle) =>
          if !InScope(cycle, allowed) {
            StopsHere(world, allowed, seed, maxCycles, n, cycles);
            status := BLOCKED;
            return ScopeViolation, cycles;
          }
          if cycle.diff == before {
            StopsHere(world, allowed, seed, maxCycles, n, cycles);
            status := BLOCKED;
            return NoProgress, cycles;
          }
          before := cycle.diff;
          ghost var earlier := cycles;
          cycles := cycles + [cycle];
          status := VALIDATING;
          if cycle.passed {
            StopsHere(world, allowed, seed, maxCycles, n, earlier);
            if cycle.diff == "" {
              status := BLOCKED;
              return EmptyPatch, cycles;
            }
            sourceChanged := true;
            status := WAITING_EXTERNAL_RESULT;
            return Ready, cycles;
          }
          if Some(cycle.signature) == previousSignature {
            repeated := repeated + 1;
          } else {
            repeated := 1;
            previousSignature := Some(cycle.signature);
          }
          if repeated >= 2 {
            StopsHere(world, allowed, seed, maxCycles, n, earlier);
            status := BLOCKED;
            return RevokedOnRepeat, cycles;
          }
          OneMore(world, allowed, seed, n, earlier);
          DiffAfter(world, seed, n);
      }
      Exhausted(world, allowed, seed, maxCycles, cycles);
      status := BLOCKED;
      return BudgetExhausted, cycles;
    }
  }

  // ---------- What every run keeps ----------

  /** A run has one end. */
  lemma {:induction false} EndIsUnique(
    world: nat -> Step, allowed: seq<string>, seed: string, maxCycles: nat,
    n1: nat, cycles1: seq<Cycle>, verdict1: Verdict, n2: nat, cycles2: seq<Cycle>, verdict2: Verdict)
    requires Ends(world, allowed, seed, maxCycles, n1, cycles1, verdict1)
    requires Ends(world, allowed, seed, maxCycles, n2, cycles2, verdict2)
    ensures n1 == n2 && cycles1 == cycles2 && verdict1 == verdict2
  {
    hide GoesOn, Recorded, VerdictAt;
    assert n1 < n2 ==> GoesOn(world, allowed, seed, n1);
    assert n2 < n1 ==> GoesOn(world, allowed, seed, n2);
    forall i | 0 <= i < |cycles1|
      ensures cycles1[i] == cycles2[i]
    {
      assert world(i) == Ran(cycles1[i]);
      assert world(i) == Ran(cycles2[i]);
    }
  }

  /** At most eight cycles; each recorded one changes the workspace diff within the grant; all but
      the last fail; only the last pair can share a verifier signature. */
  lemma {:induction false} EveryRun(
    world: nat -> Step, allowed: seq<string>, seed: string, maxCycles: nat, n: nat, cycles: seq<Cycle>,
    verdict: Verdict)
    requires Ends(world, allowed, seed, maxCycles, n, cycles, verdict)
    ensures |cycles| <= maxCycles && |cycles| <= MAX_CYCLES
    ensures forall i :: 0 <= i < |cycles| ==>
              InScope(cycles[i], allowed) && cycles[i].diff != (if i == 0 then seed else cycles[i - 1].diff)
    ensures forall i :: 0 <= i < |cycles| - 1 ==> !cycles[i].passed
    ensures forall i :: 0 < i < |cycles| - 1 ==> cycles[i].signature != cycles[i - 1].signature
  {
    hide InScope;
    forall i | 0 <= i < |cycles|
      ensures InScope(cycles[i], allowed) && cycles[i].diff != (if i == 0 then seed else cycles[i - 1].diff)
    {
      assert world(i) == Ran(cycles[i]);
      if i > 0 {
        assert world(i - 1) == Ran(cycles[i - 1]);
      }
      assert i < n ==> GoesOn(world, allowed, seed, i);
      assert Recorded(world, allowed, seed, i);
    }
    forall i | 0 <= i < |cycles| - 1
      ensures !cycles[i].passed && (i > 0 ==> cycles[i].signature != cycles[i - 1].signature)
    {
      assert GoesOn(world, allowed, seed, i) && world(i) == Ran(cycles[i]);
      if i > 0 {
        assert world(i - 1) == Ran(cycles[i - 1]);
      }
    }
  }

  /** READY: the last cycle passed with a patch, every earlier one failed. */
  lemma {:induction false} ReadyExactly(
    world: nat -> Step, allowed: seq<string>, seed: string, maxCycles: nat, n: nat, cycles: seq<Cycle>,
    verdict: Verdict)
    requires Ends(world, allowed, seed, maxCycles, n, cycles, verdict)
    ensures verdict == Ready <==> cycles != [] && cycles[|cycles| - 1].passed && cycles[|cycles| - 1].diff != ""
  {
    hide InScope;
    if cycles != [] {
      var last := |cycles| - 1;
      assert world(last) == Ran(cycles[last]);
      assert last < n ==> GoesOn(world, allowed, seed, last);
    }
    if n < Limit(maxCycles) && world(n).Ran? && Recorded(world, allowed, seed, n) {
      assert world(n) == Ran(cycles[n]);
    }
  }

  /** Two equal verifier signatures in a row end the run in revocation, unless the second passed. */
  lemma {:induction false} RevokedExactly(
    world: nat -> Step, allowed: seq<string>, seed: string, maxCycles: nat, n: nat, cycles: seq<Cycle>,
    verdict: Verdict)
    requires Ends(world, allowed, seed, maxCycles, n, cycles, verdict)
    ensures verdict == RevokedOnRepeat <==>
              var k := |cycles|;
              k >= 2 && !cycles[k - 1].passed && cycles[k - 1].signature == cycles[k - 2].signature
  {
    hide InScope;
    var k := |cycles|;
    if k >= 1 {
      assert world(k - 1) == Ran(cycles[k - 1]);
      assert k - 1 < n ==> GoesOn(world, allowed, seed, k - 1);
    }
    if k >= 2 {
      assert world(k - 2) == Ran(cycles[k - 2]);
    }
    if n < Limit(maxCycles) && Recorded(world, allowed, seed, n) {
      assert world(n) == Ran(cycles[n]);
    }
  }

  /** The recorded cycles all failed, the last not with the signature of the one before. */
  predicate StillOpen(cycles: seq<Cycle>) {
    var k := |cycles|;
    k > 0 ==> !cycles[k - 1].passed && (k > 1 ==> cycles[k - 1].signature != cycles[k - 2].signature)
  }

  /** Why a run ended, verdict by verdict: the budget is used up by exactly the smaller of the requested
      number and eight cycles; the fixer failed, left its scope or changed nothing in the cycle after the
      recorded ones; or the last recorded cycle passed with an empty patch. */
  lemma {:induction false} VerdictExactly(
    world: nat -> Step, allowed: seq<string>, seed: string, maxCycles: nat, n: nat, cycles: seq<Cycle>,
    verdict: Verdict)
    requires Ends(world, allowed, seed, maxCycles, n, cycles, verdict)
    ensures forall i :: 0 <= i < |cycles| ==> world(i) == Ran(cycles[i])
    ensures var k, limit := |cycles|, if maxCycles < 8 then maxCycles else 8;
            var goes := k < limit && StillOpen(cycles);
            var before := if k == 0 then seed else cycles[k - 1].diff;
            && (verdict == BudgetExhausted <==> k == limit && StillOpen(cycles))
            && (verdict == FixerError <==> goes && world(k).FixerFailed?)
            && (verdict == ScopeViolation <==>
                  goes && world(k).Ran? && exists p :: p in world(k).cycle.changed && p !in allowed)
            && (verdict == NoProgress <==>
                  && goes && world(k).Ran? && (forall p :: p in world(k).cycle.changed ==> p in allowed)
                  && world(k).cycle.diff == before)
            && (verdict == EmptyPatch <==> k > 0 && cycles[k - 1].passed && cycles[k - 1].diff == "")
            && verdict != RoundRejected && verdict != PreflightRejected
  {
    var k := |cycles|;
    forall i | 0 <= i < k
      ensures world(i) == Ran(cycles[i])
    {
    }
    if k > 0 {
      assert world(k - 1) == Ran(cycles[k - 1]);
      assert k - 1 < n ==> GoesOn(world, allowed, seed, k - 1);
      if k > 1 {
        assert world(k - 2) == Ran(cycles[k - 2]);
      }
    }
    if n < Limit(maxCycles) && Recorded(world, allowed, seed, n) {
      assert world(n) == Ran(cycles[n]);
    }
  }
}
