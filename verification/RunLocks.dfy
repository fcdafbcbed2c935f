/** The exclusion protocol between quality controllers (scripts/quality_loop.py): every controller
    takes its locks without waiting, in sorted order, and gives up at the first busy one. */
module RunLocks {
  import opened Wrappers
  import Text

  datatype Lock = Lock(path: string)

  predicate Before(a: Lock, b: Lock) {
    Text.LexLess(a.path, b.path)
  }

  /** What one controller is asked to work on. The evidence directory is given as parent and name. */
  datatype Request = Request(evidenceParent: string, evidenceName: string, stateDir: string, target: string)

  function EvidenceLock(r: Request): Lock {
    Lock(r.evidenceParent + "/." + r.evidenceName + ".quality-run.lock")
  }

  function StateLock(r: Request, sha: string -> string): Lock {
    Lock(r.stateDir + "/.run-locks/" + sha(r.target) + ".lock")
  }

  /** The distinct lock paths in sorted order. */
  function LocksOf(r: Request, sha: string -> string): seq<Lock> {
    var a, b := EvidenceLock(r), StateLock(r, sha);
    if a == b then [a] else if Before(a, b) then [a, b] else [b, a]
  }

  predicate Ascending(program: seq<Lock>) {
    forall i, j :: 0 <= i < j < |program| ==> Before(program[i], program[j])
  }

  lemma {:induction false} LocksAreAscending(r: Request, sha: string -> string)
    ensures Ascending(LocksOf(r, sha))
    ensures EvidenceLock(r) in LocksOf(r, sha) && StateLock(r, sha) in LocksOf(r, sha)
    ensures |LocksOf(r, sha)| <= 2
  {
    Text.LexTotal(EvidenceLock(r).path, StateLock(r, sha).path);
  }

  // ---------- The system of all contending controllers ----------

  /** `Acquiring(n)` and `Releasing(n, _)` hold the first `n` locks of the program. A releasing or
      finished controller remembers whether it had entered. */
  datatype Phase =
    | Acquiring(held: nat)
    | Inside
    | Releasing(held: nat, entered: bool)
    | Finished(entered: bool)
    | Killed

  datatype System = System(
    programs: seq<seq<Lock>>,
    phases: seq<Phase>,
    owner: map<Lock, nat>,
    refusedAt: seq<Option<Lock>>) // history: the busy lock a controller gave up at

  function Held(program: seq<Lock>, phase: Phase): nat {
    match phase
    case Acquiring(n) => n
    case Inside => |program|
    case Releasing(n, _) => n
    case Finished(_) => 0
    case Killed => 0
  }

  predicate Init(s: System) {
    && |s.phases| == |s.programs| == |s.refusedAt|
    && (forall c :: 0 <= c < |s.phases| ==> s.phases[c] == Acquiring(0))
    && (forall c :: 0 <= c < |s.refusedAt| ==> s.refusedAt[c] == None)
    && s.owner == map[]
  }

  /** The steps of one controller. `Kill` is the operating system ending the process. */
  datatype Step = Take | Refuse | Enter | Leave | Release | Finish | Kill

  ghost predicate Shape(s: System) {
    && |s.phases| == |s.programs| == |s.refusedAt|
    && (forall c :: 0 <= c < |s.programs| ==> Held(s.programs[c], s.phases[c]) <= |s.programs[c]|)
  }

  /** Every controller takes its locks in ascending order. */
  ghost predicate Sorted(s: System) {
    forall c :: 0 <= c < |s.programs| ==> Ascending(s.programs[c])
  }

  predicate Live(phase: Phase) {
    !phase.Finished? && !phase.Killed?
  }

  ghost predicate Enabled(s: System, c: nat, step: Step)
    requires Shape(s) && c < |s.programs|
  {
    var program, phase := s.programs[c], s.phases[c];
    match step
    case Take => phase.Acquiring? && phase.held < |program| && program[phase.held] !in s.owner
    case Refuse => phase.Acquiring? && phase.held < |program| && program[phase.held] in s.owner
    case Enter => phase.Acquiring? && phase.held == |program|
    case Leave => phase.Inside?
    case Release => phase.Releasing? && phase.held > 0
    case Finish => phase.Releasing? && phase.held == 0
    case Kill => Live(phase)
  }

  ghost function Apply(s: System, c: nat, step: Step): System
    requires Shape(s) && c < |s.programs| && Enabled(s, c, step)
  {
    var program, phase := s.programs[c], s.phases[c];
    match step
    case Take => s.(phases := s.phases[c := Acquiring(phase.held + 1)], owner := s.owner[program[phase.held] := c])
    case Refuse =>
      s.(phases := s.phases[c := Releasing(phase.held, false)],
         refusedAt := s.refusedAt[c := Some(program[phase.held])])
    case Enter => s.(phases := s.phases[c := Inside])
    case Leave => s.(phases := s.phases[c := Releasing(|program|, true)])
    case Release =>
      s.(phases := s.phases[c := Releasing(phase.held - 1, phase.entered)],
         owner := s.owner - {program[phase.held - 1]})
    case Finish => s.(phases := s.phases[c := Finished(phase.entered)])
    case Kill =>
      s.(phases := s.phases[c := Killed], owner := map l | l in s.owner && s.owner[l] != c :: s.owner[l])
  }

  ghost predicate Next(s: System, t: System) {
    Shape(s) && exists c: nat, step :: c < |s.programs| && Enabled(s, c, step) && t == Apply(s, c, step)
  }

  /** Any interleaving of any number of controllers. */
  ghost predicate IsRun(run: seq<System>) {
    && run != [] && Init(run[0])
    && forall i :: 0 <= i < |run| - 1 ==> Next(run[i], run[i + 1])
  }

  /** No controller is ever stuck: each live one has a step of its own. */
  lemma {:induction false} NeverStuck(s: System, c: nat)
    requires Shape(s) && c < |s.programs| && Live(s.phases[c])
    ensures exists step :: step != Kill && Enabled(s, c, step)
  {
    var program, phase := s.programs[c], s.phases[c];
    var step := match phase
      case Acquiring(n) => if n == |program| then Enter else if program[n] in s.owner then Refuse else Take
      case Inside => Leave
      case Releasing(n, _) => if n == 0 then Finish else Release
      case _ => Kill;
    assert Enabled(s, c, step);
  }

  // ---------- Ownership ----------

  /** Controller `c` holds lock `l`. */
  ghost predicate Holds(s: System, c: nat, l: Lock)
    requires Shape(s) && c < |s.programs|
  {
    exists i :: 0 <= i < Held(s.programs[c], s.phases[c]) && s.programs[c][i] == l
  }

  /** The lock table says exactly who holds what. */
  ghost predicate Ownership(s: System)
    requires Shape(s)
  {
    && (forall l :: l in s.owner ==> s.owner[l] < |s.programs| && Holds(s, s.owner[l], l))
    && (forall c: nat, l :: c < |s.programs| && Holds(s, c, l) ==> l in s.owner && s.owner[l] == c)
  }

  lemma {:induction false} AscendingDistinct(program: seq<Lock>, i: nat, j: nat)
    requires Ascending(program) && i < |program| && j < |program| && program[i] == program[j]
    ensures i == j
  {
    Text.LexIrreflexive(program[i].path);
  }

  lemma {:induction false} OthersUnchanged(s: System, c: nat, step: Step, d: nat, l: Lock)
    requires Shape(s) && c < |s.programs| && Enabled(s, c, step) && d < |s.programs| && d != c
    ensures Shape(Apply(s, c, step)) && (Holds(Apply(s, c, step), d, l) <==> Holds(s, d, l))
  {
    StepKeepsShape(s, c, step);
  }

  lemma {:induction false} StepKeepsShape(s: System, c: nat, step: Step)
    requires Shape(s) && c < |s.programs| && Enabled(s, c, step)
    ensures Shape(Apply(s, c, step))
  {
  }

  /** How a step changes what its controller holds. */
  lemma {:induction false} MoverHolds(s: System, c: nat, step: Step, l: Lock)
    requires Sorted(s) && Shape(s) && c < |s.programs| && Enabled(s, c, step)
    ensures Shape(Apply(s, c, step))
    ensures Holds(Apply(s, c, step), c, l) <==>
              match step
              case Take => Holds(s, c, l) || l == s.programs[c][s.phases[c].held]
              case Release => Holds(s, c, l) && l != s.programs[c][s.phases[c].held - 1]
              case Kill => false
              case _ => Holds(s, c, l)
  {
    StepKeepsShape(s, c, step);
    var program, phase := s.programs[c], s.phases[c];
    if step == Take && (Holds(s, c, l) || l == program[phase.held]) {
      var i :| 0 <= i <= phase.held && program[i] == l;
      assert Holds(Apply(s, c, step), c, l);
    } else if step == Release && Holds(Apply(s, c, step), c, l) {
      var i :| 0 <= i < phase.held - 1 && program[i] == l;
      if l == program[phase.held - 1] {
        AscendingDistinct(program, i, phase.held - 1);
      }
      assert Holds(s, c, l);
    }
  }

  lemma {:induction false} StepKeepsOwnership(s: System, c: nat, step: Step)
    requires Sorted(s) && Shape(s) && Ownership(s) && c < |s.programs| && Enabled(s, c, step)
    ensures Shape(Apply(s, c, step)) && Ownership(Apply(s, c, step))
  {
    StepKeepsShape(s, c, step);
    var t := Apply(s, c, step);
    var program, phase := s.programs[c], s.phases[c];
    forall l | l in t.owner
      ensures t.owner[l] < |t.programs| && Holds(t, t.owner[l], l)
    {
      MoverHolds(s, c, step, l);
      if t.owner[l] != c {
        OthersUnchanged(s, c, step, t.owner[l], l);
      } else if step == Release {
        assert l != program[phase.held - 1];
      }
    }
    forall d: nat, l | d < |t.programs| && Holds(t, d, l)
      ensures l in t.owner && t.owner[l] == d
    {
      MoverHolds(s, c, step, l);
      if d != c {
        OthersUnchanged(s, c, step, d, l);
        if step == Take {
          assert l != program[phase.held];
        } else if step == Release {
          assert Holds(s, c, program[phase.held - 1]);
        }
      }
    }
  }

  // ---------- Why a controller was refused ----------

  predicate Entered(phase: Phase) {
    phase == Inside || (phase.Releasing? && phase.entered) || (phase.Finished? && phase.entered)
  }

  /** What each phase remembers about refusals. */
  ghost predicate Remembers(s: System, c: nat)
    requires Shape(s) && c < |s.programs|
  {
    match s.phases[c]
    case Acquiring(_) => s.refusedAt[c] == None
    case Releasing(n, false) =>
      s.refusedAt[c].Some? && forall i :: 0 <= i < n ==> Before(s.programs[c][i], s.refusedAt[c].value)
    case Finished(false) => s.refusedAt[c].Some?
    case _ => true
  }

  /** Controller `d` accounts for a refusal at lock `l`: it entered, was killed, still holds `l` on its
      way in, or was itself refused at a later lock. */
  ghost predicate AccountsFor(s: System, d: nat, l: Lock)
    requires Shape(s) && d < |s.programs|
  {
    || Entered(s.phases[d])
    || s.phases[d] == Killed
    || (s.phases[d].Acquiring? && Holds(s, d, l))
    || (s.refusedAt[d].Some? && Before(l, s.refusedAt[d].value))
  }

  ghost predicate Explained(s: System, c: nat)
    requires Shape(s) && c < |s.programs|
  {
    s.refusedAt[c].Some? ==> exists d: nat :: d < |s.programs| && AccountsFor(s, d, s.refusedAt[c].value)
  }

  ghost predicate Inv(s: System) {
    && Sorted(s) && Shape(s) && Ownership(s)
    && (forall c: nat :: c < |s.programs| ==> Remembers(s, c))
    && (forall c: nat :: c < |s.programs| ==> Explained(s, c))
  }

  lemma {:induction false} InitInv(s: System)
    requires Init(s) && Sorted(s)
    ensures Inv(s)
  {
  }

  lemma {:induction false} StepKeepsRemembers(s: System, c: nat, step: Step, d: nat)
    requires Sorted(s) && Shape(s) && c < |s.programs| && Enabled(s, c, step) && d < |s.programs|
    requires Remembers(s, d)
    ensures Shape(Apply(s, c, step)) && Remembers(Apply(s, c, step), d)
  {
    StepKeepsShape(s, c, step);
  }

  lemma {:induction false} StepKeepsAccount(s: System, c: nat, step: Step, d: nat, l: Lock)
    requires Sorted(s) && Shape(s) && c < |s.programs| && Enabled(s, c, step) && d < |s.programs|
    requires Remembers(s, d) && AccountsFor(s, d, l)
    ensures Shape(Apply(s, c, step)) && AccountsFor(Apply(s, c, step), d, l)
  {
    StepKeepsShape(s, c, step);
    if d == c {
      MoverHolds(s, c, step, l);
      if step == Refuse && Holds(s, c, l) {
        var i :| 0 <= i < s.phases[c].held && s.programs[c][i] == l;
        assert Before(l, s.programs[c][s.phases[c].held]);
      }
    } else {
      OthersUnchanged(s, c, step, d, l);
    }
  }

  /** At the moment of a refusal the owner of the busy lock accounts for it. */
  lemma {:induction false} OwnerAccounts(s: System, c: nat)
    requires Inv(s) && c < |s.programs| && Enabled(s, c, Refuse)
    ensures var l := s.programs[c][s.phases[c].held];
            s.owner[l] < |s.programs| && s.owner[l] != c && AccountsFor(s, s.owner[l], l)
  {
    var l := s.programs[c][s.phases[c].held];
    var d := s.owner[l];
    var i :| 0 <= i < Held(s.programs[d], s.phases[d]) && s.programs[d][i] == l;
    if d == c {
      AscendingDistinct(s.programs[c], i, s.phases[c].held);
    }
    assert Remembers(s, d);
  }

  lemma {:induction false} StepKeepsExplained(s: System, c: nat, step: Step, r: nat)
    requires Inv(s) && c < |s.programs| && Enabled(s, c, step) && r < |s.programs|
    ensures Shape(Apply(s, c, step)) && Explained(Apply(s, c, step), r)
  {
    StepKeepsShape(s, c, step);
    var t := Apply(s, c, step);
    if t.refusedAt[r].Some? {
      var l := t.refusedAt[r].value;
      var d: nat;
      if r == c && step == Refuse {
        OwnerAccounts(s, c);
        d := s.owner[l];
      } else {
        assert Explained(s, r);
        d :| d < |s.programs| && AccountsFor(s, d, l);
      }
      StepKeepsAccount(s, c, step, d, l);
    }
  }

  lemma {:induction false} StepKeepsInv(s: System, t: System)
    requires Inv(s) && Next(s, t)
    ensures Inv(t) && t.programs == s.programs
  {
    var c: nat, step :| c < |s.programs| && Enabled(s, c, step) && t == Apply(s, c, step);
    StepKeepsOwnership(s, c, step);
    forall d: nat | d < |t.programs|
      ensures Remembers(t, d) && Explained(t, d)
    {
      StepKeepsRemembers(s, c, step, d);
      StepKeepsExplained(s, c, step, d);
    }
  }

  lemma {:induction false} RunKeepsInv(run: seq<System>, i: nat)
    requires IsRun(run) && Sorted(run[0]) && i < |run|
    ensures Inv(run[i]) && run[i].programs == run[0].programs
  {
    if i == 0 {
      InitInv(run[0]);
    } else {
      RunKeepsInv(run, i - 1);
      var s, t := run[i - 1], run[i - 1 + 1];
      assert Next(s, t);
      StepKeepsInv(s, t);
    }
  }

  // ---------- What the protocol guarantees in every reachable state ----------

  /** Two controllers inside the critical section never share an evidence directory, nor a target
      under the same state directory. */
  lemma {:induction false} MutualExclusion(run: seq<System>, requests: seq<Request>, sha: string -> string,
                                           i: nat, c: nat, d: nat)
    requires IsRun(run) && i < |run|
    requires |requests| == |run[0].programs|
    requires forall k :: 0 <= k < |requests| ==> run[0].programs[k] == LocksOf(requests[k], sha)
    requires c < |requests| && d < |requests| && c != d && |run[i].phases| == |requests|
    requires run[i].phases[c] == Inside && run[i].phases[d] == Inside
    ensures (requests[c].evidenceParent, requests[c].evidenceName) !=
            (requests[d].evidenceParent, requests[d].evidenceName)
    ensures (requests[c].stateDir, requests[c].target) != (requests[d].stateDir, requests[d].target)
  {
    forall k | 0 <= k < |requests|
      ensures Ascending(run[0].programs[k])
    {
      LocksAreAscending(requests[k], sha);
    }
    RunKeepsInv(run, i);
    LocksAreAscending(requests[c], sha);
    LocksAreAscending(requests[d], sha);
    InsideHoldsAll(run[i], c, EvidenceLock(requests[c]));
    InsideHoldsAll(run[i], d, EvidenceLock(requests[d]));
    InsideHoldsAll(run[i], c, StateLock(requests[c], sha));
    InsideHoldsAll(run[i], d, StateLock(requests[d], sha));
  }

  lemma {:induction false} InsideHoldsAll(s: System, c: nat, l: Lock)
    requires Inv(s) && c < |s.programs| && s.phases[c] == Inside && l in s.programs[c]
    ensures l in s.owner && s.owner[l] == c
  {
    var k :| 0 <= k < |s.programs[c]| && s.programs[c][k] == l;
    assert Holds(s, c, l);
  }

  /** A controller that is done, entered or refused or killed, holds nothing. */
  lemma {:induction false} DoneHoldsNothing(run: seq<System>, i: nat, c: nat)
    requires IsRun(run) && Sorted(run[0]) && i < |run| && c < |run[0].programs|
    ensures c < |run[i].phases|
    ensures !Live(run[i].phases[c]) ==> forall l :: l in run[i].owner ==> run[i].owner[l] != c
  {
    RunKeepsInv(run, i);
  }

  lemma {:induction false} LatestRefusal(s: System, n: nat) returns (m: nat)
    requires Shape(s) && 0 < n <= |s.refusedAt|
    requires forall i :: 0 <= i < n ==> s.refusedAt[i].Some?
    ensures m < n && forall i :: 0 <= i < n ==> !Before(s.refusedAt[m].value, s.refusedAt[i].value)
  {
    var last := s.refusedAt[n - 1].value;
    Text.LexIrreflexive(last.path);
    if n == 1 {
      return 0;
    }
    m := LatestRefusal(s, n - 1);
    var best := s.refusedAt[m].value;
    if Before(best, last) {
      forall i | 0 <= i < n
        ensures !Before(last, s.refusedAt[i].value)
      {
        if i < n - 1 && Before(last, s.refusedAt[i].value) {
          Text.LexTransitive(best.path, last.path, s.refusedAt[i].value.path);
        }
      }
      m := n - 1;
    }
  }

  /** In any finite group of contenders that have all finished, unless one was killed, at least one
      entered: the sorted order leaves no way for all of them to refuse each other. */
  lemma {:induction false} SomeoneEntered(run: seq<System>, i: nat)
    requires IsRun(run) && Sorted(run[0]) && i < |run| && |run[0].programs| > 0
    requires forall c :: 0 <= c < |run[i].phases| ==> run[i].phases[c].Finished?
    ensures exists c :: 0 <= c < |run[i].phases| && Entered(run[i].phases[c])
  {
    RunKeepsInv(run, i);
    var s := run[i];
    if forall c :: 0 <= c < |s.phases| ==> !Entered(s.phases[c]) {
      forall c: nat | c < |s.phases|
        ensures s.refusedAt[c].Some?
      {
        assert Remembers(s, c);
      }
      var m := LatestRefusal(s, |s.refusedAt|);
      assert Explained(s, m);
    }
  }

  lemma {:induction false} Extend(run: seq<System>, c: nat, step: Step) returns (longer: seq<System>)
    requires IsRun(run) && Shape(run[|run| - 1])
    requires c < |run[|run| - 1].programs| && Enabled(run[|run| - 1], c, step)
    ensures IsRun(longer) && longer[0] == run[0]
    ensures Shape(longer[|longer| - 1]) && longer[|longer| - 1] == Apply(run[|run| - 1], c, step)
  {
    StepKeepsShape(run[|run| - 1], c, step);
    longer := run + [Apply(run[|run| - 1], c, step)];
    forall i | 0 <= i < |longer| - 1
      ensures Next(longer[i], longer[i + 1])
    {
      if i < |run| - 1 {
        assert Next(run[i], run[i + 1]);
      }
    }
  }

  /** Without the sorted order the guarantee is lost: two controllers taking two locks in opposite
      orders can both be refused. */
  lemma {:induction false} UnsortedCanRefuseAll(a: Lock, b: Lock) returns (run: seq<System>)
    requires a != b
    ensures IsRun(run) && |run[0].programs| == 2
    ensures run[|run| - 1].phases == [Finished(false), Finished(false)]
  {
    run := [System([[a, b], [b, a]], [Acquiring(0), Acquiring(0)], map[], [None, None])];
    run := Extend(run, 0, Take);
    run := Extend(run, 1, Take);
    run := Extend(run, 0, Refuse);
    run := Extend(run, 1, Refuse);
    run := Extend(run, 0, Release);
    run := Extend(run, 1, Release);
    run := Extend(run, 0, Finish);
    run := Extend(run, 1, Finish);
  }

  // ---------- Every run ends ----------

  /** Steps a controller has left at most. */
  function StepsLeft(program: seq<Lock>, phase: Phase): int {
    match phase
    case Acquiring(n) => 2 * |program| + 3 - n
    case Inside => |program| + 2
    case Releasing(n, _) => n + 1
    case _ => 0
  }

  function TotalLeft(programs: seq<seq<Lock>>, phases: seq<Phase>, n: nat): int
    requires n <= |programs| == |phases|
  {
    if n == 0 then 0 else TotalLeft(programs, phases, n - 1) + StepsLeft(programs[n - 1], phases[n - 1])
  }

  lemma {:induction false} TotalAfterChange(programs: seq<seq<Lock>>, phases: seq<Phase>, c: nat, phase: Phase, n: nat)
    requires c < |programs| == |phases| && n <= |phases|
    ensures TotalLeft(programs, phases[c := phase], n) ==
            TotalLeft(programs, phases, n) +
            if c < n then StepsLeft(programs[c], phase) - StepsLeft(programs[c], phases[c]) else 0
  {
    if n > 0 {
      TotalAfterChange(programs, phases, c, phase, n - 1);
    }
  }

  lemma {:induction false} StepUsesTotal(s: System, t: System)
    requires Inv(s) && Next(s, t)
    ensures Shape(t) && t.programs == s.programs
    ensures TotalLeft(t.programs, t.phases, |t.programs|) < TotalLeft(s.programs, s.phases, |s.programs|)
  {
    var c: nat, step :| c < |s.programs| && Enabled(s, c, step) && t == Apply(s, c, step);
    StepKeepsShape(s, c, step);
    assert t.phases == s.phases[c := t.phases[c]];
    TotalAfterChange(s.programs, s.phases, c, t.phases[c], |s.programs|);
  }

  lemma {:induction false} TotalBounds(programs: seq<seq<Lock>>, phases: seq<Phase>, n: nat)
    requires n <= |programs| == |phases|
    requires forall c :: 0 <= c < |programs| ==> Held(programs[c], phases[c]) <= |programs[c]| <= 2
    ensures 0 <= TotalLeft(programs, phases, n) <= 7 * n
  {
    if n > 0 {
      TotalBounds(programs, phases, n - 1);
    }
  }

  /** With at most two locks each, `N` controllers take at most `7 * N` steps together, in any order. */
  lemma {:induction false} RunsAreShort(run: seq<System>, i: nat)
    requires IsRun(run) && Sorted(run[0]) && i < |run|
    requires forall c :: 0 <= c < |run[0].programs| ==> |run[0].programs[c]| <= 2
    ensures i <= 7 * |run[0].programs|
  {
    RunUsesTotal(run, i);
    RunKeepsInv(run, 0);
    RunKeepsInv(run, i);
    TotalBounds(run[0].programs, run[0].phases, |run[0].programs|);
    TotalBounds(run[i].programs, run[i].phases, |run[i].programs|);
  }

  lemma {:induction false} RunUsesTotal(run: seq<System>, i: nat)
    requires IsRun(run) && Sorted(run[0]) && i < |run|
    ensures Shape(run[0]) && Shape(run[i]) && run[i].programs == run[0].programs
    ensures TotalLeft(run[i].programs, run[i].phases, |run[i].programs|) + i <=
            TotalLeft(run[0].programs, run[0].phases, |run[0].programs|)
  {
    RunKeepsInv(run, i);
    RunKeepsInv(run, 0);
    if i > 0 {
      RunUsesTotal(run, i - 1);
      RunKeepsInv(run, i - 1);
      assert Next(run[i - 1], run[i - 1 + 1]);
      StepUsesTotal(run[i - 1], run[i]);
    }
  }
}
