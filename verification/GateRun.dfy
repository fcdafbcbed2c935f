/** The gate loop of one quality run, its checkpoint and its resumption
    (scripts/quality_loop.py, scripts/quality_control/checkpoint.py). */
module GateRun {
  import opened Wrappers
  import opened GateGraph

  datatype Status = Pass | Fail | Blocked | Skipped

  /** How a result came about: by executing the gate, or without executing it. */
  datatype Origin =
    | Executed
    | MissingPrerequisites(missing: seq<GateId>)
    | FailedDependencies(failed: seq<GateId>)

  datatype GateResult = GateResult(id: GateId, status: Status, origin: Origin, log: string)

  /** What executing a gate yields; execution itself never reports a skip. */
  datatype Execution = Execution(status: Status, log: string) {
    ghost predicate Possible() { status != Skipped }
  }

  type Runner = run: Gate -> Execution | forall g :: run(g).Possible() witness (g: Gate) => Execution(Pass, "")

  // ---------- One uninterrupted run, as a function ----------

  /** The first `n` dependencies, without those outside `keep`. */
  function Select(deps: seq<GateId>, n: nat, keep: set<GateId>): seq<GateId>
    requires n <= |deps|
  {
    if n == 0 then [] else Select(deps, n - 1, keep) + if deps[n - 1] in keep then [deps[n - 1]] else []
  }

  lemma {:induction false} SelectMembers(deps: seq<GateId>, n: nat, keep: set<GateId>)
    requires n <= |deps|
    ensures forall d :: d in Select(deps, n, keep) <==> d in deps[..n] && d in keep
    ensures Select(deps, n, keep) == [] <==> forall d :: d in deps[..n] ==> d !in keep
  {
    if n > 0 {
      SelectMembers(deps, n - 1, keep);
      assert deps[..n] == deps[..n - 1] + [deps[n - 1]];
    }
  }

  function NotPassed(byId: map<GateId, GateResult>): set<GateId> {
    set id | id in byId && byId[id].status != Pass
  }

  function Absent(gate: Gate, byId: map<GateId, GateResult>): seq<GateId> {
    Select(gate.deps, |gate.deps|, DepSet(gate) - byId.Keys)
  }

  function FailedDeps(gate: Gate, byId: map<GateId, GateResult>): seq<GateId> {
    Select(gate.deps, |gate.deps|, NotPassed(byId))
  }

  function StepResult(gate: Gate, byId: map<GateId, GateResult>, run: Runner): GateResult {
    var absent := Absent(gate, byId);
    var failed := FailedDeps(gate, byId);
    if absent != [] then
      GateResult(gate.id, Blocked, MissingPrerequisites(absent), "")
    else if failed != [] then
      GateResult(gate.id, Skipped, FailedDependencies(failed), "")
    else
      GateResult(gate.id, run(gate).status, Executed, run(gate).log)
  }

  /** The results by gate id, the last one winning. */
  function ById(results: seq<GateResult>): map<GateId, GateResult> {
    FirstById(results, |results|)
  }

  function FirstById(results: seq<GateResult>, n: nat): map<GateId, GateResult>
    requires n <= |results|
  {
    if n == 0 then map[] else FirstById(results, n - 1)[results[n - 1].id := results[n - 1]]
  }

  lemma {:induction false} FirstByIdKeys(results: seq<GateResult>, n: nat)
    requires n <= |results|
    ensures FirstById(results, n).Keys == set i | 0 <= i < n :: results[i].id
  {
    if n > 0 {
      FirstByIdKeys(results, n - 1);
      assert (set i | 0 <= i < n :: results[i].id) == (set i | 0 <= i < n - 1 :: results[i].id) + {results[n - 1].id};
    }
  }

  lemma {:induction false} HasResult(results: seq<GateResult>, i: nat)
    requires i < |results|
    ensures results[i].id in ById(results)
  {
    FirstByIdKeys(results, |results|);
  }

  lemma {:induction false} ResultIndex(results: seq<GateResult>, id: GateId) returns (i: nat)
    requires id in ById(results)
    ensures i < |results| && results[i].id == id
  {
    FirstByIdKeys(results, |results|);
    assert id in set i | 0 <= i < |results| :: results[i].id;
    i :| 0 <= i < |results| && results[i].id == id;
  }

  /** The results of the first `n` gates of an uninterrupted run. */
  function RunFirst(gates: seq<Gate>, n: nat, run: Runner): (results: seq<GateResult>)
    requires n <= |gates|
    ensures |results| == n
  {
    if n == 0 then
      []
    else
      var prior := RunFirst(gates, n - 1, run);
      prior + [StepResult(gates[n - 1], ById(prior), run)]
  }

  /** The result list of an uninterrupted run. */
  function RunAll(gates: seq<Gate>, run: Runner): seq<GateResult> {
    RunFirst(gates, |gates|, run)
  }

  lemma {:induction false} RunFirstPrefix(gates: seq<Gate>, run: Runner, k: nat, n: nat)
    requires k <= n <= |gates|
    ensures RunFirst(gates, n, run)[..k] == RunFirst(gates, k, run)
    decreases n
  {
    if k < n {
      RunFirstPrefix(gates, run, k, n - 1);
      var prior, last := RunFirst(gates, n - 1, run), StepResult(gates[n - 1], ById(RunFirst(gates, n - 1, run)), run);
      assert RunFirst(gates, n, run) == prior + [last];
      assert (prior + [last])[..k] == prior[..k];
    }
  }

  ghost predicate Distinct(all: seq<GateResult>) {
    forall i, j :: 0 <= i < j < |all| ==> all[i].id != all[j].id
  }

  ghost predicate PlanStep(gates: seq<Gate>, run: Runner, all: seq<GateResult>, i: nat)
    requires i < |gates| == |all|
  {
    all[i] == StepResult(gates[i], ById(all[..i]), run)
  }

  /** `all` has exactly one result per gate, in order, each the step result over the results before
      it: the result list of an uninterrupted run, described position by position. */
  ghost predicate IsRun(gates: seq<Gate>, run: Runner, all: seq<GateResult>) {
    && |all| == |gates|
    && Distinct(all)
    && (forall i :: 0 <= i < |gates| ==> all[i].id == gates[i].id)
    && (forall i :: 0 <= i < |gates| ==> PlanStep(gates, run, all, i))
  }

  lemma {:induction false} RunAllAt(gates: seq<Gate>, run: Runner, i: nat)
    requires i < |gates|
    ensures RunAll(gates, run)[i] == StepResult(gates[i], ById(RunAll(gates, run)[..i]), run)
  {
    RunFirstPrefix(gates, run, i + 1, |gates|);
    RunFirstPrefix(gates, run, i, |gates|);
    assert RunAll(gates, run)[i] == RunAll(gates, run)[..i + 1][i];
  }

  /** Every selected gate gets exactly one result, whatever the gates do, and an executed gate's is what
      executing it yields. */
  lemma {:induction false} RunAllIsRun(gates: seq<Gate>, run: Runner)
    requires UniqueIds(gates)
    ensures IsRun(gates, run, RunAll(gates, run))
    ensures forall i :: 0 <= i < |gates| ==>
              var r := RunAll(gates, run)[i]; r.origin.Executed? ==> Execution(r.status, r.log) == run(gates[i])
  {
    var all := RunAll(gates, run);
    forall i | 0 <= i < |gates|
      ensures PlanStep(gates, run, all, i) && all[i].id == gates[i].id
      ensures all[i].origin.Executed? ==> Execution(all[i].status, all[i].log) == run(gates[i])
    {
      RunAllAt(gates, run, i);
    }
  }

  /** The description has no other solution. */
  lemma {:induction false} RunIsUnique(gates: seq<Gate>, run: Runner, all: seq<GateResult>, n: nat)
    requires IsRun(gates, run, all) && n <= |gates|
    ensures all[..n] == RunFirst(gates, n, run)
  {
    if n > 0 {
      RunIsUnique(gates, run, all, n - 1);
      assert PlanStep(gates, run, all, n - 1);
      assert all[..n] == all[..n - 1] + [all[n - 1]];
    }
  }

  lemma {:induction false} FirstByIdAt(results: seq<GateResult>, n: nat, i: nat)
    requires i < n <= |results| && Distinct(results)
    ensures results[i].id in FirstById(results, n) && FirstById(results, n)[results[i].id] == results[i]
  {
    if i < n - 1 {
      FirstByIdAt(results, n - 1, i);
    }
  }

  lemma {:induction false} ByIdAt(results: seq<GateResult>, i: nat)
    requires i < |results| && Distinct(results)
    ensures results[i].id in ById(results) && ById(results)[results[i].id] == results[i]
  {
    FirstByIdAt(results, |results|, i);
  }

  lemma {:induction false} DistinctPrefix(all: seq<GateResult>, i: nat)
    requires Distinct(all) && i <= |all|
    ensures Distinct(all[..i])
  {
  }

  /** Position `j` holds the passing result of gate `id`. */
  ghost predicate PassedAt(all: seq<GateResult>, id: GateId, j: int) {
    0 <= j < |all| && all[j].id == id && all[j].status == Pass
  }

  /** Gate `id` has a passing result at or before position `i`. */
  ghost predicate PassedBy(all: seq<GateResult>, id: GateId, i: int) {
    exists j :: PassedAt(all, id, j) && j <= i
  }

  lemma {:induction false} ByIdPassed(prior: seq<GateResult>, id: GateId)
    requires Distinct(prior)
    ensures id in ById(prior) && ById(prior)[id].status == Pass <==> exists j :: PassedAt(prior, id, j)
  {
    if id in ById(prior) {
      var j := ResultIndex(prior, id);
      ByIdAt(prior, j);
      if ById(prior)[id].status == Pass {
        assert PassedAt(prior, id, j);
      }
    }
    forall j | PassedAt(prior, id, j)
      ensures id in ById(prior) && ById(prior)[id].status == Pass
    {
      ByIdAt(prior, j);
    }
  }

  /** A gate is executed exactly when every dependency has already passed in this run, then it reports what
      executing it yields, and only an executed gate passes. */
  lemma {:induction false} ExecutedExactly(gates: seq<Gate>, run: Runner, all: seq<GateResult>, i: nat)
    requires IsRun(gates, run, all) && i < |gates|
    ensures all[i].origin.Executed? <==> forall d :: d in gates[i].deps ==> PassedBy(all, d, i - 1)
    ensures all[i].status == Pass ==> all[i].origin.Executed?
    ensures all[i].origin.Executed? ==> all[i].status == run(gates[i]).status && all[i].log == run(gates[i]).log
  {
    var prior := all[..i];
    var gate := gates[i];
    assert PlanStep(gates, run, all, i);
    DistinctPrefix(all, i);
    assert gate.deps[..|gate.deps|] == gate.deps;
    SelectMembers(gate.deps, |gate.deps|, DepSet(gate) - ById(prior).Keys);
    SelectMembers(gate.deps, |gate.deps|, NotPassed(ById(prior)));
    forall d | d in gate.deps
      ensures PassedBy(all, d, i - 1) <==> d !in DepSet(gate) - ById(prior).Keys && d !in NotPassed(ById(prior))
    {
      assert d in DepSet(gate);
      ByIdPassed(prior, d);
      forall j | 0 <= j < i
        ensures PassedAt(all, d, j) <==> PassedAt(prior, d, j)
      {
        assert prior[j] == all[j];
      }
    }
  }

  /** The walk form of `PassHasPassedClosure`. */
  lemma {:induction false} PassClosure(gates: seq<Gate>, run: Runner, all: seq<GateResult>, i: nat, path: seq<GateId>)
    requires UniqueIds(gates) && IsRun(gates, run, all) && i < |gates|
    requires all[i].status == Pass && IsPath(gates, path) && path[0] == gates[i].id
    ensures PassedBy(all, path[|path| - 1], i)
    decreases |path|
  {
    if |path| == 1 {
      assert PassedAt(all, path[0], i);
    } else {
      ExecutedExactly(gates, run, all, i);
      var d := path[1];
      assert path[0 + 1] in DepsOf(gates, path[0]);
      var g :| g in gates && g.id == path[0] && d in g.deps;
      SameIdSameGate(gates, g, gates[i]);
      var k :| PassedAt(all, d, k) && k <= i - 1;
      var rest := path[1..];
      forall m | 0 <= m < |rest| - 1
        ensures rest[m + 1] in DepsOf(gates, rest[m])
      {
        assert path[m + 1 + 1] in DepsOf(gates, path[m + 1]);
      }
      PassClosure(gates, run, all, k, rest);
      assert rest[|rest| - 1] == path[|path| - 1];
    }
  }

  /** A reported PASS has the whole transitive dependency closure PASS, no later in the same run. */
  lemma {:induction false} PassHasPassedClosure(gates: seq<Gate>, run: Runner, all: seq<GateResult>, i: nat,
      target: GateId)
    requires UniqueIds(gates) && IsRun(gates, run, all) && i < |gates|
    requires all[i].status == Pass && Needs(gates, gates[i].id, target)
    ensures PassedBy(all, target, i)
  {
    var path :| IsPath(gates, path) && path[0] == gates[i].id && path[|path| - 1] == target;
    PassClosure(gates, run, all, i, path);
  }

  /** On a dependency-ordered selection the missing-prerequisite branch is never taken. */
  lemma {:induction false} NeverMissingPrerequisites(gates: seq<Gate>, run: Runner, all: seq<GateResult>, i: nat)
    requires DependencyOrdered(gates) && IsRun(gates, run, all) && i < |gates|
    ensures !all[i].origin.MissingPrerequisites?
  {
    var prior := all[..i];
    assert PlanStep(gates, run, all, i);
    forall d | d in gates[i].deps
      ensures d in ById(prior)
    {
      assert d in Ids(gates[..i]);
      var k := IdIndex(gates[..i], d);
      HasResult(prior, k);
    }
    assert gates[i].deps[..|gates[i].deps|] == gates[i].deps;
    SelectMembers(gates[i].deps, |gates[i].deps|, DepSet(gates[i]) - ById(prior).Keys);
  }

  /** An executed gate reports what executing it yields, so a gate passes exactly when its dependencies
      have passed and it yields a pass itself. */
  lemma {:induction false} PassesExactly(gates: seq<Gate>, run: Runner, all: seq<GateResult>, i: nat)
    requires IsRun(gates, run, all) && i < |gates|
    ensures all[i].origin.Executed? ==> all[i].status == run(gates[i]).status && all[i].log == run(gates[i]).log
    ensures all[i].status == Pass <==>
              (forall d :: d in gates[i].deps ==> PassedBy(all, d, i - 1)) && run(gates[i]).status == Pass
  {
    hide Select, FirstById;
    ExecutedExactly(gates, run, all, i);
    assert PlanStep(gates, run, all, i);
  }

  /** On a dependency-ordered selection a gate is skipped exactly when some dependency has not passed, and
      the skip names exactly those dependencies. */
  lemma {:induction false} SkippedExactly(gates: seq<Gate>, run: Runner, all: seq<GateResult>, i: nat)
    requires DependencyOrdered(gates) && IsRun(gates, run, all) && i < |gates|
    ensures all[i].status == Skipped <==> exists d :: d in gates[i].deps && !PassedBy(all, d, i - 1)
    ensures all[i].origin.FailedDependencies? ==>
              forall d :: d in all[i].origin.failed <==> d in gates[i].deps && !PassedBy(all, d, i - 1)
  {
    NeverMissingPrerequisites(gates, run, all, i);
    ExecutedExactly(gates, run, all, i);
    assert PlanStep(gates, run, all, i) && run(gates[i]).Possible();
    if all[i].origin.FailedDependencies? {
      SkipNames(gates, run, all, i);
    }
  }

  lemma {:induction false} SkipNames(gates: seq<Gate>, run: Runner, all: seq<GateResult>, i: nat)
    requires DependencyOrdered(gates) && IsRun(gates, run, all) && i < |gates| && all[i].origin.FailedDependencies?
    ensures forall d :: d in all[i].origin.failed <==> d in gates[i].deps && !PassedBy(all, d, i - 1)
  {
    var prior, gate := all[..i], gates[i];
    assert PlanStep(gates, run, all, i);
    assert gate.deps[..|gate.deps|] == gate.deps;
    SelectMembers(gate.deps, |gate.deps|, NotPassed(ById(prior)));
    DistinctPrefix(all, i);
    forall d | d in gate.deps
      ensures d in NotPassed(ById(prior)) <==> !PassedBy(all, d, i - 1)
    {
      assert d in Ids(gates[..i]);
      var k := IdIndex(gates[..i], d);
      HasResult(prior, k);
      ByIdPassed(prior, d);
      forall j | 0 <= j < i
        ensures PassedAt(all, d, j) <==> PassedAt(prior, d, j)
      {
        assert prior[j] == all[j];
      }
    }
  }

  /** Some result before position `i` is that of gate `id`. */
  ghost predicate ReportedBefore(all: seq<GateResult>, id: GateId, i: nat) {
    exists j :: 0 <= j < i && j < |all| && all[j].id == id
  }

  /** A gate is blocked without being executed exactly when some dependency has no earlier result, and the
      block names exactly those dependencies. */
  lemma {:induction false} MissingExactly(gates: seq<Gate>, run: Runner, all: seq<GateResult>, i: nat)
    requires IsRun(gates, run, all) && i < |gates|
    ensures all[i].origin.MissingPrerequisites? <==> exists d :: d in gates[i].deps && !ReportedBefore(all, d, i)
    ensures all[i].origin.MissingPrerequisites? ==>
              && all[i].status == Blocked
              && forall d :: d in all[i].origin.missing <==> d in gates[i].deps && !ReportedBefore(all, d, i)
  {
    var prior, gate := all[..i], gates[i];
    assert PlanStep(gates, run, all, i);
    assert gate.deps[..|gate.deps|] == gate.deps;
    SelectMembers(gate.deps, |gate.deps|, DepSet(gate) - ById(prior).Keys);
    FirstByIdKeys(prior, i);
    forall d | d in gate.deps
      ensures d in DepSet(gate) - ById(prior).Keys <==> !ReportedBefore(all, d, i)
    {
      if d in ById(prior) {
        var j := ResultIndex(prior, d);
        assert all[j].id == d;
      }
      forall j | 0 <= j < i && all[j].id == d
        ensures d in ById(prior)
      {
        HasResult(prior, j);
      }
    }
  }

  /** The gate and every gate it needs yield a pass. */
  ghost predicate Clean(gates: seq<Gate>, run: Runner, id: GateId) {
    forall g :: g in gates && Needs(gates, id, g.id) ==> run(g).status == Pass
  }

  /** Whatever the order of execution: a gate passes exactly when it and all it needs yield a pass. */
  lemma {:induction false} PassIsClean(gates: seq<Gate>, run: Runner, all: seq<GateResult>, i: nat)
    requires UniqueIds(gates) && DependencyOrdered(gates) && IsRun(gates, run, all) && i < |gates|
    ensures all[i].status == Pass <==> Clean(gates, run, gates[i].id)
    decreases i
  {
    PassesExactly(gates, run, all, i);
    if all[i].status == Pass {
      forall g | g in gates && Needs(gates, gates[i].id, g.id)
        ensures run(g).status == Pass
      {
        PassHasPassedClosure(gates, run, all, i, g.id);
        var k :| PassedAt(all, g.id, k) && k <= i;
        SameIdSameGate(gates, gates[k], g);
        PassesExactly(gates, run, all, k);
      }
    }
    if Clean(gates, run, gates[i].id) {
      NeedsSelf(gates, gates[i].id);
      forall d | d in gates[i].deps
        ensures PassedBy(all, d, i - 1)
      {
        assert d in Ids(gates[..i]);
        var k := IdIndex(gates[..i], d);
        CleanBelow(gates, run, gates[i], d);
        PassIsClean(gates, run, all, k);
        assert PassedAt(all, d, k);
      }
    }
  }

  lemma {:induction false} CleanBelow(gates: seq<Gate>, run: Runner, gate: Gate, d: GateId)
    requires gate in gates && d in gate.deps && Clean(gates, run, gate.id)
    ensures Clean(gates, run, d)
  {
    assert d in DepsOf(gates, gate.id);
    forall g | g in gates && Needs(gates, d, g.id)
      ensures run(g).status == Pass
    {
      NeedsByFirstEdge(gates, gate.id, d, g.id);
    }
  }

  /** Nothing the gate needs, the gate itself apart, keeps it from being executed. */
  ghost predicate Reached(gates: seq<Gate>, run: Runner, gate: Gate) {
    forall d :: d in gate.deps ==> Clean(gates, run, d)
  }

  lemma {:induction false} ReachedExactly(gates: seq<Gate>, run: Runner, all: seq<GateResult>, i: nat)
    requires UniqueIds(gates) && DependencyOrdered(gates) && IsRun(gates, run, all) && i < |gates|
    ensures all[i].origin.Executed? <==> Reached(gates, run, gates[i])
  {
    ExecutedExactly(gates, run, all, i);
    forall d | d in gates[i].deps
      ensures PassedBy(all, d, i - 1) <==> Clean(gates, run, d)
    {
      assert d in Ids(gates[..i]);
      var k := IdIndex(gates[..i], d);
      PassIsClean(gates, run, all, k);
      if all[k].status == Pass {
        assert PassedAt(all, d, k);
      }
      if PassedBy(all, d, i - 1) {
        var j :| PassedAt(all, d, j) && j <= i - 1;
        assert gates[j].id == gates[k].id;
        assert j == k;
      }
    }
  }

  // ---------- The decision over the results ----------

  datatype Decision = Passing | Failing | BlockedByEnvironment

  function Decide(results: seq<GateResult>): Decision {
    if exists r :: r in results && r.status == Fail then
      Failing
    else if exists r :: r in results && r.status == Blocked then
      BlockedByEnvironment
    else if exists r :: r in results && r.status == Skipped then
      Failing
    else
      Passing
  }

  /** A skipped gate has an earlier gate that did not pass. */
  lemma {:induction false} SkipHasCause(gates: seq<Gate>, run: Runner, all: seq<GateResult>, i: nat) returns (j: nat)
    requires IsRun(gates, run, all) && i < |gates| && all[i].status == Skipped
    ensures j < i && all[j].status != Pass
  {
    var prior := all[..i];
    assert PlanStep(gates, run, all, i);
    assert run(gates[i]).Possible();
    var failed := FailedDeps(gates[i], ById(prior));
    SelectMembers(gates[i].deps, |gates[i].deps|, NotPassed(ById(prior)));
    assert failed != [];
    assert failed[0] in failed && failed[0] in NotPassed(ById(prior));
    j := ResultIndex(prior, failed[0]);
    DistinctPrefix(all, i);
    ByIdAt(prior, j);
  }

  /** A skipped gate traces back to a gate that failed or was blocked. */
  lemma {:induction false} SkipHasRoot(gates: seq<Gate>, run: Runner, all: seq<GateResult>, i: nat)
    requires IsRun(gates, run, all) && i < |gates| && all[i].status == Skipped
    ensures exists r :: r in all && (r.status == Fail || r.status == Blocked)
    decreases i
  {
    var j := SkipHasCause(gates, run, all, i);
    if all[j].status == Skipped {
      SkipHasRoot(gates, run, all, j);
    } else {
      assert all[j] in all;
    }
  }

  /** PASS means every gate passed; a real failure is never reported as an environment block,
      and an upstream skip alone never decides. */
  lemma {:induction false} DecisionMeaning(gates: seq<Gate>, run: Runner, all: seq<GateResult>)
    requires IsRun(gates, run, all)
    ensures Decide(all) == Passing <==> forall r :: r in all ==> r.status == Pass
    ensures Decide(all) == Failing <==> exists r :: r in all && r.status == Fail
  {
    forall r | r in all && r.status == Skipped
      ensures exists q :: q in all && (q.status == Fail || q.status == Blocked)
    {
      var i :| 0 <= i < |all| && all[i] == r;
      SkipHasRoot(gates, run, all, i);
    }
  }

  /** The decision, in terms of the gates alone: a run passes exactly when every gate yields a pass, fails
      exactly when some gate whose needs all yield a pass yields a failure, and otherwise is blocked by
      its environment. */
  lemma {:induction false} DecisionExactly(gates: seq<Gate>, run: Runner, all: seq<GateResult>)
    requires UniqueIds(gates) && DependencyOrdered(gates) && IsRun(gates, run, all)
    ensures Decide(all) == Passing <==> forall g :: g in gates ==> run(g).status == Pass
    ensures Decide(all) == Failing <==> exists g :: g in gates && Reached(gates, run, g) && run(g).status == Fail
  {
    hide Reached, Clean, IsRun;
    DecisionMeaning(gates, run, all);
    SameLength(gates, run, all);
    forall i | 0 <= i < |gates|
      ensures all[i].origin.Executed? <==> Reached(gates, run, gates[i])
      ensures all[i].status == Fail <==> Reached(gates, run, gates[i]) && run(gates[i]).status == Fail
      ensures all[i].status == Pass <==> Clean(gates, run, gates[i].id)
    {
      ReachedExactly(gates, run, all, i);
      FailsExecuted(gates, run, all, i);
      PassIsClean(gates, run, all, i);
    }
    if r :| r in all && r.status == Fail {
      var i :| 0 <= i < |all| && all[i] == r;
      assert gates[i] in gates;
    }
    if g :| g in gates && Reached(gates, run, g) && run(g).status == Fail {
      var i :| 0 <= i < |gates| && gates[i] == g;
      assert all[i] in all;
    }
    AllPassExactly(gates, run, all);
  }

  lemma {:induction false} SameLength(gates: seq<Gate>, run: Runner, all: seq<GateResult>)
    requires IsRun(gates, run, all)
    ensures |all| == |gates|
  {
  }

  lemma {:induction false} FailsExecuted(gates: seq<Gate>, run: Runner, all: seq<GateResult>, i: nat)
    requires IsRun(gates, run, all) && i < |gates|
    ensures all[i].status == Fail <==> all[i].origin.Executed? && run(gates[i]).status == Fail
  {
    PassesExactly(gates, run, all, i);
    assert PlanStep(gates, run, all, i);
  }

  lemma {:induction false} AllPassExactly(gates: seq<Gate>, run: Runner, all: seq<GateResult>)
    requires |all| == |gates|
    requires forall i :: 0 <= i < |gates| ==> (all[i].status == Pass <==> Clean(gates, run, gates[i].id))
    ensures (forall r :: r in all ==> r.status == Pass) <==> forall g :: g in gates ==> run(g).status == Pass
  {
    if forall r :: r in all ==> r.status == Pass {
      forall g | g in gates
        ensures run(g).status == Pass
      {
        var i :| 0 <= i < |gates| && gates[i] == g;
        assert all[i] in all;
        NeedsSelf(gates, g.id);
      }
    }
    if forall g :: g in gates ==> run(g).status == Pass {
      forall r | r in all
        ensures r.status == Pass
      {
        var i :| 0 <= i < |all| && all[i] == r;
        assert Clean(gates, run, gates[i].id);
      }
    }
  }

  // ---------- The durable run: checkpoint, step evidence, interruption ----------

  /** The identity a checkpoint must match to be resumed: target, policy, source snapshot,
      mode, gate selection and evidence directory. */
  datatype RunKey = RunKey(target: string, policy: string, workspace: string, mode: Mode,
                           selected: seq<GateId>, evidenceDir: string)

  /** A completed gate with the digests of its result and of its log, both taken as injective. */
  datatype StepRecord = StepRecord(id: GateId, result: GateResult, resultDigest: GateResult, logDigest: string)

  datatype Checkpoint = Checkpoint(key: RunKey, token: nat, current: Option<GateId>, completed: seq<StepRecord>)

  datatype Outcome = Interrupted | Conflict | InvalidCheckpoint | Finished(results: seq<GateResult>)

  function RecordOf(result: GateResult): StepRecord {
    StepRecord(result.id, result, result, result.log)
  }

  /** The strict resume check of one record against the selection and the evidence on disk. */
  predicate RecordAccepted(record: StepRecord, expected: GateId, evidence: map<GateId, string>) {
    && record.id == expected
    && record.result.id == record.id
    && record.resultDigest == record.result
    && record.id in evidence
    && record.logDigest == evidence[record.id]
    && evidence[record.id] == record.result.log
  }

  /** A record is taken exactly when it is the one the run itself would write for this gate's result, and
      the log on disk is that of the result. */
  lemma {:induction false} RecordAcceptedExactly(record: StepRecord, expected: GateId, evidence: map<GateId, string>)
    ensures RecordAccepted(record, expected, evidence) <==>
              record == RecordOf(record.result) && record.id == expected && expected in evidence
              && evidence[expected] == record.result.log
  {
  }

  /** A prefix of the result list `all` is recorded, with its evidence in place. */
  ghost predicate Recorded(all: seq<GateResult>, completed: seq<StepRecord>, evidence: map<GateId, string>) {
    && |completed| <= |all|
    && forall i :: 0 <= i < |completed| ==>
         completed[i] == RecordOf(all[i]) && all[i].id in evidence && evidence[all[i].id] == all[i].log
  }

  function ResultsOf(completed: seq<StepRecord>): (results: seq<GateResult>)
    ensures |results| == |completed|
    ensures forall i :: 0 <= i < |completed| ==> results[i] == completed[i].result
  {
    seq(|completed|, i requires 0 <= i < |completed| => completed[i].result)
  }

  /** Writing a gate's evidence and then its record extends the recorded prefix by that gate. */
  lemma {:induction false} RecordNext(all: seq<GateResult>, completed: seq<StepRecord>, evidence: map<GateId, string>)
    requires Distinct(all) && Recorded(all, completed, evidence) && |completed| < |all|
    ensures var result := all[|completed|];
            Recorded(all, completed, evidence[result.id := result.log]) &&
            Recorded(all, completed + [RecordOf(result)], evidence[result.id := result.log])
  {
    var n := |completed|;
    assert forall i :: 0 <= i < n ==> all[i].id != all[n].id;
  }

  /** How often a gate occurs in the execution log. */
  function Times(executions: seq<GateId>, id: GateId): nat {
    multiset(executions)[id]
  }

  lemma {:induction false} TimesAppend(executions: seq<GateId>, last: GateId, id: GateId)
    ensures Times(executions + [last], id) == Times(executions, id) + if id == last then 1 else 0
  {
  }

  /** Between the two logs, the gates at positions `from..to` that execute ran once, the others not at all. */
  ghost predicate RanOnce(all: seq<GateResult>, before: seq<GateId>, after: seq<GateId>, from: nat, to: nat) {
    forall k :: 0 <= k < |all| ==>
      Times(after, all[k].id) == Times(before, all[k].id) + if from <= k < to && all[k].origin.Executed? then 1 else 0
  }

  lemma {:induction false} RanNext(all: seq<GateResult>, before: seq<GateId>, after: seq<GateId>, next: seq<GateId>,
                                   from: nat, to: nat)
    requires Distinct(all) && from <= to < |all| && RanOnce(all, before, after, from, to)
    requires next == if all[to].origin.Executed? then after + [all[to].id] else after
    ensures RanOnce(all, before, next, from, to + 1)
  {
    forall k | 0 <= k < |all|
      ensures Times(next, all[k].id) ==
              Times(before, all[k].id) + if from <= k < to + 1 && all[k].origin.Executed? then 1 else 0
    {
      TimesAppend(after, all[to].id, all[k].id);
      if k < to {
        assert all[k].id != all[to].id;
      } else if to < k {
        assert all[to].id != all[k].id;
      }
    }
  }

  /** Between the two logs, none of the first `n` gates was executed. */
  ghost predicate NoneBelow(all: seq<GateResult>, before: seq<GateId>, after: seq<GateId>, n: nat) {
    forall k :: 0 <= k < n && k < |all| ==> Times(after, all[k].id) == Times(before, all[k].id)
  }

  lemma {:induction false} OneMoreEach(all: seq<GateResult>, first: seq<GateId>, before: seq<GateId>,
      after: seq<GateId>, from: nat, to: nat, orTo: nat, i: nat)
    requires forall k :: 0 <= k < |all| ==> Times(before, all[k].id) <= Times(first, all[k].id) + i
    requires RanOnce(all, before, after, from, to) || RanOnce(all, before, after, from, orTo)
    ensures forall k :: 0 <= k < |all| ==> Times(after, all[k].id) <= Times(first, all[k].id) + i + 1
    ensures NoneBelow(all, before, after, from)
  {
    hide Times;
  }

  /** One controller run over one state directory and one evidence directory. */
  class QualityRun {
    const key: RunKey
    const gates: seq<Gate>
    const run: Runner

    // The result list of an uninterrupted run of these gates.
    ghost const all: seq<GateResult>

    // What survives an interruption.
    var checkpoint: Option<Checkpoint>
    var evidence: map<GateId, string>
    var evidenceHasContent: bool
    var nextToken: nat

    // The gates executed so far, over all attempts.
    var executions: seq<GateId>

    constructor (key: RunKey, gates: seq<Gate>, run: Runner)
      requires UniqueIds(gates)
      ensures this.key == key && this.gates == gates && this.run == run && all == RunAll(gates, run)
      ensures Valid() && Frontier() == 0 && executions == [] && !Refused()
    {
      this.key, this.gates, this.run, all := key, gates, run, RunAll(gates, run);
      checkpoint, evidence, evidenceHasContent, nextToken, executions := None, map[], false, 0, [];
      new;
      RunAllIsRun(gates, run);
    }

    /** The checkpoint belongs to exactly this run. */
    predicate Resumable()
      reads this
    {
      checkpoint.Some? && checkpoint.value.key == key
    }

    /** A used evidence directory without a checkpoint of this run. */
    predicate Refused()
      reads this
    {
      evidenceHasContent && !Resumable()
    }

    ghost predicate Valid()
      reads this
    {
      && IsRun(gates, run, all)
      && (Resumable() ==> Recorded(all, checkpoint.value.completed, evidence))
    }

    /** How many gates are durably recorded. */
    ghost function Frontier(): nat
      reads this
    {
      if Resumable() then |checkpoint.value.completed| else 0
    }

    /** Re-validates the recorded prefix against the selection and the evidence on disk. */
    method ValidateCompleted() returns (results: Option<seq<GateResult>>)
      requires Resumable()
      ensures results.Some? <==> (|checkpoint.value.completed| <= |gates| &&
                                  forall i :: 0 <= i < |checkpoint.value.completed| ==>
                                    RecordAccepted(checkpoint.value.completed[i], gates[i].id, evidence))
      ensures results.Some? ==> results.value == ResultsOf(checkpoint.value.completed)
    {
      var records := checkpoint.value.completed;
      if |records| > |gates| {
        return None;
      }
      var accepted: seq<GateResult> := [];
      for i := 0 to |records|
        invariant accepted == ResultsOf(records)[..i]
        invariant forall k :: 0 <= k < i ==> RecordAccepted(records[k], gates[k].id, evidence)
      {
        if !RecordAccepted(records[i], gates[i].id, evidence) {
          return None;
        }
        accepted := accepted + [records[i].result];
      }
      assert ResultsOf(records)[..|records|] == ResultsOf(records);
      return Some(accepted);
    }

    /** Loads the checkpoint of this run or creates one; an untampered checkpoint is never rejected. */
    method Open(budget: nat) returns (recovered: Option<seq<GateResult>>, left: nat, problem: Outcome)
      requires Valid() && !Refused()
      modifies this`checkpoint, this`nextToken, this`evidenceHasContent
      ensures Valid() && Frontier() == old(Frontier()) && !Refused()
      ensures recovered.None? <==> budget < if old(Resumable()) then 1 else 2
      ensures recovered.None? ==> problem == Interrupted && evidenceHasContent == old(evidenceHasContent)
      ensures recovered.None? ==> (Resumable() <==> old(Resumable()) || budget == 1)
      ensures recovered.Some? ==> Resumable() && evidenceHasContent
      ensures recovered.Some? ==> budget == left + if old(Resumable()) then 1 else 2
      ensures recovered.Some? ==> Frontier() <= |gates| && recovered.value == all[..Frontier()]
    {
      recovered, left, problem := None, budget, Interrupted;
      var results: seq<GateResult> := [];
      if !Resumable() {
        if left == 0 { return; }
        checkpoint := Some(Checkpoint(key, nextToken, None, []));
        nextToken := nextToken + 1;
        left := left - 1;
      } else {
        var resumed := ValidateCompleted();
        if resumed.None? {
          problem := InvalidCheckpoint;
          return;
        }
        results := resumed.value;
      }
      if left == 0 { return; }
      evidenceHasContent := true;
      left := left - 1;
      assert results == all[..|results|];
      recovered := Some(results);
    }

    /** Runs gate `n`: mark it current, execute it, write its evidence, record it. The process may
        die before each of these steps; `budget` counts the steps it still lives. */
    method RunGate(n: nat, results: seq<GateResult>, budget: nat) returns (died: bool, result: GateResult)
      requires Valid() && Resumable() && Frontier() == n < |gates|
      requires results == all[..n]
      modifies this`checkpoint, this`evidence, this`executions
      ensures Valid() && Resumable() && checkpoint.value.token == old(checkpoint.value.token)
      ensures died <==> budget < 4
      ensures Frontier() == if died then n else n + 1
      ensures !died ==> result == all[n]
      ensures var ran := if all[n].origin.Executed? then old(executions) + [gates[n].id] else old(executions);
              executions == if budget < 2 then old(executions) else ran
    {
      var gate := gates[n];
      died, result := true, GateResult(gate.id, Blocked, Executed, "");
      assert PlanStep(gates, run, all, n);
      if budget == 0 { return; }
      checkpoint := Some(checkpoint.value.(current := Some(gate.id)));
      if budget == 1 { return; }
      result := StepResult(gate, ById(results), run);
      assert result == all[n];
      if result.origin.Executed? {
        executions := executions + [gate.id];
      }
      if budget == 2 { return; }
      RecordNext(all, checkpoint.value.completed, evidence);
      evidence := evidence[result.id := result.log];
      if budget == 3 { return; }
      checkpoint := Some(checkpoint.value.(current := None,
                                           completed := checkpoint.value.completed + [RecordOf(result)]));
      died := false;
    }

    /** The gate loop over the gates not yet recorded. */
    method RunRemaining(budget: nat) returns (left: nat, died: bool, results: seq<GateResult>)
      requires Valid() && Resumable() && Frontier() <= |gates|
      modifies this`checkpoint, this`evidence, this`executions
      ensures Valid() && Resumable() && checkpoint.value.token == old(checkpoint.value.token)
      ensures old(Frontier()) <= Frontier() <= |gates|
      ensures !died ==> Frontier() == |gates| && results == all
      ensures !died ==> RanOnce(all, old(executions), executions, old(Frontier()), |gates|)
      ensures died ==> Frontier() < |gates| && left < 4
      ensures died ==>
                RanOnce(all, old(executions), executions, old(Frontier()), Frontier()) ||
                RanOnce(all, old(executions), executions, old(Frontier()), Frontier() + 1)
      ensures |executions| <= old(|executions|) + Frontier() - old(Frontier()) + if died then 1 else 0
      ensures left + 4 * (Frontier() - old(Frontier())) == budget
    {
      ghost var start := Frontier();
      left, died, results := budget, false, ResultsOf(checkpoint.value.completed);
      var n := |results|;
      while n < |gates|
        invariant start <= n <= |gates| && n == Frontier() && left >= 0
        invariant Valid() && Resumable() && checkpoint.value.token == old(checkpoint.value.token)
        invariant results == all[..n]
        invariant RanOnce(all, old(executions), executions, start, n)
        invariant |executions| <= old(|executions|) + n - start
        invariant left + 4 * (n - start) == budget
      {
        ghost var previous := executions;
        var result;
        died, result := RunGate(n, results, left);
        RanNext(all, old(executions), previous,
                if all[n].origin.Executed? then previous + [gates[n].id] else previous, start, n);
        if died {
          return;
        }
        left := left - 4;
        results := results + [result];
        n := n + 1;
      }
      assert all[..n] == all;
    }

    /** One process: load or create the checkpoint, run what is left, close the run. */
    method Attempt(budget: nat) returns (outcome: Outcome)
      requires Valid()
      modifies this
      ensures Valid()
      ensures old(Refused()) <==> outcome == Conflict
      ensures outcome == Conflict ==> unchanged(this)
      ensures outcome != InvalidCheckpoint
      // Interrupted before or not, the result list is that of one uninterrupted run, every gate
      // recorded before was not executed again, and every other gate that executes ran once.
      ensures outcome.Finished? ==> outcome.results == all && checkpoint == None && Refused()
      ensures outcome.Finished? ==> RanOnce(all, old(executions), executions, old(Frontier()), |gates|)
      // An interruption loses nothing that was recorded, and leaves a run that can be resumed. Only
      // the gate at the new frontier may have been executed without being recorded.
      ensures outcome == Interrupted ==> old(Frontier()) <= Frontier() <= |gates| && !Refused()
      ensures outcome == Interrupted ==>
                RanOnce(all, old(executions), executions, old(Frontier()), Frontier()) ||
                (Frontier() < |gates| && RanOnce(all, old(executions), executions, old(Frontier()), Frontier() + 1))
      ensures outcome.Finished? ==> |executions| <= old(|executions|) + |gates| - old(Frontier())
      ensures outcome == Interrupted ==> |executions| <= old(|executions|) + Frontier() - old(Frontier()) + 1
      // Enough time to finish is enough.
      ensures !old(Refused()) && budget >= 4 * |gates| + 4 ==> outcome.Finished?
    {
      if evidenceHasContent && !Resumable() {
        return Conflict;
      }
      var recovered, left, problem := Open(budget);
      if recovered.None? {
        return problem;
      }
      var token := checkpoint.value.token;
      var died, results;
      left, died, results := RunRemaining(left);
      if died || left < 2 {
        return Interrupted;
      }
      if checkpoint.None? || checkpoint.value.token != token {
        return Conflict;
      }
      checkpoint := None;
      return Finished(results);
    }

    /** Any number of interruptions, at any points, followed by one process that lives long enough. The
        `i`-th process starts with `frontiers[i]` gates recorded and the execution log `logs[i]`. */
    method RunInterrupted(budgets: seq<nat>, last: nat)
      returns (results: seq<GateResult>, ghost frontiers: seq<nat>, ghost logs: seq<seq<GateId>>)
      requires Valid() && !Refused() && last >= 4 * |gates| + 4
      modifies this
      ensures results == all
      ensures 1 <= |frontiers| <= |budgets| + 1 && frontiers[0] == old(Frontier())
      ensures |logs| == |frontiers| + 1 && logs[0] == old(executions) && logs[|frontiers|] == executions
      // What is recorded stays recorded, and no process executes a gate recorded before it started.
      ensures forall i, j :: 0 <= i <= j < |frontiers| ==> frontiers[i] <= frontiers[j] <= |gates|
      ensures forall i :: 0 <= i < |frontiers| ==> NoneBelow(all, logs[i], logs[i + 1], frontiers[i])
      // Each process executes a gate at most once, and each interruption costs at most one execution.
      ensures forall k :: 0 <= k < |all| ==>
                Times(executions, all[k].id) <= old(Times(executions, all[k].id)) + |frontiers|
      ensures |executions| <= old(|executions|) + |gates| - old(Frontier()) + |frontiers| - 1
    {
      hide Times, RanOnce, NoneBelow;
      frontiers, logs := [], [executions];
      for i := 0 to |budgets|
        invariant Valid() && !Refused() && old(Frontier()) <= Frontier() <= |gates|
        invariant |frontiers| == i && |logs| == i + 1 && logs[0] == old(executions) && logs[i] == executions
        invariant i > 0 ==> frontiers[0] == old(Frontier())
        invariant i == 0 ==> Frontier() == old(Frontier())
        invariant forall a, b :: 0 <= a <= b < i ==> frontiers[a] <= frontiers[b] <= Frontier()
        invariant forall a :: 0 <= a < i ==> NoneBelow(all, logs[a], logs[a + 1], frontiers[a])
        invariant forall k :: 0 <= k < |all| ==> Times(executions, all[k].id) <= old(Times(executions, all[k].id)) + i
        invariant |executions| <= old(|executions|) + Frontier() - old(Frontier()) + i
      {
        frontiers := frontiers + [Frontier()];
        var outcome := Attempt(budgets[i]);
        OneMoreEach(all, old(executions), logs[i], executions, frontiers[i],
                    if outcome.Finished? then |gates| else Frontier(), Frontier() + 1, i);
        logs := logs + [executions];
        if outcome.Finished? {
          return outcome.results, frontiers, logs;
        }
      }
      frontiers := frontiers + [Frontier()];
      var outcome := Attempt(last);
      OneMoreEach(all, old(executions), logs[|budgets|], executions, frontiers[|budgets|], |gates|, |gates|, |budgets|);
      logs := logs + [executions];
      return outcome.results, frontiers, logs;
    }
  }
}
