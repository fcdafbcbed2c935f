/** The dependency graph of the quality gates: the policy order and the selection of a
    targeted rerun (scripts/quality_control/claims.py). */
module GateGraph {
  import opened Wrappers

  datatype Mode = Static | Quick | Integration | Release

  datatype GateId = GateId(name: string)

  datatype Gate = Gate(id: GateId, deps: seq<GateId>, modes: set<Mode>)

  datatype PolicyError = InvalidSteps | UnknownGate | Cycle

  function Ids(gates: seq<Gate>): set<GateId> {
    set g | g in gates :: g.id
  }

  predicate UniqueIds(gates: seq<Gate>) {
    forall i, j :: 0 <= i < j < |gates| ==> gates[i].id != gates[j].id
  }

  /** What policy validation has checked of the steps before it orders them. */
  predicate WellFormedPolicy(steps: seq<Gate>) {
    UniqueIds(steps) && KnownDeps(steps) && ModesNest(steps)
  }

  predicate KnownDeps(steps: seq<Gate>) {
    forall g, d :: g in steps && d in g.deps ==> d in Ids(steps)
  }

  predicate ModesNest(steps: seq<Gate>) {
    forall g, p :: g in steps && p in steps && p.id in g.deps ==> g.modes <= p.modes
  }

  /** Every dependency of a gate is in `done` or occurs before the gate. */
  ghost predicate OrderedAfter(order: seq<Gate>, done: set<GateId>) {
    forall i, d {:trigger d in order[i].deps} :: 0 <= i < |order| && d in order[i].deps ==>
      d in done || d in Ids(order[..i])
  }

  /** Every dependency of a gate occurs before the gate. */
  ghost predicate DependencyOrdered(order: seq<Gate>) {
    forall i, d {:trigger d in order[i].deps} :: 0 <= i < |order| && d in order[i].deps ==> d in Ids(order[..i])
  }

  /** `order` holds exactly the gates of `steps`, each once, dependencies first. */
  ghost predicate IsDependencyOrder(order: seq<Gate>, steps: seq<Gate>) {
    && UniqueIds(order)
    && (forall g :: g in order <==> g in steps)
    && DependencyOrdered(order)
  }

  // ---------- Sequence facts ----------

  lemma IdsOfConcat(a: seq<Gate>, b: seq<Gate>)
    ensures Ids(a + b) == Ids(a) + Ids(b)
  {
  }

  lemma IdIndex(gates: seq<Gate>, id: GateId) returns (k: nat)
    requires id in Ids(gates)
    ensures k < |gates| && gates[k].id == id
  {
    var g :| g in gates && g.id == id;
    k :| 0 <= k < |gates| && gates[k] == g;
  }

  lemma SameIdSameGate(gates: seq<Gate>, g: Gate, h: Gate)
    requires UniqueIds(gates) && g in gates && h in gates && g.id == h.id
    ensures g == h
  {
    var i :| 0 <= i < |gates| && gates[i] == g;
    var j :| 0 <= j < |gates| && gates[j] == h;
  }

  // ---------- Ordering: Kahn's algorithm, one layer of ready gates at a time ----------

  predicate IsReady(g: Gate, done: set<GateId>) {
    g.id !in done && forall d :: d in g.deps ==> d in done
  }

  function Ready(steps: seq<Gate>, done: set<GateId>): (ready: seq<Gate>)
    ensures forall g :: g in ready <==> g in steps && IsReady(g, done)
  {
    if steps == [] then
      []
    else
      var n := |steps| - 1;
      Ready(steps[..n], done) + if IsReady(steps[n], done) then [steps[n]] else []
  }

  lemma ReadyUnique(steps: seq<Gate>, done: set<GateId>)
    requires UniqueIds(steps)
    ensures UniqueIds(Ready(steps, done))
  {
    if steps != [] {
      var n := |steps| - 1;
      ReadyUnique(steps[..n], done);
      assert forall g :: g in Ready(steps[..n], done) ==> g in steps[..n];
      assert forall g :: g in steps[..n] ==> g.id != steps[n].id;
    }
  }

  function Prefixed(front: seq<Gate>, rest: Option<seq<Gate>>): Option<seq<Gate>> {
    match rest
    case None => None
    case Some(gates) => Some(front + gates)
  }

  lemma PrefixedTwice(a: seq<Gate>, b: seq<Gate>, rest: Option<seq<Gate>>)
    ensures Prefixed(a, Prefixed(b, rest)) == Prefixed(a + b, rest)
  {
    if rest.Some? {
      assert a + (b + rest.value) == (a + b) + rest.value;
    }
  }

  /** Successive layers of ready gates; `None` when gates remain and none is ready. */
  function LayersFrom(steps: seq<Gate>, done: set<GateId>): (order: Option<seq<Gate>>)
    decreases |Ids(steps) - done|
  {
    if Ids(steps) <= done then
      Some([])
    else
      var ready := Ready(steps, done);
      if ready == [] then
        None
      else
        ReadyShrinks(steps, done);
        Prefixed(ready, LayersFrom(steps, done + Ids(ready)))
  }

  lemma CardinalityOfSubset<T>(a: set<T>, b: set<T>)
    requires a < b
    ensures |a| < |b|
  {
    assert b == a + (b - a);
  }

  /** A layer makes progress, which is what ends the recursion. */
  lemma ReadyShrinks(steps: seq<Gate>, done: set<GateId>)
    requires Ready(steps, done) != []
    ensures |Ids(steps) - (done + Ids(Ready(steps, done)))| < |Ids(steps) - done|
  {
    var ready := Ready(steps, done);
    assert ready[0] in ready;
    assert ready[0].id in Ids(steps) - done && ready[0].id in Ids(ready);
    CardinalityOfSubset(Ids(steps) - (done + Ids(ready)), Ids(steps) - done);
  }

  lemma {:induction false} LayersMembers(steps: seq<Gate>, done: set<GateId>, g: Gate)
    requires UniqueIds(steps)
    requires LayersFrom(steps, done).Some?
    ensures g in LayersFrom(steps, done).value <==> g in steps && g.id !in done
    decreases |Ids(steps) - done|
  {
    if Ids(steps) <= done {
    } else {
      var ready := Ready(steps, done);
      ReadyShrinks(steps, done);
      LayersMembers(steps, done + Ids(ready), g);
      if g in steps && g.id in Ids(ready) {
        var h :| h in ready && h.id == g.id;
        SameIdSameGate(steps, g, h);
      }
    }
  }

  lemma ConcatUnique(a: seq<Gate>, b: seq<Gate>)
    requires UniqueIds(a) && UniqueIds(b)
    requires forall g, h :: g in a && h in b ==> g.id != h.id
    ensures UniqueIds(a + b)
  {
    forall i, j | 0 <= i < j < |a + b|
      ensures (a + b)[i].id != (a + b)[j].id
    {
      if i < |a| <= j {
        assert a[i] in a && b[j - |a|] in b;
      }
    }
  }

  lemma {:induction false} LayersUnique(steps: seq<Gate>, done: set<GateId>)
    requires UniqueIds(steps)
    requires LayersFrom(steps, done).Some?
    ensures UniqueIds(LayersFrom(steps, done).value)
    decreases |Ids(steps) - done|
  {
    if Ids(steps) <= done {
    } else {
      var ready := Ready(steps, done);
      ReadyShrinks(steps, done);
      LayersUnique(steps, done + Ids(ready));
      ReadyUnique(steps, done);
      var rest := LayersFrom(steps, done + Ids(ready)).value;
      forall g, h | g in ready && h in rest
        ensures g.id != h.id
      {
        LayersMembers(steps, done + Ids(ready), h);
        assert g.id in Ids(ready);
      }
      ConcatUnique(ready, rest);
    }
  }

  lemma ConcatOrdered(a: seq<Gate>, b: seq<Gate>, done: set<GateId>)
    requires OrderedAfter(a, done) && OrderedAfter(b, done + Ids(a))
    ensures OrderedAfter(a + b, done)
  {
    var order := a + b;
    forall i, d | 0 <= i < |order| && d in order[i].deps
      ensures d in done || d in Ids(order[..i])
    {
      if i < |a| {
        assert order[..i] == a[..i];
      } else {
        var k := i - |a|;
        assert order[i] == b[k];
        assert d in done + Ids(a) || d in Ids(b[..k]);
        assert order[..i] == a + b[..k];
        IdsOfConcat(a, b[..k]);
      }
    }
  }

  lemma {:induction false} LayersOrdered(steps: seq<Gate>, done: set<GateId>)
    requires LayersFrom(steps, done).Some?
    ensures OrderedAfter(LayersFrom(steps, done).value, done)
    decreases |Ids(steps) - done|
  {
    if Ids(steps) <= done {
    } else {
      var ready := Ready(steps, done);
      ReadyShrinks(steps, done);
      LayersOrdered(steps, done + Ids(ready));
      forall i, d | 0 <= i < |ready| && d in ready[i].deps
        ensures d in done
      {
        assert ready[i] in ready;
      }
      ConcatOrdered(ready, LayersFrom(steps, done + Ids(ready)).value, done);
    }
  }

  /** A gate of a set in which every gate waits for another of the set is never placed. */
  lemma {:induction false} WaitingNeverPlaced(steps: seq<Gate>, waiting: set<GateId>, order: seq<Gate>, i: nat)
    requires forall g :: g in steps && g.id in waiting ==> exists d :: d in g.deps && d in waiting
    requires (forall g :: g in order ==> g in steps) && DependencyOrdered(order)
    requires i < |order|
    ensures order[i].id !in waiting
  {
    if order[i].id in waiting {
      assert order[i] in steps;
      var d :| d in order[i].deps && d in waiting;
      var p :| p in order[..i] && p.id == d;
      var k :| 0 <= k < i && order[k] == p;
      WaitingNeverPlaced(steps, waiting, order, k);
    }
  }

  lemma StuckHasNoOrder(steps: seq<Gate>, done: set<GateId>, order: seq<Gate>)
    requires KnownDeps(steps)
    requires !(Ids(steps) <= done) && Ready(steps, done) == []
    ensures !IsDependencyOrder(order, steps)
  {
    var waiting := Ids(steps) - done;
    forall g | g in steps && g.id in waiting
      ensures exists d :: d in g.deps && d in waiting
    {
      assert !IsReady(g, done);
    }
    var id :| id in waiting;
    var g :| g in steps && g.id == id;
    if IsDependencyOrder(order, steps) {
      assert g in order;
      var i :| 0 <= i < |order| && order[i] == g;
      WaitingNeverPlaced(steps, waiting, order, i);
    }
  }

  lemma {:induction false} LayersComplete(steps: seq<Gate>, done: set<GateId>, order: seq<Gate>)
    requires KnownDeps(steps)
    requires LayersFrom(steps, done).None?
    ensures !IsDependencyOrder(order, steps)
    decreases |Ids(steps) - done|
  {
    var ready := Ready(steps, done);
    if ready == [] {
      StuckHasNoOrder(steps, done, order);
    } else {
      ReadyShrinks(steps, done);
      LayersComplete(steps, done + Ids(ready), order);
    }
  }

  lemma OrderedAfterNothing(order: seq<Gate>)
    requires OrderedAfter(order, {})
    ensures DependencyOrdered(order)
  {
  }

  lemma LayersSound(steps: seq<Gate>)
    requires UniqueIds(steps) && LayersFrom(steps, {}).Some?
    ensures IsDependencyOrder(LayersFrom(steps, {}).value, steps)
  {
    var order := LayersFrom(steps, {}).value;
    assert UniqueIds(order) by {
      LayersUnique(steps, {});
    }
    assert DependencyOrdered(order) by {
      LayersOrdered(steps, {});
      OrderedAfterNothing(order);
    }
    forall g
      ensures g in order <==> g in steps
    {
      LayersMembers(steps, {}, g);
    }
  }

  /** Policy ordering succeeds exactly when some dependency order exists. */
  lemma OrderExistsExactly(steps: seq<Gate>)
    requires UniqueIds(steps) && KnownDeps(steps)
    ensures LayersFrom(steps, {}).Some? <==> exists order :: IsDependencyOrder(order, steps)
  {
    if LayersFrom(steps, {}).Some? {
      LayersSound(steps);
    }
    forall order | IsDependencyOrder(order, steps)
      ensures LayersFrom(steps, {}).Some?
    {
      if LayersFrom(steps, {}).None? {
        LayersComplete(steps, {}, order);
      }
    }
  }

  function DepSet(g: Gate): set<GateId> {
    set d | d in g.deps
  }

  /** The table of unmet dependencies once the gates in `done` are placed. */
  ghost predicate IsTable(steps: seq<Gate>, done: set<GateId>, remaining: map<GateId, set<GateId>>) {
    && remaining.Keys == Ids(steps) - done
    && forall g :: g in steps && g.id !in done ==> remaining[g.id] == DepSet(g) - done
  }

  lemma InitialTable(steps: seq<Gate>, remaining: map<GateId, set<GateId>>)
    requires UniqueIds(steps)
    requires remaining.Keys == Ids(steps)
    requires forall id :: id in remaining ==> exists g :: g in steps && g.id == id && remaining[id] == DepSet(g)
    ensures IsTable(steps, {}, remaining)
  {
    forall g | g in steps
      ensures remaining[g.id] == DepSet(g) - {}
    {
      var h :| h in steps && h.id == g.id && remaining[g.id] == DepSet(h);
      SameIdSameGate(steps, g, h);
    }
  }

  lemma TableEntry(steps: seq<Gate>, done: set<GateId>, remaining: map<GateId, set<GateId>>, g: Gate)
    requires IsTable(steps, done, remaining) && g in steps
    ensures g.id in remaining && remaining[g.id] == {} <==> IsReady(g, done)
  {
    if g.id in remaining {
      assert remaining[g.id] == DepSet(g) - done;
      assert forall d :: d in g.deps <==> d in DepSet(g);
      if remaining[g.id] == {} {
        forall d | d in g.deps
          ensures d in done
        {
          assert d !in DepSet(g) - done;
        }
      }
    }
  }

  /** The gates, in policy order, whose remaining dependencies are empty. */
  method ReadyGates(steps: seq<Gate>, remaining: map<GateId, set<GateId>>, ghost done: set<GateId>)
    returns (ready: seq<Gate>)
    requires IsTable(steps, done, remaining)
    ensures ready == Ready(steps, done)
  {
    ready := [];
    for i := 0 to |steps|
      invariant ready == Ready(steps[..i], done)
    {
      assert steps[..i + 1][..i] == steps[..i];
      TableEntry(steps, done, remaining, steps[i]);
      if steps[i].id in remaining && remaining[steps[i].id] == {} {
        ready := ready + [steps[i]];
      }
    }
    assert steps[..|steps|] == steps;
  }

  lemma NextTable(steps: seq<Gate>, done: set<GateId>, remaining: map<GateId, set<GateId>>,
                  placed: set<GateId>, next: map<GateId, set<GateId>>)
    requires IsTable(steps, done, remaining) && placed <= remaining.Keys
    requires next == map id | id in remaining && id !in placed :: remaining[id] - placed
    ensures IsTable(steps, done + placed, next)
  {
  }

  /** The gates placed so far, followed by the layers still to come, are the whole answer. */
  ghost predicate Placed(steps: seq<Gate>, ordered: seq<Gate>, done: set<GateId>) {
    LayersFrom(steps, {}) == Prefixed(ordered, LayersFrom(steps, done))
  }

  lemma PlaceLayer(steps: seq<Gate>, ordered: seq<Gate>, done: set<GateId>, ready: seq<Gate>, next: Option<seq<Gate>>)
    requires Placed(steps, ordered, done)
    requires !(Ids(steps) <= done) && ready == Ready(steps, done) && ready != []
    requires next == LayersFrom(steps, done + Ids(ready))
    ensures LayersFrom(steps, {}) == Prefixed(ordered + ready, next)
  {
    assert LayersFrom(steps, done) == Prefixed(ready, next);
    PrefixedTwice(ordered, ready, next);
  }

  /** The ordering loop: a shrinking table of unmet dependencies. */
  method OrderGates(steps: seq<Gate>) returns (r: Result<seq<Gate>, PolicyError>)
    requires WellFormedPolicy(steps)
    ensures r == match LayersFrom(steps, {}) case None => Failure(Cycle) case Some(order) => Success(order)
  {
    var remaining: map<GateId, set<GateId>> := map g | g in steps :: g.id := DepSet(g);
    InitialTable(steps, remaining);
    var ordered: seq<Gate> := [];
    ghost var done: set<GateId> := {};
    assert LayersFrom(steps, {}).Some? ==> [] + LayersFrom(steps, {}).value == LayersFrom(steps, {}).value;
    while remaining.Keys != {}
      invariant IsTable(steps, done, remaining)
      invariant Placed(steps, ordered, done)
      decreases remaining.Keys
    {
      var ready := ReadyGates(steps, remaining, done);
      if ready == [] {
        return Failure(Cycle);
      }
      var placed := Ids(ready);
      assert ready[0] in ready;
      assert ready[0].id in placed && placed <= remaining.Keys;
      var next := map id | id in remaining && id !in placed :: remaining[id] - placed;
      NextTable(steps, done, remaining, placed, next);
      PlaceLayer(steps, ordered, done, ready, LayersFrom(steps, done + placed));
      assert ready[0].id in remaining.Keys && ready[0].id !in next.Keys;
      remaining := next;
      ordered := ordered + ready;
      done := done + placed;
    }
    assert ordered + [] == ordered;
    return Success(ordered);
  }

  /** Every gate has a name and runs in some mode. */
  predicate DeclaresGates(steps: seq<Gate>) {
    steps != [] && forall g :: g in steps ==> g.id.name != "" && g.modes != {}
  }

  method ValidatePolicy(steps: seq<Gate>) returns (r: Result<seq<Gate>, PolicyError>)
    ensures r == Failure(InvalidSteps) <==> !(DeclaresGates(steps) && WellFormedPolicy(steps))
    ensures r.Success? <==>
              DeclaresGates(steps) && WellFormedPolicy(steps) && exists order :: IsDependencyOrder(order, steps)
    ensures r.Success? ==> IsDependencyOrder(r.value, steps)
    ensures r != Failure(UnknownGate)
  {
    if !DeclaresGates(steps) || !WellFormedPolicy(steps) {
      return Failure(InvalidSteps);
    }
    r := OrderGates(steps);
    OrderExistsExactly(steps);
    if r.Success? {
      LayersSound(steps);
    }
  }

  // ---------- Mode selection ----------

  function Filter(gates: seq<Gate>, keep: set<GateId>): (kept: seq<Gate>)
    ensures forall g :: g in kept <==> g in gates && g.id in keep
  {
    if gates == [] then
      []
    else
      var n := |gates| - 1;
      Filter(gates[..n], keep) + if gates[n].id in keep then [gates[n]] else []
  }

  lemma FrontIsOrdered(gates: seq<Gate>, n: nat)
    requires n <= |gates| && UniqueIds(gates) && DependencyOrdered(gates)
    ensures UniqueIds(gates[..n]) && DependencyOrdered(gates[..n])
  {
    var front := gates[..n];
    forall i, d | 0 <= i < |front| && d in front[i].deps
      ensures d in Ids(front[..i])
    {
      assert front[i] == gates[i] && front[..i] == gates[..i];
    }
  }

  lemma AppendOrdered(kept: seq<Gate>, g: Gate)
    requires UniqueIds(kept) && DependencyOrdered(kept)
    requires forall h :: h in kept ==> h.id != g.id
    requires forall d :: d in g.deps ==> d in Ids(kept)
    ensures UniqueIds(kept + [g]) && DependencyOrdered(kept + [g])
  {
    var all := kept + [g];
    forall i, d | 0 <= i < |all| && d in all[i].deps
      ensures d in Ids(all[..i])
    {
      assert all[..i] == kept[..i];
      if i < |kept| {
        assert all[i] == kept[i];
      } else {
        assert kept[..i] == kept;
      }
    }
  }

  lemma KeptLast(front: seq<Gate>, last: Gate, keep: set<GateId>)
    requires UniqueIds(front + [last]) && (forall d :: d in last.deps ==> d in Ids(front) && d in keep)
    requires UniqueIds(Filter(front, keep)) && DependencyOrdered(Filter(front, keep))
    ensures UniqueIds(Filter(front, keep) + [last]) && DependencyOrdered(Filter(front, keep) + [last])
  {
    var kept := Filter(front, keep);
    forall g | g in kept
      ensures g.id != last.id
    {
      var i :| 0 <= i < |front| && front[i] == g;
      assert (front + [last])[i] == g && (front + [last])[|front|] == last;
    }
    forall d | d in last.deps
      ensures d in Ids(kept)
    {
      var p :| p in front && p.id == d;
      assert p in kept;
    }
    AppendOrdered(kept, last);
  }

  /** Keeping a dependency-closed set of gates keeps the order a dependency order. */
  lemma {:induction false} FilterKeepsOrder(gates: seq<Gate>, keep: set<GateId>)
    requires UniqueIds(gates) && DependencyOrdered(gates)
    requires forall g, d :: g in gates && g.id in keep && d in g.deps ==> d in keep
    ensures UniqueIds(Filter(gates, keep)) && DependencyOrdered(Filter(gates, keep))
  {
    if gates != [] {
      var n := |gates| - 1;
      FrontIsOrdered(gates, n);
      FilterKeepsOrder(gates[..n], keep);
      if gates[n].id in keep {
        assert gates[..n] + [gates[n]] == gates;
        KeptLast(gates[..n], gates[n], keep);
      }
    }
  }

  function InMode(gates: seq<Gate>, mode: Mode): set<GateId> {
    set g | g in gates && mode in g.modes :: g.id
  }

  function StepsForMode(order: seq<Gate>, mode: Mode): seq<Gate> {
    Filter(order, InMode(order, mode))
  }

  lemma ModeSelectionIsClosed(steps: seq<Gate>, order: seq<Gate>, mode: Mode)
    requires WellFormedPolicy(steps) && IsDependencyOrder(order, steps)
    ensures UniqueIds(StepsForMode(order, mode)) && DependencyOrdered(StepsForMode(order, mode))
    ensures forall g :: g in StepsForMode(order, mode) <==> g in steps && mode in g.modes
  {
    var keep := InMode(order, mode);
    forall g | g in order && g.id in keep
      ensures mode in g.modes
    {
      var h :| h in order && mode in h.modes && h.id == g.id;
      SameIdSameGate(order, g, h);
    }
    forall g, d | g in order && g.id in keep && d in g.deps
      ensures d in keep
    {
      var p :| p in steps && p.id == d;
      assert g.modes <= p.modes;
      assert p in order;
    }
    FilterKeepsOrder(order, keep);
  }

  // ---------- Targeted rerun: descendants of a root, closed over prerequisites ----------

  function DepsOf(steps: seq<Gate>, id: GateId): (deps: set<GateId>) {
    set g, d | g in steps && g.id == id && d in g.deps :: d
  }

  /** A walk along dependency edges. */
  ghost predicate IsPath(steps: seq<Gate>, path: seq<GateId>) {
    && path != []
    && forall i :: 0 <= i < |path| - 1 ==> path[i + 1] in DepsOf(steps, path[i])
  }

  /** `id` needs `target`: some walk of dependency edges leads from the one to the other. */
  ghost predicate Needs(steps: seq<Gate>, id: GateId, target: GateId) {
    exists path :: IsPath(steps, path) && path[0] == id && path[|path| - 1] == target
  }

  lemma NeedsSelf(steps: seq<Gate>, id: GateId)
    ensures Needs(steps, id, id)
  {
    assert IsPath(steps, [id]);
  }

  lemma NeedsByFirstEdge(steps: seq<Gate>, id: GateId, via: GateId, target: GateId)
    requires via in DepsOf(steps, id) && Needs(steps, via, target)
    ensures Needs(steps, id, target)
  {
    var path :| IsPath(steps, path) && path[0] == via && path[|path| - 1] == target;
    var longer := [id] + path;
    forall i | 0 <= i < |longer| - 1
      ensures longer[i + 1] in DepsOf(steps, longer[i])
    {
      if i > 0 {
        assert longer[i] == path[i - 1] && longer[i + 1] == path[i - 1 + 1];
      }
    }
    assert IsPath(steps, longer);
  }

  lemma NeedsByLastEdge(steps: seq<Gate>, id: GateId, via: GateId, target: GateId)
    requires Needs(steps, id, via) && target in DepsOf(steps, via)
    ensures Needs(steps, id, target)
  {
    var path :| IsPath(steps, path) && path[0] == id && path[|path| - 1] == via;
    assert IsPath(steps, path + [target]);
  }

  /** A set closed against the edges backwards holds everything that needs one of its members. */
  lemma {:induction false} BackwardClosed(steps: seq<Gate>, s: set<GateId>, path: seq<GateId>)
    requires IsPath(steps, path) && path[|path| - 1] in s
    requires forall g, d :: g in steps && d in g.deps && d in s ==> g.id in s
    ensures path[0] in s
    decreases |path|
  {
    if |path| > 1 {
      forall i | 0 <= i < |path[1..]| - 1
        ensures path[1..][i + 1] in DepsOf(steps, path[1..][i])
      {
        assert path[i + 1 + 1] in DepsOf(steps, path[i + 1]);
      }
      BackwardClosed(steps, s, path[1..]);
      assert path[0 + 1] in DepsOf(steps, path[0]);
    }
  }

  /** A set closed along the edges holds everything its members need. */
  lemma {:induction false} ForwardClosed(steps: seq<Gate>, s: set<GateId>, path: seq<GateId>)
    requires IsPath(steps, path) && path[0] in s
    requires forall g, d :: g in steps && g.id in s && d in g.deps ==> d in s
    ensures path[|path| - 1] in s
    decreases |path|
  {
    if |path| > 1 {
      var front := path[..|path| - 1];
      forall i | 0 <= i < |front| - 1
        ensures front[i + 1] in DepsOf(steps, front[i])
      {
        assert path[i + 1] in DepsOf(steps, path[i]);
      }
      ForwardClosed(steps, s, front);
      var n := |path| - 2;
      assert path[n + 1] in DepsOf(steps, path[n]);
    }
  }

  /** The gates of a targeted rerun: everything needed by a gate that needs the root. */
  ghost predicate InRerun(steps: seq<Gate>, root: GateId, id: GateId) {
    exists top :: top in Ids(steps) && Needs(steps, top, root) && Needs(steps, top, id)
  }

  lemma DependencyIsKnown(steps: seq<Gate>, gate: Gate, d: GateId)
    requires DependencyOrdered(steps) && gate in steps && d in gate.deps
    ensures d in Ids(steps)
  {
    var i :| 0 <= i < |steps| && steps[i] == gate;
    assert d in Ids(steps[..i]);
    var p :| p in steps[..i] && p.id == d;
    assert p in steps;
  }

  lemma RerunWithin(steps: seq<Gate>, root: GateId, id: GateId, descendants: set<GateId>, selected: set<GateId>)
    requires InRerun(steps, root, id)
    requires root in descendants && descendants <= selected
    requires BackClosed(steps, descendants, |steps|, descendants)
    requires forall g, d :: g in steps && g.id in selected && d in g.deps ==> d in selected
    ensures id in selected
  {
    forall g, d | g in steps && d in g.deps && d in descendants
      ensures g.id in descendants
    {
      var k :| 0 <= k < |steps| && steps[k] == g;
    }
    var top :| top in Ids(steps) && Needs(steps, top, root) && Needs(steps, top, id);
    var up :| IsPath(steps, up) && up[0] == top && up[|up| - 1] == root;
    BackwardClosed(steps, descendants, up);
    var down :| IsPath(steps, down) && down[0] == top && down[|down| - 1] == id;
    ForwardClosed(steps, selected, down);
  }

  /** Every gate that needs the root: add a gate when one of its dependencies is already in. */
  method Descendants(steps: seq<Gate>, root: GateId) returns (descendants: set<GateId>)
    requires root in Ids(steps)
    ensures root in descendants && descendants <= Ids(steps)
    ensures forall id :: id in descendants ==> Needs(steps, id, root)
    ensures BackClosed(steps, descendants, |steps|, descendants)
  {
    NeedsSelf(steps, root);
    descendants := {root};
    var changed := true;
    while changed
      invariant root in descendants && descendants <= Ids(steps)
      invariant forall id :: id in descendants ==> Needs(steps, id, root)
      invariant !changed ==> BackClosed(steps, descendants, |steps|, descendants)
      decreases Ids(steps) - descendants, changed
    {
      changed := false;
      ghost var start := descendants;
      for i := 0 to |steps|
        invariant start <= descendants <= Ids(steps)
        invariant if changed then start < descendants else start == descendants
        invariant forall id :: id in descendants ==> Needs(steps, id, root)
        invariant !changed ==> BackClosed(steps, descendants, i, descendants)
      {
        var step := steps[i];
        if step.id !in descendants && DepSet(step) * descendants != {} {
          ghost var via :| via in DepSet(step) * descendants;
          assert via in DepsOf(steps, step.id);
          NeedsByFirstEdge(steps, step.id, via, root);
          assert step.id in Ids(steps);
          descendants := descendants + {step.id};
          changed := true;
        } else if !changed {
          forall d | d in step.deps && d in descendants
            ensures step.id in descendants
          {
            assert d in DepSet(step) * descendants;
          }
        }
      }
    }
  }

  /** Among the first `n` gates, one with a dependency in `s` is in `t`. */
  ghost predicate BackClosed(steps: seq<Gate>, s: set<GateId>, n: nat, t: set<GateId>)
    requires n <= |steps|
  {
    forall k, d :: 0 <= k < n && d in steps[k].deps && d in s ==> steps[k].id in t
  }

  lemma FreshDependency(selected0: set<GateId>, pending0: set<GateId>, selected: set<GateId>, pending: set<GateId>,
      d: GateId)
    requires selected - pending == selected0 - pending0 && d !in selected
    ensures (selected + {d}) - (pending + {d}) == selected0 - pending0
  {
  }

  /** Adds prerequisites until none is missing. */
  method PrerequisiteClosure(steps: seq<Gate>, ghost root: GateId, descendants: set<GateId>)
    returns (selected: set<GateId>)
    requires UniqueIds(steps) && DependencyOrdered(steps) && descendants <= Ids(steps)
    requires forall id :: id in descendants ==> Needs(steps, id, root)
    ensures descendants <= selected <= Ids(steps)
    ensures forall id :: id in selected ==> InRerun(steps, root, id)
    ensures forall g, d :: g in steps && g.id in selected && d in g.deps ==> d in selected
  {
    selected := descendants;
    var pending := descendants;
    forall id | id in selected
      ensures InRerun(steps, root, id)
    {
      NeedsSelf(steps, id);
    }
    while pending != {}
      invariant pending <= selected && descendants <= selected <= Ids(steps)
      invariant forall id :: id in selected ==> InRerun(steps, root, id)
      invariant forall g, d :: g in steps && g.id in selected - pending && d in g.deps ==> d in selected
      decreases Ids(steps) - selected, pending
    {
      var current :| current in pending;
      var gate :| gate in steps && gate.id == current;
      ghost var before := selected;
      ghost var left := pending - {current};
      selected, pending := AddDependencies(steps, root, gate, selected, pending - {current});
      assert selected == before ==> pending == left;
      forall g, d | g in steps && g.id in selected - pending && d in g.deps
        ensures d in selected
      {
        if g.id == current {
          SameIdSameGate(steps, g, gate);
        } else {
          assert g.id in before - left;
        }
      }
    }
  }

  method AddDependencies(steps: seq<Gate>, ghost root: GateId, gate: Gate, selected0: set<GateId>,
      pending0: set<GateId>)
    returns (selected: set<GateId>, pending: set<GateId>)
    requires DependencyOrdered(steps) && gate in steps
    requires gate.id in selected0 && pending0 <= selected0 <= Ids(steps)
    requires forall id :: id in selected0 ==> InRerun(steps, root, id)
    ensures selected0 <= selected <= Ids(steps) && pending <= selected
    ensures selected - pending == selected0 - pending0
    ensures selected == selected0 ==> pending == pending0
    ensures forall id :: id in selected ==> InRerun(steps, root, id)
    ensures forall d :: d in gate.deps ==> d in selected
  {
    selected, pending := selected0, pending0;
    for i := 0 to |gate.deps|
      invariant selected0 <= selected <= Ids(steps) && pending <= selected
      invariant selected - pending == selected0 - pending0
      invariant selected == selected0 ==> pending == pending0
      invariant forall id :: id in selected ==> InRerun(steps, root, id)
      invariant forall k :: 0 <= k < i ==> gate.deps[k] in selected
    {
      var dependency := gate.deps[i];
      if dependency !in selected {
        assert dependency in gate.deps;
        DependencyIsKnown(steps, gate, dependency);
        DependencyInRerun(steps, root, gate, dependency);
        FreshDependency(selected0, pending0, selected, pending, dependency);
        selected := selected + {dependency};
        pending := pending + {dependency};
      }
    }
  }

  lemma DependencyInRerun(steps: seq<Gate>, root: GateId, gate: Gate, d: GateId)
    requires gate in steps && d in gate.deps && InRerun(steps, root, gate.id)
    ensures InRerun(steps, root, d)
  {
    var top :| top in Ids(steps) && Needs(steps, top, root) && Needs(steps, top, gate.id);
    assert d in DepsOf(steps, gate.id);
    NeedsByLastEdge(steps, top, gate.id, d);
  }

  /** The gates a targeted rerun executes, in policy order. */
  method DownstreamSteps(steps: seq<Gate>, root: GateId) returns (r: Result<seq<Gate>, PolicyError>)
    requires UniqueIds(steps) && DependencyOrdered(steps)
    ensures r.Failure? <==> root !in Ids(steps)
    ensures r.Failure? ==> r.error == UnknownGate
    ensures r.Success? ==> forall g :: g in r.value <==> g in steps && InRerun(steps, root, g.id)
    ensures r.Success? ==> UniqueIds(r.value) && DependencyOrdered(r.value)
  {
    if root !in Ids(steps) {
      return Failure(UnknownGate);
    }
    var descendants := Descendants(steps, root);
    var selected := PrerequisiteClosure(steps, root, descendants);
    forall id | InRerun(steps, root, id)
      ensures id in selected
    {
      RerunWithin(steps, root, id, descendants, selected);
    }
    FilterKeepsOrder(steps, selected);
    return Success(Filter(steps, selected));
  }
}
