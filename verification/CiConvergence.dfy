/** One CI status from the workflow-run records of a pull request (scripts/ci_convergence.py). */
module CiConvergence {
  import opened Wrappers

  datatype Workflow = Quality | SkillSelfValidation

  /** A workflow-run record; an id or attempt that is no positive integer is absent. */
  datatype Row = Row(
    name: string, path: string, event: string, headSha: string, pullRequests: set<nat>,
    id: Option<nat>, attempt: Option<nat>, status: string, conclusion: string)

  /** The exact head, pull request and trigger event the evidence is reduced for. */
  datatype Query = Query(headSha: string, pullRequest: nat, triggerId: nat, triggerAttempt: nat, trigger: Workflow)

  datatype Malformed = RunId(workflow: Workflow) | RunAttempt(workflow: Workflow)

  datatype Check =
    | StaleEvent(current: nat)
    | TriggerNotVisible
    | NotStarted
    | ManyRuns(ids: set<nat>)
    | ManyRecords(id: nat)
    | NotTerminal(id: nat, attempt: nat, runStatus: string)
    | Passed(id: nat, attempt: nat)
    | Failed(id: nat, attempt: nat, conclusion: string)

  datatype Status = STALE_EVENT | BLOCKED | FAIL | PENDING | PASS

  function StatusOf(check: Check): Status {
    match check
    case StaleEvent(_) => STALE_EVENT
    case ManyRuns(_) | ManyRecords(_) => BLOCKED
    case Failed(_, _, _) => FAIL
    case TriggerNotVisible | NotStarted | NotTerminal(_, _, _) => PENDING
    case Passed(_, _) => PASS
  }

  function WorkflowName(w: Workflow): string {
    match w
    case Quality => "quality"
    case SkillSelfValidation => "skill-self-validation"
  }

  function WorkflowPath(w: Workflow): string {
    match w
    case Quality => ".github/workflows/quality.yml"
    case SkillSelfValidation => ".github/workflows/skill-self-validation.yml"
  }

  predicate Matches(row: Row, w: Workflow, q: Query) {
    && row.name == WorkflowName(w) && row.path == WorkflowPath(w) && row.event == "pull_request"
    && row.headSha == q.headSha && q.pullRequest in row.pullRequests
  }

  // ---------- Filtering ----------

  function Keep(rows: seq<Row>, p: Row -> bool): seq<Row> {
    if rows == [] then
      []
    else
      var n := |rows| - 1;
      if p(rows[n]) then Keep(rows[..n], p) + [rows[n]] else Keep(rows[..n], p)
  }

  lemma {:induction false} KeepCounts(rows: seq<Row>, p: Row -> bool, row: Row)
    ensures multiset(Keep(rows, p))[row] == if p(row) then multiset(rows)[row] else 0
  {
    if rows != [] {
      var n := |rows| - 1;
      KeepCounts(rows[..n], p, row);
      assert rows == rows[..n] + [rows[n]];
    }
  }

  lemma {:induction false} KeepMembers(rows: seq<Row>, p: Row -> bool)
    ensures forall r :: r in Keep(rows, p) <==> r in rows && p(r)
  {
    forall r
      ensures r in Keep(rows, p) <==> r in rows && p(r)
    {
      KeepCounts(rows, p, r);
      assert r in Keep(rows, p) <==> r in multiset(Keep(rows, p));
      assert r in rows <==> r in multiset(rows);
    }
  }

  lemma {:induction false} KeepPermuted(a: seq<Row>, b: seq<Row>, p: Row -> bool)
    requires multiset(a) == multiset(b)
    ensures multiset(Keep(a, p)) == multiset(Keep(b, p))
  {
    forall row
      ensures multiset(Keep(a, p))[row] == multiset(Keep(b, p))[row]
    {
      KeepCounts(a, p, row);
      KeepCounts(b, p, row);
    }
  }

  lemma {:induction false} KeepAppend(rows: seq<Row>, row: Row, p: Row -> bool)
    ensures Keep(rows + [row], p) == if p(row) then Keep(rows, p) + [row] else Keep(rows, p)
  {
    assert (rows + [row])[..|rows|] == rows;
  }

  lemma {:induction false} KeepTwice(rows: seq<Row>, p: Row -> bool, q: Row -> bool)
    ensures Keep(Keep(rows, p), q) == Keep(rows, (r: Row) => p(r) && q(r))
  {
    if rows != [] {
      var n := |rows| - 1;
      KeepTwice(rows[..n], p, q);
      if p(rows[n]) {
        KeepAppend(Keep(rows[..n], p), rows[n], q);
      }
    }
  }

  lemma {:induction false} KeepAll(rows: seq<Row>, p: Row -> bool)
    requires forall r :: r in rows ==> p(r)
    ensures Keep(rows, p) == rows
  {
    if rows != [] {
      var n := |rows| - 1;
      KeepAll(rows[..n], p);
      assert rows == rows[..n] + [rows[n]];
    }
  }

  lemma {:induction false} PermutedFacts(a: seq<Row>, b: seq<Row>)
    requires multiset(a) == multiset(b)
    ensures |a| == |b| && forall r :: r in a <==> r in b
    ensures |a| == 1 ==> a == b
  {
    assert |multiset(a)| == |a| && |multiset(b)| == |b|;
    forall r
      ensures r in a <==> r in b
    {
      assert r in a <==> r in multiset(a);
      assert r in b <==> r in multiset(b);
    }
    if |a| == 1 {
      assert a[0] in b;
      assert a == [a[0]] && b == [b[0]];
    }
  }

  // ---------- The reduction of one workflow ----------

  function Ids(rows: seq<Row>): set<nat> {
    set r | r in rows && r.id.Some? :: r.id.value
  }

  /** The largest attempt, 0 if there is none. */
  function MaxAttempt(rows: seq<Row>): nat {
    if rows == [] then
      0
    else
      var n := |rows| - 1;
      var rest := MaxAttempt(rows[..n]);
      if rows[n].attempt.Some? && rows[n].attempt.value > rest then rows[n].attempt.value else rest
  }

  function Matching(w: Workflow, q: Query): Row -> bool {
    (r: Row) => Matches(r, w, q)
  }

  function OfRun(id: nat): Row -> bool {
    (r: Row) => r.id == Some(id)
  }

  function OfOtherRuns(id: nat): Row -> bool {
    (r: Row) => r.id != Some(id)
  }

  function OfAttempt(attempt: nat): Row -> bool {
    (r: Row) => r.attempt == Some(attempt)
  }

  predicate NoId(rows: seq<Row>) {
    exists r :: r in rows && r.id.None?
  }

  predicate NoAttempt(rows: seq<Row>) {
    exists r :: r in rows && r.attempt.None?
  }

  /** The verdict on the rows that remain. */
  function Settle(w: Workflow, rows: seq<Row>): Result<Check, Malformed>
    requires !NoId(rows)
  {
    if rows == [] then Success(NotStarted)
    else if |Ids(rows)| != 1 then Success(ManyRuns(Ids(rows)))
    else
      assert rows[0] in rows;
      if |rows| != 1 then Success(ManyRecords(rows[0].id.value))
      else if rows[0].attempt.None? then Failure(RunAttempt(w))
      else if rows[0].status != "completed" then
        Success(NotTerminal(rows[0].id.value, rows[0].attempt.value, rows[0].status))
      else if rows[0].conclusion == "success" then Success(Passed(rows[0].id.value, rows[0].attempt.value))
      else Success(Failed(rows[0].id.value, rows[0].attempt.value, rows[0].conclusion))
  }

  function Remaining(matches: seq<Row>, exact: seq<Row>, q: Query): seq<Row> {
    Keep(matches, OfOtherRuns(q.triggerId)) + exact
  }

  function CheckTrigger(w: Workflow, matches: seq<Row>, q: Query): Result<Check, Malformed>
    requires !NoId(matches)
  {
    var known := Keep(matches, OfRun(q.triggerId));
    if NoAttempt(known) then Failure(RunAttempt(w))
    else if MaxAttempt(known) > q.triggerAttempt then Success(StaleEvent(MaxAttempt(known)))
    else
      var exact := Keep(known, OfAttempt(q.triggerAttempt));
      if |exact| != 1 then Success(TriggerNotVisible)
      else
        RemainingHasIds(matches, known, exact, q);
        Settle(w, Remaining(matches, exact, q))
  }

  lemma {:induction false} RemainingHasIds(matches: seq<Row>, known: seq<Row>, exact: seq<Row>, q: Query)
    requires !NoId(matches) && known == Keep(matches, OfRun(q.triggerId))
             && exact == Keep(known, OfAttempt(q.triggerAttempt))
    ensures !NoId(Remaining(matches, exact, q))
  {
    KeepMembers(matches, OfRun(q.triggerId));
    KeepMembers(known, OfAttempt(q.triggerAttempt));
    KeepMembers(matches, OfOtherRuns(q.triggerId));
  }

  function CheckFor(w: Workflow, rows: seq<Row>, q: Query): Result<Check, Malformed> {
    var matches := Keep(rows, Matching(w, q));
    if NoId(matches) then Failure(RunId(w))
    else if w == q.trigger then CheckTrigger(w, matches, q)
    else Settle(w, matches)
  }

  datatype Reduction = Reduction(quality: Check, skill: Check, status: Status)

  function Overall(a: Status, b: Status): Status {
    if STALE_EVENT in {a, b} then STALE_EVENT
    else if BLOCKED in {a, b} then BLOCKED
    else if FAIL in {a, b} then FAIL
    else if PENDING in {a, b} then PENDING
    else PASS
  }

  function Reduce(rows: seq<Row>, q: Query): Result<Reduction, Malformed> {
    var quality :- CheckFor(Quality, rows, q);
    var skill :- CheckFor(SkillSelfValidation, rows, q);
    Success(Reduction(quality, skill, Overall(StatusOf(quality), StatusOf(skill))))
  }

  // ---------- The reducer as it runs ----------

  /** The grouping the reducer builds: each id with its rows, in order. */
  ghost predicate Groups(byId: map<nat, seq<Row>>, rows: seq<Row>) {
    && byId.Keys == Ids(rows)
    && forall id :: id in byId ==> byId[id] == Keep(rows, OfRun(id))
  }

  lemma {:induction false} NoGroups()
    ensures Groups(map[], [])
  {
  }

  lemma {:induction false} GroupsNext(byId: map<nat, seq<Row>>, rows: seq<Row>, row: Row)
    requires Groups(byId, rows) && row.id.Some?
    ensures Groups(byId[row.id.value := (if row.id.value in byId then byId[row.id.value] else []) + [row]],
                   rows + [row])
  {
    var id := row.id.value;
    var next := byId[id := (if id in byId then byId[id] else []) + [row]];
    assert next.Keys == Ids(rows + [row]) by {
      assert forall r :: r in rows + [row] <==> r in rows || r == row;
    }
    forall k | k in next
      ensures next[k] == Keep(rows + [row], OfRun(k))
    {
      KeepAppend(rows, row, OfRun(k));
      if k == id && id !in byId {
        NoRows(rows, id);
      }
    }
  }

  lemma {:induction false} NoRows(rows: seq<Row>, id: nat)
    requires id !in Ids(rows)
    ensures Keep(rows, OfRun(id)) == []
  {
    if rows != [] {
      var n := |rows| - 1;
      assert rows[n] in rows && forall r :: r in rows[..n] ==> r in rows;
      NoRows(rows[..n], id);
    }
  }

  method GroupById(w: Workflow, rows: seq<Row>) returns (r: Result<map<nat, seq<Row>>, Malformed>)
    ensures r.Success? <==> !NoId(rows)
    ensures r.Success? ==> Groups(r.value, rows)
    ensures r.Failure? ==> r.error == RunId(w)
  {
    hide Groups, Keep;
    var byId: map<nat, seq<Row>> := map[];
    NoGroups();
    for i := 0 to |rows|
      invariant Groups(byId, rows[..i]) && !NoId(rows[..i])
    {
      var row := rows[i];
      if row.id.None? {
        assert row in rows;
        return Failure(RunId(w));
      }
      var id := row.id.value;
      GroupsNext(byId, rows[..i], row);
      assert rows[..i + 1] == rows[..i] + [row];
      byId := byId[id := (if id in byId then byId[id] else []) + [row]];
    }
    assert rows[..|rows|] == rows;
    return Success(byId);
  }

  /** Exactly one id means that its group is all there is. */
  lemma {:induction false} OneGroup(byId: map<nat, seq<Row>>, rows: seq<Row>)
    requires Groups(byId, rows) && !NoId(rows) && rows != []
    ensures |byId| == |Ids(rows)| && byId != map[]
    ensures |byId| == 1 ==> rows[0].id.value in byId && byId == map[rows[0].id.value := rows]
  {
    assert |byId.Keys| == |byId|;
    assert rows[0] in rows;
    var id := rows[0].id.value;
    assert id in Ids(rows);
    if |byId| == 1 {
      OnlyMember(byId.Keys, id);
      forall r | r in rows
        ensures OfRun(id)(r)
      {
        assert r.id.value in Ids(rows);
      }
      KeepAll(rows, OfRun(id));
    }
  }

  lemma {:induction false} OnlyMember(s: set<nat>, x: nat)
    requires |s| == 1 && x in s
    ensures s == {x}
  {
    assert |s - {x}| == 0;
    assert s == {x} + (s - {x});
  }

  method SettleRuns(w: Workflow, rows: seq<Row>, byId: map<nat, seq<Row>>) returns (r: Result<Check, Malformed>)
    requires Groups(byId, rows) && !NoId(rows)
    ensures r == Settle(w, rows)
  {
    if byId == map[] {
      if rows != [] {
        OneGroup(byId, rows);
      }
      return Success(NotStarted);
    }
    NonEmpty(byId, rows);
    OneGroup(byId, rows);
    if |byId| != 1 {
      return Success(ManyRuns(byId.Keys));
    }
    var id :| id in byId.Keys;
    var attempts := byId[id];
    if |attempts| != 1 {
      return Success(ManyRecords(id));
    }
    var row := attempts[0];
    if row.attempt.None? {
      return Failure(RunAttempt(w));
    }
    if row.status != "completed" {
      return Success(NotTerminal(id, row.attempt.value, row.status));
    }
    if row.conclusion == "success" {
      return Success(Passed(id, row.attempt.value));
    }
    return Success(Failed(id, row.attempt.value, row.conclusion));
  }

  lemma {:induction false} NonEmpty(byId: map<nat, seq<Row>>, rows: seq<Row>)
    requires Groups(byId, rows) && byId != map[]
    ensures rows != []
  {
    assert rows == [] ==> Ids(rows) == {};
  }

  /** The attempts of the trigger run that are known, and the row of the exact attempt. */
  method KnownAttempts(w: Workflow, known: seq<Row>, q: Query)
    returns (bad: bool, largest: nat, exact: seq<Row>)
    ensures bad == NoAttempt(known)
    ensures !bad ==> largest == MaxAttempt(known) && exact == Keep(known, OfAttempt(q.triggerAttempt))
  {
    largest, exact := 0, [];
    for i := 0 to |known|
      invariant !NoAttempt(known[..i]) && largest == MaxAttempt(known[..i])
      invariant exact == Keep(known[..i], OfAttempt(q.triggerAttempt))
    {
      if known[i].attempt.None? {
        assert known[i] in known;
        return true, largest, exact;
      }
      KeepAppend(known[..i], known[i], OfAttempt(q.triggerAttempt));
      assert known[..i + 1] == known[..i] + [known[i]];
      assert known[..i + 1][..i] == known[..i];
      if known[i].attempt.value > largest {
        largest := known[i].attempt.value;
      }
      if known[i].attempt.value == q.triggerAttempt {
        exact := exact + [known[i]];
      }
    }
    assert known[..|known|] == known;
    return false, largest, exact;
  }

  method CheckForRuns(w: Workflow, rows: seq<Row>, q: Query) returns (r: Result<Check, Malformed>)
    ensures r == CheckFor(w, rows, q)
  {
    hide Settle, Groups, Ids;
    var matches := Keep(rows, Matching(w, q));
    var grouped := GroupById(w, matches);
    if grouped.Failure? {
      return Failure(grouped.error);
    }
    if w != q.trigger {
      r := SettleRuns(w, matches, grouped.value);
      return;
    }
    var known := Lookup(matches, grouped.value, q.triggerId);
    var bad, largest, exact := KnownAttempts(w, known, q);
    if bad {
      return Failure(RunAttempt(w));
    }
    if largest > q.triggerAttempt {
      return Success(StaleEvent(largest));
    }
    if |exact| != 1 {
      return Success(TriggerNotVisible);
    }
    RemainingHasIds(matches, known, exact, q);
    var remaining := Keep(matches, OfOtherRuns(q.triggerId)) + exact;
    var regrouped := GroupById(w, remaining);
    r := SettleRuns(w, remaining, regrouped.value);
  }

  method Lookup(matches: seq<Row>, byId: map<nat, seq<Row>>, id: nat) returns (known: seq<Row>)
    requires Groups(byId, matches)
    ensures known == Keep(matches, OfRun(id))
  {
    if id in byId {
      return byId[id];
    }
    NoRows(matches, id);
    return [];
  }

  method ReduceCiConvergence(rows: seq<Row>, q: Query) returns (r: Result<Reduction, Malformed>)
    ensures r == Reduce(rows, q)
    ensures WellFormed(Quality, rows, q) && WellFormed(SkillSelfValidation, rows, q) ==>
              && r.Success?
              && r.value.status == MoreUrgent(StatusSpec(Quality, rows, q), StatusSpec(SkillSelfValidation, rows, q))
  {
    hide CheckFor, WellFormed, StatusSpec;
    if WellFormed(Quality, rows, q) && WellFormed(SkillSelfValidation, rows, q) {
      OverallExactly(rows, q);
    }
    var quality := CheckForRuns(Quality, rows, q);
    if quality.Failure? {
      return Failure(quality.error);
    }
    var skill := CheckForRuns(SkillSelfValidation, rows, q);
    if skill.Failure? {
      return Failure(skill.error);
    }
    var statuses := {StatusOf(quality.value), StatusOf(skill.value)};
    var status := PASS;
    if STALE_EVENT in statuses {
      status := STALE_EVENT;
    } else if BLOCKED in statuses {
      status := BLOCKED;
    } else if FAIL in statuses {
      status := FAIL;
    } else if PENDING in statuses {
      status := PENDING;
    }
    return Success(Reduction(quality.value, skill.value, status));
  }

  // ---------- PASS, declaratively ----------

  /** An older attempt of the trigger run. */
  predicate Superseded(r: Row, w: Workflow, q: Query) {
    w == q.trigger && r.id == Some(q.triggerId) && r.attempt.Some? && r.attempt.value < q.triggerAttempt
  }

  function LiveRow(w: Workflow, q: Query): Row -> bool {
    r => !Superseded(r, w, q)
  }

  function CurrentRow(w: Workflow, q: Query): Row -> bool {
    (r: Row) => Matches(r, w, q) && !Superseded(r, w, q)
  }

  /** The matching rows without older attempts of the trigger run. */
  function Current(w: Workflow, rows: seq<Row>, q: Query): seq<Row> {
    Keep(rows, CurrentRow(w, q))
  }

  predicate Successful(r: Row) {
    r.id.Some? && r.attempt.Some? && r.status == "completed" && r.conclusion == "success"
  }

  /** One record is left, it completed with success, and for the trigger's workflow it is the
      trigger attempt itself. */
  predicate PassSpec(w: Workflow, rows: seq<Row>, q: Query) {
    var current := Current(w, rows, q);
    && |current| == 1 && Successful(current[0])
    && (w == q.trigger ==> current[0].id == Some(q.triggerId) && current[0].attempt == Some(q.triggerAttempt))
  }

  lemma {:induction false} SettlePasses(w: Workflow, rows: seq<Row>)
    requires !NoId(rows)
    ensures Settle(w, rows).Success? && StatusOf(Settle(w, rows).value) == PASS <==> |rows| == 1 && Successful(rows[0])
  {
    if |rows| == 1 {
      assert rows[0] in rows;
      assert rows == [rows[0]];
      assert Ids(rows) == {rows[0].id.value};
    }
  }

  lemma {:induction false} MaxAttemptBounds(rows: seq<Row>)
    ensures forall r :: r in rows && r.attempt.Some? ==> r.attempt.value <= MaxAttempt(rows)
    ensures MaxAttempt(rows) > 0 ==> exists r :: r in rows && r.attempt == Some(MaxAttempt(rows))
  {
    if rows != [] {
      var n := |rows| - 1;
      MaxAttemptBounds(rows[..n]);
      assert rows == rows[..n] + [rows[n]];
      assert forall r :: r in rows <==> r in rows[..n] || r == rows[n];
    }
  }

  /** The current rows of the trigger's workflow, split by run. */
  lemma {:induction false} CurrentOfTrigger(w: Workflow, rows: seq<Row>, q: Query)
    requires w == q.trigger
    ensures var matches := Keep(rows, Matching(w, q));
            Current(w, rows, q) == Keep(matches, LiveRow(w, q))
  {
    hide Matches, Superseded;
    var matches := Keep(rows, Matching(w, q));
    var live := LiveRow(w, q);
    KeepTwice(rows, Matching(w, q), live);
    SameKeep(rows, (r: Row) => Matching(w, q)(r) && live(r), CurrentRow(w, q));
  }

  lemma {:induction false} SameKeep(rows: seq<Row>, p: Row -> bool, q: Row -> bool)
    requires forall r :: r in rows ==> p(r) == q(r)
    ensures Keep(rows, p) == Keep(rows, q)
  {
    if rows != [] {
      var n := |rows| - 1;
      assert forall r :: r in rows[..n] ==> r in rows;
      SameKeep(rows[..n], p, q);
    }
  }

  lemma {:induction false} PassExactly(w: Workflow, rows: seq<Row>, q: Query)
    ensures CheckFor(w, rows, q).Success? && StatusOf(CheckFor(w, rows, q).value) == PASS <==> PassSpec(w, rows, q)
  {
    hide Matches;
    var matches := Keep(rows, Matching(w, q));
    var current := Current(w, rows, q);
    KeepMembers(rows, Matching(w, q));
    if w != q.trigger {
      SameKeep(rows, Matching(w, q), CurrentRow(w, q));
      assert |current| == 1 ==> current[0] in current && forall r :: r in current ==> r == current[0];
      if !NoId(matches) {
        SettlePasses(w, matches);
      }
    } else {
      TriggerPassExactly(w, matches, q);
      CurrentOfTrigger(w, rows, q);
    }
  }

  /** The attempts of the trigger run are well-formed and none is newer. */
  predicate Settled(known: seq<Row>, q: Query) {
    !NoAttempt(known) && MaxAttempt(known) <= q.triggerAttempt
  }

  lemma {:induction false} TriggerPassExactly(w: Workflow, matches: seq<Row>, q: Query)
    requires w == q.trigger
    ensures var current := Keep(matches, LiveRow(w, q));
            !NoId(matches) && CheckTrigger(w, matches, q).Success?
              && StatusOf(CheckTrigger(w, matches, q).value) == PASS <==>
              && |current| == 1 && Successful(current[0])
              && current[0].id == Some(q.triggerId) && current[0].attempt == Some(q.triggerAttempt)
  {
    hide Settle, MaxAttempt, NoAttempt, NoId, Successful;
    var current := Keep(matches, LiveRow(w, q));
    var known := Keep(matches, OfRun(q.triggerId));
    if !NoId(matches) && Settled(known, q) {
      SettledTrigger(w, matches, q);
    } else if |current| == 1 {
      KeepMembers(matches, LiveRow(w, q));
      SpoiledCurrent(matches, current, known, q, w);
    }
  }

  lemma {:induction false} SettledTrigger(w: Workflow, matches: seq<Row>, q: Query)
    requires w == q.trigger && !NoId(matches) && Settled(Keep(matches, OfRun(q.triggerId)), q)
    ensures var current := Keep(matches, LiveRow(w, q));
            CheckTrigger(w, matches, q).Success? && StatusOf(CheckTrigger(w, matches, q).value) == PASS <==>
              && |current| == 1 && Successful(current[0])
              && current[0].id == Some(q.triggerId) && current[0].attempt == Some(q.triggerAttempt)
  {
    hide Settle, MaxAttempt, NoAttempt, NoId, Successful, Superseded;
    var current := Keep(matches, LiveRow(w, q));
    var known := Keep(matches, OfRun(q.triggerId));
    var exact := Keep(known, OfAttempt(q.triggerAttempt));
    var others := Keep(matches, OfOtherRuns(q.triggerId));
    var remaining := Remaining(matches, exact, q);
    CurrentCounts(matches, q, w);
    RemainingHasIds(matches, known, exact, q);
    PermutedFacts(current, remaining);
    KeepMembers(matches, OfRun(q.triggerId));
    KeepMembers(matches, OfOtherRuns(q.triggerId));
    KeepMembers(known, OfAttempt(q.triggerAttempt));
    assert |exact| == 1 ==> exact[0] in exact;
    if |others| > 0 {
      assert remaining[0] == others[0] && others[0] in others;
    }
    if |exact| == 1 {
      SettlePasses(w, remaining);
    }
  }

  lemma {:induction false} CountAt(matches: seq<Row>, row: Row, q: Query, w: Workflow)
    requires w == q.trigger
    requires row in Keep(matches, OfRun(q.triggerId)) ==> row.attempt.Some? && row.attempt.value <= q.triggerAttempt
    ensures var known := Keep(matches, OfRun(q.triggerId));
            multiset(Keep(matches, LiveRow(w, q)))[row] ==
            multiset(Keep(matches, OfOtherRuns(q.triggerId)))[row]
              + multiset(Keep(known, OfAttempt(q.triggerAttempt)))[row]
  {
    hide Keep;
    var known := Keep(matches, OfRun(q.triggerId));
    KeepMembers(matches, OfRun(q.triggerId));
    KeepCounts(matches, LiveRow(w, q), row);
    KeepCounts(matches, OfRun(q.triggerId), row);
    KeepCounts(known, OfAttempt(q.triggerAttempt), row);
    KeepCounts(matches, OfOtherRuns(q.triggerId), row);
    assert row in matches <==> multiset(matches)[row] > 0;
  }

  /** Without newer or malformed attempts, the current rows are the other runs' and the exact ones. */
  lemma {:induction false} CurrentCounts(matches: seq<Row>, q: Query, w: Workflow)
    requires w == q.trigger && Settled(Keep(matches, OfRun(q.triggerId)), q)
    ensures var exact := Keep(Keep(matches, OfRun(q.triggerId)), OfAttempt(q.triggerAttempt));
            multiset(Keep(matches, LiveRow(w, q))) == multiset(Remaining(matches, exact, q))
  {
    hide Superseded, Keep, MaxAttempt;
    var known := Keep(matches, OfRun(q.triggerId));
    var exact := Keep(known, OfAttempt(q.triggerAttempt));
    MaxAttemptBounds(known);
    forall row
      ensures multiset(Keep(matches, LiveRow(w, q)))[row] == multiset(Remaining(matches, exact, q))[row]
    {
      CountAt(matches, row, q, w);
    }
  }

  lemma {:induction false} SpoiledCurrent(matches: seq<Row>, current: seq<Row>, known: seq<Row>, q: Query, w: Workflow)
    requires w == q.trigger && known == Keep(matches, OfRun(q.triggerId)) && |current| == 1
    requires forall r :: r in current <==> r in matches && !Superseded(r, w, q)
    requires NoId(matches) || !Settled(known, q)
    ensures current[0].id != Some(q.triggerId) || current[0].attempt != Some(q.triggerAttempt)
  {
    KeepMembers(matches, OfRun(q.triggerId));
    MaxAttemptBounds(known);
    assert forall r :: r in current ==> r == current[0];
    if NoId(matches) {
      var r :| r in matches && r.id.None?;
      assert r in current;
    } else if NoAttempt(known) {
      var r :| r in known && r.attempt.None?;
      assert r in current;
    } else {
      var r :| r in known && r.attempt == Some(MaxAttempt(known));
      assert r in current;
    }
  }

  /** The overall verdict is PASS exactly when both required workflows meet the specification. */
  lemma {:induction false} ReducePassExactly(rows: seq<Row>, q: Query)
    ensures Reduce(rows, q).Success? && Reduce(rows, q).value.status == PASS <==>
              PassSpec(Quality, rows, q) && PassSpec(SkillSelfValidation, rows, q)
  {
    hide CheckFor, PassSpec;
    PassExactly(Quality, rows, q);
    PassExactly(SkillSelfValidation, rows, q);
  }

  /** A run of this workflow for exactly this head of this pull request. */
  predicate RunFor(r: Row, w: Workflow, q: Query) {
    && r.event == "pull_request" && r.headSha == q.headSha && q.pullRequest in r.pullRequests
    && match w
       case Quality => r.name == "quality" && r.path == ".github/workflows/quality.yml"
       case SkillSelfValidation =>
         r.name == "skill-self-validation" && r.path == ".github/workflows/skill-self-validation.yml"
  }

  predicate IsTrigger(r: Row, w: Workflow, q: Query) {
    w == q.trigger ==> r.id == Some(q.triggerId) && r.attempt == Some(q.triggerAttempt)
  }

  /** A workflow passes only on a successful run for exactly this head of this pull request, which for the
      trigger's workflow is the trigger itself; and one such run is enough. */
  lemma {:induction false} PassRestsOnRun(w: Workflow, rows: seq<Row>, q: Query)
    ensures CheckFor(w, rows, q).Success? && StatusOf(CheckFor(w, rows, q).value) == PASS ==>
              exists r :: r in rows && RunFor(r, w, q) && Successful(r) && IsTrigger(r, w, q)
    ensures |rows| == 1 && RunFor(rows[0], w, q) && Successful(rows[0]) && IsTrigger(rows[0], w, q) ==>
              CheckFor(w, rows, q).Success? && StatusOf(CheckFor(w, rows, q).value) == PASS
  {
    hide CheckFor, Current, RunFor, StatusOf, Successful;
    PassExactly(w, rows, q);
    if PassSpec(w, rows, q) {
      var r := Current(w, rows, q)[0];
      CurrentIsFor(w, rows, q, r);
    }
    if |rows| == 1 && RunFor(rows[0], w, q) && Successful(rows[0]) && IsTrigger(rows[0], w, q) {
      OneCurrent(w, rows[0], q);
      assert rows == [rows[0]];
    }
  }

  lemma {:induction false} RunForExactly(r: Row, w: Workflow, q: Query)
    ensures Matches(r, w, q) <==> RunFor(r, w, q)
  {
    match w
    case Quality =>
    case SkillSelfValidation =>
  }

  lemma {:induction false} CurrentIsFor(w: Workflow, rows: seq<Row>, q: Query, r: Row)
    requires r in Current(w, rows, q)
    ensures r in rows && RunFor(r, w, q)
  {
    hide Matches, RunFor;
    KeepMembers(rows, CurrentRow(w, q));
    RunForExactly(r, w, q);
  }

  lemma {:induction false} OneCurrent(w: Workflow, r: Row, q: Query)
    requires RunFor(r, w, q) && IsTrigger(r, w, q)
    ensures Current(w, [r], q) == [r]
  {
    hide Matches, RunFor;
    RunForExactly(r, w, q);
    KeepAppend([], r, CurrentRow(w, q));
    assert [] + [r] == [r];
  }

  // ---------- Every status, declaratively ----------

  /** Every record of the workflow has an id and an attempt. */
  predicate WellFormed(w: Workflow, rows: seq<Row>, q: Query) {
    forall r :: r in rows && Matches(r, w, q) ==> r.id.Some? && r.attempt.Some?
  }

  /** A newer attempt of the trigger run is known. */
  predicate Stale(w: Workflow, rows: seq<Row>, q: Query) {
    && w == q.trigger
    && exists r :: r in rows && Matches(r, w, q) && r.id == Some(q.triggerId) && r.attempt.Some?
                   && r.attempt.value > q.triggerAttempt
  }

  function OfTriggerAttempt(q: Query): Row -> bool {
    (r: Row) => r.id == Some(q.triggerId) && r.attempt == Some(q.triggerAttempt)
  }

  /** For the trigger's workflow: exactly one of the current records is the trigger attempt. */
  predicate Visible(w: Workflow, rows: seq<Row>, q: Query) {
    w == q.trigger ==> |Keep(Current(w, rows, q), OfTriggerAttempt(q))| == 1
  }

  function StatusSpec(w: Workflow, rows: seq<Row>, q: Query): Status {
    var current := Current(w, rows, q);
    if Stale(w, rows, q) then STALE_EVENT
    else if !Visible(w, rows, q) || current == [] then PENDING
    else if |current| > 1 then BLOCKED
    else if current[0].status != "completed" then PENDING
    else if current[0].conclusion == "success" then PASS
    else FAIL
  }

  lemma {:induction false} SettleStatus(w: Workflow, rows: seq<Row>)
    requires forall r :: r in rows ==> r.id.Some? && r.attempt.Some?
    ensures Settle(w, rows).Success?
    ensures StatusOf(Settle(w, rows).value) ==
            if rows == [] then PENDING else if |rows| > 1 then BLOCKED else if rows[0].status != "completed" then
              PENDING
            else if rows[0].conclusion == "success" then PASS else FAIL
  {
    if rows != [] {
      assert rows[0] in rows && rows[0].id.value in Ids(rows);
      if |rows| == 1 {
        assert rows == [rows[0]];
        assert Ids(rows) == {rows[0].id.value};
      }
    }
  }

  lemma {:induction false} PermutedStatus(a: seq<Row>, b: seq<Row>)
    requires multiset(a) == multiset(b)
    ensures |a| == |b| && (|a| == 1 ==> a[0] == b[0])
  {
    PermutedFacts(a, b);
  }

  /** The status of a workflow is a matter of its current records: stale exactly with a newer trigger
      attempt, blocked exactly with more than one record, failed exactly when the one record completed
      without success, and pending otherwise, as when the trigger attempt itself is not there once. */
  lemma {:induction false} StatusExactly(w: Workflow, rows: seq<Row>, q: Query)
    requires WellFormed(w, rows, q)
    ensures CheckFor(w, rows, q).Success? && StatusOf(CheckFor(w, rows, q).value) == StatusSpec(w, rows, q)
  {
    hide Matches, Settle, Keep, StatusOf;
    var matches := Keep(rows, Matching(w, q));
    KeepMembers(rows, Matching(w, q));
    if w != q.trigger {
      SameKeep(rows, Matching(w, q), CurrentRow(w, q));
      SettleStatus(w, matches);
    } else {
      TriggerStatus(w, rows, matches, q);
    }
  }

  lemma {:induction false} TriggerStatus(w: Workflow, rows: seq<Row>, matches: seq<Row>, q: Query)
    requires w == q.trigger && WellFormed(w, rows, q) && matches == Keep(rows, Matching(w, q)) && !NoId(matches)
    requires forall r :: r in matches <==> r in rows && Matches(r, w, q)
    ensures CheckTrigger(w, matches, q).Success?
    ensures StatusOf(CheckTrigger(w, matches, q).value) == StatusSpec(w, rows, q)
  {
    hide Matches, Settle, Keep, MaxAttempt;
    var known := Keep(matches, OfRun(q.triggerId));
    KeepMembers(matches, OfRun(q.triggerId));
    StaleExactly(w, rows, matches, known, q);
    if MaxAttempt(known) <= q.triggerAttempt {
      var exact, current := Keep(known, OfAttempt(q.triggerAttempt)), Current(w, rows, q);
      CurrentOfTrigger(w, rows, q);
      VisibleExactly(matches, current, exact, w, q);
      CurrentCounts(matches, q, w);
      if |exact| == 1 {
        RemainingHasIds(matches, known, exact, q);
        KeepMembers(known, OfAttempt(q.triggerAttempt));
        KeepMembers(matches, OfOtherRuns(q.triggerId));
        SettleStatus(w, Remaining(matches, exact, q));
        PermutedStatus(current, Remaining(matches, exact, q));
      }
    }
  }

  lemma {:induction false} StaleExactly(w: Workflow, rows: seq<Row>, matches: seq<Row>, known: seq<Row>, q: Query)
    requires w == q.trigger && WellFormed(w, rows, q)
    requires forall r :: r in matches <==> r in rows && Matches(r, w, q)
    requires forall r :: r in known <==> r in matches && r.id == Some(q.triggerId)
    ensures !NoAttempt(known) && (MaxAttempt(known) > q.triggerAttempt <==> Stale(w, rows, q))
  {
    hide Matches, MaxAttempt;
    MaxAttemptBounds(known);
  }

  lemma {:induction false} VisibleExactly(matches: seq<Row>, current: seq<Row>, exact: seq<Row>, w: Workflow, q: Query)
    requires w == q.trigger && current == Keep(matches, LiveRow(w, q))
    requires exact == Keep(Keep(matches, OfRun(q.triggerId)), OfAttempt(q.triggerAttempt))
    ensures Keep(current, OfTriggerAttempt(q)) == exact
  {
    hide Keep;
    var live, run, attempt, both := LiveRow(w, q), OfRun(q.triggerId), OfAttempt(q.triggerAttempt), OfTriggerAttempt(q);
    KeepTwice(matches, live, both);
    KeepTwice(matches, run, attempt);
    SameKeep(matches, (r: Row) => live(r) && both(r), both);
    SameKeep(matches, (r: Row) => run(r) && attempt(r), both);
  }

  function Urgency(s: Status): nat {
    match s
    case PASS => 0
    case PENDING => 1
    case FAIL => 2
    case BLOCKED => 3
    case STALE_EVENT => 4
  }

  function MoreUrgent(a: Status, b: Status): Status {
    if Urgency(a) < Urgency(b) then b else a
  }

  /** Of two workflows the more urgent status is reported: stale before blocked, blocked before failed,
      failed before pending, and a pass only if both pass. */
  lemma {:induction false} OverallExactly(rows: seq<Row>, q: Query)
    requires WellFormed(Quality, rows, q) && WellFormed(SkillSelfValidation, rows, q)
    ensures Reduce(rows, q).Success?
    ensures var status, a, b :=
              Reduce(rows, q).value.status, StatusSpec(Quality, rows, q), StatusSpec(SkillSelfValidation, rows, q);
            && (status == STALE_EVENT <==> a == STALE_EVENT || b == STALE_EVENT)
            && (status == BLOCKED <==> a != STALE_EVENT && b != STALE_EVENT && (a == BLOCKED || b == BLOCKED))
            && (status == FAIL <==>
                a in {FAIL, PENDING, PASS} && b in {FAIL, PENDING, PASS} && (a == FAIL || b == FAIL))
            && (status == PENDING <==> a in {PENDING, PASS} && b in {PENDING, PASS} && (a == PENDING || b == PENDING))
            && (status == PASS <==> a == PASS && b == PASS)
  {
    hide CheckFor, StatusSpec, StatusOf, WellFormed;
    StatusExactly(Quality, rows, q);
    StatusExactly(SkillSelfValidation, rows, q);
  }

  /** What a check reports is what the records say: the largest attempt of the trigger run, the ids of the
      runs, or the fields of the one record that is left. */
  lemma {:induction false} CheckReports(w: Workflow, rows: seq<Row>)
    requires !NoId(rows) && Settle(w, rows).Success?
    ensures var check := Settle(w, rows).value;
            && (check == NotStarted <==> rows == [])
            && (check.ManyRuns? ==> |check.ids| > 1 && forall id :: id in check.ids <==>
                exists r :: r in rows && r.id == Some(id))
            && (check.ManyRecords? ==> |rows| > 1 && forall r :: r in rows ==> r.id == Some(check.id))
            && (check.NotTerminal? || check.Passed? || check.Failed? ==>
                  |rows| == 1 && rows[0].id == Some(check.id) && rows[0].attempt == Some(check.attempt))
            && (check.NotTerminal? ==> rows[0].status == check.runStatus)
            && (check.Failed? ==> rows[0].conclusion == check.conclusion)
            && !check.StaleEvent? && !check.TriggerNotVisible?
  {
    if rows != [] {
      assert rows[0] in rows && rows[0].id.value in Ids(rows);
      if |Ids(rows)| == 1 {
        OnlyMember(Ids(rows), rows[0].id.value);
        forall r | r in rows
          ensures r.id == rows[0].id
        {
          assert r.id.value in Ids(rows);
        }
      }
    }
  }

  /** Without an id a record of the workflow is an error, and without an attempt one of the trigger run is,
      or, in the other workflow, the only one there is. */
  lemma {:induction false} MalformedExactly(w: Workflow, rows: seq<Row>, q: Query)
    ensures var matches := Keep(rows, Matching(w, q));
            && (CheckFor(w, rows, q) == Failure(RunId(w)) <==> exists r :: r in rows && Matches(r, w, q) && r.id.None?)
            && (CheckFor(w, rows, q) == Failure(RunAttempt(w)) <==>
                  && (forall r :: r in rows && Matches(r, w, q) ==> r.id.Some?)
                  && if w == q.trigger then
                       exists r :: r in rows && Matches(r, w, q) && r.id == Some(q.triggerId) && r.attempt.None?
                     else |matches| == 1 && matches[0].attempt.None?)
  {
    hide Matches, Keep;
    var matches := Keep(rows, Matching(w, q));
    KeepMembers(rows, Matching(w, q));
    if w != q.trigger {
      if |matches| == 1 {
        assert matches[0] in matches && matches == [matches[0]];
        if matches[0].id.Some? {
          assert Ids(matches) == {matches[0].id.value};
        }
      }
    } else if !NoId(matches) {
      MalformedTrigger(w, matches, q);
    }
  }

  lemma {:induction false} MalformedTrigger(w: Workflow, matches: seq<Row>, q: Query)
    requires !NoId(matches)
    ensures CheckTrigger(w, matches, q) == Failure(RunAttempt(w)) <==>
              exists r :: r in matches && r.id == Some(q.triggerId) && r.attempt.None?
    ensures CheckTrigger(w, matches, q) != Failure(RunId(w))
  {
    hide Keep, MaxAttempt;
    var known := Keep(matches, OfRun(q.triggerId));
    KeepMembers(matches, OfRun(q.triggerId));
    var exact := Keep(known, OfAttempt(q.triggerAttempt));
    KeepMembers(known, OfAttempt(q.triggerAttempt));
    if |exact| == 1 {
      RemainingHasIds(matches, known, exact, q);
      var remaining := Remaining(matches, exact, q);
      assert exact[0] in exact;
      assert remaining[|remaining| - 1] == exact[0];
    }
  }

  // ---------- Order and irrelevant rows ----------

  lemma {:induction false} SettlePermuted(w: Workflow, a: seq<Row>, b: seq<Row>)
    requires multiset(a) == multiset(b) && !NoId(a)
    ensures !NoId(b) && Settle(w, a) == Settle(w, b)
  {
    PermutedFacts(a, b);
    assert Ids(a) == Ids(b);
    if a != [] {
      assert a[0] in a && b[0] in b;
      if |Ids(a)| == 1 {
        assert a[0].id.value in Ids(a) && b[0].id.value in Ids(a);
        OnlyMember(Ids(a), a[0].id.value);
      }
    }
  }

  lemma {:induction false} MaxAttemptPermuted(a: seq<Row>, b: seq<Row>)
    requires multiset(a) == multiset(b)
    ensures MaxAttempt(a) == MaxAttempt(b)
  {
    PermutedFacts(a, b);
    MaxAttemptBounds(a);
    MaxAttemptBounds(b);
  }

  lemma {:induction false} CheckPermuted(w: Workflow, a: seq<Row>, b: seq<Row>, q: Query)
    requires multiset(a) == multiset(b)
    ensures CheckFor(w, a, q) == CheckFor(w, b, q)
  {
    hide Settle, Matches, Keep, MaxAttempt;
    var ma, mb := Keep(a, Matching(w, q)), Keep(b, Matching(w, q));
    KeepPermuted(a, b, Matching(w, q));
    PermutedFacts(ma, mb);
    if !NoId(ma) {
      SettlePermuted(w, ma, mb);
      var ka, kb := Keep(ma, OfRun(q.triggerId)), Keep(mb, OfRun(q.triggerId));
      KeepPermuted(ma, mb, OfRun(q.triggerId));
      PermutedFacts(ka, kb);
      MaxAttemptPermuted(ka, kb);
      var ea, eb := Keep(ka, OfAttempt(q.triggerAttempt)), Keep(kb, OfAttempt(q.triggerAttempt));
      KeepPermuted(ka, kb, OfAttempt(q.triggerAttempt));
      PermutedFacts(ea, eb);
      KeepPermuted(ma, mb, OfOtherRuns(q.triggerId));
      RemainingHasIds(ma, ka, ea, q);
      SettlePermuted(w, Remaining(ma, ea, q), Remaining(mb, eb, q));
    }
  }

  /** The order of the records is immaterial, to the verdict, to every check, and to errors. */
  lemma {:induction false} OrderIsImmaterial(a: seq<Row>, b: seq<Row>, q: Query)
    requires multiset(a) == multiset(b)
    ensures Reduce(a, q) == Reduce(b, q)
  {
    hide CheckFor;
    CheckPermuted(Quality, a, b, q);
    CheckPermuted(SkillSelfValidation, a, b, q);
  }

  lemma {:induction false} CheckIgnores(w: Workflow, rows: seq<Row>, row: Row, q: Query)
    requires Matches(row, w, q) ==> Superseded(row, w, q)
    ensures CheckFor(w, rows + [row], q) == CheckFor(w, rows, q)
  {
    hide Settle, Matches, Keep, MaxAttempt, NoAttempt;
    var matches := Keep(rows, Matching(w, q));
    KeepAppend(rows, row, Matching(w, q));
    if Matches(row, w, q) {
      var more := matches + [row];
      assert NoId(more) == NoId(matches) by {
        assert forall r :: r in more <==> r in matches || r == row;
      }
      var known := Keep(matches, OfRun(q.triggerId));
      KeepAppend(matches, row, OfRun(q.triggerId));
      KeepAppend(matches, row, OfOtherRuns(q.triggerId));
      KeepAppend(known, row, OfAttempt(q.triggerAttempt));
      KnownIgnores(known, row, q);
    }
  }

  lemma {:induction false} KnownIgnores(known: seq<Row>, row: Row, q: Query)
    requires row.attempt.Some? && row.attempt.value < q.triggerAttempt
    ensures NoAttempt(known + [row]) == NoAttempt(known)
    ensures MaxAttempt(known) > q.triggerAttempt || MaxAttempt(known + [row]) > q.triggerAttempt ==>
              MaxAttempt(known + [row]) == MaxAttempt(known)
  {
    assert (known + [row])[..|known|] == known;
    assert forall r :: r in known + [row] <==> r in known || r == row;
  }

  /** Records of other workflows, heads, events or pull requests, and older attempts of the trigger
      run, change nothing, wherever they stand. */
  lemma {:induction false} IrrelevantRecordsChangeNothing(before: seq<Row>, row: Row, after: seq<Row>, q: Query)
    requires forall w :: Matches(row, w, q) ==> Superseded(row, w, q)
    ensures Reduce(before + [row] + after, q) == Reduce(before + after, q)
  {
    hide CheckFor, Matches, Superseded;
    assert multiset(before + [row] + after) == multiset(before + after + [row]);
    OrderIsImmaterial(before + [row] + after, before + after + [row], q);
    CheckIgnores(Quality, before + after, row, q);
    CheckIgnores(SkillSelfValidation, before + after, row, q);
  }

  /** One completed, successful run that is not the trigger's is not enough for the trigger's workflow. */
  lemma {:induction false} OtherRunIsPending(q: Query, row: Row)
    requires Matches(row, q.trigger, q) && row.id.Some? && row.id != Some(q.triggerId)
    requires row.status == "completed" && row.conclusion == "success"
    ensures CheckFor(q.trigger, [row], q) == Success(TriggerNotVisible) && StatusOf(TriggerNotVisible) == PENDING
  {
    hide Matches, Settle, MaxAttempt, NoId;
    OneKept(row, Matching(q.trigger, q));
    OneKept(row, OfRun(q.triggerId));
    OneHasId(row);
    EmptyKept(q);
  }

  lemma {:induction false} OneHasId(row: Row)
    requires row.id.Some?
    ensures !NoId([row])
  {
  }

  lemma {:induction false} EmptyKept(q: Query)
    ensures Keep([], OfAttempt(q.triggerAttempt)) == [] && !NoAttempt([]) && MaxAttempt([]) <= q.triggerAttempt
  {
  }

  lemma {:induction false} OneKept(row: Row, p: Row -> bool)
    ensures Keep([row], p) == if p(row) then [row] else []
  {
    assert [row][..0] == [];
    assert Keep([row][..0], p) == [];
  }
}
