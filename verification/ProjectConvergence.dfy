/** One project assessment from the Quality summaries of a profile chain
    (scripts/project_convergence_controller.py). */
module ProjectConvergence {
  import opened Wrappers
  import opened RepoPath

  const MIN_SUMMARY_SCHEMA_VERSION := 6

  datatype Profile = Quick | Integration | Product | Release | Other(name: string)

  function Chain(target: Profile): seq<Profile>
    requires !target.Other?
  {
    match target
    case Quick => [Quick]
    case Integration => [Quick, Integration]
    case Product => [Quick, Integration, Product]
    case Release => [Quick, Integration, Product, Release]
  }

  datatype GateResult = GateResult(id: string, status: string, environmentBlocked: bool)

  /** The result of one requirement's claim; `gates` are its gate statuses in order. */
  datatype Claim = NotAnObject | Claim(id: string, status: string, gates: seq<(string, string)>,
      blockedGates: seq<string>)

  datatype Summary = Summary(
    profile: Profile, schemaVersion: int, runKind: string, catalog: string, changeRef: string,
    required: seq<string>, results: seq<GateResult>, claims: seq<Claim>, decision: string, loopStatus: string,
    completionEligible: bool, workspace: string, catalogFingerprint: string)

  datatype Kind =
    | RequirementEvidenceMissing
    | RequirementEnvironmentBlocked
    | RequirementVerificationFailed
    | RequirementUnverified
    | GateEnvironmentBlocked
    | UnmappedRequiredGateFailure
    | QualityDecisionFailed

  datatype Disposition = GovernedRepair | RetryEnvironment | ReplanRequired

  function DispositionOf(kind: Kind): Disposition {
    match kind
    case RequirementVerificationFailed | UnmappedRequiredGateFailure => GovernedRepair
    case RequirementEnvironmentBlocked | GateEnvironmentBlocked => RetryEnvironment
    case RequirementEvidenceMissing | RequirementUnverified | QualityDecisionFailed => ReplanRequired
  }

  datatype Finding = Finding(kind: Kind, requirement: string, profile: Option<Profile>, failedGates: seq<string>)

  // ---------- The summaries of the chain ----------

  predicate ValidSummary(s: Summary, expectedRef: string, catalog: string) {
    && s.schemaVersion >= MIN_SUMMARY_SCHEMA_VERSION && s.runKind == "verification" && s.catalog == catalog
    && expectedRef != "" && s.changeRef == expectedRef && s.required != []
    && s.workspace != "" && s.catalogFingerprint != ""
  }

  /** The profiles of the summaries are those of the chain. */
  ghost predicate Covers(summaries: seq<Summary>, chain: seq<Profile>) {
    forall p :: p in chain <==> exists s :: s in summaries && s.profile == p
  }

  /** All summaries are valid, of one workspace and one catalog. */
  ghost predicate Uniform(summaries: seq<Summary>, expectedRef: string, catalog: string) {
    forall s :: s in summaries ==>
      && ValidSummary(s, expectedRef, catalog)
      && s.workspace == summaries[0].workspace && s.catalogFingerprint == summaries[0].catalogFingerprint
  }

  /** One valid summary for each profile of the chain, no other, all of one workspace and catalog. */
  ghost predicate Admissible(summaries: seq<Summary>, target: Profile, expectedRef: string, catalog: string)
    requires !target.Other?
  {
    && summaries != []
    && (forall i, j :: 0 <= i < j < |summaries| ==> summaries[i].profile != summaries[j].profile)
    && Covers(summaries, Chain(target))
    && Uniform(summaries, expectedRef, catalog)
  }

  ghost predicate InChainOrder(ordered: seq<Summary>, summaries: seq<Summary>, chain: seq<Profile>) {
    && |ordered| == |chain|
    && forall i :: 0 <= i < |chain| ==> ordered[i] in summaries && ordered[i].profile == chain[i]
  }

  lemma {:induction false} NotAdmissible(summaries: seq<Summary>, target: Profile, expectedRef: string, catalog: string)
    requires !target.Other?
    ensures (exists s :: s in summaries && s.profile !in Chain(target)) ==>
            !Admissible(summaries, target, expectedRef, catalog)
    ensures (exists i, j :: 0 <= i < j < |summaries| && summaries[i].profile == summaries[j].profile) ==>
              !Admissible(summaries, target, expectedRef, catalog)
    ensures (exists p :: p in Chain(target) && forall s :: s in summaries ==> s.profile != p) ==>
              !Admissible(summaries, target, expectedRef, catalog)
    ensures summaries == [] ==> !Admissible(summaries, target, expectedRef, catalog)
  {
    hide ValidSummary, Chain;
  }

  /** The mapping by profile of the first `n` summaries. */
  ghost predicate Indexed(summaries: seq<Summary>, n: nat, byProfile: map<Profile, Summary>)
    requires n <= |summaries|
  {
    && (forall p :: p in byProfile ==> byProfile[p] in summaries && byProfile[p].profile == p)
    && (forall j :: 0 <= j < n ==> summaries[j].profile in byProfile && byProfile[summaries[j].profile] == summaries[j])
    && (forall p :: p in byProfile ==> exists j :: 0 <= j < n && summaries[j].profile == p)
    && forall j, k :: 0 <= j < k < n ==> summaries[j].profile != summaries[k].profile
  }

  lemma {:induction false} IndexedNone(summaries: seq<Summary>)
    ensures Indexed(summaries, 0, map[])
  {
  }

  lemma {:induction false} IndexedKnown(summaries: seq<Summary>, n: nat, byProfile: map<Profile, Summary>, p: Profile)
    requires n <= |summaries| && Indexed(summaries, n, byProfile) && p in byProfile
    ensures exists j :: 0 <= j < n && summaries[j].profile == p
  {
  }

  lemma {:induction false} IndexedNext(summaries: seq<Summary>, n: nat, byProfile: map<Profile, Summary>)
    requires n < |summaries| && Indexed(summaries, n, byProfile) && summaries[n].profile !in byProfile
    ensures Indexed(summaries, n + 1, byProfile[summaries[n].profile := summaries[n]])
  {
  }

  lemma {:induction false} IndexedAll(summaries: seq<Summary>, byProfile: map<Profile, Summary>)
    requires Indexed(summaries, |summaries|, byProfile)
    ensures forall p :: p in byProfile <==> exists s :: s in summaries && s.profile == p
  {
    forall s | s in summaries
      ensures s.profile in byProfile
    {
      var j :| 0 <= j < |summaries| && summaries[j] == s;
    }
    forall p | p in byProfile
      ensures exists s :: s in summaries && s.profile == p
    {
      assert byProfile[p] in summaries;
    }
  }

  method OrderSummaries(summaries: seq<Summary>, target: Profile, expectedRef: string, catalog: string)
    returns (r: Option<seq<Summary>>)
    requires !target.Other?
    ensures r.Some? <==> Admissible(summaries, target, expectedRef, catalog)
    ensures r.Some? ==> InChainOrder(r.value, summaries, Chain(target))
  {
    hide ValidSummary, Admissible, InChainOrder, Indexed;
    NotAdmissible(summaries, target, expectedRef, catalog);
    if summaries == [] {
      return None;
    }
    var chain := Chain(target);
    var byProfile: map<Profile, Summary> := map[];
    IndexedNone(summaries);
    for i := 0 to |summaries|
      invariant Indexed(summaries, i, byProfile) && Other("") !in byProfile
    {
      var s := summaries[i];
      assert s in summaries;
      if s.profile == Other("") {
        return None;
      }
      if s.profile in byProfile {
        IndexedKnown(summaries, i, byProfile, s.profile);
        return None;
      }
      IndexedNext(summaries, i, byProfile);
      byProfile := byProfile[s.profile := s];
    }
    IndexedAll(summaries, byProfile);
    if exists p :: p in chain && p !in byProfile {
      return None;
    }
    if exists p :: p in byProfile && p !in chain {
      return None;
    }
    r := CheckChain(summaries, byProfile, target, expectedRef, catalog);
  }

  lemma {:induction false} SameMembers(
    summaries: seq<Summary>, byProfile: map<Profile, Summary>, ordered: seq<Summary>, chain: seq<Profile>)
    requires Indexed(summaries, |summaries|, byProfile)
    requires forall p :: p in byProfile <==> p in chain
    requires |ordered| == |chain|
    requires forall k :: 0 <= k < |ordered| ==> chain[k] in byProfile && ordered[k] == byProfile[chain[k]]
    ensures InChainOrder(ordered, summaries, chain)
    ensures forall s :: s in summaries <==> s in ordered
    ensures Covers(summaries, chain)
    ensures forall i, j :: 0 <= i < j < |summaries| ==> summaries[i].profile != summaries[j].profile
  {
    forall s | s in summaries
      ensures s.profile in chain && s in ordered
    {
      var j :| 0 <= j < |summaries| && summaries[j] == s;
      var k :| 0 <= k < |chain| && chain[k] == s.profile;
      assert ordered[k] == s;
    }
    forall p | p in chain
      ensures exists s :: s in summaries && s.profile == p
    {
      assert byProfile[p] in summaries;
    }
  }

  lemma {:induction false} UniformSameMembers(a: seq<Summary>, b: seq<Summary>, expectedRef: string, catalog: string)
    requires b != [] && (forall s :: s in a <==> s in b) && Uniform(a, expectedRef, catalog)
    ensures Uniform(b, expectedRef, catalog)
  {
    hide ValidSummary;
    assert b[0] in a;
  }

  /** With one summary per profile of the chain, admissibility is a matter of the ordered list. */
  lemma {:induction false} AdmissibleExactly(
    summaries: seq<Summary>, byProfile: map<Profile, Summary>, ordered: seq<Summary>, target: Profile,
    expectedRef: string, catalog: string)
    requires !target.Other? && summaries != [] && Indexed(summaries, |summaries|, byProfile)
    requires forall p :: p in byProfile <==> p in Chain(target)
    requires |ordered| == |Chain(target)|
    requires forall k :: 0 <= k < |ordered| ==>
               Chain(target)[k] in byProfile && ordered[k] == byProfile[Chain(target)[k]]
    ensures InChainOrder(ordered, summaries, Chain(target))
    ensures Admissible(summaries, target, expectedRef, catalog) <==> Uniform(ordered, expectedRef, catalog)
  {
    hide Uniform, Chain, Indexed, InChainOrder, Covers;
    SameMembers(summaries, byProfile, ordered, Chain(target));
    ChainNotEmpty(target);
    if Uniform(summaries, expectedRef, catalog) {
      UniformSameMembers(summaries, ordered, expectedRef, catalog);
    }
    if Uniform(ordered, expectedRef, catalog) {
      UniformSameMembers(ordered, summaries, expectedRef, catalog);
    }
  }

  function Workspaces(ordered: seq<Summary>, n: nat): set<string>
    requires n <= |ordered|
  {
    set k | 0 <= k < n :: ordered[k].workspace
  }

  function Catalogs(ordered: seq<Summary>, n: nat): set<string>
    requires n <= |ordered|
  {
    set k | 0 <= k < n :: ordered[k].catalogFingerprint
  }

  lemma {:induction false} NoneYet(ordered: seq<Summary>)
    ensures Workspaces(ordered, 0) == {} && Catalogs(ordered, 0) == {}
  {
  }

  lemma {:induction false} OneMoreSummary(ordered: seq<Summary>, n: nat)
    requires n < |ordered|
    ensures Workspaces(ordered, n + 1) == Workspaces(ordered, n) + {ordered[n].workspace}
    ensures Catalogs(ordered, n + 1) == Catalogs(ordered, n) + {ordered[n].catalogFingerprint}
  {
  }

  lemma {:induction false} NotUniform(ordered: seq<Summary>, n: nat, expectedRef: string, catalog: string)
    requires n < |ordered| && !ValidSummary(ordered[n], expectedRef, catalog)
    ensures !Uniform(ordered, expectedRef, catalog)
  {
    hide ValidSummary;
    assert ordered[n] in ordered;
  }

  lemma {:induction false} UniformExactly(ordered: seq<Summary>, expectedRef: string, catalog: string)
    requires ordered != [] && forall k :: 0 <= k < |ordered| ==> ValidSummary(ordered[k], expectedRef, catalog)
    ensures Uniform(ordered, expectedRef, catalog) <==>
              |Workspaces(ordered, |ordered|)| == 1 && |Catalogs(ordered, |ordered|)| == 1
  {
    hide ValidSummary;
    OneWorkspace(ordered);
    OneCatalog(ordered);
    assert forall k :: 0 <= k < |ordered| ==> ordered[k] in ordered;
  }

  lemma {:induction false} OneWorkspace(ordered: seq<Summary>)
    requires ordered != []
    ensures |set k | 0 <= k < |ordered| :: ordered[k].workspace| == 1
            <==> forall k :: 0 <= k < |ordered| ==> ordered[k].workspace == ordered[0].workspace
  {
    var workspaces := set k | 0 <= k < |ordered| :: ordered[k].workspace;
    assert forall k :: 0 <= k < |ordered| ==> ordered[k].workspace in workspaces;
    OneMember(workspaces, ordered[0].workspace);
  }

  lemma {:induction false} OneCatalog(ordered: seq<Summary>)
    requires ordered != []
    ensures |set k | 0 <= k < |ordered| :: ordered[k].catalogFingerprint| == 1
            <==> forall k :: 0 <= k < |ordered| ==> ordered[k].catalogFingerprint == ordered[0].catalogFingerprint
  {
    var catalogs := set k | 0 <= k < |ordered| :: ordered[k].catalogFingerprint;
    assert forall k :: 0 <= k < |ordered| ==> ordered[k].catalogFingerprint in catalogs;
    OneMember(catalogs, ordered[0].catalogFingerprint);
  }

  lemma {:induction false} ChainNotEmpty(target: Profile)
    requires !target.Other?
    ensures Chain(target) != []
  {
  }

  method CheckChain(summaries: seq<Summary>, byProfile: map<Profile, Summary>, target: Profile, expectedRef: string,
      catalog: string)
    returns (r: Option<seq<Summary>>)
    requires !target.Other? && summaries != [] && Indexed(summaries, |summaries|, byProfile)
    requires forall p :: p in byProfile <==> p in Chain(target)
    ensures r.Some? <==> Admissible(summaries, target, expectedRef, catalog)
    ensures r.Some? ==> InChainOrder(r.value, summaries, Chain(target))
  {
    hide ValidSummary, Admissible, InChainOrder, Indexed, Chain, Uniform, Workspaces, Catalogs;
    var chain := Chain(target);
    ChainNotEmpty(target);
    ghost var full := seq(|chain|, k requires 0 <= k < |chain| => byProfile[chain[k]]);
    AdmissibleExactly(summaries, byProfile, full, target, expectedRef, catalog);
    var ordered: seq<Summary> := [];
    var workspaces: set<string>, catalogs: set<string> := {}, {};
    NoneYet(full);
    for i := 0 to |chain|
      invariant ordered == full[..i]
      invariant forall k :: 0 <= k < i ==> ValidSummary(full[k], expectedRef, catalog)
      invariant workspaces == Workspaces(full, i) && catalogs == Catalogs(full, i)
    {
      var s := byProfile[chain[i]];
      assert s == full[i];
      if !ValidSummary(s, expectedRef, catalog) {
        NotUniform(full, i, expectedRef, catalog);
        return None;
      }
      OneMoreSummary(full, i);
      workspaces := workspaces + {s.workspace};
      catalogs := catalogs + {s.catalogFingerprint};
      ordered := ordered + [s];
    }
    assert ordered == full;
    UniformExactly(full, expectedRef, catalog);
    if |workspaces| != 1 {
      return None;
    }
    if |catalogs| != 1 {
      return None;
    }
    return Some(ordered);
  }

  lemma {:induction false} OneMember<T>(s: set<T>, x: T)
    requires x in s
    ensures |s| == 1 <==> forall y :: y in s ==> y == x
  {
    if |s| == 1 {
      assert |s - {x}| == 0;
      assert s == {x} + (s - {x});
    }
    if forall y :: y in s ==> y == x {
      assert s == {x};
    }
  }

  /** The ordered list does not depend on the order the summaries came in. */
  lemma {:induction false} ChainOrderIsUnique(
    a: seq<Summary>, b: seq<Summary>, orderedA: seq<Summary>, orderedB: seq<Summary>, target: Profile,
    expectedRef: string, catalog: string)
    requires !target.Other? && multiset(a) == multiset(b)
    requires Admissible(a, target, expectedRef, catalog)
    requires InChainOrder(orderedA, a, Chain(target)) && InChainOrder(orderedB, b, Chain(target))
    ensures orderedA == orderedB
  {
    forall i | 0 <= i < |orderedA|
      ensures orderedA[i] == orderedB[i]
    {
      assert orderedB[i] in multiset(b);
      assert orderedB[i] in a;
      var j :| 0 <= j < |a| && a[j] == orderedA[i];
      var k :| 0 <= k < |a| && a[k] == orderedB[i];
    }
  }

  lemma {:induction false} AdmissiblePermuted(a: seq<Summary>, b: seq<Summary>, target: Profile, expectedRef: string,
      catalog: string)
    requires !target.Other? && multiset(a) == multiset(b) && Admissible(a, target, expectedRef, catalog)
    ensures Admissible(b, target, expectedRef, catalog)
  {
    hide Uniform, Covers, Chain;
    assert |multiset(a)| == |a| && |multiset(b)| == |b|;
    forall s
      ensures s in a <==> s in b
    {
      assert s in a <==> s in multiset(a);
      assert s in b <==> s in multiset(b);
    }
    CoversPermuted(a, b, Chain(target));
    UniformSameMembers(a, b, expectedRef, catalog);
    forall i, j | 0 <= i < j < |b|
      ensures b[i].profile != b[j].profile
    {
      if b[i] == b[j] {
        TwiceInSeq(b, i, j);
        OnceInSeq(a, b[i]);
      } else {
        assert b[i] in a && b[j] in a;
      }
    }
  }

  lemma {:induction false} CoversPermuted(a: seq<Summary>, b: seq<Summary>, chain: seq<Profile>)
    requires (forall s :: s in a <==> s in b) && Covers(a, chain)
    ensures Covers(b, chain)
  {
    forall p
      ensures p in chain <==> exists s :: s in b && s.profile == p
    {
      assert p in chain <==> exists s :: s in a && s.profile == p;
    }
  }

  lemma {:induction false} TwiceInSeq<T>(s: seq<T>, i: nat, j: nat)
    requires i < j < |s| && s[i] == s[j]
    ensures multiset(s)[s[i]] >= 2
  {
    assert s == s[..j] + [s[j]] + s[j + 1..];
    assert s[..j][i] == s[i];
    assert s[i] in s[..j];
    assert multiset(s[..j])[s[i]] >= 1;
  }

  lemma {:induction false} OnceInSeq(a: seq<Summary>, s: Summary)
    requires forall i, j :: 0 <= i < j < |a| ==> a[i].profile != a[j].profile
    ensures multiset(a)[s] <= 1
    decreases |a|
  {
    if a != [] {
      var n := |a| - 1;
      assert a == a[..n] + [a[n]];
      OnceInSeq(a[..n], s);
      assert forall i :: 0 <= i < n ==> a[..n][i].profile != a[n].profile;
      assert a[n] !in a[..n];
    }
  }

  // ---------- Claims ----------

  datatype Evidence = Evidence(profile: Profile, claim: Claim)

  function ClaimId(claim: Claim): string {
    if claim.Claim? then Trim(claim.id) else ""
  }

  predicate Repeated(claims: seq<Claim>, i: nat)
    requires i < |claims|
  {
    ClaimId(claims[i]) != "" && exists j :: 0 <= j < i && ClaimId(claims[j]) == ClaimId(claims[i])
  }

  /** The evidence after the first `n` claims of a summary; absent if an id occurs twice. */
  function AddClaims(s: Summary, n: nat, ids: set<string>, base: map<string, Evidence>): Option<map<string, Evidence>>
    requires n <= |s.claims|
  {
    if n == 0 then
      Some(base)
    else
      match AddClaims(s, n - 1, ids, base)
      case None => None
      case Some(claims) =>
        var id := ClaimId(s.claims[n - 1]);
        if Repeated(s.claims, n - 1) then None
        else if id in ids && id != "" then Some(claims[id := Evidence(s.profile, s.claims[n - 1])])
        else Some(claims)
  }

  function CollectFirst(ordered: seq<Summary>, n: nat, ids: set<string>): Option<map<string, Evidence>>
    requires n <= |ordered|
  {
    if n == 0 then
      Some(map[])
    else
      match CollectFirst(ordered, n - 1, ids)
      case None => None
      case Some(claims) => AddClaims(ordered[n - 1], |ordered[n - 1].claims|, ids, claims)
  }

  function Claims(ordered: seq<Summary>, ids: set<string>): Option<map<string, Evidence>> {
    CollectFirst(ordered, |ordered|, ids)
  }

  lemma {:induction false} AddStops(s: Summary, k: nat, n: nat, ids: set<string>, base: map<string, Evidence>)
    requires k <= n <= |s.claims| && AddClaims(s, k, ids, base) == None
    ensures AddClaims(s, n, ids, base) == None
    decreases n
  {
    if k < n {
      AddStops(s, k, n - 1, ids, base);
    }
  }

  lemma {:induction false} CollectStops(ordered: seq<Summary>, k: nat, n: nat, ids: set<string>)
    requires k <= n <= |ordered| && CollectFirst(ordered, k, ids) == None
    ensures CollectFirst(ordered, n, ids) == None
    decreases n
  {
    if k < n {
      CollectStops(ordered, k, n - 1, ids);
    }
  }

  method CollectClaims(ordered: seq<Summary>, ids: set<string>) returns (r: Option<map<string, Evidence>>)
    ensures r == Claims(ordered, ids)
  {
    hide ClaimId;
    var claims: map<string, Evidence> := map[];
    for i := 0 to |ordered|
      invariant CollectFirst(ordered, i, ids) == Some(claims)
    {
      var s := ordered[i];
      var seen: set<string> := {};
      ghost var base := claims;
      for j := 0 to |s.claims|
        invariant AddClaims(s, j, ids, base) == Some(claims)
        invariant forall id :: id in seen <==> id != "" && exists k :: 0 <= k < j && ClaimId(s.claims[k]) == id
      {
        var id := ClaimId(s.claims[j]);
        if id != "" {
          if id in seen {
            AddStops(s, j + 1, |s.claims|, ids, base);
            CollectStops(ordered, i + 1, |ordered|, ids);
            return None;
          }
          seen := seen + {id};
          if id in ids {
            claims := claims[id := Evidence(s.profile, s.claims[j])];
          }
        }
      }
    }
    return Some(claims);
  }

  // ---------- Findings ----------

  predicate Verified(id: string, claims: map<string, Evidence>) {
    id in claims && claims[id].claim.Claim? && claims[id].claim.status == "VERIFIED"
  }

  function FailedGates(gates: seq<(string, string)>): (failed: seq<string>)
    ensures forall g :: g in failed ==> exists i :: 0 <= i < |gates| && gates[i].0 == g && gates[i].1 != "PASS"
  {
    if gates == [] then
      []
    else
      var n := |gates| - 1;
      FailedGates(gates[..n]) + (if gates[n].1 != "PASS" then [gates[n].0] else [])
  }

  function RequirementFinding(id: string, claims: map<string, Evidence>): Finding {
    if id !in claims || !claims[id].claim.Claim? then
      Finding(RequirementEvidenceMissing, id, None, [])
    else
      var e := claims[id];
      var failed := FailedGates(e.claim.gates);
      var kind :=
        if e.claim.blockedGates != [] then RequirementEnvironmentBlocked
        else if failed != [] then RequirementVerificationFailed
        else RequirementUnverified;
      Finding(kind, id, Some(e.profile), failed)
  }

  function RequirementFindings(ids: seq<string>, n: nat, claims: map<string, Evidence>): seq<Finding>
    requires n <= |ids|
  {
    if n == 0 then
      []
    else
      var front := RequirementFindings(ids, n - 1, claims);
      if Verified(ids[n - 1], claims) then front else front + [RequirementFinding(ids[n - 1], claims)]
  }

  predicate Names(f: Finding, profile: Profile, gate: string) {
    f.profile == Some(profile) && gate in f.failedGates
  }

  /** Some finding of the profile names the gate. */
  predicate Named(findings: seq<Finding>, profile: Profile, gate: string) {
    exists i :: 0 <= i < |findings| && Names(findings[i], profile, gate)
  }

  /** The status of a gate: its last result; without one, none. */
  function GateStatus(results: seq<GateResult>, id: string): Option<string> {
    if results == [] then
      None
    else
      var n := |results| - 1;
      if results[n].id == id && Trim(id) != "" then
        Some(if results[n].status == "" then "UNKNOWN" else results[n].status)
      else GateStatus(results[..n], id)
  }

  function ResultOf(results: seq<GateResult>, id: string): Option<GateResult> {
    if results == [] then
      None
    else
      var n := |results| - 1;
      if results[n].id == id && Trim(id) != "" then Some(results[n]) else ResultOf(results[..n], id)
  }

  predicate EnvironmentBlocked(s: Summary, gate: string) {
    || GateStatus(s.results, gate) == Some("BLOCKED_BY_ENVIRONMENT")
    || GateStatus(s.results, gate) == Some("ENVIRONMENT_BLOCKED")
    || (ResultOf(s.results, gate).Some? && ResultOf(s.results, gate).value.environmentBlocked)
  }

  function GateFinding(s: Summary, gate: string): Finding {
    Finding(if EnvironmentBlocked(s, gate) then GateEnvironmentBlocked
            else UnmappedRequiredGateFailure, "", Some(s.profile), [gate])
  }

  predicate Passes(s: Summary, gate: string) {
    GateStatus(s.results, gate) == Some("PASS")
  }

  /** The findings for required gates that no requirement finding names. */
  function GateFindings(s: Summary, n: nat, mapped: seq<Finding>): seq<Finding>
    requires n <= |s.required|
  {
    if n == 0 then
      []
    else
      var front := GateFindings(s, n - 1, mapped);
      var gate := s.required[n - 1];
      if Passes(s, gate) || Named(mapped, s.profile, gate) then front else front + [GateFinding(s, gate)]
  }

  function AllGateFindings(ordered: seq<Summary>, n: nat, mapped: seq<Finding>): seq<Finding>
    requires n <= |ordered|
  {
    if n == 0 then []
    else AllGateFindings(ordered, n - 1, mapped) + GateFindings(ordered[n - 1], |ordered[n - 1].required|, mapped)
  }

  predicate Explained(findings: seq<Finding>, profile: Profile) {
    exists i :: 0 <= i < |findings| && findings[i].profile == Some(profile)
  }

  /** The findings, extended by one for each failed decision that nothing explains. */
  function WithDecisions(ordered: seq<Summary>, n: nat, findings: seq<Finding>): seq<Finding>
    requires n <= |ordered|
  {
    if n == 0 then
      findings
    else
      var front := WithDecisions(ordered, n - 1, findings);
      var s := ordered[n - 1];
      if s.decision == "PASS" || Explained(front, s.profile) then front
      else front + [Finding(QualityDecisionFailed, "", Some(s.profile), [])]
  }

  function Findings(ids: seq<string>, ordered: seq<Summary>, claims: map<string, Evidence>): seq<Finding> {
    var mapped := RequirementFindings(ids, |ids|, claims);
    WithDecisions(ordered, |ordered|, mapped + AllGateFindings(ordered, |ordered|, mapped))
  }

  // ---------- What the findings say ----------

  /** This is the last result of the gate. */
  ghost predicate LastResult(results: seq<GateResult>, id: string, r: GateResult) {
    && r.id == id
    && exists i :: 0 <= i < |results| && results[i] == r && forall j :: i < j < |results| ==> results[j].id != id
  }

  lemma {:induction false} LastOfPrefix(front: seq<GateResult>, last: GateResult, id: string, r: GateResult)
    ensures last.id == id ==> (LastResult(front + [last], id, r) <==> r == last)
    ensures last.id != id ==> (LastResult(front + [last], id, r) <==> LastResult(front, id, r))
  {
    var results, n := front + [last], |front|;
    assert results[n] == last && forall j :: 0 <= j < n ==> results[j] == front[j];
    if LastResult(front, id, r) && last.id != id {
      var i :| 0 <= i < n && front[i] == r && forall j :: i < j < n ==> front[j].id != id;
      assert results[i] == r;
    }
    if LastResult(results, id, r) && last.id != id {
      var i :| 0 <= i < |results| && results[i] == r && forall j :: i < j < |results| ==> results[j].id != id;
      assert front[i] == r;
    }
  }

  lemma {:induction false} ResultsExactly(results: seq<GateResult>, id: string, r: GateResult)
    requires Trim(id) != ""
    ensures ResultOf(results, id) == Some(r) <==> LastResult(results, id, r)
    ensures ResultOf(results, id) == Some(r) ==>
              GateStatus(results, id) == Some(if r.status == "" then "UNKNOWN" else r.status)
    ensures ResultOf(results, id).Some? <==> GateStatus(results, id).Some?
  {
    hide Trim;
    if results != [] {
      hide LastResult;
      var n := |results| - 1;
      LastOfPrefix(results[..n], results[n], id, r);
      assert results == results[..n] + [results[n]];
      ResultsExactly(results[..n], id, r);
    }
  }

  /** A required gate passes, or is blocked by its environment, by its last result. */
  lemma {:induction false} GateExactly(s: Summary, gate: string)
    ensures Passes(s, gate) <==> Trim(gate) != "" && exists r :: LastResult(s.results, gate, r) && r.status == "PASS"
    ensures EnvironmentBlocked(s, gate) <==>
              && Trim(gate) != ""
              && exists r :: LastResult(s.results, gate, r)
                   && (r.status in {"BLOCKED_BY_ENVIRONMENT", "ENVIRONMENT_BLOCKED"} || r.environmentBlocked)
    ensures GateFinding(s, gate) ==
            Finding(if EnvironmentBlocked(s, gate) then GateEnvironmentBlocked else UnmappedRequiredGateFailure, "",
                    Some(s.profile), [gate])
  {
    hide LastResult;
    if Trim(gate) == "" {
      NoResult(s.results, gate);
    } else if ResultOf(s.results, gate).Some? {
      ResultsExactly(s.results, gate, ResultOf(s.results, gate).value);
      forall r | LastResult(s.results, gate, r)
        ensures ResultOf(s.results, gate) == Some(r)
      {
        ResultsExactly(s.results, gate, r);
      }
    } else {
      forall r
        ensures !LastResult(s.results, gate, r) && GateStatus(s.results, gate).None?
      {
        ResultsExactly(s.results, gate, r);
      }
    }
  }

  lemma {:induction false} NoResult(results: seq<GateResult>, id: string)
    requires Trim(id) == ""
    ensures ResultOf(results, id) == None && GateStatus(results, id) == None
  {
    if results != [] {
      NoResult(results[..|results| - 1], id);
    }
  }

  /** A requirement has no finding exactly when its claim is VERIFIED; else the finding says whether there is
      no evidence, the environment blocked it, some gate did not pass, or nothing explains it. */
  lemma {:induction false} RequirementExactly(id: string, claims: map<string, Evidence>)
    ensures Verified(id, claims) <==>
              id in claims && claims[id].claim != NotAnObject && claims[id].claim.status == "VERIFIED"
    ensures var f := RequirementFinding(id, claims);
            && f.requirement == id
            && (f.kind == RequirementEvidenceMissing <==> id !in claims || claims[id].claim == NotAnObject)
            && (f.kind == RequirementEnvironmentBlocked <==>
                  id in claims && claims[id].claim != NotAnObject && claims[id].claim.blockedGates != [])
            && (f.kind == RequirementVerificationFailed <==>
                  && id in claims && claims[id].claim != NotAnObject && claims[id].claim.blockedGates == []
                  && exists g :: g in claims[id].claim.gates && g.1 != "PASS")
            && (f.kind in {RequirementEvidenceMissing, RequirementEnvironmentBlocked, RequirementVerificationFailed,
                           RequirementUnverified})
            && (f.kind != RequirementEvidenceMissing ==> f.profile == Some(claims[id].profile))
  {
    if id in claims && claims[id].claim != NotAnObject {
      FailedExactly(claims[id].claim.gates);
    }
  }

  lemma {:induction false} FailedExactly(gates: seq<(string, string)>)
    ensures FailedGates(gates) != [] <==> exists g :: g in gates && g.1 != "PASS"
  {
    if gates != [] {
      FailedExactly(gates[..|gates| - 1]);
    }
  }

  /** Admissible summaries are verification runs of the current schema, with required gates, of one change,
      one workspace and one catalog. */
  lemma {:induction false} AdmissibleMeans(summaries: seq<Summary>, target: Profile, expectedRef: string,
      catalog: string)
    requires !target.Other?
    ensures Admissible(summaries, target, expectedRef, catalog) <==>
              && (forall i, j :: 0 <= i < j < |summaries| ==> summaries[i].profile != summaries[j].profile)
              && Covers(summaries, Chain(target))
              && forall s :: s in summaries ==>
                   && s.schemaVersion >= 6 && s.runKind == "verification" && s.required != []
                   && s.changeRef == expectedRef != "" && s.catalog == catalog
                   && s.workspace == summaries[0].workspace != ""
                   && s.catalogFingerprint == summaries[0].catalogFingerprint != ""
  {
    ChainNotEmpty(target);
    if Covers(summaries, Chain(target)) {
      assert Chain(target)[0] in Chain(target);
    }
    hide Covers, Chain;
  }

  // ---------- The assessment ----------

  datatype Status = Clean | Replan | EnvironmentHold | RepairRequired

  datatype Assessment = Assessment(findings: seq<Finding>, verified: nat, status: Status)

  predicate SummaryClean(s: Summary) {
    && s.decision == "PASS" && s.loopStatus == "CI_VERIFIED" && s.completionEligible
    && forall g :: g in s.required ==> Passes(s, g)
  }

  function CountVerified(ids: seq<string>, n: nat, claims: map<string, Evidence>): nat
    requires n <= |ids|
  {
    if n == 0 then 0 else CountVerified(ids, n - 1, claims) + (if Verified(ids[n - 1], claims) then 1 else 0)
  }

  function StatusOf(ids: seq<string>, ordered: seq<Summary>, findings: seq<Finding>, verified: nat): Status {
    if (forall s :: s in ordered ==> SummaryClean(s)) && verified == |ids| && findings == [] then Clean
    else if exists f :: f in findings && DispositionOf(f.kind) == ReplanRequired then Replan
    else if findings != [] && forall f :: f in findings ==> DispositionOf(f.kind) == RetryEnvironment then
      EnvironmentHold
    else RepairRequired
  }

  function AssessOrdered(ids: seq<string>, ordered: seq<Summary>, claims: map<string, Evidence>): Assessment {
    var findings := Findings(ids, ordered, claims);
    var verified := CountVerified(ids, |ids|, claims);
    Assessment(findings, verified, StatusOf(ids, ordered, findings, verified))
  }

  method CollectRequirementFindings(ids: seq<string>, claims: map<string, Evidence>)
    returns (findings: seq<Finding>, referenced: set<(Profile, string)>)
    ensures findings == RequirementFindings(ids, |ids|, claims)
    ensures forall p, g :: (p, g) in referenced <==> Named(findings, p, g)
  {
    hide RequirementFinding, Verified;
    findings, referenced := [], {};
    for i := 0 to |ids|
      invariant findings == RequirementFindings(ids, i, claims)
      invariant forall p, g :: (p, g) in referenced <==> Named(findings, p, g)
    {
      if !Verified(ids[i], claims) {
        var f := RequirementFinding(ids[i], claims);
        NamedAppend(findings, f);
        if f.profile.Some? {
          referenced := referenced + set g | g in f.failedGates :: (f.profile.value, g);
        }
        findings := findings + [f];
      }
    }
  }

  lemma {:induction false} NamedAppend(findings: seq<Finding>, f: Finding)
    ensures forall p, g :: Named(findings + [f], p, g) <==> Named(findings, p, g) || Names(f, p, g)
  {
    var more := findings + [f];
    forall p, g
      ensures Named(more, p, g) <==> Named(findings, p, g) || Names(f, p, g)
    {
      if Named(findings, p, g) {
        var i :| 0 <= i < |findings| && Names(findings[i], p, g);
        assert Names(more[i], p, g);
      }
      if Names(f, p, g) {
        assert Names(more[|findings|], p, g);
      }
      if Named(more, p, g) {
        var i :| 0 <= i < |more| && Names(more[i], p, g);
        assert i < |findings| ==> more[i] == findings[i];
      }
    }
  }

  method CollectGateFindings(s: Summary, referenced: set<(Profile, string)>, ghost mapped: seq<Finding>)
    returns (findings: seq<Finding>)
    requires forall p, g :: (p, g) in referenced <==> Named(mapped, p, g)
    ensures findings == GateFindings(s, |s.required|, mapped)
  {
    hide GateFinding, Named, Passes;
    findings := [];
    for i := 0 to |s.required|
      invariant findings == GateFindings(s, i, mapped)
    {
      var gate := s.required[i];
      if !(Passes(s, gate) || (s.profile, gate) in referenced) {
        findings := findings + [GateFinding(s, gate)];
      }
    }
  }

  /** The whole assessment, from unordered summaries. */
  method AssessCumulative(
    summaries: seq<Summary>, ids: seq<string>, target: Profile, expectedRef: string, catalog: string)
    returns (r: Option<Assessment>)
    requires !target.Other?
    ensures r.Some? ==> Admissible(summaries, target, expectedRef, catalog)
    ensures Admissible(summaries, target, expectedRef, catalog) ==>
              exists ordered :: InChainOrder(ordered, summaries, Chain(target)) &&
                r == match Claims(ordered, set id | id in ids)
                     case None => None
                     case Some(claims) => Some(AssessOrdered(ids, ordered, claims))
  {
    hide Admissible, InChainOrder, Claims, StatusOf, Findings, Verified, Chain;
    var maybe := OrderSummaries(summaries, target, expectedRef, catalog);
    if maybe.None? {
      return None;
    }
    var ordered := maybe.value;
    var collected := CollectClaims(ordered, set id | id in ids);
    if collected.None? {
      return None;
    }
    var claims := collected.value;
    var findings := CollectFindings(ids, ordered, claims);
    var verified := 0;
    for i := 0 to |ids|
      invariant verified == CountVerified(ids, i, claims)
    {
      if Verified(ids[i], claims) {
        verified := verified + 1;
      }
    }
    return Some(Assessment(findings, verified, StatusOf(ids, ordered, findings, verified)));
  }

  method CollectFindings(ids: seq<string>, ordered: seq<Summary>, claims: map<string, Evidence>)
    returns (findings: seq<Finding>)
    ensures findings == Findings(ids, ordered, claims)
  {
    hide Named, Explained, Verified;
    var mapped, referenced := CollectRequirementFindings(ids, claims);
    findings := mapped;
    for i := 0 to |ordered|
      invariant findings == mapped + AllGateFindings(ordered, i, mapped)
    {
      var more := CollectGateFindings(ordered[i], referenced, mapped);
      findings := findings + more;
    }
    ghost var gated := findings;
    for i := 0 to |ordered|
      invariant findings == WithDecisions(ordered, i, gated)
    {
      var s := ordered[i];
      if s.decision != "PASS" && !Explained(findings, s.profile) {
        findings := findings + [Finding(QualityDecisionFailed, "", Some(s.profile), [])];
      }
    }
  }

  // ---------- Nothing is lost ----------

  /** Every required requirement is either verified or has its finding. */
  lemma {:induction false} RequirementsConserved(ids: seq<string>, n: nat, claims: map<string, Evidence>)
    requires n <= |ids|
    ensures CountVerified(ids, n, claims) + |RequirementFindings(ids, n, claims)| == n
    ensures forall i :: 0 <= i < n && !Verified(ids[i], claims) ==>
              RequirementFinding(ids[i], claims) in RequirementFindings(ids, n, claims)
  {
    hide Verified, RequirementFinding;
    if n > 0 {
      RequirementsConserved(ids, n - 1, claims);
    }
  }

  lemma {:induction false} WithDecisionsExtends(ordered: seq<Summary>, n: nat, findings: seq<Finding>)
    requires n <= |ordered|
    ensures findings <= WithDecisions(ordered, n, findings)
    ensures forall i :: 0 <= i < n && ordered[i].decision != "PASS" ==>
              Explained(WithDecisions(ordered, n, findings), ordered[i].profile)
    ensures (forall i :: 0 <= i < n ==> ordered[i].decision == "PASS") ==>
            WithDecisions(ordered, n, findings) == findings
  {
    if n > 0 {
      WithDecisionsExtends(ordered, n - 1, findings);
      var front, all := WithDecisions(ordered, n - 1, findings), WithDecisions(ordered, n, findings);
      assert front <= all;
      forall i | 0 <= i < n && ordered[i].decision != "PASS"
        ensures Explained(all, ordered[i].profile)
      {
        if Explained(front, ordered[i].profile) {
          var k :| 0 <= k < |front| && front[k].profile == Some(ordered[i].profile);
          assert all[k] == front[k];
        } else {
          assert i == n - 1;
          assert all[|front|].profile == Some(ordered[i].profile);
        }
      }
    }
  }

  lemma {:induction false} GateFindingsName(s: Summary, n: nat, mapped: seq<Finding>, gate: string)
    requires n <= |s.required| && gate in s.required[..n] && !Passes(s, gate)
    ensures Named(mapped, s.profile, gate) || Named(GateFindings(s, n, mapped), s.profile, gate)
  {
    hide Passes, EnvironmentBlocked;
    var front := GateFindings(s, n - 1, mapped);
    var all := GateFindings(s, n, mapped);
    if s.required[n - 1] == gate {
      if !Named(mapped, s.profile, gate) {
        assert Names(all[|front|], s.profile, gate);
      }
    } else {
      assert gate in s.required[..n - 1];
      GateFindingsName(s, n - 1, mapped, gate);
      if Named(front, s.profile, gate) {
        NamedExtends(front, all, s.profile, gate);
      }
    }
  }

  lemma {:induction false} NamedExtends(a: seq<Finding>, b: seq<Finding>, p: Profile, g: string)
    requires a <= b && Named(a, p, g)
    ensures Named(b, p, g)
  {
    var i :| 0 <= i < |a| && Names(a[i], p, g);
    assert b[i] == a[i];
  }

  lemma {:induction false} AllGateFindingsName(ordered: seq<Summary>, n: nat, mapped: seq<Finding>, i: nat,
      gate: string)
    requires i < n <= |ordered| && gate in ordered[i].required && !Passes(ordered[i], gate)
    ensures Named(mapped, ordered[i].profile, gate) ||
            Named(AllGateFindings(ordered, n, mapped), ordered[i].profile, gate)
  {
    hide Passes, Named;
    var s := ordered[n - 1];
    var front, own := AllGateFindings(ordered, n - 1, mapped), GateFindings(s, |s.required|, mapped);
    if i == n - 1 {
      assert s.required[..|s.required|] == s.required;
      GateFindingsName(s, |s.required|, mapped, gate);
      if Named(own, s.profile, gate) {
        NamedSuffix(front, own, s.profile, gate);
      }
    } else {
      AllGateFindingsName(ordered, n - 1, mapped, i, gate);
      if Named(front, ordered[i].profile, gate) {
        NamedExtends(front, front + own, ordered[i].profile, gate);
      }
    }
  }

  lemma {:induction false} NamedSuffix(a: seq<Finding>, b: seq<Finding>, p: Profile, g: string)
    requires Named(b, p, g)
    ensures Named(a + b, p, g)
  {
    var i :| 0 <= i < |b| && Names(b[i], p, g);
    assert (a + b)[|a| + i] == b[i];
  }

  /** Every required gate of every profile that did not pass is named by a finding of that profile,
      and every profile whose decision is not PASS has a finding. */
  lemma {:induction false} NothingIsLost(ids: seq<string>, ordered: seq<Summary>, claims: map<string, Evidence>, i: nat)
    requires i < |ordered|
    ensures forall g :: g in ordered[i].required && !Passes(ordered[i], g) ==>
            Named(Findings(ids, ordered, claims), ordered[i].profile, g)
    ensures ordered[i].decision != "PASS" ==> Explained(Findings(ids, ordered, claims), ordered[i].profile)
  {
    hide Passes, Named, Explained;
    var mapped := RequirementFindings(ids, |ids|, claims);
    var gated := AllGateFindings(ordered, |ordered|, mapped);
    WithDecisionsExtends(ordered, |ordered|, mapped + gated);
    forall g | g in ordered[i].required && !Passes(ordered[i], g)
      ensures Named(Findings(ids, ordered, claims), ordered[i].profile, g)
    {
      AllGateFindingsName(ordered, |ordered|, mapped, i, g);
      if Named(mapped, ordered[i].profile, g) {
        NamedExtends(mapped, mapped + gated, ordered[i].profile, g);
      } else {
        NamedSuffix(mapped, gated, ordered[i].profile, g);
      }
      NamedExtends(mapped + gated, Findings(ids, ordered, claims), ordered[i].profile, g);
    }
  }

  // ---------- What the verdict means ----------

  lemma {:induction false} NoGateFindings(ordered: seq<Summary>, n: nat, mapped: seq<Finding>)
    requires n <= |ordered|
    requires forall i :: 0 <= i < n ==> forall g :: g in ordered[i].required ==> Passes(ordered[i], g)
    ensures AllGateFindings(ordered, n, mapped) == []
  {
    hide Passes, Named;
    if n > 0 {
      NoGateFindings(ordered, n - 1, mapped);
      NoneOfSummary(ordered[n - 1], |ordered[n - 1].required|, mapped);
    }
  }

  lemma {:induction false} NoneOfSummary(s: Summary, n: nat, mapped: seq<Finding>)
    requires n <= |s.required| && forall g :: g in s.required ==> Passes(s, g)
    ensures GateFindings(s, n, mapped) == []
  {
    hide Passes, Named;
    if n > 0 {
      NoneOfSummary(s, n - 1, mapped);
    }
  }

  /** Every requirement verified, every required gate passed, every decision PASS. */
  predicate EvidenceClean(ids: seq<string>, ordered: seq<Summary>, claims: map<string, Evidence>) {
    && (forall i :: 0 <= i < |ids| ==> Verified(ids[i], claims))
    && (forall i :: 0 <= i < |ordered| ==> ordered[i].decision == "PASS")
    && forall i :: 0 <= i < |ordered| ==> forall g :: g in ordered[i].required ==> Passes(ordered[i], g)
  }

  /** There is no finding exactly when the evidence is clean. */
  lemma {:induction false} NoFindingExactly(ids: seq<string>, ordered: seq<Summary>, claims: map<string, Evidence>)
    ensures Findings(ids, ordered, claims) == [] <==> EvidenceClean(ids, ordered, claims)
  {
    hide Passes, Named, Verified, RequirementFinding;
    var mapped := RequirementFindings(ids, |ids|, claims);
    var gated := AllGateFindings(ordered, |ordered|, mapped);
    RequirementsConserved(ids, |ids|, claims);
    AllVerifiedExactly(ids, |ids|, claims);
    WithDecisionsExtends(ordered, |ordered|, mapped + gated);
    if EvidenceClean(ids, ordered, claims) {
      NoGateFindings(ordered, |ordered|, mapped);
    }
    if Findings(ids, ordered, claims) == [] {
      NoFindingMeansClean(ids, ordered, claims);
    }
  }

  lemma {:induction false} NoFindingMeansClean(ids: seq<string>, ordered: seq<Summary>, claims: map<string, Evidence>)
    requires Findings(ids, ordered, claims) == []
    ensures forall i :: 0 <= i < |ordered| ==> ordered[i].decision == "PASS"
    ensures forall i :: 0 <= i < |ordered| ==> forall g :: g in ordered[i].required ==> Passes(ordered[i], g)
  {
    hide Passes, Findings;
    forall i | 0 <= i < |ordered|
      ensures ordered[i].decision == "PASS" && forall g :: g in ordered[i].required ==> Passes(ordered[i], g)
    {
      NothingIsLost(ids, ordered, claims, i);
    }
  }

  lemma {:induction false} AllVerifiedExactly(ids: seq<string>, n: nat, claims: map<string, Evidence>)
    requires n <= |ids|
    ensures CountVerified(ids, n, claims) <= n
    ensures CountVerified(ids, n, claims) == n <==> forall i :: 0 <= i < n ==> Verified(ids[i], claims)
  {
    hide Verified;
    if n > 0 {
      AllVerifiedExactly(ids, n - 1, claims);
    }
  }

  /** The loop closed and completion was possible in every profile. */
  predicate LoopsClosed(ordered: seq<Summary>) {
    forall i :: 0 <= i < |ordered| ==> ordered[i].loopStatus == "CI_VERIFIED" && ordered[i].completionEligible
  }

  /** The project is clean exactly when its evidence is clean and every loop closed. With clean
      evidence and an open loop it waits for a governed repair although there is no finding to repair. */
  lemma {:induction false} VerdictExactly(ids: seq<string>, ordered: seq<Summary>, claims: map<string, Evidence>)
    ensures var a := AssessOrdered(ids, ordered, claims);
            && (a.status == Clean <==> EvidenceClean(ids, ordered, claims) && LoopsClosed(ordered))
            && (a.findings == [] && a.status == RepairRequired <==>
                EvidenceClean(ids, ordered, claims) && !LoopsClosed(ordered))
  {
    hide Passes, Verified, Findings;
    NoFindingExactly(ids, ordered, claims);
    AllVerifiedExactly(ids, |ids|, claims);
    CleanSummaries(ordered);
  }

  lemma {:induction false} CleanSummaries(ordered: seq<Summary>)
    ensures (forall s :: s in ordered ==> SummaryClean(s)) <==>
              && LoopsClosed(ordered)
              && (forall i :: 0 <= i < |ordered| ==> ordered[i].decision == "PASS")
              && forall i :: 0 <= i < |ordered| ==> forall g :: g in ordered[i].required ==> Passes(ordered[i], g)
  {
    hide Passes;
    if forall s :: s in ordered ==> SummaryClean(s) {
      forall i | 0 <= i < |ordered|
        ensures SummaryClean(ordered[i])
      {
        assert ordered[i] in ordered;
      }
    }
  }

  // ---------- The two other verdicts ----------

  /** An unverified requirement without current evidence, or with evidence that blames nothing. */
  predicate Unaccountable(id: string, claims: map<string, Evidence>) {
    !Verified(id, claims) &&
    (id !in claims || !claims[id].claim.Claim?
     || (claims[id].claim.blockedGates == [] && forall i :: 0 <= i < |claims[id].claim.gates| ==>
         claims[id].claim.gates[i].1 == "PASS"))
  }

  /** An unverified requirement that its environment holds up. */
  predicate HeldUp(id: string, claims: map<string, Evidence>) {
    !Verified(id, claims) && id in claims && claims[id].claim.Claim? && claims[id].claim.blockedGates != []
  }

  predicate OfDisposition(f: Finding, d: Disposition) {
    DispositionOf(f.kind) == d
  }

  ghost predicate Includes(findings: seq<Finding>, d: Disposition) {
    exists k :: 0 <= k < |findings| && OfDisposition(findings[k], d)
  }

  ghost predicate Only(findings: seq<Finding>, d: Disposition) {
    forall k :: 0 <= k < |findings| ==> OfDisposition(findings[k], d)
  }

  lemma {:induction false} SomeConcat(a: seq<Finding>, b: seq<Finding>, d: Disposition)
    ensures Includes(a + b, d) <==> Includes(a, d) || Includes(b, d)
    ensures Only(a + b, d) <==> Only(a, d) && Only(b, d)
  {
    hide OfDisposition;
    assert forall k :: 0 <= k < |a| ==> (a + b)[k] == a[k];
    assert forall k :: 0 <= k < |b| ==> (a + b)[|a| + k] == b[k];
  }

  lemma {:induction false} NoFailedGate(gates: seq<(string, string)>)
    ensures FailedGates(gates) == [] <==> forall i :: 0 <= i < |gates| ==> gates[i].1 == "PASS"
  {
    if gates != [] {
      NoFailedGate(gates[..|gates| - 1]);
      assert forall i :: 0 <= i < |gates| - 1 ==> gates[..|gates| - 1][i] == gates[i];
    }
  }

  lemma {:induction false} RequirementDisposition(id: string, claims: map<string, Evidence>)
    requires !Verified(id, claims)
    ensures OfDisposition(RequirementFinding(id, claims), ReplanRequired) <==> Unaccountable(id, claims)
    ensures OfDisposition(RequirementFinding(id, claims), RetryEnvironment) <==> HeldUp(id, claims)
  {
    if id in claims && claims[id].claim.Claim? {
      NoFailedGate(claims[id].claim.gates);
    }
  }

  lemma {:induction false} RequirementDispositions(ids: seq<string>, n: nat, claims: map<string, Evidence>)
    requires n <= |ids|
    ensures Includes(RequirementFindings(ids, n, claims), ReplanRequired) <==>
            exists i :: 0 <= i < n && Unaccountable(ids[i], claims)
    ensures Only(RequirementFindings(ids, n, claims), RetryEnvironment) <==>
              forall i :: 0 <= i < n ==> Verified(ids[i], claims) || HeldUp(ids[i], claims)
  {
    hide OfDisposition, RequirementFinding, Verified, Unaccountable, HeldUp;
    if n > 0 {
      RequirementDispositions(ids, n - 1, claims);
      UnaccountableIsUnverified(ids[n - 1], claims);
      if !Verified(ids[n - 1], claims) {
        var f := RequirementFinding(ids[n - 1], claims);
        RequirementDisposition(ids[n - 1], claims);
        SomeConcat(RequirementFindings(ids, n - 1, claims), [f], ReplanRequired);
        SomeConcat(RequirementFindings(ids, n - 1, claims), [f], RetryEnvironment);
        assert [f][0] == f;
      }
    }
  }

  lemma {:induction false} UnaccountableIsUnverified(id: string, claims: map<string, Evidence>)
    ensures Unaccountable(id, claims) || HeldUp(id, claims) ==> !Verified(id, claims)
  {
  }

  /** A required gate that did not pass, that no requirement finding names, and that no environment
      excuses. */
  predicate Broken(s: Summary, gate: string, mapped: seq<Finding>) {
    !Passes(s, gate) && !Named(mapped, s.profile, gate) && !EnvironmentBlocked(s, gate)
  }

  lemma {:induction false} GateDispositions(s: Summary, n: nat, mapped: seq<Finding>)
    requires n <= |s.required|
    ensures !Includes(GateFindings(s, n, mapped), ReplanRequired)
    ensures Only(GateFindings(s, n, mapped), RetryEnvironment) <==>
            forall i :: 0 <= i < n ==> !Broken(s, s.required[i], mapped)
  {
    hide Passes, Named, EnvironmentBlocked;
    if n > 0 {
      GateDispositions(s, n - 1, mapped);
      var gate := s.required[n - 1];
      var f := GateFinding(s, gate);
      SomeConcat(GateFindings(s, n - 1, mapped), [f], ReplanRequired);
      SomeConcat(GateFindings(s, n - 1, mapped), [f], RetryEnvironment);
      assert [f][0] == f;
    }
  }

  ghost predicate NoneBroken(s: Summary, mapped: seq<Finding>) {
    forall i :: 0 <= i < |s.required| ==> !Broken(s, s.required[i], mapped)
  }

  lemma {:induction false} AllGateDispositions(ordered: seq<Summary>, n: nat, mapped: seq<Finding>)
    requires n <= |ordered|
    ensures !Includes(AllGateFindings(ordered, n, mapped), ReplanRequired)
    ensures Only(AllGateFindings(ordered, n, mapped), RetryEnvironment) <==>
            forall i :: 0 <= i < n ==> NoneBroken(ordered[i], mapped)
  {
    hide Broken;
    if n > 0 {
      AllGateDispositions(ordered, n - 1, mapped);
      var s := ordered[n - 1];
      GateDispositions(s, |s.required|, mapped);
      var front, own := AllGateFindings(ordered, n - 1, mapped), GateFindings(s, |s.required|, mapped);
      SomeConcat(front, own, ReplanRequired);
      SomeConcat(front, own, RetryEnvironment);
    }
  }

  /** A failed decision of a profile that no requirement or gate finding explains. */
  predicate Unexplained(s: Summary, findings: seq<Finding>) {
    s.decision != "PASS" && !Explained(findings, s.profile)
  }

  lemma {:induction false} DecisionDispositions(ordered: seq<Summary>, n: nat, findings: seq<Finding>)
    requires n <= |ordered|
    ensures var all := WithDecisions(ordered, n, findings);
            && (forall k :: |findings| <= k < |all| ==> all[k].kind == QualityDecisionFailed)
            && findings <= all
            && (|all| > |findings| <==> exists i :: 0 <= i < n && Unexplained(ordered[i], findings))
  {
    if n > 0 {
      DecisionDispositions(ordered, n - 1, findings);
      var front, s := WithDecisions(ordered, n - 1, findings), ordered[n - 1];
      if Explained(findings, s.profile) {
        var k :| 0 <= k < |findings| && findings[k].profile == Some(s.profile);
        assert front[k] == findings[k];
      }
      if |front| == |findings| {
        assert front == findings;
      }
    }
  }

  /** The assessment asks for a new plan exactly when a requirement is unaccountable or a failed
      decision unexplained; it waits for the environment exactly when something is open and the
      environment excuses all of it. */
  lemma {:induction false} OpenVerdictsExactly(ids: seq<string>, ordered: seq<Summary>, claims: map<string, Evidence>)
    ensures var a := AssessOrdered(ids, ordered, claims);
            var mapped := RequirementFindings(ids, |ids|, claims);
            var explained := mapped + AllGateFindings(ordered, |ordered|, mapped);
            && (a.status == Replan <==>
                  || (exists i :: 0 <= i < |ids| && Unaccountable(ids[i], claims))
                  || exists i :: 0 <= i < |ordered| && Unexplained(ordered[i], explained))
            && (a.status == EnvironmentHold <==>
                  && !EvidenceClean(ids, ordered, claims)
                  && (forall i :: 0 <= i < |ids| ==> Verified(ids[i], claims) || HeldUp(ids[i], claims))
                  && (forall i :: 0 <= i < |ordered| ==> NoneBroken(ordered[i], mapped))
                  && forall i :: 0 <= i < |ordered| ==> !Unexplained(ordered[i], explained))
  {
    hide Verified, Unaccountable, HeldUp, NoneBroken, Unexplained, EvidenceClean, RequirementFindings, AllGateFindings,
      SummaryClean;
    var mapped := RequirementFindings(ids, |ids|, claims);
    var gated := AllGateFindings(ordered, |ordered|, mapped);
    var all := Findings(ids, ordered, claims);
    NoFindingExactly(ids, ordered, claims);
    RequirementDispositions(ids, |ids|, claims);
    AllGateDispositions(ordered, |ordered|, mapped);
    SomeConcat(mapped, gated, ReplanRequired);
    SomeConcat(mapped, gated, RetryEnvironment);
    DecisionDispositions(ordered, |ordered|, mapped + gated);
    TailDispositions(mapped + gated, all);
    MembersByIndex(all);
  }

  lemma {:induction false} TailDispositions(explained: seq<Finding>, all: seq<Finding>)
    requires explained <= all && forall k :: |explained| <= k < |all| ==> all[k].kind == QualityDecisionFailed
    ensures Includes(all, ReplanRequired) <==> Includes(explained, ReplanRequired) || |all| > |explained|
    ensures Only(all, RetryEnvironment) <==> Only(explained, RetryEnvironment) && |all| == |explained|
  {
    assert forall k :: 0 <= k < |explained| ==> all[k] == explained[k];
    if |all| > |explained| {
      assert OfDisposition(all[|explained|], ReplanRequired) && !OfDisposition(all[|explained|], RetryEnvironment);
    }
  }

  lemma {:induction false} MembersByIndex(findings: seq<Finding>)
    ensures (exists f :: f in findings && DispositionOf(f.kind) == ReplanRequired) <==>
            Includes(findings, ReplanRequired)
    ensures (forall f :: f in findings ==> DispositionOf(f.kind) == RetryEnvironment) <==>
            Only(findings, RetryEnvironment)
  {
    if Only(findings, RetryEnvironment) {
      forall f | f in findings
        ensures DispositionOf(f.kind) == RetryEnvironment
      {
        var k :| 0 <= k < |findings| && findings[k] == f;
        assert OfDisposition(findings[k], RetryEnvironment);
      }
    }
    if forall f :: f in findings ==> DispositionOf(f.kind) == RetryEnvironment {
      assert forall k :: 0 <= k < |findings| ==> findings[k] in findings;
    }
  }

  /** The order in which the summaries are supplied is immaterial. */
  lemma {:induction false} SupplyOrderIsImmaterial(
    a: seq<Summary>, b: seq<Summary>, orderedA: seq<Summary>, orderedB: seq<Summary>, ids: seq<string>,
    claims: map<string, Evidence>, target: Profile, expectedRef: string, catalog: string)
    requires !target.Other? && multiset(a) == multiset(b)
    ensures Admissible(a, target, expectedRef, catalog) <==> Admissible(b, target, expectedRef, catalog)
    ensures Admissible(a, target, expectedRef, catalog) && InChainOrder(orderedA, a, Chain(target))
            && InChainOrder(orderedB, b, Chain(target)) ==>
              && Claims(orderedA, set id | id in ids) == Claims(orderedB, set id | id in ids)
              && AssessOrdered(ids, orderedA, claims) == AssessOrdered(ids, orderedB, claims)
  {
    hide Admissible, InChainOrder, Claims, AssessOrdered;
    if Admissible(a, target, expectedRef, catalog) {
      AdmissiblePermuted(a, b, target, expectedRef, catalog);
      if InChainOrder(orderedA, a, Chain(target)) && InChainOrder(orderedB, b, Chain(target)) {
        ChainOrderIsUnique(a, b, orderedA, orderedB, target, expectedRef, catalog);
      }
    }
    if Admissible(b, target, expectedRef, catalog) {
      AdmissiblePermuted(b, a, target, expectedRef, catalog);
    }
  }

  /** A passing Quick summary with one verified requirement, whatever its loop came to. */
  function PassingSummary(expectedRef: string, catalog: string, loopStatus: string): Summary {
    Summary(Quick, MIN_SUMMARY_SCHEMA_VERSION, "verification", catalog, expectedRef, ["g"],
            [GateResult("g", "PASS", false)],
            [Claim("R", "VERIFIED", [("g", "PASS")], [])], "PASS", loopStatus, true, "workspace", "fingerprint")
  }

  /** If that loop is not `CI_VERIFIED`, say `CONVERGED` as a local one is, the summary is admitted, its
      claim collected and verified, and the project waits for a repair with nothing to repair. */
  lemma {:induction false} WaitsWithoutFinding(expectedRef: string, catalog: string, loopStatus: string)
    requires expectedRef != "" && loopStatus != "CI_VERIFIED"
    ensures var s := PassingSummary(expectedRef, catalog, loopStatus);
            && Admissible([s], Quick, expectedRef, catalog) && InChainOrder([s], [s], Chain(Quick))
            && Claims([s], {"R"}).Some?
            && var a := AssessOrdered(["R"], [s], Claims([s], {"R"}).value);
               a.status == RepairRequired && a.findings == [] && a.verified == 1
  {
    hide Findings, StatusOf, Verified, Passes, Admissible, Claims, LoopsClosed, EvidenceClean;
    var s := PassingSummary(expectedRef, catalog, loopStatus);
    PassingIsAdmissible(expectedRef, catalog, loopStatus);
    PassingClaim(expectedRef, catalog, loopStatus);
    var claims := Claims([s], {"R"}).value;
    PassingIsClean(expectedRef, catalog, loopStatus, claims);
    VerdictExactly(["R"], [s], claims);
    assert CountVerified(["R"], 0, claims) == 0 && ["R"][1 - 1] == "R";
  }

  lemma {:induction false} PassingIsAdmissible(expectedRef: string, catalog: string, loopStatus: string)
    requires expectedRef != ""
    ensures var s := PassingSummary(expectedRef, catalog, loopStatus);
            Admissible([s], Quick, expectedRef, catalog) && InChainOrder([s], [s], Chain(Quick))
  {
    var s := PassingSummary(expectedRef, catalog, loopStatus);
    assert s in [s] && s.profile == Quick;
    assert ValidSummary(s, expectedRef, catalog);
  }

  lemma {:induction false} PassingClaim(expectedRef: string, catalog: string, loopStatus: string)
    ensures var s := PassingSummary(expectedRef, catalog, loopStatus);
            Claims([s], {"R"}) == Some(map["R" := Evidence(Quick, s.claims[0])])
  {
    hide Trim;
    var s := PassingSummary(expectedRef, catalog, loopStatus);
    var none: map<string, Evidence> := map[];
    TrimFixed("R");
    assert ClaimId(s.claims[0]) == "R" && !Repeated(s.claims, 0);
    assert AddClaims(s, 0, {"R"}, none) == Some(none);
    assert AddClaims(s, 1, {"R"}, none) == Some(none["R" := Evidence(Quick, s.claims[0])]);
    assert CollectFirst([s], 0, {"R"}) == Some(none);
    assert [s][1 - 1] == s;
  }

  lemma {:induction false} PassingIsClean(
    expectedRef: string, catalog: string, loopStatus: string, claims: map<string, Evidence>)
    requires var s := PassingSummary(expectedRef, catalog, loopStatus);
             claims == map["R" := Evidence(Quick, s.claims[0])]
    requires loopStatus != "CI_VERIFIED"
    ensures var s := PassingSummary(expectedRef, catalog, loopStatus);
            && EvidenceClean(["R"], [s], claims) && !LoopsClosed([s]) && Verified("R", claims)
  {
    hide Trim;
    var s := PassingSummary(expectedRef, catalog, loopStatus);
    TrimFixed("g");
    assert s.results[1 - 1].id == "g";
    assert GateStatus(s.results, "g") == Some("PASS");
    assert [s][0].loopStatus == loopStatus;
  }
}
