/** The failure case a repair round hands to the next one: how the outer loop emits it
    (scripts/github_repair_loop_controller.py), how the next round's compiler takes it
    (scripts/github_repair_orchestrator_control_plane.py), and the source authority in between
    (scripts/github_stage2_handoff.py). */
module FeedbackScope {
  import opened Wrappers
  import opened RepoPath
  import opened FailureRecords
  import opened ScopeCompiler
  import PathPolicy
  import FixerPaths
  import RepairLoop
  import WriteAuthority

  type Domain = PathPolicy.RepairDomain

  datatype FeedbackError =
    | DomainRefused
    | ScopeMalformed
    | FeedbackExpanded
    | ControlScopeChanged
    | ControlPathUnbounded
    | FeedbackEmpty
    | DigestPathsInvalid
    | HandoffPathInvalid
    | HandoffPathsMissing

  // ---------- The outer loop's normalizer ----------

  /** Empty for a path the loop refuses. */
  function LoopPath(raw: string): string {
    var v := PathPolicy.NormalizedText(raw);
    if v == "" || IsAbsolute(v) || ".." in Parts(v) then "" else AsPosix(v)
  }

  function LoopPaths(items: seq<string>): (paths: seq<string>)
    ensures |paths| == |items| && forall i :: 0 <= i < |items| ==> paths[i] == LoopPath(items[i])
  {
    seq(|items|, i requires 0 <= i < |items| => LoopPath(items[i]))
  }

  predicate Valid(paths: seq<string>) {
    "" !in paths && Distinct(paths)
  }

  predicate ControlPath(path: string) {
    "scripts/verify_engineering_" <= path && PathPolicy.EndsWith(path, ".py")
  }

  function OriginalDomain(original: FailureCase): Result<Domain, FeedbackError> {
    var classification, supplied := original.classification, original.suppliedDomain.name;
    if classification == CodeOrContract then
      :- Need(supplied == NoDomain || supplied == ProductCode, DomainRefused);
      Success(PathPolicy.Product)
    else
      :- Need(classification == ControlPlaneImplementation && supplied == ControlPlaneDomain, DomainRefused);
      :- Need(!original.route.NotAMapping?, DomainRefused);
      :- Need(original.route.Route? ==> RouteBounded(original.route), DomainRefused);
      var candidates := LoopPaths(original.candidatePaths);
      :- Need(candidates != [] && Valid(candidates) && forall p :: p in candidates ==> ControlPath(p), DomainRefused);
      :- Need(original.route.Route? ==> LoopPaths(original.route.allowedPaths) == candidates, DomainRefused);
      Success(PathPolicy.ControlPlane)
  }

  predicate RouteBounded(route: Route)
    requires route.Route?
  {
    && route.repairClass == ControlPlaneRepairable
    && route.repairDomain == ControlPlaneDomain
    && WriteAuthority.Flagged(route.flags, AutomaticWrite, true)
    && WriteAuthority.Flagged(route.flags, TestWrite, false)
    && WriteAuthority.Flagged(route.flags, AcceptanceWrite, false)
    && WriteAuthority.Flagged(route.flags, ExpandScope, false)
  }

  /** The digest normalizes what it is given once more. */
  function PathsDigest(paths: seq<string>): Result<Digest, FeedbackError> {
    var normalized := LoopPaths(paths);
    :- Need(Valid(normalized) && paths != [], DigestPathsInvalid);
    Success(OfPaths(normalized))
  }

  /** The gate a fed-back failure is said to have failed. */
  function FeedbackGate(domain: Domain): string {
    if domain == PathPolicy.ControlPlane then "skill-control-plane" else "governed-stage3-targeted"
  }

  function LoopClassOf(domain: Domain): LoopClass {
    if domain == PathPolicy.ControlPlane then ControlPlaneFailure else ProductSourceFailure
  }

  function FieldOf(domain: Domain): DomainField {
    DomainField(WriteAuthority.NameOf(domain), "")
  }

  function FeedbackOf(domain: Domain, round: int, digest: Digest, rest: string): Feedback {
    Feedback(FeedbackSchema, round, round + 1, LoopClassOf(domain), FieldOf(domain), digest, Some(false), rest)
  }

  function SafeFeedback(original: FailureCase, repairPaths: seq<string>, round: int, rest: string)
    : Result<FailureCase, FeedbackError>
  {
    var domain :- OriginalDomain(original);
    var routed := LoopPaths(repairPaths);
    :- Need(Valid(routed), ScopeMalformed);
    var originals := LoopPaths(original.candidatePaths);
    :- Need(forall p :: p in routed ==> p in originals, FeedbackExpanded);
    :- Need(domain == PathPolicy.ControlPlane ==> routed == originals, ControlScopeChanged);
    :- Need(domain == PathPolicy.ControlPlane ==> forall p :: p in routed ==> ControlPath(p), ControlPathUnbounded);
    :- Need(routed != [], FeedbackEmpty);
    var digest :- PathsDigest(routed);
    Success(original.(
      classification := if domain == PathPolicy.ControlPlane then ControlPlaneImplementation else CodeOrContract,
      suppliedDomain := FieldOf(domain), candidatePaths := routed,
      failedGates := Some([GateRow(FeedbackGate(domain))]),
      feedback := Some(FeedbackOf(domain, round, digest, rest)), rest := rest))
  }

  predicate VerifierPath(p: string) {
    "scripts/verify_engineering_" <= p && |p| >= 3 && p[|p| - 3..] == ".py"
  }

  /** The route lets the control-plane verifiers be written, and nothing beyond. */
  predicate RouteWritesVerifiers(route: Route) {
    && route.Route? && route.repairClass == ControlPlaneRepairable && route.repairDomain == ControlPlaneDomain
    && AutomaticWrite in route.flags && route.flags[AutomaticWrite]
    && TestWrite in route.flags && !route.flags[TestWrite]
    && AcceptanceWrite in route.flags && !route.flags[AcceptanceWrite]
    && ExpandScope in route.flags && !route.flags[ExpandScope]
  }

  /** The original authority is a product's or the control plane's exactly so: the latter names distinct
      engineering verifiers, and its route, if there is one, names the same and lets write nothing else. */
  lemma {:induction false} OriginalDomainExactly(original: FailureCase)
    ensures OriginalDomain(original) == Success(PathPolicy.Product) <==>
              original.classification == CodeOrContract && original.suppliedDomain.name in {NoDomain, ProductCode}
    ensures OriginalDomain(original) == Success(PathPolicy.ControlPlane) <==>
              && original.classification == ControlPlaneImplementation
              && original.suppliedDomain.name == ControlPlaneDomain
              && var candidates := LoopPaths(original.candidatePaths);
                 && candidates != [] && "" !in candidates && Distinct(candidates)
                 && (forall p :: p in candidates ==> VerifierPath(p))
                 && (original.route == NoRoute
                     || (RouteWritesVerifiers(original.route) && LoopPaths(original.route.allowedPaths) == candidates))
  {
    hide LoopPaths, Distinct, ControlPath, VerifierPath, RouteBounded, RouteWritesVerifiers;
    forall p
      ensures ControlPath(p) <==> VerifierPath(p)
    {
      VerifierPathExactly(p);
    }
    if original.route.Route? {
      RouteBoundedExactly(original.route);
    } else {
      NoRouteWrites(original.route);
    }
  }

  lemma {:induction false} VerifierPathExactly(p: string)
    ensures ControlPath(p) <==> VerifierPath(p)
  {
  }

  lemma {:induction false} RouteBoundedExactly(route: Route)
    requires route.Route?
    ensures RouteBounded(route) <==> RouteWritesVerifiers(route)
  {
  }

  lemma {:induction false} NoRouteWrites(route: Route)
    requires !route.Route?
    ensures !RouteWritesVerifiers(route)
  {
  }

  /** A repair is fed back exactly when its paths are distinct forms of the original candidates, all of them
      in the control-plane domain, and stay so when normalized once more. */
  lemma {:induction false} EmittedExactly(original: FailureCase, repairPaths: seq<string>, round: int, rest: string)
    ensures SafeFeedback(original, repairPaths, round, rest).Success? <==>
              && OriginalDomain(original).Success?
              && var routed, originals := LoopPaths(repairPaths), LoopPaths(original.candidatePaths);
                 && routed != [] && "" !in routed && Distinct(routed) && (forall p :: p in routed ==> p in originals)
                 && "" !in LoopPaths(routed) && Distinct(LoopPaths(routed))
                 && (OriginalDomain(original) == Success(PathPolicy.ControlPlane) ==> routed == originals)
    ensures SafeFeedback(original, repairPaths, round, rest).Success? ==>
              var f := SafeFeedback(original, repairPaths, round, rest).value;
              && f.candidatePaths == LoopPaths(repairPaths) && f.feedback.Some?
              && f.feedback.value.schema == FeedbackSchema && f.feedback.value.repairRound == round
              && f.feedback.value.nextRepairRound == round + 1 && f.feedback.value.scopeExpanded == Some(false)
              && f.binding == original.binding && f.route == original.route
  {
    hide LoopPath, Distinct;
    if OriginalDomain(original) == Success(PathPolicy.ControlPlane) {
      ControlCandidates(original);
    }
    hide OriginalDomain;
  }

  // ---------- The round trip ----------

  /** The text the receiver sees is its own POSIX form. */
  predicate OwnForm(path: string) {
    AsPosix(PathPolicy.NormalizedText(path)) == PathPolicy.NormalizedText(path)
  }

  lemma {:induction false} OwnFormExactly(path: string)
    requires LoopPath(path) != ""
    ensures OwnForm(path) <==> LoopPath(path) == PathPolicy.NormalizedText(path)
  {
  }

  lemma {:induction false} EmittedPaths(original: FailureCase, repairPaths: seq<string>, round: int, rest: string)
    requires SafeFeedback(original, repairPaths, round, rest).Success?
    ensures OriginalDomain(original).Success?
    ensures var feedback, domain := SafeFeedback(original, repairPaths, round, rest).value,
            OriginalDomain(original).value;
            && feedback.candidatePaths == LoopPaths(repairPaths)
            && feedback.candidatePaths != [] && Valid(feedback.candidatePaths)
            && Valid(LoopPaths(feedback.candidatePaths))
            && feedback.feedback == Some(FeedbackOf(domain, round, OfPaths(LoopPaths(feedback.candidatePaths)), rest))
            && feedback.suppliedDomain == FieldOf(domain)
            && (domain == PathPolicy.ControlPlane ==> feedback.classification == ControlPlaneImplementation)
            && feedback.failedGates == Some([GateRow(FeedbackGate(domain))])
            && feedback.schema == original.schema && feedback.changedFiles == original.changedFiles
            && (forall p :: p in feedback.candidatePaths ==> p in LoopPaths(original.candidatePaths))
            && (domain == PathPolicy.ControlPlane ==>
                  && feedback.candidatePaths == LoopPaths(original.candidatePaths)
                  && forall p :: p in feedback.candidatePaths ==> ControlPath(p))
  {
    hide OriginalDomain, Valid, LoopPaths, ControlPath;
  }

  lemma {:induction false} ExpectedClassOfDomain(domain: Domain)
    ensures ExpectedClass(FieldOf(domain)) == Some(LoopClassOf(domain))
  {
  }

  /** What the outer loop emits, the next round accepts exactly when every emitted path, as the
      receiver normalizes it, is its own POSIX form. */
  lemma {:induction false} FeedbackAcceptedExactly(original: FailureCase, repairPaths: seq<string>, round: int,
      rest: string)
    requires SafeFeedback(original, repairPaths, round, rest).Success?
    ensures var feedback := SafeFeedback(original, repairPaths, round, rest).value;
            NormalizeFailureCase(feedback).Success? <==>
              && original.schema == IngestSchema && round >= 1
              && forall p :: p in feedback.candidatePaths ==> OwnForm(p)
  {
    hide SafeFeedback, OriginalDomain, LoopPaths, Mapped, OwnForm, DistinctPaths, NormalizeFailureCase,
      ValidateLoopBinding, FieldOf, FeedbackGate, FeedbackOf, ControlPath, Distinct;
    EmittedPaths(original, repairPaths, round, rest);
    var feedback, domain := SafeFeedback(original, repairPaths, round, rest).value, OriginalDomain(original).value;
    BindingDecides(feedback);
    BindingPassesExactly(feedback, domain, round, LoopPaths(feedback.candidatePaths), rest);
    DistinctPathsExactly(feedback.candidatePaths);
    SameListsExactly(feedback.candidatePaths);
  }

  lemma {:induction false} BindingPassesExactly(failureCase: FailureCase, domain: Domain, round: int,
      paths: seq<string>, rest: string)
    requires failureCase.feedback == Some(FeedbackOf(domain, round, OfPaths(paths), rest))
    requires failureCase.suppliedDomain == FieldOf(domain) && failureCase.candidatePaths != []
    ensures var mapped, candidates := Mapped(failureCase.candidatePaths), DistinctPaths(failureCase.candidatePaths);
            ValidateLoopBinding(failureCase, candidates) == Granted <==>
              round >= 1 && "" !in mapped && Distinct(mapped) && mapped == candidates && candidates == paths
  {
    hide ExpectedClass, Mapped, DistinctPaths, Distinct;
    ExpectedClassOfDomain(domain);
  }

  lemma {:induction false} BindingDecides(failureCase: FailureCase)
    ensures NormalizeFailureCase(failureCase).Success? <==>
              && failureCase.schema == IngestSchema
              && ValidateLoopBinding(failureCase, DistinctPaths(failureCase.candidatePaths)) == Granted
  {
    hide ValidateLoopBinding, DistinctPaths, EvidencePaths;
  }

  lemma {:induction false} SameListsExactly(paths: seq<string>)
    requires Valid(LoopPaths(paths))
    ensures Mapped(paths) == LoopPaths(paths) <==> forall p :: p in paths ==> OwnForm(p)
  {
    hide LoopPath, PathPolicy.NormalizedText, OwnForm;
    forall i | 0 <= i < |paths|
      ensures OwnForm(paths[i]) <==> LoopPaths(paths)[i] == Mapped(paths)[i]
    {
      assert LoopPaths(paths)[i] in LoopPaths(paths);
      OwnFormExactly(paths[i]);
    }
    if forall p :: p in paths ==> OwnForm(p) {
      assert LoopPaths(paths) == Mapped(paths);
    }
  }

  /** An accepted feedback stays accepted under no other list of candidate paths: altering, adding,
      dropping or reordering one is refused. */
  lemma {:induction false} FeedbackBindsPaths(feedback: FailureCase, others: seq<string>)
    requires feedback.feedback.Some? && NormalizeFailureCase(feedback).Success?
    requires Mapped(others) != Mapped(feedback.candidatePaths)
    ensures NormalizeFailureCase(feedback.(candidatePaths := others)).Failure?
  {
    hide Mapped, EvidencePaths, DistinctPaths, ExpectedClass, Distinct;
  }

  // ---------- Paths the round trip keeps ----------

  lemma {:induction false} SplitFirst(s: string)
    ensures s == "" ==> Split(s) == [""]
    ensures s == "." ==> Split(s) == ["."]
    ensures IsAbsolute(s) ==> Split(s)[0] == ""
    ensures StartsDotSlash(s) ==> Split(s)[0] == "."
  {
    if s == "." {
      SplitPlain(s);
    }
    if StartsDotSlash(s) {
      assert s == "." + "/" + s[2..];
      SplitAtSlash(".", s[2..]);
    }
  }

  lemma {:induction false} JoinFirst(parts: seq<string>)
    requires parts != [] && SlashFree(parts) && forall c :: c in parts ==> c != "" && c != "."
    ensures Join(parts) != "" && !StartsDotSlash(Join(parts)) && Parts(Join(parts)) == parts
    ensures Join(parts) != "." && !IsAbsolute(Join(parts))
  {
    SplitJoin(parts);
    assert forall i :: 0 <= i < |parts| ==> parts[i] in parts;
    KeptAll(parts);
    SplitFirst(Join(parts));
  }

  lemma {:induction false} KeptParts(s: string)
    ensures SlashFree(Parts(s)) && forall c :: c in Parts(s) ==> c != "" && c != "."
  {
    SplitSlashFree(s);
    KeptSlashFree(Split(s));
    AllKept(Split(s));
  }

  lemma {:induction false} SplitChars(s: string, c: string)
    requires c in Split(s)
    ensures forall x :: x in c ==> x in s
  {
    if s != [] {
      var rest := Split(s[1..]);
      assert forall x :: x in s[1..] ==> x in s;
      if c in rest {
        SplitChars(s[1..], c);
      } else if s[0] != '/' && c == [s[0]] + rest[0] {
        SplitChars(s[1..], rest[0]);
      }
    }
  }

  lemma {:induction false} JoinChars(parts: seq<string>, x: char)
    requires x in Join(parts)
    ensures x == '/' || exists c :: c in parts && x in c
  {
    if |parts| > 1 && x in Join(parts[1..]) {
      JoinChars(parts[1..], x);
      if x != '/' {
        var c :| c in parts[1..] && x in c;
        assert c in parts;
      }
    }
  }

  /** The POSIX form of a text brings in nothing but separators and a dot. */
  lemma {:induction false} PosixChars(v: string)
    requires v != ""
    ensures forall x :: x in AsPosix(v) ==> x in v || x == '/' || x == '.'
  {
    forall x | x in AsPosix(v)
      ensures x in v || x == '/' || x == '.'
    {
      if Parts(v) != [] {
        JoinChars(Parts(v), x);
        if x != '/' {
          var c :| c in Parts(v) && x in c;
          KeptMembers(Split(v), c);
          SplitChars(v, c);
        }
      }
    }
  }

  lemma {:induction false} NormalizedTextChars(raw: string)
    ensures '\\' !in PathPolicy.NormalizedText(raw)
  {
    SlashesFixed(Trim(raw));
    DropDotSlashFacts(Slashes(Trim(raw)));
  }

  lemma {:induction false} PosixIsFixed(v: string)
    ensures AsPosix(v) != "" && !StartsDotSlash(AsPosix(v)) && AsPosix(AsPosix(v)) == AsPosix(v)
            && !IsAbsolute(AsPosix(v))
    ensures ".." !in Parts(v) ==> ".." !in Parts(AsPosix(v))
  {
    KeptParts(v);
    if Parts(v) == [] {
      SplitPlain(".");
      assert Kept(["."][1..]) == [];
      assert Parts(".") == [];
    } else {
      JoinFirst(Parts(v));
    }
  }

  /** An emitted path without whitespace at its ends is a fixed point of every normalizer on the way. */
  lemma {:induction false} TrimmedIsStable(raw: string)
    requires LoopPath(raw) != "" && Trimmed(LoopPath(raw))
    ensures var p := LoopPath(raw);
            PathPolicy.NormalizedText(p) == p && LoopPath(p) == p && OwnForm(p) && Slashes(Trim(p)) == p
              && ".." !in Parts(p) && !IsAbsolute(p)
  {
    hide Parts;
    var v := PathPolicy.NormalizedText(raw);
    var p := LoopPath(raw);
    NormalizedTextChars(raw);
    PosixChars(v);
    PosixIsFixed(v);
    assert '\\' !in p;
    TrimFixed(p);
    SlashesFixed(p);
    DropDotSlashFacts(p);
  }

  predicate SpaceFree(s: string) {
    forall x :: x in s ==> !IsSpace(x)
  }

  lemma {:induction false} SpaceFreeIsTrimmed(raw: string)
    requires SpaceFree(raw) && LoopPath(raw) != ""
    ensures Trimmed(LoopPath(raw))
  {
    assert !IsSpace('/') && !IsSpace('.');
    hide IsSpace, Parts, AsPosix;
    var v := PathPolicy.NormalizedText(raw);
    assert Trimmed(raw) by {
      assert raw != "" ==> raw[0] in raw && raw[|raw| - 1] in raw;
    }
    TrimFixed(raw);
    DropDotSlashFacts(Slashes(raw));
    PosixChars(v);
    var p := LoopPath(raw);
    forall x | x in p
      ensures !IsSpace(x)
    {
      if x in v {
        assert x in Slashes(raw);
        var i :| 0 <= i < |raw| && Slashes(raw)[i] == x;
        assert raw[i] in raw;
      }
    }
    assert p[0] in p && p[|p| - 1] in p;
  }

  /** For repair paths without whitespace the round trip always succeeds. */
  lemma {:induction false} SpaceFreeFeedbackIsAccepted(original: FailureCase, repairPaths: seq<string>, round: int,
      rest: string)
    requires SafeFeedback(original, repairPaths, round, rest).Success?
    requires original.schema == IngestSchema && round >= 1
    requires forall p :: p in repairPaths ==> SpaceFree(p)
    ensures NormalizeFailureCase(SafeFeedback(original, repairPaths, round, rest).value).Success?
  {
    hide SafeFeedback, NormalizeFailureCase, LoopPath, SpaceFree, OwnForm, Trimmed;
    EmittedPaths(original, repairPaths, round, rest);
    FeedbackAcceptedExactly(original, repairPaths, round, rest);
    var paths := SafeFeedback(original, repairPaths, round, rest).value.candidatePaths;
    forall p | p in paths
      ensures OwnForm(p)
    {
      var i :| 0 <= i < |paths| && paths[i] == p;
      SpaceFreeIsTrimmed(repairPaths[i]);
      TrimmedIsStable(repairPaths[i]);
    }
  }

  // ---------- What the router dispatches ----------

  function LoopDomain(domain: Domain): RepairLoop.Domain {
    match domain
    case Product => RepairLoop.ProductCode
    case ControlPlane => RepairLoop.ControlPlane
  }

  function NonEmpty(paths: seq<string>): (r: seq<string>)
    ensures forall p :: p in r <==> p in paths && p != ""
  {
    if paths == [] then
      []
    else
      var n := |paths| - 1;
      if paths[n] == "" then NonEmpty(paths[..n]) else NonEmpty(paths[..n]) + [paths[n]]
  }

  lemma {:induction false} NonEmptyKeeps(paths: seq<string>)
    requires "" !in paths
    ensures NonEmpty(paths) == paths
  {
    if paths != [] {
      NonEmptyKeeps(paths[..|paths| - 1]);
    }
  }

  /** The authority the classifier works with. */
  function Authority(original: FailureCase): RepairLoop.Original
    requires OriginalDomain(original).Success?
  {
    RepairLoop.Original(LoopDomain(OriginalDomain(original).value), NonEmpty(LoopPaths(original.candidatePaths)))
  }

  /** The classifier finds paths by a pattern whose characters include no whitespace. */
  ghost predicate Scanned(scan: RepairLoop.Scan) {
    forall p :: p in scan.namedPaths ==> exists m :: SpaceFree(m) && LoopPath(m) == p
  }

  /** All that one routing of a verification depends on. */
  datatype Delivery = Delivery(
    targeted: RepairLoop.TargetedResult, quick: Option<RepairLoop.QuickSummary>, previous: Option<RepairLoop.LoopState>,
    meta: Option<RepairLoop.Meta>, verification: RepairLoop.Verification, rest: string)

  function Routed(d: Delivery, original: FailureCase): Result<RepairLoop.LoopState, RepairLoop.LoopError>
    requires OriginalDomain(original).Success?
  {
    RepairLoop.Route(d.previous, d.meta, Authority(original), d.verification)
  }

  /** The delivery is classified and routed under this failure case, and the router dispatches a repair. */
  ghost predicate Dispatched(d: Delivery, original: FailureCase) {
    && original.schema == IngestSchema && OriginalDomain(original).Success?
    && Scanned(d.targeted.scan) && (d.quick.Some? ==> Scanned(d.quick.value.scan))
    && d.verification.verdict == RepairLoop.ClassifyIndependent(d.targeted, d.quick, Authority(original))
    && Routed(d, original).Success? && Routed(d, original).value.action == RepairLoop.DispatchRepair
  }

  function RepairPaths(d: Delivery): seq<string> {
    d.verification.verdict.paths
  }

  /** The failure case such a dispatch hands on. */
  function Emitted(d: Delivery, original: FailureCase): Result<FailureCase, FeedbackError> {
    SafeFeedback(original, RepairPaths(d), RoundOf(d, original), d.rest)
  }

  function RoundOf(d: Delivery, original: FailureCase): nat {
    if OriginalDomain(original).Success? && Routed(d, original).Success? then Routed(d, original).value.round else 0
  }

  /** No normalizer on the way changes the path. */
  predicate Stable(p: string) {
    && p != "" && Trimmed(p) && LoopPath(p) == p && PathPolicy.NormalizedText(p) == p && OwnForm(p)
    && HandoffPath(p) == Some(p)
  }

  lemma {:induction false} FormIsStable(raw: string)
    requires LoopPath(raw) != "" && Trimmed(LoopPath(raw))
    ensures Stable(LoopPath(raw))
  {
    hide Parts, Trimmed, OwnForm, PathPolicy.NormalizedText, LoopPath;
    TrimmedIsStable(raw);
  }

  lemma {:induction false} NamedOnce(found: seq<string>, allowed: seq<string>)
    ensures Distinct(RepairLoop.Named(found, allowed))
  {
    if found != [] {
      NamedOnce(found[..|found| - 1], allowed);
    }
  }

  /** Repair paths are paths the scan named, each once, or the whole candidate list. */
  lemma {:induction false} ClassifiedPaths(
    targeted: RepairLoop.TargetedResult, quick: Option<RepairLoop.QuickSummary>, original: RepairLoop.Original)
    ensures var paths := RepairLoop.ClassifyIndependent(targeted, quick, original).paths;
            || paths == []
            || paths == RepairLoop.Named(targeted.scan.namedPaths, original.candidates)
            || (quick.Some? && paths == RepairLoop.Named(quick.value.scan.namedPaths, original.candidates))
            || (original.domain == RepairLoop.ControlPlane && paths == original.candidates)
  {
  }

  lemma {:induction false} ScannedAreStable(found: seq<string>, allowed: seq<string>)
    requires forall p :: p in found ==> exists m :: SpaceFree(m) && LoopPath(m) == p
    requires "" !in allowed
    ensures forall p :: p in RepairLoop.Named(found, allowed) ==> Stable(p) && p in allowed
    ensures Distinct(RepairLoop.Named(found, allowed))
  {
    hide SpaceFree, LoopPath, Stable, Trimmed;
    NamedOnce(found, allowed);
    forall p | p in RepairLoop.Named(found, allowed)
      ensures Stable(p)
    {
      var m :| SpaceFree(m) && LoopPath(m) == p;
      SpaceFreeIsTrimmed(m);
      FormIsStable(m);
    }
  }

  lemma {:induction false} ControlAuthority(original: FailureCase)
    requires OriginalDomain(original) == Success(PathPolicy.ControlPlane)
    ensures Authority(original).candidates == LoopPaths(original.candidatePaths)
    ensures Valid(LoopPaths(original.candidatePaths))
    ensures forall p :: p in LoopPaths(original.candidatePaths) ==> ControlPath(p) && Stable(p)
  {
    hide LoopPath, ControlPath, Stable, Trimmed;
    var paths := LoopPaths(original.candidatePaths);
    ControlCandidates(original);
    NonEmptyKeeps(paths);
    forall p | p in paths
      ensures Stable(p)
    {
      var i :| 0 <= i < |paths| && paths[i] == p;
      ControlPathIsTrimmed(p);
      FormIsStable(original.candidatePaths[i]);
    }
  }

  lemma {:induction false} ControlCandidates(original: FailureCase)
    requires OriginalDomain(original) == Success(PathPolicy.ControlPlane)
    ensures Valid(LoopPaths(original.candidatePaths))
    ensures forall p :: p in LoopPaths(original.candidatePaths) ==> ControlPath(p)
  {
    hide LoopPaths, ControlPath, Valid, RouteBounded;
  }

  lemma {:induction false} StableList(paths: seq<string>)
    requires forall p :: p in paths ==> Stable(p)
    ensures LoopPaths(paths) == paths && "" !in paths
  {
    hide LoopPath, Trimmed, OwnForm, PathPolicy.NormalizedText, HandoffPath;
    forall i | 0 <= i < |paths|
      ensures LoopPaths(paths)[i] == paths[i]
    {
      assert paths[i] in paths;
    }
  }

  /** What a dispatched verification names: stable candidates of the authority, each once; in the
      control-plane domain all of them in order. */
  lemma {:induction false} DispatchedPaths(d: Delivery, original: FailureCase)
    requires Dispatched(d, original)
    ensures var paths, originals := RepairPaths(d), LoopPaths(original.candidatePaths);
            && paths != [] && Distinct(paths) && (forall p :: p in paths ==> Stable(p) && p in originals)
            && (OriginalDomain(original).value == PathPolicy.ControlPlane ==>
                  paths == originals && forall p :: p in paths ==> ControlPath(p))
    ensures Routed(d, original).value.round >= 1
  {
    hide LoopPath, Stable, OriginalDomain, ControlPath, SpaceFree, RepairLoop.ClassifyIndependent, RepairLoop.Named;
    var authority := Authority(original);
    var paths := RepairPaths(d);
    DispatchMeans(d, original);
    ClassifiedPaths(d.targeted, d.quick, authority);
    if OriginalDomain(original).value == PathPolicy.ControlPlane {
      ControlAuthority(original);
    } else {
      if paths == RepairLoop.Named(d.targeted.scan.namedPaths, authority.candidates) {
        ScannedAreStable(d.targeted.scan.namedPaths, authority.candidates);
      } else {
        ScannedAreStable(d.quick.value.scan.namedPaths, authority.candidates);
      }
    }
  }

  lemma {:induction false} DispatchMeans(d: Delivery, original: FailureCase)
    requires Dispatched(d, original)
    ensures RepairPaths(d) != [] && Routed(d, original).value.round >= 1
    ensures Authority(original).domain == RepairLoop.ControlPlane ==> RepairPaths(d) == Authority(original).candidates
  {
    hide Scanned, Authority, OriginalDomain, RepairLoop.ClassifyIndependent, RepairLoop.ResolveContinuation,
      RepairLoop.StagnantOf, RepairLoop.RetriesOf, RepairLoop.MaxRoundsOf;
  }

  /** Whatever the classifier finds and the router dispatches, its feedback is emitted, hands on exactly
      the repair paths, and the next round's compiler takes it. */
  lemma {:induction false} DispatchedFeedbackIsAccepted(d: Delivery, original: FailureCase)
    requires Dispatched(d, original)
    ensures Emitted(d, original).Success?
    ensures Emitted(d, original).value.candidatePaths == RepairPaths(d)
    ensures NormalizeFailureCase(Emitted(d, original).value).Success?
    ensures forall p :: p in RepairPaths(d) ==> Stable(p)
  {
    hide LoopPaths, LoopPath, OriginalDomain, ControlPath, NormalizeFailureCase, Trimmed, PathPolicy.NormalizedText,
      OwnForm, HandoffPath, Routed, Distinct, Scanned, Authority, RepairLoop.ClassifyIndependent;
    DispatchedPaths(d, original);
    StableList(RepairPaths(d));
    FeedbackAcceptedExactly(original, RepairPaths(d), RoundOf(d, original), d.rest);
  }

  // ---------- The round trip by itself ----------

  /** The sender's and the receiver's functions by themselves do not fit: for every plain path `w`,
      the text `w/. /` is emitted as a path ending in a blank, which the receiver trims to a text that
      is not its own POSIX form. No dispatch has such a repair path (`DispatchedFeedbackIsAccepted`). */
  lemma {:induction false} BlankComponentIsLost(w: string, original: FailureCase, round: int, rest: string)
    requires PathPolicy.FixedPoint(w) && w != "."
    requires OriginalDomain(original) == Success(PathPolicy.Product) && original.candidatePaths == [w + "/" + ". /"]
    ensures SafeFeedback(original, original.candidatePaths, round, rest).Success?
    ensures NormalizeFailureCase(SafeFeedback(original, original.candidatePaths, round, rest).value).Failure?
  {
    hide LoopPath, OwnForm, OriginalDomain, NormalizeFailureCase, PathPolicy.FixedPoint;
    var raw, emitted := w + "/" + ". /", w + "/" + ". ";
    BlankForms(w);
    OneLoopPath(raw, emitted);
    OneLoopPath(emitted, w);
    assert PathsDigest([emitted]).Success?;
    FeedbackAcceptedExactly(original, [raw], round, rest);
    assert emitted in [emitted];
  }

  lemma {:induction false} OneLoopPath(raw: string, form: string)
    requires LoopPath(raw) == form && form != ""
    ensures LoopPaths([raw]) == [form] && Valid([form])
  {
    hide LoopPath;
  }

  lemma {:induction false} BlankForms(w: string)
    requires PathPolicy.FixedPoint(w) && w != "."
    ensures LoopPath(w + "/" + ". /") == w + "/" + ". "
    ensures LoopPath(w + "/" + ". ") == w && w != ""
    ensures !OwnForm(w + "/" + ". ")
  {
    PathPolicy.FixedPointShape(w);
    PlainIsPosix(w);
    PathPolicy.FixedPointExactly(w);
    var raw, emitted, seen := w + "/" + ". /", w + "/" + ". ", w + "/" + ".";
    StartOf(w);
    TextStands(raw);
    BlankDotParts(w);
    DotParts(w);
    assert LoopPath(raw) == emitted;
    TrimOneBlank(seen);
    assert seen + " " == emitted;
    TextStands(seen);
    assert PathPolicy.NormalizedText(emitted) == seen;
  }

  lemma {:induction false} StartOf(w: string)
    requires PathPolicy.FixedPoint(w)
    ensures w != "" && !IsSpace(w[0]) && !StartsDotSlash(w) && '\\' !in w && !IsAbsolute(w)
  {
    PathPolicy.FixedPointShape(w);
    PathPolicy.FixedPointExactly(w);
    DropDotSlashFacts(Slashes(Trim(w)));
  }

  lemma {:induction false} TextStands(s: string)
    requires s != "" && Trimmed(s) && '\\' !in s && !StartsDotSlash(s)
    ensures PathPolicy.NormalizedText(s) == s
  {
    TrimFixed(s);
    SlashesFixed(s);
  }

  lemma {:induction false} TrimOneBlank(s: string)
    requires s != "" && Trimmed(s)
    ensures Trim(s + " ") == s
  {
    assert (s + " ")[..|s|] == s;
    TrimFixed(s);
    assert TrimLeft(s + " ") == s + " ";
    assert TrimRight(s) == s;
  }

  lemma {:induction false} BlankDotParts(w: string)
    requires w != "" && Plain(Split(w)) && Parts(w) == Split(w)
    ensures Parts(w + "/" + ". /") == Parts(w) + [". "] && Join(Parts(w) + [". "]) == w + "/" + ". "
  {
    hide Split, Kept, Join, KeptHead, Plain;
    SplitConcat(w, ". /");
    SplitBlankDot();
    KeptConcat(Split(w), [". ", ""]);
    JoinSplit(w);
    JoinConcat(Parts(w), [". "]);
    JoinOne(". ");
  }

  lemma {:induction false} SplitBlankDot()
    ensures Split(". /") == [". ", ""] && Kept([". ", ""]) == [". "]
  {
    SplitAtSlash(". ", "");
    assert ". " + "/" + "" == ". /";
    KeptStep(". ", [""]);
    KeptStep("", []);
    assert [". "] + [""] == [". ", ""];
  }

  lemma {:induction false} DotParts(w: string)
    requires w != "" && Plain(Split(w)) && Parts(w) == Split(w)
    ensures Parts(w + "/" + ".") == Parts(w) && AsPosix(w + "/" + ".") == w
    ensures ".." !in Parts(w)
  {
    SplitConcat(w, ".");
    SplitPlain(".");
    KeptConcat(Split(w), ["."]);
    KeptStep(".", []);
    assert ["."] + [] == ["."];
    JoinSplit(w);
  }

  // ---------- From round to round ----------

  /** The handoff's normalizer keeps a leading `./`. */
  function HandoffPath(raw: string): Option<string> {
    var v := Slashes(Trim(raw));
    if v == "" || IsAbsolute(v) || ".." in Parts(v) then None else Some(v)
  }

  function HandoffFirst(items: seq<string>, n: nat): Result<seq<string>, FeedbackError>
    requires n <= |items|
  {
    if n == 0 then
      Success([])
    else
      var front :- HandoffFirst(items, n - 1);
      var path := HandoffPath(items[n - 1]);
      :- Need(path.Some?, HandoffPathInvalid);
      Success(if path.value in front then front else front + [path.value])
  }

  lemma {:induction false} HandoffMembers(items: seq<string>, n: nat, p: string)
    requires n <= |items| && HandoffFirst(items, n).Success? && p in HandoffFirst(items, n).value
    ensures exists i :: 0 <= i < n && HandoffPath(items[i]) == Some(p)
  {
    hide HandoffPath;
    if n > 0 {
      var front := HandoffFirst(items, n - 1).value;
      if p in front {
        HandoffMembers(items, n - 1, p);
      }
    }
  }

  /** The source authority a bound Stage-2 result carries into the outer loop: the round's failure
      case with its candidates normalized. */
  function SourceAuthority(failureCase: FailureCase): Result<FailureCase, FeedbackError> {
    var items := failureCase.candidatePaths;
    :- Need(items != [], HandoffPathsMissing);
    var paths :- HandoffFirst(items, |items|);
    Success(failureCase.(candidatePaths := paths, changedFiles := None))
  }

  /** A round has a source authority exactly when it has candidates and each is a relative path inside the
      workspace; it is the round's failure case, but for the candidates' forms and the changed files. */
  lemma {:induction false} SourceAuthorityExactly(failureCase: FailureCase)
    ensures SourceAuthority(failureCase).Success? <==>
              && failureCase.candidatePaths != []
              && forall p :: p in failureCase.candidatePaths ==>
                   var v := Slashes(Trim(p)); v != "" && !IsAbsolute(v) && ".." !in Parts(v)
    ensures SourceAuthority(failureCase).Success? ==>
              var a := SourceAuthority(failureCase).value;
              && a == failureCase.(candidatePaths := a.candidatePaths, changedFiles := None)
              && forall q :: q in a.candidatePaths <==>
                 exists p :: p in failureCase.candidatePaths && Slashes(Trim(p)) == q
  {
    var items := failureCase.candidatePaths;
    HandoffExactly(items, |items|);
    assert items[..|items|] == items;
  }

  lemma {:induction false} HandoffExactly(items: seq<string>, n: nat)
    requires n <= |items|
    ensures HandoffFirst(items, n).Success? <==> forall p :: p in items[..n] ==> HandoffPath(p).Some?
    ensures HandoffFirst(items, n).Success? ==>
              forall q :: q in HandoffFirst(items, n).value <==>
                exists p :: p in items[..n] && HandoffPath(p) == Some(q)
  {
    hide HandoffPath;
    if n > 0 {
      HandoffExactly(items, n - 1);
      assert items[..n] == items[..n - 1] + [items[n - 1]];
    }
  }

  lemma {:induction false} HandoffThenLoop(raw: string)
    requires HandoffPath(raw).Some?
    ensures LoopPath(HandoffPath(raw).value) == LoopPath(raw)
  {
    hide LoopPath, Parts, DropDotSlash;
    var v := Slashes(Trim(raw));
    SlashesTrim(raw);
    TrimIsTrimmed(Slashes(raw));
    assert v == Trim(Slashes(raw));
    TrimFixed(v);
    SlashesFixed(Trim(raw));
    SlashesFixed(v);
    SameTextSameLoopPath(v, raw);
  }

  lemma {:induction false} SameTextSameLoopPath(a: string, b: string)
    requires PathPolicy.NormalizedText(a) == PathPolicy.NormalizedText(b)
    ensures LoopPath(a) == LoopPath(b)
  {
  }

  /** One more round: the router dispatches a repair under the authority of `current`, and `next` is
      the failure case it hands on. */
  ghost predicate NextRound(current: FailureCase, next: FailureCase) {
    && SourceAuthority(current).Success?
    && exists d ::
         Dispatched(d, SourceAuthority(current).value) && Emitted(d, SourceAuthority(current).value) == Success(next)
  }

  /** The path is the loop's form of some candidate. */
  ghost predicate FormOf(p: string, failureCase: FailureCase) {
    exists c :: c in failureCase.candidatePaths && LoopPath(c) == p
  }

  /** The path is the loop's form of a candidate that is its own POSIX form. */
  ghost predicate OwnFormOf(p: string, failureCase: FailureCase) {
    exists c :: c in failureCase.candidatePaths && LoopPath(c) == p && OwnForm(c)
  }

  predicate OwnForms(failureCase: FailureCase) {
    forall p :: p in failureCase.candidatePaths ==> OwnForm(p)
  }

  predicate StableForms(failureCase: FailureCase) {
    forall p :: p in failureCase.candidatePaths ==> Stable(p)
  }

  ghost predicate Within(next: FailureCase, current: FailureCase) {
    forall p :: p in DistinctPaths(next.candidatePaths) ==> p in DistinctPaths(current.candidatePaths)
  }

  lemma {:induction false} StableDistinct(failureCase: FailureCase, p: string)
    requires StableForms(failureCase)
    ensures p in DistinctPaths(failureCase.candidatePaths) <==> p in failureCase.candidatePaths
  {
    hide LoopPath, PathPolicy.NormalizedText, Trimmed, OwnForm, HandoffPath;
    var paths := failureCase.candidatePaths;
    DistinctMembers(paths, |paths|, p);
    forall i | 0 <= i < |paths|
      ensures PathPolicy.NormalizedText(paths[i]) == paths[i] && paths[i] != ""
    {
      assert Stable(paths[i]);
    }
  }

  /** A stable path is considered by the compiler exactly when it is the form of a candidate that is
      its own POSIX form. */
  lemma {:induction false} ConsideredExactly(p: string, failureCase: FailureCase)
    requires Stable(p)
    ensures p in DistinctPaths(failureCase.candidatePaths) <==> OwnFormOf(p, failureCase)
  {
    hide LoopPath, PathPolicy.NormalizedText, Trimmed, HandoffPath, OwnForm;
    var paths := failureCase.candidatePaths;
    DistinctMembers(paths, |paths|, p);
    if i :| 0 <= i < |paths| && PathPolicy.NormalizedText(paths[i]) == p {
      SameTextSameLoopPath(paths[i], p);
      OwnFormExactly(paths[i]);
      assert paths[i] in paths;
    }
    if OwnFormOf(p, failureCase) {
      var c :| c in paths && LoopPath(c) == p && OwnForm(c);
      OwnFormExactly(c);
      var j :| 0 <= j < |paths| && paths[j] == c;
      assert PathPolicy.NormalizedText(paths[j]) == p;
    }
  }

  /** Every emitted path is stable and the loop's form of a candidate of the round before. */
  lemma {:induction false} EmittedFromCandidates(current: FailureCase, next: FailureCase)
    requires NextRound(current, next)
    ensures StableForms(next) && forall p :: p in next.candidatePaths ==> FormOf(p, current)
  {
    hide LoopPath, HandoffPath, Dispatched, Emitted, Stable;
    var authority := SourceAuthority(current).value;
    var d :| Dispatched(d, authority) && Emitted(d, authority) == Success(next);
    DispatchedFeedbackIsAccepted(d, authority);
    DispatchedPaths(d, authority);
    forall p | p in next.candidatePaths
      ensures FormOf(p, current)
    {
      var i :| 0 <= i < |authority.candidatePaths| && LoopPaths(authority.candidatePaths)[i] == p;
      var a := authority.candidatePaths[i];
      assert a in authority.candidatePaths;
      HandoffMembers(current.candidatePaths, |current.candidatePaths|, a);
      var j :| 0 <= j < |current.candidatePaths| && HandoffPath(current.candidatePaths[j]) == Some(a);
      HandoffThenLoop(current.candidatePaths[j]);
      assert current.candidatePaths[j] in current.candidatePaths;
    }
  }

  /** A round narrows the candidates exactly when each of its repair paths is the form of a candidate
      that is its own POSIX form. A candidate such as `a//b` is not, and its repair widens the scope. */
  lemma {:induction false} RoundNarrowsExactly(current: FailureCase, next: FailureCase)
    requires NextRound(current, next)
    ensures StableForms(next) && forall p :: p in next.candidatePaths ==> FormOf(p, current)
    ensures Within(next, current) <==> forall p :: p in next.candidatePaths ==> OwnFormOf(p, current)
    ensures OwnForms(current) ==> Within(next, current)
  {
    hide NextRound, Stable, LoopPath, OwnForm, DistinctPaths;
    EmittedFromCandidates(current, next);
    forall p
      ensures p in DistinctPaths(next.candidatePaths) <==> p in next.candidatePaths
      ensures p in next.candidatePaths ==> (p in DistinctPaths(current.candidatePaths) <==> OwnFormOf(p, current))
    {
      StableDistinct(next, p);
      if p in next.candidatePaths {
        ConsideredExactly(p, current);
      }
    }
  }

  /** A run of rounds: each failure case comes out of the one before. */
  ghost predicate Rounds(cases: seq<FailureCase>) {
    forall i :: 0 < i < |cases| ==> NextRound(cases[i - 1], cases[i])
  }

  lemma {:induction false} StableAreOwn(failureCase: FailureCase)
    requires StableForms(failureCase)
    ensures OwnForms(failureCase)
  {
    hide LoopPath, PathPolicy.NormalizedText, Trimmed, OwnForm, HandoffPath;
  }

  /** From the second round on the candidates only narrow, whatever the first failure case is. */
  lemma {:induction false} LaterRoundsNarrow(cases: seq<FailureCase>, i: nat, j: nat)
    requires Rounds(cases) && 1 <= i <= j < |cases|
    ensures StableForms(cases[i]) && StableForms(cases[j]) && Within(cases[j], cases[i])
    decreases j
  {
    hide NextRound, StableForms, DistinctPaths;
    RoundNarrowsExactly(cases[i - 1], cases[i]);
    RoundNarrowsExactly(cases[j - 1], cases[j]);
    if i < j {
      LaterRoundsNarrow(cases, i, j - 1);
      StableAreOwn(cases[j - 1]);
    }
  }

  /** Over any run of rounds: no round considers a path an earlier one did not, except that the rounds
      after the first may consider the POSIX form of a first candidate that is not its own; a path of a
      later round was considered by the first exactly when it is the form of a candidate that is. */
  lemma {:induction false} ScopeOnlyNarrows(cases: seq<FailureCase>, i: nat, j: nat)
    requires Rounds(cases) && i <= j < |cases|
    ensures i >= 1 || OwnForms(cases[0]) ==> Within(cases[j], cases[i])
    ensures j >= 1 ==> forall p :: p in DistinctPaths(cases[j].candidatePaths) ==>
              FormOf(p, cases[0]) && (p in DistinctPaths(cases[0].candidatePaths) <==> OwnFormOf(p, cases[0]))
  {
    hide NextRound, StableForms, DistinctPaths, FormOf, OwnFormOf, OwnForms;
    if i >= 1 {
      LaterRoundsNarrow(cases, i, j);
    }
    if j >= 1 {
      LaterRoundsNarrow(cases, 1, j);
      RoundNarrowsExactly(cases[0], cases[1]);
      forall p | p in DistinctPaths(cases[j].candidatePaths)
        ensures FormOf(p, cases[0]) && (p in DistinctPaths(cases[0].candidatePaths) <==> OwnFormOf(p, cases[0]))
      {
        StableMember(cases[1], p);
        ConsideredExactly(p, cases[0]);
      }
    }
  }

  lemma {:induction false} StableMember(failureCase: FailureCase, p: string)
    requires StableForms(failureCase) && p in DistinctPaths(failureCase.candidatePaths)
    ensures p in failureCase.candidatePaths && Stable(p)
  {
    hide Stable, DistinctPaths;
    StableDistinct(failureCase, p);
  }

  // ---------- A round that widens ----------

  /** A verification of the first round, after Stage 2 noted it, whose failed targeted run names exactly
      `paths`. */
  function Naming(paths: seq<string>): Delivery {
    var row := RepairLoop.Row(false, false, 1, false);
    var scan := RepairLoop.Scan(false, false, paths, false, false);
    var targeted := RepairLoop.TargetedResult(RepairLoop.TargetedFailed, [row], scan);
    var verdict := RepairLoop.Verdict(RepairLoop.ProductFailure, paths);
    var meta := RepairLoop.NoteStage2Round(None, 1, RepairLoop.MAX_REPAIR_ROUNDS);
    Delivery(targeted, None, None, meta,
             RepairLoop.Verification(RepairLoop.Event("1", 1), "candidate", 1, None, verdict, "fingerprint", false), "")
  }

  lemma {:induction false} NamingIsDispatched(p: string, c: string, original: FailureCase)
    requires original.schema == IngestSchema && OriginalDomain(original) == Success(PathPolicy.Product)
    requires LoopPaths(original.candidatePaths) == [p, c] && p != c
    requires Stable(p) && SpaceFree(p) && Stable(c) && SpaceFree(c)
    ensures Dispatched(Naming([p, c]), original)
  {
    hide LoopPath, LoopPaths, OriginalDomain, Stable, SpaceFree, Naming, Scanned;
    StableLoopPath(p);
    StableLoopPath(c);
    NonEmptyKeeps([p, c]);
    NamingScanned([p, c]);
    NamingRouted(p, c);
    assert Authority(original) == RepairLoop.Original(RepairLoop.ProductCode, [p, c]);
  }

  lemma {:induction false} NamingScanned(paths: seq<string>)
    requires forall p :: p in paths ==> SpaceFree(p) && LoopPath(p) == p
    ensures Scanned(Naming(paths).targeted.scan) && Naming(paths).quick == None
  {
    hide LoopPath, SpaceFree;
    var scan := Naming(paths).targeted.scan;
    forall q | q in scan.namedPaths
      ensures exists m :: SpaceFree(m) && LoopPath(m) == q
    {
      assert SpaceFree(q) && LoopPath(q) == q;
    }
  }

  lemma {:induction false} NamingRouted(p: string, c: string)
    requires p != c
    ensures var d, authority := Naming([p, c]), RepairLoop.Original(RepairLoop.ProductCode, [p, c]);
            && d.verification.verdict == RepairLoop.ClassifyIndependent(d.targeted, d.quick, authority)
            && var routed := RepairLoop.Route(d.previous, d.meta, authority, d.verification);
               routed.Success? && routed.value.action == RepairLoop.DispatchRepair
  {
    TwoNamed(p, c);
  }

  lemma {:induction false} TwoNamed(p: string, c: string)
    requires p != c
    ensures RepairLoop.Named([p, c], [p, c]) == [p, c]
  {
    assert [p, c][..1] == [p] && [p][..0] == [];
    assert RepairLoop.Named([], [p, c]) == [];
    assert RepairLoop.Named([p], [p, c]) == [p];
  }

  lemma {:induction false} StableLoopPath(p: string)
    requires Stable(p)
    ensures LoopPath(p) == p && p != "" && PathPolicy.NormalizedText(p) == p && HandoffPath(p) == Some(p)
  {
    hide LoopPath, Trimmed, OwnForm, PathPolicy.NormalizedText, HandoffPath;
  }

  /** The forms of a path with a doubled separator. */
  lemma {:induction false} DoubledForms(a: string, b: string)
    requires '/' !in a && PathPolicy.FixedPoint(a + "/" + b) && a + "/" + b != "."
    ensures var raw, p := a + "//" + b, a + "/" + b;
            LoopPath(raw) == p && PathPolicy.NormalizedText(raw) == raw && HandoffPath(raw) == Some(raw) && raw != p
    ensures !PathPolicy.FixedPoint(a + "//" + b)
  {
    hide Parts, AsPosix, Trimmed, StartsDotSlash, Trim;
    var raw := a + "//" + b;
    FixerPaths.DoubledPlain(a, b);
    TrimFixed(raw);
    SlashesFixed(raw);
    DropDotSlashFacts(raw);
    FixerPaths.SameText(raw);
  }

  /** First evidence in the product domain, not fed back, that names one path with a doubled separator and
      one eligible path. */
  predicate NamesDoubled(current: FailureCase, a: string, b: string, c: string) {
    && current.schema == IngestSchema && OriginalDomain(current) == Success(PathPolicy.Product)
    && current.feedback == None && current.changedFiles == None && current.candidatePaths == [a + "//" + b, c]
  }

  /** The plain form of `a//b`, and `c`, are different and free of whitespace. */
  predicate PlainPair(a: string, b: string, c: string) {
    && '/' !in a && PathPolicy.FixedPoint(a + "/" + b) && a + "/" + b != "." && SpaceFree(a + "/" + b)
    && PathPolicy.FixedPoint(c) && c != "." && SpaceFree(c) && c != a + "/" + b
  }

  /** The first compiler excludes the path with the doubled separator, being no fixed point, and goes on
      with `c` alone. If the verification of that repair names both files, the loop hands on both, and the
      second compiler may write the one the first excluded, if it is a regular file and eligible. */
  lemma {:induction false} DoubledSlashWidens(
    a: string, b: string, c: string, current: FailureCase, files: FixerPaths.Files, host: WriteAuthority.Host,
    oracle: string -> bool) returns (next: FailureCase)
    requires PlainPair(a, b, c) && NamesDoubled(current, a, b, c)
    requires host.policy(PathPolicy.Product)(c) == None && FixerPaths.FileRefusal(c, files) == None
    ensures var sort := Sorter(Guard(PathPolicy.Product, files, host), oracle);
            && CompileScope(current, sort).Success? && CompileScope(next, sort).Success?
            && (forall p :: p in CompileScope(current, sort).value.candidatePaths <==> p == c)
            && (forall p :: p in CompileScope(next, sort).value.candidatePaths <==>
                  || p == c
                  || (p == a + "/" + b && host.policy(PathPolicy.Product)(p) == None
                      && FixerPaths.FileRefusal(p, files) == None))
    ensures NextRound(current, next) && !Within(next, current) && next.candidatePaths == [a + "/" + b, c]
  {
    hide LoopPath, OwnForm, PathPolicy.FixedPoint, SpaceFree, HandoffPath, Emitted, Dispatched,
      PathPolicy.NormalizedText, Stable, CompileScope, Sorter, Guard, FixerPaths.FileRefusal, OriginalDomain;
    next := WidenedCase(a, b, c, current);
    FirstCompile(a, b, c, current, files, host, oracle);
    SecondCompile(a + "/" + b, c, next, files, host, oracle);
  }

  lemma {:induction false} WidenedCase(a: string, b: string, c: string, current: FailureCase)
    returns (next: FailureCase)
    requires PlainPair(a, b, c) && NamesDoubled(current, a, b, c)
    ensures NextRound(current, next) && !Within(next, current) && next.candidatePaths == [a + "/" + b, c]
    ensures next.changedFiles == None && NormalizeFailureCase(next).Success?
    ensures DistinctPaths(current.candidatePaths) == current.candidatePaths
    ensures DistinctPaths(next.candidatePaths) == next.candidatePaths
    ensures Stable(a + "/" + b) && Stable(c)
  {
    hide LoopPath, OwnForm, PathPolicy.FixedPoint, SpaceFree, HandoffPath, Dispatched, PathPolicy.NormalizedText,
      Stable, OriginalDomain, LoopPaths, NormalizeFailureCase, Emitted;
    var raw, p := a + "//" + b, a + "/" + b;
    DoubledForms(a, b);
    FixedPointIsStable(p);
    FixedPointIsStable(c);
    StableLoopPath(p);
    StableLoopPath(c);
    assert LoopPath(raw) != LoopPath(c);
    TwoHandoff(raw, c);
    var authority := SourceAuthority(current).value;
    SameDomain(current, authority);
    TwoLoopPaths(raw, c, p);
    NamingIsDispatched(p, c, authority);
    DispatchedFeedbackIsAccepted(Naming([p, c]), authority);
    next := Emitted(Naming([p, c]), authority).value;
    EmittedUnchanged(Naming([p, c]), authority);
    assert NextRound(current, next);
    TwoDistinct(raw, c);
    TwoDistinct(p, c);
    assert p in DistinctPaths(next.candidatePaths) && p !in DistinctPaths(current.candidatePaths);
  }

  lemma {:induction false} EmittedUnchanged(d: Delivery, original: FailureCase)
    requires Emitted(d, original).Success?
    ensures Emitted(d, original).value.changedFiles == original.changedFiles
  {
    hide SafeFeedback;
    EmittedPaths(original, RepairPaths(d), RoundOf(d, original), d.rest);
  }

  /** Without fed-back scope and without changed files the evidence is the distinct candidates. */
  lemma {:induction false} PlainEvidence(failureCase: FailureCase)
    requires failureCase.changedFiles == None
    ensures EvidencePaths(failureCase) == DistinctPaths(failureCase.candidatePaths)
    ensures failureCase.schema == IngestSchema && failureCase.feedback == None ==>
            NormalizeFailureCase(failureCase).Success?
  {
    hide DistinctPaths;
  }

  lemma {:induction false} FirstCompile(
    a: string, b: string, c: string, current: FailureCase, files: FixerPaths.Files, host: WriteAuthority.Host,
    oracle: string -> bool)
    requires PlainPair(a, b, c) && NamesDoubled(current, a, b, c)
    requires DistinctPaths(current.candidatePaths) == current.candidatePaths && Stable(c)
    requires host.policy(PathPolicy.Product)(c) == None && FixerPaths.FileRefusal(c, files) == None
    ensures var compiled := CompileScope(current, Sorter(Guard(PathPolicy.Product, files, host), oracle));
            compiled.Success? && forall p :: p in compiled.value.candidatePaths <==> p == c
  {
    hide LoopPath, OwnForm, PathPolicy.FixedPoint, SpaceFree, HandoffPath, PathPolicy.NormalizedText, Stable,
      CompileScope, Sorter, Guard, FixerPaths.FileRefusal, OriginalDomain, NormalizeFailureCase, EvidencePaths,
      DistinctPaths;
    DoubledForms(a, b);
    StableLoopPath(c);
    PlainEvidence(current);
    CompilesWhenNormal(current, PathPolicy.Product, files, host, oracle);
    CompiledScopeExactly(current, PathPolicy.Product, files, host, oracle);
  }

  lemma {:induction false} SecondCompile(
    p: string, c: string, next: FailureCase, files: FixerPaths.Files, host: WriteAuthority.Host, oracle: string -> bool)
    requires next.changedFiles == None && NormalizeFailureCase(next).Success? && next.candidatePaths == [p, c]
    requires DistinctPaths(next.candidatePaths) == next.candidatePaths && Stable(p) && Stable(c)
    requires PathPolicy.FixedPoint(p) && PathPolicy.FixedPoint(c)
    requires host.policy(PathPolicy.Product)(c) == None && FixerPaths.FileRefusal(c, files) == None
    ensures var compiled := CompileScope(next, Sorter(Guard(PathPolicy.Product, files, host), oracle));
            && compiled.Success?
            && forall q :: q in compiled.value.candidatePaths <==>
                 || q == c
                 || (q == p && host.policy(PathPolicy.Product)(q) == None && FixerPaths.FileRefusal(q, files) == None)
  {
    hide LoopPath, OwnForm, PathPolicy.FixedPoint, HandoffPath, PathPolicy.NormalizedText, Stable, CompileScope, Sorter,
      Guard, FixerPaths.FileRefusal, NormalizeFailureCase, EvidencePaths, DistinctPaths;
    StableLoopPath(p);
    StableLoopPath(c);
    PlainEvidence(next);
    CompilesWhenNormal(next, PathPolicy.Product, files, host, oracle);
    CompiledScopeExactly(next, PathPolicy.Product, files, host, oracle);
  }

  lemma {:induction false} SameDomain(failureCase: FailureCase, authority: FailureCase)
    requires OriginalDomain(failureCase) == Success(PathPolicy.Product)
    requires authority == failureCase.(candidatePaths := authority.candidatePaths, changedFiles := None)
    ensures OriginalDomain(authority) == Success(PathPolicy.Product)
  {
    hide LoopPaths, Valid, ControlPath, RouteBounded;
  }

  lemma {:induction false} FixedPointIsStable(p: string)
    requires PathPolicy.FixedPoint(p) && p != "."
    ensures Stable(p)
  {
    hide Parts, Trimmed, DropDotSlash;
    PathPolicy.FixedPointShape(p);
    PlainIsPosix(p);
    StartOf(p);
    TrimFixed(p);
    TextStands(p);
    SlashesFixed(p);
  }

  lemma {:induction false} TwoHandoff(p: string, c: string)
    requires HandoffPath(p) == Some(p) && HandoffPath(c) == Some(c) && p != c
    ensures HandoffFirst([p, c], 2) == Success([p, c])
  {
    hide HandoffPath;
    var items := [p, c];
    assert HandoffFirst(items, 0) == Success([]);
    assert items[1 - 1] == p && items[2 - 1] == c && [] + [p] == [p] && [p] + [c] == items;
    assert HandoffFirst(items, 1) == Success([p]);
  }

  lemma {:induction false} TwoLoopPaths(raw: string, c: string, p: string)
    requires LoopPath(raw) == p && LoopPath(c) == c
    ensures LoopPaths([raw, c]) == [p, c]
  {
    hide LoopPath;
  }

  lemma {:induction false} TwoDistinct(p: string, c: string)
    requires PathPolicy.NormalizedText(p) == p && PathPolicy.NormalizedText(c) == c && p != c && p != "" && c != ""
    ensures DistinctPaths([p, c]) == [p, c]
  {
    hide PathPolicy.NormalizedText;
    var items := [p, c];
    assert DistinctFirst(items, 0) == [];
    assert items[1 - 1] == p && items[2 - 1] == c && [] + [p] == [p] && [p] + [c] == items;
    assert DistinctFirst(items, 1) == [p];
  }

  /** One of the family: `contracts//x.py` beside `contracts/y.py`. */
  lemma {:induction false} DoubledSlashExample(
    current: FailureCase, files: FixerPaths.Files, host: WriteAuthority.Host, oracle: string -> bool)
    returns (next: FailureCase)
    requires NamesDoubled(current, "contracts", "x.py", "contracts/y.py")
    requires forall p :: p in {"contracts/x.py", "contracts/y.py"} ==>
               host.policy(PathPolicy.Product)(p) == None && FixerPaths.FileRefusal(p, files) == None
    ensures var sort := Sorter(Guard(PathPolicy.Product, files, host), oracle);
            && CompileScope(current, sort).Success? && CompileScope(next, sort).Success?
            && "contracts/x.py" !in CompileScope(current, sort).value.candidatePaths
            && "contracts/x.py" in CompileScope(next, sort).value.candidatePaths
    ensures NextRound(current, next) && !Within(next, current)
  {
    hide PathPolicy.FixedPoint, SpaceFree, NextRound, Within, CompileScope, Sorter, Guard, FixerPaths.FileRefusal,
      NamesDoubled;
    ExampleConcat();
    ExamplePath('x');
    ExamplePath('y');
    next := DoubledSlashWidens("contracts", "x.py", "contracts/y.py", current, files, host, oracle);
  }

  lemma {:induction false} ExampleConcat()
    ensures "contracts" + "/" + "x.py" == "contracts/x.py" && "contracts/x.py" != "contracts/y.py"
            && '/' !in "contracts"
    ensures "contracts/" + ['x'] + ".py" == "contracts/x.py" && "contracts/" + ['y'] + ".py" == "contracts/y.py"
    ensures "contracts/x.py" != "." && "contracts/y.py" != "."
  {
    assert "contracts/x.py"[10] != "contracts/y.py"[10];
  }

  lemma {:induction false} ExampleParts(x: char)
    requires x == 'x' || x == 'y'
    ensures Split("contracts/" + [x] + ".py") == ["contracts", [x] + ".py"]
  {
    hide Split;
    SplitPlain([x] + ".py");
    SplitAtSlash("contracts", [x] + ".py");
    assert "contracts" + "/" + ([x] + ".py") == "contracts/" + [x] + ".py";
  }

  lemma {:induction false} ExampleLetters(x: char)
    requires x == 'x' || x == 'y'
    ensures var p := "contracts/" + [x] + ".py";
            SpaceFree(p) && '\\' !in p && !StartsDotSlash(p)
  {
  }

  lemma {:induction false} ExamplePath(x: char)
    requires x == 'x' || x == 'y'
    ensures var p := "contracts/" + [x] + ".py"; PathPolicy.FixedPoint(p) && SpaceFree(p)
  {
    hide Split, SpaceFree, Parts, AsPosix, Trimmed, IsSpace, PathPolicy.NormalizedText, StartsDotSlash;
    var p := "contracts/" + [x] + ".py";
    ExampleParts(x);
    ExampleLetters(x);
    PlainIsPosix(p);
    LettersAreTrimmed(p);
    TextStands(p);
    PathPolicy.NormalizeAcceptsExactly(p);
  }

  lemma {:induction false} LettersAreTrimmed(p: string)
    requires p != "" && SpaceFree(p)
    ensures Trimmed(p)
  {
    assert p[0] in p && p[|p| - 1] in p;
  }

  // ---------- Control-plane rounds ----------

  lemma {:induction false} ControlPathIsTrimmed(p: string)
    requires ControlPath(p)
    ensures Trimmed(p)
  {
    assert p[0] == "scripts/verify_engineering_"[0];
    assert p[|p| - 1] == p[|p| - 3..][2];
  }

  /** A list of distinct handoff fixed points passes unchanged. */
  lemma {:induction false} HandoffKeeps(items: seq<string>, n: nat)
    requires n <= |items| && Distinct(items)
    requires forall i :: 0 <= i < |items| ==> HandoffPath(items[i]) == Some(items[i])
    ensures HandoffFirst(items, n) == Success(items[..n])
  {
    hide HandoffPath;
    if n > 0 {
      HandoffKeeps(items, n - 1);
      assert items[..n] == items[..n - 1] + [items[n - 1]];
      assert items[n - 1] !in items[..n - 1];
    }
  }

  /** In the control-plane domain a fed-back failure case hands on exactly its own candidates. */
  lemma {:induction false} ControlRoundsKeepScope(original: FailureCase, d: Delivery, next: FailureCase)
    requires Dispatched(d, original) && OriginalDomain(original) == Success(PathPolicy.ControlPlane)
    requires Emitted(d, original).Success? && NextRound(Emitted(d, original).value, next)
    ensures next.candidatePaths == Emitted(d, original).value.candidatePaths
  {
    hide SafeFeedback, LoopPath, LoopPaths, OriginalDomain, ControlPath, Trimmed, Dispatched, Stable, RoundOf,
      HandoffPath, Authority, NormalizeFailureCase, HandoffFirst;
    DispatchedFeedbackIsAccepted(d, original);
    var current := Emitted(d, original).value;
    var paths := current.candidatePaths;
    EmittedPaths(original, RepairPaths(d), RoundOf(d, original), d.rest);
    StableList(paths);
    StableHandoff(paths);
    HandoffKeeps(paths, |paths|);
    assert paths[..|paths|] == paths;
    var authority := SourceAuthority(current).value;
    assert authority.candidatePaths == paths;
    var d2 :| Dispatched(d2, authority) && Emitted(d2, authority) == Success(next);
    ControlDispatch(d2, authority);
  }

  lemma {:induction false} ControlDispatch(d: Delivery, authority: FailureCase)
    requires Dispatched(d, authority) && authority.classification == ControlPlaneImplementation
    ensures Emitted(d, authority).Success?
    ensures Emitted(d, authority).value.candidatePaths == LoopPaths(authority.candidatePaths)
  {
    hide LoopPaths, OriginalDomain, ControlPath, Stable, Routed, NormalizeFailureCase, Emitted, Authority, Scanned;
    ControlStaysControl(authority);
    DispatchedFeedbackIsAccepted(d, authority);
    DispatchedPaths(d, authority);
  }

  lemma {:induction false} StableHandoff(paths: seq<string>)
    requires forall p :: p in paths ==> Stable(p)
    ensures forall i :: 0 <= i < |paths| ==> HandoffPath(paths[i]) == Some(paths[i])
  {
    hide LoopPath, Trimmed, OwnForm, PathPolicy.NormalizedText, HandoffPath;
    forall i | 0 <= i < |paths|
      ensures HandoffPath(paths[i]) == Some(paths[i])
    {
      assert paths[i] in paths;
    }
  }

  lemma {:induction false} ControlStaysControl(failureCase: FailureCase)
    requires failureCase.classification == ControlPlaneImplementation
    ensures OriginalDomain(failureCase) != Success(PathPolicy.Product)
  {
    hide Valid, LoopPaths, RouteBounded, ControlPath;
  }
}
