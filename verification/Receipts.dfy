/** The receipts of the governance lifecycle, from the published draft to the merge grant
    (scripts/github_repair_stage3_record_publication.py, scripts/github_repair_governance.py,
    scripts/github_repair_baseline_acceptance.py, scripts/github_repair_exact_head.py,
    scripts/github_repair_merge_grant.py). */
module Receipts {
  import opened Wrappers
  import opened RepoPath

  datatype G6 =
    | Pending
    | GovernanceClosedBaselinePending
    | BaselineAcceptedExactHeadPending
    | G6Pass
    | OtherG6(status: string)

  datatype Gate = G0 | G1 | G2 | G3 | G4 | G5

  /** The statuses of G0 to G5 and the state of G6. */
  datatype Gates = Gates(prefix: map<Gate, string>, g6: G6)

  predicate PrefixPasses(prefix: map<Gate, string>) {
    forall g: Gate :: g in prefix && prefix[g] == "PASS"
  }

  datatype Stage = DraftPublished | GovernanceDone | BaselineDone | ReadyForReview

  datatype Flags = Flags(
    governance: Option<bool>, baseline: Option<bool>, exactHead: Option<bool>, ready: Option<bool>,
    merge: Option<bool>, deploy: Option<bool>, production: Option<bool>)

  /** The validated tree is recorded up to the baseline; the exact-head receipt has none. */
  datatype Content = Content(
    sourceSha: string, treeSha: Option<string>, prUrl: string, baseBranch: string, changedPaths: seq<string>,
    baselineCommit: string, prNumber: nat, rest: string)

  datatype Digest = NoDigest | OfBody(body: Body)

  /** A receipt without its own digest; `previous` is the digest of the receipt it was made from. */
  datatype Body = Body(stage: Stage, gates: Gates, flags: Flags, content: Content, previous: Digest)

  datatype Receipt = Receipt(body: Body, digest: Digest)

  function Sealed(body: Body): Receipt {
    Receipt(body, OfBody(body))
  }

  const NOT_YET := Flags(Some(false), Some(false), Some(false), Some(false), Some(false), Some(false), Some(false))

  predicate Unasserted(f: Flags) {
    f.governance == Some(false) && f.baseline == Some(false) && f.exactHead == Some(false) && f.ready == Some(false)
  }

  // ---------- Draft publication ----------

  /** What validation and publication agree on; `agrees` is the outcome of comparing their bindings. */
  datatype Publication = Publication(gates: Gates, flags: Flags, agrees: bool, content: Content)

  predicate PullUrl(url: string) {
    "https://github.com/" <= url && exists i :: 0 <= i <= |url| && "/pull/" <= url[i..]
  }

  predicate HasTree(c: Content) {
    c.treeSha.Some? && |c.treeSha.value| == 40
  }

  function RecordPublication(p: Publication): Option<Receipt> {
    if && p.agrees && PullUrl(p.content.prUrl)
       && PrefixPasses(p.gates.prefix) && p.gates.g6 == Pending
       && p.flags.production == Some(false) && Unasserted(p.flags)
       && |p.content.sourceSha| == 40 && HasTree(p.content)
    then Some(Receipt(Body(DraftPublished, p.gates, NOT_YET, p.content, NoDigest), NoDigest))
    else None
  }

  // ---------- Governance ----------

  function GovernedPath(raw: string): string {
    Slashes(Trim(raw))
  }

  function ApprovedFirst(paths: seq<string>, n: nat): seq<string>
    requires n <= |paths|
  {
    if n == 0 then
      []
    else
      var front := ApprovedFirst(paths, n - 1);
      var path := GovernedPath(paths[n - 1]);
      if path != "" && path !in front then front + [path] else front
  }

  function Approved(paths: seq<string>): seq<string> {
    ApprovedFirst(paths, |paths|)
  }

  method CollectApproved(paths: seq<string>) returns (approved: seq<string>)
    ensures approved == Approved(paths)
  {
    hide GovernedPath;
    approved := [];
    for i := 0 to |paths|
      invariant approved == ApprovedFirst(paths, i)
    {
      var path := GovernedPath(paths[i]);
      if path != "" && path !in approved {
        approved := approved + [path];
      }
    }
  }

  function CloseGovernance(r: Receipt, actor: string, approval: string): Option<Receipt> {
    var b := r.body;
    if && b.stage == DraftPublished && b.flags.production == Some(false) && Unasserted(b.flags)
       && PrefixPasses(b.gates.prefix) && b.gates.g6 == Pending
       && Trim(actor) != "" && Trim(approval) != ""
       && |b.content.sourceSha| == 40 && HasTree(b.content) && PullUrl(b.content.prUrl)
       && Approved(b.content.changedPaths) != []
    then
      Some(Sealed(Body(GovernanceDone, b.gates.(g6 := GovernanceClosedBaselinePending),
                       NOT_YET.(governance := Some(true)),
                       b.content.(changedPaths := Approved(b.content.changedPaths)), OfBody(b))))
    else None
  }

  // ---------- Baseline acceptance ----------

  /** Entries of the protected snapshot, by path. */
  type Snapshot = map<string, string>

  function Drift(before: Snapshot, after: Snapshot): set<string> {
    set p | p in before.Keys + after.Keys && (p !in before || p !in after || before[p] != after[p])
  }

  /** The snapshots drift at a path that only one of them has, or that they have with different entries. */
  lemma {:induction false} DriftExactly(before: Snapshot, after: Snapshot, path: string)
    ensures path !in Drift(before, after) <==>
              || (path !in before && path !in after)
              || (path in before && path in after && before[path] == after[path])
  {
  }

  predicate UnderRoot(path: string, roots: set<string>) {
    exists root :: root in roots && root + "/" <= path
  }

  function ApprovedInside(paths: seq<string>, roots: set<string>): set<string> {
    set raw | raw in paths && GovernedPath(raw) != "" && UnderRoot(GovernedPath(raw), roots) :: GovernedPath(raw)
  }

  /** The workspace of a baseline acceptance: the recorded snapshot, the one the source has now, and
      what git makes of committing the new one. */
  datatype BaselineWorld = BaselineWorld(
    headSha: string, clean: bool, document: Snapshot, current: Snapshot, roots: set<string>,
    onlyBaselineChanged: bool, commit: string)

  function AcceptBaseline(r: Receipt, w: BaselineWorld): Option<Receipt> {
    var b := r.body;
    if && b.stage == GovernanceDone && b.flags == NOT_YET.(governance := Some(true)) && r.digest == OfBody(b)
       && PrefixPasses(b.gates.prefix) && b.gates.g6 == GovernanceClosedBaselinePending
       && |b.content.sourceSha| == 40 && w.headSha == b.content.sourceSha && w.clean
       && (exists raw :: raw in b.content.changedPaths && Trim(raw) != "")
       && Drift(w.document, w.current) == ApprovedInside(b.content.changedPaths, w.roots)
       && w.onlyBaselineChanged
    then
      Some(Sealed(Body(BaselineDone, b.gates.(g6 := BaselineAcceptedExactHeadPending),
                       NOT_YET.(governance := Some(true), baseline := Some(true)),
                       b.content.(baselineCommit := w.commit), OfBody(b))))
    else None
  }

  // ---------- Exact head ----------

  datatype Workflow = SkillSelfValidation | Quality

  datatype WorkflowRow = WorkflowRow(
    headSha: string, event: string, prNumber: int, status: string, conclusion: string, validRunId: bool)

  datatype CiEvidence = CiEvidence(
    headSha: string, prUrl: string, prNumber: int, isDraft: Option<bool>, prHeadSha: string,
    workflows: map<Workflow, WorkflowRow>)

  predicate RowCertifies(row: WorkflowRow, exactSha: string, prNumber: nat) {
    && row.headSha == exactSha && row.event == "pull_request" && row.prNumber == prNumber
    && row.status == "completed" && row.conclusion == "success" && row.validRunId
  }

  /** Every mandatory workflow succeeded on this very commit of this very draft. */
  predicate Certifies(ci: CiEvidence, exactSha: string, prUrl: string, prNumber: nat) {
    && ci.headSha == exactSha && ci.prUrl == prUrl && ci.prNumber == prNumber && ci.isDraft == Some(true)
       && ci.prHeadSha == exactSha
    && forall w: Workflow :: w in ci.workflows && RowCertifies(ci.workflows[w], exactSha, prNumber)
  }

  /** Both mandatory workflows completed with success on this commit of this pull request. */
  predicate BothSucceeded(ci: CiEvidence, exactSha: string, prNumber: nat) {
    forall w: Workflow ::
      && w in ci.workflows
      && ci.workflows[w].status == "completed" && ci.workflows[w].conclusion == "success"
      && ci.workflows[w].event == "pull_request" && ci.workflows[w].headSha == exactSha
      && ci.workflows[w].prNumber == prNumber && ci.workflows[w].validRunId
  }

  /** The evidence validator as the loop it is. */
  method ValidateExactHeadCi(ci: CiEvidence, exactSha: string, prUrl: string, numberOf: string -> Option<nat>)
    returns (number: Option<nat>)
    ensures number.Some? <==>
              numberOf(prUrl).Some? && numberOf(prUrl).value > 0
                && Certifies(ci, exactSha, prUrl, numberOf(prUrl).value)
    ensures number.Some? ==> number == numberOf(prUrl)
    ensures number.Some? <==>
              && numberOf(prUrl).Some? && numberOf(prUrl).value > 0
              && ci.headSha == exactSha && ci.prHeadSha == exactSha && ci.prUrl == prUrl
              && ci.prNumber == numberOf(prUrl).value && ci.isDraft == Some(true)
              && BothSucceeded(ci, exactSha, numberOf(prUrl).value)
  {
    if ci.headSha != exactSha || ci.prUrl != prUrl {
      return None;
    }
    number := numberOf(prUrl);
    if number.None? || number.value <= 0 {
      return None;
    }
    if ci.prNumber != number.value || ci.isDraft != Some(true) || ci.prHeadSha != exactSha {
      return None;
    }
    var mandatory := [SkillSelfValidation, Quality];
    for i := 0 to |mandatory|
      invariant forall k :: 0 <= k < i ==>
                  mandatory[k] in ci.workflows && RowCertifies(ci.workflows[mandatory[k]], exactSha, number.value)
    {
      var w := mandatory[i];
      if w !in ci.workflows || !RowCertifies(ci.workflows[w], exactSha, number.value) {
        return None;
      }
    }
    forall w: Workflow
      ensures w in ci.workflows && RowCertifies(ci.workflows[w], exactSha, number.value)
    {
      assert mandatory[0] == SkillSelfValidation && mandatory[1] == Quality;
      match w
      case SkillSelfValidation =>
      case Quality =>
    }
  }

  const BASELINE_FLAGS := NOT_YET.(governance := Some(true), baseline := Some(true))
  const READY_FLAGS := BASELINE_FLAGS.(exactHead := Some(true), ready := Some(true))

  function FinalizeExactHead(r: Receipt, ci: CiEvidence, numberOf: string -> Option<nat>): Option<Receipt> {
    var b := r.body;
    if && b.stage == BaselineDone && b.flags == BASELINE_FLAGS && r.digest == OfBody(b)
       && |b.content.baselineCommit| == 40
       && numberOf(b.content.prUrl).Some? && numberOf(b.content.prUrl).value > 0
       && Certifies(ci, b.content.baselineCommit, b.content.prUrl, numberOf(b.content.prUrl).value)
       && PrefixPasses(b.gates.prefix) && b.gates.g6 == BaselineAcceptedExactHeadPending
    then
      Some(Sealed(Body(ReadyForReview, b.gates.(g6 := G6Pass), READY_FLAGS,
                       b.content.(prNumber := numberOf(b.content.prUrl).value, treeSha := None, changedPaths := []),
                       OfBody(b))))
    else None
  }

  // ---------- The merge grant ----------

  datatype PrState = PrState(
    number: int, url: string, open: bool, isDraft: Option<bool>, baseBranch: string, mergeable: Option<bool>,
    behind: bool, headSha: string, authority: string, certifiedHead: string, integrationBase: string,
    parentsVerified: Option<bool>, treeVerified: Option<bool>)

  datatype BaseState = BaseState(branch: string, sha: string)

  datatype MergeGrant = MergeGrant(
    exactHead: Digest, certifiedHead: string, headSha: string, authority: string, baseBranch: string, baseSha: string,
    actor: string, approval: string, merge: bool, deploy: bool, production: bool)

  const EXACT := "certified_exact_head"
  const BASE_SYNC := "verified_base_sync"

  predicate IsSha(s: string) {
    |s| == 40 && forall i :: 0 <= i < |s| ==> s[i] in "0123456789abcdef"
  }

  /** The authority of the current head: the certified commit itself, or a verified merge of it with
      the live base. */
  function HeadAuthority(pr: PrState, certified: string, baseSha: string): Option<string> {
    if pr.headSha == certified then
      if pr.authority == "" || pr.authority == EXACT then Some(EXACT) else None
    else if && pr.authority == BASE_SYNC && pr.certifiedHead == certified && pr.integrationBase == baseSha
            && pr.parentsVerified == Some(true) && pr.treeVerified == Some(true) then
      Some(BASE_SYNC)
    else
      None
  }

  function IssueMergeGrant(
    r: Receipt, pr: PrState, base: BaseState, actor: string, owner: string, approval: string,
    numberOf: string -> Option<nat>)
    : Option<MergeGrant>
  {
    var b := r.body;
    var c := b.content;
    if && b.stage == ReadyForReview && b.flags == READY_FLAGS && r.digest == OfBody(b) && b.gates.g6 == G6Pass
       && actor == owner && actor != "" && approval != ""
       && numberOf(c.prUrl) == Some(c.prNumber) && IsSha(c.baselineCommit) && c.baseBranch != ""
       && pr.number == c.prNumber && pr.url == c.prUrl && pr.open && pr.isDraft == Some(false)
       && pr.baseBranch == c.baseBranch && pr.mergeable == Some(true) && !pr.behind
       && base.branch == c.baseBranch && IsSha(base.sha) && IsSha(pr.headSha)
       && HeadAuthority(pr, c.baselineCommit, base.sha).Some?
    then
      Some(MergeGrant(r.digest, c.baselineCommit, pr.headSha, HeadAuthority(pr, c.baselineCommit, base.sha).value,
                      c.baseBranch, base.sha, actor, approval, true, false, false))
    else None
  }

  /** A commit name is forty lower-case hexadecimal digits. */
  lemma {:induction false} ShaExactly(s: string)
    ensures IsSha(s) <==> |s| == 40 && forall i :: 0 <= i < |s| ==> '0' <= s[i] <= '9' || 'a' <= s[i] <= 'f'
  {
    forall i | 0 <= i < |s|
      ensures s[i] in "0123456789abcdef" <==> '0' <= s[i] <= '9' || 'a' <= s[i] <= 'f'
    {
      HexDigit(s[i]);
    }
  }

  /** A pull-request address names GitHub and a pull request. */
  lemma {:induction false} PullUrlExactly(s: string)
    ensures PullUrl(s) <==>
              (exists back :: s == "https://github.com/" + back) && exists front, back :: s == front + "/pull/" + back
  {
    if "https://github.com/" <= s {
      assert s == "https://github.com/" + s[|"https://github.com/"|..];
    }
    if i :| 0 <= i <= |s| && "/pull/" <= s[i..] {
      assert s == s[..i] + "/pull/" + s[i..][|"/pull/"|..];
    }
    if front, back :| s == front + "/pull/" + back {
      assert s[|front|..] == "/pull/" + back;
    }
  }

  lemma {:induction false} HexDigit(c: char)
    ensures c in "0123456789abcdef" <==> '0' <= c <= '9' || 'a' <= c <= 'f'
  {
    var digits := "0123456789abcdef";
    if '0' <= c <= '9' {
      assert digits[c as int - '0' as int] == c;
    } else if 'a' <= c <= 'f' {
      assert digits[10 + c as int - 'a' as int] == c;
    }
  }

  // ---------- The lifecycle ----------

  /** A receipt of the lifecycle never allows merge or deployment, never closes production, and has
      all of G0 to G5 passed. */
  predicate Harmless(b: Body) {
    && b.flags.merge == Some(false) && b.flags.deploy == Some(false) && b.flags.production == Some(false)
    && PrefixPasses(b.gates.prefix)
  }

  /** The flags of a stage: each is raised by the stage that earns it; merge, deployment and production by none. */
  predicate FlagsOf(stage: Stage, f: Flags) {
    && f.governance == Some(stage != DraftPublished)
    && f.baseline == Some(stage == BaselineDone || stage == ReadyForReview)
    && f.exactHead == Some(stage == ReadyForReview) && f.ready == Some(stage == ReadyForReview)
    && f.merge == Some(false) && f.deploy == Some(false) && f.production == Some(false)
  }

  /** Validation and publication agreed on this draft, and nothing was asserted before it. */
  predicate AgreedDraft(p: Publication, b: Body) {
    && p.agrees && p.gates == b.gates && p.content == b.content
    && PullUrl(p.content.prUrl) && |p.content.sourceSha| == 40 && HasTree(p.content)
    && p.flags.production == Some(false) && Unasserted(p.flags)
  }

  /** The baseline was committed on a clean checkout of the published source, for exactly the approved drift. */
  predicate CommittedFrom(w: BaselineWorld, b: Body, was: Body) {
    && w.headSha == b.content.sourceSha && w.clean && w.onlyBaselineChanged && b.content.baselineCommit == w.commit
    && Drift(w.document, w.current) == ApprovedInside(was.content.changedPaths, w.roots)
  }

  /** Both workflows completed with success on this commit, run for this very draft. */
  predicate SucceededOn(ci: CiEvidence, c: Content) {
    && ci.headSha == c.baselineCommit && ci.prUrl == c.prUrl && ci.prNumber == c.prNumber
    && ci.isDraft == Some(true) && ci.prHeadSha == c.baselineCommit
    && BothSucceeded(ci, c.baselineCommit, c.prNumber)
  }

  ghost predicate GovernedAs(path: string, paths: seq<string>) {
    exists i :: 0 <= i < |paths| && GovernedPath(paths[i]) == path
  }

  /** What a receipt rests on, beside the one before it. */
  ghost predicate Grounded(b: Body, was: Body) {
    match b.stage
    case DraftPublished => exists p :: AgreedDraft(p, b)
    case GovernanceDone =>
      && b.content.changedPaths != []
      && forall path :: path in b.content.changedPaths <==> path != "" && GovernedAs(path, was.content.changedPaths)
    case BaselineDone => exists w :: CommittedFrom(w, b, was)
    case ReadyForReview => exists ci :: SucceededOn(ci, b.content)
  }

  // Each controller takes G6 from exactly one state to the next, touches no other gate and no source
  // identity, and chains its receipt to the one it read.

  lemma {:induction false} DraftAdvances(p: Publication)
    requires RecordPublication(p).Some?
    ensures var b := RecordPublication(p).value.body;
            && Harmless(b) && b.stage == DraftPublished && b.gates == p.gates && b.gates.g6 == Pending
            && b.content == p.content && FlagsOf(DraftPublished, b.flags) && AgreedDraft(p, b) && Grounded(b, b)
  {
    hide PrefixPasses, PullUrl;
    assert AgreedDraft(p, RecordPublication(p).value.body);
  }

  lemma {:induction false} GovernanceAdvances(r: Receipt, actor: string, approval: string)
    requires CloseGovernance(r, actor, approval).Some?
    ensures var made := CloseGovernance(r, actor, approval).value;
            var b := made.body;
            && Harmless(b) && r.body.gates.g6 == Pending
               && b.gates == r.body.gates.(g6 := GovernanceClosedBaselinePending)
            && b.stage == GovernanceDone && r.body.stage == DraftPublished
            && SameIdentity(b, r.body) && b.previous == OfBody(r.body) && made.digest == OfBody(b)
            && FlagsOf(GovernanceDone, b.flags) && Grounded(b, r.body) && Trim(actor) != "" && Trim(approval) != ""
  {
    hide PrefixPasses, PullUrl, ApprovedFirst, Trim, GovernedPath;
    forall path
      ensures path in Approved(r.body.content.changedPaths) <==>
                path != "" && GovernedAs(path, r.body.content.changedPaths)
    {
      ApprovedMembers(r.body.content.changedPaths, |r.body.content.changedPaths|, path);
    }
  }

  lemma {:induction false} BaselineAdvances(r: Receipt, w: BaselineWorld)
    requires AcceptBaseline(r, w).Some?
    ensures var made := AcceptBaseline(r, w).value;
            var b := made.body;
            && Harmless(b) && r.body.gates.g6 == GovernanceClosedBaselinePending
            && b.gates == r.body.gates.(g6 := BaselineAcceptedExactHeadPending)
            && b.stage == BaselineDone && r.body.stage == GovernanceDone
            && SameIdentity(b, r.body) && b.previous == OfBody(r.body) && made.digest == OfBody(b)
            && w.headSha == b.content.sourceSha && b.content.baselineCommit == w.commit
            && FlagsOf(BaselineDone, b.flags) && Grounded(b, r.body)
  {
    hide PrefixPasses, ApprovedInside, Drift, Trim;
    assert CommittedFrom(w, AcceptBaseline(r, w).value.body, r.body);
  }

  lemma {:induction false} ExactHeadAdvances(r: Receipt, ci: CiEvidence, numberOf: string -> Option<nat>)
    requires FinalizeExactHead(r, ci, numberOf).Some?
    ensures var made := FinalizeExactHead(r, ci, numberOf).value;
            var b := made.body;
            && Harmless(b) && r.body.gates.g6 == BaselineAcceptedExactHeadPending
               && b.gates == r.body.gates.(g6 := G6Pass)
            && b.stage == ReadyForReview && r.body.stage == BaselineDone
            && SameIdentity(b, r.body) && b.previous == OfBody(r.body) && made.digest == OfBody(b)
            && ci.headSha == b.content.baselineCommit == r.body.content.baselineCommit
            && FlagsOf(ReadyForReview, b.flags) && SucceededOn(ci, b.content) && Grounded(b, r.body)
            && b.content.changedPaths == []
  {
    hide PrefixPasses;
    assert SucceededOn(ci, FinalizeExactHead(r, ci, numberOf).value.body.content);
  }

  lemma {:induction false} UnderRootExactly(path: string, roots: set<string>)
    ensures UnderRoot(path, roots) <==> exists root, rest :: root in roots && path == root + "/" + rest
  {
    if root :| root in roots && root + "/" <= path {
      assert path == root + "/" + path[|root| + 1..];
    }
    if root, rest :| root in roots && path == root + "/" + rest {
      assert root + "/" <= path;
    }
  }

  /** A draft receipt is made exactly of an agreed publication with all of G0 to G5 passed and G6 pending. */
  lemma {:induction false} DraftExactly(p: Publication)
    ensures RecordPublication(p).Some? <==>
              && p.agrees && PullUrl(p.content.prUrl)
              && (forall g: Gate :: g in p.gates.prefix && p.gates.prefix[g] == "PASS") && p.gates.g6 == Pending
              && p.flags.production == Some(false) && p.flags.governance == Some(false)
                 && p.flags.baseline == Some(false)
              && p.flags.exactHead == Some(false) && p.flags.ready == Some(false)
              && |p.content.sourceSha| == 40 && p.content.treeSha.Some? && |p.content.treeSha.value| == 40
  {
    hide PullUrl;
  }

  /** Governance is closed exactly on a draft receipt in order, by someone and under an approval that are named,
      for at least one path. */
  lemma {:induction false} GovernanceExactly(r: Receipt, actor: string, approval: string)
    ensures CloseGovernance(r, actor, approval).Some? <==>
              var b := r.body;
              && b.stage == DraftPublished && b.gates.g6 == Pending
              && (forall g: Gate :: g in b.gates.prefix && b.gates.prefix[g] == "PASS")
              && b.flags.production == Some(false) && b.flags.governance == Some(false)
                 && b.flags.baseline == Some(false)
              && b.flags.exactHead == Some(false) && b.flags.ready == Some(false)
              && Trim(actor) != "" && Trim(approval) != "" && PullUrl(b.content.prUrl)
              && |b.content.sourceSha| == 40 && b.content.treeSha.Some? && |b.content.treeSha.value| == 40
              && exists i :: 0 <= i < |b.content.changedPaths| && GovernedPath(b.content.changedPaths[i]) != ""
  {
    hide PullUrl, ApprovedFirst, GovernedPath, Trim;
    var paths := r.body.content.changedPaths;
    if Approved(paths) != [] {
      ApprovedMembers(paths, |paths|, Approved(paths)[0]);
    }
    forall i | 0 <= i < |paths| && GovernedPath(paths[i]) != ""
      ensures Approved(paths) != []
    {
      ApprovedMembers(paths, |paths|, GovernedPath(paths[i]));
    }
  }

  /** A baseline is accepted exactly on an intact governance receipt, in a clean checkout of the published
      source, when the snapshot drifted at exactly the approved protected paths and the commit changed
      nothing else. */
  lemma {:induction false} BaselineExactly(r: Receipt, w: BaselineWorld)
    ensures AcceptBaseline(r, w).Some? <==>
              var b := r.body;
              && b.stage == GovernanceDone && FlagsOf(GovernanceDone, b.flags) && r.digest == OfBody(b)
              && (forall g: Gate :: g in b.gates.prefix && b.gates.prefix[g] == "PASS")
              && b.gates.g6 == GovernanceClosedBaselinePending
              && |b.content.sourceSha| == 40 && w.headSha == b.content.sourceSha && w.clean && w.onlyBaselineChanged
              && (exists raw :: raw in b.content.changedPaths && Trim(raw) != "")
              && Drift(w.document, w.current) == ApprovedInside(b.content.changedPaths, w.roots)
  {
    hide Drift, ApprovedInside, Trim;
  }

  /** An exact-head receipt is made exactly when the baseline receipt is in order and both workflows completed
      with success on the baseline commit, run for the draft the receipt is about. */
  lemma {:induction false} ExactHeadExactly(r: Receipt, ci: CiEvidence, numberOf: string -> Option<nat>)
    ensures FinalizeExactHead(r, ci, numberOf).Some? <==>
              var b := r.body;
              && b.stage == BaselineDone && FlagsOf(BaselineDone, b.flags) && r.digest == OfBody(b)
              && |b.content.baselineCommit| == 40
              && (forall g: Gate :: g in b.gates.prefix && b.gates.prefix[g] == "PASS")
              && b.gates.g6 == BaselineAcceptedExactHeadPending
              && numberOf(b.content.prUrl).Some? && numberOf(b.content.prUrl).value > 0
              && SucceededOn(ci, b.content.(prNumber := numberOf(b.content.prUrl).value))
  {
  }

  /** The same source, pull request and base; the same tree too, except in an exact-head receipt. */
  predicate SameIdentity(b: Body, was: Body) {
    && b.content.sourceSha == was.content.sourceSha
    && b.content.treeSha == (if b.stage == ReadyForReview then None else was.content.treeSha)
    && b.content.prUrl == was.content.prUrl && b.content.baseBranch == was.content.baseBranch
  }

  /** A merge grant is issued on an exact-head receipt only, for its commit or a verified merge of it with
      the live base, and is the first to allow a merge. */
  lemma {:induction false} GrantRests(
    r: Receipt, pr: PrState, base: BaseState, actor: string, owner: string, approval: string,
    numberOf: string -> Option<nat>)
    requires IssueMergeGrant(r, pr, base, actor, owner, approval, numberOf).Some?
    ensures var grant := IssueMergeGrant(r, pr, base, actor, owner, approval, numberOf).value;
            && r.body.stage == ReadyForReview && r.digest == OfBody(r.body)
            && grant.exactHead == OfBody(r.body) && grant.certifiedHead == r.body.content.baselineCommit
            && grant.merge && !grant.deploy && !grant.production && grant.headSha == pr.headSha
            && grant.baseBranch == base.branch && grant.baseSha == base.sha && grant.actor == owner
               && grant.approval == approval
            && ((grant.headSha == grant.certifiedHead && grant.authority == EXACT) ||
                (grant.authority == BASE_SYNC && pr.integrationBase == base.sha && pr.treeVerified == Some(true)))
  {
    hide IsSha;
  }

  /** The head is the certified commit, without conflicting authority, or a merge of it with the live base
      whose parents and tree were verified. */
  predicate HeadStands(pr: PrState, certified: string, baseSha: string) {
    if pr.headSha == certified then pr.authority in {"", "certified_exact_head"}
    else
      && pr.authority == "verified_base_sync" && pr.certifiedHead == certified && pr.integrationBase == baseSha
      && pr.parentsVerified == Some(true) && pr.treeVerified == Some(true)
  }

  /** A merge grant is issued exactly on an intact exact-head receipt with G6 passed, to the owner with an
      approval, for the open, ready, mergeable and current pull request of the receipt. */
  lemma {:induction false} GrantIssuedExactly(
    r: Receipt, pr: PrState, base: BaseState, actor: string, owner: string, approval: string,
    numberOf: string -> Option<nat>)
    ensures IssueMergeGrant(r, pr, base, actor, owner, approval, numberOf).Some? <==>
              var c := r.body.content;
              && r.body.stage == ReadyForReview && FlagsOf(ReadyForReview, r.body.flags) && r.digest == OfBody(r.body)
              && r.body.gates.g6 == G6Pass
              && actor == owner != "" && approval != ""
              && numberOf(c.prUrl) == Some(c.prNumber) && pr.url == c.prUrl && pr.number == c.prNumber
              && pr.open && pr.isDraft == Some(false) && pr.mergeable == Some(true) && !pr.behind
              && pr.baseBranch == base.branch == c.baseBranch != ""
              && IsSha(c.baselineCommit) && IsSha(base.sha) && IsSha(pr.headSha)
              && HeadStands(pr, c.baselineCommit, base.sha)
  {
    hide IsSha;
  }

  lemma {:induction false} AcceptedExample(p: Publication)
    requires p.agrees && p.flags == NOT_YET && PrefixPasses(p.gates.prefix) && p.gates.g6 == Pending
    requires |p.content.sourceSha| == 40 && HasTree(p.content)
    requires p.content.prUrl == "https://github.com/x/pull/1" && p.content.changedPaths == ["a"]
    ensures RecordPublication(p).Some? && CloseGovernance(RecordPublication(p).value, "a", "b").Some?
  {
    hide PrefixPasses, Trim, Slashes;
    var url := p.content.prUrl;
    assert url[|"https://github.com/x"|..] == "/pull/1";
    assert "https://github.com/" <= url && "/pull/" <= url[20..];
    TrimFixed("a");
    TrimFixed("b");
    SlashesFixed("a");
    assert GovernedPath("a") == "a";
    assert ApprovedFirst(["a"], 0) == [];
    assert ApprovedFirst(["a"], 1) == ["a"];
  }

  lemma {:induction false} ApprovedMembers(paths: seq<string>, n: nat, p: string)
    requires n <= |paths|
    ensures p in ApprovedFirst(paths, n) <==> p != "" && exists i :: 0 <= i < n && GovernedPath(paths[i]) == p
  {
    hide GovernedPath;
    if n > 0 {
      ApprovedMembers(paths, n - 1, p);
    }
  }

  lemma {:induction false} GovernedTwice(raw: string)
    ensures GovernedPath(GovernedPath(raw)) == GovernedPath(raw)
  {
    TrimIsTrimmed(raw);
    SlashesTrim(Trim(raw));
    TrimFixed(Trim(raw));
    SlashesFixed(Trim(raw));
    SlashesFixed(Slashes(Trim(raw)));
  }

  /** An accepted baseline differs from the recorded one at exactly those paths under a protected
      root that the published change named: nothing unapproved, and nothing approved missing. */
  lemma {:induction false} BaselineDriftExactly(
    draft: Receipt, actor: string, approval: string, governed: Receipt, w: BaselineWorld, path: string)
    requires CloseGovernance(draft, actor, approval) == Some(governed) && AcceptBaseline(governed, w).Some?
    ensures path in Drift(w.document, w.current) <==>
              && path != "" && UnderRoot(path, w.roots)
              && exists i ::
                   && 0 <= i < |draft.body.content.changedPaths|
                   && GovernedPath(draft.body.content.changedPaths[i]) == path
  {
    hide PrefixPasses, PullUrl, Drift, GovernedPath, Trim, UnderRoot;
    var changed := draft.body.content.changedPaths;
    var approved := governed.body.content.changedPaths;
    assert approved == Approved(changed);
    ApprovedMembers(changed, |changed|, path);
    forall raw | raw in approved
      ensures GovernedPath(raw) == raw && raw != ""
    {
      ApprovedMembers(changed, |changed|, raw);
      var i :| 0 <= i < |changed| && GovernedPath(changed[i]) == raw;
      GovernedTwice(changed[i]);
    }
    assert path in ApprovedInside(approved, w.roots) <==> path in approved && UnderRoot(path, w.roots);
  }
}
