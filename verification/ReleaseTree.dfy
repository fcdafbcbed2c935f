/** The writer and the verifier of a clean release tree (scripts/release_artifact.py). */
module ReleaseTree {
  import opened Wrappers
  import opened RepoPath
  import opened ReleaseLines

  function FileList(): string {
    "release/FILE_LIST.txt"
  }

  function ManifestFile(): string {
    "release/MANIFEST.json"
  }

  function SumsFile(): string {
    "release/SHA256SUMS.txt"
  }

  function ReportFile(): string {
    "release/VALIDATION_REPORT.md"
  }

  function VersionFile(): string {
    "VERSION"
  }

  function SkillFile(): string {
    "architecture-skill/manifest.json"
  }

  function DistIndex(): string {
    "services/agent-service/frontend/dist/index.html"
  }

  function DistAssets(): string {
    "services/agent-service/frontend/dist/assets"
  }

  function AttestationCopy(): string {
    "release/provenance/evidence-attestation.json"
  }

  function SummaryCopy(): string {
    "release/provenance/run-summary.json"
  }

  function SnapshotCopy(): string {
    "release/provenance/workspace-snapshot.json"
  }

  function ClaimCopy(): string {
    "release/provenance/claim-manifest.json"
  }

  /** What a manifest embeds of a verified quality run. */
  datatype Evidence = Evidence(
    mode: string, commit: string, runId: string, identity: string, snapshot: string, bundleName: string, bundle: string,
    attestation: string, embedded: map<string, string>)

  datatype Manifest = Manifest(
    schemaVersion: int, profile: string, level: string, version: string, skillVersion: string, fingerprint: string,
    fileCount: nat, payloadFileCount: nat, packageFileCount: Option<nat>, buildMode: string, evidence: Option<Evidence>,
    generatedAt: string)

  /** The host: digests, JSON, the order in which a directory is listed, and names that may not ship. */
  datatype Host = Host(
    sha: string -> string,
    fingerprint: map<string, string> -> string,
    dump: Manifest -> string,
    parse: string -> Option<Manifest>,
    skillVersion: string -> Option<string>,
    list: set<string> -> seq<string>,
    forbidden: string -> bool,
    allowedTop: string -> bool,
    validIdentity: string -> bool)

  /** What the host's parts promise. */
  ghost predicate HostSound(host: Host) {
    && (forall text :: NoBlank(host.sha(text)) && host.sha(text) != "")
    && (forall m :: host.parse(host.dump(m)) == Some(m))
    && (forall s: set<string> :: ListsAll(host.list(s), s))
  }

  ghost predicate ListsAll<K(!new)>(names: seq<K>, s: set<K>) {
    && |names| == |s| && forall x :: x in names <==> x in s
  }

  type Files = map<string, string>

  /** A tree of regular files, symbolic links and directories, by relative name. */
  datatype Tree = Tree(files: Files, links: set<string>, dirs: set<string>)

  predicate IsMetadata(name: string) {
    name == "release" || "release/" <= name
  }

  function Metadata(): set<string> {
    {FileList(), ManifestFile(), ReportFile(), SumsFile()}
  }

  function Top(name: string): string {
    Split(name)[0]
  }

  function PayloadNames(files: Files): set<string> {
    set x | x in files && !IsMetadata(x)
  }

  function Payload(files: Files, host: Host): seq<string> {
    host.list(PayloadNames(files))
  }

  function Digests(files: Files, names: set<string>, host: Host): map<string, string> {
    map x | x in files && x in names :: host.sha(files[x])
  }

  function SourceFingerprint(files: Files, host: Host): string {
    host.fingerprint(Digests(files, PayloadNames(files), host))
  }

  /** Everything the checksum list covers: all files but itself. */
  function Summed(files: Files): set<string> {
    files.Keys - {SumsFile()}
  }

  // ---------- The verifier ----------

  predicate EvidenceAccepted(m: Manifest, files: Files, host: Host) {
    match m.evidence
    case None => true
    case Some(e) =>
      && e.snapshot != "" && e.bundleName != "" && e.bundle != "" && e.attestation != ""
      && e.commit != "" && e.runId != "" && e.embedded != map[]
      && (forall x :: x in e.embedded ==> x in files && host.sha(files[x]) == e.embedded[x])
      && (AttestationCopy() in files ==> host.sha(files[AttestationCopy()]) == e.attestation)
  }

  predicate LevelAccepted(m: Manifest, host: Host) {
    || m.level == "candidate"
    || (&& m.level == "protected-release" && m.evidence.Some? && m.evidence.value.mode == "release"
        && m.evidence.value.commit !in {"", "local-uncommitted"} && m.evidence.value.runId !in {"", "local"}
        && host.validIdentity(m.evidence.value.identity) && m.buildMode == "npm-ci-stage")
  }

  predicate ManifestAccepted(m: Manifest, files: Files, host: Host) {
    && m.schemaVersion == 4 && m.profile == "clean-release"
    && m.fileCount == |PayloadNames(files)| && m.payloadFileCount == |PayloadNames(files)|
    && m.packageFileCount == Some(|files|)
    && m.fingerprint == SourceFingerprint(files, host)
    && EvidenceAccepted(m, files, host) && LevelAccepted(m, host)
    && VersionFile() in files && m.version == Trim(files[VersionFile()])
  }

  /** Composition: only allowed names, no links, no forbidden file, all metadata and the rebuilt dist. */
  predicate Composed(t: Tree, host: Host) {
    && (forall x :: x in Entries(t) ==> host.allowedTop(Top(x)))
    && t.links == {}
    && (forall x :: x in t.files ==> !host.forbidden(x))
    && Metadata() <= t.files.Keys
    && DistIndex() in t.files && DistAssets() in t.dirs
  }

  /** What an accepted tree is. */
  ghost predicate Accepted(t: Tree, host: Host) {
    && Composed(t, host)
    && ReadList(t.files[FileList()]) == Payload(t.files, host)
    && ReadSums(t.files[SumsFile()]) == Some(Digests(t.files, Summed(t.files), host))
    && host.parse(t.files[ManifestFile()]).Some?
    && ManifestAccepted(host.parse(t.files[ManifestFile()]).value, t.files, host)
  }

  /** What the manifest of an accepted tree can be relied on for: it counts the files inside and outside
      release/, names the version and the fingerprint of the payload, and embeds only complete evidence whose
      copies are in the tree; a protected release embeds that of a release run of a known commit and workflow. */
  lemma {:induction false} AcceptedMeans(t: Tree, host: Host)
    requires Accepted(t, host)
    ensures var m := host.parse(t.files[ManifestFile()]).value;
            && m.schemaVersion == 4 && m.profile == "clean-release"
            && m.fileCount == m.payloadFileCount == |PayloadNames(t.files)| && m.packageFileCount == Some(|t.files|)
            && m.fingerprint == SourceFingerprint(t.files, host)
            && VersionFile() in t.files && m.version == Trim(t.files[VersionFile()])
            && (m.evidence.Some? ==>
                  var e := m.evidence.value;
                  && "" !in {e.snapshot, e.bundleName, e.bundle, e.attestation, e.commit, e.runId}
                     && e.embedded != map[]
                  && (forall x :: x in e.embedded ==> x in t.files && host.sha(t.files[x]) == e.embedded[x])
                  && (AttestationCopy() in t.files ==> host.sha(t.files[AttestationCopy()]) == e.attestation))
            && (m.level == "candidate"
                || (&& m.level == "protected-release" && m.buildMode == "npm-ci-stage" && m.evidence.Some?
                    && m.evidence.value.mode == "release" && m.evidence.value.commit != "local-uncommitted"
                    && m.evidence.value.runId != "local" && host.validIdentity(m.evidence.value.identity)))
    ensures forall x :: x in t.files && x != SumsFile() ==>
              var rows := ReadSums(t.files[SumsFile()]);
              rows.Some? && x in rows.value && rows.value[x] == host.sha(t.files[x])
  {
    hide FileList, ManifestFile, SumsFile, ReportFile, VersionFile, AttestationCopy, DistIndex, DistAssets, ReadSums,
      ReadList, Payload, PayloadNames, SourceFingerprint, Top;
  }

  datatype Problem =
    | UnexpectedTopLevel(name: string)
    | SymlinkNotAllowed(name: string)
    | ForbiddenFile(name: string)
    | MissingMetadata(name: string)
    | FileListMismatch
    | InvalidSumRow
    | SumFileSetMismatch
    | SumMismatch(name: string)
    | ManifestInvalid
    | ManifestMismatch
    | DistMissing

  /** The verifier collects problems; there is none exactly when the tree is accepted. */
  method VerifyReleaseTree(t: Tree, host: Host) returns (problems: seq<Problem>)
    requires HostSound(host)
    ensures problems == [] <==> Accepted(t, host)
  {
    hide FileList, ManifestFile, SumsFile, ReportFile, VersionFile, SkillFile, DistIndex, DistAssets, HostSound,
      ReadList, ReadSums, ManifestAccepted, Payload, Digests, Split;
    problems := Composition(t, host);
    if problems != [] {
      return;
    }
    if ReadList(t.files[FileList()]) != Payload(t.files, host) {
      problems := problems + [FileListMismatch];
    }
    var sums := VerifySums(t.files, host);
    problems := problems + sums;
    var parsed := host.parse(t.files[ManifestFile()]);
    if parsed.None? {
      problems := problems + [ManifestInvalid];
    } else if !ManifestAccepted(parsed.value, t.files, host) {
      problems := problems + [ManifestMismatch];
    }
    if DistIndex() !in t.files || DistAssets() !in t.dirs {
      problems := problems + [DistMissing];
    }
  }

  predicate CompositionOk(t: Tree, host: Host) {
    && (forall x :: x in Entries(t) ==> host.allowedTop(Top(x)))
    && t.links == {}
    && (forall x :: x in t.files ==> !host.forbidden(x))
    && Metadata() <= t.files.Keys
  }

  function Entries(t: Tree): set<string> {
    t.files.Keys + t.links + t.dirs
  }

  method Composition(t: Tree, host: Host) returns (problems: seq<Problem>)
    requires HostSound(host)
    ensures problems == [] <==> CompositionOk(t, host)
  {
    hide FileList, ManifestFile, SumsFile, ReportFile, VersionFile, SkillFile, DistIndex, DistAssets, Top, HostSound;
    var tops := TopLevelProblems(t, host);
    var files := FileProblems(t, host);
    var missing := MissingProblems(t.files, [FileList(), ManifestFile(), ReportFile(), SumsFile()]);
    AllFour(FileList(), ManifestFile(), ReportFile(), SumsFile(), t.files.Keys);
    return tops + files + missing;
  }

  method TopLevelProblems(t: Tree, host: Host) returns (problems: seq<Problem>)
    requires HostSound(host)
    ensures problems == [] <==> forall x :: x in Entries(t) ==> host.allowedTop(Top(x))
  {
    hide Top, Entries;
    problems := [];
    var entries := host.list(Entries(t));
    assert ListsAll(entries, Entries(t));
    for i := 0 to |entries|
      invariant problems == [] <==> forall k :: 0 <= k < i ==> host.allowedTop(Top(entries[k]))
    {
      if !host.allowedTop(Top(entries[i])) {
        problems := problems + [UnexpectedTopLevel(Top(entries[i]))];
      }
    }
    if problems == [] {
      forall x | x in Entries(t)
        ensures host.allowedTop(Top(x))
      {
        assert x in entries;
        var k :| 0 <= k < |entries| && entries[k] == x;
      }
    } else {
      var k :| 0 <= k < |entries| && !host.allowedTop(Top(entries[k]));
      assert entries[k] in entries;
    }
  }

  predicate Sound(x: string, t: Tree, host: Host) {
    x !in t.links && (x in t.files ==> !host.forbidden(x))
  }

  method FileProblems(t: Tree, host: Host) returns (problems: seq<Problem>)
    requires HostSound(host)
    ensures problems == [] <==> t.links == {} && forall x :: x in t.files ==> !host.forbidden(x)
  {
    hide Entries;
    problems := [];
    var entries := host.list(Entries(t));
    assert ListsAll(entries, Entries(t));
    for i := 0 to |entries|
      invariant problems == [] <==> forall k :: 0 <= k < i ==> Sound(entries[k], t, host)
    {
      if entries[i] in t.links {
        problems := problems + [SymlinkNotAllowed(entries[i])];
      }
      if entries[i] in t.files && host.forbidden(entries[i]) {
        problems := problems + [ForbiddenFile(entries[i])];
      }
    }
    AllSound(entries, t, host);
  }

  lemma {:induction false} AllSound(entries: seq<string>, t: Tree, host: Host)
    requires forall x :: x in entries <==> x in Entries(t)
    ensures (forall k :: 0 <= k < |entries| ==> Sound(entries[k], t, host)) <==>
              t.links == {} && forall x :: x in t.files ==> !host.forbidden(x)
  {
    if forall k :: 0 <= k < |entries| ==> Sound(entries[k], t, host) {
      forall x | x in Entries(t)
        ensures Sound(x, t, host)
      {
        assert x in entries;
        var k :| 0 <= k < |entries| && entries[k] == x;
      }
      assert forall x :: x in t.links ==> x in Entries(t) && Sound(x, t, host);
      assert forall x :: x in t.files ==> x in Entries(t) && Sound(x, t, host);
    }
  }

  method MissingProblems(files: Files, metadata: seq<string>) returns (problems: seq<Problem>)
    ensures problems == [] <==> forall x :: x in metadata ==> x in files
  {
    problems := [];
    for i := 0 to |metadata|
      invariant problems == [] <==> forall k :: 0 <= k < i ==> metadata[k] in files
    {
      if metadata[i] !in files {
        problems := problems + [MissingMetadata(metadata[i])];
      }
    }
    if problems == [] {
      forall x | x in metadata
        ensures x in files
      {
        var k :| 0 <= k < |metadata| && metadata[k] == x;
      }
    } else {
      var k :| 0 <= k < |metadata| && metadata[k] !in files;
      assert metadata[k] in metadata;
    }
  }

  lemma {:induction false} AllFour<K>(a: K, b: K, c: K, d: K, names: set<K>)
    ensures (forall x :: x in [a, b, c, d] ==> x in names) <==> {a, b, c, d} <= names
  {
    assert a in [a, b, c, d] && b in [a, b, c, d] && c in [a, b, c, d] && d in [a, b, c, d];
  }

  method VerifySums(files: Files, host: Host) returns (problems: seq<Problem>)
    requires HostSound(host) && SumsFile() in files
    ensures problems == [] <==> ReadSums(files[SumsFile()]) == Some(Digests(files, Summed(files), host))
  {
    hide FileList, ManifestFile, SumsFile, ReportFile, VersionFile, SkillFile, DistIndex, DistAssets, ReadSums, Digests,
      Summed, RowMatches;
    problems := [];
    var sums := ReadSums(files[SumsFile()]);
    if sums.None? {
      return [InvalidSumRow];
    }
    var rows := sums.value;
    if rows.Keys != Summed(files) {
      problems := problems + [SumFileSetMismatch];
    }
    var expected := host.list(Summed(files));
    assert ListsAll(expected, Summed(files));
    for i := 0 to |expected|
      invariant problems == [] <==>
        rows.Keys == Summed(files) && forall k :: 0 <= k < i ==> RowMatches(rows, files, expected[k], host)
    {
      if !RowMatches(rows, files, expected[i], host) {
        problems := problems + [SumMismatch(expected[i])];
      }
    }
    RowsExactly(rows, files, expected, host);
  }

  predicate RowMatches(rows: map<string, string>, files: Files, name: string, host: Host) {
    name in rows && name in files && rows[name] == host.sha(files[name])
  }

  lemma {:induction false} RowsExactly(rows: map<string, string>, files: Files, expected: seq<string>, host: Host)
    requires forall x :: x in expected <==> x in Summed(files)
    ensures rows == Digests(files, Summed(files), host) <==>
              rows.Keys == Summed(files) && forall k :: 0 <= k < |expected| ==>
                RowMatches(rows, files, expected[k], host)
  {
    hide FileList, ManifestFile, SumsFile, ReportFile, VersionFile, SkillFile, DistIndex, DistAssets;
    var digests := Digests(files, Summed(files), host);
    assert digests.Keys == Summed(files);
    if rows.Keys == Summed(files) && forall k :: 0 <= k < |expected| ==> RowMatches(rows, files, expected[k], host) {
      forall x | x in rows
        ensures rows[x] == digests[x]
      {
        assert x in expected;
        var k :| 0 <= k < |expected| && expected[k] == x;
      }
      assert rows == digests;
    }
    if rows == digests {
      forall k | 0 <= k < |expected|
        ensures RowMatches(rows, files, expected[k], host)
      {
        assert expected[k] in expected;
      }
    }
  }

  // ---------- The writer ----------

  datatype Inputs = Inputs(
    buildMode: string, level: string, generatedAt: string, evidence: Option<Evidence>,
    report: (string, Option<Evidence>) -> string)

  /** A verified quality run: what its summary and the environment say of it, where one of them is silent
      the empty text, the digests recorded when it was verified, and its evidence directory. */
  datatype Provenance = Provenance(
    mode: string, commit: string, runId: string, identity: string, snapshot: string, bundleName: string, bundle: string,
    attestation: string, snapshotFile: string, claimFile: string, directory: map<string, string>)

  function Or(name: string, fallback: string): string {
    if name == "" then fallback else name
  }

  /** The files to embed, each with the name of its copy. */
  function Sources(p: Provenance): seq<(string, string)> {
    [("evidence-attestation.json", AttestationCopy()), ("run-summary.json", SummaryCopy()),
     (Or(p.snapshotFile, "workspace-snapshot.json"), SnapshotCopy()),
     (Or(p.claimFile, "claim-manifest.json"), ClaimCopy())]
  }

  predicate Obtainable(p: Provenance) {
    forall i :: 0 <= i < |Sources(p)| ==> Sources(p)[i].0 in p.directory
  }

  function TextOf(p: Provenance, name: string): string {
    if name in p.directory then p.directory[name] else ""
  }

  function CopiesFirst(p: Provenance, n: nat): map<string, string>
    requires n <= |Sources(p)|
  {
    if n == 0 then map[] else CopiesFirst(p, n - 1)[Sources(p)[n - 1].1 := TextOf(p, Sources(p)[n - 1].0)]
  }

  function Copies(p: Provenance): map<string, string> {
    CopiesFirst(p, |Sources(p)|)
  }

  function DigestsOf(copies: map<string, string>, host: Host): map<string, string> {
    map x | x in copies :: host.sha(copies[x])
  }

  function EvidenceOf(p: Provenance, host: Host): Evidence {
    Evidence(p.mode, Or(p.commit, "local-uncommitted"), Or(p.runId, "local"), p.identity, p.snapshot, p.bundleName,
             p.bundle, p.attestation, DigestsOf(Copies(p), host))
  }

  /** The inputs with what the provenance contributes. */
  function Prepared(inputs: Inputs, provenance: Option<Provenance>, host: Host): Inputs {
    inputs.(evidence := match provenance case None => None case Some(p) => Some(EvidenceOf(p, host)))
  }

  /** The tree with the copies of the evidence in it. */
  function Staged(t: Tree, provenance: Option<Provenance>): Tree {
    match provenance
    case None => t
    case Some(p) => t.(files := t.files + Copies(p), dirs := t.dirs + {"release/provenance"})
  }

  function MetadataAnd(provenance: Option<Provenance>): set<string> {
    Metadata() + match provenance case None => {} case Some(p) => Copies(p).Keys
  }

  /** The writer can start: version and skill manifest are there, and release/ can take what it writes. */
  predicate Writable(t: Tree, host: Host, provenance: Option<Provenance>) {
    && VersionFile() in t.files && SkillFile() in t.files && host.skillVersion(t.files[SkillFile()]).Some?
    && "release" !in t.files && "release" !in t.links
    && (provenance.Some? ==> "release/provenance" !in t.files && "release/provenance" !in t.links)
    && MetadataAnd(provenance) !! t.links + t.dirs
  }

  datatype WriteResult = Done | NotWritable | MissingEvidence(name: string) | BundleRequired

  function ManifestOf(files: Files, host: Host, inputs: Inputs, skill: string, packageCount: Option<nat>): Manifest
    requires VersionFile() in files
  {
    Manifest(4, "clean-release", inputs.level, Trim(files[VersionFile()]), skill, SourceFingerprint(files, host),
             |PayloadNames(files)|, |PayloadNames(files)|, packageCount, inputs.buildMode, inputs.evidence,
             inputs.generatedAt)
  }

  function SumsText(files: Files, host: Host): string
    requires HostSound(host)
  {
    var names := host.list(Summed(files));
    assert ListsAll(names, Summed(files));
    WriteSums(Digests(files, Summed(files), host), names)
  }

  /** The files with all metadata but the checksum list. */
  ghost function Described(files: Files, host: Host, inputs: Inputs, skill: string): Files
    requires VersionFile() in files
  {
    var count := |files.Keys + {FileList(), ManifestFile(), ReportFile(), SumsFile()}|;
    files[FileList() := WriteLines(Payload(files, host))]
         [ManifestFile() := host.dump(ManifestOf(files, host, inputs, skill, Some(count)))]
         [ReportFile() := inputs.report(Trim(files[VersionFile()]), inputs.evidence)]
  }

  /** The files in the end: the payload untouched, the four metadata files final. */
  ghost function Written(files: Files, host: Host, inputs: Inputs, skill: string): Files
    requires VersionFile() in files && HostSound(host)
  {
    var described := Described(files, host, inputs, skill);
    described[SumsFile() := SumsText(described, host)]
  }

  /** Two trees agree outside release/. */
  ghost predicate SameOutside(a: Files, b: Files) {
    forall x :: !IsMetadata(x) ==> (x in a <==> x in b) && (x in a ==> a[x] == b[x])
  }

  lemma {:induction false} MetadataNames()
    ensures FileList() != ManifestFile() && FileList() != ReportFile() && FileList() != SumsFile()
    ensures ManifestFile() != ReportFile() && ManifestFile() != SumsFile() && ReportFile() != SumsFile()
    ensures forall x :: x in Metadata() ==> IsMetadata(x)
    ensures !IsMetadata(VersionFile())
  {
    assert FileList()[8] == 'F' && ManifestFile()[8] == 'M';
    assert |FileList()| == 21 && |ManifestFile()| == 21 && |SumsFile()| == 22 && |ReportFile()| == 28;
    assert |VersionFile()| == 7 && VersionFile()[0] == 'V';
  }

  lemma {:induction false} SameSources(a: Files, b: Files, host: Host)
    requires SameOutside(a, b)
    ensures PayloadNames(a) == PayloadNames(b) && Payload(a, host) == Payload(b, host)
    ensures SourceFingerprint(a, host) == SourceFingerprint(b, host)
  {
    hide FileList, ManifestFile, SumsFile, ReportFile, VersionFile, SkillFile, DistIndex, DistAssets, IsMetadata;
    assert PayloadNames(a) == PayloadNames(b);
    assert Digests(a, PayloadNames(a), host) == Digests(b, PayloadNames(b), host);
  }

  lemma {:induction false} FirstManifest(before: Files, list: string, host: Host, inputs: Inputs, skill: string)
    requires VersionFile() in before
    ensures var listed := before[FileList() := list];
            && VersionFile() in listed
            && var first := ManifestOf(listed, host, inputs, skill, None);
               forall count :: first.(packageFileCount := count) == ManifestOf(before, host, inputs, skill, count)
  {
    hide FileList, ManifestFile, SumsFile, ReportFile, VersionFile, SkillFile, DistIndex, DistAssets, IsMetadata,
      SourceFingerprint, Payload;
    MetadataNames();
    SameSources(before, before[FileList() := list], host);
  }

  /** Writing a second time under one name: the rest stands. */
  lemma {:induction false} RewriteTwice<K, V>(
    before: map<K, V>, a: K, b: K, c: K, d: K, va: V, vb: V, vc: V, vd: V, again: V)
    requires a != b && a != c && a != d && b != c && b != d && c != d
    ensures var once := before[a := va][b := vb][c := vc][d := vd];
            && once.Keys == before.Keys + {a, b, c, d} && |once| == |before.Keys + {a, b, c, d}|
            && once[b := again] - {d} == before[a := va][b := again][c := vc] - {d}
  {
    var once := before[a := va][b := vb][c := vc][d := vd];
    assert once.Keys == before.Keys + {a, b, c, d};
    assert |once.Keys| == |once|;
    assert once[b := again] - {d} == before[a := va][b := again][c := vc] - {d};
  }

  /** Four entries written under distinct names. */
  lemma {:induction false} WriteFour<K, V>(before: map<K, V>, a: K, b: K, c: K, d: K, va: V, vb: V, vc: V, vd: V)
    requires a != b && a != c && a != d && b != c && b != d && c != d
    ensures var three := before[a := va][b := vb][c := vc];
            var four := three[d := vd];
            && four.Keys == before.Keys + {a, b, c, d} && |four| == |before.Keys + {a, b, c, d}|
            && four[a] == va && four[b] == vb && four[c] == vc && four[d] == vd
            && three - {d} == four - {d}
            && forall x :: x !in {a, b, c, d} ==> (x in four <==> x in before) && (x in four ==> four[x] == before[x])
  {
    var four := before[a := va][b := vb][c := vc][d := vd];
    assert four.Keys == before.Keys + {a, b, c, d};
    assert |four.Keys| == |four|;
  }

  lemma {:induction false} SameButOne<K, V>(a: map<K, V>, b: map<K, V>, d: K, v: V)
    requires a - {d} == b - {d}
    ensures a[d := v] == b[d := v]
  {
    assert forall x :: x != d ==> (x in a <==> x in a - {d}) && (x in b <==> x in b - {d});
    assert forall x :: x in a - {d} ==> a[x] == (a - {d})[x];
    assert forall x :: x in b - {d} ==> b[x] == (b - {d})[x];
  }

  lemma {:induction false} AllListed<K(!new)>(names: seq<K>, s: set<K>, p: K -> bool)
    requires ListsAll(names, s)
    ensures (forall i :: 0 <= i < |names| ==> p(names[i])) <==> forall x :: x in s ==> p(x)
  {
    if forall i :: 0 <= i < |names| ==> p(names[i]) {
      forall x | x in s
        ensures p(x)
      {
        assert x in names;
        var i :| 0 <= i < |names| && names[i] == x;
      }
    }
    if forall x :: x in s ==> p(x) {
      assert forall i :: 0 <= i < |names| ==> names[i] in names;
    }
  }

  lemma {:induction false} SameSums(a: Files, b: Files, host: Host)
    requires HostSound(host) && a - {SumsFile()} == b - {SumsFile()}
    ensures SumsText(a, host) == SumsText(b, host)
  {
    hide FileList, ManifestFile, SumsFile, ReportFile, VersionFile, SkillFile, DistIndex, DistAssets;
    assert Summed(a) == (a - {SumsFile()}).Keys && Summed(b) == (b - {SumsFile()}).Keys;
    assert forall x :: x in Summed(a) ==> a[x] == (a - {SumsFile()})[x] && b[x] == (b - {SumsFile()})[x];
    assert Digests(a, Summed(a), host) == Digests(b, Summed(b), host);
  }

  /** The copies of embedded evidence are metadata, with names of their own. */
  lemma {:induction false} CopyNames()
    ensures forall x :: x in CopySet() ==> IsMetadata(x) && x !in Metadata()
    ensures AttestationCopy() !in {SummaryCopy(), SnapshotCopy(), ClaimCopy()}
  {
    assert |AttestationCopy()| == 44 && |SummaryCopy()| == 35 && |SnapshotCopy()| == 42 && |ClaimCopy()| == 38;
    assert |FileList()| == 21 && |ManifestFile()| == 21 && |SumsFile()| == 22 && |ReportFile()| == 28;
  }

  function CopySet(): set<string> {
    {AttestationCopy(), SummaryCopy(), SnapshotCopy(), ClaimCopy()}
  }

  lemma {:induction false} CopiesKeys(p: Provenance, n: nat)
    requires n <= |Sources(p)|
    ensures CopiesFirst(p, n).Keys <= CopySet()
  {
    hide AttestationCopy, SummaryCopy, SnapshotCopy, ClaimCopy;
    if n > 0 {
      CopiesKeys(p, n - 1);
    }
  }

  lemma {:induction false} CopiesFacts(p: Provenance)
    ensures Copies(p).Keys == CopySet() && Copies(p)[AttestationCopy()] == TextOf(p, "evidence-attestation.json")
  {
    CopyNames();
    hide AttestationCopy, SummaryCopy, SnapshotCopy, ClaimCopy, TextOf, IsMetadata;
    assert CopiesFirst(p, 0) == map[];
    assert CopiesFirst(p, 1) == map[AttestationCopy() := TextOf(p, "evidence-attestation.json")];
    assert CopiesFirst(p, 2) == CopiesFirst(p, 1)[SummaryCopy() := TextOf(p, Sources(p)[1].0)];
    assert CopiesFirst(p, 3) == CopiesFirst(p, 2)[SnapshotCopy() := TextOf(p, Sources(p)[2].0)];
    assert CopiesFirst(p, 4) == CopiesFirst(p, 3)[ClaimCopy() := TextOf(p, Sources(p)[3].0)];
  }

  /** The four copies and where they come from. */
  lemma {:induction false} CopiesExactly(p: Provenance)
    ensures Copies(p) == map[
              "release/provenance/evidence-attestation.json" := TextOf(p, "evidence-attestation.json"),
              "release/provenance/run-summary.json" := TextOf(p, "run-summary.json"),
              "release/provenance/workspace-snapshot.json" :=
                TextOf(p, if p.snapshotFile == "" then "workspace-snapshot.json" else p.snapshotFile),
              "release/provenance/claim-manifest.json" :=
                TextOf(p, if p.claimFile == "" then "claim-manifest.json" else p.claimFile)]
  {
    hide TextOf;
    assert CopiesFirst(p, 0) == map[];
    assert CopiesFirst(p, 1) == map[][AttestationCopy() := TextOf(p, "evidence-attestation.json")];
    assert CopiesFirst(p, 2) == CopiesFirst(p, 1)[SummaryCopy() := TextOf(p, "run-summary.json")];
    assert CopiesFirst(p, 3) == CopiesFirst(p, 2)[SnapshotCopy() := TextOf(p, Sources(p)[2].0)];
    assert CopiesFirst(p, 4) == CopiesFirst(p, 3)[ClaimCopy() := TextOf(p, Sources(p)[3].0)];
  }

  /** The writer starts exactly with a version and a skill manifest to read, and when no file, link or
      directory is in the way of what it writes. */
  lemma {:induction false} WritableExactly(t: Tree, host: Host, provenance: Option<Provenance>)
    ensures Writable(t, host, provenance) <==>
              && "VERSION" in t.files && "architecture-skill/manifest.json" in t.files
              && host.skillVersion(t.files["architecture-skill/manifest.json"]).Some?
              && "release" !in t.files.Keys + t.links
              && (forall x :: x in Metadata() ==> x !in t.links + t.dirs)
              && (provenance.Some? ==>
                    && "release/provenance" !in t.files.Keys + t.links
                    && forall x :: x in Copies(provenance.value) ==> x !in t.links + t.dirs)
  {
    hide Metadata, Copies;
  }

  /** Copying after listing is listing after copying, and neither touches the payload. */
  lemma {:induction false} ListedThenCopied(before: Files, list: string, p: Provenance, n: nat)
    requires n <= |Sources(p)|
    ensures before[FileList() := list] + CopiesFirst(p, n) == (before + CopiesFirst(p, n))[FileList() := list]
    ensures SameOutside(before, before + CopiesFirst(p, n))
    ensures SameOutside(before, before[FileList() := list] + CopiesFirst(p, n))
    ensures ManifestFile() !in CopiesFirst(p, n)
  {
    CopyNames();
    MetadataNames();
    CopiesKeys(p, n);
    hide FileList, ManifestFile, SumsFile, ReportFile, VersionFile, SkillFile, DistIndex, DistAssets, IsMetadata,
      CopiesFirst, CopySet, Sources;
    assert ManifestFile() in Metadata() && FileList() in Metadata();
  }

  lemma {:induction false} NoCopies(p: Provenance, host: Host)
    ensures CopiesFirst(p, 0) == map[] && DigestsOf(CopiesFirst(p, 0), host) == map[]
  {
  }

  lemma {:induction false} CopyNext(before: Files, p: Provenance, n: nat, host: Host)
    requires n < |Sources(p)| && Sources(p)[n].0 in p.directory
    ensures var (name, copy) := Sources(p)[n];
            && before + CopiesFirst(p, n + 1) == (before + CopiesFirst(p, n))[copy := p.directory[name]]
            && DigestsOf(CopiesFirst(p, n + 1), host) ==
               DigestsOf(CopiesFirst(p, n), host)[copy := host.sha(p.directory[name])]
  {
    hide AttestationCopy, SummaryCopy, SnapshotCopy, ClaimCopy, Or, Sources;
    assert CopiesFirst(p, n + 1) == CopiesFirst(p, n)[Sources(p)[n].1 := p.directory[Sources(p)[n].0]];
  }

  predicate IsFirstMissing(p: Provenance, n: nat) {
    && n < |Sources(p)| && Sources(p)[n].0 !in p.directory
    && forall k :: 0 <= k < n ==> Sources(p)[k].0 in p.directory
  }

  class Stage {
    var files: Files
    const links: set<string>
    var dirs: set<string>

    constructor (files: Files, links: set<string>, dirs: set<string>)
      ensures this.files == files && this.links == links && this.dirs == dirs
    {
      this.files, this.links, this.dirs := files, links, dirs;
    }

    function Snapshot(): Tree
      reads this
    {
      Tree(files, links, dirs)
    }

    /** Copies the evidence into the release, up to the first file that is missing. */
    method EmbedEvidence(p: Provenance, host: Host) returns (missing: Option<string>, embedded: map<string, string>)
      modifies this
      ensures dirs == old(dirs) + {"release/provenance"}
      ensures missing.None? <==> Obtainable(p)
      ensures missing.None? ==> files == old(files) + Copies(p) && embedded == DigestsOf(Copies(p), host)
      ensures missing.Some? ==> exists n ::
                && 0 <= n < |Sources(p)| && IsFirstMissing(p, n) && missing == Some(Sources(p)[n].0)
                && files == old(files) + CopiesFirst(p, n)
    {
      hide AttestationCopy, SummaryCopy, SnapshotCopy, ClaimCopy, Or, Sources, CopiesFirst, DigestsOf, Copies;
      dirs := dirs + {"release/provenance"};
      missing, embedded := None, map[];
      var sources := Sources(p);
      NoCopies(p, host);
      for i := 0 to |sources|
        invariant dirs == old(dirs) + {"release/provenance"}
        invariant files == old(files) + CopiesFirst(p, i) && embedded == DigestsOf(CopiesFirst(p, i), host)
        invariant forall k :: 0 <= k < i ==> sources[k].0 in p.directory
      {
        var (name, copy) := sources[i];
        if name !in p.directory {
          assert IsFirstMissing(p, i);
          return Some(name), embedded;
        }
        CopyNext(old(files), p, i, host);
        files := files[copy := p.directory[name]];
        embedded := embedded[copy := host.sha(p.directory[name])];
      }
      CopiesAreAll(p);
    }

    /** Embeds the evidence of a verified quality run, if there is one, after the files were listed. */
    method AddEvidence(host: Host, inputs: Inputs, provenance: Option<Provenance>, ghost before: Files,
        ghost list: string)
      returns (result: WriteResult, evidence: Option<Evidence>)
      requires files == before[FileList() := list]
      modifies this
      ensures var staged := Staged(Tree(before, links, old(dirs)), provenance);
              && (result == Done ==> files == staged.files[FileList() := list] && dirs == staged.dirs)
              && SameOutside(before, staged.files)
      ensures result == Done ==> evidence == Prepared(inputs, provenance, host).evidence
      ensures result == Done <==> (provenance.Some? ==> Obtainable(provenance.value) && provenance.value.bundle != "")
      ensures result == BundleRequired <==>
              provenance.Some? && Obtainable(provenance.value) && provenance.value.bundle == ""
      ensures result.MissingEvidence? ==> provenance.Some? && result.name !in provenance.value.directory
      ensures result != NotWritable && SameOutside(before, files)
              && (ManifestFile() in files ==> ManifestFile() in before)
    {
      hide FileList, ManifestFile, SumsFile, ReportFile, VersionFile, SkillFile, DistIndex, DistAssets, AttestationCopy,
        SummaryCopy, SnapshotCopy, ClaimCopy, IsMetadata, Copies, CopiesFirst, Obtainable;
      result, evidence := Done, None;
      MetadataNames();
      if provenance.Some? {
        var p := provenance.value;
        CopiesAreAll(p);
        ListedThenCopied(before, list, p, |Sources(p)|);
        var missing, embedded := EmbedEvidence(p, host);
        if missing.Some? {
          ghost var n :| 0 <= n < |Sources(p)| && IsFirstMissing(p, n) && missing == Some(Sources(p)[n].0)
                         && files == before[FileList() := list] + CopiesFirst(p, n);
          ListedThenCopied(before, list, p, n);
          return MissingEvidence(missing.value), None;
        }
        evidence := Some(Evidence(p.mode, Or(p.commit, "local-uncommitted"), Or(p.runId, "local"), p.identity,
                                  p.snapshot, p.bundleName, p.bundle, p.attestation, embedded));
        if p.bundle == "" {
          return BundleRequired, None;
        }
      }
    }

    /** Writes all metadata but the file list; the manifest and the checksums are written twice, because
        the number of package files is known only once the checksum list exists. */
    method Describe(host: Host, inputs: Inputs, version: string, skill: string, ghost staged: Files)
      requires HostSound(host) && VersionFile() in staged && version == Trim(staged[VersionFile()])
      requires files == staged[FileList() := WriteLines(Payload(staged, host))]
      modifies this`files
      ensures files == Written(staged, host, inputs, skill)
    {
      hide FileList, ManifestFile, SumsFile, ReportFile, VersionFile, SkillFile, DistIndex, DistAssets, HostSound,
        SumsText, ManifestOf, Payload, IsMetadata;
      MetadataNames();
      var list := files[FileList()];
      FirstManifest(staged, list, host, inputs, skill);
      var manifest := ManifestOf(files, host, inputs, skill, None);
      files := files[ManifestFile() := host.dump(manifest)];
      files := files[ReportFile() := inputs.report(version, inputs.evidence)];
      files := files[SumsFile() := SumsText(files, host)];
      RewriteTwice(staged, FileList(), ManifestFile(), ReportFile(), SumsFile(), files[FileList()],
                   files[ManifestFile()], files[ReportFile()], files[SumsFile()],
                   host.dump(ManifestOf(staged, host, inputs, skill, Some(|files|))));
      manifest := manifest.(packageFileCount := Some(|files|));
      files := files[ManifestFile() := host.dump(manifest)];
      SameSums(Described(staged, host, inputs, skill), files, host);
      SameButOne(Described(staged, host, inputs, skill), files, SumsFile(), SumsText(files, host));
      files := files[SumsFile() := SumsText(files, host)];
    }

    /** Writes the metadata and, with a verified quality run, its evidence: in the end the files are those
        of the staged tree under their description. Without one of the evidence files, or without the digest
        of the evidence bundle, it stops before there is a manifest; nothing outside release/ changes. */
    method WriteMetadata(host: Host, inputs: Inputs, provenance: Option<Provenance>) returns (result: WriteResult)
      requires HostSound(host)
      modifies this
      ensures result == NotWritable <==> !Writable(old(Snapshot()), host, provenance)
      ensures result == NotWritable ==> Snapshot() == old(Snapshot())
      ensures result == Done <==>
                && Writable(old(Snapshot()), host, provenance)
                && (provenance.Some? ==> Obtainable(provenance.value) && provenance.value.bundle != "")
      ensures result == Done ==>
                && var staged := Staged(old(Snapshot()), provenance);
                   && VersionFile() in staged.files
                   && Snapshot() == WrittenTree(staged, host, Prepared(inputs, provenance, host),
                                                host.skillVersion(old(files)[SkillFile()]).value)
      ensures result == BundleRequired <==>
                && Writable(old(Snapshot()), host, provenance) && provenance.Some? && Obtainable(provenance.value)
                && provenance.value.bundle == ""
      ensures result.MissingEvidence? ==> provenance.Some? && result.name !in provenance.value.directory
      ensures SameOutside(old(files), files) && (ManifestFile() in files ==>
                                                 ManifestFile() in old(files) || result == Done)
    {
      hide FileList, ManifestFile, SumsFile, ReportFile, VersionFile, SkillFile, DistIndex, DistAssets, HostSound,
        Payload, IsMetadata, WriteLines, Copies, Written, Sources, Obtainable, MetadataAnd, Staged, EvidenceOf,
        SameOutside, Metadata;
      SameSelf(files);
      if !Writable(Snapshot(), host, provenance) {
        return NotWritable;
      }
      MetadataNames();
      ghost var before, staged := files, Staged(Snapshot(), provenance);
      StagedRelease(Snapshot(), provenance);
      dirs := dirs + {"release"};
      var version := Trim(files[VersionFile()]);
      var skill := host.skillVersion(files[SkillFile()]).value;
      var list := WriteLines(Payload(files, host));
      files := files[FileList() := list];
      var evidence;
      result, evidence := AddEvidence(host, inputs, provenance, before, list);
      if result != Done {
        return;
      }
      SameSources(before, staged.files, host);
      SameVersion(before, staged.files);
      var full := inputs.(evidence := evidence);
      Describe(host, full, version, skill, staged.files);
      WrittenFacts(staged.files, host, full, skill);
      SameThrice(before, staged.files, files);
    }
  }

  lemma {:induction false} StagedRelease(t: Tree, provenance: Option<Provenance>)
    ensures var staged := Staged(t.(dirs := t.dirs + {"release"}), provenance);
            && staged.files == Staged(t, provenance).files && staged.dirs == Staged(t, provenance).dirs + {"release"}
            && Staged(t, provenance).links == t.links
  {
    hide Copies;
    if provenance.Some? {
      assert t.dirs + {"release"} + {"release/provenance"} == t.dirs + {"release/provenance"} + {"release"};
    }
  }

  lemma {:induction false} SameSelf(a: Files)
    ensures SameOutside(a, a)
  {
  }

  lemma {:induction false} SameVersion(a: Files, b: Files)
    requires SameOutside(a, b) && VersionFile() in a
    ensures VersionFile() in b && b[VersionFile()] == a[VersionFile()]
  {
    MetadataNames();
  }

  lemma {:induction false} SameThrice(a: Files, b: Files, c: Files)
    requires SameOutside(a, b) && SameOutside(b, c)
    ensures SameOutside(a, c)
  {
  }

  lemma {:induction false} CopiesAreAll(p: Provenance)
    ensures Copies(p) == CopiesFirst(p, |Sources(p)|)
  {
  }

  // ---------- The round trip ----------

  /** The evidence can be embedded: its digests were recorded, and the attestation is the one verified. */
  predicate EvidenceFits(p: Provenance, host: Host) {
    && p.snapshot != "" && p.bundleName != "" && p.bundle != ""
    && p.attestation == host.sha(TextOf(p, "evidence-attestation.json"))
  }

  /** A candidate, or a protected release: a release run of a known commit and workflow, cleanly built. */
  predicate LevelFits(inputs: Inputs, provenance: Option<Provenance>, host: Host) {
    || inputs.level == "candidate"
    || (&& inputs.level == "protected-release" && inputs.buildMode == "npm-ci-stage" && provenance.Some?
        && var p := provenance.value;
           && p.mode == "release" && p.commit !in {"", "local-uncommitted"} && p.runId !in {"", "local"}
           && host.validIdentity(p.identity))
  }

  /** A stage, with its evidence copied in, that the release can be made from. */
  predicate WellFormed(t: Tree, host: Host, inputs: Inputs, provenance: Option<Provenance>) {
    && (forall x :: x in Entries(t) + Metadata() + {"release"} ==> host.allowedTop(Top(x)))
    && t.links == {}
    && (forall x :: x in t.files.Keys + Metadata() ==> !host.forbidden(x))
    && DistIndex() in t.files && DistAssets() in t.dirs
    && (forall x :: x in PayloadNames(t.files) ==> Listable(x))
    && (forall x :: x in t.files.Keys + Metadata() - {SumsFile()} ==> BreakFree(x))
    && LevelFits(inputs, provenance, host)
    && (provenance.Some? ==> EvidenceFits(provenance.value, host))
  }

  ghost function WrittenTree(t: Tree, host: Host, inputs: Inputs, skill: string): Tree
    requires VersionFile() in t.files && HostSound(host)
  {
    Tree(Written(t.files, host, inputs, skill), t.links, t.dirs + {"release"})
  }

  lemma {:induction false} WrittenFacts(files: Files, host: Host, inputs: Inputs, skill: string)
    requires VersionFile() in files && HostSound(host)
    ensures var w := Written(files, host, inputs, skill);
            && w.Keys == files.Keys + Metadata()
            && FileList() in w && ManifestFile() in w && SumsFile() in w
            && w[FileList()] == WriteLines(Payload(files, host))
            && w[ManifestFile()] == host.dump(ManifestOf(files, host, inputs, skill, Some(|w|)))
            && w[SumsFile()] == SumsText(w, host)
            && SameOutside(files, w)
  {
    hide FileList, ManifestFile, SumsFile, ReportFile, VersionFile, SkillFile, DistIndex, DistAssets, IsMetadata,
      SumsText, ManifestOf, Payload, WriteLines, HostSound;
    MetadataNames();
    var w, d := Written(files, host, inputs, skill), Described(files, host, inputs, skill);
    var count := |files.Keys + Metadata()|;
    WriteFour(files, FileList(), ManifestFile(), ReportFile(), SumsFile(), WriteLines(Payload(files, host)),
              host.dump(ManifestOf(files, host, inputs, skill, Some(count))),
              inputs.report(Trim(files[VersionFile()]), inputs.evidence),
              SumsText(d, host));
    SameSums(d, w, host);
  }

  lemma {:induction false} Regroup<K>(files: set<K>, links: set<K>, dirs: set<K>, metadata: set<K>, release: set<K>)
    ensures (files + metadata) + links + (dirs + release) == (files + links + dirs) + metadata + release
  {
  }

  lemma {:induction false} DistNames()
    ensures DistIndex() !in Metadata() && DistAssets() != "release"
  {
    assert |DistIndex()| == 47 && |DistAssets()| == 43;
    assert |FileList()| == 21 && |ManifestFile()| == 21 && |SumsFile()| == 22 && |ReportFile()| == 28;
  }

  lemma {:induction false} ComposedExactly(t: Tree, host: Host, inputs: Inputs, skill: string)
    requires VersionFile() in t.files && HostSound(host)
    ensures Composed(WrittenTree(t, host, inputs, skill), host) <==>
              && (forall x :: x in Entries(t) + Metadata() + {"release"} ==> host.allowedTop(Top(x)))
              && t.links == {} && (forall x :: x in t.files.Keys + Metadata() ==> !host.forbidden(x))
              && DistIndex() in t.files && DistAssets() in t.dirs
  {
    hide FileList, ManifestFile, SumsFile, ReportFile, VersionFile, SkillFile, DistIndex, DistAssets, Written, Top,
      HostSound, Metadata, Entries, SameOutside;
    WrittenFacts(t.files, host, inputs, skill);
    var w := WrittenTree(t, host, inputs, skill);
    EntriesOf(t, w, {"release"});
    DistNames();
    OtherThan(t.dirs, DistAssets(), "release");
  }

  lemma {:induction false} EntriesOf(t: Tree, w: Tree, release: set<string>)
    requires w.files.Keys == t.files.Keys + Metadata() && w.links == t.links && w.dirs == t.dirs + release
    ensures Entries(w) == Entries(t) + Metadata() + release
  {
    hide Metadata;
    Regroup(t.files.Keys, t.links, t.dirs, Metadata(), release);
  }

  lemma {:induction false} OtherThan<K>(s: set<K>, x: K, y: K)
    requires x != y
    ensures x in s + {y} <==> x in s
  {
  }

  lemma {:induction false} ListExactly(files: Files, host: Host, inputs: Inputs, skill: string)
    requires VersionFile() in files && HostSound(host)
    ensures var w := Written(files, host, inputs, skill);
            FileList() in w
            && (ReadList(w[FileList()]) == Payload(w, host) <==> forall x :: x in PayloadNames(files) ==> Listable(x))
  {
    hide FileList, ManifestFile, SumsFile, ReportFile, VersionFile, SkillFile, DistIndex, DistAssets, Metadata, Written,
      ReadList, WriteLines, Listable, PayloadNames, SourceFingerprint, SameOutside;
    WrittenFacts(files, host, inputs, skill);
    SameSources(files, Written(files, host, inputs, skill), host);
    var names := Payload(files, host);
    ListReadBackExactly(names);
    AllListed(names, PayloadNames(files), x => Listable(x));
  }

  lemma {:induction false} SumsExactly(files: Files, host: Host, inputs: Inputs, skill: string)
    requires VersionFile() in files && HostSound(host)
    ensures var w := Written(files, host, inputs, skill);
            SumsFile() in w
            && (ReadSums(w[SumsFile()]) == Some(Digests(w, Summed(w), host)) <==>
                  forall x :: x in files.Keys + Metadata() - {SumsFile()} ==> BreakFree(x))
  {
    hide FileList, ManifestFile, SumsFile, ReportFile, VersionFile, SkillFile, DistIndex, DistAssets, Written, ReadSums,
      WriteSums, BreakFree, NoBlank, SameOutside;
    WrittenFacts(files, host, inputs, skill);
    var w := Written(files, host, inputs, skill);
    MetadataNames();
    assert FileList() in Summed(w);
    hide Metadata;
    SumsOf(w, host);
  }

  lemma {:induction false} SumsOf(w: Files, host: Host)
    requires HostSound(host) && Summed(w) != {}
    ensures ReadSums(SumsText(w, host)) == Some(Digests(w, Summed(w), host)) <==>
            forall x :: x in Summed(w) ==> BreakFree(x)
  {
    hide FileList, ManifestFile, SumsFile, ReportFile, VersionFile, SkillFile, DistIndex, DistAssets, ReadSums,
      WriteSums, BreakFree, NoBlank;
    var names := host.list(Summed(w));
    assert ListsAll(names, Summed(w));
    assert names != [];
    SumsReadBackExactly(Digests(w, Summed(w), host), names);
  }

  lemma {:induction false} ManifestExactly(files: Files, host: Host, inputs: Inputs, skill: string)
    requires VersionFile() in files && HostSound(host)
    ensures var w := Written(files, host, inputs, skill);
            && ManifestFile() in w && host.parse(w[ManifestFile()]).Some?
            && var m := ManifestOf(files, host, inputs, skill, Some(|w|));
               ManifestAccepted(host.parse(w[ManifestFile()]).value, w, host) <==>
                 EvidenceAccepted(m, w, host) && LevelAccepted(m, host)
  {
    hide FileList, ManifestFile, SumsFile, ReportFile, VersionFile, SkillFile, DistIndex, DistAssets, Metadata, Written,
      SourceFingerprint, IsMetadata, PayloadNames, EvidenceAccepted, LevelAccepted;
    WrittenFacts(files, host, inputs, skill);
    var w := Written(files, host, inputs, skill);
    SameSources(files, w, host);
    MetadataNames();
    var m := ManifestOf(files, host, inputs, skill, Some(|w|));
    assert host.parse(host.dump(m)) == Some(m);
  }

  lemma {:induction false} LevelExactly(m: Manifest, host: Host, inputs: Inputs, provenance: Option<Provenance>)
    requires m.level == inputs.level && m.buildMode == inputs.buildMode
             && m.evidence == Prepared(inputs, provenance, host).evidence
    ensures LevelAccepted(m, host) <==> LevelFits(inputs, provenance, host)
  {
    hide Copies, DigestsOf;
  }

  /** What the manifest says of the evidence is accepted of a tree that has the copies, exactly when the
      evidence could be embedded. */
  lemma {:induction false} EvidenceExactly(m: Manifest, w: Files, host: Host, p: Provenance)
    requires HostSound(host) && m.evidence == Some(EvidenceOf(p, host))
    requires forall x :: x in Copies(p) ==> x in w && w[x] == Copies(p)[x]
    ensures EvidenceAccepted(m, w, host) <==> EvidenceFits(p, host)
  {
    hide AttestationCopy, SummaryCopy, SnapshotCopy, ClaimCopy, Copies, HostSound;
    CopiesFacts(p);
    assert AttestationCopy() in CopySet();
    HashIsNotEmpty(host, TextOf(p, "evidence-attestation.json"));
    assert DigestsOf(Copies(p), host).Keys == Copies(p).Keys;
    assert AttestationCopy() in DigestsOf(Copies(p), host);
  }

  /** The copies are in the written tree. */
  lemma {:induction false} CopiesStand(t: Tree, host: Host, inputs: Inputs, p: Provenance, skill: string)
    requires VersionFile() in Staged(t, Some(p)).files && HostSound(host)
    ensures var w := Written(Staged(t, Some(p)).files, host, inputs, skill);
            forall x :: x in Copies(p) ==> x in w && w[x] == Copies(p)[x]
  {
    CopyNames();
    hide FileList, ManifestFile, SumsFile, ReportFile, VersionFile, SkillFile, DistIndex, DistAssets, AttestationCopy,
      SummaryCopy, SnapshotCopy, ClaimCopy, Copies, Written, Metadata, IsMetadata, HostSound;
    var files := Staged(t, Some(p)).files;
    CopiesFacts(p);
    WrittenElsewhere(files, host, inputs, skill);
    forall x | x in Copies(p)
      ensures var w := Written(files, host, inputs, skill); x in w && w[x] == Copies(p)[x]
    {
      assert x in CopySet() && x in files && files[x] == Copies(p)[x];
    }
  }

  lemma {:induction false} HashIsNotEmpty(host: Host, text: string)
    requires HostSound(host)
    ensures host.sha(text) != ""
  {
  }

  /** Files that are no description keep their contents. */
  lemma {:induction false} WrittenElsewhere(files: Files, host: Host, inputs: Inputs, skill: string)
    requires VersionFile() in files && HostSound(host)
    ensures var w := Written(files, host, inputs, skill);
            forall x :: x !in Metadata() && x in files ==> x in w && w[x] == files[x]
  {
    hide FileList, ManifestFile, SumsFile, ReportFile, VersionFile, SkillFile, DistIndex, DistAssets, SumsText,
      ManifestOf, Payload, WriteLines, HostSound, IsMetadata;
  }

  lemma {:induction false} DescribesEvidence(
    files: Files, host: Host, inputs: Inputs, provenance: Option<Provenance>, skill: string, count: Option<nat>)
    requires VersionFile() in files
    ensures var m := ManifestOf(files, host, Prepared(inputs, provenance, host), skill, count);
            && m.level == inputs.level && m.buildMode == inputs.buildMode
            && m.evidence == Prepared(inputs, provenance, host).evidence
            && (provenance.None? ==> forall w :: EvidenceAccepted(m, w, host))
            && (provenance.Some? ==> m.evidence == Some(EvidenceOf(provenance.value, host)))
  {
    hide Copies, DigestsOf;
  }

  /** The verifier accepts what the writer wrote exactly when the stage was well-formed, although
      manifest and checksums were each written over once. */
  lemma {:induction false} RoundTripExactly(t: Tree, host: Host, inputs: Inputs, provenance: Option<Provenance>,
      skill: string)
    requires VersionFile() in Staged(t, provenance).files && HostSound(host)
    ensures var staged := Staged(t, provenance);
            Accepted(WrittenTree(staged, host, Prepared(inputs, provenance, host), skill), host) <==>
            WellFormed(staged, host, inputs, provenance)
  {
    hide FileList, ManifestFile, SumsFile, ReportFile, VersionFile, SkillFile, DistIndex, DistAssets, Metadata, Written,
      ReadList, ReadSums, ManifestAccepted, EvidenceAccepted, LevelAccepted, EvidenceFits, LevelFits, Composed,
      HostSound, Payload, Digests, Top, Staged, Prepared, ManifestOf, PayloadNames, Entries, Summed, Listable,
      BreakFree, SumsText, Copies, IsMetadata;
    var staged, full := Staged(t, provenance), Prepared(inputs, provenance, host);
    ComposedExactly(staged, host, full, skill);
    ListExactly(staged.files, host, full, skill);
    SumsExactly(staged.files, host, full, skill);
    ManifestExactly(staged.files, host, full, skill);
    var w := Written(staged.files, host, full, skill);
    var m := ManifestOf(staged.files, host, full, skill, Some(|w|));
    DescribesEvidence(staged.files, host, inputs, provenance, skill, Some(|w|));
    LevelExactly(m, host, inputs, provenance);
    if provenance.Some? {
      CopiesStand(t, host, full, provenance.value, skill);
      EvidenceExactly(m, w, host, provenance.value);
    }
  }

  /** Digests that tell the contents of two trees apart, name by name. */
  ghost predicate NoCollision(a: Files, b: Files, host: Host) {
    forall x :: x in a && x in b && host.sha(a[x]) == host.sha(b[x]) ==> a[x] == b[x]
  }

  /** The checksum list pins the whole tree: two accepted trees with the same one are the same. */
  lemma {:induction false} ChecksumsPinTheTree(a: Tree, b: Tree, host: Host)
    requires Accepted(a, host) && Accepted(b, host) && NoCollision(a.files, b.files, host)
    requires a.files[SumsFile()] == b.files[SumsFile()]
    ensures a.files == b.files
  {
    hide FileList, ManifestFile, SumsFile, ReportFile, VersionFile, SkillFile, DistIndex, DistAssets, ReadList,
      ReadSums, ManifestAccepted, Payload, Top;
    var da, db := Digests(a.files, Summed(a.files), host), Digests(b.files, Summed(b.files), host);
    assert da == db;
    assert da.Keys == Summed(a.files) && db.Keys == Summed(b.files);
    assert a.files.Keys == Summed(a.files) + {SumsFile()} && b.files.Keys == Summed(b.files) + {SumsFile()};
    forall x | x in a.files && x != SumsFile()
      ensures a.files[x] == b.files[x]
    {
      assert da[x] == db[x];
    }
  }
}
