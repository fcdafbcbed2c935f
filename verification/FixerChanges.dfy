/** The Patch Owner's writes: the model's proposal is checked against the granted paths and then
    applied as complete replacement files (scripts/github_agent_fixer.py). */
module FixerChanges {
  import opened Wrappers
  import opened RepoPath
  import PathPolicy
  import opened FixerPaths

  /** One proposed change; a content that is not a string is absent. */
  datatype Proposal = NotAnObject | Proposal(path: string, content: Option<string>, reason: string)

  datatype Row = Row(path: string, content: string, reason: string)

  datatype Offence =
    | EntryNotObject
    | PathInvalid
    | PathUndeclared
    | PathRepeated
    | ContentNotText
    | ContentTooLarge
    | NoChanges
    | NoEffect

  // ---------- Checking the proposal ----------

  function RowOf(proposal: Proposal): Row
    requires proposal.Proposal? && proposal.content.Some?
  {
    Row(PlainText(proposal.path), proposal.content.value,
        if |proposal.reason| <= MAX_REASON then proposal.reason else proposal.reason[..MAX_REASON])
  }

  predicate Names(proposal: Proposal, path: string) {
    proposal.Proposal? && PlainText(proposal.path) == path
  }

  /** What is wrong with entry `k`, given the entries before it. */
  function OffenceAt(proposals: seq<Proposal>, k: nat, allowed: seq<string>, size: string -> nat): Option<Offence>
    requires k < |proposals|
  {
    match proposals[k]
    case NotAnObject => Some(EntryNotObject)
    case Proposal(raw, content, _) =>
      if Normalize(raw).Failure? then Some(PathInvalid)
      else if PlainText(raw) !in allowed then Some(PathUndeclared)
      else if exists j :: 0 <= j < k && Names(proposals[j], PlainText(raw)) then Some(PathRepeated)
      else if content.None? || '\0' in content.value then Some(ContentNotText)
      else if size(content.value) > MAX_FILE_BYTES then Some(ContentTooLarge)
      else None
  }

  /** What is wrong with an entry, and what is taken of a clean one: the path without its decoration, the whole
      content, and at most two thousand characters of the reason. */
  lemma {:induction false} OffenceExactly(proposals: seq<Proposal>, k: nat, allowed: seq<string>, size: string -> nat)
    requires k < |proposals| && proposals[k].Proposal?
    ensures var p, offence := proposals[k], OffenceAt(proposals, k, allowed, size);
            var path := PlainText(p.path);
            && (offence == Some(PathInvalid) <==> Normalize(p.path).Failure?)
            && (offence == Some(PathUndeclared) <==> Normalize(p.path).Success? && path !in allowed)
            && (offence == Some(PathRepeated) <==>
                  Normalize(p.path).Success? && path in allowed && exists j :: 0 <= j < k && Names(proposals[j], path))
            && (offence == None ==>
                  && p.content.Some? && '\0' !in p.content.value && size(p.content.value) <= 350000
                  && var row := RowOf(p);
                     row.path == path && row.content == p.content.value && row.reason <= p.reason
                       && |row.reason| <= 2000
                     && (|p.reason| <= 2000 ==> row.reason == p.reason))
            && (offence == Some(ContentTooLarge) ==> p.content.Some? && size(p.content.value) > 350000)
            && (offence == Some(ContentNotText) ==> p.content.None? || '\0' in p.content.value)
  {
    hide Normalize, PlainText;
  }

  ghost predicate Clean(proposals: seq<Proposal>, n: nat, allowed: seq<string>, size: string -> nat)
    requires n <= |proposals|
  {
    forall k :: 0 <= k < n ==> OffenceAt(proposals, k, allowed, size) == None
  }

  ghost predicate RowsOf(proposals: seq<Proposal>, n: nat, rows: seq<Row>)
    requires n <= |proposals|
  {
    && |rows| == n
    && forall k :: 0 <= k < n ==>
         proposals[k].Proposal? && proposals[k].content.Some? && rows[k] == RowOf(proposals[k])
  }

  /** A proposal is taken exactly when it has entries and none of them offends; otherwise the error
      is that of the first offending entry. */
  method ValidateChanges(proposals: seq<Proposal>, allowed: seq<string>, size: string -> nat)
    returns (r: Result<seq<Row>, Offence>)
    ensures r.Success? <==> proposals != [] && Clean(proposals, |proposals|, allowed, size)
    ensures r.Success? ==> RowsOf(proposals, |proposals|, r.value)
    ensures r.Failure? ==>
              || (proposals == [] && r.error == NoChanges)
              || exists k :: 0 <= k < |proposals| && Clean(proposals, k, allowed, size)
                             && OffenceAt(proposals, k, allowed, size) == Some(r.error)
  {
    hide Normalize, PlainText;
    var rows: seq<Row> := [];
    var seen: set<string> := {};
    for i := 0 to |proposals|
      invariant Clean(proposals, i, allowed, size) && RowsOf(proposals, i, rows)
      invariant forall path :: path in seen <==> exists j :: 0 <= j < i && Names(proposals[j], path)
    {
      ghost var offence := OffenceAt(proposals, i, allowed, size);
      match proposals[i]
      case NotAnObject =>
        assert offence == Some(EntryNotObject);
        return Failure(EntryNotObject);
      case Proposal(raw, content, reason) =>
        var normalized := NormalizePath(raw);
        if normalized.Failure? {
          assert offence == Some(PathInvalid);
          return Failure(PathInvalid);
        }
        NormalizedIsPlainText(raw);
        var path := normalized.value;
        if path !in allowed {
          assert offence == Some(PathUndeclared);
          return Failure(PathUndeclared);
        }
        if path in seen {
          assert offence == Some(PathRepeated);
          return Failure(PathRepeated);
        }
        if content.None? || '\0' in content.value {
          assert offence == Some(ContentNotText);
          return Failure(ContentNotText);
        }
        if size(content.value) > MAX_FILE_BYTES {
          assert offence == Some(ContentTooLarge);
          return Failure(ContentTooLarge);
        }
        assert Names(proposals[i], path);
        seen := seen + {path};
        rows := rows + [Row(path, content.value, if |reason| <= MAX_REASON then reason else reason[..MAX_REASON])];
    }
    if rows == [] {
      return Failure(NoChanges);
    }
    return Success(rows);
  }

  lemma {:induction false} NormalizedIsPlainText(raw: string)
    requires Normalize(raw).Success?
    ensures Normalize(raw).value == PlainText(raw)
  {
  }

  ghost predicate DistinctRows(rows: seq<Row>) {
    forall i, j :: 0 <= i < j < |rows| ==> rows[i].path != rows[j].path
  }

  /** The rows of a clean proposal name granted paths, each once. */
  lemma {:induction false} CleanRows(proposals: seq<Proposal>, allowed: seq<string>, size: string -> nat,
      rows: seq<Row>)
    requires Clean(proposals, |proposals|, allowed, size) && RowsOf(proposals, |proposals|, rows)
    ensures DistinctRows(rows)
    ensures forall k :: 0 <= k < |rows| ==> rows[k].path in allowed
  {
    hide Normalize, PlainText;
    forall i, j | 0 <= i < j < |rows|
      ensures rows[i].path != rows[j].path
    {
      assert OffenceAt(proposals, j, allowed, size) == None;
      assert proposals[i].Proposal? && rows[i] == RowOf(proposals[i]);
      assert !Names(proposals[i], PlainText(proposals[j].path));
    }
    forall k | 0 <= k < |rows|
      ensures rows[k].path in allowed
    {
      assert OffenceAt(proposals, k, allowed, size) == None;
    }
  }

  // ---------- Applying it ----------

  predicate Holds(files: Files, row: Row) {
    Parts(row.path) in files && files[Parts(row.path)].Regular?
  }

  ghost predicate HoldsAll(files: Files, rows: seq<Row>) {
    forall k :: 0 <= k < |rows| ==> Holds(files, rows[k])
  }

  function WriteOne(files: Files, row: Row): (written: Files)
    requires Holds(files, row)
    ensures written.Keys == files.Keys
    ensures forall p :: p in files && p != Parts(row.path) ==> written[p] == files[p]
  {
    files[Parts(row.path) := Regular(row.content, files[Parts(row.path)].inside)]
  }

  /** Text as it is read: every line end becomes a line feed. It is written as it is. */
  function AsRead(text: string): string
    decreases |text|
  {
    if text == "" then ""
    else if text[0] != '\r' then [text[0]] + AsRead(text[1..])
    else ['\n'] + AsRead(text[if |text| > 1 && text[1] == '\n' then 2 else 1..])
  }

  lemma {:induction false} AsReadExactly(text: string)
    ensures '\r' !in AsRead(text)
    ensures AsRead(text) == text <==> '\r' !in text
    decreases |text|
  {
    if text != "" {
      if text[0] != '\r' {
        AsReadExactly(text[1..]);
        assert text == [text[0]] + text[1..];
      } else {
        AsReadExactly(text[if |text| > 1 && text[1] == '\n' then 2 else 1..]);
        assert AsRead(text)[0] == '\n';
      }
    }
  }

  /** Each line end, of one character or of two, becomes one line feed, and nothing else changes. */
  lemma {:induction false} LineEndsExactly(front: string, back: string)
    requires '\r' !in front
    ensures AsRead(front + "\r\n" + back) == front + "\n" + AsRead(back)
    ensures (back == "" || back[0] != '\n') ==> AsRead(front + "\r" + back) == front + "\n" + AsRead(back)
  {
    if front == "" {
      assert "" + "\r\n" + back == "\r\n" + back && ("\r\n" + back)[2..] == back;
      assert "" + "\r" + back == "\r" + back && ("\r" + back)[1..] == back;
    } else {
      LineEndsExactly(front[1..], back);
      assert (front + "\r\n" + back)[1..] == front[1..] + "\r\n" + back;
      assert (front + "\r" + back)[1..] == front[1..] + "\r" + back;
    }
  }

  /** The content the row proposes is what reading its file gives. */
  predicate Same(files: Files, row: Row)
    requires Holds(files, row)
  {
    AsRead(files[Parts(row.path)].text) == row.content
  }

  /** The files after the first `n` rows, and the paths written on the way. */
  function WriteFirst(files: Files, rows: seq<Row>, n: nat): (out: (Files, seq<string>))
    requires n <= |rows| && HoldsAll(files, rows)
    ensures HoldsAll(out.0, rows)
  {
    if n == 0 then
      (files, [])
    else
      var (before, changed) := WriteFirst(files, rows, n - 1);
      var row := rows[n - 1];
      if Same(before, row) then (before, changed) else (WriteOne(before, row), changed + [row.path])
  }

  class Workspace {
    var files: Files

    constructor (files: Files)
      ensures this.files == files
    {
      this.files := files;
    }

    /** Replaces each file that does not read as its row's content; if there is none, that is an error. */
    method ApplyChanges(rows: seq<Row>) returns (r: Result<seq<string>, Offence>)
      requires HoldsAll(files, rows)
      modifies this
      ensures files == WriteFirst(old(files), rows, |rows|).0
      ensures var changed := WriteFirst(old(files), rows, |rows|).1;
              r == if changed == [] then Failure(NoEffect) else Success(changed)
    {
      hide Parts, AsRead;
      var changed: seq<string> := [];
      for i := 0 to |rows|
        invariant WriteFirst(old(files), rows, i) == (files, changed)
      {
        var row := rows[i];
        assert Holds(files, row);
        if AsRead(files[Parts(row.path)].text) != row.content {
          files := WriteOne(files, row);
          changed := changed + [row.path];
        }
      }
      if changed == [] {
        return Failure(NoEffect);
      }
      return Success(changed);
    }

    /** Checking and then applying a proposal under granted paths. */
    method Repair(granted: seq<string>, proposals: seq<Proposal>, size: string -> nat)
      returns (r: Result<seq<string>, Offence>)
      requires forall p :: p in granted ==> FileRefusal(p, files) == None
      modifies this
      ensures OnlyGranted(old(files), files, granted)
      ensures r.Failure? ==> files == old(files)
      ensures r.Success? ==> r.value != []
      ensures r.Success? && AllFixedPoints(granted) ==> Reports(old(files), files, granted, r.value)
    {
      hide Clean, RowsOf, HoldsAll, OnlyGranted, AllFixedPoints, Reports, FileRefusal, AsRead;
      var rows := ValidateChanges(proposals, granted, size);
      if rows.Failure? {
        NothingWritten(files, granted);
        return Failure(rows.error);
      }
      CleanRows(proposals, granted, size, rows.value);
      GrantedHold(files, granted, rows.value);
      RepairFacts(files, granted, rows.value);
      r := ApplyChanges(rows.value);
    }
  }

  /** Only the text of regular files under granted paths may differ. */
  ghost predicate OnlyGranted(before: Files, after: Files, granted: seq<string>) {
    && after.Keys == before.Keys
    && forall p :: p in before && after[p] != before[p] ==>
         after[p].Regular? && before[p].Regular? && exists g :: g in granted && Parts(g) == p
  }

  ghost predicate AllFixedPoints(paths: seq<string>) {
    forall p :: p in paths ==> PathPolicy.FixedPoint(p)
  }

  /** Every granted path whose file differs is reported; a reported path is granted, and its file differs
      or held a carriage return. */
  ghost predicate Reports(before: Files, after: Files, granted: seq<string>, changed: seq<string>) {
    && (forall g :: g in granted ==> Parts(g) in before && Parts(g) in after)
    && (forall g :: g in granted && after[Parts(g)] != before[Parts(g)] ==> g in changed)
    && forall g :: g in changed ==>
         && g in granted && before[Parts(g)].Regular?
         && (after[Parts(g)] != before[Parts(g)] || '\r' in before[Parts(g)].text)
  }

  lemma {:induction false} NothingWritten(files: Files, granted: seq<string>)
    ensures OnlyGranted(files, files, granted)
  {
  }

  lemma {:induction false} RepairFacts(files: Files, granted: seq<string>, rows: seq<Row>)
    requires HoldsAll(files, rows) && DistinctRows(rows)
    requires forall p :: p in granted ==> FileRefusal(p, files) == None
    requires forall k :: 0 <= k < |rows| ==> rows[k].path in granted
    ensures var (after, changed) := WriteFirst(files, rows, |rows|);
            && OnlyGranted(files, after, granted)
            && (changed == [] ==> after == files)
            && (AllFixedPoints(granted) ==> Reports(files, after, granted, changed))
  {
    hide Parts, PathPolicy.FixedPoint, WriteFirst, AsRead;
    WrittenFacts(files, rows, |rows|);
    if AllFixedPoints(granted) {
      DistinctFiles(rows);
      ChangedExactly(files, rows, |rows|);
      var (after, changed) := WriteFirst(files, rows, |rows|);
      forall g | g in granted && after[Parts(g)] != files[Parts(g)]
        ensures g in changed
      {
        var k :| 0 <= k < |rows| && Parts(rows[k].path) == Parts(g);
        SamePlaceSamePath(rows[k].path, g);
      }
      forall g | g in changed
        ensures g in granted && files[Parts(g)].Regular?
        ensures after[Parts(g)] != files[Parts(g)] || '\r' in files[Parts(g)].text
      {
        var k :| 0 <= k < |rows| && rows[k].path == g;
        assert Holds(files, rows[k]);
      }
    }
  }

  lemma {:induction false} GrantedHold(files: Files, granted: seq<string>, rows: seq<Row>)
    requires forall p :: p in granted ==> FileRefusal(p, files) == None
    requires forall k :: 0 <= k < |rows| ==> rows[k].path in granted
    ensures HoldsAll(files, rows)
  {
    hide Parts;
  }

  lemma {:induction false} WrittenFacts(files: Files, rows: seq<Row>, n: nat)
    requires n <= |rows| && HoldsAll(files, rows)
    ensures var (after, changed) := WriteFirst(files, rows, n);
            && after.Keys == files.Keys
            && (forall p :: p in files && after[p] != files[p] ==>
                  after[p].Regular? && files[p].Regular? && exists k :: 0 <= k < n && Parts(rows[k].path) == p)
            && (changed == [] ==> after == files)
            && (forall g :: g in changed ==> exists k :: 0 <= k < n && rows[k].path == g)
  {
    hide Parts, AsRead;
    if n > 0 {
      WrittenFacts(files, rows, n - 1);
      var (before, changed) := WriteFirst(files, rows, n - 1);
      var after := WriteFirst(files, rows, n).0;
      forall p | p in files && after[p] != files[p]
        ensures after[p].Regular? && files[p].Regular? && exists k :: 0 <= k < n && Parts(rows[k].path) == p
      {
        if p == Parts(rows[n - 1].path) {
          assert Holds(files, rows[n - 1]);
        } else {
          assert after[p] == before[p];
        }
      }
    }
  }

  ghost predicate DistinctPlaces(rows: seq<Row>) {
    forall i, j :: 0 <= i < j < |rows| ==> Parts(rows[i].path) != Parts(rows[j].path)
  }

  /** Fixed points of the normalizer that name one file are one path. */
  lemma {:induction false} SamePlaceSamePath(p: string, q: string)
    requires PathPolicy.FixedPoint(p) && PathPolicy.FixedPoint(q) && Parts(p) == Parts(q)
    ensures p == q
  {
  }

  lemma {:induction false} DistinctFiles(rows: seq<Row>)
    requires DistinctRows(rows)
    requires forall k :: 0 <= k < |rows| ==> PathPolicy.FixedPoint(rows[k].path)
    ensures DistinctPlaces(rows)
  {
    hide PathPolicy.FixedPoint, Parts;
    forall i, j | 0 <= i < j < |rows|
      ensures Parts(rows[i].path) != Parts(rows[j].path)
    {
      if Parts(rows[i].path) == Parts(rows[j].path) {
        SamePlaceSamePath(rows[i].path, rows[j].path);
      }
    }
  }

  lemma {:induction false} WriteNone(files: Files, rows: seq<Row>)
    requires HoldsAll(files, rows)
    ensures WriteFirst(files, rows, 0) == (files, [])
  {
  }

  /** What becomes of one row: its path is reported exactly when its file did not read as the content, and
      then the file holds the content and differs, unless it held a carriage return and the content is its
      very text. A content without carriage returns is what the file reads as afterwards. */
  ghost predicate Settled(row: Row, was: Entry, now: Entry, changed: seq<string>) {
    && was.Regular? && now.Regular? && now.inside == was.inside
    && (row.path in changed <==> AsRead(was.text) != row.content)
    && now.text == (if row.path in changed then row.content else was.text)
    && (row.path in changed && now == was <==> row.content == was.text && '\r' in was.text)
    && ('\r' !in row.content ==> AsRead(now.text) == row.content)
  }

  lemma {:induction false} WriteLast(files: Files, rows: seq<Row>, n: nat)
    requires 0 < n <= |rows| && HoldsAll(files, rows)
    ensures var ((before, earlier), last) := (WriteFirst(files, rows, n - 1), rows[n - 1]);
            var (after, changed) := WriteFirst(files, rows, n);
            && after.Keys == before.Keys && Holds(before, last) && Holds(after, last)
            && (forall p :: p in before && p != Parts(last.path) ==> after[p] == before[p])
            && after[Parts(last.path)] ==
                 (if Same(before, last) then before[Parts(last.path)]
                  else Regular(last.content, before[Parts(last.path)].inside))
            && changed == if Same(before, last) then earlier else earlier + [last.path]
  {
    hide Parts, AsRead;
  }

  /** With distinct places every row is settled so, and the rest is untouched. */
  lemma {:induction false} ChangedExactly(files: Files, rows: seq<Row>, n: nat)
    requires n <= |rows| && HoldsAll(files, rows) && DistinctPlaces(rows)
    ensures var (after, changed) := WriteFirst(files, rows, n);
            && (forall k :: 0 <= k < n ==> Settled(rows[k], files[Parts(rows[k].path)], after[Parts(rows[k].path)],
                                                   changed))
            && (forall k :: n <= k < |rows| ==> after[Parts(rows[k].path)] == files[Parts(rows[k].path)])
  {
    hide Parts, AsRead, Settled, WriteFirst;
    WriteNone(files, rows);
    if n > 0 {
      ChangedExactly(files, rows, n - 1);
      WrittenFacts(files, rows, n - 1);
      WriteLast(files, rows, n);
      var (before, earlier) := WriteFirst(files, rows, n - 1);
      var (after, changed) := WriteFirst(files, rows, n);
      var last := rows[n - 1];
      forall k | 0 <= k < n - 1
        ensures Settled(rows[k], files[Parts(rows[k].path)], after[Parts(rows[k].path)], changed)
      {
        assert rows[k].path != last.path && after[Parts(rows[k].path)] == before[Parts(rows[k].path)];
        StillSettled(rows[k], files[Parts(rows[k].path)], before[Parts(rows[k].path)], earlier, changed);
      }
      assert Holds(files, last);
      assert last.path !in earlier;
      SettlesLast(last, files[Parts(last.path)], after[Parts(last.path)], changed);
    }
  }

  lemma {:induction false} StillSettled(row: Row, was: Entry, now: Entry, earlier: seq<string>, changed: seq<string>)
    requires Settled(row, was, now, earlier) && (row.path in earlier <==> row.path in changed)
    ensures Settled(row, was, now, changed)
  {
    hide AsRead;
  }

  lemma {:induction false} SettlesLast(row: Row, was: Entry, now: Entry, changed: seq<string>)
    requires was.Regular? && (row.path in changed <==> AsRead(was.text) != row.content)
    requires now == if row.path in changed then Regular(row.content, was.inside) else was
    ensures Settled(row, was, now, changed)
  {
    hide AsRead;
    AsReadExactly(was.text);
    AsReadExactly(row.content);
  }

  /** A file with a carriage return, proposed as it stands, is reported as changed and is not. */
  lemma {:induction false} UnchangedIsReported(files: Files, row: Row)
    requires Holds(files, row) && row.content == files[Parts(row.path)].text && '\r' in row.content
    ensures HoldsAll(files, [row]) && WriteFirst(files, [row], 1) == (files, [row.path])
  {
    hide Parts, AsRead;
    AsReadExactly(row.content);
    var rows := [row];
    assert HoldsAll(files, rows) && rows[1 - 1] == row;
    assert WriteFirst(files, rows, 0) == (files, []);
    assert !Same(files, row) && WriteOne(files, row) == files;
    assert [] + [row.path] == [row.path];
  }
}
