/** The text of `git status --porcelain=v1 --untracked-files=all`, and the two parsers that read changed
    paths from it: Stage 3's (scripts/github_repair_stage3.py) and the publisher's
    (scripts/github_repair_stage3_publish.py), which strips the text first. */
module StatusListing {
  import opened RepoPath
  import opened ReleaseLines

  /** File contents by path. */
  type Tree = map<string, string>

  ghost function Diff(before: Tree, after: Tree): set<string> {
    set p | p in before.Keys + after.Keys && (p !in before || p !in after || before[p] != after[p])
  }

  /** One row: the columns for index and work tree, and a path. */
  datatype Row = Row(inIndex: char, inTree: char, path: string)

  function Rendered(row: Row): string {
    [row.inIndex, row.inTree, ' '] + row.path
  }

  function Renderings(rows: seq<Row>): (lines: seq<string>)
    ensures |lines| == |rows| && forall i :: 0 <= i < |rows| ==> lines[i] == Rendered(rows[i])
  {
    seq(|rows|, i requires 0 <= i < |rows| => Rendered(rows[i]))
  }

  function Text(rows: seq<Row>): string {
    Lines(Renderings(rows))
  }

  function Paths(rows: seq<Row>): (paths: seq<string>)
    ensures |paths| == |rows| && forall i :: 0 <= i < |rows| ==> paths[i] == rows[i].path
  {
    seq(|rows|, i requires 0 <= i < |rows| => rows[i].path)
  }

  predicate Distinct(paths: seq<string>) {
    forall i, j :: 0 <= i < j < |paths| ==> paths[i] != paths[j]
  }

  /** Git prints such a path as it is, without quotes. */
  predicate PrintsAsIs(path: string) {
    path != "" && forall i :: 0 <= i < |path| ==> !IsSpace(path[i]) && path[i] != '"' && path[i] != '\\'
  }

  /** What git reports once a patch changed the work tree and nothing else: each changed path once,
      tracked ones first and with a blank index column, then the untracked ones. */
  ghost predicate IsStatus(rows: seq<Row>, before: Tree, after: Tree) {
    && Distinct(Paths(rows))
    && (forall p :: p in Paths(rows) <==> p in Diff(before, after))
    && (forall i :: 0 <= i < |rows| ==> PrintsAsIs(rows[i].path) && Columns(rows[i], before))
    && forall i, j :: 0 <= i < j < |rows| && rows[j].path in before ==> rows[i].path in before
  }

  predicate Columns(row: Row, before: Tree) {
    if row.path in before then row.inIndex == ' ' && row.inTree in "MDT" else row.inIndex == '?' && row.inTree == '?'
  }

  // ---------- The parsers ----------

  /** The last piece between arrows. */
  function AfterArrow(s: string): string {
    if s == "" then ""
    else if " -> " <= s then AfterArrow(s[4..])
    else if HasArrow(s) then AfterArrow(s[1..])
    else s
  }

  predicate HasArrow(s: string) {
    exists i :: 0 <= i <= |s| && " -> " <= s[i..]
  }

  function RowPath(line: string): string {
    Slashes(Trim(AfterArrow(if |line| > 3 then line[3..] else "")))
  }

  function CollectFirst(lines: seq<string>, n: nat): seq<string>
    requires n <= |lines|
  {
    if n == 0 then
      []
    else
      var front := CollectFirst(lines, n - 1);
      var path := RowPath(lines[n - 1]);
      if path != "" && path !in front then front + [path] else front
  }

  function Collected(lines: seq<string>): seq<string> {
    CollectFirst(lines, |lines|)
  }

  /** The loop both parsers share. */
  method CollectRows(lines: seq<string>) returns (paths: seq<string>)
    ensures paths == Collected(lines)
  {
    hide RowPath;
    paths := [];
    for i := 0 to |lines|
      invariant paths == CollectFirst(lines, i)
    {
      var path := RowPath(lines[i]);
      if path != "" && path !in paths {
        paths := paths + [path];
      }
    }
  }

  function Stage3Listing(text: string): seq<string> {
    Collected(SplitLines(text))
  }

  function PublisherListing(text: string): seq<string> {
    Collected(SplitLines(Trim(text)))
  }

  // ---------- One row ----------

  lemma {:induction false} NoArrow(s: string)
    requires forall i :: 0 <= i < |s| ==> !IsSpace(s[i])
    ensures AfterArrow(s) == s
  {
    forall i | 0 <= i <= |s|
      ensures !(" -> " <= s[i..])
    {
      assert |s| - i >= 4 ==> s[i..][0] == s[i] && !IsSpace(s[i]);
    }
    assert !HasArrow(s) && s[0..] == s;
  }

  lemma {:induction false} Plainly(path: string, k: nat)
    requires PrintsAsIs(path) && k <= |path|
    ensures Slashes(Trim(AfterArrow(path[k..]))) == path[k..]
  {
    var t := path[k..];
    assert forall i :: 0 <= i < |t| ==> t[i] == path[k + i];
    NoArrow(t);
    TrimFixed(t);
    SlashesFixed(t);
  }

  lemma {:induction false} WholeRow(row: Row)
    requires PrintsAsIs(row.path)
    ensures RowPath(Rendered(row)) == row.path
  {
    Plainly(row.path, 0);
    assert row.path[0..] == row.path && Rendered(row)[3..] == row.path;
  }

  /** A row that lost its first column loses the first character of its path. */
  lemma {:induction false} CutRow(row: Row)
    requires PrintsAsIs(row.path)
    ensures RowPath(Rendered(row)[1..]) == row.path[1..]
  {
    Plainly(row.path, 1);
    var line := Rendered(row)[1..];
    if |row.path| > 1 {
      assert line[3..] == row.path[1..];
    } else {
      assert row.path[1..] == "";
    }
  }

  // ---------- The lines each parser sees ----------

  lemma {:induction false} RowBreakFree(row: Row)
    requires PrintsAsIs(row.path) && !IsBreak(row.inIndex) && !IsBreak(row.inTree)
    ensures BreakFree(Rendered(row)) && BreakFree(Rendered(row)[1..])
  {
    var line := Rendered(row);
    forall i | 0 <= i < |line|
      ensures !IsBreak(line[i])
    {
      assert i >= 3 ==> line[i] == row.path[i - 3];
    }
  }

  lemma {:induction false} ColumnsBreakFree(row: Row, before: Tree)
    requires Columns(row, before) && PrintsAsIs(row.path)
    ensures BreakFree(Rendered(row)) && BreakFree(Rendered(row)[1..])
    ensures !IsSpace(row.inTree) && (row.inIndex == ' ' || !IsSpace(row.inIndex))
    ensures row.inIndex == ' ' <==> row.path in before
  {
    RowBreakFree(row);
  }

  lemma {:induction false} OneLine(name: string)
    requires BreakFree(name) && name != ""
    ensures SplitLines(name) == [name] && Lines([name]) == name + "\n"
  {
    assert FirstBreak(name) == |name|;
    assert [name][1..] == [];
  }

  lemma {:induction false} FirstLine(name: string, rest: string)
    requires BreakFree(name)
    ensures SplitLines(name + "\n" + rest) == [name] + SplitLines(rest)
  {
    var s := name + "\n" + rest;
    FirstBreakAt(name, rest);
    assert s[..|name|] == name && s[|name| + 1..] == rest;
  }

  lemma {:induction false} LinesNotEmpty(names: seq<string>)
    requires names != []
    ensures Lines(names) != ""
  {
  }

  /** Text of lines without the last line feed still reads as the lines. */
  lemma {:induction false} LastFeed(names: seq<string>)
    requires names != [] && names[|names| - 1] != "" && forall i :: 0 <= i < |names| ==> BreakFree(names[i])
    ensures Lines(names) != "" && SplitLines(Lines(names)[..|Lines(names)| - 1]) == names
  {
    hide BreakFree, SplitLines;
    var name := names[0];
    LinesNotEmpty(names);
    if |names| == 1 {
      OneLine(name);
      assert names == [name] && (name + "\n")[..|name|] == name;
    } else {
      LastFeed(names[1..]);
      var rest := Lines(names[1..]);
      assert Lines(names) == name + "\n" + rest;
      assert Lines(names)[..|Lines(names)| - 1] == name + "\n" + rest[..|rest| - 1];
      FirstLine(name, rest[..|rest| - 1]);
      assert names == [name] + names[1..];
    }
  }

  lemma {:induction false} EndsInFeed(names: seq<string>)
    requires names != [] && names[0] != "" && names[|names| - 1] != ""
    ensures var all := Lines(names);
            |all| >= 2 && all[0] == names[0][0] && all[|all| - 1] == '\n'
            && all[|all| - 2] == names[|names| - 1][|names[|names| - 1]| - 1]
  {
    if |names| == 1 {
      assert Lines(names[1..]) == "";
    } else if names[1] != "" {
      EndsInFeed(names[1..]);
    } else {
      EndsInFeedToo(names[1..]);
    }
  }

  lemma {:induction false} EndsInFeedToo(names: seq<string>)
    requires names != [] && names[|names| - 1] != ""
    ensures var all := Lines(names);
            |all| >= 2 && all[|all| - 1] == '\n'
            && all[|all| - 2] == names[|names| - 1][|names[|names| - 1]| - 1]
  {
    if |names| == 1 {
      assert Lines(names[1..]) == "";
    } else {
      EndsInFeedToo(names[1..]);
    }
  }

  lemma {:induction false} TrimFeed(body: string)
    requires body != "" && !IsSpace(body[0]) && !IsSpace(body[|body| - 1])
    ensures Trim(body + "\n") == body
    ensures Trim(" " + body + "\n") == body
  {
    assert (body + "\n")[..|body|] == body;
    TrimFixed(body);
    assert TrimLeft(body + "\n") == body + "\n";
    assert TrimRight(body + "\n") == TrimRight(body);
    assert (" " + body + "\n")[1..] == body + "\n";
    assert TrimRight(body) == body;
  }

  /** The lines of the stripped text: the first one without its blank column. */
  function Stripped(rows: seq<Row>): seq<string>
    requires rows != []
  {
    [if rows[0].inIndex == ' ' then Rendered(rows[0])[1..] else Rendered(rows[0])] + Renderings(rows[1..])
  }

  lemma {:induction false} StrippedClean(rows: seq<Row>, before: Tree, i: nat)
    requires i < |rows| && forall i :: 0 <= i < |rows| ==> PrintsAsIs(rows[i].path) && Columns(rows[i], before)
    ensures |Stripped(rows)| == |rows| && BreakFree(Stripped(rows)[i]) && Stripped(rows)[i] != ""
  {
    hide PrintsAsIs, Columns, BreakFree;
    ColumnsBreakFree(rows[i], before);
    assert i > 0 ==> Stripped(rows)[i] == Rendered(rows[1..][i - 1]);
  }

  lemma {:induction false} StrippedLines(rows: seq<Row>, before: Tree)
    requires rows != [] && forall i :: 0 <= i < |rows| ==> PrintsAsIs(rows[i].path) && Columns(rows[i], before)
    ensures SplitLines(Trim(Text(rows))) == Stripped(rows)
  {
    hide SplitLines, Trim, PrintsAsIs, Columns, BreakFree, IsSpace, Stripped, Lines, Text;
    var lines := Stripped(rows);
    StrippedClean(rows, before, 0);
    forall i | 0 <= i < |lines|
      ensures BreakFree(lines[i]) && lines[i] != ""
    {
      StrippedClean(rows, before, i);
    }
    LastFeed(lines);
    EndsInFeed(lines);
    StrippedEnds(rows, before);
    TextFromStripped(rows);
    TrimmedText(Lines(lines));
  }

  lemma {:induction false} TrimmedText(all: string)
    requires |all| >= 2 && all[|all| - 1] == '\n' && !IsSpace(all[0]) && !IsSpace(all[|all| - 2])
    ensures Trim(all) == all[..|all| - 1] && Trim(" " + all) == all[..|all| - 1]
  {
    hide Trim, IsSpace;
    var body := all[..|all| - 1];
    assert all == body + "\n" && " " + all == " " + body + "\n";
    TrimFeed(body);
  }

  lemma {:induction false} StrippedEnds(rows: seq<Row>, before: Tree)
    requires rows != [] && forall i :: 0 <= i < |rows| ==> PrintsAsIs(rows[i].path) && Columns(rows[i], before)
    ensures var lines := Stripped(rows);
            var last := lines[|lines| - 1];
            lines[0] != "" && last != "" && !IsSpace(lines[0][0]) && !IsSpace(last[|last| - 1])
  {
    hide IsSpace;
    var n := |rows| - 1;
    ColumnsBreakFree(rows[0], before);
    var path := rows[n].path;
    assert !IsSpace(path[|path| - 1]);
    assert n > 0 ==> Stripped(rows)[n] == Rendered(rows[1..][n - 1]);
  }

  lemma {:induction false} TextFromStripped(rows: seq<Row>)
    requires rows != []
    ensures Text(rows) == if rows[0].inIndex == ' ' then " " + Lines(Stripped(rows)) else Lines(Stripped(rows))
  {
    assert Renderings(rows)[1..] == Renderings(rows[1..]);
    assert Stripped(rows)[1..] == Renderings(rows[1..]);
    var first := Rendered(rows[0]);
    assert rows[0].inIndex == ' ' ==> first == " " + first[1..];
  }

  // ---------- What each parser makes of git's report ----------

  lemma {:induction false} CollectAll(lines: seq<string>, paths: seq<string>, n: nat)
    requires n <= |lines| == |paths| && Distinct(paths)
    requires forall i :: 0 <= i < |lines| ==> RowPath(lines[i]) == paths[i] && paths[i] != ""
    ensures CollectFirst(lines, n) == paths[..n]
  {
    hide RowPath;
    if n > 0 {
      CollectAll(lines, paths, n - 1);
      assert paths[..n] == paths[..n - 1] + [paths[n - 1]];
      assert paths[n - 1] !in paths[..n - 1];
    }
  }

  lemma {:induction false} CollectMembers(lines: seq<string>, n: nat, p: string)
    requires n <= |lines|
    ensures p in CollectFirst(lines, n) <==> p != "" && exists i :: 0 <= i < n && RowPath(lines[i]) == p
  {
    hide RowPath;
    if n > 0 {
      CollectMembers(lines, n - 1, p);
    }
  }

  /** Stage 3 reads git's report as it is. */
  lemma {:induction false} Stage3Reads(rows: seq<Row>, before: Tree, after: Tree)
    requires IsStatus(rows, before, after)
    ensures Stage3Listing(Text(rows)) == Paths(rows)
  {
    hide SplitLines, Columns, BreakFree, RowPath;
    var lines := Renderings(rows);
    forall i | 0 <= i < |rows|
      ensures BreakFree(lines[i]) && RowPath(lines[i]) == rows[i].path && rows[i].path != ""
    {
      ColumnsBreakFree(rows[i], before);
      WholeRow(rows[i]);
    }
    LinesReadBack(lines);
    CollectAll(lines, Paths(rows), |rows|);
    assert Paths(rows)[..|rows|] == Paths(rows);
  }

  lemma {:induction false} StrippedRows(rows: seq<Row>, before: Tree, i: nat)
    requires i < |rows| && forall i :: 0 <= i < |rows| ==> PrintsAsIs(rows[i].path) && Columns(rows[i], before)
    ensures rows[i].path != "" && rows[0].path != ""
    ensures RowPath(Stripped(rows)[i]) == if i == 0 && rows[0].inIndex == ' ' then rows[0].path[1..] else rows[i].path
  {
    hide RowPath, PrintsAsIs;
    NotEmpty(rows[i]);
    WholeRow(rows[i]);
    CutRow(rows[0]);
    NotEmpty(rows[0]);
    assert i > 0 ==> Stripped(rows)[i] == Rendered(rows[1..][i - 1]);
  }

  lemma {:induction false} LosesFirst(rows: seq<Row>, before: Tree)
    requires rows != [] && rows[0].inIndex == ' ' && Distinct(Paths(rows))
    requires forall i :: 0 <= i < |rows| ==> PrintsAsIs(rows[i].path) && Columns(rows[i], before)
    ensures rows[0].path !in Collected(Stripped(rows))
  {
    hide RowPath, PrintsAsIs, Columns, Stripped;
    var lines := Stripped(rows);
    var first := rows[0].path;
    assert |lines| == |rows| by { StrippedLength(rows); }
    CollectMembers(lines, |lines|, first);
    forall i | 0 <= i < |lines|
      ensures RowPath(lines[i]) != first
    {
      StrippedRows(rows, before, i);
      StrippedRows(rows, before, 0);
      assert i > 0 ==> Paths(rows)[0] != Paths(rows)[i];
      assert |first[1..]| < |first|;
    }
  }

  lemma {:induction false} StrippedLength(rows: seq<Row>)
    requires rows != []
    ensures |Stripped(rows)| == |rows|
  {
  }

  lemma {:induction false} KeepsAll(rows: seq<Row>, before: Tree)
    requires rows != [] && rows[0].inIndex != ' ' && Distinct(Paths(rows))
    requires forall i :: 0 <= i < |rows| ==> PrintsAsIs(rows[i].path) && Columns(rows[i], before)
    ensures Collected(Stripped(rows)) == Paths(rows)
  {
    hide RowPath, PrintsAsIs, Columns, Stripped;
    var lines := Stripped(rows);
    StrippedLength(rows);
    forall i | 0 <= i < |lines|
      ensures RowPath(lines[i]) == Paths(rows)[i] && Paths(rows)[i] != ""
    {
      StrippedRows(rows, before, i);
    }
    CollectAll(lines, Paths(rows), |rows|);
    assert Paths(rows)[..|rows|] == Paths(rows);
  }

  /** The publisher reads it as it is exactly when the first row's index column is not blank, that is,
      when git reports no tracked path; else it loses the first path. */
  lemma {:induction false} PublisherReadsExactly(rows: seq<Row>, before: Tree, after: Tree)
    requires IsStatus(rows, before, after)
    ensures var listing := PublisherListing(Text(rows));
            && (listing == Paths(rows) <==> rows == [] || rows[0].inIndex != ' ')
            && (rows != [] && rows[0].inIndex == ' ' ==> rows[0].path !in listing)
    ensures rows != [] ==> (rows[0].inIndex != ' ' <==> forall p :: p in Diff(before, after) ==> p !in before)
  {
    hide SplitLines, Trim, Diff, PrintsAsIs, Columns, Stripped, Collected, Distinct;
    if rows == [] {
      NothingListed();
    } else {
      StrippedLines(rows, before);
      FirstDecides(rows, before, after);
      if rows[0].inIndex == ' ' {
        LosesFirst(rows, before);
        assert Paths(rows)[0] == rows[0].path;
      } else {
        KeepsAll(rows, before);
      }
    }
  }

  lemma {:induction false} NotEmpty(row: Row)
    requires PrintsAsIs(row.path)
    ensures row.path != ""
  {
  }

  lemma {:induction false} NothingListed()
    ensures PublisherListing(Text([])) == []
  {
    assert Renderings([]) == [];
  }

  lemma {:induction false} FirstDecides(rows: seq<Row>, before: Tree, after: Tree)
    requires IsStatus(rows, before, after) && rows != []
    ensures rows[0].inIndex != ' ' <==> forall p :: p in Diff(before, after) ==> p !in before
  {
    hide Diff, PrintsAsIs;
    assert Paths(rows)[0] in Paths(rows);
    if rows[0].path !in before {
      forall p | p in Diff(before, after)
        ensures p !in before
      {
        var i :| 0 <= i < |rows| && Paths(rows)[i] == p;
      }
    }
  }

  /** The report on one changed tracked file loses the first character of its path. */
  lemma {:induction false} FirstCharacterIsLost(path: string)
    requires PrintsAsIs(path) && |path| > 1
    ensures PublisherListing(Text([Row(' ', 'M', path)])) == [path[1..]]
    ensures Stage3Listing(Text([Row(' ', 'M', path)])) == [path]
  {
    hide SplitLines, Trim, RowPath, PrintsAsIs;
    var row := Row(' ', 'M', path);
    var rows := [row];
    var before: Tree := map[path := ""];
    StrippedLines(rows, before);
    assert Renderings(rows[1..]) == [];
    assert Stripped(rows) == [Rendered(row)[1..]];
    CutRow(row);
    OneCollected(Rendered(row)[1..], path[1..]);
    ColumnsBreakFree(row, before);
    assert Renderings(rows) == [Rendered(row)];
    LinesReadBack([Rendered(row)]);
    WholeRow(row);
    OneCollected(Rendered(row), path);
  }

  lemma {:induction false} OneCollected(line: string, path: string)
    requires RowPath(line) == path && path != ""
    ensures Collected([line]) == [path]
  {
    hide RowPath;
    assert CollectFirst([line], 0) == [];
  }

  lemma {:induction false} LostCharacterExample()
    ensures PublisherListing(Text([Row(' ', 'M', "services/a.py")])) == ["ervices/a.py"]
  {
    assert PrintsAsIs("services/a.py");
    FirstCharacterIsLost("services/a.py");
  }
}
