/** The two line formats of a release tree: the file list and the checksum list
    (scripts/release_artifact.py). */
module ReleaseLines {
  import opened Wrappers
  import opened RepoPath

  /** Python's line boundaries. */
  predicate IsBreak(c: char) {
    var n := c as int;
    10 <= n <= 13 || 28 <= n <= 30 || n == 133 || n == 8232 || n == 8233
  }

  lemma {:induction false} BreaksExactly(c: char)
    ensures IsBreak(c) <==> c as int in {10, 11, 12, 13, 28, 29, 30, 133, 8232, 8233}
  {
  }

  predicate BreakFree(s: string) {
    forall i :: 0 <= i < |s| ==> !IsBreak(s[i])
  }

  /** Index of the first line boundary, or the length. */
  function FirstBreak(s: string): (i: nat)
    ensures i <= |s| && BreakFree(s[..i]) && (i < |s| ==> IsBreak(s[i]))
  {
    if s == "" || IsBreak(s[0]) then 0 else
      var i := FirstBreak(s[1..]) + 1;
      assert s[1..][..i - 1] == s[1..i];
      i
  }

  /** A carriage return and a line feed are one boundary. */
  function Width(s: string, i: nat): (w: nat)
    requires i < |s|
    ensures 1 <= w <= |s| - i
  {
    if s[i] == '\r' && i + 1 < |s| && s[i + 1] == '\n' then 2 else 1
  }

  function SplitLines(s: string): seq<string>
    decreases |s|
  {
    if s == "" then
      []
    else
      var i := FirstBreak(s);
      if i == |s| then [s] else [s[..i]] + SplitLines(s[i + Width(s, i)..])
  }

  /** The names, each on a line of its own. */
  function Lines(names: seq<string>): string {
    if names == [] then "" else names[0] + "\n" + Lines(names[1..])
  }

  /** Text of a list of lines; an empty list still ends in a line feed. */
  function WriteLines(names: seq<string>): string {
    if names == [] then "\n" else Lines(names)
  }

  lemma {:induction false} LinesAreBreakFree(s: string, line: string)
    requires line in SplitLines(s)
    ensures BreakFree(line)
    decreases |s|
  {
    var i := FirstBreak(s);
    if i == |s| {
      assert s[..i] == s;
    } else if line != s[..i] {
      LinesAreBreakFree(s[i + Width(s, i)..], line);
    }
  }

  lemma {:induction false} FirstBreakAt(name: string, rest: string)
    requires BreakFree(name)
    ensures FirstBreak(name + "\n" + rest) == |name|
  {
    var s := name + "\n" + rest;
    var i := FirstBreak(s);
    assert s[|name|] == '\n';
    assert forall j :: 0 <= j < |name| ==> s[j] == name[j];
    assert forall j :: 0 <= j < i ==> s[..i][j] == s[j];
  }

  /** Lines without boundaries are read back as they were written. */
  lemma {:induction false} LinesReadBack(names: seq<string>)
    requires forall i :: 0 <= i < |names| ==> BreakFree(names[i])
    ensures SplitLines(Lines(names)) == names
  {
    if names != [] {
      var name, rest := names[0], Lines(names[1..]);
      var s := Lines(names);
      FirstBreakAt(name, rest);
      LinesReadBack(names[1..]);
      assert s[..|name|] == name;
      assert s[|name| + 1..] == rest;
      assert names == [name] + names[1..];
    }
  }

  // ---------- The file list ----------

  function NonBlank(lines: seq<string>): seq<string> {
    if lines == [] then
      []
    else
      (if Trim(lines[0]) == "" then [] else [Trim(lines[0])]) + NonBlank(lines[1..])
  }

  function ReadList(text: string): seq<string> {
    NonBlank(SplitLines(text))
  }

  /** A name the file list can carry. */
  predicate Listable(name: string) {
    name != "" && Trimmed(name) && BreakFree(name)
  }

  lemma {:induction false} TrimIsBreakFree(s: string)
    requires BreakFree(s)
    ensures BreakFree(Trim(s))
  {
    TrimLeftBreakFree(s);
    TrimRightEnds(TrimLeft(s));
  }

  lemma {:induction false} TrimLeftBreakFree(s: string)
    requires BreakFree(s)
    ensures BreakFree(TrimLeft(s))
  {
    if s != "" && IsSpace(s[0]) {
      TrimLeftBreakFree(s[1..]);
    }
  }

  lemma {:induction false} NonBlankIsListable(lines: seq<string>, name: string)
    requires (forall i :: 0 <= i < |lines| ==> BreakFree(lines[i])) && name in NonBlank(lines)
    ensures Listable(name)
  {
    hide BreakFree, Trim, Trimmed;
    if name in NonBlank(lines[1..]) {
      NonBlankIsListable(lines[1..], name);
    } else {
      TrimIsBreakFree(lines[0]);
      TrimIsTrimmed(lines[0]);
    }
  }

  lemma {:induction false} NonBlankKeeps(names: seq<string>)
    requires forall i :: 0 <= i < |names| ==> Listable(names[i])
    ensures NonBlank(names) == names
  {
    hide Trim, Trimmed, BreakFree;
    if names != [] {
      TrimFixed(names[0]);
      NonBlankKeeps(names[1..]);
      assert names == [names[0]] + names[1..];
    }
  }

  /** The file list is read back as written exactly when all its names are listable. */
  lemma {:induction false} ListReadBackExactly(names: seq<string>)
    ensures ReadList(WriteLines(names)) == names <==> forall i :: 0 <= i < |names| ==> Listable(names[i])
  {
    hide Trimmed, BreakFree, SplitLines, Lines;
    if names == [] {
      EmptyList();
    } else {
      if forall i :: 0 <= i < |names| ==> Listable(names[i]) {
        LinesReadBack(names);
        NonBlankKeeps(names);
      }
      if ReadList(WriteLines(names)) == names {
        var lines := SplitLines(WriteLines(names));
        forall i | 0 <= i < |lines|
          ensures BreakFree(lines[i])
        {
          LinesAreBreakFree(WriteLines(names), lines[i]);
        }
        forall i | 0 <= i < |names|
          ensures Listable(names[i])
        {
          NonBlankIsListable(lines, names[i]);
        }
      }
    }
  }

  lemma {:induction false} EmptyList()
    ensures ReadList("\n") == []
  {
    assert FirstBreak("\n") == 0;
    assert "\n"[1..] == "";
    assert SplitLines("\n") == [""];
    assert Trim("") == "";
    assert [""][1..] == [];
  }

  // ---------- The checksum list ----------

  /** Index of the first two blanks in a row, or the length. */
  function FirstGap(line: string): (i: nat)
    ensures i <= |line| && (i < |line| ==> i + 1 < |line| && line[i] == ' ' && line[i + 1] == ' ')
    ensures forall j :: 0 <= j < i && j + 1 < |line| ==> !(line[j] == ' ' && line[j + 1] == ' ')
  {
    if line == "" then 0
    else if |line| >= 2 && line[0] == ' ' && line[1] == ' ' then 0
    else FirstGap(line[1..]) + 1
  }

  function SumLine(digest: string, name: string): string {
    digest + "  " + name
  }

  predicate NoBlank(s: string) {
    forall i :: 0 <= i < |s| ==> !IsSpace(s[i])
  }

  lemma {:induction false} GapAfterDigest(digest: string, name: string)
    requires NoBlank(digest)
    ensures FirstGap(SumLine(digest, name)) == |digest|
  {
    var line := SumLine(digest, name);
    var i := FirstGap(line);
    assert line[|digest|] == ' ' && line[|digest| + 1] == ' ';
    assert forall j :: 0 <= j < |digest| ==> line[j] == digest[j] && digest[j] != ' ';
  }

  /** The rows read from the first `n` lines, later ones winning; absent if a row is malformed. */
  function ReadSumsFirst(lines: seq<string>, n: nat): Option<map<string, string>>
    requires n <= |lines|
  {
    if n == 0 then
      Some(map[])
    else
      match ReadSumsFirst(lines, n - 1)
      case None => None
      case Some(rows) =>
        var line := lines[n - 1];
        if Trim(line) == "" then Some(rows)
        else
          var i := FirstGap(line);
          if i == |line| then None else Some(rows[line[i + 2..] := line[..i]])
  }

  function ReadSums(text: string): Option<map<string, string>> {
    var lines := SplitLines(text);
    ReadSumsFirst(lines, |lines|)
  }

  function SumLines(digests: map<string, string>, names: seq<string>): seq<string>
    requires forall n :: n in names ==> n in digests
  {
    seq(|names|, i requires 0 <= i < |names| => SumLine(digests[names[i]], names[i]))
  }

  function WriteSums(digests: map<string, string>, names: seq<string>): string
    requires forall n :: n in names ==> n in digests
  {
    WriteLines(SumLines(digests, names))
  }

  lemma {:induction false} SumLineNotBlank(digest: string, name: string)
    requires NoBlank(digest) && digest != ""
    ensures Trim(SumLine(digest, name)) != ""
  {
    var line := SumLine(digest, name);
    assert line[0] == digest[0];
    TrimRightEnds(line);
  }

  lemma {:induction false} SumsReadBack(digests: map<string, string>, names: seq<string>, n: nat)
    requires (forall x :: x in names ==> x in digests) && n <= |names|
    requires forall x :: x in digests ==> NoBlank(digests[x]) && digests[x] != ""
    ensures ReadSumsFirst(SumLines(digests, names), n) == Some(map x | x in names[..n] :: digests[x])
  {
    hide NoBlank, Trim, SumLine;
    if n > 0 {
      SumsReadBack(digests, names, n - 1);
      var x := names[n - 1];
      SumLineNotBlank(digests[x], x);
      GapAfterDigest(digests[x], x);
      SumLineParts(digests[x], x);
      var before := map y | y in names[..n - 1] :: digests[y];
      var after := map y | y in names[..n] :: digests[y];
      assert names[..n] == names[..n - 1] + [x];
      assert after == before[x := digests[x]];
    }
  }

  lemma {:induction false} SumLineParts(digest: string, name: string)
    ensures var line := SumLine(digest, name);
            |digest| + 2 <= |line| && line[|digest| + 2..] == name && line[..|digest|] == digest
  {
  }

  lemma {:induction false} SumLineBreakFree(digest: string, name: string)
    requires NoBlank(digest) && BreakFree(name)
    ensures BreakFree(SumLine(digest, name))
  {
    var line := SumLine(digest, name);
    forall i | 0 <= i < |line|
      ensures !IsBreak(line[i])
    {
      if i < |digest| {
        assert line[i] == digest[i] && !IsSpace(digest[i]);
      } else if i >= |digest| + 2 {
        assert line[i] == name[i - |digest| - 2];
      }
    }
  }

  /** Every name read from a checksum list is free of line boundaries. */
  lemma {:induction false} ReadNamesBreakFree(lines: seq<string>, n: nat, name: string)
    requires n <= |lines| && (forall i :: 0 <= i < |lines| ==> BreakFree(lines[i]))
    requires ReadSumsFirst(lines, n).Some? && name in ReadSumsFirst(lines, n).value
    ensures BreakFree(name)
  {
    hide Trim;
    if n > 0 && name !in ReadSumsFirst(lines, n - 1).value {
      var line := lines[n - 1];
      assert BreakFree(line);
      assert name == line[FirstGap(line) + 2..];
    } else if n > 0 {
      ReadNamesBreakFree(lines, n - 1, name);
    }
  }

  /** The checksum list is read back as written exactly when no name holds a line boundary. */
  lemma {:induction false} SumsReadBackExactly(digests: map<string, string>, names: seq<string>)
    requires names != [] && (forall x :: x in names <==> x in digests)
    requires forall x :: x in digests ==> NoBlank(digests[x]) && digests[x] != ""
    ensures ReadSums(WriteSums(digests, names)) == Some(digests) <==> forall x :: x in names ==> BreakFree(x)
  {
    hide NoBlank, BreakFree, SplitLines, Lines, ReadSumsFirst;
    var text := WriteSums(digests, names);
    if forall x :: x in names ==> BreakFree(x) {
      forall i | 0 <= i < |names|
        ensures BreakFree(SumLines(digests, names)[i])
      {
        SumLineBreakFree(digests[names[i]], names[i]);
      }
      LinesReadBack(SumLines(digests, names));
      SumsReadBack(digests, names, |names|);
      assert names[..|names|] == names;
      assert digests == map x | x in names :: digests[x];
    }
    if ReadSums(text) == Some(digests) {
      var lines := SplitLines(text);
      forall i | 0 <= i < |lines|
        ensures BreakFree(lines[i])
      {
        LinesAreBreakFree(text, lines[i]);
      }
      forall x | x in names
        ensures BreakFree(x)
      {
        ReadNamesBreakFree(lines, |lines|, x);
      }
    }
  }
}
