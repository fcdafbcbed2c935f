/** Text of repository paths: trimming, separators, and the POSIX view of a path
    (the parts of Python's str and PurePosixPath that the path normalizers use). */
module RepoPath {

  // ---------- Trimming ----------

  /** Python's whitespace. */
  predicate IsSpace(c: char) {
    var n := c as int;
    || 9 <= n <= 13 || 28 <= n <= 32 || n == 133 || n == 160 || n == 5760 || 8192 <= n <= 8202
    || n == 8232 || n == 8233 || n == 8239 || n == 8287 || n == 12288
  }

  lemma {:induction false} SpacesExactly(c: char)
    ensures IsSpace(c) <==>
              c as int in {9, 10, 11, 12, 13, 28, 29, 30, 31, 32, 133, 160, 5760, 8192, 8193, 8194, 8195, 8196, 8197,
                           8198,
                           8199, 8200, 8201, 8202, 8232, 8233, 8239, 8287, 12288}
  {
  }

  function TrimLeft(s: string): string {
    if s != [] && IsSpace(s[0]) then TrimLeft(s[1..]) else s
  }

  function TrimRight(s: string): string {
    if s != [] && IsSpace(s[|s| - 1]) then TrimRight(s[..|s| - 1]) else s
  }

  function Trim(s: string): string {
    TrimRight(TrimLeft(s))
  }

  predicate Trimmed(s: string) {
    s == [] || (!IsSpace(s[0]) && !IsSpace(s[|s| - 1]))
  }

  lemma {:induction false} TrimLeftStarts(s: string)
    ensures |TrimLeft(s)| <= |s| && (TrimLeft(s) == [] || !IsSpace(TrimLeft(s)[0]))
    ensures TrimLeft(s) != [] ==> TrimLeft(s)[|TrimLeft(s)| - 1] == s[|s| - 1]
  {
    if s != [] && IsSpace(s[0]) {
      TrimLeftStarts(s[1..]);
    }
  }

  lemma {:induction false} TrimRightEnds(s: string)
    ensures |TrimRight(s)| <= |s| && TrimRight(s) == s[..|TrimRight(s)|]
    ensures TrimRight(s) == [] || !IsSpace(TrimRight(s)[|TrimRight(s)| - 1])
    ensures s != [] && !IsSpace(s[0]) ==> TrimRight(s) != []
  {
    if s != [] && IsSpace(s[|s| - 1]) {
      var front := s[..|s| - 1];
      TrimRightEnds(front);
      assert front[..|TrimRight(front)|] == s[..|TrimRight(front)|];
    }
  }

  lemma {:induction false} TrimIsTrimmed(s: string)
    ensures Trimmed(Trim(s)) && |Trim(s)| <= |s|
  {
    TrimLeftStarts(s);
    TrimRightEnds(TrimLeft(s));
  }

  /** Trimming changes nothing exactly when both ends are not whitespace. */
  lemma {:induction false} TrimFixed(s: string)
    ensures Trim(s) == s <==> Trimmed(s)
  {
    TrimIsTrimmed(s);
  }

  // ---------- Separators ----------

  function Slash(c: char): char {
    if c == '\\' then '/' else c
  }

  /** Backslashes become slashes. */
  function Slashes(s: string): (t: string)
    ensures |t| == |s| && forall i :: 0 <= i < |s| ==> t[i] == Slash(s[i])
  {
    if s == [] then [] else [Slash(s[0])] + Slashes(s[1..])
  }

  lemma {:induction false} SlashesFixed(s: string)
    ensures Slashes(s) == s <==> '\\' !in s
    ensures '\\' !in Slashes(s)
  {
    if '\\' in s {
      var i :| 0 <= i < |s| && s[i] == '\\';
      assert Slashes(s)[i] == '/';
    }
  }

  lemma {:induction false} SlashesTrimLeft(s: string)
    ensures TrimLeft(Slashes(s)) == Slashes(TrimLeft(s))
  {
    if s != [] && IsSpace(s[0]) {
      SlashesTrimLeft(s[1..]);
      assert Slashes(s)[1..] == Slashes(s[1..]);
    }
  }

  lemma {:induction false} SlashesTrimRight(s: string)
    ensures TrimRight(Slashes(s)) == Slashes(TrimRight(s))
  {
    if s != [] && IsSpace(s[|s| - 1]) {
      SlashesTrimRight(s[..|s| - 1]);
      assert Slashes(s)[..|s| - 1] == Slashes(s[..|s| - 1]);
    }
  }

  /** Replacing separators and trimming can be done in either order. */
  lemma {:induction false} SlashesTrim(s: string)
    ensures Trim(Slashes(s)) == Slashes(Trim(s))
  {
    SlashesTrimLeft(s);
    SlashesTrimRight(TrimLeft(s));
  }

  predicate StartsDotSlash(s: string) {
    |s| >= 2 && s[0] == '.' && s[1] == '/'
  }

  function DropDotSlash(s: string): string {
    if StartsDotSlash(s) then DropDotSlash(s[2..]) else s
  }

  lemma {:induction false} DropDotSlashFacts(s: string)
    ensures var t := DropDotSlash(s);
            && !StartsDotSlash(t) && |t| <= |s| && (t == s <==> !StartsDotSlash(s))
            && (t != [] ==> t[|t| - 1] == s[|s| - 1])
            && (forall c :: c in t ==> c in s)
  {
    if StartsDotSlash(s) {
      DropDotSlashFacts(s[2..]);
      assert forall c :: c in s[2..] ==> c in s;
    }
  }

  // ---------- The POSIX view ----------

  function Split(s: string): (cs: seq<string>)
    ensures |cs| > 0
  {
    if s == [] then
      [[]]
    else
      var rest := Split(s[1..]);
      if s[0] == '/' then [[]] + rest else [[s[0]] + rest[0]] + rest[1..]
  }

  function Join(cs: seq<string>): string {
    if cs == [] then [] else if |cs| == 1 then cs[0] else cs[0] + "/" + Join(cs[1..])
  }

  predicate SlashFree(cs: seq<string>) {
    forall i :: 0 <= i < |cs| ==> '/' !in cs[i]
  }

  lemma {:induction false} SplitSlashFree(s: string)
    ensures SlashFree(Split(s))
  {
    if s != [] {
      SplitSlashFree(s[1..]);
    }
  }

  lemma {:induction false} JoinSplit(s: string)
    ensures Join(Split(s)) == s
  {
    if s != [] {
      var rest := Split(s[1..]);
      JoinSplit(s[1..]);
      var cs := Split(s);
      if s[0] == '/' {
        assert cs[1..] == rest;
        assert Join(cs) == [] + "/" + Join(rest);
      } else {
        assert cs[1..] == rest[1..];
        if |rest| == 1 {
          assert Join(cs) == cs[0] && Join(rest) == rest[0];
        } else {
          assert Join(cs) == ([s[0]] + rest[0]) + "/" + Join(rest[1..]);
          assert Join(rest) == rest[0] + "/" + Join(rest[1..]);
        }
      }
    }
  }

  lemma {:induction false} SplitPlain(c: string)
    requires '/' !in c
    ensures Split(c) == [c]
  {
    if c != [] {
      assert c[0] in c;
      assert forall x :: x in c[1..] ==> x in c;
      SplitPlain(c[1..]);
      assert [c[0]] + c[1..] == c;
    }
  }

  lemma {:induction false} SplitAtSlash(c: string, rest: string)
    requires '/' !in c
    ensures Split(c + "/" + rest) == [c] + Split(rest)
  {
    var s := c + "/" + rest;
    if c == [] {
      assert s[1..] == rest;
    } else {
      assert c[0] in c;
      assert forall x :: x in c[1..] ==> x in c;
      SplitAtSlash(c[1..], rest);
      assert s[1..] == c[1..] + "/" + rest;
      assert ([c[1..]] + Split(rest))[1..] == Split(rest);
      assert [c[0]] + c[1..] == c;
    }
  }

  lemma {:induction false} SplitJoin(cs: seq<string>)
    requires cs != [] && SlashFree(cs)
    ensures Split(Join(cs)) == cs
  {
    if |cs| == 1 {
      SplitPlain(cs[0]);
    } else {
      SplitJoin(cs[1..]);
      SplitAtSlash(cs[0], Join(cs[1..]));
    }
  }

  /** The components a PurePosixPath keeps. */
  function Kept(cs: seq<string>): seq<string> {
    if cs == [] then
      []
    else
      (if cs[0] == "" || cs[0] == "." then [] else [cs[0]]) + Kept(cs[1..])
  }

  lemma {:induction false} KeptMembers(cs: seq<string>, c: string)
    ensures c in Kept(cs) <==> c in cs && c != "" && c != "."
  {
    if cs != [] {
      KeptMembers(cs[1..], c);
    }
  }

  function Parts(s: string): seq<string> {
    Kept(Split(s))
  }

  predicate IsAbsolute(s: string) {
    s != [] && s[0] == '/'
  }

  /** `PurePosixPath(s).as_posix()` of a relative path. */
  function AsPosix(s: string): string {
    if Parts(s) == [] then "." else Join(Parts(s))
  }

  /** No empty, current or parent component. */
  predicate Plain(cs: seq<string>) {
    forall i :: 0 <= i < |cs| ==> cs[i] != "" && cs[i] != "." && cs[i] != ".."
  }

  lemma {:induction false} AllKept(cs: seq<string>)
    ensures forall c :: c in Kept(cs) ==> c in cs && c != "" && c != "."
  {
    forall c | c in Kept(cs)
      ensures c in cs && c != "" && c != "."
    {
      KeptMembers(cs, c);
    }
  }

  lemma {:induction false} KeptLength(cs: seq<string>)
    ensures |Kept(cs)| <= |cs|
    ensures |Kept(cs)| == |cs| ==> Kept(cs) == cs
  {
    if cs != [] {
      KeptLength(cs[1..]);
    }
  }

  lemma {:induction false} KeptAll(cs: seq<string>)
    requires forall i :: 0 <= i < |cs| ==> cs[i] != "" && cs[i] != "."
    ensures Kept(cs) == cs
  {
    if cs != [] {
      KeptAll(cs[1..]);
    }
  }

  lemma {:induction false} KeptSlashFree(cs: seq<string>)
    requires SlashFree(cs)
    ensures SlashFree(Kept(cs))
  {
    if cs != [] {
      KeptSlashFree(cs[1..]);
    }
  }

  /** A relative path is its own POSIX form without parent components exactly when it is `.` or all
      its components are plain. */
  lemma {:induction false} PosixFormExactly(s: string)
    requires s != []
    ensures !IsAbsolute(s) && ".." !in Parts(s) && AsPosix(s) == s <==> s == "." || Plain(Split(s))
  {
    SplitSlashFree(s);
    KeptSlashFree(Split(s));
    JoinSplit(s);
    if s == "." {
      SplitPlain(s);
      assert Split(s) == ["."];
      assert Kept(["."][1..]) == [];
      assert Parts(s) == [];
    } else {
      if Plain(Split(s)) {
        PlainIsPosix(s);
      }
      if ".." !in Parts(s) && AsPosix(s) == s {
        AllKept(Split(s));
        SplitJoin(Parts(s));
        forall i | 0 <= i < |Split(s)|
          ensures Split(s)[i] != "" && Split(s)[i] != "." && Split(s)[i] != ".."
        {
          assert Split(s)[i] in Parts(s);
        }
      }
    }
  }

  lemma {:induction false} PlainIsPosix(s: string)
    requires s != [] && Plain(Split(s))
    ensures !IsAbsolute(s) && ".." !in Parts(s) && Parts(s) == Split(s) && AsPosix(s) == s
  {
    JoinSplit(s);
    KeptAll(Split(s));
    forall c | c in Split(s)
      ensures c != ".."
    {
      var i :| 0 <= i < |Split(s)| && Split(s)[i] == c;
    }
    assert Split(s)[0] != "";
  }

  // ---------- Composing paths ----------

  lemma {:induction false} JoinConcat(a: seq<string>, b: seq<string>)
    requires a != [] && b != []
    ensures Join(a + b) == Join(a) + "/" + Join(b)
  {
    assert (a + b)[1..] == a[1..] + b;
    if |a| > 1 {
      JoinConcat(a[1..], b);
    } else {
      assert (a + b)[1..] == b;
    }
  }

  lemma {:induction false} SplitConcat(a: string, b: string)
    ensures Split(a + "/" + b) == Split(a) + Split(b)
  {
    SplitSlashFree(a);
    SplitSlashFree(b);
    JoinSplit(a);
    JoinSplit(b);
    JoinConcat(Split(a), Split(b));
    SplitJoin(Split(a) + Split(b));
  }

  function KeptHead(c: string): seq<string> {
    if c == "" || c == "." then [] else [c]
  }

  lemma {:induction false} KeptStep(c: string, cs: seq<string>)
    ensures Kept([c] + cs) == KeptHead(c) + Kept(cs)
  {
    assert ([c] + cs)[1..] == cs;
  }

  lemma {:induction false} KeptConcat(a: seq<string>, b: seq<string>)
    ensures Kept(a + b) == Kept(a) + Kept(b)
  {
    hide Kept, KeptHead;
    if a == [] {
      KeptEmpty();
      assert a + b == b;
    } else {
      KeptConcat(a[1..], b);
      KeptStep(a[0], a[1..]);
      KeptStep(a[0], a[1..] + b);
      assert [a[0]] + a[1..] == a;
      assert [a[0]] + (a[1..] + b) == a + b;
    }
  }

  lemma {:induction false} KeptEmpty()
    ensures Kept([]) == []
  {
  }

  lemma {:induction false} JoinOne(c: string)
    ensures Join([c]) == c
  {
  }

  lemma {:induction false} EndsPlain(a: string, b: string)
    requires '/' !in a && Plain(Split(a + "/" + b))
    ensures a != "" && a != "." && b != ""
  {
    SplitAtSlash(a, b);
    var cs := Split(a + "/" + b);
    assert cs[0] == a && cs[1] == Split(b)[0];
  }

  lemma {:induction false} DoubledParts(a: string, b: string)
    requires '/' !in a && Plain(Split(a + "/" + b))
    ensures Parts(a + "//" + b) == Parts(a + "/" + b) && ".." !in Parts(a + "//" + b)
  {
    hide Kept, Split;
    assert a + "//" + b == a + "/" + ("/" + b);
    SplitAtSlash(a, "/" + b);
    assert "" + "/" + b == "/" + b;
    SplitAtSlash("", b);
    SplitAtSlash(a, b);
    KeptStep(a, [""] + Split(b));
    KeptStep("", Split(b));
    KeptStep(a, Split(b));
    PlainIsPosix(a + "/" + b);
  }
}
