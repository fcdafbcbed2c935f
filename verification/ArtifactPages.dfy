/** Finding one artifact in a paged listing (scripts/p4_8_evidence_producer.py). */
module ArtifactPages {
  import opened Wrappers

  const PER_PAGE: nat := 100
  const MAX_PAGES: nat := 100

  datatype Artifact = Artifact(id: nat, name: string, digest: string)

  /** One page of the listing; a response that is not well-formed has no rows. */
  datatype Page = Malformed | Page(total: nat, rows: seq<Artifact>)

  datatype Refusal =
    | ResponseInvalid
    | PaginationGap
    | PaginationLimit
    | NameNotUnique
    | MetadataMismatch

  function Named(rows: seq<Artifact>, name: string): seq<Artifact> {
    if rows == [] then
      []
    else
      var n := |rows| - 1;
      if rows[n].name == name then Named(rows[..n], name) + [rows[n]] else Named(rows[..n], name)
  }

  lemma {:induction false} NamedConcat(a: seq<Artifact>, b: seq<Artifact>, name: string)
    ensures Named(a + b, name) == Named(a, name) + Named(b, name)
  {
    if b == [] {
      assert a + b == a;
    } else {
      var n := |b| - 1;
      NamedConcat(a, b[..n], name);
      assert (a + b)[..|a + b| - 1] == a + b[..n];
    }
  }

  // ---------- The scan ----------

  /** The matches from page `page` on, given those before. */
  function ScanFrom(serve: nat -> Page, name: string, page: nat, matches: seq<Artifact>): Result<seq<Artifact>, Refusal>
    requires 1 <= page <= MAX_PAGES
    decreases MAX_PAGES - page
  {
    match serve(page)
    case Malformed => Failure(ResponseInvalid)
    case Page(total, rows) =>
      var found := matches + Named(rows, name);
      if |rows| > total then Failure(ResponseInvalid)
      else if page * PER_PAGE < total then
        if |rows| != PER_PAGE then Failure(PaginationGap)
        else if page + 1 > MAX_PAGES then Failure(PaginationLimit)
        else ScanFrom(serve, name, page + 1, found)
      else Success(found)
  }

  method Scan(serve: nat -> Page, name: string) returns (r: Result<seq<Artifact>, Refusal>)
    ensures r == ScanFrom(serve, name, 1, [])
  {
    hide Named;
    var matches: seq<Artifact> := [];
    var page := 1;
    while true
      invariant 1 <= page <= MAX_PAGES
      invariant ScanFrom(serve, name, page, matches) == ScanFrom(serve, name, 1, [])
      decreases MAX_PAGES - page
    {
      var listing := serve(page);
      if listing.Malformed? {
        return Failure(ResponseInvalid);
      }
      matches := matches + Named(listing.rows, name);
      if |listing.rows| > listing.total {
        return Failure(ResponseInvalid);
      }
      if page * PER_PAGE < listing.total {
        if |listing.rows| != PER_PAGE {
          return Failure(PaginationGap);
        }
        page := page + 1;
        if page > MAX_PAGES {
          return Failure(PaginationLimit);
        }
        continue;
      }
      return Success(matches);
    }
  }

  /** Binding the selected artifact: its name must be unique in the listing. */
  function Bind(serve: nat -> Page, selected: Artifact): Result<Artifact, Refusal> {
    var matches :- ScanFrom(serve, selected.name, 1, []);
    :- Need(|matches| == 1, NameNotUnique);
    :- Need(matches[0] == selected, MetadataMismatch);
    Success(selected)
  }

  // ---------- A server of a fixed list ----------

  function Slice(list: seq<Artifact>, page: nat): seq<Artifact>
    requires page >= 1
  {
    var from, to := (page - 1) * PER_PAGE, page * PER_PAGE;
    if from >= |list| then [] else if to >= |list| then list[from..] else list[from..to]
  }

  function Serving(list: seq<Artifact>): nat -> Page {
    (page: nat) => if page == 0 then Malformed else Page(|list|, Slice(list, page))
  }

  lemma {:induction false} ScanOfList(list: seq<Artifact>, name: string, page: nat)
    requires 1 <= page <= MAX_PAGES && (page - 1) * PER_PAGE <= |list| && (page > 1 ==> (page - 1) * PER_PAGE < |list|)
    ensures ScanFrom(Serving(list), name, page, Named(list[..(page - 1) * PER_PAGE], name)) ==
            if |list| <= MAX_PAGES * PER_PAGE then Success(Named(list, name)) else Failure(PaginationLimit)
    decreases MAX_PAGES - page
  {
    hide Named;
    var from, to := (page - 1) * PER_PAGE, page * PER_PAGE;
    NamedConcat(list[..from], Slice(list, page), name);
    if to < |list| {
      assert list[..from] + Slice(list, page) == list[..to];
      if page < MAX_PAGES {
        ScanOfList(list, name, page + 1);
      }
    } else {
      assert list[..from] + Slice(list, page) == list;
    }
  }

  /** Against a server of a fixed list the scan has seen exactly the whole list when it has at most
      ten thousand entries, and is refused otherwise. */
  lemma {:induction false} ScanExactly(list: seq<Artifact>, name: string)
    ensures ScanFrom(Serving(list), name, 1, []) ==
            if |list| <= 10000 then Success(Named(list, name)) else Failure(PaginationLimit)
  {
    assert list[..0] == [];
    ScanOfList(list, name, 1);
  }

  ghost predicate OnlyAt(list: seq<Artifact>, name: string, i: nat) {
    i < |list| && list[i].name == name && forall j :: 0 <= j < |list| && list[j].name == name ==> j == i
  }

  lemma {:induction false} NamedMembers(list: seq<Artifact>, name: string)
    ensures forall a :: a in Named(list, name) ==> a.name == name && a in list
    ensures |Named(list, name)| == 0 <==> forall i :: 0 <= i < |list| ==> list[i].name != name
  {
    if list != [] {
      var n := |list| - 1;
      NamedMembers(list[..n], name);
      assert forall i :: 0 <= i < n ==> list[i] == list[..n][i];
    }
  }

  lemma {:induction false} NamedOnce(list: seq<Artifact>, name: string)
    ensures |Named(list, name)| == 1 <==> exists i: nat :: OnlyAt(list, name, i)
  {
    if list != [] {
      var n := |list| - 1;
      var front := list[..n];
      NamedOnce(front, name);
      NamedMembers(front, name);
      assert forall i :: 0 <= i < n ==> list[i] == front[i];
      if list[n].name == name {
        if |Named(front, name)| == 0 {
          assert OnlyAt(list, name, n);
        }
      } else {
        assert forall i: nat :: OnlyAt(list, name, i) <==> OnlyAt(front, name, i);
      }
    }
  }

  /** The artifact is bound exactly when the list is not too long and the artifact is the only one in
      it with its name. */
  lemma {:induction false} BindExactly(list: seq<Artifact>, selected: Artifact)
    ensures Bind(Serving(list), selected).Success? <==>
              && |list| <= 10000
              && exists i :: 0 <= i < |list| && list[i] == selected
                             && forall j :: 0 <= j < |list| && list[j].name == selected.name ==> j == i
  {
    hide ScanFrom, Named;
    ScanExactly(list, selected.name);
    NamedMembers(list, selected.name);
    NamedOnce(list, selected.name);
    var named := Named(list, selected.name);
    if |list| <= MAX_PAGES * PER_PAGE && |named| == 1 {
      assert named[0] in named;
      var i: nat :| OnlyAt(list, selected.name, i);
      var k :| 0 <= k < |list| && list[k] == named[0];
      assert k == i;
    }
    if i :| 0 <= i < |list| && list[i] == selected && forall j :: 0 <= j < |list| && list[j].name == selected.name ==>
      j == i {
      assert OnlyAt(list, selected.name, i);
    }
  }

  // ---------- Any server ----------

  /** The rows of pages one to `k`. */
  function Rows(serve: nat -> Page, k: nat): seq<Artifact> {
    if k == 0 then [] else Rows(serve, k - 1) + (if serve(k).Page? then serve(k).rows else [])
  }

  /** Pages one to `k - 1` are full and announce more; page `k` announces no more than `k` pages hold. */
  ghost predicate EndsAt(serve: nat -> Page, k: nat) {
    && 1 <= k <= 100
    && (forall p: nat :: 1 <= p <= k ==> serve(p).Page? && |serve(p).rows| <= serve(p).total)
    && (forall p: nat :: 1 <= p < k ==> |serve(p).rows| == 100 && p * 100 < serve(p).total)
    && serve(k).total <= k * 100
  }

  lemma {:induction false} ScanSees(serve: nat -> Page, name: string, page: nat)
    requires 1 <= page <= MAX_PAGES
    requires forall p: nat :: 1 <= p < page ==>
               serve(p).Page? && |serve(p).rows| == PER_PAGE && p * PER_PAGE < serve(p).total
    requires forall p: nat :: 1 <= p < page ==> |serve(p).rows| <= serve(p).total
    requires ScanFrom(serve, name, page, Named(Rows(serve, page - 1), name)).Success?
    ensures exists k: nat :: page <= k && EndsAt(serve, k)
                        && ScanFrom(serve, name, page, Named(Rows(serve, page - 1), name)) ==
                           Success(Named(Rows(serve, k), name))
    decreases MAX_PAGES - page
  {
    hide Named;
    NamedConcat(Rows(serve, page - 1), serve(page).rows, name);
    if page * PER_PAGE < serve(page).total {
      ScanSees(serve, name, page + 1);
    } else {
      assert EndsAt(serve, page);
    }
  }

  /** Whatever the server answers, a successful scan has looked at all rows up to a last page, every
      page before it full. Whether that was all that was announced, the scan does not check: it was
      exactly when the last page is as long as announced. */
  lemma {:induction false} SuccessSawItsPages(serve: nat -> Page, name: string)
    requires ScanFrom(serve, name, 1, []).Success?
    ensures exists k: nat :: EndsAt(serve, k) && ScanFrom(serve, name, 1, []) == Success(Named(Rows(serve, k), name))
                        && (|Rows(serve, k)| == serve(k).total <==>
                            |serve(k).rows| == serve(k).total - (k - 1) * 100)
  {
    assert Named(Rows(serve, 0), name) == [];
    ScanSees(serve, name, 1);
    var k: nat :| 1 <= k && EndsAt(serve, k) && ScanFrom(serve, name, 1, []) == Success(Named(Rows(serve, k), name));
    FullPages(serve, k, k - 1);
  }

  lemma {:induction false} FullPages(serve: nat -> Page, k: nat, p: nat)
    requires EndsAt(serve, k) && p < k
    ensures |Rows(serve, p)| == p * 100
    decreases p
  {
    if p > 0 {
      FullPages(serve, k, p - 1);
    }
  }

  /** A server that announces two artifacts and returns one. */
  function Truncating(artifact: Artifact): nat -> Page {
    (page: nat) => Page(2, [artifact])
  }

  /** The missing row goes unnoticed: the artifact is bound as unique. */
  lemma {:induction false} TruncatedPageIsAccepted(artifact: Artifact)
    ensures Bind(Truncating(artifact), artifact) == Success(artifact)
    ensures EndsAt(Truncating(artifact), 1) && |Rows(Truncating(artifact), 1)| < Truncating(artifact)(1).total
  {
    var rows := [artifact];
    assert rows[..0] == [];
    assert Named(rows, artifact.name) == [artifact];
    assert Rows(Truncating(artifact), 0) == [];
    assert ScanFrom(Truncating(artifact), artifact.name, 1, []) == Success([artifact]);
  }
}
