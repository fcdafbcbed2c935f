/** Joining public turns to recorded snapshots (scripts/analyze_context_campaign.py). */
module TurnMatching {
  import opened Wrappers

  /** A prompt, or the input text a snapshot records. */
  datatype Text = Text(value: string)

  /** How many of the first `n` texts are `t`. */
  function Count(texts: seq<Text>, n: nat, t: Text): nat
    requires n <= |texts|
  {
    if n == 0 then 0 else Count(texts, n - 1, t) + (if texts[n - 1] == t then 1 else 0)
  }

  /** Snapshot `x` is the one the turn `i` belongs to: same text, and as many alike before it. */
  predicate Belongs(prompts: seq<Text>, i: nat, snapshots: seq<Text>, x: nat)
    requires i < |prompts|
  {
    x < |snapshots| && snapshots[x] == prompts[i] && Count(snapshots, x, prompts[i]) == Count(prompts, i, prompts[i])
  }

  /** There are not enough snapshots of this text. */
  predicate Exhausted(prompts: seq<Text>, i: nat, snapshots: seq<Text>)
    requires i < |prompts|
  {
    Count(snapshots, |snapshots|, prompts[i]) <= Count(prompts, i, prompts[i])
  }

  lemma {:induction false} CountStep(texts: seq<Text>, x: nat)
    requires x < |texts|
    ensures Count(texts, x + 1, texts[x]) == Count(texts, x, texts[x]) + 1
  {
  }

  lemma {:induction false} CountGrows(texts: seq<Text>, m: nat, n: nat, t: Text)
    requires m <= n <= |texts|
    ensures Count(texts, m, t) <= Count(texts, n, t) <= Count(texts, m, t) + (n - m)
    decreases n
  {
    if m < n {
      CountGrows(texts, m, n - 1, t);
    }
  }

  /** Equal texts with equally many alike before them are one. */
  lemma {:induction false} RankIsUnique(texts: seq<Text>, x: nat, y: nat)
    requires x < |texts| && y < |texts| && texts[x] == texts[y]
    requires Count(texts, x, texts[x]) == Count(texts, y, texts[y])
    ensures x == y
  {
    if x < y {
      CountStep(texts, x);
      CountGrows(texts, x + 1, y, texts[x]);
    }
    if y < x {
      CountStep(texts, y);
      CountGrows(texts, y + 1, x, texts[x]);
    }
  }

  /** If every `t` before `n` has fewer than `c` alike before it, there are at most `c`. */
  lemma {:induction false} RanksBoundCount(texts: seq<Text>, n: nat, t: Text, c: nat)
    requires n <= |texts| && forall y :: 0 <= y < n && texts[y] == t ==> Count(texts, y, t) < c
    ensures Count(texts, n, t) <= c
  {
    if n > 0 && texts[n - 1] != t {
      RanksBoundCount(texts, n - 1, t, c);
    }
  }

  /** The snapshots used up once the first `i` turns are joined. */
  ghost predicate UsedUp(prompts: seq<Text>, i: nat, snapshots: seq<Text>, consumed: set<nat>)
    requires i <= |prompts|
  {
    forall x :: 0 <= x < |snapshots| ==>
      (x in consumed <==> Count(snapshots, x, snapshots[x]) < Count(prompts, i, snapshots[x]))
  }

  /** Everything with this text before `index` is used up. */
  ghost predicate Scanned(prompts: seq<Text>, i: nat, snapshots: seq<Text>, index: nat)
    requires i < |prompts| && index <= |snapshots|
  {
    forall y :: 0 <= y < index && snapshots[y] == prompts[i] ==>
      Count(snapshots, y, prompts[i]) < Count(prompts, i, prompts[i])
  }

  lemma {:induction false} Found(prompts: seq<Text>, i: nat, snapshots: seq<Text>, index: nat, consumed: set<nat>)
    requires i < |prompts| && index < |snapshots| && UsedUp(prompts, i, snapshots, consumed)
             && Scanned(prompts, i, snapshots, index)
    requires snapshots[index] == prompts[i] && index !in consumed
    ensures Belongs(prompts, i, snapshots, index) && UsedUp(prompts, i + 1, snapshots, consumed + {index})
  {
    var prompt := prompts[i];
    RanksBoundCount(snapshots, index, prompt, Count(prompts, i, prompt));
    forall x | 0 <= x < |snapshots|
      ensures x in consumed + {index} <==> Count(snapshots, x, snapshots[x]) < Count(prompts, i + 1, snapshots[x])
    {
      if snapshots[x] == prompt && Count(snapshots, x, prompt) == Count(prompts, i, prompt) {
        RankIsUnique(snapshots, x, index);
      }
    }
  }

  lemma {:induction false} Missing(prompts: seq<Text>, i: nat, snapshots: seq<Text>, consumed: set<nat>)
    requires i < |prompts| && UsedUp(prompts, i, snapshots, consumed) && Scanned(prompts, i, snapshots, |snapshots|)
    ensures Exhausted(prompts, i, snapshots) && UsedUp(prompts, i + 1, snapshots, consumed)
  {
    RanksBoundCount(snapshots, |snapshots|, prompts[i], Count(prompts, i, prompts[i]));
    forall x | 0 <= x < |snapshots|
      ensures x in consumed <==> Count(snapshots, x, snapshots[x]) < Count(prompts, i + 1, snapshots[x])
    {
    }
  }

  /** What the join of the first `n` turns promises. */
  ghost predicate JoinedSoFar(prompts: seq<Text>, snapshots: seq<Text>, joined: seq<Option<nat>>, n: nat)
    requires n <= |prompts|
  {
    && |joined| == n
    && forall i :: 0 <= i < n ==>
         if joined[i].Some? then Belongs(prompts, i, snapshots, joined[i].value) else Exhausted(prompts, i, snapshots)
  }

  /** The greedy scan: each turn takes the first unused snapshot with its text. The k-th turn with a
      prompt gets the k-th snapshot with that text, and none exactly when there is no such snapshot. */
  method MatchTurns(prompts: seq<Text>, snapshots: seq<Text>) returns (joined: seq<Option<nat>>)
    ensures Greedy(prompts, snapshots, joined)
  {
    hide UsedUp, Belongs, Exhausted;
    joined := [];
    var consumed: set<nat> := {};
    Begin(prompts, snapshots);
    for i := 0 to |prompts|
      invariant JoinedSoFar(prompts, snapshots, joined, i)
      invariant UsedUp(prompts, i, snapshots, consumed)
    {
      var prompt := prompts[i];
      var index := 0;
      while index < |snapshots| && (index in consumed || snapshots[index] != prompt)
        invariant index <= |snapshots| && Scanned(prompts, i, snapshots, index)
      {
        ScanNext(prompts, i, snapshots, index, consumed);
        index := index + 1;
      }
      if index < |snapshots| {
        Found(prompts, i, snapshots, index, consumed);
        consumed := consumed + {index};
        joined := joined + [Some(index)];
      } else {
        Missing(prompts, i, snapshots, consumed);
        joined := joined + [None];
      }
    }
  }

  lemma {:induction false} Begin(prompts: seq<Text>, snapshots: seq<Text>)
    ensures UsedUp(prompts, 0, snapshots, {})
  {
  }

  lemma {:induction false} ScanNext(prompts: seq<Text>, i: nat, snapshots: seq<Text>, index: nat, consumed: set<nat>)
    requires i < |prompts| && index < |snapshots| && UsedUp(prompts, i, snapshots, consumed)
             && Scanned(prompts, i, snapshots, index)
    requires index in consumed || snapshots[index] != prompts[i]
    ensures Scanned(prompts, i, snapshots, index + 1)
  {
    hide Count;
  }

  // ---------- What the join promises ----------

  /** What `MatchTurns` returns. */
  ghost predicate Greedy(prompts: seq<Text>, snapshots: seq<Text>, joined: seq<Option<nat>>) {
    JoinedSoFar(prompts, snapshots, joined, |prompts|)
  }

  /** Any join of turns to snapshots of the same text that uses no snapshot twice. */
  ghost predicate Join(prompts: seq<Text>, snapshots: seq<Text>, joined: seq<Option<nat>>) {
    && |joined| == |prompts|
    && (forall i :: 0 <= i < |joined| && joined[i].Some? ==>
          joined[i].value < |snapshots| && snapshots[joined[i].value] == prompts[i])
    && (forall i, j :: 0 <= i < j < |joined| && joined[i].Some? && joined[j].Some? ==>
        joined[i].value != joined[j].value)
  }

  /** How many of the first `n` turns with prompt `t` are joined. */
  function Matched(prompts: seq<Text>, joined: seq<Option<nat>>, n: nat, t: Text): nat
    requires n <= |prompts| == |joined|
  {
    if n == 0 then 0
    else Matched(prompts, joined, n - 1, t) + (if prompts[n - 1] == t && joined[n - 1].Some? then 1 else 0)
  }

  /** Each snapshot is used at most once. */
  lemma {:induction false} GreedyIsJoin(prompts: seq<Text>, snapshots: seq<Text>, joined: seq<Option<nat>>)
    requires Greedy(prompts, snapshots, joined)
    ensures Join(prompts, snapshots, joined)
  {
    forall i, j | 0 <= i < j < |joined| && joined[i].Some? && joined[j].Some?
      ensures joined[i].value != joined[j].value
    {
      assert Belongs(prompts, i, snapshots, joined[i].value) && Belongs(prompts, j, snapshots, joined[j].value);
      if prompts[i] == prompts[j] {
        CountStep(prompts, i);
        CountGrows(prompts, i + 1, j, prompts[i]);
      }
    }
  }

  lemma {:induction false} GreedyCounts(prompts: seq<Text>, snapshots: seq<Text>, joined: seq<Option<nat>>, n: nat,
      t: Text)
    requires Greedy(prompts, snapshots, joined) && n <= |prompts|
    ensures var turns, total := Count(prompts, n, t), Count(snapshots, |snapshots|, t);
            Matched(prompts, joined, n, t) == if turns <= total then turns else total
  {
    if n > 0 {
      GreedyCounts(prompts, snapshots, joined, n - 1, t);
      if prompts[n - 1] == t && joined[n - 1].Some? {
        var x := joined[n - 1].value;
        assert Belongs(prompts, n - 1, snapshots, x);
        CountStep(snapshots, x);
        CountGrows(snapshots, x + 1, |snapshots|, t);
      }
    }
  }

  /** The indices of the first `n` texts that are `t`. */
  function Places(texts: seq<Text>, n: nat, t: Text): (places: set<nat>)
    requires n <= |texts|
    ensures |places| == Count(texts, n, t)
    ensures forall x: nat :: x in places <==> x < n && texts[x] == t
  {
    if n == 0 then {} else
      var front := Places(texts, n - 1, t);
      if texts[n - 1] == t then front + {n - 1} else front
  }

  /** The snapshots a join uses for the first `n` turns with prompt `t`. */
  function Used(prompts: seq<Text>, joined: seq<Option<nat>>, n: nat, t: Text): set<nat>
    requires n <= |prompts| == |joined|
  {
    if n == 0 then {} else
      var front := Used(prompts, joined, n - 1, t);
      if prompts[n - 1] == t && joined[n - 1].Some? then front + {joined[n - 1].value} else front
  }

  lemma {:induction false} UsedBy(prompts: seq<Text>, joined: seq<Option<nat>>, n: nat, t: Text, x: nat)
    requires n <= |prompts| == |joined| && x in Used(prompts, joined, n, t)
    ensures exists i :: 0 <= i < n && prompts[i] == t && joined[i] == Some(x)
  {
    if x in Used(prompts, joined, n - 1, t) {
      UsedBy(prompts, joined, n - 1, t, x);
    } else {
      assert joined[n - 1] == Some(x);
    }
  }

  lemma {:induction false} UsedCount(prompts: seq<Text>, snapshots: seq<Text>, joined: seq<Option<nat>>, n: nat,
      t: Text)
    requires Join(prompts, snapshots, joined) && n <= |prompts|
    ensures |Used(prompts, joined, n, t)| == Matched(prompts, joined, n, t)
    ensures forall x :: x in Used(prompts, joined, n, t) ==> x < |snapshots| && snapshots[x] == t
  {
    if n > 0 {
      UsedCount(prompts, snapshots, joined, n - 1, t);
      if prompts[n - 1] == t && joined[n - 1].Some? && joined[n - 1].value in Used(prompts, joined, n - 1, t) {
        UsedBy(prompts, joined, n - 1, t, joined[n - 1].value);
        assert false;
      }
    }
  }

  lemma {:induction false} MatchedBound(prompts: seq<Text>, joined: seq<Option<nat>>, n: nat, t: Text)
    requires n <= |prompts| == |joined|
    ensures Matched(prompts, joined, n, t) <= Count(prompts, n, t)
  {
    if n > 0 {
      MatchedBound(prompts, joined, n - 1, t);
    }
  }

  lemma {:induction false} SubsetSize(a: set<nat>, b: set<nat>)
    requires a <= b
    ensures |a| <= |b|
  {
    assert b == a + (b - a);
  }

  /** Per prompt the greedy join reaches the smaller of the two counts, and no join that uses every
      snapshot at most once reaches more. */
  lemma {:induction false} GreedyIsLargest(
    prompts: seq<Text>, snapshots: seq<Text>, joined: seq<Option<nat>>, other: seq<Option<nat>>, t: Text)
    requires Greedy(prompts, snapshots, joined) && Join(prompts, snapshots, other)
    ensures Matched(prompts, other, |prompts|, t) <= Matched(prompts, joined, |prompts|, t)
    ensures var turns, total := Count(prompts, |prompts|, t), Count(snapshots, |snapshots|, t);
            Matched(prompts, joined, |prompts|, t) == if turns <= total then turns else total
  {
    GreedyCounts(prompts, snapshots, joined, |prompts|, t);
    MatchedBound(prompts, other, |prompts|, t);
    UsedCount(prompts, snapshots, other, |prompts|, t);
    SubsetSize(Used(prompts, other, |prompts|, t), Places(snapshots, |snapshots|, t));
  }
}
