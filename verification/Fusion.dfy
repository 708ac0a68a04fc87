/** Retrieval fusion: graph-matched vector snippets get an additive boost, then a stable sort. */
module Fusion {
  import opened Sets
  import opened StableSort

  /** A missing score is 0; a missing or empty entity id matches nothing. */
  datatype Snippet = Snippet(text: string, score: real, entityId: string)

  datatype Fused = Fused(snippet: Snippet, fusedScore: real, matched: bool)

  predicate Matched(graph: set<string>, s: Snippet) {
    s.entityId != "" && s.entityId in graph
  }

  function Fuse(graph: set<string>, s: Snippet, boost: real): Fused {
    var matched := Matched(graph, s);
    Fused(s, s.score + (if matched then boost else 0.0), matched)
  }

  function FuseAll(graph: set<string>, ss: seq<Snippet>, boost: real): (r: seq<Fused>)
    ensures |r| == |ss| && forall i :: 0 <= i < |ss| ==> r[i] == Fuse(graph, ss[i], boost)
  {
    if ss == [] then [] else FuseAll(graph, ss[..|ss| - 1], boost) + [Fuse(graph, ss[|ss| - 1], boost)]
  }

  function RawKeys(ss: seq<Snippet>): seq<real> {
    KeysBy(ss, (s: Snippet) => s.score)
  }

  function FusedKeys(fs: seq<Fused>): seq<real> {
    KeysBy(fs, (f: Fused) => f.fusedScore)
  }

  function NonEmpty(ids: seq<string>): set<string> {
    set id | id in ids && id != ""
  }

  /** Where snippet `i` stands by its own score, and where fusion puts it. */
  function RawRank(ss: seq<Snippet>, i: int): nat
    requires 0 <= i < |ss|
  {
    Rank(RawKeys(ss), Greater, i)
  }

  function FusedRank(graph: set<string>, ss: seq<Snippet>, boost: real, i: int): nat
    requires 0 <= i < |ss|
  {
    Rank(FusedKeys(FuseAll(graph, ss, boost)), Greater, i)
  }

  function FusedOrder(graph: set<string>, ss: seq<Snippet>, boost: real): seq<Fused> {
    var fused := FuseAll(graph, ss, boost);
    SortDesc(fused, FusedKeys(fused), Greater)
  }

  method FuseByGraphRerank(graphIds: seq<string>, snippets: seq<Snippet>, boost: real) returns (out: seq<Fused>)
    ensures out == FusedOrder(NonEmpty(graphIds), snippets, boost)
  {
    var graph := set id | id in graphIds && id != "";
    out := [];
    for i := 0 to |snippets|
      invariant out == FuseAll(graph, snippets[..i], boost)
    {
      var s := snippets[i];
      var matched := s.entityId != "" && s.entityId in graph;
      out := out + [Fused(s, s.score + (if matched then boost else 0.0), matched)];
      assert snippets[..i + 1][..i] == snippets[..i];
    }
    assert snippets[..|snippets|] == snippets;
    out := SortDesc(out, FusedKeys(out), Greater);
  }

  /** Fusion's output is the fused snippets, rearranged, by descending fused score, each at its rank. */
  lemma FusedOrderSpec(graph: set<string>, ss: seq<Snippet>, boost: real)
    ensures var out := FusedOrder(graph, ss, boost);
      && |out| == |ss| && multiset(out) == multiset(FuseAll(graph, ss, boost))
      && (forall a, b :: 0 <= a < b < |out| ==> out[a].fusedScore >= out[b].fusedScore)
      && (forall i :: 0 <= i < |ss| ==>
            var r := FusedRank(graph, ss, boost, i); r < |out| && out[r] == Fuse(graph, ss[i], boost))
  {
    var fused := FuseAll(graph, ss, boost);
    var keys := FusedKeys(fused);
    var out := FusedOrder(graph, ss, boost);
    GreaterIsStrictWeak();
    hide StrictWeak, SortDesc, Rank;
    SortLength(fused, keys, Greater);
    SortPermutes(fused, keys, Greater);
    forall a, b | 0 <= a < b < |out| ensures out[a].fusedScore >= out[b].fusedScore {
      var i, j := SortDescends(fused, keys, Greater, a, b);
    }
    forall i | 0 <= i < |ss|
      ensures FusedRank(graph, ss, boost, i) < |out| && out[FusedRank(graph, ss, boost, i)] == Fuse(graph, ss[i], boost)
    {
      SortPlaces(fused, keys, Greater, i);
    }
  }

  /** The set of elements ahead after fusion, compared with the set ahead before. */
  lemma BoostedSeesFewer(graph: set<string>, ss: seq<Snippet>, boost: real, i: int)
    requires 0 <= i < |ss| && boost >= 0.0
    ensures Matched(graph, ss[i]) ==>
              Ahead(FusedKeys(FuseAll(graph, ss, boost)), Greater, i) <= Ahead(RawKeys(ss), Greater, i)
    ensures !Matched(graph, ss[i]) ==>
              Ahead(FusedKeys(FuseAll(graph, ss, boost)), Greater, i) >= Ahead(RawKeys(ss), Greater, i)
  {}

  /**
   * With a boost that is not negative, fusion never makes a graph-matched snippet lose rank
   * and never makes an unmatched one gain rank, and it keeps the order within each group.
   */
  lemma FusionMovesOnlyMatchedUp(graph: set<string>, ss: seq<Snippet>, boost: real, i: int, j: int)
    requires 0 <= i < |ss| && 0 <= j < |ss| && boost >= 0.0
    ensures Matched(graph, ss[i]) ==> FusedRank(graph, ss, boost, i) <= RawRank(ss, i)
    ensures !Matched(graph, ss[i]) ==> FusedRank(graph, ss, boost, i) >= RawRank(ss, i)
    ensures i != j && Matched(graph, ss[i]) == Matched(graph, ss[j]) ==>
              (FusedRank(graph, ss, boost, i) < FusedRank(graph, ss, boost, j) <==> RawRank(ss, i) < RawRank(ss, j))
  {
    var raw, fused := RawKeys(ss), FusedKeys(FuseAll(graph, ss, boost));
    BoostedSeesFewer(graph, ss, boost, i);
    if Matched(graph, ss[i]) {
      CardMonotone(Ahead(fused, Greater, i), Ahead(raw, Greater, i));
    } else {
      CardMonotone(Ahead(raw, Greater, i), Ahead(fused, Greater, i));
    }
    RankOrder(raw, i, j);
    RankOrder(fused, i, j);
  }

  /** A matched snippet ends up ahead of an unmatched one exactly if its own score and the boost exceed
      the other's score, or equal it and it came first. */
  lemma OvertakesExactly(graph: set<string>, ss: seq<Snippet>, boost: real, i: int, j: int)
    requires 0 <= i < |ss| && 0 <= j < |ss|
    requires ss[i].entityId != "" && ss[i].entityId in graph && (ss[j].entityId == "" || ss[j].entityId !in graph)
    ensures FusedRank(graph, ss, boost, i) < FusedRank(graph, ss, boost, j) <==>
              ss[i].score + boost > ss[j].score || (ss[i].score + boost == ss[j].score && i < j)
  {
    RankOrder(FusedKeys(FuseAll(graph, ss, boost)), i, j);
  }

  /** What comes out carries the snippet itself, its score with the boost if it matched, and whether it did. */
  lemma FusedExactly(graph: set<string>, ss: seq<Snippet>, boost: real, i: int)
    requires 0 <= i < |ss|
    ensures var out, r := FusedOrder(graph, ss, boost), FusedRank(graph, ss, boost, i);
      && r < |out| && out[r].snippet == ss[i]
      && (out[r].matched <==> ss[i].entityId != "" && ss[i].entityId in graph)
      && out[r].fusedScore - ss[i].score == if out[r].matched then boost else 0.0
  {
    FusedOrderSpec(graph, ss, boost);
  }

  /** Ranks compare as the elements do. */
  lemma RankOrder(keys: seq<real>, i: int, j: int)
    requires 0 <= i < |keys| && 0 <= j < |keys|
    ensures Rank(keys, Greater, i) < Rank(keys, Greater, j) <==> i != j && Before(keys, Greater, i, j)
  {
    GreaterIsStrictWeak();
    if i != j {
      if Before(keys, Greater, i, j) {
        BeforeRanks(keys, Greater, i, j);
      } else {
        BeforeRanks(keys, Greater, j, i);
      }
    }
  }

  predicate Descending(ss: seq<Snippet>) {
    forall i, j :: 0 <= i <= j < |ss| ==> ss[i].score >= ss[j].score
  }

  /** A snippet of a list already sorted by score stands at its own index. */
  lemma SortedRank(ss: seq<Snippet>, i: int)
    requires Descending(ss) && 0 <= i < |ss|
    ensures RawRank(ss, i) == i
  {
    assert Ahead(RawKeys(ss), Greater, i) == Range(0, i);
    RangeCard(0, i);
  }

  // ----- seeds for a second traversal -----

  /** The first occurrences of the non-empty ids, in order. */
  function FirstIds(ss: seq<Snippet>): seq<string> {
    if ss == [] then [] else
    var before, id := FirstIds(ss[..|ss| - 1]), ss[|ss| - 1].entityId;
    if id == "" || id in before then before else before + [id]
  }

  lemma {:induction false} FirstIdsSpec(ss: seq<Snippet>)
    ensures forall i, j :: 0 <= i < j < |FirstIds(ss)| ==> FirstIds(ss)[i] != FirstIds(ss)[j]
    ensures forall id :: id in FirstIds(ss) <==> id != "" && exists k :: 0 <= k < |ss| && ss[k].entityId == id
  {
    if ss != [] {
      var before := ss[..|ss| - 1];
      FirstIdsSpec(before);
      forall id | id != "" && exists k :: 0 <= k < |ss| && ss[k].entityId == id
        ensures id in FirstIds(ss)
      {
        var k :| 0 <= k < |ss| && ss[k].entityId == id;
        if k < |before| {
          assert before[k].entityId == id;
        }
      }
      forall id | id in FirstIds(before)
        ensures exists k :: 0 <= k < |ss| && ss[k].entityId == id
      {
        var k :| 0 <= k < |before| && before[k].entityId == id;
        assert ss[k].entityId == id;
      }
      assert ss[|ss| - 1].entityId == ss[|ss| - 1].entityId;
    }
  }

  /** The snippet at `k` is the first with its entity id. */
  ghost predicate FirstWith(ss: seq<Snippet>, k: int) {
    0 <= k < |ss| && forall j :: 0 <= j < k ==> ss[j].entityId != ss[k].entityId
  }

  /** The ids stand in the order in which they first occur. */
  lemma {:induction false} FirstIdsInOrder(ss: seq<Snippet>, k: int, l: int, a: int, b: int)
    requires FirstWith(ss, k) && FirstWith(ss, l) && 0 <= a < |FirstIds(ss)| && 0 <= b < |FirstIds(ss)|
    requires FirstIds(ss)[a] == ss[k].entityId && FirstIds(ss)[b] == ss[l].entityId
    ensures a < b <==> k < l
    decreases |ss|
  {
    FirstIdsSpec(ss);
    assert FirstIds(ss)[a] in FirstIds(ss) && FirstIds(ss)[b] in FirstIds(ss);
    var n := |ss| - 1;
    var before := ss[..n];
    FirstIdsSpec(before);
    if k < n && l < n {
      NotNew(ss, k);
      NotNew(ss, l);
      assert FirstWith(before, k) && FirstWith(before, l);
      FirstIdsInOrder(before, k, l, a, b);
    } else if k == n && l < n {
      NotNew(ss, l);
      assert ss[k].entityId !in FirstIds(before);
    } else if l == n && k < n {
      NotNew(ss, k);
      assert ss[l].entityId !in FirstIds(before);
    }
  }

  /** An id that occurs before the last snippet is among the ids found before it. */
  lemma NotNew(ss: seq<Snippet>, k: int)
    requires 0 <= k < |ss| - 1 && ss[k].entityId != ""
    ensures ss[k].entityId in FirstIds(ss[..|ss| - 1])
  {
    FirstIdsSpec(ss[..|ss| - 1]);
    assert ss[..|ss| - 1][k] == ss[k];
  }

  lemma TakeSpec(ids: seq<string>, k: int)
    ensures Take(ids, k) <= ids
    ensures |Take(ids, k)| == if k <= 0 then 0 else if k <= |ids| then k else |ids|
  {}

  lemma {:induction false} FirstIdsGrow(ss: seq<Snippet>, n: nat)
    requires n <= |ss|
    ensures FirstIds(ss[..n]) <= FirstIds(ss)
    decreases |ss| - n
  {
    if n == |ss| {
      assert ss[..n] == ss;
    } else {
      FirstIdsGrow(ss, n + 1);
      assert ss[..n + 1][..n] == ss[..n];
    }
  }

  function Take(ids: seq<string>, k: int): seq<string> {
    if k <= 0 then [] else if k >= |ids| then ids else ids[..k]
  }

  lemma FirstIdsNext(ss: seq<Snippet>, i: nat)
    requires i < |ss|
    ensures var before, id := FirstIds(ss[..i]), ss[i].entityId;
            FirstIds(ss[..i + 1]) == if id == "" || id in before then before else before + [id]
  {
    assert ss[..i + 1][..i] == ss[..i];
  }

  lemma TakeReached(ss: seq<Snippet>, i: nat, k: int)
    requires i <= |ss| && (i == |ss| || |FirstIds(ss[..i])| >= k)
    requires if k <= 0 then FirstIds(ss[..i]) == [] else |FirstIds(ss[..i])| <= k
    ensures FirstIds(ss[..i]) == Take(FirstIds(ss), k)
  {
    FirstIdsGrow(ss, i);
    assert i == |ss| ==> ss[..i] == ss;
  }

  /** Seeds are the first `topK` distinct non-empty entity ids in stable descending score order. */
  method DeriveSeedEntityIds(snippets: seq<Snippet>, topK: int) returns (out: seq<string>)
    ensures out == Take(FirstIds(SortDesc(snippets, RawKeys(snippets), Greater)), topK)
  {
    var seen: set<string> := {};
    out := [];
    var ranked := SortDesc(snippets, RawKeys(snippets), Greater);
    assert FirstIds(ranked[..0]) == [];
    var i := 0;
    while i < |ranked|
      invariant 0 <= i <= |ranked|
      invariant out == FirstIds(ranked[..i]) && forall id :: id in seen <==> id in out
      invariant if topK <= 0 then out == [] else |out| <= topK
    {
      if |out| >= topK {
        break;
      }
      var id := ranked[i].entityId;
      FirstIdsNext(ranked, i);
      i := i + 1;
      if id == "" || id in seen {
        continue;
      }
      seen := seen + {id};
      out := out + [id];
    }
    TakeReached(ranked, i, topK);
  }
}
