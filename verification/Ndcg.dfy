/** Normalised discounted cumulative gain at rank k, with binary relevance. */
module Ndcg {
  import opened Reals
  import opened Sets

  /** The discount of rank `i`, in the source `1 / log2(i + 2)`. */
  type Discount = nat -> real

  ghost predicate Decreasing(d: Discount) {
    && (forall i: nat :: d(i) > 0.0)
    && (forall i: nat, j: nat :: i < j ==> d(i) > d(j))
  }

  function ToSet(ids: seq<string>): set<string> {
    set id | id in ids
  }

  /** The length of the Python slice `ids[:k]`. */
  function Cut(n: nat, k: int): nat {
    if k >= n then n else if k >= 0 then k else if n + k >= 0 then n + k else 0
  }

  function Dcg(ids: seq<string>, gold: set<string>, d: Discount, n: nat): real
    requires n <= |ids|
  {
    if n == 0 then 0.0
    else Dcg(ids, gold, d, n - 1) + (if ids[n - 1] in gold then d(n - 1) else 0.0)
  }

  function Ideal(d: Discount, n: nat): real {
    if n == 0 then 0.0 else Ideal(d, n - 1) + d(n - 1)
  }

  function IdealHits(gold: set<string>, k: int): nat {
    if k < 0 then 0 else if |gold| <= k then |gold| else k
  }

  function NdcgAtK(ids: seq<string>, goldIds: seq<string>, k: int, d: Discount): real {
    if goldIds == [] || ids == [] then 0.0
    else
      var gold := ToSet(goldIds);
      var idcg := Ideal(d, IdealHits(gold, k));
      if idcg == 0.0 then 0.0 else Dcg(ids, gold, d, Cut(|ids|, k)) / idcg
  }

  function Hits(ids: seq<string>, gold: set<string>, n: nat): nat
    requires n <= |ids|
  {
    if n == 0 then 0 else Hits(ids, gold, n - 1) + (if ids[n - 1] in gold then 1 else 0)
  }

  /** No gold id is retrieved twice among the first `n`; other ids may repeat. */
  predicate GoldOnce(ids: seq<string>, gold: set<string>, n: nat)
    requires n <= |ids|
  {
    forall i, j :: 0 <= i < j < n && ids[i] in gold ==> ids[i] != ids[j]
  }

  lemma {:induction false} HitsAtMost(ids: seq<string>, gold: set<string>, n: nat)
    requires n <= |ids|
    ensures Hits(ids, gold, n) <= n
    ensures GoldOnce(ids, gold, n) ==> Hits(ids, gold, n) <= |gold|
  {
    if n > 0 {
      HitsAtMost(ids, gold, n - 1);
    }
    if GoldOnce(ids, gold, n) {
      HitSet(ids, gold, n);
      CardMonotone(set i | 0 <= i < n && ids[i] in gold :: ids[i], gold);
    }
  }

  lemma {:induction false} HitSet(ids: seq<string>, gold: set<string>, n: nat)
    requires n <= |ids| && GoldOnce(ids, gold, n)
    ensures |set i | 0 <= i < n && ids[i] in gold :: ids[i]| == Hits(ids, gold, n)
  {
    var found := set i | 0 <= i < n && ids[i] in gold :: ids[i];
    if n == 0 {
      assert found == {};
    } else {
      HitSet(ids, gold, n - 1);
      var before := set i | 0 <= i < n - 1 && ids[i] in gold :: ids[i];
      if ids[n - 1] in gold {
        assert found == before + {ids[n - 1]};
        assert ids[n - 1] !in before;
      } else {
        assert found == before;
      }
    }
  }

  lemma {:induction false} IdealGrows(d: Discount, m: nat, n: nat)
    requires Decreasing(d) && m <= n
    ensures 0.0 <= Ideal(d, m) <= Ideal(d, n)
    ensures m < n ==> Ideal(d, m) < Ideal(d, n)
    ensures m > 0 ==> Ideal(d, m) > 0.0
    decreases n
  {
    if m < n {
      IdealGrows(d, m, n - 1);
    } else if m > 0 {
      IdealGrows(d, m - 1, m - 1);
    }
  }

  /** The first `h` ranks are gold. */
  ghost predicate Solid(ids: seq<string>, gold: set<string>, h: nat)
    requires h <= |ids|
  {
    forall i :: 0 <= i < h ==> ids[i] in gold
  }

  /** Where hits are missing, the first ranks cannot hold one more than there are. */
  lemma NotSolid(ids: seq<string>, gold: set<string>, n: nat)
    requires n <= |ids| && Hits(ids, gold, n) < n
    ensures !Solid(ids, gold, Hits(ids, gold, n) + 1)
  {
    var h := Hits(ids, gold, n);
    if Solid(ids, gold, h + 1) {
      AllHits(ids, gold, h + 1);
      HitsGrow(ids, gold, h + 1, n);
    }
  }

  /** Any `h` hits are worth at most the ideal of `h`, and only a solid block at the top attains it. */
  lemma {:induction false} DcgAtMostIdeal(ids: seq<string>, gold: set<string>, d: Discount, n: nat)
    requires n <= |ids| && Decreasing(d)
    ensures Hits(ids, gold, n) <= n
    ensures 0.0 <= Dcg(ids, gold, d, n) <= Ideal(d, Hits(ids, gold, n))
    ensures Dcg(ids, gold, d, n) == Ideal(d, Hits(ids, gold, n)) <==> Solid(ids, gold, Hits(ids, gold, n))
    decreases n
  {
    if n > 0 {
      DcgAtMostIdeal(ids, gold, d, n - 1);
      var h := Hits(ids, gold, n - 1);
      assert d(n - 1) > 0.0;
      if h < n - 1 {
        assert d(h) > d(n - 1);
        NotSolid(ids, gold, n - 1);
      }
    }
  }

  lemma {:induction false} AllHits(ids: seq<string>, gold: set<string>, n: nat)
    requires n <= |ids| && forall i :: 0 <= i < n ==> ids[i] in gold
    ensures Hits(ids, gold, n) == n
  {
    if n > 0 { AllHits(ids, gold, n - 1); }
  }

  lemma {:induction false} HitsGrow(ids: seq<string>, gold: set<string>, m: nat, n: nat)
    requires m <= n <= |ids|
    ensures Hits(ids, gold, m) <= Hits(ids, gold, n)
  {
    if m < n { HitsGrow(ids, gold, m, n - 1); }
  }

  lemma GoldNotEmpty(goldIds: seq<string>)
    requires goldIds != []
    ensures |ToSet(goldIds)| > 0
  {
    assert goldIds[0] in ToSet(goldIds);
  }

  /**
   * The score lies in [0, 1] when no gold id is retrieved twice within the first k, and also
   * whenever k does not exceed the number of gold ids.
   */
  lemma ScoreInUnit(ids: seq<string>, goldIds: seq<string>, k: int, d: Discount)
    requires Decreasing(d)
    requires GoldOnce(ids, ToSet(goldIds), Cut(|ids|, k)) || k <= |ToSet(goldIds)|
    ensures 0.0 <= NdcgAtK(ids, goldIds, k, d) <= 1.0
  {
    var gold, n := ToSet(goldIds), Cut(|ids|, k);
    if goldIds != [] && ids != [] && k > 0 {
      GoldNotEmpty(goldIds);
      HitsAtMost(ids, gold, n);
      DcgAtMostIdeal(ids, gold, d, n);
      IdealGrows(d, Hits(ids, gold, n), IdealHits(gold, k));
      IdealGrows(d, IdealHits(gold, k), IdealHits(gold, k));
      Ratio(Dcg(ids, gold, d, n), Ideal(d, IdealHits(gold, k)));
    }
  }

  /**
   * For non-empty inputs and k >= 1 the score is 1 exactly when the first min(|gold|, k) ranks are
   * filled and all gold.
   */
  lemma PerfectExactly(ids: seq<string>, goldIds: seq<string>, k: int, d: Discount)
    requires Decreasing(d) && ids != [] && goldIds != [] && k >= 1
    requires GoldOnce(ids, ToSet(goldIds), Cut(|ids|, k))
    ensures NdcgAtK(ids, goldIds, k, d) == 1.0 <==>
              var m := IdealHits(ToSet(goldIds), k);
              m <= |ids| && forall i :: 0 <= i < m ==> ids[i] in ToSet(goldIds)
  {
    var gold, n := ToSet(goldIds), Cut(|ids|, k);
    var m, h := IdealHits(gold, k), Hits(ids, gold, n);
    GoldNotEmpty(goldIds);
    HitsAtMost(ids, gold, n);
    DcgAtMostIdeal(ids, gold, d, n);
    IdealGrows(d, h, m);
    IdealGrows(d, m, m);
    Ratio(Dcg(ids, gold, d, n), Ideal(d, m));
    if m <= |ids| && forall i :: 0 <= i < m ==> ids[i] in gold {
      AllHits(ids, gold, m);
      HitsGrow(ids, gold, m, n);
    }
  }

  /** With more gold-filled ranks at the top than there are gold ids, the score exceeds 1. */
  lemma DuplicatesOverflow(ids: seq<string>, goldIds: seq<string>, k: int, d: Discount)
    requires Decreasing(d) && goldIds != []
    requires var m := |ToSet(goldIds)|; m < k && m < |ids| && forall i :: 0 <= i <= m ==> ids[i] in ToSet(goldIds)
    ensures NdcgAtK(ids, goldIds, k, d) > 1.0
  {
    hide ToSet, Dcg, Ideal, Hits;
    var gold, n := ToSet(goldIds), Cut(|ids|, k);
    var m := |gold|;
    GoldNotEmpty(goldIds);
    AllHits(ids, gold, m + 1);
    DcgAtMostIdeal(ids, gold, d, m + 1);
    DcgGrows(ids, gold, d, m + 1, n);
    IdealGrows(d, m, m + 1);
    Ratio(Dcg(ids, gold, d, n), Ideal(d, m));
  }

  lemma {:induction false} DcgGrows(ids: seq<string>, gold: set<string>, d: Discount, m: nat, n: nat)
    requires m <= n <= |ids| && Decreasing(d)
    ensures Dcg(ids, gold, d, m) <= Dcg(ids, gold, d, n)
  {
    if m < n {
      DcgGrows(ids, gold, d, m, n - 1);
      assert d(n - 1) > 0.0;
    }
  }

  /** The upper bound holds of every retrieved list exactly when k is at most the number of gold ids. */
  lemma BoundExactly(goldIds: seq<string>, k: int, d: Discount)
    requires Decreasing(d) && goldIds != []
    ensures (forall ids :: NdcgAtK(ids, goldIds, k, d) <= 1.0) <==> k <= |ToSet(goldIds)|
  {
    var m := |ToSet(goldIds)|;
    if k <= m {
      forall ids ensures NdcgAtK(ids, goldIds, k, d) <= 1.0 {
        ScoreInUnit(ids, goldIds, k, d);
      }
    } else {
      var ids := seq(m + 1, _ => goldIds[0]);
      DuplicatesOverflow(ids, goldIds, k, d);
    }
  }

  // ----- what each hit is worth -----

  /** Rank by rank, within the first `n`, `c` is gold where exactly one of `a` and `b` is, and no rank is
      gold in both. */
  ghost predicate Splits(a: seq<string>, b: seq<string>, c: seq<string>, gold: set<string>, n: nat)
    requires n <= |a| && n <= |b| && n <= |c|
  {
    forall i :: 0 <= i < n ==> !(a[i] in gold && b[i] in gold) && (c[i] in gold <==> a[i] in gold || b[i] in gold)
  }

  lemma {:induction false} DcgAdds(a: seq<string>, b: seq<string>, c: seq<string>, gold: set<string>, d: Discount,
                                   n: nat)
    requires n <= |a| && n <= |b| && n <= |c| && Splits(a, b, c, gold, n)
    ensures Dcg(c, gold, d, n) == Dcg(a, gold, d, n) + Dcg(b, gold, d, n)
  {
    if n > 0 {
      DcgAdds(a, b, c, gold, d, n - 1);
    }
  }

  /** The score is linear in the hits: it is the sum of the scores of any two parts they split into. */
  lemma ScoreAdds(a: seq<string>, b: seq<string>, c: seq<string>, goldIds: seq<string>, k: int, d: Discount)
    requires |a| == |b| == |c| && Splits(a, b, c, ToSet(goldIds), Cut(|a|, k))
    ensures NdcgAtK(c, goldIds, k, d) == NdcgAtK(a, goldIds, k, d) + NdcgAtK(b, goldIds, k, d)
  {
    var gold, n := ToSet(goldIds), Cut(|a|, k);
    DcgAdds(a, b, c, gold, d, n);
    var idcg := Ideal(d, IdealHits(gold, k));
    if idcg != 0.0 {
      QuotientAdds(Dcg(a, gold, d, n), Dcg(b, gold, d, n), idcg);
    }
  }

  /** Within the first `n`, rank `i` alone is gold. */
  ghost predicate OnlyHit(ids: seq<string>, gold: set<string>, n: nat, i: nat)
    requires n <= |ids|
  {
    i < n && forall m :: 0 <= m < n ==> (ids[m] in gold <==> m == i)
  }

  lemma {:induction false} DcgOfOne(ids: seq<string>, gold: set<string>, d: Discount, n: nat, i: nat)
    requires n <= |ids| && (OnlyHit(ids, gold, n, i) || forall m :: 0 <= m < n ==> ids[m] !in gold)
    ensures Dcg(ids, gold, d, n) == if OnlyHit(ids, gold, n, i) then d(i) else 0.0
  {
    if n > 0 {
      DcgOfOne(ids, gold, d, n - 1, i);
    }
  }

  /** Single hits are worth their ranks' discounts, in proportion. */
  lemma HitsInProportion(a: seq<string>, b: seq<string>, goldIds: seq<string>, k: int, d: Discount, i: nat, j: nat)
    requires OnlyHit(a, ToSet(goldIds), Cut(|a|, k), i) && OnlyHit(b, ToSet(goldIds), Cut(|b|, k), j)
    ensures Times(NdcgAtK(a, goldIds, k, d), d(j)) == Times(NdcgAtK(b, goldIds, k, d), d(i))
  {
    var gold := ToSet(goldIds);
    DcgOfOne(a, gold, d, Cut(|a|, k), i);
    DcgOfOne(b, gold, d, Cut(|b|, k), j);
    var idcg := Ideal(d, IdealHits(gold, k));
    TimesUnit(d(i));
    TimesUnit(d(j));
    if idcg != 0.0 {
      QuotientsCross(d(i), d(j), idcg);
    }
  }

  /** `b` has, in every prefix within the first k, at least as many gold ids as `a`. */
  ghost predicate Dominates(a: seq<string>, b: seq<string>, gold: set<string>, n: nat)
    requires n <= |a| && n <= |b|
  {
    forall i: nat :: i <= n ==> Hits(a, gold, i) <= Hits(b, gold, i)
  }

  function Lead(a: seq<string>, b: seq<string>, gold: set<string>, n: nat): int
    requires n <= |a| && n <= |b|
  {
    Hits(b, gold, n) - Hits(a, gold, n)
  }

  function Gap(a: seq<string>, b: seq<string>, gold: set<string>, d: Discount, n: nat): real
    requires n <= |a| && n <= |b|
  {
    Dcg(b, gold, d, n) - Dcg(a, gold, d, n)
  }

  /** What rank `n - 1` changes: by one hit or none either way, and the gap by its discount. */
  lemma LeadAndGap(a: seq<string>, b: seq<string>, gold: set<string>, d: Discount, n: nat) returns (step: int)
    requires 0 < n <= |a| && n <= |b|
    ensures -1 <= step <= 1 && Lead(a, b, gold, n) == Lead(a, b, gold, n - 1) + step
    ensures n == 1 ==> Lead(a, b, gold, n - 1) == 0
    ensures Gap(a, b, gold, d, n)
         == Gap(a, b, gold, d, n - 1) + if step == 1 then d(n - 1) else if step == 0 then 0.0 else -d(n - 1)
  {
    step := (if b[n - 1] in gold then 1 else 0) - if a[n - 1] in gold then 1 else 0;
  }

  /** The gap is at least the lead times the last discount. */
  function Floor(a: seq<string>, b: seq<string>, gold: set<string>, d: Discount, n: nat): real
    requires n <= |a| && n <= |b|
  {
    if n == 0 then 0.0 else Lead(a, b, gold, n) as real * d(n - 1)
  }

  lemma DominationStep(a: seq<string>, b: seq<string>, gold: set<string>, d: Discount, n: nat)
    requires 0 < n <= |a| && n <= |b| && Decreasing(d)
    requires Lead(a, b, gold, n - 1) >= 0 && Lead(a, b, gold, n) >= 0
    requires Gap(a, b, gold, d, n - 1) >= Floor(a, b, gold, d, n - 1)
    ensures Gap(a, b, gold, d, n) >= Floor(a, b, gold, d, n) >= 0.0
  {
    var step := LeadAndGap(a, b, gold, d, n);
    var weight := if n > 1 then d(n - 2) else d(n - 1);
    assert 0.0 < d(n - 1) <= weight;
    hide Lead, Gap;
    GapStep(Lead(a, b, gold, n - 1), step, Gap(a, b, gold, d, n - 1), d(n - 1), weight);
  }

  lemma {:induction false} DominationGain(a: seq<string>, b: seq<string>, gold: set<string>, d: Discount, n: nat)
    requires n <= |a| && n <= |b| && Dominates(a, b, gold, n) && Decreasing(d)
    ensures Gap(a, b, gold, d, n) >= Floor(a, b, gold, d, n) >= 0.0
    decreases n
  {
    if n > 0 {
      hide Hits, Gap, Floor;
      DominationGain(a, b, gold, d, n - 1);
      DominationStep(a, b, gold, d, n);
    }
  }

  lemma GapStep(lead: int, step: int, gap: real, x: real, weight: real)
    requires lead >= 0 && lead + step >= 0 && -1 <= step <= 1
    requires 0.0 < x <= weight && gap >= lead as real * weight
    ensures gap + (if step == 1 then x else if step == 0 then 0.0 else -x) >= (lead + step) as real * x >= 0.0
  {
    Product(lead as real, x, weight);
    assert (lead + step) as real * x == lead as real * x + step as real * x;
    Product(x, 0.0, (lead + step) as real);
  }

  lemma Product(f: real, x: real, y: real)
    requires f >= 0.0 && x <= y
    ensures f * x <= f * y
  {}

  /** A ranking that dominates prefix by prefix never scores lower. */
  lemma DominatingNeverLower(a: seq<string>, b: seq<string>, goldIds: seq<string>, k: int, d: Discount)
    requires Decreasing(d) && |a| == |b| && Dominates(a, b, ToSet(goldIds), Cut(|a|, k))
    ensures NdcgAtK(a, goldIds, k, d) <= NdcgAtK(b, goldIds, k, d)
  {
    var gold := ToSet(goldIds);
    DominationGain(a, b, gold, d, Cut(|a|, k));
    IdealGrows(d, IdealHits(gold, k), IdealHits(gold, k));
    if Ideal(d, IdealHits(gold, k)) > 0.0 {
      QuotientOrder(Dcg(a, gold, d, Cut(|a|, k)), Dcg(b, gold, d, Cut(|a|, k)), Ideal(d, IdealHits(gold, k)));
    }
  }

  /** `ids` with the element at `j` taken out and put back in at `i`, the ones between moving down. */
  function MoveUp(ids: seq<string>, i: nat, j: nat): (r: seq<string>)
    requires i <= j < |ids|
    ensures |r| == |ids|
  {
    ids[..i] + [ids[j]] + ids[i..j] + ids[j + 1..]
  }

  lemma {:induction false} MoveUpHits(ids: seq<string>, gold: set<string>, i: nat, j: nat, n: nat)
    requires i <= j < |ids| && n <= |ids| && ids[j] in gold
    ensures Hits(MoveUp(ids, i, j), gold, n)
         == Hits(ids, gold, if i < n <= j then n - 1 else n) + (if i < n <= j then 1 else 0)
  {
    if n > 0 {
      MoveUpHits(ids, gold, i, j, n - 1);
      MoveUpAt(ids, i, j, n - 1);
    }
  }

  lemma MoveUpAt(ids: seq<string>, i: nat, j: nat, m: nat)
    requires i <= j < |ids| && m < |ids|
    ensures MoveUp(ids, i, j)[m] == if m < i then ids[m] else if m == i then ids[j]
                                    else if m <= j then ids[m - 1] else ids[m]
  {}

  /** Moving a gold id up the ranking, past anything, never lowers the score. */
  lemma MovingGoldUpNeverLowers(ids: seq<string>, goldIds: seq<string>, k: int, d: Discount, i: nat, j: nat)
    requires Decreasing(d) && i <= j < |ids| && ids[j] in goldIds
    ensures NdcgAtK(ids, goldIds, k, d) <= NdcgAtK(MoveUp(ids, i, j), goldIds, k, d)
  {
    var gold := ToSet(goldIds);
    forall n: nat | n <= Cut(|ids|, k)
      ensures Hits(ids, gold, n) <= Hits(MoveUp(ids, i, j), gold, n)
    {
      MoveUpHits(ids, gold, i, j, n);
    }
    DominatingNeverLower(ids, MoveUp(ids, i, j), goldIds, k, d);
  }
}
