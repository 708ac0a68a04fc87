/** Edge and path scoring, path ranking and query-aware reranking. */
module PathScoring {
  import opened Reals
  import opened StableSort
  import opened Wrappers

  datatype Weights = Weights(alpha: real, beta: real, gamma: real)

  function Abs(x: real): real {
    if x < 0.0 then -x else x
  }

  const TOLERANCE := 0.000001

  function Total(w: Weights): real {
    w.alpha + w.beta + w.gamma
  }

  /** What construction of the weights checks, raising otherwise. */
  predicate Accepted(w: Weights) {
    Abs(Total(w) - 1.0) <= TOLERANCE && w.alpha >= 0.0 && w.beta >= 0.0 && w.gamma >= 0.0
  }

  function Blend(feedback: real, affinity: real, inverseDegree: real, w: Weights): real {
    Times(w.alpha, affinity) + Times(w.beta, feedback) + Times(w.gamma, inverseDegree)
  }

  function ScoreEdge(feedback: real, affinity: real, inverseDegree: real, w: Weights): real {
    Clamp01(Blend(feedback, affinity, inverseDegree, w))
  }

  function Min3(x: real, y: real, z: real): real {
    if x <= y && x <= z then x else if y <= z then y else z
  }

  function Max3(x: real, y: real, z: real): real {
    if x >= y && x >= z then x else if y >= z then y else z
  }

  /**
   * With accepted weights an edge scores in the unit interval and, whatever its inputs, between the
   * least and the greatest of them clamped, up to the tolerance on the weights.
   */
  lemma EdgeBetweenInputs(feedback: real, affinity: real, inverseDegree: real, w: Weights)
    requires Accepted(w)
    ensures var s := ScoreEdge(feedback, affinity, inverseDegree, w);
            && Unit(s)
            && Clamp01(Min3(feedback, affinity, inverseDegree)) - 0.000001 <= s
            && s <= Clamp01(Max3(feedback, affinity, inverseDegree)) + 0.000001
  {
    var lo, hi := Min3(feedback, affinity, inverseDegree), Max3(feedback, affinity, inverseDegree);
    BlendBetween(feedback, affinity, inverseDegree, w, lo, hi);
    ScaledClamp(lo, Total(w));
    ScaledClamp(hi, Total(w));
    hide Blend, Times;
  }

  lemma BlendBetween(feedback: real, affinity: real, inverseDegree: real, w: Weights, lo: real, hi: real)
    requires Accepted(w)
    requires lo <= feedback <= hi && lo <= affinity <= hi && lo <= inverseDegree <= hi
    ensures Times(lo, Total(w)) <= Blend(feedback, affinity, inverseDegree, w) <= Times(hi, Total(w))
  {
    hide Times;
    Weighted(w.alpha, lo, affinity, hi);
    Weighted(w.beta, lo, feedback, hi);
    Weighted(w.gamma, lo, inverseDegree, hi);
    Distribute(w, lo);
    Distribute(w, hi);
  }

  lemma Distribute(w: Weights, x: real)
    ensures Times(x, Total(w)) == Times(x, w.alpha) + Times(x, w.beta) + Times(x, w.gamma)
  {}

  lemma Weighted(w: real, lo: real, x: real, hi: real)
    requires w >= 0.0 && lo <= x <= hi
    ensures Times(lo, w) <= Times(w, x) <= Times(hi, w)
  {
    TimesMonotone(w, lo, x);
    TimesMonotone(w, x, hi);
    TimesCommutes(lo, w);
    TimesCommutes(hi, w);
  }

  /** Scaling by a number close to one moves the clamped value by no more than the tolerance. */
  lemma ScaledClamp(x: real, total: real)
    requires Abs(total - 1.0) <= TOLERANCE
    ensures Clamp01(x) - TOLERANCE <= Clamp01(Times(x, total)) <= Clamp01(x) + TOLERANCE
  {
    hide Times;
    TimesCommutes(x, total);
    TimesUnit(total);
    if x < 0.0 {
      TimesMonotone(total, x, 0.0);
      TimesCommutes(0.0, total);
    } else if x > 1.0 {
      TimesMonotone(total, 1.0, x);
      TimesCommutes(1.0, total);
    } else {
      Slack(x, total);
    }
  }

  lemma Slack(x: real, total: real)
    requires Unit(x) && Abs(total - 1.0) <= TOLERANCE
    ensures x - TOLERANCE <= Times(x, total) <= x + TOLERANCE
  {
    hide Times;
    TimesMonotone(x, 1.0 - TOLERANCE, total);
    TimesMonotone(x, total, 1.0 + TOLERANCE);
    Nearby(x, -TOLERANCE);
    Nearby(x, TOLERANCE);
    TimesMonotone(TOLERANCE, x, 1.0);
    TimesCommutes(TOLERANCE, 1.0);
    TimesUnit(TOLERANCE);
  }

  lemma Nearby(x: real, e: real)
    ensures Times(x, 1.0 + e) == x + Times(e, x) && Times(-e, x) == -Times(e, x)
  {}

  // ----- are the inputs clamped? -----

  function ScoreClampedEdge(feedback: real, affinity: real, inverseDegree: real, w: Weights): real {
    ScoreEdge(Clamp01(feedback), Clamp01(affinity), Clamp01(inverseDegree), w)
  }

  /**
   * The inputs are documented as clamped; the code clamps only the result.  The two agree for all
   * accepted weights exactly when no input needs clamping or none is positive.
   */
  lemma ClampsInputsExactly(feedback: real, affinity: real, inverseDegree: real)
    ensures (forall w :: Accepted(w) ==>
               ScoreEdge(feedback, affinity, inverseDegree, w)
                == ScoreClampedEdge(feedback, affinity, inverseDegree, w))
            <==> (Unit(feedback) && Unit(affinity) && Unit(inverseDegree))
                 || (feedback <= 0.0 && affinity <= 0.0 && inverseDegree <= 0.0)
  {
    if feedback <= 0.0 && affinity <= 0.0 && inverseDegree <= 0.0 {
      forall w | Accepted(w)
        ensures ScoreEdge(feedback, affinity, inverseDegree, w)
             == ScoreClampedEdge(feedback, affinity, inverseDegree, w)
      {
        NothingPositive(feedback, affinity, inverseDegree, w);
      }
    } else if !(Unit(feedback) && Unit(affinity) && Unit(inverseDegree)) {
      var w := Separating(feedback, affinity, inverseDegree);
    }
  }

  lemma NothingPositive(feedback: real, affinity: real, inverseDegree: real, w: Weights)
    requires Accepted(w) && feedback <= 0.0 && affinity <= 0.0 && inverseDegree <= 0.0
    ensures ScoreEdge(feedback, affinity, inverseDegree, w) == ScoreClampedEdge(feedback, affinity, inverseDegree, w)
  {
    TimesMonotone(w.alpha, affinity, 0.0);
    TimesMonotone(w.beta, feedback, 0.0);
    TimesMonotone(w.gamma, inverseDegree, 0.0);
  }

  /** All the weight the tolerance allows, on one input above one. */
  lemma HighTold(x: real)
    requires x > 1.0
    ensures Clamp01(Times(1.0 - TOLERANCE, x)) != Clamp01(Times(1.0 - TOLERANCE, Clamp01(x)))
  {
    TimesStrict(1.0, x, 1.0 - TOLERANCE);
  }

  /** Half the weight on a negative input, half on a positive one. */
  lemma SignsTold(x: real, y: real)
    requires (x < 0.0 < y <= 1.0) || (y < 0.0 < x <= 1.0)
    ensures Clamp01(Times(0.5, x) + Times(0.5, y)) != Clamp01(Times(0.5, Clamp01(x)) + Times(0.5, Clamp01(y)))
  {}

  /** Weights that tell the two apart. */
  lemma Separating(feedback: real, affinity: real, inverseDegree: real) returns (w: Weights)
    requires !(Unit(feedback) && Unit(affinity) && Unit(inverseDegree))
    requires feedback > 0.0 || affinity > 0.0 || inverseDegree > 0.0
    ensures Accepted(w)
    ensures ScoreEdge(feedback, affinity, inverseDegree, w) != ScoreClampedEdge(feedback, affinity, inverseDegree, w)
  {
    hide Times;
    var most := 1.0 - TOLERANCE;
    Weightless(feedback);
    Weightless(affinity);
    Weightless(inverseDegree);
    if affinity > 1.0 {
      w := Weights(most, 0.0, 0.0);
      HighTold(affinity);
    } else if feedback > 1.0 {
      w := Weights(0.0, most, 0.0);
      HighTold(feedback);
    } else if inverseDegree > 1.0 {
      w := Weights(0.0, 0.0, most);
      HighTold(inverseDegree);
    } else if affinity < 0.0 < inverseDegree || inverseDegree < 0.0 < affinity {
      w := Weights(0.5, 0.0, 0.5);
      SignsTold(affinity, inverseDegree);
    } else if feedback < 0.0 < inverseDegree || inverseDegree < 0.0 < feedback {
      w := Weights(0.0, 0.5, 0.5);
      SignsTold(feedback, inverseDegree);
    } else {
      w := Weights(0.5, 0.5, 0.0);
      SignsTold(affinity, feedback);
    }
  }

  lemma Weightless(x: real)
    ensures Times(0.0, x) == 0.0 && Times(0.0, Clamp01(x)) == 0.0
  {}

  // ----- what each input is worth -----

  /** On unit inputs the score is the weighted sum, capped at one: each input counts by its own weight. */
  lemma EdgeIsWeightedSum(feedback: real, affinity: real, inverseDegree: real, w: Weights)
    requires Accepted(w) && Unit(feedback) && Unit(affinity) && Unit(inverseDegree)
    ensures ScoreEdge(feedback, 0.0, 0.0, w) == Min3(Times(feedback, w.beta), 1.0, 1.0)
    ensures ScoreEdge(0.0, affinity, 0.0, w) == Min3(Times(affinity, w.alpha), 1.0, 1.0)
    ensures ScoreEdge(0.0, 0.0, inverseDegree, w) == Min3(Times(inverseDegree, w.gamma), 1.0, 1.0)
    ensures ScoreEdge(feedback, affinity, inverseDegree, w)
         == Min3(Times(affinity, w.alpha) + Times(feedback, w.beta) + Times(inverseDegree, w.gamma), 1.0, 1.0)
  {
    ScaledInput(w.alpha, affinity);
    ScaledInput(w.beta, feedback);
    ScaledInput(w.gamma, inverseDegree);
    ScaledInput(w.alpha, 0.0);
    ScaledInput(w.beta, 0.0);
    ScaledInput(w.gamma, 0.0);
    hide Times;
  }

  lemma ScaledInput(w: real, x: real)
    requires w >= 0.0 && x >= 0.0
    ensures Times(w, x) == Times(x, w) >= 0.0 && Times(w, 0.0) == 0.0
  {
    TimesNonNegative(w, x);
  }

  datatype Aggregation = Mean | Product | Unknown(name: string)

  const FLOOR := 0.4

  function Sum(xs: seq<real>): real {
    if xs == [] then 0.0 else Sum(xs[..|xs| - 1]) + xs[|xs| - 1]
  }

  function ClampedProduct(xs: seq<real>): real {
    if xs == [] then 1.0 else Times(ClampedProduct(xs[..|xs| - 1]), Clamp01(xs[|xs| - 1]))
  }

  function Least(xs: seq<real>): (r: real)
    requires xs != []
    ensures (exists i :: 0 <= i < |xs| && xs[i] == r) && forall i :: 0 <= i < |xs| ==> r <= xs[i]
  {
    if |xs| == 1 then xs[0] else
    var r := Least(xs[..|xs| - 1]);
    if r <= xs[|xs| - 1] then r else xs[|xs| - 1]
  }

  function Average(xs: seq<real>): real
    requires xs != []
  {
    Sum(xs) / |xs| as real
  }

  function PathScore(xs: seq<real>, agg: Aggregation): Result<real> {
    if xs == [] then Ok(FLOOR)
    else match agg
      case Mean => Ok(Clamp01(Average(xs)))
      case Product => Ok(Clamp01(ClampedProduct(xs)))
      case Unknown(_) => ValueError
  }

  method ScorePath(xs: seq<real>, agg: Aggregation) returns (r: Result<real>)
    ensures r == PathScore(xs, agg)
    ensures r.ValueError? <==> xs != [] && agg.Unknown?
    ensures r.Ok? ==> Unit(r.value)
  {
    if xs == [] {
      return Ok(FLOOR);
    }
    match agg {
      case Mean =>
        var total := 0.0;
        for i := 0 to |xs|
          invariant total == Sum(xs[..i])
        {
          total := total + xs[i];
          assert xs[..i + 1][..i] == xs[..i];
        }
        assert xs[..|xs|] == xs;
        return Ok(Clamp01(total / |xs| as real));
      case Product =>
        var prod := 1.0;
        for i := 0 to |xs|
          invariant prod == ClampedProduct(xs[..i])
        {
          prod := Times(prod, Clamp01(xs[i]));
          assert xs[..i + 1][..i] == xs[..i];
        }
        assert xs[..|xs|] == xs;
        return Ok(Clamp01(prod));
      case Unknown(_) =>
        return ValueError;
    }
  }

  predicate UnitScores(xs: seq<real>) {
    forall i :: 0 <= i < |xs| ==> Unit(xs[i])
  }

  lemma {:induction false} ProductAtMostLeast(xs: seq<real>)
    requires xs != [] && UnitScores(xs)
    ensures 0.0 <= ClampedProduct(xs) <= Least(xs)
  {
    hide ClampedProduct, Clamp01;
    if |xs| > 1 {
      ProductAtMostLeast(xs[..|xs| - 1]);
    }
    ProductStep(xs);
  }

  lemma ProductStep(xs: seq<real>)
    requires xs != [] && UnitScores(xs) && (|xs| > 1 ==> Unit(ClampedProduct(xs[..|xs| - 1])))
    ensures 0.0 <= ClampedProduct(xs) <= ClampedProduct(xs[..|xs| - 1]) && ClampedProduct(xs) <= xs[|xs| - 1]
  {
    hide Times;
    Shrink(ClampedProduct(xs[..|xs| - 1]), xs[|xs| - 1]);
  }

  lemma Shrink(p: real, x: real)
    requires Unit(p) && Unit(x)
    ensures 0.0 <= Times(p, x) <= x && Times(p, x) <= p
  {
    Weighted(x, 0.0, p, 1.0);
    Weighted(p, 0.0, x, 1.0);
    assert Times(p, x) == Times(x, p) && Times(0.0, p) == 0.0 && Times(1.0, p) == p && Times(1.0, x) == x;
  }

  lemma {:induction false} SumBetween(xs: seq<real>, lo: real)
    requires forall i :: 0 <= i < |xs| ==> lo <= xs[i] <= 1.0
    ensures lo * |xs| as real <= Sum(xs) <= |xs| as real
  {
    if xs != [] {
      SumBetween(xs[..|xs| - 1], lo);
      assert lo * |xs| as real == lo * (|xs| - 1) as real + lo;
    }
  }

  /** On unit edge scores the product is at most the weakest edge, which is at most the mean. */
  lemma ProductMinMean(xs: seq<real>)
    requires xs != [] && UnitScores(xs)
    ensures PathScore(xs, Product).value <= Least(xs) <= PathScore(xs, Mean).value
    ensures PathScore(xs, Mean).value == Average(xs) && PathScore(xs, Product).value == ClampedProduct(xs)
  {
    ProductAtMostLeast(xs);
    AverageBetween(xs);
    hide Average, ClampedProduct;
  }

  lemma AverageBetween(xs: seq<real>)
    requires xs != [] && UnitScores(xs)
    ensures Least(xs) <= Average(xs) <= 1.0
  {
    SumBetween(xs, Least(xs));
    Quotient(Least(xs), Sum(xs), |xs| as real);
  }

  lemma Quotient(lo: real, sum: real, n: real)
    requires n > 0.0 && lo * n <= sum <= n
    ensures lo <= sum / n <= 1.0
  {}

  // ----- what each edge is worth -----

  lemma {:induction false} SumConcat(xs: seq<real>, ys: seq<real>)
    ensures Sum(xs + ys) == Sum(xs) + Sum(ys)
    decreases |ys|
  {
    if ys == [] {
      assert xs + ys == xs;
    } else {
      SumConcat(xs, ys[..|ys| - 1]);
      assert (xs + ys)[..|xs + ys| - 1] == xs + ys[..|ys| - 1];
    }
  }

  lemma {:induction false} ProductConcat(xs: seq<real>, ys: seq<real>)
    ensures ClampedProduct(xs + ys) == Times(ClampedProduct(xs), ClampedProduct(ys))
    decreases |ys|
  {
    hide Times, Clamp01;
    if ys == [] {
      assert xs + ys == xs;
      TimesUnit(ClampedProduct(xs));
      TimesCommutes(ClampedProduct(xs), 1.0);
    } else {
      TimesAssociates(ClampedProduct(xs), ClampedProduct(ys[..|ys| - 1]), Clamp01(ys[|ys| - 1]));
      ProductConcat(xs, ys[..|ys| - 1]);
      assert (xs + ys)[..|xs + ys| - 1] == xs + ys[..|ys| - 1];
    }
  }

  /** The mean weighs every edge alike: of two paths joined it is the mean by their lengths. */
  lemma MeanOfJoined(xs: seq<real>, ys: seq<real>)
    requires xs != [] && ys != [] && UnitScores(xs) && UnitScores(ys)
    ensures var n, m := |xs| as real, |ys| as real;
      Times(PathScore(xs + ys, Mean).value, n + m)
        == Times(PathScore(xs, Mean).value, n) + Times(PathScore(ys, Mean).value, m)
  {
    SumConcat(xs, ys);
    MeanTimesLength(xs);
    MeanTimesLength(ys);
    MeanTimesLength(xs + ys);
    hide Sum, Times;
  }

  lemma MeanTimesLength(xs: seq<real>)
    requires xs != [] && UnitScores(xs)
    ensures Times(PathScore(xs, Mean).value, |xs| as real) == Sum(xs)
  {
    ProductMinMean(xs);
    QuotientTimes(Sum(xs), |xs| as real);
  }

  /** The product of two paths joined is the product of theirs. */
  lemma ProductOfJoined(xs: seq<real>, ys: seq<real>)
    requires xs != [] && ys != [] && UnitScores(xs) && UnitScores(ys)
    ensures PathScore(xs + ys, Product).value == Times(PathScore(xs, Product).value, PathScore(ys, Product).value)
  {
    ProductConcat(xs, ys);
    ProductMinMean(xs);
    ProductMinMean(ys);
    ProductMinMean(xs + ys);
    hide ClampedProduct, Least, Average;
  }

  /** A path of one edge scores as the edge does, clamped; one of none scores 0.4. */
  lemma ShortPaths(x: real, agg: Aggregation)
    ensures !agg.Unknown? ==> PathScore([x], agg) == Ok(Clamp01(x))
    ensures PathScore([], agg) == Ok(0.4)
  {
    assert [x][..0] == [];
    TimesUnit(Clamp01(x));
    assert ClampedProduct([x]) == Clamp01(x);
    assert Sum([x]) == x && Average([x]) == x;
  }

  /** The edges of a product are clamped one by one, those of a mean only together. */
  lemma ClampedWhere(xs: seq<real>, ys: seq<real>)
    requires xs != [] && |xs| == |ys|
    ensures (forall i :: 0 <= i < |xs| ==> ys[i] == Clamp01(xs[i])) ==> PathScore(xs, Product) == PathScore(ys, Product)
    ensures Sum(xs) == Sum(ys) ==> PathScore(xs, Mean) == PathScore(ys, Mean)
  {
    if forall i :: 0 <= i < |xs| ==> ys[i] == Clamp01(xs[i]) {
      SameProduct(xs, ys);
    }
  }

  lemma {:induction false} SameProduct(xs: seq<real>, ys: seq<real>)
    requires |xs| == |ys| && forall i :: 0 <= i < |xs| ==> ys[i] == Clamp01(xs[i])
    ensures ClampedProduct(xs) == ClampedProduct(ys)
  {
    if xs != [] {
      SameProduct(xs[..|xs| - 1], ys[..|ys| - 1]);
    }
  }

  // ----- ranking -----

  /** A path as the graph searcher hands it over; `rest` is everything that is carried through. */
  datatype Path = Path(edgeScores: seq<real>, rest: string)
  datatype Scored = Scored(path: Path, score: real)

  function ScoreAll(ps: seq<Path>, agg: Aggregation): (r: Result<seq<Scored>>)
    ensures r.Ok? ==> |r.value| == |ps| && forall i :: 0 <= i < |ps| ==>
              PathScore(ps[i].edgeScores, agg) == Ok(r.value[i].score) && r.value[i].path == ps[i]
    ensures r.ValueError? <==> exists i :: 0 <= i < |ps| && PathScore(ps[i].edgeScores, agg).ValueError?
  {
    if ps == [] then Ok([]) else
    var before := ScoreAll(ps[..|ps| - 1], agg);
    var last := PathScore(ps[|ps| - 1].edgeScores, agg);
    if before.Ok? && last.Ok? then Ok(before.value + [Scored(ps[|ps| - 1], last.value)])
    else
      ValueError
  }

  function Scores(ss: seq<Scored>): seq<real> {
    KeysBy(ss, (s: Scored) => s.score)
  }

  /** The Python slice `[:k]`. */
  function Slice<T>(xs: seq<T>, k: int): seq<T> {
    if k >= |xs| then xs else if k >= 0 then xs[..k] else if |xs| + k >= 0 then xs[..|xs| + k] else []
  }

  lemma SliceSpec<T>(xs: seq<T>, k: int)
    ensures Slice(xs, k) <= xs
    ensures |Slice(xs, k)| == if k >= |xs| then |xs| else if k >= 0 then k else if |xs| + k >= 0 then |xs| + k else 0
  {}

  /** `kept` and `dropped` split a descending, stable arrangement of `all`. */
  ghost predicate TopOf(all: seq<Scored>, kept: seq<Scored>, dropped: seq<Scored>) {
    && kept + dropped == SortDesc(all, Scores(all), Greater)
    && multiset(kept) + multiset(dropped) == multiset(all)
    && (forall a, b :: 0 <= a < b < |kept| ==> kept[a].score >= kept[b].score)
    && (forall x, y :: x in kept && y in dropped ==> x.score >= y.score)
  }

  method ScorePaths(paths: seq<Path>, agg: Aggregation) returns (r: Result<seq<Scored>>)
    ensures r == ScoreAll(paths, agg)
  {
    var scored: seq<Scored> := [];
    for i := 0 to |paths|
      invariant ScoreAll(paths[..i], agg) == Ok(scored)
    {
      var s := ScorePath(paths[i].edgeScores, agg);
      assert paths[..i + 1][..i] == paths[..i];
      if s.ValueError? {
        assert PathScore(paths[i].edgeScores, agg).ValueError?;
        return ValueError;
      }
      scored := scored + [Scored(paths[i], s.value)];
    }
    assert paths[..|paths|] == paths;
    return Ok(scored);
  }

  /** The best `topK` paths: a descending list whose scores dominate every dropped path's. */
  method RankPaths(paths: seq<Path>, agg: Aggregation, topK: Option<int>)
    returns (r: Result<seq<Scored>>, ghost dropped: seq<Scored>)
    ensures r.ValueError? <==> ScoreAll(paths, agg).ValueError?
    ensures r.Ok? ==> TopOf(ScoreAll(paths, agg).value, r.value, dropped)
    ensures r.Ok? && topK.None? ==> dropped == []
    ensures r.Ok? && topK.Some? ==> r.value == Slice(r.value + dropped, topK.value)
  {
    hide TopOf, SortDesc, ScoreAll;
    dropped := [];
    var scoring := ScorePaths(paths, agg);
    if scoring.ValueError? {
      return ValueError, [];
    }
    var scored := scoring.value;
    var sorted := SortDesc(scored, Scores(scored), Greater);
    SortedTop(scored, sorted);
    if topK.None? {
      return Ok(sorted), [];
    }
    var kept := Slice(sorted, topK.value);
    dropped := sorted[|kept|..];
    assert sorted == kept + dropped;
    SplitTop(scored, kept, dropped);
    return Ok(kept), dropped;
  }

  lemma SortedTop(all: seq<Scored>, sorted: seq<Scored>)
    requires sorted == SortDesc(all, Scores(all), Greater)
    ensures TopOf(all, sorted, [])
  {
    GreaterIsStrictWeak();
    hide StrictWeak, SortDesc;
    SortLength(all, Scores(all), Greater);
    SortPermutes(all, Scores(all), Greater);
    forall a, b | 0 <= a < b < |sorted| ensures sorted[a].score >= sorted[b].score {
      var i, j := SortDescends(all, Scores(all), Greater, a, b);
    }
    assert sorted + [] == sorted;
  }

  lemma SplitTop(all: seq<Scored>, kept: seq<Scored>, dropped: seq<Scored>)
    requires TopOf(all, kept + dropped, [])
    ensures TopOf(all, kept, dropped)
  {
    var sorted := kept + dropped;
    assert sorted + [] == sorted;
    KeptDescends(kept, dropped);
    hide SortDesc, Scores;
    forall x, y | x in kept && y in dropped ensures x.score >= y.score {
      var a :| 0 <= a < |kept| && kept[a] == x;
      var b :| 0 <= b < |dropped| && dropped[b] == y;
      assert sorted[a] == x && sorted[|kept| + b] == y;
    }
  }

  lemma KeptDescends(kept: seq<Scored>, dropped: seq<Scored>)
    requires forall a, b :: 0 <= a < b < |kept + dropped| ==> (kept + dropped)[a].score >= (kept + dropped)[b].score
    ensures forall a, b :: 0 <= a < b < |kept| ==> kept[a].score >= kept[b].score
  {
    forall a, b | 0 <= a < b < |kept| ensures kept[a].score >= kept[b].score {
      assert (kept + dropped)[a] == kept[a] && (kept + dropped)[b] == kept[b];
    }
  }

  // ----- query-aware reranking -----

  /** A path as reranking reads it: its score and hop count may be missing; `affinity` is its
      lexical affinity to the query. */
  datatype Hit = Hit(pathScore: Option<real>, hops: Option<int>, affinity: real, rest: string)

  datatype RerankKey = RerankKey(rerank: real, score: real, minusHops: int)

  datatype Reranking = Reranking(structural: real, affinity: real, round: real -> real)

  /** A missing score, and also a score of exactly zero, counts as the floor. */
  function Structural(h: Hit): real {
    if h.pathScore.None? || h.pathScore.value == 0.0 then FLOOR else Clamp01(h.pathScore.value)
  }

  function KeyOf(w: Reranking, h: Hit): RerankKey {
    RerankKey(
      w.round(Clamp01(Times(w.structural, Structural(h)) + Times(w.affinity, h.affinity))),
      if h.pathScore.None? then 0.0 else h.pathScore.value,
      -(if h.hops.None? || h.hops.value == 0 then 99 else h.hops.value))
  }

  /** Python compares the key tuples lexicographically. */
  const KeyGreater: (RerankKey, RerankKey) -> bool :=
    (x: RerankKey, y: RerankKey) => x.rerank > y.rerank || (x.rerank == y.rerank && (x.score > y.score
                || (x.score == y.score && x.minusHops > y.minusHops)))

  lemma KeyGreaterIsStrictWeak()
    ensures StrictWeak(KeyGreater)
  {}

  function Keys(w: Reranking, hs: seq<Hit>): seq<RerankKey> {
    KeysBy(hs, (h: Hit) => KeyOf(w, h))
  }

  function RerankPathsForQuery(w: Reranking, hs: seq<Hit>): seq<Hit> {
    SortDesc(hs, Keys(w, hs), KeyGreater)
  }

  ghost predicate Sensible(w: Reranking) {
    w.structural >= 0.0 && w.affinity >= 0.0 && forall x, y :: x <= y ==> w.round(x) <= w.round(y)
  }

  /** `g` is at least as good as `h` in every respect the ranking looks at. */
  predicate AtLeastAsGood(g: Hit, h: Hit) {
    && Structural(g) >= Structural(h) && g.affinity >= h.affinity
    && (if g.pathScore.None? then 0.0 else g.pathScore.value) >= (if h.pathScore.None? then 0.0 else h.pathScore.value)
    && (if g.hops.None? || g.hops.value == 0 then 99 else g.hops.value)
         <= (if h.hops.None? || h.hops.value == 0 then 99 else h.hops.value)
  }

  /** Reranking respects every such comparison: the better of two paths ends up ahead unless the
      keys tie and it came later. */
  lemma RerankRespects(w: Reranking, hs: seq<Hit>, i: int, j: int)
    requires Sensible(w) && 0 <= i < |hs| && 0 <= j < |hs| && AtLeastAsGood(hs[i], hs[j])
    requires i < j || KeyOf(w, hs[i]) != KeyOf(w, hs[j])
    ensures var r := RerankPathsForQuery(w, hs);
            var a, b := Rank(Keys(w, hs), KeyGreater, i), Rank(Keys(w, hs), KeyGreater, j);
            |r| == |hs| && a < b < |r| && r[a] == hs[i] && r[b] == hs[j]
  {
    var keys := Keys(w, hs);
    BlendMonotone(w, hs[i], hs[j]);
    assert i != j && Before(keys, KeyGreater, i, j);
    KeyGreaterIsStrictWeak();
    SortPlaces(hs, keys, KeyGreater, i);
    SortPlaces(hs, keys, KeyGreater, j);
    BeforeRanks(keys, KeyGreater, i, j);
  }

  /** One path goes ahead of another on the blended score, then on the path score (missing ones count as
      zero), then on fewer hops (missing ones count as 99). */
  lemma RerankDecides(w: Reranking, g: Hit, h: Hit)
    ensures var a, b := Blended(w, g), Blended(w, h);
      var s := if g.pathScore.Some? then g.pathScore.value else 0.0;
      var t := if h.pathScore.Some? then h.pathScore.value else 0.0;
      KeyGreater(KeyOf(w, g), KeyOf(w, h)) <==> a > b || (a == b && (s > t || (s == t && Hops(g) < Hops(h))))
  {}

  /** The weighted sum of structure (the clamped path score, 0.4 for none or zero) and affinity. */
  function Blended(w: Reranking, h: Hit): real {
    w.round(Clamp01(Times(w.structural, if h.pathScore == None || h.pathScore == Some(0.0) then 0.4
                                        else Clamp01(h.pathScore.value)) + Times(w.affinity, h.affinity)))
  }

  function Hops(h: Hit): int {
    if h.hops == None || h.hops == Some(0) then 99 else h.hops.value
  }

  lemma BlendMonotone(w: Reranking, g: Hit, h: Hit)
    requires Sensible(w) && AtLeastAsGood(g, h)
    ensures !KeyGreater(KeyOf(w, h), KeyOf(w, g))
    ensures KeyOf(w, g) != KeyOf(w, h) ==> KeyGreater(KeyOf(w, g), KeyOf(w, h))
  {
    hide Structural;
    var x := Times(w.structural, Structural(g)) + Times(w.affinity, g.affinity);
    var y := Times(w.structural, Structural(h)) + Times(w.affinity, h.affinity);
    assert y <= x by {
      TimesMonotone(w.structural, Structural(h), Structural(g));
      TimesMonotone(w.affinity, h.affinity, g.affinity);
    }
    assert Clamp01(y) <= Clamp01(x);
    assert w.round(Clamp01(y)) <= w.round(Clamp01(x));
  }

  /**
   * A higher path score does not always mean at least the same structural score: it fails exactly
   * for a score of zero (or a missing one), which counts as the floor, against a positive score below it.
   */
  lemma StructuralFollowsScoreExactly(g: Hit, h: Hit)
    requires g.pathScore.Some? && h.pathScore.Some? && g.pathScore.value >= h.pathScore.value
    ensures Structural(g) >= Structural(h) <==> !(h.pathScore.value == 0.0 && 0.0 < g.pathScore.value < FLOOR)
  {}
}
