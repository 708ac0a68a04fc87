/** Choosing among candidate answers by heuristic score, with a judge for near-ties. */
module BranchSelector {
  import opened Reals
  import opened StableSort
  import opened Wrappers

  datatype Candidate = Candidate(
    branchId: string, answerText: string, cited: seq<string>, totalSources: int,
    coveredSubQueries: int, totalSubQueries: int, confidence: real)

  /** What awaiting the judge gives: an exception, or a branch id that need not exist. */
  datatype Vote = Raised | Chose(branchId: string)
  type Judge = seq<Candidate> -> Vote

  function CapOne(x: real): real {
    if x < 1.0 then x else 1.0
  }

  function CitationCoverage(c: Candidate): real {
    if c.totalSources <= 0 then 0.0
    else CapOne(|set id | id in c.cited| as real / c.totalSources as real)
  }

  function QueryCoverage(c: Candidate): real {
    if c.totalSubQueries <= 0 then 1.0 else c.coveredSubQueries as real / c.totalSubQueries as real
  }

  function ScoreCandidate(c: Candidate): real {
    0.30 * CitationCoverage(c) + 0.30 * QueryCoverage(c) + 0.25 * Clamp01(c.confidence)
      + 0.15 * CapOne(|c.answerText| as real / 120.0)
  }

  predicate CoverageSane(covered: int, total: int) {
    total <= 0 || 0 <= covered <= total
  }

  lemma Fraction(x: int, y: int)
    requires y > 0
    ensures 0.0 <= x as real / y as real <= 1.0 <==> 0 <= x <= y
    ensures x >= 0 ==> x as real / y as real >= 0.0
    ensures x < 0 ==> x as real / y as real < 0.0
    ensures x > y ==> x as real / y as real > 1.0
  {
    Ratio(x as real, y as real);
  }

  /**
   * The score is documented as lying in [0, 1].  For given sub-query counts that holds of every
   * candidate exactly when the covered count lies between zero and the total (or there is none).
   */
  lemma UnitScoreExactly(covered: int, total: int)
    ensures CoverageSane(covered, total) <==>
              forall c: Candidate :: c.coveredSubQueries == covered && c.totalSubQueries == total
                ==> 0.0 <= ScoreCandidate(c) <= 1.0
  {
    if CoverageSane(covered, total) {
      forall c: Candidate | c.coveredSubQueries == covered && c.totalSubQueries == total
        ensures 0.0 <= ScoreCandidate(c) <= 1.0
      {
        SaneScore(c);
      }
    } else {
      Fraction(covered, total);
      if covered < 0 {
        var worst := Candidate("", "", [], 0, covered, total, 0.0);
        assert ScoreCandidate(worst) < 0.0;
      } else {
        var text := seq(120, _ => 'x');
        var best := Candidate("", text, ["s"], 1, covered, total, 1.0);
        assert best.cited[0] in set id | id in best.cited;
        assert (set id | id in best.cited) == {"s"};
        assert ScoreCandidate(best) > 1.0;
      }
    }
  }

  lemma SaneScore(c: Candidate)
    requires CoverageSane(c.coveredSubQueries, c.totalSubQueries)
    ensures 0.0 <= ScoreCandidate(c) <= 1.0
  {
    if c.totalSources > 0 {
      Fraction(|set id | id in c.cited|, c.totalSources);
    }
    if c.totalSubQueries > 0 {
      Fraction(c.coveredSubQueries, c.totalSubQueries);
    }
    assert 0.0 <= CitationCoverage(c) <= 1.0 && 0.0 <= QueryCoverage(c) <= 1.0;
  }

  // ----- what each part is worth -----

  /** Raising the confidence, within [0, 1], is worth a quarter of the raise, and nothing beyond. */
  lemma ConfidenceCounts(c: Candidate, confidence: real)
    ensures Unit(c.confidence) && Unit(confidence) ==>
              ScoreCandidate(c.(confidence := confidence)) - ScoreCandidate(c) == 0.25 * (confidence - c.confidence)
    ensures (confidence >= 1.0 && c.confidence >= 1.0) || (confidence <= 0.0 && c.confidence <= 0.0) ==>
              ScoreCandidate(c.(confidence := confidence)) == ScoreCandidate(c)
  {}

  /** Length counts up to 120 characters, 0.15 in all. */
  lemma LengthCounts(c: Candidate, text: string)
    ensures |text| <= 120 && |c.answerText| <= 120 ==>
              (ScoreCandidate(c.(answerText := text)) - ScoreCandidate(c)) * 120.0
              == 0.15 * (|text| as real - |c.answerText| as real)
    ensures |text| >= 120 && |c.answerText| >= 120 ==> ScoreCandidate(c.(answerText := text)) == ScoreCandidate(c)
  {}

  /** Covering sub-queries is worth 0.30 of their share; where there are none, all are covered. */
  lemma CoverageCounts(c: Candidate, covered: int, total: int)
    ensures total > 0 && c.totalSubQueries <= 0 ==>
              ScoreCandidate(c.(coveredSubQueries := covered, totalSubQueries := total)) - ScoreCandidate(c)
              == 0.30 * (covered as real / total as real - 1.0)
    ensures total <= 0 && c.totalSubQueries <= 0 ==>
              ScoreCandidate(c.(coveredSubQueries := covered, totalSubQueries := total)) == ScoreCandidate(c)
  {}

  /** Distinct citations are worth 0.30 of their share of the sources, capped at all of them, and
      nothing where there are no sources; citing a source again is worth nothing. */
  lemma CitationsCount(c: Candidate, cited: seq<string>, total: int)
    requires c.totalSources <= 0
    ensures total > 0 && |set id | id in cited| <= total ==>
              ScoreCandidate(c.(cited := cited, totalSources := total)) - ScoreCandidate(c)
              == 0.30 * (|set id | id in cited| as real / total as real)
    ensures total > 0 && |set id | id in cited| >= total ==>
              ScoreCandidate(c.(cited := cited, totalSources := total)) - ScoreCandidate(c) == 0.30
    ensures total <= 0 ==> ScoreCandidate(c.(cited := cited, totalSources := total)) == ScoreCandidate(c)
  {
    if total > 0 {
      Fraction(|set id | id in cited|, total);
      Ratio(|set id | id in cited| as real, total as real);
    }
  }

  /** An answer with nothing to its credit scores zero. */
  lemma NothingScoresZero(id: string)
    ensures ScoreCandidate(Candidate(id, "", [], 0, 0, 1, 0.0)) == 0.0
  {}

  // ----- selection -----

  datatype Ranked = Ranked(candidate: Candidate, score: real)

  function ScoreAll(cs: seq<Candidate>): (r: seq<Ranked>)
    ensures |r| == |cs| && forall i :: 0 <= i < |cs| ==> r[i] == Ranked(cs[i], ScoreCandidate(cs[i]))
  {
    if cs == [] then [] else ScoreAll(cs[..|cs| - 1]) + [Ranked(cs[|cs| - 1], ScoreCandidate(cs[|cs| - 1]))]
  }

  function Keys(rs: seq<Ranked>): seq<real> {
    KeysBy(rs, (r: Ranked) => r.score)
  }

  function Ranking(cs: seq<Candidate>): seq<Ranked> {
    SortDesc(ScoreAll(cs), Keys(ScoreAll(cs)), Greater)
  }

  function Scoreboard(rs: seq<Ranked>): seq<(string, real)> {
    if rs == [] then [] else [(rs[0].candidate.branchId, rs[0].score)] + Scoreboard(rs[1..])
  }

  function SelectBest(cs: seq<Candidate>): Result<(Candidate, seq<(string, real)>)> {
    if cs == [] then ValueError else
    RankingSpec(cs);
    Ok((Ranking(cs)[0].candidate, Scoreboard(Ranking(cs))))
  }

  /** The ranked candidates within `threshold` of the top score. */
  function Contenders(rs: seq<Ranked>, top: real, threshold: real): seq<Candidate> {
    if rs == [] then []
    else (if top - rs[0].score < threshold then [rs[0].candidate] else []) + Contenders(rs[1..], top, threshold)
  }

  function FirstWithId(cs: seq<Candidate>, id: string): Option<Candidate> {
    if cs == [] then None else if cs[0].branchId == id then Some(cs[0]) else FirstWithId(cs[1..], id)
  }

  function SelectBestWithTiebreaker(cs: seq<Candidate>, threshold: real, judge: Option<Judge>)
    : Result<(Candidate, seq<(string, real)>, bool)>
  {
    if cs == [] then ValueError else
    RankingSpec(cs);
    var ranked := Ranking(cs);
    var board := Scoreboard(ranked);
    var heuristic, top := ranked[0].candidate, ranked[0].score;
    if |ranked| < 2 || judge.None? then Ok((heuristic, board, false))
    else if top - ranked[1].score >= threshold then Ok((heuristic, board, false))
    else
      var contenders := Contenders(ranked, top, threshold);
      match judge.value(contenders)
      case Raised => Ok((heuristic, board, false))
      case Chose(id) =>
        var chosen := FirstWithId(contenders, id);
        if chosen.None? then Ok((heuristic, board, false)) else Ok((chosen.value, board, true))
  }

  /** The scoreboard lists the ranking, branch by branch with its score. */
  lemma {:induction false} ScoreboardSpec(rs: seq<Ranked>)
    ensures var board := Scoreboard(rs);
      |board| == |rs| && forall i :: 0 <= i < |rs| ==> board[i] == (rs[i].candidate.branchId, rs[i].score)
  {
    if rs != [] {
      ScoreboardSpec(rs[1..]);
    }
  }

  /** The ranking rearranges the scored candidates by descending score. */
  lemma RankingSpec(cs: seq<Candidate>)
    ensures var r := Ranking(cs);
      && |r| == |cs| && multiset(r) == multiset(ScoreAll(cs))
      && (forall a, b :: 0 <= a < b < |r| ==> r[a].score >= r[b].score)
      && (forall a :: 0 <= a < |r| ==> r[a].candidate in cs && r[a].score == ScoreCandidate(r[a].candidate))
  {
    var all := ScoreAll(cs);
    GreaterIsStrictWeak();
    hide StrictWeak, SortDesc, ScoreCandidate;
    SortLength(all, Keys(all), Greater);
    SortPermutes(all, Keys(all), Greater);
    var r := Ranking(cs);
    forall a, b | 0 <= a < b < |r| ensures r[a].score >= r[b].score {
      var i, j := SortDescends(all, Keys(all), Greater, a, b);
    }
    forall a | 0 <= a < |r| ensures r[a].candidate in cs && r[a].score == ScoreCandidate(r[a].candidate) {
      assert r[a] in multiset(r);
      assert r[a] in multiset(all);
    }
  }

  ghost predicate FirstBest(cs: seq<Candidate>, i: int)
    requires 0 <= i < |cs|
  {
    && (forall j :: 0 <= j < |cs| ==> ScoreCandidate(cs[j]) <= ScoreCandidate(cs[i]))
    && (forall j :: 0 <= j < i ==> ScoreCandidate(cs[j]) < ScoreCandidate(cs[i]))
  }

  /** The winner scores highest, and among equals came first. */
  lemma SelectBestIsMaximal(cs: seq<Candidate>)
    requires cs != []
    ensures SelectBest(cs).Ok?
    ensures exists i :: 0 <= i < |cs| && cs[i] == SelectBest(cs).value.0 && FirstBest(cs, i)
  {
    hide ScoreCandidate;
    var all := ScoreAll(cs);
    var keys := Keys(all);
    GreaterIsStrictWeak();
    OrderIsOrder(keys, Greater);
    var p := Order(keys, Greater);
    var i := p[0];
    OrderPlaces(keys, Greater, p, 0);
    assert Ahead(keys, Greater, i) == {};
    forall j | 0 <= j < |cs|
      ensures ScoreCandidate(cs[j]) <= ScoreCandidate(cs[i])
      ensures j < i ==> ScoreCandidate(cs[j]) < ScoreCandidate(cs[i])
    {
      assert j !in Ahead(keys, Greater, i);
    }
    RankingSpec(cs);
  }

  lemma {:induction false} FirstWithIdFinds(cs: seq<Candidate>, id: string)
    ensures var c := FirstWithId(cs, id);
            c.Some? ==> c.value.branchId == id && c.value in cs
  {
    if cs != [] {
      FirstWithIdFinds(cs[1..], id);
    }
  }

  /** `cs` are the ranked candidates less than `threshold` from the top, all of them, in order. */
  ghost predicate CloseToTop(rs: seq<Ranked>, cs: seq<Candidate>, top: real, threshold: real) {
    && |cs| <= |rs|
    && (forall i :: 0 <= i < |cs| ==> cs[i] == rs[i].candidate && top - rs[i].score < threshold)
    && (forall i :: |cs| <= i < |rs| ==> top - rs[i].score >= threshold)
  }

  lemma {:induction false} ContendersAreClosest(rs: seq<Ranked>, top: real, threshold: real)
    requires forall a, b :: 0 <= a < b < |rs| ==> rs[a].score >= rs[b].score
    ensures CloseToTop(rs, Contenders(rs, top, threshold), top, threshold)
  {
    if rs != [] {
      ContendersAreClosest(rs[1..], top, threshold);
      assert forall i :: 1 <= i < |rs| ==> rs[i] == rs[1..][i - 1];
    }
  }

  /** Shown exactly the candidates close to the top, the judge chose one of them, `c`. */
  ghost predicate Voted(cs: seq<Candidate>, threshold: real, judge: Judge, shown: seq<Candidate>, c: Candidate) {
    && Ranking(cs) != [] && CloseToTop(Ranking(cs), shown, Ranking(cs)[0].score, threshold)
    && c in shown && judge(shown) == Chose(c.branchId)
  }

  /**
   * Whatever the judge does (raise, name an unknown branch, or choose), the result is a candidate
   * whose score is within the positive threshold of the maximum, the scoreboard is the plain
   * selection's, and only a vote of the judge, shown exactly the candidates close to the top, changes
   * the winner.
   */
  lemma WinnerWithinThreshold(cs: seq<Candidate>, threshold: real, judge: Option<Judge>)
    requires cs != []
    ensures var r := SelectBestWithTiebreaker(cs, threshold, judge);
      var plain := SelectBest(cs);
      && r.Ok? && plain.Ok? && r.value.1 == plain.value.1 && r.value.0 in cs
      && (!r.value.2 ==> r.value.0 == plain.value.0)
      && (r.value.2 ==> judge.Some? && threshold > 0.0)
      && (r.value.2 ==> exists shown :: Voted(cs, threshold, judge.value, shown, r.value.0))
      && (forall c :: c in cs && threshold > 0.0 ==> ScoreCandidate(c) - ScoreCandidate(r.value.0) < threshold)
  {
    RankingSpec(cs);
    SelectBestIsMaximal(cs);
    var ranked := Ranking(cs);
    var r := SelectBestWithTiebreaker(cs, threshold, judge);
    forall c | c in cs ensures ScoreCandidate(c) <= ranked[0].score {
      assert ranked[0].candidate == SelectBest(cs).value.0;
    }
    if r.value.2 {
      var shown := VoteCounted(cs, threshold, judge.value);
      var i :| 0 <= i < |shown| && shown[i] == r.value.0;
      assert ranked[i].candidate == r.value.0;
    }
  }

  /** A changed winner is one of those shown to the judge, and its choice. */
  lemma VoteCounted(cs: seq<Candidate>, threshold: real, judge: Judge) returns (shown: seq<Candidate>)
    requires SelectBestWithTiebreaker(cs, threshold, Some(judge)).Ok?
    requires SelectBestWithTiebreaker(cs, threshold, Some(judge)).value.2
    ensures Voted(cs, threshold, judge, shown, SelectBestWithTiebreaker(cs, threshold, Some(judge)).value.0)
  {
    hide Scoreboard, CloseToTop, Contenders, Ranking;
    RankingSpec(cs);
    var ranked := Ranking(cs);
    shown := Contenders(ranked, ranked[0].score, threshold);
    ContendersAreClosest(ranked, ranked[0].score, threshold);
    FirstWithIdFinds(shown, judge(shown).branchId);
  }

  /** A threshold of zero or less disables the judge: the call is the plain selection. */
  lemma NoThresholdIsSelectBest(cs: seq<Candidate>, threshold: real, judge: Option<Judge>)
    requires threshold <= 0.0
    ensures SelectBestWithTiebreaker(cs, threshold, judge).ValueError? <==> SelectBest(cs).ValueError?
    ensures cs != [] ==>
      SelectBestWithTiebreaker(cs, threshold, judge)
        == Ok((SelectBest(cs).value.0, SelectBest(cs).value.1, false))
  {
    if cs != [] {
      RankingSpec(cs);
    }
  }

  /** `i` is the first of `cs` with its branch id. */
  predicate FirstOfId(cs: seq<Candidate>, i: int)
    requires 0 <= i < |cs|
  {
    forall j :: 0 <= j < i ==> cs[j].branchId != cs[i].branchId
  }

  lemma {:induction false} FirstWithIdIs(cs: seq<Candidate>, i: nat)
    requires i < |cs| && FirstOfId(cs, i)
    ensures FirstWithId(cs, cs[i].branchId) == Some(cs[i])
  {
    if i > 0 {
      assert cs[0].branchId != cs[i].branchId;
      FirstWithIdIs(cs[1..], i - 1);
    }
  }

  lemma {:induction false} FirstWithIdUnknown(cs: seq<Candidate>, id: string)
    requires forall i :: 0 <= i < |cs| ==> cs[i].branchId != id
    ensures FirstWithId(cs, id) == None
  {
    if cs != [] {
      FirstWithIdUnknown(cs[1..], id);
    }
  }

  /**
   * On a near-tie the judge is shown exactly the candidates close to the top, at least two, in
   * ranking order.  Its vote for one of them is the result; a vote for any other id, or an
   * exception, leaves the top of the ranking the winner.
   */
  lemma JudgeDecidesNearTies(cs: seq<Candidate>, threshold: real, judge: Judge) returns (shown: seq<Candidate>)
    requires |Ranking(cs)| >= 2 && Ranking(cs)[0].score - Ranking(cs)[1].score < threshold
    ensures |shown| >= 2 && CloseToTop(Ranking(cs), shown, Ranking(cs)[0].score, threshold)
    ensures forall i :: 0 <= i < |shown| && judge(shown) == Chose(shown[i].branchId) && FirstOfId(shown, i) ==>
              SelectBestWithTiebreaker(cs, threshold, Some(judge)) == Ok((shown[i], Scoreboard(Ranking(cs)), true))
    ensures (forall i :: 0 <= i < |shown| ==> judge(shown) != Chose(shown[i].branchId)) ==>
              SelectBestWithTiebreaker(cs, threshold, Some(judge))
                == Ok((Ranking(cs)[0].candidate, Scoreboard(Ranking(cs)), false))
  {
    hide Scoreboard, Contenders, Ranking, FirstWithId;
    RankingSpec(cs);
    var ranked := Ranking(cs);
    shown := Contenders(ranked, ranked[0].score, threshold);
    ContendersAreClosest(ranked, ranked[0].score, threshold);
    AskedJudge(cs, threshold, judge);
    VoteFound(shown, judge(shown));
  }

  /** What a vote makes of the contenders. */
  lemma VoteFound(shown: seq<Candidate>, vote: Vote)
    ensures forall i :: 0 <= i < |shown| && vote == Chose(shown[i].branchId) && FirstOfId(shown, i) ==>
              FirstWithId(shown, vote.branchId) == Some(shown[i])
    ensures vote.Chose? && (forall i :: 0 <= i < |shown| ==> vote != Chose(shown[i].branchId)) ==>
              FirstWithId(shown, vote.branchId) == None
  {
    hide FirstWithId;
    forall i | 0 <= i < |shown| && vote == Chose(shown[i].branchId) && FirstOfId(shown, i)
      ensures FirstWithId(shown, vote.branchId) == Some(shown[i])
    {
      FirstWithIdIs(shown, i);
    }
    if vote.Chose? && forall i :: 0 <= i < |shown| ==> vote != Chose(shown[i].branchId) {
      FirstWithIdUnknown(shown, vote.branchId);
    }
  }

  /** On a near-tie the judge is asked, and its vote looked up. */
  lemma AskedJudge(cs: seq<Candidate>, threshold: real, judge: Judge)
    requires |Ranking(cs)| >= 2 && Ranking(cs)[0].score - Ranking(cs)[1].score < threshold
    ensures var ranked := Ranking(cs);
      var shown := Contenders(ranked, ranked[0].score, threshold);
      var chosen := if judge(shown).Raised? then None else FirstWithId(shown, judge(shown).branchId);
      SelectBestWithTiebreaker(cs, threshold, Some(judge))
        == Ok((if chosen.None? then ranked[0].candidate else chosen.value, Scoreboard(ranked), chosen.Some?))
  {
    hide Scoreboard, Contenders, Ranking, FirstWithId;
    RankingSpec(cs);
  }
}
