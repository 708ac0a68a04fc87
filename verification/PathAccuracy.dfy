/** Multi-hop path accuracy: longest common subsequence by dynamic programming, over the gold length. */
module PathAccuracy {
  import opened Reals

  // ----- what a subsequence is -----

  /** `at` picks strictly increasing positions of `t` that spell out `s`. */
  ghost predicate Embeds<T>(s: seq<T>, t: seq<T>, at: seq<int>) {
    && |at| == |s|
    && (forall k :: 0 <= k < |s| ==> 0 <= at[k] < |t| && t[at[k]] == s[k])
    && (forall k, l :: 0 <= k < l < |s| ==> at[k] < at[l])
  }

  ghost predicate Subsequence<T>(s: seq<T>, t: seq<T>) {
    exists at: seq<int> :: Embeds(s, t, at)
  }

  ghost predicate Common<T>(s: seq<T>, a: seq<T>, b: seq<T>) {
    Subsequence(s, a) && Subsequence(s, b)
  }

  /** `n` is the length of a longest common subsequence of `a` and `b`. */
  ghost predicate IsLongest<T(!new)>(n: nat, a: seq<T>, b: seq<T>) {
    && (exists s: seq<T> :: Common(s, a, b) && |s| == n)
    && (forall s: seq<T> :: Common(s, a, b) ==> |s| <= n)
  }

  // ----- the recurrence -----

  /** The table entry for the prefixes of lengths `i` and `j`. */
  function Entry<T(==)>(a: seq<T>, b: seq<T>, i: nat, j: nat): nat
    requires i <= |a| && j <= |b|
  {
    if i == 0 || j == 0 then 0
    else if a[i - 1] == b[j - 1] then Entry(a, b, i - 1, j - 1) + 1
    else Max(Entry(a, b, i - 1, j), Entry(a, b, i, j - 1))
  }

  lemma EntryUnfolds<T>(a: seq<T>, b: seq<T>, i: nat, j: nat)
    requires i <= |a| && j <= |b|
    ensures i == 0 || j == 0 ==> Entry(a, b, i, j) == 0
    ensures i > 0 && j > 0 ==>
      Entry(a, b, i, j) == if a[i - 1] == b[j - 1] then Entry(a, b, i - 1, j - 1) + 1
                           else Max(Entry(a, b, i - 1, j), Entry(a, b, i, j - 1))
  {}

  function Max(x: nat, y: nat): nat {
    if x >= y then x else y
  }

  /** Lengthening the text keeps a subsequence; matching its new last element extends it. */
  lemma EmbedsExtends<T>(s: seq<T>, t: seq<T>, x: T)
    requires Subsequence(s, t)
    ensures Subsequence(s, t + [x]) && Subsequence(s + [x], t + [x])
  {
    var at :| Embeds(s, t, at);
    assert Embeds(s, t + [x], at);
    assert Embeds(s + [x], t + [x], at + [|t|]);
  }

  /** Dropping the last element of both. */
  lemma EmbedsShrinks<T>(s: seq<T>, t: seq<T>)
    requires Subsequence(s, t) && s != []
    ensures t != [] && Subsequence(s[..|s| - 1], t[..|t| - 1])
    ensures s[|s| - 1] == t[|t| - 1] || Subsequence(s, t[..|t| - 1])
  {
    var at :| Embeds(s, t, at);
    var last := |s| - 1;
    assert at[last] < |t|;
    assert Embeds(s[..last], t[..|t| - 1], at[..last]);
    if at[last] < |t| - 1 {
      assert Embeds(s, t[..|t| - 1], at);
    }
  }

  /** The entry is attained by a common subsequence of the two prefixes. */
  lemma {:induction false} EntryAttained<T>(a: seq<T>, b: seq<T>, i: nat, j: nat) returns (s: seq<T>)
    requires i <= |a| && j <= |b|
    ensures Common(s, a[..i], b[..j]) && |s| == Entry(a, b, i, j)
    decreases i + j
  {
    if i == 0 || j == 0 {
      s := [];
      assert Embeds(s, a[..i], []) && Embeds(s, b[..j], []);
    } else {
      var x, y := a[i - 1], b[j - 1];
      assert a[..i] == a[..i - 1] + [x] && b[..j] == b[..j - 1] + [y];
      if x == y {
        var r := EntryAttained(a, b, i - 1, j - 1);
        EmbedsExtends(r, a[..i - 1], x);
        EmbedsExtends(r, b[..j - 1], y);
        s := r + [x];
      } else if Entry(a, b, i - 1, j) >= Entry(a, b, i, j - 1) {
        s := EntryAttained(a, b, i - 1, j);
        EmbedsExtends(s, a[..i - 1], x);
      } else {
        s := EntryAttained(a, b, i, j - 1);
        EmbedsExtends(s, b[..j - 1], y);
      }
    }
  }

  /** No common subsequence of the two prefixes is longer than the entry. */
  lemma {:induction false} EntryBounds<T>(a: seq<T>, b: seq<T>, i: nat, j: nat, s: seq<T>)
    requires i <= |a| && j <= |b| && Common(s, a[..i], b[..j])
    ensures |s| <= Entry(a, b, i, j)
    decreases i + j
  {
    if s != [] {
      EmbedsShrinks(s, a[..i]);
      EmbedsShrinks(s, b[..j]);
      assert a[..i][..i - 1] == a[..i - 1] && b[..j][..j - 1] == b[..j - 1];
      if a[i - 1] == b[j - 1] {
        EntryBounds(a, b, i - 1, j - 1, s[..|s| - 1]);
      } else if s[|s| - 1] != a[i - 1] {
        EntryBounds(a, b, i - 1, j, s);
      } else {
        EntryBounds(a, b, i, j - 1, s);
      }
    }
  }

  lemma EntryBoundsAll<T>(a: seq<T>, b: seq<T>, s: seq<T>)
    requires Common(s, a, b)
    ensures |s| <= Entry(a, b, |a|, |b|)
  {
    assert a[..|a|] == a && b[..|b|] == b;
    EntryBounds(a, b, |a|, |b|, s);
  }

  lemma LongestAttained<T>(a: seq<T>, b: seq<T>) returns (s: seq<T>)
    ensures Common(s, a, b) && |s| == Entry(a, b, |a|, |b|)
  {
    hide Entry, Common;
    assert a[..|a|] == a && b[..|b|] == b;
    s := EntryAttained(a, b, |a|, |b|);
  }

  lemma EntryIsLongest<T(!new)>(a: seq<T>, b: seq<T>)
    ensures IsLongest(Entry(a, b, |a|, |b|), a, b)
  {
    hide Entry, Common;
    var s := LongestAttained(a, b);
    forall r: seq<T> | Common(r, a, b) ensures |r| <= Entry(a, b, |a|, |b|) {
      EntryBoundsAll(a, b, r);
    }
  }

  // ----- the metric -----

  /** The nested loops: `dp[m][n]` is the length of a longest common subsequence. */
  method LongestCommon<T(==, !new)>(retrieved: seq<T>, gold: seq<T>) returns (lcs: nat)
    ensures IsLongest(lcs, retrieved, gold)
    ensures lcs == Entry(retrieved, gold, |retrieved|, |gold|)
  {
    hide IsLongest, Entry;
    forall c | 0 <= c <= |gold| ensures Entry(retrieved, gold, 0, c) == 0 {
      EntryUnfolds(retrieved, gold, 0, c);
    }
    var m, n := |retrieved|, |gold|;
    var dp := new nat[m + 1, n + 1]((_, _) => 0);
    for i := 1 to m + 1
      invariant forall r, c :: 0 <= r < i && 0 <= c <= n ==> dp[r, c] == Entry(retrieved, gold, r, c)
      invariant forall r :: 0 <= r <= m ==> dp[r, 0] == 0
    {
      EntryUnfolds(retrieved, gold, i, 0);
      for j := 1 to n + 1
        invariant forall r, c :: 0 <= r < i && 0 <= c <= n ==> dp[r, c] == Entry(retrieved, gold, r, c)
        invariant forall c :: 0 <= c < j ==> dp[i, c] == Entry(retrieved, gold, i, c)
        invariant forall r :: 0 <= r <= m ==> dp[r, 0] == 0
      {
        EntryUnfolds(retrieved, gold, i, j);
        if retrieved[i - 1] == gold[j - 1] {
          dp[i, j] := dp[i - 1, j - 1] + 1;
        } else {
          dp[i, j] := Max(dp[i - 1, j], dp[i, j - 1]);
        }
      }
    }
    EntryIsLongest(retrieved, gold);
    return dp[m, n];
  }

  method MultiHopPathAccuracy<T(==, !new)>(retrieved: seq<T>, gold: seq<T>) returns (score: real)
    ensures score == Score(retrieved, gold)
    ensures 0.0 <= score <= 1.0
    ensures score == 1.0 <==> gold != [] && Subsequence(gold, retrieved)
  {
    ScoreInUnit(retrieved, gold);
    PerfectExactly(retrieved, gold);
    if gold == [] || retrieved == [] {
      return 0.0;
    }
    var lcs := LongestCommon(retrieved, gold);
    return lcs as real / |gold| as real;
  }

  function Score<T(==)>(retrieved: seq<T>, gold: seq<T>): real {
    if gold == [] || retrieved == [] then 0.0
    else Entry(retrieved, gold, |retrieved|, |gold|) as real / |gold| as real
  }

  lemma Divide(x: nat, y: nat, n: nat)
    requires n > 0
    ensures x <= y ==> x as real / n as real <= y as real / n as real
    ensures x == n <==> x as real / n as real == 1.0
    ensures 0.0 <= x as real / n as real
  {
    Ratio(x as real, n as real);
    QuotientOrder(x as real, y as real, n as real);
  }

  /** A subsequence as long as the text is the text. */
  lemma {:induction false} FullSubsequence<T>(s: seq<T>, t: seq<T>)
    requires Subsequence(s, t)
    ensures |s| <= |t| && (|s| == |t| ==> s == t)
  {
    if s != [] {
      EmbedsShrinks(s, t);
      FullSubsequence(s[..|s| - 1], t[..|t| - 1]);
      if |s| == |t| {
        if Subsequence(s, t[..|t| - 1]) {
          SubsequenceShorter(s, t[..|t| - 1]);
        }
        assert s == s[..|s| - 1] + [s[|s| - 1]] && t == t[..|t| - 1] + [t[|t| - 1]];
      }
    }
  }

  lemma {:induction false} SubsequenceShorter<T>(s: seq<T>, t: seq<T>)
    requires Subsequence(s, t)
    ensures |s| <= |t|
  {
    if s != [] {
      EmbedsShrinks(s, t);
      SubsequenceShorter(s[..|s| - 1], t[..|t| - 1]);
    }
  }

  lemma SubsequenceReflexive<T>(s: seq<T>)
    ensures Subsequence(s, s)
  {
    assert Embeds(s, s, seq(|s|, k => k));
  }

  lemma SubsequenceTransitive<T>(r: seq<T>, s: seq<T>, t: seq<T>)
    requires Subsequence(r, s) && Subsequence(s, t)
    ensures Subsequence(r, t)
  {
    var f :| Embeds(r, s, f);
    var g :| Embeds(s, t, g);
    assert Embeds(r, t, seq(|r|, k requires 0 <= k < |r| => g[f[k]]));
  }

  /** The score lies in [0, 1]. */
  lemma ScoreInUnit<T(!new)>(retrieved: seq<T>, gold: seq<T>)
    ensures 0.0 <= Score(retrieved, gold) <= 1.0
  {
    if gold != [] && retrieved != [] {
      EntryIsLongest(retrieved, gold);
      var n := Entry(retrieved, gold, |retrieved|, |gold|);
      var s :| Common(s, retrieved, gold) && |s| == n;
      FullSubsequence(s, gold);
      Divide(n, |gold|, |gold|);
      Divide(|gold|, |gold|, |gold|);
    }
  }

  lemma FullLength<T(!new)>(retrieved: seq<T>, gold: seq<T>)
    ensures Entry(retrieved, gold, |retrieved|, |gold|) == |gold| <==> Subsequence(gold, retrieved)
  {
    EntryIsLongest(retrieved, gold);
    hide Entry, Subsequence;
    var s :| Common(s, retrieved, gold) && |s| == Entry(retrieved, gold, |retrieved|, |gold|);
    FullSubsequence(s, gold);
    SubsequenceReflexive(gold);
    if Subsequence(gold, retrieved) {
      assert Common(gold, retrieved, gold);
    }
  }

  /** It is 1 exactly when a non-empty gold path is visited in order, detours allowed. */
  lemma PerfectExactly<T(!new)>(retrieved: seq<T>, gold: seq<T>)
    ensures Score(retrieved, gold) == 1.0 <==> gold != [] && Subsequence(gold, retrieved)
  {
    hide Subsequence, Entry;
    if gold != [] && retrieved != [] {
      FullLength(retrieved, gold);
      Divide(Entry(retrieved, gold, |retrieved|, |gold|), |gold|, |gold|);
    } else if gold != [] && Subsequence(gold, retrieved) {
      FullSubsequence(gold, retrieved);
    }
  }

  /** The score is exactly the length of a longest common subsequence over the length of the gold path. */
  lemma ScoreExactly<T(!new)>(retrieved: seq<T>, gold: seq<T>, n: nat)
    requires gold != [] && IsLongest(n, retrieved, gold)
    ensures Times(Score(retrieved, gold), |gold| as real) == n as real
  {
    EntryIsLongest(retrieved, gold);
    LongestUnique(Entry(retrieved, gold, |retrieved|, |gold|), n, retrieved, gold);
    hide IsLongest;
    if retrieved == [] {
      TimesUnit(|gold| as real);
    } else {
      QuotientTimes(n as real, |gold| as real);
    }
  }

  lemma LongestUnique<T(!new)>(m: nat, n: nat, a: seq<T>, b: seq<T>)
    requires IsLongest(m, a, b) && IsLongest(n, a, b)
    ensures m == n
  {}

  /** Inserting detours anywhere into the retrieved path never lowers the score. */
  lemma DetoursNeverLower<T(!new)>(retrieved: seq<T>, detoured: seq<T>, gold: seq<T>)
    requires Subsequence(retrieved, detoured)
    ensures Score(retrieved, gold) <= Score(detoured, gold)
  {
    ScoreInUnit(detoured, gold);
    if gold != [] && retrieved != [] {
      EntryIsLongest(retrieved, gold);
      EntryIsLongest(detoured, gold);
      FullSubsequence(retrieved, detoured);
      var n := Entry(retrieved, gold, |retrieved|, |gold|);
      var s :| Common(s, retrieved, gold) && |s| == n;
      SubsequenceTransitive(s, retrieved, detoured);
      assert Common(s, detoured, gold);
      Divide(n, Entry(detoured, gold, |detoured|, |gold|), |gold|);
    }
  }
}
