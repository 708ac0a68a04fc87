/**
 * Python's `sorted(..., reverse=True)`: a stable descending sort.  `Order` gives the permutation,
 * `Rank` says independently where each element must end up.
 */
module StableSort {
  import opened Sets

  /** A strict weak order: what comparing keys with `>` is. */
  ghost predicate StrictWeak<K(!new)>(gt: (K, K) -> bool) {
    && (forall x :: !gt(x, x))
    && (forall x, y, z :: gt(x, y) && gt(y, z) ==> gt(x, z))
    && (forall x, y, z :: gt(x, z) ==> gt(x, y) || gt(y, z))
  }

  /** Element `i` belongs before element `j`: a greater key, or an equal one and an earlier place. */
  predicate Before<K>(keys: seq<K>, gt: (K, K) -> bool, i: int, j: int)
    requires 0 <= i < |keys| && 0 <= j < |keys|
  {
    gt(keys[i], keys[j]) || (!gt(keys[j], keys[i]) && i < j)
  }

  /** The keys of items. */
  function KeysBy<T, K>(items: seq<T>, key: T -> K): (keys: seq<K>)
    ensures |keys| == |items| && forall i :: 0 <= i < |items| ==> keys[i] == key(items[i])
  {
    seq(|items|, i requires 0 <= i < |items| => key(items[i]))
  }

  function Insert<K>(keys: seq<K>, gt: (K, K) -> bool, p: seq<int>, i: int): (r: seq<int>)
    requires 0 <= i < |keys| && forall a :: 0 <= a < |p| ==> 0 <= p[a] < |keys|
    ensures forall a :: 0 <= a < |r| ==> 0 <= r[a] < |keys|
  {
    if p == [] || Before(keys, gt, i, p[0]) then [i] + p
    else [p[0]] + Insert(keys, gt, p[1..], i)
  }

  predicate Sorted<K>(keys: seq<K>, gt: (K, K) -> bool, p: seq<int>) {
    && (forall a :: 0 <= a < |p| ==> 0 <= p[a] < |keys|)
    && (forall a, b :: 0 <= a < b < |p| ==> Before(keys, gt, p[a], p[b]))
  }

  function Elements(p: seq<int>): set<int> {
    set x | x in p
  }

  /** `p` lists every index of `keys` once, each before the next. */
  ghost predicate IsOrder<K>(keys: seq<K>, gt: (K, K) -> bool, p: seq<int>) {
    |p| == |keys| && Sorted(keys, gt, p) && forall x :: x in p <==> 0 <= x < |keys|
  }

  lemma {:induction false} InsertSorted<K(!new)>(keys: seq<K>, gt: (K, K) -> bool, p: seq<int>, i: int)
    requires StrictWeak(gt) && Sorted(keys, gt, p) && 0 <= i < |keys| && i !in p
    ensures var r := Insert(keys, gt, p, i);
            Sorted(keys, gt, r) && |r| == |p| + 1 && forall x :: x in r <==> x in p || x == i
  {
    var r := Insert(keys, gt, p, i);
    if p != [] && !Before(keys, gt, i, p[0]) {
      var rest := Insert(keys, gt, p[1..], i);
      assert p == [p[0]] + p[1..];
      InsertSorted(keys, gt, p[1..], i);
      forall b | 0 <= b < |rest| ensures Before(keys, gt, p[0], rest[b]) {
        assert rest[b] in rest;
        if rest[b] != i {
          var c :| 0 <= c < |p[1..]| && p[1..][c] == rest[b];
          assert p[c + 1] == rest[b];
        } else {
          assert p[0] in p;
        }
      }
    }
  }

  function OrderUpTo<K>(keys: seq<K>, gt: (K, K) -> bool, n: nat): (p: seq<int>)
    requires n <= |keys|
    ensures forall a :: 0 <= a < |p| ==> 0 <= p[a] < |keys|
  {
    if n == 0 then [] else
    var p := OrderUpTo(keys, gt, n - 1);
    Insert(keys, gt, p, n - 1)
  }

  /** The order in which a stable descending sort lists the indices of `keys`. */
  function Order<K>(keys: seq<K>, gt: (K, K) -> bool): (p: seq<int>)
    ensures forall a :: 0 <= a < |p| ==> 0 <= p[a] < |keys|
  {
    OrderUpTo(keys, gt, |keys|)
  }

  lemma {:induction false} OrderUpToSorted<K(!new)>(keys: seq<K>, gt: (K, K) -> bool, n: nat)
    requires StrictWeak(gt) && n <= |keys|
    ensures var p := OrderUpTo(keys, gt, n); |p| == n && Sorted(keys, gt, p) && forall x :: x in p <==> 0 <= x < n
  {
    if n > 0 {
      OrderUpToSorted(keys, gt, n - 1);
      InsertSorted(keys, gt, OrderUpTo(keys, gt, n - 1), n - 1);
    }
  }

  lemma OrderIsOrder<K(!new)>(keys: seq<K>, gt: (K, K) -> bool)
    requires StrictWeak(gt)
    ensures IsOrder(keys, gt, Order(keys, gt))
  {
    OrderUpToSorted(keys, gt, |keys|);
  }

  /** The elements that belong before `i`. */
  function Ahead<K>(keys: seq<K>, gt: (K, K) -> bool, i: int): set<int>
    requires 0 <= i < |keys|
  {
    set j | 0 <= j < |keys| && Before(keys, gt, j, i)
  }

  /** Where `i` must end up: after exactly the elements that belong before it. */
  function Rank<K>(keys: seq<K>, gt: (K, K) -> bool, i: int): nat
    requires 0 <= i < |keys|
  {
    |Ahead(keys, gt, i)|
  }

  /** Ranks compare as the elements do. */
  lemma BeforeRanks<K(!new)>(keys: seq<K>, gt: (K, K) -> bool, i: int, j: int)
    requires StrictWeak(gt) && 0 <= i < |keys| && 0 <= j < |keys| && i != j && Before(keys, gt, i, j)
    ensures Rank(keys, gt, i) < Rank(keys, gt, j)
  {
    var a, b := Ahead(keys, gt, i), Ahead(keys, gt, j);
    assert i in b && i !in a;
    forall k | k in a ensures k in b {
      assert Before(keys, gt, k, i);
    }
    CardMonotone(a, b - {i});
  }

  lemma {:induction false} PrefixCard<K(!new)>(keys: seq<K>, gt: (K, K) -> bool, p: seq<int>, a: nat)
    requires StrictWeak(gt) && Sorted(keys, gt, p) && a <= |p|
    ensures |Elements(p[..a])| == a
  {
    if a == 0 {
      assert Elements(p[..0]) == {};
    } else {
      PrefixCard(keys, gt, p, a - 1);
      forall b | 0 <= b < a - 1 ensures p[b] != p[a - 1] {
        assert Before(keys, gt, p[b], p[a - 1]);
      }
      assert p[a - 1] !in Elements(p[..a - 1]);
      assert Elements(p[..a]) == Elements(p[..a - 1]) + {p[a - 1]};
    }
  }

  /** In every stable descending order each element stands at its rank. */
  lemma OrderPlaces<K(!new)>(keys: seq<K>, gt: (K, K) -> bool, p: seq<int>, a: nat)
    requires StrictWeak(gt) && IsOrder(keys, gt, p) && a < |p|
    ensures Rank(keys, gt, p[a]) == a
  {
    var i := p[a];
    forall j | j in Ahead(keys, gt, i) ensures j in Elements(p[..a]) {
      assert j in p;
      var b :| 0 <= b < |p| && p[b] == j;
      assert b < a && p[..a][b] == j;
    }
    forall b | 0 <= b < a ensures p[b] in Ahead(keys, gt, i) {}
    assert Ahead(keys, gt, i) == Elements(p[..a]);
    PrefixCard(keys, gt, p, a);
  }

  /** Ranks are places: an order puts element `i` at place `Rank(i)`. */
  lemma RankPlaces<K(!new)>(keys: seq<K>, gt: (K, K) -> bool, p: seq<int>, i: int)
    requires StrictWeak(gt) && IsOrder(keys, gt, p) && 0 <= i < |keys|
    ensures Rank(keys, gt, i) < |p| && p[Rank(keys, gt, i)] == i
  {
    assert i in p;
    var a :| 0 <= a < |p| && p[a] == i;
    OrderPlaces(keys, gt, p, a);
  }

  /** There is exactly one stable descending order. */
  lemma OrderUnique<K(!new)>(keys: seq<K>, gt: (K, K) -> bool, p: seq<int>)
    requires StrictWeak(gt) && IsOrder(keys, gt, p)
    ensures p == Order(keys, gt)
  {
    var q := Order(keys, gt);
    OrderIsOrder(keys, gt);
    forall a | 0 <= a < |p| ensures p[a] == q[a] {
      OrderPlaces(keys, gt, p, a);
      RankPlaces(keys, gt, q, p[a]);
    }
  }

  function Permute<T>(items: seq<T>, p: seq<int>): (r: seq<T>)
    requires forall a :: 0 <= a < |p| ==> 0 <= p[a] < |items|
    ensures |r| == |p| && forall a :: 0 <= a < |p| ==> r[a] == items[p[a]]
  {
    if p == [] then [] else [items[p[0]]] + Permute(items, p[1..])
  }

  /** `items` sorted, stably and in descending order, by `keys`. */
  function SortDesc<T, K>(items: seq<T>, keys: seq<K>, gt: (K, K) -> bool): seq<T>
    requires |items| == |keys|
  {
    Permute(items, Order(keys, gt))
  }

  /** The sort loses and invents nothing. */
  lemma SortPermutes<T, K>(items: seq<T>, keys: seq<K>, gt: (K, K) -> bool)
    requires |items| == |keys|
    ensures multiset(SortDesc(items, keys, gt)) == multiset(items)
  {
    PermutePicks(items, Order(keys, gt));
    OrderPicks(items, keys, gt, |items|);
    FirstNIsPrefix(items, |items|);
    assert items[..|items|] == items;
  }

  /** It puts each element at its rank. */
  lemma SortPlaces<T, K(!new)>(items: seq<T>, keys: seq<K>, gt: (K, K) -> bool, i: int)
    requires StrictWeak(gt) && |items| == |keys| && 0 <= i < |items|
    ensures var r := SortDesc(items, keys, gt);
            |r| == |items| && Rank(keys, gt, i) < |r| && r[Rank(keys, gt, i)] == items[i]
  {
    OrderIsOrder(keys, gt);
    RankPlaces(keys, gt, Order(keys, gt), i);
  }

  /** Keys never increase along it. */
  lemma SortDescends<T, K(!new)>(items: seq<T>, keys: seq<K>, gt: (K, K) -> bool, a: int, b: int)
    returns (i: int, j: int)
    requires StrictWeak(gt) && |items| == |keys| && 0 <= a < b < |items|
    ensures var r := SortDesc(items, keys, gt);
            && |r| == |items| && 0 <= i < |items| && 0 <= j < |items|
            && r[a] == items[i] && r[b] == items[j] && !gt(keys[j], keys[i])
  {
    OrderIsOrder(keys, gt);
    i, j := Order(keys, gt)[a], Order(keys, gt)[b];
    assert Before(keys, gt, i, j);
  }

  lemma SortLength<T, K(!new)>(items: seq<T>, keys: seq<K>, gt: (K, K) -> bool)
    requires StrictWeak(gt) && |items| == |keys|
    ensures |SortDesc(items, keys, gt)| == |items|
  {
    OrderIsOrder(keys, gt);
  }

  /** What `p` picks from `items`. */
  function Picked<T>(items: seq<T>, p: seq<int>): multiset<T>
    requires forall a :: 0 <= a < |p| ==> 0 <= p[a] < |items|
  {
    if p == [] then multiset{} else multiset{items[p[0]]} + Picked(items, p[1..])
  }

  lemma {:induction false} PermutePicks<T>(items: seq<T>, p: seq<int>)
    requires forall a :: 0 <= a < |p| ==> 0 <= p[a] < |items|
    ensures multiset(Permute(items, p)) == Picked(items, p)
  {
    if p != [] {
      PermutePicks(items, p[1..]);
    }
  }

  lemma {:induction false} InsertPicks<T, K>(items: seq<T>, keys: seq<K>, gt: (K, K) -> bool, p: seq<int>, i: int)
    requires |items| == |keys| && 0 <= i < |keys| && forall a :: 0 <= a < |p| ==> 0 <= p[a] < |keys|
    ensures Picked(items, Insert(keys, gt, p, i)) == Picked(items, p) + multiset{items[i]}
    decreases |p|
  {
    if p == [] || Before(keys, gt, i, p[0]) {
      assert ([i] + p)[1..] == p;
    } else {
      InsertPicks(items, keys, gt, p[1..], i);
      assert Insert(keys, gt, p, i)[1..] == Insert(keys, gt, p[1..], i);
    }
  }

  function FirstN<T>(items: seq<T>, n: nat): multiset<T>
    requires n <= |items|
  {
    if n == 0 then multiset{} else FirstN(items, n - 1) + multiset{items[n - 1]}
  }

  lemma PickedNone<T>(items: seq<T>)
    ensures Picked(items, []) == FirstN(items, 0)
  {}

  lemma InsertPicksNext<T, K>(items: seq<T>, keys: seq<K>, gt: (K, K) -> bool, p: seq<int>, n: nat)
    requires |items| == |keys| && 0 < n <= |keys| && forall a :: 0 <= a < |p| ==> 0 <= p[a] < |keys|
    requires Picked(items, p) == FirstN(items, n - 1)
    ensures Picked(items, Insert(keys, gt, p, n - 1)) == FirstN(items, n)
  {
    hide Insert, Picked;
    InsertPicks(items, keys, gt, p, n - 1);
  }

  lemma {:induction false} OrderPicks<T, K>(items: seq<T>, keys: seq<K>, gt: (K, K) -> bool, n: nat)
    requires |items| == |keys| && n <= |items|
    ensures Picked(items, OrderUpTo(keys, gt, n)) == FirstN(items, n)
    decreases n
  {
    hide Insert, Picked, FirstN;
    if n == 0 {
      PickedNone(items);
    } else {
      OrderPicks(items, keys, gt, n - 1);
      InsertPicksNext(items, keys, gt, OrderUpTo(keys, gt, n - 1), n);
    }
  }

  lemma {:induction false} FirstNIsPrefix<T>(items: seq<T>, n: nat)
    requires n <= |items|
    ensures FirstN(items, n) == multiset(items[..n])
    decreases n
  {
    if n > 0 {
      FirstNIsPrefix(items, n - 1);
      assert items[..n] == items[..n - 1] + [items[n - 1]];
    }
  }

  /** Comparing real scores. */
  const Greater: (real, real) -> bool := (x, y) => x > y

  lemma GreaterIsStrictWeak()
    ensures StrictWeak(Greater)
  {}
}
