/** Facts about the size of finite sets that several components need. */
module Sets {

  lemma {:induction false} CardMonotone<T>(a: set<T>, b: set<T>)
    requires a <= b
    ensures |a| <= |b|
  {
    if a != {} {
      var x :| x in a;
      CardMonotone(a - {x}, b - {x});
    }
  }

  lemma {:induction false} CardUnion<T>(a: set<T>, b: set<T>)
    ensures |a + b| <= |a| + |b|
  {}

  /** The integers in `[lo, hi)`. */
  function Range(lo: int, hi: int): (r: set<int>)
    ensures forall i :: i in r <==> lo <= i < hi
    decreases hi - lo
  {
    if lo >= hi then {} else Range(lo, hi - 1) + {hi - 1}
  }

  lemma {:induction false} RangeCard(lo: int, hi: int)
    requires lo <= hi
    ensures |Range(lo, hi)| == hi - lo
    decreases hi - lo
  {
    if lo < hi {
      RangeCard(lo, hi - 1);
      assert hi - 1 !in Range(lo, hi - 1);
    }
  }

  lemma Pick<T>(a: set<T>) returns (x: T)
    requires a != {}
    ensures x in a
  {
    x :| x in a;
  }

  lemma {:induction false} Maximum(a: set<int>) returns (j: int)
    requires a != {}
    ensures j in a && forall i :: i in a ==> i <= j
  {
    j := Pick(a);
    var rest := a - {j};
    if rest != {} {
      var k := Maximum(rest);
      assert forall i :: i in a ==> i == j || i in rest;
      if k > j { j := k; }
    } else {
      assert a == {j};
    }
  }

  lemma {:induction false} Minimum(a: set<int>) returns (j: int)
    requires a != {}
    ensures j in a && forall i :: i in a ==> j <= i
  {
    j := Pick(a);
    var rest := a - {j};
    if rest != {} {
      var k := Minimum(rest);
      assert forall i :: i in a ==> i == j || i in rest;
      if k < j { j := k; }
    } else {
      assert a == {j};
    }
  }
}
