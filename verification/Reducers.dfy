/** The reducers that merge state channels where parallel branches join. */
module Reducers {

  /**
   * A Python value as the reducers see it.  Integers and floats are both `Num`; every other
   * scalar is an `Other`; containers are told apart by kind and contents.
   */
  datatype Kind = Str | List | Dict | Tuple | Set
  datatype Value =
    | NoneValue
    | Bool(b: bool)
    | Num(n: real)
    | Container(kind: Kind, items: seq<int>)
    | Other(id: int)

  /** Python's `==`: booleans equal the numbers 0 and 1, everything else compares structurally. */
  predicate PyEq(x: Value, y: Value) {
    x == y || (x.Bool? && y == Num(if x.b then 1.0 else 0.0)) || (y.Bool? && x == Num(if y.b then 1.0 else 0.0))
  }

  predicate IsZero(v: Value) {
    v == NoneValue || v == Bool(false) || (v.Container? && v.items == [])
  }

  function KeepFirst(left: Value, right: Value): Value {
    if IsZero(left) then right
    else if IsZero(right) then left
    else left
  }

  function PreferPopulated(left: Value, right: Value): Value {
    if PyEq(left, right) then left
    else if IsZero(right) then left
    else if IsZero(left) then right
    else right
  }

  function LatestValue(left: Value, right: Value): Value {
    right
  }

  /** A channel counts as unset, so that the first reducer lets any write through, exactly if it holds
      None, False or an empty string or container. */
  lemma UnsetExactly(v: Value)
    ensures (forall w :: KeepFirst(v, w) == w) <==>
              v == NoneValue || v == Bool(false) || (v.Container? && v.items == [])
  {
    assert KeepFirst(v, Num(1.0)) == Num(1.0) || KeepFirst(v, Num(1.0)) == v;
    assert KeepFirst(v, Num(2.0)) == Num(2.0) || KeepFirst(v, Num(2.0)) == v;
  }

  /** The documentation counts the number 0 as empty; the code does not, so 0 overwrites. */
  lemma ZeroCounterOverwrites(n: real)
    requires n != 0.0
    ensures !IsZero(Num(0.0)) && PreferPopulated(Num(n), Num(0.0)) == Num(0.0)
    ensures KeepFirst(Num(0.0), Num(n)) == Num(0.0)
  {}

  /** A write of 0 is ignored, as documented, exactly if the channel holds something equal to 0 already. */
  lemma ZeroIgnoredExactly(left: Value)
    ensures PreferPopulated(left, Num(0.0)) == left <==> PyEq(left, Num(0.0))
  {}

  /** The two ways to join three writes give equal values exactly unless False and then the number 0
      follow a value that does not itself equal 0. */
  lemma PreferPopulatedAssociativeExactly(a: Value, b: Value, c: Value)
    ensures PyEq(PreferPopulated(PreferPopulated(a, b), c), PreferPopulated(a, PreferPopulated(b, c)))
            <==> !(b == Bool(false) && c == Num(0.0) && !PyEq(a, Num(0.0)))
  {}

  lemma KeepFirstAssociative(a: Value, b: Value, c: Value)
    ensures KeepFirst(KeepFirst(a, b), c) == KeepFirst(a, KeepFirst(b, c))
  {}

  // ----- a whole join -----

  function Fold(f: (Value, Value) -> Value, init: Value, writes: seq<Value>): Value {
    if writes == [] then init else f(Fold(f, init, writes[..|writes| - 1]), writes[|writes| - 1])
  }

  /** The first and the last write that is not a zero value. */
  function FirstNonZero(writes: seq<Value>): (r: Value)
    ensures IsZero(r) ==> r == NoneValue
  {
    if writes == [] then NoneValue else if !IsZero(writes[0]) then writes[0] else FirstNonZero(writes[1..])
  }

  function LastNonZero(writes: seq<Value>): (r: Value)
    ensures IsZero(r) ==> r == NoneValue
  {
    if writes == [] then NoneValue
    else if !IsZero(writes[|writes| - 1]) then writes[|writes| - 1]
    else LastNonZero(writes[..|writes| - 1])
  }

  lemma {:induction false} FirstNonZeroAppend(writes: seq<Value>, w: Value)
    ensures FirstNonZero(writes + [w])
         == if !IsZero(FirstNonZero(writes)) then FirstNonZero(writes) else if IsZero(w) then NoneValue else w
  {
    if writes == [] {
      assert ([] + [w])[1..] == [];
      assert [] + [w] == [w];
    } else {
      FirstNonZeroAppend(writes[1..], w);
      assert (writes + [w])[1..] == writes[1..] + [w];
    }
  }

  /** Folding `_keep_first` yields the first non-zero write, the initial value included. */
  lemma {:induction false} KeepFirstFold(init: Value, writes: seq<Value>)
    ensures var r := Fold(KeepFirst, init, writes);
            var first := FirstNonZero([init] + writes);
            (IsZero(first) ==> IsZero(r)) && (!IsZero(first) ==> r == first)
  {
    if writes == [] {
      assert [init] + writes == [init] && [init][1..] == [];
    } else {
      var before := writes[..|writes| - 1];
      KeepFirstFold(init, before);
      FirstNonZeroAppend([init] + before, writes[|writes| - 1]);
      assert [init] + writes == [init] + before + [writes[|writes| - 1]];
    }
  }

  /** No two values of one channel are equal without being the same: its type keeps booleans and
      numbers apart. */
  ghost predicate OneType(init: Value, writes: seq<Value>) {
    forall x, y :: (x == init || x in writes) && (y == init || y in writes) && PyEq(x, y) ==> x == y
  }

  /** Within one channel type, folding `_prefer_populated` yields the last non-zero write. */
  lemma {:induction false} PreferPopulatedFold(init: Value, writes: seq<Value>)
    requires OneType(init, writes)
    ensures var r := Fold(PreferPopulated, init, writes);
            var last := LastNonZero([init] + writes);
            (r == init || r in writes) && (IsZero(last) ==> IsZero(r)) && (!IsZero(last) ==> r == last)
  {
    if writes == [] {
      assert [init] + writes == [init] && [init][..0] == [];
    } else {
      var before, w := writes[..|writes| - 1], writes[|writes| - 1];
      PreferPopulatedFold(init, before);
      assert ([init] + writes)[..|writes|] == [init] + before;
      assert w in writes;
    }
  }

  predicate AtMostOneNonZero(writes: seq<Value>) {
    forall i, j :: 0 <= i < j < |writes| ==> IsZero(writes[i]) || IsZero(writes[j])
  }

  lemma {:induction false} SoleNonZero(writes: seq<Value>)
    requires AtMostOneNonZero(writes)
    ensures FirstNonZero(writes) == LastNonZero(writes)
    ensures forall w :: w in writes && !IsZero(w) ==> FirstNonZero(writes) == w
    ensures !IsZero(FirstNonZero(writes)) ==> FirstNonZero(writes) in writes
  {
    if writes != [] {
      var before, w := writes[..|writes| - 1], writes[|writes| - 1];
      SoleNonZero(before);
      FirstNonZeroAppend(before, w);
      assert writes == before + [w];
    }
  }

  lemma {:induction false} PermutedSole(writes: seq<Value>, other: seq<Value>)
    requires multiset(writes) == multiset(other) && AtMostOneNonZero(writes)
    ensures AtMostOneNonZero(other)
  {
    forall i, j | 0 <= i < j < |other| ensures IsZero(other[i]) || IsZero(other[j]) {
      if !IsZero(other[i]) && !IsZero(other[j]) {
        TwoIn(other, i, j);
        var both := multiset{other[i], other[j]};
        assert both <= multiset(writes);
        var _, _ := TwoOut(writes, other[i], other[j]);
      }
    }
  }

  lemma TwoIn(s: seq<Value>, i: int, j: int)
    requires 0 <= i < j < |s|
    ensures multiset{s[i], s[j]} <= multiset(s)
  {
    assert s == s[..i] + [s[i]] + s[i + 1..j] + [s[j]] + s[j + 1..];
  }

  lemma TwoOut(s: seq<Value>, x: Value, y: Value) returns (i: int, j: int)
    requires multiset{x, y} <= multiset(s)
    ensures 0 <= i < |s| && 0 <= j < |s| && i != j && s[i] == x && s[j] == y
  {
    assert x in multiset(s);
    i :| 0 <= i < |s| && s[i] == x;
    j := AlsoIn(s, i, y);
  }

  lemma AlsoIn(s: seq<Value>, i: int, y: Value) returns (j: int)
    requires 0 <= i < |s| && multiset{s[i], y} <= multiset(s)
    ensures 0 <= j < |s| && i != j && s[j] == y
  {
    var rest := s[..i] + s[i + 1..];
    AllBut(s, i);
    assert y in multiset(rest);
    var k :| 0 <= k < |rest| && rest[k] == y;
    j := if k < i then k else k + 1;
  }

  lemma AllBut(s: seq<Value>, i: int)
    requires 0 <= i < |s|
    ensures multiset(s) == multiset(s[..i] + s[i + 1..]) + multiset{s[i]}
  {
    assert s == s[..i] + [s[i]] + s[i + 1..];
  }

  /**
   * When the channel and its parallel writes hold at most one non-zero value between them, the
   * order in which the branches are joined does not matter: both reducers give that value, or a
   * zero value if there is none.
   */
  lemma JoinOrderIrrelevant(init: Value, writes: seq<Value>, other: seq<Value>)
    requires multiset(writes) == multiset(other)
    requires AtMostOneNonZero([init] + writes) && OneType(init, writes)
    ensures var kept, kept' := Fold(KeepFirst, init, writes), Fold(KeepFirst, init, other);
            kept == kept' || (IsZero(kept) && IsZero(kept'))
    ensures var latest, latest' := Fold(PreferPopulated, init, writes), Fold(PreferPopulated, init, other);
            latest == latest' || (IsZero(latest) && IsZero(latest'))
  {
    forall x ensures x in writes <==> x in other {
      assert x in multiset(writes) <==> x in multiset(other);
    }
    assert multiset([init] + writes) == multiset([init] + other);
    PermutedSole([init] + writes, [init] + other);
    SoleNonZero([init] + writes);
    SoleNonZero([init] + other);
    KeepFirstFold(init, writes);
    KeepFirstFold(init, other);
    PreferPopulatedFold(init, writes);
    PreferPopulatedFold(init, other);
  }

  /**
   * Why control flags need the third reducer: whatever was written before, a final False takes
   * effect there, while `_prefer_populated` never notices it.
   */
  lemma FlagReset(init: Value, writes: seq<Value>)
    ensures Fold(LatestValue, init, writes + [Bool(false)]) == Bool(false)
    ensures Fold(PreferPopulated, init, writes + [Bool(false)]) == Fold(PreferPopulated, init, writes)
  {
    assert (writes + [Bool(false)])[..|writes|] == writes;
  }
}
