/** The in-memory fallback: a least-recently-used cache with a time-to-live per entry. */
module MemoryLru {
  import opened Sets
  import opened Wrappers

  type Bytes = seq<int>

  datatype Entry = Entry(value: Bytes, at: real, ttl: int)

  predicate Expired(e: Entry, now: real) {
    now - e.at > e.ttl as real
  }

  /** An ordered dict: `order` lists the keys of `entries`, least recently touched first. */
  datatype Lru = Lru(maxsize: nat, order: seq<string>, entries: map<string, Entry>)

  ghost predicate Proper(s: Lru) {
    && (forall i, j :: 0 <= i < j < |s.order| ==> s.order[i] != s.order[j])
    && (forall k :: k in s.order <==> k in s.entries)
  }

  ghost predicate Valid(s: Lru) {
    Proper(s) && |s.order| <= s.maxsize
  }

  function Without(order: seq<string>, k: string): seq<string> {
    if order == [] then []
    else if order[0] == k then Without(order[1..], k)
    else [order[0]] + Without(order[1..], k)
  }

  lemma {:induction false} WithoutSpec(order: seq<string>, k: string)
    requires forall i, j :: 0 <= i < j < |order| ==> order[i] != order[j]
    ensures var r := Without(order, k);
      && (forall x :: x in r <==> x in order && x != k)
      && (forall i, j :: 0 <= i < j < |r| ==> r[i] != r[j])
      && |r| == |order| - (if k in order then 1 else 0)
  {
    if order != [] {
      assert order == [order[0]] + order[1..];
      WithoutSpec(order[1..], k);
      assert forall j :: 0 < j < |order| ==> order[0] != order[j];
      assert order[0] !in order[1..];
    }
  }

  function Remove(s: Lru, k: string): Lru {
    s.(order := Without(s.order, k), entries := s.entries - {k})
  }

  function MoveToEnd(s: Lru, k: string): Lru {
    s.(order := Without(s.order, k) + [k])
  }

  function Lookup(s: Lru, k: string, now: real): (Lru, Option<Bytes>) {
    if k !in s.entries then (s, None)
    else if Expired(s.entries[k], now) then (Remove(s, k), None)
    else (MoveToEnd(s, k), Some(s.entries[k].value))
  }

  /** Pops the front until the size fits. */
  function Trim(s: Lru): Lru
    decreases |s.order|
  {
    if |s.order| <= s.maxsize || s.order == [] then s
    else Trim(s.(order := s.order[1..], entries := s.entries - {s.order[0]}))
  }

  function Put(s: Lru, k: string, e: Entry): Lru {
    MoveToEnd(s, k).(entries := s.entries[k := e])
  }

  function Store(s: Lru, k: string, e: Entry): Lru {
    Trim(Put(s, k, e))
  }

  function Drop(s: Lru, k: string): Lru {
    if k in s.entries then Remove(s, k) else s
  }

  function RemoveAll(s: Lru, ks: seq<string>): Lru
    decreases |ks|
  {
    if ks == [] then s else RemoveAll(Remove(s, ks[0]), ks[1..])
  }

  function ExpiredKeys(order: seq<string>, entries: map<string, Entry>, now: real): seq<string> {
    if order == [] then []
    else if order[0] in entries && Expired(entries[order[0]], now)
    then [order[0]] + ExpiredKeys(order[1..], entries, now)
    else ExpiredKeys(order[1..], entries, now)
  }

  function Purge(s: Lru, now: real): Lru {
    RemoveAll(s, ExpiredKeys(s.order, s.entries, now))
  }

  // ----- what each operation keeps -----

  lemma RemoveProper(s: Lru, k: string)
    requires Proper(s)
    ensures Proper(Remove(s, k)) && |Remove(s, k).order| <= |s.order|
  {
    WithoutSpec(s.order, k);
  }

  lemma MoveToEndProper(s: Lru, k: string)
    requires Proper(s) && k in s.entries
    ensures Proper(MoveToEnd(s, k)) && |MoveToEnd(s, k).order| == |s.order|
  {
    WithoutSpec(s.order, k);
  }

  lemma PutProper(s: Lru, k: string, e: Entry)
    requires Proper(s)
    ensures Proper(Put(s, k, e)) && |Put(s, k, e).order| <= |s.order| + 1
  {
    WithoutSpec(s.order, k);
  }

  lemma PopProper(s: Lru)
    requires Proper(s) && s.order != []
    ensures Proper(s.(order := s.order[1..], entries := s.entries - {s.order[0]}))
  {}

  /** After a set, at most one key has been evicted: the least recently touched. */
  lemma SetValid(s: Lru, k: string, e: Entry)
    requires Valid(s)
    ensures Valid(Store(s, k, e))
    ensures var p := Put(s, k, e);
      Store(s, k, e) == (if |p.order| <= s.maxsize then p
                       else p.(order := p.order[1..], entries := p.entries - {p.order[0]}))
  {
    PutProper(s, k, e);
    var p := Put(s, k, e);
    if |p.order| > s.maxsize {
      PopProper(p);
      var popped := p.(order := p.order[1..], entries := p.entries - {p.order[0]});
      assert Trim(popped) == popped;
      assert Trim(p) == Trim(popped);
    }
  }

  lemma {:induction false} RemoveAllSpec(s: Lru, ks: seq<string>)
    requires Proper(s)
    ensures var r := RemoveAll(s, ks);
      && Proper(r) && |r.order| <= |s.order| && r.maxsize == s.maxsize
      && r.entries == map k | k in s.entries && k !in ks :: s.entries[k]
    decreases |ks|
  {
    if ks != [] {
      RemoveProper(s, ks[0]);
      RemoveAllSpec(Remove(s, ks[0]), ks[1..]);
      assert ks == [ks[0]] + ks[1..];
    }
  }

  lemma {:induction false} ExpiredKeysSpec(order: seq<string>, entries: map<string, Entry>, now: real)
    ensures forall k :: k in ExpiredKeys(order, entries, now)
                        <==> k in order && k in entries && Expired(entries[k], now)
  {
    if order != [] {
      ExpiredKeysSpec(order[1..], entries, now);
      assert order == [order[0]] + order[1..];
    }
  }

  /** Purging removes exactly the expired entries. */
  lemma PurgeSpec(s: Lru, now: real)
    requires Proper(s)
    ensures Proper(Purge(s, now)) && |Purge(s, now).order| <= |s.order|
    ensures Purge(s, now).entries
         == map k | k in s.entries && now - s.entries[k].at <= s.entries[k].ttl as real :: s.entries[k]
  {
    ExpiredKeysSpec(s.order, s.entries, now);
    RemoveAllSpec(s, ExpiredKeys(s.order, s.entries, now));
  }

  // ----- runs, and the unbounded cache they are measured against -----

  datatype Op =
    | DoSet(key: string, value: Bytes, now: real, ttl: int)
    | DoGet(key: string, now: real)
    | DoDelete(key: string)
    | DoPurge(now: real)

  function Apply(s: Lru, op: Op): Lru {
    match op
    case DoSet(k, v, now, ttl) => Store(s, k, Entry(v, now, ttl))
    case DoGet(k, now) => Lookup(s, k, now).0
    case DoDelete(k) => Drop(s, k)
    case DoPurge(now) => Purge(s, now)
  }

  /** The same operation on a cache that never evicts. */
  function ApplyUnbounded(full: map<string, Entry>, op: Op): map<string, Entry> {
    match op
    case DoSet(k, v, now, ttl) => full[k := Entry(v, now, ttl)]
    case DoGet(k, now) => if k in full && Expired(full[k], now) then full - {k} else full
    case DoDelete(k) => full - {k}
    case DoPurge(now) => map k | k in full && !Expired(full[k], now) :: full[k]
  }

  /** The key an operation touches: the one it sets, or the one it finds alive. */
  function Touched(s: Lru, op: Op): Option<string> {
    match op
    case DoSet(k, _, _, _) => Some(k)
    case DoGet(k, now) => if Lookup(s, k, now).1.Some? then Some(k) else None
    case _ => None
  }

  /** `others[k]` are the distinct other keys touched since `k` was last touched. */
  datatype Tracked = Tracked(lru: Lru, full: map<string, Entry>, others: map<string, set<string>>)

  function Track(t: Tracked, op: Op): Tracked {
    var full := ApplyUnbounded(t.full, op);
    var touched := Touched(t.lru, op);
    Tracked(Apply(t.lru, op), full,
            map k | k in full ::
              if touched.None? then Others(t, k)
              else if touched.value == k then {}
              else Others(t, k) + {touched.value})
  }

  function Others(t: Tracked, k: string): set<string> {
    if k in t.others then t.others[k] else {}
  }

  function Run(maxsize: nat, ops: seq<Op>): Tracked {
    if ops == [] then Tracked(Lru(maxsize, [], map[]), map[], map[])
    else Track(Run(maxsize, ops[..|ops| - 1]), ops[|ops| - 1])
  }

  /** `x` was touched longer ago than `y`. */
  ghost predicate Precedes(order: seq<string>, x: string, y: string) {
    exists i, j :: 0 <= i < j < |order| && order[i] == x && order[j] == y
  }

  /** Every key stored behind another has been touched since that other was. */
  ghost predicate OrderTracked(t: Tracked) {
    forall x, y :: Precedes(t.lru.order, x, y) ==> y in Others(t, x)
  }

  /** The store agrees with the unbounded cache, which it may only fall short of by eviction. */
  ghost predicate Agrees(t: Tracked) {
    && (forall k :: k in t.lru.entries ==> k in t.full && t.full[k] == t.lru.entries[k])
    && (forall k :: k in t.full && k !in t.lru.entries ==> |Others(t, k)| >= t.lru.maxsize)
  }

  ghost predicate Inv(t: Tracked) {
    Valid(t.lru) && OrderTracked(t) && Agrees(t)
  }

  lemma {:induction false} WithoutPrecedes(order: seq<string>, k: string, x: string, y: string)
    requires Precedes(Without(order, k), x, y)
    ensures Precedes(order, x, y) && x != k && y != k
  {
    var r := Without(order, k);
    var i, j :| 0 <= i < j < |r| && r[i] == x && r[j] == y;
    if order[0] == k {
      WithoutPrecedes(order[1..], k, x, y);
      PrecedesTail(order, x, y);
    } else if i > 0 {
      assert r[1..] == Without(order[1..], k);
      assert r[1..][i - 1] == x && r[1..][j - 1] == y;
      WithoutPrecedes(order[1..], k, x, y);
      PrecedesTail(order, x, y);
    } else {
      assert r[1..][j - 1] == y;
      WithoutMembers(order[1..], k);
      assert y in order[1..];
      var m :| 0 <= m < |order[1..]| && order[1..][m] == y;
      assert order[m + 1] == y;
    }
  }

  lemma {:induction false} WithoutMembers(order: seq<string>, k: string)
    ensures forall x :: x in Without(order, k) <==> x in order && x != k
  {
    if order != [] {
      assert order == [order[0]] + order[1..];
      WithoutMembers(order[1..], k);
    }
  }

  lemma PrecedesTail(order: seq<string>, x: string, y: string)
    requires order != [] && Precedes(order[1..], x, y)
    ensures Precedes(order, x, y)
  {}

  lemma MovedPrecedes(s: Lru, k: string, x: string, y: string)
    requires Proper(s) && Precedes(MoveToEnd(s, k).order, x, y)
    ensures x != k && (y == k || Precedes(s.order, x, y))
  {
    var w := Without(s.order, k);
    var r := w + [k];
    WithoutSpec(s.order, k);
    var i, j :| 0 <= i < j < |r| && r[i] == x && r[j] == y;
    assert r[i] == w[i] && w[i] in w;
    if j < |w| {
      assert Precedes(w, x, y);
      WithoutPrecedes(s.order, k, x, y);
    }
  }

  lemma GrowOthers(t: Tracked, op: Op, k: string)
    requires k in t.others && k in ApplyUnbounded(t.full, op) && Touched(t.lru, op) != Some(k)
    ensures Others(t, k) <= Others(Track(t, op), k) && |Others(t, k)| <= |Others(Track(t, op), k)|
  {
    CardMonotone(Others(t, k), Others(Track(t, op), k));
  }

  /** A touch moves the key behind all others, and every other key takes note. */
  lemma TouchTracks(t: Tracked, op: Op, k: string, moved: Lru)
    requires Inv(t) && Touched(t.lru, op) == Some(k) && moved.order == MoveToEnd(t.lru, k).order
    requires forall x :: x in moved.order ==> x in ApplyUnbounded(t.full, op)
    ensures forall x, y :: Precedes(moved.order, x, y) ==> y in Others(Track(t, op), x)
  {
    forall x, y | Precedes(moved.order, x, y) ensures y in Others(Track(t, op), x) {
      MovedPrecedes(t.lru, k, x, y);
      assert x in moved.order;
    }
  }

  lemma GetKeeps(t: Tracked, k: string, now: real)
    requires Inv(t) && t.others.Keys == t.full.Keys
    ensures Inv(Track(t, DoGet(k, now)))
  {
    var op := DoGet(k, now);
    var t' := Track(t, op);
    if Touched(t.lru, op).Some? {
      MoveToEndProper(t.lru, k);
      TouchTracks(t, op, k, t'.lru);
      forall x | x in t'.full && x !in t'.lru.entries ensures |Others(t', x)| >= t'.lru.maxsize {
        GrowOthers(t, op, x);
      }
    } else {
      RemovedKeeps(t, op, k);
    }
  }

  /** Forgetting keys on both sides keeps everything. */
  lemma RemovedKeeps(t: Tracked, op: Op, k: string)
    requires Inv(t) && t.others.Keys == t.full.Keys
    requires op == DoDelete(k) || (op.DoGet? && op.key == k && Touched(t.lru, op).None?)
    ensures Inv(Track(t, op))
  {
    var t' := Track(t, op);
    RemoveProper(t.lru, k);
    RemovedEvicted(t, op, k);
    forall x, y | Precedes(t'.lru.order, x, y) ensures y in Others(t', x) {
      if t'.lru != t.lru {
        WithoutPrecedes(t.lru.order, k, x, y);
      }
      assert x in t'.lru.order;
    }
  }

  lemma RemovedEvicted(t: Tracked, op: Op, k: string)
    requires Inv(t) && t.others.Keys == t.full.Keys
    requires op == DoDelete(k) || (op.DoGet? && op.key == k && Touched(t.lru, op).None?)
    ensures var t' := Track(t, op);
      forall x :: x in t'.full && x !in t'.lru.entries ==> |Others(t', x)| >= t'.lru.maxsize
  {}

  lemma {:induction false} RemoveAllPrecedes(s: Lru, ks: seq<string>, x: string, y: string)
    requires Precedes(RemoveAll(s, ks).order, x, y)
    ensures Precedes(s.order, x, y)
    decreases |ks|
  {
    if ks != [] {
      RemoveAllPrecedes(Remove(s, ks[0]), ks[1..], x, y);
      WithoutPrecedes(s.order, ks[0], x, y);
    }
  }

  lemma PurgeKeeps(t: Tracked, now: real)
    requires Inv(t) && t.others.Keys == t.full.Keys
    ensures Inv(Track(t, DoPurge(now)))
  {
    var op := DoPurge(now);
    var t' := Track(t, op);
    PurgeSpec(t.lru, now);
    RemoveAllSpec(t.lru, ExpiredKeys(t.lru.order, t.lru.entries, now));
    forall x, y | Precedes(t'.lru.order, x, y) ensures y in Others(t', x) {
      RemoveAllPrecedes(t.lru, ExpiredKeys(t.lru.order, t.lru.entries, now), x, y);
      assert x in t'.lru.order;
    }
    forall x | x in t'.full && x !in t'.lru.entries ensures |Others(t', x)| >= t'.lru.maxsize {
      GrowOthers(t, op, x);
    }
  }

  lemma SetKeeps(t: Tracked, k: string, v: Bytes, now: real, ttl: int)
    requires Inv(t) && t.others.Keys == t.full.Keys
    ensures Inv(Track(t, DoSet(k, v, now, ttl)))
  {
    var op := DoSet(k, v, now, ttl);
    var t' := Track(t, op);
    var p := Put(t.lru, k, Entry(v, now, ttl));
    PutProper(t.lru, k, Entry(v, now, ttl));
    SetValid(t.lru, k, Entry(v, now, ttl));
    TouchTracks(t, op, k, p);
    forall x, y | Precedes(t'.lru.order, x, y) ensures y in Others(t', x) {
      if t'.lru != p {
        PrecedesTail(p.order, x, y);
      }
    }
    forall x | x in t'.full && x !in t'.lru.entries ensures |Others(t', x)| >= t'.lru.maxsize {
      if x in p.entries {
        assert x == p.order[0];
        EvictedIsStale(p, Others(t', x));
      } else {
        GrowOthers(t, op, x);
      }
    }
  }

  /** The evicted key has seen `maxsize` others go by. */
  lemma EvictedIsStale(p: Lru, others: set<string>)
    requires Proper(p) && |p.order| == p.maxsize + 1
    requires forall y :: Precedes(p.order, p.order[0], y) ==> y in others
    ensures |others| >= p.maxsize
  {
    var rest := set y | y in p.order[1..];
    DistinctCard(p.order[1..]);
    forall y | y in rest ensures y in others {
      var j :| 0 <= j < |p.order[1..]| && p.order[1..][j] == y;
      assert p.order[0] == p.order[0] && p.order[j + 1] == y;
    }
    CardMonotone(rest, others);
  }

  lemma {:induction false} DistinctCard(order: seq<string>)
    requires forall i, j :: 0 <= i < j < |order| ==> order[i] != order[j]
    ensures |set y | y in order| == |order|
  {
    if order == [] {
      assert (set y | y in order) == {};
    } else {
      var last := |order| - 1;
      DistinctCard(order[..last]);
      assert order == order[..last] + [order[last]];
      assert (set y | y in order) == (set y | y in order[..last]) + {order[last]};
      assert order[last] !in order[..last];
    }
  }

  /** Every run keeps the bound on size and the agreement with the unbounded cache. */
  lemma {:induction false} RunKeepsInv(maxsize: nat, ops: seq<Op>)
    ensures var t := Run(maxsize, ops); Inv(t) && t.others.Keys == t.full.Keys && t.lru.maxsize == maxsize
  {
    if ops != [] {
      var t, op := Run(maxsize, ops[..|ops| - 1]), ops[|ops| - 1];
      RunKeepsInv(maxsize, ops[..|ops| - 1]);
      match op {
        case DoSet(k, v, now, ttl) => SetKeeps(t, k, v, now, ttl); SetValid(t.lru, k, Entry(v, now, ttl));
        case DoGet(k, now) => GetKeeps(t, k, now);
        case DoDelete(k) => RemovedKeeps(t, op, k);
        case DoPurge(now) => PurgeKeeps(t, now); RemoveAllSpec(t.lru, ExpiredKeys(t.lru.order, t.lru.entries, now));
      }
    }
  }

  // ----- the history of a key -----

  /** The latest set of `k`, unless a delete of `k` came after it. */
  function LastWrite(ops: seq<Op>, k: string): Option<Entry> {
    if ops == [] then None else
    match ops[|ops| - 1]
    case DoSet(k', v, now, ttl) => if k' == k then Some(Entry(v, now, ttl)) else LastWrite(ops[..|ops| - 1], k)
    case DoDelete(k') => if k' == k then None else LastWrite(ops[..|ops| - 1], k)
    case _ => LastWrite(ops[..|ops| - 1], k)
  }

  predicate At(op: Op, limit: real) {
    op.DoDelete? || op.now <= limit
  }

  /** The unbounded cache holds exactly the latest writes that have not been seen expired. */
  lemma {:induction false} FullIsHistory(maxsize: nat, ops: seq<Op>, k: string, now: real)
    requires forall i :: 0 <= i < |ops| ==> At(ops[i], now)
    ensures var full := Run(maxsize, ops).full;
      && (k in full ==> LastWrite(ops, k) == Some(full[k]))
      && (LastWrite(ops, k).Some? && now - LastWrite(ops, k).value.at <= LastWrite(ops, k).value.ttl as real ==>
            k in full)
  {
    if ops != [] {
      FullIsHistory(maxsize, ops[..|ops| - 1], k, now);
    }
  }

  /**
   * History refinement of reads: at any time not before the operations, a read that hits returns
   * the latest value set for that key and not deleted since, no older than its time-to-live.
   */
  lemma HitIsLatestWrite(maxsize: nat, ops: seq<Op>, k: string, now: real)
    requires forall i :: 0 <= i < |ops| ==> At(ops[i], now)
    ensures var hit := Lookup(Run(maxsize, ops).lru, k, now).1;
            hit.Some? ==> var w := LastWrite(ops, k);
                          w.Some? && w.value.value == hit.value && now - w.value.at <= w.value.ttl as real
  {
    RunKeepsInv(maxsize, ops);
    FullIsHistory(maxsize, ops, k, now);
  }

  /**
   * Retention: a written, undeleted, unexpired key is found unless at least `maxsize` distinct
   * other keys have been set or hit since it was last set or hit.
   */
  lemma RetainedUnlessCrowdedOut(maxsize: nat, ops: seq<Op>, k: string, now: real)
    requires forall i :: 0 <= i < |ops| ==> At(ops[i], now)
    requires LastWrite(ops, k).Some? && now - LastWrite(ops, k).value.at <= LastWrite(ops, k).value.ttl as real
    requires |Others(Run(maxsize, ops), k)| < maxsize
    ensures Lookup(Run(maxsize, ops).lru, k, now).1 == Some(LastWrite(ops, k).value.value)
  {
    RunKeepsInv(maxsize, ops);
    FullIsHistory(maxsize, ops, k, now);
  }

  lemma NeverOverfull(maxsize: nat, ops: seq<Op>)
    ensures |Run(maxsize, ops).lru.order| <= maxsize && |Run(maxsize, ops).lru.entries| <= maxsize
  {
    RunKeepsInv(maxsize, ops);
    var s := Run(maxsize, ops).lru;
    DistinctCard(s.order);
    assert s.entries.Keys == set y | y in s.order;
    assert |s.entries| == |s.entries.Keys|;
  }

  // ----- from any state on -----

  function ApplyAll(s: Lru, ops: seq<Op>): Lru {
    if ops == [] then s else Apply(ApplyAll(s, ops[..|ops| - 1]), ops[|ops| - 1])
  }

  lemma {:induction false} ApplyAllConcat(s: Lru, a: seq<Op>, b: seq<Op>)
    ensures ApplyAll(s, a + b) == ApplyAll(ApplyAll(s, a), b)
    decreases |b|
  {
    if b == [] {
      assert a + b == a;
    } else {
      ApplyAllConcat(s, a, b[..|b| - 1]);
      assert (a + b)[..|a + b| - 1] == a + b[..|b| - 1];
    }
  }

  /** The operation neither replaces nor deletes the entry of `k`, nor finds it expired, and sets and
      gets only keys of `others` besides. */
  predicate Spares(op: Op, k: string, e: Entry, others: set<string>) {
    match op
    case DoSet(k', _, _, _) => k' != k && k' in others
    case DoGet(k', now) => if k' == k then now - e.at <= e.ttl as real else k' in others
    case DoDelete(k') => k' != k
    case DoPurge(now) => now - e.at <= e.ttl as real
  }

  /** The entry is there, and only keys of `others` have been touched since it was. */
  ghost predicate KeptBefore(s: Lru, k: string, e: Entry, others: set<string>) {
    && Valid(s) && k in s.entries && s.entries[k] == e
    && forall y :: Precedes(s.order, k, y) ==> y in others
  }

  lemma SparedSet(s: Lru, k: string, e: Entry, others: set<string>, k': string, e': Entry)
    requires KeptBefore(s, k, e, others) && |others| < s.maxsize && k' != k && k' in others
    ensures KeptBefore(Store(s, k', e'), k, e, others)
  {
    var p := Put(s, k', e');
    PutProper(s, k', e');
    SetValid(s, k', e');
    forall y | Precedes(p.order, k, y) ensures y in others {
      MovedPrecedes(s, k', k, y);
    }
    if |p.order| > s.maxsize {
      if p.order[0] == k {
        EvictedIsStale(p, others);
      }
      forall y | Precedes(p.order[1..], k, y) ensures y in others {
        PrecedesTail(p.order, k, y);
      }
    }
  }

  lemma SparedGet(s: Lru, k: string, e: Entry, others: set<string>, k': string, now: real)
    requires KeptBefore(s, k, e, others) && (if k' == k then now - e.at <= e.ttl as real else k' in others)
    ensures KeptBefore(Lookup(s, k', now).0, k, e, others)
  {
    if k' in s.entries && !Expired(s.entries[k'], now) {
      MoveToEndProper(s, k');
      forall y | Precedes(MoveToEnd(s, k').order, k, y) ensures y in others {
        MovedPrecedes(s, k', k, y);
      }
    } else if k' in s.entries {
      SparedRemove(s, k, e, others, k');
    }
  }

  lemma SparedRemove(s: Lru, k: string, e: Entry, others: set<string>, k': string)
    requires KeptBefore(s, k, e, others) && k' != k
    ensures KeptBefore(Remove(s, k'), k, e, others)
  {
    RemoveProper(s, k');
    forall y | Precedes(Remove(s, k').order, k, y) ensures y in others {
      WithoutPrecedes(s.order, k', k, y);
    }
  }

  lemma SparedPurge(s: Lru, k: string, e: Entry, others: set<string>, now: real)
    requires KeptBefore(s, k, e, others) && now - e.at <= e.ttl as real
    ensures KeptBefore(Purge(s, now), k, e, others)
  {
    PurgeSpec(s, now);
    RemoveAllSpec(s, ExpiredKeys(s.order, s.entries, now));
    forall y | Precedes(Purge(s, now).order, k, y) ensures y in others {
      RemoveAllPrecedes(s, ExpiredKeys(s.order, s.entries, now), k, y);
    }
  }

  lemma StoreMaxsize(s: Lru, k: string, e: Entry)
    requires Valid(s)
    ensures Store(s, k, e).maxsize == s.maxsize
  {
    SetValid(s, k, e);
  }

  /**
   * From any state on: an entry survives operations that spare it if they touch fewer than `maxsize`
   * distinct other keys since it was touched.
   */
  lemma {:induction false} SparedEntryStays(s: Lru, k: string, e: Entry, others: set<string>, ops: seq<Op>)
    requires KeptBefore(s, k, e, others) && |others| < s.maxsize
    requires forall i :: 0 <= i < |ops| ==> Spares(ops[i], k, e, others)
    ensures KeptBefore(ApplyAll(s, ops), k, e, others) && ApplyAll(s, ops).maxsize == s.maxsize
    decreases |ops|
  {
    hide KeptBefore, Purge, Store, Lookup;
    if ops != [] {
      var m, op := ApplyAll(s, ops[..|ops| - 1]), ops[|ops| - 1];
      SparedEntryStays(s, k, e, others, ops[..|ops| - 1]);
      KeptIsValid(m, k, e, others);
      match op {
        case DoSet(k', v, now, ttl) =>
          SparedSet(m, k, e, others, k', Entry(v, now, ttl));
          StoreMaxsize(m, k', Entry(v, now, ttl));
        case DoGet(k', now) => SparedGet(m, k, e, others, k', now); SameMaxsize(m, k', now);
        case DoDelete(k') => SparedRemove(m, k, e, others, k');
        case DoPurge(now) => SparedPurge(m, k, e, others, now); SameMaxsize(m, k, now);
      }
    }
  }

  lemma KeptIsValid(s: Lru, k: string, e: Entry, others: set<string>)
    requires KeptBefore(s, k, e, others)
    ensures Valid(s)
  {}

  lemma SameMaxsize(s: Lru, k: string, now: real)
    requires Valid(s)
    ensures Lookup(s, k, now).0.maxsize == s.maxsize && Purge(s, now).maxsize == s.maxsize
  {
    RemoveAllSpec(s, ExpiredKeys(s.order, s.entries, now));
  }

  /** Right after it was set an entry has seen no other key touched. */
  lemma JustStored(s: Lru, k: string, e: Entry)
    requires Valid(s) && s.maxsize >= 1
    ensures KeptBefore(Store(s, k, e), k, e, {})
  {
    var p := Put(s, k, e);
    SetValid(s, k, e);
    PutProper(s, k, e);
    assert p.order[|p.order| - 1] == k;
    forall y ensures !Precedes(p.order, k, y) {
      if Precedes(p.order, k, y) {
        MovedPrecedes(s, k, k, y);
      }
    }
    if |p.order| > s.maxsize {
      assert p.order[0] != k;
      forall y ensures !Precedes(p.order[1..], k, y) {
        if Precedes(p.order[1..], k, y) {
          PrecedesTail(p.order, k, y);
        }
      }
    }
  }

  // ----- purging is invisible -----

  /** `b` is `a` without some entries that had expired by `since`. */
  ghost predicate Purged(a: Lru, b: Lru, since: real) {
    && (forall k :: k in b.entries ==> k in a.entries && a.entries[k] == b.entries[k])
    && (forall k :: k in a.entries && k !in b.entries ==> Expired(a.entries[k], since))
  }

  function Outcomes(s: Lru, ops: seq<Op>): seq<Option<Bytes>>
    decreases |ops|
  {
    if ops == [] then [] else
    (if ops[0].DoGet? then [Lookup(s, ops[0].key, ops[0].now).1] else []) + Outcomes(Apply(s, ops[0]), ops[1..])
  }

  predicate ReadOnlyFrom(ops: seq<Op>, since: real) {
    forall i :: 0 <= i < |ops| ==> !ops[i].DoSet? && (ops[i].DoGet? || ops[i].DoPurge? ==> ops[i].now >= since)
  }

  lemma PurgedGet(a: Lru, b: Lru, since: real, k: string, now: real)
    requires Proper(a) && Proper(b) && Purged(a, b, since) && now >= since
    ensures Proper(Lookup(a, k, now).0) && Proper(Lookup(b, k, now).0)
    ensures Purged(Lookup(a, k, now).0, Lookup(b, k, now).0, since)
    ensures Lookup(a, k, now).1 == Lookup(b, k, now).1
  {
    RemoveProper(a, k);
    RemoveProper(b, k);
    if k in a.entries { MoveToEndProper(a, k); }
    if k in b.entries { MoveToEndProper(b, k); }
  }

  lemma PurgedStep(a: Lru, b: Lru, since: real, op: Op)
    requires Proper(a) && Proper(b) && Purged(a, b, since)
    requires !op.DoSet? && (op.DoGet? || op.DoPurge? ==> op.now >= since)
    ensures Proper(Apply(a, op)) && Proper(Apply(b, op)) && Purged(Apply(a, op), Apply(b, op), since)
    ensures op.DoGet? ==> Lookup(a, op.key, op.now).1 == Lookup(b, op.key, op.now).1
  {
    match op {
      case DoGet(k, now) => PurgedGet(a, b, since, k, now);
      case DoDelete(k) => RemoveProper(a, k); RemoveProper(b, k);
      case DoPurge(now) => PurgeSpec(a, now); PurgeSpec(b, now);
      case DoSet(_, _, _, _) =>
    }
  }

  lemma {:induction false} PurgedSameOutcomes(a: Lru, b: Lru, since: real, ops: seq<Op>)
    requires Proper(a) && Proper(b) && Purged(a, b, since) && ReadOnlyFrom(ops, since)
    ensures Outcomes(a, ops) == Outcomes(b, ops)
    decreases |ops|
  {
    if ops != [] {
      PurgedStep(a, b, since, ops[0]);
      PurgedSameOutcomes(Apply(a, ops[0]), Apply(b, ops[0]), since, ops[1..]);
    }
  }

  /** Purging changes the result of no later read before the next set. */
  lemma PurgeInvisible(s: Lru, now: real, ops: seq<Op>)
    requires Valid(s) && ReadOnlyFrom(ops, now)
    ensures Outcomes(Purge(s, now), ops) == Outcomes(s, ops)
  {
    PurgeSpec(s, now);
    PurgedSameOutcomes(s, Purge(s, now), now, ops);
  }

  // ----- the class -----

  class MemoryLRU {
    var order: seq<string>
    var entries: map<string, Entry>
    const maxsize: nat
    const defaultTtl: int

    function View(): Lru
      reads this
    {
      Lru(maxsize, order, entries)
    }

    constructor (maxsize: nat, ttl: int)
      ensures Valid(View()) && View() == Lru(maxsize, [], map[]) && this.defaultTtl == ttl
    {
      this.maxsize, this.defaultTtl := maxsize, ttl;
      order, entries := [], map[];
    }

    method Get(key: string, now: real) returns (value: Option<Bytes>)
      requires Valid(View())
      modifies this
      ensures Valid(View()) && (View(), value) == Lookup(old(View()), key, now)
    {
      RemoveProper(View(), key);
      if key in entries {
        MoveToEndProper(View(), key);
      }
      if key !in entries {
        return None;
      }
      var e := entries[key];
      if now - e.at > e.ttl as real {
        order, entries := Without(order, key), entries - {key};
        return None;
      }
      order := Without(order, key) + [key];
      return Some(e.value);
    }

    method Set(key: string, value: Bytes, now: real, ttl: Option<int>)
      requires Valid(View())
      modifies this
      ensures Valid(View())
      ensures View() == Store(old(View()), key, Entry(value, now, if ttl.Some? then ttl.value else defaultTtl))
    {
      ghost var e := Entry(value, now, if ttl.Some? then ttl.value else defaultTtl);
      SetValid(View(), key, e);
      ghost var result := Store(View(), key, e);
      PutProper(View(), key, e);
      order := Without(order, key) + [key];
      entries := entries[key := Entry(value, now, if ttl.Some? then ttl.value else defaultTtl)];
      while |order| > maxsize
        invariant Proper(View()) && Trim(View()) == result
        decreases |order|
      {
        PopProper(View());
        entries := entries - {order[0]};
        order := order[1..];
      }
    }

    method Delete(key: string)
      requires Valid(View())
      modifies this
      ensures Valid(View()) && View() == Drop(old(View()), key)
    {
      RemoveProper(View(), key);
      if key in entries {
        order, entries := Without(order, key), entries - {key};
      }
    }

    method PurgeExpired(now: real) returns (removed: nat)
      requires Valid(View())
      modifies this
      ensures Valid(View()) && View() == Purge(old(View()), now)
      ensures removed == |ExpiredKeys(old(order), old(entries), now)|
    {
      PurgeSpec(View(), now);
      ghost var result := Purge(View(), now);
      RemoveAllSpec(View(), ExpiredKeys(order, entries, now));
      var expired := ExpiredKeys(order, entries, now);
      removed := 0;
      while removed < |expired|
        invariant removed <= |expired| && RemoveAll(View(), expired[removed..]) == result
      {
        var k := expired[removed];
        assert expired[removed..][0] == k && expired[removed..][1..] == expired[removed + 1..];
        order, entries := Without(order, k), entries - {k};
        removed := removed + 1;
      }
    }
  }
}
