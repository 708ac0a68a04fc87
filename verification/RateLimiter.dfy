/**
 * The in-process token bucket, the table of buckets, and the limiter that falls back from the
 * Redis sliding window to the bucket.
 */
module TokenBuckets {
  import opened Sets

  datatype Bucket = Bucket(tokens: real, lastRefill: real, capacity: real, rate: real)

  function Fresh(capacity: real, rate: real, now: real): Bucket {
    Bucket(capacity, now, capacity, rate)
  }

  function Min(x: real, y: real): real {
    if x <= y then x else y
  }

  /** The tokens that flow in during `dt` seconds. */
  function Supply(rate: real, dt: real): real {
    dt * rate
  }

  lemma SupplyAdds(rate: real, x: real, y: real)
    ensures Supply(rate, x) + Supply(rate, y) == Supply(rate, x + y)
  {}

  lemma SupplyGrows(rate: real, x: real, y: real)
    requires rate >= 0.0 && x <= y
    ensures Supply(rate, x) <= Supply(rate, y) && Supply(rate, 0.0) == 0.0
    ensures rate > 0.0 && x < y ==> Supply(rate, x) < Supply(rate, y)
  {}

  function Refill(b: Bucket, now: real): Bucket {
    b.(tokens := Min(b.capacity, b.tokens + Supply(b.rate, now - b.lastRefill)), lastRefill := now)
  }

  function Draw(b: Bucket, now: real, amount: real): (Bucket, bool) {
    var r := Refill(b, now);
    if r.tokens >= amount then (r.(tokens := r.tokens - amount), true) else (r, false)
  }

  predicate InBounds(b: Bucket) {
    0.0 <= b.tokens <= b.capacity && b.rate >= 0.0
  }

  lemma DrawKeepsShape(b: Bucket, now: real, amount: real)
    ensures var b' := Draw(b, now, amount).0;
            b'.capacity == b.capacity && b'.rate == b.rate && b'.lastRefill == now
  {}

  /** One request to a bucket: when, and for how many tokens. */
  datatype Demand = Demand(at: real, amount: real)

  predicate Timely(b: Bucket, ds: seq<Demand>) {
    && (forall i :: 0 <= i < |ds| ==> ds[i].at >= b.lastRefill && ds[i].amount >= 0.0)
    && (forall i, j :: 0 <= i <= j < |ds| ==> ds[i].at <= ds[j].at)
  }

  /** The bucket after serving `ds` in order, and the total it granted. */
  function Serve(b: Bucket, ds: seq<Demand>): (Bucket, real) {
    if ds == [] then (b, 0.0)
    else
      var (b', total) := Serve(b, ds[..|ds| - 1]);
      var d := ds[|ds| - 1];
      var (b'', ok) := Draw(b', d.at, d.amount);
      (b'', if ok then total + d.amount else total)
  }

  /** Tokens stay between zero and the capacity. */
  lemma DrawInBounds(b: Bucket, now: real, amount: real)
    requires InBounds(b) && now >= b.lastRefill && amount >= 0.0
    ensures var (b', ok) := Draw(b, now, amount);
            && InBounds(b') && b'.capacity == b.capacity && b'.rate == b.rate && b'.lastRefill == now
            && b'.tokens + (if ok then amount else 0.0) <= b.tokens + Supply(b.rate, now - b.lastRefill)
            && b'.tokens + (if ok then amount else 0.0) <= b.capacity
  {
    hide Supply;
    SupplyGrows(b.rate, 0.0, now - b.lastRefill);
  }

  /**
   * The bucket lemma: whatever is asked of it, a bucket never grants more than it held at its
   * last refill plus what has flowed in since.
   */
  lemma {:induction false} GrantsBounded(b: Bucket, ds: seq<Demand>)
    requires InBounds(b) && Timely(b, ds)
    ensures var (b', total) := Serve(b, ds);
            && InBounds(b') && b'.capacity == b.capacity && b'.rate == b.rate
            && b'.lastRefill == (if ds == [] then b.lastRefill else ds[|ds| - 1].at)
            && total + b'.tokens <= b.tokens + Supply(b.rate, b'.lastRefill - b.lastRefill)
  {
    hide Supply, Draw;
    SupplyGrows(b.rate, 0.0, 0.0);
    if ds != [] {
      var before := ds[..|ds| - 1];
      GrantsBounded(b, before);
      var m := Serve(b, before).0;
      var d := ds[|ds| - 1];
      if before != [] {
        assert before[|before| - 1] == ds[|ds| - 2];
      }
      DrawInBounds(m, d.at, d.amount);
      SupplyAdds(b.rate, d.at - m.lastRefill, m.lastRefill - b.lastRefill);
    }
  }

  /** A bucket refilled at the first demand's time serves the same demands. */
  lemma {:induction false} RefilledServesSame(m: Bucket, ds: seq<Demand>)
    requires InBounds(m) && Timely(m, ds) && ds != []
    ensures Serve(Refill(m, ds[0].at), ds) == Serve(m, ds)
    ensures InBounds(Refill(m, ds[0].at)) && Timely(Refill(m, ds[0].at), ds)
  {
    SupplyGrows(m.rate, 0.0, ds[0].at - m.lastRefill);
    SupplyGrows(m.rate, 0.0, 0.0);
    hide Supply;
    if |ds| > 1 {
      RefilledServesSame(m, ds[..|ds| - 1]);
    } else {
      assert ds[..0] == [];
    }
  }

  /**
   * Over any closed interval `[a, b]` a bucket, in whatever state, grants at most
   * `capacity + rate * (b - a)`.
   */
  lemma GrantsInInterval(m: Bucket, ds: seq<Demand>, a: real, b: real)
    requires InBounds(m) && Timely(m, ds)
    requires a <= b && forall i :: 0 <= i < |ds| ==> a <= ds[i].at <= b
    ensures Serve(m, ds).1 <= m.capacity + Supply(m.rate, b - a)
  {
    hide Supply, Draw;
    SupplyGrows(m.rate, 0.0, b - a);
    if ds != [] {
      RefilledServesSame(m, ds);
      GrantsBounded(Refill(m, ds[0].at), ds);
      SupplyGrows(m.rate, ds[|ds| - 1].at - ds[0].at, b - a);
    }
  }

  /** What the demands from the i-th on were granted. */
  function GrantedFrom(b: Bucket, ds: seq<Demand>, i: nat): real
    requires i <= |ds|
  {
    Serve(b, ds).1 - Serve(b, ds[..i]).1
  }

  /** `x` more tokens at `now` fit every account: the capacity, what there was at the beginning with
      all that flowed in, and the capacity from each earlier demand on with what flowed in since. */
  ghost predicate Conforms(b: Bucket, ds: seq<Demand>, now: real, x: real) {
    && x <= b.capacity
    && GrantedFrom(b, ds, 0) + x <= b.tokens + Supply(b.rate, now - b.lastRefill)
    && forall i :: 0 <= i < |ds| ==> GrantedFrom(b, ds, i) + x <= b.capacity + Supply(b.rate, now - ds[i].at)
  }

  /**
   * The bucket refuses nothing it could grant: over every sequence of demands the next one is granted
   * exactly if it, too, fits every account.  A refusal costs nothing, so it does not count later.
   */
  lemma GrantedExactly(b: Bucket, ds: seq<Demand>, d: Demand)
    requires InBounds(b) && Timely(b, ds + [d])
    ensures Draw(Serve(b, ds).0, d.at, d.amount).1 <==> Conforms(b, ds, d.at, d.amount)
  {
    hide Supply, Conforms, Serve;
    assert (ds + [d])[|ds|] == d && forall i :: 0 <= i < |ds| ==> (ds + [d])[i] == ds[i];
    TokensAreRoom(b, ds, d.at, d.amount);
  }

  /** What the bucket holds is exactly how much more conforms. */
  lemma {:induction false} TokensAreRoom(b: Bucket, ds: seq<Demand>, now: real, x: real)
    requires InBounds(b) && Timely(b, ds) && now >= b.lastRefill && forall i :: 0 <= i < |ds| ==> ds[i].at <= now
    ensures Refill(Serve(b, ds).0, now).tokens >= x <==> Conforms(b, ds, now, x)
    ensures Serve(b, ds).0.capacity == b.capacity && Serve(b, ds).0.rate == b.rate
    decreases |ds|
  {
    if ds != [] {
      hide Supply, Conforms;
      var before, d := ds[..|ds| - 1], ds[|ds| - 1];
      var m := Serve(b, before).0;
      var granted := GrantedFrom(b, ds, |ds| - 1);
      var later := granted + x - Supply(b.rate, now - d.at);
      TokensAreRoom(b, before, d.at, later);
      TokensAreRoom(b, before, d.at, d.amount);
      DrawKeepsShape(m, d.at, d.amount);
      RoomShifts(b, ds, now, x);
    }
  }

  /** Room now is room at the last demand, less what that was granted, with what has flowed in since. */
  lemma RoomShifts(b: Bucket, ds: seq<Demand>, now: real, x: real)
    requires ds != []
    ensures var before, d := ds[..|ds| - 1], ds[|ds| - 1];
      Conforms(b, ds, now, x) <==>
        x <= b.capacity && Conforms(b, before, d.at, GrantedFrom(b, ds, |ds| - 1) + x - Supply(b.rate, now - d.at))
  {
    hide Supply, GrantedFrom;
    var before, d := ds[..|ds| - 1], ds[|ds| - 1];
    SupplyAdds(b.rate, now - d.at, d.at - b.lastRefill);
    GrantedSplits(b, ds, 0);
    forall i | 0 <= i < |before|
      ensures Supply(b.rate, now - d.at) + Supply(b.rate, d.at - ds[i].at) == Supply(b.rate, now - ds[i].at)
      ensures GrantedFrom(b, ds, i) == GrantedFrom(b, before, i) + GrantedFrom(b, ds, |before|)
    {
      SupplyAdds(b.rate, now - d.at, d.at - ds[i].at);
      GrantedSplits(b, ds, i);
    }
  }

  lemma GrantedSplits(b: Bucket, ds: seq<Demand>, i: nat)
    requires i < |ds|
    ensures GrantedFrom(b, ds, i) == GrantedFrom(b, ds[..|ds| - 1], i) + GrantedFrom(b, ds, |ds| - 1)
  {
    hide Serve;
    assert ds[..|ds| - 1][..i] == ds[..i];
  }

  class TokenBucket {
    var tokens: real
    var lastRefill: real
    const capacity: real
    const rate: real

    function View(): Bucket
      reads this
    {
      Bucket(tokens, lastRefill, capacity, rate)
    }

    constructor (capacity: real, rate: real, now: real)
      ensures View() == Fresh(capacity, rate, now)
    {
      this.capacity, this.rate := capacity, rate;
      tokens, lastRefill := capacity, now;
    }

    method Consume(now: real, amount: real) returns (ok: bool)
      modifies this
      ensures (View(), ok) == Draw(old(View()), now, amount)
      ensures old(InBounds(View())) && now >= old(lastRefill) && amount >= 0.0 ==> InBounds(View())
    {
      ghost var before := View();
      if InBounds(before) && now >= lastRefill && amount >= 0.0 {
        DrawInBounds(before, now, amount);
      }
      var elapsed := now - lastRefill;
      tokens := Min(capacity, tokens + Supply(rate, elapsed));
      lastRefill := now;
      if tokens >= amount {
        tokens := tokens - amount;
        return true;
      }
      return false;
    }
  }

  /** The bucket that serves a key: the one in the table, unless its capacity has changed. */
  function BucketFor(t: map<string, Bucket>, key: string, capacity: real, rate: real, now: real): Bucket {
    if key !in t || t[key].capacity != capacity then Fresh(capacity, rate, now) else t[key]
  }

  /** One call at the table: the key, its limit per minute, and when. */
  datatype Ask = Ask(key: string, rpm: nat, at: real)

  function Decide(t: map<string, Bucket>, a: Ask): (map<string, Bucket>, bool) {
    var (b, ok) := Draw(BucketFor(t, a.key, a.rpm as real, a.rpm as real / 60.0, a.at), a.at, 1.0);
    (t[a.key := b], ok)
  }

  function After(asks: seq<Ask>): map<string, Bucket> {
    if asks == [] then map[] else Decide(After(asks[..|asks| - 1]), asks[|asks| - 1]).0
  }

  /** When the key was asked for under this limit, since it was last asked for under another. */
  function Spell(asks: seq<Ask>, key: string, rpm: nat): seq<real> {
    if asks == [] then [] else
    var before, a := Spell(asks[..|asks| - 1], key, rpm), asks[|asks| - 1];
    if a.key != key then before else if a.rpm != rpm then [] else before + [a.at]
  }

  function OneEach(times: seq<real>): (ds: seq<Demand>)
    ensures |ds| == |times| && forall i :: 0 <= i < |ds| ==> ds[i] == Demand(times[i], 1.0)
  {
    if times == [] then [] else OneEach(times[..|times| - 1]) + [Demand(times[|times| - 1], 1.0)]
  }

  /** A bucket of `rpm` tokens that was full at the first of these times. */
  function FullAt(rpm: nat, times: seq<real>): Bucket
    requires times != []
  {
    Bucket(rpm as real, times[0], rpm as real, rpm as real / 60.0)
  }

  ghost predicate InTimeOrder(asks: seq<Ask>) {
    forall i, j :: 0 <= i <= j < |asks| ==> asks[i].at <= asks[j].at
  }

  predicate Ascending(times: seq<real>) {
    forall i, j :: 0 <= i <= j < |times| ==> times[i] <= times[j]
  }

  predicate Until(times: seq<real>, now: real) {
    forall i :: 0 <= i < |times| ==> times[i] <= now
  }

  lemma {:induction false} SpellUntil(asks: seq<Ask>, key: string, rpm: nat, now: real)
    requires forall i :: 0 <= i < |asks| ==> asks[i].at <= now
    ensures Until(Spell(asks, key, rpm), now)
    decreases |asks|
  {
    if asks != [] {
      SpellUntil(asks[..|asks| - 1], key, rpm, now);
    }
  }

  lemma {:induction false} SpellInOrder(asks: seq<Ask>, key: string, rpm: nat)
    requires InTimeOrder(asks)
    ensures Ascending(Spell(asks, key, rpm))
    decreases |asks|
  {
    if asks != [] {
      SpellInOrder(asks[..|asks| - 1], key, rpm);
      SpellUntil(asks[..|asks| - 1], key, rpm, asks[|asks| - 1].at);
      AscendingNext(Spell(asks[..|asks| - 1], key, rpm), asks[|asks| - 1].at);
      hide Ascending;
    }
  }

  lemma AscendingNext(times: seq<real>, now: real)
    requires Ascending(times) && Until(times, now)
    ensures Ascending(times + [now]) && Ascending([])
  {}

  /** The bucket that serves a key has served that key's spell, and nothing else. */
  lemma {:induction false} BucketServedSpell(asks: seq<Ask>, key: string, rpm: nat, now: real)
    ensures var times := Spell(asks, key, rpm);
      BucketFor(After(asks), key, rpm as real, rpm as real / 60.0, now)
        == Serve(FullAt(rpm, times + [now]), OneEach(times)).0
    decreases |asks|
  {
    hide Draw, OneEach, FullAt, Serve;
    if asks == [] {
      NothingServed(key, rpm, now);
    } else {
      var before, a := asks[..|asks| - 1], asks[|asks| - 1];
      BucketServedSpell(before, key, rpm, if a.key == key then a.at else now);
      if a.key == key {
        DrawKeepsShape(BucketFor(After(before), key, a.rpm as real, a.rpm as real / 60.0, a.at), a.at, 1.0);
        if a.rpm == rpm {
          OneMoreServed(rpm, Spell(before, key, rpm), a.at, now);
        } else {
          NothingServed(key, rpm, now);
        }
      }
    }
  }

  lemma NothingServed(key: string, rpm: nat, now: real)
    ensures Fresh(rpm as real, rpm as real / 60.0, now) == Serve(FullAt(rpm, [] + [now]), OneEach([])).0
  {}

  lemma OneMoreServed(rpm: nat, times: seq<real>, at: real, now: real)
    ensures Serve(FullAt(rpm, times + [at] + [now]), OneEach(times + [at])).0
         == Draw(Serve(FullAt(rpm, times + [at]), OneEach(times)).0, at, 1.0).0
  {
    hide Draw;
    assert OneEach(times + [at])[..|times|] == OneEach(times);
    assert (times + [at] + [now])[0] == (times + [at])[0];
  }

  /**
   * Over every sequence of calls, whatever other keys do, a key is granted a call exactly if one more
   * token fits a bucket of `rpm` tokens, refilling in a minute, that was full when the key was first
   * asked for under its present limit and has served what was granted to it since.
   */
  lemma TableDecidesExactly(asks: seq<Ask>, a: Ask)
    requires InTimeOrder(asks + [a])
    ensures var times := Spell(asks, a.key, a.rpm);
      Decide(After(asks), a).1 <==> Conforms(FullAt(a.rpm, times + [a.at]), OneEach(times), a.at, 1.0)
  {
    hide Draw, Conforms, Serve, After;
    var times := Spell(asks, a.key, a.rpm);
    assert (asks + [a])[|asks|] == a && forall i :: 0 <= i < |asks| ==> (asks + [a])[i] == asks[i];
    SpellInOrder(asks, a.key, a.rpm);
    SpellUntil(asks, a.key, a.rpm, a.at);
    BucketServedSpell(asks, a.key, a.rpm, a.at);
    var ds, d := OneEach(times), Demand(a.at, 1.0);
    assert (ds + [d])[|ds|] == d && forall i :: 0 <= i < |ds| ==> (ds + [d])[i] == ds[i];
    GrantedExactly(FullAt(a.rpm, times + [a.at]), ds, d);
  }

  class BucketTable {
    var buckets: map<string, TokenBucket>

    ghost predicate Valid()
      reads this
    {
      forall k, k' :: k in buckets && k' in buckets && k != k' ==> buckets[k] != buckets[k']
    }

    ghost function View(): map<string, Bucket>
      reads this, buckets.Values
    {
      map k | k in buckets :: buckets[k].View()
    }

    constructor ()
      ensures Valid() && View() == map[]
    {
      buckets := map[];
    }

    method GetBucket(key: string, capacity: real, rate: real, now: real) returns (b: TokenBucket)
      requires Valid()
      modifies this
      ensures Valid() && key in buckets && buckets[key] == b
      ensures View() == old(View())[key := BucketFor(old(View()), key, capacity, rate, now)]
      ensures b in old(buckets.Values) || fresh(b)
      ensures buckets.Values <= old(buckets.Values) + {b}
    {
      if key !in buckets || buckets[key].capacity != capacity {
        b := new TokenBucket(capacity, rate, now);
        buckets := buckets[key := b];
      } else {
        b := buckets[key];
      }
    }

    /** `_in_process_allow`: only the caller's own bucket changes. */
    method InProcessAllow(key: string, rpm: nat, now: real) returns (ok: bool)
      requires Valid()
      modifies this, buckets.Values
      ensures Valid()
      ensures (View(), ok) == Decide(old(View()), Ask(key, rpm, now))
    {
      hide Draw, Supply, BucketFor;
      var rate := rpm as real / 60.0;
      var bucket := GetBucket(key, rpm as real, rate, now);
      ghost var served := View();
      assert served[key] == bucket.View();
      ok := bucket.Consume(now, 1.0);
      assert View() == served[key := bucket.View()];
      assert View() == old(View())[key := bucket.View()];
    }
  }
}

/** The Redis-or-fallback limiter for one API key at a fixed limit. */
module CombinedLimiter {
  import opened Reals
  import opened Sets
  import W = SlidingWindow
  import B = TokenBuckets

  /** One call that fell back: which, when it drew on the bucket, and whether it was granted. */
  datatype Draw = Draw(call: int, at: real, granted: bool)

  /** `window` has one log entry per call, `draws` one entry per call that fell back so far. */
  datatype Limiter = Limiter(window: W.System, bucket: B.Bucket, draws: seq<Draw>)

  /** A step of the sliding window, or a call that Redis left undecided turning to the bucket. */
  datatype Event = Redis(ev: W.Event) | FallBack(call: int, at: real)

  /** `delay` bounds the time from a call's sampling of the time to its decision. */
  function Settings(rpm: nat, delay: real): W.Config {
    W.Config(rpm, 60.0, delay)
  }

  /** Tokens per second. */
  function Rate(rpm: nat): real {
    rpm as real / 60.0
  }

  /** The bucket is created, full, by the first call that falls back. */
  function BucketAt(rpm: nat, l: Limiter, now: real): B.Bucket {
    if l.draws == [] then B.Fresh(rpm as real, Rate(rpm), now) else l.bucket
  }

  /** A call falls back once, after Redis left it undecided; time does not run backwards. */
  predicate Enabled(c: W.Config, l: Limiter, ev: Event) {
    match ev
    case Redis(e) => W.Enabled(c, l.window, e)
    case FallBack(call, at) =>
      && 0 <= call < |l.window.log| && l.window.log[call].verdict.Unavailable?
      && l.window.log[call].ranAt <= at <= l.window.log[call].at + c.delay
      && (forall k :: 0 <= k < |l.draws| ==> l.draws[k].call != call && l.draws[k].at <= at)
  }

  function Step(rpm: nat, delay: real, l: Limiter, ev: Event): Limiter {
    var c := Settings(rpm, delay);
    if !Enabled(c, l, ev) then l else
    match ev
    case Redis(e) => l.(window := W.Step(c, l.window, e))
    case FallBack(call, at) =>
      var (b, ok) := B.Draw(BucketAt(rpm, l, at), at, 1.0);
      l.(bucket := b, draws := l.draws + [Draw(call, at, ok)])
  }

  function Initial(rpm: nat, start: real): Limiter {
    Limiter(W.Initial(start), B.Fresh(rpm as real, Rate(rpm), start), [])
  }

  function RunFrom(rpm: nat, delay: real, l: Limiter, evs: seq<Event>): Limiter {
    if evs == [] then l else Step(rpm, delay, RunFrom(rpm, delay, l, evs[..|evs| - 1]), evs[|evs| - 1])
  }

  function Run(rpm: nat, delay: real, start: real, evs: seq<Event>): Limiter {
    RunFrom(rpm, delay, Initial(rpm, start), evs)
  }

  predicate GrantedCall(draws: seq<Draw>, call: int) {
    exists k :: 0 <= k < |draws| && draws[k].call == call && draws[k].granted
  }

  /** The calls of `(lo, hi]` that passed the limiter, by either route. */
  function AdmittedIn(l: Limiter, lo: real, hi: real): set<int> {
    set i | 0 <= i < |l.window.log| && lo < l.window.log[i].at <= hi
            && (l.window.log[i].verdict == W.Allowed || GrantedCall(l.draws, i))
  }

  // ----- the bucket's share -----

  function Granted(draws: seq<Draw>, j: int, k: int): set<int> {
    set i | 0 <= i < |draws| && j <= i <= k && draws[i].granted
  }

  function GrantedIn(draws: seq<Draw>, lo: real, hi: real): set<int> {
    set i | 0 <= i < |draws| && lo < draws[i].at <= hi && draws[i].granted
  }

  ghost predicate Fits(b: B.Bucket, draws: seq<Draw>, j: int, k: int)
    requires 0 <= j <= k < |draws|
  {
    |Granted(draws, j, k)| as real <= b.capacity + B.Supply(b.rate, draws[k].at - draws[j].at)
  }

  ghost predicate Covers(b: B.Bucket, draws: seq<Draw>, j: int)
    requires 0 <= j < |draws|
  {
    && draws[j].at <= b.lastRefill
    && |Granted(draws, j, |draws|)| as real + b.tokens <= b.capacity + B.Supply(b.rate, b.lastRefill - draws[j].at)
  }

  /** From any draw on, grants plus what is left fit the capacity plus the refill; and so do the
      grants between any two draws. */
  ghost predicate Balanced(b: B.Bucket, draws: seq<Draw>) {
    && B.InBounds(b)
    && (forall j :: 0 <= j < |draws| ==> Covers(b, draws, j))
    && (forall j, k :: 0 <= j <= k < |draws| ==> Fits(b, draws, j, k))
  }

  lemma AppendDraw(draws: seq<Draw>, d: Draw, j: int, k: int)
    requires 0 <= j <= |draws|
    ensures k < |draws| ==> Granted(draws + [d], j, k) == Granted(draws, j, k)
    ensures k >= |draws| ==>
              |Granted(draws + [d], j, k)| == |Granted(draws, j, |draws|)| + (if d.granted then 1 else 0)
  {
    if k >= |draws| {
      assert Granted(draws + [d], j, k) == Granted(draws, j, |draws|) + (if d.granted then {|draws|} else {});
    }
  }

  /** A draw keeps the accounts balanced. */
  lemma DrawKeepsBalance(b: B.Bucket, draws: seq<Draw>, call: int, now: real)
    requires Balanced(b, draws) && now >= b.lastRefill
    ensures var (b', ok) := B.Draw(b, now, 1.0); Balanced(b', draws + [Draw(call, now, ok)])
  {
    hide B.Supply, B.Draw, Granted, Covers, Fits;
    var (b', ok) := B.Draw(b, now, 1.0);
    var draws' := draws + [Draw(call, now, ok)];
    B.DrawInBounds(b, now, 1.0);
    forall j | 0 <= j < |draws'| ensures Covers(b', draws', j) {
      NewDrawCovered(b, draws, call, now, j);
    }
    forall j, k | 0 <= j <= k < |draws'| ensures Fits(b', draws', j, k) {
      if k < |draws| {
        OldDrawsFit(b, b', draws, Draw(call, now, ok), j, k);
      } else {
        NewDrawCovered(b, draws, call, now, j);
        CoveredFits(b', draws', j);
      }
    }
  }

  lemma OldDrawsFit(b: B.Bucket, b': B.Bucket, draws: seq<Draw>, d: Draw, j: int, k: int)
    requires 0 <= j <= k < |draws| && Fits(b, draws, j, k) && b'.capacity == b.capacity && b'.rate == b.rate
    ensures Fits(b', draws + [d], j, k)
  {
    hide B.Supply, Granted;
    AppendDraw(draws, d, j, k);
  }

  lemma CoveredFits(b: B.Bucket, draws: seq<Draw>, j: int)
    requires 0 <= j < |draws| && Covers(b, draws, j) && B.InBounds(b) && b.lastRefill == draws[|draws| - 1].at
    ensures Fits(b, draws, j, |draws| - 1)
  {
    hide B.Supply;
    assert Granted(draws, j, |draws| - 1) == Granted(draws, j, |draws|);
  }

  lemma NewDrawCovered(b: B.Bucket, draws: seq<Draw>, call: int, now: real, j: int)
    requires B.InBounds(b) && now >= b.lastRefill && 0 <= j <= |draws|
    requires j < |draws| ==> Covers(b, draws, j)
    ensures var (b', ok) := B.Draw(b, now, 1.0); Covers(b', draws + [Draw(call, now, ok)], j)
  {
    hide B.Supply, B.Draw;
    var (b', ok) := B.Draw(b, now, 1.0);
    B.DrawInBounds(b, now, 1.0);
    AppendDraw(draws, Draw(call, now, ok), j, |draws| + 1);
    if j < |draws| {
      B.SupplyAdds(b.rate, now - b.lastRefill, b.lastRefill - draws[j].at);
    } else {
      assert Granted(draws, j, |draws|) == {};
      B.SupplyGrows(b.rate, 0.0, 0.0);
    }
  }

  /** Within any interval shorter than `span` the bucket grants less than a refill of `span` over its capacity. */
  lemma BucketShare(b: B.Bucket, draws: seq<Draw>, t: real, span: real)
    requires Balanced(b, draws) && b.rate > 0.0 && b.capacity >= 0.0 && span > 0.0
    ensures |GrantedIn(draws, t - span, t)| as real < b.capacity + B.Supply(b.rate, span)
  {
    hide B.Supply, Covers;
    var a := GrantedIn(draws, t - span, t);
    B.SupplyGrows(b.rate, 0.0, span);
    if a != {} {
      var j := Minimum(a);
      var k := Maximum(a);
      assert Fits(b, draws, j, k);
      assert a <= Granted(draws, j, k);
      CardMonotone(a, Granted(draws, j, k));
      B.SupplyGrows(b.rate, draws[k].at - draws[j].at, span);
    }
  }

  // ----- what every step keeps -----

  /** A draw is made by a call Redis left undecided, within `delay` of its time. */
  ghost predicate Justified(c: W.Config, l: Limiter, d: Draw) {
    0 <= d.call < |l.window.log| && l.window.log[d.call].at <= d.at <= l.window.log[d.call].at + c.delay
  }

  ghost predicate Inv(rpm: nat, delay: real, l: Limiter) {
    var c := Settings(rpm, delay);
    && W.Inv(c, l.window) && W.WindowsBounded(c, l.window)
    && Balanced(l.bucket, l.draws)
    && l.bucket.capacity == rpm as real && l.bucket.rate == Rate(rpm)
    && (l.draws != [] ==> l.bucket.lastRefill == l.draws[|l.draws| - 1].at)
    && forall k :: 0 <= k < |l.draws| ==> Justified(c, l, l.draws[k])
  }

  lemma JustifiedStays(c: W.Config, l: Limiter, e: W.Event, d: Draw)
    requires Justified(c, l, d) && W.Enabled(c, l.window, e)
    ensures Justified(c, l.(window := W.Step(c, l.window, e)), d)
  {}

  lemma FreshBalanced(rpm: nat, l: Limiter, now: real)
    requires Balanced(l.bucket, l.draws) && l.bucket.capacity == rpm as real && l.bucket.rate == Rate(rpm)
    ensures var b := BucketAt(rpm, l, now); Balanced(b, l.draws) && b.capacity == rpm as real && b.rate == Rate(rpm)
  {
    hide Covers, Fits;
  }

  lemma StepKeepsInv(rpm: nat, delay: real, l: Limiter, ev: Event)
    requires Inv(rpm, delay, l)
    ensures Inv(rpm, delay, Step(rpm, delay, l, ev))
  {
    hide W.Inv, W.WindowsBounded, W.Step, W.Enabled, Balanced, B.Draw, Justified;
    var c := Settings(rpm, delay);
    if Enabled(c, l, ev) {
      match ev {
        case Redis(e) =>
          W.StepKeepsInv(c, l.window, e);
          W.StepKeepsBound(c, l.window, e);
          forall k | 0 <= k < |l.draws| ensures Justified(c, Step(rpm, delay, l, ev), l.draws[k]) {
            JustifiedStays(c, l, e, l.draws[k]);
          }
        case FallBack(call, at) =>
          FallBackKeeps(rpm, delay, l, call, at);
      }
    }
  }

  lemma FallBackKeeps(rpm: nat, delay: real, l: Limiter, call: int, at: real)
    requires Inv(rpm, delay, l) && Enabled(Settings(rpm, delay), l, FallBack(call, at))
    ensures Inv(rpm, delay, Step(rpm, delay, l, FallBack(call, at)))
  {
    hide W.Inv, W.WindowsBounded, Balanced, B.Draw;
    assert W.Ordered(Settings(rpm, delay), l.window) by { WindowOrdered(rpm, delay, l); }
    FreshBalanced(rpm, l, at);
    DrawKeepsBalance(BucketAt(rpm, l, at), l.draws, call, at);
    B.DrawKeepsShape(BucketAt(rpm, l, at), at, 1.0);
  }

  lemma WindowOrdered(rpm: nat, delay: real, l: Limiter)
    requires Inv(rpm, delay, l)
    ensures W.Ordered(Settings(rpm, delay), l.window)
  {}

  lemma {:induction false} RunKeepsInv(rpm: nat, delay: real, start: real, evs: seq<Event>)
    ensures Inv(rpm, delay, Run(rpm, delay, start, evs))
  {
    if evs != [] {
      RunKeepsInv(rpm, delay, start, evs[..|evs| - 1]);
      StepKeepsInv(rpm, delay, Run(rpm, delay, start, evs[..|evs| - 1]), evs[|evs| - 1]);
    }
  }

  function Demands(draws: seq<Draw>): (ds: seq<B.Demand>)
    ensures |ds| == |draws| && forall i :: 0 <= i < |ds| ==> ds[i] == B.Demand(draws[i].at, 1.0)
  {
    if draws == [] then [] else Demands(draws[..|draws| - 1]) + [B.Demand(draws[|draws| - 1].at, 1.0)]
  }

  /** The bucket of `rpm` tokens that the first fallback found full. */
  function FirstBucket(rpm: nat, first: real): B.Bucket {
    B.Bucket(rpm as real, first, rpm as real, rpm as real / 60.0)
  }

  /** Whether one more token fits the bucket after the draws before the k-th. */
  ghost predicate FitsAfter(rpm: nat, draws: seq<Draw>, k: nat)
    requires k < |draws|
  {
    B.Conforms(FirstBucket(rpm, draws[0].at), Demands(draws[..k]), draws[k].at, 1.0)
  }

  ghost predicate DrawsExplained(rpm: nat, l: Limiter) {
    && (forall i, j :: 0 <= i <= j < |l.draws| ==> l.draws[i].at <= l.draws[j].at)
    && (l.draws != [] ==> l.bucket == B.Serve(FirstBucket(rpm, l.draws[0].at), Demands(l.draws)).0)
    && forall k :: 0 <= k < |l.draws| ==> (l.draws[k].granted <==> FitsAfter(rpm, l.draws, k))
  }

  /** The bucket before a draw has served the draws so far. */
  lemma {:induction false} BucketServed(rpm: nat, l: Limiter, at: real)
    requires DrawsExplained(rpm, l)
    ensures var first := if l.draws == [] then at else l.draws[0].at;
            BucketAt(rpm, l, at) == B.Serve(FirstBucket(rpm, first), Demands(l.draws)).0
  {
    hide FitsAfter;
  }

  lemma {:induction false} ServedNext(rpm: nat, draws: seq<Draw>, d: Draw)
    ensures var first := FirstBucket(rpm, (draws + [d])[0].at);
      B.Serve(first, Demands(draws + [d])).0 == B.Draw(B.Serve(first, Demands(draws)).0, d.at, 1.0).0
  {
    hide B.Draw;
    assert (draws + [d])[..|draws|] == draws;
    assert Demands(draws + [d])[..|draws|] == Demands(draws);
  }

  lemma {:induction false} DrawExplained(rpm: nat, l: Limiter, call: int, at: real)
    requires DrawsExplained(rpm, l) && forall k :: 0 <= k < |l.draws| ==> l.draws[k].at <= at
    ensures var (b, ok) := B.Draw(BucketAt(rpm, l, at), at, 1.0);
            DrawsExplained(rpm, l.(bucket := b, draws := l.draws + [Draw(call, at, ok)]))
  {
    hide B.Draw, FitsAfter, BucketAt, FirstBucket, Demands, B.Serve;
    var d := Draw(call, at, B.Draw(BucketAt(rpm, l, at), at, 1.0).1);
    var draws' := l.draws + [d];
    BucketServed(rpm, l, at);
    ServedNext(rpm, l.draws, d);
    assert draws'[0].at == if l.draws == [] then at else l.draws[0].at;
    forall k | 0 <= k < |draws'| ensures draws'[k].granted <==> FitsAfter(rpm, draws', k) {
      if k < |l.draws| {
        SameDraws(rpm, l.draws, draws', k);
      } else {
        LastDrawExactly(rpm, l.draws, d);
      }
    }
  }

  lemma SameDraws(rpm: nat, draws: seq<Draw>, draws': seq<Draw>, k: nat)
    requires draws <= draws' && k < |draws|
    ensures FitsAfter(rpm, draws', k) == FitsAfter(rpm, draws, k)
  {
    assert draws'[..k] == draws[..k];
  }

  lemma {:induction false} LastDrawExactly(rpm: nat, draws: seq<Draw>, d: Draw)
    requires forall k :: 0 <= k < |draws| ==> draws[k].at <= d.at
    requires forall i, j :: 0 <= i <= j < |draws| ==> draws[i].at <= draws[j].at
    requires d.granted == B.Draw(B.Serve(FirstBucket(rpm, (draws + [d])[0].at), Demands(draws)).0, d.at, 1.0).1
    ensures d.granted <==> FitsAfter(rpm, draws + [d], |draws|)
  {
    hide B.Draw, B.Conforms, B.Serve;
    var ds, n, last := Demands(draws), |draws|, B.Demand(d.at, 1.0);
    assert (draws + [d])[..n] == draws;
    assert (ds + [last])[n] == last && forall i :: 0 <= i < n ==> (ds + [last])[i] == ds[i];
    B.GrantedExactly(FirstBucket(rpm, (draws + [d])[0].at), ds, last);
  }

  /** Over every run a call that falls back is granted exactly if one more token fits the bucket, full
      at the first fallback, after what was granted since. */
  lemma {:induction false} FallBacksGrantedExactly(rpm: nat, delay: real, start: real, evs: seq<Event>)
    ensures DrawsExplained(rpm, Run(rpm, delay, start, evs))
  {
    hide B.Draw, B.Serve, FitsAfter;
    if evs != [] {
      var l, ev := Run(rpm, delay, start, evs[..|evs| - 1]), evs[|evs| - 1];
      FallBacksGrantedExactly(rpm, delay, start, evs[..|evs| - 1]);
      if Enabled(Settings(rpm, delay), l, ev) && ev.FallBack? {
        DrawExplained(rpm, l, ev.call, ev.at);
      }
    }
  }

  function CallsOf(draws: seq<Draw>, ks: set<int>): set<int>
    requires forall k :: k in ks ==> 0 <= k < |draws|
  {
    set k | k in ks :: draws[k].call
  }

  lemma {:induction false} CallsOfCard(draws: seq<Draw>, ks: set<int>)
    requires forall k :: k in ks ==> 0 <= k < |draws|
    ensures |CallsOf(draws, ks)| <= |ks|
    decreases |ks|
  {
    if ks != {} {
      var k := Pick(ks);
      CallsOfCard(draws, ks - {k});
      CardUnion(CallsOf(draws, ks - {k}), {draws[k].call});
      assert CallsOf(draws, ks) == CallsOf(draws, ks - {k}) + {draws[k].call};
    }
  }

  /**
   * However calls switch between Redis and the bucket, including pipelines that ran but whose reply
   * was lost, and whatever order pipelines and fallbacks run in, any window shorter than 60 seconds
   * by the longest delay admits fewer than three times the limit.
   */
  lemma AdmitsFewerThanThreeTimesLimit(rpm: nat, delay: real, start: real, evs: seq<Event>, t: real)
    requires rpm >= 1
    ensures |AdmittedIn(Run(rpm, delay, start, evs), t - (60.0 - delay), t)| < 3 * rpm
  {
    var l := Run(rpm, delay, start, evs);
    RunKeepsInv(rpm, delay, start, evs);
    AdmittedBound(rpm, delay, l, t);
  }

  lemma AdmittedBound(rpm: nat, delay: real, l: Limiter, t: real)
    requires rpm >= 1 && Inv(rpm, delay, l)
    ensures |AdmittedIn(l, t - (60.0 - delay), t)| < 3 * rpm
  {
    hide W.Inv, W.WindowsBounded, Balanced, B.Supply;
    var lo := t - (60.0 - delay);
    W.WindowBound(Settings(rpm, delay), l.window, t);
    BucketShare(l.bucket, l.draws, t + delay, 60.0);
    FullSupply(rpm);
    var viaRedis, drawn := W.AllowedIn(l.window.log, lo, t), GrantedIn(l.draws, t + delay - 60.0, t + delay);
    forall i | i in AdmittedIn(l, lo, t) ensures i in viaRedis + CallsOf(l.draws, drawn) {
      if GrantedCall(l.draws, i) {
        var k :| 0 <= k < |l.draws| && l.draws[k].call == i && l.draws[k].granted;
        assert Justified(Settings(rpm, delay), l, l.draws[k]);
        assert k in drawn;
      }
    }
    CallsOfCard(l.draws, drawn);
    CardUnion(viaRedis, CallsOf(l.draws, drawn));
    CardMonotone(AdmittedIn(l, lo, t), viaRedis + CallsOf(l.draws, drawn));
  }

  lemma FullSupply(rpm: nat)
    ensures B.Supply(Rate(rpm), 60.0) == rpm as real
    ensures rpm >= 1 ==> Rate(rpm) > 0.0
  {}

  // ----- the bound is reached -----

  lemma {:induction false} RunAppends(rpm: nat, delay: real, l: Limiter, evs: seq<Event>, more: seq<Event>)
    ensures RunFrom(rpm, delay, l, evs + more) == RunFrom(rpm, delay, RunFrom(rpm, delay, l, evs), more)
    decreases |more|
  {
    if more == [] {
      assert evs + more == evs;
    } else {
      RunAppends(rpm, delay, l, evs, more[..|more| - 1]);
      assert (evs + more)[..|evs + more| - 1] == evs + more[..|more| - 1];
    }
  }

  lemma RunTwo(rpm: nat, delay: real, l: Limiter, evs: seq<Event>, a: Event, b: Event)
    ensures RunFrom(rpm, delay, l, evs + [a, b])
         == Step(rpm, delay, Step(rpm, delay, RunFrom(rpm, delay, l, evs), a), b)
  {
    assert (evs + [a, b])[..|evs| + 1] == evs + [a] && (evs + [a])[..|evs|] == evs;
  }

  /** `n` calls through Redis at time 0. */
  function Spend(n: nat): seq<Event> {
    if n == 0 then [] else Spend(n - 1) + [Redis(W.Call(0.0, 0.0, W.Delivered))]
  }

  /** They were all allowed. */
  ghost predicate Spent(l: Limiter, n: nat) {
    && |l.window.log| == n && l.draws == [] && l.window.clock == 0.0 && |l.window.zset| <= n
    && forall i :: 0 <= i < n ==> l.window.log[i] == W.Request(0.0, 0.0, W.Allowed)
  }

  lemma {:induction false} SpendAllowed(rpm: nat, delay: real, n: nat)
    requires n <= rpm && delay >= 0.0
    ensures Spent(Run(rpm, delay, 0.0, Spend(n)), n)
    decreases n
  {
    if n > 0 {
      assert Spend(n)[..n - 1] == Spend(n - 1) by { SpendLength(n - 1); }
      SpendLength(n);
      SpendAllowed(rpm, delay, n - 1);
      SpendOne(rpm, delay, Run(rpm, delay, 0.0, Spend(n - 1)), n - 1);
    }
  }

  lemma {:induction false} SpendLength(n: nat)
    ensures |Spend(n)| == n
  {
    if n > 0 {
      SpendLength(n - 1);
    }
  }

  lemma SpendOne(rpm: nat, delay: real, l: Limiter, n: nat)
    requires Spent(l, n) && n < rpm && delay >= 0.0
    ensures Spent(Step(rpm, delay, l, Redis(W.Call(0.0, 0.0, W.Delivered))), n + 1)
  {
    var kept := W.Evict(l.window.zset, 0.0 - 60.0);
    CardMonotone(kept.Keys, l.window.zset.Keys);
    CardUnion(kept.Keys, {n});
    assert kept[n := 0.0].Keys == kept.Keys + {n};
    assert |kept[n := 0.0]| == |kept[n := 0.0].Keys|;
  }

  /** `n` calls, the first of them the `base`-th, that Redis does not answer and that fall back at once. */
  function Falls(base: nat, at: real, ranAt: real, n: nat): seq<Event> {
    if n == 0 then []
    else Falls(base, at, ranAt, n - 1) + [Redis(W.Call(at, ranAt, W.NotSent)), FallBack(base + n - 1, ranAt)]
  }

  /** From `l` to `m`, `n` such calls were made, and the bucket, holding `have`, granted them all. */
  ghost predicate Fell(rpm: nat, l: Limiter, m: Limiter, at: real, ranAt: real, n: nat, have: real) {
    && |m.window.log| == |l.window.log| + n && m.window.log[..|l.window.log|] == l.window.log
    && |m.draws| == |l.draws| + n && m.draws[..|l.draws|] == l.draws
    && (forall i :: |l.window.log| <= i < |m.window.log| ==>
          m.window.log[i] == W.Request(at, ranAt, W.Unavailable(false)))
    && (forall k :: |l.draws| <= k < |m.draws| ==> m.draws[k] == Draw(|l.window.log| + k - |l.draws|, ranAt, true))
    && m.window.clock <= ranAt
    && var left := BucketAt(rpm, l, ranAt).(tokens := have - n as real, lastRefill := ranAt);
       (n > 0 ==> m.draws != [] && m.bucket == left) && B.Refill(BucketAt(rpm, m, ranAt), ranAt) == left
  }

  /** `n` calls may fall back from `l` at `ranAt`. */
  ghost predicate MayFall(rpm: nat, delay: real, l: Limiter, at: real, ranAt: real, n: nat, have: real) {
    && at <= ranAt <= at + delay && l.window.clock <= ranAt && n as real <= have
    && have == B.Refill(BucketAt(rpm, l, ranAt), ranAt).tokens <= BucketAt(rpm, l, ranAt).capacity
    && forall k :: 0 <= k < |l.draws| ==> l.draws[k].call < |l.window.log| && l.draws[k].at <= ranAt
  }

  lemma {:induction false} FallsGranted(rpm: nat, delay: real, l: Limiter, at: real, ranAt: real, n: nat, have: real)
    requires MayFall(rpm, delay, l, at, ranAt, n, have)
    ensures Fell(rpm, l, RunFrom(rpm, delay, l, Falls(|l.window.log|, at, ranAt, n)), at, ranAt, n, have)
    decreases n
  {
    hide Step, RunFrom, B.Refill, BucketAt, Fell;
    var base := |l.window.log|;
    if n == 0 {
      NoneFell(rpm, delay, l, at, ranAt, have);
    } else {
      FallsGranted(rpm, delay, l, at, ranAt, n - 1, have);
      var before := Falls(base, at, ranAt, n - 1);
      RunTwo(rpm, delay, l, before, Redis(W.Call(at, ranAt, W.NotSent)), FallBack(base + n - 1, ranAt));
      OneMoreFell(rpm, delay, l, RunFrom(rpm, delay, l, before), at, ranAt, n - 1, have);
    }
  }

  lemma NoneFell(rpm: nat, delay: real, l: Limiter, at: real, ranAt: real, have: real)
    requires MayFall(rpm, delay, l, at, ranAt, 0, have)
    ensures Fell(rpm, l, RunFrom(rpm, delay, l, []), at, ranAt, 0, have)
  {}

  lemma OneMoreFell(rpm: nat, delay: real, l: Limiter, m: Limiter, at: real, ranAt: real, n: nat, have: real)
    requires MayFall(rpm, delay, l, at, ranAt, n + 1, have) && Fell(rpm, l, m, at, ranAt, n, have)
    ensures var m' := Step(rpm, delay, m, Redis(W.Call(at, ranAt, W.NotSent)));
            Fell(rpm, l, Step(rpm, delay, m', FallBack(|l.window.log| + n, ranAt)), at, ranAt, n + 1, have)
  {
    hide B.Refill, BucketAt;
    FallsOnce(rpm, delay, m, at, ranAt);
    DrawOne(BucketAt(rpm, m, ranAt), ranAt);
    NotFirst(rpm, delay, m, at, ranAt);
  }

  lemma NotFirst(rpm: nat, delay: real, m: Limiter, at: real, ranAt: real)
    requires FallsNow(delay, m, at, ranAt)
    ensures var m' := Step(rpm, delay, m, Redis(W.Call(at, ranAt, W.NotSent)));
            var m'' := Step(rpm, delay, m', FallBack(|m.window.log|, ranAt));
            BucketAt(rpm, m'', ranAt) == m''.bucket
  {}

  ghost predicate FallsNow(delay: real, m: Limiter, at: real, ranAt: real) {
    && at <= ranAt <= at + delay && m.window.clock <= ranAt
    && forall k :: 0 <= k < |m.draws| ==> m.draws[k].call < |m.window.log| && m.draws[k].at <= ranAt
  }

  lemma FallsOnce(rpm: nat, delay: real, m: Limiter, at: real, ranAt: real)
    requires FallsNow(delay, m, at, ranAt)
    ensures var m' := Step(rpm, delay, m, Redis(W.Call(at, ranAt, W.NotSent)));
      var (b, ok) := B.Draw(BucketAt(rpm, m, ranAt), ranAt, 1.0);
      Step(rpm, delay, m', FallBack(|m.window.log|, ranAt))
        == Limiter(m.window.(clock := ranAt, log := m.window.log + [W.Request(at, ranAt, W.Unavailable(false))]),
                   b, m.draws + [Draw(|m.window.log|, ranAt, ok)])
  {
    hide B.Draw;
  }

  /** Drawing one token from a bucket that has it, and looking again at once. */
  lemma DrawOne(b: B.Bucket, now: real)
    requires 1.0 <= B.Refill(b, now).tokens
    ensures var (b', ok) := B.Draw(b, now, 1.0);
      ok && b' == B.Refill(b, now).(tokens := B.Refill(b, now).tokens - 1.0) && B.Refill(b', now) == b'
  {
    B.SupplyAdds(b.rate, 0.0, 0.0);
    hide B.Supply;
  }

  function LastMoment(rpm: nat): real
    requires rpm >= 1
  {
    60.0 - 60.0 / rpm as real
  }

  /** `rpm` calls through Redis, then `rpm` through the full bucket, then, as late as the window and the
      delay last, through what the bucket has refilled. */
  function WorstCase(rpm: nat, delay: real): seq<Event>
    requires rpm >= 1
  {
    Spend(rpm) + Falls(rpm, 0.0, 0.0, rpm) + Falls(2 * rpm, LastMoment(rpm) - delay, LastMoment(rpm), rpm - 1)
  }

  /** The bound cannot be lowered: for every limit, and delays up to what the window leaves, there is
      a run, and a window, that reaches it. */
  lemma ThreeTimesLimitIsReached(rpm: nat, delay: real)
    requires rpm >= 1 && 0.0 <= delay <= LastMoment(rpm)
    ensures var t := LastMoment(rpm) - delay;
            |AdmittedIn(Run(rpm, delay, 0.0, WorstCase(rpm, delay)), t - (60.0 - delay), t)| == 3 * rpm - 1
  {
    hide Step, RunFrom, Falls, Spend, Fell, MayFall, Spent, LastMoment, AdmittedIn, Initial;
    var at := LastMoment(rpm);
    var l0 := Initial(rpm, 0.0);
    var first, second, third := Spend(rpm), Falls(rpm, 0.0, 0.0, rpm), Falls(2 * rpm, at - delay, at, rpm - 1);
    var l1 := RunFrom(rpm, delay, l0, first);
    var l2 := RunFrom(rpm, delay, l1, second);
    var l3 := RunFrom(rpm, delay, l2, third);
    SpendAllowed(rpm, delay, rpm);
    FullBucket(rpm, delay, l1);
    FallsGranted(rpm, delay, l1, 0.0, 0.0, rpm, rpm as real);
    RefilledBucket(rpm, delay, l1, l2);
    FallsGranted(rpm, delay, l2, at - delay, at, rpm - 1, (rpm - 1) as real);
    AllAdmitted(rpm, delay, l1, l2, l3);
    RunAppends(rpm, delay, l0, first, second);
    RunAppends(rpm, delay, l0, first + second, third);
  }

  lemma FullBucket(rpm: nat, delay: real, l: Limiter)
    requires Spent(l, rpm) && delay >= 0.0
    ensures MayFall(rpm, delay, l, 0.0, 0.0, rpm, rpm as real)
  {
    B.SupplyGrows(Rate(rpm), 0.0, 0.0);
  }

  /** By the last moment all but one token has flowed back. */
  lemma RefilledBucket(rpm: nat, delay: real, l1: Limiter, l2: Limiter)
    requires rpm >= 1 && 0.0 <= delay <= LastMoment(rpm)
    requires Spent(l1, rpm) && Fell(rpm, l1, l2, 0.0, 0.0, rpm, rpm as real)
    ensures MayFall(rpm, delay, l2, LastMoment(rpm) - delay, LastMoment(rpm), rpm - 1, (rpm - 1) as real)
    ensures |l2.window.log| == 2 * rpm
  {
    LateSupply(rpm);
    hide B.Supply, LastMoment;
  }

  lemma LateSupply(rpm: nat)
    requires rpm >= 1
    ensures B.Supply(Rate(rpm), LastMoment(rpm)) == (rpm - 1) as real && 0.0 <= LastMoment(rpm) < 60.0
  {
    var n := rpm as real;
    calc {
      B.Supply(Rate(rpm), LastMoment(rpm));
      (60.0 - 60.0 / n) * (n / 60.0);
      60.0 * (n / 60.0) - (60.0 / n) * (n / 60.0);
      n - 1.0;
    }
    Ratio(60.0, n);
    QuotientOrder(60.0, 60.0 * n, n);
  }

  /** The three rounds, one after the other. */
  ghost predicate Rounds(rpm: nat, delay: real, l1: Limiter, l2: Limiter, l3: Limiter) {
    && rpm >= 1 && Spent(l1, rpm) && Fell(rpm, l1, l2, 0.0, 0.0, rpm, rpm as real)
    && Fell(rpm, l2, l3, LastMoment(rpm) - delay, LastMoment(rpm), rpm - 1, (rpm - 1) as real)
  }

  lemma AllAdmitted(rpm: nat, delay: real, l1: Limiter, l2: Limiter, l3: Limiter)
    requires rpm >= 1 && Rounds(rpm, delay, l1, l2, l3) && 0.0 <= delay <= LastMoment(rpm)
    ensures var t := LastMoment(rpm) - delay; |AdmittedIn(l3, t - (60.0 - delay), t)| == 3 * rpm - 1
  {
    hide Rounds, LastMoment;
    var t := LastMoment(rpm) - delay;
    var all, admitted := Range(0, 3 * rpm - 1), AdmittedIn(l3, t - (60.0 - delay), t);
    OneAdmitted(rpm, delay, l1, l2, l3, 0);
    forall i ensures i in all <==> i in admitted {
      if 0 <= i < 3 * rpm - 1 {
        OneAdmitted(rpm, delay, l1, l2, l3, i);
      }
    }
    assert admitted == all;
    RangeCard(0, 3 * rpm - 1);
  }

  lemma OneAdmitted(rpm: nat, delay: real, l1: Limiter, l2: Limiter, l3: Limiter, i: int)
    requires rpm >= 1 && Rounds(rpm, delay, l1, l2, l3) && 0.0 <= delay <= LastMoment(rpm) && 0 <= i < 3 * rpm - 1
    ensures |l3.window.log| == 3 * rpm - 1
    ensures var t := LastMoment(rpm) - delay; i in AdmittedIn(l3, t - (60.0 - delay), t)
  {
    LateSupply(rpm);
    assert LastMoment(rpm) < 60.0 by { LateSupply(rpm); }
    hide B.Refill, BucketAt, LastMoment;
    var log := l3.window.log;
    if i < 2 * rpm {
      assert log[i] == l3.window.log[..2 * rpm][i] == l2.window.log[i];
      if i < rpm {
        assert l2.window.log[i] == l2.window.log[..rpm][i] == l1.window.log[i];
      } else {
        assert l3.draws[i - rpm] == l3.draws[..rpm][i - rpm] == l2.draws[i - rpm];
        assert l3.draws[i - rpm].call == i && l3.draws[i - rpm].granted;
      }
    } else {
      assert l3.draws[i - rpm].call == i && l3.draws[i - rpm].granted;
    }
  }

  /** `_limiter`: Redis decides when it answers, otherwise the in-process bucket does.  Other calls run
      between the two sections of one call. */
  class RateLimiter {
    const apiKey: string
    const rpm: nat
    const redis: W.SortedSetKey
    const table: B.BucketTable
    ghost const start: real
    ghost var draws: seq<Draw>

    ghost function Bucket(): B.Bucket
      reads table, table.buckets.Values
    {
      if apiKey in table.View() then table.View()[apiKey] else B.Fresh(rpm as real, Rate(rpm), start)
    }

    ghost function View(): Limiter
      reads this, redis, table, table.buckets.Values
    {
      Limiter(redis.View(), Bucket(), draws)
    }

    ghost function Delay(): real {
      redis.config.delay
    }

    ghost predicate Valid()
      reads this, redis, table, table.buckets.Values
    {
      && redis.Valid() && table.Valid() && redis.config == Settings(rpm, Delay())
      && (apiKey in table.buckets <==> draws != [])
      && Inv(rpm, Delay(), View())
    }

    constructor (apiKey: string, rpm: nat, redis: W.SortedSetKey, table: B.BucketTable, start: real)
      requires redis.Valid() && redis.config == Settings(rpm, redis.config.delay) && redis.View() == W.Initial(start)
      requires table.Valid() && apiKey !in table.buckets
      ensures Valid() && this.rpm == rpm && View() == Initial(rpm, start)
    {
      this.apiKey, this.rpm, this.redis, this.table := apiKey, rpm, redis, table;
      this.start := start;
      draws := [];
      new;
      RunKeepsInv(rpm, redis.config.delay, start, []);
    }

    /** The first section: the sliding window's answer. */
    method AskRedis(at: real, ranAt: real, delivery: W.Delivery) returns (verdict: W.Verdict)
      requires Valid() && Enabled(Settings(rpm, Delay()), View(), Redis(W.Call(at, ranAt, delivery)))
      modifies redis
      ensures Valid()
      ensures View() == Step(rpm, Delay(), old(View()), Redis(W.Call(at, ranAt, delivery)))
      ensures redis.log == old(redis.log) + [W.Request(at, ranAt, verdict)]
    {
      StepKeepsInv(rpm, Delay(), View(), Redis(W.Call(at, ranAt, delivery)));
      hide Inv, W.AfterCall, W.Counted, W.Inv, W.WindowsBounded;
      verdict := redis.Check(at, ranAt, delivery);
    }

    /** The second section of a call that Redis left undecided: the bucket's answer. */
    method AskBucket(ghost call: int, now: real) returns (allowed: bool)
      requires Valid() && Enabled(Settings(rpm, Delay()), View(), FallBack(call, now))
      modifies this, table, table.buckets.Values
      ensures Valid()
      ensures View() == Step(rpm, Delay(), old(View()), FallBack(call, now))
      ensures draws == old(draws) + [Draw(call, now, allowed)]
    {
      hide Inv, B.Draw, B.Fresh, Justified;
      StepKeepsInv(rpm, Delay(), View(), FallBack(call, now));
      CapacityIs(rpm, Delay(), View());
      allowed := table.InProcessAllow(apiKey, rpm, now);
      draws := draws + [Draw(call, now, allowed)];
      assert apiKey in table.View();
    }

    /** A whole call that nothing interrupts, decided at `now`. */
    method Admit(at: real, ranAt: real, delivery: W.Delivery, now: real) returns (allowed: bool)
      requires Valid() && Enabled(Settings(rpm, Delay()), View(), Redis(W.Call(at, ranAt, delivery)))
      requires ranAt <= now <= at + Delay() && forall k :: 0 <= k < |draws| ==> draws[k].at <= now
      modifies this, redis, table, table.buckets.Values
      ensures Valid()
      ensures |redis.log| == |old(redis.log)| + 1 && old(draws) <= draws
      ensures allowed <==> redis.log[|redis.log| - 1].verdict == W.Allowed || GrantedCall(draws, |redis.log| - 1)
      ensures redis.log[|redis.log| - 1].verdict.Unavailable? <==> draws != old(draws)
    {
      hide Inv, GrantedCall, Step, W.Inv, W.WindowsBounded;
      DrawsAreOfCalls(rpm, Delay(), View());
      ghost var call := |redis.log|;
      NewCallNotGranted(draws, call);
      var verdict := AskRedis(at, ranAt, delivery);
      if verdict.Unavailable? {
        GrantedNow(draws, call, now);
        allowed := AskBucket(call, now);
      } else {
        allowed := verdict == W.Allowed;
      }
    }
  }

  lemma CapacityIs(rpm: nat, delay: real, l: Limiter)
    requires Inv(rpm, delay, l)
    ensures l.bucket.capacity == rpm as real
  {}

  lemma NewCallNotGranted(draws: seq<Draw>, call: int)
    requires forall k :: 0 <= k < |draws| ==> draws[k].call < call
    ensures !GrantedCall(draws, call)
  {}

  lemma GrantedNow(draws: seq<Draw>, call: int, now: real)
    requires !GrantedCall(draws, call)
    ensures forall allowed :: GrantedCall(draws + [Draw(call, now, allowed)], call) <==> allowed
  {
    forall allowed ensures GrantedCall(draws + [Draw(call, now, allowed)], call) <==> allowed {
      var all := draws + [Draw(call, now, allowed)];
      assert all[|draws|].call == call;
      assert forall k :: 0 <= k < |draws| ==> all[k] == draws[k];
    }
  }

  lemma DrawsAreOfCalls(rpm: nat, delay: real, l: Limiter)
    requires Inv(rpm, delay, l)
    ensures forall k :: 0 <= k < |l.draws| ==> 0 <= l.draws[k].call < |l.window.log|
  {
    forall k | 0 <= k < |l.draws| ensures 0 <= l.draws[k].call < |l.window.log| {
      assert Justified(Settings(rpm, delay), l, l.draws[k]);
    }
  }
}
