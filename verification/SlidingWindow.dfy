/**
 * The distributed sliding-window limiter: one Redis sorted set per key, an atomic pipeline
 * per call, and a separate undo that may be late or never arrive.
 */
module SlidingWindow {
  import opened Sets

  /** What one call answers: True, False, or None (with or without the pipeline having run). */
  datatype Verdict = Allowed | Rejected | Unavailable(ran: bool)

  /** How the Redis round trip of one call went. */
  datatype Delivery = Delivered | ReplyLost | NotSent

  /** A call samples the time, `at`, before it awaits the pipeline, which runs at `ranAt`. */
  datatype Request = Request(at: real, ranAt: real, verdict: Verdict)

  /** `delay` bounds the time from sampling to running, so pipelines may run out of order by as much. */
  datatype Config = Config(limit: nat, window: real, delay: real)

  /**
   * `zset` maps a member to its score.  Members are UUIDs; the i-th call's member is `i`.
   * `log` and `undone` are the history: every call so far, in the order in which the pipelines ran,
   * and the members whose undo arrived.
   */
  datatype System = System(zset: map<int, real>, expiresAt: real, clock: real,
                           log: seq<Request>, undone: set<int>)

  datatype Event =
    | Call(at: real, ranAt: real, delivery: Delivery)
    | Undo(member: int)
    | Expire(now: real)

  function Initial(start: real): System {
    System(map[], start, start, [], {})
  }

  /** ZREMRANGEBYSCORE key -inf cutoff. */
  function Evict(zset: map<int, real>, cutoff: real): map<int, real> {
    map m | m in zset && zset[m] > cutoff :: zset[m]
  }

  /** Time does not run backwards, only a rejected call undoes, and only a due key expires. */
  predicate Enabled(c: Config, s: System, ev: Event) {
    match ev
    case Call(at, ranAt, _) => ranAt >= s.clock && at <= ranAt <= at + c.delay
    case Undo(m) => 0 <= m < |s.log| && s.log[m].verdict == Rejected
    case Expire(now) => now >= s.clock && now >= s.expiresAt
  }

  function AfterCall(c: Config, s: System, at: real, ranAt: real, delivery: Delivery): System {
    if delivery == NotSent then
      s.(clock := ranAt, log := s.log + [Request(at, ranAt, Unavailable(false))])
    else
      var zset := Evict(s.zset, at - c.window)[|s.log| := at];
      var verdict := if delivery == ReplyLost then Unavailable(true)
                     else if |zset| > c.limit then Rejected else Allowed;
      System(zset, ranAt + c.window + 1.0, ranAt, s.log + [Request(at, ranAt, verdict)], s.undone)
  }

  /** One atomic step of the whole system; an event that cannot happen changes nothing. */
  function Step(c: Config, s: System, ev: Event): System {
    if !Enabled(c, s, ev) then s else
    match ev
    case Call(at, ranAt, delivery) => AfterCall(c, s, at, ranAt, delivery)
    case Undo(m) =>
      s.(zset := map k | k in s.zset && k != m :: s.zset[k], undone := s.undone + {m})
    case Expire(now) =>
      s.(zset := map[], clock := now)
  }

  function Run(c: Config, start: real, evs: seq<Event>): System {
    if evs == [] then Initial(start)
    else Step(c, Run(c, start, evs[..|evs| - 1]), evs[|evs| - 1])
  }

  /** The allowed calls that sampled a time in the half-open interval `(lo, hi]`. */
  function AllowedIn(log: seq<Request>, lo: real, hi: real): set<int> {
    set i | 0 <= i < |log| && log[i].verdict == Allowed && lo < log[i].at <= hi
  }

  predicate Ran(r: Request) {
    r.verdict != Unavailable(false)
  }

  /** A pipeline that ran later, with a later time, evicted the member. */
  predicate Evicted(c: Config, log: seq<Request>, i: int)
    requires 0 <= i < |log|
  {
    exists k :: i < k < |log| && Ran(log[k]) && log[i].at <= log[k].at - c.window
  }

  /** The calls counted by a pipeline of time `at`: theirs ran, nobody undid or evicted them, and they
      are younger than the window. */
  function Counted(c: Config, s: System, at: real): set<int> {
    set i | 0 <= i < |s.log| && Ran(s.log[i]) && i !in s.undone && !Evicted(c, s.log, i) && s.log[i].at > at - c.window
  }

  ghost predicate Ordered(c: Config, s: System) {
    && (forall i :: 0 <= i < |s.log| ==> s.log[i].at <= s.log[i].ranAt <= s.log[i].at + c.delay)
    && (forall i :: 0 <= i < |s.log| ==> s.log[i].ranAt <= s.clock)
    && (forall i, j :: 0 <= i <= j < |s.log| ==> s.log[i].ranAt <= s.log[j].ranAt)
  }

  /** Every stored member belongs to a call whose pipeline ran and that nobody undid or evicted, with
      its time as the score, and outlives no expiry. */
  ghost predicate Faithful(c: Config, s: System) {
    && (forall m :: m in s.undone ==> 0 <= m < |s.log| && s.log[m].verdict == Rejected)
    && (forall m :: m in s.zset ==>
          && 0 <= m < |s.log| && m !in s.undone && Ran(s.log[m]) && !Evicted(c, s.log, m)
          && s.zset[m] == s.log[m].at)
    && (forall i :: 0 <= i < |s.log| && Ran(s.log[i]) ==> s.log[i].at <= s.expiresAt - c.window - 1.0)
  }

  /** A member younger than the window is stored, whatever order the pipelines ran in. */
  ghost predicate YoungKept(c: Config, s: System) {
    forall i :: 0 <= i < |s.log| && Ran(s.log[i]) && i !in s.undone && s.log[i].at > s.clock - c.window ==> i in s.zset
  }

  /** Some later call may count the member. */
  predicate Countable(c: Config, s: System, i: int)
    requires 0 <= i < |s.log|
  {
    Ran(s.log[i]) && i !in s.undone && !Evicted(c, s.log, i) && s.log[i].at > s.clock - c.delay - c.window
  }

  /** With delays within the key's extra second, so is every other one that a call can still count. */
  ghost predicate CountedKept(c: Config, s: System) {
    c.delay <= 1.0 ==> forall i :: 0 <= i < |s.log| && Countable(c, s, i) ==> i in s.zset
  }

  /** What every step keeps. */
  ghost predicate Inv(c: Config, s: System) {
    Ordered(c, s) && Faithful(c, s) && YoungKept(c, s) && CountedKept(c, s)
  }

  /** When an allowed call's pipeline ran, the allowed calls no older than a window numbered at most `limit`. */
  ghost predicate WindowsBounded(c: Config, s: System) {
    forall j :: 0 <= j < |s.log| && s.log[j].verdict == Allowed ==>
      |AllowedUpTo(c, s.log, j)| <= c.limit
  }

  function AllowedUpTo(c: Config, log: seq<Request>, j: nat): set<int>
    requires j < |log|
  {
    set i | 0 <= i <= j && log[i].verdict == Allowed && log[i].at > log[j].ranAt - c.window
  }

  /** After eviction, the sorted set holds exactly the counted calls. */
  lemma EvictedIsCounted(c: Config, s: System, at: real, ranAt: real)
    requires Inv(c, s) && c.delay <= 1.0 && s.clock <= ranAt <= at + c.delay
    ensures Evict(s.zset, at - c.window).Keys == Counted(c, s, at)
    ensures |s.log| !in Evict(s.zset, at - c.window)
  {
    hide Evicted;
  }

  /**
   * A delivered call is allowed exactly when fewer than `limit` calls are counted.
   */
  lemma AllowedExactly(c: Config, s: System, at: real, ranAt: real)
    requires Inv(c, s) && c.delay <= 1.0 && Enabled(c, s, Call(at, ranAt, Delivered))
    ensures var s' := Step(c, s, Call(at, ranAt, Delivered));
            s'.log[|s.log|].verdict == (if |Counted(c, s, at)| < c.limit then Allowed else Rejected)
  {
    EvictedIsCounted(c, s, at, ranAt);
    AddedMember(Evict(s.zset, at - c.window), |s.log|, at);
    hide Counted;
  }

  lemma AddedMember(z: map<int, real>, member: int, now: real)
    requires member !in z
    ensures |z[member := now]| == |z.Keys| + 1
  {
    assert z[member := now].Keys == z.Keys + {member};
  }

  /** One more pipeline evicts what it is a window younger than. */
  lemma EvictedNext(c: Config, log: seq<Request>, r: Request, i: int)
    requires 0 <= i < |log|
    ensures Evicted(c, log + [r], i) <==> Evicted(c, log, i) || (Ran(r) && log[i].at <= r.at - c.window)
  {
    var all := log + [r];
    if k :| i < k < |log| && Ran(log[k]) && log[i].at <= log[k].at - c.window {
      assert Ran(all[k]) && all[i].at <= all[k].at - c.window;
    }
    if Ran(r) && log[i].at <= r.at - c.window {
      assert Ran(all[|log|]) && all[i].at <= all[|log|].at - c.window;
    }
  }

  lemma NeverEvictedLast(c: Config, log: seq<Request>, r: Request)
    ensures !Evicted(c, log + [r], |log|)
  {}

  lemma StepKeepsOrder(c: Config, s: System, ev: Event)
    requires Ordered(c, s)
    ensures Ordered(c, Step(c, s, ev))
  {}

  lemma StepKeepsFaith(c: Config, s: System, ev: Event)
    requires Ordered(c, s) && Faithful(c, s)
    ensures Faithful(c, Step(c, s, ev))
  {
    hide Evicted;
    if Enabled(c, s, ev) && ev.Call? {
      var s' := Step(c, s, ev);
      var r := s'.log[|s.log|];
      assert s'.log == s.log + [r];
      NeverEvictedLast(c, s.log, r);
      forall m | m in s'.zset && m < |s.log| ensures !Evicted(c, s'.log, m) {
        EvictedNext(c, s.log, r, m);
      }
    }
  }

  lemma StepKeepsYoung(c: Config, s: System, ev: Event)
    requires Ordered(c, s) && Faithful(c, s) && YoungKept(c, s)
    ensures YoungKept(c, Step(c, s, ev))
  {
    hide Evicted;
  }

  lemma StepKeepsCounted(c: Config, s: System, ev: Event)
    requires Ordered(c, s) && Faithful(c, s) && CountedKept(c, s)
    ensures CountedKept(c, Step(c, s, ev))
  {
    hide Evicted;
    if Enabled(c, s, ev) && ev.Call? {
      var s' := Step(c, s, ev);
      var r := s'.log[|s.log|];
      assert s'.log == s.log + [r];
      forall i | 0 <= i < |s.log| && !Evicted(c, s'.log, i)
        ensures !Evicted(c, s.log, i) && (Ran(r) ==> s.log[i].at > r.at - c.window)
      {
        EvictedNext(c, s.log, r, i);
      }
    }
  }

  lemma StepKeepsInv(c: Config, s: System, ev: Event)
    requires Inv(c, s)
    ensures Inv(c, Step(c, s, ev))
  {
    hide Step, Ordered, Faithful, YoungKept, CountedKept;
    StepKeepsOrder(c, s, ev);
    StepKeepsFaith(c, s, ev);
    StepKeepsYoung(c, s, ev);
    StepKeepsCounted(c, s, ev);
  }

  lemma StepKeepsBound(c: Config, s: System, ev: Event)
    requires Inv(c, s) && WindowsBounded(c, s)
    ensures WindowsBounded(c, Step(c, s, ev))
  {
    hide Inv;
    var s' := Step(c, s, ev);
    forall j | 0 <= j < |s'.log| && s'.log[j].verdict == Allowed
      ensures |AllowedUpTo(c, s'.log, j)| <= c.limit
    {
      if j < |s.log| {
        SameUpTo(c, s.log, s'.log, j);
      } else {
        NewestBound(c, s, ev.at, ev.ranAt);
      }
    }
  }

  lemma SameUpTo(c: Config, log: seq<Request>, log': seq<Request>, j: nat)
    requires j < |log| && log <= log'
    ensures AllowedUpTo(c, log', j) == AllowedUpTo(c, log, j)
  {
    assert forall i :: 0 <= i <= j ==> log'[i] == log[i];
  }

  lemma NewestBound(c: Config, s: System, at: real, ranAt: real)
    requires Inv(c, s) && Enabled(c, s, Call(at, ranAt, Delivered))
    requires Step(c, s, Call(at, ranAt, Delivered)).log[|s.log|].verdict == Allowed
    ensures |AllowedUpTo(c, Step(c, s, Call(at, ranAt, Delivered)).log, |s.log|)| <= c.limit
  {
    hide Evicted;
    var s' := Step(c, s, Call(at, ranAt, Delivered));
    StepKeepsInv(c, s, Call(at, ranAt, Delivered));
    assert AllowedUpTo(c, s'.log, |s.log|) <= s'.zset.Keys;
    CardMonotone(AllowedUpTo(c, s'.log, |s.log|), s'.zset.Keys);
    assert |s'.zset| == |s'.zset.Keys|;
  }

  lemma {:induction false} RunKeepsInv(c: Config, start: real, evs: seq<Event>)
    ensures Inv(c, Run(c, start, evs)) && WindowsBounded(c, Run(c, start, evs))
  {
    if evs != [] {
      var s := Run(c, start, evs[..|evs| - 1]);
      RunKeepsInv(c, start, evs[..|evs| - 1]);
      StepKeepsInv(c, s, evs[|evs| - 1]);
      StepKeepsBound(c, s, evs[|evs| - 1]);
    }
  }

  /** The calls that happened in a run, in order. */
  function Calls(c: Config, start: real, evs: seq<Event>): seq<Event> {
    if evs == [] then [] else
    var before, ev := evs[..|evs| - 1], evs[|evs| - 1];
    if ev.Call? && Enabled(c, Run(c, start, before), ev) then Calls(c, start, before) + [ev]
    else Calls(c, start, before)
  }

  /** When the key expires: a second more than a window after the last of these pipelines to run. */
  function Expiry(c: Config, start: real, calls: seq<Event>): real
    requires forall i :: 0 <= i < |calls| ==> calls[i].Call?
  {
    if calls == [] then start else
    var last := calls[|calls| - 1];
    if last.delivery == NotSent then Expiry(c, start, calls[..|calls| - 1]) else last.ranAt + (c.window + 1.0)
  }

  /** A call is on record with its times, undecided exactly if its reply did not arrive. */
  predicate Records(r: Request, call: Event)
    requires call.Call?
  {
    && r.at == call.at && r.ranAt == call.ranAt
    && (r.verdict.Unavailable? <==> call.delivery != Delivered)
    && (r.verdict.Unavailable? ==> (r.verdict.ran <==> call.delivery == ReplyLost))
  }

  /** Over every run the log records exactly the calls that happened, and the key expires a window and
      a second after the last of their pipelines. */
  lemma {:induction false} RunRecordsCalls(c: Config, start: real, evs: seq<Event>)
    ensures var s, calls := Run(c, start, evs), Calls(c, start, evs);
      && |s.log| == |calls| && (forall i :: 0 <= i < |calls| ==> calls[i].Call? && Records(s.log[i], calls[i]))
      && s.expiresAt == Expiry(c, start, calls)
  {
    if evs != [] {
      RunRecordsCalls(c, start, evs[..|evs| - 1]);
      hide Run, Evict;
    }
  }

  /** How many calls there had been when the key last expired. */
  function ExpiredAfter(c: Config, start: real, evs: seq<Event>): nat {
    if evs == [] then 0 else
    var before, ev := evs[..|evs| - 1], evs[|evs| - 1];
    if ev.Expire? && Enabled(c, Run(c, start, before), ev) then |Calls(c, start, before)|
    else ExpiredAfter(c, start, before)
  }

  /** What is stored: the members of pipelines that ran since the key expired, neither undone nor evicted. */
  ghost predicate StoresFrom(c: Config, s: System, n: nat) {
    forall i :: i in s.zset <==> n <= i < |s.log| && Ran(s.log[i]) && i !in s.undone && !Evicted(c, s.log, i)
  }

  lemma StepStores(c: Config, s: System, ev: Event, n: nat)
    requires Inv(c, s) && StoresFrom(c, s, n) && n <= |s.log| && Enabled(c, s, ev)
    ensures StoresFrom(c, Step(c, s, ev), if ev.Expire? then |s.log| else n)
  {
    hide Evicted, Ordered, YoungKept, CountedKept;
    var s' := Step(c, s, ev);
    if ev.Call? {
      var r := s'.log[|s.log|];
      assert s'.log == s.log + [r];
      NeverEvictedLast(c, s.log, r);
      forall i | 0 <= i < |s.log|
        ensures Evicted(c, s'.log, i) <==> Evicted(c, s.log, i) || (Ran(r) && s.log[i].at <= r.at - c.window)
      {
        EvictedNext(c, s.log, r, i);
      }
    }
  }

  /** Over every run exactly those are stored. */
  lemma {:induction false} RunStores(c: Config, start: real, evs: seq<Event>)
    ensures StoresFrom(c, Run(c, start, evs), ExpiredAfter(c, start, evs))
    ensures ExpiredAfter(c, start, evs) <= |Run(c, start, evs).log|
  {
    hide Step, StoresFrom, Inv, Enabled;
    if evs == [] {
      assert StoresFrom(c, Initial(start), 0) by { NothingStored(c, start); }
    } else {
      var before, ev := evs[..|evs| - 1], evs[|evs| - 1];
      RunStores(c, start, before);
      RunKeepsInv(c, start, before);
      RunRecordsCalls(c, start, before);
      RunRecordsCalls(c, start, evs);
      if Enabled(c, Run(c, start, before), ev) {
        StepStores(c, Run(c, start, before), ev, ExpiredAfter(c, start, before));
      } else {
        Idle(c, Run(c, start, before), ev);
      }
    }
  }

  /** Of these, the ones younger than the window when a call of time `at` is made. */
  function CountedFrom(c: Config, s: System, at: real, n: nat): set<int> {
    set i | n <= i < |s.log| && Ran(s.log[i]) && i !in s.undone && !Evicted(c, s.log, i) && s.log[i].at > at - c.window
  }

  lemma {:induction false} KeptAreCounted(c: Config, s: System, at: real, n: nat)
    requires Inv(c, s) && StoresFrom(c, s, n)
    ensures Evict(s.zset, at - c.window).Keys == CountedFrom(c, s, at, n)
  {
    hide Evicted, Ordered, YoungKept, CountedKept;
    forall i
      ensures i in Evict(s.zset, at - c.window).Keys <==> i in CountedFrom(c, s, at, n)
    {
      if i in s.zset {
        assert s.zset[i] == s.log[i].at;
      }
    }
  }

  /** Over every run, whatever the delays, a delivered call is allowed exactly if they are fewer than `limit`. */
  lemma DecidesExactly(c: Config, start: real, evs: seq<Event>, at: real, ranAt: real)
    requires Enabled(c, Run(c, start, evs), Call(at, ranAt, Delivered))
    ensures var s := Run(c, start, evs);
      Step(c, s, Call(at, ranAt, Delivered)).log[|s.log|].verdict
        == if |CountedFrom(c, s, at, ExpiredAfter(c, start, evs))| < c.limit then Allowed else Rejected
  {
    hide Run, Evicted, Calls, ExpiredAfter;
    var s, n := Run(c, start, evs), ExpiredAfter(c, start, evs);
    RunStores(c, start, evs);
    RunKeepsInv(c, start, evs);
    KeptAreCounted(c, s, at, n);
    AddedMember(Evict(s.zset, at - c.window), |s.log|, at);
  }

  lemma NothingStored(c: Config, start: real)
    ensures StoresFrom(c, Initial(start), 0)
  {}

  lemma Idle(c: Config, s: System, ev: Event)
    requires !Enabled(c, s, ev)
    ensures Step(c, s, ev) == s
  {}

  /**
   * Safety of every run: however the pipelines, out of order by up to `delay`, the late or lost
   * undos, the lost replies and the key expiries interleave, every half-open interval shorter than
   * the window by `delay` holds at most `limit` allowed calls.
   */
  lemma NeverMoreThanLimit(c: Config, start: real, evs: seq<Event>, t: real)
    ensures |AllowedIn(Run(c, start, evs).log, t - (c.window - c.delay), t)| <= c.limit
  {
    RunKeepsInv(c, start, evs);
    WindowBound(c, Run(c, start, evs), t);
  }

  lemma WindowBound(c: Config, s: System, t: real)
    requires Inv(c, s) && WindowsBounded(c, s)
    ensures |AllowedIn(s.log, t - (c.window - c.delay), t)| <= c.limit
  {
    hide Faithful, YoungKept, CountedKept;
    var a := AllowedIn(s.log, t - (c.window - c.delay), t);
    if a != {} {
      var j := Maximum(a);
      assert a <= AllowedUpTo(c, s.log, j);
      CardMonotone(a, AllowedUpTo(c, s.log, j));
    }
  }

  /** The length up to which intervals are safe: the window less the delay. */
  function SafeLength(c: Config): real {
    if c.delay < c.window then c.window - c.delay else 0.0
  }

  // A run that a delay makes exceed the limit, for every limit: `limit` calls are allowed at 0, as
  // many rejected half a window later and one more when the window is over, whose pipeline evicts the
  // allowed ones; the rejected ones are undone; then a call runs that sampled its time `delay` ago.

  function TimeOf(c: Config, i: int): real {
    if i < c.limit then 0.0 else if i < 2 * c.limit then c.window / 2.0 else c.window
  }

  function Overtaking(c: Config, i: nat): Event {
    if i <= 2 * c.limit then Call(TimeOf(c, i), TimeOf(c, i), Delivered)
    else if i <= 3 * c.limit + 1 then Undo(i - c.limit - 1)
    else Call(SafeLength(c), c.window, Delivered)
  }

  function Overtakings(c: Config, n: nat): (evs: seq<Event>)
    ensures |evs| == n
  {
    if n == 0 then [] else Overtakings(c, n - 1) + [Overtaking(c, n - 1)]
  }

  /** What is stored after `i` of these events: the members of `[lo, hi)`. */
  function Stored(c: Config, i: nat): (int, int) {
    if i <= 2 * c.limit then (0, i) else (i - c.limit - 1, 2 * c.limit + 1)
  }

  function Members(c: Config, lo: int, hi: int): map<int, real> {
    map m | lo <= m < hi :: TimeOf(c, m)
  }

  ghost predicate Overtaken(c: Config, s: System, i: nat) {
    var (lo, hi) := Stored(c, i);
    && s.clock == TimeOf(c, hi - 1) && s.zset == Members(c, lo, hi) && |s.log| == hi
    && forall m :: 0 <= m < hi ==>
         s.log[m] == Request(TimeOf(c, m), TimeOf(c, m), if m < c.limit then Allowed else Rejected)
  }

  lemma MembersCard(c: Config, lo: int, hi: int)
    requires lo <= hi
    ensures |Members(c, lo, hi)| == hi - lo
  {
    hide TimeOf;
    assert Members(c, lo, hi).Keys == Range(lo, hi);
    RangeCard(lo, hi);
    assert |Members(c, lo, hi)| == |Members(c, lo, hi).Keys|;
  }

  /** Where the members that the i-th call does not evict begin. */
  function FirstLeft(c: Config, i: int): int {
    if i < 2 * c.limit then 0 else c.limit
  }

  lemma LeftAfter(c: Config, i: int, m: int)
    requires c.window > 0.0 && 0 <= m < i <= 2 * c.limit
    ensures TimeOf(c, m) > TimeOf(c, i) - c.window <==> m >= FirstLeft(c, i)
  {}

  lemma OvertakingSet(c: Config, i: int)
    requires c.window > 0.0 && 0 <= i <= 2 * c.limit
    ensures Evict(Members(c, 0, i), TimeOf(c, i) - c.window)[i := TimeOf(c, i)] == Members(c, FirstLeft(c, i), i + 1)
  {
    hide TimeOf, FirstLeft;
    forall m | 0 <= m < i ensures TimeOf(c, m) > TimeOf(c, i) - c.window <==> m >= FirstLeft(c, i) {
      LeftAfter(c, i, m);
    }
    assert 0 <= FirstLeft(c, i) <= i by { FirstLeftIs(c, i); }
  }

  lemma FirstLeftIs(c: Config, i: int)
    requires 0 <= i <= 2 * c.limit
    ensures 0 <= FirstLeft(c, i) <= i
  {}

  lemma OvertakingCall(c: Config, s: System, i: nat)
    requires c.limit >= 1 && c.window > 0.0 && c.delay >= 0.0 && i <= 2 * c.limit && Overtaken(c, s, i)
    ensures Overtaken(c, Step(c, s, Overtaking(c, i)), i + 1)
  {
    hide Members, Evict;
    OvertakingSet(c, i);
    MembersCard(c, FirstLeft(c, i), i + 1);
  }

  lemma OvertakingUndo(c: Config, s: System, i: nat)
    requires c.limit >= 1 && 2 * c.limit < i <= 3 * c.limit + 1 && Overtaken(c, s, i)
    ensures Overtaken(c, Step(c, s, Overtaking(c, i)), i + 1)
  {}

  lemma NoneOvertaken(c: Config)
    requires c.limit >= 1
    ensures Overtaken(c, Initial(0.0), 0)
  {}

  lemma {:induction false} OvertakenRun(c: Config, i: nat)
    requires c.limit >= 1 && c.window > 0.0 && c.delay >= 0.0 && i <= 3 * c.limit + 2
    ensures Overtaken(c, Run(c, 0.0, Overtakings(c, i)), i)
  {
    hide Overtaken, Step, Overtaking;
    if i == 0 {
      assert Overtaken(c, Initial(0.0), 0) by { NoneOvertaken(c); }
    } else {
      OvertakenRun(c, i - 1);
      assert Overtakings(c, i)[..i - 1] == Overtakings(c, i - 1);
      var s := Run(c, 0.0, Overtakings(c, i - 1));
      if i - 1 <= 2 * c.limit {
        OvertakingCall(c, s, i - 1);
      } else {
        OvertakingUndo(c, s, i - 1);
      }
    }
  }

  /** No limit survives the delay: some run has one allowed call too many in every interval, however
      little longer than the safe length, that ends with the last call. */
  lemma DelayCosts(c: Config, len: real)
    requires c.limit >= 1 && c.window > 0.0 && c.delay >= 0.0 && len > SafeLength(c)
    ensures var t := SafeLength(c);
      |AllowedIn(Run(c, 0.0, Overtakings(c, 3 * c.limit + 3)).log, t - len, t)| == c.limit + 1
  {
    hide Step, Overtaken, Overtaking;
    var n := 3 * c.limit + 2;
    OvertakenRun(c, n);
    assert Overtakings(c, n + 1)[..n] == Overtakings(c, n);
    OneTooMany(c, Run(c, 0.0, Overtakings(c, n)), len);
  }

  lemma OneTooMany(c: Config, s: System, len: real)
    requires c.limit >= 1 && c.window > 0.0 && c.delay >= 0.0 && len > SafeLength(c)
    requires Overtaken(c, s, 3 * c.limit + 2)
    ensures var t := SafeLength(c);
      |AllowedIn(Step(c, s, Overtaking(c, 3 * c.limit + 2)).log, t - len, t)| == c.limit + 1
  {
    LateAllowed(c, s);
    hide Step, Members;
    OneMore(s.log, c.limit, Request(SafeLength(c), c.window, Allowed), len);
  }

  lemma OneMore(log: seq<Request>, n: nat, r: Request, len: real)
    requires n <= |log| && r.verdict == Allowed && 0.0 <= r.at < len
    requires forall i :: 0 <= i < |log| ==>
               if i < n then log[i] == Request(0.0, 0.0, Allowed) else log[i].verdict == Rejected
    ensures |AllowedIn(log + [r], r.at - len, r.at)| == n + 1
  {
    var all := log + [r];
    assert all[|log|] == r && forall i :: 0 <= i < |log| ==> all[i] == log[i];
    assert AllowedIn(all, r.at - len, r.at) == Range(0, n) + {|log|};
    RangeCard(0, n);
  }

  /** Its pipeline finds the set empty. */
  lemma LateAllowed(c: Config, s: System)
    requires c.limit >= 1 && c.window > 0.0 && c.delay >= 0.0 && Overtaken(c, s, 3 * c.limit + 2)
    ensures Step(c, s, Overtaking(c, 3 * c.limit + 2)).log == s.log + [Request(SafeLength(c), c.window, Allowed)]
  {
    var t := SafeLength(c);
    assert s.zset == map[];
    assert Evict(s.zset, t - c.window) == map[];
    assert |map[|s.log| := t]| == 1;
  }

  /** In this run the interval of this length that ends at `t` holds at most `limit` allowed calls. */
  ghost predicate LimitKept(c: Config, start: real, evs: seq<Event>, len: real, t: real) {
    |AllowedIn(Run(c, start, evs).log, t - len, t)| <= c.limit
  }

  /** Every interval of a length holds at most `limit` allowed calls, in every run, exactly if the
      length is safe: the limiter's guarantee is the window less the delay and not an instant more. */
  lemma LimitKeptExactly(c: Config, len: real)
    requires c.limit >= 1 && c.window > 0.0 && c.delay >= 0.0
    ensures (forall start, evs, t :: LimitKept(c, start, evs, len, t)) <==> len <= SafeLength(c)
  {
    if len <= SafeLength(c) {
      forall start, evs, t ensures LimitKept(c, start, evs, len, t) {
        NeverMoreThanLimit(c, start, evs, t);
        var log := Run(c, start, evs).log;
        hide Run;
        var safe := AllowedIn(log, t - (c.window - c.delay), t);
        assert len > 0.0 ==> AllowedIn(log, t - len, t) <= safe;
        CardMonotone(AllowedIn(log, t - len, t), if len > 0.0 then safe else {});
      }
    } else {
      DelayCosts(c, len);
      assert !LimitKept(c, 0.0, Overtakings(c, 3 * c.limit + 3), len, SafeLength(c));
    }
  }

  /** The latest time of a pipeline that ran, or of the call now being made. */
  function Latest(log: seq<Request>, at: real): real {
    if log == [] then at else
    var before, r := Latest(log[..|log| - 1], at), log[|log| - 1];
    if Ran(r) && r.at > before then r.at else before
  }

  lemma {:induction false} LatestSpec(log: seq<Request>, at: real)
    ensures at <= Latest(log, at)
    ensures forall k :: 0 <= k < |log| && Ran(log[k]) ==> log[k].at <= Latest(log, at)
    ensures Latest(log, at) == at || exists k :: 0 <= k < |log| && Ran(log[k]) && log[k].at == Latest(log, at)
  {
    if log != [] {
      var before := log[..|log| - 1];
      LatestSpec(before, at);
      if k :| 0 <= k < |before| && Ran(before[k]) && before[k].at == Latest(before, at) {
        assert Ran(log[k]) && log[k].at == Latest(before, at);
      }
      assert Ran(log[|log| - 1]) || !Ran(log[|log| - 1]);
    }
  }

  /** Every rejected call has been undone and no reply was lost. */
  ghost predicate Settled(s: System) {
    forall i :: 0 <= i < |s.log| ==>
      (s.log[i].verdict == Rejected ==> i in s.undone) && s.log[i].verdict != Unavailable(true)
  }

  /**
   * When every undo has arrived and no reply was lost before the call, and delays stay within the
   * key's extra second, the limiter is exact: the call is allowed if and only if fewer than `limit`
   * allowed calls lie in the window that ends with the latest time seen, its own if pipelines run in order.
   */
  lemma ExactWhenSettled(c: Config, start: real, evs: seq<Event>, at: real, ranAt: real)
    requires c.delay <= 1.0 && c.delay < c.window
    requires Settled(Run(c, start, evs)) && Enabled(c, Run(c, start, evs), Call(at, ranAt, Delivered))
    ensures var s := Run(c, start, evs);
            var high := Latest(s.log, at);
            Step(c, s, Call(at, ranAt, Delivered)).log[|s.log|].verdict == Allowed
            <==> |AllowedIn(s.log, high - c.window, high)| < c.limit
  {
    hide Run, Step, Latest, Evicted, Counted, AllowedIn, Ordered, Faithful, YoungKept, CountedKept, Settled;
    var s := Run(c, start, evs);
    RunKeepsInv(c, start, evs);
    AllowedExactly(c, s, at, ranAt);
    SettledCounts(c, s, at);
  }

  lemma SettledCounts(c: Config, s: System, at: real)
    requires Ordered(c, s) && Faithful(c, s) && Settled(s) && c.delay < c.window
    ensures var high := Latest(s.log, at);
            Counted(c, s, at) == AllowedIn(s.log, high - c.window, high)
  {
    hide Latest;
    var high := Latest(s.log, at);
    LatestSpec(s.log, at);
    forall i | i in Counted(c, s, at) ensures i in AllowedIn(s.log, high - c.window, high) {
      NotEvictedIsYoung(c, s, at, i);
    }
    forall i | i in AllowedIn(s.log, high - c.window, high) ensures i in Counted(c, s, at) {
      assert !Evicted(c, s.log, i);
    }
  }

  lemma NotEvictedIsYoung(c: Config, s: System, at: real, i: int)
    requires Ordered(c, s) && c.delay < c.window
    requires 0 <= i < |s.log| && !Evicted(c, s.log, i) && s.log[i].at > at - c.window
    ensures s.log[i].at > Latest(s.log, at) - c.window
  {
    LatestSpec(s.log, at);
    var high := Latest(s.log, at);
    if k :| 0 <= k < |s.log| && Ran(s.log[k]) && s.log[k].at == high {
      assert k <= i ==> s.log[k].ranAt <= s.log[i].ranAt;
    }
    hide Latest;
  }

  /** Calls whose pipelines run at once. */
  function Prompt(times: seq<real>): (evs: seq<Event>)
    ensures |evs| == |times|
  {
    if times == [] then []
    else Prompt(times[..|times| - 1]) + [Call(times[|times| - 1], times[|times| - 1], Delivered)]
  }

  /** Calls in time order such that, from the `limit`-th on, each has `limit` others in its window. */
  ghost predicate Busy(c: Config, times: seq<real>) {
    && (forall i, j :: 0 <= i <= j < |times| ==> times[i] <= times[j])
    && (forall i, j :: 0 <= i && i + c.limit == j < |times| ==> times[i] > times[j] - c.window)
  }

  ghost predicate Starved(c: Config, s: System, times: seq<real>) {
    && |s.log| == |times| && s.undone == {} && (times == [] || s.clock == times[|times| - 1])
    && forall i :: 0 <= i < |times| ==>
         s.log[i] == Request(times[i], times[i], if i < c.limit then Allowed else Rejected)
  }

  /**
   * Without its undos the limiter starves its caller: if calls keep coming faster than `limit` per
   * window and no undo gets through, the first `limit` are allowed and none ever after, although
   * whole windows then contain no allowed call at all.
   */
  lemma {:induction false} LostUndosStarve(c: Config, start: real, times: seq<real>)
    requires c.delay >= 0.0 && Busy(c, times) && (times != [] ==> times[0] >= start)
    ensures Starved(c, Run(c, start, Prompt(times)), times)
  {
    var prompt := c.(delay := 0.0);
    PromptStarve(prompt, start, times);
    SameRun(c, start, times);
  }

  /** How long other pipelines may take makes no difference to these. */
  lemma {:induction false} SameRun(c: Config, start: real, times: seq<real>)
    requires c.delay >= 0.0
    ensures Run(c, start, Prompt(times)) == Run(c.(delay := 0.0), start, Prompt(times))
    decreases |times|
  {
    if times != [] {
      CallsNext(c, start, times);
      CallsNext(c.(delay := 0.0), start, times);
      SameRun(c, start, times[..|times| - 1]);
    }
  }

  lemma {:induction false} PromptStarve(c: Config, start: real, times: seq<real>)
    requires c.delay == 0.0 && Busy(c, times) && (times != [] ==> times[0] >= start)
    ensures Starved(c, Run(c, start, Prompt(times)), times)
    decreases |times|
  {
    hide Step, Starved, Busy, Inv, WindowsBounded, Prompt;
    if times == [] {
      NoneStarved(c, start);
    } else {
      var before, now := times[..|times| - 1], times[|times| - 1];
      BusyBefore(c, times);
      PromptStarve(c, start, before);
      RunKeepsInv(c, start, Prompt(before));
      assert before + [now] == times;
      CallsNext(c, start, times);
      StarvedStep(c, Run(c, start, Prompt(before)), before, now);
    }
  }

  lemma NoneStarved(c: Config, start: real)
    ensures Starved(c, Run(c, start, Prompt([])), [])
  {}

  lemma BusyBefore(c: Config, times: seq<real>)
    requires times != [] && Busy(c, times)
    ensures Busy(c, times[..|times| - 1])
  {}

  lemma CallsNext(c: Config, start: real, times: seq<real>)
    requires times != []
    ensures var before, now := times[..|times| - 1], times[|times| - 1];
      Run(c, start, Prompt(times)) == Step(c, Run(c, start, Prompt(before)), Call(now, now, Delivered))
  {
    assert Prompt(times)[..|times| - 1] == Prompt(times[..|times| - 1]);
  }

  lemma StarvedStep(c: Config, s: System, times: seq<real>, now: real)
    requires c.delay == 0.0 && Inv(c, s) && Starved(c, s, times) && Busy(c, times + [now])
    requires times == [] ==> now >= s.clock
    ensures Starved(c, Step(c, s, Call(now, now, Delivered)), times + [now])
  {
    var all := times + [now];
    assert all[|times|] == now && forall i :: 0 <= i < |times| ==> all[i] == times[i];
    assert times != [] ==> all[|times| - 1] <= all[|times|];
    AllowedExactly(c, s, now, now);
    BusyCount(c, s, times, now);
    hide Counted, Inv, Busy;
  }

  lemma BusyCount(c: Config, s: System, times: seq<real>, now: real)
    requires Starved(c, s, times) && Busy(c, times + [now])
    ensures |Counted(c, s, now)| < c.limit <==> |times| < c.limit
  {
    var k := |times|;
    var counted := Counted(c, s, now);
    if k < c.limit {
      RangeCard(0, k);
      CardMonotone(counted, Range(0, k));
    } else {
      forall m | m in Range(k - c.limit, k) ensures m in counted {
        BusyCounted(c, s, times, now, m);
      }
      RangeCard(k - c.limit, k);
      CardMonotone(Range(k - c.limit, k), counted);
    }
  }

  lemma BusyCounted(c: Config, s: System, times: seq<real>, now: real, m: int)
    requires Starved(c, s, times) && Busy(c, times + [now]) && |times| >= c.limit && |times| - c.limit <= m < |times|
    ensures m in Counted(c, s, now)
  {
    var k, all := |times|, times + [now];
    assert all[k - c.limit] > all[k] - c.window && all[m] >= all[k - c.limit];
    assert forall i :: 0 <= i < k ==> s.log[i].at == all[i] <= all[k];
  }

  lemma CallFacts(c: Config, s: System, at: real, ranAt: real, delivery: Delivery)
    requires Inv(c, s) && WindowsBounded(c, s) && Enabled(c, s, Call(at, ranAt, delivery))
    ensures var s' := AfterCall(c, s, at, ranAt, delivery);
      && s' == Step(c, s, Call(at, ranAt, delivery)) && Inv(c, s') && WindowsBounded(c, s')
      && |s'.log| == |s.log| + 1
      && (delivery == Delivered && c.delay <= 1.0 ==>
            s'.log[|s.log|].verdict == if |Counted(c, s, at)| < c.limit then Allowed else Rejected)
  {
    StepKeepsInv(c, s, Call(at, ranAt, delivery));
    StepKeepsBound(c, s, Call(at, ranAt, delivery));
    if delivery == Delivered && c.delay <= 1.0 {
      AllowedExactly(c, s, at, ranAt);
    }
    hide Inv, WindowsBounded, Counted;
  }

  /** One Redis sorted-set key, updated in place by the limiter's two round trips. */
  class SortedSetKey {
    var zset: map<int, real>
    var expiresAt: real
    var issued: nat
    ghost var clock: real
    ghost var log: seq<Request>
    ghost var undone: set<int>
    const config: Config

    ghost function View(): System
      reads this
    {
      System(zset, expiresAt, clock, log, undone)
    }

    ghost predicate Valid()
      reads this
    {
      issued == |log| && Inv(config, View()) && WindowsBounded(config, View())
    }

    constructor (config: Config, start: real)
      ensures Valid() && this.config == config && View() == Initial(start)
    {
      this.config := config;
      zset, expiresAt, issued := map[], start, 0;
      clock, log, undone := start, [], {};
    }

    /** `sliding_window_rate_limit` up to its verdict: it samples `at`, and its pipeline runs at `ranAt`. */
    method Check(at: real, ranAt: real, delivery: Delivery) returns (verdict: Verdict)
      requires Valid() && Enabled(config, View(), Call(at, ranAt, delivery))
      modifies this
      ensures Valid()
      ensures View() == Step(config, old(View()), Call(at, ranAt, delivery))
      ensures log == old(log) + [Request(at, ranAt, verdict)]
      ensures delivery == Delivered && config.delay <= 1.0 ==>
                verdict == if |Counted(config, old(View()), at)| < config.limit then Allowed else Rejected
    {
      hide Inv, WindowsBounded, Counted;
      CallFacts(config, View(), at, ranAt, delivery);
      var member := issued;
      if delivery == NotSent {
        verdict := Unavailable(false);
      } else {
        var entries := Evict(zset, at - config.window)[member := at];
        zset, expiresAt := entries, ranAt + config.window + 1.0;
        var count := |entries|;
        if delivery == ReplyLost {
          verdict := Unavailable(true);
        } else if count > config.limit {
          verdict := Rejected;
        } else {
          verdict := Allowed;
        }
      }
      issued := issued + 1;
      clock, log := ranAt, log + [Request(at, ranAt, verdict)];
    }

    /** The separate ZREM of a rejected call, whenever it arrives. */
    method Undo(member: int)
      requires Valid() && 0 <= member < |log| && log[member].verdict == Rejected
      modifies this
      ensures Valid()
      ensures View() == Step(config, old(View()), Event.Undo(member))
    {
      StepKeepsInv(config, View(), Event.Undo(member));
      StepKeepsBound(config, View(), Event.Undo(member));
      zset := map k | k in zset && k != member :: zset[k];
      undone := undone + {member};
    }
  }
}
