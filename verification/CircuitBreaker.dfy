/**
 * The circuit breaker.  A call runs in two locked sections, entry and completion, with the
 * protected coroutine awaited in between, so any number of calls overlap.
 */
module CircuitBreakers {
  import opened Sets

  datatype Stored = Closed | Open | HalfOpen

  datatype Config = Config(threshold: int, resetTimeout: real)

  datatype Breaker = Breaker(failures: int, lastFailure: real, state: Stored)

  datatype Event =
    | Enter(id: int, now: real)
    | Succeed(id: int)
    | Fail(id: int, now: real)
    | NestedOpen(id: int)
    | Reset

  /** What happened, in order.  An entry is rejected, admitted normally, or admitted as a probe. */
  datatype Outcome = Rejected | Normal | Probe
  datatype Record =
    | Entered(id: int, at: real, outcome: Outcome)
    | Succeeded(id: int)
    | Failed(id: int, at: real)
    | Nested(id: int)
    | WasReset

  datatype System = System(b: Breaker, inFlight: map<int, Outcome>, clock: real, log: seq<Record>)

  function Initial(start: real): System {
    System(Breaker(0, 0.0, Closed), map[], start, [])
  }

  /** The `state` property: a stored OPEN reads as HALF_OPEN once the timer has run out. */
  function Observed(c: Config, b: Breaker, now: real): Stored {
    if b.state == Open && now - b.lastFailure >= c.resetTimeout then HalfOpen else b.state
  }

  function Decide(c: Config, b: Breaker, now: real): Outcome {
    match Observed(c, b, now)
    case Open => Rejected
    case HalfOpen => Probe
    case Closed => Normal
  }

  function OnEnter(c: Config, b: Breaker, now: real): Breaker {
    if Decide(c, b, now) == Probe then b.(state := Open) else b
  }

  function OnSuccess(b: Breaker): Breaker {
    b.(state := Closed, failures := 0)
  }

  function OnFailure(c: Config, b: Breaker, now: real): Breaker {
    var f := b.failures + 1;
    Breaker(f, now, if b.state == Closed && f >= c.threshold then Open else b.state)
  }

  /** Call ids are fresh, only calls in flight complete, and time does not run backwards. */
  predicate Enabled(s: System, ev: Event) {
    match ev
    case Enter(id, now) => id !in s.inFlight && now >= s.clock
    case Succeed(id) => id in s.inFlight
    case Fail(id, now) => id in s.inFlight && now >= s.clock
    case NestedOpen(id) => id in s.inFlight
    case Reset => true
  }

  function Step(c: Config, s: System, ev: Event): System {
    if !Enabled(s, ev) then s else
    match ev
    case Enter(id, now) =>
      var outcome := Decide(c, s.b, now);
      System(OnEnter(c, s.b, now),
             if outcome == Rejected then s.inFlight else s.inFlight[id := outcome],
             now, s.log + [Entered(id, now, outcome)])
    case Succeed(id) => System(OnSuccess(s.b), s.inFlight - {id}, s.clock, s.log + [Succeeded(id)])
    case Fail(id, now) => System(OnFailure(c, s.b, now), s.inFlight - {id}, now, s.log + [Failed(id, now)])
    case NestedOpen(id) => s.(inFlight := s.inFlight - {id}, log := s.log + [Nested(id)])
    case Reset => s.(b := OnSuccess(s.b), log := s.log + [WasReset])
  }

  function RunFrom(c: Config, s: System, evs: seq<Event>): System {
    if evs == [] then s else Step(c, RunFrom(c, s, evs[..|evs| - 1]), evs[|evs| - 1])
  }

  // ----- the history's own account -----

  /** Failures since the last success or reset; rejections and nested rejections count as neither. */
  function TrailingFailures(log: seq<Record>): nat {
    if log == [] then 0 else
    var before := TrailingFailures(log[..|log| - 1]);
    match log[|log| - 1]
    case Failed(_, _) => before + 1
    case Succeeded(_) => 0
    case WasReset => 0
    case _ => before
  }

  /** The time of the latest failure ever, 0 before the first; neither success nor reset clears it. */
  function LatestFailure(log: seq<Record>): real {
    if log == [] then 0.0
    else if log[|log| - 1].Failed? then log[|log| - 1].at
    else LatestFailure(log[..|log| - 1])
  }

  /** The circuit is open when the trailing failures reach the threshold, counted as at least one. */
  predicate Tripped(c: Config, log: seq<Record>) {
    TrailingFailures(log) >= 1 && TrailingFailures(log) >= c.threshold
  }

  ghost predicate Refines(c: Config, s: System) {
    && s.b.failures == TrailingFailures(s.log)
    && s.b.state != HalfOpen
    && (s.b.state == Open <==> Tripped(c, s.log))
    && s.b.lastFailure == LatestFailure(s.log)
  }

  /** Every admission decision ever taken follows from the history before it. */
  ghost predicate DecisionsExplained(c: Config, log: seq<Record>) {
    forall i :: 0 <= i < |log| && log[i].Entered? ==> Explained(c, log, i)
  }

  ghost predicate Explained(c: Config, log: seq<Record>, i: nat)
    requires i < |log| && log[i].Entered?
  {
    var expired := log[i].at - LatestFailure(log[..i]) >= c.resetTimeout;
    && (log[i].outcome == Rejected <==> Tripped(c, log[..i]) && !expired)
    && (log[i].outcome == Probe <==> Tripped(c, log[..i]) && expired)
  }

  lemma StepRefines(c: Config, s: System, ev: Event)
    requires Refines(c, s) && DecisionsExplained(c, s.log)
    ensures Refines(c, Step(c, s, ev)) && DecisionsExplained(c, Step(c, s, ev).log)
  {
    var s' := Step(c, s, ev);
    if Enabled(s, ev) {
      assert s'.log[..|s.log|] == s.log && |s'.log| == |s.log| + 1;
      forall i | 0 <= i < |s'.log| && s'.log[i].Entered? ensures Explained(c, s'.log, i) {
        if i < |s.log| {
          assert s'.log[..i] == s.log[..i];
          assert Explained(c, s.log, i);
        }
      }
    }
  }

  /**
   * Refinement over every run, with any number of calls in flight: the failure counter is the
   * trailing run of failures, the stored state is OPEN exactly when that run reaches the
   * threshold, HALF_OPEN is never stored, and each call is rejected exactly when the circuit was
   * open and the latest failure more recent than the reset timeout.
   */
  lemma {:induction false} RunRefines(c: Config, start: real, evs: seq<Event>)
    ensures var s := RunFrom(c, Initial(start), evs); Refines(c, s) && DecisionsExplained(c, s.log)
  {
    if evs != [] {
      RunRefines(c, start, evs[..|evs| - 1]);
      StepRefines(c, RunFrom(c, Initial(start), evs[..|evs| - 1]), evs[|evs| - 1]);
    }
  }

  // ----- the same from the events alone -----

  /** Failures since the last success or reset, among the events that happened. */
  function Failures(h: seq<Event>): nat {
    if h == [] then 0 else
    match h[|h| - 1]
    case Fail(_, _) => Failures(h[..|h| - 1]) + 1
    case Succeed(_) => 0
    case Reset => 0
    case _ => Failures(h[..|h| - 1])
  }

  /** The time of the latest failure, 0 before the first. */
  function FailedAt(h: seq<Event>): real {
    if h == [] then 0.0 else if h[|h| - 1].Fail? then h[|h| - 1].now else FailedAt(h[..|h| - 1])
  }

  predicate OpenAfter(c: Config, h: seq<Event>) {
    Failures(h) >= 1 && Failures(h) >= c.threshold
  }

  /** What becomes of a call that enters then. */
  function Verdict(c: Config, h: seq<Event>, now: real): Outcome {
    if !OpenAfter(c, h) then Normal else if now - FailedAt(h) < c.resetTimeout then Rejected else Probe
  }

  /** The calls in flight: admitted and not completed. */
  function Flying(c: Config, h: seq<Event>): map<int, Outcome> {
    if h == [] then map[] else
    var before, ev := h[..|h| - 1], h[|h| - 1];
    match ev
    case Enter(id, now) =>
      if Verdict(c, before, now) == Rejected then Flying(c, before)
      else Flying(c, before)[id := Verdict(c, before, now)]
    case Reset => Flying(c, before)
    case _ => Flying(c, before) - {ev.id}
  }

  function Clock(start: real, h: seq<Event>): real {
    if h == [] then start
    else if h[|h| - 1].Enter? || h[|h| - 1].Fail? then h[|h| - 1].now
    else Clock(start, h[..|h| - 1])
  }

  predicate Possible(c: Config, start: real, h: seq<Event>, ev: Event) {
    match ev
    case Enter(id, now) => id !in Flying(c, h) && now >= Clock(start, h)
    case Fail(id, now) => id in Flying(c, h) && now >= Clock(start, h)
    case Reset => true
    case _ => ev.id in Flying(c, h)
  }

  /** The events that could happen and so did. */
  function Happened(c: Config, start: real, evs: seq<Event>): seq<Event> {
    if evs == [] then [] else
    var h, ev := Happened(c, start, evs[..|evs| - 1]), evs[|evs| - 1];
    if Possible(c, start, h, ev) then h + [ev] else h
  }

  /** What is logged of the i-th of them. */
  function RecordOf(c: Config, h: seq<Event>, i: nat): Record
    requires i < |h|
  {
    match h[i]
    case Enter(id, now) => Entered(id, now, Verdict(c, h[..i], now))
    case Succeed(id) => Succeeded(id)
    case Fail(id, now) => Failed(id, now)
    case NestedOpen(id) => Nested(id)
    case Reset => WasReset
  }

  /** Everything the system keeps follows from the events. */
  ghost predicate Follows(c: Config, start: real, s: System, h: seq<Event>) {
    && s.b.failures == Failures(h) && s.b.state == (if OpenAfter(c, h) then Open else Closed)
    && s.b.lastFailure == FailedAt(h) && s.inFlight == Flying(c, h) && s.clock == Clock(start, h)
    && |s.log| == |h| && forall i :: 0 <= i < |h| ==> s.log[i] == RecordOf(c, h, i)
  }

  lemma StepFollows(c: Config, start: real, s: System, h: seq<Event>, ev: Event)
    requires Follows(c, start, s, h)
    ensures Enabled(s, ev) <==> Possible(c, start, h, ev)
    ensures Enabled(s, ev) ==> Follows(c, start, Step(c, s, ev), h + [ev])
  {
    var all := h + [ev];
    assert all[..|h|] == h && all[|h|] == ev;
    if Enabled(s, ev) {
      var s' := Step(c, s, ev);
      forall i | 0 <= i < |all| ensures s'.log[i] == RecordOf(c, all, i) {
        assert i < |h| ==> all[..i] == h[..i];
      }
    }
  }

  lemma Idle(c: Config, m: System, ev: Event)
    requires !Enabled(m, ev)
    ensures Step(c, m, ev) == m
  {}

  /**
   * The breaker from the events alone, over every run: a call is rejected exactly while the failures
   * since the last success or reset reach the threshold and the latest is more recent than the reset
   * timeout; a success or a reset closes it, a nested rejection changes nothing.
   */
  lemma {:induction false} RunFollowsEvents(c: Config, start: real, evs: seq<Event>)
    ensures Follows(c, start, RunFrom(c, Initial(start), evs), Happened(c, start, evs))
  {
    hide Follows, Step, Possible, Enabled;
    if evs == [] {
      assert Follows(c, start, Initial(start), []) by { NothingHappened(c, start); }
    } else {
      RunFollowsEvents(c, start, evs[..|evs| - 1]);
      var s, h := RunFrom(c, Initial(start), evs[..|evs| - 1]), Happened(c, start, evs[..|evs| - 1]);
      StepFollows(c, start, s, h, evs[|evs| - 1]);
      if !Enabled(s, evs[|evs| - 1]) {
        Idle(c, s, evs[|evs| - 1]);
      }
    }
  }

  lemma NothingHappened(c: Config, start: real)
    ensures Follows(c, start, Initial(start), [])
  {}

  // ----- one probe at a time? -----

  predicate HasFailure(log: seq<Record>) {
    exists i :: 0 <= i < |log| && log[i].Failed?
  }

  /** What was logged between two systems of one run. */
  function Between(s: System, s': System): seq<Record> {
    if |s.log| <= |s'.log| then s'.log[|s.log|..] else []
  }

  /** From `s` to `s'` the log grew, and the timer moved only if a failure was logged meanwhile. */
  ghost predicate Since(s: System, s': System) {
    && |s.log| <= |s'.log| && s'.log[..|s.log|] == s.log && s.clock <= s'.clock
    && (!HasFailure(Between(s, s')) ==> s'.b.lastFailure == s.b.lastFailure)
    && (HasFailure(Between(s, s')) ==> s'.b.lastFailure == LatestFailure(Between(s, s')))
  }

  lemma {:induction false} RunSince(c: Config, s: System, evs: seq<Event>)
    ensures Since(s, RunFrom(c, s, evs))
  {
    if evs == [] {
      assert s.log[|s.log|..] == [];
    } else {
      RunSince(c, s, evs[..|evs| - 1]);
      SinceStep(c, s, RunFrom(c, s, evs[..|evs| - 1]), evs[|evs| - 1]);
    }
  }

  lemma FailureAppended(log: seq<Record>, r: Record)
    ensures HasFailure(log + [r]) <==> HasFailure(log) || r.Failed?
    ensures LatestFailure(log + [r]) == if r.Failed? then r.at else LatestFailure(log)
  {
    var all := log + [r];
    assert all[..|log|] == log && all[|log|] == r;
    if i :| 0 <= i < |log| && log[i].Failed? {
      assert all[i].Failed?;
    }
    if i :| 0 <= i < |all| && all[i].Failed? && i < |log| {
      assert log[i].Failed?;
    }
  }

  /** Each step logs one record, and only a failure moves the timer. */
  lemma StepLogs(c: Config, m: System, ev: Event) returns (r: Record)
    requires Enabled(m, ev)
    ensures var m' := Step(c, m, ev);
      m'.log == m.log + [r] && m'.clock >= m.clock && m'.b.lastFailure == if r.Failed? then r.at else m.b.lastFailure
  {
    r := Step(c, m, ev).log[|m.log|];
  }

  lemma SinceStep(c: Config, s: System, m: System, ev: Event)
    requires Since(s, m)
    ensures Since(s, Step(c, m, ev))
  {
    hide Step, HasFailure, LatestFailure;
    if Enabled(m, ev) {
      var r := StepLogs(c, m, ev);
      FailureAppended(Between(s, m), r);
      assert Between(s, Step(c, m, ev)) == Between(s, m) + [r];
    } else {
      Idle(c, m, ev);
    }
  }

  /**
   * Storing OPEN when a probe is admitted leaves the timer where it was, so it blocks nobody by
   * itself.  Whatever happens after a probe is admitted, the next call is rejected exactly when
   * the circuit is still open and some call has failed since the probe was admitted, less than
   * the reset timeout ago.
   */
  lemma ProbeBlocksExactly(c: Config, s: System, id: int, t: real, evs: seq<Event>, t': real)
    requires Refines(c, s) && Enabled(s, Enter(id, t)) && Decide(c, s.b, t) == Probe
    requires var later := RunFrom(c, Step(c, s, Enter(id, t)), evs); t' >= later.clock
    ensures var probing := Step(c, s, Enter(id, t));
            var later := RunFrom(c, probing, evs);
            var since := Between(probing, later);
            Decide(c, later.b, t') == Rejected <==>
              later.b.state == Open && HasFailure(since) && t' - LatestFailure(since) < c.resetTimeout
  {
    var probing := Step(c, s, Enter(id, t));
    RunSince(c, probing, evs);
  }

  /** Trips the circuit at `start`, then admits `n` calls once the timer has run out. */
  function Trip(k: nat, start: real): seq<Event> {
    if k == 0 then [] else Trip(k - 1, start) + [Enter(-1, start)] + [Fail(-1, start)]
  }

  function Knock(n: nat, at: real): seq<Event> {
    if n == 0 then [] else Knock(n - 1, at) + [Enter(n - 1, at)]
  }

  function TripCount(c: Config): nat {
    if c.threshold <= 1 then 1 else c.threshold
  }

  lemma {:induction false} RunAppends(c: Config, s: System, a: seq<Event>, b: seq<Event>)
    ensures RunFrom(c, s, a + b) == RunFrom(c, RunFrom(c, s, a), b)
  {
    if b == [] {
      assert a + b == a;
    } else {
      RunAppends(c, s, a, b[..|b| - 1]);
      assert (a + b)[..|a + b| - 1] == a + b[..|b| - 1];
    }
  }

  ghost predicate TrippedBy(c: Config, s: System, start: real, k: nat) {
    && s.clock == start && s.inFlight == map[]
    && (k > 0 ==> s.b == Breaker(k, start, if k == TripCount(c) then Open else Closed))
    && (k == 0 ==> s.b == Initial(start).b)
  }

  lemma {:induction false} Tripping(c: Config, start: real, k: nat)
    requires k <= TripCount(c)
    ensures TrippedBy(c, RunFrom(c, Initial(start), Trip(k, start)), start, k)
  {
    if k > 0 {
      Tripping(c, start, k - 1);
      var before := Trip(k - 1, start);
      var s := RunFrom(c, Initial(start), before);
      hide RunFrom;
      RunAppends(c, Initial(start), before, [Enter(-1, start)]);
      RunAppends(c, Initial(start), before + [Enter(-1, start)], [Fail(-1, start)]);
      RunOne(c, s, Enter(-1, start));
      RunOne(c, Step(c, s, Enter(-1, start)), Fail(-1, start));
      TripOnce(c, s, start, k - 1);
    }
  }

  lemma TripOnce(c: Config, s: System, start: real, k: nat)
    requires k < TripCount(c) && TrippedBy(c, s, start, k)
    ensures TrippedBy(c, Step(c, Step(c, s, Enter(-1, start)), Fail(-1, start)), start, k + 1)
  {}

  lemma RunOne(c: Config, s: System, ev: Event)
    ensures RunFrom(c, s, [ev]) == Step(c, s, ev)
  {}

  lemma {:induction false} Knocking(c: Config, s: System, n: nat, at: real)
    requires s.b.state == Open && at - s.b.lastFailure >= c.resetTimeout && at >= s.clock && s.inFlight == map[]
    ensures var s' := RunFrom(c, s, Knock(n, at));
            && s'.b == s.b && (n > 0 ==> s'.clock == at) && s'.clock <= at
            && s'.inFlight == map i | i in Range(0, n) :: Probe
  {
    if n > 0 {
      Knocking(c, s, n - 1, at);
      assert Knock(n, at) == Knock(n - 1, at) + [Enter(n - 1, at)];
      RunAppends(c, s, Knock(n - 1, at), [Enter(n - 1, at)]);
      RunOne(c, RunFrom(c, s, Knock(n - 1, at)), Enter(n - 1, at));
    }
  }

  /**
   * The intended single probe does not hold: for every configuration and every `n` there is a run
   * in which `n` calls are in flight at once, each of them admitted as the recovery probe.
   */
  lemma ManyProbesAtOnce(c: Config, start: real, n: nat)
    ensures var at := if c.resetTimeout > 0.0 then start + c.resetTimeout else start;
            RunFrom(c, Initial(start), Trip(TripCount(c), start) + Knock(n, at)).inFlight
              == map i | i in Range(0, n) :: Probe
  {
    var at := if c.resetTimeout > 0.0 then start + c.resetTimeout else start;
    Tripping(c, start, TripCount(c));
    var s := RunFrom(c, Initial(start), Trip(TripCount(c), start));
    RunAppends(c, Initial(start), Trip(TripCount(c), start), Knock(n, at));
    Knocking(c, s, n, at);
  }

  class CircuitBreaker {
    const config: Config
    var failures: int
    var lastFailureTime: real
    var stored: Stored
    ghost var inFlight: map<int, Outcome>
    ghost var clock: real
    ghost var log: seq<Record>

    ghost function View(): System
      reads this
    {
      System(Breaker(failures, lastFailureTime, stored), inFlight, clock, log)
    }

    ghost predicate Valid()
      reads this
    {
      Refines(config, View()) && DecisionsExplained(config, log)
    }

    constructor (config: Config, start: real)
      ensures Valid() && this.config == config && View() == Initial(start)
    {
      this.config := config;
      failures, lastFailureTime, stored := 0, 0.0, Closed;
      inFlight, clock, log := map[], start, [];
    }

    /** The `state` property. */
    method State(now: real) returns (s: Stored)
      requires Valid()
      ensures s == Observed(config, View().b, now)
      ensures s == HalfOpen <==> Tripped(config, log) && now - LatestFailure(log) >= config.resetTimeout
      ensures s == Closed <==> !Tripped(config, log)
    {
      if stored == Open {
        if now - lastFailureTime >= config.resetTimeout {
          return HalfOpen;
        }
      }
      return stored;
    }

    /** The locked entry section of `call`. */
    method Enter(id: int, now: real) returns (outcome: Outcome)
      requires Valid() && Enabled(View(), Event.Enter(id, now))
      modifies this
      ensures Valid() && View() == Step(config, old(View()), Event.Enter(id, now))
      ensures log == old(log) + [Entered(id, now, outcome)]
    {
      StepRefines(config, View(), Event.Enter(id, now));
      var current := State(now);
      if current == Open {
        outcome := Rejected;
      } else if current == HalfOpen {
        outcome := Probe;
        stored := Open;
      } else {
        outcome := Normal;
      }
      inFlight := if outcome == Rejected then inFlight else inFlight[id := outcome];
      clock, log := now, log + [Entered(id, now, outcome)];
    }

    /** The coroutine returned. */
    method OnSuccess(id: int)
      requires Valid() && id in inFlight
      modifies this
      ensures Valid() && View() == Step(config, old(View()), Succeed(id))
    {
      StepRefines(config, View(), Succeed(id));
      stored, failures := Closed, 0;
      inFlight, log := inFlight - {id}, log + [Succeeded(id)];
    }

    /** The coroutine raised anything but a circuit-open error, cancellation included. */
    method OnFailure(id: int, now: real)
      requires Valid() && id in inFlight && now >= clock
      modifies this
      ensures Valid() && View() == Step(config, old(View()), Fail(id, now))
    {
      StepRefines(config, View(), Fail(id, now));
      failures := failures + 1;
      lastFailureTime := now;
      if stored == Open {
      } else if failures >= config.threshold && stored == Closed {
        stored := Open;
      }
      inFlight, clock, log := inFlight - {id}, now, log + [Failed(id, now)];
    }

    /** The coroutine raised a nested circuit-open error: neither a success nor a failure. */
    method OnNestedOpen(id: int)
      requires Valid() && id in inFlight
      modifies this
      ensures Valid() && View() == Step(config, old(View()), NestedOpen(id))
    {
      StepRefines(config, View(), NestedOpen(id));
      inFlight, log := inFlight - {id}, log + [Nested(id)];
    }

    method Reset()
      requires Valid()
      modifies this
      ensures Valid() && View() == Step(config, old(View()), Event.Reset)
    {
      StepRefines(config, View(), Event.Reset);
      stored, failures := Closed, 0;
      log := log + [WasReset];
    }
  }
}
