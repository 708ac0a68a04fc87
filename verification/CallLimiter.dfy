/**
 * The concurrent-call limiter: per process a semaphore, across processes one Redis counter that is
 * incremented before a call and decremented after it.  Between any two awaits other calls run.
 */
module CallLimiter {
  import opened Sets
  import opened Wrappers

  /** How an awaited Redis command ended: it worked, or it raised or was cancelled, having run or not. */
  datatype Fate = Works | Raises(ran: bool) | Cancelled(ran: bool)

  /**
   * Where a call stands: incremented (and found over the limit or not), about to undo its increment,
   * waiting for the semaphore, inside the delegate, about to release its slot.  `held` says that it
   * obtained a distributed slot.
   */
  datatype Phase =
    | Incremented(over: bool)
    | RollingBack
    | Waiting(held: bool)
    | Inside(held: bool)
    | Releasing

  datatype Call = Call(process: int, phase: Phase)

  /**
   * `counter` is the Redis key, absent meaning 0.  `lost` counts increments in it whose decrement
   * never took effect, `forgot` that the key has timed out while it counted some call; `started`,
   * `obtained` and `released` are the history of calls, of slots obtained and of release attempts.
   */
  datatype System = System(
    counter: int, permits: map<int, int>, calls: map<int, Call>,
    lost: nat, forgot: bool, started: set<int>, obtained: set<int>, released: multiset<int>)

  datatype Config = Config(max: nat, processes: set<int>)

  datatype Event =
    | Increment(id: int, process: int, hasClient: bool, fate: Fate)
    | SetExpiry(id: int, fate: Fate)
    | RollBack(id: int, fate: Fate)
    | EnterDelegate(id: int)
    | CancelWait(id: int)
    | LeaveDelegate(id: int)
    | Release(id: int, fate: Fate)
    | KeyTimesOut

  function Initial(c: Config): System {
    System(0, map p | p in c.processes :: c.max, map[], 0, false, {}, {}, multiset{})
  }

  predicate Enabled(c: Config, s: System, ev: Event) {
    match ev
    case Increment(id, p, _, _) => id !in s.started && p in c.processes
    case SetExpiry(id, _) => id in s.calls && s.calls[id].phase.Incremented?
    case RollBack(id, _) => id in s.calls && s.calls[id].phase.RollingBack?
    case EnterDelegate(id) =>
      && id in s.calls && s.calls[id].phase.Waiting?
      && s.calls[id].process in s.permits && s.permits[s.calls[id].process] > 0
    case CancelWait(id) => id in s.calls && s.calls[id].phase.Waiting?
    case LeaveDelegate(id) => id in s.calls && s.calls[id].phase.Inside? && s.calls[id].process in s.permits
    case Release(id, _) => id in s.calls && s.calls[id].phase.Releasing?
    case KeyTimesOut => true
  }

  predicate Ran(fate: Fate) {
    fate == Works || fate.ran
  }

  function Move(s: System, id: int, phase: Phase): map<int, Call>
    requires id in s.calls
  {
    s.calls[id := s.calls[id].(phase := phase)]
  }

  /** A decrement that takes effect lowers the counter; one that does not is lost. */
  function Decrement(s: System, fate: Fate): System {
    if Ran(fate) then s.(counter := s.counter - 1) else s.(lost := s.lost + 1)
  }

  /** After the semaphore, a call with a slot releases it; one without is over. */
  function Leave(s: System, id: int, held: bool): map<int, Call>
    requires id in s.calls
  {
    if held then Move(s, id, Releasing) else s.calls - {id}
  }

  function Step(c: Config, s: System, ev: Event): System {
    if !Enabled(c, s, ev) then s else
    match ev
    case Increment(id, p, hasClient, fate) =>
      var s1 := s.(started := s.started + {id});
      if !hasClient then s1.(calls := s.calls[id := Call(p, Waiting(false))])
      else
        var count := s.counter + 1;
        if fate == Works then s1.(counter := count, calls := s.calls[id := Call(p, Incremented(count > c.max))])
        else s1.(counter := if fate.ran then count else s.counter, lost := if fate.ran then s.lost + 1 else s.lost,
                 calls := if fate.Cancelled? then s.calls else s.calls[id := Call(p, Waiting(false))])
    case SetExpiry(id, fate) =>
      if fate.Cancelled? then s.(calls := s.calls - {id}, lost := s.lost + 1)
      else if fate.Raises? then s.(calls := Move(s, id, Waiting(false)), lost := s.lost + 1)
      else if s.calls[id].phase.over then s.(calls := Move(s, id, RollingBack))
      else s.(calls := Move(s, id, Waiting(true)), obtained := s.obtained + {id})
    case RollBack(id, fate) =>
      Decrement(s, fate).(calls := if fate.Cancelled? then s.calls - {id} else Move(s, id, Waiting(false)))
    case EnterDelegate(id) =>
      var p := s.calls[id].process;
      s.(permits := s.permits[p := s.permits[p] - 1], calls := Move(s, id, Inside(s.calls[id].phase.held)))
    case CancelWait(id) => s.(calls := Leave(s, id, s.calls[id].phase.held))
    case LeaveDelegate(id) =>
      var p := s.calls[id].process;
      s.(permits := s.permits[p := s.permits[p] + 1], calls := Leave(s, id, s.calls[id].phase.held))
    case Release(id, fate) =>
      Decrement(s, fate).(calls := s.calls - {id}, released := s.released + multiset{id})
    case KeyTimesOut => s.(counter := 0, lost := 0, forgot := s.forgot || Members(s.calls, Counted) != {})
  }

  function RunFrom(c: Config, s: System, evs: seq<Event>): System {
    if evs == [] then s else Step(c, RunFrom(c, s, evs[..|evs| - 1]), evs[|evs| - 1])
  }

  function Run(c: Config, evs: seq<Event>): System {
    RunFrom(c, Initial(c), evs)
  }

  // ----- counting calls -----

  /** In the delegate of a process; counted in Redis; holding, or about to hold, a slot. */
  datatype Kind = InsideOf(process: int) | Counted | Holding

  predicate HoldsSlot(phase: Phase) {
    match phase
    case Incremented(over) => !over
    case RollingBack => false
    case Waiting(held) => held
    case Inside(held) => held
    case Releasing => true
  }

  predicate Is(k: Kind, call: Call) {
    match k
    case InsideOf(p) => call.phase.Inside? && call.process == p
    case Counted => call.phase.Incremented? || call.phase.RollingBack? || HoldsSlot(call.phase)
    case Holding => HoldsSlot(call.phase)
  }

  function Members(calls: map<int, Call>, k: Kind): set<int> {
    set id | id in calls && Is(k, calls[id])
  }

  function Weight(calls: map<int, Call>, id: int, k: Kind): nat {
    if id in calls && Is(k, calls[id]) then 1 else 0
  }

  lemma DropCount(calls: map<int, Call>, id: int, k: Kind)
    ensures |Members(calls - {id}, k)| == |Members(calls, k)| - Weight(calls, id, k)
  {
    var before, after := Members(calls, k), Members(calls - {id}, k);
    assert after == before - {id};
  }

  lemma SetCount(calls: map<int, Call>, id: int, call: Call, k: Kind)
    ensures |Members(calls[id := call], k)|
         == |Members(calls, k)| - Weight(calls, id, k) + (if Is(k, call) then 1 else 0)
  {
    hide HoldsSlot;
    DropCount(calls, id, k);
    var others, after := Members(calls - {id}, k), Members(calls[id := call], k);
    if Is(k, call) {
      assert after == others + {id};
    } else {
      assert after == others;
    }
  }

  // ----- what every step keeps -----

  /** In each process the permits left and the calls inside make up the limit. */
  ghost predicate Permits(c: Config, s: System) {
    && s.permits.Keys == c.processes
    && (forall id :: id in s.calls ==> s.calls[id].process in c.processes)
    && forall p :: p in c.processes ==> s.permits[p] >= 0 && s.permits[p] + |Members(s.calls, InsideOf(p))| == c.max
  }

  /** Unless the key has timed out on a counted call, the counter is the counted calls plus what was
      lost, and no more than `max` calls hold a slot, over all processes. */
  ghost predicate Counter(c: Config, s: System) {
    !s.forgot ==>
      && s.counter == |Members(s.calls, Counted)| + s.lost
      && |Members(s.calls, Holding)| <= c.max
  }

  /** A call obtains a slot at most once and, when it is over, has tried to release it exactly once. */
  ghost predicate ReleasedOnce(s: System) {
    && s.calls.Keys <= s.started && s.obtained <= s.started
    && forall id :: SlotHistory(s, id)
  }

  ghost predicate SlotHistory(s: System, id: int) {
    if id !in s.calls then
      s.released[id] == if id in s.obtained then 1 else 0
    else
      s.released[id] == 0 && (id in s.obtained <==> HoldsSlot(s.calls[id].phase) && !s.calls[id].phase.Incremented?)
  }

  ghost predicate Inv(c: Config, s: System) {
    Permits(c, s) && Counter(c, s) && ReleasedOnce(s)
  }

  lemma HoldingCounted(calls: map<int, Call>)
    ensures |Members(calls, Holding)| <= |Members(calls, Counted)|
  {
    var holding, counted := Members(calls, Holding), Members(calls, Counted);
    forall id | id in holding ensures id in counted {
      assert Is(Holding, calls[id]);
      assert Is(Counted, calls[id]);
    }
    CardMonotone(holding, counted);
  }

  lemma StepCounts(c: Config, s: System, ev: Event, k: Kind)
    requires Enabled(c, s, ev) && !ev.KeyTimesOut?
    ensures var s' := Step(c, s, ev);
      |Members(s'.calls, k)| == |Members(s.calls, k)| - Weight(s.calls, ev.id, k) + Weight(s'.calls, ev.id, k)
  {
    var s' := Step(c, s, ev);
    if ev.id in s'.calls {
      SetCount(s.calls, ev.id, s'.calls[ev.id], k);
      assert s'.calls == s.calls[ev.id := s'.calls[ev.id]];
    } else {
      DropCount(s.calls, ev.id, k);
      assert s'.calls == s.calls - {ev.id};
    }
  }

  lemma StepPermits(c: Config, s: System, ev: Event)
    requires Inv(c, s)
    ensures Permits(c, Step(c, s, ev))
  {
    hide Members;
    if Enabled(c, s, ev) && !ev.KeyTimesOut? {
      var s' := Step(c, s, ev);
      forall p | p in c.processes
        ensures s'.permits[p] >= 0 && s'.permits[p] + |Members(s'.calls, InsideOf(p))| == c.max
      {
        StepCounts(c, s, ev, InsideOf(p));
      }
    }
  }

  lemma StepCounter(c: Config, s: System, ev: Event)
    requires Inv(c, s)
    ensures Counter(c, Step(c, s, ev))
  {
    HoldingCounted(s.calls);
    if Enabled(c, s, ev) && !ev.KeyTimesOut? {
      StepCounts(c, s, ev, Counted);
      StepCounts(c, s, ev, Holding);
    }
  }

  lemma StepReleases(c: Config, s: System, ev: Event)
    requires Inv(c, s)
    ensures ReleasedOnce(Step(c, s, ev))
  {
    forall id ensures SlotHistory(Step(c, s, ev), id) {
      assert SlotHistory(s, id);
      if Enabled(c, s, ev) && !ev.KeyTimesOut? {
        OwnHistory(c, s, ev);
      }
    }
  }

  lemma OwnHistory(c: Config, s: System, ev: Event)
    requires Enabled(c, s, ev) && !ev.KeyTimesOut? && SlotHistory(s, ev.id)
    requires s.calls.Keys <= s.started && s.obtained <= s.started
    ensures SlotHistory(Step(c, s, ev), ev.id)
  {}

  lemma {:induction false} RunFromKeepsInv(c: Config, s: System, evs: seq<Event>)
    requires Inv(c, s)
    ensures Inv(c, RunFrom(c, s, evs))
  {
    if evs != [] {
      var m := RunFrom(c, s, evs[..|evs| - 1]);
      RunFromKeepsInv(c, s, evs[..|evs| - 1]);
      StepPermits(c, m, evs[|evs| - 1]);
      StepCounter(c, m, evs[|evs| - 1]);
      StepReleases(c, m, evs[|evs| - 1]);
    }
  }

  lemma RunKeepsInv(c: Config, evs: seq<Event>)
    ensures Inv(c, Run(c, evs))
  {
    forall k ensures Members(map[], k) == {} {}
    RunFromKeepsInv(c, Initial(c), evs);
  }

  /** In every interleaving no process has more than `max` calls in the delegate at once. */
  lemma NeverMoreInside(c: Config, evs: seq<Event>, p: int)
    requires p in c.processes
    ensures |Members(Run(c, evs).calls, InsideOf(p))| <= c.max
  {
    RunKeepsInv(c, evs);
  }

  /** Every obtained slot is released exactly once, when its call ends, however it ends. */
  lemma EverySlotReleasedOnce(c: Config, evs: seq<Event>, id: int)
    ensures var s := Run(c, evs);
            && s.released[id] <= 1
            && (s.released[id] == 1 <==> id in s.obtained && id !in s.calls)
  {
    RunKeepsInv(c, evs);
    assert SlotHistory(Run(c, evs), id);
  }

  /**
   * The counter, unless its key has timed out on a counted call: it equals the slots held plus the
   * increments not yet rolled back plus those lost to failed commands, and at most `max` calls hold
   * a slot across all processes, whatever commands fail.  A timeout while no call is counted does
   * no harm; it clears what was lost.
   */
  lemma CounterConserved(c: Config, evs: seq<Event>)
    requires !Run(c, evs).forgot
    ensures var s := Run(c, evs);
            s.counter == |Members(s.calls, Counted)| + s.lost && |Members(s.calls, Holding)| <= c.max
  {
    RunKeepsInv(c, evs);
  }

  predicate AllWork(evs: seq<Event>) {
    forall i :: 0 <= i < |evs| ==>
      (evs[i].Increment? || evs[i].SetExpiry? || evs[i].RollBack? || evs[i].Release? ==> evs[i].fate == Works)
      && !evs[i].KeyTimesOut?
  }

  /** If every command succeeds nothing is lost: the counter is exactly the calls that count. */
  lemma {:induction false} NothingLostWhenAllWorks(c: Config, evs: seq<Event>)
    requires AllWork(evs)
    ensures var s := Run(c, evs); !s.forgot && s.lost == 0 && s.counter == |Members(s.calls, Counted)|
  {
    RunKeepsInv(c, evs);
    if evs != [] {
      NothingLostWhenAllWorks(c, evs[..|evs| - 1]);
    }
  }

  // ----- the same from the events alone -----

  /** The events of a run that could happen and so did. */
  function Happened(c: Config, evs: seq<Event>): seq<Event> {
    if evs == [] then [] else
    var before, ev := evs[..|evs| - 1], evs[|evs| - 1];
    if Enabled(c, Run(c, before), ev) then Happened(c, before) + [ev] else Happened(c, before)
  }

  /** Increments that ran less decrements that ran, since the key last timed out. */
  function Net(h: seq<Event>): int {
    if h == [] then 0 else
    var before := Net(h[..|h| - 1]);
    match h[|h| - 1]
    case Increment(_, _, hasClient, fate) => if hasClient && Ran(fate) then before + 1 else before
    case RollBack(_, fate) => if Ran(fate) then before - 1 else before
    case Release(_, fate) => if Ran(fate) then before - 1 else before
    case KeyTimesOut => 0
    case _ => before
  }

  function ProcessOf(h: seq<Event>, id: int): Option<int> {
    if h == [] then None
    else if h[|h| - 1].Increment? && h[|h| - 1].id == id then Some(h[|h| - 1].process)
    else ProcessOf(h[..|h| - 1], id)
  }

  /** The call's increment took the counter beyond the limit. */
  predicate FoundFull(c: Config, h: seq<Event>, id: int) {
    h != [] &&
    if h[|h| - 1].Increment? && h[|h| - 1].id == id then Net(h[..|h| - 1]) + 1 > c.max
    else FoundFull(c, h[..|h| - 1], id)
  }

  /** The call set the key's expiry, having found room. */
  predicate GotSlot(c: Config, h: seq<Event>, id: int) {
    h != [] &&
    (GotSlot(c, h[..|h| - 1], id) || (h[|h| - 1] == SetExpiry(id, Works) && !FoundFull(c, h[..|h| - 1], id)))
  }

  /** The event takes the call out of the way to the delegate: it leaves it, or is cancelled before. */
  predicate Ends(ev: Event, id: int) {
    match ev
    case Increment(id', _, hasClient, fate) => id' == id && hasClient && fate.Cancelled?
    case SetExpiry(id', fate) => id' == id && fate.Cancelled?
    case RollBack(id', fate) => id' == id && fate.Cancelled?
    case CancelWait(id') => id' == id
    case LeaveDelegate(id') => id' == id
    case _ => false
  }

  predicate Ended(h: seq<Event>, id: int) {
    h != [] && (Ends(h[|h| - 1], id) || Ended(h[..|h| - 1], id))
  }

  predicate InDelegate(h: seq<Event>, id: int) {
    h != [] && (h[|h| - 1] == EnterDelegate(id) || (h[|h| - 1] != LeaveDelegate(id) && InDelegate(h[..|h| - 1], id)))
  }

  /** Where a call stands follows from the events. */
  ghost predicate CallFollows(c: Config, s: System, h: seq<Event>, id: int) {
    SlotFollows(c, s, h, id) && WayFollows(s, h, id)
  }

  ghost predicate SlotFollows(c: Config, s: System, h: seq<Event>, id: int) {
    && (id in s.started <==> ProcessOf(h, id).Some?)
    && (id in s.calls ==> Some(s.calls[id].process) == ProcessOf(h, id))
    && (id in s.calls && s.calls[id].phase.Incremented? ==> (s.calls[id].phase.over <==> FoundFull(c, h, id)))
    && (id in s.obtained <==> GotSlot(c, h, id))
  }

  ghost predicate WayFollows(s: System, h: seq<Event>, id: int) {
    && (id in s.calls && !s.calls[id].phase.Releasing? <==> id in s.started && !Ended(h, id))
    && (id in s.calls && s.calls[id].phase.Inside? <==> InDelegate(h, id))
    && (Ended(h, id) ==> id in s.started)
  }

  /** An event concerns one call. */
  predicate Concerns(ev: Event, id: int) {
    !ev.KeyTimesOut? && ev.id == id
  }

  /** The two systems agree on the call. */
  predicate SameCall(s: System, s': System, id: int) {
    && (id in s.started <==> id in s'.started) && (id in s.obtained <==> id in s'.obtained)
    && (id in s.calls <==> id in s'.calls) && (id in s.calls ==> s.calls[id] == s'.calls[id])
  }

  lemma OthersStay(c: Config, s: System, ev: Event, id: int)
    requires !Concerns(ev, id)
    ensures SameCall(s, Step(c, s, ev), id)
  {
    hide Members, Ran;
  }

  lemma OtherFollows(c: Config, s: System, s': System, h: seq<Event>, ev: Event, id: int)
    requires !Concerns(ev, id) && SameCall(s, s', id) && CallFollows(c, s, h, id)
    ensures CallFollows(c, s', h + [ev], id)
  {
    hide Net;
    assert (h + [ev])[..|h|] == h && (h + [ev])[|h|] == ev;
  }

  lemma StepSlot(c: Config, s: System, h: seq<Event>, ev: Event, id: int)
    requires Enabled(c, s, ev) && SlotFollows(c, s, h, id) && s.counter == Net(h) && s.calls.Keys <= s.started
    requires Concerns(ev, id)
    ensures SlotFollows(c, Step(c, s, ev), h + [ev], id)
  {
    hide Members, Ran;
    assert (h + [ev])[..|h|] == h && (h + [ev])[|h|] == ev;
  }

  lemma StepWay(c: Config, s: System, h: seq<Event>, ev: Event, id: int)
    requires Enabled(c, s, ev) && WayFollows(s, h, id) && s.calls.Keys <= s.started
    requires Concerns(ev, id)
    ensures WayFollows(Step(c, s, ev), h + [ev], id)
  {
    hide Members, Ran;
    assert (h + [ev])[..|h|] == h && (h + [ev])[|h|] == ev;
  }

  lemma StepFollows(c: Config, s: System, h: seq<Event>, ev: Event, id: int)
    requires Enabled(c, s, ev) && CallFollows(c, s, h, id) && s.counter == Net(h) && s.calls.Keys <= s.started
    ensures CallFollows(c, Step(c, s, ev), h + [ev], id)
  {
    hide SlotFollows, WayFollows, Step;
    if Concerns(ev, id) {
      StepSlot(c, s, h, ev, id);
      StepWay(c, s, h, ev, id);
    } else {
      OthersStay(c, s, ev, id);
      OtherFollows(c, s, Step(c, s, ev), h, ev, id);
    }
  }

  lemma StepNet(c: Config, s: System, h: seq<Event>, ev: Event)
    requires Enabled(c, s, ev) && s.counter == Net(h)
    ensures Step(c, s, ev).counter == Net(h + [ev])
  {
    assert (h + [ev])[..|h|] == h && (h + [ev])[|h|] == ev;
    hide Members;
  }

  /**
   * The limiter from the events alone, over every run: the counter is the increments less the
   * decrements that ran since the key timed out; a call obtains a slot exactly if it found room and
   * both its commands worked; and the limiter fails open: whatever Redis does, full or failing, a
   * call is on its way to the delegate, or in it, until it leaves or is cancelled.
   */
  lemma {:induction false} RunFollowsEvents(c: Config, evs: seq<Event>)
    ensures Run(c, evs).counter == Net(Happened(c, evs))
    ensures forall id :: CallFollows(c, Run(c, evs), Happened(c, evs), id)
  {
    hide Step, Enabled, CallFollows, Inv;
    if evs == [] {
      forall id ensures CallFollows(c, Initial(c), [], id) {
        NothingHappened(c, id);
      }
    } else {
      var before, ev := evs[..|evs| - 1], evs[|evs| - 1];
      RunFollowsEvents(c, before);
      var s, h := Run(c, before), Happened(c, before);
      if Enabled(c, s, ev) {
        CallsStarted(c, before);
        StepNet(c, s, h, ev);
        forall id ensures CallFollows(c, Step(c, s, ev), h + [ev], id) {
          StepFollows(c, s, h, ev, id);
        }
      } else {
        Idle(c, s, ev);
      }
    }
  }

  lemma NothingHappened(c: Config, id: int)
    ensures CallFollows(c, Initial(c), [], id)
  {}

  lemma CallsStarted(c: Config, evs: seq<Event>)
    ensures Run(c, evs).calls.Keys <= Run(c, evs).started
  {
    RunKeepsInv(c, evs);
  }

  lemma Idle(c: Config, s: System, ev: Event)
    requires !Enabled(c, s, ev)
    ensures Step(c, s, ev) == s
  {}

  // ----- what a timeout of the key does -----

  predicate NoTimeout(evs: seq<Event>) {
    forall i :: 0 <= i < |evs| ==> !evs[i].KeyTimesOut?
  }

  /**
   * When a timeout of the key is harmless: from any state reached with the counter intact, the
   * limit holds after the timeout, in every continuation without another one, exactly if no call
   * was counted at that moment.
   */
  lemma TimeoutHarmlessExactly(c: Config, evs: seq<Event>)
    requires !Run(c, evs).forgot
    ensures var s := Run(c, evs);
      (forall more :: NoTimeout(more) ==> |Members(RunFrom(c, Step(c, s, KeyTimesOut), more).calls, Holding)| <= c.max)
      <==> Members(s.calls, Counted) == {}
  {
    var s := Run(c, evs);
    var t := Step(c, s, KeyTimesOut);
    RunKeepsInv(c, evs);
    StepPermits(c, s, KeyTimesOut);
    StepCounter(c, s, KeyTimesOut);
    StepReleases(c, s, KeyTimesOut);
    if Members(s.calls, Counted) == {} {
      forall more | NoTimeout(more) ensures |Members(RunFrom(c, t, more).calls, Holding)| <= c.max {
        RunFromKeepsInv(c, t, more);
        NothingForgotten(c, t, more);
      }
    } else {
      var more := Breaking(c, s);
    }
  }

  lemma {:induction false} NothingForgotten(c: Config, s: System, evs: seq<Event>)
    requires !s.forgot && NoTimeout(evs)
    ensures !RunFrom(c, s, evs).forgot
  {
    if evs != [] {
      NothingForgotten(c, s, evs[..|evs| - 1]);
    }
  }

  /** A continuation that breaks the limit. */
  lemma Breaking(c: Config, s: System) returns (more: seq<Event>)
    requires Inv(c, s) && Members(s.calls, Counted) != {}
    ensures NoTimeout(more)
    ensures |Members(RunFrom(c, Step(c, s, KeyTimesOut), more).calls, Holding)| > c.max
  {
    var t := Step(c, s, KeyTimesOut);
    assert t.calls == s.calls && t.started == s.started && t.counter == 0;
    var id := Pick(Members(s.calls, Counted));
    var process := s.calls[id].process;
    assert s.calls.Keys <= s.started && process in c.processes;
    if Members(s.calls, Holding) != {} {
      more := BreakingHeld(c, t, process);
    } else {
      assert id !in Members(s.calls, Holding);
      more := BreakingPending(c, t, process, id);
    }
  }

  /** A slot is held: the forgotten counter admits `max` more. */
  lemma BreakingHeld(c: Config, t: System, process: int) returns (more: seq<Event>)
    requires process in c.processes && t.counter == 0 && t.calls.Keys <= t.started
    requires Members(t.calls, Holding) != {}
    ensures NoTimeout(more) && |Members(RunFrom(c, t, more).calls, Holding)| > c.max
  {
    hide *;
    var next := Fresh(t.started);
    more := Acquire(process, next, c.max);
    AcquireHolds(c, t, process, next, c.max);
    Together(Members(t.calls, Holding), Range(next, next + c.max));
    RangeCard(next, next + c.max);
  }

  /** A roll-back is pending: it takes the counter below zero, which admits `max + 1` calls. */
  lemma BreakingPending(c: Config, t: System, process: int, id: int) returns (more: seq<Event>)
    requires process in c.processes && t.counter == 0 && t.calls.Keys <= t.started
    requires id in t.calls && (t.calls[id].phase == Incremented(true) || t.calls[id].phase.RollingBack?)
    ensures NoTimeout(more) && |Members(RunFrom(c, t, more).calls, Holding)| > c.max
  {
    hide Acquire, RunFrom, Range, Members, Step;
    var back := RollsBack(c, t, id);
    var u := RunFrom(c, t, back);
    var next := Fresh(u.started);
    var acquire := Acquire(process, next, c.max + 1);
    more := back + acquire;
    RunFromAppends(c, t, back, acquire);
    AcquireHolds(c, u, process, next, c.max + 1);
    RangeCard(next, next + (c.max + 1));
    CardMonotone(Range(next, next + (c.max + 1)), Members(RunFrom(c, t, more).calls, Holding));
  }

  lemma Together(a: set<int>, b: set<int>)
    requires a != {} && a !! b
    ensures |a + b| > |b|
  {
    var x := Pick(a);
    assert |b + {x}| == |b| + 1;
    CardMonotone(b + {x}, a + b);
  }

  lemma Fresh(used: set<int>) returns (n: int)
    ensures forall i :: i in used ==> i < n
  {
    if used == {} {
      n := 0;
    } else {
      var m := Maximum(used);
      n := m + 1;
    }
  }

  lemma {:induction false} RunFromAppends(c: Config, s: System, evs: seq<Event>, more: seq<Event>)
    ensures RunFrom(c, s, evs + more) == RunFrom(c, RunFrom(c, s, evs), more)
    decreases |more|
  {
    if more == [] {
      assert evs + more == evs;
    } else {
      RunFromAppends(c, s, evs, more[..|more| - 1]);
      assert (evs + more)[..|evs + more| - 1] == evs + more[..|more| - 1];
    }
  }

  /** A call found over the limit, or about to be, rolls back. */
  lemma RollsBack(c: Config, s: System, id: int) returns (evs: seq<Event>)
    requires id in s.calls && (s.calls[id].phase == Incremented(true) || s.calls[id].phase.RollingBack?)
    ensures NoTimeout(evs)
    ensures var u := RunFrom(c, s, evs);
      u.counter == s.counter - 1 && u.started == s.started && u.calls.Keys == s.calls.Keys
  {
    if s.calls[id].phase.RollingBack? {
      evs := [RollBack(id, Works)];
      RunOne(c, s, evs[0]);
    } else {
      evs := [SetExpiry(id, Works)] + [RollBack(id, Works)];
      RunFromAppends(c, s, [SetExpiry(id, Works)], [RollBack(id, Works)]);
      RunOne(c, s, SetExpiry(id, Works));
      RunOne(c, Step(c, s, SetExpiry(id, Works)), RollBack(id, Works));
    }
  }

  lemma RunOne(c: Config, s: System, ev: Event)
    ensures RunFrom(c, s, [ev]) == Step(c, s, ev)
  {
    assert RunFrom(c, s, [ev][..0]) == s;
  }

  /** `n` new calls, one after the other, up to obtaining a slot. */
  function Acquire(process: int, from: int, n: nat): seq<Event> {
    if n == 0 then []
    else Acquire(process, from, n - 1) + [Increment(from + n - 1, process, true, Works), SetExpiry(from + n - 1, Works)]
  }

  function NewCalls(process: int, from: int, n: nat): (calls: map<int, Call>)
    ensures calls.Keys == Range(from, from + n)
    ensures forall i :: i in calls ==> calls[i] == Call(process, Waiting(true))
  {
    if n == 0 then map[] else NewCalls(process, from, n - 1)[from + n - 1 := Call(process, Waiting(true))]
  }

  /** Since `s`, the `n` calls from `from` on have each obtained a slot. */
  ghost predicate Acquired(s: System, t: System, process: int, from: int, n: nat) {
    && t.counter == s.counter + n && t.started == s.started + Range(from, from + n)
    && t.calls == s.calls + NewCalls(process, from, n)
  }

  lemma {:induction false} AcquireAll(c: Config, s: System, process: int, from: int, n: nat)
    requires process in c.processes && s.counter + n <= c.max && forall i :: i in s.started ==> i < from
    ensures NoTimeout(Acquire(process, from, n))
    ensures Acquired(s, RunFrom(c, s, Acquire(process, from, n)), process, from, n)
    decreases n
  {
    hide RunFrom, Acquired, Step;
    if n > 0 {
      var before := Acquire(process, from, n - 1);
      AcquireAll(c, s, process, from, n - 1);
      RunTwo(c, s, before, Increment(from + n - 1, process, true, Works), SetExpiry(from + n - 1, Works));
      OneMoreAcquired(c, s, RunFrom(c, s, before), process, from, n - 1);
    } else {
      NoneAcquired(c, s, process, from);
    }
  }

  lemma NoneAcquired(c: Config, s: System, process: int, from: int)
    ensures Acquired(s, RunFrom(c, s, []), process, from, 0)
  {}

  lemma RunTwo(c: Config, s: System, evs: seq<Event>, a: Event, b: Event)
    ensures RunFrom(c, s, evs + [a, b]) == Step(c, Step(c, RunFrom(c, s, evs), a), b)
  {
    assert (evs + [a, b])[..|evs| + 1] == evs + [a] && (evs + [a])[..|evs|] == evs;
  }

  lemma AcquireOne(c: Config, s: System, process: int, id: int)
    requires process in c.processes && s.counter < c.max && id !in s.started
    ensures var t := Step(c, Step(c, s, Increment(id, process, true, Works)), SetExpiry(id, Works));
      && t.counter == s.counter + 1 && t.started == s.started + {id}
      && t.calls == s.calls[id := Call(process, Waiting(true))]
  {}

  lemma OneMoreAcquired(c: Config, s: System, m: System, process: int, from: int, n: nat)
    requires process in c.processes && s.counter + n < c.max && Acquired(s, m, process, from, n)
    requires forall i :: i in s.started ==> i < from
    ensures Acquired(s, Step(c, Step(c, m, Increment(from + n, process, true, Works)), SetExpiry(from + n, Works)),
                     process, from, n + 1)
  {
    hide Step;
    AcquireOne(c, m, process, from + n);
    assert Range(from, from + n + 1) == Range(from, from + n) + {from + n};
  }

  lemma AcquireHolds(c: Config, s: System, process: int, from: int, n: nat)
    requires process in c.processes && s.counter + n <= c.max
    requires (forall i :: i in s.started ==> i < from) && s.calls.Keys <= s.started
    ensures NoTimeout(Acquire(process, from, n))
    ensures Members(RunFrom(c, s, Acquire(process, from, n)).calls, Holding)
         == Members(s.calls, Holding) + Range(from, from + n)
    ensures Members(s.calls, Holding) !! Range(from, from + n)
  {
    hide RunFrom, Acquire, Step;
    AcquireAll(c, s, process, from, n);
  }

  /** `n` calls, each after a timeout of the key. */
  function Overrun(process: int, n: nat): seq<Event> {
    if n == 0 then []
    else Overrun(process, n - 1) + [KeyTimesOut] + [Increment(n - 1, process, true, Works)] + [SetExpiry(n - 1, Works)]
  }

  /** The calls `0` to `n - 1` have been made, hold a slot each and wait for the semaphore. */
  ghost predicate AllHold(s: System, process: int, n: nat) {
    && s.started == Range(0, n)
    && s.calls == map i | i in Range(0, n) :: Call(process, Waiting(true))
  }

  /** The key's timeout is what breaks the distributed limit: whatever the limit, with timeouts any
      number of calls come to hold a slot at once. */
  lemma {:induction false} TimeoutsBreakLimit(c: Config, process: int, n: nat)
    requires c.max >= 1 && process in c.processes
    ensures AllHold(Run(c, Overrun(process, n)), process, n)
    ensures |Members(Run(c, Overrun(process, n)).calls, Holding)| == n
    decreases n
  {
    if n > 0 {
      var before := Overrun(process, n - 1);
      TimeoutsBreakLimit(c, process, n - 1);
      RunAppend(c, before, KeyTimesOut);
      RunAppend(c, before + [KeyTimesOut], Increment(n - 1, process, true, Works));
      RunAppend(c, before + [KeyTimesOut] + [Increment(n - 1, process, true, Works)], SetExpiry(n - 1, Works));
      OneMoreHolds(c, Run(c, before), process, n - 1);
    }
    assert Members(Run(c, Overrun(process, n)).calls, Holding) == Range(0, n);
    RangeCard(0, n);
  }

  lemma OneMoreHolds(c: Config, s: System, process: int, n: nat)
    requires c.max >= 1 && process in c.processes && AllHold(s, process, n)
    ensures AllHold(Step(c, Step(c, Step(c, s, KeyTimesOut), Increment(n, process, true, Works)), SetExpiry(n, Works)),
                    process, n + 1)
  {
    assert Range(0, n + 1) == Range(0, n) + {n};
  }

  lemma RunAppend(c: Config, evs: seq<Event>, ev: Event)
    ensures Run(c, evs + [ev]) == Step(c, Run(c, evs), ev)
  {
    RunFromAppends(c, Initial(c), evs, [ev]);
    RunOne(c, Run(c, evs), ev);
  }

  // ----- the code between two awaits -----

  /**
   * `RateLimitedLLMProvider` in every process over one Redis key.  Each method is the code from one
   * await to the next and runs uninterrupted; a missing Redis client on release ends like a command
   * that raised without having run.
   */
  class SharedLimiter {
    const config: Config
    var counter: int
    var permits: map<int, int>
    var calls: map<int, Call>
    ghost var lost: nat
    ghost var forgot: bool
    ghost var started: set<int>
    ghost var obtained: set<int>
    ghost var released: multiset<int>

    ghost function View(): System
      reads this
    {
      System(counter, permits, calls, lost, forgot, started, obtained, released)
    }

    constructor (config: Config)
      ensures this.config == config && View() == Initial(config)
    {
      this.config := config;
      counter, permits, calls := 0, map p | p in config.processes :: config.max, map[];
      lost, forgot, started, obtained, released := 0, false, {}, {}, multiset{};
    }

    /** The start of `_acquire_distributed`, up to the end of INCR. */
    method IncrementCounter(id: int, process: int, hasClient: bool, fate: Fate)
      requires Enabled(config, View(), Increment(id, process, hasClient, fate))
      modifies this
      ensures View() == Step(config, old(View()), Increment(id, process, hasClient, fate))
    {
      started := started + {id};
      if !hasClient {
        calls := calls[id := Call(process, Waiting(false))];
        return;
      }
      var count := counter + 1;
      if Ran(fate) {
        counter := count;
        if fate != Works {
          lost := lost + 1;
        }
      }
      if fate == Works {
        calls := calls[id := Call(process, Incremented(count > config.max))];
      } else if fate.Raises? {
        calls := calls[id := Call(process, Waiting(false))];
      }
    }

    /** EXPIRE and the capacity test after it. */
    method SetKeyExpiry(id: int, fate: Fate)
      requires Enabled(config, View(), SetExpiry(id, fate))
      modifies `calls, `lost, `obtained
      ensures View() == Step(config, old(View()), SetExpiry(id, fate))
    {
      var call := calls[id];
      if fate == Works {
        if call.phase.over {
          calls := calls[id := call.(phase := RollingBack)];
        } else {
          calls := calls[id := call.(phase := Waiting(true))];
          obtained := obtained + {id};
        }
      } else {
        lost := lost + 1;
        if fate.Raises? {
          calls := calls[id := call.(phase := Waiting(false))];
        } else {
          calls := calls - {id};
        }
      }
    }

    /** The DECR of a call found over capacity, which goes on without a slot. */
    method RollBackIncrement(id: int, fate: Fate)
      requires Enabled(config, View(), RollBack(id, fate))
      modifies `counter, `calls, `lost
      ensures View() == Step(config, old(View()), RollBack(id, fate))
    {
      if Ran(fate) {
        counter := counter - 1;
      } else {
        lost := lost + 1;
      }
      if fate.Cancelled? {
        calls := calls - {id};
      } else {
        calls := calls[id := calls[id].(phase := Waiting(false))];
      }
    }

    /** The semaphore lets the call through. */
    method Enter(id: int)
      requires Enabled(config, View(), EnterDelegate(id))
      modifies `permits, `calls
      ensures View() == Step(config, old(View()), EnterDelegate(id))
    {
      var call := calls[id];
      permits := permits[call.process := permits[call.process] - 1];
      calls := calls[id := call.(phase := Inside(call.phase.held))];
    }

    /** The call is cancelled while it waits for the semaphore; `finally` still runs. */
    method StopWaiting(id: int)
      requires Enabled(config, View(), CancelWait(id))
      modifies `calls
      ensures View() == Step(config, old(View()), CancelWait(id))
    {
      if calls[id].phase.held {
        calls := calls[id := calls[id].(phase := Releasing)];
      } else {
        calls := calls - {id};
      }
    }

    /** The delegate returned, raised or was cancelled: the permit goes back, then `finally` runs. */
    method Exit(id: int)
      requires Enabled(config, View(), LeaveDelegate(id))
      modifies `permits, `calls
      ensures View() == Step(config, old(View()), LeaveDelegate(id))
    {
      var call := calls[id];
      permits := permits[call.process := permits[call.process] + 1];
      if call.phase.held {
        calls := calls[id := call.(phase := Releasing)];
      } else {
        calls := calls - {id};
      }
    }

    /** `_release_distributed`. */
    method ReleaseSlot(id: int, fate: Fate)
      requires Enabled(config, View(), Release(id, fate))
      modifies `counter, `calls, `lost, `released
      ensures View() == Step(config, old(View()), Release(id, fate))
    {
      if Ran(fate) {
        counter := counter - 1;
      } else {
        lost := lost + 1;
      }
      released := released + multiset{id};
      calls := calls - {id};
    }
  }
}
