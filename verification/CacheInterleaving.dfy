/**
 * The response cache one Redis command at a time: calls interleave at every await, a command may
 * run after its caller has given up on it, and times-to-live count from when it runs.
 */
module CacheInterleaving {
  import opened MemoryLru
  import opened ResponseCaches
  import opened Wrappers

  datatype Request =
    | ReadOf(place: Place, alt: Option<Place>)
    | WriteOf(place: Place, alt: Option<Place>, value: string, ttl: int, nonce: nat)
    | EraseOf(place: Place, alt: Option<Place>)

  /** A moment in the life of Redis: how many messages had run, and the time. */
  datatype Moment = Moment(served: nat, at: real)

  predicate Before(a: Moment, b: Moment) {
    a.served <= b.served && a.at <= b.at
  }

  /** A call as it began, `served` messages having run by then. */
  datatype Begun = Begun(request: Request, at: real, served: nat)

  function Start(b: Begun): Moment {
    Moment(b.served, b.at)
  }

  /** What was sent to Redis and has not run yet. */
  datatype Message = SetEx(write: Begun, bytes: Bytes) | Del(places: set<Place>)

  /** What a GET, or the in-memory lookup, found: where, and when. */
  datatype Found = Found(place: Place, entry: Entry, at: real)

  datatype Answer = Answer(found: Option<Found>, moment: Moment)

  /**
   * What a call awaits: a ping; a GET, `prior` being the moment of the first one during the second;
   * its SETEX; the retirement of the other place; its DEL.
   */
  datatype Phase =
    | Pinging
    | Getting(prior: Option<Moment>, answer: Option<Answer>)
    | Setting(message: int)
    | Retiring
    | Deleting

  datatype Call = Call(begun: Begun, phase: Phase)

  /** A finished read, with the moments of its first and last GET if Redis answered it. */
  datatype Replied = Replied(
    id: int, begun: Begun, ended: Moment, reply: Reply, found: Option<Found>, moments: Option<(Moment, Moment)>)

  /** `begun`, `served` and `replies` are the history: of calls, of messages run by Redis, of reads. */
  datatype System = System(
    cache: Cache, calls: map<int, Call>, wire: map<int, Message>, sent: int, clock: real,
    begun: map<int, Begun>, served: seq<(Message, real)>, replies: seq<Replied>)

  datatype Event =
    | Begin(id: int, request: Request, now: real)
    | Pong(id: int, ok: bool, now: real)
    | Serve(id: int, now: real)
    | Resume(id: int, fine: bool, now: real)
    | Arrive(message: int, now: real)

  function Initial(hasClient: bool, redisOk: bool, maxsize: nat, start: real): System {
    System(Empty(hasClient, redisOk, maxsize), map[], map[], 0, start, map[], [], [])
  }

  function Now(s: System): Moment {
    Moment(|s.served|, s.clock)
  }

  // ----- steps -----

  /** A write takes effect no later than `lag` after it began. */
  predicate InTime(lag: real, b: Begun, now: real) {
    b.request.WriteOf? ==> now <= b.at + lag
  }

  predicate ResumeEnabled(s: System, call: Call, fine: bool) {
    match call.phase
    case Pinging => false
    case Getting(_, answer) => call.begun.request.ReadOf? && (fine ==> answer.Some?)
    case Setting(m) => call.begun.request.WriteOf? && (fine ==> m !in s.wire && call.begun.request.ttl > 0)
    case Retiring => true
    case Deleting => call.begun.request.EraseOf?
  }

  /** Time does not run backwards; a command that succeeds has run; Redis refuses a time-to-live that
      is not positive. */
  predicate Enabled(lag: real, s: System, ev: Event) {
    ev.now >= s.clock &&
    match ev
    case Begin(id, _, _) => id !in s.begun && lag >= 0.0
    case Pong(id, _, now) => id in s.calls && s.calls[id].phase.Pinging? && InTime(lag, s.calls[id].begun, now)
    case Serve(id, _) =>
      id in s.calls && s.calls[id].phase.Getting? && s.calls[id].phase.answer.None? && s.calls[id].begun.request.ReadOf?
      && (s.calls[id].phase.prior.Some? ==> s.calls[id].begun.request.alt.Some?)
    case Resume(id, fine, now) =>
      id in s.calls && ResumeEnabled(s, s.calls[id], fine) && InTime(lag, s.calls[id].begun, now)
    case Arrive(m, now) => m in s.wire && (s.wire[m].SetEx? ==> InTime(lag, s.wire[m].write, now))
  }

  function Send(s: System, m: Message): System {
    s.(wire := s.wire[s.sent := m], sent := s.sent + 1)
  }

  function Wait(s: System, id: int, b: Begun, phase: Phase): System {
    s.(calls := s.calls[id := Call(b, phase)])
  }

  function Places(p: Place, alt: Option<Place>): set<Place> {
    {p} + if alt.None? then {} else {alt.value}
  }

  function Answered(s: System, id: int, b: Begun, reply: Reply, found: Option<Found>,
                    moments: Option<(Moment, Moment)>): System
  {
    s.(calls := s.calls - {id}, replies := s.replies + [Replied(id, b, Now(s), reply, found, moments)])
  }

  /** Which entry the in-memory lookup of `p`, then of `alt`, returns. */
  function InMemoryFound(l: Lru, p: Place, alt: Option<Place>, now: real): Option<Found> {
    var (l', raw) := Lookup(l, FallbackKey(p), now);
    if raw.Some? then Some(Found(p, l.entries[FallbackKey(p)], now))
    else if alt.Some? && Lookup(l', FallbackKey(alt.value), now).1.Some? then
      Some(Found(alt.value, l'.entries[FallbackKey(alt.value)], now))
    else None
  }

  /** The in-memory section with which a call ends when Redis has not settled it. */
  function Finish(c: Codec, s: System, id: int, b: Begun, now: real, moments: Option<(Moment, Moment)>): System {
    match b.request
    case ReadOf(p, alt) =>
      var (cache, reply) := ReadFallback(c, s.cache, p, alt, now);
      Answered(s.(cache := cache), id, b, reply, InMemoryFound(s.cache.fallback, p, alt, now), moments)
    case WriteOf(p, alt, v, ttl, nonce) =>
      s.(cache := WriteFallback(s.cache, p, alt, Entry(Encode(c, v, nonce), now, ttl)), calls := s.calls - {id})
    case EraseOf(p, alt) =>
      var l := Drop(s.cache.fallback, FallbackKey(p));
      s.(cache := s.cache.(fallback := if alt.None? then l else Drop(l, FallbackKey(alt.value))),
         calls := s.calls - {id})
  }

  /** The section after the reconnect: the first command is sent, or the call ends in memory. */
  function Proceed(c: Codec, s: System, id: int, b: Begun, now: real): System {
    if !UsesRedis(s.cache) then Finish(c, s, id, b, now, None)
    else match b.request
      case ReadOf(_, _) => Wait(s, id, b, Getting(None, None))
      case WriteOf(_, _, v, _, nonce) => Send(Wait(s, id, b, Setting(s.sent)), SetEx(b, Encode(c, v, nonce)))
      case EraseOf(p, alt) => Send(Wait(s, id, b, Deleting), Del(Places(p, alt)))
  }

  function Failed(s: System): System {
    s.(cache := s.cache.(redisOk := false))
  }

  /** A call begins: erasing does not reconnect, the others do, at most once an interval. */
  function Beginning(c: Codec, s: System, id: int, b: Begun, now: real): System {
    var s1 := s.(begun := s.begun[id := b]);
    if b.request.EraseOf? || s.cache.redisOk || !s.cache.hasClient || now - s.cache.lastReconnect < RECONNECT_INTERVAL
    then Proceed(c, s1, id, b, now)
    else Wait(s1.(cache := s.cache.(lastReconnect := now)), id, b, Pinging)
  }

  function Got(redis: map<string, Entry>, p: Place, now: real): Option<Found> {
    if RedisKey(p) in redis && !Expired(redis[RedisKey(p)], now) then Some(Found(p, redis[RedisKey(p)], now)) else None
  }

  /** The place the awaited GET asks for. */
  function Asked(call: Call): Place
    requires call.begun.request.ReadOf? && call.phase.Getting?
    requires call.phase.prior.Some? ==> call.begun.request.alt.Some?
  {
    if call.phase.prior.None? then call.begun.request.place else call.begun.request.alt.value
  }

  /** A GET has answered: ask for the legacy place, give the value, or go on in memory. */
  function AfterGet(c: Codec, s: System, id: int, call: Call, now: real): System
    requires call.begun.request.ReadOf? && call.phase.Getting? && call.phase.answer.Some?
  {
    var b, prior, answer := call.begun, call.phase.prior, call.phase.answer.value;
    var moments := Some((if prior.None? then answer.moment else prior.value, answer.moment));
    if answer.found.None? then
      if prior.None? && b.request.alt.Some? then Wait(s, id, b, Getting(Some(answer.moment), None))
      else Finish(c, s, id, b, now, moments)
    else match c.loads(Decrypt(c, answer.found.value.entry.value))
      case Some(v) => Answered(s, id, b, Hit(v), answer.found, moments)
      case None => Finish(c, Failed(s), id, b, now, None)
  }

  function Resumed(c: Codec, s: System, id: int, fine: bool, now: real): System
    requires id in s.calls && ResumeEnabled(s, s.calls[id], fine)
  {
    var call := s.calls[id];
    match call.phase
    case Getting(_, _) =>
      if fine then AfterGet(c, s, id, call, now) else Finish(c, Failed(s), id, call.begun, now, None)
    case Setting(_) =>
      if !fine then Finish(c, Failed(s), id, call.begun, now, None)
      else if call.begun.request.alt.None? then s.(calls := s.calls - {id})
      else Send(Wait(s, id, call.begun, Retiring), Del({call.begun.request.alt.value}))
    case Retiring => s.(calls := s.calls - {id})
    case Deleting => Finish(c, s, id, call.begun, now, None)
  }

  function RunMessage(redis: map<string, Entry>, m: Message, now: real): map<string, Entry> {
    match m
    case SetEx(w, bytes) =>
      if w.request.WriteOf? && w.request.ttl > 0
      then redis[RedisKey(w.request.place) := Entry(bytes, now, w.request.ttl)]
      else redis
    case Del(ps) => redis - set p | p in ps :: RedisKey(p)
  }

  function Step(c: Codec, lag: real, s0: System, ev: Event): System {
    if !Enabled(lag, s0, ev) then s0 else
    var s := s0.(clock := ev.now);
    match ev
    case Begin(id, request, now) => Beginning(c, s, id, Begun(request, now, |s.served|), now)
    case Pong(id, ok, now) =>
      Proceed(c, s.(cache := s.cache.(redisOk := s.cache.redisOk || ok)), id, s.calls[id].begun, now)
    case Serve(id, now) =>
      var call := s.calls[id];
      Wait(s, id, call.begun,
           call.phase.(answer := Some(Answer(Got(s.cache.redis, Asked(call), now), Moment(|s.served|, now)))))
    case Resume(id, fine, now) => Resumed(c, s, id, fine, now)
    case Arrive(m, now) =>
      s.(cache := s.cache.(redis := RunMessage(s.cache.redis, s.wire[m], now)),
         wire := s.wire - {m}, served := s.served + [(s.wire[m], now)])
  }

  function Run(c: Codec, lag: real, s: System, evs: seq<Event>): System {
    if evs == [] then s else Step(c, lag, Run(c, lag, s, evs[..|evs| - 1]), evs[|evs| - 1])
  }

  // ----- where values come from -----

  /** The entry was stored by this write, after it began and within `lag`. */
  ghost predicate StemsFrom(c: Codec, lag: real, b: Begun, key: string, e: Entry) {
    && b.request.WriteOf? && FallbackKey(b.request.place) == key
    && e.value == Encode(c, b.request.value, b.request.nonce) && e.ttl == b.request.ttl
    && b.at <= e.at <= b.at + lag
  }

  ghost predicate Stemmed(c: Codec, lag: real, begun: map<int, Begun>, key: string, e: Entry) {
    exists id :: id in begun && StemsFrom(c, lag, begun[id], key, e)
  }

  /** What a read found: alive, at its place or its alternative, stored there by a write. */
  ghost predicate FoundOk(c: Codec, lag: real, begun: map<int, Begun>, r: Request, f: Found) {
    && r.ReadOf? && (f.place == r.place || r.alt == Some(f.place))
    && Stemmed(c, lag, begun, FallbackKey(f.place), f.entry) && !Expired(f.entry, f.at)
  }

  ghost predicate MessageOk(c: Codec, begun: map<int, Begun>, clock: real, m: Message) {
    m.SetEx? ==>
      && m.write.request.WriteOf? && m.write.at <= clock
      && m.bytes == Encode(c, m.write.request.value, m.write.request.nonce)
      && exists id :: id in begun && begun[id] == m.write
  }

  ghost predicate CallOk(c: Codec, lag: real, begun: map<int, Begun>, clock: real, id: int, call: Call) {
    && id in begun && begun[id] == call.begun && call.begun.at <= clock
    && (call.phase.Getting? ==>
          && call.begun.request.ReadOf? && (call.phase.prior.Some? ==> call.begun.request.alt.Some?)
          && (call.phase.answer.Some? && call.phase.answer.value.found.Some? ==>
                FoundOk(c, lag, begun, call.begun.request, call.phase.answer.value.found.value)))
  }

  ghost predicate ReplyOk(c: Codec, lag: real, begun: map<int, Begun>, r: Request, reply: Reply, found: Option<Found>) {
    reply.Hit? ==>
      && found.Some? && FoundOk(c, lag, begun, r, found.value)
      && (c.loads(Decrypt(c, found.value.entry.value)) == Some(reply.value)
          || c.loads(found.value.entry.value) == Some(reply.value))
  }

  ghost predicate Justified(c: Codec, lag: real, begun: map<int, Begun>, r: Replied) {
    ReplyOk(c, lag, begun, r.begun.request, r.reply, r.found)
  }

  ghost predicate RedisOk(c: Codec, lag: real, begun: map<int, Begun>, redis: map<string, Entry>) {
    forall k :: k in redis ==> |k| >= 4 && k[..4] == "aim:" && Stemmed(c, lag, begun, k[4..], redis[k])
  }

  ghost predicate FallbackOk(c: Codec, lag: real, begun: map<int, Begun>, entries: map<string, Entry>) {
    forall k :: k in entries ==> Stemmed(c, lag, begun, k, entries[k])
  }

  ghost predicate Inv(c: Codec, lag: real, s: System) {
    && RedisOk(c, lag, s.begun, s.cache.redis) && FallbackOk(c, lag, s.begun, s.cache.fallback.entries)
    && (forall m :: m in s.wire ==> MessageOk(c, s.begun, s.clock, s.wire[m]))
    && (forall id :: id in s.calls ==> CallOk(c, lag, s.begun, s.clock, id, s.calls[id]))
    && (forall i :: 0 <= i < |s.replies| ==> Justified(c, lag, s.begun, s.replies[i]))
  }

  ghost predicate Grows(begun: map<int, Begun>, begun': map<int, Begun>) {
    forall id :: id in begun ==> id in begun' && begun'[id] == begun[id]
  }

  lemma StemmedGrows(c: Codec, lag: real, begun: map<int, Begun>, begun': map<int, Begun>, key: string, e: Entry)
    requires Grows(begun, begun') && Stemmed(c, lag, begun, key, e)
    ensures Stemmed(c, lag, begun', key, e)
  {
    hide StemsFrom;
    var id :| id in begun && StemsFrom(c, lag, begun[id], key, e);
    assert id in begun' && StemsFrom(c, lag, begun'[id], key, e);
  }

  /** Beginning more calls and letting time pass keeps everything. */
  lemma InvGrows(c: Codec, lag: real, s: System, begun': map<int, Begun>, clock': real)
    requires Inv(c, lag, s) && Grows(s.begun, begun') && s.clock <= clock'
    ensures Inv(c, lag, s.(begun := begun', clock := clock'))
  {
    hide Stemmed;
    forall key, e | Stemmed(c, lag, s.begun, key, e) ensures Stemmed(c, lag, begun', key, e) {
      StemmedGrows(c, lag, s.begun, begun', key, e);
    }
  }

  /** The in-memory lookup finds what was stored there. */
  lemma InMemoryFoundOk(c: Codec, lag: real, s: System, r: Request, now: real)
    requires FallbackOk(c, lag, s.begun, s.cache.fallback.entries) && r.ReadOf?
    ensures var (cache, reply) := ReadFallback(c, s.cache, r.place, r.alt, now);
      && cache == s.cache.(fallback := cache.fallback)
      && FallbackOk(c, lag, s.begun, cache.fallback.entries)
      && ReplyOk(c, lag, s.begun, r, reply, InMemoryFound(s.cache.fallback, r.place, r.alt, now))
  {
    hide Stemmed, MoveToEnd, Remove, Decrypt;
    FallbackReadWithin(s.cache, r.place, r.alt, now);
    LookupWithin(s.cache.fallback, FallbackKey(r.place), now);
    LookupFinds(s.cache.fallback, FallbackKey(r.place), now);
    var l := Lookup(s.cache.fallback, FallbackKey(r.place), now).0;
    if r.alt.Some? {
      LookupFinds(l, FallbackKey(r.alt.value), now);
    }
    hide Lookup;
  }

  lemma LookupFinds(l: Lru, k: string, now: real)
    ensures var raw := Lookup(l, k, now).1;
      raw.Some? ==> k in l.entries && l.entries[k].value == raw.value && !Expired(l.entries[k], now)
  {}

  lemma FinishKeeps(c: Codec, lag: real, s: System, id: int, b: Begun, now: real, moments: Option<(Moment, Moment)>)
    requires Inv(c, lag, s) && id in s.begun && s.begun[id] == b && b.at <= now == s.clock && InTime(lag, b, now)
    ensures Inv(c, lag, Finish(c, s, id, b, now, moments))
  {
    hide Stemmed, MessageOk, CallOk, Store, Drop, FallbackOk, RedisOk, InMemoryFound, ReadFallback, ReplyOk;
    match b.request {
      case ReadOf(p, alt) =>
        InMemoryFoundOk(c, lag, s, b.request, now);
      case WriteOf(p, alt, v, ttl, nonce) =>
        WroteInMemory(c, lag, s, id, b, now);
      case EraseOf(p, alt) =>
        DroppedOk(c, lag, s.begun, s.cache.fallback, FallbackKey(p));
        if alt.Some? {
          DroppedOk(c, lag, s.begun, Drop(s.cache.fallback, FallbackKey(p)), FallbackKey(alt.value));
        }
    }
  }

  lemma DroppedOk(c: Codec, lag: real, begun: map<int, Begun>, l: Lru, k: string)
    requires FallbackOk(c, lag, begun, l.entries)
    ensures FallbackOk(c, lag, begun, Drop(l, k).entries)
  {}

  lemma WroteInMemory(c: Codec, lag: real, s: System, id: int, b: Begun, now: real)
    requires FallbackOk(c, lag, s.begun, s.cache.fallback.entries)
    requires id in s.begun && s.begun[id] == b && b.request.WriteOf? && b.at <= now && InTime(lag, b, now)
    ensures var w := b.request;
      var cache := WriteFallback(s.cache, w.place, w.alt, Entry(Encode(c, w.value, w.nonce), now, w.ttl));
      cache == s.cache.(fallback := cache.fallback) && FallbackOk(c, lag, s.begun, cache.fallback.entries)
  {
    var w := b.request;
    var e := Entry(Encode(c, w.value, w.nonce), now, w.ttl);
    StoreWithin(s.cache.fallback, FallbackKey(w.place), e);
    assert StemsFrom(c, lag, s.begun[id], FallbackKey(w.place), e);
    hide Store, StemsFrom, Drop;
    assert FallbackOk(c, lag, s.begun, Store(s.cache.fallback, FallbackKey(w.place), e).entries);
    if w.alt.Some? {
      DroppedOk(c, lag, s.begun, Store(s.cache.fallback, FallbackKey(w.place), e), FallbackKey(w.alt.value));
    }
  }

  lemma ProceedKeeps(c: Codec, lag: real, s: System, id: int, b: Begun, now: real)
    requires Inv(c, lag, s) && id in s.begun && s.begun[id] == b && b.at <= now == s.clock && InTime(lag, b, now)
    ensures Inv(c, lag, Proceed(c, s, id, b, now))
  {
    hide Stemmed, ReplyOk, FallbackOk, RedisOk, Finish;
    if !UsesRedis(s.cache) {
      FinishKeeps(c, lag, s, id, b, now, None);
    }
  }

  lemma GotOk(c: Codec, lag: real, begun: map<int, Begun>, redis: map<string, Entry>, p: Place, now: real)
    requires RedisOk(c, lag, begun, redis)
    ensures var got := Got(redis, p, now);
      got.Some? ==> && got.value.place == p && !Expired(got.value.entry, got.value.at)
                    && Stemmed(c, lag, begun, FallbackKey(p), got.value.entry)
  {
    assert RedisKey(p)[4..] == FallbackKey(p);
  }

  lemma ServeKeeps(c: Codec, lag: real, s: System, id: int, now: real)
    requires Inv(c, lag, s) && Enabled(lag, s, Serve(id, now))
    ensures Inv(c, lag, Step(c, lag, s, Serve(id, now)))
  {
    var call := s.calls[id];
    assert CallOk(c, lag, s.begun, s.clock, id, call);
    GotOk(c, lag, s.begun, s.cache.redis, Asked(call), now);
    InvGrows(c, lag, s, s.begun, now);
    hide Stemmed, ReplyOk, FallbackOk, RedisOk, MessageOk, Got;
  }

  lemma WaitKeeps(c: Codec, lag: real, s: System, id: int, b: Begun, phase: Phase)
    requires Inv(c, lag, s) && CallOk(c, lag, s.begun, s.clock, id, Call(b, phase))
    ensures Inv(c, lag, Wait(s, id, b, phase))
  {
    hide CallOk, MessageOk, RedisOk, FallbackOk, ReplyOk;
  }

  lemma SendKeeps(c: Codec, lag: real, s: System, m: Message)
    requires Inv(c, lag, s) && MessageOk(c, s.begun, s.clock, m)
    ensures Inv(c, lag, Send(s, m))
  {
    hide CallOk, MessageOk, RedisOk, FallbackOk, ReplyOk;
  }

  lemma AnsweredKeeps(c: Codec, lag: real, s: System, id: int, b: Begun, reply: Reply, found: Option<Found>,
                      moments: Option<(Moment, Moment)>)
    requires Inv(c, lag, s) && ReplyOk(c, lag, s.begun, b.request, reply, found)
    ensures Inv(c, lag, Answered(s, id, b, reply, found, moments))
  {
    hide CallOk, MessageOk, RedisOk, FallbackOk, ReplyOk;
  }

  lemma FailedKeeps(c: Codec, lag: real, s: System)
    requires Inv(c, lag, s)
    ensures Inv(c, lag, Failed(s))
  {
    hide CallOk, MessageOk, RedisOk, FallbackOk, ReplyOk;
  }

  lemma AfterGetKeeps(c: Codec, lag: real, s: System, id: int, call: Call, now: real)
    requires Inv(c, lag, s) && id in s.calls && s.calls[id] == call && now == s.clock
    requires call.begun.request.ReadOf? && call.phase.Getting? && call.phase.answer.Some?
    ensures Inv(c, lag, AfterGet(c, s, id, call, now))
  {
    hide FoundOk, FallbackOk, RedisOk, MessageOk, Finish, Decrypt, Wait, Failed, Answered;
    assert CallOk(c, lag, s.begun, s.clock, id, call);
    var b, prior, answer := call.begun, call.phase.prior, call.phase.answer.value;
    var moments := Some((if prior.None? then answer.moment else prior.value, answer.moment));
    if answer.found.None? {
      if prior.None? && b.request.alt.Some? {
        WaitKeeps(c, lag, s, id, b, Getting(Some(answer.moment), None));
      } else {
        FinishKeeps(c, lag, s, id, b, now, moments);
      }
    } else {
      var v := c.loads(Decrypt(c, answer.found.value.entry.value));
      if v.Some? {
        AnsweredKeeps(c, lag, s, id, b, Hit(v.value), answer.found, moments);
      } else {
        FailedFinishKeeps(c, lag, s, id, b, now);
      }
    }
  }

  lemma FailedFinishKeeps(c: Codec, lag: real, s: System, id: int, b: Begun, now: real)
    requires Inv(c, lag, s) && id in s.begun && s.begun[id] == b && b.at <= now == s.clock && InTime(lag, b, now)
    ensures Inv(c, lag, Finish(c, Failed(s), id, b, now, None))
  {
    FailedKeeps(c, lag, s);
    hide Finish, Inv;
    FinishKeeps(c, lag, Failed(s), id, b, now, None);
  }

  lemma ResumedKeeps(c: Codec, lag: real, s: System, id: int, fine: bool, now: real)
    requires Inv(c, lag, s) && id in s.calls && ResumeEnabled(s, s.calls[id], fine)
    requires now == s.clock && InTime(lag, s.calls[id].begun, now)
    ensures Inv(c, lag, Resumed(c, s, id, fine, now))
  {
    hide FoundOk, FallbackOk, RedisOk, ReplyOk, Finish, AfterGet, Wait, Send, Failed;
    var call := s.calls[id];
    assert CallOk(c, lag, s.begun, s.clock, id, call);
    match call.phase {
      case Getting(_, _) =>
        if fine {
          AfterGetKeeps(c, lag, s, id, call, now);
        } else {
          FailedFinishKeeps(c, lag, s, id, call.begun, now);
        }
      case Setting(_) =>
        if !fine {
          FailedFinishKeeps(c, lag, s, id, call.begun, now);
        } else if call.begun.request.alt.None? {
          EndKeeps(c, lag, s, id);
        } else {
          WaitKeeps(c, lag, s, id, call.begun, Retiring);
          RetireKeeps(c, lag, Wait(s, id, call.begun, Retiring), call.begun.request.alt.value);
        }
      case Retiring => EndKeeps(c, lag, s, id);
      case Deleting => FinishKeeps(c, lag, s, id, call.begun, now, None);
    }
  }

  lemma EndKeeps(c: Codec, lag: real, s: System, id: int)
    requires Inv(c, lag, s)
    ensures Inv(c, lag, s.(calls := s.calls - {id}))
  {
    hide CallOk, MessageOk, RedisOk, FallbackOk, ReplyOk;
  }

  lemma RetireKeeps(c: Codec, lag: real, s: System, p: Place)
    requires Inv(c, lag, s)
    ensures Inv(c, lag, Send(s, Del({p})))
  {
    hide Inv, Send;
    SendKeeps(c, lag, s, Del({p}));
  }

  lemma BeginningKeeps(c: Codec, lag: real, s: System, id: int, b: Begun, now: real)
    requires Inv(c, lag, s) && id !in s.begun && b.at == now == s.clock && lag >= 0.0
    ensures Inv(c, lag, Beginning(c, s, id, b, now))
  {
    var s1 := s.(begun := s.begun[id := b]);
    InvGrows(c, lag, s, s1.begun, s.clock);
    ProceedKeeps(c, lag, s1, id, b, now);
    hide Stemmed, FallbackOk, RedisOk, ReplyOk, MessageOk, Proceed;
  }

  lemma ArriveKeeps(c: Codec, lag: real, s: System, m: int, now: real)
    requires Inv(c, lag, s) && Enabled(lag, s, Arrive(m, now))
    ensures Inv(c, lag, Step(c, lag, s, Arrive(m, now)))
  {
    assert MessageOk(c, s.begun, s.clock, s.wire[m]);
    InvGrows(c, lag, s, s.begun, now);
    MessageRuns(c, lag, s.begun, s.cache.redis, s.wire[m], s.clock, now);
    hide Stemmed, FallbackOk, RedisOk, ReplyOk, MessageOk, CallOk, RunMessage;
  }

  lemma MessageRuns(c: Codec, lag: real, begun: map<int, Begun>, redis: map<string, Entry>, m: Message,
                    clock: real, now: real)
    requires RedisOk(c, lag, begun, redis) && MessageOk(c, begun, clock, m)
    requires clock <= now && (m.SetEx? ==> InTime(lag, m.write, now))
    ensures RedisOk(c, lag, begun, RunMessage(redis, m, now))
  {
    if m.SetEx? {
      var w := m.write.request;
      var e := Entry(m.bytes, now, w.ttl);
      var id :| id in begun && begun[id] == m.write;
      assert StemsFrom(c, lag, begun[id], FallbackKey(w.place), e);
      assert RedisKey(w.place)[..4] == "aim:" && RedisKey(w.place)[4..] == FallbackKey(w.place);
      hide StemsFrom;
    }
  }

  lemma StepKeepsInv(c: Codec, lag: real, s: System, ev: Event)
    requires Inv(c, lag, s)
    ensures Inv(c, lag, Step(c, lag, s, ev))
  {
    hide Inv, Resumed, Beginning, Proceed, RunMessage, Got;
    if Enabled(lag, s, ev) {
      InvGrows(c, lag, s, s.begun, ev.now);
      var t := s.(clock := ev.now);
      match ev {
        case Begin(id, request, now) => BeginningKeeps(c, lag, t, id, Begun(request, now, |t.served|), now);
        case Pong(id, ok, now) => PongKeeps(c, lag, t, id, ok, now);
        case Serve(id, now) => ServeKeeps(c, lag, s, id, now);
        case Resume(id, fine, now) => ResumedKeeps(c, lag, t, id, fine, now);
        case Arrive(m, now) => ArriveKeeps(c, lag, s, m, now);
      }
    }
  }

  lemma PongKeeps(c: Codec, lag: real, s: System, id: int, ok: bool, now: real)
    requires Inv(c, lag, s) && id in s.calls && now == s.clock && InTime(lag, s.calls[id].begun, now)
    ensures Inv(c, lag, Proceed(c, s.(cache := s.cache.(redisOk := s.cache.redisOk || ok)), id, s.calls[id].begun, now))
  {
    assert CallOk(c, lag, s.begun, s.clock, id, s.calls[id]);
    hide Proceed;
    ProceedKeeps(c, lag, s.(cache := s.cache.(redisOk := s.cache.redisOk || ok)), id, s.calls[id].begun, now);
  }

  lemma {:induction false} RunKeepsInv(c: Codec, lag: real, s: System, evs: seq<Event>)
    requires Inv(c, lag, s)
    ensures Inv(c, lag, Run(c, lag, s, evs))
  {
    if evs != [] {
      RunKeepsInv(c, lag, s, evs[..|evs| - 1]);
      StepKeepsInv(c, lag, Run(c, lag, s, evs[..|evs| - 1]), evs[|evs| - 1]);
    }
  }

  ghost predicate SaneRequest(tenants: set<string>, r: Request) {
    Sane(tenants, r.place) && (r.alt.Some? ==> Sane(tenants, r.alt.value))
  }

  /** A write of `v` to `q` began, and what it stored at `storedAt`, within `lag`, was alive at `foundAt`. */
  ghost predicate WroteInTime(b: Begun, q: Place, v: string, storedAt: real, foundAt: real, lag: real) {
    && b.request.WriteOf? && b.request.place == q && b.request.value == v
    && b.at <= storedAt <= b.at + lag && foundAt - storedAt <= b.request.ttl as real
  }

  // ----- when things happen -----

  ghost predicate Past(entries: map<string, Entry>, clock: real) {
    forall k :: k in entries ==> entries[k].at <= clock
  }

  /** Found between two moments, and stored before. */
  ghost predicate TimelyFound(from: Moment, to: Moment, found: Option<Found>) {
    found.Some? ==> from.at <= found.value.at <= to.at && found.value.entry.at <= found.value.at
  }

  ghost predicate TimelyGet(start: Moment, now: Moment, prior: Option<Moment>, answer: Option<Answer>) {
    && (prior.Some? ==> Before(start, prior.value) && Before(prior.value, now))
    && (answer.Some? ==>
          && Before(if prior.Some? then prior.value else start, answer.value.moment)
          && Before(answer.value.moment, now) && TimelyFound(start, answer.value.moment, answer.value.found))
  }

  ghost predicate TimelyCall(begun: map<int, Begun>, now: Moment, id: int, call: Call) {
    && id in begun && begun[id] == call.begun && Before(Start(call.begun), now)
    && (call.phase.Getting? ==> TimelyGet(Start(call.begun), now, call.phase.prior, call.phase.answer))
  }

  /** The moments of the GETs of a read lie between two others, in order. */
  ghost predicate TimelyMoments(from: Moment, to: Moment, moments: Option<(Moment, Moment)>) {
    moments.Some? ==>
      Before(from, moments.value.0) && Before(moments.value.0, moments.value.1) && Before(moments.value.1, to)
  }

  /** The reply is that of a call that began, and all it rests on lies between its beginning and its end. */
  ghost predicate TimelyReply(begun: map<int, Begun>, now: Moment, r: Replied) {
    && r.id in begun && begun[r.id] == r.begun && Before(Start(r.begun), r.ended) && Before(r.ended, now)
    && TimelyFound(Start(r.begun), r.ended, r.found) && TimelyMoments(Start(r.begun), r.ended, r.moments)
  }

  ghost predicate Timely(s: System) {
    && Past(s.cache.redis, s.clock) && Past(s.cache.fallback.entries, s.clock)
    && (forall id :: id in s.calls ==> TimelyCall(s.begun, Now(s), id, s.calls[id]))
    && (forall i :: 0 <= i < |s.replies| ==> TimelyReply(s.begun, Now(s), s.replies[i]))
  }

  lemma TimelyGrows(s: System, begun': map<int, Begun>, clock': real, served': seq<(Message, real)>)
    requires Timely(s) && Grows(s.begun, begun') && s.clock <= clock' && |s.served| <= |served'|
    ensures Timely(s.(begun := begun', clock := clock', served := served'))
  {
    hide TimelyFound, TimelyMoments;
  }

  lemma TimelyWait(s: System, id: int, b: Begun, phase: Phase)
    requires Timely(s) && TimelyCall(s.begun, Now(s), id, Call(b, phase))
    ensures Timely(Wait(s, id, b, phase))
  {
    hide Past, TimelyCall, TimelyReply;
  }

  lemma TimelyAnswered(s: System, id: int, b: Begun, reply: Reply, found: Option<Found>,
                       moments: Option<(Moment, Moment)>)
    requires Timely(s) && id in s.begun && s.begun[id] == b && Before(Start(b), Now(s))
    requires TimelyFound(Start(b), Now(s), found) && TimelyMoments(Start(b), Now(s), moments)
    ensures Timely(Answered(s, id, b, reply, found, moments))
  {
    hide Past, TimelyCall, TimelyFound, TimelyMoments, Before;
    assert Before(Now(s), Now(s)) by { BeforeItself(Now(s)); }
  }

  lemma BeforeItself(m: Moment)
    ensures Before(m, m)
  {}

  lemma InMemoryTimely(l: Lru, p: Place, alt: Option<Place>, start: Moment, now: Moment)
    requires Past(l.entries, now.at) && Before(start, now)
    ensures TimelyFound(start, now, InMemoryFound(l, p, alt, now.at))
  {
    LookupFinds(l, FallbackKey(p), now.at);
    LookupWithin(l, FallbackKey(p), now.at);
    if alt.Some? {
      LookupFinds(Lookup(l, FallbackKey(p), now.at).0, FallbackKey(alt.value), now.at);
    }
    hide Lookup;
  }

  lemma PastWithin(small: map<string, Entry>, big: map<string, Entry>, key: string, e: Option<Entry>, clock: real)
    requires Within(small, big, key, e) && Past(big, clock) && (e.Some? ==> e.value.at <= clock)
    ensures Past(small, clock)
  {}

  lemma PastDrop(l: Lru, k: string, clock: real)
    requires Past(l.entries, clock)
    ensures Past(Drop(l, k).entries, clock)
  {}

  /** Whatever a call does in memory, it stores nothing of the future. */
  lemma FinishPast(c: Codec, s: System, id: int, b: Begun, now: real, moments: Option<(Moment, Moment)>)
    requires Past(s.cache.fallback.entries, now)
    ensures var s' := Finish(c, s, id, b, now, moments);
      && Past(s'.cache.fallback.entries, now) && s'.cache.redis == s.cache.redis
      && s'.clock == s.clock && s'.served == s.served && s'.begun == s.begun
  {
    hide Lookup, Store, Drop, Past, InMemoryFound;
    match b.request {
      case ReadOf(p, alt) =>
        FallbackReadWithin(s.cache, p, alt, now);
        PastWithin(FallbackRead(s.cache, p, alt, now).0.fallback.entries, s.cache.fallback.entries, "", None, now);
      case WriteOf(p, alt, v, ttl, nonce) =>
        var e := Entry(Encode(c, v, nonce), now, ttl);
        var l := Store(s.cache.fallback, FallbackKey(p), e);
        StoreWithin(s.cache.fallback, FallbackKey(p), e);
        PastWithin(l.entries, s.cache.fallback.entries, FallbackKey(p), Some(e), now);
        if alt.Some? {
          PastDrop(l, FallbackKey(alt.value), now);
        }
      case EraseOf(p, alt) =>
        PastDrop(s.cache.fallback, FallbackKey(p), now);
        if alt.Some? {
          PastDrop(Drop(s.cache.fallback, FallbackKey(p)), FallbackKey(alt.value), now);
        }
    }
  }

  lemma FinishTimely(c: Codec, s: System, id: int, b: Begun, moments: Option<(Moment, Moment)>)
    requires Timely(s) && id in s.begun && s.begun[id] == b && Before(Start(b), Now(s))
    requires TimelyMoments(Start(b), Now(s), moments)
    ensures Timely(Finish(c, s, id, b, s.clock, moments))
  {
    hide Past, TimelyCall, TimelyReply, TimelyFound, TimelyMoments, InMemoryFound, WriteFallback, Drop, Before;
    FinishPast(c, s, id, b, s.clock, moments);
    if b.request.ReadOf? {
      var (cache, reply) := ReadFallback(c, s.cache, b.request.place, b.request.alt, s.clock);
      InMemoryTimely(s.cache.fallback, b.request.place, b.request.alt, Start(b), Now(s));
      TimelyAnswered(s.(cache := cache), id, b, reply,
                     InMemoryFound(s.cache.fallback, b.request.place, b.request.alt, s.clock), moments);
    }
  }

  lemma ProceedTimely(c: Codec, s: System, id: int, b: Begun)
    requires Timely(s) && id in s.begun && s.begun[id] == b && Before(Start(b), Now(s))
    ensures Timely(Proceed(c, s, id, b, s.clock))
  {
    hide Past, TimelyReply, Finish, Before;
    if !UsesRedis(s.cache) {
      FinishTimely(c, s, id, b, None);
    }
  }

  lemma AfterGetTimely(c: Codec, s: System, id: int, call: Call)
    requires Timely(s) && id in s.calls && s.calls[id] == call
    requires call.begun.request.ReadOf? && call.phase.Getting? && call.phase.answer.Some?
    ensures Timely(AfterGet(c, s, id, call, s.clock))
  {
    hide Past, TimelyReply, TimelyFound, Finish, Answered, Wait, Decrypt;
    assert TimelyCall(s.begun, Now(s), id, call);
    var b, prior, answer := call.begun, call.phase.prior, call.phase.answer.value;
    var moments := Some((if prior.None? then answer.moment else prior.value, answer.moment));
    assert TimelyMoments(Start(b), Now(s), moments);
    if answer.found.None? && prior.None? && b.request.alt.Some? {
      TimelyWait(s, id, b, Getting(Some(answer.moment), None));
    } else if answer.found.None? {
      FinishTimely(c, s, id, b, moments);
    } else {
      FoundLater(Start(b), answer.moment, Now(s), answer.found);
      var v := c.loads(Decrypt(c, answer.found.value.entry.value));
      if v.Some? {
        TimelyAnswered(s, id, b, Hit(v.value), answer.found, moments);
      } else {
        FinishTimely(c, Failed(s), id, b, None);
      }
    }
  }

  lemma FoundLater(from: Moment, to: Moment, to': Moment, found: Option<Found>)
    requires TimelyFound(from, to, found) && Before(to, to')
    ensures TimelyFound(from, to', found)
  {}

  lemma ResumedTimely(c: Codec, s: System, id: int, fine: bool)
    requires Timely(s) && id in s.calls && ResumeEnabled(s, s.calls[id], fine)
    ensures Timely(Resumed(c, s, id, fine, s.clock))
  {
    hide Past, TimelyReply, TimelyGet, Finish, AfterGet;
    var call := s.calls[id];
    assert TimelyCall(s.begun, Now(s), id, call);
    match call.phase {
      case Getting(_, _) =>
        if fine {
          AfterGetTimely(c, s, id, call);
        } else {
          FinishTimely(c, Failed(s), id, call.begun, None);
        }
      case Setting(_) =>
        if !fine {
          FinishTimely(c, Failed(s), id, call.begun, None);
        }
      case Retiring =>
      case Deleting => FinishTimely(c, s, id, call.begun, None);
    }
  }

  lemma GotTimely(redis: map<string, Entry>, p: Place, start: Moment, now: Moment)
    requires Past(redis, now.at) && Before(start, now)
    ensures TimelyFound(start, now, Got(redis, p, now.at))
  {}

  lemma ServeTimely(c: Codec, lag: real, s: System, id: int)
    requires Timely(s) && Enabled(lag, s, Serve(id, s.clock))
    ensures Timely(Step(c, lag, s, Serve(id, s.clock)))
  {
    hide Past, TimelyReply, TimelyFound, Got;
    var call := s.calls[id];
    assert TimelyCall(s.begun, Now(s), id, call);
    GotTimely(s.cache.redis, Asked(call), Start(call.begun), Now(s));
    TimelyWait(s, id, call.begun,
               call.phase.(answer := Some(Answer(Got(s.cache.redis, Asked(call), s.clock), Now(s)))));
  }

  lemma ArriveTimely(c: Codec, lag: real, s: System, m: int)
    requires Timely(s) && Enabled(lag, s, Arrive(m, s.clock))
    ensures Timely(Step(c, lag, s, Arrive(m, s.clock)))
  {
    hide TimelyReply, TimelyCall, RedisKey;
    TimelyGrows(s, s.begun, s.clock, s.served + [(s.wire[m], s.clock)]);
  }

  lemma BeginTimely(c: Codec, s: System, id: int, request: Request)
    requires Timely(s) && id !in s.begun
    ensures Timely(Beginning(c, s, id, Begun(request, s.clock, |s.served|), s.clock))
  {
    var b := Begun(request, s.clock, |s.served|);
    var s1 := s.(begun := s.begun[id := b]);
    TimelyGrows(s, s1.begun, s.clock, s.served);
    ProceedTimely(c, s1, id, b);
    hide Past, TimelyReply, Proceed;
  }

  lemma StepTimely(c: Codec, lag: real, s: System, ev: Event)
    requires Timely(s)
    ensures Timely(Step(c, lag, s, ev))
  {
    hide Past, TimelyReply, TimelyGet, Resumed, Beginning, Proceed, RunMessage, Got;
    if Enabled(lag, s, ev) {
      var t := s.(clock := ev.now);
      TimelyGrows(s, s.begun, ev.now, s.served);
      match ev {
        case Begin(id, request, now) => BeginTimely(c, t, id, request);
        case Pong(id, ok, now) =>
          assert TimelyCall(t.begun, Now(t), id, t.calls[id]);
          ProceedTimely(c, t.(cache := t.cache.(redisOk := t.cache.redisOk || ok)), id, t.calls[id].begun);
        case Serve(id, now) => ServeTimely(c, lag, t, id);
        case Resume(id, fine, now) => ResumedTimely(c, t, id, fine);
        case Arrive(m, now) => ArriveTimely(c, lag, t, m);
      }
    }
  }

  lemma {:induction false} RunTimely(c: Codec, lag: real, s: System, evs: seq<Event>)
    requires Timely(s)
    ensures Timely(Run(c, lag, s, evs))
  {
    hide Timely, Step;
    if evs != [] {
      RunTimely(c, lag, s, evs[..|evs| - 1]);
      StepTimely(c, lag, Run(c, lag, s, evs[..|evs| - 1]), evs[|evs| - 1]);
    }
  }

  /**
   * Tenant safety in every interleaving: whatever calls overlap, whatever commands fail, are lost or
   * run late, a read that hits found, at its own place or the legacy place it also consults and at a
   * time between its beginning and its reply, a value that some write had by then stored to exactly
   * that place, no longer before than that write's time-to-live.
   */
  lemma HitsAreOwnWrites(c: Codec, lag: real, tenants: set<string>, hasClient: bool, redisOk: bool, maxsize: nat,
                         start: real, evs: seq<Event>, i: nat)
    requires Lawful(c)
    requires var s := Run(c, lag, Initial(hasClient, redisOk, maxsize, start), evs);
      && i < |s.replies| && s.replies[i].reply.Hit?
      && (forall id :: id in s.begun ==> SaneRequest(tenants, s.begun[id].request))
    ensures var s := Run(c, lag, Initial(hasClient, redisOk, maxsize, start), evs);
      var r := s.replies[i];
      && r.id in s.begun && s.begun[r.id] == r.begun && r.begun.request.ReadOf? && r.found.Some?
      && var f := r.found.value;
      && (f.place == r.begun.request.place || r.begun.request.alt == Some(f.place))
      && r.begun.at <= f.at <= r.ended.at <= s.clock && f.entry.at <= f.at
      && exists id :: id in s.begun && WroteInTime(s.begun[id], f.place, r.reply.value, f.entry.at, f.at, lag)
  {
    var s0 := Initial(hasClient, redisOk, maxsize, start);
    var s := Run(c, lag, s0, evs);
    assert Inv(c, lag, s0) && Timely(s0);
    RunKeepsInv(c, lag, s0, evs);
    RunTimely(c, lag, s0, evs);
    assert Justified(c, lag, s.begun, s.replies[i]) && TimelyReply(s.begun, Now(s), s.replies[i]);
    var id := FoundWrite(c, lag, tenants, s.begun, s.replies[i]);
  }

  lemma FoundWrite(c: Codec, lag: real, tenants: set<string>, begun: map<int, Begun>, r: Replied) returns (id: int)
    requires Lawful(c) && r.reply.Hit? && Justified(c, lag, begun, r) && SaneRequest(tenants, r.begun.request)
    requires forall id :: id in begun ==> SaneRequest(tenants, begun[id].request)
    ensures id in begun
    ensures WroteInTime(begun[id], r.found.value.place, r.reply.value, r.found.value.entry.at, r.found.value.at, lag)
  {
    var f := r.found.value;
    id :| id in begun && StemsFrom(c, lag, begun[id], FallbackKey(f.place), f.entry);
    var w := begun[id].request;
    DecodesBack(c, w.value, w.nonce);
    SaneKeysInjective(tenants, w.place, f.place);
    hide Sane, Lawful, Encode, Decrypt, FallbackKey;
  }

  lemma {:induction false} RunAppends(c: Codec, lag: real, s: System, a: seq<Event>, b: seq<Event>)
    ensures Run(c, lag, s, a + b) == Run(c, lag, Run(c, lag, s, a), b)
    decreases |b|
  {
    hide Step;
    if b == [] {
      assert a + b == a;
    } else {
      RunAppends(c, lag, s, a, b[..|b| - 1]);
      assert (a + b)[..|a + b| - 1] == a + b[..|b| - 1];
    }
  }

  lemma RunTwo(c: Codec, lag: real, s: System, e1: Event, e2: Event)
    ensures Run(c, lag, s, [e1, e2]) == Step(c, lag, Step(c, lag, s, e1), e2)
  {
    hide Step;
    assert [e1, e2][..1] == [e1] && [e1][..0] == [];
    assert Run(c, lag, s, [e1]) == Step(c, lag, Run(c, lag, s, []), e1);
  }

  lemma RunThree(c: Codec, lag: real, s: System, e1: Event, e2: Event, e3: Event)
    ensures Run(c, lag, s, [e1, e2, e3]) == Step(c, lag, Step(c, lag, Step(c, lag, s, e1), e2), e3)
  {
    hide Step;
    assert [e1, e2, e3][..2] == [e1, e2];
    RunTwo(c, lag, s, e1, e2);
  }

  // ----- a call that nothing interrupts -----

  lemma RunOne(c: Codec, lag: real, s: System, ev: Event)
    ensures Run(c, lag, s, [ev]) == Step(c, lag, s, ev)
  {
    hide Step;
    assert [ev][..0] == [] && Run(c, lag, s, []) == s;
  }

  function OpOf(request: Request, env: Env): ResponseCaches.Op {
    match request
    case ReadOf(p, alt) => DoRead(p, alt, env)
    case WriteOf(p, alt, v, ttl, nonce) => DoWrite(p, alt, v, ttl, nonce, env)
    case EraseOf(p, alt) => DoErase(p, alt, env)
  }

  /** The call is over and has done to the cache what the whole operation does at once; a read has
      replied the same. */
  ghost predicate DoneAtOnce(c: Codec, s: System, t: System, id: int, request: Request, env: Env) {
    && t.cache == ApplyOp(c, s.cache, OpOf(request, env)) && t.calls == s.calls
    && (!request.ReadOf? ==> t.replies == s.replies)
    && (request.ReadOf? ==>
          && |t.replies| == |s.replies| + 1 && t.replies[..|s.replies|] == s.replies
          && t.replies[|s.replies|].id == id
          && t.replies[|s.replies|].reply == Read(c, s.cache, request.place, request.alt, env).1)
  }

  /** The call that has begun, with the cache as reconnecting leaves it. */
  function Entered(s: System, id: int, b: Begun, env: Env): System {
    s.(cache := if b.request.EraseOf? then s.cache else Prelude(s.cache, env), clock := env.now,
       begun := s.begun[id := b])
  }

  lemma BeginReaches(c: Codec, lag: real, s: System, id: int, request: Request, env: Env) returns (evs: seq<Event>)
    requires lag >= 0.0 && id !in s.begun && id !in s.calls && s.clock <= env.now
    ensures var b := Begun(request, env.now, |s.served|);
      Run(c, lag, s, evs) == Proceed(c, Entered(s, id, b, env), id, b, env.now)
  {
    hide Proceed;
    var b := Begun(request, env.now, |s.served|);
    evs := [Begin(id, request, env.now)];
    RunOne(c, lag, s, evs[0]);
    var s1 := Step(c, lag, s, evs[0]);
    if !(request.EraseOf? || s.cache.redisOk || !s.cache.hasClient
         || env.now - s.cache.lastReconnect < RECONNECT_INTERVAL)
    {
      var pong := Pong(id, env.ping, env.now);
      assert s1.calls[id] == Call(b, Pinging);
      RunAppends(c, lag, s, evs, [pong]);
      RunOne(c, lag, s1, pong);
      PongForgets(c, lag, s, s1, id, b, env);
      evs := evs + [pong];
    }
  }

  /** While the ping is awaited the call is on the list; what it does next overwrites or removes that. */
  lemma PongForgets(c: Codec, lag: real, s: System, s1: System, id: int, b: Begun, env: Env)
    requires lag >= 0.0 && id !in s.begun && id !in s.calls && s.clock <= env.now && b.at == env.now
    requires s1 == Wait(s.(clock := env.now, begun := s.begun[id := b], cache := s.cache.(lastReconnect := env.now)),
                        id, b, Pinging)
    requires !b.request.EraseOf? && !s.cache.redisOk && s.cache.hasClient
    requires env.now - s.cache.lastReconnect >= RECONNECT_INTERVAL
    ensures Step(c, lag, s1, Pong(id, env.ping, env.now)) == Proceed(c, Entered(s, id, b, env), id, b, env.now)
  {
    hide Proceed;
    var entered := Entered(s, id, b, env);
    assert s1.(cache := entered.cache, clock := env.now) == Wait(entered, id, b, Pinging);
    ProceedForgets(c, entered, id, b, Pinging, env.now);
  }

  lemma ProceedForgets(c: Codec, s: System, id: int, b: Begun, phase: Phase, now: real)
    requires id !in s.calls
    ensures Proceed(c, Wait(s, id, b, phase), id, b, now) == Proceed(c, s, id, b, now)
  {
    hide Encode, Finish;
    assert forall next :: Wait(Wait(s, id, b, phase), id, b, next) == Wait(s, id, b, next);
    FinishForgets(c, s, id, b, phase, now);
  }

  lemma FinishForgets(c: Codec, s: System, id: int, b: Begun, phase: Phase, now: real)
    requires id !in s.calls
    ensures Finish(c, Wait(s, id, b, phase), id, b, now, None) == Finish(c, s, id, b, now, None)
  {
    hide Encode, ReadFallback, WriteFallback, InMemoryFound, Drop;
    assert Wait(s, id, b, phase).calls - {id} == s.calls - {id};
  }

  lemma FinishDone(c: Codec, s: System, id: int, b: Begun, cache: Cache, now: real, moments: Option<(Moment, Moment)>)
    ensures var t := Finish(c, s.(cache := cache), id, b, now, moments);
      && t.calls == s.calls - {id} && t.served == s.served && t.wire == s.wire
      && (b.request.ReadOf? ==>
            var (after, reply) := ReadFallback(c, cache, b.request.place, b.request.alt, now);
            && t.cache == after
            && t.replies == s.replies + [Replied(id, b, Now(s), reply,
                              InMemoryFound(cache.fallback, b.request.place, b.request.alt, now), moments)])
      && (!b.request.ReadOf? ==> t.replies == s.replies)
      && (b.request.WriteOf? ==> t.cache == WriteFallback(cache, b.request.place, b.request.alt,
            Entry(Encode(c, b.request.value, b.request.nonce), now, b.request.ttl)))
  {
    hide ReadFallback, WriteFallback, InMemoryFound, Encode, Drop;
  }

  /** What is left once the call has entered: from here on both accounts start from the same cache. */
  lemma WithoutRedis(c: Codec, s: System, id: int, b: Begun, env: Env)
    requires id !in s.calls && b.at == env.now && !UsesRedis(Entered(s, id, b, env).cache)
    ensures DoneAtOnce(c, s, Proceed(c, Entered(s, id, b, env), id, b, env.now), id, b.request, env)
  {
    hide ReadFallback, WriteFallback, InMemoryFound, Encode, RedisRead, Decrypt;
    FinishDone(c, Entered(s, id, b, env), id, b, Entered(s, id, b, env).cache, env.now, None);
    assert s.calls - {id} == s.calls;
    hide Finish, RedisSet;
    if b.request.EraseOf? {
      EraseInMemory(c, Entered(s, id, b, env), id, b, env);
    }
  }

  lemma EraseInMemory(c: Codec, s: System, id: int, b: Begun, env: Env)
    requires b.request.EraseOf?
    ensures var t := Finish(c, s, id, b, env.now, None);
      var l := Drop(s.cache.fallback, FallbackKey(b.request.place));
      t.cache == s.cache.(fallback := if b.request.alt.None? then l else Drop(l, FallbackKey(b.request.alt.value)))
  {}

  // A read, its GETs answered or failing.

  /** The call awaits a GET from the system `s`. */
  function Reading(s: System, id: int, b: Begun, prior: Option<Moment>): System {
    Wait(s, id, b, Getting(prior, None))
  }

  lemma GetAnswered(c: Codec, lag: real, s: System, id: int, b: Begun, prior: Option<Moment>, now: real)
    requires b.request.ReadOf? && id !in s.calls && s.clock == now && (prior.Some? ==> b.request.alt.Some?)
    ensures var q := if prior.None? then b.request.place else b.request.alt.value;
      var answer := Answer(Got(s.cache.redis, q, now), Now(s));
      var call := Call(b, Getting(prior, Some(answer)));
      Run(c, lag, Reading(s, id, b, prior), [Serve(id, now), Resume(id, true, now)])
        == AfterGet(c, Wait(s, id, b, call.phase), id, call, now)
  {
    hide AfterGet, Got;
    var u := Reading(s, id, b, prior);
    RunTwo(c, lag, u, Serve(id, now), Resume(id, true, now));
    var q := if prior.None? then b.request.place else b.request.alt.value;
    var phase := Getting(prior, Some(Answer(Got(s.cache.redis, q, now), Now(s))));
    assert u.calls[id := Call(b, phase)] == s.calls[id := Call(b, phase)];
    assert Step(c, lag, u, Serve(id, now)) == Wait(s, id, b, phase);
  }

  lemma GetFails(c: Codec, lag: real, s: System, id: int, b: Begun, prior: Option<Moment>, now: real)
    requires b.request.ReadOf? && id !in s.calls && s.clock == now
    ensures Run(c, lag, Reading(s, id, b, prior), [Resume(id, false, now)])
         == Finish(c, Failed(Reading(s, id, b, prior)), id, b, now, None)
  {
    hide Finish;
    RunOne(c, lag, Reading(s, id, b, prior), Resume(id, false, now));
  }

  /** The reply of a read that ends in memory. */
  ghost predicate RepliesFrom(c: Codec, s: System, t: System, id: int, b: Begun, cache: Cache, now: real) {
    var (after, reply) := ReadFallback(c, cache, b.request.place, b.request.alt, now);
    t.cache == after && t.calls == s.calls && Appended(s, t, id, reply)
  }

  ghost predicate Appended(s: System, t: System, id: int, reply: Reply) {
    && |t.replies| == |s.replies| + 1 && t.replies[..|s.replies|] == s.replies
    && t.replies[|s.replies|].id == id && t.replies[|s.replies|].reply == reply
  }

  lemma EndsInMemory(c: Codec, s: System, id: int, b: Begun, phase: Phase, cache: Cache, now: real,
                     moments: Option<(Moment, Moment)>)
    requires b.request.ReadOf? && id !in s.calls
    ensures RepliesFrom(c, s, Finish(c, Wait(s, id, b, phase).(cache := cache), id, b, now, moments), id, b, cache, now)
  {
    FinishDone(c, Wait(s, id, b, phase), id, b, cache, now, moments);
    assert s.calls[id := Call(b, phase)] - {id} == s.calls;
    hide ReadFallback, InMemoryFound, Finish;
  }

  /** What a GET that was answered leads to: a reply, the second GET, or memory. */
  lemma AfterAnswer(c: Codec, s: System, id: int, b: Begun, prior: Option<Moment>, answer: Answer, now: real)
    requires b.request.ReadOf? && id !in s.calls
    ensures var call := Call(b, Getting(prior, Some(answer)));
      var t := AfterGet(c, Wait(s, id, b, call.phase), id, call, now);
      if answer.found.None? then
        if prior.None? && b.request.alt.Some? then t == Reading(s, id, b, Some(answer.moment))
        else RepliesFrom(c, s, t, id, b, s.cache, now)
      else
        var v := c.loads(Decrypt(c, answer.found.value.entry.value));
        if v.Some? then t.cache == s.cache && t.calls == s.calls && Appended(s, t, id, Hit(v.value))
        else RepliesFrom(c, s, t, id, b, s.cache.(redisOk := false), now)
  {
    hide Finish, RepliesFrom, Decrypt;
    var phase := Getting(prior, Some(answer));
    var moments := Some((if prior.None? then answer.moment else prior.value, answer.moment));
    assert s.calls[id := Call(b, phase)] - {id} == s.calls;
    assert Wait(s, id, b, phase).(cache := s.cache) == Wait(s, id, b, phase);
    EndsInMemory(c, s, id, b, phase, s.cache, now, moments);
    EndsInMemory(c, s, id, b, phase, s.cache.(redisOk := false), now, None);
    assert forall next :: Wait(Wait(s, id, b, phase), id, b, next) == Wait(s, id, b, next);
  }

  /** A call that nothing interrupts, with the given fates of its commands, does to the cache what the
      whole operation does at once. */
  lemma ReadUninterrupted(c: Codec, lag: real, s: System, id: int, b: Begun, env: Env) returns (evs: seq<Event>)
    requires b.request.ReadOf? && id !in s.calls && s.clock == env.now && UsesRedis(s.cache)
    ensures var t := Run(c, lag, Reading(s, id, b, None), evs);
      var (after, reply) := Read(c, s.cache, b.request.place, b.request.alt, env);
      t.cache == after && t.calls == s.calls && Appended(s, t, id, reply)
  {
    hide Run, AfterGet, ReadFallback, Decrypt, Finish, Appended, Reading;
    var now, p, alt := env.now, b.request.place, b.request.alt;
    var start := Reading(s, id, b, None);
    if env.first != Fine {
      evs := [Resume(id, false, now)];
      GetFails(c, lag, s, id, b, None, now);
      FailedEnds(c, s, id, b, None, now);
    } else {
      evs := [Serve(id, now), Resume(id, true, now)];
      GetAnswered(c, lag, s, id, b, None, now);
      var first := Answer(Got(s.cache.redis, p, now), Now(s));
      AfterAnswer(c, s, id, b, None, first, now);
      if first.found.None? && alt.Some? {
        var next := Reading(s, id, b, Some(first.moment));
        var more := if env.second != Fine then [Resume(id, false, now)] else [Serve(id, now), Resume(id, true, now)];
        RunAppends(c, lag, start, evs, more);
        if env.second != Fine {
          GetFails(c, lag, s, id, b, Some(first.moment), now);
          FailedEnds(c, s, id, b, Some(first.moment), now);
        } else {
          GetAnswered(c, lag, s, id, b, Some(first.moment), now);
          AfterAnswer(c, s, id, b, Some(first.moment), Answer(Got(s.cache.redis, alt.value, now), Now(s)), now);
        }
        evs := evs + more;
      }
    }
  }

  lemma FailedEnds(c: Codec, s: System, id: int, b: Begun, prior: Option<Moment>, now: real)
    requires b.request.ReadOf? && id !in s.calls
    ensures RepliesFrom(c, s, Finish(c, Failed(Reading(s, id, b, prior)), id, b, now, None), id, b,
                        s.cache.(redisOk := false), now)
  {
    EndsInMemory(c, s, id, b, Getting(prior, None), s.cache.(redisOk := false), now, None);
    hide Finish, RepliesFrom;
  }

  // A write, its SETEX and the retirement of the other place; an erasure.

  lemma SetFails(c: Codec, lag: real, s: System, id: int, b: Begun, env: Env) returns (evs: seq<Event>)
    requires Sends(s, id, b, env) && lag >= 0.0 && b.request.WriteOf?
    requires env.first != Fine || b.request.ttl <= 0
    ensures var w := b.request;
      var e := Entry(Encode(c, w.value, w.nonce), env.now, w.ttl);
      var start := Send(Wait(s, id, b, Setting(s.sent)), SetEx(b, e.value));
      var t := Run(c, lag, start, evs);
      var redis := RedisSet(s.cache.redis, RedisKey(w.place), e, env.first).0;
      t.cache == WriteFallback(s.cache.(redis := redis, redisOk := false), w.place, w.alt, e)
      && t.calls == s.calls && t.replies == s.replies
  {
    hide WriteFallback, Encode, RedisKey;
    var w := b.request;
    var start := Send(Wait(s, id, b, Setting(s.sent)), SetEx(b, Encode(c, w.value, w.nonce)));
    var resume := Resume(id, false, env.now);
    var u := start;
    evs := [resume];
    if w.ttl > 0 && env.first.ran {
      evs := [Arrive(s.sent, env.now), resume];
      RunTwo(c, lag, start, evs[0], evs[1]);
      u := Step(c, lag, start, evs[0]);
      Arrives(c, lag, Wait(s, id, b, Setting(s.sent)), SetEx(b, Encode(c, w.value, w.nonce)), env.now);
    } else {
      RunOne(c, lag, start, resume);
    }
    FinishDone(c, u, id, b, u.cache.(redisOk := false), env.now, None);
    assert s.calls[id := Call(b, Setting(s.sent))] - {id} == s.calls;
    assert Failed(u) == u.(cache := u.cache.(redisOk := false));
    hide Finish, RunMessage;
  }

  /** The call is about to send its first message. */
  ghost predicate Sends(s: System, id: int, b: Begun, env: Env) {
    && id !in s.calls && s.sent !in s.wire && s.sent + 1 !in s.wire && s.clock == env.now == b.at && UsesRedis(s.cache)
  }

  /** A message that is sent and runs at once. */
  lemma Arrives(c: Codec, lag: real, s: System, m: Message, now: real)
    requires s.sent !in s.wire && s.clock == now && (m.SetEx? ==> InTime(lag, m.write, now))
    ensures Step(c, lag, Send(s, m), Arrive(s.sent, now))
         == s.(sent := s.sent + 1, cache := s.cache.(redis := RunMessage(s.cache.redis, m, now)),
               served := s.served + [(m, now)])
  {
    hide RunMessage;
    assert s.wire[s.sent := m] - {s.sent} == s.wire;
  }

  /** The SETEX runs and is answered. */
  lemma SetWorks(c: Codec, lag: real, s: System, id: int, b: Begun, env: Env) returns (evs: seq<Event>)
    requires Sends(s, id, b, env) && lag >= 0.0 && b.request.WriteOf? && env.first == Fine && b.request.ttl > 0
    ensures var w := b.request;
      var e := Entry(Encode(c, w.value, w.nonce), env.now, w.ttl);
      var start := Send(Wait(s, id, b, Setting(s.sent)), SetEx(b, e.value));
      var t := Run(c, lag, start, evs);
      var redis := s.cache.redis[RedisKey(w.place) := e];
      t.cache == s.cache.(redis := if w.alt.None? then redis
                                   else RedisDelete(redis, {RedisKey(w.alt.value)}, env.second))
      && t.calls == s.calls && t.replies == s.replies
  {
    hide Encode, RedisKey, Finish, RedisDelete, AfterGet;
    var w, now := b.request, env.now;
    var m := SetEx(b, Encode(c, w.value, w.nonce));
    var waiting := Wait(s, id, b, Setting(s.sent));
    var start := Send(waiting, m);
    evs := [Arrive(s.sent, now), Resume(id, true, now)];
    RunTwo(c, lag, start, evs[0], evs[1]);
    Arrives(c, lag, waiting, m, now);
    assert s.calls[id := Call(b, Setting(s.sent))] - {id} == s.calls;
    if w.alt.Some? {
      var u := Step(c, lag, start, evs[0]);
      var retiring := Wait(u, id, b, Retiring);
      assert Step(c, lag, u, evs[1]) == Send(retiring, Del({w.alt.value}));
      assert retiring.calls == s.calls[id := Call(b, Retiring)];
      var more := DeleteEnds(c, lag, retiring, s.calls, id, b, {w.alt.value}, env.second, now);
      RunAppends(c, lag, start, evs, more);
      evs := evs + more;
      OneKey(w.alt.value);
      RetiredCache(c, Run(c, lag, start, evs), s.cache, w.place, w.alt.value, Entry(m.bytes, now, w.ttl), env.second);
    }
  }

  lemma OneKey(q: Place)
    ensures (set p | p in {q} :: RedisKey(p)) == {RedisKey(q)}
  {}

  lemma RetiredCache(c: Codec, t: System, cache: Cache, p: Place, alt: Place, e: Entry, fault: Fault)
    requires var redis := cache.redis[RedisKey(p) := e];
      t.cache == cache.(redis := if fault == Fine || fault.ran then redis - set q | q in {alt} :: RedisKey(q)
                                 else redis)
    ensures t.cache == cache.(redis := RedisDelete(cache.redis[RedisKey(p) := e], {RedisKey(alt)}, fault))
  {
    OneKey(alt);
  }

  /** A DEL that is the last thing its call does: it runs or is lost, and the call goes on. */
  lemma DeleteEnds(c: Codec, lag: real, s: System, calls: map<int, Call>, id: int, b: Begun, ps: set<Place>,
                   fault: Fault, now: real) returns (evs: seq<Event>)
    requires id !in calls && s.calls == calls[id := Call(b, Retiring)]
    requires s.sent !in s.wire && s.clock == now == b.at && lag >= 0.0
    ensures var t := Run(c, lag, Send(s, Del(ps)), evs);
      && t.cache == s.cache.(redis := if fault == Fine || fault.ran then s.cache.redis - set p | p in ps :: RedisKey(p)
                                      else s.cache.redis)
      && t.calls == calls && t.replies == s.replies
  {
    hide RedisKey;
    var resume := Resume(id, true, now);
    assert s.calls - {id} == calls;
    if fault == Fine || fault.ran {
      evs := [Arrive(s.sent, now), resume];
      RunTwo(c, lag, Send(s, Del(ps)), evs[0], evs[1]);
      Arrives(c, lag, s, Del(ps), now);
    } else {
      evs := [resume];
      RunOne(c, lag, Send(s, Del(ps)), resume);
    }
  }

  lemma EraseUninterrupted(c: Codec, lag: real, s: System, id: int, b: Begun, env: Env) returns (evs: seq<Event>)
    requires Sends(s, id, b, env) && lag >= 0.0 && b.request.EraseOf?
    ensures var t := Run(c, lag, Send(Wait(s, id, b, Deleting), Del(Places(b.request.place, b.request.alt))), evs);
      t.cache == Erase(s.cache, b.request.place, b.request.alt, env) && t.calls == s.calls && t.replies == s.replies
  {
    hide RedisKey, FallbackKey;
    var now, p, alt := env.now, b.request.place, b.request.alt;
    var waiting := Wait(s, id, b, Deleting);
    var start := Send(waiting, Del(Places(p, alt)));
    var resume := Resume(id, true, now);
    var u := start;
    if env.first == Fine || env.first.ran {
      evs := [Arrive(s.sent, now), resume];
      RunTwo(c, lag, start, evs[0], evs[1]);
      Arrives(c, lag, waiting, Del(Places(p, alt)), now);
      u := Step(c, lag, start, evs[0]);
    } else {
      evs := [resume];
      RunOne(c, lag, start, resume);
    }
    PlacesKeys(p, alt);
    EraseInMemory(c, u, id, b, env);
    FinishDone(c, u, id, b, u.cache, now, None);
    assert s.calls[id := Call(b, Deleting)] - {id} == s.calls;
    hide Finish, Drop;
  }

  lemma PlacesKeys(p: Place, alt: Option<Place>)
    ensures (set q | q in Places(p, alt) :: RedisKey(q))
         == {RedisKey(p)} + if alt.None? then {} else {RedisKey(alt.value)}
  {}

  /** The whole call from where it has entered, with Redis in use. */
  lemma OnRedisUninterrupted(c: Codec, lag: real, s: System, id: int, b: Begun, env: Env) returns (evs: seq<Event>)
    requires lag >= 0.0 && id !in s.calls && b.at == env.now && Sends(Entered(s, id, b, env), id, b, env)
    ensures DoneAtOnce(c, s, Run(c, lag, Proceed(c, Entered(s, id, b, env), id, b, env.now), evs), id, b.request, env)
  {
    hide Run, Encode, RedisKey, FallbackKey, WriteFallback, ReadFallback, RedisRead, Decrypt, Wait, Send;
    hide RedisDelete, Drop;
    var u := Entered(s, id, b, env);
    match b.request {
      case ReadOf(p, alt) =>
        evs := ReadUninterrupted(c, lag, u, id, b, env);
        SameRead(c, s.cache, p, alt, env);
      case WriteOf(p, alt, v, ttl, nonce) =>
        if env.first == Fine && ttl > 0 {
          evs := SetWorks(c, lag, u, id, b, env);
        } else {
          evs := SetFails(c, lag, u, id, b, env);
        }
      case EraseOf(p, alt) =>
        evs := EraseUninterrupted(c, lag, u, id, b, env);
    }
  }

  /** Reconnecting first makes no difference to an operation that reconnects. */
  lemma SameRead(c: Codec, cache: Cache, p: Place, alt: Option<Place>, env: Env)
    requires UsesRedis(Prelude(cache, env))
    ensures Read(c, Prelude(cache, env), p, alt, env) == Read(c, cache, p, alt, env)
  {
    hide ReadFallback, RedisRead, Decrypt;
  }

  ghost predicate WireBelow(s: System) {
    forall m :: m in s.wire ==> m < s.sent
  }

  lemma StepWire(c: Codec, lag: real, s: System, ev: Event)
    requires WireBelow(s)
    ensures WireBelow(Step(c, lag, s, ev))
  {
    hide Encode, ReadFallback, WriteFallback, RunMessage, Got, InMemoryFound, Decrypt, Drop;
  }

  lemma {:induction false} RunWire(c: Codec, lag: real, s: System, evs: seq<Event>)
    requires WireBelow(s)
    ensures WireBelow(Run(c, lag, s, evs))
  {
    hide Step, WireBelow;
    if evs != [] {
      RunWire(c, lag, s, evs[..|evs| - 1]);
      StepWire(c, lag, Run(c, lag, s, evs[..|evs| - 1]), evs[|evs| - 1]);
    }
  }

  /**
   * The two accounts agree: in any system that is reached, a call that nothing interrupts, its
   * commands meeting any fate, has a schedule that does to both tiers exactly what the whole
   * operation does at once, and a read replies the same.
   */
  lemma UninterruptedIsAtomic(c: Codec, lag: real, hasClient: bool, redisOk: bool, maxsize: nat, start: real,
                              before: seq<Event>, id: int, request: Request, env: Env) returns (evs: seq<Event>)
    requires var s := Run(c, lag, Initial(hasClient, redisOk, maxsize, start), before);
      lag >= 0.0 && id !in s.begun && s.clock <= env.now
    ensures var s := Run(c, lag, Initial(hasClient, redisOk, maxsize, start), before);
      DoneAtOnce(c, s, Run(c, lag, Initial(hasClient, redisOk, maxsize, start), before + evs), id, request, env)
  {
    hide Run, Proceed, DoneAtOnce;
    var s0 := Initial(hasClient, redisOk, maxsize, start);
    var s := Run(c, lag, s0, before);
    assert Timely(s0) && WireBelow(s0);
    RunTimely(c, lag, s0, before);
    RunWire(c, lag, s0, before);
    assert id in s.calls ==> TimelyCall(s.begun, Now(s), id, s.calls[id]);
    var b := Begun(request, env.now, |s.served|);
    var entered := Entered(s, id, b, env);
    evs := BeginReaches(c, lag, s, id, request, env);
    if UsesRedis(entered.cache) {
      var more := OnRedisUninterrupted(c, lag, s, id, b, env);
      RunAppends(c, lag, s, evs, more);
      evs := evs + more;
    } else {
      WithoutRedis(c, s, id, b, env);
    }
    RunAppends(c, lag, s0, before, evs);
  }

  // ----- while Redis answers -----

  /** One map from places to what Redis last stored there. */
  function MapAfter(served: seq<(Message, real)>): map<Place, Kept> {
    if served == [] then map[] else
    var a, (m, at) := MapAfter(served[..|served| - 1]), served[|served| - 1];
    match m
    case SetEx(w, _) =>
      if w.request.WriteOf? && w.request.ttl > 0
      then a[w.request.place := Kept(w.request.value, at, w.request.ttl)]
      else a
    case Del(ps) => a - ps
  }

  predicate InOrder(served: seq<(Message, real)>, first: Moment, last: Moment) {
    Before(first, last) && last.served <= |served|
  }

  /** The map at a moment. */
  function MapAt(served: seq<(Message, real)>, m: Moment): map<Place, Kept>
    requires m.served <= |served|
  {
    MapAfter(served[..m.served])
  }

  /** Reading `p` at the first moment and, if it holds nothing, `alt` at the last. */
  function DualRead(served: seq<(Message, real)>, p: Place, alt: Option<Place>, first: Moment, last: Moment): Reply
    requires InOrder(served, first, last)
  {
    if Live(MapAt(served, first), p, first.at) then Hit(MapAt(served, first)[p].value)
    else if alt.Some? && Live(MapAt(served, last), alt.value, last.at) then Hit(MapAt(served, last)[alt.value].value)
    else Miss
  }

  ghost predicate SaneMessage(tenants: set<string>, m: Message) {
    match m
    case SetEx(w, _) => SaneRequest(tenants, w.request)
    case Del(ps) => forall p :: p in ps ==> Sane(tenants, p)
  }

  /** What a GET of `p` found is what the map held. */
  ghost predicate FoundAsMap(c: Codec, served: seq<(Message, real)>, p: Place, answer: Answer) {
    && answer.moment.served <= |served|
    && (answer.found.Some? <==> Live(MapAt(served, answer.moment), p, answer.moment.at))
    && (answer.found.Some? ==>
          c.loads(Decrypt(c, answer.found.value.entry.value)) == Some(MapAt(served, answer.moment)[p].value))
  }

  ghost predicate GettingAsMap(c: Codec, served: seq<(Message, real)>, clock: real, call: Call)
    requires call.begun.request.ReadOf? && call.phase.Getting?
  {
    match call.phase.prior
    case None =>
      call.phase.answer.Some? ==>
        && FoundAsMap(c, served, call.begun.request.place, call.phase.answer.value)
        && call.phase.answer.value.moment.at <= clock
    case Some(first) =>
      && call.begun.request.alt.Some? && first.served <= |served| && first.at <= clock
      && !Live(MapAt(served, first), call.begun.request.place, first.at)
      && (call.phase.answer.Some? ==>
            && FoundAsMap(c, served, call.begun.request.alt.value, call.phase.answer.value)
            && InOrder(served, first, call.phase.answer.value.moment))
  }

  ghost predicate HealthyCall(c: Codec, tenants: set<string>, served: seq<(Message, real)>, clock: real, call: Call) {
    && SaneRequest(tenants, call.begun.request) && !call.phase.Pinging?
    && (call.phase.Getting? ==> call.begun.request.ReadOf? && GettingAsMap(c, served, clock, call))
  }

  /** Redis answered the read, as the map did at the two moments. */
  ghost predicate RepliedAsMap(served: seq<(Message, real)>, r: Replied) {
    && r.begun.request.ReadOf? && r.moments.Some? && InOrder(served, r.moments.value.0, r.moments.value.1)
    && r.reply == DualRead(served, r.begun.request.place, r.begun.request.alt, r.moments.value.0, r.moments.value.1)
  }

  ghost predicate MirrorsMap(c: Codec, tenants: set<string>, redis: map<string, Entry>, a: map<Place, Kept>) {
    forall p :: Sane(tenants, p) ==> Holds(c, redis, a, p)
  }

  ghost predicate HealthyInv(c: Codec, tenants: set<string>, s: System) {
    && UsesRedis(s.cache) && s.cache.fallback.entries == map[]
    && MirrorsMap(c, tenants, s.cache.redis, MapAfter(s.served))
    && (forall m :: m in s.wire ==> MessageOk(c, s.begun, s.clock, s.wire[m]) && SaneMessage(tenants, s.wire[m]))
    && (forall id :: id in s.calls ==> HealthyCall(c, tenants, s.served, s.clock, s.calls[id]))
    && (forall i :: 0 <= i < |s.replies| ==> RepliedAsMap(s.served, s.replies[i]))
    && (forall id :: id in s.calls ==>
          id in s.begun && s.begun[id] == s.calls[id].begun && s.calls[id].begun.at <= s.clock)
  }

  /** Requests are sane, times-to-live positive, and no command fails. */
  ghost predicate HealthyEvent(tenants: set<string>, ev: Event) {
    match ev
    case Begin(_, r, _) => SaneRequest(tenants, r) && (r.WriteOf? ==> r.ttl > 0)
    case Resume(_, fine, _) => fine
    case _ => true
  }

  lemma MoreServed(served: seq<(Message, real)>, x: (Message, real), n: nat)
    requires n <= |served|
    ensures (served + [x])[..n] == served[..n]
  {}

  /** What was true of moments past stays true as Redis runs more messages. */
  lemma HealthyCallStays(c: Codec, tenants: set<string>, served: seq<(Message, real)>, x: (Message, real),
                         clock: real, clock': real, call: Call)
    requires HealthyCall(c, tenants, served, clock, call) && clock <= clock'
    ensures HealthyCall(c, tenants, served + [x], clock', call) && HealthyCall(c, tenants, served, clock', call)
  {
    hide MapAfter, Sane, Decrypt;
    if call.phase.Getting? {
      if call.phase.prior.Some? { MoreServed(served, x, call.phase.prior.value.served); }
      if call.phase.answer.Some? { MoreServed(served, x, call.phase.answer.value.moment.served); }
    }
  }

  lemma RepliedStays(served: seq<(Message, real)>, x: (Message, real), r: Replied)
    requires RepliedAsMap(served, r)
    ensures RepliedAsMap(served + [x], r)
  {
    hide MapAfter;
    MoreServed(served, x, r.moments.value.0.served);
    MoreServed(served, x, r.moments.value.1.served);
  }

  lemma MessageMirrors(c: Codec, tenants: set<string>, begun: map<int, Begun>, clock: real,
                       redis: map<string, Entry>, served: seq<(Message, real)>, m: Message, now: real)
    requires Lawful(c) && MirrorsMap(c, tenants, redis, MapAfter(served))
    requires MessageOk(c, begun, clock, m) && SaneMessage(tenants, m)
    ensures MirrorsMap(c, tenants, RunMessage(redis, m, now), MapAfter(served + [(m, now)]))
  {
    assert (served + [(m, now)])[..|served|] == served;
    var a, a' := MapAfter(served), MapAfter(served + [(m, now)]);
    forall q | Sane(tenants, q) ensures Holds(c, RunMessage(redis, m, now), a', q) {
      assert Holds(c, redis, a, q);
      match m {
        case SetEx(w, bytes) =>
          DecodesBack(c, w.request.value, w.request.nonce);
          SaneKeysInjective(tenants, q, w.request.place);
        case Del(ps) =>
          forall p | p in ps ensures RedisKey(p) == RedisKey(q) ==> p == q {
            SaneKeysInjective(tenants, p, q);
          }
      }
    }
  }

  lemma GotAsMap(c: Codec, tenants: set<string>, redis: map<string, Entry>, served: seq<(Message, real)>,
                 p: Place, now: real)
    requires MirrorsMap(c, tenants, redis, MapAfter(served)) && Sane(tenants, p)
    ensures FoundAsMap(c, served, p, Answer(Got(redis, p, now), Moment(|served|, now)))
  {
    assert Holds(c, redis, MapAfter(served), p);
    assert served[..|served|] == served;
    hide Sane, Decrypt, RedisKey;
  }

  lemma EmptyRead(c: Codec, cache: Cache, p: Place, alt: Option<Place>, now: real)
    requires cache.fallback.entries == map[]
    ensures ReadFallback(c, cache, p, alt, now) == (cache, Miss)
  {}

  lemma HealthyReplied(c: Codec, tenants: set<string>, s: System, id: int, b: Begun, reply: Reply, found: Option<Found>,
                       moments: Option<(Moment, Moment)>)
    requires HealthyInv(c, tenants, s) && RepliedAsMap(s.served, Replied(id, b, Now(s), reply, found, moments))
    ensures HealthyInv(c, tenants, Answered(s, id, b, reply, found, moments))
  {
    hide HealthyCall, MirrorsMap, RepliedAsMap, MessageOk, SaneMessage;
  }

  lemma HealthyEnds(c: Codec, tenants: set<string>, s: System, id: int)
    requires HealthyInv(c, tenants, s)
    ensures HealthyInv(c, tenants, s.(calls := s.calls - {id}))
  {
    hide HealthyCall, MirrorsMap, RepliedAsMap, MessageOk, SaneMessage;
  }

  lemma HealthyWaits(c: Codec, tenants: set<string>, s: System, id: int, b: Begun, phase: Phase)
    requires HealthyInv(c, tenants, s) && HealthyCall(c, tenants, s.served, s.clock, Call(b, phase))
    requires id in s.begun && s.begun[id] == b && b.at <= s.clock
    ensures HealthyInv(c, tenants, Wait(s, id, b, phase))
  {
    hide HealthyCall, MirrorsMap, RepliedAsMap, MessageOk, SaneMessage;
  }

  lemma HealthySends(c: Codec, tenants: set<string>, s: System, m: Message)
    requires HealthyInv(c, tenants, s) && MessageOk(c, s.begun, s.clock, m) && SaneMessage(tenants, m)
    ensures HealthyInv(c, tenants, Send(s, m))
  {
    hide HealthyCall, MirrorsMap, RepliedAsMap, MessageOk, SaneMessage;
  }

  /** Time passes, and calls begin. */
  lemma HealthyGrows(c: Codec, tenants: set<string>, s: System, begun': map<int, Begun>, clock': real)
    requires HealthyInv(c, tenants, s) && Grows(s.begun, begun') && s.clock <= clock'
    ensures HealthyInv(c, tenants, s.(begun := begun', clock := clock'))
  {
    hide MirrorsMap, RepliedAsMap, SaneMessage, GettingAsMap;
    forall id | id in s.calls ensures HealthyCall(c, tenants, s.served, clock', s.calls[id]) {
      HealthyCallStays(c, tenants, s.served, (Del({}), 0.0), s.clock, clock', s.calls[id]);
    }
  }

  lemma HealthyBegins(c: Codec, tenants: set<string>, s: System, id: int, b: Begun)
    requires HealthyInv(c, tenants, s) && id !in s.begun && b.at == s.clock && SaneRequest(tenants, b.request)
    ensures HealthyInv(c, tenants, Beginning(c, s, id, b, s.clock))
  {
    var s1 := s.(begun := s.begun[id := b]);
    HealthyGrows(c, tenants, s, s1.begun, s.clock);
    hide MirrorsMap, RepliedAsMap, Sane;
    match b.request {
      case ReadOf(_, _) => HealthyWaits(c, tenants, s1, id, b, Getting(None, None));
      case WriteOf(_, _, v, _, nonce) =>
        HealthyWaits(c, tenants, s1, id, b, Setting(s1.sent));
        assert s1.begun[id] == b;
        HealthySends(c, tenants, Wait(s1, id, b, Setting(s1.sent)), SetEx(b, Encode(c, v, nonce)));
      case EraseOf(p, alt) =>
        HealthyWaits(c, tenants, s1, id, b, Deleting);
        HealthySends(c, tenants, Wait(s1, id, b, Deleting), Del(Places(p, alt)));
    }
  }

  lemma HealthyAfterGet(c: Codec, tenants: set<string>, s: System, id: int, call: Call)
    requires HealthyInv(c, tenants, s) && id in s.calls && s.calls[id] == call
    requires call.phase.Getting? && call.begun.request.ReadOf? && call.phase.answer.Some?
    ensures HealthyInv(c, tenants, AfterGet(c, s, id, call, s.clock))
  {
    var b, prior, answer := call.begun, call.phase.prior, call.phase.answer.value;
    var p, alt := b.request.place, b.request.alt;
    assert HealthyCall(c, tenants, s.served, s.clock, call);
    var moments := Some((if prior.None? then answer.moment else prior.value, answer.moment));
    hide MirrorsMap, MapAfter, Sane, Decrypt, MessageOk, SaneMessage;
    EmptyRead(c, s.cache, p, alt, s.clock);
    if answer.found.None? && prior.None? && alt.Some? {
      HealthyWaits(c, tenants, s, id, b, Getting(Some(answer.moment), None));
    } else if answer.found.None? {
      var found := InMemoryFound(s.cache.fallback, p, alt, s.clock);
      HealthyReplied(c, tenants, s, id, b, Miss, found, moments);
    } else {
      var v := c.loads(Decrypt(c, answer.found.value.entry.value)).value;
      HealthyReplied(c, tenants, s, id, b, Hit(v), answer.found, moments);
    }
  }

  lemma HealthyResumes(c: Codec, tenants: set<string>, s: System, id: int)
    requires HealthyInv(c, tenants, s) && id in s.calls && ResumeEnabled(s, s.calls[id], true)
    ensures HealthyInv(c, tenants, Resumed(c, s, id, true, s.clock))
  {
    var call := s.calls[id];
    assert HealthyCall(c, tenants, s.served, s.clock, call);
    hide MirrorsMap, RepliedAsMap, MessageOk, AfterGet, GettingAsMap, Sane;
    match call.phase {
      case Getting(_, _) => HealthyAfterGet(c, tenants, s, id, call);
      case Setting(_) =>
        HealthyEnds(c, tenants, s, id);
        if call.begun.request.alt.Some? {
          HealthyWaits(c, tenants, s, id, call.begun, Retiring);
          HealthySends(c, tenants, Wait(s, id, call.begun, Retiring), Del({call.begun.request.alt.value}));
        }
      case Retiring => HealthyEnds(c, tenants, s, id);
      case Deleting => HealthyEnds(c, tenants, s, id);
    }
  }

  lemma HealthyServes(c: Codec, lag: real, tenants: set<string>, s: System, id: int, now: real)
    requires HealthyInv(c, tenants, s) && Enabled(lag, s, Serve(id, now))
    ensures HealthyInv(c, tenants, Step(c, lag, s, Serve(id, now)))
  {
    var call := s.calls[id];
    var t := s.(clock := now);
    assert HealthyCall(c, tenants, s.served, s.clock, call);
    HealthyGrows(c, tenants, s, s.begun, now);
    GotAsMap(c, tenants, s.cache.redis, s.served, Asked(call), now);
    hide MirrorsMap, RepliedAsMap, MessageOk, SaneMessage, Sane, FoundAsMap, Got;
    HealthyWaits(c, tenants, t, id, call.begun,
                 call.phase.(answer := Some(Answer(Got(s.cache.redis, Asked(call), now), Moment(|s.served|, now)))));
  }

  lemma HealthyArrives(c: Codec, lag: real, tenants: set<string>, s: System, m: int, now: real)
    requires Lawful(c) && HealthyInv(c, tenants, s) && Enabled(lag, s, Arrive(m, now))
    ensures HealthyInv(c, tenants, Step(c, lag, s, Arrive(m, now)))
  {
    hide MirrorsMap, SaneMessage, MessageOk, RunMessage, MapAfter, RepliedAsMap, HealthyCall;
    var x := (s.wire[m], now);
    MessageMirrors(c, tenants, s.begun, s.clock, s.cache.redis, s.served, s.wire[m], now);
    forall id | id in s.calls ensures HealthyCall(c, tenants, s.served + [x], now, s.calls[id]) {
      HealthyCallStays(c, tenants, s.served, x, s.clock, now, s.calls[id]);
    }
    forall i | 0 <= i < |s.replies| ensures RepliedAsMap(s.served + [x], s.replies[i]) {
      RepliedStays(s.served, x, s.replies[i]);
    }
    MessagesStay(c, s.begun, s.clock, now, s.wire);
  }

  lemma MessagesStay(c: Codec, begun: map<int, Begun>, clock: real, clock': real, wire: map<int, Message>)
    requires (forall m :: m in wire ==> MessageOk(c, begun, clock, wire[m])) && clock <= clock'
    ensures forall m :: m in wire ==> MessageOk(c, begun, clock', wire[m])
  {}

  lemma HealthyStep(c: Codec, lag: real, tenants: set<string>, s: System, ev: Event)
    requires Lawful(c) && HealthyInv(c, tenants, s) && HealthyEvent(tenants, ev)
    ensures HealthyInv(c, tenants, Step(c, lag, s, ev))
  {
    if Enabled(lag, s, ev) {
      var t := s.(clock := ev.now);
      HealthyGrows(c, tenants, s, s.begun, ev.now);
      hide MirrorsMap, Beginning, Resumed, RunMessage, Got, RepliedAsMap, MessageOk, SaneMessage, Sane;
      match ev {
        case Begin(id, request, now) => HealthyBegins(c, tenants, t, id, Begun(request, now, |t.served|));
        case Pong(_, _, _) =>
        case Serve(id, now) => HealthyServes(c, lag, tenants, s, id, now);
        case Resume(id, _, now) => HealthyResumes(c, tenants, t, id);
        case Arrive(m, now) => HealthyArrives(c, lag, tenants, s, m, now);
      }
    }
  }

  lemma {:induction false} HealthyRun(c: Codec, lag: real, tenants: set<string>, s: System, evs: seq<Event>)
    requires Lawful(c) && HealthyInv(c, tenants, s)
    requires forall i :: 0 <= i < |evs| ==> HealthyEvent(tenants, evs[i])
    ensures HealthyInv(c, tenants, Run(c, lag, s, evs))
  {
    if evs != [] {
      HealthyRun(c, lag, tenants, s, evs[..|evs| - 1]);
      HealthyStep(c, lag, tenants, Run(c, lag, s, evs[..|evs| - 1]), evs[|evs| - 1]);
    }
  }

  /**
   * With Redis answering throughout, and calls interleaving command by command, every read replies
   * as one map of places would when asked for the place at the moment of the first GET and, if that
   * misses, for the alternative at the moment of the last; both moments lie within the read.
   */
  lemma ReadsAreDualReads(c: Codec, lag: real, tenants: set<string>, maxsize: nat, start: real, evs: seq<Event>, i: nat)
    requires Lawful(c) && forall k :: 0 <= k < |evs| ==> HealthyEvent(tenants, evs[k])
    requires i < |Run(c, lag, Initial(true, true, maxsize, start), evs).replies|
    ensures var s := Run(c, lag, Initial(true, true, maxsize, start), evs);
      var r := s.replies[i];
      && r.id in s.begun && s.begun[r.id] == r.begun && RepliedAsMap(s.served, r)
      && Before(Start(r.begun), r.moments.value.0) && Before(r.moments.value.1, r.ended) && Before(r.ended, Now(s))
  {
    hide Before, InOrder;
    var s0 := Initial(true, true, maxsize, start);
    var s := Run(c, lag, s0, evs);
    assert HealthyInv(c, tenants, s0) && Timely(s0);
    HealthyRun(c, lag, tenants, s0, evs);
    RunTimely(c, lag, s0, evs);
    assert TimelyReply(s.begun, Now(s), s.replies[i]);
  }

  // ----- two reads, or one? -----

  predicate Touches(m: Message, p: Place) {
    match m
    case SetEx(w, _) => w.request.WriteOf? && w.request.ttl > 0 && w.request.place == p
    case Del(ps) => p in ps
  }

  /** A write of `p` is among these messages, was not undone by a later one, and is alive at `now`. */
  predicate Landed(served: seq<(Message, real)>, p: Place, now: real) {
    exists k :: 0 <= k < |served| && served[k].0.SetEx? && Touches(served[k].0, p)
      && now - served[k].1 <= served[k].0.write.request.ttl as real
      && forall j :: k < j < |served| ==> !Touches(served[j].0, p)
  }

  /** A place is alive after more messages if a write of it landed, or it was alive and left alone. */
  lemma {:induction false} LiveAfter(before: seq<(Message, real)>, more: seq<(Message, real)>, p: Place, now: real)
    ensures Live(MapAfter(before + more), p, now) <==>
              Landed(more, p, now)
              || (Live(MapAfter(before), p, now) && forall j :: 0 <= j < |more| ==> !Touches(more[j].0, p))
    decreases |more|
  {
    if more == [] {
      assert before + more == before;
    } else {
      var prior, last := more[..|more| - 1], more[|more| - 1];
      LiveAfter(before, prior, p, now);
      assert (before + more)[..|before + more| - 1] == before + prior;
      LandedNext(prior, last, p, now);
      assert more == prior + [last];
      hide Landed;
    }
  }

  lemma LandedNext(prior: seq<(Message, real)>, last: (Message, real), p: Place, now: real)
    ensures Landed(prior + [last], p, now) <==>
              if Touches(last.0, p) then last.0.SetEx? && now - last.1 <= last.0.write.request.ttl as real
              else Landed(prior, p, now)
  {
    var all := prior + [last];
    assert all[|prior|] == last && forall j :: 0 <= j < |prior| ==> all[j] == prior[j];
    if Touches(last.0, p) && last.0.SetEx? && now - last.1 <= last.0.write.request.ttl as real {
      assert all[|prior|] == last && Touches(all[|prior|].0, p);
    }
    if !Touches(last.0, p) && Landed(prior, p, now) {
      var k :| 0 <= k < |prior| && prior[k].0.SetEx? && Touches(prior[k].0, p)
        && now - prior[k].1 <= prior[k].0.write.request.ttl as real
        && forall j :: k < j < |prior| ==> !Touches(prior[j].0, p);
      assert all[k] == prior[k] && Touches(all[k].0, p);
    }
    if Landed(all, p, now) {
      var k :| 0 <= k < |all| && all[k].0.SetEx? && Touches(all[k].0, p)
        && now - all[k].1 <= all[k].0.write.request.ttl as real
        && forall j :: k < j < |all| ==> !Touches(all[j].0, p);
      assert k < |prior| ==> !Touches(all[|prior|].0, p);
    }
  }

  /**
   * A read whose first GET hits is the map's reply at that moment.  One whose first GET misses is
   * the map's reply at the moment of its last GET exactly unless a write of the place landed between
   * the two and the alternative does not happen to hold, alive, the value it wrote.
   */
  lemma DualReadIsOneMapExactly(served: seq<(Message, real)>, p: Place, alt: Option<Place>, first: Moment, last: Moment)
    requires InOrder(served, first, last)
    ensures Live(MapAt(served, first), p, first.at) ==>
              DualRead(served, p, alt, first, last) == SpecRead(MapAt(served, first), p, alt, first.at)
    ensures var a := MapAt(served, last);
      !Live(MapAt(served, first), p, first.at) ==>
              (DualRead(served, p, alt, first, last) == SpecRead(a, p, alt, last.at) <==>
                !Landed(served[first.served..last.served], p, last.at)
                || (alt.Some? && Live(a, alt.value, last.at) && p in a && a[alt.value].value == a[p].value))
  {
    var before, more := served[..first.served], served[first.served..last.served];
    assert before + more == served[..last.served];
    LiveAfter(before, more, p, last.at);
    hide MapAfter, Landed;
  }

  // A schedule in which nothing fails: a value is under the legacy place when a read of the tenant's
  // place begins; between its two GETs a write to the tenant's place stores its value and retires the
  // legacy copy.

  function StoreOld(legacy: Place, t: real): seq<Event> {
    [Begin(0, OldWrite(legacy, t).request, t), Arrive(0, t)]
  }

  function BeginReading(p: Place, legacy: Place, t: real): seq<Event> {
    [Begin(1, ReadOf(p, Some(legacy)), t + 1.0), Serve(1, t + 1.0), Resume(1, true, t + 1.0)]
  }

  function StoreNew(p: Place, legacy: Place, t: real): seq<Event> {
    [Begin(2, NewWrite(p, legacy, t).request, t + 2.0), Arrive(1, t + 2.0)]
  }

  function RetireOld(t: real): seq<Event> {
    [Resume(2, true, t + 2.0), Arrive(2, t + 3.0)]
  }

  function EndReading(t: real): seq<Event> {
    [Serve(1, t + 4.0), Resume(1, true, t + 5.0)]
  }

  function Crossing(p: Place, legacy: Place, t: real): seq<Event> {
    StoreOld(legacy, t) + BeginReading(p, legacy, t) + StoreNew(p, legacy, t) + RetireOld(t) + EndReading(t)
  }

  function OldWrite(legacy: Place, t: real): Begun {
    Begun(WriteOf(legacy, None, "old", 60, 0), t, 0)
  }

  function NewWrite(p: Place, legacy: Place, t: real): Begun {
    Begun(WriteOf(p, Some(legacy), "new", 60, 0), t + 2.0, 1)
  }

  function CrossedRead(p: Place, legacy: Place, t: real): Begun {
    Begun(ReadOf(p, Some(legacy)), t + 1.0, 1)
  }

  function Crossed(c: Codec, p: Place, legacy: Place, t: real): seq<(Message, real)> {
    [(SetEx(OldWrite(legacy, t), Encode(c, "old", 0)), t),
     (SetEx(NewWrite(p, legacy, t), Encode(c, "new", 0)), t + 2.0),
     (Del({legacy}), t + 3.0)]
  }

  function WithOld(c: Codec, maxsize: nat, p: Place, legacy: Place, t: real): System {
    System(Empty(true, true, maxsize).(redis := map[RedisKey(legacy) := Entry(Encode(c, "old", 0), t, 60)]),
           map[0 := Call(OldWrite(legacy, t), Setting(0))], map[], 1, t,
           map[0 := OldWrite(legacy, t)], Crossed(c, p, legacy, t)[..1], [])
  }

  function Halfway(c: Codec, maxsize: nat, p: Place, legacy: Place, t: real): System {
    var s, b := WithOld(c, maxsize, p, legacy, t), CrossedRead(p, legacy, t);
    s.(calls := s.calls[1 := Call(b, Getting(Some(Moment(1, t + 1.0)), None))], begun := s.begun[1 := b],
       clock := t + 1.0)
  }

  function WithBoth(c: Codec, maxsize: nat, p: Place, legacy: Place, t: real): System {
    var s, b := Halfway(c, maxsize, p, legacy, t), NewWrite(p, legacy, t);
    s.(cache := s.cache.(redis := s.cache.redis[RedisKey(p) := Entry(Encode(c, "new", 0), t + 2.0, 60)]),
       calls := s.calls[2 := Call(b, Setting(1))], begun := s.begun[2 := b],
       sent := 2, clock := t + 2.0, served := Crossed(c, p, legacy, t)[..2])
  }

  function WithNew(c: Codec, maxsize: nat, p: Place, legacy: Place, t: real): System {
    var s := WithBoth(c, maxsize, p, legacy, t);
    s.(cache := s.cache.(redis := map[RedisKey(p) := Entry(Encode(c, "new", 0), t + 2.0, 60)]),
       calls := s.calls[2 := Call(NewWrite(p, legacy, t), Retiring)],
       sent := 3, clock := t + 3.0, served := Crossed(c, p, legacy, t))
  }

  lemma OldArrives(c: Codec, lag: real, maxsize: nat, p: Place, legacy: Place, t: real)
    requires lag >= 0.0
    ensures Run(c, lag, Initial(true, true, maxsize, t), StoreOld(legacy, t)) == WithOld(c, maxsize, p, legacy, t)
  {
    hide Run, Encode, RedisKey;
    var s0, evs := Initial(true, true, maxsize, t), StoreOld(legacy, t);
    RunTwo(c, lag, s0, evs[0], evs[1]);
    var s1 := Step(c, lag, s0, evs[0]);
    assert s1.wire[0] == SetEx(OldWrite(legacy, t), Encode(c, "old", 0)) && s1.wire - {0} == map[];
  }

  lemma FirstGetMisses(c: Codec, lag: real, maxsize: nat, p: Place, legacy: Place, t: real)
    requires lag >= 0.0 && RedisKey(p) != RedisKey(legacy)
    ensures Run(c, lag, WithOld(c, maxsize, p, legacy, t), BeginReading(p, legacy, t))
         == Halfway(c, maxsize, p, legacy, t)
  {
    hide Run, Encode, RedisKey;
    var s0, evs := WithOld(c, maxsize, p, legacy, t), BeginReading(p, legacy, t);
    RunThree(c, lag, s0, evs[0], evs[1], evs[2]);
    var s1 := Step(c, lag, s0, evs[0]);
    var s2 := Step(c, lag, s1, evs[1]);
    var b := CrossedRead(p, legacy, t);
    assert s1.calls == s0.calls[1 := Call(b, Getting(None, None))] && |s1.served| == 1;
    assert s2 == s1.(calls := s0.calls[1 := Call(b, Getting(None, Some(Answer(None, Moment(1, t + 1.0)))))]);
    var s3 := Step(c, lag, s2, evs[2]);
    assert s3.calls == s0.calls[1 := Call(b, Getting(Some(Moment(1, t + 1.0)), None))];
  }

  lemma NewArrives(c: Codec, lag: real, maxsize: nat, p: Place, legacy: Place, t: real)
    requires lag >= 0.0
    ensures Run(c, lag, Halfway(c, maxsize, p, legacy, t), StoreNew(p, legacy, t)) == WithBoth(c, maxsize, p, legacy, t)
  {
    hide Run, Encode, RedisKey;
    var s0, evs := Halfway(c, maxsize, p, legacy, t), StoreNew(p, legacy, t);
    RunTwo(c, lag, s0, evs[0], evs[1]);
    var s1 := Step(c, lag, s0, evs[0]);
    assert s1.wire == map[1 := SetEx(NewWrite(p, legacy, t), Encode(c, "new", 0))] && s1.wire - {1} == map[];
    assert s1.served + [(s1.wire[1], t + 2.0)] == Crossed(c, p, legacy, t)[..2];
  }

  lemma OldRetired(c: Codec, lag: real, maxsize: nat, p: Place, legacy: Place, t: real)
    requires lag >= 0.0 && RedisKey(p) != RedisKey(legacy)
    ensures Run(c, lag, WithBoth(c, maxsize, p, legacy, t), RetireOld(t)) == WithNew(c, maxsize, p, legacy, t)
  {
    hide Run, Encode, RedisKey;
    var s0, evs := WithBoth(c, maxsize, p, legacy, t), RetireOld(t);
    RunTwo(c, lag, s0, evs[0], evs[1]);
    var s1 := Step(c, lag, s0, evs[0]);
    assert s1.wire == map[2 := Del({legacy})] && s1.wire - {2} == map[];
    assert s1.calls == s0.calls[2 := Call(NewWrite(p, legacy, t), Retiring)];
    assert s1.served + [(Del({legacy}), t + 3.0)] == Crossed(c, p, legacy, t);
    assert (set q | q in {legacy} :: RedisKey(q)) == {RedisKey(legacy)};
  }

  lemma SecondGetMisses(c: Codec, lag: real, maxsize: nat, p: Place, legacy: Place, t: real)
    requires lag >= 0.0 && RedisKey(p) != RedisKey(legacy)
    ensures var s := Run(c, lag, WithNew(c, maxsize, p, legacy, t), EndReading(t));
      && s.served == Crossed(c, p, legacy, t)
      && s.replies == [Replied(1, CrossedRead(p, legacy, t), Moment(3, t + 5.0), Miss, None,
                               Some((Moment(1, t + 1.0), Moment(3, t + 4.0))))]
  {
    hide Run, Encode, RedisKey;
    var s0, evs := WithNew(c, maxsize, p, legacy, t), EndReading(t);
    RunTwo(c, lag, s0, evs[0], evs[1]);
    EmptyRead(c, s0.cache, p, Some(legacy), t + 5.0);
  }

  lemma NeverEmpty(c: Codec, p: Place, legacy: Place, t: real, m: Moment)
    requires p != legacy && 1 <= m.served <= 3 && t + 1.0 <= m.at <= t + 5.0
    ensures SpecRead(MapAt(Crossed(c, p, legacy, t), m), p, Some(legacy), m.at).Hit?
  {
    hide Encode;
    var x := Crossed(c, p, legacy, t);
    assert x[..1][..0] == [] && x[..2][..1] == x[..1] && x[..3][..2] == x[..2];
    assert MapAfter(x[..1]) == map[legacy := Kept("old", t, 60)];
    assert MapAfter(x[..2]) == map[legacy := Kept("old", t, 60), p := Kept("new", t + 2.0, 60)];
    assert MapAfter(x[..3]) == map[p := Kept("new", t + 2.0, 60)];
  }

  /**
   * A read may reply what the map never would have: in this run, in which nothing fails, it misses,
   * although at every moment from its beginning to its reply the map held a value for it.
   */
  lemma MissThoughNeverEmpty(c: Codec, lag: real, maxsize: nat, tenant: string, key: string, t: real)
    requires lag >= 0.0
    ensures var p, legacy := Tenanted(tenant, key), Legacy(key);
      var s := Run(c, lag, Initial(true, true, maxsize, t), Crossing(p, legacy, t));
      && |s.replies| == 1 && s.replies[0].reply == Miss && s.replies[0].begun.request == ReadOf(p, Some(legacy))
      && forall m: Moment :: Before(Start(s.replies[0].begun), m) && Before(m, s.replies[0].ended) ==>
           m.served <= |s.served| && SpecRead(MapAt(s.served, m), p, Some(legacy), m.at).Hit?
  {
    hide Run, Encode, MapAfter, WithOld, Halfway, WithNew, WithBoth;
    hide StoreOld, BeginReading, StoreNew, RetireOld, EndReading;
    var p, legacy := Tenanted(tenant, key), Legacy(key);
    var s0 := Initial(true, true, maxsize, t);
    assert RedisKey(p) != RedisKey(legacy) by { assert |RedisKey(p)| != |RedisKey(legacy)|; }
    RunAppends(c, lag, s0, StoreOld(legacy, t), BeginReading(p, legacy, t));
    RunAppends(c, lag, s0, StoreOld(legacy, t) + BeginReading(p, legacy, t), StoreNew(p, legacy, t));
    RunAppends(c, lag, s0, StoreOld(legacy, t) + BeginReading(p, legacy, t) + StoreNew(p, legacy, t), RetireOld(t));
    RunAppends(c, lag, s0, StoreOld(legacy, t) + BeginReading(p, legacy, t) + StoreNew(p, legacy, t) + RetireOld(t),
               EndReading(t));
    OldArrives(c, lag, maxsize, p, legacy, t);
    FirstGetMisses(c, lag, maxsize, p, legacy, t);
    NewArrives(c, lag, maxsize, p, legacy, t);
    OldRetired(c, lag, maxsize, p, legacy, t);
    SecondGetMisses(c, lag, maxsize, p, legacy, t);
    var read := CrossedRead(p, legacy, t);
    forall m: Moment | Before(Start(read), m) && Before(m, Moment(3, t + 5.0))
      ensures SpecRead(MapAt(Crossed(c, p, legacy, t), m), p, Some(legacy), m.at).Hit?
    {
      NeverEmpty(c, p, legacy, t, m);
    }
  }
}
