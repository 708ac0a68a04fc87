/**
 * The two-tier response cache: Redis first, the in-memory cache as fallback, tenanted keys with a
 * dual read of the legacy location, and optional encryption of what is stored.
 */
module ResponseCaches {
  import opened MemoryLru
  import opened Sets
  import opened Wrappers

  // ----- encoding -----

  /** Encryption is randomised: `encrypt` takes the nonce it draws. */
  datatype Cipher = Cipher(encrypt: (Bytes, nat) -> Bytes, decrypt: Bytes -> Option<Bytes>)

  datatype Codec = Codec(dumps: string -> Bytes, loads: Bytes -> Option<string>, cipher: Option<Cipher>)

  /** Loading inverts dumping, decrypting inverts encrypting, and a ciphertext is not JSON. */
  ghost predicate Lawful(c: Codec) {
    && (forall v :: c.loads(c.dumps(v)) == Some(v))
    && (c.cipher.Some? ==> forall b, n :: c.cipher.value.decrypt(c.cipher.value.encrypt(b, n)) == Some(b))
    && (c.cipher.Some? ==> forall b, n :: c.loads(c.cipher.value.encrypt(b, n)) == None)
  }

  function Encode(c: Codec, v: string, nonce: nat): Bytes {
    if c.cipher.None? then c.dumps(v) else c.cipher.value.encrypt(c.dumps(v), nonce)
  }

  /** `_decrypt`: whatever cannot be decrypted passes through. */
  function Decrypt(c: Codec, b: Bytes): Bytes {
    if c.cipher.None? then b
    else match c.cipher.value.decrypt(b)
      case Some(x) => x
      case None => b
  }

  lemma DecodesBack(c: Codec, v: string, nonce: nat)
    requires Lawful(c)
    ensures c.loads(Decrypt(c, Encode(c, v, nonce))) == Some(v)
    ensures c.loads(Encode(c, v, nonce)) == (if c.cipher.None? then Some(v) else None)
  {}

  // ----- keys -----

  datatype Place = Legacy(key: string) | Tenanted(tenant: string, key: string)

  function FallbackKey(p: Place): string {
    match p
    case Legacy(k) => k
    case Tenanted(t, k) => t + ":" + k
  }

  function RedisKey(p: Place): string {
    "aim:" + FallbackKey(p)
  }

  predicate ColonFree(t: string) {
    forall i :: 0 <= i < |t| ==> t[i] != ':'
  }

  /** With tenant ids free of colons, two places share a key exactly when they are the same place or
      a legacy key spells out the other's tenant prefix. */
  lemma KeysCollideExactly(p: Place, q: Place)
    requires (p.Tenanted? ==> ColonFree(p.tenant)) && (q.Tenanted? ==> ColonFree(q.tenant))
    ensures RedisKey(p) == RedisKey(q) <==> FallbackKey(p) == FallbackKey(q)
    ensures FallbackKey(p) == FallbackKey(q) <==>
              p == q || (p.Legacy? && q.Tenanted? && p.key == q.tenant + ":" + q.key)
                     || (q.Legacy? && p.Tenanted? && q.key == p.tenant + ":" + p.key)
  {
    assert RedisKey(p)[4..] == FallbackKey(p) && RedisKey(q)[4..] == FallbackKey(q);
    if p.Tenanted? && q.Tenanted? && FallbackKey(p) == FallbackKey(q) {
      var f := FallbackKey(p);
      assert f[|p.tenant|] == ':' && f[|q.tenant|] == ':';
      assert forall i :: 0 <= i < |p.tenant| ==> f[i] == p.tenant[i];
      assert forall i :: 0 <= i < |q.tenant| ==> f[i] == q.tenant[i];
      assert |p.tenant| == |q.tenant|;
      assert p.tenant == f[..|p.tenant|] == q.tenant;
      assert p.key == f[|p.tenant| + 1..] == q.key;
    }
  }

  /** A place the deployment uses: a known tenant, or a legacy key outside every tenant's prefix. */
  ghost predicate Sane(tenants: set<string>, p: Place) {
    && (forall t :: t in tenants ==> ColonFree(t))
    && match p
       case Legacy(k) => forall t :: t in tenants ==> !(t + ":" <= k)
       case Tenanted(t, _) => t in tenants
  }

  /** Among sane places the keys are injective. */
  lemma SaneKeysInjective(tenants: set<string>, p: Place, q: Place)
    requires Sane(tenants, p) && Sane(tenants, q)
    ensures FallbackKey(p) == FallbackKey(q) ==> p == q
    ensures RedisKey(p) == RedisKey(q) ==> p == q
  {
    KeysCollideExactly(p, q);
    if p.Legacy? && q.Tenanted? { assert q.tenant + ":" <= q.tenant + ":" + q.key; }
    if q.Legacy? && p.Tenanted? { assert p.tenant + ":" <= p.tenant + ":" + p.key; }
  }

  // ----- the cache -----

  /** How one Redis command went: it raises if it was lost, and may or may not have run by then. */
  datatype Fault = Fine | Lost(ran: bool)

  /** The surroundings of one operation: the time, whether a ping would succeed, and the fate of its
      first and second Redis command. */
  datatype Env = Env(now: real, ping: bool, first: Fault, second: Fault)

  datatype Cache = Cache(redis: map<string, Entry>, hasClient: bool, redisOk: bool, lastReconnect: real, fallback: Lru)

  /** What a read gives: nothing, a value, or the decoding error of the fallback's bytes. */
  datatype Reply = Miss | Hit(value: string) | DecodeError

  const RECONNECT_INTERVAL := 30.0

  function Reconnected(s: Cache, env: Env): Cache {
    if env.now - s.lastReconnect < RECONNECT_INTERVAL then s
    else s.(lastReconnect := env.now, redisOk := s.redisOk || (s.hasClient && env.ping))
  }

  function Prelude(s: Cache, env: Env): Cache {
    if !s.redisOk && s.hasClient then Reconnected(s, env) else s
  }

  predicate UsesRedis(s: Cache) {
    s.redisOk && s.hasClient
  }

  function RedisGet(redis: map<string, Entry>, k: string, now: real): Option<Bytes> {
    if k in redis && !Expired(redis[k], now) then Some(redis[k].value) else None
  }

  /** What Redis answers a read of `p`, then of `alt`: an error, or the bytes found. */
  function RedisRead(s: Cache, p: Place, alt: Option<Place>, env: Env): Option<Option<Bytes>> {
    if env.first != Fine then None
    else
      var raw := RedisGet(s.redis, RedisKey(p), env.now);
      if raw.Some? || alt.None? then Some(raw)
      else if env.second != Fine then None
      else Some(RedisGet(s.redis, RedisKey(alt.value), env.now))
  }

  function FallbackRead(s: Cache, p: Place, alt: Option<Place>, now: real): (Cache, Option<Bytes>) {
    var (l, raw) := Lookup(s.fallback, FallbackKey(p), now);
    if raw.Some? || alt.None? then (s.(fallback := l), raw)
    else
      var (l', raw') := Lookup(l, FallbackKey(alt.value), now);
      (s.(fallback := l'), raw')
  }

  function ReadFallback(c: Codec, s: Cache, p: Place, alt: Option<Place>, now: real): (Cache, Reply) {
    var (s', raw) := FallbackRead(s, p, alt, now);
    if raw.None? then (s', Miss)
    else match c.loads(raw.value)
      case Some(v) => (s', Hit(v))
      case None => (s', DecodeError)
  }

  /** A read of `p`, and of `alt` where `p` holds nothing. */
  function Read(c: Codec, s: Cache, p: Place, alt: Option<Place>, env: Env): (Cache, Reply) {
    var s1 := Prelude(s, env);
    if !UsesRedis(s1) then ReadFallback(c, s1, p, alt, env.now)
    else
      var answer := RedisRead(s1, p, alt, env);
      if answer.None? then ReadFallback(c, s1.(redisOk := false), p, alt, env.now)
      else if answer.value.None? then ReadFallback(c, s1, p, alt, env.now)
      else match c.loads(Decrypt(c, answer.value.value))
        case Some(v) => (s1, Hit(v))
        case None => ReadFallback(c, s1.(redisOk := false), p, alt, env.now)
  }

  /** SETEX; Redis refuses a time-to-live that is not positive. */
  function RedisSet(redis: map<string, Entry>, k: string, e: Entry, fault: Fault): (map<string, Entry>, bool) {
    if e.ttl <= 0 then (redis, false)
    else if fault == Fine then (redis[k := e], true)
    else if fault.ran then (redis[k := e], false)
    else (redis, false)
  }

  function RedisDelete(redis: map<string, Entry>, ks: set<string>, fault: Fault): map<string, Entry> {
    if fault == Fine || fault.ran then redis - ks else redis
  }

  function WriteFallback(s: Cache, p: Place, retire: Option<Place>, e: Entry): Cache {
    var l := Store(s.fallback, FallbackKey(p), e);
    s.(fallback := if retire.None? then l else Drop(l, FallbackKey(retire.value)))
  }

  /** A write to `p` that retires `retire`. */
  function Write(s: Cache, p: Place, retire: Option<Place>, e: Entry, env: Env): Cache {
    var s1 := Prelude(s, env);
    if !UsesRedis(s1) then WriteFallback(s1, p, retire, e)
    else
      var (redis, ok) := RedisSet(s1.redis, RedisKey(p), e, env.first);
      if ok then
        s1.(redis := if retire.None? then redis else RedisDelete(redis, {RedisKey(retire.value)}, env.second))
      else WriteFallback(s1.(redis := redis, redisOk := false), p, retire, e)
  }

  function Erase(s: Cache, p: Place, also: Option<Place>, env: Env): Cache {
    var ks := {RedisKey(p)} + (if also.None? then {} else {RedisKey(also.value)});
    var redis := if UsesRedis(s) then RedisDelete(s.redis, ks, env.first) else s.redis;
    var l := Drop(s.fallback, FallbackKey(p));
    s.(redis := redis, fallback := if also.None? then l else Drop(l, FallbackKey(also.value)))
  }

  // ----- runs -----

  datatype Op =
    | DoRead(place: Place, alt: Option<Place>, env: Env)
    | DoWrite(place: Place, alt: Option<Place>, value: string, ttl: int, nonce: nat, env: Env)
    | DoErase(place: Place, alt: Option<Place>, env: Env)

  function EntryOf(c: Codec, w: Op): Entry
    requires w.DoWrite?
  {
    Entry(Encode(c, w.value, w.nonce), w.env.now, w.ttl)
  }

  function ApplyOp(c: Codec, s: Cache, op: Op): Cache {
    match op
    case DoRead(p, alt, env) => Read(c, s, p, alt, env).0
    case DoWrite(p, alt, _, _, _, env) => Write(s, p, alt, EntryOf(c, op), env)
    case DoErase(p, alt, env) => Erase(s, p, alt, env)
  }

  function Run(c: Codec, s: Cache, ops: seq<Op>): Cache {
    if ops == [] then s else ApplyOp(c, Run(c, s, ops[..|ops| - 1]), ops[|ops| - 1])
  }

  ghost predicate AllSane(tenants: set<string>, ops: seq<Op>) {
    forall i :: 0 <= i < |ops| ==> SaneOp(tenants, ops[i])
  }

  ghost predicate SaneOp(tenants: set<string>, op: Op) {
    Sane(tenants, op.place) && (op.alt.Some? ==> Sane(tenants, op.alt.value))
  }

  /** The entry was put there by one of the writes. */
  ghost predicate WrittenBy(c: Codec, ops: seq<Op>, key: string, e: Entry) {
    exists i :: 0 <= i < |ops| && ops[i].DoWrite? && FallbackKey(ops[i].place) == key && e == EntryOf(c, ops[i])
  }

  ghost predicate Sourced(c: Codec, ops: seq<Op>, s: Cache) {
    && (forall k :: k in s.redis ==> |k| >= 4 && k[..4] == "aim:" && WrittenBy(c, ops, k[4..], s.redis[k]))
    && (forall k :: k in s.fallback.entries ==> WrittenBy(c, ops, k, s.fallback.entries[k]))
  }

  function Empty(hasClient: bool, redisOk: bool, maxsize: nat): Cache {
    Cache(map[], hasClient, redisOk, 0.0, Lru(maxsize, [], map[]))
  }

  /** Every entry of `small` is one of `big`'s, or `e` under `key`. */
  ghost predicate Within(small: map<string, Entry>, big: map<string, Entry>, key: string, e: Option<Entry>) {
    forall k :: k in small ==> (k in big && small[k] == big[k]) || (k == key && e == Some(small[k]))
  }

  lemma {:induction false} TrimWithin(l: Lru)
    ensures Within(Trim(l).entries, l.entries, "", None)
    decreases |l.order|
  {
    if |l.order| > l.maxsize && l.order != [] {
      TrimWithin(l.(order := l.order[1..], entries := l.entries - {l.order[0]}));
    }
  }

  lemma StoreWithin(l: Lru, k: string, e: Entry)
    ensures Within(Store(l, k, e).entries, l.entries, k, Some(e))
  {
    TrimWithin(Put(l, k, e));
  }

  lemma LookupWithin(l: Lru, k: string, now: real)
    ensures Within(Lookup(l, k, now).0.entries, l.entries, "", None)
  {}

  lemma FallbackReadWithin(s: Cache, p: Place, alt: Option<Place>, now: real)
    ensures FallbackRead(s, p, alt, now).0 == s.(fallback := FallbackRead(s, p, alt, now).0.fallback)
    ensures Within(FallbackRead(s, p, alt, now).0.fallback.entries, s.fallback.entries, "", None)
  {
    var l := Lookup(s.fallback, FallbackKey(p), now).0;
    LookupWithin(s.fallback, FallbackKey(p), now);
    if alt.Some? {
      LookupWithin(l, FallbackKey(alt.value), now);
    }
    hide Lookup;
  }

  lemma ReadWithin(c: Codec, s: Cache, p: Place, alt: Option<Place>, env: Env)
    ensures Read(c, s, p, alt, env).0.redis == s.redis
    ensures Within(Read(c, s, p, alt, env).0.fallback.entries, s.fallback.entries, "", None)
  {
    hide FallbackRead, RedisRead, Decrypt;
    var s1 := Prelude(s, env);
    FallbackReadWithin(s1, p, alt, env.now);
    FallbackReadWithin(s1.(redisOk := false), p, alt, env.now);
  }

  lemma WriteWithin(s: Cache, p: Place, retire: Option<Place>, e: Entry, env: Env)
    ensures var s' := Write(s, p, retire, e, env);
            && Within(s'.redis, s.redis, RedisKey(p), Some(e))
            && Within(s'.fallback.entries, s.fallback.entries, FallbackKey(p), Some(e))
  {
    StoreWithin(s.fallback, FallbackKey(p), e);
    hide Store;
  }

  lemma EraseWithin(s: Cache, p: Place, also: Option<Place>, env: Env)
    ensures var s' := Erase(s, p, also, env);
            Within(s'.redis, s.redis, "", None) && Within(s'.fallback.entries, s.fallback.entries, "", None)
  {}

  lemma StillWritten(c: Codec, ops: seq<Op>, op: Op, key: string, e: Entry)
    ensures WrittenBy(c, ops, key, e) ==> WrittenBy(c, ops + [op], key, e)
    ensures op.DoWrite? ==> WrittenBy(c, ops + [op], FallbackKey(op.place), EntryOf(c, op))
  {
    var all := ops + [op];
    if WrittenBy(c, ops, key, e) {
      var i :| 0 <= i < |ops| && ops[i].DoWrite? && FallbackKey(ops[i].place) == key && e == EntryOf(c, ops[i]);
      assert all[i] == ops[i];
    }
    if op.DoWrite? {
      assert all[|ops|] == op;
    }
  }

  /** The entry an operation may add to both stores, and its two keys. */
  function Added(c: Codec, op: Op): Option<Entry> {
    if op.DoWrite? then Some(EntryOf(c, op)) else None
  }

  function AddedKey(op: Op, redis: bool): string {
    if !op.DoWrite? then "" else if redis then RedisKey(op.place) else FallbackKey(op.place)
  }

  lemma ApplyWithin(c: Codec, s: Cache, op: Op)
    ensures Within(ApplyOp(c, s, op).redis, s.redis, AddedKey(op, true), Added(c, op))
    ensures Within(ApplyOp(c, s, op).fallback.entries, s.fallback.entries, AddedKey(op, false), Added(c, op))
  {
    hide Read, Write, Erase;
    match op {
      case DoRead(p, alt, env) => ReadWithin(c, s, p, alt, env);
      case DoWrite(p, alt, _, _, _, env) => WriteWithin(s, p, alt, EntryOf(c, op), env);
      case DoErase(p, alt, env) => EraseWithin(s, p, alt, env);
    }
  }

  lemma ApplySourced(c: Codec, ops: seq<Op>, s: Cache, op: Op)
    requires Sourced(c, ops, s)
    ensures Sourced(c, ops + [op], ApplyOp(c, s, op))
  {
    var s' := ApplyOp(c, s, op);
    ApplyWithin(c, s, op);
    if op.DoWrite? {
      assert RedisKey(op.place)[..4] == "aim:" && RedisKey(op.place)[4..] == FallbackKey(op.place);
    }
    hide ApplyOp, EntryOf, WrittenBy, RedisKey, FallbackKey;
    forall k | k in s'.redis ensures |k| >= 4 && k[..4] == "aim:" && WrittenBy(c, ops + [op], k[4..], s'.redis[k]) {
      if |k| >= 4 {
        StillWritten(c, ops, op, k[4..], s'.redis[k]);
      }
    }
    forall k | k in s'.fallback.entries ensures WrittenBy(c, ops + [op], k, s'.fallback.entries[k]) {
      StillWritten(c, ops, op, k, s'.fallback.entries[k]);
    }
  }

  lemma {:induction false} RunSourced(c: Codec, s: Cache, ops: seq<Op>)
    requires s.redis == map[] && s.fallback.entries == map[]
    ensures Sourced(c, ops, Run(c, s, ops))
    decreases |ops|
  {
    hide ApplyOp, WrittenBy;
    if ops != [] {
      RunSourced(c, s, ops[..|ops| - 1]);
      ApplySourced(c, ops[..|ops| - 1], Run(c, s, ops[..|ops| - 1]), ops[|ops| - 1]);
      assert ops[..|ops| - 1] + [ops[|ops| - 1]] == ops;
    }
  }

  /** A hit's bytes come from the place read or its alternative, alive, in one of the two stores. */
  lemma HitComesFrom(c: Codec, s: Cache, p: Place, alt: Option<Place>, env: Env) returns (q: Place, e: Entry)
    requires Read(c, s, p, alt, env).1.Hit?
    ensures q == p || alt == Some(q)
    ensures !Expired(e, env.now)
    ensures var v := Read(c, s, p, alt, env).1.value;
            || (RedisKey(q) in s.redis && s.redis[RedisKey(q)] == e && c.loads(Decrypt(c, e.value)) == Some(v))
            || (FallbackKey(q) in s.fallback.entries && s.fallback.entries[FallbackKey(q)] == e
                && c.loads(e.value) == Some(v))
  {
    var s1 := Prelude(s, env);
    var now := env.now;
    var answer := RedisRead(s1, p, alt, env);
    if UsesRedis(s1) && answer.Some? && answer.value.Some? && c.loads(Decrypt(c, answer.value.value)).Some? {
      q := if RedisGet(s1.redis, RedisKey(p), now).Some? then p else alt.value;
      e := s1.redis[RedisKey(q)];
    } else {
      var (l, raw) := Lookup(s1.fallback, FallbackKey(p), now);
      q := if raw.Some? then p else alt.value;
      e := s.fallback.entries[FallbackKey(q)];
    }
  }

  /** The write behind a hit, found through the keys. */
  lemma WriteFound(c: Codec, ops: seq<Op>, tenants: set<string>, q: Place, e: Entry, v: string)
    requires Lawful(c) && AllSane(tenants, ops) && Sane(tenants, q) && WrittenBy(c, ops, FallbackKey(q), e)
    requires c.loads(Decrypt(c, e.value)) == Some(v) || c.loads(e.value) == Some(v)
    ensures exists i ::
              0 <= i < |ops| && ops[i].DoWrite? && ops[i].value == v && ops[i].place == q && e == EntryOf(c, ops[i])
  {
    var i :| 0 <= i < |ops| && ops[i].DoWrite? && FallbackKey(ops[i].place) == FallbackKey(q)
             && e == EntryOf(c, ops[i]);
    assert SaneOp(tenants, ops[i]);
    SaneKeysInjective(tenants, ops[i].place, q);
    DecodesBack(c, ops[i].value, ops[i].nonce);
  }

  /**
   * Tenant safety over every run: whatever Redis commands fail, are lost after running or succeed,
   * and however the cache reconnects, a read of a sane place returns only a value that was written
   * to exactly that place, or to the legacy place the read also consults, and that is within the
   * time-to-live it was written with.
   */
  lemma ReadsOnlyOwnWrites(c: Codec, s: Cache, ops: seq<Op>, tenants: set<string>,
                           p: Place, alt: Option<Place>, env: Env)
    requires Lawful(c) && s.redis == map[] && s.fallback.entries == map[]
    requires AllSane(tenants, ops) && Sane(tenants, p) && (alt.Some? ==> Sane(tenants, alt.value))
    requires Read(c, Run(c, s, ops), p, alt, env).1.Hit?
    ensures var v := Read(c, Run(c, s, ops), p, alt, env).1.value;
      exists i :: 0 <= i < |ops| && ops[i].DoWrite? && ops[i].value == v
        && (ops[i].place == p || Some(ops[i].place) == alt)
        && env.now - ops[i].env.now <= ops[i].ttl as real
  {
    RunSourced(c, s, ops);
    hide Run, Read, AllSane, Sane, WrittenBy, Lawful;
    var t := Run(c, s, ops);
    var q, e := HitComesFrom(c, t, p, alt, env);
    assert RedisKey(q)[4..] == FallbackKey(q);
    assert WrittenBy(c, ops, FallbackKey(q), e);
    WriteFound(c, ops, tenants, q, e, Read(c, t, p, alt, env).1.value);
  }

  // ----- while Redis answers -----

  /** One map from places to what was last written there. */
  datatype Kept = Kept(value: string, at: real, ttl: int)

  predicate Live(a: map<Place, Kept>, p: Place, now: real) {
    p in a && now - a[p].at <= a[p].ttl as real
  }

  function SpecRead(a: map<Place, Kept>, p: Place, alt: Option<Place>, now: real): Reply {
    if Live(a, p, now) then Hit(a[p].value)
    else if alt.Some? && Live(a, alt.value, now) then Hit(a[alt.value].value)
    else Miss
  }

  function Both(p: Option<Place>): set<Place> {
    if p.None? then {} else {p.value}
  }

  function SpecApply(a: map<Place, Kept>, op: Op): map<Place, Kept> {
    match op
    case DoRead(_, _, _) => a
    case DoWrite(p, alt, v, ttl, _, env) => a[p := Kept(v, env.now, ttl)] - Both(alt)
    case DoErase(p, alt, _) => a - {p} - Both(alt)
  }

  function SpecRun(a: map<Place, Kept>, ops: seq<Op>): map<Place, Kept> {
    if ops == [] then a else SpecApply(SpecRun(a, ops[..|ops| - 1]), ops[|ops| - 1])
  }

  predicate Healthy(op: Op) {
    op.env.first == Fine && op.env.second == Fine && (op.DoWrite? ==> op.ttl > 0)
  }

  ghost predicate Holds(c: Codec, redis: map<string, Entry>, a: map<Place, Kept>, p: Place) {
    && (RedisKey(p) in redis <==> p in a)
    && (p in a ==>
          var e := redis[RedisKey(p)];
          e.at == a[p].at && e.ttl == a[p].ttl && c.loads(Decrypt(c, e.value)) == Some(a[p].value))
  }

  ghost predicate Mirrors(c: Codec, tenants: set<string>, s: Cache, a: map<Place, Kept>) {
    && UsesRedis(s) && s.fallback.entries == map[]
    && forall p :: Sane(tenants, p) ==> Holds(c, s.redis, a, p)
  }

  lemma MirroredRead(c: Codec, tenants: set<string>, s: Cache, a: map<Place, Kept>,
                     p: Place, alt: Option<Place>, env: Env)
    requires Mirrors(c, tenants, s, a) && Sane(tenants, p) && (alt.Some? ==> Sane(tenants, alt.value))
    requires env.first == Fine && env.second == Fine
    ensures Read(c, s, p, alt, env).1 == SpecRead(a, p, alt, env.now)
    ensures var s' := Read(c, s, p, alt, env).0; s'.(fallback := s.fallback) == s && s'.fallback.entries == map[]
  {
    assert Holds(c, s.redis, a, p);
    assert alt.Some? ==> Holds(c, s.redis, a, alt.value);
    hide Sane, Decrypt;
  }

  lemma MirroredWrite(c: Codec, tenants: set<string>, s: Cache, a: map<Place, Kept>, op: Op)
    requires Lawful(c) && Mirrors(c, tenants, s, a) && SaneOp(tenants, op) && Healthy(op) && op.DoWrite?
    ensures Mirrors(c, tenants, ApplyOp(c, s, op), SpecApply(a, op))
  {
    DecodesBack(c, op.value, op.nonce);
    var s', a' := ApplyOp(c, s, op), SpecApply(a, op);
    forall q | Sane(tenants, q) ensures Holds(c, s'.redis, a', q) {
      assert Holds(c, s.redis, a, q);
      SaneKeysInjective(tenants, q, op.place);
      if op.alt.Some? { SaneKeysInjective(tenants, q, op.alt.value); }
    }
  }

  lemma MirroredErase(c: Codec, tenants: set<string>, s: Cache, a: map<Place, Kept>, op: Op)
    requires Mirrors(c, tenants, s, a) && SaneOp(tenants, op) && Healthy(op) && op.DoErase?
    ensures Mirrors(c, tenants, ApplyOp(c, s, op), SpecApply(a, op))
  {
    var s', a' := ApplyOp(c, s, op), SpecApply(a, op);
    forall q | Sane(tenants, q) ensures Holds(c, s'.redis, a', q) {
      assert Holds(c, s.redis, a, q);
      SaneKeysInjective(tenants, q, op.place);
      if op.alt.Some? { SaneKeysInjective(tenants, q, op.alt.value); }
    }
  }

  lemma {:induction false} RunMirrors(c: Codec, tenants: set<string>, s: Cache, a: map<Place, Kept>, ops: seq<Op>)
    requires Lawful(c) && Mirrors(c, tenants, s, a) && AllSane(tenants, ops)
    requires forall i :: 0 <= i < |ops| ==> Healthy(ops[i])
    ensures Mirrors(c, tenants, Run(c, s, ops), SpecRun(a, ops))
  {
    if ops != [] {
      var before, op := ops[..|ops| - 1], ops[|ops| - 1];
      RunMirrors(c, tenants, s, a, before);
      assert SaneOp(tenants, op);
      var t, b := Run(c, s, before), SpecRun(a, before);
      hide Mirrors, ApplyOp, SpecApply, Sane;
      match op {
        case DoRead(p, alt, env) => ReadMirrors(c, tenants, t, b, op);
        case DoWrite(_, _, _, _, _, _) => MirroredWrite(c, tenants, t, b, op);
        case DoErase(_, _, _) => MirroredErase(c, tenants, t, b, op);
      }
    }
  }

  lemma ReadMirrors(c: Codec, tenants: set<string>, s: Cache, a: map<Place, Kept>, op: Op)
    requires Mirrors(c, tenants, s, a) && SaneOp(tenants, op) && Healthy(op) && op.DoRead?
    ensures Mirrors(c, tenants, ApplyOp(c, s, op), SpecApply(a, op))
  {
    MirroredRead(c, tenants, s, a, op.place, op.alt, op.env);
    hide Read;
  }

  /**
   * With Redis answering throughout, the cache is one map with a time-to-live per place and a
   * legacy fallback: after any operations on sane places, every read replies as that map does.
   */
  lemma HealthyCacheIsOneMap(c: Codec, tenants: set<string>, ops: seq<Op>, maxsize: nat,
                             p: Place, alt: Option<Place>, env: Env)
    requires Lawful(c) && AllSane(tenants, ops) && forall i :: 0 <= i < |ops| ==> Healthy(ops[i])
    requires Sane(tenants, p) && (alt.Some? ==> Sane(tenants, alt.value)) && env.first == Fine && env.second == Fine
    ensures Read(c, Run(c, Empty(true, true, maxsize), ops), p, alt, env).1
         == SpecRead(SpecRun(map[], ops), p, alt, env.now)
  {
    RunMirrors(c, tenants, Empty(true, true, maxsize), map[], ops);
    MirroredRead(c, tenants, Run(c, Empty(true, true, maxsize), ops), SpecRun(map[], ops), p, alt, env);
  }

  // ----- the round trip on one back end -----

  /** The operation ends up on Redis, or on the in-memory cache. */
  predicate OnRedis(s: Cache, env: Env) {
    UsesRedis(Prelude(s, env)) && env.first == Fine && env.second == Fine
  }

  predicate InMemory(s: Cache, env: Env) {
    !UsesRedis(Prelude(s, env))
  }

  /** On Redis a value written is read back within its time-to-live, encrypted or not. */
  lemma RedisRoundTrip(c: Codec, s: Cache, w: Op, alt: Option<Place>, env: Env)
    requires Lawful(c) && w.DoWrite? && OnRedis(s, w.env) && w.ttl > 0
    requires w.alt.Some? ==> RedisKey(w.alt.value) != RedisKey(w.place)
    requires OnRedis(ApplyOp(c, s, w), env) && env.now - w.env.now <= w.ttl as real
    ensures Read(c, ApplyOp(c, s, w), w.place, alt, env).1 == Hit(w.value)
  {
    DecodesBack(c, w.value, w.nonce);
    var s' := ApplyOp(c, s, w);
    assert RedisGet(s'.redis, RedisKey(w.place), env.now) == Some(Encode(c, w.value, w.nonce));
  }

  /**
   * On the in-memory cache the round trip holds exactly when encryption is off: with encryption
   * on, what was stored is ciphertext, the read does not decrypt it, and decoding it raises.
   */
  lemma MemoryRoundTripExactly(c: Codec, s: Cache, w: Op, alt: Option<Place>, env: Env)
    requires Lawful(c) && w.DoWrite? && InMemory(s, w.env)
    requires Valid(s.fallback) && s.fallback.maxsize >= 1
    requires w.alt.Some? ==> FallbackKey(w.alt.value) != FallbackKey(w.place)
    requires InMemory(ApplyOp(c, s, w), env) && env.now - w.env.now <= w.ttl as real
    ensures var reply := Read(c, ApplyOp(c, s, w), w.place, alt, env).1;
            && (reply == Hit(w.value) <==> c.cipher.None?)
            && (c.cipher.Some? ==> reply == DecodeError)
  {
    DecodesBack(c, w.value, w.nonce);
    var k, e := FallbackKey(w.place), EntryOf(c, w);
    StoredIsFound(s.fallback, k, e, if w.alt.Some? then Some(FallbackKey(w.alt.value)) else None, env.now);
    MemoryWrite(c, s, w);
    MemoryReadFinds(c, ApplyOp(c, s, w), w.place, alt, env, e.value);
    hide *;
  }

  lemma MemoryWrite(c: Codec, s: Cache, w: Op)
    requires w.DoWrite? && InMemory(s, w.env)
    ensures var l := Store(s.fallback, FallbackKey(w.place), EntryOf(c, w));
            ApplyOp(c, s, w).fallback == (if w.alt.None? then l else Drop(l, FallbackKey(w.alt.value)))
  {}

  lemma MemoryReadFinds(c: Codec, s: Cache, p: Place, alt: Option<Place>, env: Env, bytes: Bytes)
    requires InMemory(s, env) && Lookup(s.fallback, FallbackKey(p), env.now).1 == Some(bytes)
    ensures Read(c, s, p, alt, env).1 == if c.loads(bytes).Some? then Hit(c.loads(bytes).value) else DecodeError
  {}

  lemma StoredIsFound(l: Lru, k: string, e: Entry, retire: Option<string>, now: real)
    requires Valid(l) && l.maxsize >= 1 && !Expired(e, now) && retire != Some(k)
    ensures var l1 := Store(l, k, e);
            var l2 := if retire.None? then l1 else Drop(l1, retire.value);
            Lookup(l2, k, now).1 == Some(e.value)
  {
    SetValid(l, k, e);
    PutProper(l, k, e);
    var p := Put(l, k, e);
    assert p.order[|p.order| - 1] == k;
    if |p.order| > l.maxsize {
      assert p.order[0] != k;
    }
  }

  // ----- reconnecting -----

  /** The operation pings: Redis is down, it does not erase, and the last ping is 30 seconds ago. */
  predicate Pings(s: Cache, op: Op) {
    !op.DoErase? && s.hasClient && !s.redisOk && op.env.now - s.lastReconnect >= 30.0
  }

  predicate Stored(m: map<string, Entry>, k: string, now: real) {
    k in m && now - m[k].at <= m[k].ttl as real
  }

  /** A command of the operation fails, given that it uses Redis: it raised, or the time-to-live was
      refused, or the bytes found do not decode.  An erasure ignores failures. */
  predicate Fails(c: Codec, s: Cache, op: Op) {
    match op
    case DoErase(_, _, _) => false
    case DoWrite(_, _, _, ttl, _, env) => env.first != Fine || ttl <= 0
    case DoRead(p, alt, env) =>
      || env.first != Fine
      || (if Stored(s.redis, RedisKey(p), env.now) then c.loads(Decrypt(c, s.redis[RedisKey(p)].value)).None?
          else alt.Some? && (env.second != Fine || (Stored(s.redis, RedisKey(alt.value), env.now)
                             && c.loads(Decrypt(c, s.redis[RedisKey(alt.value)].value)).None?)))
  }

  /** Redis is in use after an operation exactly if it was, or the ping was answered, and no command failed. */
  lemma FlagExactly(c: Codec, s: Cache, op: Op)
    requires s.hasClient
    ensures var s' := ApplyOp(c, s, op);
      && s'.hasClient && s'.lastReconnect == (if Pings(s, op) then op.env.now else s.lastReconnect)
      && (s'.redisOk <==> (s.redisOk || (Pings(s, op) && op.env.ping)) && !Fails(c, s, op))
  {
    hide Decrypt, RedisKey, FallbackKey, Lookup, Store, Drop, Encode;
  }

  lemma NoClientNoRedis(c: Codec, s: Cache, op: Op)
    requires !s.hasClient
    ensures var s' := ApplyOp(c, s, op); s'.redis == s.redis && s' == s.(fallback := s'.fallback)
  {
    hide Decrypt, RedisKey, FallbackKey, Lookup, Store, Drop, Encode;
  }

  /** However many operations find Redis down, two pings are at least 30 seconds apart. */
  lemma {:induction false} PingsSpaced(c: Codec, s: Cache, ops: seq<Op>, i: nat)
    requires s.hasClient && i < |ops| - 1 && Pings(Run(c, s, ops[..i]), ops[i])
    requires Pings(Run(c, s, ops[..|ops| - 1]), ops[|ops| - 1])
    ensures ops[|ops| - 1].env.now - ops[i].env.now >= 30.0
  {
    hide Pings, ApplyOp;
    assert ops[..|ops| - 1][..i] == ops[..i];
    PingRemembered(c, s, ops[..|ops| - 1], i);
    PingMeans(Run(c, s, ops[..|ops| - 1]), ops[|ops| - 1]);
  }

  lemma PingMeans(s: Cache, op: Op)
    requires Pings(s, op)
    ensures op.env.now >= s.lastReconnect + 30.0
  {}

  lemma {:induction false} PingRemembered(c: Codec, s: Cache, ops: seq<Op>, i: nat)
    requires s.hasClient && i < |ops| && Pings(Run(c, s, ops[..i]), ops[i])
    ensures Run(c, s, ops).lastReconnect >= ops[i].env.now && Run(c, s, ops).hasClient
    decreases |ops|
  {
    hide ApplyOp, Pings, Fails;
    var before, op := ops[..|ops| - 1], ops[|ops| - 1];
    ClientStays(c, s, before);
    FlagExactly(c, Run(c, s, before), op);
    if i < |before| {
      assert before[..i] == ops[..i];
      PingRemembered(c, s, before, i);
      if Pings(Run(c, s, before), op) {
        PingMeans(Run(c, s, before), op);
      }
    }
  }

  lemma {:induction false} ClientStays(c: Codec, s: Cache, ops: seq<Op>)
    requires s.hasClient
    ensures Run(c, s, ops).hasClient
  {
    hide ApplyOp, Pings, Fails;
    if ops != [] {
      ClientStays(c, s, ops[..|ops| - 1]);
      FlagExactly(c, Run(c, s, ops[..|ops| - 1]), ops[|ops| - 1]);
    }
  }

  // ----- which tier replies -----

  /** The value Redis gives a read, if it is in use and no command fails. */
  function FromRedis(c: Codec, s: Cache, p: Place, alt: Option<Place>, env: Env): Option<string> {
    if !(s.hasClient && (s.redisOk || (Pings(s, DoRead(p, alt, env)) && env.ping))) || Fails(c, s, DoRead(p, alt, env))
    then None
    else if Stored(s.redis, RedisKey(p), env.now) then c.loads(Decrypt(c, s.redis[RedisKey(p)].value))
    else if alt.Some? && Stored(s.redis, RedisKey(alt.value), env.now)
    then c.loads(Decrypt(c, s.redis[RedisKey(alt.value)].value))
    else None
  }

  /** What memory holds for a read: the place first, then the alternative; stored bytes are decoded as they are. */
  function FromMemory(c: Codec, l: Lru, p: Place, alt: Option<Place>, now: real): Reply {
    if Stored(l.entries, FallbackKey(p), now) then Decoding(c, l.entries[FallbackKey(p)].value)
    else if alt.Some? && Stored(l.entries, FallbackKey(alt.value), now)
    then Decoding(c, l.entries[FallbackKey(alt.value)].value)
    else Miss
  }

  function Decoding(c: Codec, b: Bytes): Reply {
    match c.loads(b)
    case Some(v) => Hit(v)
    case None => DecodeError
  }

  /** Whenever Redis does not give a value (it is not in use, holds none, fails, or holds bytes that do
      not decode) the reply is what memory holds. */
  lemma ReadExactly(c: Codec, s: Cache, p: Place, alt: Option<Place>, env: Env)
    ensures var v := FromRedis(c, s, p, alt, env);
      Read(c, s, p, alt, env).1 == if v.Some? then Hit(v.value) else FromMemory(c, s.fallback, p, alt, env.now)
  {
    hide Decrypt, RedisKey, FallbackKey, Without;
    MemoryReadExactly(c, Prelude(s, env), p, alt, env.now);
    MemoryReadExactly(c, Prelude(s, env).(redisOk := false), p, alt, env.now);
    hide ReadFallback, FromMemory;
  }

  lemma MemoryReadExactly(c: Codec, s: Cache, p: Place, alt: Option<Place>, now: real)
    ensures ReadFallback(c, s, p, alt, now).1 == FromMemory(c, s.fallback, p, alt, now)
  {
    hide FallbackKey, Without;
  }

  // ----- what is written during an outage -----

  predicate LandsInMemory(s: Cache, w: Op)
    requires w.DoWrite?
  {
    || !(s.hasClient && (s.redisOk || (Pings(s, w) && w.env.ping)))
    || w.env.first != Fine || w.ttl <= 0
  }

  function KeysOf(op: Op): set<string> {
    {FallbackKey(op.place)} + if op.alt.None? then {} else {FallbackKey(op.alt.value)}
  }

  function AllKeys(ops: seq<Op>): set<string> {
    set i, k | 0 <= i < |ops| && k in KeysOf(ops[i]) :: k
  }

  /** The operation neither writes nor erases the key, and comes while its entry is alive. */
  predicate SparesKey(op: Op, k: string, e: Entry) {
    && op.env.now - e.at <= e.ttl as real
    && (!op.DoRead? ==> k !in KeysOf(op))
  }

  lemma ReadOrNot(c: Codec, s: Cache, p: Place, alt: Option<Place>, env: Env)
    ensures var l := Read(c, s, p, alt, env).0.fallback;
            l == s.fallback || l == FallbackRead(s, p, alt, env.now).0.fallback
  {
    hide Decrypt, RedisKey, FallbackKey, Lookup;
  }

  lemma WriteOrNot(s: Cache, p: Place, retire: Option<Place>, e: Entry, env: Env)
    ensures var l := Write(s, p, retire, e, env).fallback;
            l == s.fallback || l == WriteFallback(s, p, retire, e).fallback
  {
    hide RedisKey, FallbackKey, Store, Drop;
  }

  /** What an operation does in memory, as operations of the in-memory cache. */
  lemma InMemoryOps(c: Codec, s: Cache, op: Op, k: string, e: Entry, others: set<string>)
    returns (ls: seq<MemoryLru.Op>)
    requires SparesKey(op, k, e) && KeysOf(op) - {k} <= others
    ensures ApplyOp(c, s, op).fallback == ApplyAll(s.fallback, ls)
    ensures forall i :: 0 <= i < |ls| ==> Spares(ls[i], k, e, others)
  {
    hide Read, Write, FallbackKey, RedisKey, Lookup, Store, Drop, Encode;
    var s' := ApplyOp(c, s, op);
    if s'.fallback == s.fallback {
      ls := [];
    } else {
      match op {
        case DoRead(p, alt, env) =>
          ReadOrNot(c, s, p, alt, env);
          ls := ReadOps(s, p, alt, env.now);
        case DoWrite(p, alt, v, ttl, nonce, env) =>
          WriteOrNot(s, p, alt, EntryOf(c, op), env);
          ls := WithDelete(s.fallback, [DoSet(FallbackKey(p), Encode(c, v, nonce), env.now, ttl)], alt);
        case DoErase(p, alt, env) =>
          ls := WithDelete(s.fallback, [DoDelete(FallbackKey(p))], alt);
      }
    }
  }

  lemma ReadOps(s: Cache, p: Place, alt: Option<Place>, now: real) returns (ls: seq<MemoryLru.Op>)
    ensures FallbackRead(s, p, alt, now).0.fallback == ApplyAll(s.fallback, ls)
    ensures forall i :: 0 <= i < |ls| ==>
              ls[i] == DoGet(FallbackKey(p), now) || (alt.Some? && ls[i] == DoGet(FallbackKey(alt.value), now))
  {
    hide FallbackKey, Lookup;
    ls := [DoGet(FallbackKey(p), now)];
    ApplyOne(s.fallback, ls[0]);
    var l := Lookup(s.fallback, FallbackKey(p), now);
    if l.1.None? && alt.Some? {
      var next := [DoGet(FallbackKey(alt.value), now)];
      ApplyAllConcat(s.fallback, ls, next);
      ApplyOne(l.0, next[0]);
      ls := ls + next;
    }
  }

  lemma ApplyOne(l: Lru, op: MemoryLru.Op)
    ensures ApplyAll(l, [op]) == Apply(l, op)
  {}

  lemma WithDelete(l: Lru, ls: seq<MemoryLru.Op>, alt: Option<Place>) returns (ls': seq<MemoryLru.Op>)
    requires |ls| == 1
    ensures ls' == ls + if alt.None? then [] else [DoDelete(FallbackKey(alt.value))]
    ensures ApplyAll(l, ls') == if alt.None? then Apply(l, ls[0]) else Drop(Apply(l, ls[0]), FallbackKey(alt.value))
  {
    hide FallbackKey, Store, Drop, Lookup, Purge;
    ApplyOne(l, ls[0]);
    ls' := ls;
    if alt.Some? {
      ls' := ls + [DoDelete(FallbackKey(alt.value))];
      ApplyAllConcat(l, ls, [DoDelete(FallbackKey(alt.value))]);
      ApplyOne(Apply(l, ls[0]), DoDelete(FallbackKey(alt.value)));
    }
    assert ls == [ls[0]];
  }

  lemma {:induction false} SparedInMemory(c: Codec, s: Cache, ops: seq<Op>, k: string, e: Entry, others: set<string>)
    requires KeptBefore(s.fallback, k, e, others) && |others| < s.fallback.maxsize && AllKeys(ops) - {k} <= others
    requires forall i :: 0 <= i < |ops| ==> SparesKey(ops[i], k, e)
    ensures KeptBefore(Run(c, s, ops).fallback, k, e, others)
    ensures Run(c, s, ops).fallback.maxsize == s.fallback.maxsize
    decreases |ops|
  {
    hide ApplyOp, KeptBefore, SparesKey, KeysOf;
    if ops != [] {
      var before, op := ops[..|ops| - 1], ops[|ops| - 1];
      assert AllKeys(before) <= AllKeys(ops);
      SparedInMemory(c, s, before, k, e, others);
      forall x | x in KeysOf(op) ensures x in AllKeys(ops) {
        assert x in KeysOf(ops[|ops| - 1]);
      }
      var m := Run(c, s, before);
      var ls := InMemoryOps(c, m, op, k, e, others);
      SparedEntryStays(m.fallback, k, e, others, ls);
    }
  }

  lemma MemoryWriteKept(c: Codec, s: Cache, w: Op)
    requires w.DoWrite? && LandsInMemory(s, w) && Valid(s.fallback) && s.fallback.maxsize >= 1
    requires w.alt.Some? ==> FallbackKey(w.alt.value) != FallbackKey(w.place)
    ensures var s' := ApplyOp(c, s, w);
      KeptBefore(s'.fallback, FallbackKey(w.place), EntryOf(c, w), {}) && s'.fallback.maxsize == s.fallback.maxsize
  {
    var k, e := FallbackKey(w.place), EntryOf(c, w);
    JustStored(s.fallback, k, e);
    StoreMaxsize(s.fallback, k, e);
    if w.alt.Some? {
      SparedRemove(Store(s.fallback, k, e), k, e, {}, FallbackKey(w.alt.value));
    }
    hide Store, Encode, FallbackKey, RedisKey, KeptBefore;
  }

  /**
   * Nothing written during an outage is lost to it: a value whose write ended in memory, because
   * Redis was down or failed, is read back, also after Redis has come back, unless since then it was
   * overwritten, erased or expired, at least `maxsize` other keys were used, or Redis gives a value.
   * (With encryption on the read raises instead.)
   */
  lemma OutageWritesReadable(c: Codec, s: Cache, w: Op, ops: seq<Op>, p: Place, alt: Option<Place>, env: Env)
    requires Lawful(c) && w.DoWrite? && LandsInMemory(s, w) && Valid(s.fallback)
    requires w.alt.Some? ==> FallbackKey(w.alt.value) != FallbackKey(w.place)
    requires forall i :: 0 <= i < |ops| ==> SparesKey(ops[i], FallbackKey(w.place), EntryOf(c, w))
    requires |AllKeys(ops) - {FallbackKey(w.place)}| < s.fallback.maxsize && env.now - w.env.now <= w.ttl as real
    requires var t := Run(c, ApplyOp(c, s, w), ops);
      && FromRedis(c, t, p, alt, env).None?
      && (p == w.place
          || (alt == Some(w.place) && !Stored(t.fallback.entries, FallbackKey(p), env.now)))
    ensures Read(c, Run(c, ApplyOp(c, s, w), ops), p, alt, env).1
         == if c.cipher.None? then Hit(w.value) else DecodeError
  {
    hide ApplyOp, Lawful, Read, FromRedis, KeptBefore, SparesKey, LandsInMemory;
    var k, e := FallbackKey(w.place), EntryOf(c, w);
    var t := Run(c, ApplyOp(c, s, w), ops);
    MemoryWriteKept(c, s, w);
    MoreOthers(ApplyOp(c, s, w).fallback, k, e, {}, AllKeys(ops) - {k});
    SparedInMemory(c, ApplyOp(c, s, w), ops, k, e, AllKeys(ops) - {k});
    KeptIsThere(t.fallback, k, e, AllKeys(ops) - {k});
    ReadExactly(c, t, p, alt, env);
    DecodesBack(c, w.value, w.nonce);
  }

  lemma MoreOthers(s: Lru, k: string, e: Entry, others: set<string>, more: set<string>)
    requires KeptBefore(s, k, e, others) && others <= more
    ensures KeptBefore(s, k, e, more)
  {}

  lemma KeptIsThere(s: Lru, k: string, e: Entry, others: set<string>)
    requires KeptBefore(s, k, e, others)
    ensures k in s.entries && s.entries[k] == e
  {}

  // ----- without Redis -----

  /** What the map holds for a place, unless it has expired by `now`, memory holds too, and nothing else. */
  ghost predicate HeldInMemory(c: Codec, l: Lru, a: map<Place, Kept>, p: Place, now: real) {
    var k := FallbackKey(p);
    && (k in l.entries ==>
          && p in a && l.entries[k].at == a[p].at && l.entries[k].ttl == a[p].ttl
          && c.loads(l.entries[k].value) == if c.cipher.None? then Some(a[p].value) else None)
    && (Live(a, p, now) ==> k in l.entries)
  }

  ghost predicate MemoryMirrors(c: Codec, tenants: set<string>, l: Lru, a: map<Place, Kept>, keys: set<string>,
                                now: real)
  {
    && Valid(l) && l.entries.Keys <= keys && |keys| <= l.maxsize
    && forall p :: Sane(tenants, p) ==> HeldInMemory(c, l, a, p, now)
  }

  /** Within the size bound nothing is evicted. */
  lemma NothingEvicted(l: Lru, k: string, e: Entry, keys: set<string>)
    requires Valid(l) && l.entries.Keys <= keys && k in keys && |keys| <= l.maxsize
    ensures Store(l, k, e) == Put(l, k, e) && Valid(Store(l, k, e))
  {
    SetValid(l, k, e);
    PutProper(l, k, e);
    var p := Put(l, k, e);
    DistinctCard(p.order);
    var stored := set y | y in p.order;
    CardMonotone(stored, keys);
  }

  lemma LookupMirrors(c: Codec, tenants: set<string>, l: Lru, a: map<Place, Kept>, keys: set<string>, now: real,
                      k: string, t: real)
    requires MemoryMirrors(c, tenants, l, a, keys, now) && now <= t
    ensures MemoryMirrors(c, tenants, Lookup(l, k, t).0, a, keys, t)
  {
    if k in l.entries {
      RemoveProper(l, k);
      MoveToEndProper(l, k);
    }
    hide Sane, Without;
    forall p | Sane(tenants, p) ensures HeldInMemory(c, Lookup(l, k, t).0, a, p, t) {
      assert HeldInMemory(c, l, a, p, now);
    }
  }

  lemma DropMirrors(c: Codec, tenants: set<string>, l: Lru, a: map<Place, Kept>, keys: set<string>, now: real, q: Place)
    requires MemoryMirrors(c, tenants, l, a, keys, now) && Sane(tenants, q)
    ensures MemoryMirrors(c, tenants, Drop(l, FallbackKey(q)), a - {q}, keys, now)
  {
    RemoveProper(l, FallbackKey(q));
    forall p | Sane(tenants, p) ensures HeldInMemory(c, Drop(l, FallbackKey(q)), a - {q}, p, now) {
      assert HeldInMemory(c, l, a, p, now);
      SaneKeysInjective(tenants, p, q);
    }
    hide Sane, FallbackKey, Without;
  }

  lemma StoreMirrors(c: Codec, tenants: set<string>, l: Lru, a: map<Place, Kept>, keys: set<string>, now: real, w: Op)
    requires Lawful(c) && MemoryMirrors(c, tenants, l, a, keys, now)
    requires w.DoWrite? && now <= w.env.now && Sane(tenants, w.place) && FallbackKey(w.place) in keys
    ensures MemoryMirrors(c, tenants, Store(l, FallbackKey(w.place), EntryOf(c, w)),
                          a[w.place := Kept(w.value, w.env.now, w.ttl)], keys, w.env.now)
  {
    var k, e, a' := FallbackKey(w.place), EntryOf(c, w), a[w.place := Kept(w.value, w.env.now, w.ttl)];
    NothingEvicted(l, k, e, keys);
    DecodesBack(c, w.value, w.nonce);
    forall p | Sane(tenants, p) ensures HeldInMemory(c, Put(l, k, e), a', p, w.env.now) {
      assert HeldInMemory(c, l, a, p, now);
      SaneKeysInjective(tenants, p, w.place);
    }
    hide Sane, FallbackKey, Without, Store, Encode, Lawful;
  }

  /** Time passing changes nothing that is still alive. */
  lemma LaterMirrors(c: Codec, tenants: set<string>, l: Lru, a: map<Place, Kept>, keys: set<string>, now: real, t: real)
    requires MemoryMirrors(c, tenants, l, a, keys, now) && now <= t
    ensures MemoryMirrors(c, tenants, l, a, keys, t)
  {
    hide Sane, FallbackKey;
  }

  lemma OpMirrors(c: Codec, tenants: set<string>, s: Cache, a: map<Place, Kept>, keys: set<string>, now: real, op: Op)
    requires Lawful(c) && !s.hasClient && MemoryMirrors(c, tenants, s.fallback, a, keys, now)
    requires SaneOp(tenants, op) && KeysOf(op) <= keys && now <= op.env.now
    ensures MemoryMirrors(c, tenants, ApplyOp(c, s, op).fallback, SpecApply(a, op), keys, op.env.now)
    ensures !ApplyOp(c, s, op).hasClient
  {
    hide Sane, FallbackKey, MemoryMirrors, Lookup, Store, Drop, Encode, Lawful, RedisRead, Decrypt;
    var l, t := s.fallback, op.env.now;
    match op {
      case DoRead(p, alt, env) =>
        LookupMirrors(c, tenants, l, a, keys, now, FallbackKey(p), t);
        if alt.Some? {
          LookupMirrors(c, tenants, Lookup(l, FallbackKey(p), t).0, a, keys, t, FallbackKey(alt.value), t);
        }
      case DoWrite(p, alt, v, ttl, nonce, env) =>
        StoreMirrors(c, tenants, l, a, keys, now, op);
        if alt.Some? {
          DropMirrors(c, tenants, Store(l, FallbackKey(p), EntryOf(c, op)), a[p := Kept(v, t, ttl)], keys, t,
                      alt.value);
        } else {
          assert a[p := Kept(v, t, ttl)] - {} == a[p := Kept(v, t, ttl)];
        }
      case DoErase(p, alt, env) =>
        LaterMirrors(c, tenants, l, a, keys, now, t);
        DropMirrors(c, tenants, l, a, keys, t, p);
        if alt.Some? {
          DropMirrors(c, tenants, Drop(l, FallbackKey(p)), a - {p}, keys, t, alt.value);
        } else {
          assert a - {p} - {} == a - {p};
        }
    }
  }

  ghost predicate TimesAscend(ops: seq<Op>) {
    forall i, j :: 0 <= i <= j < |ops| ==> ops[i].env.now <= ops[j].env.now
  }

  lemma {:induction false} RunMemoryMirrors(c: Codec, tenants: set<string>, s: Cache, ops: seq<Op>, keys: set<string>,
                                            now: real)
    requires Lawful(c) && !s.hasClient && MemoryMirrors(c, tenants, s.fallback, map[], keys, now)
    requires AllSane(tenants, ops) && AllKeys(ops) <= keys && TimesAscend(ops) && (ops != [] ==> now <= ops[0].env.now)
    ensures var t := if ops == [] then now else ops[|ops| - 1].env.now;
      MemoryMirrors(c, tenants, Run(c, s, ops).fallback, SpecRun(map[], ops), keys, t)
    ensures !Run(c, s, ops).hasClient
    decreases |ops|
  {
    hide Sane, MemoryMirrors, ApplyOp, SpecApply, Lawful;
    if ops != [] {
      var before, op := ops[..|ops| - 1], ops[|ops| - 1];
      assert AllKeys(before) <= AllKeys(ops) && SaneOp(tenants, op);
      forall x | x in KeysOf(op) ensures x in AllKeys(ops) {
        assert x in KeysOf(ops[|ops| - 1]);
      }
      RunMemoryMirrors(c, tenants, s, before, keys, now);
      OpMirrors(c, tenants, Run(c, s, before), SpecRun(map[], before), keys,
                if before == [] then now else before[|before| - 1].env.now, op);
    }
  }

  /** What a read gives where the map would give a value: with encryption on, decoding raises. */
  function Unencrypted(c: Codec, r: Reply): Reply {
    if r.Hit? && c.cipher.Some? then DecodeError else r
  }

  /**
   * Without Redis, too, the cache is one map with a time-to-live per place and a legacy fallback, as
   * long as no more than `maxsize` keys are in use: every read replies as that map does.
   */
  lemma MemoryCacheIsOneMap(c: Codec, tenants: set<string>, ops: seq<Op>, redisOk: bool, maxsize: nat,
                            p: Place, alt: Option<Place>, env: Env)
    requires Lawful(c) && AllSane(tenants, ops) && TimesAscend(ops) && |AllKeys(ops)| <= maxsize
    requires Sane(tenants, p) && (alt.Some? ==> Sane(tenants, alt.value))
    requires ops != [] ==> ops[|ops| - 1].env.now <= env.now
    ensures Read(c, Run(c, Empty(false, redisOk, maxsize), ops), p, alt, env).1
         == Unencrypted(c, SpecRead(SpecRun(map[], ops), p, alt, env.now))
  {
    hide Read, Sane, ApplyOp, SpecApply, Lawful, AllSane;
    var s, a := Run(c, Empty(false, redisOk, maxsize), ops), SpecRun(map[], ops);
    var start := if ops == [] then env.now else ops[0].env.now;
    EmptyMirrors(c, tenants, maxsize, AllKeys(ops), start);
    RunMemoryMirrors(c, tenants, Empty(false, redisOk, maxsize), ops, AllKeys(ops), start);
    LaterMirrors(c, tenants, s.fallback, a, AllKeys(ops), if ops == [] then start else ops[|ops| - 1].env.now, env.now);
    ReadExactly(c, s, p, alt, env);
    assert FromRedis(c, s, p, alt, env).None?;
    MirroredInMemory(c, tenants, s.fallback, a, AllKeys(ops), p, alt, env.now);
  }

  lemma EmptyMirrors(c: Codec, tenants: set<string>, maxsize: nat, keys: set<string>, now: real)
    requires |keys| <= maxsize
    ensures MemoryMirrors(c, tenants, Empty(false, false, maxsize).fallback, map[], keys, now)
  {}

  lemma MirroredInMemory(c: Codec, tenants: set<string>, l: Lru, a: map<Place, Kept>, keys: set<string>,
                         p: Place, alt: Option<Place>, now: real)
    requires MemoryMirrors(c, tenants, l, a, keys, now) && Sane(tenants, p) && (alt.Some? ==> Sane(tenants, alt.value))
    ensures FromMemory(c, l, p, alt, now) == Unencrypted(c, SpecRead(a, p, alt, now))
  {
    hide Sane, FallbackKey;
    assert HeldInMemory(c, l, a, p, now);
    assert alt.Some? ==> HeldInMemory(c, l, a, alt.value, now);
  }

  // ----- the class -----

  class ResponseCache {
    const codec: Codec
    const defaultTtl: int
    const fallback: MemoryLRU
    var redis: map<string, Entry>
    var hasClient: bool
    var redisOk: bool
    var lastReconnect: real

    function View(): Cache
      reads this, fallback
    {
      Cache(redis, hasClient, redisOk, lastReconnect, fallback.View())
    }

    ghost predicate Ready()
      reads this, fallback
    {
      Valid(fallback.View())
    }

    constructor (codec: Codec, ttl: int, maxsize: nat)
      ensures Ready() && fresh(fallback) && this.codec == codec && this.defaultTtl == ttl
      ensures View() == Empty(false, false, maxsize)
    {
      this.codec, this.defaultTtl := codec, ttl;
      fallback := new MemoryLRU(maxsize, ttl);
      redis, hasClient, redisOk, lastReconnect := map[], false, false, 0.0;
    }

    /** The client may fail to be created, or be created and not answer its first ping. */
    method Connect(created: bool, ping: bool)
      requires Ready()
      modifies this
      ensures Ready() && redisOk == (created && ping) && hasClient == (old(hasClient) || created)
      ensures View() == old(View()).(redisOk := redisOk, hasClient := hasClient)
    {
      if created {
        hasClient := true;
      }
      redisOk := created && ping;
    }

    method TryReconnect(env: Env)
      requires Ready()
      modifies this
      ensures Ready() && View() == Reconnected(old(View()), env)
    {
      if env.now - lastReconnect < RECONNECT_INTERVAL {
        return;
      }
      lastReconnect := env.now;
      if hasClient && env.ping {
        redisOk := true;
      }
    }

    method Get(key: string, env: Env) returns (reply: Reply)
      requires Ready()
      modifies this, fallback
      ensures Ready() && (View(), reply) == Read(codec, old(View()), Legacy(key), None, env)
    {
      hide Lookup, Decrypt;
      if !redisOk && hasClient {
        TryReconnect(env);
      }
      if redisOk && hasClient {
        if env.first == Fine {
          var raw := RedisGet(redis, RedisKey(Legacy(key)), env.now);
          if raw.Some? {
            var decoded := codec.loads(Decrypt(codec, raw.value));
            if decoded.Some? {
              return Hit(decoded.value);
            }
            redisOk := false;
          }
        } else {
          redisOk := false;
        }
      }
      var raw := fallback.Get(key, env.now);
      reply := Decoded(raw);
    }

    method Decoded(raw: Option<Bytes>) returns (reply: Reply)
      ensures reply == if raw.None? then Miss
                       else if codec.loads(raw.value).Some? then Hit(codec.loads(raw.value).value) else DecodeError
    {
      if raw.None? {
        return Miss;
      }
      match codec.loads(raw.value) {
        case Some(v) => return Hit(v);
        case None => return DecodeError;
      }
    }

    method GetTenanted(tenant: string, key: string, env: Env) returns (reply: Reply)
      requires Ready()
      modifies this, fallback
      ensures Ready() && (View(), reply) == Read(codec, old(View()), Tenanted(tenant, key), Some(Legacy(key)), env)
    {
      hide Lookup, Decrypt, ReadFallback;
      if !redisOk && hasClient {
        TryReconnect(env);
      }
      if redisOk && hasClient {
        if env.first == Fine {
          var raised := false;
          var raw := RedisGet(redis, RedisKey(Tenanted(tenant, key)), env.now);
          if raw.None? {
            if env.second == Fine {
              raw := RedisGet(redis, RedisKey(Legacy(key)), env.now);
            } else {
              raised := true;
            }
          }
          if !raised && raw.Some? {
            var decoded := codec.loads(Decrypt(codec, raw.value));
            if decoded.Some? {
              return Hit(decoded.value);
            }
            raised := true;
          }
          if raised {
            redisOk := false;
          }
        } else {
          redisOk := false;
        }
      }
      reply := GetTenantedInMemory(tenant, key, env.now);
    }

    /** The in-memory half of a tenanted read: the tenant's key, then the plain one. */
    method GetTenantedInMemory(tenant: string, key: string, now: real) returns (reply: Reply)
      requires Ready()
      modifies fallback
      ensures Ready()
      ensures (View(), reply) == ReadFallback(codec, old(View()), Tenanted(tenant, key), Some(Legacy(key)), now)
    {
      hide Lookup, Decrypt;
      var raw := fallback.Get(FallbackKey(Tenanted(tenant, key)), now);
      if raw.None? {
        raw := fallback.Get(key, now);
      }
      reply := Decoded(raw);
    }

    method SetWithTtl(key: string, value: string, ttl: int, nonce: nat, env: Env)
      requires Ready()
      modifies this, fallback
      ensures Ready()
      ensures View() == ApplyOp(codec, old(View()), DoWrite(Legacy(key), None, value, ttl, nonce, env))
    {
      hide Store, Encode;
      var encoded := Encode(codec, value, nonce);
      if !redisOk && hasClient {
        TryReconnect(env);
      }
      if redisOk && hasClient {
        var (stored, ok) := RedisSet(redis, RedisKey(Legacy(key)), Entry(encoded, env.now, ttl), env.first);
        redis := stored;
        if ok {
          return;
        }
        redisOk := false;
      }
      fallback.Set(key, encoded, env.now, Some(ttl));
    }

    method SetTenantedWithTtl(tenant: string, key: string, value: string, ttl: int, nonce: nat, env: Env)
      requires Ready()
      modifies this, fallback
      ensures Ready()
      ensures View() == ApplyOp(codec, old(View()),
                              DoWrite(Tenanted(tenant, key), Some(Legacy(key)), value, ttl, nonce, env))
    {
      hide Store, Encode, Drop;
      var encoded := Encode(codec, value, nonce);
      if !redisOk && hasClient {
        TryReconnect(env);
      }
      if redisOk && hasClient {
        var (stored, ok) := RedisSet(redis, RedisKey(Tenanted(tenant, key)), Entry(encoded, env.now, ttl), env.first);
        redis := stored;
        if ok {
          redis := RedisDelete(redis, {RedisKey(Legacy(key))}, env.second);
          return;
        }
        redisOk := false;
      }
      fallback.Set(FallbackKey(Tenanted(tenant, key)), encoded, env.now, Some(ttl));
      fallback.Delete(key);
    }

    method Delete(key: string, env: Env)
      requires Ready()
      modifies this, fallback
      ensures Ready() && View() == ApplyOp(codec, old(View()), DoErase(Legacy(key), None, env))
    {
      hide Drop;
      if redisOk && hasClient {
        redis := RedisDelete(redis, {RedisKey(Legacy(key))}, env.first);
      }
      fallback.Delete(key);
      assert {RedisKey(Legacy(key))} + {} == {RedisKey(Legacy(key))};
    }

    method DeleteTenanted(tenant: string, key: string, env: Env)
      requires Ready()
      modifies this, fallback
      ensures Ready() && View() == ApplyOp(codec, old(View()), DoErase(Tenanted(tenant, key), Some(Legacy(key)), env))
    {
      hide Drop;
      var tenanted := Tenanted(tenant, key);
      if redisOk && hasClient {
        redis := RedisDelete(redis, {RedisKey(tenanted), RedisKey(Legacy(key))}, env.first);
      }
      fallback.Delete(FallbackKey(tenanted));
      fallback.Delete(key);
      assert {RedisKey(tenanted)} + {RedisKey(Legacy(key))} == {RedisKey(tenanted), RedisKey(Legacy(key))};
    }
  }
}
