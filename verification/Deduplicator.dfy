/**
 * Entity resolution: extracted entities are merged into a persistent index by type and normalised
 * name, and relationships are resolved against the batch and then the whole index.
 */
module Deduplicators {
  import opened Extraction
  import opened Reals
  import opened Wrappers

  /** A UUID is fresh by construction: the n-th one drawn.  Ids read from the graph are strings. */
  datatype Id = Loaded(s: string) | Uuid(n: nat)

  datatype Stored = Stored(id: Id, props: Props, confidence: real)

  /** Nested dicts: `types` lists the outer keys in insertion order. */
  datatype Index = Index(types: seq<string>, byType: map<string, map<string, Stored>>)

  datatype GraphEntity = GraphEntity(id: Id, labels: seq<string>, props: Props, score: real)
  datatype GraphRelationship = GraphRelationship(id: Id, rtype: string, source: Id, target: Id, props: Props)

  /** `_normalize`, which further squashes what the extractor's key already lowered and stripped. */
  function Norm(x: Strings, name: string): string {
    x.squash(Key(x, name))
  }

  function At(ix: Index, etype: string, norm: string): Option<Stored> {
    if etype in ix.byType && norm in ix.byType[etype] then Some(ix.byType[etype][norm]) else None
  }

  function Put(ix: Index, etype: string, norm: string, s: Stored): Index {
    if etype in ix.byType then ix.(byType := ix.byType[etype := ix.byType[etype][norm := s]])
    else Index(ix.types + [etype], ix.byType[etype := map[norm := s]])
  }

  /** Extracted properties win for new keys, and for all keys when the extraction is more confident. */
  function MergedProps(s: Stored, e: Entity, uri: string): Props {
    (if e.confidence > s.confidence then s.props + e.props else e.props + s.props)
      ["name" := Text(e.name)]["source_uri" := Text(uri)]
  }

  function Merged(x: Strings, s: Stored, e: Entity, uri: string): Stored {
    Stored(s.id, MergedProps(s, e.(name := x.strip(e.name)), uri), Max(e.confidence, s.confidence))
  }

  function Created(x: Strings, n: nat, e: Entity, uri: string): Stored {
    Stored(Uuid(n),
      map["name" := Text(x.strip(e.name)), "source_uri" := Text(uri), "extraction_confidence" := Number(e.confidence)]
        + e.props,
      e.confidence)
  }

  /** The state of one `deduplicate` call: the index, the UUIDs drawn, and the batch's own names. */
  datatype Batch = Batch(index: Index, issued: nat, nameToId: map<string, Id>, out: seq<GraphEntity>)

  function Resolved(x: Strings, b: Batch, e: Entity, uri: string): Stored {
    var found := At(b.index, e.etype, Norm(x, e.name));
    if found.Some? then Merged(x, found.value, e, uri) else Created(x, b.issued, e, uri)
  }

  function Process(x: Strings, b: Batch, e: Entity, uri: string, threshold: real): Batch {
    if e.confidence < threshold then b
    else
      var norm := Norm(x, e.name);
      var s := Resolved(x, b, e, uri);
      Batch(Put(b.index, e.etype, norm, s),
            if At(b.index, e.etype, norm).Some? then b.issued else b.issued + 1,
            b.nameToId[norm := s.id],
            b.out + [GraphEntity(s.id, [e.etype], s.props, s.confidence)])
  }

  function ProcessAll(x: Strings, b: Batch, es: seq<Entity>, uri: string, threshold: real): Batch {
    if es == [] then b else Process(x, ProcessAll(x, b, es[..|es| - 1], uri, threshold), es[|es| - 1], uri, threshold)
  }

  /** The first type, in insertion order, that knows the name. */
  function LookUpIn(ix: Index, types: seq<string>, norm: string): Option<Id> {
    if types == [] then None
    else if At(ix, types[0], norm).Some? then Some(At(ix, types[0], norm).value.id)
    else LookUpIn(ix, types[1..], norm)
  }

  function Resolve(b: Batch, norm: string): Option<Id> {
    if norm in b.nameToId then Some(b.nameToId[norm]) else LookUpIn(b.index, b.index.types, norm)
  }

  function RelProps(r: Relationship, uri: string): Props {
    map["source_uri" := Text(uri), "extraction_confidence" := Number(r.confidence), "evidence_uri" := Text(uri)]
    + r.props
  }

  /** The relationships both of whose endpoints resolve, in order, with fresh ids. */
  function ResolveAll(x: Strings, b: Batch, rs: seq<Relationship>, uri: string): seq<GraphRelationship> {
    if rs == [] then [] else
    var before, r := ResolveAll(x, b, rs[..|rs| - 1], uri), rs[|rs| - 1];
    var s, t := Resolve(b, Norm(x, r.source)), Resolve(b, Norm(x, r.target));
    if s.None? || t.None? then before
    else before + [GraphRelationship(Uuid(b.issued + |before|), r.rtype, s.value, t.value, RelProps(r, uri))]
  }

  datatype Dedup = Dedup(index: Index, issued: nat)

  function Start(d: Dedup): Batch {
    Batch(d.index, d.issued, map[], [])
  }

  function DedupResult(x: Strings, d: Dedup, r: Extraction, threshold: real)
    : (Dedup, seq<GraphEntity>, seq<GraphRelationship>)
  {
    var b := ProcessAll(x, Start(d), r.entities, r.uri, threshold);
    var rels := ResolveAll(x, b, r.relationships, r.uri);
    (Dedup(b.index, b.issued + |rels|), b.out, rels)
  }

  // ----- loading -----

  function TypeOf(labels: seq<string>): string
    requires labels != []
  {
    if exists i :: 0 <= i < |labels| && labels[i] != "Entity" then FirstOther(labels) else labels[0]
  }

  function FirstOther(labels: seq<string>): string
    requires exists i :: 0 <= i < |labels| && labels[i] != "Entity"
  {
    if labels[0] != "Entity" then labels[0] else
    assert labels == [labels[0]] + labels[1..];
    FirstOther(labels[1..])
  }

  /** An entity's name property; a property that is no text counts as missing. */
  function NameOf(e: GraphEntity): string {
    if "name" in e.props && e.props["name"].Text? then e.props["name"].s else ""
  }

  predicate Loadable(e: GraphEntity) {
    e.labels != [] && NameOf(e) != ""
  }

  function LoadOne(x: Strings, ix: Index, e: GraphEntity): Index {
    if !Loadable(e) then ix
    else Put(ix, TypeOf(e.labels), Norm(x, NameOf(e)), Stored(e.id, e.props, e.score))
  }

  function Load(x: Strings, ix: Index, es: seq<GraphEntity>): Index {
    if es == [] then ix else LoadOne(x, Load(x, ix, es[..|es| - 1]), es[|es| - 1])
  }

  // ----- what every call keeps -----

  /** `types` names the outer keys once each. */
  ghost predicate WellFormed(ix: Index) {
    && (forall t :: t in ix.types <==> t in ix.byType)
    && (forall i, j :: 0 <= i < j < |ix.types| ==> ix.types[i] != ix.types[j])
  }

  /** No id is shared by two (type, normalised name) pairs. */
  ghost predicate Injective(ix: Index) {
    forall t, n, t', n' ::
      At(ix, t, n).Some? && At(ix, t', n').Some? && At(ix, t, n).value.id == At(ix, t', n').value.id
      ==> t == t' && n == n'
  }

  /** Every drawn UUID in the index precedes the next one to be drawn. */
  ghost predicate Fresh(ix: Index, issued: nat) {
    forall t, n :: At(ix, t, n).Some? && At(ix, t, n).value.id.Uuid? ==> At(ix, t, n).value.id.n < issued
  }

  ghost predicate Sound(ix: Index, issued: nat) {
    WellFormed(ix) && Injective(ix) && Fresh(ix, issued)
  }

  /** `s'` is a later state of `s`: same id, confidence not lower, no property lost. */
  ghost predicate Grown(s: Stored, s': Stored) {
    s'.id == s.id && s'.confidence >= s.confidence && s.props.Keys <= s'.props.Keys
  }

  /** Nothing indexed is lost, renamed or made less confident. */
  ghost predicate Extends(ix: Index, ix': Index) {
    forall t, n :: At(ix, t, n).Some? ==> At(ix', t, n).Some? && Grown(At(ix, t, n).value, At(ix', t, n).value)
  }

  lemma PutAt(ix: Index, etype: string, norm: string, s: Stored, t: string, n: string)
    ensures At(Put(ix, etype, norm, s), t, n) == if t == etype && n == norm then Some(s) else At(ix, t, n)
  {}

  lemma ExtendsTransitive(a: Index, b: Index, c: Index)
    requires Extends(a, b) && Extends(b, c)
    ensures Extends(a, c)
  {}

  lemma PutWellFormed(ix: Index, etype: string, norm: string, s: Stored)
    requires WellFormed(ix)
    ensures WellFormed(Put(ix, etype, norm, s))
  {}

  /** One extracted entity keeps the index sound and only grows it; afterwards its own key is there. */
  lemma ProcessKeeps(x: Strings, b: Batch, e: Entity, uri: string, threshold: real)
    requires Sound(b.index, b.issued)
    ensures var b' := Process(x, b, e, uri, threshold);
      && Sound(b'.index, b'.issued) && Extends(b.index, b'.index) && b.issued <= b'.issued
  {
    hide At, Resolved, Put, Norm, WellFormed, Injective, Fresh, Extends;
    if e.confidence >= threshold {
      var norm, s := Norm(x, e.name), Resolved(x, b, e, uri);
      ResolvedFits(x, b, e, uri);
      PutWellFormed(b.index, e.etype, norm, s);
      PutKeeps(b.index, b.issued, e.etype, norm, s);
    } else {
      ExtendsReflexive(b.index);
    }
  }

  /** An entry grown from the one in its place, or made under the next id, fits the index. */
  ghost predicate Fits(ix: Index, issued: nat, etype: string, norm: string, s: Stored) {
    var found := At(ix, etype, norm);
    if found.Some? then Grown(found.value, s) else s.id == Uuid(issued)
  }

  lemma ResolvedFits(x: Strings, b: Batch, e: Entity, uri: string)
    ensures Fits(b.index, b.issued, e.etype, Norm(x, e.name), Resolved(x, b, e, uri))
  {
    hide At, Norm;
  }

  lemma PutKeeps(ix: Index, issued: nat, etype: string, norm: string, s: Stored)
    requires Injective(ix) && Fresh(ix, issued) && Fits(ix, issued, etype, norm, s)
    ensures var ix', issued' := Put(ix, etype, norm, s), if At(ix, etype, norm).Some? then issued else issued + 1;
      Injective(ix') && Fresh(ix', issued') && Extends(ix, ix')
  {
    hide At, Put;
    var ix' := Put(ix, etype, norm, s);
    forall t, n ensures At(ix', t, n) == if t == etype && n == norm then Some(s) else At(ix, t, n) {
      PutAt(ix, etype, norm, s, t, n);
    }
    if At(ix, etype, norm).None? {
      assert forall t, n :: At(ix, t, n).Some? ==> At(ix, t, n).value.id != s.id;
    }
  }

  /** The batch's own names point at indexed entities of that normalised name. */
  ghost predicate NamesIndexed(b: Batch) {
    forall n :: n in b.nameToId ==> Known(b.index, n, b.nameToId[n])
  }

  /** Some type indexes `norm` under this id. */
  ghost predicate Known(ix: Index, norm: string, id: Id) {
    exists t :: At(ix, t, norm).Some? && At(ix, t, norm).value.id == id
  }

  lemma KnownGrows(ix: Index, ix': Index, norm: string, id: Id)
    requires Extends(ix, ix') && Known(ix, norm, id)
    ensures Known(ix', norm, id)
  {}

  lemma ProcessKeepsNames(x: Strings, b: Batch, e: Entity, uri: string, threshold: real)
    requires Sound(b.index, b.issued) && NamesIndexed(b)
    ensures NamesIndexed(Process(x, b, e, uri, threshold))
    ensures e.confidence >= threshold ==> Norm(x, e.name) in Process(x, b, e, uri, threshold).nameToId
    ensures b.nameToId.Keys <= Process(x, b, e, uri, threshold).nameToId.Keys
  {
    var b' := Process(x, b, e, uri, threshold);
    ProcessKeeps(x, b, e, uri, threshold);
    if e.confidence >= threshold {
      var norm, s := Norm(x, e.name), Resolved(x, b, e, uri);
      PutAt(b.index, e.etype, norm, s, e.etype, norm);
      forall n | n in b'.nameToId ensures Known(b'.index, n, b'.nameToId[n]) {
        if n == norm {
          assert At(b'.index, e.etype, norm).value.id == s.id;
        } else {
          KnownGrows(b.index, b'.index, n, b.nameToId[n]);
        }
      }
    }
  }

  lemma {:induction false} ProcessAllKeeps(x: Strings, b: Batch, es: seq<Entity>, uri: string, threshold: real)
    requires Sound(b.index, b.issued) && NamesIndexed(b)
    ensures var b' := ProcessAll(x, b, es, uri, threshold);
      && Sound(b'.index, b'.issued) && NamesIndexed(b') && Extends(b.index, b'.index) && b.issued <= b'.issued
      && (forall i :: 0 <= i < |es| && es[i].confidence >= threshold ==> Norm(x, es[i].name) in b'.nameToId)
  {
    hide Sound, NamesIndexed, Extends, Process, Norm;
    if es == [] {
      ExtendsReflexive(b.index);
    } else {
      var last := |es| - 1;
      var m := ProcessAll(x, b, es[..last], uri, threshold);
      ProcessAllKeeps(x, b, es[..last], uri, threshold);
      ProcessKeeps(x, m, es[last], uri, threshold);
      ProcessKeepsNames(x, m, es[last], uri, threshold);
      ExtendsTransitive(b.index, m.index, Process(x, m, es[last], uri, threshold).index);
      forall i | 0 <= i < |es| && es[i].confidence >= threshold
        ensures Norm(x, es[i].name) in ProcessAll(x, b, es, uri, threshold).nameToId
      {
        if i < last {
          assert es[..last][i] == es[i];
        }
      }
    }
  }

  function Confident(es: seq<Entity>, threshold: real): seq<Entity> {
    if es == [] then [] else
    var before, e := Confident(es[..|es| - 1], threshold), es[|es| - 1];
    if e.confidence < threshold then before else before + [e]
  }

  /** An entity is emitted for `e`: its type, the id indexed under its name, and a score between the
      extracted confidence and the stored one. */
  ghost predicate EmittedAs(x: Strings, ix: Index, g: GraphEntity, e: Entity) {
    var found := At(ix, e.etype, Norm(x, e.name));
    g.labels == [e.etype] && found.Some? && found.value.id == g.id && e.confidence <= g.score <= found.value.confidence
  }

  lemma EmittedAsStays(x: Strings, ix: Index, ix': Index, g: GraphEntity, e: Entity)
    requires Extends(ix, ix') && EmittedAs(x, ix, g, e)
    ensures EmittedAs(x, ix', g, e)
  {}

  lemma ProcessEmits(x: Strings, b: Batch, e: Entity, uri: string, threshold: real)
    requires e.confidence >= threshold
    ensures var b' := Process(x, b, e, uri, threshold);
      |b'.out| == |b.out| + 1 && b'.out[..|b.out|] == b.out && EmittedAs(x, b'.index, b'.out[|b.out|], e)
  {}

  /** Exactly the entities extracted with enough confidence are emitted, each once and in order. */
  lemma {:induction false} EntitiesEmitted(x: Strings, d: Dedup, es: seq<Entity>, uri: string, threshold: real)
    requires SoundDedup(d)
    ensures var b := ProcessAll(x, Start(d), es, uri, threshold);
      var wanted := Confident(es, threshold);
      && Sound(b.index, b.issued)
      && |b.out| == |wanted| && forall k :: 0 <= k < |wanted| ==> EmittedAs(x, b.index, b.out[k], wanted[k])
    decreases |es|
  {
    hide Norm, EmittedAs, Sound, Extends;
    if es != [] {
      var e := es[|es| - 1];
      var b := ProcessAll(x, Start(d), es[..|es| - 1], uri, threshold);
      var b' := Process(x, b, e, uri, threshold);
      EntitiesEmitted(x, d, es[..|es| - 1], uri, threshold);
      if e.confidence >= threshold {
        var wanted := Confident(es[..|es| - 1], threshold);
        ProcessKeeps(x, b, e, uri, threshold);
        ProcessEmits(x, b, e, uri, threshold);
        forall k | 0 <= k < |wanted| ensures EmittedAs(x, b'.index, b'.out[k], wanted[k]) {
          assert b'.out[k] == b'.out[..|b.out|][k];
          EmittedAsStays(x, b.index, b'.index, b'.out[k], wanted[k]);
        }
      }
    }
  }

  lemma ExtendsReflexive(ix: Index)
    ensures Extends(ix, ix)
  {}

  lemma {:induction false} LookUpInSpec(ix: Index, types: seq<string>, norm: string)
    ensures var r := LookUpIn(ix, types, norm);
      && (r.Some? ==> Known(ix, norm, r.value))
      && (r.None? <==> forall t :: t in types ==> At(ix, t, norm).None?)
  {
    if types != [] {
      assert types == [types[0]] + types[1..];
      LookUpInSpec(ix, types[1..], norm);
    }
  }

  /** A name is indexed under some type. */
  ghost predicate Indexed(ix: Index, norm: string) {
    exists t :: At(ix, t, norm).Some?
  }

  /** A name resolves exactly when it is indexed, and then to an id indexed under it. */
  lemma ResolveExactly(b: Batch, norm: string)
    requires WellFormed(b.index) && NamesIndexed(b)
    ensures Resolve(b, norm).Some? <==> Indexed(b.index, norm)
    ensures Resolve(b, norm).Some? ==> Known(b.index, norm, Resolve(b, norm).value)
  {
    LookUpInSpec(b.index, b.index.types, norm);
    if norm in b.nameToId {
      assert Known(b.index, norm, b.nameToId[norm]);
    } else if Indexed(b.index, norm) {
      var t :| At(b.index, t, norm).Some?;
      assert t in b.index.byType;
    }
  }

  /** A relationship is emitted for `r`: its type, and endpoints indexed under its normalised names. */
  ghost predicate EmittedFor(x: Strings, ix: Index, g: GraphRelationship, r: Relationship) {
    g.rtype == r.rtype && Known(ix, Norm(x, r.source), g.source) && Known(ix, Norm(x, r.target), g.target)
  }

  ghost predicate EmittedIn(x: Strings, ix: Index, gs: seq<GraphRelationship>, r: Relationship) {
    exists k :: 0 <= k < |gs| && EmittedFor(x, ix, gs[k], r)
  }

  /** Both endpoints are indexed. */
  ghost predicate Linked(x: Strings, ix: Index, r: Relationship) {
    Indexed(ix, Norm(x, r.source)) && Indexed(ix, Norm(x, r.target))
  }

  ghost function LinkedOnly(x: Strings, ix: Index, rs: seq<Relationship>): seq<Relationship> {
    if rs == [] then [] else
    var before, r := LinkedOnly(x, ix, rs[..|rs| - 1]), rs[|rs| - 1];
    if Linked(x, ix, r) then before + [r] else before
  }

  /** The relationships with two indexed endpoints are emitted, each once and in order, and no others. */
  ghost predicate EmitsExactly(x: Strings, ix: Index, gs: seq<GraphRelationship>, rs: seq<Relationship>) {
    var linked := LinkedOnly(x, ix, rs);
    |gs| == |linked| && forall k :: 0 <= k < |gs| ==> EmittedFor(x, ix, gs[k], linked[k])
  }

  lemma {:induction false} ResolveAllSpec(x: Strings, b: Batch, rs: seq<Relationship>, uri: string)
    requires WellFormed(b.index) && NamesIndexed(b)
    ensures EmitsExactly(x, b.index, ResolveAll(x, b, rs, uri), rs)
    decreases |rs|
  {
    hide Resolve, Norm, Known, Indexed, WellFormed, NamesIndexed, RelProps;
    if rs != [] {
      ResolveAllSpec(x, b, rs[..|rs| - 1], uri);
      ResolveExactly(b, Norm(x, rs[|rs| - 1].source));
      ResolveExactly(b, Norm(x, rs[|rs| - 1].target));
    }
  }

  lemma {:induction false} LinkedKept(x: Strings, ix: Index, rs: seq<Relationship>, i: nat)
    requires i < |rs| && Linked(x, ix, rs[i])
    ensures rs[i] in LinkedOnly(x, ix, rs)
    decreases |rs|
  {
    if i < |rs| - 1 {
      LinkedKept(x, ix, rs[..|rs| - 1], i);
    }
  }

  lemma LinkedEmitted(x: Strings, ix: Index, gs: seq<GraphRelationship>, rs: seq<Relationship>, i: nat)
    requires EmitsExactly(x, ix, gs, rs) && i < |rs| && Linked(x, ix, rs[i])
    ensures EmittedIn(x, ix, gs, rs[i])
  {
    LinkedKept(x, ix, rs, i);
    var k :| 0 <= k < |LinkedOnly(x, ix, rs)| && LinkedOnly(x, ix, rs)[k] == rs[i];
    assert EmittedFor(x, ix, gs[k], rs[i]);
  }

  ghost predicate SoundDedup(d: Dedup) {
    Sound(d.index, d.issued)
  }

  /**
   * One call: the index stays sound, only grows, and the emitted relationships are exactly those
   * whose two endpoints are indexed afterwards, each once and in order.
   */
  lemma DeduplicateKeeps(x: Strings, d: Dedup, r: Extraction, threshold: real)
    requires SoundDedup(d)
    ensures var (d', out, rels) := DedupResult(x, d, r, threshold);
      && SoundDedup(d') && Extends(d.index, d'.index)
      && EmitsExactly(x, d'.index, rels, r.relationships)
  {
    hide Extends, EmitsExactly, Process;
    ProcessAllKeeps(x, Start(d), r.entities, r.uri, threshold);
    var b := ProcessAll(x, Start(d), r.entities, r.uri, threshold);
    ResolveAllSpec(x, b, r.relationships, r.uri);
  }

  // ----- over whole runs -----

  datatype Delivery = Delivery(extraction: Extraction, threshold: real)

  function Run(x: Strings, d: Dedup, ds: seq<Delivery>): Dedup {
    if ds == [] then d
    else DedupResult(x, Run(x, d, ds[..|ds| - 1]), ds[|ds| - 1].extraction, ds[|ds| - 1].threshold).0
  }

  /**
   * Identity over whole runs: from a sound index, whatever is delivered, no (type, normalised
   * name) pair ever changes its id, no two pairs ever share one, and no confidence ever falls.
   */
  lemma {:induction false} RunKeepsIdentity(x: Strings, d: Dedup, ds: seq<Delivery>)
    requires SoundDedup(d)
    ensures SoundDedup(Run(x, d, ds)) && Extends(d.index, Run(x, d, ds).index)
  {
    hide Extends, DedupResult, SoundDedup;
    if ds == [] {
      ExtendsReflexive(d.index);
    } else {
      var m, last := Run(x, d, ds[..|ds| - 1]), ds[|ds| - 1];
      RunKeepsIdentity(x, d, ds[..|ds| - 1]);
      DeduplicateKeeps(x, m, last.extraction, last.threshold);
      ExtendsTransitive(d.index, m.index, Run(x, d, ds).index);
    }
  }

  // ----- what is stored is what was heard -----

  /** A confident extraction, and the source it came from. */
  datatype Heard = Heard(entity: Entity, uri: string)

  /** The confident extractions of one delivery that concern this type and normalised name, in order. */
  function Concerning(x: Strings, es: seq<Entity>, uri: string, threshold: real, t: string, n: string): seq<Heard> {
    if es == [] then [] else
    var before, e := Concerning(x, es[..|es| - 1], uri, threshold, t, n), es[|es| - 1];
    if e.confidence >= threshold && e.etype == t && Norm(x, e.name) == n then before + [Heard(e, uri)] else before
  }

  function HeardIn(x: Strings, ds: seq<Delivery>, t: string, n: string): seq<Heard> {
    if ds == [] then [] else
    var r := ds[|ds| - 1].extraction;
    HeardIn(x, ds[..|ds| - 1], t, n) + Concerning(x, r.entities, r.uri, ds[|ds| - 1].threshold, t, n)
  }

  /** The i-th extraction is more confident than what was there and every one before it. */
  ghost predicate Raises(s0: Option<Stored>, hs: seq<Heard>, i: nat)
    requires i < |hs|
  {
    && (s0.Some? ==> hs[i].entity.confidence > s0.value.confidence)
    && forall j :: 0 <= j < i ==> hs[i].entity.confidence > hs[j].entity.confidence
  }

  /** It is the first to bring the key; an entity made from the first one has its confidence as a property. */
  ghost predicate BringsFirst(s0: Option<Stored>, hs: seq<Heard>, i: nat, key: string)
    requires i < |hs|
  {
    && (s0.Some? ==> key !in s0.value.props)
    && (forall j :: 0 <= j < i ==> key !in hs[j].entity.props)
    && (s0.None? && i > 0 ==> key != "extraction_confidence")
  }

  ghost predicate Decides(s0: Option<Stored>, hs: seq<Heard>, i: nat, key: string)
    requires i < |hs|
  {
    key in hs[i].entity.props && (Raises(s0, hs, i) || BringsFirst(s0, hs, i, key))
  }

  /** The value of a property: that of the last extraction that decides it, else what was there. */
  ghost function Settled(s0: Option<Stored>, hs: seq<Heard>, key: string): Option<Value> {
    if hs == [] then
      if s0.Some? && key in s0.value.props then Some(s0.value.props[key]) else None
    else if Decides(s0, hs, |hs| - 1, key) then Some(hs[|hs| - 1].entity.props[key])
    else if s0.None? && |hs| == 1 && key == "extraction_confidence" then Some(Number(hs[0].entity.confidence))
    else Settled(s0, hs[..|hs| - 1], key)
  }

  function Confidence(s0: Option<Stored>, hs: seq<Heard>): real
    requires s0.Some? || hs != []
  {
    if hs == [] then s0.value.confidence
    else if s0.None? && |hs| == 1 then hs[0].entity.confidence
    else Max(hs[|hs| - 1].entity.confidence, Confidence(s0, hs[..|hs| - 1]))
  }

  /** The two properties that every merge refreshes. */
  ghost predicate Named(x: Strings, s0: Option<Stored>, hs: seq<Heard>, s: Stored)
    requires hs != []
  {
    var last := hs[|hs| - 1];
    var made := s0.None? && |hs| == 1;
    && "name" in s.props && "source_uri" in s.props
    && s.props["name"] == (if made && "name" in last.entity.props then last.entity.props["name"]
                           else Text(x.strip(last.entity.name)))
    && s.props["source_uri"] == (if made && "source_uri" in last.entity.props then last.entity.props["source_uri"]
                                 else Text(last.uri))
  }

  /** The entry is what the extractions heard since `s0` make of it. */
  ghost predicate Follows(x: Strings, s0: Option<Stored>, hs: seq<Heard>, s: Option<Stored>) {
    if hs == [] then s == s0
    else
      && s.Some? && (s0.Some? ==> s.value.id == s0.value.id)
      && s.value.confidence == Confidence(s0, hs) && Named(x, s0, hs, s.value)
      && forall key :: key != "name" && key != "source_uri" ==> Keeps(s.value.props, key, Settled(s0, hs, key))
  }

  predicate Keeps(p: Props, key: string, v: Option<Value>) {
    (key in p <==> v.Some?) && (key in p ==> p[key] == v.value)
  }

  lemma {:induction false} ConfidenceTops(s0: Option<Stored>, hs: seq<Heard>, e: Entity)
    requires s0.Some? || hs != []
    ensures e.confidence > Confidence(s0, hs) <==>
              (s0.Some? ==> e.confidence > s0.value.confidence)
              && forall j :: 0 <= j < |hs| ==> e.confidence > hs[j].entity.confidence
    decreases |hs|
  {
    if hs != [] && !(s0.None? && |hs| == 1) {
      ConfidenceTops(s0, hs[..|hs| - 1], e);
    }
  }

  /** What has no value yet was brought by nobody. */
  lemma {:induction false} SettledNone(s0: Option<Stored>, hs: seq<Heard>, key: string)
    ensures Settled(s0, hs, key).None? <==>
              (s0.Some? ==> key !in s0.value.props) && (forall j :: 0 <= j < |hs| ==> key !in hs[j].entity.props)
              && (s0.None? && hs != [] ==> key != "extraction_confidence")
    decreases |hs|
  {
    if hs != [] {
      SettledNone(s0, hs[..|hs| - 1], key);
    }
  }

  lemma MergeFollows(x: Strings, s0: Option<Stored>, hs: seq<Heard>, s: Stored, e: Entity, uri: string)
    requires (s0.Some? || hs != []) && Follows(x, s0, hs, Some(s))
    ensures Follows(x, s0, hs + [Heard(e, uri)], Some(Merged(x, s, e, uri)))
  {
    hide Confidence, Settled;
    var all, s' := hs + [Heard(e, uri)], Merged(x, s, e, uri);
    assert all[..|hs|] == hs && all[|hs|] == Heard(e, uri);
    ConfidenceTops(s0, hs, e);
    ConfidenceNext(s0, hs, Heard(e, uri));
    ConfidenceStored(x, s0, hs, s);
    forall key | key != "name" && key != "source_uri" ensures Keeps(s'.props, key, Settled(s0, all, key)) {
      SettledNone(s0, hs, key);
      SettledNext(s0, hs, Heard(e, uri), key);
      MergedValue(x, s, e, uri, key);
      assert Keeps(s.props, key, Settled(s0, hs, key)) by { KeptAll(x, s0, hs, s, key); }
    }
  }

  lemma ConfidenceStored(x: Strings, s0: Option<Stored>, hs: seq<Heard>, s: Stored)
    requires (s0.Some? || hs != []) && Follows(x, s0, hs, Some(s))
    ensures s.confidence == Confidence(s0, hs)
  {}

  lemma KeptAll(x: Strings, s0: Option<Stored>, hs: seq<Heard>, s: Stored, key: string)
    requires Follows(x, s0, hs, Some(s)) && key != "name" && key != "source_uri"
    ensures Keeps(s.props, key, Settled(s0, hs, key))
  {}

  lemma ConfidenceNext(s0: Option<Stored>, hs: seq<Heard>, h: Heard)
    requires s0.Some? || hs != []
    ensures Confidence(s0, hs + [h]) == Max(h.entity.confidence, Confidence(s0, hs))
  {
    assert (hs + [h])[..|hs|] == hs;
  }

  lemma SettledNext(s0: Option<Stored>, hs: seq<Heard>, h: Heard, key: string)
    requires s0.Some? || hs != []
    ensures Settled(s0, hs + [h], key)
         == if Decides(s0, hs + [h], |hs|, key) then Some(h.entity.props[key]) else Settled(s0, hs, key)
  {
    hide Decides;
    assert (hs + [h])[..|hs|] == hs && (hs + [h])[|hs|] == h;
  }

  /** A conflicting property goes to the more confident side, the stored one if they tie. */
  lemma MergedValue(x: Strings, s: Stored, e: Entity, uri: string, key: string)
    requires key != "name" && key != "source_uri"
    ensures Keeps(Merged(x, s, e, uri).props, key,
                  if key in e.props && (e.confidence > s.confidence || key !in s.props) then Some(e.props[key])
                  else if key in s.props then Some(s.props[key]) else None)
  {}

  lemma CreateFollows(x: Strings, n: nat, e: Entity, uri: string)
    ensures Follows(x, None, [Heard(e, uri)], Some(Created(x, n, e, uri)))
  {
    var hs := [Heard(e, uri)];
    assert hs[..0] == [];
    forall key ensures Settled(None, hs, key)
                    == if key in e.props then Some(e.props[key])
                       else if key == "extraction_confidence" then Some(Number(e.confidence)) else None
    {
      assert Settled(None, hs[..0], key) == None;
    }
  }

  lemma ProcessAt(x: Strings, b: Batch, e: Entity, uri: string, threshold: real, t: string, n: string)
    ensures At(Process(x, b, e, uri, threshold).index, t, n)
         == if e.confidence >= threshold && e.etype == t && Norm(x, e.name) == n then Some(Resolved(x, b, e, uri))
            else At(b.index, t, n)
  {
    PutAt(b.index, e.etype, Norm(x, e.name), Resolved(x, b, e, uri), t, n);
  }

  lemma {:induction false} BatchFollows(x: Strings, b: Batch, es: seq<Entity>, uri: string, threshold: real,
                                        t: string, n: string, s0: Option<Stored>, hs: seq<Heard>)
    requires Follows(x, s0, hs, At(b.index, t, n))
    ensures Follows(x, s0, hs + Concerning(x, es, uri, threshold, t, n),
                    At(ProcessAll(x, b, es, uri, threshold).index, t, n))
    decreases |es|
  {
    hide Follows, Process, Norm, Merged, Created, At;
    if es == [] {
      assert hs + [] == hs;
    } else {
      var e := es[|es| - 1];
      var m := ProcessAll(x, b, es[..|es| - 1], uri, threshold);
      var before := Concerning(x, es[..|es| - 1], uri, threshold, t, n);
      BatchFollows(x, b, es[..|es| - 1], uri, threshold, t, n, s0, hs);
      ProcessAt(x, m, e, uri, threshold, t, n);
      if e.confidence >= threshold && e.etype == t && Norm(x, e.name) == n {
        assert hs + (before + [Heard(e, uri)]) == hs + before + [Heard(e, uri)];
        OneMoreHeard(x, s0, hs + before, At(m.index, t, n), m.issued, e, uri);
      }
    }
  }

  lemma OneMoreHeard(x: Strings, s0: Option<Stored>, hs: seq<Heard>, s: Option<Stored>, issued: nat,
                     e: Entity, uri: string)
    requires Follows(x, s0, hs, s)
    ensures Follows(x, s0, hs + [Heard(e, uri)],
                    Some(if s.Some? then Merged(x, s.value, e, uri) else Created(x, issued, e, uri)))
  {
    hide Merged, Created;
    if s.Some? {
      MergeFollows(x, s0, hs, s.value, e, uri);
    } else {
      assert hs == [] && [] + [Heard(e, uri)] == [Heard(e, uri)];
      CreateFollows(x, issued, e, uri);
    }
  }

  /**
   * Over whole runs, for every type and name: the entry's confidence is the greatest heard, its name
   * and source are the latest, and any other property has the value of the last extraction that had
   * the key and either exceeded every earlier confidence or was the first to bring the key.
   */
  lemma {:induction false} StoredIsHeard(x: Strings, d: Dedup, ds: seq<Delivery>, t: string, n: string)
    ensures Follows(x, At(d.index, t, n), HeardIn(x, ds, t, n), At(Run(x, d, ds).index, t, n))
    decreases |ds|
  {
    hide Follows, At, ResolveAll, ProcessAll;
    if ds == [] {
      NothingHeard(x, At(d.index, t, n));
    } else {
      var last := ds[|ds| - 1];
      var m := Run(x, d, ds[..|ds| - 1]);
      StoredIsHeard(x, d, ds[..|ds| - 1], t, n);
      BatchFollows(x, Start(m), last.extraction.entities, last.extraction.uri, last.threshold, t, n,
                   At(d.index, t, n), HeardIn(x, ds[..|ds| - 1], t, n));
    }
  }

  lemma NothingHeard(x: Strings, s0: Option<Stored>)
    ensures Follows(x, s0, [], s0)
  {}

  // ----- what is emitted -----

  /** The places in the batch of the confident extractions. */
  function ConfidentAt(es: seq<Entity>, threshold: real): (at: seq<nat>)
    ensures forall k :: 0 <= k < |at| ==> at[k] < |es|
  {
    if es == [] then [] else
    var before := ConfidentAt(es[..|es| - 1], threshold);
    if es[|es| - 1].confidence < threshold then before else before + [|es| - 1]
  }

  /** The batch just after its i-th extraction. */
  function BatchAfter(x: Strings, d: Dedup, es: seq<Entity>, uri: string, threshold: real, i: nat): Batch
    requires i < |es|
  {
    ProcessAll(x, Start(d), es[..i + 1], uri, threshold)
  }

  /** Each confident extraction emits its entry as it then stands. */
  lemma {:induction false} EmittedAsStored(x: Strings, d: Dedup, es: seq<Entity>, uri: string, threshold: real)
    ensures var out, at := ProcessAll(x, Start(d), es, uri, threshold).out, ConfidentAt(es, threshold);
      && |out| == |at|
      && forall k :: 0 <= k < |at| ==> EmittedAt(x, d, es, uri, threshold, at[k], out[k])
    decreases |es|
  {
    hide Norm, EmittedAt;
    if es != [] {
      var before, last := es[..|es| - 1], |es| - 1;
      EmittedAsStored(x, d, before, uri, threshold);
      var out, at := ProcessAll(x, Start(d), es, uri, threshold).out, ConfidentAt(es, threshold);
      forall k | 0 <= k < |at| ensures EmittedAt(x, d, es, uri, threshold, at[k], out[k]) {
        if k < |ConfidentAt(before, threshold)| {
          SameBatch(x, d, es, uri, threshold, at[k], out[k]);
        } else {
          LastEmitted(x, d, es, uri, threshold);
        }
      }
    }
  }

  ghost predicate EmittedAt(x: Strings, d: Dedup, es: seq<Entity>, uri: string, threshold: real, i: nat, g: GraphEntity)
    requires i < |es|
  {
    var s := At(BatchAfter(x, d, es, uri, threshold, i).index, es[i].etype, Norm(x, es[i].name));
    s.Some? && g == GraphEntity(s.value.id, [es[i].etype], s.value.props, s.value.confidence)
  }

  lemma SameBatch(x: Strings, d: Dedup, es: seq<Entity>, uri: string, threshold: real, i: nat, g: GraphEntity)
    requires i < |es| - 1 && EmittedAt(x, d, es[..|es| - 1], uri, threshold, i, g)
    ensures EmittedAt(x, d, es, uri, threshold, i, g)
  {
    assert es[..|es| - 1][..i + 1] == es[..i + 1];
  }

  lemma LastEmitted(x: Strings, d: Dedup, es: seq<Entity>, uri: string, threshold: real)
    requires es != [] && es[|es| - 1].confidence >= threshold
    ensures var out := ProcessAll(x, Start(d), es, uri, threshold).out;
      out != [] && EmittedAt(x, d, es, uri, threshold, |es| - 1, out[|out| - 1])
  {
    var e := es[|es| - 1];
    assert es[..|es|] == es;
    ProcessAt(x, ProcessAll(x, Start(d), es[..|es| - 1], uri, threshold), e, uri, threshold, e.etype, Norm(x, e.name));
    hide Resolved, Norm;
  }

  /** The last confident extraction of the batch with this normalised name. */
  function LastNamed(x: Strings, es: seq<Entity>, threshold: real, n: string): Option<Entity> {
    if es == [] then None
    else if es[|es| - 1].confidence >= threshold && Norm(x, es[|es| - 1].name) == n then Some(es[|es| - 1])
    else LastNamed(x, es[..|es| - 1], threshold, n)
  }

  /** A name of the batch stands for the entry of its last confident extraction. */
  lemma {:induction false} NamesAreLast(x: Strings, d: Dedup, es: seq<Entity>, uri: string, threshold: real, n: string)
    requires SoundDedup(d)
    ensures var b, e := ProcessAll(x, Start(d), es, uri, threshold), LastNamed(x, es, threshold, n);
      && (n in b.nameToId <==> e.Some?)
      && (e.Some? ==> At(b.index, e.value.etype, n).Some? && b.nameToId[n] == At(b.index, e.value.etype, n).value.id)
    decreases |es|
  {
    hide Norm, Sound, Extends, NamesIndexed;
    if es != [] {
      var before, e := es[..|es| - 1], es[|es| - 1];
      var m := ProcessAll(x, Start(d), before, uri, threshold);
      NamesAreLast(x, d, before, uri, threshold, n);
      StartSound(d);
      ProcessAllKeeps(x, Start(d), before, uri, threshold);
      ProcessKeeps(x, m, e, uri, threshold);
      ProcessAt(x, m, e, uri, threshold, e.etype, Norm(x, e.name));
      var e' := LastNamed(x, before, threshold, n);
      if e'.Some? {
        StaysIndexed(m.index, Process(x, m, e, uri, threshold).index, e'.value.etype, n);
      }
    }
  }

  lemma StaysIndexed(ix: Index, ix': Index, t: string, n: string)
    requires Extends(ix, ix') && At(ix, t, n).Some?
    ensures At(ix', t, n).Some? && At(ix', t, n).value.id == At(ix, t, n).value.id
  {}

  /** The type, first in the order of the index, that knows the name. */
  ghost predicate FirstKnowing(ix: Index, norm: string, i: int) {
    && 0 <= i < |ix.types| && At(ix, ix.types[i], norm).Some?
    && forall j :: 0 <= j < i ==> At(ix, ix.types[j], norm).None?
  }

  lemma {:induction false} LookUpFirst(ix: Index, types: seq<string>, norm: string, i: nat)
    requires i < |types| && At(ix, types[i], norm).Some? && forall j :: 0 <= j < i ==> At(ix, types[j], norm).None?
    ensures LookUpIn(ix, types, norm) == Some(At(ix, types[i], norm).value.id)
  {
    if i > 0 {
      assert At(ix, types[0], norm).None?;
      LookUpFirst(ix, types[1..], norm, i - 1);
    }
  }

  /** Types keep the order in which they came: each extraction, and each graph entity, leaves those
      there were in front. */
  lemma {:induction false} TypesInOrder(x: Strings, b: Batch, es: seq<Entity>, uri: string, threshold: real, i: nat)
    requires i <= |es|
    ensures ProcessAll(x, b, es[..i], uri, threshold).index.types <= ProcessAll(x, b, es, uri, threshold).index.types
    decreases |es|
  {
    hide Resolved, Norm;
    if i == |es| {
      assert es[..i] == es;
    } else {
      assert es[..|es| - 1][..i] == es[..i];
      TypesInOrder(x, b, es[..|es| - 1], uri, threshold, i);
    }
  }

  lemma {:induction false} LoadedTypesInOrder(x: Strings, ix: Index, es: seq<GraphEntity>, i: nat)
    requires i <= |es|
    ensures Load(x, ix, es[..i]).types <= Load(x, ix, es).types
    decreases |es|
  {
    hide Norm, TypeOf, NameOf;
    if i == |es| {
      assert es[..i] == es;
    } else {
      assert es[..|es| - 1][..i] == es[..i];
      LoadedTypesInOrder(x, ix, es[..|es| - 1], i);
    }
  }

  /** A name of the batch resolves as the batch has it, any other through the first type that knows it. */
  lemma ResolvesInOrder(b: Batch, norm: string, i: int)
    ensures norm in b.nameToId ==> Resolve(b, norm) == Some(b.nameToId[norm])
    ensures norm !in b.nameToId && FirstKnowing(b.index, norm, i) ==>
              Resolve(b, norm) == Some(At(b.index, b.index.types[i], norm).value.id)
  {
    if norm !in b.nameToId && FirstKnowing(b.index, norm, i) {
      LookUpFirst(b.index, b.index.types, norm, i);
    }
  }

  /** Its extracted properties win over the source, the confidence and the evidence it is given. */
  ghost predicate CarriesProps(g: GraphRelationship, r: Relationship, uri: string) {
    && (forall k :: k in r.props ==> k in g.props && g.props[k] == r.props[k])
    && (forall k :: k in g.props ==> k in r.props || k in ["source_uri", "extraction_confidence", "evidence_uri"])
    && (forall k :: k in ["source_uri", "evidence_uri"] && k !in r.props ==> k in g.props && g.props[k] == Text(uri))
    && ("extraction_confidence" in r.props
        || ("extraction_confidence" in g.props && g.props["extraction_confidence"] == Number(r.confidence)))
  }

  lemma PropsCarried(r: Relationship, uri: string, g: GraphRelationship)
    requires g.props == RelProps(r, uri)
    ensures CarriesProps(g, r, uri)
  {
    assert forall k :: k in ["source_uri", "extraction_confidence", "evidence_uri"]
                       <==> k == "source_uri" || k == "extraction_confidence" || k == "evidence_uri";
  }

  /** Which relationships a batch resolves, without looking at what they become. */
  function Resolving(x: Strings, b: Batch, rs: seq<Relationship>): seq<Relationship> {
    if rs == [] then [] else
    var before, r := Resolving(x, b, rs[..|rs| - 1]), rs[|rs| - 1];
    if Resolve(b, Norm(x, r.source)).Some? && Resolve(b, Norm(x, r.target)).Some? then before + [r] else before
  }

  /** Each emitted relationship joins what its two names resolve to, carries its properties, and has an
      id of its own, never drawn before. */
  lemma {:induction false} RelationshipsEmitted(x: Strings, b: Batch, rs: seq<Relationship>, uri: string)
    ensures var gs, from := ResolveAll(x, b, rs, uri), Resolving(x, b, rs);
      && |gs| == |from|
      && forall k :: 0 <= k < |gs| ==>
           && CarriesProps(gs[k], from[k], uri) && gs[k].rtype == from[k].rtype && gs[k].id == Uuid(b.issued + k)
           && Resolve(b, Norm(x, from[k].source)) == Some(gs[k].source)
           && Resolve(b, Norm(x, from[k].target)) == Some(gs[k].target)
    decreases |rs|
  {
    hide Resolve, Norm, RelProps, CarriesProps;
    if rs != [] {
      var r := rs[|rs| - 1];
      RelationshipsEmitted(x, b, rs[..|rs| - 1], uri);
      var gs := ResolveAll(x, b, rs, uri);
      if |gs| > |ResolveAll(x, b, rs[..|rs| - 1], uri)| {
        PropsCarried(r, uri, gs[|gs| - 1]);
      }
    }
  }

  // ----- delivering twice -----

  /** The entity would bring nothing new: its entry is there, as confident, with all its keys. */
  ghost predicate Covered(x: Strings, ix: Index, e: Entity) {
    var found := At(ix, e.etype, Norm(x, e.name));
    found.Some? && found.value.confidence >= e.confidence && e.props.Keys <= found.value.props.Keys
  }

  predicate SameOtherwise(p: Props, q: Props) {
    && p.Keys == q.Keys
    && forall k :: k in p && k != "name" && k != "source_uri" ==> p[k] == q[k]
  }

  /** Equal up to the two properties every merge refreshes. */
  ghost predicate Refreshed(ix: Index, ix': Index) {
    forall t, n ::
      && (At(ix, t, n).Some? <==> At(ix', t, n).Some?)
      && (At(ix, t, n).Some? ==>
            var s, s' := At(ix, t, n).value, At(ix', t, n).value;
            s.id == s'.id && s.confidence == s'.confidence && SameOtherwise(s.props, s'.props))
  }

  lemma CoveredGrows(x: Strings, ix: Index, ix': Index, e: Entity)
    requires Extends(ix, ix') && Covered(x, ix, e)
    ensures Covered(x, ix', e)
  {}

  lemma ProcessCovers(x: Strings, b: Batch, e: Entity, uri: string, threshold: real)
    requires e.confidence >= threshold
    ensures var b' := Process(x, b, e, uri, threshold);
      Covered(x, b'.index, e) && FixedKeysAt(x, b'.index, e)
  {}

  lemma {:induction false} AllCovered(x: Strings, b: Batch, es: seq<Entity>, uri: string, threshold: real)
    requires Sound(b.index, b.issued) && NamesIndexed(b)
    ensures var b' := ProcessAll(x, b, es, uri, threshold);
      forall i :: 0 <= i < |es| && es[i].confidence >= threshold ==>
        Covered(x, b'.index, es[i]) && FixedKeysAt(x, b'.index, es[i])
  {
    hide Sound, NamesIndexed, Extends, Process, Norm, Covered, FixedKeysAt;
    if es != [] {
      var last := |es| - 1;
      var m := ProcessAll(x, b, es[..last], uri, threshold);
      AllCovered(x, b, es[..last], uri, threshold);
      ProcessAllKeeps(x, b, es[..last], uri, threshold);
      ProcessKeeps(x, m, es[last], uri, threshold);
      var b' := Process(x, m, es[last], uri, threshold);
      forall i | 0 <= i < |es| && es[i].confidence >= threshold
        ensures Covered(x, b'.index, es[i]) && FixedKeysAt(x, b'.index, es[i])
      {
        if i < last {
          assert es[..last][i] == es[i];
          CoveredGrows(x, m.index, b'.index, es[i]);
          FixedKeysGrow(x, m.index, b'.index, es[i]);
        } else {
          ProcessCovers(x, m, es[i], uri, threshold);
        }
      }
    }
  }

  ghost predicate FixedKeysAt(x: Strings, ix: Index, e: Entity) {
    var found := At(ix, e.etype, Norm(x, e.name));
    found.Some? && "name" in found.value.props && "source_uri" in found.value.props
  }

  lemma FixedKeysGrow(x: Strings, ix: Index, ix': Index, e: Entity)
    requires Extends(ix, ix') && FixedKeysAt(x, ix, e)
    ensures FixedKeysAt(x, ix', e)
  {}

  lemma RefreshedTransitive(a: Index, b: Index, c: Index)
    requires Refreshed(a, b) && Refreshed(b, c)
    ensures Refreshed(a, c)
  {}

  /** Processing a covered entity refreshes its name and source, and draws no id. */
  lemma CoveredProcess(x: Strings, b: Batch, e: Entity, uri: string, threshold: real)
    requires e.confidence >= threshold ==> Covered(x, b.index, e) && FixedKeysAt(x, b.index, e)
    ensures var b' := Process(x, b, e, uri, threshold);
            Refreshed(b.index, b'.index) && b'.issued == b.issued
  {
    hide Norm;
    if e.confidence >= threshold {
      var norm, s := Norm(x, e.name), Resolved(x, b, e, uri);
      var before := At(b.index, e.etype, norm).value;
      assert s.id == before.id && s.confidence == before.confidence;
      assert SameOtherwise(before.props, s.props);
      forall t, n
        ensures At(Put(b.index, e.etype, norm, s), t, n)
             == if t == e.etype && n == norm then Some(s) else At(b.index, t, n)
      {
        PutAt(b.index, e.etype, norm, s, t, n);
      }
      forall t, n | At(b.index, t, n).Some?
        ensures SameOtherwise(At(b.index, t, n).value.props, At(b.index, t, n).value.props)
      {
        SameReflexive(At(b.index, t, n).value.props);
      }
    } else {
      forall t, n | At(b.index, t, n).Some?
        ensures SameOtherwise(At(b.index, t, n).value.props, At(b.index, t, n).value.props)
      {
        SameReflexive(At(b.index, t, n).value.props);
      }
    }
  }

  lemma SameReflexive(p: Props)
    ensures SameOtherwise(p, p)
  {}

  lemma {:induction false} RefreshAll(x: Strings, b: Batch, es: seq<Entity>, uri: string, threshold: real)
    requires forall i :: 0 <= i < |es| && es[i].confidence >= threshold ==>
               Covered(x, b.index, es[i]) && FixedKeysAt(x, b.index, es[i])
    ensures var b' := ProcessAll(x, b, es, uri, threshold);
            Refreshed(b.index, b'.index) && b'.issued == b.issued
  {
    hide Covered, FixedKeysAt, Process, Refreshed;
    if es == [] {
      RefreshedReflexive(b.index);
    } else {
      var last := |es| - 1;
      RefreshAll(x, b, es[..last], uri, threshold);
      var m := ProcessAll(x, b, es[..last], uri, threshold);
      if es[last].confidence >= threshold {
        CoveredRefreshed(x, b.index, m.index, es[last]);
      }
      CoveredProcess(x, m, es[last], uri, threshold);
      RefreshedTransitive(b.index, m.index, Process(x, m, es[last], uri, threshold).index);
    }
  }

  lemma RefreshedReflexive(ix: Index)
    ensures Refreshed(ix, ix)
  {}

  lemma CoveredRefreshed(x: Strings, ix: Index, ix': Index, e: Entity)
    requires Refreshed(ix, ix') && Covered(x, ix, e) && FixedKeysAt(x, ix, e)
    ensures Covered(x, ix', e) && FixedKeysAt(x, ix', e)
  {}

  /**
   * However much else is delivered in between, delivering the same extraction again, with a threshold
   * not lower than before, creates no entity and changes no stored id, confidence or property, except
   * that the name and source properties are refreshed; the only ids drawn are the relationships'.
   */
  lemma RedeliveryCreatesNothing(x: Strings, d: Dedup, r: Extraction, threshold: real, ds: seq<Delivery>,
                                 threshold': real)
    requires SoundDedup(d) && threshold <= threshold'
    ensures var later := Run(x, DedupResult(x, d, r, threshold).0, ds);
      var (again, _, rels) := DedupResult(x, later, r, threshold');
      Refreshed(later.index, again.index) && again.issued == later.issued + |rels|
  {
    hide Sound, Extends, Covered, FixedKeysAt, Process, Refreshed, ResolveAll, Run, EmitsExactly;
    var once := DedupResult(x, d, r, threshold).0;
    var later := Run(x, once, ds);
    StartSound(d);
    AllCovered(x, Start(d), r.entities, r.uri, threshold);
    DeduplicateKeeps(x, d, r, threshold);
    RunKeepsIdentity(x, once, ds);
    forall i | 0 <= i < |r.entities| && r.entities[i].confidence >= threshold'
      ensures Covered(x, later.index, r.entities[i]) && FixedKeysAt(x, later.index, r.entities[i])
    {
      CoveredGrows(x, once.index, later.index, r.entities[i]);
      FixedKeysGrow(x, once.index, later.index, r.entities[i]);
    }
    RefreshAll(x, Start(later), r.entities, r.uri, threshold');
  }

  lemma StartSound(d: Dedup)
    requires SoundDedup(d)
    ensures NamesIndexed(Start(d)) && Sound(d.index, d.issued)
  {}

  // ----- seeding from the graph -----

  const Nothing := Index([], map[])

  ghost predicate DistinctIds(es: seq<GraphEntity>) {
    && (forall i, j :: 0 <= i < j < |es| ==> es[i].id != es[j].id)
    && (forall i :: 0 <= i < |es| ==> es[i].id.Loaded?)
  }

  /** The entry at (t, n) came from a graph entity of that type and name. */
  ghost predicate FromGraph(x: Strings, es: seq<GraphEntity>, t: string, n: string, s: Stored) {
    exists i :: 0 <= i < |es| && Loadable(es[i]) && es[i].id == s.id
                && TypeOf(es[i].labels) == t && Norm(x, NameOf(es[i])) == n
  }

  lemma {:induction false} LoadFromGraph(x: Strings, es: seq<GraphEntity>)
    ensures var ix := Load(x, Nothing, es);
      && WellFormed(ix)
      && (forall t, n :: At(ix, t, n).Some? ==> FromGraph(x, es, t, n, At(ix, t, n).value))
      && (forall i :: 0 <= i < |es| && Loadable(es[i]) ==> At(ix, TypeOf(es[i].labels), Norm(x, NameOf(es[i]))).Some?)
  {
    if es != [] {
      var last := |es| - 1;
      var e, before := es[last], Load(x, Nothing, es[..last]);
      LoadFromGraph(x, es[..last]);
      var ix := Load(x, Nothing, es);
      if Loadable(e) {
        var s := Stored(e.id, e.props, e.score);
        PutWellFormed(before, TypeOf(e.labels), Norm(x, NameOf(e)), s);
        forall t, n
          ensures At(ix, t, n) == if t == TypeOf(e.labels) && n == Norm(x, NameOf(e)) then Some(s) else At(before, t, n)
        {
          PutAt(before, TypeOf(e.labels), Norm(x, NameOf(e)), s, t, n);
        }
      }
      hide At, Norm, TypeOf, NameOf, WellFormed;
      forall t, n | At(ix, t, n).Some? ensures FromGraph(x, es, t, n, At(ix, t, n).value) {
        if At(ix, t, n) == At(before, t, n) {
          FromGraphGrows(x, es, t, n, At(ix, t, n).value);
        }
      }
      forall i | 0 <= i < |es| && Loadable(es[i]) ensures At(ix, TypeOf(es[i].labels), Norm(x, NameOf(es[i]))).Some? {
        if i < last {
          assert es[..last][i] == es[i];
        }
      }
    }
  }

  lemma FromGraphGrows(x: Strings, es: seq<GraphEntity>, t: string, n: string, s: Stored)
    requires es != [] && FromGraph(x, es[..|es| - 1], t, n, s)
    ensures FromGraph(x, es, t, n, s)
  {}

  /** Loading a graph whose entity ids are distinct gives a sound index that knows every named entity. */
  lemma LoadedIndexSound(x: Strings, es: seq<GraphEntity>)
    requires DistinctIds(es)
    ensures SoundDedup(Dedup(Load(x, Nothing, es), 0))
    ensures forall i :: 0 <= i < |es| && Loadable(es[i]) ==> Indexed(Load(x, Nothing, es), Norm(x, NameOf(es[i])))
  {
    var ix := Load(x, Nothing, es);
    LoadFromGraph(x, es);
    hide At, Norm, TypeOf, NameOf, Load;
    forall t, n, t', n' | At(ix, t, n).Some? && At(ix, t', n').Some? && At(ix, t, n).value.id == At(ix, t', n').value.id
      ensures t == t' && n == n'
    {
      assert FromGraph(x, es, t, n, At(ix, t, n).value) && FromGraph(x, es, t', n', At(ix, t', n').value);
    }
    forall t, n | At(ix, t, n).Some? ensures At(ix, t, n).value.id.Loaded? {
      assert FromGraph(x, es, t, n, At(ix, t, n).value);
    }
  }

  /** The type is the first label other than the generic one, or the first label if there is no other. */
  ghost predicate TypedBy(labels: seq<string>, t: string) {
    || (exists i :: 0 <= i < |labels| && labels[i] == t && t != "Entity"
                    && forall j :: 0 <= j < i ==> labels[j] == "Entity")
    || (labels != [] && t == labels[0] && forall j :: 0 <= j < |labels| ==> labels[j] == "Entity")
  }

  lemma {:induction false} FirstOtherSpec(labels: seq<string>)
    requires exists i :: 0 <= i < |labels| && labels[i] != "Entity"
    ensures var t := FirstOther(labels);
      exists i :: 0 <= i < |labels| && labels[i] == t && t != "Entity"
                  && forall j :: 0 <= j < i ==> labels[j] == "Entity"
  {
    if labels[0] != "Entity" {
      assert labels[0] == FirstOther(labels);
    } else {
      assert labels == [labels[0]] + labels[1..];
      FirstOtherSpec(labels[1..]);
      var rest := labels[1..];
      var i :| 0 <= i < |rest| && rest[i] == FirstOther(rest) && rest[i] != "Entity"
               && forall j :: 0 <= j < i ==> rest[j] == "Entity";
      assert labels[i + 1] == rest[i];
      forall j | 0 <= j < i + 1 ensures labels[j] == "Entity" {
        assert j > 0 ==> labels[j] == rest[j - 1];
      }
    }
  }

  lemma TypeOfSpec(labels: seq<string>)
    requires labels != []
    ensures TypedBy(labels, TypeOf(labels))
  {
    if exists i :: 0 <= i < |labels| && labels[i] != "Entity" {
      FirstOtherSpec(labels);
    }
  }

  /** The last graph entity of this type and name. */
  ghost function LastLoaded(x: Strings, es: seq<GraphEntity>, t: string, n: string): Option<GraphEntity> {
    if es == [] then None else
    var e := es[|es| - 1];
    if e.labels != [] && NameOf(e) != "" && TypedBy(e.labels, t) && Norm(x, NameOf(e)) == n then Some(e)
    else LastLoaded(x, es[..|es| - 1], t, n)
  }

  /** A loaded entry is the last graph entity of its type and name, with its id, properties and score. */
  lemma {:induction false} LoadedExactly(x: Strings, es: seq<GraphEntity>, t: string, n: string)
    ensures var e := LastLoaded(x, es, t, n);
      At(Load(x, Nothing, es), t, n) == if e.None? then None else Some(Stored(e.value.id, e.value.props, e.value.score))
    decreases |es|
  {
    hide Norm, NameOf, TypedBy, TypeOf;
    if es != [] {
      var e, before := es[|es| - 1], Load(x, Nothing, es[..|es| - 1]);
      LoadedExactly(x, es[..|es| - 1], t, n);
      if Loadable(e) {
        OneType(e.labels, t);
        PutAt(before, TypeOf(e.labels), Norm(x, NameOf(e)), Stored(e.id, e.props, e.score), t, n);
      }
    }
  }

  lemma OneType(labels: seq<string>, t: string)
    requires labels != []
    ensures TypedBy(labels, t) <==> t == TypeOf(labels)
  {
    TypeOfSpec(labels);
  }

  // ----- incident facts, end to end -----

  /**
   * Incident facts survive deduplication: for any threshold up to 0.86, whatever the model
   * extracted and whatever the index held, every relationship the incident pass appends is emitted,
   * between entities indexed under its endpoints' names.
   */
  lemma IncidentFactsEmitted(x: Strings, d: Dedup, r: Extraction, m: Matches, text: string, uri: string,
                             allowed: set<string>, threshold: real, j: nat)
    requires SoundDedup(d) && threshold <= 0.86
    requires var fs := Facts(x, m, text, uri, allowed); j < |fs| && fs[j].RelationshipFact?
    ensures var (d', _, rels) := DedupResult(x, d, Augment(x, r, m, text, uri, allowed), threshold);
            EmittedIn(x, d'.index, rels, Facts(x, m, text, uri, allowed)[j].rel)
  {
    var fs := Facts(x, m, text, uri, allowed);
    var f := fs[j].rel;
    FactsGrounded(x, m, text, uri, allowed);
    hide Facts, Process, DedupResult, Norm, Known, Indexed, EmittedFor, Linked;
    var s := AppendAll(x, r, fs);
    var (d', _, rels) := DedupResult(x, d, s, threshold);
    DeduplicateKeeps(x, d, s, threshold);
    assert Introduced(x, fs, j, f.source) && Introduced(x, fs, j, f.target);
    EndpointIndexed(x, d, r, fs, threshold, j, f.source);
    EndpointIndexed(x, d, r, fs, threshold, j, f.target);
    AppendAllHas(x, r, fs, j);
    var i :| 0 <= i < |s.relationships| && RelKey(x, s.relationships[i]) == RelKey(x, f);
    SameEnds(x, d'.index, rels, s.relationships[i], f);
    LinkedEmitted(x, d'.index, rels, s.relationships, i);
  }

  /** Relationships with the same key have the same normalised endpoints. */
  lemma SameEnds(x: Strings, ix: Index, gs: seq<GraphRelationship>, r: Relationship, f: Relationship)
    requires RelKey(x, r) == RelKey(x, f)
    ensures Indexed(ix, Norm(x, f.source)) && Indexed(ix, Norm(x, f.target)) ==> Linked(x, ix, r)
    ensures EmittedIn(x, ix, gs, r) ==> EmittedIn(x, ix, gs, f)
  {}

  lemma EndpointIndexed(x: Strings, d: Dedup, r: Extraction, fs: seq<Fact>, threshold: real, j: int, name: string)
    requires SoundDedup(d) && threshold <= 0.86 && Introduced(x, fs, j, name)
    requires forall i :: 0 <= i < |fs| && fs[i].EntityFact? ==> fs[i].entity.confidence >= 0.86
    ensures Indexed(DedupResult(x, d, AppendAll(x, r, fs), threshold).0.index, Norm(x, name))
  {
    hide Process, ResolveAll;
    var a :| 0 <= a < j && a < |fs| && fs[a].EntityFact? && Key(x, fs[a].entity.name) == Key(x, name);
    AppendAllPresent(x, r, fs, a);
    var s := AppendAll(x, r, fs);
    var p :| 0 <= p < |s.entities| && EntityKey(x, s.entities[p]) == EntityKey(x, fs[a].entity)
             && s.entities[p].confidence >= fs[a].entity.confidence;
    StartSound(d);
    ProcessAllKeeps(x, Start(d), s.entities, s.uri, threshold);
    var b := ProcessAll(x, Start(d), s.entities, s.uri, threshold);
    assert Norm(x, s.entities[p].name) == Norm(x, name);
    assert Known(b.index, Norm(x, name), b.nameToId[Norm(x, name)]);
  }

  // ----- the class -----

  /** The extracted properties seen while these are still to do. */
  function Seen(extracted: Props, todo: set<string>): Props {
    map k | k in extracted && k !in todo :: extracted[k]
  }

  function MergedBut(existing: Props, extracted: Props, higher: bool, todo: set<string>): Props {
    if higher then existing + Seen(extracted, todo) else Seen(extracted, todo) + existing
  }

  lemma MergedNone(existing: Props, extracted: Props, higher: bool)
    ensures MergedBut(existing, extracted, higher, extracted.Keys) == existing
    ensures MergedBut(existing, extracted, higher, {}) == if higher then existing + extracted else extracted + existing
  {
    assert Seen(extracted, {}) == extracted && Seen(extracted, extracted.Keys) == map[];
  }

  lemma MergeOne(existing: Props, extracted: Props, higher: bool, todo: set<string>, k: string)
    requires k in todo && todo <= extracted.Keys
    ensures var merged := MergedBut(existing, extracted, higher, todo);
      MergedBut(existing, extracted, higher, todo - {k})
        == if k !in merged || higher then merged[k := extracted[k]] else merged
  {
    assert Seen(extracted, todo - {k}) == Seen(extracted, todo)[k := extracted[k]];
  }

  class Deduplicator {
    var types: seq<string>
    var byType: map<string, map<string, Stored>>
    var issued: nat

    ghost function View(): Dedup
      reads this
    {
      Dedup(Index(types, byType), issued)
    }

    constructor ()
      ensures SoundDedup(View()) && View() == Dedup(Nothing, 0)
    {
      types, byType, issued := [], map[], 0;
    }

    method Clear()
      modifies this
      ensures View() == Dedup(Nothing, old(issued))
    {
      types, byType := [], map[];
    }

    method PutEntry(etype: string, norm: string, s: Stored)
      modifies this`types, this`byType
      ensures View() == Dedup(Put(old(View()).index, etype, norm, s), old(issued))
    {
      if etype !in byType {
        types := types + [etype];
        byType := byType[etype := map[]];
      }
      byType := byType[etype := byType[etype][norm := s]];
    }

    method LoadFromGraphEntities(x: Strings, es: seq<GraphEntity>)
      modifies this
      ensures View() == Dedup(Load(x, old(View()).index, es), old(issued))
      ensures old(View()) == Dedup(Nothing, 0) && DistinctIds(es) ==> SoundDedup(View())
    {
      ghost var start := View().index;
      for i := 0 to |es|
        invariant View() == Dedup(Load(x, start, es[..i]), old(issued))
      {
        assert es[..i + 1][..i] == es[..i];
        var ent := es[i];
        if ent.labels == [] {
          continue;
        }
        var etype := TypeOf(ent.labels);
        var name := NameOf(ent);
        if name == "" {
          continue;
        }
        PutEntry(etype, Norm(x, name), Stored(ent.id, ent.props, ent.score));
      }
      assert es[..|es|] == es;
      if start == Nothing && DistinctIds(es) {
        LoadedIndexSound(x, es);
      }
    }

    /** The merge loop over the extracted properties, in whatever order the dict yields them. */
    method MergeProps(existing: Props, extracted: Props, higher: bool) returns (merged: Props)
      ensures merged == if higher then existing + extracted else extracted + existing
    {
      hide MergedBut;
      MergedNone(existing, extracted, higher);
      merged := existing;
      var todo := extracted.Keys;
      while todo != {}
        invariant todo <= extracted.Keys
        invariant merged == MergedBut(existing, extracted, higher, todo)
        decreases |todo|
      {
        var k :| k in todo;
        MergeOne(existing, extracted, higher, todo, k);
        if k !in merged || higher {
          merged := merged[k := extracted[k]];
        }
        todo := todo - {k};
      }
    }

    /** The body of the entity loop. */
    method ProcessEntity(x: Strings, e: Entity, uri: string, threshold: real,
                         nameToId: map<string, Id>, out: seq<GraphEntity>)
      returns (nameToId': map<string, Id>, out': seq<GraphEntity>)
      modifies this
      ensures Batch(View().index, issued, nameToId', out')
           == Process(x, Batch(old(View()).index, old(issued), nameToId, out), e, uri, threshold)
    {
      hide Put;
      if e.confidence < threshold {
        return nameToId, out;
      }
      var norm := Norm(x, e.name);
      var s: Stored;
      if e.etype in byType && norm in byType[e.etype] {
        var existing := byType[e.etype][norm];
        var props := MergeProps(existing.props, e.props, e.confidence > existing.confidence);
        props := props["name" := Text(x.strip(e.name))]["source_uri" := Text(uri)];
        s := Stored(existing.id, props, Max(e.confidence, existing.confidence));
      } else {
        s := Created(x, issued, e, uri);
        issued := issued + 1;
      }
      PutEntry(e.etype, norm, s);
      return nameToId[norm := s.id], out + [GraphEntity(s.id, [e.etype], s.props, s.confidence)];
    }

    /** The search through the whole index, type by type. */
    method LookUp(norm: string) returns (id: Option<Id>)
      ensures id == LookUpIn(View().index, types, norm)
    {
      for i := 0 to |types|
        invariant LookUpIn(View().index, types, norm) == LookUpIn(View().index, types[i..], norm)
      {
        assert types[i..][0] == types[i] && types[i..][1..] == types[i + 1..];
        if types[i] in byType && norm in byType[types[i]] {
          return Some(byType[types[i]][norm].id);
        }
      }
      return None;
    }

    method ResolveName(norm: string, nameToId: map<string, Id>) returns (id: Option<Id>)
      ensures id == Resolve(Batch(View().index, issued, nameToId, []), norm)
    {
      if norm in nameToId {
        return Some(nameToId[norm]);
      }
      id := LookUp(norm);
    }

    method Deduplicate(x: Strings, r: Extraction, threshold: real)
      returns (entities: seq<GraphEntity>, rels: seq<GraphRelationship>)
      modifies this
      ensures (View(), entities, rels) == DedupResult(x, old(View()), r, threshold)
      ensures old(SoundDedup(View())) ==> SoundDedup(View())
    {
      hide Process, Resolve, SoundDedup, Norm;
      ghost var d := View();
      if SoundDedup(d) {
        DeduplicateKeeps(x, d, r, threshold);
      }
      var nameToId: map<string, Id> := map[];
      entities, rels := [], [];
      for i := 0 to |r.entities|
        invariant Batch(View().index, issued, nameToId, entities)
               == ProcessAll(x, Start(d), r.entities[..i], r.uri, threshold)
      {
        assert r.entities[..i + 1][..i] == r.entities[..i];
        nameToId, entities := ProcessEntity(x, r.entities[i], r.uri, threshold, nameToId, entities);
      }
      assert r.entities[..|r.entities|] == r.entities;
      ghost var b := Batch(View().index, issued, nameToId, entities);
      for i := 0 to |r.relationships|
        invariant View() == Dedup(b.index, b.issued)
        invariant rels == ResolveAll(x, b, r.relationships[..i], r.uri)
      {
        assert r.relationships[..i + 1][..i] == r.relationships[..i];
        var rel := r.relationships[i];
        var source := ResolveName(Norm(x, rel.source), nameToId);
        var target := ResolveName(Norm(x, rel.target), nameToId);
        ResolveIgnoresOut(b, Norm(x, rel.source));
        ResolveIgnoresOut(b, Norm(x, rel.target));
        if source.None? || target.None? {
          continue;
        }
        rels := rels + [GraphRelationship(Uuid(issued + |rels|), rel.rtype, source.value, target.value,
                                          RelProps(rel, r.uri))];
      }
      assert r.relationships[..|r.relationships|] == r.relationships;
      issued := issued + |rels|;
    }
  }

  lemma ResolveIgnoresOut(b: Batch, norm: string)
    ensures Resolve(b.(out := []), norm) == Resolve(b, norm)
  {}
}
