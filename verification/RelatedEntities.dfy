/**
 * Adding the endpoints of returned relationships to the returned entities, so that no edge of an
 * answer dangles.  An insertion-ordered dictionary is a sequence of entities with distinct ids.
 */
module RelatedEntities {
  import opened Wrappers

  /** The `score` column of a row: missing, a number, or something `float` rejects. */
  datatype ScoreField = Missing | Number(value: real) | Malformed

  datatype Entity = Entity(id: string, labels: seq<string>, properties: map<string, string>, score: real)

  /** One end of a relationship row; id, labels and properties may be missing or null. */
  datatype Endpoint = Endpoint(id: Option<string>, labels: Option<seq<string>>, properties: Option<map<string, string>>)

  datatype Row = Row(source: Endpoint, target: Endpoint, score: ScoreField)

  /** The entities to return, or the exception `float` raised. */
  datatype Outcome = Entities(entities: seq<Entity>) | ScoreError

  const DEFAULT_SCORE := 0.65

  // ----- the dictionary -----

  predicate Holds(entities: seq<Entity>, id: string) {
    exists i :: 0 <= i < |entities| && entities[i].id == id
  }

  predicate Distinct(entities: seq<Entity>) {
    forall i, j :: 0 <= i < j < |entities| ==> entities[i].id != entities[j].id
  }

  function Position(entities: seq<Entity>, id: string): (i: nat)
    requires Holds(entities, id)
    ensures i < |entities| && entities[i].id == id
  {
    var n := |entities| - 1;
    if entities[n].id == id then n else Position(entities[..n], id)
  }

  /** Assigning to a key keeps its place; a new key goes to the end. */
  function Assign(entities: seq<Entity>, e: Entity): seq<Entity> {
    if Holds(entities, e.id) then entities[Position(entities, e.id) := e] else entities + [e]
  }

  function Collapse(raw: seq<Entity>): seq<Entity> {
    if raw == [] then [] else Assign(Collapse(raw[..|raw| - 1]), raw[|raw| - 1])
  }

  lemma AssignSpec(entities: seq<Entity>, e: Entity)
    requires Distinct(entities)
    ensures var r := Assign(entities, e);
      && Distinct(r) && |entities| <= |r| <= |entities| + 1 && e in r
      && (|r| == |entities| <==> Holds(entities, e.id))
      && (forall i :: 0 <= i < |entities| ==> r[i] == if entities[i].id == e.id then e else entities[i])
      && (|r| > |entities| ==> r[|entities|] == e)
  {
    var r := Assign(entities, e);
    if Holds(entities, e.id) {
      assert r[Position(entities, e.id)] == e;
    } else {
      assert r[|entities|] == e;
    }
  }

  /** What a row contributes to the dictionary is kept unless a later row has its id. */
  predicate Survives(raw: seq<Entity>, e: Entity) {
    exists i :: 0 <= i < |raw| && raw[i] == e && forall j :: i < j < |raw| ==> raw[j].id != e.id
  }

  lemma SurvivesLast(raw: seq<Entity>, e: Entity)
    requires raw != []
    ensures var n := |raw| - 1; Survives(raw, e) <==> e == raw[n] || (e.id != raw[n].id && Survives(raw[..n], e))
  {}

  lemma AssignedMember(entities: seq<Entity>, last: Entity, e: Entity)
    requires Distinct(entities)
    ensures e in Assign(entities, last) <==> e == last || (e.id != last.id && e in entities)
  {
    AssignSpec(entities, last);
    var r := Assign(entities, last);
    if i :| 0 <= i < |entities| && entities[i] == e && e.id != last.id {
      assert r[i] == e;
    }
  }

  /** The dictionary built from the raw rows: distinct ids, the same ids, and of rows with one id the
      last one. */
  lemma {:induction false} CollapseSpec(raw: seq<Entity>)
    ensures Distinct(Collapse(raw))
    ensures forall e :: e in Collapse(raw) <==> Survives(raw, e)
    ensures forall id :: Holds(Collapse(raw), id) <==> Holds(raw, id)
  {
    if raw != [] {
      var n := |raw| - 1;
      var prefix, last := raw[..n], raw[n];
      CollapseSpec(prefix);
      AssignSpec(Collapse(prefix), last);
      forall e ensures e in Collapse(raw) <==> Survives(raw, e) {
        SurvivesLast(raw, e);
        AssignedMember(Collapse(prefix), last, e);
      }
      forall id ensures Holds(Collapse(raw), id) <==> Holds(raw, id) {
        CollapsedIds(raw, id);
      }
    }
  }

  lemma AssignedIds(entities: seq<Entity>, e: Entity, id: string)
    requires Distinct(entities)
    ensures Holds(Assign(entities, e), id) <==> Holds(entities, id) || e.id == id
  {
    AssignSpec(entities, e);
    var r := Assign(entities, e);
    hide Assign;
    var at :| 0 <= at < |r| && r[at] == e;
    if i :| 0 <= i < |entities| && entities[i].id == id && id != e.id {
      assert r[i].id == id;
    }
    if i :| 0 <= i < |r| && r[i].id == id && id != e.id {
      assert i < |entities| ==> entities[i].id == id;
    }
  }

  lemma CollapsedIds(raw: seq<Entity>, id: string)
    requires raw != [] && Distinct(Collapse(raw[..|raw| - 1]))
    requires Holds(Collapse(raw[..|raw| - 1]), id) <==> Holds(raw[..|raw| - 1], id)
    ensures Holds(Collapse(raw), id) <==> Holds(raw, id)
  {
    hide Holds, Assign, Distinct;
    var n := |raw| - 1;
    AssignedIds(Collapse(raw[..n]), raw[n], id);
    HoldsLast(raw[..n], raw[n], id);
    assert raw[..n] + [raw[n]] == raw;
  }

  lemma {:induction false} DistinctCollapse(raw: seq<Entity>)
    requires Distinct(raw)
    ensures Collapse(raw) == raw
  {
    if raw != [] {
      var n := |raw| - 1;
      DistinctCollapse(raw[..n]);
      AssignSpec(raw[..n], raw[n]);
    }
  }

  // ----- the endpoints -----

  function Ends(rows: seq<Row>): (ends: seq<(Endpoint, ScoreField)>)
    ensures |ends| == 2 * |rows|
  {
    if rows == [] then []
    else var last := rows[|rows| - 1];
         Ends(rows[..|rows| - 1]) + [(last.source, last.score), (last.target, last.score)]
  }

  predicate Named(end: (Endpoint, ScoreField)) {
    end.0.id.Some? && end.0.id.value != ""
  }

  predicate Mentions(ends: seq<(Endpoint, ScoreField)>, id: string) {
    exists k :: 0 <= k < |ends| && Named(ends[k]) && ends[k].0.id.value == id
  }

  function GetOr<T>(o: Option<T>, default: T): T {
    if o.Some? then o.value else default
  }

  function Neighbour(end: (Endpoint, ScoreField)): Entity
    requires Named(end) && !end.1.Malformed?
  {
    Entity(end.0.id.value, GetOr(end.0.labels, []), GetOr(end.0.properties, map[]),
           if end.1.Number? then end.1.value else DEFAULT_SCORE)
  }

  /** The first end with its id, which no raw row has. */
  predicate FirstMention(raw: seq<Entity>, ends: seq<(Endpoint, ScoreField)>, k: int)
    requires 0 <= k < |ends|
  {
    Named(ends[k]) && !Holds(raw, ends[k].0.id.value) && !Mentions(ends[..k], ends[k].0.id.value)
  }

  /** The collapsed rows and after them one entity for each first mention, in order. */
  function Related(raw: seq<Entity>, ends: seq<(Endpoint, ScoreField)>): Outcome {
    if ends == [] then Entities(Collapse(raw))
    else
      var n := |ends| - 1;
      var before := Related(raw, ends[..n]);
      if before.ScoreError? || !FirstMention(raw, ends, n) then before
      else if ends[n].1.Malformed? then ScoreError
      else Entities(before.entities + [Neighbour(ends[n])])
  }

  lemma {:induction false} RelatedIds(raw: seq<Entity>, ends: seq<(Endpoint, ScoreField)>, id: string)
    requires Related(raw, ends).Entities?
    ensures Holds(Related(raw, ends).entities, id) <==> Holds(raw, id) || Mentions(ends, id)
    decreases |ends|
  {
    if ends == [] {
      CollapseSpec(raw);
    } else {
      var n := |ends| - 1;
      RelatedIds(raw, ends[..n], id);
      MentionsLast(ends, id);
      var before, after := Related(raw, ends[..n]).entities, Related(raw, ends).entities;
      if FirstMention(raw, ends, n) {
        HoldsLast(before, after[|before|], id);
      } else if Named(ends[n]) && ends[n].0.id.value == id {
        assert Holds(raw, id) || Mentions(ends[..n], id);
      }
    }
  }

  lemma MentionsLast(ends: seq<(Endpoint, ScoreField)>, id: string)
    requires ends != []
    ensures var n := |ends| - 1;
      Mentions(ends, id) <==> Mentions(ends[..n], id) || (Named(ends[n]) && ends[n].0.id.value == id)
  {}

  lemma HoldsLast(entities: seq<Entity>, e: Entity, id: string)
    ensures Holds(entities + [e], id) <==> Holds(entities, id) || e.id == id
  {
    var all := entities + [e];
    if Holds(entities, id) {
      var i :| 0 <= i < |entities| && entities[i].id == id;
      assert all[i].id == id;
    }
    assert all[|entities|].id == e.id;
  }

  /**
   * Ids are unique; the raw rows come first and unchanged, apart from rows with one id being
   * collapsed to the last of them; every named endpoint is present; nothing else is added, and what
   * is added comes from the first row that mentions it.
   */
  lemma {:induction false} RelatedSpec(raw: seq<Entity>, ends: seq<(Endpoint, ScoreField)>)
    requires Related(raw, ends).Entities?
    ensures var r := Related(raw, ends).entities;
      && Distinct(r) && Collapse(raw) <= r
      && (forall id :: Holds(r, id) <==> Holds(raw, id) || Mentions(ends, id))
      && (forall i :: |Collapse(raw)| <= i < |r| ==> AddedBy(raw, ends, r[i]))
    decreases |ends|
  {
    forall id ensures Holds(Related(raw, ends).entities, id) <==> Holds(raw, id) || Mentions(ends, id) {
      RelatedIds(raw, ends, id);
    }
    CollapseSpec(raw);
    if ends != [] {
      var n := |ends| - 1;
      RelatedSpec(raw, ends[..n]);
      var before, after := Related(raw, ends[..n]).entities, Related(raw, ends).entities;
      if FirstMention(raw, ends, n) {
        assert !Holds(before, ends[n].0.id.value);
        assert forall i :: 0 <= i < |before| ==> before[i].id != ends[n].0.id.value;
        assert after == before + [Neighbour(ends[n])];
      }
      hide Related, Holds, Mentions, Collapse;
      forall i | |Collapse(raw)| <= i < |after| ensures AddedBy(raw, ends, after[i]) {
        if i < |before| {
          AddedStays(raw, ends, before[i]);
        } else {
          assert FirstMention(raw, ends, n);
        }
      }
    }
  }

  /** The entity is the neighbour node of the first end that mentions it. */
  ghost predicate AddedBy(raw: seq<Entity>, ends: seq<(Endpoint, ScoreField)>, e: Entity) {
    exists k :: 0 <= k < |ends| && FirstMention(raw, ends, k) && !ends[k].1.Malformed? && e == Neighbour(ends[k])
  }

  lemma AddedStays(raw: seq<Entity>, ends: seq<(Endpoint, ScoreField)>, e: Entity)
    requires ends != [] && AddedBy(raw, ends[..|ends| - 1], e)
    ensures AddedBy(raw, ends, e)
  {
    var prior := ends[..|ends| - 1];
    var k :| 0 <= k < |prior| && FirstMention(raw, prior, k) && !prior[k].1.Malformed? && e == Neighbour(prior[k]);
    assert prior[..k] == ends[..k];
    assert FirstMention(raw, ends, k);
  }

  /** The ends that are first to mention an id no raw row has, in order. */
  function FirstMentions(raw: seq<Entity>, ends: seq<(Endpoint, ScoreField)>): (ks: seq<int>)
    ensures forall i :: 0 <= i < |ks| ==> 0 <= ks[i] < |ends| && FirstMention(raw, ends, ks[i])
    decreases |ends|
  {
    if ends == [] then [] else
    var n := |ends| - 1;
    var before := FirstMentions(raw, ends[..n]);
    assert forall k :: 0 <= k < n ==> ends[..n][..k] == ends[..k];
    if FirstMention(raw, ends, n) then before + [n] else before
  }

  /** The entity carries what the end says of it: its labels and properties, none if they are missing,
      and the row's score, 0.65 if that is missing. */
  predicate Carries(e: Entity, end: (Endpoint, ScoreField)) {
    && end.0.id == Some(e.id) && e.id != ""
    && (e.labels == if end.0.labels.Some? then end.0.labels.value else [])
    && (e.properties == if end.0.properties.Some? then end.0.properties.value else map[])
    && (end.1.Number? ==> e.score == end.1.value) && (end.1.Missing? ==> e.score == 0.65)
  }

  lemma NeighbourCarries(end: (Endpoint, ScoreField))
    ensures Named(end) && !end.1.Malformed? ==> Carries(Neighbour(end), end)
  {}

  lemma MentionNamed(raw: seq<Entity>, ends: seq<(Endpoint, ScoreField)>, k: int)
    requires 0 <= k < |ends| && FirstMention(raw, ends, k)
    ensures Named(ends[k])
  {}

  /** After the raw rows come exactly the first mentions, in order, each as its end has it. */
  lemma {:induction false} AddedExactly(raw: seq<Entity>, ends: seq<(Endpoint, ScoreField)>)
    requires Related(raw, ends).Entities?
    ensures var r, ks, m := Related(raw, ends).entities, FirstMentions(raw, ends), |Collapse(raw)|;
      && |r| == m + |ks| && r[..m] == Collapse(raw)
      && forall i :: 0 <= i < |ks| ==> Carries(r[m + i], ends[ks[i]])
    decreases |ends|
  {
    hide FirstMention, Collapse;
    if ends == [] {
      assert Collapse(raw)[..|Collapse(raw)|] == Collapse(raw);
    } else {
      var n := |ends| - 1;
      AddedExactly(raw, ends[..n]);
      var r, ks, m := Related(raw, ends).entities, FirstMentions(raw, ends), |Collapse(raw)|;
      forall i | 0 <= i < |ks| ensures Carries(r[m + i], ends[ks[i]]) {
        if i < |FirstMentions(raw, ends[..n])| {
          assert ends[..n][ks[i]] == ends[ks[i]];
        } else {
          NeighbourCarries(ends[n]);
          MentionNamed(raw, ends, n);
        }
      }
    }
  }

  /** No edge dangles: every id an end has, unless it is empty, is among the entities. */
  lemma NothingDangles(raw: seq<Entity>, ends: seq<(Endpoint, ScoreField)>, k: int, id: string)
    requires Related(raw, ends).Entities? && 0 <= k < |ends| && ends[k].0.id == Some(id) && id != ""
    ensures Holds(Related(raw, ends).entities, id)
  {
    RelatedIds(raw, ends, id);
    assert Named(ends[k]);
  }

  /** Each row has two ends, the source first, both with the row's score. */
  lemma {:induction false} EndsSpec(rows: seq<Row>, i: nat)
    requires i < |rows|
    ensures Ends(rows)[2 * i] == (rows[i].source, rows[i].score)
    ensures Ends(rows)[2 * i + 1] == (rows[i].target, rows[i].score)
  {
    if i < |rows| - 1 {
      EndsSpec(rows[..|rows| - 1], i);
    }
  }

  /** An id keeps the place it first had: more rows leave those there were in front. */
  lemma {:induction false} CollapseInOrder(raw: seq<Entity>, n: nat, i: nat)
    requires n <= |raw| && i < |Collapse(raw[..n])|
    ensures i < |Collapse(raw)| && Collapse(raw)[i].id == Collapse(raw[..n])[i].id
    decreases |raw|
  {
    if n == |raw| {
      assert raw[..n] == raw;
    } else {
      assert raw[..|raw| - 1][..n] == raw[..n];
      CollapseInOrder(raw[..|raw| - 1], n, i);
      CollapseSpec(raw[..|raw| - 1]);
      AssignSpec(Collapse(raw[..|raw| - 1]), raw[|raw| - 1]);
    }
  }

  /** It fails exactly when some entity to add has a score that is no number. */
  lemma {:induction false} FailsExactly(raw: seq<Entity>, ends: seq<(Endpoint, ScoreField)>)
    ensures Related(raw, ends).ScoreError? <==>
              exists k :: 0 <= k < |ends| && FirstMention(raw, ends, k) && ends[k].1.Malformed?
    decreases |ends|
  {
    if ends != [] {
      var n := |ends| - 1;
      FailsExactly(raw, ends[..n]);
      forall k | 0 <= k < n ensures FirstMention(raw, ends[..n], k) <==> FirstMention(raw, ends, k) {
        assert ends[..n][..k] == ends[..k];
      }
      if k :| 0 <= k < n && FirstMention(raw, ends[..n], k) && ends[..n][k].1.Malformed? {
        assert FirstMention(raw, ends, k) && ends[k].1.Malformed?;
      }
      if k :| 0 <= k < n && FirstMention(raw, ends, k) && ends[k].1.Malformed? {
        assert FirstMention(raw, ends[..n], k) && ends[..n][k].1.Malformed?;
      }
    }
  }

  /** Once closed under its relationships an answer stays as it is. */
  lemma CloseTwice(raw: seq<Entity>, ends: seq<(Endpoint, ScoreField)>)
    requires Related(raw, ends).Entities?
    ensures Related(Related(raw, ends).entities, ends) == Related(raw, ends)
  {
    var r := Related(raw, ends).entities;
    RelatedSpec(raw, ends);
    DistinctCollapse(r);
    forall k | 0 <= k < |ends| ensures !FirstMention(r, ends, k) {
      if Named(ends[k]) {
        assert Mentions(ends, ends[k].0.id.value);
      }
    }
    NothingToAdd(r, ends);
  }

  lemma {:induction false} NothingToAdd(raw: seq<Entity>, ends: seq<(Endpoint, ScoreField)>)
    requires forall k :: 0 <= k < |ends| ==> !FirstMention(raw, ends, k)
    ensures Related(raw, ends) == Entities(Collapse(raw))
    decreases |ends|
  {
    if ends != [] {
      var n := |ends| - 1;
      forall k | 0 <= k < n ensures !FirstMention(raw, ends[..n], k) {
        assert ends[..n][..k] == ends[..k];
        assert !FirstMention(raw, ends, k);
      }
      NothingToAdd(raw, ends[..n]);
    }
  }

  // ----- the code -----

  /** One pass of the inner loop: skip an end with no id or a known one, otherwise add its node. */
  method AddEnd(entities: seq<Entity>, end: Endpoint, score: ScoreField,
                ghost raw: seq<Entity>, ghost ends: seq<(Endpoint, ScoreField)>)
    returns (r: Outcome)
    requires Related(raw, ends) == Entities(entities)
    ensures r == Related(raw, ends + [(end, score)])
  {
    ghost var all := ends + [(end, score)];
    assert all[..|ends|] == ends;
    if end.id.Some? {
      RelatedIds(raw, ends, end.id.value);
    }
    if end.id.None? || end.id.value == "" || Holds(entities, end.id.value) {
      return Entities(entities);
    }
    if score.Malformed? {
      return ScoreError;
    }
    var labels := if end.labels.Some? then end.labels.value else [];
    var properties := if end.properties.Some? then end.properties.value else map[];
    var number := if score.Number? then score.value else DEFAULT_SCORE;
    r := Entities(entities + [Entity(end.id.value, labels, properties, number)]);
  }

  method AppendRelatedEntities(rawEntities: seq<Entity>, rows: seq<Row>) returns (r: Outcome)
    ensures r == Related(rawEntities, Ends(rows))
  {
    var byId: seq<Entity> := [];
    for i := 0 to |rawEntities|
      invariant byId == Collapse(rawEntities[..i])
    {
      assert rawEntities[..i + 1][..i] == rawEntities[..i];
      byId := Assign(byId, rawEntities[i]);
    }
    assert rawEntities[..|rawEntities|] == rawEntities;
    for i := 0 to |rows|
      invariant Entities(byId) == Related(rawEntities, Ends(rows[..i]))
    {
      ghost var ends := Ends(rows[..i]);
      var source, target := (rows[i].source, rows[i].score), (rows[i].target, rows[i].score);
      assert rows[..i + 1][..i] == rows[..i];
      assert Ends(rows[..i + 1]) == ends + [source] + [target];
      r := AddEnd(byId, source.0, source.1, rawEntities, ends);
      if r.Entities? {
        r := AddEnd(r.entities, target.0, target.1, rawEntities, ends + [source]);
      } else {
        assert (ends + [source] + [target])[..|ends| + 1] == ends + [source];
      }
      if r.ScoreError? {
        StaysFailed(rawEntities, rows, i + 1);
        return;
      }
      byId := r.entities;
    }
    assert rows[..|rows|] == rows;
    r := Entities(byId);
  }

  lemma {:induction false} StaysFailed(raw: seq<Entity>, rows: seq<Row>, i: nat)
    requires i <= |rows| && Related(raw, Ends(rows[..i])).ScoreError?
    ensures Related(raw, Ends(rows)).ScoreError?
    decreases |rows|
  {
    if i == |rows| {
      assert rows[..i] == rows;
    } else {
      var n := |rows| - 1;
      assert rows[..n][..i] == rows[..i];
      StaysFailed(raw, rows[..n], i);
      var ends := Ends(rows);
      assert ends[..|ends| - 1][..|ends| - 2] == Ends(rows[..n]);
    }
  }
}
