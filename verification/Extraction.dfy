/**
 * Extraction results, their parsing from the model's JSON, and the deterministic pass that adds
 * the facts of an incident message.  Regular expressions are represented by what they matched.
 */
module Extraction {
  import opened Reals
  import opened Wrappers

  datatype Value = Text(s: string) | Number(r: real) | Json(id: int)
  type Props = map<string, Value>

  datatype Entity = Entity(etype: string, name: string, props: Props, confidence: real)
  datatype Relationship = Relationship(source: string, target: string, rtype: string, props: Props, confidence: real)
  datatype Extraction = Extraction(entities: seq<Entity>, relationships: seq<Relationship>, uri: string)

  /** The string functions of the host language and the canonical spellings, left uninterpreted. */
  datatype Strings = Strings(
    lower: string -> string, strip: string -> string, squash: string -> string,
    canonService: string -> string, canonTeam: string -> string)

  /** `name.lower().strip()`. */
  function Key(x: Strings, name: string): string {
    x.strip(x.lower(name))
  }

  function EntityKey(x: Strings, e: Entity): (string, string) {
    (e.etype, Key(x, e.name))
  }

  function RelKey(x: Strings, r: Relationship): (string, string, string) {
    (Key(x, r.source), Key(x, r.target), r.rtype)
  }

  // ----- appending once -----

  /** Updates the first entity with the fact's key, or appends the fact. */
  function AppendEntity(x: Strings, es: seq<Entity>, f: Entity): seq<Entity> {
    if es == [] then [f]
    else if EntityKey(x, es[0]) == EntityKey(x, f) then
      [es[0].(props := es[0].props + f.props, confidence := Max(es[0].confidence, f.confidence))] + es[1..]
    else [es[0]] + AppendEntity(x, es[1..], f)
  }

  function AppendRelationship(x: Strings, rs: seq<Relationship>, f: Relationship): seq<Relationship> {
    if rs == [] then [f]
    else if RelKey(x, rs[0]) == RelKey(x, f) then
      [rs[0].(props := rs[0].props + f.props, confidence := Max(rs[0].confidence, f.confidence))] + rs[1..]
    else [rs[0]] + AppendRelationship(x, rs[1..], f)
  }

  datatype Fact = EntityFact(entity: Entity) | RelationshipFact(rel: Relationship)

  function Append(x: Strings, r: Extraction, f: Fact): Extraction {
    match f
    case EntityFact(e) => r.(entities := AppendEntity(x, r.entities, e))
    case RelationshipFact(l) => r.(relationships := AppendRelationship(x, r.relationships, l))
  }

  function AppendAll(x: Strings, r: Extraction, fs: seq<Fact>): Extraction {
    if fs == [] then r else Append(x, AppendAll(x, r, fs[..|fs| - 1]), fs[|fs| - 1])
  }

  // ----- the facts of an incident message -----

  datatype Symptom = Symptom(service: string, component: Option<string>, status: string)
  datatype Rollback = Rollback(target: string, time: Option<string>)

  /** What each expression matched in the message. */
  datatype Matches = Matches(
    incidentIds: seq<string>, cause: Option<string>, symptom: Option<Symptom>, deploy: Option<string>,
    rollback: Option<Rollback>, service: Option<string>, reporter: Option<string>,
    lead: Option<string>, onIt: Option<string>)

  function Mechanism(x: Strings, m: Matches, y: Symptom): string {
    var phrase := x.canonService(y.service);
    var component := if y.component.None? then "" else x.lower(x.strip(y.component.value));
    var status := x.strip(y.status);
    var base := if component != "" then phrase + " " + component + " returning " + status + "s"
                else phrase + " returning " + status + "s";
    if m.deploy.Some? then base + " after the " + x.strip(m.deploy.value) + " deploy" else base
  }

  /** The summary of the cause: the stated cause, or, where that is missing or blank, the symptom. */
  function CauseSummary(x: Strings, m: Matches): Option<string> {
    if m.cause.Some? && (m.symptom.None? || x.strip(m.cause.value) != "") then Some(x.strip(m.cause.value))
    else if m.symptom.Some? then Some(Mechanism(x, m, m.symptom.value))
    else None
  }

  function Opt(key: string, v: Option<string>): Props {
    if v.None? then map[] else map[key := Text(v.value)]
  }

  function Stripped(x: Strings, v: Option<string>): Option<string> {
    if v.None? then None else Some(x.strip(v.value))
  }

  function SymptomProps(x: Strings, m: Matches): Props {
    if m.symptom.None? then map[]
    else map["status_code" := Text(x.strip(m.symptom.value.status))] + Opt("deploy_time", Stripped(x, m.deploy))
  }

  function RollbackProps(x: Strings, m: Matches): Props {
    if m.rollback.None? then map[]
    else map["resolution_action" := Text("rolled back to " + x.strip(m.rollback.value.target))]
         + (if m.rollback.value.time.None? || m.rollback.value.time.value == "" then map[]
            else map["resolution_time" := Text(x.strip(m.rollback.value.time.value))])
  }

  function IncidentProps(x: Strings, m: Matches, text: string, uri: string): Props
    requires m.incidentIds != []
  {
    map["incident_id" := Text(m.incidentIds[0]), "summary" := Text(x.strip(text)), "source_uri" := Text(uri)]
    + Opt("cause_summary", CauseSummary(x, m)) + SymptomProps(x, m) + RollbackProps(x, m)
  }

  function Evidence(x: Strings, text: string, uri: string): Props {
    map["evidence" := Text(x.strip(text)), "source_uri" := Text(uri)]
  }

  function ServiceMatch(m: Matches): Option<string> {
    if m.service.Some? then m.service
    else if m.symptom.Some? then Some(m.symptom.value.service)
    else None
  }

  function ServiceFacts(x: Strings, m: Matches, text: string, uri: string, id: string): seq<Fact> {
    if ServiceMatch(m).None? then []
    else
      var name := x.canonService(ServiceMatch(m).value);
      [EntityFact(Entity("Service", name, map["source_uri" := Text(uri)], 0.86)),
       RelationshipFact(Relationship(id, name, "AFFECTS", Evidence(x, text, uri), 0.88)),
       RelationshipFact(Relationship(id, name, "IMPACTED", Evidence(x, text, uri), 0.89))]
      + (if m.cause.None? && m.symptom.None? then []
         else
           var mechanism := if m.cause.Some? then x.strip(m.cause.value)
                            else x.strip(CauseSummary(x, m).value);
           [RelationshipFact(Relationship(id, name, "CAUSED_BY",
              Evidence(x, text, uri) + map["mechanism" := Text(mechanism)], 0.86))])
  }

  function TeamFacts(x: Strings, m: Matches, text: string, uri: string, id: string): seq<Fact> {
    if m.reporter.None? then []
    else
      var name := x.canonTeam(m.reporter.value);
      [EntityFact(Entity("Team", name, map["source_uri" := Text(uri)], 0.94)),
       RelationshipFact(Relationship(name, id, "REPORTED_BY", Evidence(x, text, uri), 0.93))]
  }

  function LeadMatch(m: Matches): Option<string> {
    if m.lead.Some? then m.lead else m.onIt
  }

  function LeadFacts(x: Strings, m: Matches, text: string, uri: string, id: string): seq<Fact> {
    if LeadMatch(m).None? then []
    else
      var name := x.strip(LeadMatch(m).value);
      [EntityFact(Entity("Person", name,
         map["role_in_incident" := Text("response lead"), "source_uri" := Text(uri)], 0.95)),
       RelationshipFact(Relationship(name, id, "RESPONDED_TO",
         Evidence(x, text, uri) + map["role" := Text("response lead")], 0.94))]
  }

  function Facts(x: Strings, m: Matches, text: string, uri: string, allowed: set<string>): seq<Fact> {
    if m.incidentIds == [] || "Incident" !in allowed then []
    else
      var id := m.incidentIds[0];
      [EntityFact(Entity("Incident", id, IncidentProps(x, m, text, uri), 0.96))]
      + (if "Service" in allowed then ServiceFacts(x, m, text, uri, id) else [])
      + (if "Team" in allowed then TeamFacts(x, m, text, uri, id) else [])
      + (if "Person" in allowed then LeadFacts(x, m, text, uri, id) else [])
  }

  function Augment(x: Strings, r: Extraction, m: Matches, text: string, uri: string, allowed: set<string>): Extraction {
    AppendAll(x, r, Facts(x, m, text, uri, allowed))
  }

  // ----- what the facts say -----

  /** Which way each relationship goes, between what, how surely, and on what evidence. */
  ghost predicate Described(x: Strings, m: Matches, text: string, uri: string, id: string, r: Relationship) {
    && "evidence" in r.props && r.props["evidence"] == Text(x.strip(text))
    && "source_uri" in r.props && r.props["source_uri"] == Text(uri)
    && (if r.rtype == "REPORTED_BY" then
          m.reporter.Some? && r.source == x.canonTeam(m.reporter.value) && r.target == id && r.confidence == 0.93
        else if r.rtype == "RESPONDED_TO" then
          && (if m.lead.Some? then r.source == x.strip(m.lead.value)
              else m.onIt.Some? && r.source == x.strip(m.onIt.value))
          && r.target == id && r.confidence == 0.94
          && "role" in r.props && r.props["role"] == Text("response lead")
        else
          && r.source == id
          && (if m.service.Some? then r.target == x.canonService(m.service.value)
              else m.symptom.Some? && r.target == x.canonService(m.symptom.value.service))
          && (r.rtype == "AFFECTS" ==> r.confidence == 0.88) && (r.rtype == "IMPACTED" ==> r.confidence == 0.89)
          && (r.rtype == "CAUSED_BY" ==>
                r.confidence == 0.86 && "mechanism" in r.props && Causes(x, m, r.props["mechanism"]))
          && r.rtype in {"AFFECTS", "IMPACTED", "CAUSED_BY"})
  }

  /** The stated cause, or else what the symptom says. */
  ghost predicate Causes(x: Strings, m: Matches, v: Value) {
    if m.cause.Some? then v == Text(x.strip(m.cause.value))
    else m.symptom.Some? && v == Text(x.strip(Mechanism(x, m, m.symptom.value)))
  }

  ghost predicate DescribedEntity(x: Strings, m: Matches, text: string, uri: string, id: string, e: Entity) {
    if e.etype == "Incident" then
      e.name == id && e.confidence == 0.96 && m.incidentIds != [] && e.props == IncidentProps(x, m, text, uri)
    else if e.etype == "Service" then
      && (if m.service.Some? then e.name == x.canonService(m.service.value)
          else m.symptom.Some? && e.name == x.canonService(m.symptom.value.service))
      && e.confidence == 0.86 && e.props == map["source_uri" := Text(uri)]
    else if e.etype == "Team" then
      m.reporter.Some? && e.name == x.canonTeam(m.reporter.value) && e.confidence == 0.94
      && e.props == map["source_uri" := Text(uri)]
    else
      && e.etype == "Person" && e.confidence == 0.95
      && (if m.lead.Some? then e.name == x.strip(m.lead.value) else m.onIt.Some? && e.name == x.strip(m.onIt.value))
      && e.props == map["role_in_incident" := Text("response lead"), "source_uri" := Text(uri)]
  }

  ghost predicate DescribedFact(x: Strings, m: Matches, text: string, uri: string, id: string, f: Fact) {
    match f
    case EntityFact(e) => DescribedEntity(x, m, text, uri, id, e)
    case RelationshipFact(r) => Described(x, m, text, uri, id, r)
  }

  ghost predicate AllDescribed(x: Strings, m: Matches, text: string, uri: string, id: string, fs: seq<Fact>) {
    forall i :: 0 <= i < |fs| ==> DescribedFact(x, m, text, uri, id, fs[i])
  }

  lemma PartsDescribed(x: Strings, m: Matches, text: string, uri: string, id: string)
    ensures AllDescribed(x, m, text, uri, id, TeamFacts(x, m, text, uri, id))
    ensures AllDescribed(x, m, text, uri, id, LeadFacts(x, m, text, uri, id))
  {
    hide IncidentProps, CauseSummary, Mechanism;
  }

  lemma ServiceDescribed(x: Strings, m: Matches, text: string, uri: string, id: string)
    ensures AllDescribed(x, m, text, uri, id, ServiceFacts(x, m, text, uri, id))
  {
    hide IncidentProps, Mechanism, DescribedFact;
    if ServiceMatch(m).Some? {
      var fs, name := ServiceFacts(x, m, text, uri, id), x.canonService(ServiceMatch(m).value);
      ServiceFactDescribed(x, m, text, uri, id, fs[0]);
      ServiceFactDescribed(x, m, text, uri, id, fs[1]);
      ServiceFactDescribed(x, m, text, uri, id, fs[2]);
      if m.cause.Some? || m.symptom.Some? {
        var mechanism := if m.cause.Some? then x.strip(m.cause.value) else x.strip(CauseSummary(x, m).value);
        ServiceFactDescribed(x, m, text, uri, id, fs[3]);
      }
    }
  }

  lemma ServiceFactDescribed(x: Strings, m: Matches, text: string, uri: string, id: string, f: Fact)
    requires ServiceMatch(m).Some?
    requires var name := x.canonService(ServiceMatch(m).value);
      || f == EntityFact(Entity("Service", name, map["source_uri" := Text(uri)], 0.86))
      || f == RelationshipFact(Relationship(id, name, "AFFECTS", Evidence(x, text, uri), 0.88))
      || f == RelationshipFact(Relationship(id, name, "IMPACTED", Evidence(x, text, uri), 0.89))
      || ((m.cause.Some? || m.symptom.Some?)
          && f == RelationshipFact(Relationship(id, name, "CAUSED_BY", Evidence(x, text, uri) + map["mechanism" := Text(
                    if m.cause.Some? then x.strip(m.cause.value) else x.strip(CauseSummary(x, m).value))], 0.86)))
    ensures DescribedFact(x, m, text, uri, id, f)
  {
    hide IncidentProps, Mechanism;
  }

  /**
   * A message names its incident by the first id it matched; every fact is about that incident and
   * what the expressions matched, each relationship in its own direction; and a service gives three
   * facts, or four with a cause, a team and a lead two each.
   */
  lemma FactsDescribed(x: Strings, m: Matches, text: string, uri: string, allowed: set<string>)
    ensures var fs := Facts(x, m, text, uri, allowed);
      && (fs == [] <==> m.incidentIds == [] || "Incident" !in allowed)
      && (fs != [] ==>
            && AllDescribed(x, m, text, uri, m.incidentIds[0], fs)
            && |fs| == 1
                       + (if "Service" in allowed && (m.service.Some? || m.symptom.Some?)
                          then (if m.cause.Some? || m.symptom.Some? then 4 else 3) else 0)
                       + (if "Team" in allowed && m.reporter.Some? then 2 else 0)
                       + (if "Person" in allowed && (m.lead.Some? || m.onIt.Some?) then 2 else 0))
  {
    if m.incidentIds != [] && "Incident" in allowed {
      PartsDescribed(x, m, text, uri, m.incidentIds[0]);
      ServiceDescribed(x, m, text, uri, m.incidentIds[0]);
      hide DescribedFact, CauseSummary, Mechanism, Evidence;
      assert DescribedFact(x, m, text, uri, m.incidentIds[0],
                           EntityFact(Entity("Incident", m.incidentIds[0], IncidentProps(x, m, text, uri), 0.96)))
        by { IncidentDescribed(x, m, text, uri); }
    }
  }

  lemma IncidentDescribed(x: Strings, m: Matches, text: string, uri: string)
    requires m.incidentIds != []
    ensures DescribedFact(x, m, text, uri, m.incidentIds[0],
                          EntityFact(Entity("Incident", m.incidentIds[0], IncidentProps(x, m, text, uri), 0.96)))
  {}

  /** A property is there with this value, or not there. */
  predicate Says(p: Props, key: string, v: Option<string>) {
    (key in p <==> v.Some?) && (key in p ==> p[key] == Text(v.value))
  }

  /** What the cause, the symptom and the rollback add, by key. */
  lemma CauseSays(x: Strings, m: Matches)
    ensures var v := CauseSummary(x, m);
      && (m.cause.Some? && x.strip(m.cause.value) != "" ==> v == Some(x.strip(m.cause.value)))
      && (m.symptom.Some? && (m.cause.None? || x.strip(m.cause.value) == "") ==>
            v == Some(Mechanism(x, m, m.symptom.value)))
      && (m.symptom.None? ==> v == if m.cause.None? then None else Some(x.strip(m.cause.value)))
  {
    hide Mechanism;
  }

  /** The symptom gives the status and, with it, the deployment. */
  lemma SymptomSays(x: Strings, m: Matches)
    ensures var p := SymptomProps(x, m);
      && Says(p, "status_code", if m.symptom.None? then None else Some(x.strip(m.symptom.value.status)))
      && Says(p, "deploy_time", if m.symptom.None? || m.deploy.None? then None else Some(x.strip(m.deploy.value)))
      && p.Keys <= {"status_code", "deploy_time"}
  {}

  /** A rollback gives its action and, unless empty, its time. */
  lemma RollbackSays(x: Strings, m: Matches)
    ensures var p := RollbackProps(x, m);
      && Says(p, "resolution_action",
              if m.rollback.None? then None else Some("rolled back to " + x.strip(m.rollback.value.target)))
      && Says(p, "resolution_time",
              if m.rollback.None? || m.rollback.value.time.None? || m.rollback.value.time.value == "" then None
              else Some(x.strip(m.rollback.value.time.value)))
      && p.Keys <= {"resolution_action", "resolution_time"}
  {}

  /** What an incident is said to be: its id, the message, its source and its cause, and besides what the
      symptom and the rollback give. */
  lemma IncidentSays(x: Strings, m: Matches, text: string, uri: string)
    requires m.incidentIds != []
    ensures var p := IncidentProps(x, m, text, uri);
      && Says(p, "incident_id", Some(m.incidentIds[0])) && Says(p, "summary", Some(x.strip(text)))
      && Says(p, "source_uri", Some(uri)) && Says(p, "cause_summary", CauseSummary(x, m))
      && (forall k :: k in SymptomProps(x, m) ==> k in p && p[k] == SymptomProps(x, m)[k])
      && (forall k :: k in RollbackProps(x, m) ==> k in p && p[k] == RollbackProps(x, m)[k])
      && (forall k :: k in p ==> k in SymptomProps(x, m) || k in RollbackProps(x, m)
                                 || k in {"incident_id", "summary", "source_uri", "cause_summary"})
  {
    hide CauseSummary, SymptomProps, RollbackProps, Says;
    SymptomSays(x, m);
    RollbackSays(x, m);
    OwnKeys(SymptomProps(x, m), RollbackProps(x, m));
    var own := map["incident_id" := Text(m.incidentIds[0]), "summary" := Text(x.strip(text)), "source_uri" := Text(uri)]
               + Opt("cause_summary", CauseSummary(x, m));
    OwnSays(x, m.incidentIds[0], text, uri, CauseSummary(x, m));
    Joined(own, SymptomProps(x, m), RollbackProps(x, m));
  }

  lemma OwnSays(x: Strings, id: string, text: string, uri: string, cause: Option<string>)
    ensures var p := map["incident_id" := Text(id), "summary" := Text(x.strip(text)), "source_uri" := Text(uri)]
                     + Opt("cause_summary", cause);
      && Says(p, "incident_id", Some(id)) && Says(p, "summary", Some(x.strip(text)))
      && Says(p, "source_uri", Some(uri)) && Says(p, "cause_summary", cause)
      && p.Keys <= {"incident_id", "summary", "source_uri", "cause_summary"}
  {}

  lemma OwnKeys(p: Props, q: Props)
    requires p.Keys <= {"status_code", "deploy_time"} && q.Keys <= {"resolution_action", "resolution_time"}
    ensures p.Keys !! q.Keys
    ensures (p.Keys + q.Keys) !! {"incident_id", "summary", "source_uri", "cause_summary"}
  {}

  /** Three lists of properties with keys of their own. */
  lemma Joined(p: Props, q: Props, r: Props)
    requires q.Keys !! r.Keys && (q.Keys + r.Keys) !! {"incident_id", "summary", "source_uri", "cause_summary"}
    requires p.Keys <= {"incident_id", "summary", "source_uri", "cause_summary"}
    ensures forall k :: k in q ==> k in p + q + r && (p + q + r)[k] == q[k]
    ensures forall k :: k in r ==> k in p + q + r && (p + q + r)[k] == r[k]
    ensures forall k :: k in p + q + r ==> k in p || k in q || k in r
    ensures forall k, v :: k in {"incident_id", "summary", "source_uri", "cause_summary"} && Says(p, k, v) ==>
              Says(p + q + r, k, v)
  {}

  /** What the symptom says: the service, the component unless blank, the status, and the deployment. */
  lemma MechanismSays(x: Strings, m: Matches, y: Symptom)
    ensures m.deploy.Some? ==>
              Mechanism(x, m, y)
                == Mechanism(x, m.(deploy := None), y) + " after the " + x.strip(m.deploy.value) + " deploy"
    ensures m.deploy.None? && (y.component.None? || x.lower(x.strip(y.component.value)) == "") ==>
              Mechanism(x, m, y) == x.canonService(y.service) + " returning " + x.strip(y.status) + "s"
    ensures m.deploy.None? && y.component.Some? && x.lower(x.strip(y.component.value)) != "" ==>
              Mechanism(x, m, y) == x.canonService(y.service) + " " + x.lower(x.strip(y.component.value))
                                    + " returning " + x.strip(y.status) + "s"
  {}

  // ----- appending is idempotent -----

  predicate HasEntity(x: Strings, es: seq<Entity>, f: Entity) {
    exists i :: 0 <= i < |es| && EntityKey(x, es[i]) == EntityKey(x, f)
  }

  predicate HasRelationship(x: Strings, rs: seq<Relationship>, f: Relationship) {
    exists i :: 0 <= i < |rs| && RelKey(x, rs[i]) == RelKey(x, f)
  }

  /** Appending the fact would change nothing. */
  ghost predicate Absorbed(x: Strings, r: Extraction, f: Fact) {
    Append(x, r, f) == r
  }

  predicate SameKey(x: Strings, f: Fact, g: Fact) {
    match (f, g)
    case (EntityFact(e), EntityFact(e')) => EntityKey(x, e) == EntityKey(x, e')
    case (RelationshipFact(l), RelationshipFact(l')) => RelKey(x, l) == RelKey(x, l')
    case _ => false
  }

  lemma {:induction false} EntityTwice(x: Strings, es: seq<Entity>, f: Entity)
    ensures AppendEntity(x, AppendEntity(x, es, f), f) == AppendEntity(x, es, f)
  {
    var r := AppendEntity(x, es, f);
    if es == [] {
      assert f.props + f.props == f.props && [f][1..] == [];
    } else if EntityKey(x, es[0]) == EntityKey(x, f) {
      assert es[0].props + f.props + f.props == es[0].props + f.props;
      assert r[1..] == es[1..];
    } else {
      EntityTwice(x, es[1..], f);
      assert r[1..] == AppendEntity(x, es[1..], f);
    }
  }

  lemma {:induction false} EntityOther(x: Strings, es: seq<Entity>, f: Entity, g: Entity)
    requires AppendEntity(x, es, f) == es && EntityKey(x, f) != EntityKey(x, g)
    ensures AppendEntity(x, AppendEntity(x, es, g), f) == AppendEntity(x, es, g)
  {
    if es != [] {
      var r := AppendEntity(x, es, g);
      if EntityKey(x, es[0]) == EntityKey(x, f) {
        assert r == [es[0]] + AppendEntity(x, es[1..], g);
        var raised := es[0].(props := es[0].props + f.props, confidence := Max(es[0].confidence, f.confidence));
        assert es == [raised] + es[1..];
        assert es[0] == es[0].(props := es[0].props + f.props, confidence := Max(es[0].confidence, f.confidence));
      } else {
        assert AppendEntity(x, es, f)[1..] == es[1..];
        if EntityKey(x, es[0]) == EntityKey(x, g) {
          assert r[1..] == es[1..];
        } else {
          EntityOther(x, es[1..], f, g);
          assert r[1..] == AppendEntity(x, es[1..], g);
        }
      }
    }
  }

  lemma {:induction false} RelationshipTwice(x: Strings, rs: seq<Relationship>, f: Relationship)
    ensures AppendRelationship(x, AppendRelationship(x, rs, f), f) == AppendRelationship(x, rs, f)
  {
    var r := AppendRelationship(x, rs, f);
    if rs == [] {
      assert f.props + f.props == f.props && [f][1..] == [];
    } else if RelKey(x, rs[0]) == RelKey(x, f) {
      assert rs[0].props + f.props + f.props == rs[0].props + f.props;
      assert r[1..] == rs[1..];
    } else {
      RelationshipTwice(x, rs[1..], f);
      assert r[1..] == AppendRelationship(x, rs[1..], f);
    }
  }

  lemma {:induction false} RelationshipOther(x: Strings, rs: seq<Relationship>, f: Relationship, g: Relationship)
    requires AppendRelationship(x, rs, f) == rs && RelKey(x, f) != RelKey(x, g)
    ensures AppendRelationship(x, AppendRelationship(x, rs, g), f) == AppendRelationship(x, rs, g)
  {
    if rs != [] {
      var r := AppendRelationship(x, rs, g);
      if RelKey(x, rs[0]) == RelKey(x, f) {
        assert r == [rs[0]] + AppendRelationship(x, rs[1..], g);
        var raised := rs[0].(props := rs[0].props + f.props, confidence := Max(rs[0].confidence, f.confidence));
        assert rs == [raised] + rs[1..];
        assert rs[0] == rs[0].(props := rs[0].props + f.props, confidence := Max(rs[0].confidence, f.confidence));
      } else {
        assert AppendRelationship(x, rs, f)[1..] == rs[1..];
        if RelKey(x, rs[0]) == RelKey(x, g) {
          assert r[1..] == rs[1..];
        } else {
          RelationshipOther(x, rs[1..], f, g);
          assert r[1..] == AppendRelationship(x, rs[1..], g);
        }
      }
    }
  }

  lemma AppendAbsorbs(x: Strings, r: Extraction, f: Fact)
    ensures Absorbed(x, Append(x, r, f), f)
  {
    match f
    case EntityFact(e) => EntityTwice(x, r.entities, e);
    case RelationshipFact(l) => RelationshipTwice(x, r.relationships, l);
  }

  lemma AppendKeepsAbsorbed(x: Strings, r: Extraction, f: Fact, g: Fact)
    requires Absorbed(x, r, f) && !SameKey(x, f, g)
    ensures Absorbed(x, Append(x, r, g), f)
  {
    match (f, g)
    case (EntityFact(e), EntityFact(e')) => EntityOther(x, r.entities, e, e');
    case (RelationshipFact(l), RelationshipFact(l')) => RelationshipOther(x, r.relationships, l, l');
    case _ =>
  }

  ghost predicate DistinctFacts(x: Strings, fs: seq<Fact>) {
    forall i, j :: 0 <= i < j < |fs| ==> !SameKey(x, fs[i], fs[j])
  }

  lemma {:induction false} AllAbsorbed(x: Strings, r: Extraction, fs: seq<Fact>)
    requires DistinctFacts(x, fs)
    ensures forall i :: 0 <= i < |fs| ==> Absorbed(x, AppendAll(x, r, fs), fs[i])
  {
    if fs != [] {
      var last := |fs| - 1;
      var before := AppendAll(x, r, fs[..last]);
      AllAbsorbed(x, r, fs[..last]);
      AppendAbsorbs(x, before, fs[last]);
      forall i | 0 <= i < last ensures Absorbed(x, AppendAll(x, r, fs), fs[i]) {
        assert fs[..last][i] == fs[i];
        AppendKeepsAbsorbed(x, before, fs[i], fs[last]);
      }
    }
  }

  lemma {:induction false} AbsorbedAll(x: Strings, r: Extraction, fs: seq<Fact>)
    requires forall i :: 0 <= i < |fs| ==> Absorbed(x, r, fs[i])
    ensures AppendAll(x, r, fs) == r
  {
    if fs != [] {
      AbsorbedAll(x, r, fs[..|fs| - 1]);
    }
  }

  function FactType(f: Fact): string {
    if f.EntityFact? then f.entity.etype else f.rel.rtype
  }

  /** The place of a fact's type among those one message can give. */
  function Ordinal(f: Fact): int {
    var t := FactType(f);
    if t == "Incident" then 0 else if t == "Service" then 1 else if t == "AFFECTS" then 2
    else if t == "IMPACTED" then 3 else if t == "CAUSED_BY" then 4 else if t == "Team" then 5
    else if t == "REPORTED_BY" then 6 else if t == "Person" then 7 else 8
  }

  ghost predicate Ascending(fs: seq<Fact>, lo: int, hi: int) {
    && (forall i :: 0 <= i < |fs| ==> lo <= Ordinal(fs[i]) < hi)
    && (forall i, j :: 0 <= i < j < |fs| ==> Ordinal(fs[i]) < Ordinal(fs[j]))
  }

  lemma AscendingConcat(a: seq<Fact>, b: seq<Fact>, lo: int, mid: int, hi: int)
    requires lo <= mid <= hi && Ascending(a, lo, mid) && Ascending(b, mid, hi)
    ensures Ascending(a + b, lo, hi)
  {}

  lemma ServiceAscending(x: Strings, m: Matches, text: string, uri: string, id: string)
    ensures Ascending(ServiceFacts(x, m, text, uri, id), 1, 5)
  {
    hide Evidence, CauseSummary;
  }

  lemma TeamAscending(x: Strings, m: Matches, text: string, uri: string, id: string)
    ensures Ascending(TeamFacts(x, m, text, uri, id), 5, 7)
  {
    hide Evidence;
  }

  lemma LeadAscending(x: Strings, m: Matches, text: string, uri: string, id: string)
    ensures Ascending(LeadFacts(x, m, text, uri, id), 7, 9)
  {}

  lemma FactsAscending(x: Strings, m: Matches, text: string, uri: string, allowed: set<string>)
    ensures Ascending(Facts(x, m, text, uri, allowed), 0, 9)
  {
    if m.incidentIds != [] && "Incident" in allowed {
      var id := m.incidentIds[0];
      var incident := [EntityFact(Entity("Incident", id, IncidentProps(x, m, text, uri), 0.96))];
      var service := if "Service" in allowed then ServiceFacts(x, m, text, uri, id) else [];
      var team := if "Team" in allowed then TeamFacts(x, m, text, uri, id) else [];
      var lead := if "Person" in allowed then LeadFacts(x, m, text, uri, id) else [];
      ServiceAscending(x, m, text, uri, id);
      TeamAscending(x, m, text, uri, id);
      LeadAscending(x, m, text, uri, id);
      assert Ascending(incident, 0, 1) && Ascending(service, 1, 5) && Ascending(team, 5, 7) && Ascending(lead, 7, 9);
      hide Ordinal, Ascending;
      AscendingConcat(incident, service, 0, 1, 5);
      AscendingConcat(incident + service, team, 0, 5, 7);
      AscendingConcat(incident + service + team, lead, 0, 7, 9);
    }
  }

  lemma FactsDistinct(x: Strings, m: Matches, text: string, uri: string, allowed: set<string>)
    ensures DistinctFacts(x, Facts(x, m, text, uri, allowed))
  {
    var fs := Facts(x, m, text, uri, allowed);
    FactsAscending(x, m, text, uri, allowed);
    hide Facts, Ordinal;
    forall i, j | 0 <= i < j < |fs| ensures !SameKey(x, fs[i], fs[j]) {
      if SameKey(x, fs[i], fs[j]) {
        SameKeyOrdinal(x, fs[i], fs[j]);
      }
    }
  }

  lemma SameKeyOrdinal(x: Strings, f: Fact, g: Fact)
    requires SameKey(x, f, g)
    ensures Ordinal(f) == Ordinal(g)
  {}

  /** Augmenting an extraction a second time changes nothing. */
  lemma AugmentIdempotent(x: Strings, r: Extraction, m: Matches, text: string, uri: string, allowed: set<string>)
    ensures var once := Augment(x, r, m, text, uri, allowed);
            Augment(x, once, m, text, uri, allowed) == once
  {
    var fs := Facts(x, m, text, uri, allowed);
    FactsDistinct(x, m, text, uri, allowed);
    AllAbsorbed(x, r, fs);
    AbsorbedAll(x, AppendAll(x, r, fs), fs);
  }

  // ----- uniqueness and dangling relationships -----

  ghost predicate Unique(x: Strings, es: seq<Entity>) {
    forall i, j :: 0 <= i < j < |es| ==> EntityKey(x, es[i]) != EntityKey(x, es[j])
  }

  function NamesOf(x: Strings, es: seq<Entity>): set<string> {
    set i | 0 <= i < |es| :: Key(x, es[i].name)
  }

  predicate Anchored(x: Strings, es: seq<Entity>, r: Relationship) {
    Key(x, r.source) in NamesOf(x, es) && Key(x, r.target) in NamesOf(x, es)
  }

  ghost predicate NoDangling(x: Strings, r: Extraction) {
    forall i :: 0 <= i < |r.relationships| ==> Anchored(x, r.entities, r.relationships[i])
  }

  lemma HasEntityHead(x: Strings, es: seq<Entity>, f: Entity)
    requires es != []
    ensures HasEntity(x, es, f) <==> EntityKey(x, es[0]) == EntityKey(x, f) || HasEntity(x, es[1..], f)
  {}

  /** Appending an entity keeps the keys there were, position by position, and adds its own if new. */
  lemma {:induction false} AppendEntityKeys(x: Strings, es: seq<Entity>, f: Entity)
    ensures var r := AppendEntity(x, es, f);
      && |r| == (if HasEntity(x, es, f) then |es| else |es| + 1)
      && (forall i :: 0 <= i < |es| ==>
            EntityKey(x, r[i]) == EntityKey(x, es[i]) && r[i].confidence >= es[i].confidence)
      && (!HasEntity(x, es, f) ==> r == es + [f])
    decreases |es|
  {
    if es != [] {
      HasEntityHead(x, es, f);
      AppendEntityKeys(x, es[1..], f);
      var r := AppendEntity(x, es, f);
      if EntityKey(x, es[0]) != EntityKey(x, f) {
        var rest := AppendEntity(x, es[1..], f);
        assert r == [es[0]] + rest && es == [es[0]] + es[1..];
        forall i | 0 < i < |es|
          ensures EntityKey(x, r[i]) == EntityKey(x, es[i]) && r[i].confidence >= es[i].confidence
        {
          assert r[i] == rest[i - 1] && es[i] == es[1..][i - 1];
        }
      }
    }
  }

  lemma {:induction false} AppendRelationshipKeys(x: Strings, rs: seq<Relationship>, f: Relationship)
    ensures var r := AppendRelationship(x, rs, f);
      && |r| >= |rs|
      && (forall i :: 0 <= i < |rs| ==> RelKey(x, r[i]) == RelKey(x, rs[i]))
      && (forall i :: |rs| <= i < |r| ==> RelKey(x, r[i]) == RelKey(x, f))
    ensures HasRelationship(x, AppendRelationship(x, rs, f), f)
    decreases |rs|
  {
    var r := AppendRelationship(x, rs, f);
    if rs == [] || RelKey(x, rs[0]) == RelKey(x, f) {
      assert RelKey(x, r[0]) == RelKey(x, f);
    } else {
      var rest := AppendRelationship(x, rs[1..], f);
      AppendRelationshipKeys(x, rs[1..], f);
      assert r == [rs[0]] + rest && rs == [rs[0]] + rs[1..];
      hide RelKey, AppendRelationship;
      var k :| 0 <= k < |rest| && RelKey(x, rest[k]) == RelKey(x, f);
      assert r[k + 1] == rest[k];
    }
  }

  /** The fact's entity is there, with at least the fact's confidence. */
  lemma {:induction false} AppendedEntityThere(x: Strings, es: seq<Entity>, f: Entity)
    ensures exists i :: 0 <= i < |AppendEntity(x, es, f)| && EntityKey(x, AppendEntity(x, es, f)[i]) == EntityKey(x, f)
                        && AppendEntity(x, es, f)[i].confidence >= f.confidence
  {
    var r := AppendEntity(x, es, f);
    if es == [] || EntityKey(x, es[0]) == EntityKey(x, f) {
      assert EntityKey(x, r[0]) == EntityKey(x, f);
    } else {
      AppendedEntityThere(x, es[1..], f);
      var rest := AppendEntity(x, es[1..], f);
      var k :| 0 <= k < |rest| && EntityKey(x, rest[k]) == EntityKey(x, f) && rest[k].confidence >= f.confidence;
      assert r[k + 1] == rest[k];
    }
  }

  /** An entity of this key and at least this confidence is among `es`. */
  ghost predicate Present(x: Strings, es: seq<Entity>, f: Entity) {
    exists i :: 0 <= i < |es| && EntityKey(x, es[i]) == EntityKey(x, f) && es[i].confidence >= f.confidence
  }

  lemma PresentGrows(x: Strings, es: seq<Entity>, f: Entity, g: Entity)
    requires Present(x, es, f)
    ensures Present(x, AppendEntity(x, es, g), f)
  {
    AppendEntityKeys(x, es, g);
    var i :| 0 <= i < |es| && EntityKey(x, es[i]) == EntityKey(x, f) && es[i].confidence >= f.confidence;
    assert EntityKey(x, AppendEntity(x, es, g)[i]) == EntityKey(x, f);
  }

  lemma NamesGrow(x: Strings, es: seq<Entity>, g: Entity)
    ensures NamesOf(x, es) <= NamesOf(x, AppendEntity(x, es, g))
  {
    AppendEntityKeys(x, es, g);
    var r := AppendEntity(x, es, g);
    forall k | k in NamesOf(x, es) ensures k in NamesOf(x, r) {
      var i :| 0 <= i < |es| && Key(x, es[i].name) == k;
      assert EntityKey(x, r[i]) == EntityKey(x, es[i]);
    }
  }

  /** Each relationship fact comes after entity facts for both its endpoints. */
  ghost predicate Grounded(x: Strings, fs: seq<Fact>) {
    forall j :: 0 <= j < |fs| && fs[j].RelationshipFact? ==>
      Introduced(x, fs, j, fs[j].rel.source) && Introduced(x, fs, j, fs[j].rel.target)
  }

  ghost predicate Introduced(x: Strings, fs: seq<Fact>, j: int, name: string) {
    exists i :: 0 <= i < j && i < |fs| && fs[i].EntityFact? && Key(x, fs[i].entity.name) == Key(x, name)
  }

  /** An entity of at least the floor confidence and relationships between it and the incident. */
  ghost predicate Segment(fs: seq<Fact>, id: string) {
    fs != [] ==>
      && fs[0].EntityFact? && fs[0].entity.confidence >= 0.86
      && forall j :: 1 <= j < |fs| ==> fs[j].RelationshipFact? && Between(fs[j].rel, id, fs[0].entity.name)
  }

  predicate Between(r: Relationship, a: string, b: string) {
    (r.source == a || r.source == b) && (r.target == a || r.target == b)
  }

  /** The facts so far, the incident first. */
  ghost predicate Started(x: Strings, fs: seq<Fact>, id: string) {
    && fs != [] && fs[0].EntityFact? && fs[0].entity.name == id && Grounded(x, fs)
    && forall i :: 0 <= i < |fs| && fs[i].EntityFact? ==> fs[i].entity.confidence >= 0.86
  }

  lemma AddSegment(x: Strings, fs: seq<Fact>, segment: seq<Fact>, id: string)
    requires Started(x, fs, id) && Segment(segment, id)
    ensures Started(x, fs + segment, id)
  {
    var all := fs + segment;
    hide Key;
    forall j | 0 <= j < |all| && all[j].RelationshipFact?
      ensures Introduced(x, all, j, all[j].rel.source) && Introduced(x, all, j, all[j].rel.target)
    {
      if j < |fs| {
        IntroducedStays(x, fs, segment, j, all[j].rel.source);
        IntroducedStays(x, fs, segment, j, all[j].rel.target);
      } else {
        assert all[0] == fs[0] && all[|fs|] == segment[0] && all[j] == segment[j - |fs|];
      }
    }
  }

  lemma IntroducedStays(x: Strings, fs: seq<Fact>, more: seq<Fact>, j: nat, name: string)
    requires j < |fs| && Introduced(x, fs, j, name)
    ensures Introduced(x, fs + more, j, name)
  {
    var i :| 0 <= i < j && i < |fs| && fs[i].EntityFact? && Key(x, fs[i].entity.name) == Key(x, name);
    assert (fs + more)[i] == fs[i];
  }

  /** Relationships only join entities introduced before them, and no entity is below the floor. */
  lemma FactsGrounded(x: Strings, m: Matches, text: string, uri: string, allowed: set<string>)
    ensures var fs := Facts(x, m, text, uri, allowed);
      && Grounded(x, fs)
      && forall i :: 0 <= i < |fs| && fs[i].EntityFact? ==> fs[i].entity.confidence >= 0.86
  {
    if m.incidentIds != [] && "Incident" in allowed {
      var id := m.incidentIds[0];
      var incident := [EntityFact(Entity("Incident", id, IncidentProps(x, m, text, uri), 0.96))];
      var service := if "Service" in allowed then ServiceFacts(x, m, text, uri, id) else [];
      var team := if "Team" in allowed then TeamFacts(x, m, text, uri, id) else [];
      var lead := if "Person" in allowed then LeadFacts(x, m, text, uri, id) else [];
      assert Started(x, incident, id) && Segment(service, id) && Segment(team, id) && Segment(lead, id);
      hide Segment, Grounded, ServiceFacts, TeamFacts, LeadFacts, IncidentProps;
      AddSegment(x, incident, service, id);
      AddSegment(x, incident + service, team, id);
      AddSegment(x, incident + service + team, lead, id);
    }
  }

  lemma {:induction false} AppendAllPresent(x: Strings, r: Extraction, fs: seq<Fact>, i: nat)
    requires i < |fs| && fs[i].EntityFact?
    ensures Present(x, AppendAll(x, r, fs).entities, fs[i].entity)
  {
    var last := |fs| - 1;
    var before := AppendAll(x, r, fs[..last]);
    if i == last {
      AppendedEntityThere(x, before.entities, fs[i].entity);
    } else {
      AppendAllPresent(x, r, fs[..last], i);
      if fs[last].EntityFact? {
        PresentGrows(x, before.entities, fs[i].entity, fs[last].entity);
      }
    }
  }

  lemma {:induction false} AppendAllHas(x: Strings, r: Extraction, fs: seq<Fact>, j: nat)
    requires j < |fs| && fs[j].RelationshipFact?
    ensures HasRelationship(x, AppendAll(x, r, fs).relationships, fs[j].rel)
    decreases |fs|
  {
    var last := |fs| - 1;
    var before := AppendAll(x, r, fs[..last]);
    if j < last {
      AppendAllHas(x, r, fs[..last], j);
      if fs[last].RelationshipFact? {
        StillHas(x, before.relationships, fs[last].rel, fs[j].rel);
      }
    } else {
      AppendRelationshipKeys(x, before.relationships, fs[last].rel);
    }
  }

  lemma StillHas(x: Strings, rs: seq<Relationship>, f: Relationship, g: Relationship)
    requires HasRelationship(x, rs, g)
    ensures HasRelationship(x, AppendRelationship(x, rs, f), g)
  {
    AppendRelationshipKeys(x, rs, f);
    hide RelKey, AppendRelationship;
    var k :| 0 <= k < |rs| && RelKey(x, rs[k]) == RelKey(x, g);
    assert RelKey(x, AppendRelationship(x, rs, f)[k]) == RelKey(x, g);
  }

  lemma {:induction false} AppendAllKeeps(x: Strings, r: Extraction, fs: seq<Fact>)
    requires Grounded(x, fs)
    ensures var s := AppendAll(x, r, fs);
            && (Unique(x, r.entities) ==> Unique(x, s.entities))
            && (NoDangling(x, r) ==> NoDangling(x, s))
  {
    if fs != [] {
      var last := |fs| - 1;
      var prior := fs[..last];
      var before, f := AppendAll(x, r, prior), fs[last];
      assert Grounded(x, prior) by { GroundedPrefix(x, fs); }
      AppendAllKeeps(x, r, prior);
      match f {
        case EntityFact(e) =>
          AppendEntityKeys(x, before.entities, e);
          NamesGrow(x, before.entities, e);
        case RelationshipFact(l) =>
          AppendRelationshipKeys(x, before.relationships, l);
          EndpointThere(x, r, fs, l.source);
          EndpointThere(x, r, fs, l.target);
          var after := AppendRelationship(x, before.relationships, l);
          forall i | 0 <= i < |after| && NoDangling(x, r) ensures Anchored(x, before.entities, after[i]) {
            if i < |before.relationships| {
              assert RelKey(x, after[i]) == RelKey(x, before.relationships[i]);
              assert Anchored(x, before.entities, before.relationships[i]);
            } else {
              assert RelKey(x, after[i]) == RelKey(x, l);
            }
          }
      }
    }
  }

  lemma GroundedPrefix(x: Strings, fs: seq<Fact>)
    requires Grounded(x, fs) && fs != []
    ensures Grounded(x, fs[..|fs| - 1])
  {}

  lemma EndpointThere(x: Strings, r: Extraction, fs: seq<Fact>, name: string)
    requires fs != [] && Introduced(x, fs, |fs| - 1, name)
    ensures Key(x, name) in NamesOf(x, AppendAll(x, r, fs[..|fs| - 1]).entities)
  {
    var p := fs[..|fs| - 1];
    var a :| 0 <= a < |fs| - 1 && fs[a].EntityFact? && Key(x, fs[a].entity.name) == Key(x, name);
    AppendAllPresent(x, r, p, a);
    var es := AppendAll(x, r, p).entities;
    var i :| 0 <= i < |es| && EntityKey(x, es[i]) == EntityKey(x, p[a].entity);
    assert Key(x, es[i].name) == Key(x, name);
  }

  /** Augmentation keeps entity keys unique and leaves no relationship dangling. */
  lemma AugmentKeepsSound(x: Strings, r: Extraction, m: Matches, text: string, uri: string, allowed: set<string>)
    ensures var s := Augment(x, r, m, text, uri, allowed);
            && (Unique(x, r.entities) ==> Unique(x, s.entities))
            && (NoDangling(x, r) ==> NoDangling(x, s))
  {
    FactsGrounded(x, m, text, uri, allowed);
    AppendAllKeeps(x, r, Facts(x, m, text, uri, allowed));
  }

  // ----- parsing the model's JSON -----

  /** One item of the JSON lists.  Missing strings read as empty, a missing confidence as 0.8; a
      confidence that is no number raises when it is reached. */
  datatype RawEntity = NotADict | RawEntity(etype: string, name: string, props: Props, confidence: Option<real>)
  datatype RawRelationship =
    | NotADictEither
    | RawRelationship(source: string, target: string, rtype: string, props: Props, confidence: Option<real>)

  const RELATIONSHIP_TYPES: set<string> := {
    "AFFECTS", "APPROVED_BY", "AUTHORED", "BLOCKED_BY", "CAUSED_BY", "CAUSED", "DECIDED", "DEPENDS_ON",
    "DEPLOYED_TO", "IMPACTED", "LED_TO", "LEADS", "LEADS_PROJECT", "MANAGES", "MEMBER_OF", "MENTIONS",
    "OWNS", "MAINTAINS", "PART_OF", "PROPOSED_BY", "REPORTED_BY", "REFERENCES", "RELATES_TO",
    "RESOLVED_BY", "RESPONDED_TO", "SUPERSEDES", "USED_IN" }

  function Alias(rtype: string): string {
    if rtype == "CAUSED" then "CAUSED_BY" else if rtype == "DECIDED" then "APPROVED_BY" else rtype
  }

  predicate Wanted(raw: RawEntity, allowed: set<string>) {
    raw.RawEntity? && raw.etype != "" && raw.name != "" && raw.etype in allowed
  }

  /** One more item: skipped, refused by raising (None), dropped as a repetition, or added. */
  function TakeEntity(x: Strings, es: seq<Entity>, raw: RawEntity, allowed: set<string>): Option<seq<Entity>> {
    if !Wanted(raw, allowed) then Some(es)
    else if raw.confidence.None? then None
    else
      var ent := Entity(raw.etype, x.strip(raw.name), raw.props, Clamp01(raw.confidence.value));
      if HasEntity(x, es, ent) then Some(es) else Some(es + [ent])
  }

  function ParsedEntities(x: Strings, raws: seq<RawEntity>, allowed: set<string>): Option<seq<Entity>> {
    if raws == [] then Some([]) else
    var before := ParsedEntities(x, raws[..|raws| - 1], allowed);
    if before.None? then None else TakeEntity(x, before.value, raws[|raws| - 1], allowed)
  }

  function TakeRelationship(x: Strings, rs: seq<Relationship>, raw: RawRelationship, names: set<string>)
    : Option<seq<Relationship>>
  {
    if raw.NotADictEither? then Some(rs)
    else
      var src, tgt, rtype := x.strip(raw.source), x.strip(raw.target), Alias(raw.rtype);
      if src == "" || tgt == "" || rtype == "" || rtype !in RELATIONSHIP_TYPES then Some(rs)
      else if Key(x, src) !in names || Key(x, tgt) !in names then Some(rs)
      else if raw.confidence.None? then None
      else Some(rs + [Relationship(src, tgt, rtype, raw.props, Clamp01(raw.confidence.value))])
  }

  function ParsedRelationships(x: Strings, raws: seq<RawRelationship>, names: set<string>): Option<seq<Relationship>> {
    if raws == [] then Some([]) else
    var before := ParsedRelationships(x, raws[..|raws| - 1], names);
    if before.None? then None else TakeRelationship(x, before.value, raws[|raws| - 1], names)
  }

  lemma {:induction false} RaisedStays(x: Strings, raws: seq<RawEntity>, allowed: set<string>, n: nat)
    requires n <= |raws| && ParsedEntities(x, raws[..n], allowed).None?
    ensures ParsedEntities(x, raws, allowed).None?
    decreases |raws| - n
  {
    if n < |raws| {
      assert raws[..n + 1][..n] == raws[..n];
      RaisedStays(x, raws, allowed, n + 1);
    } else {
      assert raws[..n] == raws;
    }
  }

  lemma {:induction false} RelationshipRaisedStays(x: Strings, raws: seq<RawRelationship>, names: set<string>, n: nat)
    requires n <= |raws| && ParsedRelationships(x, raws[..n], names).None?
    ensures ParsedRelationships(x, raws, names).None?
    decreases |raws| - n
  {
    if n < |raws| {
      assert raws[..n + 1][..n] == raws[..n];
      RelationshipRaisedStays(x, raws, names, n + 1);
    } else {
      assert raws[..n] == raws;
    }
  }

  /** An item of the list with a type that is allowed and a name. */
  predicate Usable(raw: RawEntity, allowed: set<string>) {
    raw.RawEntity? && raw.etype in allowed && raw.etype != "" && raw.name != ""
  }

  /** The first usable item with its type and name, up to case and blanks. */
  predicate FirstUsable(x: Strings, raws: seq<RawEntity>, allowed: set<string>, k: int)
    requires 0 <= k < |raws|
  {
    && Usable(raws[k], allowed)
    && forall j :: 0 <= j < k && Usable(raws[j], allowed) ==>
         raws[j].etype != raws[k].etype || Key(x, x.strip(raws[j].name)) != Key(x, x.strip(raws[k].name))
  }

  function FirstUsables(x: Strings, raws: seq<RawEntity>, allowed: set<string>): (ks: seq<int>)
    ensures forall i :: 0 <= i < |ks| ==> 0 <= ks[i] < |raws|
  {
    if raws == [] then [] else
    var n := |raws| - 1;
    var before := FirstUsables(x, raws[..n], allowed);
    if FirstUsable(x, raws, allowed, n) then before + [n] else before
  }

  predicate Parsed(x: Strings, e: Entity, raw: RawEntity) {
    && raw.RawEntity? && e.etype == raw.etype && e.name == x.strip(raw.name) && e.props == raw.props
    && raw.confidence.Some? && e.confidence == Clamp01(raw.confidence.value)
  }

  lemma {:induction false} UsableKeys(x: Strings, raws: seq<RawEntity>, allowed: set<string>, f: Entity)
    requires ParsedEntities(x, raws, allowed).Some?
    ensures HasEntity(x, ParsedEntities(x, raws, allowed).value, f) <==>
              exists j :: 0 <= j < |raws| && Usable(raws[j], allowed) && raws[j].etype == f.etype
                          && Key(x, x.strip(raws[j].name)) == Key(x, f.name)
    decreases |raws|
  {
    if raws != [] {
      var n := |raws| - 1;
      var raw, before := raws[n], ParsedEntities(x, raws[..n], allowed).value;
      UsableKeys(x, raws[..n], allowed, f);
      var es := ParsedEntities(x, raws, allowed).value;
      if Usable(raw, allowed) {
        var ent := Entity(raw.etype, x.strip(raw.name), raw.props, Clamp01(raw.confidence.value));
        UsableKeys(x, raws[..n], allowed, ent);
        HasOneMore(x, before, ent, f);
      }
      OneMoreUsable(x, raws, allowed, f);
    }
  }

  lemma HasOneMore(x: Strings, es: seq<Entity>, e: Entity, f: Entity)
    ensures HasEntity(x, es + [e], f) <==> HasEntity(x, es, f) || EntityKey(x, e) == EntityKey(x, f)
    ensures HasEntity(x, es, e) && EntityKey(x, e) == EntityKey(x, f) ==> HasEntity(x, es, f)
  {
    var all := es + [e];
    if i :| 0 <= i < |es| && EntityKey(x, es[i]) == EntityKey(x, f) {
      assert EntityKey(x, all[i]) == EntityKey(x, f);
    }
    assert all[|es|] == e;
  }

  ghost predicate UsableLike(x: Strings, raws: seq<RawEntity>, allowed: set<string>, f: Entity) {
    exists j :: 0 <= j < |raws| && Usable(raws[j], allowed) && raws[j].etype == f.etype
                && Key(x, x.strip(raws[j].name)) == Key(x, f.name)
  }

  lemma OneMoreUsable(x: Strings, raws: seq<RawEntity>, allowed: set<string>, f: Entity)
    requires raws != []
    ensures var n := |raws| - 1;
      UsableLike(x, raws, allowed, f) <==>
        UsableLike(x, raws[..n], allowed, f)
        || (Usable(raws[n], allowed) && raws[n].etype == f.etype && Key(x, x.strip(raws[n].name)) == Key(x, f.name))
  {
    var n := |raws| - 1;
    if j :| 0 <= j < n && Usable(raws[..n][j], allowed) && raws[..n][j].etype == f.etype
            && Key(x, x.strip(raws[..n][j].name)) == Key(x, f.name) {
      assert Usable(raws[j], allowed);
    }
  }

  /** Exactly the first usable item of each type and name is parsed, in order, with its own properties
      and its confidence clamped. */
  lemma {:induction false} ParsedEntitiesExactly(x: Strings, raws: seq<RawEntity>, allowed: set<string>)
    requires ParsedEntities(x, raws, allowed).Some?
    ensures var es, ks := ParsedEntities(x, raws, allowed).value, FirstUsables(x, raws, allowed);
      |es| == |ks| && forall i :: 0 <= i < |ks| ==> Parsed(x, es[i], raws[ks[i]])
    decreases |raws|
  {
    hide Key, HasEntity;
    if raws != [] {
      var n := |raws| - 1;
      var raw := raws[n];
      ParsedEntitiesExactly(x, raws[..n], allowed);
      if Usable(raw, allowed) {
        var ent := Entity(raw.etype, x.strip(raw.name), raw.props, Clamp01(raw.confidence.value));
        UsableKeys(x, raws[..n], allowed, ent);
        NewUsable(x, raws, allowed, ent);
      }
    }
  }

  lemma NewUsable(x: Strings, raws: seq<RawEntity>, allowed: set<string>, f: Entity)
    requires raws != [] && Usable(raws[|raws| - 1], allowed)
    requires f.etype == raws[|raws| - 1].etype && f.name == x.strip(raws[|raws| - 1].name)
    ensures FirstUsable(x, raws, allowed, |raws| - 1) <==> !UsableLike(x, raws[..|raws| - 1], allowed, f)
  {
    var n := |raws| - 1;
    if j :| 0 <= j < n && Usable(raws[j], allowed) && raws[j].etype == f.etype
            && Key(x, x.strip(raws[j].name)) == Key(x, f.name) {
      assert raws[..n][j] == raws[j];
    }
  }

  /** Parsing raises exactly if a usable item has a confidence that is no number. */
  lemma {:induction false} ParsingRaisesExactly(x: Strings, raws: seq<RawEntity>, allowed: set<string>)
    ensures ParsedEntities(x, raws, allowed).None? <==>
              exists k :: 0 <= k < |raws| && Usable(raws[k], allowed) && raws[k].confidence.None?
    decreases |raws|
  {
    hide HasEntity;
    if raws != [] {
      var n := |raws| - 1;
      ParsingRaisesExactly(x, raws[..n], allowed);
      if k :| 0 <= k < n && Usable(raws[..n][k], allowed) && raws[..n][k].confidence.None? {
        assert Usable(raws[k], allowed);
      }
      if k :| 0 <= k < n && Usable(raws[k], allowed) && raws[k].confidence.None? {
        assert raws[..n][k] == raws[k];
      }
    }
  }

  /** An item with two extracted endpoints and a known type, two of them under other names. */
  predicate UsableLink(x: Strings, raw: RawRelationship, names: set<string>) {
    && raw.RawRelationship? && x.strip(raw.source) != "" && x.strip(raw.target) != ""
    && Key(x, x.strip(raw.source)) in names && Key(x, x.strip(raw.target)) in names
    && raw.rtype in RELATIONSHIP_TYPES
  }

  function UsableLinks(x: Strings, raws: seq<RawRelationship>, names: set<string>): seq<RawRelationship> {
    if raws == [] then [] else
    var before, raw := UsableLinks(x, raws[..|raws| - 1], names), raws[|raws| - 1];
    if UsableLink(x, raw, names) then before + [raw] else before
  }

  predicate ParsedLink(x: Strings, r: Relationship, raw: RawRelationship) {
    && raw.RawRelationship? && r.source == x.strip(raw.source) && r.target == x.strip(raw.target)
    && r.rtype == (if raw.rtype == "CAUSED" then "CAUSED_BY" else if raw.rtype == "DECIDED" then "APPROVED_BY"
                   else raw.rtype)
    && r.props == raw.props && raw.confidence.Some? && r.confidence == Clamp01(raw.confidence.value)
  }

  /** Exactly the usable relationships are parsed, each once and in order. */
  lemma {:induction false} ParsedRelationshipsExactly(x: Strings, raws: seq<RawRelationship>, names: set<string>)
    requires ParsedRelationships(x, raws, names).Some?
    ensures var rs, used := ParsedRelationships(x, raws, names).value, UsableLinks(x, raws, names);
      |rs| == |used| && forall i :: 0 <= i < |used| ==> ParsedLink(x, rs[i], used[i])
    decreases |raws|
  {
    hide Key, RELATIONSHIP_TYPES;
    if raws != [] {
      ParsedRelationshipsExactly(x, raws[..|raws| - 1], names);
      if raws[|raws| - 1].RawRelationship? {
        KnownTypes(raws[|raws| - 1]);
      }
    }
  }

  lemma KnownTypes(raw: RawRelationship)
    requires raw.RawRelationship?
    ensures Alias(raw.rtype) in RELATIONSHIP_TYPES <==> raw.rtype in RELATIONSHIP_TYPES
    ensures raw.rtype in RELATIONSHIP_TYPES ==> Alias(raw.rtype) != ""
  {}

  method ParseEntities(x: Strings, raws: seq<RawEntity>, allowed: set<string>) returns (r: Option<seq<Entity>>)
    ensures r == ParsedEntities(x, raws, allowed)
  {
    var entities: seq<Entity> := [];
    var seen: set<(string, string)> := {};
    for n := 0 to |raws|
      invariant ParsedEntities(x, raws[..n], allowed) == Some(entities)
      invariant forall k :: k in seen <==> exists i :: 0 <= i < |entities| && EntityKey(x, entities[i]) == k
    {
      assert raws[..n + 1][..n] == raws[..n];
      if raws[n].NotADict? {
        continue;
      }
      var RawEntity(etype, name, props, confidence) := raws[n];
      if etype == "" || name == "" || etype !in allowed {
        continue;
      }
      if confidence.None? {
        RaisedStays(x, raws, allowed, n + 1);
        return None;
      }
      var ent := Entity(etype, x.strip(name), props, Clamp01(confidence.value));
      var fingerprint := EntityKey(x, ent);
      if fingerprint in seen {
        continue;
      }
      seen := seen + {fingerprint};
      ghost var before := entities;
      entities := entities + [ent];
      assert EntityKey(x, entities[|before|]) == fingerprint;
      assert forall i :: 0 <= i < |before| ==> EntityKey(x, entities[i]) == EntityKey(x, before[i]);
    }
    assert raws[..|raws|] == raws;
    return Some(entities);
  }

  method ParseRelationships(x: Strings, raws: seq<RawRelationship>, es: seq<Entity>)
    returns (r: Option<seq<Relationship>>)
    ensures r == ParsedRelationships(x, raws, NamesOf(x, es))
  {
    hide RELATIONSHIP_TYPES;
    var relationships: seq<Relationship> := [];
    var names := NamesOf(x, es);
    for n := 0 to |raws|
      invariant ParsedRelationships(x, raws[..n], names) == Some(relationships)
    {
      assert raws[..n + 1][..n] == raws[..n];
      if raws[n].NotADictEither? {
        continue;
      }
      var RawRelationship(source, target, rawType, props, confidence) := raws[n];
      var src, tgt, rtype := x.strip(source), x.strip(target), Alias(rawType);
      if src == "" || tgt == "" || rtype == "" || rtype !in RELATIONSHIP_TYPES {
        continue;
      }
      if Key(x, src) !in names || Key(x, tgt) !in names {
        continue;
      }
      if confidence.None? {
        RelationshipRaisedStays(x, raws, names, n + 1);
        return None;
      }
      relationships := relationships + [Relationship(src, tgt, rtype, props, Clamp01(confidence.value))];
    }
    assert raws[..|raws|] == raws;
    return Some(relationships);
  }

  ghost predicate WellTyped(es: seq<Entity>, allowed: set<string>) {
    forall i :: 0 <= i < |es| ==> es[i].etype in allowed && 0.0 <= es[i].confidence <= 1.0
  }

  /** Parsed entities have allowed types, unit confidences and unique keys, and no wanted one is lost. */
  lemma {:induction false} ParsedEntitiesSound(x: Strings, raws: seq<RawEntity>, allowed: set<string>)
    requires ParsedEntities(x, raws, allowed).Some?
    ensures var es := ParsedEntities(x, raws, allowed).value;
      && Unique(x, es) && WellTyped(es, allowed)
      && forall i :: 0 <= i < |raws| && Wanted(raws[i], allowed) ==>
           HasEntity(x, es, Entity(raws[i].etype, x.strip(raws[i].name), map[], 0.0))
  {
    if raws != [] {
      var last := |raws| - 1;
      ParsedEntitiesSound(x, raws[..last], allowed);
      var before := ParsedEntities(x, raws[..last], allowed).value;
      var es := ParsedEntities(x, raws, allowed).value;
      assert forall i :: 0 <= i < |before| ==> es[i] == before[i];
      forall i | 0 <= i < |raws| && Wanted(raws[i], allowed)
        ensures HasEntity(x, es, Entity(raws[i].etype, x.strip(raws[i].name), map[], 0.0))
      {
        var f := Entity(raws[i].etype, x.strip(raws[i].name), map[], 0.0);
        if i < last {
          assert raws[..last][i] == raws[i];
          var k :| 0 <= k < |before| && EntityKey(x, before[k]) == EntityKey(x, f);
          assert EntityKey(x, es[k]) == EntityKey(x, f);
        } else if |es| > |before| {
          assert EntityKey(x, es[|before|]) == EntityKey(x, f);
        } else {
          var ent := Entity(raws[i].etype, x.strip(raws[i].name), raws[i].props, Clamp01(raws[i].confidence.value));
          var k :| 0 <= k < |before| && EntityKey(x, before[k]) == EntityKey(x, ent);
          assert EntityKey(x, es[k]) == EntityKey(x, f);
        }
      }
    }
  }

  /** Parsed relationships have known types, unit confidences and extracted endpoints. */
  lemma {:induction false} ParsedRelationshipsSound(x: Strings, raws: seq<RawRelationship>, es: seq<Entity>)
    requires ParsedRelationships(x, raws, NamesOf(x, es)).Some?
    ensures var rs := ParsedRelationships(x, raws, NamesOf(x, es)).value;
      forall i :: 0 <= i < |rs| ==>
        Anchored(x, es, rs[i]) && rs[i].rtype in RELATIONSHIP_TYPES && 0.0 <= rs[i].confidence <= 1.0
  {
    hide RELATIONSHIP_TYPES, NamesOf;
    if raws != [] {
      ParsedRelationshipsSound(x, raws[..|raws| - 1], es);
    }
  }

  /** Everything the extractor returns, incident facts included, has unique entity keys and no
      dangling relationship. */
  lemma ExtractionSound(x: Strings, rawEs: seq<RawEntity>, rawRs: seq<RawRelationship>, m: Matches,
                        text: string, uri: string, allowed: set<string>)
    requires ParsedEntities(x, rawEs, allowed).Some?
    requires ParsedRelationships(x, rawRs, NamesOf(x, ParsedEntities(x, rawEs, allowed).value)).Some?
    ensures var es := ParsedEntities(x, rawEs, allowed).value;
            var rs := ParsedRelationships(x, rawRs, NamesOf(x, es)).value;
            var r := Augment(x, Extraction(es, rs, uri), m, text, uri, allowed);
            Unique(x, r.entities) && NoDangling(x, r)
  {
    hide Augment, RELATIONSHIP_TYPES;
    var es := ParsedEntities(x, rawEs, allowed).value;
    var rs := ParsedRelationships(x, rawRs, NamesOf(x, es)).value;
    ParsedEntitiesSound(x, rawEs, allowed);
    ParsedRelationshipsSound(x, rawRs, es);
    AugmentKeepsSound(x, Extraction(es, rs, uri), m, text, uri, allowed);
  }

  // ----- the result object, updated in place -----

  /** With the first match at `i`, or none and `i` the length, this is what appending once does. */
  lemma {:induction false} AppendEntityAt(x: Strings, es: seq<Entity>, i: nat, f: Entity)
    requires i <= |es| && forall k :: 0 <= k < i ==> EntityKey(x, es[k]) != EntityKey(x, f)
    requires i < |es| ==> EntityKey(x, es[i]) == EntityKey(x, f)
    ensures AppendEntity(x, es, f)
         == if i == |es| then es + [f]
            else es[i := es[i].(props := es[i].props + f.props, confidence := Max(es[i].confidence, f.confidence))]
  {
    if es != [] && i > 0 {
      AppendEntityAt(x, es[1..], i - 1, f);
      assert es == [es[0]] + es[1..];
    }
  }

  lemma {:induction false} AppendRelationshipAt(x: Strings, rs: seq<Relationship>, i: nat, f: Relationship)
    requires i <= |rs| && forall k :: 0 <= k < i ==> RelKey(x, rs[k]) != RelKey(x, f)
    requires i < |rs| ==> RelKey(x, rs[i]) == RelKey(x, f)
    ensures AppendRelationship(x, rs, f)
         == if i == |rs| then rs + [f]
            else rs[i := rs[i].(props := rs[i].props + f.props, confidence := Max(rs[i].confidence, f.confidence))]
  {
    if rs != [] && i > 0 {
      AppendRelationshipAt(x, rs[1..], i - 1, f);
      assert rs == [rs[0]] + rs[1..];
    }
  }

  class ExtractionResult {
    var entities: seq<Entity>
    var relationships: seq<Relationship>
    const uri: string

    function View(): Extraction
      reads this
    {
      Extraction(entities, relationships, uri)
    }

    constructor (entities: seq<Entity>, relationships: seq<Relationship>, uri: string)
      ensures View() == Extraction(entities, relationships, uri)
    {
      this.entities, this.relationships, this.uri := entities, relationships, uri;
    }

    method AppendEntityOnce(x: Strings, etype: string, name: string, props: Props, confidence: real)
      modifies this`entities
      ensures View() == Append(x, old(View()), EntityFact(Entity(etype, name, props, confidence)))
    {
      ghost var f := Entity(etype, name, props, confidence);
      var norm := (etype, Key(x, name));
      for i := 0 to |entities|
        invariant entities == old(entities)
        invariant forall k :: 0 <= k < i ==> EntityKey(x, entities[k]) != norm
      {
        if EntityKey(x, entities[i]) == norm {
          AppendEntityAt(x, entities, i, f);
          var ent := entities[i];
          entities := entities[i := ent.(props := ent.props + props, confidence := Max(ent.confidence, confidence))];
          return;
        }
      }
      AppendEntityAt(x, entities, |entities|, f);
      entities := entities + [Entity(etype, name, props, confidence)];
    }

    method AppendRelationshipOnce(x: Strings, source: string, target: string, rtype: string, props: Props,
                                  confidence: real)
      modifies this`relationships
      ensures View() == Append(x, old(View()), RelationshipFact(Relationship(source, target, rtype, props, confidence)))
    {
      ghost var f := Relationship(source, target, rtype, props, confidence);
      var norm := (Key(x, source), Key(x, target), rtype);
      for i := 0 to |relationships|
        invariant relationships == old(relationships)
        invariant forall k :: 0 <= k < i ==> RelKey(x, relationships[k]) != norm
      {
        if RelKey(x, relationships[i]) == norm {
          AppendRelationshipAt(x, relationships, i, f);
          var rel := relationships[i];
          var raised := rel.(props := rel.props + props, confidence := Max(rel.confidence, confidence));
          relationships := relationships[i := raised];
          return;
        }
      }
      AppendRelationshipAt(x, relationships, |relationships|, f);
      relationships := relationships + [Relationship(source, target, rtype, props, confidence)];
    }

    /** `_augment_incident_message_extraction`, step by step. */
    method AugmentIncident(x: Strings, m: Matches, text: string, uri: string, allowed: set<string>)
      modifies this
      ensures View() == Augment(x, old(View()), m, text, uri, allowed)
    {
      hide IncidentProps, Evidence, CauseSummary, AppendEntity, AppendRelationship;
      if m.incidentIds == [] || "Incident" !in allowed {
        return;
      }
      var id := m.incidentIds[0];
      ghost var r0 := View();
      ghost var done: seq<Fact> := [EntityFact(Entity("Incident", id, IncidentProps(x, m, text, uri), 0.96))];
      AppendEntityOnce(x, "Incident", id, IncidentProps(x, m, text, uri), 0.96);
      AppendAllOne(x, r0, [], done[0]);
      if "Service" in allowed {
        AddService(x, m, text, uri, id);
        AppendAllConcat(x, r0, done, ServiceFacts(x, m, text, uri, id));
        done := done + ServiceFacts(x, m, text, uri, id);
      }
      if m.reporter.Some? && "Team" in allowed {
        var name := x.canonTeam(m.reporter.value);
        ghost var r1 := View();
        AppendEntityOnce(x, "Team", name, map["source_uri" := Text(uri)], 0.94);
        AppendRelationshipOnce(x, name, id, "REPORTED_BY", Evidence(x, text, uri), 0.93);
        AppendAllTwo(x, r1, TeamFacts(x, m, text, uri, id));
        AppendAllConcat(x, r0, done, TeamFacts(x, m, text, uri, id));
        done := done + TeamFacts(x, m, text, uri, id);
      }
      if LeadMatch(m).Some? && "Person" in allowed {
        var name := x.strip(LeadMatch(m).value);
        ghost var r1 := View();
        AppendEntityOnce(x, "Person", name,
          map["role_in_incident" := Text("response lead"), "source_uri" := Text(uri)], 0.95);
        AppendRelationshipOnce(x, name, id, "RESPONDED_TO",
          Evidence(x, text, uri) + map["role" := Text("response lead")], 0.94);
        AppendAllTwo(x, r1, LeadFacts(x, m, text, uri, id));
        AppendAllConcat(x, r0, done, LeadFacts(x, m, text, uri, id));
        done := done + LeadFacts(x, m, text, uri, id);
      }
      assert done == Facts(x, m, text, uri, allowed);
    }

    method AddService(x: Strings, m: Matches, text: string, uri: string, id: string)
      modifies this
      ensures View() == AppendAll(x, old(View()), ServiceFacts(x, m, text, uri, id))
    {
      hide Evidence, CauseSummary, AppendEntity, AppendRelationship;
      ghost var r0, fs := View(), ServiceFacts(x, m, text, uri, id);
      if ServiceMatch(m).Some? {
        var name := x.canonService(ServiceMatch(m).value);
        AppendEntityOnce(x, "Service", name, map["source_uri" := Text(uri)], 0.86);
        AppendRelationshipOnce(x, id, name, "AFFECTS", Evidence(x, text, uri), 0.88);
        AppendAllTwo(x, r0, fs[..2]);
        AppendRelationshipOnce(x, id, name, "IMPACTED", Evidence(x, text, uri), 0.89);
        AppendAllOne(x, r0, fs[..2], fs[2]);
        assert fs[..2] + [fs[2]] == fs[..3];
        if m.cause.Some? || m.symptom.Some? {
          CauseStated(x, m);
          var mechanism := if m.cause.Some? then x.strip(m.cause.value) else x.strip(CauseSummary(x, m).value);
          AppendRelationshipOnce(x, id, name, "CAUSED_BY",
            Evidence(x, text, uri) + map["mechanism" := Text(mechanism)], 0.86);
          AppendAllOne(x, r0, fs[..3], fs[3]);
          assert fs[..3] + [fs[3]] == fs;
        } else {
          assert fs[..3] == fs;
        }
      }
    }
  }

  lemma CauseStated(x: Strings, m: Matches)
    requires m.cause.Some? || m.symptom.Some?
    ensures CauseSummary(x, m).Some?
  {}

  lemma AppendAllOne(x: Strings, r: Extraction, fs: seq<Fact>, f: Fact)
    ensures AppendAll(x, r, fs + [f]) == Append(x, AppendAll(x, r, fs), f)
  {}

  lemma AppendAllTwo(x: Strings, r: Extraction, fs: seq<Fact>)
    requires |fs| == 2
    ensures AppendAll(x, r, fs) == Append(x, Append(x, r, fs[0]), fs[1])
  {
    AppendAllOne(x, r, [], fs[0]);
    AppendAllOne(x, r, [fs[0]], fs[1]);
    assert fs == [] + [fs[0]] + [fs[1]];
  }

  lemma {:induction false} AppendAllConcat(x: Strings, r: Extraction, fs: seq<Fact>, gs: seq<Fact>)
    ensures AppendAll(x, r, fs + gs) == AppendAll(x, AppendAll(x, r, fs), gs)
  {
    if gs == [] {
      assert fs + gs == fs;
    } else {
      var before := gs[..|gs| - 1];
      AppendAllConcat(x, r, fs, before);
      assert fs + gs == fs + before + [gs[|gs| - 1]];
      AppendAllOne(x, r, fs + before, gs[|gs| - 1]);
    }
  }
}
