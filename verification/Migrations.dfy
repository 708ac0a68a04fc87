/**
 * Schema migrations as crashable steps: each pending migration is executed, then recorded, in two
 * auto-committed statements.  Any number of processes may start, overlap, die and start again.
 */
module Migrations {

  datatype Migration = Migration(version: int, effect: string)

  /** The schema objects that exist, and the versions recorded as applied. */
  datatype Database = Database(effects: set<string>, recorded: set<int>)

  /** A statement works, or its process dies or raises, the statement having run or not. */
  datatype Fate = Works | Dies(ran: bool)

  /** A process works through its pending migrations; `executed` says that the head has been executed
      and is yet to be recorded. */
  datatype Runner = Running(pending: seq<Migration>, executed: bool, applied: nat) | Done(applied: nat)

  datatype System = System(db: Database, runners: map<int, Runner>)

  datatype Event =
    | Begin(id: int, readFails: bool)
    | Execute(id: int, fate: Fate)
    | Record(id: int, fate: Fate)

  function Pending(reg: seq<Migration>, existing: set<int>): seq<Migration> {
    if reg == [] then []
    else if reg[0].version in existing then Pending(reg[1..], existing)
    else [reg[0]] + Pending(reg[1..], existing)
  }

  function AfterRecording(r: Runner): Runner
    requires r.Running? && r.pending != []
  {
    if |r.pending| == 1 then Done(r.applied + 1) else Running(r.pending[1..], false, r.applied + 1)
  }

  predicate Enabled(s: System, ev: Event) {
    match ev
    case Begin(id, _) => id !in s.runners || s.runners[id].Done?
    case Execute(id, _) =>
      id in s.runners && s.runners[id].Running? && s.runners[id].pending != [] && !s.runners[id].executed
    case Record(id, _) =>
      id in s.runners && s.runners[id].Running? && s.runners[id].pending != [] && s.runners[id].executed
  }

  function Step(reg: seq<Migration>, s: System, ev: Event): System {
    if !Enabled(s, ev) then s else
    match ev
    case Begin(id, readFails) =>
      var pending := Pending(reg, if readFails then {} else s.db.recorded);
      s.(runners := s.runners[id := if pending == [] then Done(0) else Running(pending, false, 0)])
    case Execute(id, fate) =>
      var r := s.runners[id];
      System(if fate == Works || fate.ran then s.db.(effects := s.db.effects + {r.pending[0].effect}) else s.db,
             if fate == Works then s.runners[id := r.(executed := true)] else s.runners - {id})
    case Record(id, fate) =>
      var r := s.runners[id];
      System(if fate == Works || fate.ran then s.db.(recorded := s.db.recorded + {r.pending[0].version}) else s.db,
             if fate == Works then s.runners[id := AfterRecording(r)] else s.runners - {id})
  }

  function Run(reg: seq<Migration>, s: System, evs: seq<Event>): System {
    if evs == [] then s else Step(reg, Run(reg, s, evs[..|evs| - 1]), evs[|evs| - 1])
  }

  // ----- what every step keeps -----

  /** The registry's rule: versions are never reused. */
  predicate Proper(reg: seq<Migration>) {
    forall i, j :: 0 <= i < j < |reg| ==> reg[i].version != reg[j].version
  }

  /** Every recorded registry version has its effect in place. */
  ghost predicate Consistent(reg: seq<Migration>, db: Database) {
    forall m :: m in reg && m.version in db.recorded ==> m.effect in db.effects
  }

  function Effects(reg: seq<Migration>): set<string> {
    set m | m in reg :: m.effect
  }

  function Versions(reg: seq<Migration>): set<int> {
    set m | m in reg :: m.version
  }

  /** From `db0` only registry effects and versions are ever added, and nothing is removed. */
  ghost predicate Between(reg: seq<Migration>, db0: Database, db: Database) {
    && db0.effects <= db.effects <= db0.effects + Effects(reg)
    && db0.recorded <= db.recorded <= db0.recorded + Versions(reg)
  }

  /** What is no longer pending for a process has been recorded. */
  ghost predicate RunnerSound(reg: seq<Migration>, db: Database, r: Runner) {
    match r
    case Running(pending, executed, _) =>
      && pending != [] && (forall m :: m in pending ==> m in reg)
      && (executed ==> pending[0].effect in db.effects)
      && (forall m :: m in reg && m !in pending ==> m.version in db.recorded)
    case Done(_) => forall m :: m in reg ==> m.version in db.recorded
  }

  ghost predicate Inv(reg: seq<Migration>, db0: Database, s: System) {
    && Consistent(reg, s.db) && Between(reg, db0, s.db)
    && forall id :: id in s.runners ==> RunnerSound(reg, s.db, s.runners[id])
  }

  lemma {:induction false} PendingSpec(reg: seq<Migration>, existing: set<int>)
    ensures forall m :: m in Pending(reg, existing) <==> m in reg && m.version !in existing
  {
    if reg != [] {
      PendingSpec(reg[1..], existing);
      assert reg == [reg[0]] + reg[1..];
    }
  }

  /** Pending migrations stand in the order of the registry: more of it leaves those there were in front. */
  lemma {:induction false} PendingInOrder(reg: seq<Migration>, existing: set<int>, n: nat)
    requires n <= |reg|
    ensures Pending(reg[..n], existing) <= Pending(reg, existing)
  {
    if n > 0 {
      assert reg[..n][1..] == reg[1..][..n - 1];
      PendingInOrder(reg[1..], existing, n - 1);
    }
  }

  lemma RunnerStays(reg: seq<Migration>, db: Database, db': Database, r: Runner)
    requires RunnerSound(reg, db, r) && db.effects <= db'.effects && db.recorded <= db'.recorded
    ensures RunnerSound(reg, db', r)
  {}

  lemma StepKeepsInv(reg: seq<Migration>, db0: Database, s: System, ev: Event)
    requires Proper(reg) && Inv(reg, db0, s)
    ensures Inv(reg, db0, Step(reg, s, ev))
  {
    var s' := Step(reg, s, ev);
    if Enabled(s, ev) {
      if ev.Begin? {
        PendingSpec(reg, if ev.readFails then {} else s.db.recorded);
      } else {
        var r := s.runners[ev.id];
        assert RunnerSound(reg, s.db, r);
        HeadInRegistry(reg, s.db, r);
        DatabaseKept(reg, db0, s.db, r, s'.db, ev.Record?);
        if ev.id in s'.runners && ev.Record? {
          RecordedRunner(reg, s.db, r);
        }
      }
      forall id | id in s'.runners ensures RunnerSound(reg, s'.db, s'.runners[id]) {
        if id != ev.id {
          RunnerStays(reg, s.db, s'.db, s.runners[id]);
        }
      }
    }
  }

  lemma HeadInRegistry(reg: seq<Migration>, db: Database, r: Runner)
    requires RunnerSound(reg, db, r) && r.Running?
    ensures r.pending[0] in reg && r.pending[0].effect in Effects(reg) && r.pending[0].version in Versions(reg)
  {}

  /** Executing, or recording what has been executed, keeps the database consistent. */
  lemma DatabaseKept(reg: seq<Migration>, db0: Database, db: Database, r: Runner, db': Database, recording: bool)
    requires Proper(reg) && Consistent(reg, db) && Between(reg, db0, db) && RunnerSound(reg, db, r) && r.Running?
    requires r.pending[0] in reg && r.pending[0].effect in Effects(reg) && r.pending[0].version in Versions(reg)
    requires recording ==> r.executed && (db' == db || db' == db.(recorded := db.recorded + {r.pending[0].version}))
    requires !recording ==> db' == db || db' == db.(effects := db.effects + {r.pending[0].effect})
    ensures Consistent(reg, db') && Between(reg, db0, db')
  {}

  lemma RecordedRunner(reg: seq<Migration>, db: Database, r: Runner)
    requires RunnerSound(reg, db, r) && r.Running?
    ensures RunnerSound(reg, db.(recorded := db.recorded + {r.pending[0].version}), AfterRecording(r))
  {}

  /**
   * At every step of every run, with any number of overlapping processes, crashes between
   * executing and recording, and failed version reads, a recorded version has its effect in place,
   * and only registry effects and versions have been added.
   */
  lemma {:induction false} RunKeepsInv(reg: seq<Migration>, db0: Database, evs: seq<Event>)
    requires Proper(reg) && Consistent(reg, db0)
    ensures Inv(reg, db0, Run(reg, System(db0, map[]), evs))
  {
    if evs != [] {
      RunKeepsInv(reg, db0, evs[..|evs| - 1]);
      StepKeepsInv(reg, db0, Run(reg, System(db0, map[]), evs[..|evs| - 1]), evs[|evs| - 1]);
    }
  }

  /** What a single undisturbed run leaves behind. */
  function Migrated(reg: seq<Migration>, db0: Database): Database {
    Database(db0.effects + Effects(reg), db0.recorded + Versions(reg))
  }

  /**
   * Recovery: as soon as any process completes, after whatever crashes and overlaps, the database
   * is exactly what one undisturbed run would have left, and a run that then reads the versions
   * applies nothing.
   */
  lemma CompletionRecovers(reg: seq<Migration>, db0: Database, evs: seq<Event>, id: int, next: int)
    requires Proper(reg) && Consistent(reg, db0)
    requires var s := Run(reg, System(db0, map[]), evs); id in s.runners && s.runners[id].Done?
    requires Enabled(Run(reg, System(db0, map[]), evs), Begin(next, false))
    ensures var s := Run(reg, System(db0, map[]), evs);
            && s.db == Migrated(reg, db0)
            && Step(reg, s, Begin(next, false)).runners[next] == Done(0)
            && Step(reg, s, Begin(next, false)).db == s.db
  {
    var s := Run(reg, System(db0, map[]), evs);
    RunKeepsInv(reg, db0, evs);
    assert RunnerSound(reg, s.db, s.runners[id]);
    forall m | m in reg ensures m.version in s.db.recorded && m.effect in s.db.effects {}
    assert s.db.recorded == db0.recorded + Versions(reg);
    assert s.db.effects == db0.effects + Effects(reg);
    NothingPending(reg, s.db.recorded);
  }

  lemma {:induction false} NothingPending(reg: seq<Migration>, existing: set<int>)
    requires forall m :: m in reg ==> m.version in existing
    ensures Pending(reg, existing) == []
  {
    if reg != [] {
      assert reg == [reg[0]] + reg[1..];
      NothingPending(reg[1..], existing);
    }
  }

  /** An undisturbed run does complete, having applied exactly the pending migrations. */
  function Undisturbed(id: int, n: nat): seq<Event> {
    if n == 0 then [Begin(id, false)] else Undisturbed(id, n - 1) + [Execute(id, Works)] + [Record(id, Works)]
  }

  lemma RunAppend(reg: seq<Migration>, s: System, evs: seq<Event>, ev: Event)
    ensures Run(reg, s, evs + [ev]) == Step(reg, Run(reg, s, evs), ev)
  {}

  /** One process, `n` migrations into its work. */
  function Progress(pending: seq<Migration>, id: int, n: nat): map<int, Runner>
    requires n <= |pending|
  {
    map[id := if n == |pending| then Done(n) else Running(pending[n..], false, n)]
  }

  lemma {:induction false} UndisturbedProgress(reg: seq<Migration>, db0: Database, id: int, n: nat)
    requires n <= |Pending(reg, db0.recorded)|
    ensures Run(reg, System(db0, map[]), Undisturbed(id, n)).runners == Progress(Pending(reg, db0.recorded), id, n)
    decreases n
  {
    if n == 0 {
      FirstRead(reg, db0, id);
    } else {
      assert Undisturbed(id, n) == Undisturbed(id, n - 1) + [Execute(id, Works)] + [Record(id, Works)];
      UndisturbedProgress(reg, db0, id, n - 1);
      OneMore(reg, System(db0, map[]), Undisturbed(id, n - 1), Pending(reg, db0.recorded), id, n - 1);
    }
  }

  lemma FirstRead(reg: seq<Migration>, db0: Database, id: int)
    ensures Run(reg, System(db0, map[]), Undisturbed(id, 0)).runners == Progress(Pending(reg, db0.recorded), id, 0)
  {}

  lemma OneMore(reg: seq<Migration>, s0: System, before: seq<Event>, pending: seq<Migration>, id: int, n: nat)
    requires n < |pending| && Run(reg, s0, before).runners == Progress(pending, id, n)
    ensures Run(reg, s0, before + [Execute(id, Works)] + [Record(id, Works)]).runners == Progress(pending, id, n + 1)
  {}

  // ----- the loop -----

  /** All of the first `n` statements work. */
  predicate AllWork(fates: nat -> Fate, n: nat) {
    forall q: nat :: q < n ==> fates(q) == Works
  }

  /** The database once `executed` migrations of the plan have been executed and `recorded` recorded. */
  function Reached(db: Database, plan: seq<Migration>, executed: nat, recorded: nat): Database
    requires executed <= |plan| && recorded <= |plan|
  {
    Database(db.effects + Effects(plan[..executed]), db.recorded + Versions(plan[..recorded]))
  }

  /** The q-th statement is the first to fail: the migrations before it are executed and recorded, its own
      executed if it is the second statement of the two, or the first and has run. */
  ghost predicate StoppedAt(db0: Database, plan: seq<Migration>, fates: nat -> Fate, db: Database, q: nat) {
    && q < 2 * |plan| && AllWork(fates, q) && fates(q).Dies?
    && var n := q / 2;
       db == Reached(db0, plan, if q % 2 == 1 || fates(q).ran then n + 1 else n,
                     if q % 2 == 1 && fates(q).ran then n + 1 else n)
  }

  lemma NoneReached(db: Database, plan: seq<Migration>)
    ensures Reached(db, plan, 0, 0) == db
  {}

  lemma OneMoreReached(db: Database, plan: seq<Migration>, n: nat)
    requires n < |plan|
    ensures var before, executed := Reached(db, plan, n, n), Reached(db, plan, n + 1, n);
      && executed == before.(effects := before.effects + {plan[n].effect})
      && Reached(db, plan, n + 1, n + 1) == executed.(recorded := executed.recorded + {plan[n].version})
  {
    assert plan[..n + 1] == plan[..n] + [plan[n]];
    assert Effects(plan[..n + 1]) == Effects(plan[..n]) + {plan[n].effect};
    assert Versions(plan[..n + 1]) == Versions(plan[..n]) + {plan[n].version};
  }

  lemma StoppedExecuting(db0: Database, plan: seq<Migration>, fates: nat -> Fate, db: Database, n: nat)
    requires n < |plan| && AllWork(fates, 2 * n) && fates(2 * n).Dies?
    requires db == Reached(db0, plan, if fates(2 * n).ran then n + 1 else n, n)
    ensures StoppedAt(db0, plan, fates, db, 2 * n)
  {}

  lemma StoppedRecording(db0: Database, plan: seq<Migration>, fates: nat -> Fate, db: Database, n: nat)
    requires n < |plan| && AllWork(fates, 2 * n + 1) && fates(2 * n + 1).Dies?
    requires db == Reached(db0, plan, n + 1, if fates(2 * n + 1).ran then n + 1 else n)
    ensures StoppedAt(db0, plan, fates, db, 2 * n + 1)
  {}

  /** The one process, its next migration executed and not yet recorded. */
  function Executed(pending: seq<Migration>, n: nat): map<int, Runner>
    requires n < |pending|
  {
    map[0 := Running(pending[n..], true, n)]
  }

  lemma StatementSteps(reg: seq<Migration>, db: Database, pending: seq<Migration>, n: nat, fate: Fate)
    requires n < |pending|
    ensures var db' := if fate == Works || fate.ran then db.(effects := db.effects + {pending[n].effect}) else db;
      Step(reg, System(db, Progress(pending, 0, n)), Execute(0, fate))
        == System(db', if fate == Works then Executed(pending, n) else map[])
    ensures var db' := if fate == Works || fate.ran then db.(recorded := db.recorded + {pending[n].version}) else db;
      Step(reg, System(db, Executed(pending, n)), Record(0, fate))
        == System(db', if fate == Works then Progress(pending, 0, n + 1) else map[])
  {
    assert pending[n..][1..] == pending[n + 1..];
  }

  datatype Result = Applied(count: nat) | Failed

  class SchemaDatabase {
    var effects: set<string>
    var recorded: set<int>

    ghost function View(): Database
      reads this
    {
      Database(effects, recorded)
    }

    constructor (effects: set<string>, recorded: set<int>)
      ensures View() == Database(effects, recorded)
    {
      this.effects, this.recorded := effects, recorded;
    }

    /** Executes a schema command; false if it raised. */
    method ExecuteCommand(effect: string, fate: Fate) returns (ok: bool)
      modifies this`effects
      ensures effects == if fate == Works || fate.ran then old(effects) + {effect} else old(effects)
      ensures ok == (fate == Works)
    {
      if fate == Works || fate.ran {
        effects := effects + {effect};
      }
      ok := fate == Works;
    }

    /** Merges the version node; false if that raised. */
    method MergeVersion(version: int, fate: Fate) returns (ok: bool)
      modifies this`recorded
      ensures recorded == if fate == Works || fate.ran then old(recorded) + {version} else old(recorded)
      ensures ok == (fate == Works)
    {
      if fate == Works || fate.ran {
        recorded := recorded + {version};
      }
      ok := fate == Works;
    }

    /** `run_migrations`: `fates` gives the fate of each statement in turn.  `steps` are the events of
        the step system that this run amounts to, for a process called 0. */
    method RunMigrations(reg: seq<Migration>, readFails: bool, fates: nat -> Fate)
      returns (r: Result, ghost steps: seq<Event>)
      modifies this
      ensures var s := Run(reg, System(old(View()), map[]), steps);
              && View() == s.db
              && (r.Applied? <==> s.runners == map[0 := Done(if r.Applied? then r.count else 0)])
              && (r.Failed? ==> s.runners == map[])
      ensures Proper(reg) && old(Consistent(reg, View())) ==> Consistent(reg, View())
      ensures Proper(reg) && old(Consistent(reg, View())) && r.Applied? ==> View() == Migrated(reg, old(View()))
      ensures var plan := Pending(reg, if readFails then {} else old(recorded));
              && (r.Applied? ==> r.count == |plan| && AllWork(fates, 2 * |plan|)
                                 && View() == Reached(old(View()), plan, |plan|, |plan|))
              && (r.Failed? ==> exists q :: StoppedAt(old(View()), plan, fates, View(), q))
    {
      hide Step, Progress, Executed, Reached, StoppedAt, Consistent, Migrated, Pending, Proper;
      ghost var db0 := View();
      ghost var s0 := System(db0, map[]);
      var existing := if readFails then {} else recorded;
      var pending := Pending(reg, existing);
      steps := [Begin(0, readFails)];
      FirstStep(reg, db0, readFails);
      NoneReached(db0, pending);
      if pending == [] {
        r := Applied(0);
        RunOutcome(reg, db0, steps);
        return;
      }
      var applied := 0;
      while applied < |pending|
        invariant 0 <= applied <= |pending| && AllWork(fates, 2 * applied)
        invariant View() == Reached(db0, pending, applied, applied)
        invariant Run(reg, s0, steps) == System(View(), Progress(pending, 0, applied))
      {
        ghost var before := steps;
        var migration := pending[applied];
        StatementSteps(reg, View(), pending, applied, fates(2 * applied));
        OneMoreReached(db0, pending, applied);
        var ok := ExecuteCommand(migration.effect, fates(2 * applied));
        steps := steps + [Execute(0, fates(2 * applied))];
        RunAppend(reg, s0, before, Execute(0, fates(2 * applied)));
        if !ok {
          RunOutcome(reg, db0, steps);
          assert 0 !in Run(reg, s0, steps).runners;
          StoppedExecuting(db0, pending, fates, View(), applied);
          return Failed, steps;
        }
        before := steps;
        StatementSteps(reg, View(), pending, applied, fates(2 * applied + 1));
        ok := MergeVersion(migration.version, fates(2 * applied + 1));
        steps := steps + [Record(0, fates(2 * applied + 1))];
        RunAppend(reg, s0, before, Record(0, fates(2 * applied + 1)));
        if !ok {
          RunOutcome(reg, db0, steps);
          assert 0 !in Run(reg, s0, steps).runners;
          StoppedRecording(db0, pending, fates, View(), applied);
          return Failed, steps;
        }
        applied := applied + 1;
      }
      RunOutcome(reg, db0, steps);
      AllApplied(reg, db0, steps, pending, View());
      return Applied(applied), steps;
    }
  }

  lemma AllApplied(reg: seq<Migration>, db0: Database, steps: seq<Event>, pending: seq<Migration>, db: Database)
    requires Run(reg, System(db0, map[]), steps) == System(db, Progress(pending, 0, |pending|))
    ensures Run(reg, System(db0, map[]), steps).runners == map[0 := Done(|pending|)]
  {}

  lemma FirstStep(reg: seq<Migration>, db0: Database, readFails: bool)
    ensures Run(reg, System(db0, map[]), [Begin(0, readFails)])
         == System(db0, Progress(Pending(reg, if readFails then {} else db0.recorded), 0, 0))
    ensures Progress([], 0, 0) == map[0 := Done(0)]
  {
    RunAppend(reg, System(db0, map[]), [], Begin(0, readFails));
    assert [] + [Begin(0, readFails)] == [Begin(0, readFails)];
  }

  lemma RunOutcome(reg: seq<Migration>, db0: Database, steps: seq<Event>)
    ensures var s := Run(reg, System(db0, map[]), steps);
      Proper(reg) && Consistent(reg, db0) ==>
        Consistent(reg, s.db) && (0 in s.runners && s.runners[0].Done? ==> s.db == Migrated(reg, db0))
  {
    if Proper(reg) && Consistent(reg, db0) {
      var s := Run(reg, System(db0, map[]), steps);
      RunKeepsInv(reg, db0, steps);
      if 0 in s.runners && s.runners[0].Done? {
        CompletionRecovers(reg, db0, steps, 0, 0);
      }
    }
  }
}
