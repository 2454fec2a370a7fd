// Tables come and go while privileges are reconciled. A default-privileges entry together with a
// whole-schema entry keeps a user's access complete over every interleaving.

module FutureTables {
  import opened Wrappers
  import opened PrivilegeSpec
  import opened Grants
  import opened GrantLaws
  import opened PlanLaws

  /** One promise: `user` has `privs` on the tables of `schema`, also on those `grantor` will create. */
  datatype Promise = Promise(user: string, grantor: string, db: string, schema: string, privs: set<string>)

  datatype Step =
    | CreateTable(creator: string, id: TableId)
    | DropTable(id: TableId)
    | Run(user: string, plan: Plan, fates: nat -> EntryFate)  // anyone's reconcile, however faulty

  /** `guarded`: the tables the promise speaks about so far. */
  datatype World = World(server: Server, guarded: set<TableId>)

  predicate InSchema(q: Promise, id: TableId) {
    id.db == q.db && id.schema == q.schema
  }

  function SchemaTables(q: Promise, s: Server): set<TableId> {
    set id | id in s.tables && InSchema(q, id)
  }

  /** A new table starts with the default privileges its creator has configured in that database. */
  function WithTable(s: Server, creator: string, id: TableId): Server {
    s.(tables := s.tables + {id},
       grants := s.grants + set x | x in s.grants && x.target == DefaultTables(id.db, creator) :: Fact(x.user, Table(id), x.priv))
  }

  function WithoutTable(s: Server, id: TableId): Server {
    s.(tables := s.tables - {id}, grants := set x | x in s.grants && x.target != Table(id))
  }

  /** The plan carries both entries of the promise. */
  ghost predicate Carries(q: Promise, plan: Plan) {
    && (exists i :: 0 <= i < |plan| && plan[i].Some? && plan[i].value.reach == Exact(DefaultTables(q.db, q.grantor)) && q.privs <= Desired(plan[i].value))
    && (exists i :: 0 <= i < |plan| && plan[i].Some? && plan[i].value.reach == AllTables(q.db, q.schema) && q.privs <= Desired(plan[i].value))
  }

  /** No entry of the promise's user decides against it. */
  ghost predicate Respects(q: Promise, plan: Plan) {
    forall i, t :: 0 <= i < |plan| && Decides(plan[i], t) && Concerned(q, t) ==> q.privs <= Desired(plan[i].value)
  }

  ghost predicate Concerned(q: Promise, t: Target) {
    t == DefaultTables(q.db, q.grantor) || (t.Table? && InSchema(q, t.id))
  }

  ghost predicate Friendly(q: Promise, step: Step) {
    step.Run? ==> Owned(step.user, step.plan) && (step.user == q.user ==> Respects(q, step.plan))
  }

  ghost function Advance(q: Promise, w: World, step: Step): World {
    match step
    case CreateTable(creator, id) =>
      if id in w.server.tables then w
      else World(WithTable(w.server, creator, id),
                 if InSchema(q, id) && creator == q.grantor then w.guarded + {id} else w.guarded)
    case DropTable(id) => World(WithoutTable(w.server, id), w.guarded - {id})
    case Run(user, plan, fates) =>
      var a := ApplyEntries(w.server, plan, fates);
      World(a.server, if a.ok && user == q.user && Carries(q, plan) then SchemaTables(q, a.server) else w.guarded)
  }

  ghost function AdvanceAll(q: Promise, w: World, steps: seq<Step>): World {
    if steps == [] then w else Advance(q, AdvanceAll(q, w, steps[..|steps| - 1]), steps[|steps| - 1])
  }

  ghost predicate Kept(q: Promise, w: World) {
    && w.guarded <= SchemaTables(q, w.server)
    && (forall p :: p in q.privs ==> Held(w.server, q.user, DefaultTables(q.db, q.grantor), p))
    && (forall id, p :: id in w.guarded && p in q.privs ==> Held(w.server, q.user, Table(id), p))
  }

  lemma {:induction false} FriendlyRunKeeps(q: Promise, s: Server, user: string, plan: Plan, fates: nat -> EntryFate, t: Target, p: string)
    requires Friendly(q, Run(user, plan, fates))
    requires Concerned(q, t) && p in q.privs && Held(s, q.user, t, p)
    ensures Held(ApplyEntries(s, plan, fates).server, q.user, t, p)
  {
    if plan != [] {
      var n := |plan| - 1;
      assert forall i :: 0 <= i < n ==> plan[..n][i] == plan[i];
      FriendlyRunKeeps(q, s, user, plan[..n], fates, t, p);
      var prev := ApplyEntries(s, plan[..n], fates).server;
      if plan[n].Some? {
        var r := plan[n].value;
        BetweenAtEveryPoint(prev, r, fates(n));
        if Mine(prev, r, Fact(q.user, t, p)) && r.reach.Exact? {
          assert Decides(plan[n], t);
          assert p in Desired(r);
        } else if r.reach.AllTables? {
          AllTablesNeverRevokes(prev, r, fates(n));
        }
      }
    }
  }

  /** A successful run of a plan that carries the promise gives what it asks for wherever it reaches. */
  lemma CarriedIsHeld(q: Promise, s: Server, plan: Plan, fates: nat -> EntryFate, i: nat, t: Target, p: string)
    requires Owned(q.user, plan) && Respects(q, plan) && ApplyEntries(s, plan, fates).ok
    requires i < |plan| && Reaches(s, plan[i], t) && q.privs <= Desired(plan[i].value)
    requires Concerned(q, t) && p in q.privs
    ensures Held(ApplyEntries(s, plan, fates).server, q.user, t, p)
  {
    if Visible(t, p) {
      assert Asks(s, plan[i], t, p);
      if j :| i < j < |plan| && Decides(plan[j], t) {
        var k := LastDecider(plan, t, j);
        assert Asks(s, plan[k], t, p);
      }
      LastEntryWins(s, q.user, plan, fates, t, p);
    } else {
      HiddenAccumulates(s, q.user, plan, fates, t, p);
    }
  }

  /** From any server at all, a successful run of a plan that carries the promise establishes it for every table there is. */
  lemma RunEstablishes(q: Promise, w: World, plan: Plan, fates: nat -> EntryFate)
    requires Owned(q.user, plan) && Respects(q, plan) && Carries(q, plan)
    requires ApplyEntries(w.server, plan, fates).ok
    ensures var w' := Advance(q, w, Run(q.user, plan, fates));
      Kept(q, w') && w'.guarded == SchemaTables(q, w'.server)
  {
    var w' := Advance(q, w, Run(q.user, plan, fates));
    OnlyGrantsChange(w.server, plan, fates);
    var d :| 0 <= d < |plan| && plan[d].Some? && plan[d].value.reach == Exact(DefaultTables(q.db, q.grantor)) && q.privs <= Desired(plan[d].value);
    var a :| 0 <= a < |plan| && plan[a].Some? && plan[a].value.reach == AllTables(q.db, q.schema) && q.privs <= Desired(plan[a].value);
    forall p | p in q.privs ensures Held(w'.server, q.user, DefaultTables(q.db, q.grantor), p) {
      CarriedIsHeld(q, w.server, plan, fates, d, DefaultTables(q.db, q.grantor), p);
    }
    forall id, p | id in w'.guarded && p in q.privs ensures Held(w'.server, q.user, Table(id), p) {
      assert Table(id) in Covered(w.server, plan[a].value.reach);
      CarriedIsHeld(q, w.server, plan, fates, a, Table(id), p);
    }
  }

  lemma StepKeeps(q: Promise, w: World, step: Step)
    requires Kept(q, w) && Friendly(q, step)
    ensures Kept(q, Advance(q, w, step))
  {
    match step {
      case CreateTable(creator, id) =>
        if id !in w.server.tables {
          var w' := Advance(q, w, step);
          forall p | p in q.privs && creator == q.grantor && id.db == q.db ensures Held(w'.server, q.user, Table(id), p) {
            assert Fact(q.user, DefaultTables(q.db, q.grantor), p) in w.server.grants;
          }
        }
      case DropTable(id) =>
      case Run(user, plan, fates) =>
        var a := ApplyEntries(w.server, plan, fates);
        OnlyGrantsChange(w.server, plan, fates);
        if a.ok && user == q.user && Carries(q, plan) {
          RunEstablishes(q, w, plan, fates);
        } else {
          forall t, p | Concerned(q, t) && p in q.privs && Held(w.server, q.user, t, p) ensures Held(a.server, q.user, t, p) {
            FriendlyRunKeeps(q, w.server, user, plan, fates, t, p);
          }
        }
    }
  }

  /**
    Once a run has established the promise, every interleaving of table creation, table removal and
    reconciles keeps it: each table that existed then, each the grantor created since, and all of
    them again after the next successful run.
   */
  lemma {:induction false} PromiseKept(q: Promise, w: World, plan: Plan, fates: nat -> EntryFate, steps: seq<Step>)
    requires Owned(q.user, plan) && Respects(q, plan) && Carries(q, plan)
    requires ApplyEntries(w.server, plan, fates).ok
    requires forall i :: 0 <= i < |steps| ==> Friendly(q, steps[i])
    ensures Kept(q, AdvanceAll(q, Advance(q, w, Run(q.user, plan, fates)), steps))
  {
    var w1 := Advance(q, w, Run(q.user, plan, fates));
    if steps == [] {
      RunEstablishes(q, w, plan, fates);
    } else {
      var n := |steps| - 1;
      assert forall i :: 0 <= i < n ==> steps[..n][i] == steps[i];
      PromiseKept(q, w, plan, fates, steps[..n]);
      StepKeeps(q, AdvanceAll(q, w1, steps[..n]), steps[n]);
    }
  }

  /** While only the grantor creates tables, the promise covers every table of the schema. */
  lemma {:induction false} NoTableLeftOut(q: Promise, w: World, steps: seq<Step>)
    requires w.guarded == SchemaTables(q, w.server)
    requires forall i :: 0 <= i < |steps| && steps[i].CreateTable? && InSchema(q, steps[i].id) ==> steps[i].creator == q.grantor
    ensures AdvanceAll(q, w, steps).guarded == SchemaTables(q, AdvanceAll(q, w, steps).server)
  {
    if steps != [] {
      var n := |steps| - 1;
      assert forall i :: 0 <= i < n ==> steps[..n][i] == steps[i];
      NoTableLeftOut(q, w, steps[..n]);
      if steps[n].Run? {
        OnlyGrantsChange(AdvanceAll(q, w, steps[..n]).server, steps[n].plan, steps[n].fates);
      }
    }
  }
}
