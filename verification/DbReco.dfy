// The Db controller as an instance of the reconcile loop.

module DbReco {
  import opened Reco
  import opened RecoLaws
  import opened Grants

  /** What the callbacks share: whether a connection has been set up, and the server behind it. */
  datatype Session = Session(conn: bool, server: Server)

  datatype DbSpec = DbSpec(name: string, drop: bool, cascade: bool, cockroach: bool, afterCreateSql: bool)

  datatype Lookup = Got | NotThere | Broken

  /** Which of the controller's calls succeed in one pass; a connection that cannot be set up never says "not found". */
  datatype DbFate = DbFate(server: Lookup, connect: bool, getDbs: bool, create: bool, afterSql: bool, drop: bool)

  function Fault<S>(c: Ctx<S>): Ctx<S> {
    c.(faults := c.faults + 1)
  }

  function WithServer(c: Ctx<Session>, s: Server): Ctx<Session> {
    c.(state := c.state.(server := s))
  }

  function LoadDb(spec: DbSpec, f: DbFate, c0: Ctx<Session>): Loaded<Session> {
    var c := c0.(state := c0.state.(conn := false));
    // a missing DbServer reads as "the database does not exist"
    if f.server == NotThere then Loaded(Fault(c), Absent)
    else if f.server == Broken then Loaded(Fault(c), Failed)
    else if !f.connect then Loaded(Fault(c), Failed)
    else
      var c1 := c.(state := c.state.(conn := true));
      if !f.getDbs then Loaded(Fault(c1), Failed)
      else Loaded(c1, if spec.name in c1.state.server.databases then Found else Absent)
  }

  function CreateDb(spec: DbSpec, f: DbFate, c: Ctx<Session>): Reply<Session> {
    if !c.state.conn then Reply(c, true, false)
    else if !f.create then Reply(Sent(c, false), true, false)
    else
      var s := c.state.server;
      var c1 := WithServer(Sent(c, true), s.(databases := s.databases + {spec.name}));
      // a failing AfterCreateSQL is logged and not run again
      Reply(if spec.afterCreateSql then Sent(c1, f.afterSql) else c1, false, false)
  }

  predicate DropAccepted(spec: DbSpec, f: DbFate) {
    f.drop && (spec.cascade ==> spec.cockroach)
  }

  function RemoveDb(spec: DbSpec, f: DbFate, c: Ctx<Session>): Reply<Session>
    requires c.cr.marked && c.state.conn
  {
    if !spec.drop then Reply(c, false, false)
    else if !DropAccepted(spec, f) then Reply(Sent(c, false), true, false)
    else
      var s := c.state.server;
      Reply(WithServer(Sent(c, true), s.(databases := s.databases - {spec.name})), false, false)
  }

  /** Using a connection that was never set up, or the deletion time of a live resource, does not get far. */
  function Crash(c: Ctx<Session>): Reply<Session> {
    Reply(Fault(c), true, true)
  }

  predicate Ready(callback: Callback, c: Ctx<Session>) {
    callback.RemoveObj? ==> c.cr.marked && c.state.conn
  }

  function Instance(spec: DbSpec, f: DbFate): Reconcilable<Session> {
    Reconcilable(
      true,
      (c: Ctx<Session>) => LoadDb(spec, f, c),
      (c: Ctx<Session>) => CreateDb(spec, f, c),
      (c: Ctx<Session>) => if Ready(RemoveObj, c) then RemoveDb(spec, f, c) else Crash(c),
      (c: Ctx<Session>) => Reply(c, false, false),
      (callback: Callback, c: Ctx<Session>) => Ready(callback, c))
  }

  lemma InstanceLawful(spec: DbSpec, f: DbFate)
    ensures Lawful(Instance(spec, f))
  {
    forall c ensures LawfulAt(Instance(spec, f), c) {
      assert Instance(spec, f).loadObj(c) == LoadDb(spec, f, c);
    }
  }

  // ---------- Guarantees ----------

  ghost predicate Exists(spec: DbSpec, c: Ctx<Session>) {
    spec.name in c.state.server.databases
  }

  datatype DbStep = Mark | Collect | Outside(change: Session -> Session) | Pass(f: DbFate, api: ApiFate)

  function Lift(spec: DbSpec, step: DbStep): Step<Session> {
    match step
    case Mark => Step.Mark
    case Collect => Step.Collect
    case Outside(change) => Step.Outside(change)
    case Pass(f, api) => Step.Pass(Instance(spec, f), api)
  }

  function Lifted(spec: DbSpec, steps: seq<DbStep>): (r: seq<Step<Session>>)
    ensures |r| == |steps|
    ensures forall i :: 0 <= i < |r| ==> r[i] == Lift(spec, steps[i])
  {
    seq(|steps|, i requires 0 <= i < |steps| => Lift(spec, steps[i]))
  }

  /**
    Over every run: a Db with drop-on-deletion that held the finalizer is gone from the API only
    after a pass at whose end the database was not on the server, or whose DbServer was not found.
   */
  lemma GoneOnlyWhenDropped(spec: DbSpec, w: World<Session>, steps: seq<DbStep>) returns (k: nat)
    requires spec.drop
    requires w.Live? && w.ctx.cr.finalizer
    requires After(w, Lifted(spec, steps)).Gone?
    ensures k < |steps| && steps[k].Pass?
    ensures After(w, Lifted(spec, steps)[..k]).Live? && After(w, Lifted(spec, steps)[..k]).ctx.cr.marked
    ensures || steps[k].f.server == NotThere
            || !Exists(spec, PassDb(spec, After(w, Lifted(spec, steps)[..k]).ctx, steps[k].f, steps[k].api).ctx)
  {
    forall i | 0 <= i < |steps| && steps[i].Pass? ensures Lawful(Instance(spec, steps[i].f)) {
      InstanceLawful(spec, steps[i].f);
    }
    k := VanishesOnlyWithExcuse(w, Lifted(spec, steps));
    var c := After(w, Lifted(spec, steps)[..k]).ctx;
    ReleasedOnlyWithExcuse(Instance(spec, steps[k].f), c, steps[k].api);
  }

  /** A marked Db that keeps its finalizer is always retried. */
  lemma NeverForgotten(spec: DbSpec, c: Ctx<Session>, f: DbFate, api: ApiFate)
    requires c.cr.marked && c.cr.finalizer
    ensures var o := PassDb(spec, c, f, api); o.ctx.cr.finalizer ==> o.requeue
  {
    InstanceLawful(spec, f);
    assert Instance(spec, f).loadObj(c) == LoadDb(spec, f, c);
    ForgottenExactly(Instance(spec, f), c, api);
  }

  /** The server accepts a drop: CASCADE only from CockroachDB. */
  ghost predicate Droppable(spec: DbSpec, f: DbFate) {
    f.drop && (!spec.cascade || spec.cockroach)
  }

  /**
    When a pass lets go of a marked Db: the resource can be read and updated, and its DbServer is gone, or the server
    was asked and the database was not there, is to be kept, or was dropped. Of the databases only a dropped one goes.
   */
  lemma ReleasedDbExactly(spec: DbSpec, c: Ctx<Session>, f: DbFate, api: ApiFate)
    requires c.cr.marked && c.cr.finalizer
    ensures var o := PassDb(spec, c, f, api);
      && (!o.ctx.cr.finalizer <==>
           && api.get && api.update
           && (f.server == NotThere || (f.server == Got && f.connect && f.getDbs && (!Exists(spec, c) || !spec.drop || Droppable(spec, f)))))
      && o.ctx.state.server.databases == c.state.server.databases -
           (if api.get && f.server == Got && f.connect && f.getDbs && spec.drop && Droppable(spec, f) then {spec.name} else {})
  {
    InstanceLawful(spec, f);
    var rcl, load := Instance(spec, f), LoadDb(spec, f, c);
    assert rcl.loadObj(c) == load;
    if load.outcome == Found {
      assert rcl.removeObj(load.ctx) == RemoveDb(spec, f, load.ctx);
    }
    ReleasedExactly(rcl, c, api);
  }

  /** Creating a database sends the statement, the one to run after creation if there is one, and the finalizer if it is missing. */
  lemma CreationSends(spec: DbSpec, c: Ctx<Session>, f: DbFate)
    requires !c.cr.marked && !Exists(spec, c)
    requires f.server == Got && f.connect && f.getDbs && f.create
    ensures var o := PassDb(spec, c, f, ApiFate(true, true));
      && o.ctx.writes == c.writes + 1 + (if spec.afterCreateSql then 1 else 0) + (if c.cr.finalizer then 0 else 1)
      && o.ctx.state.server.databases == c.state.server.databases + {spec.name}
  {
  }

  ghost predicate Settled(spec: DbSpec, c: Ctx<Session>) {
    c.cr.finalizer && Exists(spec, c)
  }

  function PassDb(spec: DbSpec, c: Ctx<Session>, f: DbFate, api: ApiFate): Outcome<Session> {
    Reconcile(Instance(spec, f), c, api)
  }

  /** A pass over a live Db never loses ground, repairs everything unless a call fails, and says so truthfully. */
  lemma PassOverLiveDb(spec: DbSpec, c: Ctx<Session>, f: DbFate, api: ApiFate)
    requires !c.cr.marked
    ensures var o := PassDb(spec, c, f, api);
      && !o.ctx.cr.marked
      && (c.cr.finalizer ==> o.ctx.cr.finalizer) && (Exists(spec, c) ==> Exists(spec, o.ctx))
      && (Settled(spec, c) ==> Settled(spec, o.ctx) && o.ctx.writes == c.writes && o.ctx.state.server == c.state.server)
      && (o.ctx.faults == c.faults ==> Settled(spec, o.ctx))
      && (o.loaded && !o.requeue ==> Settled(spec, o.ctx))
      && c.faults <= o.ctx.faults
  {
  }

  function Passes(spec: DbSpec, c: Ctx<Session>, fates: seq<(DbFate, ApiFate)>): Ctx<Session> {
    if fates == [] then c
    else
      var n := |fates| - 1;
      PassDb(spec, Passes(spec, c, fates[..n]), fates[n].0, fates[n].1).ctx
  }

  /** Fewer faults than passes settle a live Db: k faults are absorbed within k + 1 passes. */
  lemma {:induction false} FaultsAbsorbed(spec: DbSpec, c: Ctx<Session>, fates: seq<(DbFate, ApiFate)>)
    requires !c.cr.marked
    ensures var end := Passes(spec, c, fates);
      && !end.cr.marked
      && (end.faults < c.faults + |fates| ==> Settled(spec, end))
  {
    if fates != [] {
      var n := |fates| - 1;
      FaultsAbsorbed(spec, c, fates[..n]);
      PassOverLiveDb(spec, Passes(spec, c, fates[..n]), fates[n].0, fates[n].1);
    }
  }
}
