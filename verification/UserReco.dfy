// The Postgres/CockroachDB User controller as an instance of the reconcile loop.

module UserReco {
  import opened Wrappers
  import opened Text
  import opened Reco
  import opened RecoLaws
  import opened PrivilegeSpec
  import opened Grants
  import opened GrantLaws
  import opened PlanLaws
  import opened DbReco
  import Funk

  datatype UserSpec = UserSpec(name: string, generateSecret: bool, serverPrivs: string, entries: seq<DbPriv>, product: Product,
                               drop: bool, revokePrivileges: bool, conflictingOptions: bool)

  /** Which of the controller's calls succeed in one pass. */
  datatype UserFate = UserFate(server: Lookup, connect: Lookup, getUsers: bool, secret: bool, credentials: bool,
                               create: bool, update: Grants.UserFate, revoke: nat -> RevokeFate, drop: bool)

  function PlanFor(spec: UserSpec): Plan {
    PlanOf(spec.name, spec.entries, spec.product)
  }

  function LoadUser(spec: UserSpec, f: UserFate, c0: Ctx<Session>): Loaded<Session> {
    var c := c0.(state := c0.state.(conn := false));
    if f.server != Got then Loaded(Fault(c), if f.server == NotThere then Missing else Failed)
    else if f.connect != Got then Loaded(Fault(c), if f.connect == NotThere then Missing else Failed)
    else
      var c1 := c.(state := c.state.(conn := true));
      if !f.getUsers then Loaded(Fault(c1), Failed)
      else Loaded(c1, if spec.name in c1.state.server.roles then Found else Absent)
  }

  predicate Ready(spec: UserSpec, callback: Callback, c: Ctx<Session>) {
    && c.state.conn
    && (callback.RemoveObj? ==> c.cr.marked)
    && (callback.EnsureCorrect? ==> spec.name in c.state.server.roles)
  }

  function CorrectUser(spec: UserSpec, f: UserFate, c: Ctx<Session>): Reply<Session>
    requires Ready(spec, EnsureCorrect, c)
  {
    var a := UpdateUserPrivs(c.state.server, spec.name, spec.serverPrivs, PlanFor(spec), f.update);
    var c1 := WithServer(c, a.server).(writes := c.writes + a.issued);
    if a.ok then Reply(c1, false, false) else Reply(Fault(c1), true, false)
  }

  /** The attributes CREATE USER ... LOGIN gives. */
  const FRESH_ATTRS: set<string> := {"LOGIN", "INHERIT"}

  function CreateUser(spec: UserSpec, f: UserFate, c: Ctx<Session>): Reply<Session>
    requires Ready(spec, CreateObj, c)
  {
    if spec.generateSecret && !f.secret then Reply(Fault(c), true, true)
    else if !f.credentials then Reply(Fault(c), true, false)
    else if !f.create then Reply(Sent(c, false), true, false)
    else
      var s := c.state.server;
      CorrectUser(spec, f, WithServer(Sent(c, true), s.(roles := s.roles[spec.name := FRESH_ATTRS])))
  }

  /** A role that still holds privileges cannot be dropped. */
  predicate HoldsAny(s: Server, user: string) {
    exists x :: x in s.grants && x.user == user
  }

  function DropUser(spec: UserSpec, f: UserFate, s: Server): (Server, bool) {
    if spec.conflictingOptions then (s, false)
    else
      var (s1, ok) := if spec.revokePrivileges && spec.entries != [] then RevokeAllDbPrivs(s, PlanFor(spec), f.revoke) else (s, true);
      if !ok || !f.drop || HoldsAny(s1, spec.name) then (s1, false)
      else (s1.(roles := s1.roles - {spec.name}), true)
  }

  function RemoveUser(spec: UserSpec, f: UserFate, c: Ctx<Session>): Reply<Session>
    requires Ready(spec, RemoveObj, c)
  {
    if !spec.drop then Reply(c, false, false)
    else
      var (s, ok) := DropUser(spec, f, c.state.server);
      Reply(WithServer(Sent(c, ok), s), !ok, false)
  }

  function Instance(spec: UserSpec, f: UserFate): Reconcilable<Session> {
    Reconcilable(
      false,
      (c: Ctx<Session>) => LoadUser(spec, f, c),
      (c: Ctx<Session>) => if Ready(spec, CreateObj, c) then CreateUser(spec, f, c) else Crash(c),
      (c: Ctx<Session>) => if Ready(spec, RemoveObj, c) then RemoveUser(spec, f, c) else Crash(c),
      (c: Ctx<Session>) => if Ready(spec, EnsureCorrect, c) then CorrectUser(spec, f, c) else Crash(c),
      (callback: Callback, c: Ctx<Session>) => Ready(spec, callback, c))
  }

  lemma LoadGrows(spec: UserSpec, f: UserFate, c: Ctx<Session>)
    ensures var load := LoadUser(spec, f, c);
      && Grows(c, load.ctx) && load.ctx.cr == c.cr && load.ctx.state.server == c.state.server
      && (load.outcome == Found <==> f.server == Got && f.connect == Got && f.getUsers && spec.name in c.state.server.roles)
      && (load.outcome == Absent <==> f.server == Got && f.connect == Got && f.getUsers && spec.name !in c.state.server.roles)
      && (load.outcome == Found || load.outcome == Absent ==> load.ctx.state.conn && load.ctx.faults == c.faults && load.ctx.writes == c.writes)
      && (load.outcome == Missing || load.outcome == Failed ==> load.ctx.faults == c.faults + 1)
      && (load.outcome == Missing ==> f.server == NotThere || f.connect == NotThere)
  {
  }

  lemma CallbacksGrow(spec: UserSpec, f: UserFate, c: Ctx<Session>)
    ensures Ready(spec, CreateObj, c) ==> Grows(c, CreateUser(spec, f, c).ctx)
    ensures Ready(spec, RemoveObj, c) ==> Grows(c, RemoveUser(spec, f, c).ctx)
    ensures Ready(spec, EnsureCorrect, c) ==> Grows(c, CorrectUser(spec, f, c).ctx)
  {
  }

  lemma InstanceLawful(spec: UserSpec, f: UserFate)
    ensures Lawful(Instance(spec, f))
  {
    var rcl := Instance(spec, f);
    forall c ensures LawfulAt(rcl, c) {
      LoadGrows(spec, f, c);
      CallbacksGrow(spec, f, c);
      assert rcl.loadObj(c) == LoadUser(spec, f, c);
      assert rcl.createObj(c) == if Ready(spec, CreateObj, c) then CreateUser(spec, f, c) else Crash(c);
      assert rcl.removeObj(c) == if Ready(spec, RemoveObj, c) then RemoveUser(spec, f, c) else Crash(c);
      assert rcl.ensureCorrect(c) == if Ready(spec, EnsureCorrect, c) then CorrectUser(spec, f, c) else Crash(c);
    }
  }

  function PassUser(spec: UserSpec, c: Ctx<Session>, f: UserFate, api: ApiFate): Outcome<Session> {
    Reconcile(Instance(spec, f), c, api)
  }

  // ---------- Safety of deletion ----------

  datatype UserStep = Mark | Collect | Outside(change: Session -> Session) | Pass(f: UserFate, api: ApiFate)

  function Lift(spec: UserSpec, step: UserStep): Step<Session> {
    match step
    case Mark => Step.Mark
    case Collect => Step.Collect
    case Outside(change) => Step.Outside(change)
    case Pass(f, api) => Step.Pass(Instance(spec, f), api)
  }

  function Lifted(spec: UserSpec, steps: seq<UserStep>): (r: seq<Step<Session>>)
    ensures |r| == |steps|
    ensures forall i :: 0 <= i < |r| ==> r[i] == Lift(spec, steps[i])
  {
    seq(|steps|, i requires 0 <= i < |steps| => Lift(spec, steps[i]))
  }

  /**
    Over every run: a User with drop-on-deletion that held the finalizer is gone from the API only
    after a pass at whose end the role was not on the server, or one of whose lookups answered
    "not found".
   */
  lemma GoneOnlyWhenDropped(spec: UserSpec, w: World<Session>, steps: seq<UserStep>) returns (k: nat)
    requires spec.drop
    requires w.Live? && w.ctx.cr.finalizer
    requires After(w, Lifted(spec, steps)).Gone?
    ensures k < |steps| && steps[k].Pass?
    ensures After(w, Lifted(spec, steps)[..k]).Live? && After(w, Lifted(spec, steps)[..k]).ctx.cr.marked
    ensures || steps[k].f.server == NotThere || steps[k].f.connect == NotThere
            || spec.name !in PassUser(spec, After(w, Lifted(spec, steps)[..k]).ctx, steps[k].f, steps[k].api).ctx.state.server.roles
  {
    forall i | 0 <= i < |steps| && steps[i].Pass? ensures Lawful(Instance(spec, steps[i].f)) {
      InstanceLawful(spec, steps[i].f);
    }
    k := VanishesOnlyWithExcuse(w, Lifted(spec, steps));
    var c := After(w, Lifted(spec, steps)[..k]).ctx;
    ReleasedOnlyWithExcuse(Instance(spec, steps[k].f), c, steps[k].api);
  }

  /** A marked User whose DbServer is gone, and an update that fails: it keeps its finalizer and is not tried again. */
  lemma ForgottenUser(spec: UserSpec, c: Ctx<Session>, f: UserFate)
    requires c.cr.marked && c.cr.finalizer && f.server == NotThere
    ensures var o := PassUser(spec, c, f, ApiFate(true, false)); o.ctx.cr.finalizer && !o.requeue
  {
    InstanceLawful(spec, f);
    assert Instance(spec, f).loadObj(c) == LoadUser(spec, f, c);
    ForgottenExactly(Instance(spec, f), c, ApiFate(true, false));
  }

  /** A marked User that cannot be read: the same. */
  lemma UnreadUser(spec: UserSpec, c: Ctx<Session>, f: UserFate, update: bool)
    requires c.cr.marked && c.cr.finalizer
    ensures var o := PassUser(spec, c, f, ApiFate(false, update)); o.ctx.cr.finalizer && !o.requeue
  {
    InstanceLawful(spec, f);
    ForgottenExactly(Instance(spec, f), c, ApiFate(false, update));
  }

  // ---------- Convergence ----------

  /** Everything that can be wrong with a live User. */
  datatype Defect = NoRole | NoFinalizer | Attribute(flag: string) | Privilege(target: Target, priv: string)

  ghost predicate Has(spec: UserSpec, c: Ctx<Session>, d: Defect) {
    var s := c.state.server;
    match d
    case NoRole => spec.name !in s.roles
    case NoFinalizer => !c.cr.finalizer
    case Attribute(flag) =>
      var flags := ParseRoleAttrs(spec.serverPrivs);
      flags.Some? && flag in flags.value && (spec.name !in s.roles || flag !in s.roles[spec.name])
    case Privilege(t, p) => Wrong(s, spec.name, PlanFor(spec), t, p)
  }

  ghost predicate NoNegativeFlags(spec: UserSpec) {
    var flags := ParseRoleAttrs(spec.serverPrivs);
    flags.Some? && forall flag :: flag in flags.value ==> !Negative(flag)
  }

  /** The spec can be met and recognised as met. */
  ghost predicate Sound(spec: UserSpec, s: Server) {
    Compatible(s, PlanFor(spec)) && NoNegativeFlags(spec)
  }

  ghost predicate Settled(spec: UserSpec, c: Ctx<Session>) {
    var s := c.state.server;
    && c.cr.finalizer && spec.name in s.roles
    && ParseRoleAttrs(spec.serverPrivs).Some? && !WantsAlter(s.roles[spec.name], ParseRoleAttrs(spec.serverPrivs).value)
    && AllSatisfied(s, PlanFor(spec))
  }

  /** A settled User is one without defects. */
  lemma SettledIffNoDefect(spec: UserSpec, c: Ctx<Session>)
    requires Sound(spec, c.state.server)
    ensures Settled(spec, c) <==> forall d :: !Has(spec, c, d)
  {
    PlanIsOwned(spec.name, spec.entries, spec.product);
    NothingWrong(c.state.server, spec.name, PlanFor(spec));
    if Settled(spec, c) {
      forall d ensures !Has(spec, c, d) {
      }
    }
    if forall d :: !Has(spec, c, d) {
      NoDefectSettles(spec, c);
    }
  }

  lemma NoDefectSettles(spec: UserSpec, c: Ctx<Session>)
    requires Sound(spec, c.state.server) && forall d :: !Has(spec, c, d)
    ensures Settled(spec, c)
  {
    var s := c.state.server;
    PlanIsOwned(spec.name, spec.entries, spec.product);
    NothingWrong(s, spec.name, PlanFor(spec));
    assert !Has(spec, c, NoRole) && !Has(spec, c, NoFinalizer);
    forall t, p ensures !Wrong(s, spec.name, PlanFor(spec), t, p) {
      assert !Has(spec, c, Privilege(t, p));
    }
    forall flag | flag in ParseRoleAttrs(spec.serverPrivs).value ensures flag in s.roles[spec.name] {
      assert !Has(spec, c, Attribute(flag));
    }
  }

  /** What EnsureCorrect does to the server, whatever fails. */
  lemma CorrectRepairs(spec: UserSpec, s: Server, f: Grants.UserFate)
    requires spec.name in s.roles
    ensures var a := UpdateUserPrivs(s, spec.name, spec.serverPrivs, PlanFor(spec), f);
      && a.server.tables == s.tables && spec.name in a.server.roles
      && (NoNegativeFlags(spec) ==> s.roles[spec.name] <= a.server.roles[spec.name])
      && (Compatible(s, PlanFor(spec)) ==>
            forall t, p :: Wrong(a.server, spec.name, PlanFor(spec), t, p) ==> Wrong(s, spec.name, PlanFor(spec), t, p))
  {
    var plan := PlanFor(spec);
    var flags := ParseRoleAttrs(spec.serverPrivs);
    PlanIsOwned(spec.name, spec.entries, spec.product);
    if f.readRole && f.version && flags.Some? {
      var altering := WantsAlter(s.roles[spec.name], flags.value);
      if !altering || f.alter {
        var s1 := if altering then s.(roles := s.roles[spec.name := Alter(s.roles[spec.name], flags.value)]) else s;
        OnlyGrantsChange(s1, plan, f.entry);
        if NoNegativeFlags(spec) {
          PositiveAlterAdds(s.roles[spec.name], flags.value);
        }
        if Compatible(s, plan) {
          SameTables(s, s1, plan);
          var a := ApplyEntries(s1, plan, f.entry);
          forall t, p | Wrong(a.server, spec.name, plan, t, p) ensures Wrong(s, spec.name, plan, t, p) {
            RunOnlyRepairs(s1, spec.name, plan, plan, f.entry, t, p);
            SameGrantsSameWrongs(s1, s, spec.name, plan, t, p);
          }
        }
      }
    }
  }

  lemma CreatedHasRole(spec: UserSpec, f: UserFate, c: Ctx<Session>)
    requires Ready(spec, CreateObj, c)
    ensures var r := CreateUser(spec, f, c); !r.requeue && !r.err ==> spec.name in r.ctx.state.server.roles
  {
    var s := c.state.server;
    CorrectRepairs(spec, s.(roles := s.roles[spec.name := FRESH_ATTRS]), f.update);
  }

  lemma PositiveAlterAdds(attrs: set<string>, flags: seq<string>)
    requires forall flag :: flag in flags ==> !Negative(flag)
    ensures attrs <= Alter(attrs, flags)
    ensures forall flag :: flag in flags ==> flag in Alter(attrs, flags)
  {
    forall a | a in attrs ensures a in Alter(attrs, flags) {
      assert Negative("NO" + a);
    }
  }

  lemma SameGrantsSameWrongs(s: Server, s': Server, user: string, plan: Plan, t: Target, p: string)
    requires s.grants == s'.grants && s.tables == s'.tables
    ensures Wrong(s, user, plan, t, p) <==> Wrong(s', user, plan, t, p)
  {
    forall i | 0 <= i < |plan| && plan[i].Some? ensures Covered(s, plan[i].value.reach) == Covered(s', plan[i].value.reach) {
    }
    assert forall i :: 0 <= i < |plan| ==> (Asks(s, plan[i], t, p) <==> Asks(s', plan[i], t, p));
  }

  /** What an attribute is after the flags have been applied: on if its own flag is there, off if its NO flag is, else as it was. */
  ghost predicate AsFlagged(before: set<string>, after: set<string>, flags: seq<string>, attr: string) {
    attr in after <==> if attr in flags then true else if ("NO" + attr) in flags then false else attr in before
  }

  lemma AlterFlagByFlag(attrs: set<string>, flags: seq<string>, attr: string)
    requires !Negative(attr)
    ensures AsFlagged(attrs, Alter(attrs, flags), flags, attr)
    ensures !WantsAlter(attrs, flags) ==> AsFlagged(attrs, attrs, flags, attr)
  {
    assert Negative("NO" + attr);
  }

  /** After a successful update each attribute of the role is as its flags say, and no other role has changed. */
  lemma AttributesAsFlagged(s: Server, user: string, serverPrivs: string, plan: Plan, f: Grants.UserFate, attr: string)
    requires user in s.roles && !Negative(attr) && UpdateUserPrivs(s, user, serverPrivs, plan, f).ok
    ensures var s' := UpdateUserPrivs(s, user, serverPrivs, plan, f).server;
      && ParseRoleAttrs(serverPrivs).Some? && user in s'.roles
      && AsFlagged(s.roles[user], s'.roles[user], ParseRoleAttrs(serverPrivs).value, attr)
      && s'.roles - {user} == s.roles - {user}
  {
    var flags := ParseRoleAttrs(serverPrivs).value;
    var altering := WantsAlter(s.roles[user], flags);
    var s1 := if altering then s.(roles := s.roles[user := Alter(s.roles[user], flags)]) else s;
    OnlyGrantsChange(s1, plan, f.entry);
    AlterFlagByFlag(s.roles[user], flags, attr);
  }

  /** When EnsureCorrect succeeds, the server side is settled exactly for a sound spec. */
  lemma CorrectSettles(spec: UserSpec, s: Server, f: Grants.UserFate)
    requires spec.name in s.roles
    requires UpdateUserPrivs(s, spec.name, spec.serverPrivs, PlanFor(spec), f).ok
    ensures var s' := UpdateUserPrivs(s, spec.name, spec.serverPrivs, PlanFor(spec), f).server;
      && spec.name in s'.roles && ParseRoleAttrs(spec.serverPrivs).Some?
      && (!WantsAlter(s'.roles[spec.name], ParseRoleAttrs(spec.serverPrivs).value) <==> NoNegativeFlags(spec))
      && (AllSatisfied(s', PlanFor(spec)) <==> Compatible(s, PlanFor(spec)))
  {
    var plan := PlanFor(spec);
    var flags := ParseRoleAttrs(spec.serverPrivs).value;
    PlanIsOwned(spec.name, spec.entries, spec.product);
    var altering := WantsAlter(s.roles[spec.name], flags);
    var s1 := if altering then s.(roles := s.roles[spec.name := Alter(s.roles[spec.name], flags)]) else s;
    OnlyGrantsChange(s1, plan, f.entry);
    SettledIffCompatible(s1, spec.name, plan, f.entry);
    if Compatible(s, plan) {
      SameTables(s, s1, plan);
    }
    if Compatible(s1, plan) {
      SameTables(s1, s, plan);
    }
    if NoNegativeFlags(spec) {
      PositiveAlterAdds(s.roles[spec.name], flags);
    }
  }

  /** A settled User gives EnsureCorrect nothing to send. */
  lemma SettledIsSilent(spec: UserSpec, c: Ctx<Session>, f: Grants.UserFate)
    requires Settled(spec, c)
    ensures var a := UpdateUserPrivs(c.state.server, spec.name, spec.serverPrivs, PlanFor(spec), f);
      a.issued == 0 && a.server == c.state.server
  {
    SilentIffSatisfied(c.state.server, PlanFor(spec), f.entry);
  }

  /** However faulty, a pass over a live User introduces no defect. */
  lemma NoNewDefect(spec: UserSpec, c: Ctx<Session>, f: UserFate, api: ApiFate, d: Defect)
    requires !c.cr.marked && Sound(spec, c.state.server)
    requires Has(spec, PassUser(spec, c, f, api).ctx, d)
    ensures Has(spec, c, d)
  {
    var s := c.state.server;
    var o := PassUser(spec, c, f, api);
    InstanceLawful(spec, f);
    LivePassGrows(Instance(spec, f), c, api);
    PassOutcome(spec, c, f, api);
    if spec.name in s.roles {
      CorrectRepairs(spec, s, f.update);
    } else {
      var s1 := s.(roles := s.roles[spec.name := FRESH_ATTRS]);
      SameTables(s, s1, PlanFor(spec));
      CorrectRepairs(spec, s1, f.update);
      if d.Privilege? {
        SameGrantsSameWrongs(s1, s, spec.name, PlanFor(spec), d.target, d.priv);
      }
    }
  }

  /** The server with the role in place, as EnsureCorrect finds it. */
  function WithRole(spec: UserSpec, s: Server): Server {
    if spec.name in s.roles then s else s.(roles := s.roles[spec.name := FRESH_ATTRS])
  }

  function Corrected(spec: UserSpec, s: Server, f: UserFate): ListAttempt {
    UpdateUserPrivs(WithRole(spec, s), spec.name, spec.serverPrivs, PlanFor(spec), f.update)
  }

  /** The callback that a live resource's pass ends up in. */
  function Called(spec: UserSpec, c: Ctx<Session>, f: UserFate): Reply<Session>
    requires c.state.conn
  {
    if spec.name in c.state.server.roles then CorrectUser(spec, f, c) else CreateUser(spec, f, c)
  }

  lemma CalledOutcome(spec: UserSpec, c: Ctx<Session>, f: UserFate)
    requires c.state.conn
    ensures var r := Called(spec, c, f); var a := Corrected(spec, c.state.server, f);
      && (r.ctx.state.server == c.state.server || r.ctx.state.server == a.server)
      && r.ctx.cr == c.cr && c.faults <= r.ctx.faults
      && (r.ctx.faults == c.faults <==> !r.requeue && !r.err)
      && (!r.requeue && !r.err ==> a.ok && r.ctx.state.server == a.server)
  {
  }

  /** The parts of a pass over a live User. */
  lemma LivePass(spec: UserSpec, c: Ctx<Session>, f: UserFate, api: ApiFate)
    requires !c.cr.marked
    ensures var o := PassUser(spec, c, f, api); var load := LoadUser(spec, f, c);
      if !api.get then o == Outcome(c.(faults := c.faults + 1), false, false)
      else if load.outcome == Found || load.outcome == Absent then
        load.ctx.state.conn &&
        var r := Called(spec, load.ctx, f);
        if r.err || r.requeue then o == Outcome(r.ctx, true, true)
        else o == Outcome(EnsureFinalizer(r.ctx, api.update).0, !EnsureFinalizer(r.ctx, api.update).1, true)
      else o == Outcome(load.ctx, true, true)
  {
    var rcl := Instance(spec, f);
    LoadGrows(spec, f, c);
    var load := LoadUser(spec, f, c);
    assert rcl.loadObj(c) == load;
    if load.outcome == Found || load.outcome == Absent {
      assert load.outcome == Found ==> rcl.ensureCorrect(load.ctx) == Called(spec, load.ctx, f);
      assert load.outcome == Absent ==> rcl.createObj(load.ctx) == Called(spec, load.ctx, f);
    }
  }

  /** The server after a pass over a live User is as it was, freshly given the role, or corrected; without a fault or a retry it is corrected. */
  lemma PassOutcome(spec: UserSpec, c: Ctx<Session>, f: UserFate, api: ApiFate)
    requires !c.cr.marked
    ensures var o := PassUser(spec, c, f, api); var a := Corrected(spec, c.state.server, f);
      && (o.ctx.state.server == c.state.server || o.ctx.state.server == a.server)
      && ((o.loaded && !o.requeue) || o.ctx.faults == c.faults ==> a.ok && o.ctx.state.server == a.server && o.ctx.cr.finalizer)
  {
    LivePass(spec, c, f, api);
    LoadGrows(spec, f, c);
    var load := LoadUser(spec, f, c);
    if load.outcome == Found || load.outcome == Absent {
      CalledOutcome(spec, load.ctx, f);
    }
  }

  /** A pass without a failing call, and any pass that asks for no retry, settles the User exactly when its spec is sound. */
  lemma PassSettles(spec: UserSpec, c: Ctx<Session>, f: UserFate, api: ApiFate)
    requires !c.cr.marked
    requires var o := PassUser(spec, c, f, api); o.ctx.faults == c.faults || (o.loaded && !o.requeue)
    ensures var o := PassUser(spec, c, f, api);
      && o.ctx.cr.finalizer && spec.name in o.ctx.state.server.roles
      && (Settled(spec, o.ctx) <==> Sound(spec, c.state.server))
  {
    var s := c.state.server;
    var s1 := WithRole(spec, s);
    PassOutcome(spec, c, f, api);
    CorrectSettles(spec, s1, f.update);
    if Compatible(s, PlanFor(spec)) {
      SameTables(s, s1, PlanFor(spec));
    }
    if Compatible(s1, PlanFor(spec)) {
      SameTables(s1, s, PlanFor(spec));
    }
  }

  /** A pass over a settled live User writes nothing at all, whatever fails, and leaves it settled. */
  lemma SettledPassIsSilent(spec: UserSpec, c: Ctx<Session>, f: UserFate, api: ApiFate)
    requires !c.cr.marked && Settled(spec, c)
    ensures var o := PassUser(spec, c, f, api);
      o.ctx.writes == c.writes && o.ctx.state.server == c.state.server && o.ctx.cr == c.cr && Settled(spec, o.ctx)
  {
    SettledIsSilent(spec, c, f.update);
  }

  function Passes(spec: UserSpec, c: Ctx<Session>, fates: seq<(UserFate, ApiFate)>): Ctx<Session> {
    if fates == [] then c
    else
      var n := |fates| - 1;
      PassUser(spec, Passes(spec, c, fates[..n]), fates[n].0, fates[n].1).ctx
  }

  /**
    Any number of passes over a live User with a sound spec: no defect appears, and fewer faults
    than passes leave it settled, so k faults are absorbed within k + 1 passes.
   */
  lemma {:induction false} FaultsAbsorbed(spec: UserSpec, c: Ctx<Session>, fates: seq<(UserFate, ApiFate)>)
    requires !c.cr.marked && Sound(spec, c.state.server)
    ensures var end := Passes(spec, c, fates);
      && !end.cr.marked && Sound(spec, end.state.server)
      && (forall d :: Has(spec, end, d) ==> Has(spec, c, d))
      && (end.faults < c.faults + |fates| ==> Settled(spec, end))
  {
    if fates != [] {
      var n := |fates| - 1;
      FaultsAbsorbed(spec, c, fates[..n]);
      var prev := Passes(spec, c, fates[..n]);
      var (f, api) := fates[n];
      var end := Passes(spec, c, fates);
      assert end == PassUser(spec, prev, f, api).ctx;
      InstanceLawful(spec, f);
      LivePassGrows(Instance(spec, f), prev, api);
      TablesStay(spec, prev, f, api);
      SameTables(prev.state.server, end.state.server, PlanFor(spec));
      forall d | Has(spec, end, d) ensures Has(spec, c, d) {
        NoNewDefect(spec, prev, f, api, d);
      }
      if end.faults == prev.faults {
        PassSettles(spec, prev, f, api);
      } else if Settled(spec, prev) {
        SettledPassIsSilent(spec, prev, f, api);
      }
    }
  }

  lemma TablesStay(spec: UserSpec, c: Ctx<Session>, f: UserFate, api: ApiFate)
    requires !c.cr.marked
    ensures PassUser(spec, c, f, api).ctx.state.server.tables == c.state.server.tables
  {
    PassOutcome(spec, c, f, api);
    var s := c.state.server;
    CorrectRepairs(spec, WithRole(spec, s), f.update);
  }

  // ---------- Passes in which nothing goes wrong ----------

  ghost predicate AllWell(f: UserFate, api: ApiFate) {
    && api.get && api.update && f.server == Got && f.connect == Got && f.getUsers && f.secret && f.credentials && f.create
    && f.update.readRole && f.update.version && f.update.alter
    && (forall i: nat :: f.update.entry(i) == EntryFate(true, true, true, true))
  }

  /** Every entry resolves, can be read and is accepted by the server. */
  ghost predicate Workable(spec: UserSpec) {
    && ParseRoleAttrs(spec.serverPrivs).Some?
    && forall i :: 0 <= i < |PlanFor(spec)| ==>
         PlanFor(spec)[i].Some? && !Unreadable(PlanFor(spec)[i].value) && !Refused(PlanFor(spec)[i].value)
  }

  lemma {:induction false} WorkableEntriesApply(s: Server, plan: Plan, fates: nat -> EntryFate)
    requires forall i :: 0 <= i < |plan| ==> plan[i].Some? && !Unreadable(plan[i].value) && !Refused(plan[i].value)
    requires forall i: nat :: fates(i) == EntryFate(true, true, true, true)
    ensures ApplyEntries(s, plan, fates).ok
  {
    if plan != [] {
      WorkableEntriesApply(s, plan[..|plan| - 1], fates);
    }
  }

  lemma WorkableCorrects(spec: UserSpec, s: Server, f: UserFate)
    requires Workable(spec) && f.update.readRole && f.update.version && f.update.alter
    requires forall i: nat :: f.update.entry(i) == EntryFate(true, true, true, true)
    ensures Corrected(spec, s, f).ok
  {
    var s1 := WithRole(spec, s);
    var flags := ParseRoleAttrs(spec.serverPrivs).value;
    var s2 := if WantsAlter(s1.roles[spec.name], flags) then s1.(roles := s1.roles[spec.name := Alter(s1.roles[spec.name], flags)]) else s1;
    WorkableEntriesApply(s2, PlanFor(spec), f.update.entry);
  }

  lemma GoodCallHasNoFault(spec: UserSpec, c: Ctx<Session>, f: UserFate)
    requires c.state.conn && f.secret && f.credentials && f.create && Corrected(spec, c.state.server, f).ok
    ensures var r := Called(spec, c, f); !r.requeue && !r.err
  {
  }

  /** With a workable spec, a pass in which every call succeeds meets no fault: convergence does happen. */
  lemma GoodPassHasNoFault(spec: UserSpec, c: Ctx<Session>, f: UserFate, api: ApiFate)
    requires !c.cr.marked && Workable(spec) && AllWell(f, api)
    ensures PassUser(spec, c, f, api).ctx.faults == c.faults
  {
    LivePass(spec, c, f, api);
    LoadGrows(spec, f, c);
    WorkableCorrects(spec, c.state.server, f);
    GoodCallHasNoFault(spec, LoadUser(spec, f, c).ctx, f);
    CalledOutcome(spec, LoadUser(spec, f, c).ctx, f);
  }

  // ---------- Can a User be removed? ----------

  ghost predicate RevokesWell(fates: nat -> RevokeFate) {
    forall i: nat :: fates(i).connect && fates(i).list && fates(i).revoke && |fates(i).schemas| <= fates(i).swept
  }

  /** An entry that cannot be taken back: it does not resolve, asks for nothing, or is refused by the server. */
  ghost predicate Blocked(e: Option<PrivsReconciler>) {
    e.None? || e.value.desired == [] || Refused(e.value)
  }

  ghost predicate AnyBlocked(plan: Plan) {
    exists i :: 0 <= i < |plan| && Blocked(plan[i])
  }

  /** When every call succeeds, taking the privileges back goes through exactly when no entry is blocked. */
  lemma {:induction false} RevokeAllSucceedsIff(s: Server, plan: Plan, fates: nat -> RevokeFate)
    requires RevokesWell(fates)
    ensures RevokeAllDbPrivs(s, plan, fates).1 <==> !AnyBlocked(plan)
  {
    if plan != [] {
      var n := |plan| - 1;
      RevokeAllSucceedsIff(s, plan[..n], fates);
      assert forall i :: 0 <= i < n ==> plan[..n][i] == plan[i];
    }
  }

  /** Whatever fails, it does not go through with a blocked entry. */
  lemma {:induction false} BlockedTakeBackFails(s: Server, plan: Plan, fates: nat -> RevokeFate)
    requires AnyBlocked(plan)
    ensures !RevokeAllDbPrivs(s, plan, fates).1
  {
    var n := |plan| - 1;
    if !Blocked(plan[n]) {
      assert forall i :: 0 <= i < n ==> plan[..n][i] == plan[i];
      BlockedTakeBackFails(s, plan[..n], fates);
    }
  }

  /** Every privilege the user holds, anywhere, is one that taking back some entry removes. */
  ghost predicate AllTaken(spec: UserSpec, s: Server, fates: nat -> RevokeFate) {
    forall x :: x in s.grants && x.user == spec.name ==> exists i :: 0 <= i < |PlanFor(spec)| && Takes(s, PlanFor(spec)[i], fates(i), x)
  }

  /**
    A marked User with drop-on-deletion and revoke-privileges: if every call succeeds, one pass drops the role
    and releases the resource exactly when no entry is blocked and the entries take all that the user holds.
   */
  lemma RemovedExactlyWhenRevocable(spec: UserSpec, c: Ctx<Session>, f: UserFate, api: ApiFate)
    requires c.cr.marked && c.cr.finalizer && spec.name in c.state.server.roles
    requires spec.drop && spec.revokePrivileges && !spec.conflictingOptions && spec.entries != []
    requires api.get && api.update && f.server == Got && f.connect == Got && f.getUsers && f.drop && RevokesWell(f.revoke)
    ensures var o := PassUser(spec, c, f, api);
      (!o.ctx.cr.finalizer && spec.name !in o.ctx.state.server.roles) <==>
      !AnyBlocked(PlanFor(spec)) && AllTaken(spec, c.state.server, f.revoke)
  {
    var rcl := Instance(spec, f);
    LoadGrows(spec, f, c);
    var load := LoadUser(spec, f, c);
    assert rcl.loadObj(c) == load;
    assert rcl.removeObj(load.ctx) == RemoveUser(spec, f, load.ctx);
    DropsExactlyWhenRevocable(spec, f, c.state.server);
  }

  lemma DropsExactlyWhenRevocable(spec: UserSpec, f: UserFate, s: Server)
    requires spec.revokePrivileges && !spec.conflictingOptions && spec.entries != [] && spec.name in s.roles
    requires f.drop && RevokesWell(f.revoke)
    ensures var (s', ok) := DropUser(spec, f, s);
      (ok <==> !AnyBlocked(PlanFor(spec)) && AllTaken(spec, s, f.revoke)) && (ok <==> spec.name !in s'.roles)
  {
    var plan := PlanFor(spec);
    PlanIsOwned(spec.name, spec.entries, spec.product);
    RevokeAllSucceedsIff(s, plan, f.revoke);
    RevokeAllRemoves(s, spec.name, plan, f.revoke);
    var (s1, ok) := RevokeAllDbPrivs(s, plan, f.revoke);
    if ok {
      HoldsNothingExactly(spec, s, f.revoke);
    }
  }

  lemma HoldsNothingExactly(spec: UserSpec, s: Server, fates: nat -> RevokeFate)
    requires RevokeAllDbPrivs(s, PlanFor(spec), fates).1
    ensures HoldsAny(RevokeAllDbPrivs(s, PlanFor(spec), fates).0, spec.name) <==> !AllTaken(spec, s, fates)
  {
    var plan := PlanFor(spec);
    var s1 := RevokeAllDbPrivs(s, plan, fates).0;
    PlanIsOwned(spec.name, spec.entries, spec.product);
    forall x ensures x in s1.grants <==> x in s.grants && forall i :: 0 <= i < |plan| ==> !Takes(s, plan[i], fates(i), x) {
      RevokeAllExactly(s, spec.name, plan, fates, x);
    }
  }

  /** Without a take-back the role is dropped exactly when the options do not conflict, the server agrees and it holds nothing. */
  lemma DropsWithoutRevokeExactly(spec: UserSpec, f: UserFate, s: Server)
    requires !spec.revokePrivileges || spec.entries == []
    ensures var (s', ok) := DropUser(spec, f, s);
      && (ok <==> !spec.conflictingOptions && f.drop && forall x :: x in s.grants ==> x.user != spec.name)
      && s' == if ok then s.(roles := s.roles - {spec.name}) else s
  {
  }

  /**
    When a pass lets go of a marked User: the resource can be read and updated, and a parent is gone, or the server was
    asked and the role was not there, is to be kept, or was dropped.
   */
  lemma ReleasedUserExactly(spec: UserSpec, c: Ctx<Session>, f: UserFate, api: ApiFate)
    requires c.cr.marked && c.cr.finalizer
    ensures var o := PassUser(spec, c, f, api); var s := c.state.server;
      && (!o.ctx.cr.finalizer <==>
           && api.get && api.update
           && (|| f.server == NotThere || (f.server == Got && f.connect == NotThere)
               || (f.server == Got && f.connect == Got && f.getUsers && (spec.name !in s.roles || !spec.drop || DropUser(spec, f, s).1))))
      && (!spec.drop || spec.name !in s.roles ==> o.ctx.state.server == s)
  {
    InstanceLawful(spec, f);
    var rcl, load := Instance(spec, f), LoadUser(spec, f, c);
    LoadGrows(spec, f, c);
    assert rcl.loadObj(c) == load;
    if load.outcome == Found {
      assert rcl.removeObj(load.ctx) == RemoveUser(spec, f, load.ctx);
    }
    ReleasedExactly(rcl, c, api);
  }

  /** The options ask for a take-back before the drop, and it cannot go through. */
  ghost predicate Undroppable(spec: UserSpec) {
    spec.drop && spec.revokePrivileges && AnyBlocked(PlanFor(spec))
  }

  lemma UndroppableStays(spec: UserSpec, f: UserFate, s: Server)
    requires Undroppable(spec)
    ensures !DropUser(spec, f, s).1 && DropUser(spec, f, s).0.roles == s.roles
  {
    PlanIsOwned(spec.name, spec.entries, spec.product);
    BlockedTakeBackFails(s, PlanFor(spec), f.revoke);
    RevokeAllRemoves(s, spec.name, PlanFor(spec), f.revoke);
    assert |PlanFor(spec)| == |spec.entries|;
  }

  ghost predicate Stuck(spec: UserSpec, c: Ctx<Session>) {
    c.cr.finalizer && spec.name in c.state.server.roles
  }

  lemma UndroppableMarkedPass(spec: UserSpec, c: Ctx<Session>, f: UserFate, api: ApiFate)
    requires Undroppable(spec) && Stuck(spec, c) && c.cr.marked
    requires f.server != NotThere && f.connect != NotThere
    ensures Stuck(spec, PassUser(spec, c, f, api).ctx)
    ensures PassUser(spec, c, f, api).loaded ==> PassUser(spec, c, f, api).requeue
  {
    var rcl := Instance(spec, f);
    LoadGrows(spec, f, c);
    var load := LoadUser(spec, f, c);
    assert rcl.loadObj(c) == load;
    UndroppableStays(spec, f, load.ctx.state.server);
    if load.outcome == Found {
      assert rcl.removeObj(load.ctx) == RemoveUser(spec, f, load.ctx);
    }
  }

  lemma UndroppableLivePass(spec: UserSpec, c: Ctx<Session>, f: UserFate, api: ApiFate)
    requires Stuck(spec, c) && !c.cr.marked
    ensures Stuck(spec, PassUser(spec, c, f, api).ctx)
  {
    InstanceLawful(spec, f);
    LivePassGrows(Instance(spec, f), c, api);
    PassOutcome(spec, c, f, api);
    CorrectRepairs(spec, c.state.server, f.update);
  }

  /** Nobody else drops the role, and no look-up says "not found". */
  ghost predicate Unaided(spec: UserSpec, step: UserStep) {
    match step
    case Outside(change) => forall s: Session :: spec.name in s.server.roles ==> spec.name in change(s).server.roles
    case Pass(f, _) => f.server != NotThere && f.connect != NotThere
    case _ => true
  }

  lemma StepStaysStuck(spec: UserSpec, w: World<Session>, step: UserStep)
    requires Undroppable(spec) && w.Live? && Stuck(spec, w.ctx) && Unaided(spec, step)
    ensures var w' := Next(w, Lift(spec, step)); w'.Live? && Stuck(spec, w'.ctx)
  {
    if step.Pass? {
      if w.ctx.cr.marked {
        UndroppableMarkedPass(spec, w.ctx, step.f, step.api);
      } else {
        UndroppableLivePass(spec, w.ctx, step.f, step.api);
      }
    }
  }

  /** One blocked entry is for good: over every run, marked or not and whatever fails, the role and the finalizer stay. */
  lemma {:induction false} UndroppableForever(spec: UserSpec, w: World<Session>, steps: seq<UserStep>)
    requires Undroppable(spec) && w.Live? && Stuck(spec, w.ctx)
    requires forall i :: 0 <= i < |steps| ==> Unaided(spec, steps[i])
    ensures var w' := After(w, Lifted(spec, steps)); w'.Live? && Stuck(spec, w'.ctx)
  {
    if steps != [] {
      var n := |steps| - 1;
      LiftedFront(spec, steps);
      UndroppableForever(spec, w, steps[..n]);
      StepStaysStuck(spec, After(w, Lifted(spec, steps[..n])), steps[n]);
    }
  }

  lemma LiftedFront(spec: UserSpec, steps: seq<UserStep>)
    requires steps != []
    ensures Lifted(spec, steps)[..|steps| - 1] == Lifted(spec, steps[..|steps| - 1])
  {
  }

  // ---------- Specs that go wrong ----------

  /** ALL as default privileges comes out empty, so a User with such an entry is undroppable. */
  lemma DefaultAllIsBlocked(spec: UserSpec, scope: string, grantor: string)
    requires spec.drop && spec.revokePrivileges
    requires spec.entries == [DbPriv(scope, "ALL", "", "defaultTable", Some(grantor))]
    ensures Undroppable(spec)
  {
    DefaultAllResolvesEmpty(spec.name, spec.entries[0], spec.product);
    assert Blocked(PlanFor(spec)[0]);
  }

  lemma {:induction false} UpperOfFlags(flags: seq<string>)
    requires forall i :: 0 <= i < |flags| ==> Word(flags[i])
    ensures NonEmptyUpper(flags) == flags
  {
    if flags != [] {
      assert ToUpper(flags[0]) == flags[0];
      UpperOfFlags(flags[1..]);
      assert flags == [flags[0]] + flags[1..];
    }
  }

  /** Role flags in capitals, joined by commas, are read back as they are, or refused as a whole. */
  lemma FlagsReadBack(flags: seq<string>)
    requires flags != [] && forall i :: 0 <= i < |flags| ==> Word(flags[i])
    ensures ParseRoleAttrs(Join(flags, ",")) == if Funk.Subset(flags, ValidFlags()) then Some(flags) else None
  {
    SplitOfJoin(flags, ',');
    UpperOfFlags(flags);
  }

  /** NOLOGIN turns LOGIN off and is altered on every pass: the role never looks as asked. */
  lemma NoLoginAlwaysAlters(attrs: set<string>)
    ensures WantsAlter(attrs, ["NOLOGIN"]) && WantsAlter(Alter(attrs, ["NOLOGIN"]), ["NOLOGIN"])
    ensures "LOGIN" !in Alter(attrs, ["NOLOGIN"])
  {
    assert Negative("NOLOGIN");
    assert "NOLOGIN" in ["NOLOGIN"];
    assert "NO" + "LOGIN" == "NOLOGIN";
  }

  /** Two entries for one database of which one asks for a privilege and the other does not: the spec is not sound, so no pass settles its User. */
  lemma DisagreeingDatabases(spec: UserSpec, s: Server, i: nat, j: nat, p: string)
    requires i < |spec.entries| && j < |spec.entries|
    requires TypedAs(spec.entries[i], "database") && TypedAs(spec.entries[j], "database") && spec.entries[i].scope == spec.entries[j].scope
    requires AsksFor(ToPrivSet(spec.entries[i].privs), ValidPrivs(spec.product, "database"), p)
    requires !AsksFor(ToPrivSet(spec.entries[j].privs), ValidPrivs(spec.product, "database"), p)
    ensures !Sound(spec, s)
  {
    var plan := PlanFor(spec);
    if plan[i].Some? && plan[j].Some? {
      TypedDatabase(spec.name, spec.entries[i], spec.product);
      TypedDatabase(spec.name, spec.entries[j], spec.product);
      assert p in Desired(plan[i].value) && p !in Desired(plan[j].value);
      assert !Agree(s, plan[i].value, plan[j].value);
    }
  }

  /** Two entries of one word each for one database, such as CONNECT and CREATE. */
  lemma DisagreeingEntries(spec: UserSpec, s: Server, a: string, b: string)
    requires Word(a) && Word(b) && a != b && b != "ALL" && a !in {"ALL", "TEMP", "TEMPORARY"}
    requires |spec.entries| == 2 && spec.entries[0].scope == spec.entries[1].scope
    requires TypedAs(spec.entries[0], "database") && TypedAs(spec.entries[1], "database")
    requires spec.entries[0].privs == a && spec.entries[1].privs == b
    ensures !Sound(spec, s)
  {
    WordsDisagree(a, b, ValidPrivs(spec.product, "database"));
    DisagreeingDatabases(spec, s, 0, 1, a);
  }
}
