// The Db and User controllers as they run: the reconcile loop with its callbacks, each of which fills or
// reads the controller's own fields and relies on the ones that the loop has called before it.

module DbController {
  import opened Reco
  import opened Grants
  import opened DbReco

  class Controller {
    const spec: DbSpec
    var ctx: Ctx<Session>

    constructor (spec: DbSpec, ctx: Ctx<Session>)
      ensures this.spec == spec && this.ctx == ctx
    {
      this.spec, this.ctx := spec, ctx;
    }

    /** Nothing on the server changes; what is found is there, and there is a connection to act on it. */
    method LoadObj(f: DbFate) returns (outcome: Load)
      modifies this
      ensures ctx.cr == old(ctx.cr) && ctx.state.server == old(ctx.state.server)
      ensures outcome == Found ==> ctx.state.conn && Exists(spec, ctx)
      ensures outcome == Absent && ctx.state.conn ==> !Exists(spec, ctx)
      ensures Loaded(ctx, outcome) == LoadDb(spec, f, old(ctx))
    {
      ctx := ctx.(state := ctx.state.(conn := false));
      if f.server != Got {
        ctx := Fault(ctx);
        return if f.server == NotThere then Absent else Failed;
      }
      if !f.connect {
        ctx := Fault(ctx);
        return Failed;
      }
      ctx := ctx.(state := ctx.state.(conn := true));
      if !f.getDbs {
        ctx := Fault(ctx);
        return Failed;
      }
      outcome := if spec.name in ctx.state.server.databases then Found else Absent;
    }

    /** No retry means the database exists; other databases are as they were. */
    method CreateObj(f: DbFate) returns (requeue: bool, err: bool)
      modifies this
      ensures !err && (!requeue ==> Exists(spec, ctx))
      ensures ctx.state.server.databases - {spec.name} == old(ctx.state.server.databases) - {spec.name}
      ensures Reply(ctx, requeue, err) == CreateDb(spec, f, old(ctx))
    {
      if !ctx.state.conn {
        return true, false;
      }
      ctx := Sent(ctx, f.create);
      if !f.create {
        return true, false;
      }
      var s := ctx.state.server;
      ctx := WithServer(ctx, s.(databases := s.databases + {spec.name}));
      if spec.afterCreateSql {
        ctx := Sent(ctx, f.afterSql);
      }
      return false, false;
    }

    /** With drop-on-deletion no retry means the database is gone, without it nothing changes; other databases are as they were. */
    method RemoveObj(f: DbFate) returns (requeue: bool, err: bool)
      requires Ready(Callback.RemoveObj, ctx)
      modifies this
      ensures !err && (if spec.drop then !requeue ==> !Exists(spec, ctx) else ctx == old(ctx) && !requeue)
      ensures ctx.state.server.databases - {spec.name} == old(ctx.state.server.databases) - {spec.name}
      ensures Reply(ctx, requeue, err) == RemoveDb(spec, f, old(ctx))
    {
      if spec.drop {
        var accepted := DropAccepted(spec, f);
        ctx := Sent(ctx, accepted);
        if !accepted {
          return true, false;
        }
        var s := ctx.state.server;
        ctx := WithServer(ctx, s.(databases := s.databases - {spec.name}));
      }
      return false, false;
    }

    /** The loop over these callbacks is the pass that the laws are about: it settles a live Db unless it asks for a retry, lets go of a marked one only when its database is gone, kept on purpose, or its DbServer was not found, and retries it otherwise. */
    method Reconcile(f: DbFate, api: ApiFate) returns (requeue: bool)
      modifies this
      ensures ctx == PassDb(spec, old(ctx), f, api).ctx && requeue == PassDb(spec, old(ctx), f, api).requeue
      ensures api.get && !old(ctx.cr.marked) && !requeue ==> Settled(spec, ctx)
      ensures old(ctx.cr.finalizer) && !ctx.cr.finalizer ==>
        old(ctx.cr.marked) && (!spec.drop || f.server == NotThere || !Exists(spec, ctx))
      ensures old(ctx.cr.marked) && ctx.cr.finalizer && old(ctx.cr.finalizer) ==> requeue
    {
      ghost var rcl := Instance(spec, f);
      if !api.get {
        ctx := Fault(ctx);
        return true;
      }
      var marked := ctx.cr.marked;
      assert rcl.loadObj(ctx) == LoadDb(spec, f, ctx);
      var outcome := LoadObj(f);
      // no error of LoadObj says "not found", so that branch of the loop is never taken
      if outcome == Failed {
        return true;
      }
      var err, ok := false, true;
      requeue := false;
      if marked {
        if outcome == Found {
          if !ctx.cr.finalizer {
            return false;
          }
          assert rcl.removeObj(ctx) == RemoveDb(spec, f, ctx);
          requeue, err := RemoveObj(f);
        }
        if !err && !requeue {
          ctx, ok := RemoveFinalizer(ctx, api.update).0, api.update;
        }
      } else {
        if outcome == Absent {
          assert rcl.createObj(ctx) == CreateDb(spec, f, ctx);
          requeue, err := CreateObj(f);
        }
        if !err && !requeue {
          ok := EnsureFinalizer(ctx, api.update).1;
          ctx := EnsureFinalizer(ctx, api.update).0;
        }
      }
      requeue := requeue || err || !ok;
    }
  }
}

module UserController {
  import opened Reco
  import opened PrivilegeSpec
  import opened Grants
  import opened DbReco
  import opened UserReco
  import PgConnection

  class Controller {
    const spec: UserSpec
    var ctx: Ctx<Session>

    constructor (spec: UserSpec, ctx: Ctx<Session>)
      ensures this.spec == spec && this.ctx == ctx
    {
      this.spec, this.ctx := spec, ctx;
    }

    /** Nothing on the server changes; Found and Absent say whether the role is there, and then there is a connection to act on it. */
    method LoadObj(f: UserReco.UserFate) returns (outcome: Load)
      modifies this
      ensures ctx.cr == old(ctx.cr) && ctx.state.server == old(ctx.state.server)
      ensures outcome == Found || outcome == Absent ==> ctx.state.conn && (outcome == Found <==> spec.name in ctx.state.server.roles)
      ensures Loaded(ctx, outcome) == LoadUser(spec, f, old(ctx))
    {
      ctx := ctx.(state := ctx.state.(conn := false));
      if f.server != Got {
        ctx := Fault(ctx);
        return if f.server == NotThere then Missing else Failed;
      }
      if f.connect != Got {
        ctx := Fault(ctx);
        return if f.connect == NotThere then Missing else Failed;
      }
      ctx := ctx.(state := ctx.state.(conn := true));
      if !f.getUsers {
        ctx := Fault(ctx);
        return Failed;
      }
      outcome := if spec.name in ctx.state.server.roles then Found else Absent;
    }

    method EnsureCorrect(f: UserReco.UserFate) returns (requeue: bool, err: bool)
      requires UserReco.Ready(spec, Callback.EnsureCorrect, ctx)
      modifies this
      ensures Reply(ctx, requeue, err) == CorrectUser(spec, f, old(ctx))
    {
      var conn := new PgConnection.Connection(ctx.state.server);
      var changes, ok := conn.UpdateUserPrivs(spec.name, spec.serverPrivs, spec.entries, spec.product, f.update);
      ctx := WithServer(ctx, conn.server).(writes := ctx.writes + conn.issued);
      if !ok {
        ctx := Fault(ctx);
        return true, false;
      }
      return false, false;
    }

    method CreateObj(f: UserReco.UserFate) returns (requeue: bool, err: bool)
      requires UserReco.Ready(spec, Callback.CreateObj, ctx)
      modifies this
      ensures !requeue && !err ==> spec.name in ctx.state.server.roles
      ensures Reply(ctx, requeue, err) == CreateUser(spec, f, old(ctx))
    {
      CreatedHasRole(spec, f, ctx);
      if spec.generateSecret && !f.secret {
        ctx := Fault(ctx);
        return true, true;
      }
      if !f.credentials {
        ctx := Fault(ctx);
        return true, false;
      }
      ctx := Sent(ctx, f.create);
      if !f.create {
        return true, false;
      }
      var s := ctx.state.server;
      ctx := WithServer(ctx, s.(roles := s.roles[spec.name := FRESH_ATTRS]));
      requeue, err := EnsureCorrect(f);
    }

    method RemoveObj(f: UserReco.UserFate) returns (requeue: bool, err: bool)
      requires UserReco.Ready(spec, Callback.RemoveObj, ctx)
      modifies this
      ensures if spec.drop then !requeue ==> spec.name !in ctx.state.server.roles else ctx == old(ctx) && !requeue
      ensures Reply(ctx, requeue, err) == RemoveUser(spec, f, old(ctx))
    {
      if spec.drop {
        var ok := Drop(f);
        ctx := Sent(ctx, ok);
        return !ok, false;
      }
      return false, false;
    }

    method Drop(f: UserReco.UserFate) returns (ok: bool)
      modifies this
      ensures (ctx.state.server, ok) == DropUser(spec, f, old(ctx.state.server))
      ensures ctx == WithServer(old(ctx), ctx.state.server)
    {
      if spec.conflictingOptions {
        return false;
      }
      if spec.revokePrivileges && spec.entries != [] {
        var conn := new PgConnection.Connection(ctx.state.server);
        var revoked := conn.RevokeAllDbPrivs(spec.name, spec.entries, spec.product, f.revoke);
        ctx := WithServer(ctx, conn.server);
        if !revoked {
          return false;
        }
      }
      var s := ctx.state.server;
      if !f.drop || HoldsAny(s, spec.name) {
        return false;
      }
      ctx := WithServer(ctx, s.(roles := s.roles - {spec.name}));
      return true;
    }

    /** The loop over these callbacks is the pass that the laws are about; of a live User without a retry it leaves role and finalizer, and the User settled exactly when its spec is sound. */
    method Reconcile(f: UserReco.UserFate, api: ApiFate) returns (requeue: bool)
      modifies this
      ensures ctx == PassUser(spec, old(ctx), f, api).ctx && requeue == PassUser(spec, old(ctx), f, api).requeue
      ensures api.get && !old(ctx.cr.marked) && !requeue ==>
        ctx.cr.finalizer && spec.name in ctx.state.server.roles && (UserReco.Settled(spec, ctx) <==> Sound(spec, old(ctx.state.server)))
    {
      ghost var rcl, start := UserReco.Instance(spec, f), ctx;
      if !api.get {
        ctx := Fault(ctx);
        return false;
      }
      var marked := ctx.cr.marked;
      assert rcl.loadObj(ctx) == LoadUser(spec, f, ctx);
      var outcome := LoadObj(f);
      if outcome == Missing || outcome == Failed {
        if outcome == Missing && marked {
          ctx := RemoveFinalizer(ctx, api.update).0;
          return false;
        }
        return true;
      }
      if marked {
        requeue := Release(outcome, f, api);
      } else {
        requeue := Keep(outcome, f, api);
        if !requeue {
          PassSettles(spec, start, f, api);
        }
      }
    }

    /** A marked resource whose object was looked up: remove the object if it is there, then the finalizer. */
    method Release(outcome: Load, f: UserReco.UserFate, api: ApiFate) returns (requeue: bool)
      requires outcome == Found ==> UserReco.Ready(spec, Callback.RemoveObj, ctx)
      modifies this
      ensures var c := old(ctx);
        if outcome == Found && !c.cr.finalizer then ctx == c && !requeue
        else
          var r := if outcome == Found then RemoveUser(spec, f, c) else Reply(c, false, false);
          if r.err || r.requeue then ctx == r.ctx && requeue
          else ctx == RemoveFinalizer(r.ctx, api.update).0 && requeue == !api.update
    {
      if outcome == Found {
        if !ctx.cr.finalizer {
          return false;
        }
        var err;
        requeue, err := RemoveObj(f);
        if err || requeue {
          return true;
        }
      }
      ctx := RemoveFinalizer(ctx, api.update).0;
      requeue := !api.update;
    }

    /** A live resource whose object was looked up: correct or create the object, then see to the finalizer. */
    method Keep(outcome: Load, f: UserReco.UserFate, api: ApiFate) returns (requeue: bool)
      requires ctx.state.conn && (outcome == Found <==> spec.name in ctx.state.server.roles)
      modifies this
      ensures var r := Called(spec, old(ctx), f);
        if r.err || r.requeue then ctx == r.ctx && requeue
        else ctx == EnsureFinalizer(r.ctx, api.update).0 && requeue == !EnsureFinalizer(r.ctx, api.update).1
    {
      var err;
      if outcome == Found {
        requeue, err := EnsureCorrect(f);
      } else {
        requeue, err := CreateObj(f);
      }
      if err || requeue {
        return true;
      }
      requeue := !EnsureFinalizer(ctx, api.update).1;
      ctx := EnsureFinalizer(ctx, api.update).0;
    }
  }
}
