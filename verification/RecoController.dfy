// The reconcile loop as it runs, updating the resource step by step.

module RecoController {
  import opened Reco

  class Controller<S(!new)> {
    var ctx: Ctx<S>

    constructor (ctx: Ctx<S>)
      ensures this.ctx == ctx
    {
      this.ctx := ctx;
    }

    method UpdateFinalizer(present: bool, ok: bool) returns (err: bool)
      modifies this
      ensures err == !ok
      ensures ctx == Sent(old(ctx), ok).(cr := if ok then old(ctx).cr.(finalizer := present) else old(ctx).cr)
    {
      ctx := Sent(ctx, ok);
      if ok {
        ctx := ctx.(cr := ctx.cr.(finalizer := present));
      }
      err := !ok;
    }

    method Ensure(ok: bool) returns (err: bool)
      modifies this
      ensures ctx == EnsureFinalizer(old(ctx), ok).0 && err == !EnsureFinalizer(old(ctx), ok).1
    {
      err := false;
      if !ctx.cr.finalizer {
        err := UpdateFinalizer(true, ok);
      }
    }

    method Reconcile(rcl: Reconcilable<S>, f: ApiFate) returns (requeue: bool)
      requires Lawful(rcl)
      modifies this
      ensures var o := Reco.Reconcile(rcl, old(ctx), f);
        ctx == o.ctx && requeue == o.requeue
    {
      if !f.get {
        ctx := ctx.(faults := ctx.faults + 1);
        return rcl.requeueOnLoad;
      }
      var marked := ctx.cr.marked;
      requeue := false;
      var err := false;
      assert LawfulAt(rcl, ctx);
      var load := rcl.loadObj(ctx);
      ctx := load.ctx;
      if load.outcome == Missing || load.outcome == Failed {
        if load.outcome == Missing && marked {
          var _ := UpdateFinalizer(false, f.update);
          return false;
        }
        return true;
      }
      if load.outcome == Found {
        if marked {
          if ctx.cr.finalizer {
            assert rcl.ready(RemoveObj, ctx);
            var r := rcl.removeObj(ctx);
            ctx, requeue, err := r.ctx, r.requeue, r.err;
            if !err && !requeue {
              err := UpdateFinalizer(false, f.update);
            }
          }
        } else {
          assert rcl.ready(EnsureCorrect, ctx);
          var r := rcl.ensureCorrect(ctx);
          ctx, requeue, err := r.ctx, r.requeue, r.err;
          if !err && !requeue {
            err := Ensure(f.update);
            if err {
              requeue, err := true, false;
            }
          }
        }
      } else {
        if marked {
          err := UpdateFinalizer(false, f.update);
        } else {
          assert rcl.ready(CreateObj, ctx);
          var r := rcl.createObj(ctx);
          ctx, requeue, err := r.ctx, r.requeue, r.err;
          if !err && !requeue {
            err := Ensure(f.update);
          }
        }
      }
      if err {
        requeue := true;
      }
    }
  }
}
