// What the reconcile loop guarantees for every implementation of its interface.

module RecoLaws {
  import opened Reco

  datatype World<S> = Live(ctx: Ctx<S>) | Gone

  /** A pass of the loop, or anybody else's doing. */
  datatype Step<!S> =
    | Mark                              // somebody deletes the resource: the API server marks it
    | Collect                           // the API server removes a marked resource without finalizer
    | Outside(change: S -> S)           // anything at all happens behind the resource
    | Pass(rcl: Reconcilable<S>, f: ApiFate)

  function Next<S>(w: World<S>, step: Step<S>): World<S> {
    if w.Gone? then w
    else
      match step
      case Mark => Live(w.ctx.(cr := w.ctx.cr.(marked := true)))
      case Collect => if w.ctx.cr.marked && !w.ctx.cr.finalizer then Gone else w
      case Outside(change) => Live(w.ctx.(state := change(w.ctx.state)))
      case Pass(rcl, f) => Live(Reconcile(rcl, w.ctx, f).ctx)
  }

  function After<S>(w: World<S>, steps: seq<Step<S>>): World<S> {
    if steps == [] then w else Next(After(w, steps[..|steps| - 1]), steps[|steps| - 1])
  }

  /** Why the loop may let go of a resource. */
  ghost predicate Excuse<S>(rcl: Reconcilable<S>, c: Ctx<S>) {
    var load := rcl.loadObj(c);
    && c.cr.marked
    && (|| load.outcome == Missing
        || load.outcome == Absent
        || (load.outcome == Found && !rcl.removeObj(load.ctx).err && !rcl.removeObj(load.ctx).requeue))
  }

  /** A pass takes the finalizer only of a marked resource whose object is gone, was reported gone, or was just removed. */
  lemma ReleasedOnlyWithExcuse<S(!new)>(rcl: Reconcilable<S>, c: Ctx<S>, f: ApiFate)
    requires Lawful(rcl)
    requires c.cr.finalizer && !Reconcile(rcl, c, f).ctx.cr.finalizer
    ensures f.get && Excuse(rcl, c)
    ensures var load := rcl.loadObj(c);
      Reconcile(rcl, c, f).ctx.state == if load.outcome == Found then rcl.removeObj(load.ctx).ctx.state else load.ctx.state
  {
    assert LawfulAt(rcl, c) && LawfulAt(rcl, rcl.loadObj(c).ctx);
  }

  /** And it does so whenever it has such an excuse, can read the resource and can update it. */
  lemma ReleasedExactly<S(!new)>(rcl: Reconcilable<S>, c: Ctx<S>, f: ApiFate)
    requires Lawful(rcl) && c.cr.marked && c.cr.finalizer
    ensures !Reconcile(rcl, c, f).ctx.cr.finalizer <==> f.get && f.update && Excuse(rcl, c)
  {
    assert LawfulAt(rcl, c) && LawfulAt(rcl, rcl.loadObj(c).ctx);
  }

  lemma StepReleases<S(!new)>(w: World<S>, step: Step<S>)
    requires step.Pass? ==> Lawful(step.rcl)
    requires w.Live? && w.ctx.cr.finalizer
    requires Next(w, step).Gone? || !Next(w, step).ctx.cr.finalizer
    ensures step.Pass? && !Reconcile(step.rcl, w.ctx, step.f).ctx.cr.finalizer && Excuse(step.rcl, w.ctx)
  {
    assert step.Pass?;
    ReleasedOnlyWithExcuse(step.rcl, w.ctx, step.f);
  }

  /**
    Over every run, with every fault and whatever others do: if a resource that once held the
    finalizer has vanished, some pass in between found it marked and had an excuse to let go.
   */
  lemma {:induction false} VanishesOnlyWithExcuse<S(!new)>(w: World<S>, steps: seq<Step<S>>) returns (k: nat)
    requires forall i :: 0 <= i < |steps| && steps[i].Pass? ==> Lawful(steps[i].rcl)
    requires w.Live? && w.ctx.cr.finalizer
    requires After(w, steps).Gone? || !After(w, steps).ctx.cr.finalizer
    ensures k < |steps| && steps[k].Pass?
    ensures After(w, steps[..k]).Live? && After(w, steps[..k]).ctx.cr.finalizer
    ensures !Reconcile(steps[k].rcl, After(w, steps[..k]).ctx, steps[k].f).ctx.cr.finalizer
    ensures Excuse(steps[k].rcl, After(w, steps[..k]).ctx)
  {
    var n := |steps| - 1;
    var prev := After(w, steps[..n]);
    if prev.Gone? || !prev.ctx.cr.finalizer {
      k := VanishesOnlyWithExcuse(w, steps[..n]);
      assert steps[..n][..k] == steps[..k];
    } else {
      k := n;
      StepReleases(prev, steps[n]);
    }
  }

  /** A pass over a live resource keeps it live, keeps its finalizer and forgets neither writes nor faults. */
  lemma LivePassGrows<S(!new)>(rcl: Reconcilable<S>, c: Ctx<S>, f: ApiFate)
    requires Lawful(rcl) && !c.cr.marked
    ensures Grows(c, Reconcile(rcl, c, f).ctx)
  {
    assert LawfulAt(rcl, c) && LawfulAt(rcl, rcl.loadObj(c).ctx);
  }

  /** A pass that got past reading a live resource and asks for no retry leaves the finalizer in place. */
  lemma NoRequeueMeansFinalizer<S(!new)>(rcl: Reconcilable<S>, c: Ctx<S>, f: ApiFate)
    requires Lawful(rcl) && !c.cr.marked
    requires Reconcile(rcl, c, f).loaded && !Reconcile(rcl, c, f).requeue
    ensures Reconcile(rcl, c, f).ctx.cr.finalizer
    ensures var load := rcl.loadObj(c);
      || (load.outcome == Found && !rcl.ensureCorrect(load.ctx).err && !rcl.ensureCorrect(load.ctx).requeue
          && Reconcile(rcl, c, f).ctx.state == rcl.ensureCorrect(load.ctx).ctx.state)
      || (load.outcome == Absent && !rcl.createObj(load.ctx).err && !rcl.createObj(load.ctx).requeue
          && Reconcile(rcl, c, f).ctx.state == rcl.createObj(load.ctx).ctx.state)
  {
  }

  /**
    A marked resource that still has its finalizer after a pass is retried, except in exactly two cases: it
    could not be read and its controller asks for no retry then, or a parent was not found and the update
    that should release it failed.
   */
  lemma ForgottenExactly<S(!new)>(rcl: Reconcilable<S>, c: Ctx<S>, f: ApiFate)
    requires Lawful(rcl) && c.cr.marked && c.cr.finalizer
    ensures Reconcile(rcl, c, f).ctx.cr.finalizer && !Reconcile(rcl, c, f).requeue <==>
            if f.get then rcl.loadObj(c).outcome == Missing && !f.update else !rcl.requeueOnLoad
  {
    assert LawfulAt(rcl, c) && LawfulAt(rcl, rcl.loadObj(c).ctx);
  }
}
