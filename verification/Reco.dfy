// The generic reconcile loop: load the object behind a custom resource, create, correct or remove
// it, and keep a finalizer on the resource for as long as there may be something to remove.

module Reco {
  import opened Wrappers

  /** What the API server holds for one custom resource. */
  datatype Cr = Cr(marked: bool, finalizer: bool)

  /**
    One resource and everything behind it. `writes` counts the writes sent so far (API updates and
    server statements alike), `faults` the calls that failed so far.
   */
  datatype Ctx<S> = Ctx(cr: Cr, state: S, writes: nat, faults: nat)

  datatype Load = Found | Absent | Missing | Failed  // Missing: the error says "not found"

  datatype Loaded<S> = Loaded(ctx: Ctx<S>, outcome: Load)

  datatype Reply<S> = Reply(ctx: Ctx<S>, requeue: bool, err: bool)

  datatype Callback = CreateObj | RemoveObj | EnsureCorrect

  /**
    The interface a controller implements. `requeueOnLoad` is LoadCR's answer when it cannot read;
    `ready` says what a callback relies on: a deletion timestamp to read, a connection to use.
   */
  datatype Reconcilable<!S> = Reconcilable(
    requeueOnLoad: bool,
    loadObj: Ctx<S> -> Loaded<S>,
    createObj: Ctx<S> -> Reply<S>,
    removeObj: Ctx<S> -> Reply<S>,
    ensureCorrect: Ctx<S> -> Reply<S>,
    ready: (Callback, Ctx<S>) -> bool)

  ghost predicate Grows<S>(c: Ctx<S>, c': Ctx<S>) {
    c'.cr.marked == c.cr.marked && (c.cr.finalizer ==> c'.cr.finalizer) && c.writes <= c'.writes && c.faults <= c'.faults
  }

  /**
    The typestate of the interface: which callback may be called after which LoadObj answer, and
    that no callback unmarks the resource or takes its finalizer.
   */
  ghost predicate LawfulAt<S>(rcl: Reconcilable<S>, c: Ctx<S>) {
    var load := rcl.loadObj(c);
    && Grows(c, load.ctx)
    && Grows(c, rcl.createObj(c).ctx) && Grows(c, rcl.removeObj(c).ctx) && Grows(c, rcl.ensureCorrect(c).ctx)
    && (load.outcome == Found ==> rcl.ready(if c.cr.marked then RemoveObj else EnsureCorrect, load.ctx))
    && (load.outcome == Absent && !c.cr.marked ==> rcl.ready(CreateObj, load.ctx))
  }

  ghost predicate Lawful<S(!new)>(rcl: Reconcilable<S>) {
    forall c :: LawfulAt(rcl, c)
  }

  /** Whether reading the resource and updating its metadata go through. */
  datatype ApiFate = ApiFate(get: bool, update: bool)

  function Sent<S>(c: Ctx<S>, ok: bool): Ctx<S> {
    c.(writes := c.writes + 1, faults := c.faults + if ok then 0 else 1)
  }

  function EnsureFinalizer<S>(c: Ctx<S>, ok: bool): (r: (Ctx<S>, bool))
    ensures r.1 ==> r.0.cr.finalizer
  {
    if c.cr.finalizer then (c, true)
    else if ok then (Sent(c, true).(cr := c.cr.(finalizer := true)), true)
    else (Sent(c, false), false)
  }

  function RemoveFinalizer<S>(c: Ctx<S>, ok: bool): (Ctx<S>, bool) {
    if ok then (Sent(c, true).(cr := c.cr.(finalizer := false)), true) else (Sent(c, false), false)
  }

  /** `loaded`: the loop got past reading the resource. */
  datatype Outcome<S> = Outcome(ctx: Ctx<S>, requeue: bool, loaded: bool)

  function Reconcile<S>(rcl: Reconcilable<S>, c: Ctx<S>, f: ApiFate): Outcome<S> {
    if !f.get then Outcome(c.(faults := c.faults + 1), rcl.requeueOnLoad, false)
    else
      var load := rcl.loadObj(c);
      if load.outcome == Missing && c.cr.marked then
        // the result of this update is not looked at
        Outcome(RemoveFinalizer(load.ctx, f.update).0, false, true)
      else if load.outcome == Missing || load.outcome == Failed then Outcome(load.ctx, true, true)
      else if load.outcome == Found then
        if c.cr.marked then
          if !load.ctx.cr.finalizer then Outcome(load.ctx, false, true)
          else
            var r := rcl.removeObj(load.ctx);
            if r.err || r.requeue then Outcome(r.ctx, true, true)
            else var (c', ok) := RemoveFinalizer(r.ctx, f.update); Outcome(c', !ok, true)
        else
          var r := rcl.ensureCorrect(load.ctx);
          if r.err || r.requeue then Outcome(r.ctx, true, true)
          else var (c', ok) := EnsureFinalizer(r.ctx, f.update); Outcome(c', !ok, true)
      else if c.cr.marked then
        var (c', ok) := RemoveFinalizer(load.ctx, f.update); Outcome(c', !ok, true)
      else
        var r := rcl.createObj(load.ctx);
        if r.err || r.requeue then Outcome(r.ctx, true, true)
        else var (c', ok) := EnsureFinalizer(r.ctx, f.update); Outcome(c', !ok, true)
  }
}
