// The two CockroachDB backup controllers as they run: the reconcile loop with its callbacks.

module BackupJobController {
  import opened Reco
  import opened DbReco
  import opened BackupJob

  class Controller {
    var ctx: Ctx<Books>

    constructor (ctx: Ctx<Books>)
      ensures this.ctx == ctx
    {
      this.ctx := ctx;
    }

    method SetStatus(new_: Status, write: Lookup, keep: Lookup) returns (answer: Lookup)
      modifies this
      ensures (ctx, answer) == BackupJob.SetStatus(old(ctx), new_, write, keep)
    {
      if ctx.state.memory != new_ {
        ctx := Book(Sent(ctx, write == Got), ctx.state.(memory := new_));
        if write != Got {
          ctx := Book(ctx, ctx.state.(failedWrites := ctx.state.failedWrites + 1));
          return write;
        }
        var kept := Status(new_.jobId, Stored(new_.row));
        ctx := Book(ctx, ctx.state.(memory := kept, stored := kept));
        if !ctx.cr.finalizer {
          ctx := Sent(ctx, keep == Got);
          if keep != Got {
            return keep;
          }
          ctx := ctx.(cr := ctx.cr.(finalizer := true));
        }
      }
      return Got;
    }

    /** Found means the recorded job is on the server and the stored status shows it; no BACKUP is sent. */
    method LoadObj(f: JobFate) returns (outcome: Load)
      modifies this
      ensures ctx.state.stored.jobId == old(ctx.state.stored.jobId) && ctx.state.issued == old(ctx.state.issued)
      ensures outcome == Found ==> ctx.state.stored.jobId != 0 && ctx.state.stored.jobId in ctx.state.jobs
      ensures Loaded(ctx, outcome) == LoadJob(f, old(ctx))
    {
      ctx := Book(ctx, ctx.state.(memory := ctx.state.stored));
      var id := ctx.state.memory.jobId;
      if id == 0 {
        return Absent;
      }
      if f.connect != Got {
        ctx := Fault(ctx);
        return AsLoad(f.connect);
      }
      if !f.read {
        ctx := Fault(ctx);
        return Failed;
      }
      if id !in ctx.state.jobs {
        return Absent;
      }
      var answer := SetStatus(Status(id, ctx.state.jobs[id]), f.write, f.keep);
      outcome := AsLoad(answer);
    }

    /** At most one BACKUP is sent, and none once an id is recorded in the copy in hand. */
    method CreateObj(f: JobFate) returns (requeue: bool, err: bool)
      modifies this
      ensures old(ctx.state.issued) <= ctx.state.issued <= old(ctx.state.issued) + 1
      ensures old(ctx.state.memory.jobId) != 0 ==> ctx == old(ctx) && !requeue
      ensures Reply(ctx, requeue, err) == CreateJob(f, old(ctx))
    {
      if ctx.state.memory.jobId != 0 {
        return false, false;
      }
      if f.connect != Got || !f.target {
        ctx := Fault(ctx);
        return true, false;
      }
      ctx := Book(Sent(ctx, f.backup), ctx.state.(issued := ctx.state.issued + 1));
      if !f.backup {
        ctx := Book(ctx, ctx.state.(failedBackups := ctx.state.failedBackups + 1));
        return true, false;
      }
      var started := Row("", "", f.now);
      ctx := Book(ctx, ctx.state.(jobs := ctx.state.jobs[f.jobId := started]));
      var _ := SetStatus(Status(f.jobId, started), f.record, f.keep);
      if f.record != Got {
        ctx := Book(ctx, ctx.state.(lostIds := ctx.state.lostIds + 1));
      }
      return true, false;
    }

    /** The loop over these callbacks is the pass that the laws are about: it keeps the books balanced, and a recorded id and the number of BACKUPs then sent for good. */
    method Reconcile(f: JobFate, api: ApiFate) returns (requeue: bool)
      modifies this
      ensures ctx == PassJob(old(ctx), f, api).ctx && requeue == PassJob(old(ctx), f, api).requeue
      ensures f.jobId != 0 && Balanced(old(ctx.state)) ==> Balanced(ctx.state)
      ensures f.jobId != 0 && Balanced(old(ctx.state)) && old(ctx.state.stored.jobId) != 0 ==>
        ctx.state.stored.jobId == old(ctx.state.stored.jobId) && ctx.state.issued == old(ctx.state.issued)
    {
      ghost var rcl := BackupJob.Instance(f);
      if f.jobId != 0 && Balanced(ctx.state) {
        PassBalanced(f, api, ctx);
      }
      if !api.get {
        ctx := Fault(ctx);
        return true;
      }
      var marked := ctx.cr.marked;
      assert rcl.loadObj(ctx) == LoadJob(f, ctx);
      var outcome := LoadObj(f);
      if outcome == Missing || outcome == Failed {
        if outcome == Missing && marked {
          ctx := RemoveFinalizer(ctx, api.update).0;
          return false;
        }
        return true;
      }
      if marked {
        if outcome == Found && !ctx.cr.finalizer {
          return false;
        }
        // RemoveObj forgets the job and leaves it on the server
        assert rcl.removeObj(ctx) == Reply(ctx, false, false);
        ctx := RemoveFinalizer(ctx, api.update).0;
        return !api.update;
      }
      var err := false;
      if outcome == Found {
        assert rcl.ensureCorrect(ctx) == Reply(ctx, !Ended(ctx.state.memory.row), false);
        requeue := !Ended(ctx.state.memory.row);
      } else {
        assert rcl.createObj(ctx) == CreateJob(f, ctx);
        requeue, err := CreateObj(f);
      }
      if err || requeue {
        return true;
      }
      requeue := !EnsureFinalizer(ctx, api.update).1;
      ctx := EnsureFinalizer(ctx, api.update).0;
    }
  }
}

module BackupScheduleController {
  import opened Wrappers
  import opened Reco
  import opened DbReco
  import opened BackupSchedule

  class Controller {
    const spec: CronSpec
    var ctx: Ctx<Desk>

    constructor (spec: CronSpec, ctx: Ctx<Desk>)
      ensures this.spec == spec && this.ctx == ctx
    {
      this.spec, this.ctx := spec, ctx;
    }

    method UpdateStatus(id: int, read: bool, write: bool) returns (ok: bool)
      modifies this
      ensures (ctx, ok) == BackupSchedule.UpdateStatus(old(ctx), id, read, write)
    {
      if !read {
        ctx := Fault(ctx);
        return false;
      }
      if id !in ctx.state.schedules {
        return false;
      }
      var new_ := StatusOf(id, ctx.state.schedules[id]);
      if ctx.state.memory != new_ {
        ctx := Sent(ctx, write).(state := ctx.state.(memory := new_));
        if !write {
          return false;
        }
        ctx := ctx.(state := ctx.state.(memory := Kept(new_), stored := Kept(new_)));
      }
      return true;
    }

    /** Found means the recorded id names a schedule and the status in hand and in store are its own; the schedules are not touched. */
    method LoadObj(f: CronFate) returns (outcome: Load)
      modifies this
      ensures ctx.state.schedules == old(ctx.state.schedules) && ctx.state.stored.id == old(ctx.state.stored.id)
      ensures outcome == Found ==> ctx.state.stored.id in ctx.state.schedules
      ensures outcome == Found ==> ctx.state.stored == ctx.state.memory && ctx.state.memory.command == ctx.state.schedules[ctx.state.stored.id].command
      ensures Loaded(ctx, outcome) == LoadSchedule(f, old(ctx))
    {
      ctx := ctx.(state := ctx.state.(memory := ctx.state.stored));
      if ctx.state.memory.id == 0 {
        return Absent;
      }
      if f.connect != Got {
        ctx := Fault(ctx);
        return if f.connect == NotThere then Missing else Failed;
      }
      var ok := UpdateStatus(ctx.state.memory.id, f.read, f.write);
      outcome := if ok then Found else Failed;
    }

    method CreateObj(f: CronFate) returns (requeue: bool, err: bool)
      modifies this
      ensures Reply(ctx, requeue, err) == CreateSchedule(spec, f, old(ctx))
    {
      if ctx.state.memory.id != 0 {
        return false, false;
      }
      if spec.suspend {
        return true, false;
      }
      if !f.ground {
        ctx := Fault(ctx);
        return true, false;
      }
      ctx := Sent(ctx, f.create);
      if !f.create {
        return true, false;
      }
      var id;
      var d := ctx.state;
      if LabelInUse(d.schedules, spec.name) {
        if !f.byLabel || f.row !in d.schedules || d.schedules[f.row].name != spec.name {
          ctx := Fault(ctx);
          return true, false;
        }
        id := f.row;
      } else {
        var s := Schedule(spec.name, spec.target, "ACTIVE", None, f.now);
        ctx := ctx.(state := d.(schedules := d.schedules[f.newId := s], created := d.created + 1));
        id := if f.idInRow then f.newId else 0;
      }
      var ok := UpdateStatus(id, f.readNew, f.record);
      return !ok, false;
    }

    /** A schedule with the right command is kept; a wrong one is dropped at most once, and no other schedule is. */
    method EnsureCorrect(f: CronFate) returns (requeue: bool, err: bool)
      modifies this
      ensures ctx.state.dropped <= old(ctx.state.dropped) + 1
      ensures spec.target == old(ctx.state.memory.command) ==>
        ctx.state.dropped == old(ctx.state.dropped) && ctx.state.created == old(ctx.state.created) && ctx.state.stored == old(ctx.state.stored)
      ensures old(ctx.state.schedules).Keys - {old(ctx.state.memory.id)} <= ctx.state.schedules.Keys
      ensures Reply(ctx, requeue, err) == CorrectSchedule(spec, f, old(ctx))
    {
      CorrectTouchesOne(spec, f, ctx);
      if !f.target {
        ctx := Fault(ctx);
        return true, false;
      }
      if spec.target != ctx.state.memory.command {
        if !f.drop {
          ctx := Sent(ctx, false);
          return true, false;
        }
        ctx := Dropped(ctx);
        var _, _ := CreateObj(f);
      }
      if !f.readBack {
        ctx := Fault(ctx);
        return true, false;
      }
      if ctx.state.memory.id !in ctx.state.schedules {
        return true, false;
      }
      ctx := Flip(spec, f, ctx);
      return false, false;
    }

    method RemoveObj(f: CronFate) returns (requeue: bool, err: bool)
      requires ctx.cr.marked
      modifies this
      ensures !requeue && spec.drop ==> ctx.state.memory.id !in ctx.state.schedules || ctx.state.memory.id == 0
      ensures !spec.drop ==> ctx == old(ctx) && !requeue
      ensures Reply(ctx, requeue, err) == RemoveSchedule(spec, f, old(ctx))
    {
      if ctx.state.memory.id != 0 && spec.drop {
        ctx := Sent(ctx, f.remove);
        if !f.remove {
          return true, false;
        }
        var d := ctx.state;
        ctx := ctx.(state := d.(schedules := d.schedules - {d.memory.id}, dropped := d.dropped + 1));
      }
      return false, false;
    }

    /** The loop over these callbacks is the pass that the laws are about; it loses the schedule of a live resource exactly when a replacement is dropped for and not recorded, and leaves a settled one settled. */
    method Reconcile(f: CronFate, api: ApiFate) returns (requeue: bool)
      modifies this
      ensures ctx == PassCron(spec, old(ctx), f, api).ctx && requeue == PassCron(spec, old(ctx), f, api).requeue
      ensures !old(ctx.cr.marked) && Coherent(spec, old(ctx.state)) && FreshId(f, old(ctx.state)) ==>
        && Coherent(spec, ctx.state)
        && (BackupSchedule.Settled(spec, old(ctx.state)) ==> BackupSchedule.Settled(spec, ctx.state))
        && (!Dangling(old(ctx.state)) ==> (Dangling(ctx.state) <==> api.get && Drops(spec, f, old(ctx.state)) && !Recreates(spec, f)))
    {
      ghost var rcl, start := BackupSchedule.Instance(spec, f), ctx;
      if !start.cr.marked && Coherent(spec, start.state) && FreshId(f, start.state) {
        PassShape(spec, start, f, api);
      }
      if !api.get {
        ctx := Fault(ctx);
        return true;
      }
      var marked := ctx.cr.marked;
      assert rcl.loadObj(ctx) == LoadSchedule(f, ctx);
      LoadGrows(f, ctx);
      var outcome := LoadObj(f);
      if outcome == Missing || outcome == Failed {
        if outcome == Missing && marked {
          ctx := RemoveFinalizer(ctx, api.update).0;
          return false;
        }
        return true;
      }
      if marked {
        requeue := Release(outcome, f, api);
      } else {
        requeue := Keep(outcome, f, api);
      }
    }

    method Release(outcome: Load, f: CronFate, api: ApiFate) returns (requeue: bool)
      requires ctx.cr.marked
      modifies this
      ensures var c := old(ctx);
        if outcome == Found && !c.cr.finalizer then ctx == c && !requeue
        else
          var r := if outcome == Found then RemoveSchedule(spec, f, c) else Reply(c, false, false);
          if r.err || r.requeue then ctx == r.ctx && requeue
          else ctx == RemoveFinalizer(r.ctx, api.update).0 && requeue == !api.update
    {
      if outcome == Found {
        if !ctx.cr.finalizer {
          return false;
        }
        var err;
        requeue, err := RemoveObj(f);
        if err || requeue {
          return true;
        }
      }
      ctx := RemoveFinalizer(ctx, api.update).0;
      requeue := !api.update;
    }

    method Keep(outcome: Load, f: CronFate, api: ApiFate) returns (requeue: bool)
      modifies this
      ensures var r := if outcome == Found then CorrectSchedule(spec, f, old(ctx)) else CreateSchedule(spec, f, old(ctx));
        if r.err || r.requeue then ctx == r.ctx && requeue
        else ctx == EnsureFinalizer(r.ctx, api.update).0 && requeue == !EnsureFinalizer(r.ctx, api.update).1
    {
      var err;
      if outcome == Found {
        requeue, err := EnsureCorrect(f);
      } else {
        requeue, err := CreateObj(f);
      }
      if err || requeue {
        return true;
      }
      requeue := !EnsureFinalizer(ctx, api.update).1;
      ctx := EnsureFinalizer(ctx, api.update).0;
    }
  }
}
