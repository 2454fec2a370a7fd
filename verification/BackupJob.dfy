// The CockroachDB backup job controller: the job id recorded in the resource's status decides
// whether a BACKUP statement is sent.

module BackupJob {
  import opened Reco
  import ApiTime
  import RecoLaws
  import opened DbReco

  /** A row of SHOW JOBS, and what the resource's status remembers of one (job id 0: nothing). */
  datatype Row = Row(status: string, details: string, times: seq<ApiTime.Instant>) // created, started, finished
  datatype Status = Status(jobId: int, row: Row)

  function Stored(row: Row): (r: Row)
    ensures r == row <==> Survives(row)
  {
    var times := seq(|row.times|, i requires 0 <= i < |row.times| => ApiTime.Stored(row.times[i]));
    assert times == row.times <==> forall i :: 0 <= i < |row.times| ==> times[i] == row.times[i];
    row.(times := times)
  }

  predicate Survives(row: Row) {
    forall i :: 0 <= i < |row.times| ==> ApiTime.Survives(row.times[i])
  }

  /**
    `memory` is the status of the copy a pass works on, `stored` the one the API server holds. The
    counters say how many BACKUP statements were sent, how many of them failed, how many status
    writes failed, and how many of those were to record a new job.
   */
  datatype Books = Books(memory: Status, stored: Status, jobs: map<int, Row>,
                         issued: nat, failedBackups: nat, failedWrites: nat, lostIds: nat)

  datatype JobFate = JobFate(connect: Lookup, read: bool, write: Lookup, keep: Lookup,
                             target: bool, backup: bool, jobId: int, now: seq<ApiTime.Instant>, record: Lookup)

  function Book(c: Ctx<Books>, b: Books): Ctx<Books> {
    c.(state := b)
  }

  function AsLoad(l: Lookup): Load {
    match l case Got => Found case NotThere => Missing case Broken => Failed
  }

  /** SetStatus: store a status that differs, and see to the finalizer when it was stored. */
  function SetStatus(c: Ctx<Books>, new_: Status, write: Lookup, keep: Lookup): (Ctx<Books>, Lookup) {
    var b := c.state;
    if b.memory == new_ then (c, Got)
    else if write != Got then (Book(Sent(c, false), b.(memory := new_, failedWrites := b.failedWrites + 1)), write)
    else
      // the copy in hand is overwritten with what was stored
      var kept := Status(new_.jobId, Stored(new_.row));
      var (c1, ok) := EnsureFinalizer(Book(Sent(c, true), b.(memory := kept, stored := kept)), keep == Got);
      (c1, if ok then Got else keep)
  }

  function LoadJob(f: JobFate, c0: Ctx<Books>): Loaded<Books> {
    var c := Book(c0, c0.state.(memory := c0.state.stored));
    var id := c.state.memory.jobId;
    if id == 0 then Loaded(c, Absent)
    else if f.connect != Got then Loaded(Fault(c), AsLoad(f.connect))
    else if !f.read then Loaded(Fault(c), Failed)
    else if id !in c.state.jobs then Loaded(c, Absent)
    else
      var (c1, answer) := SetStatus(c, Status(id, c.state.jobs[id]), f.write, f.keep);
      Loaded(c1, AsLoad(answer))
  }

  function CreateJob(f: JobFate, c: Ctx<Books>): Reply<Books> {
    var b := c.state;
    if b.memory.jobId != 0 then Reply(c, false, false)
    else if f.connect != Got || !f.target then Reply(Fault(c), true, false)
    else if !f.backup then Reply(Book(Sent(c, false), b.(issued := b.issued + 1, failedBackups := b.failedBackups + 1)), true, false)
    else
      var started := Row("", "", f.now);
      var c1 := Book(Sent(c, true), b.(issued := b.issued + 1, jobs := b.jobs[f.jobId := started]));
      // the error of this write is not looked at
      var c2 := SetStatus(c1, Status(f.jobId, started), f.record, f.keep).0;
      Reply(Book(c2, c2.state.(lostIds := b.lostIds + if f.record == Got then 0 else 1)), true, false)
  }

  predicate Ended(row: Row) {
    row.status == "failed" || row.status == "succeeded"
  }

  function Instance(f: JobFate): Reconcilable<Books> {
    Reconcilable(
      true,
      (c: Ctx<Books>) => LoadJob(f, c),
      (c: Ctx<Books>) => CreateJob(f, c),
      (c: Ctx<Books>) => Reply(c, false, false),
      (c: Ctx<Books>) => Reply(c, !Ended(c.state.memory.row), false),
      (callback: Callback, c: Ctx<Books>) => true)
  }

  function PassJob(c: Ctx<Books>, f: JobFate, api: ApiFate): Outcome<Books> {
    Reconcile(Instance(f), c, api)
  }

  lemma SetStatusGrows(c: Ctx<Books>, new_: Status, write: Lookup, keep: Lookup)
    ensures Grows(c, SetStatus(c, new_, write, keep).0)
  {
  }

  lemma CallbacksGrow(f: JobFate, c: Ctx<Books>)
    ensures Grows(c, LoadJob(f, c).ctx) && Grows(c, CreateJob(f, c).ctx)
  {
    var b, copy := c.state, Book(c, c.state.(memory := c.state.stored));
    var id := b.stored.jobId;
    if id in b.jobs {
      SetStatusGrows(copy, Status(id, b.jobs[id]), f.write, f.keep);
    }
    var started := Row("", "", f.now);
    SetStatusGrows(Book(Sent(c, true), b.(issued := b.issued + 1, jobs := b.jobs[f.jobId := started])), Status(f.jobId, started), f.record, f.keep);
  }

  lemma InstanceLawful(f: JobFate)
    ensures Lawful(Instance(f))
  {
    var rcl := Instance(f);
    forall c ensures LawfulAt(rcl, c) {
      CallbacksGrow(f, c);
      assert rcl.loadObj(c) == LoadJob(f, c) && rcl.createObj(c) == CreateJob(f, c);
      assert rcl.removeObj(c) == Reply(c, false, false);
      assert rcl.ensureCorrect(c) == Reply(c, !Ended(c.state.memory.row), false);
    }
  }

  // ---------- Every run ----------

  datatype JobStep = Mark | Collect | Jobs(table: map<int, Row>) | Pass(f: JobFate, api: ApiFate)

  function Lift(step: JobStep): RecoLaws.Step<Books> {
    match step
    case Mark => RecoLaws.Step.Mark
    case Collect => RecoLaws.Step.Collect
    case Jobs(table) => RecoLaws.Step.Outside((b: Books) => b.(jobs := table))
    case Pass(f, api) => RecoLaws.Step.Pass(Instance(f), api)
  }

  function After(w: RecoLaws.World<Books>, steps: seq<JobStep>): RecoLaws.World<Books> {
    if steps == [] then w else RecoLaws.Next(After(w, steps[..|steps| - 1]), Lift(steps[|steps| - 1]))
  }

  /** The server numbers its jobs from one. */
  predicate Numbered(step: JobStep) {
    step.Pass? ==> step.f.jobId != 0
  }

  /** Every BACKUP statement is accounted for: it failed, its id was lost, or it is the one recorded; and what is stored has been through storing. */
  predicate Balanced(b: Books) {
    && b.issued == b.failedBackups + b.lostIds + (if b.stored.jobId == 0 then 0 else 1)
    && b.lostIds <= b.failedWrites
    && Survives(b.stored.row)
  }

  lemma LoadBalanced(f: JobFate, c: Ctx<Books>)
    requires Balanced(c.state)
    ensures var b := LoadJob(f, c).ctx.state;
      Balanced(b) && b.stored.jobId == b.memory.jobId == c.state.stored.jobId && b.issued == c.state.issued
  {
  }

  lemma CreateBalanced(f: JobFate, c: Ctx<Books>)
    requires f.jobId != 0 && Balanced(c.state) && c.state.memory.jobId == c.state.stored.jobId
    ensures var b := CreateJob(f, c).ctx.state;
      Balanced(b) && (c.state.stored.jobId != 0 ==> b == c.state)
  {
  }

  lemma PassBalanced(f: JobFate, api: ApiFate, c: Ctx<Books>)
    requires f.jobId != 0 && Balanced(c.state)
    ensures var b := PassJob(c, f, api).ctx.state;
      && Balanced(b)
      && (c.state.stored.jobId != 0 ==> b.stored.jobId == c.state.stored.jobId && b.issued == c.state.issued)
  {
    var rcl := Instance(f);
    assert rcl.loadObj(c) == LoadJob(f, c);
    var load := LoadJob(f, c);
    LoadBalanced(f, c);
    assert rcl.createObj(load.ctx) == CreateJob(f, load.ctx);
    CreateBalanced(f, load.ctx);
  }

  /** The books balance after every run, whatever fails and whatever becomes of the jobs. */
  lemma {:induction false} RunBalanced(w: RecoLaws.World<Books>, steps: seq<JobStep>)
    requires w.Live? && Balanced(w.ctx.state)
    requires forall i :: 0 <= i < |steps| ==> Numbered(steps[i])
    ensures After(w, steps).Live? ==> Balanced(After(w, steps).ctx.state)
    ensures After(w, steps).Live? && w.ctx.state.stored.jobId != 0 ==>
      && After(w, steps).ctx.state.stored.jobId == w.ctx.state.stored.jobId
      && After(w, steps).ctx.state.issued == w.ctx.state.issued
  {
    if steps != [] {
      var n := |steps| - 1;
      RunBalanced(w, steps[..n]);
      var prev := After(w, steps[..n]);
      if prev.Live? && steps[n].Pass? {
        PassBalanced(steps[n].f, steps[n].api, prev.ctx);
      }
    }
  }

  function Fresh(jobs: map<int, Row>): Books {
    var none := Status(0, Row("", "", []));
    Books(none, none, jobs, 0, 0, 0, 0)
  }

  /** Of a new resource: at most one more BACKUP is ever sent than BACKUP calls and status writes fail. */
  lemma BackupsBounded(c: Ctx<Books>, jobs: map<int, Row>, steps: seq<JobStep>)
    requires c.state == Fresh(jobs)
    requires forall i :: 0 <= i < |steps| ==> Numbered(steps[i])
    ensures var w := After(RecoLaws.Live(c), steps);
      w.Live? ==> w.ctx.state.issued <= 1 + w.ctx.state.failedBackups + w.ctx.state.failedWrites
  {
    RunBalanced(RecoLaws.Live(c), steps);
  }

  lemma {:induction false} RunSplits(w: RecoLaws.World<Books>, a: seq<JobStep>, b: seq<JobStep>)
    ensures After(w, a + b) == After(After(w, a), b)
  {
    if b == [] {
      assert a + b == a;
    } else {
      var n := |b| - 1;
      assert (a + b)[..|a + b| - 1] == a + b[..n];
      RunSplits(w, a, b[..n]);
    }
  }

  /** Once an id is recorded it stays, and no further BACKUP is sent. */
  lemma RecordedStays(c: Ctx<Books>, jobs: map<int, Row>, before: seq<JobStep>, later: seq<JobStep>)
    requires c.state == Fresh(jobs)
    requires forall i :: 0 <= i < |before| ==> Numbered(before[i])
    requires forall i :: 0 <= i < |later| ==> Numbered(later[i])
    ensures var w, w' := After(RecoLaws.Live(c), before), After(RecoLaws.Live(c), before + later);
      w.Live? && w'.Live? && w.ctx.state.stored.jobId != 0 ==>
        w'.ctx.state.stored.jobId == w.ctx.state.stored.jobId && w'.ctx.state.issued == w.ctx.state.issued
  {
    RunBalanced(RecoLaws.Live(c), before);
    RunSplits(RecoLaws.Live(c), before, later);
    var w := After(RecoLaws.Live(c), before);
    if w.Live? {
      RunBalanced(w, later);
    }
  }

  /** When every call succeeds, a new resource gets exactly one BACKUP, its id recorded and the finalizer in one pass, and is retried for the outcome. */
  lemma GoodPassStarts(f: JobFate, c: Ctx<Books>)
    requires !c.cr.marked && c.state.stored.jobId == 0 && f.jobId != 0
    requires f.connect == Got && f.target && f.backup && f.record == Got && f.keep == Got
    ensures var o := PassJob(c, f, ApiFate(true, true));
      && o.ctx.state.issued == c.state.issued + 1 && o.ctx.state.stored.jobId == f.jobId
      && o.ctx.cr.finalizer && o.requeue
  {
    var rcl := Instance(f);
    assert rcl.loadObj(c) == LoadJob(f, c);
    var load := LoadJob(f, c);
    assert rcl.createObj(load.ctx) == CreateJob(f, load.ctx);
  }

  /** Loading fails otherwise than by "not found": no connection, no answer, or a status that differs and cannot be written. */
  ghost predicate LoadFails(f: JobFate, b: Books) {
    var id := b.stored.jobId;
    id != 0 &&
    (|| f.connect == Broken
     || (f.connect == Got && (!f.read || (id in b.jobs && b.stored.row != b.jobs[id] && f.write == Broken))))
  }

  /** A marked resource is let go of exactly when it can be read and updated and loading does not fail; the job itself is left alone. */
  lemma ReleasedJobExactly(f: JobFate, c: Ctx<Books>, api: ApiFate)
    requires c.cr.marked && c.cr.finalizer
    ensures !PassJob(c, f, api).ctx.cr.finalizer <==> api.get && api.update && !LoadFails(f, c.state)
    ensures PassJob(c, f, api).ctx.state.jobs == c.state.jobs && PassJob(c, f, api).ctx.state.issued == c.state.issued
  {
    InstanceLawful(f);
    var rcl := Instance(f);
    assert rcl.loadObj(c) == LoadJob(f, c);
    assert rcl.removeObj(LoadJob(f, c).ctx) == Reply(LoadJob(f, c).ctx, false, false);
    RecoLaws.ReleasedExactly(rcl, c, api);
  }

  // ---------- Where it comes to rest ----------

  /** A job that succeeded or failed has ended; one that is running has not. */
  lemma EndedWords(row: Row)
    ensures row.status == "succeeded" || row.status == "failed" ==> Ended(row)
    ensures row.status == "running" || row.status == "pending" || row.status == "" ==> !Ended(row)
  {
  }

  /** So a pass over a live resource, without a fault, is the last for a job that succeeded and not for one that is running. */
  lemma RetriedWhileRunning(f: JobFate, api: ApiFate, c: Ctx<Books>)
    requires !c.cr.marked && c.state.stored.jobId in c.state.jobs && c.state.stored.jobId != 0
    ensures var o := PassJob(c, f, api); var row := c.state.jobs[c.state.stored.jobId];
      && (row.status == "running" && o.loaded ==> o.requeue)
      && (row.status == "succeeded" && o.ctx.faults == c.faults ==> !o.requeue)
  {
    RestExactly(f, api, c);
    EndedWords(c.state.jobs[c.state.stored.jobId]);
  }

  /** The job is recorded and finished, the status says so and the finalizer is in place. */
  predicate AtRest(c: Ctx<Books>) {
    && c.cr.finalizer && c.state.stored.jobId != 0
    && c.state.stored.jobId in c.state.jobs
    && c.state.stored.row == Stored(c.state.jobs[c.state.stored.jobId]) && Ended(c.state.stored.row)
  }

  /**
    A pass over a live resource whose job still exists ends without asking for a retry exactly when no
    call failed and the job is finished, and then the resource is at rest. At rest no pass disturbs it.
   */
  lemma RestExactly(f: JobFate, api: ApiFate, c: Ctx<Books>)
    requires !c.cr.marked && c.state.stored.jobId in c.state.jobs && c.state.stored.jobId != 0
    ensures var o := PassJob(c, f, api);
      && (o.loaded && !o.requeue <==> o.ctx.faults == c.faults && Ended(c.state.jobs[c.state.stored.jobId]))
      && (o.loaded && !o.requeue && Balanced(c.state) ==> AtRest(o.ctx))
      && (AtRest(c) ==> AtRest(o.ctx))
  {
    var rcl := Instance(f);
    assert rcl.loadObj(c) == LoadJob(f, c);
    var load := LoadJob(f, c);
    assert rcl.ensureCorrect(load.ctx) == Reply(load.ctx, !Ended(load.ctx.state.memory.row), false);
    StoredSurvives(c.state.jobs[c.state.stored.jobId]);
  }

  lemma StoredSurvives(row: Row)
    ensures Survives(Stored(row)) && Stored(Stored(row)) == Stored(row) && Stored(row).status == row.status
  {
  }

  /** At rest a pass that gets as far as comparing writes nothing exactly when the job's times survive storing; otherwise it writes the same status again, every time. */
  lemma SilentAtRestExactly(f: JobFate, api: ApiFate, c: Ctx<Books>)
    requires !c.cr.marked && AtRest(c) && api.get && f.connect == Got && f.read
    ensures var o := PassJob(c, f, api); var row := c.state.jobs[c.state.stored.jobId];
      && (o.ctx.writes == c.writes <==> Survives(row))
      && (!Survives(row) ==> o.ctx.writes == c.writes + 1 && o.ctx.state.stored == c.state.stored)
  {
    var rcl := Instance(f);
    assert rcl.loadObj(c) == LoadJob(f, c);
    var load := LoadJob(f, c);
    assert rcl.ensureCorrect(load.ctx) == Reply(load.ctx, !Ended(load.ctx.state.memory.row), false);
    var row := c.state.jobs[c.state.stored.jobId];
    assert c.state.stored == Status(c.state.stored.jobId, row) <==> Survives(row);
  }

  /** A finished job with a fraction of a second in one of its times is written again by every such pass. */
  lemma FractionIsRewritten(f: JobFate, api: ApiFate, c: Ctx<Books>)
    requires !c.cr.marked && AtRest(c) && api.get && f.connect == Got && f.read
    requires c.state.jobs[c.state.stored.jobId].times == [ApiTime.Instant(0, 500000000, true), ApiTime.Instant(1, 0, true), ApiTime.Instant(2, 0, true)]
    ensures PassJob(c, f, api).ctx.writes == c.writes + 1
  {
    var row := c.state.jobs[c.state.stored.jobId];
    assert row.times[0].nanos != 0;
    SilentAtRestExactly(f, api, c);
  }
}
