// The CockroachDB backup schedule controller: the schedule id recorded in the resource's status
// decides whether a schedule is created, kept or replaced.

module BackupSchedule {
  import opened Wrappers
  import opened Reco
  import ApiTime
  import RecoLaws
  import opened DbReco

  /** `command` is the backup statement a schedule runs, in the form the server shows it. */
  datatype Schedule = Schedule(name: string, command: string, status: string, state: Option<string>, created: ApiTime.Instant)

  /** What the resource's status remembers of a schedule (id 0: nothing). */
  datatype Status = Status(id: int, command: string, status: string, state: Option<string>, created: ApiTime.Instant)

  datatype CronSpec = CronSpec(name: string, target: string, suspend: bool, drop: bool)

  /** `memory` is the status of the copy a pass works on, `stored` the one the API server holds. */
  datatype Desk = Desk(memory: Status, stored: Status, schedules: map<int, Schedule>, created: nat, dropped: nat)

  /** Which calls succeed; `newId` and `row` are the ids the server answers with, `idInRow` whether a creation's answer carries one. */
  datatype CronFate = CronFate(
    connect: Lookup, read: bool, write: bool,
    target: bool, drop: bool, readBack: bool, flip: bool,
    ground: bool, create: bool, newId: int, now: ApiTime.Instant, idInRow: bool, byLabel: bool, row: int, readNew: bool, record: bool,
    remove: bool)

  function StatusOf(id: int, s: Schedule): Status {
    Status(id, s.command, s.status, s.state, s.created)
  }

  /** A status as it comes back from the API server. */
  function Kept(s: Status): Status {
    s.(created := ApiTime.Stored(s.created))
  }

  function SetStatus(c: Ctx<Desk>, new_: Status, write: bool): (Ctx<Desk>, bool) {
    var d := c.state;
    if d.memory == new_ then (c, true)
    else if write then (Sent(c, true).(state := d.(memory := Kept(new_), stored := Kept(new_))), true)
    else (Sent(c, false).(state := d.(memory := new_)), false)
  }

  /** Read a schedule by its id and store what it looks like; an id that names nothing is an error. */
  function UpdateStatus(c: Ctx<Desk>, id: int, read: bool, write: bool): (Ctx<Desk>, bool) {
    if !read then (Fault(c), false)
    else if id !in c.state.schedules then (c, false)
    else SetStatus(c, StatusOf(id, c.state.schedules[id]), write)
  }

  function LoadSchedule(f: CronFate, c0: Ctx<Desk>): Loaded<Desk> {
    var c := c0.(state := c0.state.(memory := c0.state.stored));
    if c.state.memory.id == 0 then Loaded(c, Absent)
    else if f.connect != Got then Loaded(Fault(c), if f.connect == NotThere then Missing else Failed)
    else
      var (c1, ok) := UpdateStatus(c, c.state.memory.id, f.read, f.write);
      Loaded(c1, if ok then Found else Failed)
  }

  predicate LabelInUse(schedules: map<int, Schedule>, name: string) {
    exists id :: id in schedules && schedules[id].name == name
  }

  function CreateSchedule(spec: CronSpec, f: CronFate, c: Ctx<Desk>): Reply<Desk> {
    var d := c.state;
    if d.memory.id != 0 then Reply(c, false, false)
    else if spec.suspend then Reply(c, true, false)
    else if !f.ground then Reply(Fault(c), true, false)
    else if !f.create then Reply(Sent(c, false), true, false)
    else if LabelInUse(d.schedules, spec.name) then
      // IF NOT EXISTS: nothing is created, the schedule under the label is adopted
      if !f.byLabel || f.row !in d.schedules || d.schedules[f.row].name != spec.name then Reply(Fault(Sent(c, true)), true, false)
      else Recorded(Sent(c, true), f.row, f)
    else
      var s := Schedule(spec.name, spec.target, "ACTIVE", None, f.now);
      var c1 := Sent(c, true).(state := d.(schedules := d.schedules[f.newId := s], created := d.created + 1));
      Recorded(c1, if f.idInRow then f.newId else 0, f)
  }

  function Recorded(c: Ctx<Desk>, id: int, f: CronFate): Reply<Desk> {
    var (c1, ok) := UpdateStatus(c, id, f.readNew, f.record);
    Reply(c1, !ok, false)
  }

  function Dropped(c: Ctx<Desk>): Ctx<Desk> {
    var d := c.state;
    Sent(c, true).(state := d.(schedules := d.schedules - {d.memory.id}, dropped := d.dropped + 1, memory := d.memory.(id := 0)))
  }

  function Replace(spec: CronSpec, f: CronFate, c: Ctx<Desk>): Ctx<Desk> {
    // CreateObj turns its errors into retries, and the retry is not looked at
    CreateSchedule(spec, f, Dropped(c)).ctx
  }

  function CorrectSchedule(spec: CronSpec, f: CronFate, c: Ctx<Desk>): Reply<Desk> {
    if !f.target then Reply(Fault(c), true, false)
    else if spec.target != c.state.memory.command && !f.drop then Reply(Sent(c, false), true, false)
    else
      var c1 := if spec.target != c.state.memory.command then Replace(spec, f, c) else c;
      if !f.readBack then Reply(Fault(c1), true, false)
      else if c1.state.memory.id !in c1.state.schedules then Reply(c1, true, false)
      else Reply(Flip(spec, f, c1), false, false)
  }

  /** Pause or resume; a schedule whose state says something is not resumed, and errors are only logged. */
  function Flip(spec: CronSpec, f: CronFate, c: Ctx<Desk>): Ctx<Desk>
    requires c.state.memory.id in c.state.schedules
  {
    var d := c.state;
    var s := d.schedules[d.memory.id];
    var wish := if spec.suspend then "PAUSED" else "ACTIVE";
    if s.status == wish || (!spec.suspend && s.state.Some?) then c
    else if !f.flip then Sent(c, false)
    else Sent(c, true).(state := d.(schedules := d.schedules[d.memory.id := s.(status := wish)]))
  }

  function RemoveSchedule(spec: CronSpec, f: CronFate, c: Ctx<Desk>): Reply<Desk> {
    var d := c.state;
    if d.memory.id == 0 || !spec.drop then Reply(c, false, false)
    else if !f.remove then Reply(Sent(c, false), true, false)
    else Reply(Sent(c, true).(state := d.(schedules := d.schedules - {d.memory.id}, dropped := d.dropped + 1)), false, false)
  }

  function Instance(spec: CronSpec, f: CronFate): Reconcilable<Desk> {
    Reconcilable(
      true,
      (c: Ctx<Desk>) => LoadSchedule(f, c),
      (c: Ctx<Desk>) => CreateSchedule(spec, f, c),
      (c: Ctx<Desk>) => RemoveSchedule(spec, f, c),
      (c: Ctx<Desk>) => CorrectSchedule(spec, f, c),
      (callback: Callback, c: Ctx<Desk>) => callback.RemoveObj? ==> c.cr.marked)
  }

  lemma CreateGrows(spec: CronSpec, f: CronFate, c: Ctx<Desk>)
    ensures Grows(c, CreateSchedule(spec, f, c).ctx)
  {
  }

  lemma ReplaceGrows(spec: CronSpec, f: CronFate, c: Ctx<Desk>)
    ensures Grows(c, Replace(spec, f, c))
  {
    CreateGrows(spec, f, Dropped(c));
  }

  lemma FlipGrows(spec: CronSpec, f: CronFate, c: Ctx<Desk>)
    requires c.state.memory.id in c.state.schedules
    ensures Grows(c, Flip(spec, f, c))
  {
  }

  lemma CorrectGrows(spec: CronSpec, f: CronFate, c: Ctx<Desk>)
    ensures Grows(c, CorrectSchedule(spec, f, c).ctx)
  {
    ReplaceGrows(spec, f, c);
    var c1 := if spec.target != c.state.memory.command then Replace(spec, f, c) else c;
    assert Grows(c, c1);
    if c1.state.memory.id in c1.state.schedules {
      FlipGrows(spec, f, c1);
    }
  }

  lemma LoadGrows(f: CronFate, c: Ctx<Desk>)
    ensures Grows(c, LoadSchedule(f, c).ctx)
  {
  }

  lemma InstanceLawful(spec: CronSpec, f: CronFate)
    ensures Lawful(Instance(spec, f))
  {
    var rcl := Instance(spec, f);
    forall c ensures LawfulAt(rcl, c) {
      LoadGrows(f, c);
      CreateGrows(spec, f, c);
      CorrectGrows(spec, f, c);
      assert rcl.loadObj(c) == LoadSchedule(f, c) && rcl.createObj(c) == CreateSchedule(spec, f, c);
      assert rcl.ensureCorrect(c) == CorrectSchedule(spec, f, c) && rcl.removeObj(c) == RemoveSchedule(spec, f, c);
    }
  }

  function PassCron(spec: CronSpec, c: Ctx<Desk>, f: CronFate, api: ApiFate): Outcome<Desk> {
    Reconcile(Instance(spec, f), c, api)
  }

  // ---------- One pass ----------

  /** The server hands out an id that is not, and never was, another schedule's. */
  predicate FreshId(f: CronFate, d: Desk) {
    f.newId != 0 && f.newId !in d.schedules && f.newId != d.stored.id
  }

  /** At most one schedule has the resource's label, and a recorded id names none other. */
  ghost predicate Coherent(spec: CronSpec, d: Desk) {
    && 0 !in d.schedules
    && (forall i, j :: i in d.schedules && j in d.schedules && d.schedules[i].name == spec.name == d.schedules[j].name ==> i == j)
    && (d.stored.id in d.schedules ==> d.schedules[d.stored.id].name == spec.name)
  }

  /** The recorded schedule is gone. */
  predicate Dangling(d: Desk) {
    d.stored.id != 0 && d.stored.id !in d.schedules
  }

  /** The one schedule under the label is recorded and does what the spec says. */
  ghost predicate Settled(spec: CronSpec, d: Desk) {
    && Coherent(spec, d) && d.stored.id in d.schedules
    && d.schedules[d.stored.id].command == spec.target
  }

  /** LoadObj gets through. */
  predicate LoadGood(f: CronFate, d: Desk) {
    f.connect == Got && f.read && d.stored.id in d.schedules && (f.write || d.stored == StatusOf(d.stored.id, d.schedules[d.stored.id]))
  }

  lemma LoadShape(f: CronFate, c: Ctx<Desk>)
    requires 0 !in c.state.schedules
    ensures var load := LoadSchedule(f, c); var d, d' := c.state, load.ctx.state;
      && (load.outcome == Absent <==> d.stored.id == 0)
      && (load.outcome == Found <==> LoadGood(f, d))
      && d'.schedules == d.schedules && d'.created == d.created && d'.dropped == d.dropped
      && d'.stored.id == d.stored.id
      && (load.outcome == Absent ==> d'.memory.id == 0)
      && (load.outcome == Found ==>
           && d'.stored == d'.memory && d'.memory.id == d.stored.id
           && d'.memory.command == d.schedules[d.stored.id].command)
  {
  }

  /** Loading what is stored already takes no status write exactly when the creation time survives storing; otherwise every load writes it again. */
  lemma LoadWritesExactly(f: CronFate, c: Ctx<Desk>)
    requires f.connect == Got && f.read && c.state.stored.id in c.state.schedules && c.state.stored.id != 0
    requires c.state.stored == Kept(StatusOf(c.state.stored.id, c.state.schedules[c.state.stored.id]))
    ensures LoadSchedule(f, c).ctx.writes == c.writes <==> ApiTime.Survives(c.state.schedules[c.state.stored.id].created)
    ensures LoadGood(f, c.state) <==> f.write || ApiTime.Survives(c.state.schedules[c.state.stored.id].created)
  {
  }

  /** The replacement is created, read and recorded. */
  predicate Recreates(spec: CronSpec, f: CronFate) {
    !spec.suspend && f.ground && f.create && f.idInRow && f.readNew && f.record
  }

  /** The schedule that was read runs another command and is dropped. */
  predicate Drops(spec: CronSpec, f: CronFate, d: Desk) {
    LoadGood(f, d) && d.schedules[d.stored.id].command != spec.target && f.target && f.drop
  }

  lemma ReplaceShape(spec: CronSpec, f: CronFate, c: Ctx<Desk>)
    requires Coherent(spec, c.state) && FreshId(f, c.state)
    requires c.state.memory.id == c.state.stored.id && c.state.stored.id in c.state.schedules
    ensures var d, d' := c.state, Replace(spec, f, c).state;
      && Coherent(spec, d') && d'.dropped == d.dropped + 1
      && (Recreates(spec, f) ==> d'.memory.id == d'.stored.id == f.newId && Settled(spec, d'))
      && (!Recreates(spec, f) ==> d'.stored.id == d.stored.id && Dangling(d'))
      && (d'.memory.id in d'.schedules <==> !spec.suspend && f.ground && f.create && f.idInRow && f.readNew)
  {
    var d := c.state;
    assert !LabelInUse(d.schedules - {d.memory.id}, spec.name);
  }

  lemma FlipShape(spec: CronSpec, f: CronFate, c: Ctx<Desk>)
    requires c.state.memory.id in c.state.schedules
    ensures var d, d' := c.state, Flip(spec, f, c).state;
      && d'.stored == d.stored && d'.memory == d.memory && d'.created == d.created && d'.dropped == d.dropped
      && d'.schedules.Keys == d.schedules.Keys
      && (forall i :: i in d.schedules ==> d'.schedules[i].name == d.schedules[i].name && d'.schedules[i].command == d.schedules[i].command)
  {
  }

  /** A schedule as it should be left: paused when suspended, active otherwise unless its state says something. */
  ghost predicate FlippedTo(spec: CronSpec, before: Schedule, after: Schedule) {
    && after == before.(status := after.status)
    && (spec.suspend ==> after.status == "PAUSED")
    && (!spec.suspend && before.state.None? ==> after.status == "ACTIVE")
    && (!spec.suspend && before.state.Some? ==> after.status == before.status)
  }

  /** Pausing or resuming that goes through leaves the recorded schedule so, and every other one as it was. */
  lemma FlipExactly(spec: CronSpec, f: CronFate, c: Ctx<Desk>)
    requires c.state.memory.id in c.state.schedules && f.flip
    ensures var d, d' := c.state, Flip(spec, f, c).state;
      && d'.schedules.Keys == d.schedules.Keys && FlippedTo(spec, d.schedules[d.memory.id], d'.schedules[d.memory.id])
      && (forall i :: i in d.schedules && i != d.memory.id ==> d'.schedules[i] == d.schedules[i])
  {
  }

  lemma CorrectShape(spec: CronSpec, f: CronFate, c: Ctx<Desk>)
    requires Coherent(spec, c.state) && FreshId(f, c.state) && c.state.stored.id in c.state.schedules
    requires c.state.memory == c.state.stored && c.state.memory.command == c.state.schedules[c.state.stored.id].command
    ensures var r := CorrectSchedule(spec, f, c); var d, d' := c.state, r.ctx.state;
      var drops := d.memory.command != spec.target && f.target && f.drop;
      && Coherent(spec, d')
      && (drops && Recreates(spec, f) ==> Settled(spec, d') && (!r.requeue <==> f.readBack))
      && (drops && !Recreates(spec, f) ==> d'.stored.id == d.stored.id && Dangling(d'))
      && (drops && !Recreates(spec, f) ==>
           (!r.requeue <==> !spec.suspend && f.ground && f.create && f.idInRow && f.readNew && f.readBack))
      && (!drops ==> d'.stored == d.stored && d'.created == d.created && d'.dropped == d.dropped && d'.schedules.Keys == d.schedules.Keys)
      && (!drops && d.memory.command == spec.target ==> Settled(spec, d') && (!r.requeue <==> f.target && f.readBack))
      && (!drops && d.memory.command != spec.target ==> r.requeue)
  {
    if f.target && (c.state.memory.command == spec.target || f.drop) {
      var c1 := if spec.target != c.state.memory.command then Replace(spec, f, c) else c;
      if spec.target != c.state.memory.command {
        ReplaceShape(spec, f, c);
      }
      if c1.state.memory.id in c1.state.schedules {
        FlipShape(spec, f, c1);
      }
    }
  }

  lemma CreateAdds(spec: CronSpec, f: CronFate, c: Ctx<Desk>)
    ensures var d, d' := c.state, CreateSchedule(spec, f, c).ctx.state;
      d.schedules.Keys <= d'.schedules.Keys && d'.dropped == d.dropped
  {
  }

  /** A schedule with the right command is kept; a wrong one is dropped at most once, and no other schedule is. */
  lemma CorrectTouchesOne(spec: CronSpec, f: CronFate, c: Ctx<Desk>)
    ensures var d, d' := c.state, CorrectSchedule(spec, f, c).ctx.state;
      && d'.dropped <= d.dropped + 1
      && (spec.target == d.memory.command ==> d'.dropped == d.dropped && d'.created == d.created && d'.stored == d.stored)
      && d.schedules.Keys - {d.memory.id} <= d'.schedules.Keys
  {
    CreateAdds(spec, f, Dropped(c));
    var c1 := if spec.target != c.state.memory.command then Replace(spec, f, c) else c;
    if c1.state.memory.id in c1.state.schedules {
      FlipShape(spec, f, c1);
    }
  }

  lemma CreateShape(spec: CronSpec, f: CronFate, c: Ctx<Desk>)
    requires Coherent(spec, c.state) && FreshId(f, c.state) && c.state.memory.id == c.state.stored.id == 0
    ensures var r := CreateSchedule(spec, f, c); var d, d' := c.state, r.ctx.state;
      && Coherent(spec, d') && !Dangling(d') && d'.dropped == d.dropped
      && (!r.requeue ==> d'.stored.id in d'.schedules)
      && (!r.requeue && !LabelInUse(d.schedules, spec.name) ==> Settled(spec, d'))
  {
  }
  // ---------- Whole passes ----------

  /** The parts of a pass over a live resource. */
  lemma LivePass(spec: CronSpec, c: Ctx<Desk>, f: CronFate, api: ApiFate)
    requires !c.cr.marked && 0 !in c.state.schedules
    ensures var o := PassCron(spec, c, f, api); var load := LoadSchedule(f, c);
      if !api.get then o.ctx.state == c.state && o.requeue && !o.loaded
      else
        && o.loaded
        && (LoadGood(f, c.state) ==>
             var r := CorrectSchedule(spec, f, load.ctx);
             o.ctx.state == r.ctx.state && (o.requeue <==> r.requeue || (!r.ctx.cr.finalizer && !api.update)))
        && (c.state.stored.id == 0 ==>
             var r := CreateSchedule(spec, f, load.ctx);
             o.ctx.state == r.ctx.state && (o.requeue <==> r.requeue || (!r.ctx.cr.finalizer && !api.update)))
        && (!LoadGood(f, c.state) && c.state.stored.id != 0 ==> o.ctx.state == load.ctx.state && o.requeue)
  {
    var rcl := Instance(spec, f);
    LoadShape(f, c);
    var load := LoadSchedule(f, c);
    assert rcl.loadObj(c) == load;
    assert rcl.ensureCorrect(load.ctx) == CorrectSchedule(spec, f, load.ctx);
    assert rcl.createObj(load.ctx) == CreateSchedule(spec, f, load.ctx);
    CorrectGrows(spec, f, load.ctx);
    CreateGrows(spec, f, load.ctx);
    assert CorrectSchedule(spec, f, load.ctx).err == CreateSchedule(spec, f, load.ctx).err == false;
  }

  /** What any pass over a live resource does to the books, whatever fails. */
  lemma PassShape(spec: CronSpec, c: Ctx<Desk>, f: CronFate, api: ApiFate)
    requires !c.cr.marked && Coherent(spec, c.state) && FreshId(f, c.state)
    ensures var o := PassCron(spec, c, f, api); var d, d' := c.state, o.ctx.state;
      var drops := api.get && Drops(spec, f, d);
      && Coherent(spec, d')
      && (Dangling(d) ==> d'.stored == d.stored && d'.schedules == d.schedules && d'.created == d.created && d'.dropped == d.dropped && o.requeue)
      && (drops && Recreates(spec, f) ==> Settled(spec, d'))
      && (drops && !Recreates(spec, f) ==> d'.stored.id == d.stored.id && Dangling(d'))
      && (!drops ==> d'.dropped == d.dropped)
      && (!drops && d.stored.id != 0 ==> d'.stored.id == d.stored.id && d'.created == d.created && d'.schedules.Keys == d.schedules.Keys)
      && (!drops && d.stored.id == 0 ==> !Dangling(d'))
      && (Settled(spec, d) ==> Settled(spec, d'))
  {
    LivePass(spec, c, f, api);
    if api.get {
      LoadShape(f, c);
      var load := LoadSchedule(f, c);
      if load.outcome == Found {
        CorrectShape(spec, f, load.ctx);
      } else if c.state.stored.id == 0 {
        CreateShape(spec, f, load.ctx);
      }
    }
  }

  /**
    A pass loses its schedule exactly when it drops the one it read and does not get as far as
    recording another: a call in between failed, or the resource is suspended.
   */
  lemma LosesScheduleExactly(spec: CronSpec, c: Ctx<Desk>, f: CronFate, api: ApiFate)
    requires !c.cr.marked && Coherent(spec, c.state) && FreshId(f, c.state) && !Dangling(c.state)
    ensures Dangling(PassCron(spec, c, f, api).ctx.state) <==> api.get && Drops(spec, f, c.state) && !Recreates(spec, f)
  {
    PassShape(spec, c, f, api);
  }

  /** Among these only the failed status write goes unnoticed: the pass then asks for no retry. */
  lemma LosesSilentlyExactly(spec: CronSpec, c: Ctx<Desk>, f: CronFate, api: ApiFate)
    requires !c.cr.marked && Coherent(spec, c.state) && FreshId(f, c.state) && !Dangling(c.state)
    ensures var o := PassCron(spec, c, f, api);
      Dangling(o.ctx.state) && !o.requeue <==>
        && api.get && (c.cr.finalizer || api.update)
        && Drops(spec, f, c.state) && f.readBack && Recreates(spec, f.(record := true)) && !f.record
  {
    PassShape(spec, c, f, api);
    LivePass(spec, c, f, api);
    LoadShape(f, c);
    var load := LoadSchedule(f, c);
    if api.get && Drops(spec, f, c.state) {
      CorrectShape(spec, f, load.ctx);
      LoadGrows(f, c);
      CorrectGrows(spec, f, load.ctx);
    }
  }

  /** A desk with one recorded schedule, number 7, that runs the command "old". */
  function OldSchedule(): Desk {
    var s := Schedule("b", "old", "ACTIVE", None, ApiTime.Instant(0, 0, true));
    Desk(StatusOf(7, s), StatusOf(7, s), map[7 := s], 0, 0)
  }

  function GoodFate(): CronFate {
    CronFate(Got, true, true, true, true, true, true, true, true, 8, ApiTime.Instant(0, 0, true), true, true, 0, true, true, true)
  }

  /** The target changes and the write that should record schedule 8 fails: 7 is dropped, 8 unknown, and no retry is asked for. */
  lemma LostReplacement(c: Ctx<Desk>)
    requires !c.cr.marked && c.cr.finalizer && c.state == OldSchedule()
    ensures var o := PassCron(CronSpec("b", "new", false, true), c, GoodFate().(record := false), ApiFate(true, true));
      Dangling(o.ctx.state) && !o.requeue
  {
    var spec := CronSpec("b", "new", false, true);
    assert c.state.schedules.Keys == {7};
    assert "old" != "new";
    LosesSilentlyExactly(spec, c, GoodFate().(record := false), ApiFate(true, true));
  }

  /** The target of a suspended resource changes: nothing fails, and the schedule is lost all the same. */
  lemma LostToSuspension(c: Ctx<Desk>)
    requires !c.cr.marked && c.state == OldSchedule()
    ensures Dangling(PassCron(CronSpec("b", "new", true, true), c, GoodFate(), ApiFate(true, true)).ctx.state)
  {
    assert c.state.schedules.Keys == {7};
    assert "old" != "new";
    LosesScheduleExactly(CronSpec("b", "new", true, true), c, GoodFate(), ApiFate(true, true));
  }

  // ---------- Deletion ----------

  /**
    When a pass lets go of a marked resource: it can be read and updated, and no schedule is recorded, a parent is gone,
    or the recorded schedule was loaded and is to be kept or was dropped. Only a dropped one goes.
   */
  lemma ReleasedScheduleExactly(spec: CronSpec, c: Ctx<Desk>, f: CronFate, api: ApiFate)
    requires c.cr.marked && c.cr.finalizer && 0 !in c.state.schedules
    ensures var o := PassCron(spec, c, f, api); var d := c.state;
      && (!o.ctx.cr.finalizer <==>
           && api.get && api.update
           && (d.stored.id == 0 || f.connect == NotThere || (LoadGood(f, d) && (!spec.drop || f.remove))))
      && o.ctx.state.schedules == d.schedules - (if api.get && LoadGood(f, d) && spec.drop && f.remove then {d.stored.id} else {})
  {
    InstanceLawful(spec, f);
    var rcl, load := Instance(spec, f), LoadSchedule(f, c);
    LoadShape(f, c);
    LoadGrows(f, c);
    assert rcl.loadObj(c) == load;
    if load.outcome == Found {
      assert rcl.removeObj(load.ctx) == RemoveSchedule(spec, f, load.ctx);
    }
    RecoLaws.ReleasedExactly(rcl, c, api);
  }

  // ---------- Runs ----------

  /** What others do to the server: schedules change status and state, but are not made, dropped or renamed. */
  ghost predicate Ticks(before: map<int, Schedule>, after: map<int, Schedule>) {
    && after.Keys == before.Keys
    && (forall i :: i in before ==> after[i].name == before[i].name && after[i].command == before[i].command)
  }

  datatype CronStep = Mark | Tick(after: map<int, Schedule>) | Pass(f: CronFate, api: ApiFate)

  function Next(spec: CronSpec, c: Ctx<Desk>, step: CronStep): Ctx<Desk> {
    match step
    case Mark => c.(cr := c.cr.(marked := true))
    case Tick(after) => c.(state := c.state.(schedules := after))
    case Pass(f, api) => PassCron(spec, c, f, api).ctx
  }

  function After(spec: CronSpec, c: Ctx<Desk>, steps: seq<CronStep>): Ctx<Desk> {
    if steps == [] then c else Next(spec, After(spec, c, steps[..|steps| - 1]), steps[|steps| - 1])
  }

  ghost predicate Possible(c: Ctx<Desk>, step: CronStep) {
    match step
    case Mark => true
    case Tick(after) => Ticks(c.state.schedules, after)
    case Pass(f, _) => FreshId(f, c.state)
  }

  ghost predicate PossibleRun(spec: CronSpec, c: Ctx<Desk>, steps: seq<CronStep>) {
    forall i :: 0 <= i < |steps| ==> Possible(After(spec, c, steps[..i]), steps[i])
  }

  lemma PossiblePrefix(spec: CronSpec, c: Ctx<Desk>, steps: seq<CronStep>)
    requires PossibleRun(spec, c, steps) && steps != []
    ensures var n := |steps| - 1; PossibleRun(spec, c, steps[..n]) && Possible(After(spec, c, steps[..n]), steps[n])
  {
    var n := |steps| - 1;
    forall i | 0 <= i < n ensures Possible(After(spec, c, steps[..n][..i]), steps[..n][i]) {
      assert steps[..n][..i] == steps[..i];
      assert Possible(After(spec, c, steps[..i]), steps[i]);
    }
  }

  /** Settled once, settled for good while the resource lives and the spec stays: no drop and no creation in any run, whatever fails. */
  lemma {:induction false} SettledStays(spec: CronSpec, c: Ctx<Desk>, steps: seq<CronStep>)
    requires !c.cr.marked && Settled(spec, c.state) && PossibleRun(spec, c, steps) && CronStep.Mark !in steps
    ensures var c' := After(spec, c, steps);
      && !c'.cr.marked && Settled(spec, c'.state) && c'.state.stored.id == c.state.stored.id
      && c'.state.created == c.state.created && c'.state.dropped == c.state.dropped
  {
    if steps != [] {
      var n := |steps| - 1;
      PossiblePrefix(spec, c, steps);
      SettledStays(spec, c, steps[..n]);
      var prev := After(spec, c, steps[..n]);
      assert steps[n] in steps;
      if steps[n].Pass? {
        PassShape(spec, prev, steps[n].f, steps[n].api);
        PassKeepsLive(spec, prev, steps[n].f, steps[n].api);
      }
    }
  }

  lemma PassKeepsLive(spec: CronSpec, c: Ctx<Desk>, f: CronFate, api: ApiFate)
    ensures PassCron(spec, c, f, api).ctx.cr.marked == c.cr.marked
  {
    var rcl := Instance(spec, f);
    InstanceLawful(spec, f);
    assert LawfulAt(rcl, c) && LawfulAt(rcl, rcl.loadObj(c).ctx);
  }

  lemma DanglingPass(spec: CronSpec, c: Ctx<Desk>, f: CronFate, api: ApiFate)
    requires Dangling(c.state) && f.connect != NotThere
    ensures var o := PassCron(spec, c, f, api);
      && o.ctx.cr == c.cr && o.requeue
      && o.ctx.state.stored == c.state.stored && o.ctx.state.schedules == c.state.schedules
      && o.ctx.state.created == c.state.created && o.ctx.state.dropped == c.state.dropped
  {
    var rcl := Instance(spec, f);
    assert rcl.loadObj(c) == LoadSchedule(f, c);
  }

  /**
    There is no way back: with the recorded schedule gone every pass fails to load, so nothing is
    created again and, deleted, the resource keeps its finalizer, as long as its backup target is there.
   */
  lemma {:induction false} DanglingForever(spec: CronSpec, c: Ctx<Desk>, steps: seq<CronStep>)
    requires Dangling(c.state) && PossibleRun(spec, c, steps)
    requires forall i :: 0 <= i < |steps| && steps[i].Pass? ==> steps[i].f.connect != NotThere
    ensures var c' := After(spec, c, steps);
      && c'.cr.finalizer == c.cr.finalizer && c'.state.stored == c.state.stored
      && c'.state.schedules.Keys == c.state.schedules.Keys && c'.state.created == c.state.created
  {
    if steps != [] {
      var n := |steps| - 1;
      PossiblePrefix(spec, c, steps);
      DanglingForever(spec, c, steps[..n]);
      if steps[n].Pass? {
        DanglingPass(spec, After(spec, c, steps[..n]), steps[n].f, steps[n].api);
      }
    }
  }

  // ---------- Two good passes ----------

  /** Every call succeeds, a creation answers with the id, and a look-up by label finds what is there. */
  ghost predicate Good(spec: CronSpec, f: CronFate, d: Desk) {
    && f.connect == Got && f.read && f.write && f.target && f.drop && f.readBack && f.flip
    && f.ground && f.create && f.idInRow && f.byLabel && f.readNew && f.record
    && FreshId(f, d)
    && (LabelInUse(d.schedules, spec.name) ==> f.row in d.schedules && d.schedules[f.row].name == spec.name)
  }

  /** A good pass over a recorded schedule with the right command only pauses or resumes it, as the spec says. */
  lemma GoodPassFlips(spec: CronSpec, c: Ctx<Desk>, f: CronFate)
    requires !c.cr.marked && Coherent(spec, c.state) && Good(spec, f, c.state)
    requires c.state.stored.id in c.state.schedules && c.state.schedules[c.state.stored.id].command == spec.target
    ensures var d, d' := c.state, PassCron(spec, c, f, ApiFate(true, true)).ctx.state;
      && d'.stored.id == d.stored.id && d'.schedules.Keys == d.schedules.Keys
      && FlippedTo(spec, d.schedules[d.stored.id], d'.schedules[d.stored.id])
      && (forall i :: i in d.schedules && i != d.stored.id ==> d'.schedules[i] == d.schedules[i])
  {
    LivePass(spec, c, f, ApiFate(true, true));
    LoadShape(f, c);
    var load := LoadSchedule(f, c);
    FlipExactly(spec, f, load.ctx);
    FlipShape(spec, f, load.ctx);
  }

  /** The schedule does its work, or its state says why not. */
  ghost predicate Running(s: Schedule) {
    s.status == "ACTIVE" || s.state.Some?
  }

  lemma ReplacedRuns(spec: CronSpec, f: CronFate, c: Ctx<Desk>)
    requires Coherent(spec, c.state) && FreshId(f, c.state) && Recreates(spec, f) && f.target && f.drop && f.readBack
    requires c.state.memory.id == c.state.stored.id && c.state.stored.id in c.state.schedules && c.state.memory.command != spec.target
    ensures var d' := CorrectSchedule(spec, f, c).ctx.state; d'.stored.id in d'.schedules && Running(d'.schedules[d'.stored.id])
  {
    var d := c.state;
    assert !LabelInUse(d.schedules - {d.memory.id}, spec.name);
    var c1 := Replace(spec, f, c);
    ReplaceShape(spec, f, c);
    assert c1.state.schedules[f.newId].status == "ACTIVE";
    FlipShape(spec, f, c1);
  }

  /** After a good pass over a recorded schedule of an unsuspended resource the recorded one runs. */
  lemma GoodPassRuns(spec: CronSpec, c: Ctx<Desk>, f: CronFate)
    requires !spec.suspend && !c.cr.marked && Coherent(spec, c.state) && Good(spec, f, c.state) && c.state.stored.id in c.state.schedules
    ensures var d' := PassCron(spec, c, f, ApiFate(true, true)).ctx.state; d'.stored.id in d'.schedules && Running(d'.schedules[d'.stored.id])
  {
    if c.state.schedules[c.state.stored.id].command == spec.target {
      GoodPassFlips(spec, c, f);
    } else {
      LivePass(spec, c, f, ApiFate(true, true));
      LoadShape(f, c);
      ReplacedRuns(spec, f, LoadSchedule(f, c).ctx);
    }
  }

  /** The first good pass leaves some schedule under the label recorded. */
  lemma GoodPass(spec: CronSpec, c: Ctx<Desk>, f: CronFate)
    requires !spec.suspend && !c.cr.marked && Coherent(spec, c.state) && Good(spec, f, c.state) && !Dangling(c.state)
    ensures var o := PassCron(spec, c, f, ApiFate(true, true));
      && o.ctx.state.stored.id in o.ctx.state.schedules && Coherent(spec, o.ctx.state)
      && o.ctx.cr.finalizer && !o.ctx.cr.marked && !o.requeue
      && (c.state.stored.id != 0 || !LabelInUse(c.state.schedules, spec.name) ==> Settled(spec, o.ctx.state))
  {
    var api := ApiFate(true, true);
    PassShape(spec, c, f, api);
    LivePass(spec, c, f, api);
    LoadShape(f, c);
    var load := LoadSchedule(f, c);
    if c.state.stored.id == 0 {
      CreateShape(spec, f, load.ctx);
      assert !CreateSchedule(spec, f, load.ctx).requeue;
    } else {
      CorrectShape(spec, f, load.ctx);
    }
    PassKeepsLive(spec, c, f, api);
    InstanceLawful(spec, f);
    RecoLaws.NoRequeueMeansFinalizer(Instance(spec, f), c, api);
  }

  /**
    Of an unsuspended schedule, two passes in which nothing fails end with exactly one schedule under
    the label, active unless its state says otherwise, with the right command and recorded, and with the
    finalizer in place, exactly when the recorded id was 0 or named a schedule.
   */
  lemma TwoGoodPassesSettle(spec: CronSpec, c: Ctx<Desk>, f1: CronFate, f2: CronFate)
    requires !spec.suspend && !c.cr.marked && Coherent(spec, c.state)
    requires Good(spec, f1, c.state) && Good(spec, f2, PassCron(spec, c, f1, ApiFate(true, true)).ctx.state)
    ensures var api := ApiFate(true, true); var c' := PassCron(spec, PassCron(spec, c, f1, api).ctx, f2, api).ctx;
      Settled(spec, c'.state) && c'.cr.finalizer && Running(c'.state.schedules[c'.state.stored.id]) <==> c.state.stored.id == 0 || c.state.stored.id in c.state.schedules
  {
    var api := ApiFate(true, true);
    var mid := PassCron(spec, c, f1, api).ctx;
    if Dangling(c.state) {
      PassShape(spec, c, f1, api);
      PassKeepsLive(spec, c, f1, api);
      PassShape(spec, mid, f2, api);
    } else {
      GoodPass(spec, c, f1);
      GoodPass(spec, mid, f2);
      GoodPassRuns(spec, mid, f2);
    }
  }
}
