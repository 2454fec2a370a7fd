// What reconciling a list of privilege entries guarantees, whichever calls fail,
// and what is left after the same list has been taken back.

module PlanLaws {
  import opened Wrappers
  import opened PrivilegeSpec
  import opened Grants
  import opened GrantLaws

  ghost predicate Owned(user: string, plan: Plan) {
    forall i :: 0 <= i < |plan| && plan[i].Some? ==> plan[i].value.user == user
  }

  lemma PlanIsOwned(user: string, entries: seq<DbPriv>, product: Product)
    ensures Owned(user, PlanOf(user, entries, product))
  {
    var plan := PlanOf(user, entries, product);
    forall i | 0 <= i < |plan| && plan[i].Some? ensures plan[i].value.user == user {
      ResolvedReconciler(user, entries[i], product);
    }
  }

  ghost predicate Reaches(s: Server, e: Option<PrivsReconciler>, t: Target) {
    e.Some? && t in Covered(s, e.value.reach)
  }

  /** The entry asks for privilege `p` on target `t`. */
  ghost predicate Asks(s: Server, e: Option<PrivsReconciler>, t: Target, p: string) {
    Reaches(s, e, t) && p in e.value.desired
  }

  /** The entry names the target `t` itself, so it also decides what must go. */
  ghost predicate Decides(e: Option<PrivsReconciler>, t: Target) {
    e.Some? && e.value.reach == Exact(t)
  }

  /** Some entry asks for it and no later entry decides the target anew; or it was there and no entry decides. */
  ghost predicate FinallyHeld(s: Server, user: string, plan: Plan, t: Target, p: string) {
    || (exists i :: 0 <= i < |plan| && Asks(s, plan[i], t, p) && forall j :: i < j < |plan| ==> !Decides(plan[j], t))
    || (Held(s, user, t, p) && forall j :: 0 <= j < |plan| ==> !Decides(plan[j], t))
  }

  lemma {:induction false} OnlyGrantsChange(s: Server, plan: Plan, fates: nat -> EntryFate)
    ensures OnlyGrantsDiffer(s, ApplyEntries(s, plan, fates).server)
  {
    if plan != [] {
      OnlyGrantsChange(s, plan[..|plan| - 1], fates);
    }
  }

  /** Whatever fails: other users, and targets that no entry reaches, keep exactly what they had. */
  lemma {:induction false} OthersUntouched(s: Server, user: string, plan: Plan, fates: nat -> EntryFate, x: Fact)
    requires Owned(user, plan)
    requires x.user == user ==> forall i :: 0 <= i < |plan| ==> !Reaches(s, plan[i], x.target)
    ensures x in ApplyEntries(s, plan, fates).server.grants <==> x in s.grants
  {
    if plan != [] {
      var n := |plan| - 1;
      var prev := ApplyEntries(s, plan[..n], fates);
      assert forall i :: 0 <= i < n ==> plan[..n][i] == plan[i];
      OthersUntouched(s, user, plan[..n], fates, x);
      OnlyGrantsChange(s, plan[..n], fates);
      if plan[n].Some? {
        BetweenAtEveryPoint(prev.server, plan[n].value, fates(n));
        assert Covered(prev.server, plan[n].value.reach) == Covered(s, plan[n].value.reach);
        assert x.user == user ==> !Reaches(s, plan[n], x.target);
      }
    }
  }

  /** After a successful run every target holds what its last entry asks for (and later whole-schema entries add). */
  lemma {:induction false} LastEntryWins(s: Server, user: string, plan: Plan, fates: nat -> EntryFate, t: Target, p: string)
    requires Owned(user, plan)
    requires ApplyEntries(s, plan, fates).ok
    requires Visible(t, p)
    ensures Held(ApplyEntries(s, plan, fates).server, user, t, p) <==> FinallyHeld(s, user, plan, t, p)
  {
    if plan != [] {
      var n := |plan| - 1;
      var prev := ApplyEntries(s, plan[..n], fates);
      LastEntryWins(s, user, plan[..n], fates, t, p);
      OnlyGrantsChange(s, plan[..n], fates);
      FinallyStep(s, user, plan, t, p);
      var r := plan[n].value;
      assert Covered(prev.server, r.reach) == Covered(s, r.reach);
      if t in Covered(s, r.reach) {
        ExactOnSuccess(prev.server, r, fates(n), Fact(user, t, p));
      } else {
        BetweenAtEveryPoint(prev.server, r, fates(n));
      }
    }
  }

  /** Of default privileges the code cannot see, a run only ever adds: they stay where they were and come where some entry asks. */
  lemma {:induction false} HiddenAccumulates(s: Server, user: string, plan: Plan, fates: nat -> EntryFate, t: Target, p: string)
    requires Owned(user, plan)
    requires ApplyEntries(s, plan, fates).ok
    requires !Visible(t, p)
    ensures Held(ApplyEntries(s, plan, fates).server, user, t, p) <==>
      Held(s, user, t, p) || exists i :: 0 <= i < |plan| && Asks(s, plan[i], t, p)
  {
    if plan != [] {
      var n := |plan| - 1;
      var prev := ApplyEntries(s, plan[..n], fates);
      HiddenAccumulates(s, user, plan[..n], fates, t, p);
      OnlyGrantsChange(s, plan[..n], fates);
      assert forall i :: 0 <= i < n ==> plan[..n][i] == plan[i];
      var r := plan[n].value;
      assert Covered(prev.server, r.reach) == Covered(s, r.reach);
      if t in Covered(s, r.reach) {
        ExactOnSuccess(prev.server, r, fates(n), Fact(user, t, p));
      } else {
        BetweenAtEveryPoint(prev.server, r, fates(n));
      }
    }
  }

  lemma FinallyStep(s: Server, user: string, plan: Plan, t: Target, p: string)
    requires plan != []
    ensures FinallyHeld(s, user, plan, t, p) <==>
      || Asks(s, plan[|plan| - 1], t, p)
      || (!Decides(plan[|plan| - 1], t) && FinallyHeld(s, user, plan[..|plan| - 1], t, p))
  {
    var n := |plan| - 1;
    var front := plan[..n];
    assert forall i :: 0 <= i < n ==> front[i] == plan[i];
  }

  /** If a run fails, it fails at one entry: those before it are fully applied, those after it not at all. */
  lemma {:induction false} FailurePoint(s: Server, plan: Plan, fates: nat -> EntryFate) returns (i: nat)
    requires !ApplyEntries(s, plan, fates).ok
    ensures i < |plan|
    ensures ApplyEntries(s, plan[..i], fates).ok
    ensures var done, end := ApplyEntries(s, plan[..i], fates).server, ApplyEntries(s, plan, fates).server;
      end == done || (plan[i].Some? && Between(done, plan[i].value, end))
  {
    var n := |plan| - 1;
    if ApplyEntries(s, plan[..n], fates).ok {
      i := n;
      if plan[n].Some? {
        BetweenAtEveryPoint(ApplyEntries(s, plan[..n], fates).server, plan[n].value, fates(n));
      }
    } else {
      i := FailurePoint(s, plan[..n], fates);
      assert plan[..n][..i] == plan[..i];
    }
  }

  // ---------- When a second run has nothing to do ----------

  /** The two entries can be satisfied together. */
  ghost predicate Agree(s: Server, a: PrivsReconciler, b: PrivsReconciler) {
    && (a.reach.Exact? && a.reach == b.reach ==> Desired(a) == Desired(b))
    && (a.reach.AllTables? && b.reach.Exact? && b.reach.target in Covered(s, a.reach) ==> Desired(a) <= Desired(b))
  }

  /** Something a caller can check on the spec and the tables there are. */
  ghost predicate Compatible(s: Server, plan: Plan) {
    && (forall i :: 0 <= i < |plan| ==> plan[i].Some? && AllVisible(plan[i].value))
    && (forall i, j :: 0 <= i < |plan| && 0 <= j < |plan| ==> Agree(s, plan[i].value, plan[j].value))
  }

  ghost predicate AllSatisfied(s: Server, plan: Plan) {
    forall i :: 0 <= i < |plan| ==> plan[i].Some? && Satisfied(s, plan[i].value)
  }

  lemma {:induction false} LastDecider(plan: Plan, t: Target, i: nat) returns (k: nat)
    requires i < |plan| && Decides(plan[i], t)
    ensures i <= k < |plan| && Decides(plan[k], t)
    ensures forall j :: k < j < |plan| ==> !Decides(plan[j], t)
    decreases |plan| - i
  {
    if j :| i < j < |plan| && Decides(plan[j], t) {
      k := LastDecider(plan, t, j);
    } else {
      k := i;
    }
  }

  /** In a compatible list what one entry asks for is finally held wherever it reaches. */
  lemma AskedIsHeld(s: Server, user: string, plan: Plan, i: nat, t: Target, p: string)
    requires Compatible(s, plan)
    requires i < |plan| && Asks(s, plan[i], t, p)
    ensures FinallyHeld(s, user, plan, t, p)
  {
    if j :| i < j < |plan| && Decides(plan[j], t) {
      var k := LastDecider(plan, t, j);
      assert Agree(s, plan[i].value, plan[k].value);
      assert p in Desired(plan[i].value);
      assert Asks(s, plan[k], t, p);
    }
  }

  /** ... and an entry that names its target finds nothing else there. */
  lemma NothingElseHeld(s: Server, user: string, plan: Plan, i: nat, t: Target, p: string)
    requires Compatible(s, plan)
    requires i < |plan| && Decides(plan[i], t)
    requires FinallyHeld(s, user, plan, t, p)
    ensures p in plan[i].value.desired
  {
    var k :| 0 <= k < |plan| && Asks(s, plan[k], t, p);
    assert Agree(s, plan[k].value, plan[i].value);
    assert p in Desired(plan[k].value);
  }

  lemma SettledEntry(s: Server, user: string, plan: Plan, fates: nat -> EntryFate, i: nat)
    requires Owned(user, plan)
    requires ApplyEntries(s, plan, fates).ok
    requires Compatible(s, plan)
    requires i < |plan|
    ensures Satisfied(ApplyEntries(s, plan, fates).server, plan[i].value)
  {
    var end := ApplyEntries(s, plan, fates).server;
    var r := plan[i].value;
    OnlyGrantsChange(s, plan, fates);
    assert Covered(end, r.reach) == Covered(s, r.reach);
    forall p | p in r.desired ensures p in Found(end, r) {
      forall t | t in Covered(s, r.reach) ensures Fact(user, t, p) in end.grants {
        assert Visible(t, p);
        AskedIsHeld(s, user, plan, i, t, p);
        LastEntryWins(s, user, plan, fates, t, p);
      }
      if r.reach.Exact? {
        assert Fact(user, r.reach.target, p) in end.grants;
      } else {
        assert OnEveryTable(end, user, r.reach, p);
      }
    }
    if r.reach.Exact? {
      forall p | p in Found(end, r) ensures p in r.desired {
        LastEntryWins(s, user, plan, fates, r.reach.target, p);
        NothingElseHeld(s, user, plan, i, r.reach.target, p);
      }
    }
  }

  lemma SatisfiedTogether(s: Server, user: string, plan: Plan)
    requires Owned(user, plan)
    requires AllSatisfied(s, plan)
    ensures Compatible(s, plan)
  {
    forall i | 0 <= i < |plan| ensures AllVisible(plan[i].value) {
      var r := plan[i].value;
      forall p | p in r.desired && r.reach.Exact? ensures Visible(r.reach.target, p) {
        assert p in Desired(r) && p in Found(s, r);
      }
    }
    forall i, j | 0 <= i < |plan| && 0 <= j < |plan| ensures Agree(s, plan[i].value, plan[j].value) {
      var a, b := plan[i].value, plan[j].value;
      if a.reach.AllTables? && b.reach.Exact? && b.reach.target in Covered(s, a.reach) {
        forall p | p in Desired(a) ensures p in Desired(b) {
          assert p in Found(s, a);
          assert OnEveryTable(s, user, a.reach, p);
          assert p in Found(s, b);
        }
      }
    }
  }

  lemma SameTables(s: Server, s': Server, plan: Plan)
    requires s.tables == s'.tables && Compatible(s, plan)
    ensures Compatible(s', plan)
  {
    forall i, j | 0 <= i < |plan| && 0 <= j < |plan| ensures Agree(s', plan[i].value, plan[j].value) {
      assert Agree(s, plan[i].value, plan[j].value);
      assert Covered(s, plan[i].value.reach) == Covered(s', plan[i].value.reach);
    }
  }

  /** After a successful run every entry is satisfied exactly when the entries are compatible. */
  lemma SettledIffCompatible(s: Server, user: string, plan: Plan, fates: nat -> EntryFate)
    requires Owned(user, plan)
    requires ApplyEntries(s, plan, fates).ok
    ensures AllSatisfied(ApplyEntries(s, plan, fates).server, plan) <==> Compatible(s, plan)
  {
    var end := ApplyEntries(s, plan, fates).server;
    OnlyGrantsChange(s, plan, fates);
    if Compatible(s, plan) {
      forall i | 0 <= i < |plan| ensures Satisfied(end, plan[i].value) {
        SettledEntry(s, user, plan, fates, i);
      }
    }
    if AllSatisfied(end, plan) {
      SatisfiedTogether(end, user, plan);
      SameTables(end, s, plan);
    }
  }

  lemma {:induction false} SilentPrefix(s: Server, plan: Plan, fates: nat -> EntryFate)
    requires ApplyEntries(s, plan, fates).issued == 0
    ensures ApplyEntries(s, plan, fates).server == s && !ApplyEntries(s, plan, fates).changed
  {
    if plan != [] {
      SilentPrefix(s, plan[..|plan| - 1], fates);
    }
  }

  /** A run that finds every entry satisfied sends nothing; a successful silent run found them so. */
  lemma {:induction false} SilentIffSatisfied(s: Server, plan: Plan, fates: nat -> EntryFate)
    ensures ApplyEntries(s, plan, fates).ok && ApplyEntries(s, plan, fates).issued == 0 ==> AllSatisfied(s, plan)
    ensures AllSatisfied(s, plan) ==>
      var a := ApplyEntries(s, plan, fates); a.issued == 0 && a.server == s && !a.changed
  {
    if plan != [] {
      var n := |plan| - 1;
      SilentIffSatisfied(s, plan[..n], fates);
      assert forall i :: 0 <= i < n ==> plan[..n][i] == plan[i];
      if ApplyEntries(s, plan[..n], fates).issued == 0 {
        SilentPrefix(s, plan[..n], fates);
        if plan[n].Some? {
          QuietWhenSatisfied(s, plan[n].value, fates(n));
        }
      }
    }
  }

  // ---------- However faulty, a run only ever repairs ----------

  /** What is wrong at one fact: an entry asks for it and it is missing, or its target's entry does not and it is there. */
  ghost predicate Wrong(s: Server, user: string, plan: Plan, t: Target, p: string) {
    || (exists i :: 0 <= i < |plan| && Asks(s, plan[i], t, p) && !Held(s, user, t, p))
    || (exists i :: 0 <= i < |plan| && Decides(plan[i], t) && p !in plan[i].value.desired
          && Visible(t, p) && Held(s, user, t, p))
  }

  lemma EntryOnlyRepairs(s: Server, user: string, plan: Plan, i: nat, f: EntryFate, t: Target, p: string)
    requires Owned(user, plan) && Compatible(s, plan) && i < |plan|
    requires Wrong(ReconcilePrivs(s, plan[i].value, f).server, user, plan, t, p)
    ensures Wrong(s, user, plan, t, p)
  {
    var r := plan[i].value;
    var s' := ReconcilePrivs(s, r, f).server;
    BetweenAtEveryPoint(s, r, f);
    if k :| 0 <= k < |plan| && Asks(s', plan[k], t, p) && !Held(s', user, t, p) {
      assert Covered(s', plan[k].value.reach) == Covered(s, plan[k].value.reach);
      assert Asks(s, plan[k], t, p);
      if Held(s, user, t, p) {
        assert Agree(s, plan[k].value, r);
        assert p in Desired(plan[k].value);
        if r.reach.AllTables? {
          AllTablesNeverRevokes(s, r, f);
        }
      }
    } else {
      var k :| 0 <= k < |plan| && Decides(plan[k], t) && p !in plan[k].value.desired && Visible(t, p) && Held(s', user, t, p);
      if !Held(s, user, t, p) {
        assert Agree(s, r, plan[k].value);
        assert p in Desired(r);
      }
    }
  }

  /** A run of any prefix of a compatible list, however it ends, introduces nothing wrong. */
  lemma {:induction false} RunOnlyRepairs(s: Server, user: string, plan: Plan, whole: Plan, fates: nat -> EntryFate, t: Target, p: string)
    requires plan <= whole && Owned(user, whole) && Compatible(s, whole)
    requires Wrong(ApplyEntries(s, plan, fates).server, user, whole, t, p)
    ensures Wrong(s, user, whole, t, p)
  {
    if plan != [] {
      var n := |plan| - 1;
      var prev := ApplyEntries(s, plan[..n], fates);
      OnlyGrantsChange(s, plan[..n], fates);
      SameTables(s, prev.server, whole);
      if prev.ok && fates(n).connect {
        EntryOnlyRepairs(prev.server, user, whole, n, fates(n), t, p);
      }
      RunOnlyRepairs(s, user, plan[..n], whole, fates, t, p);
    }
  }

  /** Nothing wrong is the same as every entry satisfied. */
  lemma NothingWrong(s: Server, user: string, plan: Plan)
    requires Owned(user, plan) && Compatible(s, plan)
    ensures AllSatisfied(s, plan) <==> forall t, p :: !Wrong(s, user, plan, t, p)
  {
    if AllSatisfied(s, plan) {
      forall t, p ensures !Wrong(s, user, plan, t, p) {
        SatisfiedNotWrong(s, user, plan, t, p);
      }
    }
    if forall t, p :: !Wrong(s, user, plan, t, p) {
      forall i | 0 <= i < |plan| ensures Satisfied(s, plan[i].value) {
        var r := plan[i].value;
        forall p | p in r.desired ensures p in Found(s, r) {
          forall t | t in Covered(s, r.reach) ensures Fact(user, t, p) in s.grants {
            assert Asks(s, plan[i], t, p);
            assert !Wrong(s, user, plan, t, p);
          }
          assert r.reach.AllTables? ==> OnEveryTable(s, user, r.reach, p);
          assert r.reach.Exact? ==> Fact(user, r.reach.target, p) in s.grants;
        }
        forall p | p in Found(s, r) ensures p in r.desired {
          if r.reach.Exact? {
            assert !Wrong(s, user, plan, r.reach.target, p);
            assert Decides(plan[i], r.reach.target);
          }
        }
      }
    }
  }

  lemma SatisfiedNotWrong(s: Server, user: string, plan: Plan, t: Target, p: string)
    requires Owned(user, plan) && AllSatisfied(s, plan)
    ensures !Wrong(s, user, plan, t, p)
  {
    forall i | 0 <= i < |plan| && Asks(s, plan[i], t, p) ensures Held(s, user, t, p) {
      assert p in Desired(plan[i].value);
      assert plan[i].value.reach.AllTables? ==> OnEveryTable(s, user, plan[i].value.reach, p);
    }
    forall i | 0 <= i < |plan| && Decides(plan[i], t) && Visible(t, p) && Held(s, user, t, p) ensures p in plan[i].value.desired {
      assert p in Found(s, plan[i].value);
      assert p in Desired(plan[i].value);
    }
  }

  // ---------- Taking privileges back ----------

  lemma {:induction false} SweepOnlyRemoves(s: Server, user: string, db: string, schemas: seq<string>)
    ensures OnlyGrantsDiffer(s, Sweep(s, user, db, schemas)) && Sweep(s, user, db, schemas).grants <= s.grants
    ensures forall x :: x in s.grants && x.user != user ==> x in Sweep(s, user, db, schemas).grants
  {
    if schemas != [] {
      SweepOnlyRemoves(s, user, db, schemas[..|schemas| - 1]);
    }
  }

  /** A sweep takes exactly the user's table privileges in the listed schemas of the database. */
  lemma {:induction false} SweepExactly(s: Server, user: string, db: string, schemas: seq<string>, x: Fact)
    ensures x in Sweep(s, user, db, schemas).grants <==>
      x in s.grants && !(x.user == user && x.target.Table? && x.target.id.db == db && x.target.id.schema in schemas)
  {
    if schemas != [] {
      SweepExactly(s, user, db, schemas[..|schemas| - 1], x);
      assert schemas == schemas[..|schemas| - 1] + [schemas[|schemas| - 1]];
    }
  }

  /**
    Taking back one default-privileges entry, when the schemas swept are those the database lists, leaves
    the user nothing on any table outside the system schemas.
   */
  lemma DefaultTakeBackClearsTables(s: Server, r: PrivsReconciler, f: RevokeFate, id: TableId, p: string)
    requires r.privType == "defaultTable" && RevokeEntry(s, r, f).1
    requires forall schema :: schema in SchemasOf(s, r.db) ==> schema in f.schemas
    requires id in s.tables && id.db == r.db && id.schema !in SYSTEM_SCHEMAS
    ensures !Held(RevokeEntry(s, r, f).0, r.user, Table(id), p)
  {
    assert id.schema in SchemasOf(s, r.db);
    SweepExactly(s, r.user, r.db, f.schemas, Fact(r.user, Table(id), p));
  }

  lemma RevokeEntryRemoves(s: Server, r: PrivsReconciler, f: RevokeFate)
    ensures var (s', ok) := RevokeEntry(s, r, f);
      && OnlyGrantsDiffer(s, s') && s'.grants <= s.grants
      && (forall x :: x in s.grants && x.user != r.user ==> x in s'.grants)
      && (ok ==> forall x :: Mine(s, r, x) && x.priv in r.desired ==> x !in s'.grants)
  {
    SweepOnlyRemoves(s, r.user, r.db, f.schemas);
    if f.swept < |f.schemas| {
      SweepOnlyRemoves(s, r.user, r.db, f.schemas[..f.swept]);
    }
    assert Covered(Sweep(s, r.user, r.db, f.schemas), r.reach) == Covered(s, r.reach);
  }

  /** What taking back one entry removes: its privileges where it reaches, and table privileges in the schemas swept. */
  ghost predicate Takes(s: Server, e: Option<PrivsReconciler>, f: RevokeFate, x: Fact) {
    e.Some? && x.user == e.value.user &&
    (|| (x.target in Covered(s, e.value.reach) && x.priv in e.value.desired)
     || (e.value.privType == "defaultTable" && x.target.Table? && x.target.id.db == e.value.db && x.target.id.schema in f.schemas))
  }

  /** Taking back one entry removes exactly that: what is not listed stays. */
  lemma RevokeEntryExactly(s: Server, r: PrivsReconciler, f: RevokeFate, x: Fact)
    requires RevokeEntry(s, r, f).1
    ensures x in RevokeEntry(s, r, f).0.grants <==> x in s.grants && !Takes(s, Some(r), f, x)
  {
    SweepOnlyRemoves(s, r.user, r.db, f.schemas);
    SweepExactly(s, r.user, r.db, f.schemas, x);
    assert Covered(Sweep(s, r.user, r.db, f.schemas), r.reach) == Covered(s, r.reach);
    assert x.priv in Desired(r) <==> x.priv in r.desired;
  }

  /** A successful take-back of a whole list removes exactly what its entries take, whatever else the user holds. */
  lemma {:induction false} RevokeAllExactly(s: Server, user: string, plan: Plan, fates: nat -> RevokeFate, x: Fact)
    requires Owned(user, plan) && RevokeAllDbPrivs(s, plan, fates).1
    ensures x in RevokeAllDbPrivs(s, plan, fates).0.grants <==>
      x in s.grants && forall i :: 0 <= i < |plan| ==> !Takes(s, plan[i], fates(i), x)
  {
    if plan != [] {
      var n := |plan| - 1;
      var prev := RevokeAllDbPrivs(s, plan[..n], fates).0;
      RevokeAllExactly(s, user, plan[..n], fates, x);
      RevokeAllRemoves(s, user, plan[..n], fates);
      assert forall i :: 0 <= i < n ==> plan[..n][i] == plan[i];
      RevokeEntryExactly(prev, plan[n].value, fates(n), x);
      assert Covered(prev, plan[n].value.reach) == Covered(s, plan[n].value.reach);
    }
  }

  /** CONNECT listed and CREATE not: CREATE stays. */
  lemma UnlistedStays(s: Server, user: string, db: string, f: RevokeFate)
    requires Fact(user, Database(db), "CREATE") in s.grants && f.revoke
    ensures var r := PrivsReconciler("database", user, Exact(Database(db)), ["CONNECT"], None, db);
      var (s', ok) := RevokeEntry(s, r, f);
      ok && Held(s', user, Database(db), "CREATE") && !Held(s', user, Database(db), "CONNECT")
  {
    var r := PrivsReconciler("database", user, Exact(Database(db)), ["CONNECT"], None, db);
    assert "CREATE" != "CONNECT" && "database" != "defaultTable";
    assert RevokeEntry(s, r, f).1;
    RevokeEntryExactly(s, r, f, Fact(user, Database(db), "CREATE"));
    RevokeEntryExactly(s, r, f, Fact(user, Database(db), "CONNECT"));
  }

  /** Nothing is added and nobody else is touched; on success no entry's privileges remain where it reaches. */
  lemma {:induction false} RevokeAllRemoves(s: Server, user: string, plan: Plan, fates: nat -> RevokeFate)
    requires Owned(user, plan)
    ensures var (s', ok) := RevokeAllDbPrivs(s, plan, fates);
      && OnlyGrantsDiffer(s, s') && s'.grants <= s.grants
      && (forall x :: x in s.grants && x.user != user ==> x in s'.grants)
      && (ok ==> forall i, t, p :: 0 <= i < |plan| && Asks(s, plan[i], t, p) ==> !Held(s', user, t, p))
  {
    if plan != [] {
      var n := |plan| - 1;
      RevokeAllRemoves(s, user, plan[..n], fates);
      var prev := RevokeAllDbPrivs(s, plan[..n], fates);
      if plan[n].Some? {
        RevokeEntryRemoves(prev.0, plan[n].value, fates(n));
        assert Covered(prev.0, plan[n].value.reach) == Covered(s, plan[n].value.reach);
      }
      var (s', ok) := RevokeAllDbPrivs(s, plan, fates);
      forall i, t, p | ok && 0 <= i < |plan| && Asks(s, plan[i], t, p) ensures !Held(s', user, t, p) {
        if i < n {
          assert Asks(s, plan[..n][i], t, p);
          assert !Held(prev.0, user, t, p);
        } else {
          assert Mine(prev.0, plan[n].value, Fact(user, t, p));
        }
      }
    }
  }

  /**
    A successful update followed by a successful take-back of the same spec, overlapping or not:
    every target named by an entry is left with nothing the code can see, no listed privilege is
    left wherever an entry reaches, and no other user's grants have changed.
   */
  lemma UpdateThenRevokeClears(s: Server, user: string, plan: Plan, fates: nat -> EntryFate, revokeFates: nat -> RevokeFate)
    requires Owned(user, plan)
    requires ApplyEntries(s, plan, fates).ok
    requires RevokeAllDbPrivs(ApplyEntries(s, plan, fates).server, plan, revokeFates).1
    ensures var end := RevokeAllDbPrivs(ApplyEntries(s, plan, fates).server, plan, revokeFates).0;
      && (forall i, t, p :: 0 <= i < |plan| && Decides(plan[i], t) && Visible(t, p) ==> !Held(end, user, t, p))
      && (forall i, t, p :: 0 <= i < |plan| && Asks(s, plan[i], t, p) ==> !Held(end, user, t, p))
      && (forall x: Fact :: x.user != user ==> (x in end.grants <==> x in s.grants))
  {
    var mid := ApplyEntries(s, plan, fates).server;
    var end := RevokeAllDbPrivs(mid, plan, revokeFates).0;
    OnlyGrantsChange(s, plan, fates);
    RevokeAllRemoves(mid, user, plan, revokeFates);
    forall i, t, p | 0 <= i < |plan| && Asks(s, plan[i], t, p) ensures !Held(end, user, t, p) {
      assert Covered(mid, plan[i].value.reach) == Covered(s, plan[i].value.reach);
      assert Asks(mid, plan[i], t, p);
    }
    forall i, t, p | 0 <= i < |plan| && Decides(plan[i], t) && Visible(t, p) ensures !Held(end, user, t, p) {
      if Held(mid, user, t, p) {
        LastEntryWins(s, user, plan, fates, t, p);
        var k :| 0 <= k < |plan| && Asks(s, plan[k], t, p);
      }
    }
    forall x: Fact | x.user != user ensures x in end.grants <==> x in s.grants {
      OthersUntouched(s, user, plan, fates, x);
    }
  }
}
