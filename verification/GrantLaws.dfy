// What reconciling one privilege entry guarantees, whichever calls fail.

module GrantLaws {
  import opened Wrappers
  import opened PrivilegeSpec
  import opened Grants

  ghost predicate Held(s: Server, user: string, t: Target, p: string) {
    Fact(user, t, p) in s.grants
  }

  /** The fact is about this reconciler's user and a target it reaches. */
  ghost predicate Mine(s: Server, r: PrivsReconciler, x: Fact) {
    x.user == r.user && x.target in Covered(s, r.reach)
  }

  ghost predicate OnlyGrantsDiffer(s: Server, s': Server) {
    s' == s.(grants := s'.grants)
  }

  // ---------- One entry ----------

  /**
    `s'` lies between what was held and what is asked for: facts outside the reach are untouched,
    what was held and asked for is kept, and nothing appears that was neither held nor asked for.
   */
  ghost predicate Between(s: Server, r: PrivsReconciler, s': Server) {
    && OnlyGrantsDiffer(s, s')
    && (forall x :: x in s'.grants ==> x in s.grants || (Mine(s, r, x) && x.priv in r.desired))
    && (forall x :: x in s.grants && (Mine(s, r, x) ==> x.priv in r.desired) ==> x in s'.grants)
  }

  lemma BetweenAtEveryPoint(s: Server, r: PrivsReconciler, f: EntryFate)
    ensures Between(s, r, ReconcilePrivs(s, r, f).mid)
    ensures Between(s, r, ReconcilePrivs(s, r, f).server)
  {
    var a := ReconcilePrivs(s, r, f);
    assert Covered(a.mid, r.reach) == Covered(s, r.reach);
  }

  /** A reconciler for all tables of a schema sends no REVOKE and takes nothing away. */
  lemma AllTablesNeverRevokes(s: Server, r: PrivsReconciler, f: EntryFate)
    requires r.reach.AllTables?
    ensures Found(s, r) <= Desired(r)
    ensures s.grants <= ReconcilePrivs(s, r, f).server.grants
    ensures ReconcilePrivs(s, r, f).issued <= 1
  {
  }

  /** On success the reach holds what is asked for; only what the reading code cannot see may remain beside it. */
  lemma ExactOnSuccess(s: Server, r: PrivsReconciler, f: EntryFate, x: Fact)
    requires ReconcilePrivs(s, r, f).ok && Mine(s, r, x)
    ensures x in ReconcilePrivs(s, r, f).server.grants <==>
      x.priv in r.desired || (x in s.grants && (r.reach.AllTables? || !Visible(x.target, x.priv)))
  {
    var a := ReconcilePrivs(s, r, f);
    assert Covered(a.mid, r.reach) == Covered(s, r.reach);
    assert x == Fact(r.user, x.target, x.priv);
    if r.reach.Exact? {
      FoundIsHeld(s, r, x);
      assert x.priv in Found(s, r) - Desired(r) <==> x.priv in Found(s, r) && x.priv !in r.desired;
      assert x.priv in Desired(r) - Found(s, r) <==> x.priv !in Found(s, r) && x.priv in r.desired;
      assert x in a.mid.grants <==> x in s.grants && (x.priv in Found(s, r) ==> x.priv in r.desired);
    } else {
      AllTablesNeverRevokes(s, r, f);
      assert Found(s, r) - Desired(r) == {} && a.mid == s;
      if x.priv in Found(s, r) {
        assert OnEveryTable(s, r.user, r.reach, x.priv);
      } else if x.priv in r.desired {
        assert x.priv in Desired(r) - Found(s, r);
      }
    }
  }

  lemma FoundIsHeld(s: Server, r: PrivsReconciler, x: Fact)
    requires r.reach.Exact? && Mine(s, r, x)
    ensures x.priv in Found(s, r) <==> x in s.grants && Visible(x.target, x.priv)
  {
    if x.priv in Found(s, r) {
      var f :| f in s.grants && f.user == r.user && f.target == r.reach.target && Visible(f.target, f.priv) && f.priv == x.priv;
      assert f == x;
    }
  }

  ghost predicate AllVisible(r: PrivsReconciler) {
    r.reach.Exact? ==> forall p :: p in r.desired ==> Visible(r.reach.target, p)
  }

  /** Default privileges are seen exactly for these four; everywhere else all are. */
  lemma FourAreVisible(t: Target, p: string)
    ensures Visible(t, p) <==> !t.DefaultTables? || p == "SELECT" || p == "INSERT" || p == "UPDATE" || p == "DELETE"
  {
  }

  /** All that there is to send is a GRANT of privileges that are held already but cannot be seen. */
  ghost predicate OnlyRegrants(s: Server, r: PrivsReconciler) {
    && r.reach.Exact? && Found(s, r) <= Desired(r)
    && (forall p :: p in Desired(r) - Found(s, r) ==> Held(s, r.user, r.reach.target, p))
  }

  /** The one kind of call that reports a change and makes none: it goes through, and re-grants hidden privileges. */
  ghost predicate ReportsInVain(s: Server, r: PrivsReconciler, f: EntryFate) {
    f.read && !Unreadable(r) && f.grant && !Refused(r) && OnlyRegrants(s, r) && !Satisfied(s, r)
  }

  /** `changed` says whether a statement took effect, except in exactly that kind of call; it needs a default privilege outside the four visible ones. */
  lemma ChangedMeansChanged(s: Server, r: PrivsReconciler, f: EntryFate)
    ensures var a := ReconcilePrivs(s, r, f);
      (a.changed <==> a.server != s) <==> !ReportsInVain(s, r, f)
    ensures AllVisible(r) ==> !ReportsInVain(s, r, f)
  {
    var a := ReconcilePrivs(s, r, f);
    var toRevoke, toGrant := Found(s, r) - Desired(r), Desired(r) - Found(s, r);
    InVainExactly(s, r, f);
    if a.changed && r.reach.AllTables? {
      assert toRevoke == {};
      var p :| p in toGrant;
      assert !OnEveryTable(s, r.user, r.reach, p);
      var t :| t in Covered(s, r.reach) && Fact(r.user, t, p) !in s.grants;
      assert Fact(r.user, t, p) in a.server.grants;
    } else if a.changed {
      ChangedAtTarget(s, r, f);
    }
  }

  lemma InVainExactly(s: Server, r: PrivsReconciler, f: EntryFate)
    ensures ReportsInVain(s, r, f) <==> ReconcilePrivs(s, r, f).changed && OnlyRegrants(s, r)
  {
    if OnlyRegrants(s, r) {
      assert Found(s, r) - Desired(r) == {};
      assert Desired(r) - Found(s, r) == {} <==> Satisfied(s, r) by {
        forall p | p in Desired(r) && Desired(r) - Found(s, r) == {} ensures p in Found(s, r) {
          assert p !in Desired(r) - Found(s, r);
        }
      }
    }
  }

  /** Such a call: the default privilege TRUNCATE, asked for and held. */
  lemma RegrantedTruncate(user: string, db: string, role: string)
    requires role != ""
    ensures var t := DefaultTables(db, role);
      var s := Server(map[], {}, {}, {Fact(user, t, "TRUNCATE")});
      var r := PrivsReconciler("defaultTable", user, Exact(t), ["TRUNCATE"], None, db);
      var a := ReconcilePrivs(s, r, EntryFate(true, true, true, true));
      a.changed && a.server == s
  {
    var t := DefaultTables(db, role);
    var s := Server(map[], {}, {}, {Fact(user, t, "TRUNCATE")});
    var r := PrivsReconciler("defaultTable", user, Exact(t), ["TRUNCATE"], None, db);
    assert "TRUNCATE" !in DEFAULT_ACL_PRIVS;
    assert Found(s, r) == {};
    assert "TRUNCATE" in Desired(r);
    assert Held(s, user, t, "TRUNCATE");
    assert OnlyRegrants(s, r) && !Satisfied(s, r);
    ChangedMeansChanged(s, r, EntryFate(true, true, true, true));
    InVainExactly(s, r, EntryFate(true, true, true, true));
  }

  lemma ChangedAtTarget(s: Server, r: PrivsReconciler, f: EntryFate)
    requires ReconcilePrivs(s, r, f).changed && r.reach.Exact?
    ensures ReconcilePrivs(s, r, f).server != s <==> !OnlyRegrants(s, r)
    ensures AllVisible(r) ==> !OnlyRegrants(s, r)
  {
    var a := ReconcilePrivs(s, r, f);
    var toRevoke, toGrant := Found(s, r) - Desired(r), Desired(r) - Found(s, r);
    assert Covered(a.mid, r.reach) == {r.reach.target};
    if p :| p in toRevoke {
      assert Fact(r.user, r.reach.target, p) in s.grants && Fact(r.user, r.reach.target, p) !in a.server.grants;
    } else {
      assert toRevoke == {} && a.mid == s;
      assert Found(s, r) <= Desired(r) by {
        forall p | p in Found(s, r) ensures p in Desired(r) {
          assert p !in toRevoke;
        }
      }
      if p :| p in toGrant && !Held(s, r.user, r.reach.target, p) {
        assert Fact(r.user, r.reach.target, p) in a.server.grants;
      } else {
        assert a.server.grants == s.grants;
        var p :| p in toGrant;
        assert Held(s, r.user, r.reach.target, p);
        FoundIsHeld(s, r, Fact(r.user, r.reach.target, p));
      }
    }
  }

  ghost predicate Satisfied(s: Server, r: PrivsReconciler) {
    Found(s, r) == Desired(r)
  }

  lemma QuietWhenSatisfied(s: Server, r: PrivsReconciler, f: EntryFate)
    ensures ReconcilePrivs(s, r, f).ok && ReconcilePrivs(s, r, f).issued == 0 <==>
      f.read && !Unreadable(r) && Satisfied(s, r)
    ensures ReconcilePrivs(s, r, f).issued == 0 ==> ReconcilePrivs(s, r, f).server == s
  {
  }
}
