// The privilege code as it runs: statement by statement against one server.

module PgConnection {
  import opened Wrappers
  import opened PrivilegeSpec
  import opened Grants
  import GrantLaws
  import PrivsResolver
  import Funk

  class Connection {
    var server: Server
    var issued: nat // statements sent that change the server

    constructor (server: Server)
      ensures this.server == server && issued == 0
    {
      this.server, issued := server, 0;
    }

    /** The rows come back in any order; for a whole schema each wanted privilege is probed in turn. */
    method Read(r: PrivsReconciler) returns (current: seq<string>)
      ensures Funk.Elems(current) == Found(server, r)
    {
      current := [];
      match r.reach {
        case Exact(_) =>
          var rows := Found(server, r);
          while rows != {}
            invariant Funk.Elems(current) + rows == Found(server, r)
          {
            var p :| p in rows;
            current := current + [p];
            rows := rows - {p};
          }
        case AllTables(_, _) =>
          for i := 0 to |r.desired|
            invariant forall p :: p in current <==> p in r.desired[..i] && OnEveryTable(server, r.user, r.reach, p)
          {
            assert r.desired[..i + 1] == r.desired[..i] + [r.desired[i]];
            if OnEveryTable(server, r.user, r.reach, r.desired[i]) {
              current := current + [r.desired[i]];
            }
          }
          assert r.desired[..|r.desired|] == r.desired;
      }
    }

    /** `mid` is the server between the two statements. */
    method ReconcilePrivs(r: PrivsReconciler, f: EntryFate) returns (changed: bool, ok: bool, ghost mid: Server)
      modifies this
      ensures GrantLaws.Between(old(server), r, mid) && GrantLaws.Between(old(server), r, server)
      ensures mid == Grants.ReconcilePrivs(old(server), r, f).mid
      ensures var a := Grants.ReconcilePrivs(old(server), r, f);
        server == a.server && changed == a.changed && ok == a.ok && issued == old(issued) + a.issued
    {
      GrantLaws.BetweenAtEveryPoint(server, r, f);
      changed, mid := false, server;
      if !f.read || Unreadable(r) {
        return false, false, mid;
      }
      var current := Read(r);
      var toRevoke, toGrant := Funk.Difference(current, r.desired);
      assert Funk.Elems(r.desired) == Desired(r);
      assert Funk.Elems(toRevoke) == {} <==> toRevoke == [] by { assert toRevoke != [] ==> toRevoke[0] in Funk.Elems(toRevoke); }
      assert Funk.Elems(toGrant) == {} <==> toGrant == [] by { assert toGrant != [] ==> toGrant[0] in Funk.Elems(toGrant); }
      if |toRevoke| > 0 {
        issued := issued + 1;
        if !f.revoke || Refused(r) {
          return changed, false, mid;
        }
        server := Revoke(server, r.user, r.reach, set p | p in toRevoke);
        changed, mid := true, server;
      }
      if |toGrant| > 0 {
        issued := issued + 1;
        if !f.grant || Refused(r) {
          return changed, false, mid;
        }
        server := Grant(server, r.user, r.reach, set p | p in toGrant);
        changed := true;
      }
      return changed, true, mid;
    }

    method UpdateUserPrivs(user: string, serverPrivs: string, entries: seq<DbPriv>, product: Product, f: UserFate)
      returns (changed: bool, ok: bool)
      requires user in server.roles
      modifies this
      ensures var a := Grants.UpdateUserPrivs(old(server), user, serverPrivs, PlanOf(user, entries, product), f);
        server == a.server && changed == a.changed && ok == a.ok && issued == old(issued) + a.issued
    {
      changed := false;
      var flags := ParseRoleAttrs(serverPrivs);
      if !f.readRole || !f.version || flags.None? {
        return false, false;
      }
      var altering := RoleDiffers(user, flags.value);
      if altering {
        issued := issued + 1;
        if !f.alter {
          return false, false;
        }
        server := server.(roles := server.roles[user := Alter(server.roles[user], flags.value)]);
      }
      var plan := PrivsResolver.ResolveAll(user, entries, product);
      changed, ok := UpdateEntries(plan, f.entry);
      changed := altering || changed;
    }

    method RoleDiffers(user: string, flags: seq<string>) returns (altering: bool)
      requires user in server.roles
      ensures altering == WantsAlter(server.roles[user], flags)
    {
      altering := false;
      for i := 0 to |flags|
        invariant altering == WantsAlter(server.roles[user], flags[..i])
      {
        assert flags[..i + 1] == flags[..i] + [flags[i]];
        if Negative(flags[i]) || flags[i] !in server.roles[user] {
          altering := true;
        }
      }
      assert flags[..|flags|] == flags;
    }

    method UpdateEntries(plan: Plan, fates: nat -> EntryFate) returns (changed: bool, ok: bool)
      modifies this
      ensures var a := ApplyEntries(old(server), plan, fates);
        server == a.server && changed == a.changed && ok == a.ok && issued == old(issued) + a.issued
    {
      changed := false;
      for i := 0 to |plan|
        invariant var a := ApplyEntries(old(server), plan[..i], fates);
          a.ok && server == a.server && changed == a.changed && issued == old(issued) + a.issued
      {
        assert plan[..i + 1][..i] == plan[..i];
        ApplyStops(old(server), plan, i + 1, fates);
        if !fates(i).connect || plan[i].None? {
          return changed, false;
        }
        var entryChanged, entryOk, _ := ReconcilePrivs(plan[i].value, fates(i));
        if !entryOk {
          return changed, false;
        }
        changed := changed || entryChanged;
      }
      assert plan[..|plan|] == plan;
      return changed, true;
    }

    /** Take the table privileges of a user away in the first schemas of a list, up to the first refusal. */
    method SweepSchemas(user: string, db: string, schemas: seq<string>, swept: nat) returns (ok: bool)
      modifies this
      ensures ok <==> |schemas| <= swept
      ensures server == Sweep(old(server), user, db, if ok then schemas else schemas[..swept])
    {
      for i := 0 to |schemas|
        invariant i <= swept && server == Sweep(old(server), user, db, schemas[..i])
      {
        assert schemas[..i + 1][..i] == schemas[..i];
        if i == swept {
          return false;
        }
        server := SweepSchema(server, user, db, schemas[i]);
      }
      assert schemas[..|schemas|] == schemas;
      return true;
    }

    method RevokeAllDbPrivs(user: string, entries: seq<DbPriv>, product: Product, fates: nat -> RevokeFate) returns (ok: bool)
      modifies this
      ensures (server, ok) == Grants.RevokeAllDbPrivs(old(server), PlanOf(user, entries, product), fates)
    {
      var plan := PrivsResolver.ResolveAll(user, entries, product);
      ok := RevokeEntries(plan, fates);
    }

    method RevokeEntries(plan: Plan, fates: nat -> RevokeFate) returns (ok: bool)
      modifies this
      ensures (server, ok) == Grants.RevokeAllDbPrivs(old(server), plan, fates)
    {
      for i := 0 to |plan|
        invariant (server, true) == Grants.RevokeAllDbPrivs(old(server), plan[..i], fates)
      {
        assert plan[..i + 1][..i] == plan[..i];
        RevokeStops(old(server), plan, i + 1, fates);
        if !fates(i).connect || plan[i].None? {
          return false;
        }
        var entryOk := RevokeAllPrivs(plan[i].value, fates(i));
        if !entryOk {
          return false;
        }
      }
      assert plan[..|plan|] == plan;
      return true;
    }

    method RevokeAllPrivs(r: PrivsReconciler, f: RevokeFate) returns (ok: bool)
      modifies this
      ensures (server, ok) == RevokeEntry(old(server), r, f)
    {
      if r.privType == "defaultTable" {
        if !f.list {
          return false;
        }
        ok := SweepSchemas(r.user, r.db, f.schemas, f.swept);
        if !ok {
          return;
        }
      }
      if r.desired == [] || !f.revoke || Refused(r) {
        return false;
      }
      server := Revoke(server, r.user, r.reach, Desired(r));
      return true;
    }
  }

  lemma {:induction false} RevokeStops(s: Server, plan: Plan, i: nat, fates: nat -> RevokeFate)
    requires i <= |plan|
    ensures !Grants.RevokeAllDbPrivs(s, plan[..i], fates).1 ==>
      Grants.RevokeAllDbPrivs(s, plan, fates) == Grants.RevokeAllDbPrivs(s, plan[..i], fates)
    decreases |plan|
  {
    if i == |plan| {
      assert plan[..i] == plan;
    } else {
      RevokeStops(s, plan[..|plan| - 1], i, fates);
      assert plan[..|plan| - 1][..i] == plan[..i];
    }
  }
}
