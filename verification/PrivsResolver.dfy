// Resolving privilege entries as it runs: normalising a list of privileges, one entry, all entries.

module PrivsResolver {
  import opened Wrappers
  import opened PrivilegeSpec
  import Grants
  import Funk

  method NormalizeList(privs: seq<string>, privType: string, product: Product) returns (r: seq<string>)
    ensures r == NormalizePrivileges(privs, privType, product)
  {
    r := privs;
    if "ALL" in r {
      r := Funk.Remove(r + ValidPrivs(product, privType), "ALL");
    }
    if "TEMP" in r {
      r := Funk.Remove(r + ["TEMPORARY"], "TEMP");
    }
    r := Funk.Uniq(r);
  }

  method GetPrivsReconciler(user: string, e: DbPriv, product: Product) returns (r: Result<PrivsReconciler, SpecError>)
    ensures r == Resolve(user, e, product)
    ensures r.Ok? ==> r.value.privType in KNOWN_TYPES && r.value.user == user && Funk.Distinct(r.value.desired)
    ensures r.Ok? ==> "ALL" !in r.value.desired && "TEMP" !in r.value.desired
  {
    if Resolve(user, e, product).Ok? {
      ResolvedReconciler(user, e, product);
    }
    if e.privs != "" && e.defaultPrivs != "" {
      return Err(BothPrivsAndDefaults);
    }
    if '/' in e.privs {
      return Err(SlashInPrivs);
    }
    var normalized := NormalizeDbPriv(e, DbNameOfScope(e.scope));
    if normalized.Err? {
      return Err(normalized.error);
    }
    var n := normalized.value;
    if !Funk.Subset(n.privs, ValidPrivs(product, StrippedType(n.privType))) {
      return Err(InvalidPrivs);
    }
    var privSet := NormalizeList(n.privs, n.privType, product);
    r := Construct(n, privSet, user, e);
  }

  method ResolveEntry(user: string, e: DbPriv, product: Product) returns (r: Option<PrivsReconciler>)
    ensures r == Grants.PlanEntry(user, e, product)
  {
    var resolved := GetPrivsReconciler(user, e, product);
    r := match resolved case Ok(v) => Some(v) case Err(_) => None;
  }

  /** All entries of a spec; resolving one only computes, so it makes no difference that all are resolved first. */
  method ResolveAll(user: string, entries: seq<DbPriv>, product: Product) returns (plan: Grants.Plan)
    ensures plan == Grants.PlanOf(user, entries, product)
  {
    plan := [];
    for i := 0 to |entries|
      invariant plan == Grants.PlanOf(user, entries[..i], product)
    {
      var r := ResolveEntry(user, entries[i], product);
      Funk.MapNext(Grants.Resolver(user, product), entries, i);
      plan := plan + [r];
    }
    assert entries[..|entries|] == entries;
  }
}
