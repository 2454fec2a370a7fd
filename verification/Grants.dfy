// The Postgres/CockroachDB side of privileges: reading what a user holds, diffing it with what
// the spec asks for, and issuing REVOKE and GRANT statements, per entry and over a list of entries.

module Grants {
  import opened Wrappers
  import opened Text
  import opened PrivilegeSpec
  import Funk

  datatype Fact = Fact(user: string, target: Target, priv: string)

  /** A database server: roles with the attributes that are on, databases, tables and grants. */
  datatype Server = Server(roles: map<string, set<string>>, databases: set<string>,
                           tables: set<TableId>, grants: set<Fact>)

  // ---------- Statements ----------

  function Covered(s: Server, reach: Reach): set<Target> {
    match reach
    case Exact(t) => {t}
    case AllTables(db, schema) => set id | id in s.tables && id.db == db && id.schema == schema :: Table(id)
  }

  function Facts(user: string, targets: set<Target>, privs: set<string>): (facts: set<Fact>)
    ensures forall x :: x in facts <==> x.user == user && x.target in targets && x.priv in privs
  {
    set t, p | t in targets && p in privs :: Fact(user, t, p)
  }

  function Grant(s: Server, user: string, reach: Reach, privs: set<string>): Server {
    s.(grants := s.grants + Facts(user, Covered(s, reach), privs))
  }

  function Revoke(s: Server, user: string, reach: Reach, privs: set<string>): Server {
    s.(grants := s.grants - Facts(user, Covered(s, reach), privs))
  }

  // ---------- One entry ----------

  const DEFAULT_ACL_PRIVS: set<string> := {"SELECT", "INSERT", "UPDATE", "DELETE"}

  /** Of default privileges only four letters of the access list are decoded. */
  predicate Visible(t: Target, p: string) {
    t.DefaultTables? ==> p in DEFAULT_ACL_PRIVS
  }

  function Desired(r: PrivsReconciler): set<string> {
    set p | p in r.desired
  }

  predicate OnEveryTable(s: Server, user: string, reach: Reach, p: string) {
    forall t :: t in Covered(s, reach) ==> Fact(user, t, p) in s.grants
  }

  /** What reading the current privileges reports. */
  function Found(s: Server, r: PrivsReconciler): set<string> {
    match r.reach
    case Exact(t) => set f | f in s.grants && f.user == r.user && f.target == t && Visible(t, f.priv) :: f.priv
    case AllTables(_, _) => set p | p in r.desired && OnEveryTable(s, r.user, r.reach, p)
  }

  /** A dotted name of a single table makes the reading code index past a one-element split. */
  predicate Unreadable(r: PrivsReconciler) {
    r.reach.Exact? && r.reach.target.Table? && '.' in r.reach.target.id.name
  }

  /** The server refuses ALTER DEFAULT PRIVILEGES FOR ROLE "". */
  predicate Refused(r: PrivsReconciler) {
    r.reach.Exact? && r.reach.target.DefaultTables? && r.reach.target.role == ""
  }

  /** Which of the calls one entry makes succeed. */
  datatype EntryFate = EntryFate(connect: bool, read: bool, revoke: bool, grant: bool)

  /** `mid` is the server between the two statements; `issued` counts the statements sent. */
  datatype Attempt = Attempt(mid: Server, server: Server, changed: bool, ok: bool, issued: nat)

  function ReconcilePrivs(s: Server, r: PrivsReconciler, f: EntryFate): Attempt {
    if !f.read || Unreadable(r) then Attempt(s, s, false, false, 0)
    else
      var toRevoke := Found(s, r) - Desired(r);
      var toGrant := Desired(r) - Found(s, r);
      var revokes := if toRevoke == {} then 0 else 1;
      if revokes == 1 && (!f.revoke || Refused(r)) then Attempt(s, s, false, false, 1)
      else
        var mid := if revokes == 1 then Revoke(s, r.user, r.reach, toRevoke) else s;
        if toGrant == {} then Attempt(mid, mid, revokes == 1, true, revokes)
        else if !f.grant || Refused(r) then Attempt(mid, mid, revokes == 1, false, revokes + 1)
        else Attempt(mid, Grant(mid, r.user, r.reach, toGrant), true, true, revokes + 1)
  }

  // ---------- A list of entries ----------

  /** The reconcilers of a spec, in order; None stands for an entry that does not resolve. */
  type Plan = seq<Option<PrivsReconciler>>

  function PlanEntry(user: string, entry: DbPriv, product: Product): Option<PrivsReconciler> {
    match Resolve(user, entry, product) case Ok(r) => Some(r) case Err(_) => None
  }

  function Resolver(user: string, product: Product): DbPriv -> Option<PrivsReconciler> {
    (entry: DbPriv) => PlanEntry(user, entry, product)
  }

  function PlanOf(user: string, entries: seq<DbPriv>, product: Product): Plan {
    Funk.Map(Resolver(user, product), entries)
  }

  datatype ListAttempt = ListAttempt(server: Server, changed: bool, ok: bool, issued: nat)

  function ApplyEntries(s: Server, plan: Plan, fates: nat -> EntryFate): ListAttempt {
    if plan == [] then ListAttempt(s, false, true, 0)
    else
      var n := |plan| - 1;
      var prev := ApplyEntries(s, plan[..n], fates);
      if !prev.ok then prev
      else if !fates(n).connect || plan[n].None? then prev.(ok := false)
      else
        var a := ReconcilePrivs(prev.server, plan[n].value, fates(n));
        ListAttempt(a.server, prev.changed || (a.ok && a.changed), a.ok, prev.issued + a.issued)
  }

  /** Once an entry has failed, the entries after it are not looked at. */
  lemma {:induction false} ApplyStops(s: Server, plan: Plan, i: nat, fates: nat -> EntryFate)
    requires i <= |plan|
    ensures !ApplyEntries(s, plan[..i], fates).ok ==>
      ApplyEntries(s, plan, fates) == ApplyEntries(s, plan[..i], fates)
    decreases |plan|
  {
    if i == |plan| {
      assert plan[..i] == plan;
    } else {
      ApplyStops(s, plan[..|plan| - 1], i, fates);
      assert plan[..|plan| - 1][..i] == plan[..i];
    }
  }

  // ---------- Role attributes ----------

  const FLAGS: seq<string> := ["SUPERUSER", "CREATEROLE", "CREATEDB", "INHERIT", "LOGIN", "REPLICATION"]

  /** The role attributes the parser accepts: it is always called with version 0. */
  function ValidFlags(): seq<string> {
    FLAGS + ["NOSUPERUSER", "NOCREATEROLE", "NOCREATEDB", "NOINHERIT", "NOLOGIN", "NOREPLICATION"]
  }

  function NonEmptyUpper(parts: seq<string>): seq<string> {
    if parts == [] then []
    else (if parts[0] == "" then [] else [ToUpper(parts[0])]) + NonEmptyUpper(parts[1..])
  }

  function ParseRoleAttrs(text: string): Option<seq<string>> {
    var flags := NonEmptyUpper(Split(text, ','));
    if Funk.Subset(flags, ValidFlags()) then Some(flags) else None
  }

  predicate Negative(flag: string) {
    HasPrefix(flag, "NO")
  }

  /** A NO flag has no column to compare with, so it always counts as a change. */
  predicate WantsAlter(attrs: set<string>, flags: seq<string>) {
    exists flag :: flag in flags && (Negative(flag) || flag !in attrs)
  }

  function Alter(attrs: set<string>, flags: seq<string>): set<string> {
    (set a | a in attrs && ("NO" + a) !in flags) + (set flag | flag in flags && !Negative(flag))
  }

  datatype UserFate = UserFate(readRole: bool, version: bool, alter: bool, entry: nat -> EntryFate)

  function UpdateUserPrivs(s: Server, user: string, serverPrivs: string, plan: Plan, f: UserFate): ListAttempt
    requires user in s.roles
  {
    var flags := ParseRoleAttrs(serverPrivs);
    if !f.readRole || !f.version || flags.None? then ListAttempt(s, false, false, 0)
    else
      var altering := WantsAlter(s.roles[user], flags.value);
      if altering && !f.alter then ListAttempt(s, false, false, 1)
      else
        var s1 := if altering then s.(roles := s.roles[user := Alter(s.roles[user], flags.value)]) else s;
        var rest := ApplyEntries(s1, plan, f.entry);
        rest.(changed := altering || rest.changed, issued := (if altering then 1 else 0) + rest.issued)
  }

  // ---------- Taking everything back ----------

  const SYSTEM_SCHEMAS: set<string> := {"crdb_internal", "information_schema", "pg_catalog", "pg_extension", "pg_toast"}

  /** The schemas of a database that hold a table and that GetSchemas lists. */
  function SchemasOf(s: Server, db: string): set<string> {
    set id | id in s.tables && id.db == db && id.schema !in SYSTEM_SCHEMAS :: id.schema
  }

  function SweepSchema(s: Server, user: string, db: string, schema: string): Server {
    s.(grants := set f | f in s.grants && !(f.user == user && f.target.Table? && f.target.id.db == db && f.target.id.schema == schema))
  }

  function Sweep(s: Server, user: string, db: string, schemas: seq<string>): Server {
    if schemas == [] then s
    else SweepSchema(Sweep(s, user, db, schemas[..|schemas| - 1]), user, db, schemas[|schemas| - 1])
  }

  /**
    Which calls succeed while one entry is taken back; `schemas` is the order in which the
    schemas come out of the map they were read into, `swept` how many statements go through.
   */
  datatype RevokeFate = RevokeFate(connect: bool, list: bool, schemas: seq<string>, swept: nat, revoke: bool)

  function RevokeEntry(s: Server, r: PrivsReconciler, f: RevokeFate): (Server, bool) {
    if r.privType == "defaultTable" && !f.list then (s, false)
    else if r.privType == "defaultTable" && f.swept < |f.schemas| then
      (Sweep(s, r.user, r.db, f.schemas[..f.swept]), false)
    else
      var swept := if r.privType == "defaultTable" then Sweep(s, r.user, r.db, f.schemas) else s;
      // an empty list of privileges is not a statement the server accepts
      if r.desired == [] || !f.revoke || Refused(r) then (swept, false)
      else (Revoke(swept, r.user, r.reach, Desired(r)), true)
  }

  function RevokeAllDbPrivs(s: Server, plan: Plan, fates: nat -> RevokeFate): (Server, bool) {
    if plan == [] then (s, true)
    else
      var n := |plan| - 1;
      var prev := RevokeAllDbPrivs(s, plan[..n], fates);
      if !prev.1 || !fates(n).connect || plan[n].None? then (prev.0, false)
      else RevokeEntry(prev.0, plan[n].value, fates(n))
  }
}
