// From one privilege entry of a User spec to the reconciler that enforces it:
// both spellings of an entry, the validity check and the normal form of its privileges.

module PrivilegeSpec {
  import opened Wrappers
  import opened Text
  import Funk

  datatype Product = PostgreSQL | CockroachDB

  datatype DbPriv = DbPriv(scope: string, privs: string, defaultPrivs: string, privType: string,
                           grantor: Option<string>)

  datatype SpecError =
    | BothPrivsAndDefaults | SlashInPrivs | DefaultsWithType | BadScope
    | DefaultsUnsupported | NothingSpecified | InvalidPrivs | UnknownType

  /** What a grant is about on the server. */
  datatype TableId = TableId(db: string, schema: string, name: string)

  datatype Target =
    | Database(name: string)
    | Schema(db: string, schema: string)
    | Table(id: TableId)
    | DefaultTables(db: string, role: string)  // default privileges on tables `role` will create in `db`

  /** What a reconciler works on: one target, or every table a schema holds at that moment. */
  datatype Reach = Exact(target: Target) | AllTables(db: string, schema: string)

  datatype PrivsReconciler = PrivsReconciler(privType: string, user: string, reach: Reach,
                                             desired: seq<string>, grantor: Option<string>, db: string)

  function ValidPrivs(product: Product, privType: string): seq<string> {
    match product
    case PostgreSQL =>
      if privType == "database" then ["CREATE", "CONNECT", "TEMPORARY", "TEMP", "ALL"]
      else if privType == "table" then
        ["SELECT", "INSERT", "UPDATE", "DELETE", "TRUNCATE", "REFERENCES", "TRIGGER", "ALL"]
      else if privType == "schema" then ["CREATE", "USAGE"]
      else []
    case CockroachDB =>
      if privType == "database" then ["CREATE", "CONNECT", "BACKUP", "RESTORE", "ALL"]
      else if privType == "table" then
        ["SELECT", "INSERT", "UPDATE", "DELETE", "TRUNCATE", "REFERENCES", "TRIGGER", "BACKUP", "ALL"]
      else if privType == "schema" then ["CREATE", "USAGE"]
      else []
  }

  /** Expand ALL into `valid`, spell TEMP out, and keep each privilege once. */
  function Expand(privs: seq<string>, valid: seq<string>): seq<string> {
    var noAll := if "ALL" in privs then Funk.Without(privs + valid, ["ALL"]) else privs;
    var noTemp := if "TEMP" in noAll then Funk.Without(noAll + ["TEMPORARY"], ["TEMP"]) else noAll;
    Funk.Unique(noTemp)
  }

  function NormalizePrivileges(privs: seq<string>, privType: string, product: Product): seq<string> {
    Expand(privs, ValidPrivs(product, privType))
  }

  function CleanItems(parts: seq<string>): seq<string> {
    if parts == [] then []
    else
      var item := TrimSpace(parts[0]);
      (if item == "" then [] else [ToUpper(item)]) + CleanItems(parts[1..])
  }

  function ToPrivSet(input: string): seq<string> {
    CleanItems(Split(input, ','))
  }

  function DbNameOfScope(scope: string): string {
    if '.' in scope then Split(scope, '.')[0] else scope
  }

  function ScopeAfterDb(scope: string): Result<string, SpecError> {
    var parts := Split(scope, '.');
    if |parts| != 2 then Err(BadScope) else Ok(parts[1])
  }

  function GrantorName(e: DbPriv): string {
    if e.grantor.Some? then e.grantor.value else ""
  }

  datatype Normalized = Normalized(privType: string, name: string, privs: seq<string>)

  function SchemaEntry(e: DbPriv): Result<Normalized, SpecError> {
    match ScopeAfterDb(e.scope)
    case Ok(schema) => Ok(Normalized("schema", schema, ToPrivSet(e.privs)))
    case Err(x) => Err(x)
  }

  function NormalizeDbPriv(e: DbPriv, dbName: string): Result<Normalized, SpecError> {
    if e.privType != "" then
      if e.defaultPrivs != "" then Err(DefaultsWithType)
      else if e.privType == "defaultTable" then Ok(Normalized(e.privType, GrantorName(e), ToPrivSet(e.privs)))
      else if e.privType == "schema" then SchemaEntry(e)
      else Ok(Normalized(e.privType, e.scope, ToPrivSet(e.privs)))
    else if e.privs != "" then
      if ':' in e.privs then
        var elements := Split(e.privs, ':');
        assert |elements| >= 2 by { SplitFound(e.privs, ':'); }
        Ok(Normalized("table", elements[0], ToPrivSet(elements[1])))
      else if '.' in e.scope then SchemaEntry(e)
      else Ok(Normalized("database", dbName, ToPrivSet(e.privs)))
    else if e.defaultPrivs != "" then
      match ScopeAfterDb(e.scope)
      case Err(x) => Err(x)
      case Ok(after) =>
        if after == "TABLES" then Ok(Normalized("defaultTable", GrantorName(e), ToPrivSet(e.defaultPrivs)))
        else Err(DefaultsUnsupported)
    else Err(NothingSpecified)
  }

  lemma {:induction false} SplitFound(s: string, sep: char)
    requires sep in s
    ensures |Split(s, sep)| >= 2
  {
    if s[0] != sep {
      SplitFound(s[1..], sep);
    }
  }

  const KNOWN_TYPES: set<string> := {"table", "defaultTable", "database", "schema"}

  /** The name under which the valid privileges of a type are looked up. */
  function StrippedType(privType: string): string {
    ToLower(TrimPrefix(privType, "default"))
  }

  function Construct(n: Normalized, desired: seq<string>, user: string, e: DbPriv)
    : Result<PrivsReconciler, SpecError>
  {
    var db := DbNameOfScope(e.scope);
    if n.privType == "database" then
      Ok(PrivsReconciler("database", user, Exact(Database(n.name)), desired, e.grantor, db))
    else if n.privType == "schema" then
      Ok(PrivsReconciler("schema", user, Exact(Schema(db, n.name)), desired, e.grantor, db))
    else if n.privType == "defaultTable" then
      Ok(PrivsReconciler("defaultTable", user, Exact(DefaultTables(db, n.name)), desired, e.grantor, db))
    else if n.privType == "table" then
      if HasSuffix(n.name, ".ALL") then
        var trimmed := TrimSuffix(n.name, ".ALL");
        if '.' !in trimmed then Err(BadScope)
        else Ok(PrivsReconciler("table", user, AllTables(db, AfterFirst(trimmed, '.')), desired, e.grantor, db))
      else Ok(PrivsReconciler("table", user, Exact(Table(TableId(db, "public", n.name))), desired, e.grantor, db))
    else Err(UnknownType)
  }

  /** GetPrivsReconciler, once the connection it asks for has been obtained. */
  function Resolve(user: string, e: DbPriv, product: Product): Result<PrivsReconciler, SpecError> {
    if e.privs != "" && e.defaultPrivs != "" then Err(BothPrivsAndDefaults)
    else if '/' in e.privs then Err(SlashInPrivs)
    else
      match NormalizeDbPriv(e, DbNameOfScope(e.scope))
      case Err(x) => Err(x)
      case Ok(n) =>
        if !Funk.Subset(n.privs, ValidPrivs(product, StrippedType(n.privType))) then Err(InvalidPrivs)
        else Construct(n, NormalizePrivileges(n.privs, n.privType, product), user, e)
  }

  // ---------- What a resolved entry looks like ----------

  lemma StrippedTypes()
    ensures StrippedType("database") == "database" && StrippedType("table") == "table"
    ensures StrippedType("schema") == "schema" && StrippedType("defaultTable") == "table"
  {
    assert "database"[1] != "default"[1];
    assert TrimPrefix("defaultTable", "default") == "Table";
    assert ToLower("Table") == "table";
    LowerFixed("database");
    LowerFixed("table");
    LowerFixed("schema");
  }

  lemma ConstructKeeps(n: Normalized, desired: seq<string>, user: string, e: DbPriv)
    requires Construct(n, desired, user, e).Ok?
    ensures var r := Construct(n, desired, user, e).value;
      r.privType == n.privType && r.privType in KNOWN_TYPES && r.desired == desired && r.user == user
  {
  }

  lemma ValidFacts(product: Product)
    ensures ValidPrivs(product, "defaultTable") == []
    ensures "TEMP" !in ValidPrivs(product, "table") && "TEMP" !in ValidPrivs(product, "schema")
    ensures "TEMP" in ValidPrivs(product, "database") ==> "TEMPORARY" in ValidPrivs(product, "database")
  {
    assert "TEMPORARY" == ValidPrivs(PostgreSQL, "database")[2];
  }

  /** The privileges a list stands for: ALL is every valid one, TEMP is TEMPORARY. */
  predicate AsksFor(items: seq<string>, valid: seq<string>, p: string) {
    && p != "ALL" && p != "TEMP"
    && (p in items || ("ALL" in items && p in valid) || (p == "TEMPORARY" && "TEMP" in items))
  }

  lemma NormalForm(items: seq<string>, valid: seq<string>)
    requires forall p :: p in items ==> p in valid
    requires "TEMP" in valid ==> "TEMPORARY" in valid
    ensures var n := Expand(items, valid);
      && Funk.Distinct(n)
      && (forall p :: p in n <==> AsksFor(items, valid, p))
      && (forall p :: p in n ==> p in valid)
      && Expand(n, valid) == n
  {
    var n := Expand(items, valid);
    forall p ensures p in n <==> AsksFor(items, valid, p) {
      ExpandHolds(items, valid, p);
    }
    assert !AsksFor(items, valid, "ALL") && !AsksFor(items, valid, "TEMP");
    Funk.UniqueOfDistinct(n);
  }

  lemma ExpandHolds(items: seq<string>, valid: seq<string>, p: string)
    requires forall p :: p in items ==> p in valid
    requires "TEMP" in valid ==> "TEMPORARY" in valid
    ensures p in Expand(items, valid) <==> AsksFor(items, valid, p)
  {
    var noAll := if "ALL" in items then Funk.Without(items + valid, ["ALL"]) else items;
    assert p in noAll <==> (p in items || ("ALL" in items && p in valid)) && p != "ALL";
  }

  lemma NormalFormOfType(items: seq<string>, privType: string, product: Product)
    requires privType in KNOWN_TYPES
    requires Funk.Subset(items, ValidPrivs(product, StrippedType(privType)))
    ensures var n := NormalizePrivileges(items, privType, product); var valid := ValidPrivs(product, StrippedType(privType));
      && Funk.Distinct(n) && "ALL" !in n && "TEMP" !in n
      && (forall p :: p in n ==> p in valid)
      && (privType != "defaultTable" ==>
            && NormalizePrivileges(n, privType, product) == n
            && forall p :: p in n <==> AsksFor(items, valid, p))
  {
    StrippedTypes();
    ValidFacts(product);
    var valid := ValidPrivs(product, StrippedType(privType));
    if privType == "defaultTable" {
      DroppedAll(items, valid);
    } else {
      assert StrippedType(privType) == privType;
      NormalForm(items, valid);
    }
  }

  /**
    Every reconciler has one of the four known types and a duplicate-free set that is valid for
    the server; unless it is about default privileges, that set holds exactly what the entry asks
    for and is its own normal form.
   */
  lemma ResolvedReconciler(user: string, e: DbPriv, product: Product)
    requires Resolve(user, e, product).Ok?
    ensures var r := Resolve(user, e, product).value;
            var items := NormalizeDbPriv(e, DbNameOfScope(e.scope)).value.privs;
            var valid := ValidPrivs(product, StrippedType(r.privType));
      && r.privType in KNOWN_TYPES && r.user == user
      && Funk.Distinct(r.desired)
      && "ALL" !in r.desired && "TEMP" !in r.desired
      && (forall p :: p in r.desired ==> p in valid)
      && (r.privType != "defaultTable" ==>
            && NormalizePrivileges(r.desired, r.privType, product) == r.desired
            && forall p :: p in r.desired <==> AsksFor(items, valid, p))
  {
    var n := NormalizeDbPriv(e, DbNameOfScope(e.scope)).value;
    ConstructKeeps(n, NormalizePrivileges(n.privs, n.privType, product), user, e);
    NormalFormOfType(n.privs, n.privType, product);
  }

  /**
    ALL in a default-privileges entry is dropped instead of expanded, so such an entry holds
    what it asks for exactly when ALL is not in it or it lists every table privilege anyway.
   */
  lemma DefaultTableAll(user: string, e: DbPriv, product: Product)
    requires Resolve(user, e, product).Ok? && Resolve(user, e, product).value.privType == "defaultTable"
    ensures var r := Resolve(user, e, product).value;
            var items := NormalizeDbPriv(e, DbNameOfScope(e.scope)).value.privs;
            var valid := ValidPrivs(product, "table");
      && (forall p :: p in r.desired <==> p in items && p != "ALL")
      && ((forall p :: p in r.desired <==> AsksFor(items, valid, p)) <==>
          ("ALL" in items ==> forall p :: p in valid ==> p in items))
  {
    StrippedTypes();
    ValidFacts(product);
    ResolvedDesired(user, e, product);
    DroppedAll(NormalizeDbPriv(e, DbNameOfScope(e.scope)).value.privs, ValidPrivs(product, "table"));
  }

  lemma DroppedAll(items: seq<string>, valid: seq<string>)
    requires forall p :: p in items ==> p in valid
    requires "TEMP" !in valid
    ensures forall p :: p in Expand(items, []) <==> p in items && p != "ALL"
    ensures (forall p :: p in Expand(items, []) <==> AsksFor(items, valid, p)) <==>
            ("ALL" in items ==> forall p :: p in valid ==> p in items)
  {
    if "ALL" in items && exists p :: p in valid && p !in items {
      var p :| p in valid && p !in items;
      assert AsksFor(items, valid, p) && p !in Expand(items, []);
    }
  }

  /** The shortest such entry: ALL alone leaves nothing to grant. */
  lemma DefaultTableAllAlone(product: Product)
    ensures ToPrivSet("ALL") == ["ALL"]
    ensures NormalizePrivileges(ToPrivSet("ALL"), "defaultTable", product) == []
    ensures "SELECT" in NormalizePrivileges(ToPrivSet("ALL"), "table", product)
  {
    SplitPlain("ALL", ',');
    TrimClean("ALL", SPACES);
    assert ToUpper("ALL") == "ALL";
    assert ToPrivSet("ALL") == ["ALL"];
    ValidFacts(product);
    var valid := ValidPrivs(product, "table");
    assert valid[0] == "SELECT" && "ALL" == valid[|valid| - 1];
    NormalForm(["ALL"], valid);
    assert AsksFor(["ALL"], valid, "SELECT");
  }

  lemma ResolvedDesired(user: string, e: DbPriv, product: Product)
    requires Resolve(user, e, product).Ok?
    ensures NormalizeDbPriv(e, DbNameOfScope(e.scope)).Ok?
    ensures var n := NormalizeDbPriv(e, DbNameOfScope(e.scope)).value; var r := Resolve(user, e, product).value;
      && r.privType == n.privType && r.desired == NormalizePrivileges(n.privs, n.privType, product)
      && (forall p :: p in n.privs ==> p in ValidPrivs(product, StrippedType(n.privType)))
  {
    var n := NormalizeDbPriv(e, DbNameOfScope(e.scope)).value;
    ConstructKeeps(n, NormalizePrivileges(n.privs, n.privType, product), user, e);
  }

  lemma TypedDefault(e: DbPriv, dbName: string)
    requires e.privType == "defaultTable" && e.defaultPrivs == ""
    ensures NormalizeDbPriv(e, dbName) == Ok(Normalized("defaultTable", GrantorName(e), ToPrivSet(e.privs)))
  {
  }

  /** The new spelling with a type, whatever the entry asks for. */
  predicate TypedAs(e: DbPriv, privType: string) {
    e.privType == privType && e.defaultPrivs == ""
  }

  /** A resolved database entry is about the database its scope names, and wants exactly what its text asks for. */
  lemma TypedDatabase(user: string, e: DbPriv, product: Product)
    requires TypedAs(e, "database") && Resolve(user, e, product).Ok?
    ensures var r := Resolve(user, e, product).value;
      r.reach == Exact(Database(e.scope)) && forall p :: p in r.desired <==> AsksFor(ToPrivSet(e.privs), ValidPrivs(product, "database"), p)
  {
    assert NormalizeDbPriv(e, DbNameOfScope(e.scope)) == Ok(Normalized("database", e.scope, ToPrivSet(e.privs)));
    StrippedTypes();
    ResolvedReconciler(user, e, product);
    ResolvedDesired(user, e, product);
  }

  lemma {:induction false} CleanItemsAre(parts: seq<string>, privs: seq<string>)
    requires |parts| == |privs|
    requires forall i :: 0 <= i < |parts| ==> ToUpper(TrimSpace(parts[i])) == privs[i] != ""
    ensures CleanItems(parts) == privs
  {
    if parts != [] {
      CleanItemsAre(parts[1..], privs[1..]);
      assert privs == [privs[0]] + privs[1..];
    }
  }

  /** A list of privileges, joined by commas and with any blanks and case, is read as those privileges in order. */
  lemma PrivSetReadsBack(parts: seq<string>, privs: seq<string>)
    requires parts != [] && |parts| == |privs|
    requires forall i :: 0 <= i < |parts| ==> ',' !in parts[i] && ToUpper(TrimSpace(parts[i])) == privs[i] != ""
    ensures ToPrivSet(Join(parts, ",")) == privs
  {
    SplitOfJoin(parts, ',');
    CleanItemsAre(parts, privs);
  }

  /** One privilege in capitals, with nothing around it. */
  predicate Word(priv: string) {
    priv != "" && forall i :: 0 <= i < |priv| ==> 'A' <= priv[i] <= 'Z'
  }

  lemma WordStandsForItself(priv: string)
    requires Word(priv)
    ensures ToPrivSet(priv) == [priv]
  {
    SplitPlain(priv, ',');
    TrimClean(priv, SPACES);
    assert ToUpper(priv) == priv;
    assert CleanItems([priv][1..]) == [];
  }

  lemma WordsDisagree(a: string, b: string, valid: seq<string>)
    requires Word(a) && Word(b) && a != b && b != "ALL" && a !in {"ALL", "TEMP", "TEMPORARY"}
    ensures AsksFor(ToPrivSet(a), valid, a) && !AsksFor(ToPrivSet(b), valid, a)
  {
    WordStandsForItself(a);
    WordStandsForItself(b);
    assert a in [a];
  }

  lemma DefaultAllResolvesEmpty(user: string, e: DbPriv, product: Product)
    requires e.privType == "defaultTable" && e.defaultPrivs == "" && e.privs == "ALL"
    ensures var r := Resolve(user, e, product); r.Ok? ==> r.value.desired == []
  {
    if Resolve(user, e, product).Ok? {
      ResolvedDesired(user, e, product);
      TypedDefault(e, DbNameOfScope(e.scope));
      DefaultTableAllAlone(product);
    }
  }

  // ---------- Old and new spellings ----------

  predicate SameResolution(a: Result<PrivsReconciler, SpecError>, b: Result<PrivsReconciler, SpecError>) {
    a.Ok? == b.Ok? && (a.Ok? ==> a.value == b.value)
  }

  /** The deprecated spelling of a database, schema or default-privileges entry means its typed spelling. */
  lemma SpellingsAgree(user: string, scope: string, privs: string, grantor: Option<string>, product: Product)
    requires privs != ""
    ensures '.' !in scope && ':' !in privs ==>
      Resolve(user, DbPriv(scope, privs, "", "", grantor), product) ==
      Resolve(user, DbPriv(scope, privs, "", "database", grantor), product)
    ensures '.' in scope && ':' !in privs ==>
      Resolve(user, DbPriv(scope, privs, "", "", grantor), product) ==
      Resolve(user, DbPriv(scope, privs, "", "schema", grantor), product)
    ensures ScopeAfterDb(scope) == Ok("TABLES") ==>
      SameResolution(Resolve(user, DbPriv(scope, "", privs, "", grantor), product),
                     Resolve(user, DbPriv(scope, privs, "", "defaultTable", grantor), product))
  {
    if ScopeAfterDb(scope) == Ok("TABLES") {
      DefaultSpellings(user, scope, privs, grantor, product);
    }
    if ':' !in privs {
      DatabaseAndSchemaSpellings(user, scope, privs, grantor, product);
    }
  }

  lemma DatabaseAndSchemaSpellings(user: string, scope: string, privs: string, grantor: Option<string>, product: Product)
    requires privs != "" && ':' !in privs
    ensures Resolve(user, DbPriv(scope, privs, "", "", grantor), product) ==
            Resolve(user, DbPriv(scope, privs, "", if '.' in scope then "schema" else "database", grantor), product)
  {
    var former := DbPriv(scope, privs, "", "", grantor);
    var typed := DbPriv(scope, privs, "", if '.' in scope then "schema" else "database", grantor);
    assert NormalizeDbPriv(former, DbNameOfScope(scope)) == NormalizeDbPriv(typed, DbNameOfScope(scope));
    ConstructIgnoresSpelling(user, former, typed, product);
  }

  lemma ConstructIgnoresSpelling(user: string, a: DbPriv, b: DbPriv, product: Product)
    requires a.scope == b.scope && a.grantor == b.grantor && a.privs == b.privs && a.defaultPrivs == b.defaultPrivs
    requires NormalizeDbPriv(a, DbNameOfScope(a.scope)) == NormalizeDbPriv(b, DbNameOfScope(b.scope))
    ensures Resolve(user, a, product) == Resolve(user, b, product)
  {
  }

  lemma DefaultSpellings(user: string, scope: string, privs: string, grantor: Option<string>, product: Product)
    requires privs != "" && ScopeAfterDb(scope) == Ok("TABLES")
    ensures SameResolution(Resolve(user, DbPriv(scope, "", privs, "", grantor), product),
                           Resolve(user, DbPriv(scope, privs, "", "defaultTable", grantor), product))
  {
    var former := DbPriv(scope, "", privs, "", grantor);
    var typed := DbPriv(scope, privs, "", "defaultTable", grantor);
    var n := Normalized("defaultTable", GrantorName(former), ToPrivSet(privs));
    assert NormalizeDbPriv(former, DbNameOfScope(scope)) == Ok(n);
    assert NormalizeDbPriv(typed, DbNameOfScope(scope)) == Ok(n);
    if '/' in privs {
      SlashInvalid(privs, product);
    }
  }

  lemma SlashInvalid(privs: string, product: Product)
    requires '/' in privs
    ensures !Funk.Subset(ToPrivSet(privs), ValidPrivs(product, StrippedType("defaultTable")))
  {
    StrippedTypes();
    SlashSurvives(privs);
    var p :| p in ToPrivSet(privs) && '/' in p;
    assert p !in ValidPrivs(product, "table");
  }

  lemma SlashSurvives(privs: string)
    requires '/' in privs
    ensures exists p :: p in ToPrivSet(privs) && '/' in p
  {
    SplitKeeps(privs, ',', '/');
    SlashInItems(Split(privs, ','));
  }

  lemma {:induction false} SlashInItems(parts: seq<string>)
    requires exists p :: p in parts && '/' in p
    ensures exists p :: p in CleanItems(parts) && '/' in p
  {
    if '/' in parts[0] {
      var item := TrimSpace(parts[0]);
      TrimLeftKeeps(parts[0], SPACES, '/');
      TrimRightKeeps(TrimLeft(parts[0], SPACES), SPACES, '/');
      var i :| 0 <= i < |item| && item[i] == '/';
      assert ToUpper(item)[i] == '/';
      assert CleanItems(parts)[0] == ToUpper(item);
      assert ToUpper(item) in CleanItems(parts);
    } else {
      SlashInItems(parts[1..]);
    }
  }
}
