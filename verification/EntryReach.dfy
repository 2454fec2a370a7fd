// What a privilege entry is about: the database, schema or tables its scope names, spelled out.

module EntryReach {
  import opened Wrappers
  import opened Text
  import opened PrivilegeSpec

  lemma ScopeBeforeDot(d: string, rest: string)
    requires '.' !in d
    ensures DbNameOfScope(d + "." + rest) == d && DbNameOfScope(d) == d
  {
    SplitCons(d, '.', rest);
    assert (d + "." + rest)[|d|] == '.';
  }

  lemma ScopeAfterDot(d: string, rest: string)
    requires '.' !in d && '.' !in rest
    ensures ScopeAfterDb(d + "." + rest) == Ok(rest)
  {
    SplitCons(d, '.', rest);
    SplitPlain(rest, '.');
  }

  /** A scope has a part after its database exactly when it has one dot. */
  lemma OneDotExactly(scope: string)
    ensures ScopeAfterDb(scope).Ok? <==> exists d, s :: '.' !in d && '.' !in s && scope == d + "." + s
  {
    var parts := Split(scope, '.');
    SplitClean(scope, '.');
    JoinSplit(scope, '.');
    if |parts| == 2 {
      assert parts[0] in parts && parts[1] in parts;
      assert parts[1..] == [parts[1]];
      assert scope == parts[0] + "." + parts[1];
    }
    if d, s :| '.' !in d && '.' !in s && scope == d + "." + s {
      ScopeAfterDot(d, s);
    }
  }

  /** Whatever privileges are asked for, the normal form is constructed with this reach and database. */
  ghost predicate Builds(n: Normalized, user: string, e: DbPriv, reach: Reach, db: string) {
    forall desired :: BuildsWith(n, desired, user, e, reach, db)
  }

  ghost predicate BuildsWith(n: Normalized, desired: seq<string>, user: string, e: DbPriv, reach: Reach, db: string) {
    var r := Construct(n, desired, user, e);
    r.Ok? && r.value.reach == reach && r.value.db == db
  }

  /** The entry resolves exactly when its privileges are valid for the type, and then it is about `reach` in database `db`. */
  ghost predicate About(user: string, e: DbPriv, product: Product, valid: seq<string>, privs: seq<string>, reach: Reach, db: string) {
    var r := Resolve(user, e, product);
    && (r.Ok? <==> privs == [] || (|privs| <= |valid| && forall p :: p in privs ==> p in valid))
    && (r.Ok? ==> r.value.reach == reach && r.value.db == db)
  }

  lemma ResolvedReach(user: string, e: DbPriv, product: Product, n: Normalized, reach: Reach, db: string)
    requires '/' !in e.privs && (e.privs == "" || e.defaultPrivs == "") && NormalizeDbPriv(e, DbNameOfScope(e.scope)) == Ok(n)
    requires Builds(n, user, e, reach, db)
    ensures About(user, e, product, ValidPrivs(product, StrippedType(n.privType)), n.privs, reach, db)
  {
    assert BuildsWith(n, NormalizePrivileges(n.privs, n.privType, product), user, e, reach, db);
  }

  lemma TypedSchema(e: DbPriv, dbName: string, schema: string)
    requires TypedAs(e, "schema") && ScopeAfterDb(e.scope) == Ok(schema)
    ensures NormalizeDbPriv(e, dbName) == Ok(Normalized("schema", schema, ToPrivSet(e.privs)))
  {
  }

  lemma TypedTable(e: DbPriv, dbName: string)
    requires TypedAs(e, "table")
    ensures NormalizeDbPriv(e, dbName) == Ok(Normalized("table", e.scope, ToPrivSet(e.privs)))
  {
  }

  lemma BuildsExact(n: Normalized, user: string, e: DbPriv, d: string)
    requires DbNameOfScope(e.scope) == d
    ensures n.privType == "schema" ==> Builds(n, user, e, Exact(Schema(d, n.name)), d)
    ensures n.privType == "defaultTable" ==> Builds(n, user, e, Exact(DefaultTables(d, n.name)), d)
    ensures n.privType == "database" ==> Builds(n, user, e, Exact(Database(n.name)), d)
  {
    forall desired
      ensures n.privType == "schema" ==> BuildsWith(n, desired, user, e, Exact(Schema(d, n.name)), d)
      ensures n.privType == "defaultTable" ==> BuildsWith(n, desired, user, e, Exact(DefaultTables(d, n.name)), d)
      ensures n.privType == "database" ==> BuildsWith(n, desired, user, e, Exact(Database(n.name)), d)
    {
    }
  }

  /** A schema entry on "d.s" is about schema s of database d. */
  lemma SchemaReach(user: string, e: DbPriv, d: string, s: string, product: Product)
    requires TypedAs(e, "schema") && e.scope == d + "." + s && '.' !in d && '.' !in s
    requires '/' !in e.privs
    ensures About(user, e, product, ValidPrivs(product, "schema"), ToPrivSet(e.privs), Exact(Schema(d, s)), d)
  {
    ScopeBeforeDot(d, s);
    ScopeAfterDot(d, s);
    TypedSchema(e, d, s);
    var n := Normalized("schema", s, ToPrivSet(e.privs));
    BuildsExact(n, user, e, d);
    StrippedTypes();
    ResolvedReach(user, e, product, n, Exact(Schema(d, s)), d);
  }

  /** A default-privileges entry on "d.x" with grantor g is about tables that g will create in database d. */
  lemma DefaultTablesReach(user: string, e: DbPriv, d: string, x: string, g: string, product: Product)
    requires TypedAs(e, "defaultTable") && e.scope == d + "." + x && '.' !in d && e.grantor == Some(g)
    requires '/' !in e.privs
    ensures About(user, e, product, ValidPrivs(product, "table"), ToPrivSet(e.privs), Exact(DefaultTables(d, g)), d)
  {
    ScopeBeforeDot(d, x);
    TypedDefault(e, d);
    var n := Normalized("defaultTable", g, ToPrivSet(e.privs));
    BuildsExact(n, user, e, d);
    StrippedTypes();
    ResolvedReach(user, e, product, n, Exact(DefaultTables(d, g)), d);
  }

  /** A database entry on d, in the new spelling or the old, is about database d. */
  lemma DatabaseReach(user: string, e: DbPriv, d: string, product: Product)
    requires e.scope == d && '.' !in d && '/' !in e.privs && e.defaultPrivs == ""
    requires e.privType == "database" || (e.privType == "" && e.privs != "" && ':' !in e.privs)
    ensures About(user, e, product, ValidPrivs(product, "database"), ToPrivSet(e.privs), Exact(Database(d)), d)
  {
    ScopeBeforeDot(d, "");
    var n := Normalized("database", d, ToPrivSet(e.privs));
    assert NormalizeDbPriv(e, d) == Ok(n);
    BuildsExact(n, user, e, d);
    StrippedTypes();
    ResolvedReach(user, e, product, n, Exact(Database(d)), d);
  }

  lemma AfterFirstDot(d: string, s: string)
    requires '.' !in d
    ensures '.' in d + "." + s && AfterFirst(d + "." + s, '.') == s
  {
    var t := d + "." + s;
    assert t[|d|] == '.';
    if d != "" {
      assert t[1..] == d[1..] + "." + s;
      AfterFirstDot(d[1..], s);
    } else {
      assert t[1..] == s;
    }
  }

  lemma BuildsAllTables(n: Normalized, user: string, e: DbPriv, x: string, s: string, d: string)
    requires n.privType == "table" && n.name == x + "." + s + ".ALL" && '.' !in x && DbNameOfScope(e.scope) == d
    ensures Builds(n, user, e, AllTables(d, s), d)
  {
    AfterFirstDot(x, s);
    var k := |n.name| - |".ALL"|;
    assert n.name[k..] == ".ALL" && n.name[..k] == x + "." + s;
    assert HasSuffix(n.name, ".ALL") && TrimSuffix(n.name, ".ALL") == x + "." + s;
    forall desired ensures BuildsWith(n, desired, user, e, AllTables(d, s), d) {
    }
  }

  lemma BuildsTable(n: Normalized, user: string, e: DbPriv, d: string)
    requires n.privType == "table" && !HasSuffix(n.name, ".ALL") && DbNameOfScope(e.scope) == d
    ensures Builds(n, user, e, Exact(Table(TableId(d, "public", n.name))), d)
  {
    forall desired ensures BuildsWith(n, desired, user, e, Exact(Table(TableId(d, "public", n.name))), d) {
    }
  }

  lemma AllTablesNormal(user: string, e: DbPriv, d: string, s: string)
    requires TypedAs(e, "table") && e.scope == d + "." + s + ".ALL" && '.' !in d
    ensures var n := Normalized("table", e.scope, ToPrivSet(e.privs));
      NormalizeDbPriv(e, DbNameOfScope(e.scope)) == Ok(n) && Builds(n, user, e, AllTables(d, s), d)
  {
    assert e.scope == d + "." + (s + ".ALL");
    ScopeBeforeDot(d, s + ".ALL");
    TypedTable(e, d);
    BuildsAllTables(Normalized("table", e.scope, ToPrivSet(e.privs)), user, e, d, s, d);
  }

  /** A table entry on "d.s.ALL" is about every table of schema s of database d. */
  lemma AllTablesReach(user: string, e: DbPriv, d: string, s: string, product: Product)
    requires TypedAs(e, "table") && e.scope == d + "." + s + ".ALL" && '.' !in d
    requires '/' !in e.privs
    ensures About(user, e, product, ValidPrivs(product, "table"), ToPrivSet(e.privs), AllTables(d, s), d)
  {
    AllTablesNormal(user, e, d, s);
    StrippedTypes();
    ResolvedReach(user, e, product, Normalized("table", e.scope, ToPrivSet(e.privs)), AllTables(d, s), d);
  }

  lemma OldTable(e: DbPriv, dbName: string, t: string, privs: string)
    requires e.privType == "" && e.privs == t + ":" + privs && ':' !in t && ':' !in privs
    ensures NormalizeDbPriv(e, dbName) == Ok(Normalized("table", t, ToPrivSet(privs)))
  {
    SplitCons(t, ':', privs);
    SplitPlain(privs, ':');
    assert e.privs[|t|] == ':';
  }

  /** The old spelling "t:privs" in the scope of database d is about table t of its public schema ... */
  lemma OldTableReach(user: string, e: DbPriv, d: string, t: string, privs: string, product: Product)
    requires e.privType == "" && e.privs == t + ":" + privs && ':' !in t && ':' !in privs
    requires e.scope == d && '.' !in d && !HasSuffix(t, ".ALL")
    requires '/' !in e.privs && e.defaultPrivs == ""
    ensures About(user, e, product, ValidPrivs(product, "table"), ToPrivSet(privs), Exact(Table(TableId(d, "public", t))), d)
  {
    ScopeBeforeDot(d, "");
    OldTable(e, d, t, privs);
    var n := Normalized("table", t, ToPrivSet(privs));
    BuildsTable(n, user, e, d);
    StrippedTypes();
    ResolvedReach(user, e, product, n, Exact(Table(TableId(d, "public", t))), d);
  }

  lemma OldAllTablesNormal(user: string, e: DbPriv, d: string, x: string, s: string, t: string, privs: string)
    requires e.privType == "" && e.privs == t + ":" + privs && ':' !in t && ':' !in privs
    requires t == x + "." + s + ".ALL" && e.scope == d && '.' !in d && '.' !in x
    ensures var n := Normalized("table", t, ToPrivSet(privs));
      NormalizeDbPriv(e, DbNameOfScope(e.scope)) == Ok(n) && Builds(n, user, e, AllTables(d, s), d)
  {
    ScopeBeforeDot(d, "");
    OldTable(e, d, t, privs);
    BuildsAllTables(Normalized("table", t, ToPrivSet(privs)), user, e, x, s, d);
  }

  /** ... and with t written "x.s.ALL" about every table of its schema s, whatever x is. */
  lemma OldAllTablesReach(user: string, e: DbPriv, d: string, x: string, s: string, t: string, privs: string, product: Product)
    requires e.privType == "" && e.privs == t + ":" + privs && ':' !in t && ':' !in privs
    requires t == x + "." + s + ".ALL" && e.scope == d && '.' !in d && '.' !in x
    requires '/' !in e.privs && e.defaultPrivs == ""
    ensures About(user, e, product, ValidPrivs(product, "table"), ToPrivSet(privs), AllTables(d, s), d)
  {
    OldAllTablesNormal(user, e, d, x, s, t, privs);
    StrippedTypes();
    ResolvedReach(user, e, product, Normalized("table", t, ToPrivSet(privs)), AllTables(d, s), d);
  }
}
