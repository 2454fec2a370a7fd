// From the privilege entries of a MySQL user's spec to the map of scopes that the update compares
// with what the server reads back.

module MySqlSpec {
  import opened Wrappers
  import opened Text
  import Funk
  import PrivPiece
  import ColumnGrants
  import MySqlGrants

  datatype Entry = Entry(scope: string, privs: string)

  datatype Problem = Invalid | Panic

  // ---------- Scopes ----------

  function QuoteSide(side: string, quote: char): string {
    if Trim(side, {'`'}) == "*" then side else [quote] + TrimSpace(side) + [quote]
  }

  function QuoteAll(sides: seq<string>, quote: char): (r: seq<string>)
    ensures |r| == |sides| && forall i :: 0 <= i < |r| ==> r[i] == QuoteSide(sides[i], quote)
  {
    seq(|sides|, i requires 0 <= i < |sides| => QuoteSide(sides[i], quote))
  }

  /** The object kind a privilege text may start with, and what follows it. */
  function ObjectPart(privs: string): Option<(string, string)> {
    if ' ' in privs && Split(privs, ' ')[0] in {"FUNCTION", "PROCEDURE"} then Some((Split(privs, ' ')[0] + " ", AfterFirst(privs, ' ')))
    else None
  }

  function ScopeOf(e: Entry, quote: char): string {
    var sides := Split(e.scope, '.');
    match ObjectPart(e.privs)
    case None => Join(QuoteAll(sides, quote), ".")
    case Some(o) => o.0 + Join(QuoteAll(sides[0 := o.1], quote), ".")
  }

  /** A side of a scope that is quoted as it is. */
  predicate PlainSide(side: string) {
    '.' !in side && Clean(side, SPACES) && Trim(side, {'`'}) != "*"
  }

  function Quoted(side: string, quote: char): string {
    [quote] + side + [quote]
  }

  lemma QuotePlain(side: string, quote: char)
    requires PlainSide(side)
    ensures QuoteSide(side, quote) == Quoted(side, quote)
  {
    TrimClean(side, SPACES);
  }

  lemma TwoSides(a: string, b: string, quote: char)
    requires '.' !in a && '.' !in b
    ensures Split(a + "." + b, '.') == [a, b]
    ensures Join(QuoteAll([a, b], quote), ".") == QuoteSide(a, quote) + "." + QuoteSide(b, quote)
  {
    SplitCons(a, '.', b);
    SplitPlain(b, '.');
    assert QuoteAll([a, b], quote) == [QuoteSide(a, quote), QuoteSide(b, quote)];
    assert [QuoteSide(a, quote), QuoteSide(b, quote)][1..] == [QuoteSide(b, quote)];
  }

  lemma TwoSidedScope(a: string, b: string, scope: string, privs: string, quote: char)
    requires '.' !in a && '.' !in b && scope == a + "." + b && ObjectPart(privs).None?
    ensures ScopeOf(Entry(scope, privs), quote) == QuoteSide(a, quote) + "." + QuoteSide(b, quote)
  {
    TwoSides(a, b, quote);
  }

  lemma OneSidedScope(a: string, privs: string, quote: char)
    requires '.' !in a && ObjectPart(privs).None?
    ensures ScopeOf(Entry(a, privs), quote) == QuoteSide(a, quote)
  {
    SplitPlain(a, '.');
    assert QuoteAll([a], quote) == [QuoteSide(a, quote)];
  }

  lemma StarStaysBare(quote: char)
    ensures QuoteSide("*", quote) == "*"
  {
    TrimClean("*", {'`'});
  }

  /** The key of an entry, spelled out: both sides quoted, a star left bare, and *.* as it is. */
  lemma ScopeText(d: string, t: string, privs: string, quote: char)
    requires PlainSide(d) && PlainSide(t) && ObjectPart(privs).None?
    ensures ScopeOf(Entry(d + "." + t, privs), quote) == Quoted(d, quote) + "." + Quoted(t, quote)
    ensures ScopeOf(Entry(d + ".*", privs), quote) == Quoted(d, quote) + "." + "*"
    ensures ScopeOf(Entry("*.*", privs), quote) == "*.*"
    ensures ScopeOf(Entry(d, privs), quote) == Quoted(d, quote)
  {
    QuotePlain(d, quote);
    QuotePlain(t, quote);
    StarStaysBare(quote);
    TwoSidedScope(d, t, d + "." + t, privs, quote);
    TwoSidedScope(d, "*", d + ".*", privs, quote);
    TwoSidedScope("*", "*", "*.*", privs, quote);
    OneSidedScope(d, privs, quote);
  }

  lemma KindPart(kind: string, name: string)
    requires kind == "FUNCTION" || kind == "PROCEDURE"
    ensures ObjectPart(kind + " " + name) == Some((kind + " ", name))
  {
    SplitCons(kind, ' ', name);
    AfterFirstBlank(kind, name);
  }

  lemma {:induction false} AfterFirstBlank(a: string, b: string)
    requires ' ' !in a
    ensures ' ' in a + " " + b && AfterFirst(a + " " + b, ' ') == b
  {
    var t := a + " " + b;
    assert t[|a|] == ' ';
    if a == "" {
      assert t[1..] == b;
    } else {
      assert t[1..] == a[1..] + " " + b;
      AfterFirstBlank(a[1..], b);
    }
  }

  /** An object kind in front of the privileges: the kind, and what follows it quoted in place of the database. */
  lemma KindScopeText(d: string, t: string, kind: string, name: string, quote: char)
    requires kind == "FUNCTION" || kind == "PROCEDURE"
    requires '.' !in d && PlainSide(t) && PlainSide(name)
    ensures ScopeOf(Entry(d + "." + t, kind + " " + name), quote) == kind + " " + (Quoted(name, quote) + "." + Quoted(t, quote))
  {
    KindPart(kind, name);
    SplitCons(d, '.', t);
    SplitPlain(t, '.');
    assert Split(d + "." + t, '.')[0 := name] == [name, t];
    QuotePlain(name, quote);
    QuotePlain(t, quote);
    TwoSides(name, t, quote);
  }

  /** Distinct plain scopes have distinct keys. */
  lemma KeysDistinct(d1: string, t1: string, p1: string, d2: string, t2: string, p2: string, quote: char)
    requires PlainSide(d1) && PlainSide(t1) && PlainSide(d2) && PlainSide(t2) && quote != '.'
    requires ObjectPart(p1).None? && ObjectPart(p2).None?
    ensures ScopeOf(Entry(d1 + "." + t1, p1), quote) == ScopeOf(Entry(d2 + "." + t2, p2), quote) <==> d1 == d2 && t1 == t2
  {
    ScopeText(d1, t1, p1, quote);
    ScopeText(d2, t2, p2, quote);
    if ScopeOf(Entry(d1 + "." + t1, p1), quote) == ScopeOf(Entry(d2 + "." + t2, p2), quote) {
      CutsAtTheDot(Quoted(d1, quote), Quoted(t1, quote), Quoted(d2, quote), Quoted(t2, quote));
      QuotedInjective(d1, d2, quote);
      QuotedInjective(t1, t2, quote);
    }
  }

  lemma CutsAtTheDot(a1: string, b1: string, a2: string, b2: string)
    requires '.' !in a1 && '.' !in b1 && '.' !in a2 && '.' !in b2 && a1 + "." + b1 == a2 + "." + b2
    ensures a1 == a2 && b1 == b2
  {
    SplitCons(a1, '.', b1);
    SplitCons(a2, '.', b2);
    SplitPlain(b1, '.');
    SplitPlain(b2, '.');
    assert ([a1] + [b1])[0] == ([a2] + [b2])[0] && ([a1] + [b1])[1] == ([a2] + [b2])[1];
  }

  lemma QuotedInjective(a: string, b: string, quote: char)
    requires Quoted(a, quote) == Quoted(b, quote)
    ensures a == b
  {
    assert |Quoted(a, quote)| == |Quoted(b, quote)|;
    assert Quoted(a, quote)[1..|a| + 1] == a && Quoted(b, quote)[1..|b| + 1] == b;
  }

  lemma JoinStarts(parts: seq<string>, sep: string)
    requires parts != [] && parts[0] != ""
    ensures Join(parts, sep) != "" && Join(parts, sep)[0] == parts[0][0]
  {
  }

  /** A scope is one that statements can be built for exactly when it has no object kind and its database side is not a bare star, or it is *.* itself. */
  lemma AddressableExactly(e: Entry, quote: char)
    requires quote == '"' || quote == '`'
    ensures ObjectPart(e.privs).Some? ==> !MySqlGrants.Addressable(ScopeOf(e, quote))
    ensures ObjectPart(e.privs).None? ==>
      (MySqlGrants.Addressable(ScopeOf(e, quote)) <==>
        || ScopeOf(e, quote) == "*.*"
        || Trim(Split(e.scope, '.')[0], {'`'}) != "*"
        || Split(e.scope, '.')[0][0] == '`')
  {
    var sides := Split(e.scope, '.');
    if ObjectPart(e.privs).Some? {
      var kind := ObjectPart(e.privs).value.0;
      assert kind[0] == 'F' || kind[0] == 'P';
      assert ScopeOf(e, quote)[0] == kind[0];
      return;
    }
    if Trim(sides[0], {'`'}) == "*" {
      assert sides[0] != "" by { assert Trim("", {'`'}) == ""; }
      StarOrTick(sides[0]);
    }
    JoinStarts(QuoteAll(sides, quote), ".");
  }

  lemma StarOrTick(side: string)
    requires Trim(side, {'`'}) == "*" && side != ""
    ensures side[0] == '`' || side[0] == '*'
  {
    if side[0] != '`' {
      assert TrimLeft(side, {'`'}) == side;
      TrimRightStarts(side);
    }
  }

  lemma {:induction false} TrimRightStarts(s: string)
    requires TrimRight(s, {'`'}) != ""
    ensures s != "" && TrimRight(s, {'`'})[0] == s[0]
  {
    if s != "" && s[|s| - 1] == '`' {
      TrimRightStarts(s[..|s| - 1]);
    }
  }

  // ---------- Column grants ----------

  predicate Contains(s: string, part: string) {
    part <= s || (s != "" && Contains(s[1..], part))
  }

  predicate Opens(item: string, grant: string) {
    Contains(item, grant + " (")
  }

  /** Where a column grant starts and ends in a list, looking from position `n` on. */
  function ColumnsFrom(items: seq<string>, grant: string, n: nat, start: Option<nat>): Option<(nat, nat)>
    requires n <= |items|
    decreases |items| - n
  {
    if n == |items| then None
    else
      var s := if Opens(items[n], grant) then Some(n) else start;
      if s.Some? && ')' in items[n] then Some((s.value, n)) else ColumnsFrom(items, grant, n + 1, s)
  }

  method HasGrantOnCol(items: seq<string>, grant: string) returns (found: Option<(nat, nat)>)
    ensures found == ColumnsFrom(items, grant, 0, None)
  {
    var start: Option<nat> := None;
    for n := 0 to |items|
      invariant ColumnsFrom(items, grant, 0, None) == ColumnsFrom(items, grant, n, start)
    {
      if Opens(items[n], grant) {
        start := Some(n);
      }
      if start.Some? && ')' in items[n] {
        return Some((start.value, n));
      }
    }
    return None;
  }

  /** The copy into a slice of length zero copies nothing: the items before are lost, and there is no item to sort. */
  function HandleGrantOnCol(items: seq<string>, start: nat, end: nat): Option<seq<string>>
    requires start <= end < |items|
  {
    if start == end then None
    else
      match ColumnGrants.Canonical(Join(items[start..end + 1], ", "))
      case None => None
      case Some(text) => Some([text] + items[end + 1..])
  }

  const COLUMN_GRANTS: seq<string> := ["SELECT", "UPDATE", "INSERT", "REFERENCES"]

  function NormalizeColGrants(items: seq<string>, grants: seq<string>): Option<seq<string>>
    decreases |grants|
  {
    if grants == [] then Some(items)
    else
      match ColumnsFrom(items, grants[0], 0, None)
      case None => NormalizeColGrants(items, grants[1..])
      case Some(span) =>
        ColumnsInRange(items, grants[0], 0, None);
        match HandleGrantOnCol(items, span.0, span.1)
        case None => None
        case Some(next) => NormalizeColGrants(next, grants[1..])
  }

  /** One kind of column grant after the other, as the parser's list is normalised. */
  method NormalizeColumns(items: seq<string>) returns (r: Option<seq<string>>)
    ensures r == NormalizeColGrants(items, COLUMN_GRANTS)
  {
    var current := items;
    for i := 0 to |COLUMN_GRANTS|
      invariant NormalizeColGrants(items, COLUMN_GRANTS) == NormalizeColGrants(current, COLUMN_GRANTS[i..])
    {
      assert COLUMN_GRANTS[i..][1..] == COLUMN_GRANTS[i + 1..];
      var span := HasGrantOnCol(current, COLUMN_GRANTS[i]);
      if span.Some? {
        ColumnsInRange(current, COLUMN_GRANTS[i], 0, None);
        var next := HandleGrantOnCol(current, span.value.0, span.value.1);
        if next.None? {
          return None;
        }
        current := next.value;
      }
    }
    r := Some(current);
  }

  lemma {:induction false} ColumnsInRange(items: seq<string>, grant: string, n: nat, start: Option<nat>)
    requires n <= |items| && (start.Some? ==> start.value <= n)
    ensures var found := ColumnsFrom(items, grant, n, start); found.Some? ==> found.value.0 <= found.value.1 < |items|
    decreases |items| - n
  {
    if n < |items| {
      ColumnsInRange(items, grant, n + 1, if Opens(items[n], grant) then Some(n) else start);
    }
  }

  /** In a parsed list an item that opens a parenthesis closes it, unless it is the last. */
  lemma {:induction false} OpenedIsClosed(item: string, inside: bool)
    requires !PrivPiece.Inside(item, inside) && (inside || '(' in item)
    ensures ')' in item
  {
    if item != "" && !(inside && item[0] == ')') {
      OpenedIsClosed(item[1..], inside || item[0] == '(');
    }
  }

  lemma {:induction false} ContainsAll(s: string, part: string, c: char)
    requires Contains(s, part) && c in part
    ensures c in s
  {
    if !(part <= s) {
      ContainsAll(s[1..], part, c);
    }
  }

  lemma OpensParenthesis(item: string, grant: string)
    requires Opens(item, grant)
    ensures '(' in item
  {
    var part := grant + " (";
    assert part[|part| - 1] == '(';
    ContainsAll(item, part, '(');
  }

  lemma {:induction false} WellFormedItems(items: seq<string>, i: nat)
    requires PrivPiece.WellFormed(items, false) && i < |items| - 1
    ensures !PrivPiece.Inside(items[i], false)
  {
    if i > 0 {
      WellFormedItems(items[1..], i - 1);
    }
  }

  predicate ColumnItem(item: string, grant: string) {
    Opens(item, grant) && ')' in item
  }

  lemma {:induction false} FoundInOneItem(items: seq<string>, grant: string, n: nat)
    requires n <= |items| && PrivPiece.WellFormed(items, false)
    ensures var found := ColumnsFrom(items, grant, n, None);
      && (found.None? <==> forall i :: n <= i < |items| ==> !ColumnItem(items[i], grant))
      && (found.Some? ==> found.value.0 == found.value.1 < |items|)
    decreases |items| - n
  {
    if n < |items| {
      FoundInOneItem(items, grant, n + 1);
      if Opens(items[n], grant) && n < |items| - 1 {
        OpensParenthesis(items[n], grant);
        WellFormedItems(items, n);
        OpenedIsClosed(items[n], false);
      } else if Opens(items[n], grant) && ')' !in items[n] {
        assert ColumnsFrom(items, grant, n + 1, Some(n)) == None;
      }
    }
  }

  ghost predicate AnyColumnItem(items: seq<string>, grants: seq<string>) {
    exists g :: g in grants && HasColumnItem(items, g)
  }

  ghost predicate HasColumnItem(items: seq<string>, grant: string) {
    exists i :: 0 <= i < |items| && ColumnItem(items[i], grant)
  }

  /** On a parsed list the normalisation of column grants does nothing or panics; it never gets to sort a column. */
  lemma {:induction false} ColumnsPanic(items: seq<string>, grants: seq<string>)
    requires PrivPiece.WellFormed(items, false)
    ensures NormalizeColGrants(items, grants) == if AnyColumnItem(items, grants) then None else Some(items)
  {
    if grants != [] {
      FoundInOneItem(items, grants[0], 0);
      ColumnsPanic(items, grants[1..]);
      assert forall g :: g in grants <==> g == grants[0] || g in grants[1..];
      assert AnyColumnItem(items, grants) <==> HasColumnItem(items, grants[0]) || AnyColumnItem(items, grants[1..]);
    }
  }

  // ---------- Unpacking ----------

  function StrippedItems(text: string): seq<string> {
    PrivPiece.DropEmptyLast(PrivPiece.StripAll(PrivPiece.Pieces(text, false)))
  }

  predicate Valid(e: Entry, valid: seq<string>) {
    Funk.Without(StrippedItems(ToUpper(e.privs)), valid) == []
  }

  function EntryItems(e: Entry, valid: seq<string>): Result<seq<string>, Problem> {
    if !Valid(e, valid) then Err(Invalid)
    else
      match NormalizeColGrants(PrivPiece.Items(ToUpper(e.privs)), COLUMN_GRANTS)
      case None => Err(Panic)
      case Some(items) => Ok(items)
  }

  method ParseEntry(e: Entry, valid: seq<string>) returns (r: Result<seq<string>, Problem>)
    ensures r == EntryItems(e, valid)
  {
    var privs, privsStripped := PrivPiece.ParsePrivPiece(ToUpper(e.privs));
    var invalidPrivs := Funk.Subtract(privsStripped, valid);
    if |invalidPrivs| > 0 {
      return Err(Invalid);
    }
    var items := NormalizeColumns(privs);
    r := if items.None? then Err(Panic) else Ok(items.value);
  }

  function UnpackEntry(m: map<string, seq<string>>, e: Entry, quote: char, valid: seq<string>): Result<map<string, seq<string>>, Problem> {
    match EntryItems(e, valid)
    case Err(p) => Err(p)
    case Ok(items) => Ok(m[ScopeOf(e, quote) := items])
  }

  function UnpackEntries(entries: seq<Entry>, quote: char, valid: seq<string>): Result<map<string, seq<string>>, Problem> {
    if entries == [] then Ok(map[])
    else
      match UnpackEntries(entries[..|entries| - 1], quote, valid)
      case Err(p) => Err(p)
      case Ok(m) => UnpackEntry(m, entries[|entries| - 1], quote, valid)
  }

  function Unpack(entries: seq<Entry>, quote: char, valid: seq<string>): Result<map<string, seq<string>>, Problem> {
    match UnpackEntries(entries, quote, valid)
    case Err(p) => Err(p)
    case Ok(m) => Ok(MySqlGrants.WithGlobalUsage(m))
  }

  method UnpackInto(m: map<string, seq<string>>, e: Entry, quote: char, valid: seq<string>) returns (r: Result<map<string, seq<string>>, Problem>)
    ensures r == UnpackEntry(m, e, quote, valid)
  {
    var items := ParseEntry(e, valid);
    if items.Err? {
      return Err(items.error);
    }
    r := Ok(m[ScopeOf(e, quote) := items.value]);
  }

  method PrivilegesUnpack(entries: seq<Entry>, ansi: bool, valid: seq<string>) returns (r: Result<map<string, seq<string>>, Problem>)
    ensures r == Unpack(entries, if ansi then '"' else '`', valid)
  {
    var quote := if ansi then '"' else '`';
    var output: map<string, seq<string>> := map[];
    for i := 0 to |entries|
      invariant UnpackEntries(entries[..i], quote, valid) == Ok(output)
    {
      assert entries[..i + 1][..i] == entries[..i];
      var next := UnpackInto(output, entries[i], quote, valid);
      if next.Err? {
        UnpackStops(entries, i + 1, quote, valid);
        return Err(next.error);
      }
      output := next.value;
    }
    assert entries[..|entries|] == entries;
    r := Ok(MySqlGrants.WithGlobalUsage(output));
  }

  lemma {:induction false} UnpackStops(entries: seq<Entry>, i: nat, quote: char, valid: seq<string>)
    requires i <= |entries| && UnpackEntries(entries[..i], quote, valid).Err?
    ensures UnpackEntries(entries, quote, valid) == UnpackEntries(entries[..i], quote, valid)
    decreases |entries|
  {
    if i == |entries| {
      assert entries[..i] == entries;
    } else {
      assert entries[..|entries| - 1][..i] == entries[..i];
      UnpackStops(entries[..|entries| - 1], i, quote, valid);
    }
  }

  /** Every privilege is valid and no item looks like a column grant. */
  ghost predicate Accepted(e: Entry, valid: seq<string>) {
    Valid(e, valid) && !AnyColumnItem(PrivPiece.Items(ToUpper(e.privs)), COLUMN_GRANTS)
  }

  /** Items the parser returns can stand in a list. */
  lemma ItemsWellFormed(text: string)
    ensures PrivPiece.WellFormed(PrivPiece.Items(text), false)
  {
    PrivPiece.PiecesWellFormed(text, false);
    DropLastWellFormed(PrivPiece.Pieces(text, false), false);
  }

  lemma {:induction false} DropLastWellFormed(items: seq<string>, inside: bool)
    requires PrivPiece.WellFormed(items, inside)
    ensures items != [] ==> PrivPiece.WellFormed(items[..|items| - 1], inside)
    ensures PrivPiece.WellFormed(PrivPiece.DropEmptyLast(items), inside)
  {
    if |items| > 1 {
      DropLastWellFormed(items[1..], false);
      assert items[..|items| - 1][1..] == items[1..][..|items| - 2];
    }
  }

  /** Later rows win. */
  ghost function Fold<K(!new), V>(rows: seq<(K, V)>): map<K, V> {
    if rows == [] then map[] else Fold(rows[..|rows| - 1])[rows[|rows| - 1].0 := rows[|rows| - 1].1]
  }

  ghost predicate LastFor<K(!new), V>(rows: seq<(K, V)>, k: K, i: int) {
    0 <= i < |rows| && rows[i].0 == k && forall j :: i < j < |rows| ==> rows[j].0 != k
  }

  lemma {:induction false} FoldIsLast<K(!new), V(!new)>(rows: seq<(K, V)>, k: K)
    ensures k in Fold(rows) <==> exists i :: LastFor(rows, k, i)
    ensures forall i :: LastFor(rows, k, i) ==> Fold(rows)[k] == rows[i].1
  {
    if rows != [] {
      var n := |rows| - 1;
      FoldIsLast(rows[..n], k);
      if rows[n].0 == k {
        assert LastFor(rows, k, n);
      } else {
        forall i ensures LastFor(rows, k, i) <==> LastFor(rows[..n], k, i) {
          LastForStep(rows, k, i);
        }
      }
    }
  }

  lemma LastForStep<K(!new), V>(rows: seq<(K, V)>, k: K, i: int)
    requires rows != [] && rows[|rows| - 1].0 != k
    ensures LastFor(rows, k, i) <==> LastFor(rows[..|rows| - 1], k, i)
  {
    var n := |rows| - 1;
    assert forall j :: 0 <= j < n ==> rows[..n][j] == rows[j];
  }

  function Rows(entries: seq<Entry>, quote: char): (r: seq<(string, seq<string>)>)
    ensures |r| == |entries|
    ensures forall i :: 0 <= i < |r| ==> r[i] == (ScopeOf(entries[i], quote), PrivPiece.Items(ToUpper(entries[i].privs)))
  {
    seq(|entries|, i requires 0 <= i < |entries| => (ScopeOf(entries[i], quote), PrivPiece.Items(ToUpper(entries[i].privs))))
  }

  lemma UnpackOne(m: map<string, seq<string>>, e: Entry, quote: char, valid: seq<string>)
    ensures UnpackEntry(m, e, quote, valid).Ok? <==> Accepted(e, valid)
    ensures Accepted(e, valid) ==> UnpackEntry(m, e, quote, valid).value == m[ScopeOf(e, quote) := PrivPiece.Items(ToUpper(e.privs))]
  {
    var items := PrivPiece.Items(ToUpper(e.privs));
    ItemsWellFormed(ToUpper(e.privs));
    ColumnsPanic(items, COLUMN_GRANTS);
  }

  lemma UnpackStep(entries: seq<Entry>, quote: char, valid: seq<string>)
    requires entries != []
    ensures var n := |entries| - 1; var prev := UnpackEntries(entries[..n], quote, valid); var all := UnpackEntries(entries, quote, valid);
      && (all.Ok? <==> prev.Ok? && Accepted(entries[n], valid))
      && (all.Ok? ==> all.value == prev.value[ScopeOf(entries[n], quote) := PrivPiece.Items(ToUpper(entries[n].privs))])
  {
    var prev := UnpackEntries(entries[..|entries| - 1], quote, valid);
    if prev.Ok? {
      UnpackOne(prev.value, entries[|entries| - 1], quote, valid);
    }
  }

  ghost predicate AllAccepted(entries: seq<Entry>, valid: seq<string>) {
    forall e :: e in entries ==> Accepted(e, valid)
  }

  lemma AllAcceptedStep(entries: seq<Entry>, valid: seq<string>)
    requires entries != []
    ensures AllAccepted(entries, valid) <==> AllAccepted(entries[..|entries| - 1], valid) && Accepted(entries[|entries| - 1], valid)
  {
    assert entries == entries[..|entries| - 1] + [entries[|entries| - 1]];
  }

  lemma RowsStep(entries: seq<Entry>, quote: char)
    requires entries != []
    ensures var n := |entries| - 1;
      Fold(Rows(entries, quote)) == Fold(Rows(entries[..n], quote))[ScopeOf(entries[n], quote) := PrivPiece.Items(ToUpper(entries[n].privs))]
  {
    assert Rows(entries, quote)[..|entries| - 1] == Rows(entries[..|entries| - 1], quote);
  }

  /** A list of entries unpacks exactly when each of them is accepted, and then to the items they were written with, later entries for a scope replacing earlier ones. */
  lemma {:induction false} UnpacksExactly(entries: seq<Entry>, quote: char, valid: seq<string>)
    ensures UnpackEntries(entries, quote, valid).Ok? <==> AllAccepted(entries, valid)
    ensures UnpackEntries(entries, quote, valid).Ok? ==> UnpackEntries(entries, quote, valid).value == Fold(Rows(entries, quote))
  {
    if entries != [] {
      UnpacksExactly(entries[..|entries| - 1], quote, valid);
      UnpackStep(entries, quote, valid);
      AllAcceptedStep(entries, valid);
      RowsStep(entries, quote);
    }
  }

  /** In an unpacked spec every scope has the items of its last entry. */
  lemma LastEntryUnpacked(entries: seq<Entry>, quote: char, valid: seq<string>, scope: string)
    requires UnpackEntries(entries, quote, valid).Ok?
    ensures var m := UnpackEntries(entries, quote, valid).value;
      && (scope in m <==> exists i :: LastFor(Rows(entries, quote), scope, i))
      && (forall i :: LastFor(Rows(entries, quote), scope, i) ==> scope in m && m[scope] == PrivPiece.Items(ToUpper(entries[i].privs)))
  {
    UnpacksExactly(entries, quote, valid);
    FoldIsLast(Rows(entries, quote), scope);
  }

  /** An unpacked spec has the items of the last entry for every scope that an entry names, *.* included, USAGE on *.* if none does, and no other scope. */
  lemma SpecUnpacked(entries: seq<Entry>, quote: char, valid: seq<string>, scope: string)
    requires Unpack(entries, quote, valid).Ok?
    ensures var m, rows := Unpack(entries, quote, valid).value, Rows(entries, quote);
      && (forall i :: LastFor(rows, scope, i) ==> scope in m && m[scope] == PrivPiece.Items(ToUpper(entries[i].privs)))
      && ((forall i :: !LastFor(rows, scope, i)) ==> if scope == "*.*" then scope in m && m[scope] == ["USAGE"] else scope !in m)
  {
    LastEntryUnpacked(entries, quote, valid, scope);
  }

  // ---------- A column item that panics ----------

  /** A privilege with another column grant in its parentheses, such as INSERT(SELECT (A). */
  function Nested(outer: string, grant: string, cols: string): string {
    outer + "(" + (grant + " (" + cols) + ")"
  }

  lemma NestedLooksLikeColumns(outer: string, grant: string, cols: string)
    requires '(' !in outer && ')' !in grant && ')' !in cols
    requires ',' !in outer && ',' !in grant && ',' !in cols
    ensures var item := Nested(outer, grant, cols);
      PrivPiece.Pieces(item, false) == [item] && PrivPiece.Strip(item, false) == outer && ColumnItem(item, grant)
  {
    var item := Nested(outer, grant, cols);
    StripColumns(outer, grant + " (" + cols);
    CommaFree(item, false);
    PrivPiece.OnePiece(item, false);
    ContainsAt(outer + "(", grant + " (", cols + ")");
    assert item == outer + "(" + (grant + " (") + (cols + ")");
    assert item[|item| - 1] == ')';
  }

  /** Stripped, the item is valid; so it gets as far as the column normalisation, and panics there. */
  lemma NestedPanics(m: map<string, seq<string>>, e: Entry, outer: string, grant: string, cols: string, quote: char, valid: seq<string>)
    requires '(' !in outer && ')' !in grant && ')' !in cols
    requires ',' !in outer && ',' !in grant && ',' !in cols
    requires ToUpper(e.privs) == Nested(outer, grant, cols) && outer != "" && outer in valid
    requires grant == "SELECT" || grant == "UPDATE" || grant == "INSERT" || grant == "REFERENCES"
    ensures UnpackEntry(m, e, quote, valid) == Err(Panic)
  {
    var item := Nested(outer, grant, cols);
    assert grant in COLUMN_GRANTS by {
      assert COLUMN_GRANTS[0] == "SELECT" && COLUMN_GRANTS[1] == "UPDATE" && COLUMN_GRANTS[2] == "INSERT" && COLUMN_GRANTS[3] == "REFERENCES";
    }
    NestedLooksLikeColumns(outer, grant, cols);
    assert PrivPiece.StripAll([item]) == [outer];
    assert StrippedItems(item) == [outer];
    MySqlGrants.WithoutIsMinus([outer], valid);
    assert Funk.Elems([outer]) - Funk.Elems(valid) == {};
    assert PrivPiece.Items(item) == [item];
    assert ColumnItem([item][0], grant);
    assert HasColumnItem([item], grant);
    UnpackOne(m, e, quote, valid);
    ItemsWellFormed(item);
    ColumnsPanic([item], COLUMN_GRANTS);
  }

  lemma {:induction false} CommaFree(s: string, inside: bool)
    requires ',' !in s
    ensures PrivPiece.NoTopComma(s, inside)
  {
    if s != "" {
      CommaFree(s[1..], if inside then s[0] != ')' else s[0] == '(');
    }
  }

  lemma {:induction false} ContainsAt(before: string, part: string, after: string)
    ensures Contains(before + part + after, part)
  {
    var s := before + part + after;
    if before == "" {
      assert part <= s;
    } else {
      ContainsAt(before[1..], part, after);
      assert s[1..] == before[1..] + part + after;
    }
  }

  // ---------- The documented form of a column grant ----------

  lemma {:induction false} StripColumns(grant: string, cols: string)
    requires '(' !in grant && ')' !in cols
    ensures PrivPiece.Strip(grant + "(" + cols + ")", false) == grant
  {
    var s := grant + "(" + cols + ")";
    if grant == "" {
      assert s[1..] == cols + ")";
      StripInside(cols);
    } else {
      assert s[1..] == grant[1..] + "(" + cols + ")";
      StripColumns(grant[1..], cols);
      assert [grant[0]] + grant[1..] == grant;
    }
  }

  lemma {:induction false} StripInside(cols: string)
    requires ')' !in cols
    ensures PrivPiece.Strip(cols + ")", true) == ""
  {
    var s := cols + ")";
    if cols == "" {
      assert s[1..] == "";
    } else {
      assert s[1..] == cols[1..] + ")";
      StripInside(cols[1..]);
    }
  }

  /**
    Written the way the comments and the server write it, "SELECT (a, b)", a column grant keeps a blank after
    its name when the columns are stripped, so the whole spec is refused unless the list of valid privileges
    has the name with that blank.
   */
  lemma SpacedColumnsInvalid(grant: string, cols: string, e: Entry, valid: seq<string>, i: nat)
    requires '(' !in grant && ')' !in cols && grant != ""
    requires i < |PrivPiece.Items(ToUpper(e.privs))| && PrivPiece.Items(ToUpper(e.privs))[i] == grant + " (" + cols + ")"
    requires (grant + " ") !in valid
    ensures !Valid(e, valid)
  {
    var text := ToUpper(e.privs);
    var pieces := PrivPiece.Pieces(text, false);
    assert grant + " (" + cols + ")" == (grant + " ") + "(" + cols + ")";
    StripColumns(grant + " ", cols);
    PrivPiece.ListsInStep(pieces);
    var stripped := StrippedItems(text);
    assert PrivPiece.StripAll(pieces)[i] == grant + " ";
    assert stripped[i] == grant + " ";
    assert stripped[i] in stripped;
    assert stripped[i] in Funk.Without(stripped, valid);
  }
}
