// The DbServer controller: publish the names of the databases and users found on a server in the
// resource's status, and pick a DbServer by name.

module DbServerStatus {
  import opened Wrappers
  import Sorting

  // ---------- Lists of names ----------

  lemma MultisetOfSet(names: set<string>, x: string)
    requires x in names
    ensures multiset(names) == multiset(names - {x}) + multiset{x}
  {
  }

  /** The one ordered list of the names in a set. */
  ghost function Listing(names: set<string>): (r: seq<string>)
    ensures Sorting.Ordered(r) && multiset(r) == multiset(names)
  {
    if names == {} then []
    else
      var x :| x in names;
      MultisetOfSet(names, x);
      Sorting.Insert(x, Listing(names - {x}))
  }

  /** Whatever order a map yields its keys in, sorting them gives that list. */
  method SortedNames(names: set<string>) returns (r: seq<string>)
    ensures r == Listing(names)
  {
    r := [];
    var left := names;
    while left != {}
      invariant left <= names
      invariant multiset(r) + multiset(left) == multiset(names)
    {
      var name :| name in left;
      MultisetOfSet(left, name);
      r, left := r + [name], left - {name};
    }
    r := Sorting.Sorted(r);
    Sorting.OrderedUnique(r, Listing(names));
  }

  // ---------- Publication ----------

  datatype Published = Published(databases: seq<string>, users: seq<string>, available: bool, message: string)

  /** `status` is None until the first one has been stored; `writes` counts the updates the API server accepted. */
  datatype Stored = Stored(marked: bool, finalizer: bool, status: Option<Published>, writes: nat)

  /** What a pass can find out: Err carries the text of the error. */
  datatype View = View(connects: bool, databases: Result<set<string>, string>, users: Result<set<string>, string>)

  datatype Retry = NoRetry | Soon | Gradual

  const CONNECTED := "successfully connected to database and retrieved users and databases"

  /** The status a view is published as. The message of a failed connection is only composed after publishing. */
  ghost function StatusOf(v: View): Published {
    if !v.connects then Published([], [], false, "")
    else if v.databases.Err? then Published([], [], false, "Failed reading databases: " + v.databases.error)
    else if v.users.Err? then Published(Listing(v.databases.value), [], false, "Failed reading users: " + v.users.error)
    else Published(Listing(v.databases.value), Listing(v.users.value), true, CONNECTED)
  }

  /**
    Metadata and status are stored by different calls: the update that adds the finalizer does not
    store the status, although the copy it sends carries it.
   */
  function Publish(s: Stored, new_: Published, ok: bool): Stored {
    if !ok then s
    else if !s.finalizer then s.(finalizer := true, writes := s.writes + 1)
    else if s.status != Some(new_) then s.(status := Some(new_), writes := s.writes + 1)
    else s
  }

  ghost function Pass(s: Stored, v: View, get: bool, ok: bool): Stored {
    if !get then s
    else if s.marked then if ok then s.(finalizer := false, writes := s.writes + 1) else s
    else Publish(s, StatusOf(v), ok)
  }

  class DbServerReconciler {
    var stored: Stored

    constructor (stored: Stored)
      ensures this.stored == stored
    {
      this.stored := stored;
    }

    method SetStatus(databases: seq<string>, users: seq<string>, available: bool, message: string, ok: bool) returns (err: bool)
      modifies this
      ensures stored == Publish(old(stored), Published(databases, users, available, message), ok)
      ensures !err <==> ok || (old(stored).finalizer && old(stored).status == Some(Published(databases, users, available, message)))
    {
      var new_ := Published(databases, users, available, message);
      if !stored.finalizer {
        if !ok {
          return true;
        }
        stored := stored.(finalizer := true, writes := stored.writes + 1);
      } else if stored.status != Some(new_) {
        if !ok {
          return true;
        }
        stored := stored.(status := Some(new_), writes := stored.writes + 1);
      }
      err := false;
    }

    method Reconcile(v: View, get: bool, ok: bool) returns (retry: Retry)
      modifies this
      ensures stored == Pass(old(stored), v, get, ok)
      ensures get && !old(stored).marked && retry == NoRetry ==>
        stored.finalizer && (stored.status == Some(StatusOf(v)) || !old(stored).finalizer)
    {
      if !get {
        return NoRetry;
      }
      if stored.marked {
        if !ok {
          return Soon;
        }
        stored := stored.(finalizer := false, writes := stored.writes + 1);
        return NoRetry;
      }
      var err;
      if !v.connects {
        err := SetStatus([], [], false, "", ok);
        return Gradual;
      }
      if v.databases.Err? {
        err := SetStatus([], [], false, "Failed reading databases: " + v.databases.error, ok);
        return Soon;
      }
      var databaseNames := SortedNames(v.databases.value);
      if v.users.Err? {
        err := SetStatus(databaseNames, [], false, "Failed reading users: " + v.users.error, ok);
      } else {
        var userNames := SortedNames(v.users.value);
        err := SetStatus(databaseNames, userNames, true, CONNECTED, ok);
      }
      retry := if err then Soon else NoRetry;
    }
  }

  /** The published lists hold exactly the names that were read, in order, each once; without an answer they are empty and the server is shown as unavailable. */
  lemma PublishedIsRead(v: View)
    ensures var p := StatusOf(v);
      && Sorting.Ordered(p.databases) && Sorting.Ordered(p.users)
      && multiset(p.databases) == (if v.connects && v.databases.Ok? then multiset(v.databases.value) else multiset{})
      && multiset(p.users) == (if v.connects && v.databases.Ok? && v.users.Ok? then multiset(v.users.value) else multiset{})
      && (p.available <==> v.connects && v.databases.Ok? && v.users.Ok?)
      && (!v.connects ==> p.message == "")
  {
  }

  /** A marked resource that can be read and updated is let go of. */
  lemma MarkedReleased(s: Stored, v: View, get: bool, ok: bool)
    requires s.marked && s.finalizer
    ensures !Pass(s, v, get, ok).finalizer <==> get && ok
    ensures Pass(s, v, get, ok).status == s.status
  {
  }

  ghost function Passes(s: Stored, v: View, fates: seq<(bool, bool)>): Stored {
    if fates == [] then s
    else
      var n := |fates| - 1;
      Pass(Passes(s, v, fates[..n]), v, fates[n].0, fates[n].1)
  }

  /** Passes in which both calls go through. */
  function Good(fates: seq<(bool, bool)>): nat {
    if fates == [] then 0 else Good(fates[..|fates| - 1]) + if fates[|fates| - 1] == (true, true) then 1 else 0
  }

  /** Updates still to come: the finalizer, then the status. */
  ghost function Due(s: Stored, v: View): nat {
    (if s.finalizer then 0 else 1) + (if s.status == Some(StatusOf(v)) then 0 else 1)
  }

  /**
    While the server looks the same, every good pass makes one of the updates due until none is, and no
    other pass makes any: two at most, over every run of passes and every order of the names.
   */
  lemma {:induction false} UpdatesDue(s: Stored, v: View, fates: seq<(bool, bool)>)
    requires !s.marked
    ensures var s' := Passes(s, v, fates);
      && !s'.marked
      && s'.writes - s.writes == (if Good(fates) < Due(s, v) then Good(fates) else Due(s, v))
      && Due(s', v) == Due(s, v) - (s'.writes - s.writes)
      && (s'.finalizer || Good(fates) == 0)
  {
    if fates != [] {
      UpdatesDue(s, v, fates[..|fates| - 1]);
    }
  }

  // ---------- Picking a server ----------

  datatype DbServer = DbServer(name: string, namespace: string, spec: string)

  datatype PickError = NotFound | Ambiguous(count: nat)

  ghost function Named(items: seq<DbServer>, name: string): (r: seq<DbServer>)
    ensures forall s :: s in r <==> s in items && s.name == name
  {
    if items == [] then []
    else
      assert items == items[..|items| - 1] + [items[|items| - 1]];
      Named(items[..|items| - 1], name) + if items[|items| - 1].name == name then [items[|items| - 1]] else []
  }

  ghost predicate Local(s: DbServer, name: string, here: string) {
    s.name == name && s.namespace == here
  }

  /** A server of that name in the local namespace wins; otherwise there must be exactly one anywhere. */
  method GetDbServer(items: seq<DbServer>, name: string, here: string) returns (r: Result<DbServer, PickError>)
    ensures Answer(items, name, here, r)
  {
    var dbServers: seq<DbServer> := [];
    for i := 0 to |items|
      invariant dbServers == Named(items[..i], name)
      invariant forall s :: s in items[..i] ==> !Local(s, name, here)
    {
      assert items[..i + 1][..i] == items[..i];
      if items[i].name == name {
        dbServers := dbServers + [items[i]];
        if items[i].namespace == here {
          return Ok(items[i]);
        }
      }
    }
    assert items[..|items|] == items;
    if |dbServers| == 1 {
      r := Ok(dbServers[0]);
    } else if |dbServers| == 0 {
      r := Err(NotFound);
    } else {
      r := Err(Ambiguous(|dbServers|));
    }
  }

  function OnlyOne(found: seq<DbServer>): Result<DbServer, PickError> {
    if |found| == 1 then Ok(found[0]) else if |found| == 0 then Err(NotFound) else Err(Ambiguous(|found|))
  }

  /** The API server holds one resource per name and namespace. */
  ghost predicate UniqueKeys(items: seq<DbServer>) {
    forall i, j :: 0 <= i < j < |items| ==> items[i].name != items[j].name || items[i].namespace != items[j].namespace
  }

  /** What GetDbServer's contract allows as an answer. */
  ghost predicate Answer(items: seq<DbServer>, name: string, here: string, r: Result<DbServer, PickError>) {
    && ((exists s :: s in items && Local(s, name, here)) ==> r.Ok? && r.value in items && Local(r.value, name, here))
    && ((forall s :: s in items ==> !Local(s, name, here)) ==> r == OnlyOne(Named(items, name)))
  }

  ghost function NamedSet(items: seq<DbServer>, name: string): set<DbServer> {
    set s | s in items && s.name == name
  }

  lemma NamedSetLast(items: seq<DbServer>, name: string)
    requires items != []
    ensures var n := |items| - 1;
      NamedSet(items, name) == NamedSet(items[..n], name) + if items[n].name == name then {items[n]} else {}
  {
    var n := |items| - 1;
    assert items == items[..n] + [items[n]];
  }

  lemma {:induction false} NamedCount(items: seq<DbServer>, name: string)
    requires UniqueKeys(items)
    ensures |Named(items, name)| == |NamedSet(items, name)|
  {
    if items != [] {
      var n := |items| - 1;
      NamedCount(items[..n], name);
      NamedSetLast(items, name);
      assert items[n] !in items[..n];
    }
  }

  lemma SameAnswerNamed(a: seq<DbServer>, b: seq<DbServer>, name: string)
    requires UniqueKeys(a) && UniqueKeys(b) && (forall s :: s in a <==> s in b)
    ensures OnlyOne(Named(a, name)) == OnlyOne(Named(b, name))
  {
    NamedCount(a, name);
    NamedCount(b, name);
    assert NamedSet(a, name) == NamedSet(b, name);
    var x, y := Named(a, name), Named(b, name);
    if |x| == 1 {
      assert x[0] in x && x[0] in y && y == [y[0]];
    }
  }

  /** Two listings of the same servers, in whatever order, get the same answer. */
  lemma OrderDoesNotMatter(a: seq<DbServer>, b: seq<DbServer>, name: string, here: string,
                           ra: Result<DbServer, PickError>, rb: Result<DbServer, PickError>)
    requires UniqueKeys(a) && UniqueKeys(b) && (forall s :: s in a <==> s in b)
    requires Answer(a, name, here, ra) && Answer(b, name, here, rb)
    ensures ra == rb
  {
    if s :| s in a && Local(s, name, here) {
      assert ra.value in a && rb.value in a;
      assert ra.value == rb.value;
    } else {
      SameAnswerNamed(a, b, name);
    }
  }
}
