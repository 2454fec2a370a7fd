// The cache of database connections, one per user and database, and its closing.

module ConnectionStore {
  import opened Wrappers

  datatype Key = Key(db: string, user: string)

  /** A missing name and an empty one give the same key. */
  function NewConnectionKey(user: Option<string>, db: Option<string>): Key {
    Key(if db.Some? then db.value else "", if user.Some? then user.value else "")
  }

  datatype Config = Config(serverCredentials: string, userCredentials: map<string, string>)

  /** How a connection was opened: the names it was asked for by, the credentials used, the key it was stored under. */
  datatype Opened = Opened(user: Option<string>, db: Option<string>, credentials: string, key: Key)

  /**
    A connection is known by its number in `opens`, the list of all that were ever opened; those
    from `since` on were opened after the last complete closing.
   */
  datatype Store = Store(connections: map<Key, nat>, opens: seq<Opened>, closed: set<nat>, since: nat)

  datatype GetError = NoCredentials | ConnectFailed

  function CredentialsOf(config: Config, user: Option<string>): Option<string> {
    if user.None? then Some(config.serverCredentials)
    else if user.value in config.userCredentials then Some(config.userCredentials[user.value])
    else None
  }

  function Get(s: Store, config: Config, user: Option<string>, db: Option<string>, ok: bool): (Store, Result<nat, GetError>) {
    var key := NewConnectionKey(user, db);
    var creds := CredentialsOf(config, user);
    if key in s.connections then (s, Ok(s.connections[key]))
    else if creds.None? then (s, Err(NoCredentials))
    else if !ok then (s, Err(ConnectFailed))
    else (s.(connections := s.connections[key := |s.opens|], opens := s.opens + [Opened(user, db, creds.value, key)]), Ok(|s.opens|))
  }

  ghost predicate Walks(order: seq<Key>, connections: map<Key, nat>) {
    forall k :: k in order <==> k in connections
  }

  class ConnectionsStore {
    const config: Config
    var connections: map<Key, nat>
    ghost var opens: seq<Opened>
    ghost var closed: set<nat>
    ghost var since: nat
    var count: nat

    ghost function Value(): Store
      reads this
    {
      Store(connections, opens, closed, since)
    }

    ghost predicate Valid()
      reads this
    {
      count == |opens| && Sound(Value()) && AllGenuine(Value(), config)
    }

    constructor (config: Config)
      ensures Valid() && this.config == config && Value() == Store(map[], [], {}, 0)
    {
      this.config := config;
      connections, opens, closed, since, count := map[], [], {}, 0, 0;
    }

    /** `ok`: the server accepts the connection. */
    method GetDbConnection(user: Option<string>, db: Option<string>, ok: bool) returns (r: Result<nat, GetError>)
      requires Valid()
      modifies this
      ensures Valid()
      ensures (Value(), r) == Get(old(Value()), config, user, db, ok)
    {
      GetSound(Value(), config, user, db, ok);
      GetGenuine(Value(), config, user, db, ok);
      var key := NewConnectionKey(user, db);
      if key in connections {
        return Ok(connections[key]);
      }
      var creds: string;
      if user.None? {
        creds := config.serverCredentials;
      } else if user.value in config.userCredentials {
        creds := config.userCredentials[user.value];
      } else {
        return Err(NoCredentials);
      }
      if !ok {
        return Err(ConnectFailed);
      }
      r := Ok(count);
      connections := connections[key := count];
      opens, count := opens + [Opened(user, db, creds, key)], count + 1;
    }

    /** `order` is the order in which the map happens to be walked, `fate` says which connections close. */
    method Close(order: seq<Key>, fate: nat -> bool) returns (err: bool)
      requires Valid() && Walks(order, connections)
      modifies this
      ensures Valid() && opens == old(opens) && old(closed) <= closed
      ensures err <==> exists k :: k in old(connections) && !fate(old(connections)[k])
      ensures !err ==> connections == map[] && forall h :: 0 <= h < |opens| ==> h in closed
      ensures err ==> connections == old(connections) && since == old(since)
    {
      for i := 0 to |order|
        invariant Valid() && opens == old(opens) && old(closed) <= closed
        invariant connections == old(connections) && since == old(since)
        invariant forall k :: k in order[..i] ==> fate(connections[k]) && connections[k] in closed
      {
        var conn := connections[order[i]];
        if !fate(conn) {
          return true;
        }
        closed := closed + {conn};
        assert order[..i + 1] == order[..i] + [order[i]];
      }
      assert order[..|order|] == order;
      forall h | 0 <= h < |opens| ensures h in closed {
        assert h >= since ==> opens[h].key in order;
      }
      connections, since := map[], |opens|;
      err := false;
    }
  }

  // ---------- What every operation keeps ----------

  /**
    The stored connections are exactly those opened since the last complete closing, each under its own
    key and so at most one per key, and all older ones are closed.
   */
  ghost predicate Sound(s: Store) {
    && s.since <= |s.opens|
    && (forall k :: k in s.connections ==> s.since <= s.connections[k] < |s.opens| && s.opens[s.connections[k]].key == k)
    && (forall h :: s.since <= h < |s.opens| ==> s.opens[h].key in s.connections && s.connections[s.opens[h].key] == h)
    && (forall h :: 0 <= h < s.since ==> h in s.closed)
  }

  lemma GetSound(s: Store, config: Config, user: Option<string>, db: Option<string>, ok: bool)
    requires Sound(s)
    ensures Sound(Get(s, config, user, db, ok).0)
  {
  }

  lemma OneOpenPerKey(s: Store, i: nat, j: nat)
    requires Sound(s) && s.since <= i < j < |s.opens|
    ensures s.opens[i].key != s.opens[j].key
  {
    assert s.connections[s.opens[i].key] == i;
  }

  lemma StoredOrClosed(s: Store, h: nat)
    requires Sound(s) && h < |s.opens|
    ensures h in s.closed || (exists k :: k in s.connections && s.connections[k] == h)
  {
    if h >= s.since {
      assert s.opens[h].key in s.connections;
    }
  }

  /** The credentials that belong to a user: the server's own without a name, otherwise those listed under it. */
  ghost predicate BelongTo(config: Config, user: Option<string>, credentials: string) {
    match user
    case None => credentials == config.serverCredentials
    case Some(u) => u in config.userCredentials && credentials == config.userCredentials[u]
  }

  /** Opened for the question it records. */
  ghost predicate Genuine(o: Opened, config: Config) {
    o.key == NewConnectionKey(o.user, o.db) && BelongTo(config, o.user, o.credentials)
  }

  ghost predicate AllGenuine(s: Store, config: Config) {
    forall h :: 0 <= h < |s.opens| ==> Genuine(s.opens[h], config)
  }

  predicate Named(name: Option<string>) {
    name != Some("")
  }

  /** The answer was opened with the credentials and the database asked for. */
  ghost predicate Matches(s: Store, config: Config, h: nat, user: Option<string>, db: Option<string>) {
    h < |s.opens| && s.opens[h].db == db && BelongTo(config, user, s.opens[h].credentials)
  }

  /** Whatever names are asked for, every connection stays one that was opened for the question it records. */
  lemma GetGenuine(s: Store, config: Config, user: Option<string>, db: Option<string>, ok: bool)
    requires AllGenuine(s, config)
    ensures AllGenuine(Get(s, config, user, db, ok).0, config)
  {
  }

  /** An empty user name can do no harm when it has the server's own credentials. */
  predicate EmptyUserIsServer(config: Config) {
    "" in config.userCredentials && config.userCredentials[""] == config.serverCredentials
  }

  /**
    Of any store, also one that empty names have opened into: a new connection matches the question, and a
    cached one does exactly when both the question and the one it was opened for have an empty database
    name or neither has, and the same of the user name, unless that makes no difference to the credentials.
   */
  lemma AnswerMatchesExactly(s: Store, config: Config, user: Option<string>, db: Option<string>, ok: bool)
    requires Sound(s) && AllGenuine(s, config)
    ensures var (s', r) := Get(s, config, user, db, ok); var key := NewConnectionKey(user, db);
      && (r.Ok? && key !in s.connections ==> Matches(s', config, r.value, user, db))
      && (key in s.connections ==>
           var o := s.opens[s.connections[key]];
           && s' == s && r == Ok(s.connections[key])
           && (Matches(s, config, r.value, user, db) <==>
                (Named(db) == Named(o.db)) && (Named(user) == Named(o.user) || EmptyUserIsServer(config))))
  {
    var key := NewConnectionKey(user, db);
    if key in s.connections {
      var o := s.opens[s.connections[key]];
      assert Genuine(o, config);
      assert o.db != db ==> Named(db) != Named(o.db);
    }
  }

  /** No empty name has been asked for so far. */
  ghost predicate AllNamed(s: Store) {
    forall h :: 0 <= h < |s.opens| ==> Named(s.opens[h].user) && Named(s.opens[h].db)
  }

  /** With names that are not empty every answer matches its question, over all calls. */
  lemma AnswersMatch(s: Store, config: Config, user: Option<string>, db: Option<string>, ok: bool)
    requires Sound(s) && AllGenuine(s, config) && AllNamed(s) && Named(user) && Named(db)
    ensures var (s', r) := Get(s, config, user, db, ok);
      AllGenuine(s', config) && AllNamed(s') && (r.Ok? ==> Matches(s', config, r.value, user, db))
  {
    AnswerMatchesExactly(s, config, user, db, ok);
  }

  /** A cached answer in a store without empty names: wrong for an empty database name, and for an empty user name unless that has the server's credentials. */
  lemma EmptyNamesConflated(s: Store, config: Config, user: Option<string>, db: Option<string>, ok: bool)
    requires Sound(s) && AllGenuine(s, config) && AllNamed(s) && NewConnectionKey(user, db) in s.connections
    ensures var (s', r) := Get(s, config, user, db, ok);
      s' == s && r.Ok? && (Matches(s, config, r.value, user, db) <==> Named(db) && (Named(user) || EmptyUserIsServer(config)))
  {
    AnswerMatchesExactly(s, config, user, db, ok);
  }

  const EMPTY_STORE := Store(map[], [], {}, 0)

  /** An empty database name first, and the question without a database is answered wrongly. */
  lemma EmptyDatabaseFirst(config: Config)
    ensures var s := Get(EMPTY_STORE, config, None, Some(""), true).0;
      var r := Get(s, config, None, None, true).1;
      r == Ok(0) && !Matches(s, config, 0, None, None)
  {
  }

  /** An empty user name second, and it is handed the server's own connection although it has no credentials. */
  lemma EmptyUserSecond(config: Config)
    requires "" !in config.userCredentials
    ensures var s := Get(EMPTY_STORE, config, None, None, true).0;
      var r := Get(s, config, Some(""), None, true).1;
      r == Ok(0) && !Matches(s, config, 0, Some(""), None)
  {
  }

  /** A question that is not cached is answered exactly when the user has credentials and the server accepts them. */
  lemma OpensExactly(s: Store, config: Config, user: Option<string>, db: Option<string>, ok: bool)
    requires NewConnectionKey(user, db) !in s.connections
    ensures var (s', r) := Get(s, config, user, db, ok);
      && (r == Err(NoCredentials) <==> user.Some? && user.value !in config.userCredentials)
      && (r.Ok? <==> ok && (user.None? || user.value in config.userCredentials))
      && (if r.Ok? then |s'.opens| == |s.opens| + 1 && r.value == |s.opens| else s' == s)
  {
  }

  /** Asking again opens nothing and answers the same. */
  lemma SecondGetIsFree(s: Store, config: Config, user: Option<string>, db: Option<string>, ok: bool, again: bool)
    requires Get(s, config, user, db, ok).1.Ok?
    ensures var (s', r) := Get(s, config, user, db, ok); Get(s', config, user, db, again) == (s', r)
  {
  }
}
