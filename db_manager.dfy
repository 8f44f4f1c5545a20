/** The database manager (core/DbManager.php): DSN construction for the
    connection parameters, named connections, the repository-to-connection
    map and the cache of repositories. A PDO connection is represented by
    the arguments it was opened with. */
module DbManagers {
  import opened Wrappers
  import opened PhpStrings
  import opened PhpArrays
  import opened PhpValues

  /** The `$params` array given to `connect`. */
  type ConnectionParams = OMap<string, Value>

  /** `connect`'s defaults for missing parameters (`options` is left out). */
  const DefaultParams: ConnectionParams :=
    [("driver", Null), ("dbname", Str("")), ("host", Str("")), ("port", Str("")), ("user", Str("")), ("password", Str(""))]

  /** A PDO instance: `new PDO($dsn, $user, $password)`. */
  datatype Connection = Connection(dsn: string, user: Value, password: Value)

  /** A repository instance: `new <name>Repository($pdo)`; `false` (no
      connection) is None. */
  datatype Repository = Repository(className: string, connection: Option<Connection>)

  /** `$params[$key]`, null when missing. */
  function Param(params: ConnectionParams, key: string): Value
  {
    Get(params, key).GetOr(Null)
  }

  /** `array_merge($base, $over)` for string keys: `over`'s entries replace
      `base`'s in place, new keys are appended. */
  function Merge(base: ConnectionParams, over: ConnectionParams): ConnectionParams
    decreases |over|
  {
    if over == [] then base else Merge(Put(base, over[0].0, over[0].1), over[1..])
  }

  /** A merged parameter comes from `over` when `over` has it, else from `base`. */
  lemma {:induction false} MergeGet(base: ConnectionParams, over: ConnectionParams, key: string)
    requires UniqueKeys(over)
    decreases |over|
    ensures Get(Merge(base, over), key) == if HasKey(over, key) then Get(over, key) else Get(base, key)
  {
    if over != [] {
      var rest := over[1..];
      assert UniqueKeys(rest) by {
        forall i, j | 0 <= i < j < |rest| ensures rest[i].0 != rest[j].0 {
          assert rest[i] == over[i + 1] && rest[j] == over[j + 1];
        }
      }
      MergeGet(Put(base, over[0].0, over[0].1), rest, key);
      if key == over[0].0 {
        PutGetSame(base, key, over[0].1);
        assert !HasKey(rest, key) by {
          forall t | 0 <= t < |rest| ensures rest[t].0 != key {
            assert rest[t] == over[t + 1];
          }
        }
        IndexOfKeyAt(over, key, 0);
      } else {
        PutGetOther(base, over[0].0, over[0].1, key);
        assert HasKey(over, key) <==> HasKey(rest, key) by {
          if HasKey(over, key) {
            var t := IndexOfKey(over, key);
            assert rest[t - 1] == over[t];
          }
          if HasKey(rest, key) {
            var t := IndexOfKey(rest, key);
            assert over[t + 1] == rest[t];
          }
        }
        if HasKey(rest, key) {
          var t := IndexOfKey(rest, key);
          IndexOfKeyAt(over, key, t + 1);
        }
      }
    }
  }

  /** A parameter the caller leaves out takes its default. */
  lemma MissingParamDefaults(params: ConnectionParams, key: string)
    requires UniqueKeys(params) && !HasKey(params, key)
    ensures Param(Merge(DefaultParams, params), key) == Param(DefaultParams, key)
    ensures key == "driver" ==> Param(Merge(DefaultParams, params), key) == Null
    ensures key != "driver" && HasKey(DefaultParams, key) ==> Param(Merge(DefaultParams, params), key) == Str("")
  {
    MergeGet(DefaultParams, params, key);
    DefaultParamValues(key);
  }

  /** The default of each parameter: null for the driver, `''` for the others. */
  lemma DefaultParamValues(key: string)
    ensures key == "driver" ==> Param(DefaultParams, key) == Null
    ensures key != "driver" && HasKey(DefaultParams, key) ==> Param(DefaultParams, key) == Str("")
  {
    var d := DefaultParams;
    if key == d[0].0 {
      IndexOfKeyAt(d, key, 0);
      assert Get(d, key) == Some(Null);
    } else if HasKey(d, key) {
      var i := IndexOfKey(d, key);
      assert 1 <= i < 6;
      if i == 1 { assert d[1].1 == Str(""); }
      else if i == 2 { assert d[2].1 == Str(""); }
      else if i == 3 { assert d[3].1 == Str(""); }
      else if i == 4 { assert d[4].1 == Str(""); }
      else { assert d[5].1 == Str(""); }
    }
  }

  /** The DSN `setMysqlDsn` writes before the port: `host` alone when the
      database name is empty (in PHP's `empty` sense), else `dbname` then `host`. */
  function MysqlDsnHead(params: ConnectionParams): string
  {
    var driver := Strval(Param(params, "driver"));
    var host := Strval(Param(params, "host"));
    if IsEmpty(Param(params, "dbname")) then driver + ":host=" + host
    else driver + ":dbname=" + Strval(Param(params, "dbname")) + ";host=" + host
  }

  /** The DSN `setMysqlDsn` writes for mysql and pgsql. */
  function MysqlDsn(params: ConnectionParams): string
  {
    var head := MysqlDsnHead(params);
    if !IsEmpty(Param(params, "port")) then head + ";port=" + Strval(Param(params, "port")) else head
  }

  /** The DSN `setSqliteDsn` writes. */
  function SqliteDsn(params: ConnectionParams): string
  {
    var driver := Strval(Param(params, "driver"));
    if IsEmpty(Param(params, "dbname")) then driver else driver + ":" + Strval(Param(params, "dbname"))
  }

  /** A mysql/pgsql DSN is its head followed by `;port=P` exactly when the
      port is not empty, and by nothing otherwise. */
  lemma MysqlDsnShape(params: ConnectionParams)
    ensures StartsWith(MysqlDsn(params), MysqlDsnHead(params))
    ensures IsEmpty(Param(params, "port")) <==> MysqlDsn(params) == MysqlDsnHead(params)
    ensures !IsEmpty(Param(params, "port")) ==>
      MysqlDsn(params)[|MysqlDsnHead(params)|..] == ";port=" + Strval(Param(params, "port"))
  {
    var head := MysqlDsnHead(params);
    if !IsEmpty(Param(params, "port")) {
      var tail := ";port=" + Strval(Param(params, "port"));
      assert MysqlDsn(params) == head + tail;
      AppendShape(head, tail);
    } else {
      AppendShape(head, "");
      assert head + "" == head;
    }
  }

  lemma AppendShape(head: string, tail: string)
    ensures StartsWith(head + tail, head) && (head + tail)[|head|..] == tail
    ensures |head + tail| == |head| + |tail|
  {
    assert (head + tail)[..|head|] == head;
  }

  /** Both DSNs ignore a `dsn` entry already in the parameters. */
  lemma DsnIgnoresDsn(params: ConnectionParams, v: Value)
    ensures MysqlDsn(Put(params, "dsn", v)) == MysqlDsn(params)
    ensures SqliteDsn(Put(params, "dsn", v)) == SqliteDsn(params)
  {
    var p := Put(params, "dsn", v);
    PutGetOther(params, "dsn", v, "driver");
    PutGetOther(params, "dsn", v, "dbname");
    PutGetOther(params, "dsn", v, "host");
    PutGetOther(params, "dsn", v, "port");
    assert Param(p, "driver") == Param(params, "driver");
    assert Param(p, "dbname") == Param(params, "dbname");
    assert Param(p, "host") == Param(params, "host");
    assert Param(p, "port") == Param(params, "port");
    assert MysqlDsnHead(p) == MysqlDsnHead(params);
  }

  /** `$driver === 'mysql' || $driver == 'pgsql'`. */
  predicate MysqlFamily(driver: Value)
  {
    driver == Str("mysql") || LooseEqualsString(driver, "pgsql")
  }

  /** Because of the loose `==`, boolean `true` selects the mysql/pgsql
      branch as well as the two driver names. */
  lemma MysqlFamilyValues(driver: Value)
    ensures MysqlFamily(driver) <==> driver == Str("mysql") || driver == Str("pgsql") || driver == Bool(true)
  {
    LooseEqualsNonEmpty(driver, "pgsql");
  }

  /** The DSN `connect` opens, or the message it dies with for an unknown driver. */
  function ConnectDsn(params: ConnectionParams): (r: Result<string, string>)
    ensures r.Err? <==> !MysqlFamily(Param(Merge(DefaultParams, params), "driver"))
                        && Param(Merge(DefaultParams, params), "driver") != Str("sqlite")
  {
    var merged := Merge(DefaultParams, params);
    var driver := Param(merged, "driver");
    if MysqlFamily(driver) then Ok(MysqlDsn(merged))
    else if driver == Str("sqlite") then Ok(SqliteDsn(merged))
    else Err("ERROR: Your database driver is invalid. " + Strval(driver))
  }

  /** A call without a driver dies before any connection is tried. */
  lemma NoDriverDies(params: ConnectionParams)
    requires UniqueKeys(params) && !HasKey(params, "driver")
    ensures ConnectDsn(params) == Err("ERROR: Your database driver is invalid. ")
  {
    MissingParamDefaults(params, "driver");
    var driver := Param(Merge(DefaultParams, params), "driver");
    assert driver == Null;
    MysqlFamilyValues(Null);
    assert !MysqlFamily(driver) && driver != Str("sqlite");
    var message := "ERROR: Your database driver is invalid. ";
    assert message + Strval(driver) == message;
    assert ConnectDsn(params) == Err(message + Strval(driver));
  }

  /** `repositories` after `get($name)`: the cached instance, or a new one
      made with the given connection and cached. */
  function CachedRepository(repositories: map<string, Repository>, name: string, connection: Option<Connection>): (r: (Repository, map<string, Repository>))
    ensures name in r.1 && r.0 == r.1[name]
    ensures name in repositories ==> r.1 == repositories
    ensures name !in repositories ==> r.1 == repositories[name := Repository(name + "Repository", connection)]
  {
    if name in repositories then (repositories[name], repositories)
    else
      var repository := Repository(name + "Repository", connection);
      (repository, repositories[name := repository])
  }

  /** `get` creates a repository once: a second `get` of the same name
      returns the same instance and changes nothing. */
  lemma RepositoryMemoized(repositories: map<string, Repository>, name: string, first: Option<Connection>, second: Option<Connection>)
    ensures var (r1, after) := CachedRepository(repositories, name, first);
      CachedRepository(after, name, second) == (r1, after)
  {
  }

  class DbManager {
    var connections: OMap<string, Connection>
    var repositoryConnectionMap: map<string, string>
    var repositories: map<string, Repository>

    constructor ()
      ensures connections == [] && repositoryConnectionMap == map[] && repositories == map[]
    {
      connections := [];
      repositoryConnectionMap := map[];
      repositories := map[];
    }

    /** `connect($name, $params)`: build the DSN and keep the connection under
        `name`; an unknown driver ends the request with a message. */
    method Connect(name: string, params: ConnectionParams) returns (r: Result<(), string>)
      modifies this`connections
      ensures ConnectDsn(params).Err? ==> r == Err(ConnectDsn(params).error) && connections == old(connections)
      ensures ConnectDsn(params).Ok? ==> r.Ok? && connections == Put(old(connections), name,
        Connection(ConnectDsn(params).value, Param(Merge(DefaultParams, params), "user"), Param(Merge(DefaultParams, params), "password")))
    {
      var defaulted := Merge(DefaultParams, params);
      var merged := Put(defaulted, "dsn", Param(defaulted, "driver"));
      PutGetOther(defaulted, "dsn", Param(defaulted, "driver"), "driver");
      PutGetOther(defaulted, "dsn", Param(defaulted, "driver"), "user");
      PutGetOther(defaulted, "dsn", Param(defaulted, "driver"), "password");
      DsnIgnoresDsn(defaulted, Param(defaulted, "driver"));
      var driver := Param(merged, "driver");
      var dsn: string;
      if MysqlFamily(driver) {
        var updated := SetMysqlDsn(merged);
        PutGetSame(merged, "dsn", Str(MysqlDsn(merged)));
        dsn := Strval(Param(updated, "dsn"));
        assert dsn == ConnectDsn(params).value;
      } else if driver == Str("sqlite") {
        var updated := SetSqliteDsn(merged);
        PutGetSame(merged, "dsn", Str(SqliteDsn(merged)));
        dsn := Strval(Param(updated, "dsn"));
      } else {
        return Err("ERROR: Your database driver is invalid. " + Strval(driver));
      }
      connections := Put(connections, name, Connection(dsn, Param(merged, "user"), Param(merged, "password")));
      return Ok(());
    }

    /** `setMysqlDsn(&$params)`. */
    static method SetMysqlDsn(params: ConnectionParams) returns (updated: ConnectionParams)
      ensures updated == Put(params, "dsn", Str(MysqlDsn(params)))
    {
      var driver := Strval(Param(params, "driver"));
      var dsn: string;
      if IsEmpty(Param(params, "dbname")) {
        dsn := driver + ":host=" + Strval(Param(params, "host"));
      } else {
        dsn := driver + ":dbname=" + Strval(Param(params, "dbname")) + ";host=" + Strval(Param(params, "host"));
      }
      if !IsEmpty(Param(params, "port")) {
        dsn := dsn + ";port=" + Strval(Param(params, "port"));
      }
      updated := Put(params, "dsn", Str(dsn));
    }

    /** `setSqliteDsn(&$params)`. */
    static method SetSqliteDsn(params: ConnectionParams) returns (updated: ConnectionParams)
      ensures updated == Put(params, "dsn", Str(SqliteDsn(params)))
    {
      var driver := Strval(Param(params, "driver"));
      if IsEmpty(Param(params, "dbname")) {
        updated := Put(params, "dsn", Str(driver));
      } else {
        updated := Put(params, "dsn", Str(driver + ":" + Strval(Param(params, "dbname"))));
      }
    }

    /** `getConnection($name)`: the named connection, or with no name the
        first one (`current` of an array never iterated); None for `false`
        or a missing name. */
    function GetConnection(name: Option<string> := None): (c: Option<Connection>)
      reads this
      ensures name.None? ==> c == if connections == [] then None else Some(connections[0].1)
      ensures name.Some? ==> c == PhpArrays.Get(connections, name.value)
    {
      match name
      case None => if connections == [] then None else Some(connections[0].1)
      case Some(n) => PhpArrays.Get(connections, n)
    }

    /** `setRepositoryConnectionMap($repository_name, $name)`. */
    method SetRepositoryConnectionMap(repositoryName: string, name: string)
      modifies this`repositoryConnectionMap
      ensures repositoryConnectionMap == old(repositoryConnectionMap)[repositoryName := name]
    {
      repositoryConnectionMap := repositoryConnectionMap[repositoryName := name];
    }

    /** `getConnectionForRepository($repository_name)`: the mapped connection,
        else the default one. */
    function GetConnectionForRepository(repositoryName: string): (c: Option<Connection>)
      reads this
      ensures repositoryName in repositoryConnectionMap ==> c == PhpArrays.Get(connections, repositoryConnectionMap[repositoryName])
      ensures repositoryName !in repositoryConnectionMap ==> c == GetConnection()
    {
      if repositoryName in repositoryConnectionMap then GetConnection(Some(repositoryConnectionMap[repositoryName]))
      else GetConnection()
    }

    /** `get($repository_name)` (also reached as `$db_manager->Name`). */
    method Get(repositoryName: string) returns (repository: Repository)
      modifies this`repositories
      ensures (repository, repositories) == CachedRepository(old(repositories), repositoryName, GetConnectionForRepository(repositoryName))
      ensures IsSet(repositoryName)
    {
      if repositoryName !in repositories {
        var repositoryClass := repositoryName + "Repository";
        var pdo := GetConnectionForRepository(repositoryName);
        repositories := repositories[repositoryName := Repository(repositoryClass, pdo)];
      }
      repository := repositories[repositoryName];
    }

    /** `__isset($name)`: a repository object is never null, so `isset`
        is presence in the cache. */
    function IsSet(name: string): (b: bool)
      reads this
      ensures b <==> name in repositories
    {
      name in repositories
    }

    /** `__unset($name)`: drop the cached repository. */
    method Unset(name: string)
      modifies this`repositories
      ensures repositories == old(repositories) - {name}
      ensures !IsSet(name)
    {
      repositories := repositories - {name};
    }
  }
}
