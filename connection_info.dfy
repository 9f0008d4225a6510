/**
 * The connection details of a test database and the PostgreSQL key/value
 * connection string built from them: a fixed head of six settings, then the
 * three TLS file settings when a server root CA is configured, then the
 * pool size when it is positive.
 */
module ConnectionInfo {
  import opened Strings

  /** Go's `int32`. */
  newtype Int32 = x: int | -0x8000_0000 <= x < 0x8000_0000

  datatype DatabaseTLSConfig = DatabaseTLSConfig(
    mode: string,
    serverRootCAPath: string,
    clientCertPath: string,
    clientKeyPath: string)

  datatype DatabaseConnectionInfo = DatabaseConnectionInfo(
    hostName: string,
    port: int,
    hostNameDocker: string,
    portDocker: int,
    databaseName: string,
    poolMaxConn: Int32,
    ownerUser: string,
    ownerPassword: string,
    tlsConfig: DatabaseTLSConfig)

  /** `NewDatabaseConnectionInfo`: every argument lands in its own field, unchanged. */
  function NewDatabaseConnectionInfo(
    hostName: string, port: int, hostNameDocker: string, portDocker: int, databaseName: string,
    poolMaxConn: Int32, ownerUser: string, ownerPassword: string, tlsConfig: DatabaseTLSConfig
  ): (c: DatabaseConnectionInfo)
    ensures c.hostName == hostName && c.port == port
    ensures c.hostNameDocker == hostNameDocker && c.portDocker == portDocker
    ensures c.databaseName == databaseName && c.poolMaxConn == poolMaxConn
    ensures c.ownerUser == ownerUser && c.ownerPassword == ownerPassword
    ensures c.tlsConfig == tlsConfig
  {
    DatabaseConnectionInfo(hostName, port, hostNameDocker, portDocker, databaseName,
                           poolMaxConn, ownerUser, ownerPassword, tlsConfig)
  }

  /** The six settings every connection string starts with. */
  function HeadSettings(c: DatabaseConnectionInfo): seq<string> {
    ["host=" + c.hostName, "user=" + c.ownerUser, "password=" + c.ownerPassword,
     "port=" + IntToString(c.port), "database=" + c.databaseName, "sslmode=" + c.tlsConfig.mode]
  }

  /** The three TLS file settings. */
  function TlsSettings(c: DatabaseConnectionInfo): seq<string> {
    ["sslrootcert=" + c.tlsConfig.serverRootCAPath, "sslcert=" + c.tlsConfig.clientCertPath,
     "sslkey=" + c.tlsConfig.clientKeyPath]
  }

  /** The settings of the connection string, in the order they are written. */
  function Settings(c: DatabaseConnectionInfo): (s: seq<string>)
    ensures |s| == 6 + (if |c.tlsConfig.serverRootCAPath| > 0 then 3 else 0) + (if c.poolMaxConn > 0 then 1 else 0)
    ensures s[..6] == HeadSettings(c)
  {
    HeadSettings(c)
    + (if |c.tlsConfig.serverRootCAPath| > 0 then TlsSettings(c) else [])
    + (if c.poolMaxConn > 0 then ["pool_max_conns=" + IntToString(c.poolMaxConn as int)] else [])
  }

  /**
   * `PreparePostgreConnectionString`: builds the string piece by piece and
   * ends with the settings separated by single spaces. The head, one format
   * call in the source, is written here as its six settings appended in turn.
   */
  method PreparePostgreConnectionString(c: DatabaseConnectionInfo) returns (dbURI: string)
    ensures dbURI == Join(Settings(c), ' ')
  {
    ghost var h := HeadSettings(c);
    dbURI := "host=" + c.hostName;
    ghost var written := [dbURI];
    dbURI := AppendSetting(dbURI, written, "user=" + c.ownerUser);
    written := written + ["user=" + c.ownerUser];
    dbURI := AppendSetting(dbURI, written, "password=" + c.ownerPassword);
    written := written + ["password=" + c.ownerPassword];
    dbURI := AppendSetting(dbURI, written, "port=" + IntToString(c.port));
    written := written + ["port=" + IntToString(c.port)];
    dbURI := AppendSetting(dbURI, written, "database=" + c.databaseName);
    written := written + ["database=" + c.databaseName];
    dbURI := AppendSetting(dbURI, written, "sslmode=" + c.tlsConfig.mode);
    written := written + ["sslmode=" + c.tlsConfig.mode];
    assert written == h;
    if |c.tlsConfig.serverRootCAPath| > 0 {
      dbURI := AppendSetting(dbURI, written, "sslrootcert=" + c.tlsConfig.serverRootCAPath);
      written := written + ["sslrootcert=" + c.tlsConfig.serverRootCAPath];
    }
    if |c.tlsConfig.serverRootCAPath| > 0 {
      dbURI := AppendSetting(dbURI, written, "sslcert=" + c.tlsConfig.clientCertPath);
      written := written + ["sslcert=" + c.tlsConfig.clientCertPath];
    }
    if |c.tlsConfig.serverRootCAPath| > 0 {
      dbURI := AppendSetting(dbURI, written, "sslkey=" + c.tlsConfig.clientKeyPath);
      written := written + ["sslkey=" + c.tlsConfig.clientKeyPath];
    }
    if c.poolMaxConn > 0 {
      dbURI := AppendSetting(dbURI, written, "pool_max_conns=" + IntToString(c.poolMaxConn as int));
      written := written + ["pool_max_conns=" + IntToString(c.poolMaxConn as int)];
    }
    assert written == Settings(c);
  }

  /** `dbURI += " " + setting`: the string written so far gets one more setting. */
  method AppendSetting(dbURI: string, ghost written: seq<string>, setting: string) returns (r: string)
    requires |written| >= 1 && dbURI == Join(written, ' ')
    ensures r == Join(written + [setting], ' ')
  {
    JoinSnoc(written, ' ', setting);
    r := dbURI + " " + setting;
  }

  /** Every connection string starts with its six head settings. */
  lemma ConnectionStringStartsWithHead(c: DatabaseConnectionInfo)
    ensures HasPrefix(Join(Settings(c), ' '), Join(HeadSettings(c), ' '))
  {
    var s := Settings(c);
    var h := HeadSettings(c);
    var i := 6;
    while i < |s|
      invariant 6 <= i <= |s|
      invariant HasPrefix(Join(s[..i], ' '), Join(h, ' '))
    {
      JoinSnoc(s[..i], ' ', s[i]);
      assert s[..i + 1] == s[..i] + [s[i]];
      i := i + 1;
    }
    assert s[..|s|] == s;
  }

  /** A text whose `k`-th character differs from the prefix's does not start with it. */
  lemma DiffersAt(x: string, p: string, k: nat)
    requires k < |p| && k < |x| && x[k] != p[k]
    ensures !HasPrefix(x, p)
  {
  }

  /**
   * The TLS settings appear exactly when a server root CA path is set, and
   * then all three of them, right after the head.
   */
  lemma TlsSettingsIffRootCA(c: DatabaseConnectionInfo)
    ensures |c.tlsConfig.serverRootCAPath| > 0 ==> Settings(c)[6..9] == TlsSettings(c)
    ensures |c.tlsConfig.serverRootCAPath| == 0 ==>
      forall i :: 0 <= i < |Settings(c)| ==> !HasPrefix(Settings(c)[i], "sslrootcert=")
  {
    var s := Settings(c);
    if |c.tlsConfig.serverRootCAPath| == 0 {
      forall i | 0 <= i < |s|
        ensures !HasPrefix(s[i], "sslrootcert=")
      {
        if i == 5 {
          DiffersAt(s[i], "sslrootcert=", 3);
        } else {
          DiffersAt(s[i], "sslrootcert=", 0);
        }
      }
    }
  }

  /** A pool size appears, as the last setting, exactly when it is positive. */
  lemma PoolSettingIffPositive(c: DatabaseConnectionInfo)
    ensures c.poolMaxConn > 0 ==> Settings(c)[|Settings(c)| - 1] == "pool_max_conns=" + IntToString(c.poolMaxConn as int)
    ensures c.poolMaxConn <= 0 ==>
      forall i :: 0 <= i < |Settings(c)| ==> !HasPrefix(Settings(c)[i], "pool_max_conns=")
  {
    var s := Settings(c);
    if c.poolMaxConn <= 0 {
      forall i | 0 <= i < |s|
        ensures !HasPrefix(s[i], "pool_max_conns=")
      {
        if i == 2 {
          DiffersAt(s[i], "pool_max_conns=", 1);
        } else if i == 3 {
          DiffersAt(s[i], "pool_max_conns=", 2);
        } else {
          DiffersAt(s[i], "pool_max_conns=", 0);
        }
      }
    }
  }

  /**
   * When no value holds a space, splitting the connection string on spaces
   * recovers the settings one by one.
   */
  lemma ConnectionStringSplits(c: DatabaseConnectionInfo)
    requires ' ' !in c.hostName && ' ' !in c.ownerUser && ' ' !in c.ownerPassword && ' ' !in c.databaseName
    requires ' ' !in c.tlsConfig.mode && ' ' !in c.tlsConfig.serverRootCAPath
    requires ' ' !in c.tlsConfig.clientCertPath && ' ' !in c.tlsConfig.clientKeyPath
    ensures Split(Join(Settings(c), ' '), ' ') == Settings(c)
  {
    var s := Settings(c);
    IntToStringHasNo(c.port, ' ');
    IntToStringHasNo(c.poolMaxConn as int, ' ');
    forall i | 0 <= i < |s|
      ensures ' ' !in s[i]
    {
    }
    SplitJoin(s, ' ');
  }
}
