/**
 * Database configuration helpers: extracting a numeric id from a resource
 * name such as "remotes/123/antennas/234", and the PostgreSQL key/value
 * connection string.
 */
module DbConfig {
  import opened Wrappers
  import opened Strings

  // ---------------------------------------------------------------------------
  // Resource names

  datatype ResourceIdError =
    | PartCountMismatch(actual: nat)
    | IndexOutOfParts
    | NotAnInteger

  /** What `ResourceNameToID` does: an id and an error, or an index panic. */
  datatype IdOutcome = Id(id: int, err: Option<ResourceIdError>) | IndexPanic

  const MaxUint64: int := 0xFFFF_FFFF_FFFF_FFFF

  /** Go's `int(u)` for a `uint` on a 64-bit platform: values from 2^63 up wrap to negatives. */
  function UintToInt(u: nat): (r: int)
    requires u <= MaxUint64
    ensures MinInt64 <= r <= MaxInt64
    ensures r >= 0 <==> u <= MaxInt64
    ensures r >= 0 ==> r == u
  {
    if u <= MaxInt64 then u else u - (MaxUint64 + 1)
  }

  /**
   * `ResourceNameToID`: the empty name is id 0; otherwise the name must
   * split on '/' into exactly `maxNumParts` parts and the part at
   * `targetFieldIndex` must be a 64-bit decimal integer, else -1 and an
   * error. An index of 2^63 or more passes the bound check as a negative
   * `int` and then indexes out of range.
   */
  function ResourceNameToID(name: string, targetFieldIndex: nat, maxNumParts: int): (r: IdOutcome)
    requires targetFieldIndex <= MaxUint64
    ensures name == "" ==> r == Id(0, None)
    ensures name != "" && |Split(name, '/')| != maxNumParts ==> r == Id(-1, Some(PartCountMismatch(|Split(name, '/')|)))
    ensures r.IndexPanic? <==>
      name != "" && |Split(name, '/')| == maxNumParts && MaxInt64 < targetFieldIndex && |Split(name, '/')| <= targetFieldIndex
    ensures r.Id? && r.err.None? ==>
      (r.id == 0 && name == "") ||
      (targetFieldIndex < |Split(name, '/')| && ParseInt64(Split(name, '/')[targetFieldIndex]) == Some(r.id))
    ensures r.Id? && r.err.Some? ==> r.id == -1
  {
    if name == "" then Id(0, None)
    else
      var parts := Split(name, '/');
      if |parts| != maxNumParts then Id(-1, Some(PartCountMismatch(|parts|)))
      else if UintToInt(targetFieldIndex) >= |parts| then Id(-1, Some(IndexOutOfParts))
      else if targetFieldIndex >= |parts| then IndexPanic
      else match ParseInt64(parts[targetFieldIndex])
        case None => Id(-1, Some(NotAnInteger))
        case Some(id) => Id(id, None)
  }

  /**
   * Writing an id into one segment of a '/'-separated name and extracting
   * it again gives the id back.
   */
  lemma ResourceNameRoundTrip(parts: seq<string>, k: nat, id: int)
    requires k < |parts| && k <= MaxInt64 && parts[k] == IntToString(id) && MinInt64 <= id <= MaxInt64
    requires forall i :: 0 <= i < |parts| ==> '/' !in parts[i]
    ensures ResourceNameToID(Join(parts, '/'), k, |parts|) == Id(id, None)
  {
    var name := Join(parts, '/');
    SplitJoin(parts, '/');
    ParseIntToString(id);
  }

  /** The documented example: ("remotes/123", 1, 2) is id 123. */
  lemma ResourceNameExample()
    ensures ResourceNameToID("remotes/123", 1, 2) == Id(123, None)
  {
    var parts := ["remotes", "123"];
    assert Join(parts, '/') == "remotes/123";
    assert NatToString(123) == "123" by {
      assert NatToString(1) == "1";
      assert NatToString(12) == "12";
    }
    ResourceNameRoundTrip(parts, 1, 123);
  }

  // ---------------------------------------------------------------------------
  // PostgreSQL connection string

  datatype SslConfig = SslConfig(sslMode: string, sslCertPath: string, sslKeyPath: string, sslRootCert: string)

  /** The connection fields `PostgresConnDefault` reads. */
  datatype DbConfigValues = DbConfigValues(user: string, pass: string, host: string, port: int, database: string, ssl: SslConfig)

  const DefaultPostgreSslMode: string := "disable"

  /** The SSL mode written into the string: the configured one, `disable` when unset. */
  function EffectiveSslMode(c: DbConfigValues): (m: string)
    ensures m != ""
    ensures c.ssl.sslMode != "" ==> m == c.ssl.sslMode
  {
    if c.ssl.sslMode == "" then DefaultPostgreSslMode else c.ssl.sslMode
  }

  /** The nine `key=value` settings, in the order they are written. */
  function PostgresSettings(c: DbConfigValues): seq<string> {
    ["host=" + c.host, "port=" + IntToString(c.port), "user=" + c.user, "password=" + c.pass,
     "dbname=" + c.database, "sslmode=" + EffectiveSslMode(c), "sslcert=" + c.ssl.sslCertPath,
     "sslkey=" + c.ssl.sslKeyPath, "sslrootcert=" + c.ssl.sslRootCert]
  }

  /** `PostgresConnDefault`: the settings separated by single spaces. */
  function PostgresConnDefault(c: DbConfigValues): (r: string)
    ensures HasPrefix(r, "host=" + c.host + " port=")
  {
    var s := PostgresSettings(c);
    assert Join(s, ' ') == s[0] + [' '] + Join(s[1..], ' ');
    assert Join(s[1..], ' ') == s[1] + [' '] + Join(s[2..], ' ');
    assert s[2..][1..] == s[3..];
    Join(s, ' ')
  }

  /** An unset SSL mode behaves exactly like an explicit `disable`. */
  lemma EmptySslModeIsDisable(c: DbConfigValues)
    requires c.ssl.sslMode == ""
    ensures PostgresConnDefault(c) == PostgresConnDefault(c.(ssl := c.ssl.(sslMode := "disable")))
    ensures "sslmode=disable" in PostgresSettings(c)
  {
    assert PostgresSettings(c)[5] == "sslmode=disable";
  }

  /**
   * When no value holds a space, splitting the string on spaces recovers
   * the nine settings, so a key/value reader sees each value as given.
   */
  lemma PostgresConnSplits(c: DbConfigValues)
    requires ' ' !in c.host && ' ' !in c.user && ' ' !in c.pass && ' ' !in c.database
    requires ' ' !in c.ssl.sslMode && ' ' !in c.ssl.sslCertPath && ' ' !in c.ssl.sslKeyPath && ' ' !in c.ssl.sslRootCert
    ensures Split(PostgresConnDefault(c), ' ') == PostgresSettings(c)
  {
    var s := PostgresSettings(c);
    IntToStringHasNo(c.port, ' ');
    forall i | 0 <= i < |s|
      ensures ' ' !in s[i]
    {
    }
    SplitJoin(s, ' ');
  }
}
