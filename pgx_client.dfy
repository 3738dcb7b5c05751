/**
 * Building the pool configuration (internal/pkg/pgx-client/pgx-client.go):
 * TLS mode selection, copying the validated client config into the pool
 * config that the pgx library parsed, and the front of `New` that applies
 * the options and validates before any pool exists.  The library's
 * `ParseConfig("")` reads the environment, so its outcome is an input.
 */
module PgxClient {
  import opened Wrappers
  import opened PgxClientConfig

  /** The part of `tls.Config` this package sets. */
  datatype TlsConfig = TlsConfig(insecureSkipVerify: bool)

  /** The connection half of the library's pool configuration. */
  class ConnConfig {
    var host: string
    var port: Uint16
    var user: string
    var password: string
    var database: string
    var tls: Option<TlsConfig>

    constructor(host: string, port: Uint16, user: string, password: string, database: string, tls: Option<TlsConfig>)
      ensures this.host == host && this.port == port && this.user == user
      ensures this.password == password && this.database == database && this.tls == tls
    {
      this.host, this.port, this.user, this.password, this.database, this.tls :=
        host, port, user, password, database, tls;
    }
  }

  /** The library's pool configuration; `conn` is the pointer it owns. */
  class PoolConfig {
    const conn: ConnConfig
    var maxConns: Int32
    var minConns: Int32
    var maxConnLifetime: int
    var maxConnIdleTime: int

    constructor(conn: ConnConfig, maxConns: Int32, minConns: Int32, life: int, idle: int)
      ensures this.conn == conn && this.maxConns == maxConns && this.minConns == minConns
      ensures this.maxConnLifetime == life && this.maxConnIdleTime == idle
    {
      this.conn, this.maxConns, this.minConns, this.maxConnLifetime, this.maxConnIdleTime :=
        conn, maxConns, minConns, life, idle;
    }
  }

  /** The TLS setting an `sslMode` selects: only the two exact strings
      "disable" and "require" are accepted. */
  function SelectTls(sslMode: string): (r: Result<Option<TlsConfig>, string>)
    ensures r.Success? <==> sslMode == "disable" || sslMode == "require"
    ensures r == Success(None) <==> sslMode == "disable"
    ensures r.Success? && r.value.Some? ==> r.value.value.insecureSkipVerify
    ensures r.Failure? ==> r.error == "unknown sslmode: " + sslMode
  {
    if sslMode == "disable" then Success(None)
    else if sslMode == "require" then Success(Some(TlsConfig(true)))
    else Failure("unknown sslmode: " + sslMode)
  }

  /** Neither a differently cased nor a padded mode is accepted. */
  lemma ModeMatchIsExact()
    ensures SelectTls("DISABLE").Failure? && SelectTls("Require").Failure?
    ensures SelectTls(" disable").Failure? && SelectTls("").Failure?
  {
    assert "DISABLE"[0] != "disable"[0] && "DISABLE"[0] != "require"[0];
    assert "Require"[0] != "require"[0] && "Require"[0] != "disable"[0];
    assert " disable"[0] != "disable"[0] && " disable"[0] != "require"[0];
  }

  /** `configureTLS`: sets the connection's TLS field or reports the mode. */
  method ConfigureTls(conn: ConnConfig, sslMode: string) returns (err: Option<string>)
    modifies conn
    ensures SelectTls(sslMode).Success? ==> err.None? && conn.tls == SelectTls(sslMode).value
    ensures SelectTls(sslMode).Failure? ==> err == Some(SelectTls(sslMode).error) && conn.tls == old(conn.tls)
    ensures conn.host == old(conn.host) && conn.port == old(conn.port) && conn.user == old(conn.user)
    ensures conn.password == old(conn.password) && conn.database == old(conn.database)
  {
    if sslMode == "disable" {
      conn.tls := None;
    } else if sslMode == "require" {
      conn.tls := Some(TlsConfig(true));
    } else {
      return Some("unknown sslmode: " + sslMode);
    }
    return None;
  }

  /** The connection fields carry the client config's values verbatim. */
  ghost predicate ConnCopied(cfg: Config, conn: ConnConfig)
    requires cfg.user.Some? && cfg.password.Some?
    reads conn
  {
    conn.host == cfg.host && conn.port == cfg.port && conn.user == cfg.user.value &&
    conn.password == cfg.password.value && conn.database == cfg.database
  }

  /** The pool bounds carry the client config's values verbatim. */
  ghost predicate PoolCopied(cfg: Config, pc: PoolConfig)
    reads pc
  {
    pc.maxConns == cfg.maxConns && pc.minConns == cfg.minConns &&
    pc.maxConnLifetime == cfg.maxConnLifeTime && pc.maxConnIdleTime == cfg.maxConnIdleTime
  }

  /** The objects a parsed pool configuration lets `createPGXConfig` write. */
  function Footprint(parsed: Result<PoolConfig, string>): set<object>
  {
    if parsed.Success? then {parsed.value, parsed.value.conn} else {}
  }

  /**
   * `createPGXConfig`.  User and password are dereferenced, so both must
   * be set (`New` validates first).  The connection fields are written
   * before the TLS mode is checked, so a bad mode leaves them overwritten
   * while the pool bounds keep the parsed values.
   */
  method CreatePgxConfig(cfg: Config, parsed: Result<PoolConfig, string>) returns (r: Result<PoolConfig, string>)
    requires cfg.user.Some? && cfg.password.Some?
    modifies Footprint(parsed)
    ensures parsed.Failure? ==> r == Failure(parsed.error)
    ensures parsed.Success? ==> ConnCopied(cfg, parsed.value.conn)
    ensures parsed.Success? && SelectTls(cfg.sslMode).Failure? ==>
      r == Failure("configure TLS: " + SelectTls(cfg.sslMode).error) &&
      unchanged(parsed.value) && parsed.value.conn.tls == old(parsed.value.conn.tls)
    ensures parsed.Success? && SelectTls(cfg.sslMode).Success? ==>
      r == Success(parsed.value) && PoolCopied(cfg, parsed.value) && parsed.value.conn.tls == SelectTls(cfg.sslMode).value
  {
    if parsed.Failure? {
      return Failure(parsed.error);
    }
    var pc := parsed.value;
    pc.conn.host := cfg.host;
    pc.conn.port := cfg.port;
    pc.conn.user := cfg.user.value;
    pc.conn.password := cfg.password.value;
    pc.conn.database := cfg.database;
    var err := ConfigureTls(pc.conn, cfg.sslMode);
    if err.Some? {
      return Failure("configure TLS: " + err.value);
    }
    pc.maxConns := cfg.maxConns;
    pc.minConns := cfg.minConns;
    pc.maxConnLifetime := cfg.maxConnLifeTime;
    pc.maxConnIdleTime := cfg.maxConnIdleTime;
    return Success(pc);
  }

  /**
   * The front of `New`: options over the defaults, then `valid`, then
   * `createPGXConfig`.  The result is the pool configuration that would be
   * handed to the pool constructor; nothing is touched when validation fails.
   */
  method New(opts: seq<PgxOption>, parsed: Result<PoolConfig, string>) returns (r: Result<PoolConfig, string>)
    modifies Footprint(parsed)
    ensures Valid(ApplyAll(DefaultConfig(), opts)).Some? ==>
      r == Failure("invalid config: " + Valid(ApplyAll(DefaultConfig(), opts)).value) &&
      (parsed.Success? ==> unchanged(parsed.value, parsed.value.conn))
    ensures Valid(ApplyAll(DefaultConfig(), opts)).None? && parsed.Failure? ==>
      r == Failure("parse config: " + parsed.error)
    ensures Valid(ApplyAll(DefaultConfig(), opts)).None? && parsed.Success? ==>
      var cfg := ApplyAll(DefaultConfig(), opts);
      ConnCopied(cfg, parsed.value.conn) &&
      (SelectTls(cfg.sslMode).Failure? ==> r == Failure("parse config: configure TLS: " + SelectTls(cfg.sslMode).error)) &&
      (SelectTls(cfg.sslMode).Success? ==> r == Success(parsed.value) && PoolCopied(cfg, parsed.value))
  {
    var cfg := DefaultConfig();
    var i := 0;
    while i < |opts|
      invariant 0 <= i <= |opts|
      invariant cfg == ApplyAll(DefaultConfig(), opts[..i])
    {
      assert opts[..i + 1][..i] == opts[..i];
      cfg := Apply(cfg, opts[i]);
      i := i + 1;
    }
    assert opts[..i] == opts;
    var invalid := Valid(cfg);
    if invalid.Some? {
      return Failure("invalid config: " + invalid.value);
    }
    var created := CreatePgxConfig(cfg, parsed);
    if created.Failure? {
      if parsed.Success? {
        PrefixesJoin(SelectTls(cfg.sslMode).error);
      }
      return Failure("parse config: " + created.error);
    }
    return created;
  }

  lemma PrefixesJoin(e: string)
    ensures "parse config: " + ("configure TLS: " + e) == "parse config: configure TLS: " + e
  {
  }

  /** A port option of 65536 never reaches the pool: it wraps to 0 and is refused. */
  lemma WrappedPortRefused(u: string, p: string)
    ensures Valid(ApplyAll(DefaultConfig(), [WithUser(u), WithPassword(p), WithPort(65536)])) == Some("invalid port")
  {
    var opts := [WithUser(u), WithPassword(p), WithPort(65536)];
    assert opts[..2][..1] == [WithUser(u)] && opts[..2][..1][..0] == [];
    assert ApplyAll(DefaultConfig(), [WithUser(u)]) == DefaultConfig().(user := Some(u));
    assert ApplyAll(DefaultConfig(), opts[..2]) == DefaultConfig().(user := Some(u), password := Some(p));
    assert opts[..|opts| - 1] == opts[..2];
  }
}
