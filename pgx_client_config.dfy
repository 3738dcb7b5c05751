/**
 * Configuration of the Postgres client (internal/pkg/pgx-client/config.go
 * and options.go): the defaults, the validity rules and the functional
 * options, two of which truncate through Go integer conversions.
 * Durations are nanoseconds.
 */
module PgxClientConfig {
  import opened Wrappers

  const Second: int := 1_000_000_000
  const Minute: int := 60 * Second
  const Hour: int := 60 * Minute

  type Uint16 = x: int | 0 <= x < 0x1_0000
  type Int32 = x: int | -0x8000_0000 <= x < 0x8000_0000

  /** Go's `uint16(x)`: the low 16 bits. */
  function ToUint16(x: int): (r: Uint16)
    ensures (r - x) % 0x1_0000 == 0
    ensures 0 <= x < 0x1_0000 ==> r == x
  {
    x % 0x1_0000
  }

  /** Go's `int32(x)`: the low 32 bits read as two's complement. */
  function ToInt32(x: int): (r: Int32)
    ensures (r - x) % 0x1_0000_0000 == 0
    ensures -0x8000_0000 <= x < 0x8000_0000 ==> r == x
  {
    (x + 0x8000_0000) % 0x1_0000_0000 - 0x8000_0000
  }

  datatype Config = Config(
    host: string, port: Uint16, user: Option<string>, password: Option<string>,
    database: string, sslMode: string, connectTimeout: int,
    maxConns: Int32, minConns: Int32, maxConnLifeTime: int, maxConnIdleTime: int)

  /** `defaultConfig`: no user and no password. */
  function DefaultConfig(): (c: Config)
    ensures c.user.None? && c.password.None?
  {
    Config("localhost", 5432, None, None, "postgres", "disable", 5 * Second, 10, 2, 2 * Hour, 15 * Minute)
  }

  /** `config.valid`: user, password, port, then the connection bounds; the
      first failing check is reported.  Host, database, TLS mode and timeouts
      are not checked. */
  function Valid(c: Config): (err: Option<string>)
    ensures err.None? <==>
      c.user.Some? && c.password.Some? && c.port != 0 && c.maxConns >= 1 && 0 <= c.minConns <= c.maxConns
    ensures c.user.None? ==> err == Some("user is required")
    ensures c.user.Some? && c.password.None? ==> err == Some("password is required")
    ensures c.user.Some? && c.password.Some? && c.port == 0 ==> err == Some("invalid port")
    ensures c.user.Some? && c.password.Some? && c.port != 0 && c.maxConns < 1 ==>
      err == Some("maxConns must be >= 1")
    ensures c.user.Some? && c.password.Some? && c.port != 0 && c.maxConns >= 1 && c.minConns < 0 ==>
      err == Some("minConns must be >= 0")
    ensures c.user.Some? && c.password.Some? && c.port != 0 && c.maxConns >= 1 && 0 <= c.minConns &&
            c.minConns > c.maxConns ==>
      err == Some("minConns must be <= maxConns")
  {
    if c.user.None? then Some("user is required")
    else if c.password.None? then Some("password is required")
    else if c.port == 0 then Some("invalid port")
    else if c.maxConns < 1 then Some("maxConns must be >= 1")
    else if c.minConns < 0 then Some("minConns must be >= 0")
    else if c.minConns > c.maxConns then Some("minConns must be <= maxConns")
    else None
  }

  /** Fields `valid` ignores can be anything, an empty host included. */
  lemma UncheckedFields(c: Config, host: string, database: string, sslMode: string, t: int, life: int, idle: int)
    ensures Valid(c.(host := host, database := database, sslMode := sslMode, connectTimeout := t,
                     maxConnLifeTime := life, maxConnIdleTime := idle)) == Valid(c)
  {
  }

  /** The defaults need both a user and a password, and nothing else. */
  lemma DefaultsNeedCredentials(u: string, p: string)
    ensures Valid(DefaultConfig()) == Some("user is required")
    ensures Valid(DefaultConfig().(user := Some(u))) == Some("password is required")
    ensures Valid(DefaultConfig().(user := Some(u), password := Some(p))) == None
  {
  }

  // ------------------------------------------------------------- options

  datatype PgxOption =
    | WithHost(host: string) | WithPort(port: int) | WithUser(user: string) | WithPassword(password: string)
    | WithDatabase(database: string) | WithSSL(sslMode: string) | WithConnectionTimeout(timeout: int)
    | WithMaxConns(maxConns: int) | WithMinConns(minConns: int)
    | WithMaxConnLifetime(lifetime: int) | WithMaxConnIdletime(idleTime: int)

  /** One option's assignment through the config pointer. */
  function Apply(c: Config, o: PgxOption): (r: Config)
    ensures forall f :: Get(r, f) == if f == Target(o) then Written(o) else Get(c, f)
  {
    match o
    case WithHost(v) => c.(host := v)
    case WithPort(v) => c.(port := ToUint16(v))
    case WithUser(v) => c.(user := Some(v))
    case WithPassword(v) => c.(password := Some(v))
    case WithDatabase(v) => c.(database := v)
    case WithSSL(v) => c.(sslMode := v)
    case WithConnectionTimeout(v) => c.(connectTimeout := v)
    case WithMaxConns(v) => c.(maxConns := ToInt32(v))
    case WithMinConns(v) => c.(minConns := ToInt32(v))
    case WithMaxConnLifetime(v) => c.(maxConnLifeTime := v)
    case WithMaxConnIdletime(v) => c.(maxConnIdleTime := v)
  }

  function ApplyAll(c: Config, opts: seq<PgxOption>): Config
  {
    if opts == [] then c else Apply(ApplyAll(c, opts[..|opts| - 1]), opts[|opts| - 1])
  }

  datatype Field = Host | Port | User | Password | Database | SslMode | ConnectTimeout
                 | MaxConns | MinConns | MaxConnLifeTime | MaxConnIdleTime

  datatype Value = Text(s: string) | MaybeText(o: Option<string>) | Number(n: int)

  function Get(c: Config, f: Field): Value
  {
    match f
    case Host => Text(c.host)
    case Port => Number(c.port)
    case User => MaybeText(c.user)
    case Password => MaybeText(c.password)
    case Database => Text(c.database)
    case SslMode => Text(c.sslMode)
    case ConnectTimeout => Number(c.connectTimeout)
    case MaxConns => Number(c.maxConns)
    case MinConns => Number(c.minConns)
    case MaxConnLifeTime => Number(c.maxConnLifeTime)
    case MaxConnIdleTime => Number(c.maxConnIdleTime)
  }

  function Target(o: PgxOption): Field
  {
    match o
    case WithHost(_) => Host
    case WithPort(_) => Port
    case WithUser(_) => User
    case WithPassword(_) => Password
    case WithDatabase(_) => Database
    case WithSSL(_) => SslMode
    case WithConnectionTimeout(_) => ConnectTimeout
    case WithMaxConns(_) => MaxConns
    case WithMinConns(_) => MinConns
    case WithMaxConnLifetime(_) => MaxConnLifeTime
    case WithMaxConnIdletime(_) => MaxConnIdleTime
  }

  /** The value an option stores, after its conversion. */
  function Written(o: PgxOption): Value
  {
    match o
    case WithHost(v) => Text(v)
    case WithPort(v) => Number(ToUint16(v))
    case WithUser(v) => MaybeText(Some(v))
    case WithPassword(v) => MaybeText(Some(v))
    case WithDatabase(v) => Text(v)
    case WithSSL(v) => Text(v)
    case WithConnectionTimeout(v) => Number(v)
    case WithMaxConns(v) => Number(ToInt32(v))
    case WithMinConns(v) => Number(ToInt32(v))
    case WithMaxConnLifetime(v) => Number(v)
    case WithMaxConnIdletime(v) => Number(v)
  }

  /** Each option writes exactly its own field and leaves every other one. */
  lemma ApplySetsOneField(c: Config, o: PgxOption, f: Field)
    ensures Get(Apply(c, o), f) == if f == Target(o) then Written(o) else Get(c, f)
  {
  }

  lemma {:induction false} LastWriteWins(c: Config, opts: seq<PgxOption>, f: Field, i: int)
    requires -1 <= i < |opts|
    requires i >= 0 ==> Target(opts[i]) == f
    requires forall j :: i < j < |opts| ==> Target(opts[j]) != f
    ensures Get(ApplyAll(c, opts), f) == if i >= 0 then Written(opts[i]) else Get(c, f)
  {
    if opts != [] {
      var p := opts[..|opts| - 1];
      ApplySetsOneField(ApplyAll(c, p), opts[|opts| - 1], f);
      if i < |opts| - 1 {
        LastWriteWins(c, p, f, i);
      }
    }
  }

  /** Port 65536 wraps to 0, which `valid` then refuses; 70000 wraps to 4464. */
  lemma PortWrapsAround(c: Config, u: string, p: string)
    ensures Apply(c, WithPort(65536)).port == 0
    ensures Apply(c, WithPort(70000)).port == 4464
    ensures Apply(c, WithPort(-1)).port == 65535
    ensures Valid(Apply(c, WithPort(65536)).(user := Some(u), password := Some(p))) == Some("invalid port")
  {
  }

  /** A connection count of 2^31 wraps to a negative `int32`, which `valid` refuses. */
  lemma ConnsWrapAround(c: Config)
    ensures Apply(c, WithMaxConns(0x8000_0000)).maxConns == -0x8000_0000
    ensures Apply(c, WithMinConns(0x1_0000_0005)).minConns == 5
    ensures var d := Apply(c, WithMaxConns(0x8000_0000));
      d.user.Some? && d.password.Some? && d.port != 0 ==> Valid(d) == Some("maxConns must be >= 1")
  {
  }

  function FieldIndex(f: Field): nat
  {
    match f
    case Host => 0 case Port => 1 case User => 2 case Password => 3 case Database => 4
    case SslMode => 5 case ConnectTimeout => 6 case MaxConns => 7 case MinConns => 8
    case MaxConnLifeTime => 9 case MaxConnIdleTime => 10
  }

  lemma FieldsDetermineConfig(a: Config, b: Config)
    requires forall f :: Get(a, f) == Get(b, f)
    ensures a == b
  {
    assert Get(a, Host) == Get(b, Host) && Get(a, Port) == Get(b, Port) && Get(a, User) == Get(b, User);
    assert Get(a, Password) == Get(b, Password) && Get(a, Database) == Get(b, Database);
    assert Get(a, SslMode) == Get(b, SslMode) && Get(a, ConnectTimeout) == Get(b, ConnectTimeout);
    assert Get(a, MaxConns) == Get(b, MaxConns) && Get(a, MinConns) == Get(b, MinConns);
    assert Get(a, MaxConnLifeTime) == Get(b, MaxConnLifeTime) && Get(a, MaxConnIdleTime) == Get(b, MaxConnIdleTime);
  }

  /** The full option list of the tests yields exactly the values passed. */
  lemma FullOptionList()
    ensures ApplyAll(DefaultConfig(), [
      WithHost("db.example.com"), WithPort(5433), WithUser("admin"), WithPassword("secret"),
      WithDatabase("mydb"), WithSSL("require"), WithConnectionTimeout(10 * Second),
      WithMaxConns(20), WithMinConns(5), WithMaxConnLifetime(1 * Hour), WithMaxConnIdletime(30 * Minute)]) ==
      Config("db.example.com", 5433, Some("admin"), Some("secret"), "mydb", "require",
             10 * Second, 20, 5, 1 * Hour, 30 * Minute)
  {
    var opts := [
      WithHost("db.example.com"), WithPort(5433), WithUser("admin"), WithPassword("secret"),
      WithDatabase("mydb"), WithSSL("require"), WithConnectionTimeout(10 * Second),
      WithMaxConns(20), WithMinConns(5), WithMaxConnLifetime(1 * Hour), WithMaxConnIdletime(30 * Minute)];
    var want := Config("db.example.com", 5433, Some("admin"), Some("secret"), "mydb", "require",
      10 * Second, 20, 5, 1 * Hour, 30 * Minute);
    forall f ensures Get(ApplyAll(DefaultConfig(), opts), f) == Get(want, f) {
      var i := FieldIndex(f);
      assert forall j :: 0 <= j < |opts| ==> FieldIndex(Target(opts[j])) == j;
      LastWriteWins(DefaultConfig(), opts, f, i);
    }
    FieldsDetermineConfig(ApplyAll(DefaultConfig(), opts), want);
  }
}
