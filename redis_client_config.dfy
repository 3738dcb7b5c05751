/**
 * Configuration of the Redis client (internal/pkg/go-redis-client): the
 * defaults, the validity rules, the functional options and the
 * options-then-validate prefix of `New`.  Durations are nanoseconds.
 */
module RedisClientConfig {
  import opened Wrappers

  const Second: int := 1_000_000_000
  const Minute: int := 60 * Second
  const Hour: int := 60 * Minute

  datatype Config = Config(
    addr: string, password: Option<string>, db: int, poolSize: int, minIdleConns: int,
    dialTimeout: int, readTimeout: int, writeTimeout: int,
    maxConnLifetime: int, maxConnIdleTime: int, pingTimeout: int)

  /** `defaultConfig`: no password. */
  function DefaultConfig(): (c: Config)
    ensures c.password.None?
  {
    Config("localhost:6379", None, 0, 10, 2, 5 * Second, 3 * Second, 3 * Second, 2 * Hour, 15 * Minute, 3 * Second)
  }

  /** `config.valid`: the checks in their order, the first failing one reported;
      timeouts are never checked. */
  function Valid(c: Config): (err: Option<string>)
    ensures err.None? <==>
      c.addr != "" && c.password.Some? && 0 <= c.db <= 15 && c.poolSize >= 1 &&
      0 <= c.minIdleConns <= c.poolSize
    ensures c.addr == "" ==> err == Some("addr is required")
    ensures c.addr != "" && c.password.None? ==> err == Some("password is required")
    ensures c.addr != "" && c.password.Some? && !(0 <= c.db <= 15) ==> err == Some("db must be between 0 and 15")
    ensures c.addr != "" && c.password.Some? && 0 <= c.db <= 15 && c.poolSize < 1 ==>
      err == Some("poolSize must be >= 1")
    ensures c.addr != "" && c.password.Some? && 0 <= c.db <= 15 && c.poolSize >= 1 && c.minIdleConns < 0 ==>
      err == Some("minIdleConns must be >= 0")
    ensures c.addr != "" && c.password.Some? && 0 <= c.db <= 15 && c.poolSize >= 1 && 0 <= c.minIdleConns &&
            c.minIdleConns > c.poolSize ==>
      err == Some("minIdleConns must be <= poolSize")
  {
    if c.addr == "" then Some("addr is required")
    else if c.password.None? then Some("password is required")
    else if c.db < 0 || c.db > 15 then Some("db must be between 0 and 15")
    else if c.poolSize < 1 then Some("poolSize must be >= 1")
    else if c.minIdleConns < 0 then Some("minIdleConns must be >= 0")
    else if c.minIdleConns > c.poolSize then Some("minIdleConns must be <= poolSize")
    else None
  }

  /** Timeouts play no part in validity. */
  lemma TimeoutsUnchecked(c: Config, dial: int, read: int, write: int, life: int, idle: int, ping: int)
    ensures Valid(c.(dialTimeout := dial, readTimeout := read, writeTimeout := write,
                     maxConnLifetime := life, maxConnIdleTime := idle, pingTimeout := ping)) == Valid(c)
  {
  }

  /** The defaults fail only for the missing password, and any password fixes that. */
  lemma DefaultsNeedPassword(p: string)
    ensures Valid(DefaultConfig()) == Some("password is required")
    ensures Valid(DefaultConfig().(password := Some(p))) == None
  {
  }

  /** The boundaries the tests pin: db 15 is accepted, -1 and 16 are not; an
      idle minimum equal to the pool size is accepted, one above it is not. */
  lemma Boundaries(p: string)
    ensures var base := DefaultConfig().(password := Some(p));
      Valid(base.(db := 15)).None? && Valid(base.(db := 16)).Some? && Valid(base.(db := -1)).Some? &&
      Valid(base.(poolSize := 0)).Some? && Valid(base.(minIdleConns := -1)).Some? &&
      Valid(base.(poolSize := 5, minIdleConns := 5)).None? &&
      Valid(base.(poolSize := 5, minIdleConns := 10)) == Some("minIdleConns must be <= poolSize")
  {
  }

  // ------------------------------------------------------------- options

  datatype RedisOption =
    | WithAddr(addr: string) | WithPassword(password: string) | WithDB(db: int)
    | WithPoolSize(size: int) | WithMinIdleConns(minIdle: int)
    | WithDialTimeout(dial: int) | WithReadTimeout(read: int) | WithWriteTimeout(write: int)
    | WithMaxConnLifetime(lifetime: int) | WithMaxConnIdleTime(idleTime: int) | WithPingTimeout(ping: int)

  /** One option's assignment through the config pointer. */
  function Apply(c: Config, o: RedisOption): (r: Config)
    ensures forall f :: Get(r, f) == if f == Target(o) then Written(o) else Get(c, f)
  {
    match o
    case WithAddr(v) => c.(addr := v)
    case WithPassword(v) => c.(password := Some(v))
    case WithDB(v) => c.(db := v)
    case WithPoolSize(v) => c.(poolSize := v)
    case WithMinIdleConns(v) => c.(minIdleConns := v)
    case WithDialTimeout(v) => c.(dialTimeout := v)
    case WithReadTimeout(v) => c.(readTimeout := v)
    case WithWriteTimeout(v) => c.(writeTimeout := v)
    case WithMaxConnLifetime(v) => c.(maxConnLifetime := v)
    case WithMaxConnIdleTime(v) => c.(maxConnIdleTime := v)
    case WithPingTimeout(v) => c.(pingTimeout := v)
  }

  /** The options applied in order. */
  function ApplyAll(c: Config, opts: seq<RedisOption>): Config
  {
    if opts == [] then c else Apply(ApplyAll(c, opts[..|opts| - 1]), opts[|opts| - 1])
  }

  // Fields as names and values, to speak about "one field" generically.
  datatype Field = Addr | Password | DB | PoolSize | MinIdleConns
                 | DialTimeout | ReadTimeout | WriteTimeout | MaxConnLifetime | MaxConnIdleTime | PingTimeout

  datatype Value = Text(s: string) | MaybeText(o: Option<string>) | Number(n: int)

  function Get(c: Config, f: Field): Value
  {
    match f
    case Addr => Text(c.addr)
    case Password => MaybeText(c.password)
    case DB => Number(c.db)
    case PoolSize => Number(c.poolSize)
    case MinIdleConns => Number(c.minIdleConns)
    case DialTimeout => Number(c.dialTimeout)
    case ReadTimeout => Number(c.readTimeout)
    case WriteTimeout => Number(c.writeTimeout)
    case MaxConnLifetime => Number(c.maxConnLifetime)
    case MaxConnIdleTime => Number(c.maxConnIdleTime)
    case PingTimeout => Number(c.pingTimeout)
  }

  /** The field an option writes, and the value it writes there. */
  function Target(o: RedisOption): Field
  {
    match o
    case WithAddr(_) => Addr
    case WithPassword(_) => Password
    case WithDB(_) => DB
    case WithPoolSize(_) => PoolSize
    case WithMinIdleConns(_) => MinIdleConns
    case WithDialTimeout(_) => DialTimeout
    case WithReadTimeout(_) => ReadTimeout
    case WithWriteTimeout(_) => WriteTimeout
    case WithMaxConnLifetime(_) => MaxConnLifetime
    case WithMaxConnIdleTime(_) => MaxConnIdleTime
    case WithPingTimeout(_) => PingTimeout
  }

  function Written(o: RedisOption): Value
  {
    match o
    case WithAddr(v) => Text(v)
    case WithPassword(v) => MaybeText(Some(v))
    case WithDB(v) => Number(v)
    case WithPoolSize(v) => Number(v)
    case WithMinIdleConns(v) => Number(v)
    case WithDialTimeout(v) => Number(v)
    case WithReadTimeout(v) => Number(v)
    case WithWriteTimeout(v) => Number(v)
    case WithMaxConnLifetime(v) => Number(v)
    case WithMaxConnIdleTime(v) => Number(v)
    case WithPingTimeout(v) => Number(v)
  }

  /** Each option writes exactly its own field and leaves every other one. */
  lemma ApplySetsOneField(c: Config, o: RedisOption, f: Field)
    ensures Get(Apply(c, o), f) == if f == Target(o) then Written(o) else Get(c, f)
  {
  }

  /** After a sequence of options each field holds what the last option for
      it wrote, or its starting value when no option names it. */
  lemma {:induction false} LastWriteWins(c: Config, opts: seq<RedisOption>, f: Field, i: int)
    requires -1 <= i < |opts|
    requires i >= 0 ==> Target(opts[i]) == f
    requires forall j :: i < j < |opts| ==> Target(opts[j]) != f
    ensures Get(ApplyAll(c, opts), f) == if i >= 0 then Written(opts[i]) else Get(c, f)
  {
    if opts != [] {
      var p := opts[..|opts| - 1];
      ApplySetsOneField(ApplyAll(c, p), opts[|opts| - 1], f);
      if i < |opts| - 1 {
        LastWriteWins(c, p, f, i);
      }
    }
  }

  /** A configuration is determined by its fields. */
  lemma FieldsDetermineConfig(a: Config, b: Config)
    requires forall f :: Get(a, f) == Get(b, f)
    ensures a == b
  {
    assert Get(a, Addr) == Get(b, Addr) && Get(a, Password) == Get(b, Password) && Get(a, DB) == Get(b, DB);
    assert Get(a, PoolSize) == Get(b, PoolSize) && Get(a, MinIdleConns) == Get(b, MinIdleConns);
    assert Get(a, DialTimeout) == Get(b, DialTimeout) && Get(a, ReadTimeout) == Get(b, ReadTimeout);
    assert Get(a, WriteTimeout) == Get(b, WriteTimeout) && Get(a, MaxConnLifetime) == Get(b, MaxConnLifetime);
    assert Get(a, MaxConnIdleTime) == Get(b, MaxConnIdleTime) && Get(a, PingTimeout) == Get(b, PingTimeout);
  }

  function FieldIndex(f: Field): nat
  {
    match f
    case Addr => 0 case Password => 1 case DB => 2 case PoolSize => 3 case MinIdleConns => 4
    case DialTimeout => 5 case ReadTimeout => 6 case WriteTimeout => 7 case MaxConnLifetime => 8
    case MaxConnIdleTime => 9 case PingTimeout => 10
  }

  /** The full option list of the tests yields exactly the values passed. */
  lemma FullOptionList()
    ensures ApplyAll(DefaultConfig(), [
      WithAddr("redis.example.com:6380"), WithPassword("supersecret"), WithDB(3), WithPoolSize(20),
      WithMinIdleConns(5), WithDialTimeout(10 * Second), WithReadTimeout(5 * Second),
      WithWriteTimeout(5 * Second), WithMaxConnLifetime(1 * Hour), WithMaxConnIdleTime(30 * Minute),
      WithPingTimeout(2 * Second)]) ==
      Config("redis.example.com:6380", Some("supersecret"), 3, 20, 5,
             10 * Second, 5 * Second, 5 * Second, 1 * Hour, 30 * Minute, 2 * Second)
  {
    var opts := [
      WithAddr("redis.example.com:6380"), WithPassword("supersecret"), WithDB(3), WithPoolSize(20),
      WithMinIdleConns(5), WithDialTimeout(10 * Second), WithReadTimeout(5 * Second),
      WithWriteTimeout(5 * Second), WithMaxConnLifetime(1 * Hour), WithMaxConnIdleTime(30 * Minute),
      WithPingTimeout(2 * Second)];
    var want := Config("redis.example.com:6380", Some("supersecret"), 3, 20, 5,
      10 * Second, 5 * Second, 5 * Second, 1 * Hour, 30 * Minute, 2 * Second);
    forall f ensures Get(ApplyAll(DefaultConfig(), opts), f) == Get(want, f) {
      var i := FieldIndex(f);
      assert Target(opts[i]) == f;
      assert forall j :: 0 <= j < |opts| ==> FieldIndex(Target(opts[j])) == j;
      LastWriteWins(DefaultConfig(), opts, f, i);
    }
    FieldsDetermineConfig(ApplyAll(DefaultConfig(), opts), want);
  }

  /** The prefix of `New` before any connection exists: the defaults, every
      option in order, then validation.  Success carries the configuration the
      client is built from. */
  method New(opts: seq<RedisOption>) returns (r: Result<Config, string>)
    ensures Valid(ApplyAll(DefaultConfig(), opts)).Some? ==>
      r == Failure("invalid config: " + Valid(ApplyAll(DefaultConfig(), opts)).value)
    ensures Valid(ApplyAll(DefaultConfig(), opts)).None? ==> r == Success(ApplyAll(DefaultConfig(), opts))
    ensures r.Success? ==> Valid(r.value).None? && r.value.password.Some?
  {
    var cfg := DefaultConfig();
    var i := 0;
    while i < |opts|
      invariant 0 <= i <= |opts|
      invariant cfg == ApplyAll(DefaultConfig(), opts[..i])
    {
      assert opts[..i + 1][..i] == opts[..i];
      cfg := Apply(cfg, opts[i]);
      i := i + 1;
    }
    assert opts[..i] == opts;
    match Valid(cfg) {
      case Some(e) => return Failure("invalid config: " + e);
      case None => return Success(cfg);
    }
  }
}
