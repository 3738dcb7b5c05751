/**
 * The SSO business layer (services/sso/business): the self-only update
 * permission, and the update and registration flows over a user provider.
 * The provider is a recording stand-in whose replies are fixed inputs and
 * which logs every call it receives, so the flows can be specified by what
 * they ask the provider and what they return.  Password hashing is a
 * parameter.
 */
module SsoBusiness {
  import opened Wrappers
  import Repo = PostgresRepo

  type Int64 = Repo.Int64

  /** The business layer's own sentinels, plus a hashing failure passed through raw. */
  datatype BizError =
    | ErrUserNotFound | ErrInternal | ErrPermissionDenied | ErrUserExists | ErrEmailExists
    | HashFailure(text: string)

  function Message(e: BizError): string
  {
    match e
    case ErrUserNotFound => "user not found"
    case ErrInternal => "internal service error"
    case ErrPermissionDenied => "permission denied"
    case ErrUserExists => "user already exists"
    case ErrEmailExists => "user email already exists"
    case HashFailure(t) => t
  }

  /** `checkUpdatePermission`: a user may edit only themselves. */
  function CheckUpdatePermission(actorID: Int64, targetID: Int64): (err: Option<BizError>)
    ensures err.None? <==> actorID == targetID
    ensures err.Some? ==> err.value == ErrPermissionDenied
  {
    if actorID != targetID then Some(ErrPermissionDenied) else None
  }

  /** What the update flow returns, given the provider's reply to the update. */
  function UpdateOutcome(actorID: Int64, params: Repo.UpdateParams, reply: Option<Repo.Error>): (r: Option<BizError>)
    ensures actorID != params.id ==> r == Some(ErrPermissionDenied)
    ensures actorID == params.id ==> (r.None? <==> reply.None?)
    ensures actorID == params.id && reply.Some? ==>
      r == Some(if Repo.ErrNotFoundSentinel in reply.value.chain then ErrUserNotFound else ErrInternal)
  {
    if CheckUpdatePermission(actorID, params.id).Some? then Some(ErrPermissionDenied)
    else if reply.None? then None
    else if Repo.ErrNotFoundSentinel in reply.value.chain then Some(ErrUserNotFound)
    else Some(ErrInternal)
  }

  /** A stored user's identifiers as the provider returns them. */
  datatype CreateUserRow = CreateUserRow(id: Int64, createdAt: int, updatedAt: int)

  /** A snapshot of `domain.CreateUser` at the moment it is handed over. */
  datatype NewUser = NewUser(username: string, email: string, password: string, name: string, surname: string, isMale: bool)

  /** What the provider was asked. */
  datatype Call = UpdateCall(params: Repo.UpdateParams) | ExistsByEmailCall(email: string) | CreateCall(user: NewUser)

  /** What the registration flow returns, given the e-mail check, the hash
      result and the provider's reply to the insert. */
  function CreateOutcome(taken: Result<bool, Repo.Error>, hashed: Result<string, string>,
                         created: Result<CreateUserRow, Repo.Error>): (r: Result<CreateUserRow, BizError>)
    ensures r.Success? <==> taken == Success(false) && hashed.Success? && created.Success?
    ensures r.Success? ==> r.value == created.value
    ensures taken.Failure? ==> r == Failure(ErrInternal)
    ensures taken == Success(true) ==> r == Failure(ErrEmailExists)
    ensures taken == Success(false) && hashed.Failure? ==> r == Failure(HashFailure(hashed.error))
    ensures taken == Success(false) && hashed.Success? && created.Failure? ==>
      r == Failure(if Repo.ErrAlreadyExistsSentinel in created.error.chain then ErrUserExists else ErrInternal)
  {
    if taken.Failure? then Failure(ErrInternal)
    else if taken.value then Failure(ErrEmailExists)
    else if hashed.Failure? then Failure(HashFailure(hashed.error))
    else if created.Failure? then
      (if Repo.ErrAlreadyExistsSentinel in created.error.chain then Failure(ErrUserExists) else Failure(ErrInternal))
    else Success(created.value)
  }

  /** The provider calls of a registration: the e-mail check always, the
      insert (with the hashed password) only when the e-mail is free and
      hashing worked. */
  function CreateCalls(u: NewUser, taken: Result<bool, Repo.Error>, hashed: Result<string, string>): seq<Call>
  {
    [ExistsByEmailCall(u.email)] +
    (if taken == Success(false) && hashed.Success? then [CreateCall(u.(password := hashed.value))] else [])
  }

  /** The caller's `domain.CreateUser`, which registration changes in place. */
  class CreateUserRequest {
    var username: string
    var email: string
    var password: string
    var name: string
    var surname: string
    var isMale: bool

    constructor(u: NewUser)
      ensures Snapshot() == u
    {
      username, email, password, name, surname, isMale := u.username, u.email, u.password, u.name, u.surname, u.isMale;
    }

    function Snapshot(): NewUser
      reads this
    {
      NewUser(username, email, password, name, surname, isMale)
    }
  }

  /** A user provider that answers with fixed replies and records its calls. */
  class UserProvider {
    var calls: seq<Call>
    const updateReply: Option<Repo.Error>
    const existsReply: Result<bool, Repo.Error>
    const createReply: Result<CreateUserRow, Repo.Error>

    constructor(updateReply: Option<Repo.Error>, existsReply: Result<bool, Repo.Error>,
                createReply: Result<CreateUserRow, Repo.Error>)
      ensures calls == [] && this.updateReply == updateReply
      ensures this.existsReply == existsReply && this.createReply == createReply
    {
      calls := [];
      this.updateReply, this.existsReply, this.createReply := updateReply, existsReply, createReply;
    }

    method UpdateUser(params: Repo.UpdateParams) returns (err: Option<Repo.Error>)
      modifies this
      ensures calls == old(calls) + [UpdateCall(params)] && err == updateReply
    {
      calls := calls + [UpdateCall(params)];
      err := updateReply;
    }

    method ExistsUserByEmail(email: string) returns (r: Result<bool, Repo.Error>)
      modifies this
      ensures calls == old(calls) + [ExistsByEmailCall(email)] && r == existsReply
    {
      calls := calls + [ExistsByEmailCall(email)];
      r := existsReply;
    }

    method CreateUser(user: CreateUserRequest) returns (r: Result<CreateUserRow, Repo.Error>)
      modifies this
      ensures calls == old(calls) + [CreateCall(user.Snapshot())] && r == createReply
    {
      calls := calls + [CreateCall(user.Snapshot())];
      r := createReply;
    }
  }

  /** Opaque stand-in for the service configuration, which is only stored. */
  datatype ServiceConfig = ServiceConfig(id: nat)

  /** Stand-in for a structured logger. */
  datatype Logger = Logger(name: string)

  /** The logger `New` stores: none. */
  const LoggerFromNew: Option<Logger> := None

  class Business {
    const cfg: ServiceConfig
    const log: Option<Logger>
    const user: UserProvider

    /** `New`: keeps the configuration and the provider and sets no logger. */
    constructor New(cfg: ServiceConfig, user: UserProvider)
      ensures this.cfg == cfg && this.user == user && this.log == LoggerFromNew
    {
      this.cfg, this.user, this.log := cfg, user, LoggerFromNew;
    }

    /**
     * `UpdateUser` without its logging: the permission check comes first and
     * a refused caller never reaches the provider; otherwise the parameters
     * go to the provider unchanged and its error is remapped.
     */
    method UpdateUser(actorID: Int64, params: Repo.UpdateParams) returns (err: Option<BizError>)
      modifies user
      ensures err == UpdateOutcome(actorID, params, user.updateReply)
      ensures user.calls == old(user.calls) + (if actorID == params.id then [UpdateCall(params)] else [])
    {
      var denied := CheckUpdatePermission(actorID, params.id);
      if denied.Some? {
        return Some(ErrPermissionDenied);
      }
      var reply := user.UpdateUser(params);
      if reply.Some? {
        if Repo.ErrNotFoundSentinel in reply.value.chain {
          return Some(ErrUserNotFound);
        }
        return Some(ErrInternal);
      }
      return None;
    }

    /**
     * `CreateUser` without its logging.  Only the e-mail is checked up
     * front.  The caller's password is replaced by its hash before the
     * insert, and stays replaced whatever the insert returns.
     */
    method CreateUser(u: CreateUserRequest, hash: string -> Result<string, string>)
      returns (r: Result<CreateUserRow, BizError>)
      modifies user, u
      ensures r == CreateOutcome(user.existsReply, hash(old(u.password)), user.createReply)
      ensures user.calls == old(user.calls) + CreateCalls(old(u.Snapshot()), user.existsReply, hash(old(u.password)))
      ensures u.Snapshot() ==
        if user.existsReply == Success(false) && hash(old(u.password)).Success?
        then old(u.Snapshot()).(password := hash(old(u.password)).value) else old(u.Snapshot())
    {
      var taken := user.ExistsUserByEmail(u.email);
      if taken.Failure? {
        return Failure(ErrInternal);
      }
      if taken.value {
        return Failure(ErrEmailExists);
      }
      var hashed := hash(u.password);
      if hashed.Failure? {
        return Failure(HashFailure(hashed.error));
      }
      u.password := hashed.value;
      var created := user.CreateUser(u);
      if created.Failure? {
        if Repo.ErrAlreadyExistsSentinel in created.error.chain {
          return Failure(ErrUserExists);
        }
        return Failure(ErrInternal);
      }
      return Success(created.value);
    }
  }

  // ----------------------------------------------- what the flows promise

  /** A provider failure never reaches the caller as itself: update errors
      are one of three sentinels. */
  lemma UpdateErrorsAreSentinels(actorID: Int64, params: Repo.UpdateParams, reply: Option<Repo.Error>)
    ensures var r := UpdateOutcome(actorID, params, reply);
      r.None? || r.value in {ErrPermissionDenied, ErrUserNotFound, ErrInternal}
  {
  }

  /** Registration errors are sentinels or the raw hashing error, never a provider error. */
  lemma CreateErrorsAreSentinels(taken: Result<bool, Repo.Error>, hashed: Result<string, string>,
                                 created: Result<CreateUserRow, Repo.Error>)
    ensures var r := CreateOutcome(taken, hashed, created);
      r.Failure? ==> r.error in {ErrInternal, ErrEmailExists, ErrUserExists} || r.error == HashFailure(hashed.error)
  {
  }

  /** A duplicate username is not checked up front: it is caught only when
      the insert fails, and reported differently from a duplicate e-mail. */
  lemma DuplicateUsernameCaughtByInsert(u: NewUser, hashed: string, dup: Repo.Error)
    requires Repo.ErrAlreadyExistsSentinel in dup.chain
    ensures CreateOutcome(Success(false), Success(hashed), Failure(dup)) == Failure(ErrUserExists)
    ensures CreateCalls(u, Success(false), Success(hashed)) ==
      [ExistsByEmailCall(u.email), CreateCall(u.(password := hashed))]
    ensures CreateOutcome(Success(true), Success(hashed), Failure(dup)) == Failure(ErrEmailExists)
    ensures CreateCalls(u, Success(true), Success(hashed)) == [ExistsByEmailCall(u.email)]
  {
  }

  /** Every insert the provider sees carries the hash, not the caller's password. */
  lemma InsertCarriesHash(u: NewUser, taken: Result<bool, Repo.Error>, hashed: Result<string, string>)
    ensures forall c :: c in CreateCalls(u, taken, hashed) && c.CreateCall? ==>
      hashed.Success? && c.user == u.(password := hashed.value)
  {
  }

  // ------------------------------------ the update flow over the repository

  /** The repository's answer to `UpdateUser`, as a provider reply. */
  function PostgresReply(params: Repo.UpdateParams, exec: Repo.ExecOutcome): Option<Repo.Error>
  {
    if Repo.PlannedUpdate(params).None? then None else Repo.ExecVerdict(exec)
  }

  /** With the Postgres repository as provider: an update that sets nothing
      succeeds without touching the database, even for a missing user. */
  lemma EmptyUpdateSucceeds(id: Int64, exec: Repo.ExecOutcome)
    ensures UpdateOutcome(id, Repo.UpdateParams(id, None, None, None, None, None), PostgresReply(Repo.UpdateParams(id, None, None, None, None, None), exec)) == None
  {
  }

  /** An error raised by the driver, which cannot wrap the repository's own sentinels. */
  predicate DriverError(e: Repo.Error)
  {
    Repo.ErrInternalSentinel !in e.chain && Repo.ErrNotFoundSentinel !in e.chain && Repo.ErrAlreadyExistsSentinel !in e.chain
  }

  /** With the Postgres repository as provider: no matching row (none
      affected, or a no-rows error) is `ErrUserNotFound`, while a cancelled or
      timed-out context, which the repository passes through, becomes
      `ErrInternal`. */
  lemma UpdateThroughPostgres(params: Repo.UpdateParams, exec: Repo.ExecOutcome)
    requires Repo.PlannedUpdate(params).Some?
    ensures exec == Repo.Executed(0) ==> UpdateOutcome(params.id, params, PostgresReply(params, exec)) == Some(ErrUserNotFound)
    ensures exec.Executed? && exec.rowsAffected != 0 ==> UpdateOutcome(params.id, params, PostgresReply(params, exec)) == None
    ensures exec.ExecFailed? && Repo.IsContextError(exec.err) && DriverError(exec.err) ==>
      UpdateOutcome(params.id, params, PostgresReply(params, exec)) == Some(ErrInternal)
    ensures exec.ExecFailed? && !Repo.IsContextError(exec.err) && Repo.NoRows in exec.err.chain ==>
      UpdateOutcome(params.id, params, PostgresReply(params, exec)) == Some(ErrUserNotFound)
  {
    assert Repo.ErrNotFoundSentinel in Repo.ErrNotFound.chain;
  }

  // ----------------------------------------- as written: the nil logger

  datatype Outcome<T> = Panicked(reason: string) | Returned(value: T)

  /** The first statement of both flows, `b.log.With(...)`: on a nil logger
      this dereferences nil. */
  function LogWith(log: Option<Logger>): (o: Outcome<Logger>)
    ensures o.Panicked? <==> log.None?
  {
    if log.None? then Panicked("nil pointer dereference") else Returned(log.value)
  }

  /** `UpdateUser` as written, with its logging. */
  function UpdateUserAsWritten(log: Option<Logger>, actorID: Int64, params: Repo.UpdateParams, reply: Option<Repo.Error>)
    : (o: Outcome<Option<BizError>>)
    ensures o.Panicked? <==> log.None?
    ensures log.Some? ==> o == Returned(UpdateOutcome(actorID, params, reply))
  {
    match LogWith(log)
    case Panicked(why) => Panicked(why)
    case Returned(_) => Returned(UpdateOutcome(actorID, params, reply))
  }

  /** `CreateUser` as written, with its logging. */
  function CreateUserAsWritten(log: Option<Logger>, taken: Result<bool, Repo.Error>, hashed: Result<string, string>,
                               created: Result<CreateUserRow, Repo.Error>)
    : (o: Outcome<Result<CreateUserRow, BizError>>)
    ensures o.Panicked? <==> log.None?
    ensures log.Some? ==> o == Returned(CreateOutcome(taken, hashed, created))
  {
    match LogWith(log)
    case Panicked(why) => Panicked(why)
    case Returned(_) => Returned(CreateOutcome(taken, hashed, created))
  }

  /** On a `Business` built by `New`, both flows panic before doing anything,
      whatever the caller and the provider would do. */
  lemma NilLoggerPanics(actorID: Int64, params: Repo.UpdateParams, reply: Option<Repo.Error>,
                        taken: Result<bool, Repo.Error>, hashed: Result<string, string>,
                        created: Result<CreateUserRow, Repo.Error>)
    ensures UpdateUserAsWritten(LoggerFromNew, actorID, params, reply).Panicked?
    ensures CreateUserAsWritten(LoggerFromNew, taken, hashed, created).Panicked?
  {
  }
}
