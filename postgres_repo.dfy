/**
 * The hand-written part of the Postgres user repository
 * (services/sso/repository/postgres): error classification, rebinding to a
 * transaction, and the dynamic `UPDATE users SET ...` statement.  The
 * database itself is not modelled: what `Exec` reports is an input, and the
 * method returns the statement it would send.
 */
module PostgresRepo {
  import opened Wrappers
  import opened Strings

  type Int64 = x: int | -0x8000_0000_0000_0000 <= x < 0x8000_0000_0000_0000

  /** Sentinels an error chain can contain, so `errors.Is` is membership. */
  datatype Sentinel = DeadlineExceeded | Canceled | NoRows | ErrInternalSentinel | ErrNotFoundSentinel | ErrAlreadyExistsSentinel

  datatype Error = Error(chain: set<Sentinel>, text: string)

  const ErrInternal := Error({ErrInternalSentinel}, "internal error")
  const ErrNotFound := Error({ErrNotFoundSentinel}, "not found error")
  const ErrAlreadyExists := Error({ErrAlreadyExistsSentinel}, "already exists")

  predicate IsContextError(e: Error)
  {
    DeadlineExceeded in e.chain || Canceled in e.chain
  }

  /**
   * `handleError`: context errors pass through unchanged, a missing row
   * becomes `ErrNotFound`, anything else `ErrInternal`.
   */
  function HandleError(err: Option<Error>): (r: Option<Error>)
    ensures r.None? <==> err.None?
    ensures err.Some? && IsContextError(err.value) ==> r == err
    ensures err.Some? && !IsContextError(err.value) ==>
      r == (if NoRows in err.value.chain then Some(ErrNotFound) else Some(ErrInternal))
  {
    match err
    case None => None
    case Some(e) =>
      if IsContextError(e) then err
      else if NoRows in e.chain then Some(ErrNotFound)
      else Some(ErrInternal)
  }

  /** The result is always nil, the context error itself, or one of the two sentinels. */
  lemma HandleErrorRange(err: Option<Error>)
    ensures var r := HandleError(err);
      r.None? || (r == err && IsContextError(r.value)) || r == Some(ErrNotFound) || r == Some(ErrInternal)
  {
  }

  // ------------------------------------------------------------ WithTx

  /** What a repository talks to: the pool, or one transaction. */
  datatype Handle = Pool | Tx(id: nat)

  /** The generated query layer, bound to one handle. */
  datatype Queries = Queries(db: Handle)

  datatype Repository = Repository(db: Handle, queries: Queries)

  predicate Bound(r: Repository)
  {
    r.queries.db == r.db
  }

  function NewRepository(db: Handle): (r: Repository)
    ensures Bound(r) && r.db == db
  {
    Repository(db, Queries(db))
  }

  /** `WithTx`: a fresh repository whose raw handle and query layer are both the transaction. */
  function WithTx(r: Repository, tx: Handle): (t: Repository)
    ensures t.db == tx && t.queries.db == tx
  {
    Repository(tx, Queries(tx))
  }

  /** The receiver plays no part: `WithTx` is `NewRepository` on the transaction. */
  lemma WithTxForgetsReceiver(r: Repository, s: Repository, tx: Handle)
    ensures WithTx(r, tx) == WithTx(s, tx) == NewRepository(tx)
    ensures Bound(WithTx(r, tx))
  {
  }

  // ---------------------------------------------------------- UpdateUser

  /** `domain.UpdateUser`: the id and the optional new values. */
  datatype UpdateParams = UpdateParams(
    id: Int64, username: Option<string>, email: Option<string>,
    name: Option<string>, surname: Option<string>, isMale: Option<bool>)

  datatype Arg = Text(s: string) | Flag(b: bool) | Id(id: Int64)

  datatype Column = Column(name: string, value: Arg)

  function TextArg(o: Option<string>): Option<Arg>
  {
    if o.Some? then Some(Text(o.value)) else None
  }

  function FlagArg(o: Option<bool>): Option<Arg>
  {
    if o.Some? then Some(Flag(o.value)) else None
  }

  /** The column an optional field contributes: none when the field is nil. */
  function OptColumn(name: string, value: Option<Arg>): seq<Column>
  {
    if value.Some? then [Column(name, value.value)] else []
  }

  /** The columns to set, in the fixed order username, email, name, surname, is_male. */
  function Present(p: UpdateParams): seq<Column>
  {
    OptColumn("username", TextArg(p.username)) + OptColumn("email", TextArg(p.email)) +
    OptColumn("name", TextArg(p.name)) + OptColumn("surname", TextArg(p.surname)) +
    OptColumn("is_male", FlagArg(p.isMale))
  }

  /** Position of a column name in the fixed order username, email, name,
      surname, is_male; 5 for any other name. */
  function Rank(name: string): nat
  {
    if name == "username" then 0 else if name == "email" then 1 else if name == "name" then 2
    else if name == "surname" then 3 else if name == "is_male" then 4 else 5
  }

  /** Ranks strictly increase along `cols` and lie in [lo, hi). */
  ghost predicate Ordered(cols: seq<Column>, lo: nat, hi: nat)
  {
    (forall i :: 0 <= i < |cols| ==> lo <= Rank(cols[i].name) < hi) &&
    (forall i, j :: 0 <= i < j < |cols| ==> Rank(cols[i].name) < Rank(cols[j].name))
  }

  lemma OrderedConcat(a: seq<Column>, b: seq<Column>, lo: nat, mid: nat, hi: nat)
    requires lo <= mid <= hi && Ordered(a, lo, mid) && Ordered(b, mid, hi)
    ensures Ordered(a + b, lo, hi)
  {
    forall i, j | 0 <= i < j < |a + b|
      ensures Rank((a + b)[i].name) < Rank((a + b)[j].name)
    {
      if j < |a| {
        assert (a + b)[i] == a[i] && (a + b)[j] == a[j];
      } else if i < |a| {
        assert (a + b)[i] == a[i] && (a + b)[j] == b[j - |a|];
      } else {
        assert (a + b)[i] == b[i - |a|] && (a + b)[j] == b[j - |a|];
      }
    }
    assert forall i :: 0 <= i < |a| ==> (a + b)[i] == a[i];
    assert forall i :: |a| <= i < |a + b| ==> (a + b)[i] == b[i - |a|];
  }

  /** The columns follow the fixed order, so no column appears twice and
      there are at most five. */
  lemma {:induction false} PresentOrdered(p: UpdateParams)
    ensures Ordered(Present(p), 0, 5)
    ensures |Present(p)| <= 5
  {
    var u, e := OptColumn("username", TextArg(p.username)), OptColumn("email", TextArg(p.email));
    var n, s := OptColumn("name", TextArg(p.name)), OptColumn("surname", TextArg(p.surname));
    var m := OptColumn("is_male", FlagArg(p.isMale));
    OrderedConcat(u, e, 0, 1, 2);
    OrderedConcat(u + e, n, 0, 2, 3);
    OrderedConcat(u + e + n, s, 0, 3, 4);
    OrderedConcat(u + e + n + s, m, 0, 4, 5);
  }

  /** A column is present exactly when its field is set, and carries that value. */
  lemma PresentColumns(p: UpdateParams)
    ensures p.username.Some? <==> Column("username", Text(p.username.GetOr(""))) in Present(p)
    ensures p.email.Some? <==> Column("email", Text(p.email.GetOr(""))) in Present(p)
    ensures p.name.Some? <==> Column("name", Text(p.name.GetOr(""))) in Present(p)
    ensures p.surname.Some? <==> Column("surname", Text(p.surname.GetOr(""))) in Present(p)
    ensures p.isMale.Some? <==> Column("is_male", Flag(p.isMale.GetOr(false))) in Present(p)
  {
    MemberOfPresent(p, Column("username", Text(p.username.GetOr(""))));
    MemberOfPresent(p, Column("email", Text(p.email.GetOr(""))));
    MemberOfPresent(p, Column("name", Text(p.name.GetOr(""))));
    MemberOfPresent(p, Column("surname", Text(p.surname.GetOr(""))));
    MemberOfPresent(p, Column("is_male", Flag(p.isMale.GetOr(false))));
  }

  lemma MemberOfPresent(p: UpdateParams, x: Column)
    ensures x in Present(p) <==>
      x in OptColumn("username", TextArg(p.username)) || x in OptColumn("email", TextArg(p.email)) ||
      x in OptColumn("name", TextArg(p.name)) || x in OptColumn("surname", TextArg(p.surname)) ||
      x in OptColumn("is_male", FlagArg(p.isMale))
  {
  }

  /** The i-th assignment, bound to placeholder $n. */
  function Assignment(c: Column, n: nat): string
  {
    c.name + " = $" + NatToString(n)
  }

  function SetParts(cols: seq<Column>): seq<string>
  {
    seq(|cols|, i requires 0 <= i < |cols| => Assignment(cols[i], i + 1))
  }

  function Values(cols: seq<Column>): seq<Arg>
  {
    seq(|cols|, i requires 0 <= i < |cols| => cols[i].value)
  }

  /** `strings.Join`: the parts in order, `sep` between neighbours only. */
  function Join(parts: seq<string>, sep: string): (s: string)
    ensures |parts| == 0 ==> s == ""
    ensures |parts| > 0 ==> |s| == TotalLength(parts) + (|parts| - 1) * |sep|
  {
    if |parts| == 0 then ""
    else if |parts| == 1 then parts[0]
    else parts[0] + sep + Join(parts[1..], sep)
  }

  /** `strings.Join` builds left to right: one part alone is itself, and a
      further part is appended after one more separator. */
  lemma {:induction false} JoinSnoc(a: seq<string>, x: string, sep: string)
    requires |a| > 0
    ensures Join([x], sep) == x
    ensures Join(a + [x], sep) == Join(a, sep) + sep + x
  {
    if |a| == 1 {
      assert (a + [x])[1..] == [x];
    } else {
      assert (a + [x])[1..] == a[1..] + [x];
      JoinSnoc(a[1..], x, sep);
    }
  }

  function TotalLength(parts: seq<string>): nat
  {
    if parts == [] then 0 else |parts[0]| + TotalLength(parts[1..])
  }

  const QueryHead := "\n        UPDATE users\n        SET "
  const QueryWhere := "\n        WHERE id = $"
  const QueryTail := " AND deleted_at IS NULL\n    "

  function Render(setParts: seq<string>, idIndex: nat): string
  {
    QueryHead + Join(setParts, ", ") + QueryWhere + NatToString(idIndex) + QueryTail
  }

  datatype Statement = Statement(query: string, args: seq<Arg>)

  /** The statement `UpdateUser` sends, or None when no field is set. */
  function PlannedUpdate(p: UpdateParams): (s: Option<Statement>)
    ensures s.None? <==>
      p.username.None? && p.email.None? && p.name.None? && p.surname.None? && p.isMale.None?
  {
    var cols := Present(p);
    if cols == [] then None
    else Some(Statement(Render(SetParts(cols), |cols| + 1), Values(cols) + [Id(p.id)]))
  }

  /**
   * With k columns present: k + 1 arguments, the i-th assignment names the
   * i-th column and uses placeholder $(i+1), whose argument is that column's
   * value; the WHERE clause uses $(k+1), whose argument is the id, and keeps
   * soft-deleted rows out.
   */
  lemma PlaceholdersBindArguments(p: UpdateParams)
    requires PlannedUpdate(p).Some?
    ensures var s := PlannedUpdate(p).value; var cols := Present(p); var k := |cols|;
      |s.args| == k + 1 && s.args[k] == Id(p.id) &&
      (forall i :: 0 <= i < k ==>
        SetParts(cols)[i] == cols[i].name + " = $" + NatToString(i + 1) &&
        DecimalValue(NatToString(i + 1)) == i + 1 && s.args[i] == cols[i].value) &&
      s.query == QueryHead + Join(SetParts(cols), ", ") + "\n        WHERE id = $" + NatToString(k + 1) + " AND deleted_at IS NULL\n    " &&
      DecimalValue(NatToString(k + 1)) == |s.args|
  {
  }

  /** Setting username and email only. */
  lemma TwoFieldUpdate(id: Int64, u: string, e: string)
    ensures PlannedUpdate(UpdateParams(id, Some(u), Some(e), None, None, None)) ==
      Some(Statement(QueryHead + "username = $1, email = $2" + QueryWhere + "3" + QueryTail,
                     [Text(u), Text(e), Id(id)]))
  {
    var p := UpdateParams(id, Some(u), Some(e), None, None, None);
    var cols := [Column("username", Text(u)), Column("email", Text(e))];
    assert Present(p) == cols;
    assert NatToString(1) == "1" && NatToString(2) == "2" && NatToString(3) == "3";
    assert SetParts(cols)[0] == "username = $1" && SetParts(cols)[1] == "email = $2";
    assert SetParts(cols) == ["username = $1", "email = $2"];
    assert Join(SetParts(cols)[1..], ", ") == "email = $2";
    assert Join(SetParts(cols), ", ") == "username = $1" + ", " + "email = $2";
    assert Values(cols) == [Text(u), Text(e)];
    assert Values(cols) + [Id(id)] == [Text(u), Text(e), Id(id)];
    assert PlannedUpdate(p) == Some(Statement(Render(SetParts(cols), |cols| + 1), Values(cols) + [Id(id)]));
    assert Render(SetParts(cols), 3) == QueryHead + "username = $1, email = $2" + QueryWhere + "3" + QueryTail;
  }

  /** Parts built for the present columns render the planned statement. */
  lemma PlannedFromParts(p: UpdateParams, setParts: seq<string>, args: seq<Arg>)
    requires Present(p) != []
    requires setParts == SetParts(Present(p)) && args == Values(Present(p)) + [Id(p.id)]
    ensures PlannedUpdate(p) == Some(Statement(Render(setParts, |Present(p)| + 1), args))
  {
  }

  /** What `Exec` reported. */
  datatype ExecOutcome = Executed(rowsAffected: int) | ExecFailed(err: Error)

  /** How `UpdateUser` maps the execution: zero rows is `ErrNotFound`, an
      execution error goes through `handleError`. */
  function ExecVerdict(x: ExecOutcome): (r: Option<Error>)
    ensures x.Executed? ==> (r.None? <==> x.rowsAffected != 0)
    ensures x.Executed? && x.rowsAffected == 0 ==> r == Some(ErrNotFound)
    ensures x.ExecFailed? ==> r == HandleError(Some(x.err)) && r.Some?
  {
    match x
    case ExecFailed(e) => HandleError(Some(e))
    case Executed(n) => if n == 0 then Some(ErrNotFound) else None
  }

  lemma SetPartsSnoc(cols: seq<Column>, c: Column)
    ensures SetParts(cols + [c]) == SetParts(cols) + [Assignment(c, |cols| + 1)]
    ensures Values(cols + [c]) == Values(cols) + [c.value]
  {
    assert forall i :: 0 <= i < |cols| ==> (cols + [c])[i] == cols[i];
  }

  /** The builder's running state agrees with the columns seen so far. */
  ghost predicate InStep(cols: seq<Column>, setParts: seq<string>, args: seq<Arg>, argIndex: nat)
  {
    setParts == SetParts(cols) && args == Values(cols) && argIndex == |args| + 1
  }

  /** Appending one present field with the running index keeps the state in step. */
  lemma AppendStep(cols: seq<Column>, c: Column, setParts: seq<string>, args: seq<Arg>, argIndex: nat)
    requires InStep(cols, setParts, args, argIndex)
    ensures InStep(cols + [c], setParts + [c.name + " = $" + NatToString(argIndex)], args + [c.value], argIndex + 1)
  {
    SetPartsSnoc(cols, c);
  }

  /**
   * One `if params.X != nil` block of `UpdateUser` (the five blocks differ
   * only in column name): append "X = $n" and the value, then advance n.
   * `argIndex == len(args) + 1` holds before and after.
   */
  method AppendIfSet(ghost cols: seq<Column>, setParts: seq<string>, args: seq<Arg>, argIndex: nat,
                     name: string, value: Option<Arg>)
    returns (setParts': seq<string>, args': seq<Arg>, argIndex': nat)
    requires InStep(cols, setParts, args, argIndex)
    ensures InStep(cols + OptColumn(name, value), setParts', args', argIndex')
    ensures argIndex' == |args'| + 1
  {
    setParts', args', argIndex' := setParts, args, argIndex;
    if value.Some? {
      AppendStep(cols, Column(name, value.value), setParts, args, argIndex);
      setParts' := setParts + [name + " = $" + NatToString(argIndex)];
      args' := args + [value.value];
      argIndex' := argIndex + 1;
    }
  }

  /**
   * `UpdateUser`: builds the SET list field by field with a running
   * placeholder index, sends nothing when no field is set, and otherwise
   * sends the statement on the repository's handle and maps the outcome.
   */
  method UpdateUser(r: Repository, params: UpdateParams, exec: ExecOutcome)
    returns (sent: Option<(Handle, Statement)>, err: Option<Error>)
    ensures PlannedUpdate(params).None? ==> sent.None? && err.None?
    ensures PlannedUpdate(params).Some? ==>
      sent == Some((r.db, PlannedUpdate(params).value)) && err == ExecVerdict(exec)
  {
    var setParts: seq<string> := [];
    var args: seq<Arg> := [];
    var argIndex: nat := 1;
    ghost var cols: seq<Column> := [];

    setParts, args, argIndex := AppendIfSet(cols, setParts, args, argIndex, "username", TextArg(params.username));
    cols := cols + OptColumn("username", TextArg(params.username));
    setParts, args, argIndex := AppendIfSet(cols, setParts, args, argIndex, "email", TextArg(params.email));
    cols := cols + OptColumn("email", TextArg(params.email));
    setParts, args, argIndex := AppendIfSet(cols, setParts, args, argIndex, "name", TextArg(params.name));
    cols := cols + OptColumn("name", TextArg(params.name));
    setParts, args, argIndex := AppendIfSet(cols, setParts, args, argIndex, "surname", TextArg(params.surname));
    cols := cols + OptColumn("surname", TextArg(params.surname));
    setParts, args, argIndex := AppendIfSet(cols, setParts, args, argIndex, "is_male", FlagArg(params.isMale));
    cols := cols + OptColumn("is_male", FlagArg(params.isMale));
    assert cols == Present(params);

    if |setParts| == 0 {
      return None, None;
    }

    args := args + [Id(params.id)];
    PlannedFromParts(params, setParts, args);
    var query := Render(setParts, argIndex);
    sent := Some((r.db, Statement(query, args)));
    assert sent == Some((r.db, PlannedUpdate(params).value)) by {
      assert argIndex == |Present(params)| + 1;
    }

    match exec {
      case ExecFailed(e) =>
        err := HandleError(Some(e));
      case Executed(n) =>
        if n == 0 {
          err := Some(ErrNotFound);
        } else {
          err := None;
        }
    }
  }
}
