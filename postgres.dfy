/**
 * The transaction wrapper of internal/services/postgres.go and the store it
 * works on. The database of one shard is a value (`Store`): the rows of the
 * tables the services use and the large objects. What the database answers
 * beyond plain lookups (whether BEGIN or COMMIT fails, whether an insert hits
 * a constraint) is an input to each operation (an oracle).
 *
 * A transaction body is a function from the store it sees to a
 * `BodyOutcome`: the value it returns (nil is `None`), its error, the store
 * as its writes left it, and the contents it handed to a streaming callback.
 */
module Postgres {
  import opened Wrappers
  import opened GoErrors
  import opened GoStrings

  /** The identifier of a large object. */
  type Oid = nat

  datatype AssetRow = AssetRow(name: string, userUuid: string, fileId: Oid)
  datatype UserRow = UserRow(uuid: string, login: string, passwordHash: string)
  datatype TokenRow = TokenRow(accessToken: string, userUuid: string, ipAddr: string)

  /** One shard's data: the three tables in row order, and the large objects. */
  datatype Store = Store(
    assets: seq<AssetRow>,
    objects: map<Oid, seq<Byte>>,
    users: seq<UserRow>,
    tokens: seq<TokenRow>)

  /**
   * The first row `matches` accepts: what a single-row query (`QueryRow`)
   * reads when several rows satisfy its WHERE clause.
   */
  function FirstMatch<T>(rows: seq<T>, matches: T -> bool): (r: Option<nat>)
    ensures r.Some? ==> r.value < |rows| && matches(rows[r.value])
    ensures r.Some? ==> forall j :: 0 <= j < r.value ==> !matches(rows[j])
    ensures r.None? ==> forall j :: 0 <= j < |rows| ==> !matches(rows[j])
    decreases |rows|
  {
    if rows == [] then None
    else if matches(rows[|rows| - 1]) && FirstMatch(rows[..|rows| - 1], matches).None? then Some(|rows| - 1)
    else FirstMatch(rows[..|rows| - 1], matches)
  }

  /** The first user row with this login, as a single-row query by login reads it. */
  function FindUserByLogin(rows: seq<UserRow>, login: string): Option<nat>
  {
    FirstMatch(rows, (u: UserRow) => u.login == login)
  }

  /** How BEGIN and COMMIT turn out for one invocation. */
  datatype TxOracle = TxOracle(begin: Option<Error>, commit: Option<Error>)

  /** What a body did: its returned value (nil is `None`), its error, its writes, and what it streamed. */
  datatype BodyOutcome<R> = BodyOutcome(
    result: Option<R>,
    err: Option<Error>,
    writes: Store,
    streamed: seq<seq<Byte>>)

  /** The steps of one invocation, in the order they happen (Rollback and Cancel are the deferred calls). */
  datatype TxEvent = Begin | Body | Commit | Rollback | Cancel

  datatype TxResult<R> = TxResult(
    value: Option<R>,
    err: Option<Error>,
    store: Store,
    streamed: seq<seq<Byte>>,
    events: seq<TxEvent>)

  const CreatingTxMessage := "error at creating tx"
  const CommitingTxMessage := "error at commiting tx"

  /**
   * One invocation of the closure returned by `Tx`: begin; on failure report
   * it wrapped and stop; run the body; on a body error return the body's
   * value and error untouched (the deferred rollback drops the writes);
   * commit; on failure return nil and the wrapped cause; otherwise the body's
   * value. The deferred cancel runs in every case.
   */
  function RunTx<R>(tx: TxOracle, s: Store, body: Store -> BodyOutcome<R>): TxResult<R>
  {
    if tx.begin.Some? then
      TxResult(None, Some(Wrapped(CreatingTxMessage, tx.begin.value)), s, [], [Begin, Cancel])
    else
      var out := body(s);
      if out.err.Some? then
        TxResult(out.result, out.err, s, out.streamed, [Begin, Body, Rollback, Cancel])
      else if tx.commit.Some? then
        TxResult(None, Some(Wrapped(CommitingTxMessage, tx.commit.value)), s, out.streamed, [Begin, Body, Commit, Rollback, Cancel])
      else
        TxResult(out.result, None, out.writes, out.streamed, [Begin, Body, Commit, Rollback, Cancel])
  }

  /** The four outcomes of a transaction, and what each leaves in the store. */
  lemma TxLifecycle<R>(tx: TxOracle, s: Store, body: Store -> BodyOutcome<R>)
    ensures var r := RunTx(tx, s, body);
      && (tx.begin.Some? ==>
            r.err == Some(Wrapped(CreatingTxMessage, tx.begin.value)) && Is(r.err.value, NoRows) == Is(tx.begin.value, NoRows)
            && r.value.None? && r.store == s && Body !in r.events && r.streamed == [])
      && (tx.begin.None? && body(s).err.Some? ==>
            r.err == body(s).err && r.value == body(s).result && r.store == s && Commit !in r.events)
      && (tx.begin.None? && body(s).err.None? && tx.commit.Some? ==>
            r.err == Some(Wrapped(CommitingTxMessage, tx.commit.value)) && r.value.None? && r.store == s)
      && (tx.begin.None? && body(s).err.None? && tx.commit.None? ==>
            r.err.None? && r.value == body(s).result && r.store == body(s).writes)
  {
  }

  /** The store changes only through a committed body: all or nothing. */
  lemma TxAllOrNothing<R>(tx: TxOracle, s: Store, body: Store -> BodyOutcome<R>)
    ensures RunTx(tx, s, body).store == s || (RunTx(tx, s, body).err.None? && RunTx(tx, s, body).store == body(s).writes)
    ensures RunTx(tx, s, body).err.Some? ==> RunTx(tx, s, body).store == s
  {
  }

  /**
   * The body runs exactly when BEGIN succeeds, COMMIT is attempted exactly
   * when the body succeeded too, and every invocation ends with the deferred
   * rollback and cancel (begin failure: cancel only).
   */
  lemma TxEvents<R>(tx: TxOracle, s: Store, body: Store -> BodyOutcome<R>)
    ensures var e := RunTx(tx, s, body).events;
      && e[0] == Begin && e[|e| - 1] == Cancel
      && (Body in e <==> tx.begin.None?)
      && (Commit in e <==> tx.begin.None? && body(s).err.None?)
      && (Rollback in e <==> tx.begin.None?)
  {
  }

  /** A body that writes nothing leaves the store as it was, whatever the outcome. */
  lemma ReadOnlyTx<R>(tx: TxOracle, s: Store, body: Store -> BodyOutcome<R>)
    requires body(s).writes == s
    ensures RunTx(tx, s, body).store == s
  {
  }

  /** A PostgreSQL connection pool for one database, with that database's data. */
  class PostgreSQLService {
    /** Whether the service holds a pool (its pool is not nil). */
    const hasPool: bool
    var closed: bool
    var data: Store

    constructor (initial: Store)
      ensures hasPool && !closed && data == initial
    {
      hasPool := true;
      closed := false;
      data := initial;
    }

    /** `Tx(f, options)()`: one transaction running `body`; the store keeps what was committed. */
    method Tx<R>(body: Store -> BodyOutcome<R>, tx: TxOracle) returns (value: Option<R>, err: Option<Error>, streamed: seq<seq<Byte>>)
      modifies this
      ensures var r := RunTx(tx, old(data), body);
        value == r.value && err == r.err && streamed == r.streamed && data == r.store
      ensures closed == old(closed)
    {
      if tx.begin.Some? {
        return None, Some(Wrapped(CreatingTxMessage, tx.begin.value)), [];
      }
      var out := body(data);
      streamed := out.streamed;
      if out.err.Some? {
        return out.result, out.err, streamed;
      }
      if tx.commit.Some? {
        return None, Some(Wrapped(CommitingTxMessage, tx.commit.value)), streamed;
      }
      data := out.writes;
      value, err := out.result, None;
    }

    /** `TxVoid(f, options)()`: the same lifecycle for a body that returns only an error. */
    method TxVoid(body: Store -> BodyOutcome<()>, tx: TxOracle) returns (err: Option<Error>, streamed: seq<seq<Byte>>)
      modifies this
      ensures var r := RunTx(tx, old(data), body);
        err == r.err && streamed == r.streamed && data == r.store
      ensures closed == old(closed)
    {
      if tx.begin.Some? {
        return Some(Wrapped(CreatingTxMessage, tx.begin.value)), [];
      }
      var out := body(data);
      streamed := out.streamed;
      if out.err.Some? {
        return out.err, streamed;
      }
      if tx.commit.Some? {
        return Some(Wrapped(CommitingTxMessage, tx.commit.value)), streamed;
      }
      data := out.writes;
      err := None;
    }
  }

  /** `Shutdown`: closes the pool when there is one; a nil service or pool is left alone. Always nil. */
  method Shutdown(s: PostgreSQLService?) returns (err: Option<Error>)
    modifies s
    ensures err.None?
    ensures s != null && s.hasPool ==> s.closed && s.data == old(s.data)
    ensures s != null && !s.hasPool ==> unchanged(s)
  {
    if s == null || !s.hasPool {
      return None;
    }
    s.closed := true;
    return None;
  }
}
