/**
 * The users service (internal/services/users.go): a login is free when no
 * shard holds a user with it; a new user gets a pseudo-UUID, and its row
 * (uuid, login, MD5 hex of the password) goes to the shard the uuid routes to.
 * `getMD5Hash` is `Utils.MD5Hash` and `newPseudoUUID` is `Utils.PseudoUUID`:
 * the source writes the same expressions in both places.
 */
module Users {
  import opened Wrappers
  import opened GoErrors
  import opened GoStrings
  import opened Utils
  import opened Shard
  import opened Postgres
  import opened Sharding

  // ------------------------------------------------------ CheckUserExistence

  /** How one shard answers the existence check: its transaction and its lookup. */
  datatype ShardOracle = ShardOracle(tx: TxOracle, lookup: Option<Error>)

  function ExistenceMessage(login: string): string
  {
    "unable to check user existence with login '" + login + "'"
  }

  /**
   * The per-shard body: the uuid of the first user with the login. No row is
   * the no-rows sentinel, returned unwrapped with an empty uuid; any other
   * failure is wrapped with the login.
   */
  function LookupUuidBody(login: string, lookup: Option<Error>, s: Store): BodyOutcome<string>
  {
    var found := if lookup.Some? then None else FindUserByLogin(s.users, login);
    var internalErr := if lookup.Some? then lookup else if found.None? then Some(Sentinel(NoRows)) else None;
    var uuid := if found.Some? then s.users[found.value].uuid else "";
    if internalErr.Some? && !Is(internalErr.value, NoRows) then
      BodyOutcome(Some(""), Some(Wrapped(ExistenceMessage(login), internalErr.value)), s, [])
    else BodyOutcome(Some(uuid), internalErr, s, [])
  }

  /** What shard `i`'s transaction reports. */
  function ShardLookup(stores: seq<Store>, login: string, oracles: nat -> ShardOracle, i: nat): TxResult<string>
    requires i < |stores|
  {
    RunTx(oracles(i).tx, stores[i], (t: Store) => LookupUuidBody(login, oracles(i).lookup, t))
  }

  /** Shard `i` lets the scan go on: it reported exactly the no-rows sentinel, or an empty uuid. */
  predicate Passes(stores: seq<Store>, login: string, oracles: nat -> ShardOracle, i: nat)
    requires i < |stores|
  {
    var r := ShardLookup(stores, login, oracles, i);
    if r.err.Some? then r.err.value == Sentinel(NoRows)
    else r.value.Some? && |r.value.value| == 0
  }

  /** The answer of a shard that does not pass: its error, the conversion error, or "taken". */
  function Verdict(r: TxResult<string>): (v: (bool, Option<Error>))
    ensures !v.0
    ensures r.err.Some? ==> v.1 == r.err
    ensures r.err.None? && r.value.None? ==> v.1 == Some(Leaf("unable to convert result into string"))
    ensures r.err.None? && r.value.Some? ==> v.1.None?
  {
    if r.err.Some? then (false, r.err)
    else if r.value.None? then (false, Some(Leaf("unable to convert result into string")))
    else (false, None)
  }

  /**
   * The scan over shards from `i` on: a passing shard moves on, and the first
   * shard that does not pass decides.
   */
  function ExistenceFrom(stores: seq<Store>, login: string, oracles: nat -> ShardOracle, i: nat): (bool, Option<Error>)
    requires i <= |stores|
    decreases |stores| - i
  {
    if i == |stores| then (true, None)
    else if Passes(stores, login, oracles, i) then ExistenceFrom(stores, login, oracles, i + 1)
    else Verdict(ShardLookup(stores, login, oracles, i))
  }

  /** One step of the scan: shard `i` passes and the scan goes on, or it decides. */
  lemma ExistenceStep(stores: seq<Store>, login: string, oracles: nat -> ShardOracle, i: nat)
    requires i < |stores|
    ensures ExistenceFrom(stores, login, oracles, i)
         == if Passes(stores, login, oracles, i) then ExistenceFrom(stores, login, oracles, i + 1)
            else Verdict(ShardLookup(stores, login, oracles, i))
  {
  }

  /** The login is free exactly when every shard from `i` on passes. */
  lemma {:induction false} FreeIffAllPass(stores: seq<Store>, login: string, oracles: nat -> ShardOracle, i: nat)
    requires i <= |stores|
    ensures ExistenceFrom(stores, login, oracles, i) == (true, None)
        <==> forall j :: i <= j < |stores| ==> Passes(stores, login, oracles, j)
    decreases |stores| - i
  {
    if i < |stores| {
      FreeIffAllPass(stores, login, oracles, i + 1);
    }
  }

  /**
   * A `false` answer without an error comes from the first shard that does
   * not pass: that shard holds a user with this login and a non-empty uuid.
   */
  lemma {:induction false} TakenAtFirstNonPassing(stores: seq<Store>, login: string, oracles: nat -> ShardOracle, i: nat)
    requires i <= |stores|
    requires ExistenceFrom(stores, login, oracles, i) == (false, None)
    ensures exists k ::
      i <= k < |stores| && TakenAt(stores, login, oracles, k) && (forall j :: i <= j < k ==> Passes(stores, login, oracles, j))
    decreases |stores| - i
  {
    if Passes(stores, login, oracles, i) {
      TakenAtFirstNonPassing(stores, login, oracles, i + 1);
      var k :| i + 1 <= k < |stores| && TakenAt(stores, login, oracles, k)
        && (forall j :: i + 1 <= j < k ==> Passes(stores, login, oracles, j));
      assert forall j :: i <= j < k ==> Passes(stores, login, oracles, j);
    } else {
      assert TakenAt(stores, login, oracles, i);
    }
  }

  /**
   * A failed check comes from the first shard that does not pass: every
   * shard before it passed, and the error is that shard's own transaction
   * error, returned as it is, or the conversion error when the shard
   * returned no value. A failed check always answers `false`.
   */
  lemma {:induction false} ErrorAtFirstNonPassing(stores: seq<Store>, login: string, oracles: nat -> ShardOracle, i: nat)
    requires i <= |stores|
    requires ExistenceFrom(stores, login, oracles, i).1.Some?
    ensures !ExistenceFrom(stores, login, oracles, i).0
    ensures exists k ::
      && i <= k < |stores| && !Passes(stores, login, oracles, k)
      && (forall j :: i <= j < k ==> Passes(stores, login, oracles, j))
      && ErrorOf(ShardLookup(stores, login, oracles, k)) == ExistenceFrom(stores, login, oracles, i).1.value
    decreases |stores| - i
  {
    if Passes(stores, login, oracles, i) {
      ErrorAtFirstNonPassing(stores, login, oracles, i + 1);
      var k :| i + 1 <= k < |stores| && !Passes(stores, login, oracles, k)
        && (forall j :: i + 1 <= j < k ==> Passes(stores, login, oracles, j))
        && ErrorOf(ShardLookup(stores, login, oracles, k)) == ExistenceFrom(stores, login, oracles, i + 1).1.value;
      assert forall j :: i <= j < k ==> Passes(stores, login, oracles, j);
    } else {
      assert ErrorOf(ShardLookup(stores, login, oracles, i)) == ExistenceFrom(stores, login, oracles, i).1.value;
    }
  }

  /** The error a shard's report turns into: its transaction error, else the conversion error. */
  function ErrorOf(r: TxResult<string>): Error
  {
    if r.err.Some? then r.err.value else Leaf("unable to convert result into string")
  }

  /** Shard `i` reported a user with this login and a non-empty uuid. */
  predicate TakenAt(stores: seq<Store>, login: string, oracles: nat -> ShardOracle, i: nat)
    requires i < |stores|
  {
    var r := ShardLookup(stores, login, oracles, i);
    r.err.None? && r.value.Some? && |r.value.value| > 0
  }

  /** A healthy shard (transaction and lookup succeed) passes exactly when it holds no user with this login, or one with an empty uuid. */
  lemma PassesWhenHealthy(stores: seq<Store>, login: string, oracles: nat -> ShardOracle, i: nat)
    requires i < |stores|
    requires oracles(i) == ShardOracle(TxOracle(None, None), None)
    ensures Passes(stores, login, oracles, i) <==>
      var f := FindUserByLogin(stores[i].users, login);
      f.None? || stores[i].users[f.value].uuid == ""
  {
  }

  // -------------------------------------------------------------- CreateUser

  /** The error CreateUser reports for a failed insert: a constraint violation is the bare sentinel. */
  function InsertUserError(login: string, e: Error): Error
  {
    match AsPgCode(e)
    case Some(code) =>
      if code == DuplicateErrorCode then Sentinel(DuplicateUser)
      else Wrapped("unable to insert user with login '" + login + "'", e)
    case None => Wrapped("unable to insert user with login '" + login + "'", e)
  }

  /** The body of CreateUser's transaction. */
  function InsertUserBody(userUuid: string, login: string, passwordHash: string, insert: Option<Error>, s: Store): BodyOutcome<()>
  {
    match insert
    case Some(e) => BodyOutcome(None, Some(InsertUserError(login, e)), s, [])
    case None => BodyOutcome(None, None, s.(users := s.users + [UserRow(userUuid, login, passwordHash)]), [])
  }

  /** The outcome of CreateUser: its error, and the shard written with its new data, if any. */
  datatype CreateUserResult = CreateUserResult(err: Option<Error>, write: Option<(nat, Store)>)

  function CreateUserSpec(stores: seq<Store>, login: string, password: string, md5: Md5,
                          random: Result<Bytes16, Error>, oracles: nat -> ShardOracle,
                          tx: TxOracle, insert: Option<Error>): CreateUserResult
    requires |stores| >= 1
  {
    var (ok, e) := ExistenceFrom(stores, login, oracles, 0);
    if e.Some? then CreateUserResult(Some(Wrapped("unable to check user existence", e.value)), None)
    else if !ok then CreateUserResult(Some(Sentinel(DuplicateUser)), None)
    else
      var (userUuid, ue) := PseudoUUID(random);
      if ue.Some? then CreateUserResult(Some(Wrapped("unable to create uuid for user", ue.value)), None)
      else
        var i := ShardOf(|stores|, userUuid);
        ShardOfInRange(|stores|, userUuid);
        var r := RunTx(tx, stores[i], (t: Store) => InsertUserBody(userUuid, login, MD5Hash(password, md5), insert, t));
        CreateUserResult(r.err, Some((i, r.store)))
  }

  /**
   * A taken login is ErrDuplicateUser and nothing is generated or written; a
   * failed check is wrapped; a failed random read is wrapped.
   */
  lemma CreateUserRefusals(stores: seq<Store>, login: string, password: string, md5: Md5,
                           random: Result<Bytes16, Error>, oracles: nat -> ShardOracle,
                           tx: TxOracle, insert: Option<Error>)
    requires |stores| >= 1
    ensures var ex := ExistenceFrom(stores, login, oracles, 0);
      var r := CreateUserSpec(stores, login, password, md5, random, oracles, tx, insert);
      && (ex == (false, None) ==> r == CreateUserResult(Some(Sentinel(DuplicateUser)), None))
      && (ex.1.Some? ==> r.write.None? && r.err.Some? && (forall k :: Is(r.err.value, k) <==> Is(ex.1.value, k)))
      && (ex == (true, None) && random.Err? ==> r.write.None? && r.err == Some(Wrapped("unable to create uuid for user", random.error)))
  {
  }

  /**
   * When the login is free and everything succeeds, exactly one row is added,
   * to the shard its new uuid routes to, holding the uuid, the login and the
   * MD5 hex of the password.
   */
  lemma CreateUserWritesHomeShard(stores: seq<Store>, login: string, password: string, md5: Md5,
                                  random: Bytes16, oracles: nat -> ShardOracle)
    requires |stores| >= 1
    requires ExistenceFrom(stores, login, oracles, 0) == (true, None)
    ensures var userUuid := FormatUUID(random);
      var i := ShardOf(|stores|, userUuid);
      CreateUserSpec(stores, login, password, md5, Ok(random), oracles, TxOracle(None, None), None)
        == CreateUserResult(None, Some((i, stores[i].(users := stores[i].users + [UserRow(userUuid, login, MD5Hash(password, md5))]))))
  {
  }

  /** An insert that hits the unique constraint gives the bare ErrDuplicateUser; other failures stay transparent. */
  lemma InsertUserErrorClassified(login: string, e: Error)
    ensures IsDuplicateKey(e) ==> InsertUserError(login, e) == Sentinel(DuplicateUser)
    ensures !IsDuplicateKey(e) ==> forall k :: Is(InsertUserError(login, e), k) <==> Is(e, k)
  {
  }

  // ---------------------------------------------------------------- service

  class UsersService {
    const clientShards: seq<PostgreSQLService>
    const ShardsNum: nat
    const shardService: ShardService

    ghost predicate Valid()
      reads shardService, shardService.hasher
    {
      Routing(clientShards, ShardsNum, shardService) && ShardsNum >= 1
    }

    /** The data of every shard, in shard order. */
    function Stores(): (stores: seq<Store>)
      reads clientShards
      ensures |stores| == |clientShards|
      ensures forall i :: 0 <= i < |clientShards| ==> stores[i] == clientShards[i].data
    {
      seq(|clientShards|, i reads clientShards requires 0 <= i < |clientShards| => clientShards[i].data)
    }

    /** `CreateUsersService(clients)`; an empty list makes the source panic. */
    constructor (clients: seq<PostgreSQLService>)
      requires |clients| >= 1
      ensures Valid() && clientShards == clients && ShardsNum == |clients|
      ensures fresh(shardService) && fresh(shardService.hasher)
    {
      clientShards := clients;
      ShardsNum := |clients|;
      shardService := new ShardService(|clients|);
    }

    /** `CheckUserExistence(login)`: asks every shard in order; `true` means the login is free. */
    method CheckUserExistence(login: string, oracles: nat -> ShardOracle) returns (ok: bool, err: Option<Error>)
      modifies clientShards
      ensures (ok, err) == ExistenceFrom(old(Stores()), login, oracles, 0)
      ensures forall c :: c in clientShards ==> c.data == old(c.data) && c.closed == old(c.closed)
    {
      ghost var stores := Stores();
      var shard := 0;
      while shard < |clientShards|
        invariant 0 <= shard <= |clientShards|
        invariant forall c :: c in clientShards ==> c.data == old(c.data) && c.closed == old(c.closed)
        invariant ExistenceFrom(stores, login, oracles, shard) == ExistenceFrom(stores, login, oracles, 0)
      {
        var c := clientShards[shard];
        ghost var r := ShardLookup(stores, login, oracles, shard);
        ExistenceStep(stores, login, oracles, shard);
        var userUuid, e, streamed := c.Tx((t: Store) => LookupUuidBody(login, oracles(shard).lookup, t), oracles(shard).tx);
        ReadOnlyTx(oracles(shard).tx, stores[shard], (t: Store) => LookupUuidBody(login, oracles(shard).lookup, t));
        assert userUuid == r.value && e == r.err && c.data == old(c.data);
        if e.Some? {
          if e.value == Sentinel(NoRows) {
            shard := shard + 1;
            continue;
          }
          return false, e;
        }
        if userUuid.None? {
          return false, Some(Leaf("unable to convert result into string"));
        }
        if |userUuid.value| > 0 {
          return false, None;
        }
        shard := shard + 1;
      }
      return true, None;
    }

    /** `CreateUser(login, password)`; `random` is the outcome of reading 16 random bytes. */
    method CreateUser(login: string, password: string, md5: Md5, random: Result<Bytes16, Error>,
                      oracles: nat -> ShardOracle, tx: TxOracle, insert: Option<Error>)
      returns (err: Option<Error>)
      requires Valid()
      modifies clientShards, shardService.hasher
      ensures Valid()
      ensures var r := CreateUserSpec(old(Stores()), login, password, md5, random, oracles, tx, insert);
        && err == r.err
        && (r.write.None? ==> forall c :: c in clientShards ==> c.data == old(c.data))
        && (r.write.Some? ==>
              && r.write.value.0 < |clientShards| && clientShards[r.write.value.0].data == r.write.value.1
              && forall c :: c in clientShards && c != clientShards[r.write.value.0] ==> c.data == old(c.data))
      ensures forall c :: c in clientShards ==> c.closed == old(c.closed)
    {
      ghost var stores := Stores();
      var ok, e := CheckUserExistence(login, oracles);
      assert Stores() == stores by {
        assert forall j :: 0 <= j < |clientShards| ==> clientShards[j] in clientShards;
      }
      if e.Some? {
        return Some(Wrapped("unable to check user existence", e.value));
      }
      if !ok {
        return Some(Sentinel(DuplicateUser));
      }
      var (userUuid, ue) := PseudoUUID(random);
      if ue.Some? {
        return Some(Wrapped("unable to create uuid for user", ue.value));
      }
      var client := Route(clientShards, shardService, userUuid);
      var streamed;
      err, streamed := client.TxVoid((t: Store) => InsertUserBody(userUuid, login, MD5Hash(password, md5), insert, t), tx);
    }
  }
}
