/**
 * The auth service (internal/services/auth.go): issuing an access token for
 * a login and password. One transaction on the unsharded database looks the
 * user up, checks the password digest and inserts a fresh random token,
 * retrying on a unique-constraint violation up to ten times.
 */
module Auth {
  import opened Wrappers
  import opened GoErrors
  import opened GoStrings
  import opened Utils
  import opened Postgres

  const MaxAttemptsForAccessTokenGeneration: nat := 10

  /**
   * How the database and the random source answer CreateToken: the user
   * lookup, and for each attempt the 16 random bytes the token is made from
   * and the outcome of its insert.
   */
  datatype TokenOracle = TokenOracle(
    lookup: Option<Error>,
    random: nat -> Bytes16,
    insert: nat -> Option<Error>)

  function CreateTokenMessage(login: string): string
  {
    "unable to create token for user with login '" + login + "'"
  }

  function MaxAttemptsMessage(login: string): string
  {
    "unable to create token for user with login '" + login + "' after max repeat attempts"
  }

  /**
   * The insert loop from `attempt` on, with the error of the previous attempt:
   * each attempt inserts a fresh token; a success returns it, a duplicate
   * moves on, any other failure ends the loop; after the tenth duplicate the
   * last error is reported.
   */
  function TokenAttempts(attempt: nat, login: string, ipAddr: string, userUuid: string, md5: Md5,
                         random: nat -> Bytes16, insert: nat -> Option<Error>,
                         tokens: seq<TokenRow>, lastErr: Option<Error>): (string, Option<Error>, seq<TokenRow>)
    requires 1 <= attempt <= MaxAttemptsForAccessTokenGeneration + 1
    requires attempt > 1 ==> lastErr.Some?
    decreases MaxAttemptsForAccessTokenGeneration + 1 - attempt
  {
    if attempt > MaxAttemptsForAccessTokenGeneration then
      ("", Some(Wrapped(MaxAttemptsMessage(login), lastErr.value)), tokens)
    else
      var candidate := GenerateToken(random(attempt), md5);
      match insert(attempt)
      case Some(e) =>
        if IsDuplicateKey(e) then TokenAttempts(attempt + 1, login, ipAddr, userUuid, md5, random, insert, tokens, Some(e))
        else ("", Some(Wrapped(CreateTokenMessage(login), e)), tokens)
      case None => (candidate, None, tokens + [TokenRow(candidate, userUuid, ipAddr)])
  }

  predicate Duplicate(e: Option<Error>)
  {
    e.Some? && IsDuplicateKey(e.value)
  }

  /** Only attempts up to the tenth are ever made: later outcomes do not matter. */
  lemma {:induction false} TokenAttemptsAtMostTen(attempt: nat, login: string, ipAddr: string, userUuid: string, md5: Md5,
                                                  random1: nat -> Bytes16, insert1: nat -> Option<Error>,
                                                  random2: nat -> Bytes16, insert2: nat -> Option<Error>,
                                                  tokens: seq<TokenRow>, lastErr: Option<Error>)
    requires 1 <= attempt <= MaxAttemptsForAccessTokenGeneration + 1
    requires attempt > 1 ==> lastErr.Some?
    requires forall k :: attempt <= k <= MaxAttemptsForAccessTokenGeneration ==> random1(k) == random2(k) && insert1(k) == insert2(k)
    ensures TokenAttempts(attempt, login, ipAddr, userUuid, md5, random1, insert1, tokens, lastErr)
         == TokenAttempts(attempt, login, ipAddr, userUuid, md5, random2, insert2, tokens, lastErr)
    decreases MaxAttemptsForAccessTokenGeneration + 1 - attempt
  {
    if attempt <= MaxAttemptsForAccessTokenGeneration && Duplicate(insert1(attempt)) {
      TokenAttemptsAtMostTen(attempt + 1, login, ipAddr, userUuid, md5, random1, insert1, random2, insert2, tokens, insert1(attempt));
    }
  }

  /** When every remaining attempt is a duplicate, the result is the max-attempts error wrapping the tenth one. */
  lemma {:induction false} TokenAttemptsAllDuplicates(attempt: nat, login: string, ipAddr: string, userUuid: string, md5: Md5,
                                                      random: nat -> Bytes16, insert: nat -> Option<Error>,
                                                      tokens: seq<TokenRow>, lastErr: Option<Error>)
    requires 1 <= attempt <= MaxAttemptsForAccessTokenGeneration
    requires attempt > 1 ==> lastErr.Some?
    requires forall k :: attempt <= k <= MaxAttemptsForAccessTokenGeneration ==> Duplicate(insert(k))
    requires Duplicate(insert(MaxAttemptsForAccessTokenGeneration))
    ensures TokenAttempts(attempt, login, ipAddr, userUuid, md5, random, insert, tokens, lastErr)
         == ("", Some(Wrapped(MaxAttemptsMessage(login), insert(MaxAttemptsForAccessTokenGeneration).value)), tokens)
    decreases MaxAttemptsForAccessTokenGeneration + 1 - attempt
  {
    if attempt < MaxAttemptsForAccessTokenGeneration {
      TokenAttemptsAllDuplicates(attempt + 1, login, ipAddr, userUuid, md5, random, insert, tokens, insert(attempt));
    }
  }

  /**
   * After duplicates only, the first successful insert (attempt `k`) returns
   * the token made from that attempt's random bytes and adds exactly its row.
   */
  lemma {:induction false} TokenAttemptsFirstSuccess(k: nat, attempt: nat, login: string, ipAddr: string, userUuid: string, md5: Md5,
                                                     random: nat -> Bytes16, insert: nat -> Option<Error>,
                                                     tokens: seq<TokenRow>, lastErr: Option<Error>)
    requires 1 <= attempt <= k <= MaxAttemptsForAccessTokenGeneration
    requires attempt > 1 ==> lastErr.Some?
    requires forall j :: attempt <= j < k ==> Duplicate(insert(j))
    requires insert(k).None?
    ensures var t := GenerateToken(random(k), md5);
      TokenAttempts(attempt, login, ipAddr, userUuid, md5, random, insert, tokens, lastErr)
         == (t, None, tokens + [TokenRow(t, userUuid, ipAddr)])
    decreases k - attempt
  {
    if attempt < k {
      TokenAttemptsFirstSuccess(k, attempt + 1, login, ipAddr, userUuid, md5, random, insert, tokens, insert(attempt));
    }
  }

  /** After duplicates only, the first failure of another kind ends the loop with that error, naming the login. */
  lemma {:induction false} TokenAttemptsFirstFailure(k: nat, attempt: nat, login: string, ipAddr: string, userUuid: string, md5: Md5,
                                                     random: nat -> Bytes16, insert: nat -> Option<Error>,
                                                     tokens: seq<TokenRow>, lastErr: Option<Error>)
    requires 1 <= attempt <= k <= MaxAttemptsForAccessTokenGeneration
    requires attempt > 1 ==> lastErr.Some?
    requires forall j :: attempt <= j < k ==> Duplicate(insert(j))
    requires insert(k).Some? && !IsDuplicateKey(insert(k).value)
    ensures TokenAttempts(attempt, login, ipAddr, userUuid, md5, random, insert, tokens, lastErr)
         == ("", Some(Wrapped(CreateTokenMessage(login), insert(k).value)), tokens)
    decreases k - attempt
  {
    if attempt < k {
      TokenAttemptsFirstFailure(k, attempt + 1, login, ipAddr, userUuid, md5, random, insert, tokens, insert(attempt));
    }
  }

  /** The retry loop as the source writes it, with `continue` on a duplicate. */
  method InsertToken(login: string, ipAddr: string, userUuid: string, md5: Md5,
                     random: nat -> Bytes16, insert: nat -> Option<Error>, tokens0: seq<TokenRow>)
    returns (token: string, err: Option<Error>, tokens: seq<TokenRow>)
    ensures (token, err, tokens) == TokenAttempts(1, login, ipAddr, userUuid, md5, random, insert, tokens0, None)
  {
    token := "";
    tokens := tokens0;
    var internalErr: Option<Error> := None;
    var attempt := 1;
    while attempt <= MaxAttemptsForAccessTokenGeneration
      invariant 1 <= attempt <= MaxAttemptsForAccessTokenGeneration + 1
      invariant attempt > 1 ==> internalErr.Some?
      invariant tokens == tokens0
      invariant TokenAttempts(attempt, login, ipAddr, userUuid, md5, random, insert, tokens, internalErr)
             == TokenAttempts(1, login, ipAddr, userUuid, md5, random, insert, tokens0, None)
    {
      var candidate := GenerateToken(random(attempt), md5);
      internalErr := insert(attempt);
      if internalErr.Some? {
        if IsDuplicateKey(internalErr.value) {
          token := "";
          attempt := attempt + 1;
          continue;
        }
        return "", Some(Wrapped(CreateTokenMessage(login), internalErr.value)), tokens;
      }
      token := candidate;
      return token, None, tokens + [TokenRow(token, userUuid, ipAddr)];
    }
    return "", Some(Wrapped(MaxAttemptsMessage(login), internalErr.value)), tokens;
  }

  /**
   * The body of CreateToken. A failed lookup other than no-rows is returned
   * as is; with no row the user stays empty, so its password hash is "".
   */
  function CreateTokenBody(login: string, password: string, ipAddr: string, md5: Md5, o: TokenOracle, s: Store): BodyOutcome<string>
  {
    var found := if o.lookup.Some? then None else FindUserByLogin(s.users, login);
    var lookupErr := if o.lookup.Some? then o.lookup else if found.None? then Some(Sentinel(NoRows)) else None;
    if lookupErr.Some? && !Is(lookupErr.value, NoRows) then
      if Is(lookupErr.value, NoRows) then BodyOutcome(Some(""), Some(Sentinel(UserNotFound)), s, [])
      else BodyOutcome(Some(""), lookupErr, s, [])
    else
      var u := if found.Some? then s.users[found.value] else UserRow("", "", "");
      if MD5Hash(password, md5) != u.passwordHash then BodyOutcome(Some(""), Some(Sentinel(InvalidPasswod)), s, [])
      else
        var (token, err, tokens) := TokenAttempts(1, login, ipAddr, u.uuid, md5, o.random, o.insert, s.tokens, None);
        BodyOutcome(Some(token), err, s.(tokens := tokens), [])
  }

  /**
   * The password is checked before any insert: an unknown login (whose empty
   * hash no 32-character digest equals) or a wrong password gives
   * ErrInvalidPasswod and writes nothing; ErrUserNotFound is never produced by
   * the lookup branch; other lookup errors come back unchanged.
   */
  lemma CreateTokenChecks(login: string, password: string, ipAddr: string, md5: Md5, o: TokenOracle, s: Store)
    ensures var b := CreateTokenBody(login, password, ipAddr, md5, o, s);
      && (o.lookup.None? && FindUserByLogin(s.users, login).None? ==>
            b.err == Some(Sentinel(InvalidPasswod)) && b.writes == s)
      && (o.lookup.None? && FindUserByLogin(s.users, login).Some?
          && s.users[FindUserByLogin(s.users, login).value].passwordHash != MD5Hash(password, md5) ==>
            b.err == Some(Sentinel(InvalidPasswod)) && b.writes == s)
      && (o.lookup.Some? && !Is(o.lookup.value, NoRows) ==> b.err == o.lookup && b.writes == s)
      && (b.err == Some(Sentinel(UserNotFound)) ==> o.lookup == Some(Sentinel(UserNotFound)))
  {
  }

  /**
   * The unknown-login case as the source evidently meant it: the nested check
   * for no-rows inside the "not no-rows" branch can never hold, so a missing
   * user is reported as a wrong password. Intended: a lookup that finds no row
   * gives ErrUserNotFound; everything else is as written.
   */
  function CreateTokenBodyIntended(login: string, password: string, ipAddr: string, md5: Md5, o: TokenOracle, s: Store): BodyOutcome<string>
  {
    var noRow := if o.lookup.Some? then Is(o.lookup.value, NoRows) else FindUserByLogin(s.users, login).None?;
    if noRow then BodyOutcome(Some(""), Some(Sentinel(UserNotFound)), s, [])
    else CreateTokenBody(login, password, ipAddr, md5, o, s)
  }

  /** The source as written: a login no row has is answered as a wrong password. */
  lemma UnknownLoginIsInvalidPassword(password: string, ipAddr: string, md5: Md5, o: TokenOracle)
    requires o.lookup.None?
    ensures CreateTokenBody("nobody", password, ipAddr, md5, o, Store([], map[], [], [])).err == Some(Sentinel(InvalidPasswod))
  {
    CreateTokenChecks("nobody", password, ipAddr, md5, o, Store([], map[], [], []));
  }

  /**
   * The intended body: a login no row has is ErrUserNotFound and writes
   * nothing; a known login gets exactly the outcome of the body as written.
   */
  lemma CreateTokenIntendedUserNotFound(login: string, password: string, ipAddr: string, md5: Md5, o: TokenOracle, s: Store)
    ensures o.lookup.None? && FindUserByLogin(s.users, login).None? ==>
      CreateTokenBodyIntended(login, password, ipAddr, md5, o, s) == BodyOutcome(Some(""), Some(Sentinel(UserNotFound)), s, [])
    ensures o.lookup.None? && FindUserByLogin(s.users, login).Some? ==>
      CreateTokenBodyIntended(login, password, ipAddr, md5, o, s) == CreateTokenBody(login, password, ipAddr, md5, o, s)
    ensures o.lookup.Some? && !Is(o.lookup.value, NoRows) ==>
      CreateTokenBodyIntended(login, password, ipAddr, md5, o, s) == CreateTokenBody(login, password, ipAddr, md5, o, s)
  {
  }

  /** With a matching password, the body's outcome is the insert loop's: token, error, and the rows it added. */
  lemma CreateTokenAfterPassword(login: string, password: string, ipAddr: string, md5: Md5, o: TokenOracle, s: Store)
    requires o.lookup.None? && FindUserByLogin(s.users, login).Some?
    requires s.users[FindUserByLogin(s.users, login).value].passwordHash == MD5Hash(password, md5)
    ensures var u := s.users[FindUserByLogin(s.users, login).value];
      var (token, err, tokens) := TokenAttempts(1, login, ipAddr, u.uuid, md5, o.random, o.insert, s.tokens, None);
      CreateTokenBody(login, password, ipAddr, md5, o, s) == BodyOutcome(Some(token), err, s.(tokens := tokens), [])
  {
  }

  /** CreateToken's answer once the transaction ran. */
  function TokenAnswer(value: Option<string>, err: Option<Error>): (string, Option<Error>)
  {
    if err.Some? then ("", err)
    else if value.None? then ("", Some(Leaf("unable to convert result into string")))
    else (value.value, None)
  }

  class AuthService {
    const client: PostgreSQLService

    /** `CreateAuthService(client)`. */
    constructor (client: PostgreSQLService)
      ensures this.client == client
    {
      this.client := client;
    }

    /** `CreateToken(login, password, ipAddr)`: one transaction on the unsharded database. */
    method CreateToken(login: string, password: string, ipAddr: string, md5: Md5, tx: TxOracle, o: TokenOracle)
      returns (token: string, err: Option<Error>)
      modifies client
      ensures var r := RunTx(tx, old(client.data), (t: Store) => CreateTokenBody(login, password, ipAddr, md5, o, t));
        (token, err) == TokenAnswer(r.value, r.err) && client.data == r.store
      ensures client.closed == old(client.closed)
    {
      var value, e, streamed := client.Tx((t: Store) => CreateTokenBody(login, password, ipAddr, md5, o, t), tx);
      if e.Some? {
        return "", e;
      }
      if value.None? {
        return "", Some(Leaf("unable to convert result into string"));
      }
      return value.value, None;
    }

    /** `GetToken`: not implemented, whatever the arguments. */
    method GetToken(token: string, userUuid: string, ipAddr: string) returns (err: Option<Error>)
      ensures err == Some(Leaf("not implemented"))
    {
      return Some(Leaf("not implemented"));
    }
  }
}
