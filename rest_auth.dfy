/**
 * Request parsing and the token retry of the REST layer's authentication
 * (internal/api/rest/v1/auth.go): the client address taken from the remote
 * address, the token taken from the `Authorization` header, and the loop
 * that repeats token creation after a duplicate token.
 *
 * The regexps used here match single lines: `.` never matches '\n', and
 * `^`/`$` anchor at the ends of the whole text.
 */
module RestAuth {
  import opened Wrappers
  import opened GoErrors
  import opened GoStrings

  const WrongMatchesMessage := "wrong len of matches"
  const MissedAuthorizationMessage := "missed 'Authorization' header"
  const BearerOnlyMessage := "supported only 'Authorization' header with Bearer token"

  // ------------------------------------------------------------ parseIpAddr

  /**
   * `parseIpAddr(remoteAddr)` with the regexp `^(.+):.+$`: the greedy group
   * ends at the last ':' that has text on both sides, and the group is the
   * text before it. Without such a ':' the match fails.
   */
  function ParseIpAddr(remoteAddr: string): (r: Result<string, Error>)
    ensures r.Ok? <==> '\n' !in remoteAddr && exists k :: SplitsAt(remoteAddr, ":", k)
    ensures r.Ok? ==> exists k :: SplitsAt(remoteAddr, ":", k) && (forall j :: k < j ==> !SplitsAt(remoteAddr, ":", j))
                                  && r.value == remoteAddr[..k] && |r.value| >= 1
    ensures r.Err? ==> r.error == Leaf(WrongMatchesMessage)
  {
    if '\n' in remoteAddr then Err(Leaf(WrongMatchesMessage))
    else
      match LastSplit(remoteAddr, ":")
      case None => Err(Leaf(WrongMatchesMessage))
      case Some(k) => Ok(remoteAddr[..k])
  }

  /** A host and a port without ':' joined by ':' give the host back, whatever ':' the host holds. */
  lemma ParseIpAddrHostPort(host: string, port: string)
    requires |host| >= 1 && |port| >= 1
    requires '\n' !in host && '\n' !in port && ':' !in port
    ensures ParseIpAddr(host + ":" + port) == Ok(host)
  {
    var s := host + ":" + port;
    var k := |host|;
    assert s[k..k + 1] == ":";
    assert SplitsAt(s, ":", k);
    forall j | k < j
      ensures !SplitsAt(s, ":", j)
    {
      if 1 <= j && j + 1 < |s| {
        assert s[j] == port[j - k - 1];
        assert s[j..j + 1][0] == s[j];
      }
    }
    assert LastSplit(s, ":") == Some(k);
    assert '\n' !in s by {
      forall i | 0 <= i < |s|
        ensures s[i] != '\n'
      {
        if i < |host| {
          assert s[i] == host[i];
        } else if i > |host| {
          assert s[i] == port[i - |host| - 1];
        }
      }
    }
    assert s[..|host|] == host;
  }

  /** The address from the source's test. */
  lemma ParseIpAddrExample()
    ensures ParseIpAddr("192.168.65.1:62297") == Ok("192.168.65.1")
  {
    assert "192.168.65.1:62297" == "192.168.65.1" + ":" + "62297";
    ParseIpAddrHostPort("192.168.65.1", "62297");
  }

  // ------------------------------------------------------------ parseAuthorizationHeader

  /** The prefix the regexp `^Bearer (.+)$` needs before the token. */
  const BearerPrefix := "Bearer "

  /**
   * `parseAuthorizationHeader(header)`: an empty header and one not
   * starting with "Bearer" are refused with their own messages; otherwise the
   * token is the non-empty single-line text after "Bearer ".
   */
  function ParseAuthorizationHeader(header: string): (r: Result<string, Error>)
    ensures |header| == 0 ==> r == Err(Leaf(MissedAuthorizationMessage))
    ensures |header| > 0 && !HasPrefix(header, "Bearer") ==> r == Err(Leaf(BearerOnlyMessage))
    ensures r.Ok? ==> header == BearerPrefix + r.value && |r.value| >= 1 && '\n' !in r.value
    ensures r.Err? ==> r.error in {Leaf(MissedAuthorizationMessage), Leaf(BearerOnlyMessage), Leaf(WrongMatchesMessage)}
  {
    if |header| <= 0 then Err(Leaf(MissedAuthorizationMessage))
    else if !HasPrefix(header, "Bearer") then Err(Leaf(BearerOnlyMessage))
    else if HasPrefix(header, BearerPrefix) && |header| > |BearerPrefix| && '\n' !in header[|BearerPrefix|..] then
      Ok(header[|BearerPrefix|..])
    else Err(Leaf(WrongMatchesMessage))
  }

  /** Every non-empty single-line token sent as "Bearer <token>" is read back. */
  lemma BearerRoundTrip(token: string)
    requires |token| >= 1 && '\n' !in token
    ensures ParseAuthorizationHeader(BearerPrefix + token) == Ok(token)
  {
    var h := BearerPrefix + token;
    assert h[..6] == "Bearer";
    assert h[..|BearerPrefix|] == BearerPrefix;
    assert h[|BearerPrefix|..] == token;
  }

  /** "Bearer" alone, "Bearer " with nothing after it and "Bearerxyz" pass the prefix check but do not match. */
  lemma BearerWithoutToken()
    ensures ParseAuthorizationHeader("Bearer") == Err(Leaf(WrongMatchesMessage))
    ensures ParseAuthorizationHeader("Bearer ") == Err(Leaf(WrongMatchesMessage))
    ensures ParseAuthorizationHeader("Bearerxyz") == Err(Leaf(WrongMatchesMessage))
    ensures ParseAuthorizationHeader("Basic abc") == Err(Leaf(BearerOnlyMessage))
  {
    assert "Bearer"[..6] == "Bearer";
    assert "Bearer "[..6] == "Bearer";
    assert "Bearerxyz"[..6] == "Bearer";
    assert "Bearerxyz"[..7] != BearerPrefix by { assert "Bearerxyz"[6] == 'x'; }
    assert "Basic abc"[..6] != "Bearer" by { assert "Basic abc"[1] == 'a'; }
  }

  // ------------------------------------------------------------ createOrUpdateToken

  /** What one call of the token service answered. */
  datatype TokenReply = TokenReply(token: string, err: Option<Error>)

  /** The retries after a duplicate token. */
  const MaxAttempts: nat := 10

  /** The reply failed with an error wrapping ErrDuplicateAccessToken. */
  predicate IsDuplicateToken(r: TokenReply)
  {
    r.err.Some? && Is(r.err.value, DuplicateAccessToken)
  }

  /**
   * The retries from `attempt` on, after `last` was the latest reply: the
   * reply returned and the number of calls made. A duplicate goes on, another
   * error returns at once with an empty token, and a success goes on as well:
   * the loop has no exit on success.
   */
  function RetryFrom(call: nat -> TokenReply, attempt: nat, last: TokenReply): (TokenReply, nat)
    requires attempt >= 1
    decreases MaxAttempts + 1 - attempt
  {
    if attempt > MaxAttempts then (last, 0)
    else
      var r := call(attempt);
      if IsDuplicateToken(r) then
        var (reply, calls) := RetryFrom(call, attempt + 1, r);
        (reply, calls + 1)
      else if r.err.Some? then (TokenReply("", r.err), 1)
      else
        var (reply, calls) := RetryFrom(call, attempt + 1, r);
        (reply, calls + 1)
  }

  /**
   * `createOrUpdateToken` as a value, with `call(i)` the reply of the i-th
   * call (0 for the first): the reply returned and the number of calls made.
   */
  function CreateOrUpdateTokenSpec(call: nat -> TokenReply): (TokenReply, nat)
  {
    var first := call(0);
    if IsDuplicateToken(first) then
      var (reply, calls) := RetryFrom(call, 1, first);
      (reply, calls + 1)
    else (first, 1)
  }

  /** `createOrUpdateToken(login, password, ipAddr)`: one call, and up to ten more after a duplicate. */
  method CreateOrUpdateToken(call: nat -> TokenReply) returns (token: string, err: Option<Error>, calls: nat)
    ensures (TokenReply(token, err), calls) == CreateOrUpdateTokenSpec(call)
  {
    var reply := call(0);
    calls := 1;
    token, err := reply.token, reply.err;
    if err.Some? && Is(err.value, DuplicateAccessToken) {
      var attempt := 1;
      while attempt <= MaxAttempts
        invariant 1 <= attempt <= MaxAttempts + 1
        invariant var (r, c) := RetryFrom(call, attempt, TokenReply(token, err));
          CreateOrUpdateTokenSpec(call) == (r, calls + c)
        decreases MaxAttempts + 1 - attempt
      {
        reply := call(attempt);
        calls := calls + 1;
        token, err := reply.token, reply.err;
        if err.Some? && Is(err.value, DuplicateAccessToken) {
          attempt := attempt + 1;
          continue;
        }
        if err.Some? {
          return "", err, calls;
        }
        attempt := attempt + 1;
      }
    }
  }

  /** The retries make at most one call per remaining attempt. */
  lemma {:induction false} RetryFromBounded(call: nat -> TokenReply, attempt: nat, last: TokenReply)
    requires 1 <= attempt
    ensures RetryFrom(call, attempt, last).1 <= MaxAttempts + 1 - attempt || (attempt > MaxAttempts && RetryFrom(call, attempt, last).1 == 0)
    decreases MaxAttempts + 1 - attempt
  {
    if attempt <= MaxAttempts {
      RetryFromBounded(call, attempt + 1, call(attempt));
    }
  }

  /** A first reply that is not a duplicate is returned as it is, after one call. */
  lemma FirstReplyKept(call: nat -> TokenReply)
    requires !IsDuplicateToken(call(0))
    ensures CreateOrUpdateTokenSpec(call) == (call(0), 1)
  {
  }

  /** At most 1 + MaxAttempts calls are made. */
  lemma AtMostElevenCalls(call: nat -> TokenReply)
    ensures 1 <= CreateOrUpdateTokenSpec(call).1 <= 1 + MaxAttempts
  {
    if IsDuplicateToken(call(0)) {
      RetryFromBounded(call, 1, call(0));
    }
  }

  /** Replies `attempt`..`MaxAttempts` all succeed or are duplicates. */
  predicate NoOtherErrorFrom(call: nat -> TokenReply, attempt: nat)
  {
    forall j :: attempt <= j <= MaxAttempts ==> call(j).err.None? || IsDuplicateToken(call(j))
  }

  /** Without any other error, every remaining attempt is made and the last reply is returned. */
  lemma {:induction false} RetryFromRunsOut(call: nat -> TokenReply, attempt: nat, last: TokenReply)
    requires 1 <= attempt <= MaxAttempts
    requires NoOtherErrorFrom(call, attempt)
    ensures RetryFrom(call, attempt, last) == (call(MaxAttempts), MaxAttempts + 1 - attempt)
    decreases MaxAttempts + 1 - attempt
  {
    if attempt < MaxAttempts {
      RetryFromRunsOut(call, attempt + 1, call(attempt));
    }
  }

  /**
   * After a first duplicate, a success does not end the retries: unless some
   * retry fails with another error, all ten are made and the tenth reply is
   * returned, even when that one is a duplicate again.
   */
  lemma NoExitOnSuccess(call: nat -> TokenReply)
    requires IsDuplicateToken(call(0))
    requires NoOtherErrorFrom(call, 1)
    ensures CreateOrUpdateTokenSpec(call) == (call(MaxAttempts), 1 + MaxAttempts)
  {
    RetryFromRunsOut(call, 1, call(0));
  }

  /**
   * The source as written: a first duplicate, then a retry that succeeds,
   * then duplicates only. The token created by the second call is dropped
   * and the tenth retry's duplicate error is returned, after 11 calls.
   */
  lemma SuccessThenDuplicatesLosesToken()
    ensures var call := (i: nat) => if i == 1 then TokenReply("token", None) else TokenReply("", Some(Sentinel(DuplicateAccessToken)));
      CreateOrUpdateTokenSpec(call) == (TokenReply("", Some(Sentinel(DuplicateAccessToken))), 11)
  {
    var call := (i: nat) => if i == 1 then TokenReply("token", None) else TokenReply("", Some(Sentinel(DuplicateAccessToken)));
    assert IsDuplicateToken(call(0));
    assert NoOtherErrorFrom(call, 1);
    NoExitOnSuccess(call);
  }

  /** The retries as evidently intended: a success ends them, like another error does. */
  function RetryFromIntended(call: nat -> TokenReply, attempt: nat, last: TokenReply): (TokenReply, nat)
    requires attempt >= 1
    decreases MaxAttempts + 1 - attempt
  {
    if attempt > MaxAttempts then (last, 0)
    else
      var r := call(attempt);
      if IsDuplicateToken(r) then
        var (reply, calls) := RetryFromIntended(call, attempt + 1, r);
        (reply, calls + 1)
      else if r.err.Some? then (TokenReply("", r.err), 1)
      else (r, 1)
  }

  /** The intended retries return the first retry that does not fail with a duplicate, after k + 1 - attempt calls. */
  lemma {:induction false} RetryFromIntendedStopsAtSuccess(call: nat -> TokenReply, attempt: nat, k: nat, last: TokenReply)
    requires 1 <= attempt <= k <= MaxAttempts
    requires forall j :: attempt <= j < k ==> IsDuplicateToken(call(j))
    requires call(k).err.None?
    ensures RetryFromIntended(call, attempt, last) == (call(k), k + 1 - attempt)
    decreases k - attempt
  {
    if attempt < k {
      RetryFromIntendedStopsAtSuccess(call, attempt + 1, k, call(attempt));
    }
  }

  /** The first retry failing with another error ends the loop with that error and an empty token. */
  lemma {:induction false} RetryFromStopsAtOtherError(call: nat -> TokenReply, attempt: nat, k: nat, last: TokenReply)
    requires 1 <= attempt <= k <= MaxAttempts
    requires forall j :: attempt <= j < k ==> call(j).err.None? || IsDuplicateToken(call(j))
    requires call(k).err.Some? && !IsDuplicateToken(call(k))
    ensures RetryFrom(call, attempt, last) == (TokenReply("", call(k).err), k + 1 - attempt)
    decreases k - attempt
  {
    if attempt < k {
      RetryFromStopsAtOtherError(call, attempt + 1, k, call(attempt));
    }
  }

  /** After a first duplicate, retry `k` failing with another error is returned at once, after k + 1 calls. */
  lemma OtherErrorStops(call: nat -> TokenReply, k: nat)
    requires IsDuplicateToken(call(0))
    requires 1 <= k <= MaxAttempts
    requires forall j :: 1 <= j < k ==> call(j).err.None? || IsDuplicateToken(call(j))
    requires call(k).err.Some? && !IsDuplicateToken(call(k))
    ensures CreateOrUpdateTokenSpec(call) == (TokenReply("", call(k).err), k + 1)
  {
    RetryFromStopsAtOtherError(call, 1, k, call(0));
  }
}
