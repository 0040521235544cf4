/**
 * The asset endpoints of the REST layer (internal/api/rest/v1/assets.go):
 * the boundary taken from a multipart Content-Type, the name of a part, the
 * statuses given to service errors, and storing an upload either as one
 * asset or part by part.
 *
 * The multipart reader is not modelled: the parts of a request are given as
 * a sequence, followed by the error the reader reported after the last one
 * (`None` when it reached the end). Storing goes through the assets service;
 * `tx(i)` and `o(i)` are how the database answers the i-th store.
 */
module RestAssets {
  import opened Wrappers
  import opened GoErrors
  import opened GoStrings
  import opened Postgres
  import opened Assets
  import opened RestAuth
  import opened RestApi

  // ------------------------------------------------------------ parseBoundaryString

  const BoundaryKey := "boundary="

  /**
   * `parseBoundaryString(contentType)` with the regexp `^.+boundary=(.+)$`:
   * the boundary is the text after the last "boundary=" that has text on
   * both sides; without one the match fails.
   */
  function ParseBoundaryString(contentType: string): (r: Result<string, Error>)
    ensures r.Ok? <==> '\n' !in contentType && exists k :: SplitsAt(contentType, BoundaryKey, k)
    ensures r.Ok? ==> exists k :: SplitsAt(contentType, BoundaryKey, k) && (forall j :: k < j ==> !SplitsAt(contentType, BoundaryKey, j))
                                  && r.value == contentType[k + |BoundaryKey|..] && |r.value| >= 1
    ensures r.Err? ==> r.error == Leaf(WrongMatchesMessage)
  {
    if '\n' in contentType then Err(Leaf(WrongMatchesMessage))
    else
      match LastSplit(contentType, BoundaryKey)
      case None => Err(Leaf(WrongMatchesMessage))
      case Some(k) => Ok(contentType[k + |BoundaryKey|..])
  }

  /**
   * A boundary without '=' announced after some non-empty text is read back:
   * "boundary=" cannot occur again inside or across it.
   */
  lemma ParseBoundaryRoundTrip(prefix: string, boundary: string)
    requires |prefix| >= 1 && |boundary| >= 1
    requires '\n' !in prefix && '\n' !in boundary && '=' !in boundary
    ensures ParseBoundaryString(prefix + BoundaryKey + boundary) == Ok(boundary)
  {
    var s := prefix + BoundaryKey + boundary;
    var k := |prefix|;
    assert s[k..k + |BoundaryKey|] == BoundaryKey;
    assert SplitsAt(s, BoundaryKey, k);
    forall j | k < j
      ensures !SplitsAt(s, BoundaryKey, j)
    {
      if 1 <= j && j + |BoundaryKey| < |s| {
        assert s[j + 8] == boundary[j + 8 - k - |BoundaryKey|];
        assert s[j..j + |BoundaryKey|][8] == s[j + 8];
      }
    }
    assert '\n' !in s by {
      forall i | 0 <= i < |s|
        ensures s[i] != '\n'
      {
        if i < k {
          assert s[i] == prefix[i];
        } else if i >= k + |BoundaryKey| {
          assert s[i] == boundary[i - k - |BoundaryKey|];
        } else {
          assert s[i] == BoundaryKey[i - k];
        }
      }
    }
    assert s[k + |BoundaryKey|..] == boundary;
  }

  /** No line break and no '=' in `s`. */
  predicate Plain(s: string)
  {
    forall i :: 0 <= i < |s| ==> s[i] != '\n' && s[i] != '='
  }

  /** Joining two plain strings gives a plain string. */
  lemma PlainConcat(a: string, b: string)
    requires Plain(a) && Plain(b)
    ensures Plain(a + b)
  {
    forall i | 0 <= i < |a + b|
      ensures (a + b)[i] != '\n' && (a + b)[i] != '='
    {
      if i < |a| {
        assert (a + b)[i] == a[i];
      } else {
        assert (a + b)[i] == b[i - |a|];
      }
    }
  }

  /** The boundary of the source's test, "--------------------------086623207306110249839573", in pieces. */
  const TestBoundary := "-------------" + "-------------" + "08662320" + "73061102" + "49839573"

  /** That boundary has neither a line break nor '='. */
  lemma TestBoundaryPlain()
    ensures Plain(TestBoundary)
  {
    var dashes, d1, d2, d3 := "-------------", "08662320", "73061102", "49839573";
    assert Plain(dashes) && Plain(d1) && Plain(d2) && Plain(d3);
    PlainConcat(dashes, dashes);
    PlainConcat(dashes + dashes, d1);
    PlainConcat(dashes + dashes + d1, d2);
    PlainConcat(dashes + dashes + d1 + d2, d3);
  }

  /** The Content-Type from the source's test. */
  lemma ParseBoundaryExample()
    ensures ParseBoundaryString("multipart/form-data; boundary=" + TestBoundary) == Ok(TestBoundary)
  {
    TestBoundaryPlain();
    var head := "multipart/form-data; ";
    assert head + BoundaryKey == "multipart/form-data; boundary=";
    ParseBoundaryRoundTrip(head, TestBoundary);
  }

  // ------------------------------------------------------------ parts

  /** One part of a multipart body: its file name, its form field name and its content. */
  datatype Part = Part(fileName: string, formName: string, content: seq<Byte>)

  /** `parseMultipartAssetName(p)`: the file name when there is one, otherwise the form field name. */
  function ParseMultipartAssetName(p: Part): (name: string)
    ensures |p.fileName| > 0 ==> name == p.fileName
    ensures |p.fileName| == 0 ==> name == p.formName
  {
    if |p.fileName| > 0 then p.fileName else p.formName
  }

  // ------------------------------------------------------------ error mappings

  /** `processStoreAsserError(err)`: a duplicate asset is 400 with the error's text, anything else 500. */
  function ProcessStoreAsserError(err: Error): Error
  {
    if Is(err, DuplicateAsset) then WithStatus(Some(err), Text(err), StatusBadRequest)
    else WithStatus(Some(err), InternalServerErrorMsg, StatusInternalServerError)
  }

  /** How a failed store is answered. */
  lemma StoreErrorAnswer(err: Error)
    ensures ProcessHttpError(ProcessStoreAsserError(err)) ==
      if Is(err, DuplicateAsset) then (StatusBadRequest, StatusBody(Text(err)) + "\n")
      else (StatusInternalServerError, StatusBody(InternalServerErrorMsg) + "\n")
    ensures forall k :: Is(ProcessStoreAsserError(err), k) <==> Is(err, k)
  {
  }

  /** The mapping `LoadAsset` and `DeleteAsset` share: a missing asset is 404, anything else 500. */
  function AssetLookupError(err: Error): Error
  {
    if Is(err, NotFoundAsset) then WithStatus(Some(err), AssetNotFoundMsg, StatusNotFound)
    else WithStatus(Some(err), InternalServerErrorMsg, StatusInternalServerError)
  }

  /** How a failed lookup is answered. */
  lemma LookupErrorAnswer(err: Error)
    ensures ProcessHttpError(AssetLookupError(err)) ==
      if Is(err, NotFoundAsset) then (StatusNotFound, StatusBody(AssetNotFoundMsg) + "\n")
      else (StatusInternalServerError, StatusBody(InternalServerErrorMsg) + "\n")
  {
  }

  /**
   * `DeleteAsset`: the service's delete is not part of this model, so its
   * error is an input; nil is answered with the "ok" status.
   */
  function DeleteAsset(serviceErr: Option<Error>): (r: Option<Error>)
    ensures serviceErr.None? <==> r.None?
    ensures serviceErr.Some? ==> ProcessHttpError(r.value).0 == if Is(serviceErr.value, NotFoundAsset) then StatusNotFound else StatusInternalServerError
  {
    match serviceErr
    case None => None
    case Some(e) => Some(AssetLookupError(e))
  }

  /**
   * `LoadAssetsList`: the caller's asset names, or any failure answered 500;
   * with no failure the list is the names of the caller's rows.
   */
  method LoadAssetsList(svc: AssetsService, userUuid: string, tx: TxOracle, o: ListOracle)
    returns (r: Result<seq<string>, Error>)
    requires svc.Valid()
    modifies svc.shardService.hasher, svc.clientShards
    ensures svc.Valid()
    ensures var t := RunTx(tx, old(svc.Home(userUuid).data), (t: Store) => ListBody(userUuid, o, t));
      var a := ListAnswer(t.value, t.err);
      && (a.Ok? ==> r == a)
      && (a.Err? ==> r.Err? && r.error == WithStatus(Some(a.error), InternalServerErrorMsg, StatusInternalServerError)
                     && ProcessHttpError(r.error).0 == StatusInternalServerError)
    ensures forall c :: c in svc.clientShards ==> c.data == old(c.data) && c.closed == old(c.closed)
  {
    var list := svc.GetAssetList(userUuid, tx, o);
    if list.Err? {
      return Err(WithStatus(Some(list.error), InternalServerErrorMsg, StatusInternalServerError));
    }
    return list;
  }

  /** `LoadAsset`: the service's GetAsset, streaming the content, with its error mapped to a status. */
  method LoadAsset(svc: AssetsService, name: string, userUuid: string, tx: TxOracle, o: GetAssetOracle)
    returns (err: Option<Error>, streamed: seq<seq<Byte>>)
    requires svc.Valid()
    modifies svc.shardService.hasher, svc.clientShards
    ensures svc.Valid()
    ensures var r := RunTx(tx, old(svc.Home(userUuid).data), (t: Store) => GetAssetBody(name, o, t));
      && streamed == r.streamed
      && (r.err.None? ==> err.None?)
      && (r.err.Some? ==> err == Some(AssetLookupError(GetAssetError(name, r.err.value))))
    ensures forall c :: c in svc.clientShards ==> c.data == old(c.data) && c.closed == old(c.closed)
  {
    var e;
    e, streamed := svc.GetAsset(name, userUuid, tx, o);
    if e.Some? {
      return Some(AssetLookupError(e.value)), streamed;
    }
    return None, streamed;
  }

  /** A request for an asset the owner's shard has no row of is answered 404. */
  lemma LoadMissingAssetIs404(name: string, tx: TxOracle, o: GetAssetOracle, s: Store)
    requires tx.begin.None? && o.query.None? && FindAssetByName(s.assets, name).None?
    ensures var r := RunTx(tx, s, (t: Store) => GetAssetBody(name, o, t));
      r.err.Some? && ProcessHttpError(AssetLookupError(GetAssetError(name, r.err.value))).0 == StatusNotFound
  {
    GetAssetOutcome(name, tx, o, s);
  }

  // ------------------------------------------------------------ StoreAsset

  /** The store the i-th stored part leaves. */
  function StorePart(s: Store, userUuid: string, p: Part, tx: TxOracle, o: CreateAssetOracle): TxResult<()>
  {
    RunTx(tx, s, (t: Store) => CreateAssetBody(ParseMultipartAssetName(p), userUuid, p.content, o, t))
  }

  /**
   * The parts from `i` on, stored one by one on store `s`: the first failing
   * store ends the upload with its error, otherwise the reader's final error
   * (nil at the end of the body) is returned. The store kept is the one the
   * stores so far committed.
   */
  function StorePartsFrom(s: Store, userUuid: string, parts: seq<Part>, partsErr: Option<Error>,
                          tx: nat -> TxOracle, o: nat -> CreateAssetOracle, i: nat): (Option<Error>, Store)
    requires i <= |parts|
    decreases |parts| - i
  {
    if i == |parts| then (partsErr, s)
    else
      var r := StorePart(s, userUuid, parts[i], tx(i), o(i));
      if r.err.Some? then (r.err, r.store)
      else StorePartsFrom(r.store, userUuid, parts, partsErr, tx, o, i + 1)
  }

  /** One step of the upload: part `i` fails and ends it, or it moves on with the store it left. */
  lemma StorePartsFromStep(s: Store, userUuid: string, parts: seq<Part>, partsErr: Option<Error>,
                           tx: nat -> TxOracle, o: nat -> CreateAssetOracle, i: nat)
    requires i < |parts|
    ensures var r := StorePart(s, userUuid, parts[i], tx(i), o(i));
      StorePartsFrom(s, userUuid, parts, partsErr, tx, o, i)
        == if r.err.Some? then (r.err, r.store) else StorePartsFrom(r.store, userUuid, parts, partsErr, tx, o, i + 1)
  {
  }

  /** Storing part `i` commits (whatever the store holds). */
  predicate Commits(tx: nat -> TxOracle, o: nat -> CreateAssetOracle, i: nat)
  {
    tx(i).begin.None? && o(i).create.Ok? && o(i).insert.None? && o(i).open.None? && o(i).copy.None? && tx(i).commit.None?
  }

  /**
   * The store after parts `i` to `k - 1` were each added as an asset with
   * its content and the object id created for it (up to the first part
   * that has no object id).
   */
  function StoredParts(s: Store, userUuid: string, parts: seq<Part>, o: nat -> CreateAssetOracle, i: nat, k: nat): Store
    requires i <= k <= |parts|
    decreases k - i
  {
    if i == k then s
    else
      match o(i).create
      case Err(_) => s
      case Ok(oid) => StoredParts(WithAsset(s, ParseMultipartAssetName(parts[i]), userUuid, oid, parts[i].content), userUuid, parts, o, i + 1, k)
  }

  /**
   * Parts are stored in order and the first failure stops the upload: the
   * parts before it stay stored, the failing part leaves nothing, and the
   * parts after it are not attempted. When every part commits, all are
   * stored and the reader's final error is the result.
   */
  lemma {:induction false} StorePartsPrefix(s: Store, userUuid: string, parts: seq<Part>, partsErr: Option<Error>,
                                            tx: nat -> TxOracle, o: nat -> CreateAssetOracle, i: nat, k: nat)
    requires i <= k <= |parts|
    requires forall j :: i <= j < k ==> Commits(tx, o, j)
    requires k < |parts| ==> !Commits(tx, o, k)
    ensures var (err, store) := StorePartsFrom(s, userUuid, parts, partsErr, tx, o, i);
      && store == StoredParts(s, userUuid, parts, o, i, k)
      && (k == |parts| ==> err == partsErr)
      && (k < |parts| ==> err.Some?)
    decreases k - i
  {
    if i < |parts| {
      CreateAssetAllOrNothing(ParseMultipartAssetName(parts[i]), userUuid, parts[i].content, tx(i), o(i), s);
      var r := StorePart(s, userUuid, parts[i], tx(i), o(i));
      if i < k {
        assert Commits(tx, o, i);
        var next := WithAsset(s, ParseMultipartAssetName(parts[i]), userUuid, o(i).create.value, parts[i].content);
        assert r.err.None? && r.store == next;
        StorePartsPrefix(next, userUuid, parts, partsErr, tx, o, i + 1, k);
        assert StoredParts(s, userUuid, parts, o, i, k) == StoredParts(next, userUuid, parts, o, i + 1, k);
      } else {
        assert r.err.Some? && r.store == s;
      }
    }
  }

  /**
   * `storeMultipartedAssets(contentType, r, t)`: the boundary, then the parts
   * in order, each stored as an asset named by `parseMultipartAssetName`.
   */
  method StoreMultipartedAssets(svc: AssetsService, contentType: string, userUuid: string, parts: seq<Part>,
                                partsErr: Option<Error>, tx: nat -> TxOracle, o: nat -> CreateAssetOracle)
    returns (err: Option<Error>)
    requires svc.Valid()
    modifies svc.shardService.hasher, svc.clientShards
    ensures svc.Valid()
    ensures ParseBoundaryString(contentType).Err? ==>
              err == Some(ParseBoundaryString(contentType).error) && svc.Home(userUuid).data == old(svc.Home(userUuid).data)
    ensures ParseBoundaryString(contentType).Ok? ==>
              (err, svc.Home(userUuid).data) == StorePartsFrom(old(svc.Home(userUuid).data), userUuid, parts, partsErr, tx, o, 0)
    ensures forall c :: c in svc.clientShards && c != svc.Home(userUuid) ==> c.data == old(c.data)
    ensures forall c :: c in svc.clientShards ==> c.closed == old(c.closed)
  {
    var boundaryString := ParseBoundaryString(contentType);
    if boundaryString.Err? {
      return Some(boundaryString.error);
    }
    ghost var home := svc.Home(userUuid);
    var i := 0;
    while i < |parts|
      invariant 0 <= i <= |parts|
      invariant svc.Valid()
      invariant StorePartsFrom(home.data, userUuid, parts, partsErr, tx, o, i)
             == StorePartsFrom(old(home.data), userUuid, parts, partsErr, tx, o, 0)
      invariant forall c :: c in svc.clientShards && c != home ==> c.data == old(c.data)
      invariant forall c :: c in svc.clientShards ==> c.closed == old(c.closed)
      decreases |parts| - i
    {
      var p := parts[i];
      var miltipartedAssetName := ParseMultipartAssetName(p);
      ghost var before := home.data;
      StorePartsFromStep(before, userUuid, parts, partsErr, tx, o, i);
      var e := svc.CreateAsset(miltipartedAssetName, userUuid, p.content, tx(i), o(i));
      ghost var r := StorePart(before, userUuid, p, tx(i), o(i));
      assert e == r.err && home.data == r.store;
      if e.Some? {
        return e;
      }
      i := i + 1;
    }
    assert StorePartsFrom(home.data, userUuid, parts, partsErr, tx, o, i) == (partsErr, home.data);
    return partsErr;
  }

  /** Content-Type values starting with this take the multipart path. */
  const MultipartFormData := "multipart/form-data"

  /**
   * `StoreAsset`: a multipart upload is stored part by part, any other body
   * as one asset under the path's name; a failure is mapped by
   * `processStoreAsserError`, and nil means the 201 "ok" response.
   */
  method StoreAsset(svc: AssetsService, pathName: string, contentType: string, body: seq<Byte>, userUuid: string,
                    parts: seq<Part>, partsErr: Option<Error>, tx: nat -> TxOracle, o: nat -> CreateAssetOracle)
    returns (err: Option<Error>)
    requires svc.Valid()
    modifies svc.shardService.hasher, svc.clientShards
    ensures svc.Valid()
    ensures !HasPrefix(contentType, MultipartFormData) ==>
      var r := RunTx(tx(0), old(svc.Home(userUuid).data), (t: Store) => CreateAssetBody(pathName, userUuid, body, o(0), t));
      && svc.Home(userUuid).data == r.store
      && (r.err.None? ==> err.None?)
      && (r.err.Some? ==> err == Some(ProcessStoreAsserError(r.err.value)))
    ensures HasPrefix(contentType, MultipartFormData) && ParseBoundaryString(contentType).Ok? ==>
      var (e, store) := StorePartsFrom(old(svc.Home(userUuid).data), userUuid, parts, partsErr, tx, o, 0);
      && svc.Home(userUuid).data == store
      && (e.None? ==> err.None?)
      && (e.Some? ==> err == Some(ProcessStoreAsserError(e.value)))
    ensures HasPrefix(contentType, MultipartFormData) && ParseBoundaryString(contentType).Err? ==>
      err == Some(ProcessStoreAsserError(ParseBoundaryString(contentType).error))
      && svc.Home(userUuid).data == old(svc.Home(userUuid).data)
    ensures forall c :: c in svc.clientShards && c != svc.Home(userUuid) ==> c.data == old(c.data)
    ensures forall c :: c in svc.clientShards ==> c.closed == old(c.closed)
  {
    if HasPrefix(contentType, MultipartFormData) {
      var e := StoreMultipartedAssets(svc, contentType, userUuid, parts, partsErr, tx, o);
      if e.Some? {
        return Some(ProcessStoreAsserError(e.value));
      }
    } else {
      var e := svc.CreateAsset(pathName, userUuid, body, tx(0), o(0));
      if e.Some? {
        return Some(ProcessStoreAsserError(e.value));
      }
    }
    return None;
  }
}
