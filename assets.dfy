/**
 * The assets service (internal/services/assets.go): assets are rows
 * (name, owner uuid, large-object id) plus the large object holding the
 * content, kept in the database the owner's uuid routes to.
 */
module Assets {
  import opened Wrappers
  import opened GoErrors
  import opened GoStrings
  import opened Shard
  import opened Postgres
  import opened Sharding

  /** SQLSTATE undefined_object: what opening a large object that does not exist reports. */
  const UndefinedObjectCode := "42704"

  // ------------------------------------------------------------ CreateAsset

  /** How the database answers the steps of CreateAsset: object creation, insert, open, copy. */
  datatype CreateAssetOracle = CreateAssetOracle(
    create: Result<Oid, Error>,
    insert: Option<Error>,
    open: Option<Error>,
    copy: Option<Error>)

  /** The error CreateAsset reports for a failed insert. */
  function InsertAssetError(name: string, userUuid: string, e: Error): Error
  {
    match AsPgCode(e)
    case Some(code) =>
      if code == DuplicateErrorCode then Wrapped("asset '" + name + "' error", Sentinel(DuplicateAsset))
      else Wrapped("user '" + userUuid + "' unable to insert assert with name '" + name + "'", e)
    case None => Wrapped("user '" + userUuid + "' unable to insert assert with name '" + name + "'", e)
  }

  /**
   * A unique-constraint violation becomes ErrDuplicateAsset; any other insert
   * failure is wrapped transparently, so it is a duplicate-asset error only if
   * the cause already was one.
   */
  lemma InsertAssetErrorClassified(name: string, userUuid: string, e: Error)
    ensures IsDuplicateKey(e) ==> Is(InsertAssetError(name, userUuid, e), DuplicateAsset)
    ensures !IsDuplicateKey(e) ==> forall k :: Is(InsertAssetError(name, userUuid, e), k) <==> Is(e, k)
    ensures !IsDuplicateKey(e) ==> AsPgCode(InsertAssetError(name, userUuid, e)) == AsPgCode(e)
  {
  }

  /** The body of CreateAsset: create the object, insert the row, open the object, copy the content in. */
  function CreateAssetBody(name: string, userUuid: string, file: seq<Byte>, o: CreateAssetOracle, s: Store): BodyOutcome<()>
  {
    match o.create
    case Err(e) => BodyOutcome(None, Some(e), s, [])
    case Ok(oid) =>
      var created := s.(objects := s.objects[oid := []]);
      if o.insert.Some? then BodyOutcome(None, Some(InsertAssetError(name, userUuid, o.insert.value)), created, [])
      else
        var inserted := created.(assets := created.assets + [AssetRow(name, userUuid, oid)]);
        if o.open.Some? then BodyOutcome(None, o.open, inserted, [])
        else if o.copy.Some? then BodyOutcome(None, o.copy, inserted, [])
        else BodyOutcome(None, None, inserted.(objects := inserted.objects[oid := file]), [])
  }

  /** The store after a CreateAsset that succeeded with object `oid`. */
  function WithAsset(s: Store, name: string, userUuid: string, oid: Oid, file: seq<Byte>): Store
  {
    s.(assets := s.assets + [AssetRow(name, userUuid, oid)], objects := s.objects[oid := file])
  }

  /**
   * CreateAsset is all or nothing: on success exactly one row is appended and
   * its object holds the whole content; on any failure (create, insert, open,
   * copy, begin or commit) the store is unchanged.
   */
  lemma CreateAssetAllOrNothing(name: string, userUuid: string, file: seq<Byte>, tx: TxOracle, o: CreateAssetOracle, s: Store)
    ensures var r := RunTx(tx, s, (t: Store) => CreateAssetBody(name, userUuid, file, o, t));
      && (r.err.None? <==> tx.begin.None? && o.create.Ok? && o.insert.None? && o.open.None? && o.copy.None? && tx.commit.None?)
      && (r.err.None? ==> r.store == WithAsset(s, name, userUuid, o.create.value, file))
      && (r.err.Some? ==> r.store == s)
  {
  }

  /** A unique-constraint violation on the insert surfaces as an error wrapping ErrDuplicateAsset. */
  lemma CreateAssetDuplicate(name: string, userUuid: string, file: seq<Byte>, tx: TxOracle, o: CreateAssetOracle, s: Store)
    requires tx.begin.None? && o.create.Ok? && o.insert.Some?
    ensures var r := RunTx(tx, s, (t: Store) => CreateAssetBody(name, userUuid, file, o, t));
      r.err.Some? && (Is(r.err.value, DuplicateAsset) <== IsDuplicateKey(o.insert.value))
      && (!IsDuplicateKey(o.insert.value) ==> (Is(r.err.value, DuplicateAsset) <==> Is(o.insert.value, DuplicateAsset)))
  {
    InsertAssetErrorClassified(name, userUuid, o.insert.value);
  }

  // --------------------------------------------------------------- GetAsset

  /** How the database answers the steps of GetAsset: the row query and the object open. */
  datatype GetAssetOracle = GetAssetOracle(query: Option<Error>, open: Option<Error>)

  /** The first row with this name, whoever owns it (the query filters on the name only). */
  function FindAssetByName(rows: seq<AssetRow>, name: string): Option<nat>
  {
    FirstMatch(rows, (a: AssetRow) => a.name == name)
  }

  /** The body of GetAsset: look the object id up, open the object, hand it to the streaming callback. */
  function GetAssetBody(name: string, o: GetAssetOracle, s: Store): BodyOutcome<()>
  {
    if o.query.Some? then BodyOutcome(None, o.query, s, [])
    else
      match FindAssetByName(s.assets, name)
      case None => BodyOutcome(None, Some(Sentinel(NoRows)), s, [])
      case Some(i) =>
        var oid := s.assets[i].fileId;
        if o.open.Some? then BodyOutcome(None, o.open, s, [])
        else if oid !in s.objects then
          BodyOutcome(None, Some(PgError(UndefinedObjectCode, "large object " + Itoa(oid) + " does not exist")), s, [])
        else BodyOutcome(None, None, s, [s.objects[oid]])
  }

  /** GetAsset's error: the no-rows sentinel itself means not found; anything else is wrapped. */
  function GetAssetError(name: string, e: Error): Error
  {
    if e == Sentinel(NoRows) then Wrapped("asset '" + name + "' error", Sentinel(NotFoundAsset))
    else Wrapped("unable to get asset", e)
  }

  /**
   * GetAsset reads only: the store is unchanged. The callback is called at
   * most once, only when BEGIN succeeded and a row with that name exists, and
   * it gets that row's object; it is called before COMMIT, so even a failing
   * commit has streamed. A missing row is reported as ErrNotFoundAsset.
   */
  lemma GetAssetOutcome(name: string, tx: TxOracle, o: GetAssetOracle, s: Store)
    ensures var r := RunTx(tx, s, (t: Store) => GetAssetBody(name, o, t));
      && r.store == s
      && |r.streamed| <= 1
      && (r.streamed != [] <==>
            (tx.begin.None? && o.query.None? && o.open.None? && FindAssetByName(s.assets, name).Some?
             && s.assets[FindAssetByName(s.assets, name).value].fileId in s.objects))
      && (r.streamed != [] ==> r.streamed[0] == s.objects[s.assets[FindAssetByName(s.assets, name).value].fileId])
      && (tx.begin.None? && o.query.None? && FindAssetByName(s.assets, name).None? ==>
            r.err.Some? && Is(GetAssetError(name, r.err.value), NotFoundAsset))
  {
  }

  /** Only the bare no-rows sentinel becomes not-found; a wrapped one does not. */
  lemma GetAssetErrorNotFound(name: string, e: Error)
    ensures Is(GetAssetError(name, e), NotFoundAsset) <==> e == Sentinel(NoRows) || Is(e, NotFoundAsset)
  {
  }

  // ------------------------------------------------- CreateAsset then GetAsset

  /** Appending a row: an earlier row with the name still wins, otherwise the new row if it has the name. */
  lemma FindAssetByNameAppend(rows: seq<AssetRow>, row: AssetRow, name: string)
    ensures FindAssetByName(rows + [row], name)
         == if FindAssetByName(rows, name).Some? then FindAssetByName(rows, name)
            else if row.name == name then Some(|rows|)
            else None
  {
    assert (rows + [row])[..|rows|] == rows;
  }

  /**
   * CreateAsset touches nothing it did not create: `lo_create` hands out an
   * object id not in use, and with such an id every existing row stays in
   * place and every existing object keeps its content.
   */
  lemma CreateAssetKeepsOthers(name: string, userUuid: string, file: seq<Byte>, tx: TxOracle, o: CreateAssetOracle, s: Store)
    requires o.create.Ok? ==> o.create.value !in s.objects
    ensures var r := RunTx(tx, s, (t: Store) => CreateAssetBody(name, userUuid, file, o, t));
      && s.assets <= r.store.assets
      && (forall id :: id in s.objects ==> id in r.store.objects && r.store.objects[id] == s.objects[id])
  {
    CreateAssetAllOrNothing(name, userUuid, file, tx, o, s);
  }

  /**
   * Create then Get gives the content back: after a successful CreateAsset of
   * a name no row in the shard has yet, a GetAsset of that name whose
   * transaction and steps succeed streams exactly that content, once.
   */
  lemma GetAfterCreate(name: string, userUuid: string, file: seq<Byte>, tx: TxOracle, o: CreateAssetOracle, s: Store,
                       tx2: TxOracle, o2: GetAssetOracle)
    requires FindAssetByName(s.assets, name).None?
    requires RunTx(tx, s, (t: Store) => CreateAssetBody(name, userUuid, file, o, t)).err.None?
    requires tx2.begin.None? && o2.query.None? && o2.open.None?
    ensures var created := RunTx(tx, s, (t: Store) => CreateAssetBody(name, userUuid, file, o, t)).store;
      RunTx(tx2, created, (t: Store) => GetAssetBody(name, o2, t)).streamed == [file]
  {
    CreateAssetAllOrNothing(name, userUuid, file, tx, o, s);
    var oid := o.create.value;
    var created := WithAsset(s, name, userUuid, oid, file);
    FindAssetByNameAppend(s.assets, AssetRow(name, userUuid, oid), name);
    assert created.assets[|s.assets|].fileId == oid;
    GetAssetOutcome(name, tx2, o2, created);
  }

  /**
   * The lookup filters on the name only, so another owner's earlier row with
   * the same name shadows a new asset: after a successful CreateAsset by
   * `userUuid` (with a fresh object id), GetAsset streams the other owner's
   * content, not the new one.
   */
  lemma OtherOwnerShadows(name: string, userUuid: string, file: seq<Byte>, tx: TxOracle, o: CreateAssetOracle, s: Store,
                          tx2: TxOracle, o2: GetAssetOracle)
    requires FindAssetByName(s.assets, name).Some?
    requires s.assets[FindAssetByName(s.assets, name).value].userUuid != userUuid
    requires s.assets[FindAssetByName(s.assets, name).value].fileId in s.objects
    requires RunTx(tx, s, (t: Store) => CreateAssetBody(name, userUuid, file, o, t)).err.None?
    requires o.create.Ok? ==> o.create.value !in s.objects
    requires tx2.begin.None? && o2.query.None? && o2.open.None?
    ensures var created := RunTx(tx, s, (t: Store) => CreateAssetBody(name, userUuid, file, o, t)).store;
      var other := s.assets[FindAssetByName(s.assets, name).value];
      RunTx(tx2, created, (t: Store) => GetAssetBody(name, o2, t)).streamed == [s.objects[other.fileId]]
  {
    CreateAssetAllOrNothing(name, userUuid, file, tx, o, s);
    var oid := o.create.value;
    var created := WithAsset(s, name, userUuid, oid, file);
    var i := FindAssetByName(s.assets, name).value;
    FindAssetByNameAppend(s.assets, AssetRow(name, userUuid, oid), name);
    assert created.assets[i] == s.assets[i];
    assert s.assets[i].fileId != oid;
    GetAssetOutcome(name, tx2, o2, created);
  }

  // ----------------------------------------------------------- GetAssetList

  /** How the database answers GetAssetList: the query, the scan of each row, the final rows error. */
  datatype ListOracle = ListOracle(query: Option<Error>, scan: nat -> Option<Error>, rowsErr: Option<Error>)

  /** The names of the rows owned by `userUuid`, in row order. */
  function NamesOf(rows: seq<AssetRow>, userUuid: string): (names: seq<string>)
    ensures |names| <= |rows|
    ensures forall n :: n in names <==> exists i :: 0 <= i < |rows| && rows[i].userUuid == userUuid && rows[i].name == n
    decreases |rows|
  {
    if rows == [] then []
    else
      var rest := NamesOf(rows[..|rows| - 1], userUuid);
      var last := rows[|rows| - 1];
      var names := if last.userUuid == userUuid then rest + [last.name] else rest;
      assert forall i :: 0 <= i < |rows| - 1 ==> rows[..|rows| - 1][i] == rows[i];
      names
  }

  /** The first row from `i` on whose scan fails. */
  function FirstScanError(n: nat, scan: nat -> Option<Error>, i: nat): (k: Option<nat>)
    requires i <= n
    ensures k.Some? ==> i <= k.value < n && scan(k.value).Some?
    ensures k.Some? ==> forall j :: i <= j < k.value ==> scan(j).None?
    ensures k.None? ==> forall j :: i <= j < n ==> scan(j).None?
    decreases n - i
  {
    if i == n then None
    else if scan(i).Some? then Some(i)
    else FirstScanError(n, scan, i + 1)
  }

  const ScanListMessage := "unable to scan assets list"

  /** The result of scanning `names`: the whole list, or the first scan error (then the rows error) wrapped. */
  function ScanResult(names: seq<string>, scan: nat -> Option<Error>, rowsErr: Option<Error>): (Option<seq<string>>, Option<Error>)
  {
    match FirstScanError(|names|, scan, 0)
    case Some(k) => (None, Some(Wrapped(ScanListMessage, scan(k).value)))
    case None =>
      if rowsErr.Some? then (None, Some(Wrapped(ScanListMessage, rowsErr.value)))
      else (Some(names), None)
  }

  /** The scan loop of GetAssetList: appends names while the scans succeed. */
  method ScanAssetsList(names: seq<string>, scan: nat -> Option<Error>, rowsErr: Option<Error>)
    returns (assetsList: Option<seq<string>>, err: Option<Error>)
    ensures (assetsList, err) == ScanResult(names, scan, rowsErr)
  {
    var list: seq<string> := [];
    var i := 0;
    while i < |names|
      invariant 0 <= i <= |names|
      invariant list == names[..i]
      invariant forall j :: 0 <= j < i ==> scan(j).None?
    {
      var e := scan(i);
      if e.Some? {
        return None, Some(Wrapped(ScanListMessage, e.value));
      }
      list := list + [names[i]];
      i := i + 1;
    }
    if rowsErr.Some? {
      return None, Some(Wrapped(ScanListMessage, rowsErr.value));
    }
    assert list == names;
    return Some(list), None;
  }

  /** The body of GetAssetList. */
  function ListBody(userUuid: string, o: ListOracle, s: Store): BodyOutcome<seq<string>>
  {
    if o.query.Some? then BodyOutcome(None, o.query, s, [])
    else
      var (list, e) := ScanResult(NamesOf(s.assets, userUuid), o.scan, o.rowsErr);
      BodyOutcome(list, e, s, [])
  }

  /** GetAssetList's answer once the transaction ran: wrapped error, or the list (nil becomes the conversion error). */
  function ListAnswer(value: Option<seq<string>>, err: Option<Error>): Result<seq<string>, Error>
  {
    if err.Some? then Err(Wrapped("unable to get assets list", err.value))
    else if value.None? then Err(Leaf("unable to convert result into []string"))
    else Ok(value.value)
  }

  /**
   * When nothing fails, GetAssetList gives exactly the names of the caller's
   * rows in row order (an empty list when there are none); a failing scan
   * gives an error.
   */
  lemma GetAssetListOutcome(userUuid: string, tx: TxOracle, o: ListOracle, s: Store)
    ensures var r := RunTx(tx, s, (t: Store) => ListBody(userUuid, o, t));
      && r.store == s
      && (tx.begin.None? && tx.commit.None? && o.query.None? && o.rowsErr.None?
          && (forall j :: 0 <= j < |s.assets| ==> o.scan(j).None?) ==>
            ListAnswer(r.value, r.err) == Ok(NamesOf(s.assets, userUuid)))
      && (tx.begin.None? && o.query.None? && (exists j :: 0 <= j < |NamesOf(s.assets, userUuid)| && o.scan(j).Some?) ==>
            ListAnswer(r.value, r.err).Err?)
  {
    var names := NamesOf(s.assets, userUuid);
    if tx.begin.None? && o.query.None? && (exists j :: 0 <= j < |names| && o.scan(j).Some?) {
      assert FirstScanError(|names|, o.scan, 0).Some?;
    }
  }

  // ---------------------------------------------------------------- service

  class AssetsService {
    const clientShards: seq<PostgreSQLService>
    const ShardsNum: nat
    const shardService: ShardService

    ghost predicate Valid()
      reads shardService, shardService.hasher
    {
      Routing(clientShards, ShardsNum, shardService) && ShardsNum >= 1
    }

    /** `CreateAssetsService(clients)`: a router with one interval per database. An empty list makes the source panic. */
    constructor (clients: seq<PostgreSQLService>)
      requires |clients| >= 1
      ensures Valid() && clientShards == clients && ShardsNum == |clients|
      ensures fresh(shardService) && fresh(shardService.hasher)
    {
      clientShards := clients;
      ShardsNum := |clients|;
      shardService := new ShardService(|clients|);
    }

    /** The database a user's assets live in. */
    function Home(userUuid: string): PostgreSQLService
      requires |clientShards| >= 1
    {
      ShardOfInRange(|clientShards|, userUuid);
      clientShards[ShardOf(|clientShards|, userUuid)]
    }

    method CreateAsset(name: string, userUuid: string, file: seq<Byte>, tx: TxOracle, o: CreateAssetOracle)
      returns (err: Option<Error>)
      requires Valid()
      modifies shardService.hasher, clientShards
      ensures Valid()
      ensures var r := RunTx(tx, old(Home(userUuid).data), (t: Store) => CreateAssetBody(name, userUuid, file, o, t));
        err == r.err && Home(userUuid).data == r.store
      ensures forall c :: c in clientShards && c != Home(userUuid) ==> c.data == old(c.data)
      ensures forall c :: c in clientShards ==> c.closed == old(c.closed)
    {
      var client := Route(clientShards, shardService, userUuid);
      var streamed;
      err, streamed := client.TxVoid((t: Store) => CreateAssetBody(name, userUuid, file, o, t), tx);
    }

    /**
     * `GetAsset(name, userUuid, startStreaming)`: `streamed` lists the
     * contents handed to the callback, in call order.
     */
    method GetAsset(name: string, userUuid: string, tx: TxOracle, o: GetAssetOracle)
      returns (err: Option<Error>, streamed: seq<seq<Byte>>)
      requires Valid()
      modifies shardService.hasher, clientShards
      ensures Valid()
      ensures var r := RunTx(tx, old(Home(userUuid).data), (t: Store) => GetAssetBody(name, o, t));
        && streamed == r.streamed
        && (r.err.None? ==> err.None?)
        && (r.err.Some? ==> err == Some(GetAssetError(name, r.err.value)))
      ensures forall c :: c in clientShards ==> c.data == old(c.data) && c.closed == old(c.closed)
    {
      var client := Route(clientShards, shardService, userUuid);
      ghost var before := client.data;
      var e;
      e, streamed := client.TxVoid((t: Store) => GetAssetBody(name, o, t), tx);
      ReadOnlyTx(tx, before, (t: Store) => GetAssetBody(name, o, t));
      if e.Some? {
        if e.value == Sentinel(NoRows) {
          return Some(Wrapped("asset '" + name + "' error", Sentinel(NotFoundAsset))), streamed;
        }
        return Some(Wrapped("unable to get asset", e.value)), streamed;
      }
      return None, streamed;
    }

    /** `GetAssetList(userUuid)`. */
    method GetAssetList(userUuid: string, tx: TxOracle, o: ListOracle) returns (r: Result<seq<string>, Error>)
      requires Valid()
      modifies shardService.hasher, clientShards
      ensures Valid()
      ensures var t := RunTx(tx, old(Home(userUuid).data), (t: Store) => ListBody(userUuid, o, t));
        r == ListAnswer(t.value, t.err)
      ensures forall c :: c in clientShards ==> c.data == old(c.data) && c.closed == old(c.closed)
    {
      var client := Route(clientShards, shardService, userUuid);
      ghost var before := client.data;
      var list, err, streamed := client.Tx((t: Store) => ListBody(userUuid, o, t), tx);
      ReadOnlyTx(tx, before, (t: Store) => ListBody(userUuid, o, t));
      if err.Some? {
        return Err(Wrapped("unable to get assets list", err.value));
      }
      if list.None? {
        return Err(Leaf("unable to convert result into []string"));
      }
      return Ok(list.value);
    }
  }
}
