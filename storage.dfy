/**
 * `StorageManager`: a read-through, write-first cache over the extension's
 * IndexedDB database, and the one-time migration of the legacy
 * `chrome.storage.local` data into it.
 *
 * Each operation is given twice: as a pure function from one `Session` (the
 * database, the cache and the calls made so far) to the next, and as a method
 * of the `StorageManager` class that changes its fields step by step and
 * promises to agree with that function. The properties the code relies on are
 * lemmas about the functions.
 */
module Storage {
  import opened Json
  import opened ObjectStores
  import opened ChromeStorage

  /** The exceptions an operation can end with. */
  datatype StorageError =
    | OpenFailed       // `indexedDB.open` reported an error
    | TypeError        // `this.db` is null, or a value cannot be iterated or read
    | NotFoundError    // the transaction names a store the database does not have
    | DataError        // `add`/`put` was given no valid key, or a key it must not have
    | ConstraintError  // `add` met a key that is already stored

  datatype Outcome = Done | Thrown(error: StorageError)

  /** The database: object stores by name. */
  type Database = map<string, ObjectStore>

  /**
   * `openDatabase`'s upgrade step: every missing store is created empty;
   * `bookmarks` and `folders` take their keys from the records' `id`, the
   * other three take explicit keys.
   */
  function Upgrade(existing: Database): (r: Database)
    ensures forall name :: name in existing ==> name in r && r[name] == existing[name]
    ensures forall name :: name in StoreNames ==> name in r
    ensures forall name :: name in StoreNames && name !in existing ==>
      r[name] == ObjectStore(name in InlineStores, [])
  {
    existing + map name | name in StoreNames && name !in existing :: ObjectStore(name in InlineStores, [])
  }

  const StoreNames: set<string> := {"bookmarks", "folders", "settings", "images", "metadata"}
  const InlineStores: set<string> := {"bookmarks", "folders"}

  // ---------------------------------------------------------------------
  // The cache key
  // ---------------------------------------------------------------------

  /** A key argument that is truthy: given, and not the empty string. */
  predicate KeyGiven(key: Option<string>) {
    key.Some? && key.value != ""
  }

  /** `store:key` for a keyed read or write, the bare store name for a whole collection. */
  function CacheKey(store: string, key: Option<string>): string {
    if KeyGiven(key) then store + ":" + key.value else store
  }

  /**
   * Store names carry no colon, so two calls share a cache entry only when
   * they name the same store and the same key (or both name none).
   */
  lemma {:induction false} CacheKeyInjective(s1: string, k1: Option<string>, s2: string, k2: Option<string>)
    requires ':' !in s1 && ':' !in s2
    requires CacheKey(s1, k1) == CacheKey(s2, k2)
    ensures s1 == s2
    ensures KeyGiven(k1) <==> KeyGiven(k2)
    ensures KeyGiven(k1) ==> k1.value == k2.value
  {
    if KeyGiven(k1) && KeyGiven(k2) {
      SplitAtSeparator(s1, k1.value, s2, k2.value, ':');
    } else if KeyGiven(k1) {
      SeparatorAt(s1, k1.value, ':');
      assert false;
    } else if KeyGiven(k2) {
      SeparatorAt(s2, k2.value, ':');
      assert false;
    }
  }

  // ---------------------------------------------------------------------
  // Sessions
  // ---------------------------------------------------------------------

  /** A call that asks the database for a write, in the order it was made. */
  datatype Call =
    | SetCall(store: string, value: Value, key: Option<string>)
    | SaveImageCall(id: string, blob: Value)
    | DeleteImageCall(id: string)

  /** What a `StorageManager` holds: the open database (none before it is opened), the cache, and the write calls made. */
  datatype Session = Session(db: Option<Database>, cache: map<string, Value>, calls: seq<Call>)

  datatype Read = Read(session: Session, value: Value)
  datatype Wrote = Wrote(session: Session, outcome: Outcome)

  /** The `set` calls of a call list, as the cache entries they name, in order. */
  function Targets(calls: seq<Call>): seq<string> {
    if calls == [] then []
    else
      var last := calls[|calls| - 1];
      Targets(calls[..|calls| - 1]) + (if last.SetCall? then [CacheKey(last.store, last.key)] else [])
  }

  lemma TargetsAppend(calls: seq<Call>, c: Call)
    ensures Targets(calls + [c]) == Targets(calls) + (if c.SetCall? then [CacheKey(c.store, c.key)] else [])
  {
    assert (calls + [c])[..|calls|] == calls;
  }

  // ---------------------------------------------------------------------
  // get
  // ---------------------------------------------------------------------

  datatype Fetched = Fetched(value: Value) | Failed(error: StorageError)

  /** One read transaction: `get(key)` for a given key, `getAll()` otherwise. */
  function ReadStore(db: Option<Database>, store: string, key: Option<string>): Fetched {
    if db.None? then Failed(TypeError)
    else if store !in db.value then Failed(NotFoundError)
    else
      var es := db.value[store].entries;
      if KeyGiven(key) then Fetched(Lookup(es, StrKey(key.value)).GetOr(Undefined))
      else Fetched(Arr(Values(es)))
  }

  /**
   * `get(store, key)`: a cached value is returned as it is; otherwise the
   * database is read and what it returns is cached. A failed read returns
   * `null` for a keyed read and `[]` for a collection, and caches nothing.
   */
  function AfterGet(s: Session, store: string, key: Option<string>): Read {
    var ck := CacheKey(store, key);
    if ck in s.cache then Read(s, s.cache[ck])
    else match ReadStore(s.db, store, key)
      case Fetched(v) => Read(s.(cache := s.cache[ck := v]), v)
      case Failed(_) => Read(s, if KeyGiven(key) then Null else Arr([]))
  }

  /** A read never writes: the database and the calls made stay as they were. */
  lemma GetNeverWrites(s: Session, store: string, key: Option<string>)
    ensures AfterGet(s, store, key).session.db == s.db
    ensures AfterGet(s, store, key).session.calls == s.calls
  {
  }

  /**
   * Reading twice gives the same value, and the second read changes nothing:
   * either the first read cached its value or it failed and the second fails
   * the same way.
   */
  lemma GetTwice(s: Session, store: string, key: Option<string>)
    ensures var first := AfterGet(s, store, key);
      AfterGet(first.session, store, key) == first
  {
  }

  /** A failed read returns `null` or `[]` and leaves the session as it was. */
  lemma GetFailureDefault(s: Session, store: string, key: Option<string>)
    requires CacheKey(store, key) !in s.cache
    requires s.db.None? || store !in s.db.value
    ensures AfterGet(s, store, key) == Read(s, if KeyGiven(key) then Null else Arr([]))
  {
  }

  // ---------------------------------------------------------------------
  // set
  // ---------------------------------------------------------------------

  /** What a write transaction leaves in the database, and how it ends. */
  datatype Committed = Committed(db: Database, outcome: Outcome)

  /**
   * `put(value, key)` with an explicit key, or `put(value)` without one. A
   * store with in-line keys refuses an explicit key and needs an `id` in the
   * record; a store with out-of-line keys needs an explicit key.
   */
  function Put(db: Database, store: string, value: Value, key: Option<Key>): Committed
    requires store in db
  {
    var st := db[store];
    if key.Some? then
      if st.inline then Committed(db, Thrown(DataError))
      else Committed(db[store := st.(entries := Upsert(st.entries, key.value, value))], Done)
    else if st.inline && KeyOf(value).Some? then
      Committed(db[store := st.(entries := Upsert(st.entries, KeyOf(value).value, value))], Done)
    else
      Committed(db, Thrown(DataError))
  }

  /**
   * `clear()` followed by `add(item)` for each item. A record without a key
   * stops the run with a DataError and what was added so far commits; a
   * duplicate key aborts the transaction, which rolls the clear back too.
   */
  function ReplaceAll(db: Database, store: string, items: seq<Value>): Committed
    requires store in db
  {
    var st := db[store];
    match AddEach([], items, st.inline)
    case AllAdded(es) => Committed(db[store := st.(entries := es)], Done)
    case MissingKey(es) => Committed(db[store := st.(entries := es)], Thrown(DataError))
    case DuplicateKey => Committed(db, Thrown(ConstraintError))
  }

  /** The explicit key `set` passes to `put`: its key argument when that is truthy. */
  function ExplicitKey(key: Option<string>): Option<Key> {
    if KeyGiven(key) then Some(StrKey(key.value)) else None
  }

  /**
   * `set(store, value, key)`: the cache entry is replaced first, whatever
   * happens next; then an array replaces the whole store, and any other
   * value is put. A failure is rethrown.
   */
  function AfterSet(s: Session, store: string, value: Value, key: Option<string>): (r: Wrote)
    ensures r.session.cache == s.cache[CacheKey(store, key) := value]
    ensures r.session.calls == s.calls + [SetCall(store, value, key)]
  {
    var t := SetTransaction(s.db, store, value, key);
    Wrote(Session(t.db, s.cache[CacheKey(store, key) := value], s.calls + [SetCall(store, value, key)]), t.outcome)
  }

  /** The database and the outcome after a write transaction; without a database nothing is written. */
  datatype Transaction = Transaction(db: Option<Database>, outcome: Outcome)

  /** The read-write transaction of `set`. */
  function SetTransaction(db: Option<Database>, store: string, value: Value, key: Option<string>): Transaction {
    if db.None? then Transaction(db, Thrown(TypeError))
    else if store !in db.value then Transaction(db, Thrown(NotFoundError))
    else
      var c := if value.Arr? then ReplaceAll(db.value, store, value.items)
               else Put(db.value, store, value, ExplicitKey(key));
      Transaction(Some(c.db), c.outcome)
  }

  /** After `set`, `get` of the same store and key returns the value set, even when the database write failed. */
  lemma ReadYourWrites(s: Session, store: string, value: Value, key: Option<string>)
    ensures var w := AfterSet(s, store, value, key);
      AfterGet(w.session, store, key) == Read(w.session, value)
  {
  }

  /** `set` touches no store but its own, and no cache entry but its own. */
  lemma SetIsLocal(s: Session, store: string, value: Value, key: Option<string>, other: string)
    requires s.db.Some? && other != store
    ensures var w := AfterSet(s, store, value, key);
      w.session.db.Some? && (other in w.session.db.value <==> other in s.db.value) &&
      (other in s.db.value ==> w.session.db.value[other] == s.db.value[other])
  {
  }

  /** Every store with in-line keys holds each record under its own `id`. */
  predicate InlineStoresKeyed(db: Database) {
    forall name :: name in db && db[name].inline ==> InlineKeyed(db[name].entries)
  }

  /** The upgrade step creates its stores empty, so it keeps in-line stores keyed by `id`. */
  lemma UpgradeKeepsInlineKeyed(existing: Database)
    requires InlineStoresKeyed(existing)
    ensures InlineStoresKeyed(Upgrade(existing))
  {
  }

  /** `put` keeps every in-line store's records under their own `id`. */
  lemma PutKeepsInlineKeyed(db: Database, store: string, value: Value, key: Option<Key>)
    requires store in db && InlineStoresKeyed(db)
    ensures InlineStoresKeyed(Put(db, store, value, key).db)
  {
    var st := db[store];
    if key.None? && st.inline && KeyOf(value).Some? {
      UpsertKeepsInlineKeyed(st.entries, KeyOf(value).value, value);
    }
  }

  /** Replacing a store's records keeps every in-line store's records under their own `id`. */
  lemma ReplaceAllKeepsInlineKeyed(db: Database, store: string, items: seq<Value>)
    requires store in db && InlineStoresKeyed(db)
    ensures InlineStoresKeyed(ReplaceAll(db, store, items).db)
  {
    if db[store].inline {
      AddEachKeepsInlineKeyed([], items);
    }
  }

  /**
   * Whatever `set` writes, and whether or not it throws, every record of a
   * store keyed by `id` stays under its own `id`.
   */
  lemma SetKeepsInlineKeyed(s: Session, store: string, value: Value, key: Option<string>)
    requires s.db.Some? ==> InlineStoresKeyed(s.db.value)
    ensures var db := AfterSet(s, store, value, key).session.db;
      db.Some? ==> InlineStoresKeyed(db.value)
  {
    if s.db.Some? && store in s.db.value {
      if value.Arr? {
        ReplaceAllKeepsInlineKeyed(s.db.value, store, value.items);
      } else {
        PutKeepsInlineKeyed(s.db.value, store, value, ExplicitKey(key));
      }
    }
  }

  /**
   * Every record of a store keyed by `id` is found by `get` under its own
   * `id`, as long as the database holds in-line stores keyed that way.
   */
  lemma RecordFoundById(db: Database, store: string, i: nat)
    requires InlineStoresKeyed(db) && store in db && db[store].inline && i < |db[store].entries|
    ensures var e := db[store].entries[i];
      KeyOf(e.value).Some? && Lookup(db[store].entries, KeyOf(e.value).value) == Some(e.value)
  {
    FoundById(db[store].entries, i);
  }

  /**
   * Setting an array on a store keyed by `id` succeeds exactly when every
   * record has an `id` and no two share one; the store then holds exactly
   * the array's records.
   */
  lemma SetArrayReplacesCollection(s: Session, store: string, items: seq<Value>)
    requires s.db.Some? && store in s.db.value && s.db.value[store].inline
    ensures var w := AfterSet(s, store, Arr(items), None);
      w.outcome == Done <==> AllKeyed(items) && DistinctKeys(items)
    ensures var w := AfterSet(s, store, Arr(items), None);
      w.outcome == Done ==>
        w.session.db.Some? && store in w.session.db.value &&
        multiset(Values(w.session.db.value[store].entries)) == multiset(items)
  {
    AddEachSucceeds([], items);
    if AddEach([], items, true).AllAdded? {
      AddEachAddsItems([], items);
    }
  }

  /**
   * A record without an `id` at position `j` makes `set` throw a DataError
   * after the cache was updated; the store is left holding exactly the
   * records before it.
   */
  lemma SetArrayStopsAtMissingId(s: Session, store: string, items: seq<Value>, j: nat)
    requires s.db.Some? && store in s.db.value && s.db.value[store].inline
    requires j < |items| && KeyOf(items[j]).None?
    requires AllKeyed(items[..j]) && DistinctKeys(items[..j])
    ensures var w := AfterSet(s, store, Arr(items), None);
      w.outcome == Thrown(DataError) &&
      w.session.db.Some? && store in w.session.db.value &&
      multiset(Values(w.session.db.value[store].entries)) == multiset(items[..j]) &&
      w.session.cache[store] == Arr(items)
  {
    AddEachStopsAtMissingKey([], items, j);
    var st := s.db.value[store];
    var es := AddEach([], items, true).entries;
    assert Values([]) == [];
    assert ReplaceAll(s.db.value, store, items) == Committed(s.db.value[store := st.(entries := es)], Thrown(DataError));
    assert CacheKey(store, None) == store;
  }

  /** A non-array value set under a truthy key on a store with explicit keys is put under that key, and no other key changes. */
  lemma SetKeyedUpserts(s: Session, store: string, value: Value, key: string, other: Key)
    requires s.db.Some? && store in s.db.value && !s.db.value[store].inline
    requires !value.Arr? && key != ""
    ensures var w := AfterSet(s, store, value, Some(key));
      w.outcome == Done && w.session.db.Some? && store in w.session.db.value &&
      Lookup(w.session.db.value[store].entries, StrKey(key)) == Some(value) &&
      (other != StrKey(key) ==>
        Lookup(w.session.db.value[store].entries, other) == Lookup(s.db.value[store].entries, other))
  {
    UpsertLookup(s.db.value[store].entries, StrKey(key), value, StrKey(key));
    UpsertLookup(s.db.value[store].entries, StrKey(key), value, other);
  }

  // ---------------------------------------------------------------------
  // Images
  // ---------------------------------------------------------------------

  /** `saveImage(id, blob)`: puts the blob under the id in `images`; a failure is rethrown. */
  function AfterSaveImage(s: Session, id: string, blob: Value): (r: Wrote)
    ensures r.session.cache == s.cache
    ensures r.session.calls == s.calls + [SaveImageCall(id, blob)]
  {
    var t := ImageTransaction(s.db, id, blob);
    Wrote(Session(t.db, s.cache, s.calls + [SaveImageCall(id, blob)]), t.outcome)
  }

  /** The read-write transaction of `saveImage`. */
  function ImageTransaction(db: Option<Database>, id: string, blob: Value): Transaction {
    if db.None? then Transaction(db, Thrown(TypeError))
    else if "images" !in db.value then Transaction(db, Thrown(NotFoundError))
    else
      var c := Put(db.value, "images", blob, Some(StrKey(id)));
      Transaction(Some(c.db), c.outcome)
  }

  /**
   * `getImage(id)`: the stored blob (standing for the object URL made from
   * it), or none when there is no truthy value under the id or the read
   * fails. `URL.createObjectURL` throws a TypeError on a truthy value that is
   * not a blob, and the catch turns that into none as well.
   */
  function ImageUrl(db: Option<Database>, id: string): Option<Value> {
    if db.None? || "images" !in db.value then None
    else match Lookup(db.value["images"].entries, StrKey(id))
      case Some(blob) =>
        if !Truthy(blob) then None
        else if blob.Blob? then Some(blob)
        else None
      case None => None
  }

  /** `deleteImage(id)`: removes the id from `images`; a failure is swallowed. */
  function AfterDeleteImage(s: Session, id: string): Session {
    var calls := s.calls + [DeleteImageCall(id)];
    if s.db.None? || "images" !in s.db.value then s.(calls := calls)
    else
      var st := s.db.value["images"];
      Session(Some(s.db.value["images" := st.(entries := Remove(st.entries, StrKey(id)))]), s.cache, calls)
  }

  /** A saved image reads back when it is a blob. */
  lemma SavedImageReadsBack(s: Session, id: string, blob: Value)
    requires blob.Blob?
    requires AfterSaveImage(s, id, blob).outcome == Done
    ensures ImageUrl(AfterSaveImage(s, id, blob).session.db, id) == Some(blob)
  {
    UpsertLookup(s.db.value["images"].entries, StrKey(id), blob, StrKey(id));
  }

  /**
   * A saved value that is not a blob reads back as none: falsy values fail
   * the `if (blob)` test, and `createObjectURL` rejects the others.
   */
  lemma SavedNonBlobReadsNone(s: Session, id: string, v: Value)
    requires !v.Blob?
    requires AfterSaveImage(s, id, v).outcome == Done
    ensures ImageUrl(AfterSaveImage(s, id, v).session.db, id) == None
  {
    UpsertLookup(s.db.value["images"].entries, StrKey(id), v, StrKey(id));
  }

  /** A deleted image reads as missing. */
  lemma DeletedImageIsMissing(s: Session, id: string)
    ensures ImageUrl(AfterDeleteImage(s, id).db, id) == None
  {
    if s.db.Some? && "images" in s.db.value {
      RemoveLookup(s.db.value["images"].entries, StrKey(id), StrKey(id));
    }
  }

  /** Deleting one image leaves every other image readable as before. */
  lemma DeletingKeepsOtherImages(s: Session, deleted: string, id: string)
    requires deleted != id
    ensures ImageUrl(AfterDeleteImage(s, deleted).db, id) == ImageUrl(s.db, id)
  {
    if s.db.Some? && "images" in s.db.value {
      RemoveLookup(s.db.value["images"].entries, StrKey(deleted), StrKey(id));
    }
  }

  /** Saving and deleting images keep every in-line store's records under their own `id`. */
  lemma ImagesKeepInlineKeyed(s: Session, id: string, blob: Value)
    requires s.db.Some? ==> InlineStoresKeyed(s.db.value)
    ensures var db := AfterSaveImage(s, id, blob).session.db; db.Some? ==> InlineStoresKeyed(db.value)
    ensures var db := AfterDeleteImage(s, id).db; db.Some? ==> InlineStoresKeyed(db.value)
  {
    if s.db.Some? && "images" in s.db.value {
      PutKeepsInlineKeyed(s.db.value, "images", blob, Some(StrKey(id)));
      if s.db.value["images"].inline {
        RemoveKeepsInlineKeyed(s.db.value["images"].entries, StrKey(id));
      }
    }
  }

  // ---------------------------------------------------------------------
  // Migration from chrome.storage.local
  // ---------------------------------------------------------------------

  /** The record `setMigrationComplete` writes under `metadata:migration`. */
  function CompletionRecord(now: nat): Value {
    Obj(map["completed" := Bool(true), "timestamp" := Num(now), "version" := Str("2.0")])
  }

  /** The record `createMigrationBackup` writes under `metadata:pre-migration-backup`. */
  function BackupRecord(iso: string, data: Value): Value {
    Obj(map["timestamp" := Str(iso), "version" := Str("1.0"), "data" := data])
  }

  /** What is left in `chrome.storage.local` after a completed migration. */
  function Marker(data: map<string, Value>, at: nat): map<string, Value> {
    map["migrationBackup" := Obj(data), "migrationDate" := Num(at)]
  }

  /** The marker holds the backup and the date, and nothing else. */
  lemma MarkerKeys(data: map<string, Value>, at: nat)
    ensures Marker(data, at).Keys == {"migrationBackup", "migrationDate"} && Marker(data, at)["migrationDate"] == Num(at)
  {
  }

  const GlobalBackgroundKeys: set<string> := {"backgroundFile", "backgroundFilename", "backgroundUrl"}

  /** The migrated settings: a copy of the legacy settings without the global background fields. */
  function MigratedSettings(settings: Value): (r: Value)
    ensures r.Obj?
    ensures forall name :: name in r.fields <==> name in Spread(settings) && name !in GlobalBackgroundKeys
    ensures forall name :: name in r.fields ==> r.fields[name] == Spread(settings)[name]
  {
    Obj(Spread(settings) - GlobalBackgroundKeys)
  }

  /**
   * Legacy settings stored as a string are truthy and migrate as the
   * string's index properties, one character each: no index is a global
   * background key.
   */
  lemma MigratedStringSettings(s: string)
    ensures MigratedSettings(Str(s)).fields.Keys == set i | 0 <= i < |s| :: NatToString(i)
    ensures forall i :: 0 <= i < |s| ==> MigratedSettings(Str(s)).fields[NatToString(i)] == Str([s[i]])
  {
    var spread := Spread(Str(s));
    SpreadString(s);
    forall k | k in spread ensures k !in GlobalBackgroundKeys {
      var i :| 0 <= i < |s| && k == NatToString(i);
      assert IsDigit(k[0]);
    }
    assert spread - GlobalBackgroundKeys == spread;
  }

  /** The image id a folder's converted background is saved under. */
  function ImageIdFor(folder: Value): string {
    "bg-" + Interpolate(Field(folder, "id"))
  }

  /** A folder whose inline background became an image record: the two inline fields gone, the image id added, the rest kept. */
  predicate ConvertedFrom(before: Value, after: Value) {
    before.Obj? && after.Obj? &&
    after.fields.Keys == before.fields.Keys - {"backgroundFile", "backgroundFilename"} + {"backgroundImageId"} &&
    after.fields["backgroundImageId"] == Str(ImageIdFor(before)) &&
    forall name :: name in after.fields && name != "backgroundImageId" ==> after.fields[name] == before.fields[name]
  }

  datatype FolderStep = FolderStep(session: Session, folder: Value)

  /**
   * One turn of the folder loop. Reading `backgroundFile` of a null or
   * undefined element throws (none); a failed conversion or image save is
   * caught and leaves the folder as it was.
   */
  function ConvertFolder(s: Session, folder: Value, toBlob: Value -> Option<Value>): Option<FolderStep> {
    if folder.Null? || folder.Undefined? then None
    else
      var file := Field(folder, "backgroundFile");
      if !Truthy(file) then Some(FolderStep(s, folder))
      else match toBlob(file)
        case None => Some(FolderStep(s, folder))
        case Some(blob) =>
          var w := AfterSaveImage(s, ImageIdFor(folder), blob);
          if w.outcome.Thrown? then Some(FolderStep(w.session, folder))
          else Some(FolderStep(w.session, ConvertedFolder(folder)))
  }

  /** The folder after its conversion: `backgroundImageId` set, `backgroundFile` and `backgroundFilename` deleted. */
  function ConvertedFolder(folder: Value): Value
    requires folder.Obj?
  {
    Obj(folder.fields["backgroundImageId" := Str(ImageIdFor(folder))] - {"backgroundFile", "backgroundFilename"})
  }

  lemma ConvertedFolderShape(folder: Value)
    requires folder.Obj?
    ensures ConvertedFrom(folder, ConvertedFolder(folder))
  {
  }

  /** A converted folder's image is in the `images` store under its id. */
  lemma ConvertedFolderImageStored(s: Session, folder: Value, toBlob: Value -> Option<Value>)
    requires ConvertFolder(s, folder, toBlob).Some?
    requires ConvertFolder(s, folder, toBlob).value.folder != folder
    ensures var step := ConvertFolder(s, folder, toBlob).value;
      var blob := toBlob(Field(folder, "backgroundFile"));
      blob.Some? && step.session.db.Some? && "images" in step.session.db.value &&
      Lookup(step.session.db.value["images"].entries, StrKey(ImageIdFor(folder))) == Some(blob.value)
  {
    var blob := toBlob(Field(folder, "backgroundFile")).value;
    UpsertLookup(s.db.value["images"].entries, StrKey(ImageIdFor(folder)), blob, StrKey(ImageIdFor(folder)));
  }

  /** One turn of the folder loop throws exactly at a null or undefined element. */
  lemma ConvertFolderFails(s: Session, folder: Value, toBlob: Value -> Option<Value>)
    ensures ConvertFolder(s, folder, toBlob).None? <==> folder.Null? || folder.Undefined?
  {
  }

  /** One turn of the folder loop keeps the folder or converts it, and makes no `set` call and no cache change. */
  lemma ConvertFolderEffect(s: Session, folder: Value, toBlob: Value -> Option<Value>)
    requires ConvertFolder(s, folder, toBlob).Some?
    ensures var step := ConvertFolder(s, folder, toBlob).value;
      step.session.cache == s.cache &&
      Targets(step.session.calls) == Targets(s.calls) &&
      (step.folder == folder ||
       (Truthy(Field(folder, "backgroundFile")) && toBlob(Field(folder, "backgroundFile")).Some? &&
        folder.Obj? && step.folder == ConvertedFolder(folder)))
  {
    var file := Field(folder, "backgroundFile");
    if Truthy(file) && toBlob(file).Some? {
      var w := AfterSaveImage(s, ImageIdFor(folder), toBlob(file).value);
      TargetsAppend(s.calls, SaveImageCall(ImageIdFor(folder), toBlob(file).value));
      assert Targets(w.session.calls) == Targets(s.calls);
    }
  }

  datatype Conversion = Conversion(session: Session, folders: seq<Value>, failed: bool)

  /**
   * The whole folder loop: each folder is kept or converted in turn, and the
   * loop stops at the first null or undefined element. The cache and the
   * `set` calls are untouched.
   */
  function ConvertFolders(s: Session, folders: seq<Value>, toBlob: Value -> Option<Value>): (r: Conversion)
    ensures !r.failed ==> |r.folders| == |folders|
    ensures r.session.cache == s.cache
    ensures Targets(r.session.calls) == Targets(s.calls)
    decreases |folders|
  {
    if folders == [] then Conversion(s, [], false)
    else match ConvertFolder(s, folders[0], toBlob)
      case None => Conversion(s, [], true)
      case Some(step) =>
        ConvertFolderEffect(s, folders[0], toBlob);
        var rest := ConvertFolders(step.session, folders[1..], toBlob);
        Conversion(rest.session, [step.folder] + rest.folders, rest.failed)
  }

  /** The folder loop fails exactly when some element is null or undefined. */
  lemma {:induction false} ConvertFoldersFailsOnNullish(s: Session, folders: seq<Value>, toBlob: Value -> Option<Value>)
    ensures ConvertFolders(s, folders, toBlob).failed <==>
      exists i :: 0 <= i < |folders| && (folders[i].Null? || folders[i].Undefined?)
    decreases |folders|
  {
    if folders != [] {
      ConvertFolderFails(s, folders[0], toBlob);
      match ConvertFolder(s, folders[0], toBlob)
      case None =>
      case Some(step) =>
        ConvertFoldersFailsOnNullish(step.session, folders[1..], toBlob);
        assert ConvertFolders(s, folders, toBlob).failed == ConvertFolders(step.session, folders[1..], toBlob).failed;
        forall i | 1 <= i < |folders| ensures folders[1..][i - 1] == folders[i] { }
    }
  }

  /**
   * When the folder loop does not fail, every folder is kept or converted,
   * and a folder is converted only when it has a truthy `backgroundFile`
   * that `toBlob` turned into a blob: a folder without one, or whose
   * conversion failed, is kept as it was.
   */
  lemma {:induction false} ConvertFoldersKeepsOrConverts(s: Session, folders: seq<Value>, toBlob: Value -> Option<Value>)
    ensures var r := ConvertFolders(s, folders, toBlob);
      !r.failed ==> forall i :: 0 <= i < |folders| ==>
        r.folders[i] == folders[i] ||
        (Truthy(Field(folders[i], "backgroundFile")) && toBlob(Field(folders[i], "backgroundFile")).Some? &&
         ConvertedFrom(folders[i], r.folders[i]))
    decreases |folders|
  {
    if folders != [] {
      var r := ConvertFolders(s, folders, toBlob);
      match ConvertFolder(s, folders[0], toBlob)
      case None =>
      case Some(step) =>
        ConvertFolderEffect(s, folders[0], toBlob);
        ConvertFoldersKeepsOrConverts(step.session, folders[1..], toBlob);
        var rest := ConvertFolders(step.session, folders[1..], toBlob);
        assert r == Conversion(rest.session, [step.folder] + rest.folders, rest.failed);
        if !r.failed {
          forall i | 0 <= i < |folders|
            ensures r.folders[i] == folders[i] ||
              (Truthy(Field(folders[i], "backgroundFile")) && toBlob(Field(folders[i], "backgroundFile")).Some? &&
               ConvertedFrom(folders[i], r.folders[i]))
          {
            if i > 0 {
              assert r.folders[i] == rest.folders[i - 1] && folders[1..][i - 1] == folders[i];
            } else if step.folder != folders[0] {
              ConvertedFolderShape(folders[0]);
            }
          }
        }
    }
  }

  datatype FolderMigration = FolderMigration(session: Session, folders: Value, outcome: Outcome)

  /**
   * The folders stage: when the legacy folders are non-empty, convert each
   * (an object that merely has a `length` cannot be iterated) and set the
   * resulting array; a string's characters have no background to convert.
   */
  function MigrateFolders(s: Session, folders: Value, toBlob: Value -> Option<Value>): FolderMigration {
    if !(Truthy(folders) && LengthPositive(folders)) then FolderMigration(s, folders, Done)
    else if folders.Obj? then FolderMigration(s, folders, Thrown(TypeError))
    else if folders.Arr? then
      var c := ConvertFolders(s, folders.items, toBlob);
      if c.failed then FolderMigration(c.session, folders, Thrown(TypeError))
      else
        var w := AfterSet(c.session, "folders", Arr(c.folders), None);
        FolderMigration(w.session, Arr(c.folders), w.outcome)
    else
      var w := AfterSet(s, "folders", folders, None);
      FolderMigration(w.session, folders, w.outcome)
  }

  datatype Migration = Migration(session: Session, legacy: map<string, Value>, outcome: Outcome)

  /**
   * `migrateFromChromeStorage`, given the legacy data, the blob conversion,
   * the backup's ISO timestamp and the two `Date.now()` readings.
   */
  function AfterMigration(s: Session, legacy: map<string, Value>, toBlob: Value -> Option<Value>,
                          iso: string, completedAt: nat, markedAt: nat): Migration
  {
    var gate := AfterGet(s, "metadata", Some("migration"));
    if Truthy(Field(gate.value, "completed")) then Migration(gate.session, legacy, Done)
    else if legacy == map[] then
      var w := AfterSet(gate.session, "metadata", CompletionRecord(completedAt), Some("migration"));
      Migration(w.session, legacy, w.outcome)
    else
      var backup := AfterSet(gate.session, "metadata", BackupRecord(iso, Obj(legacy)), Some("pre-migration-backup"));
      MigrateData(backup.session, legacy, toBlob, completedAt, markedAt)
  }

  /** The stages after the backup, starting with the bookmarks, copied when there are any. */
  function MigrateData(s: Session, legacy: map<string, Value>, toBlob: Value -> Option<Value>,
                       completedAt: nat, markedAt: nat): Migration
  {
    var bookmarks := Prop(legacy, "bookmarks");
    if Truthy(bookmarks) && LengthPositive(bookmarks) then
      var b := AfterSet(s, "bookmarks", bookmarks, None);
      if b.outcome.Thrown? then Migration(b.session, legacy, b.outcome)
      else MigrateFolderData(b.session, legacy, toBlob, completedAt, markedAt)
    else
      MigrateFolderData(s, legacy, toBlob, completedAt, markedAt)
  }

  /** The folders stage; the converted folders replace the legacy ones in the data kept as the marker's backup. */
  function MigrateFolderData(s: Session, legacy: map<string, Value>, toBlob: Value -> Option<Value>,
                             completedAt: nat, markedAt: nat): Migration
  {
    var folders := Prop(legacy, "folders");
    var f := MigrateFolders(s, folders, toBlob);
    if f.outcome.Thrown? then Migration(f.session, legacy, f.outcome)
    else
      var data := if Truthy(folders) && LengthPositive(folders) && folders.Arr?
                  then legacy["folders" := f.folders] else legacy;
      FinishMigration(f.session, legacy, data, completedAt, markedAt)
  }

  /** The settings stage, the completion record, and the marker left in `chrome.storage.local`. */
  function FinishMigration(s: Session, legacy: map<string, Value>, data: map<string, Value>,
                           completedAt: nat, markedAt: nat): Migration
  {
    var settings := Prop(legacy, "settings");
    var st := if Truthy(settings) then AfterSet(s, "settings", MigratedSettings(settings), Some("main"))
              else Wrote(s, Done);
    if st.outcome.Thrown? then Migration(st.session, legacy, st.outcome)
    else
      var c := AfterSet(st.session, "metadata", CompletionRecord(completedAt), Some("migration"));
      if c.outcome.Thrown? then Migration(c.session, legacy, c.outcome)
      else Migration(c.session, Marker(data, markedAt), Done)
  }

  /** The `completed` flag the migration gate reads, as `get('metadata', 'migration')` would return it. */
  predicate MarkedComplete(s: Session) {
    Truthy(Field(AfterGet(s, "metadata", Some("migration")).value, "completed"))
  }

  /** With the completion flag set, the migration returns at once: no write, and the legacy data stays. */
  lemma MigrationSkippedWhenComplete(s: Session, legacy: map<string, Value>, toBlob: Value -> Option<Value>,
                                     iso: string, completedAt: nat, markedAt: nat)
    requires MarkedComplete(s)
    ensures var m := AfterMigration(s, legacy, toBlob, iso, completedAt, markedAt);
      m.outcome == Done && m.legacy == legacy && m.session.db == s.db && m.session.calls == s.calls
  {
  }

  lemma FinishMarksComplete(s: Session, legacy: map<string, Value>, data: map<string, Value>, completedAt: nat, markedAt: nat)
    requires FinishMigration(s, legacy, data, completedAt, markedAt).outcome == Done
    ensures var m := FinishMigration(s, legacy, data, completedAt, markedAt);
      CacheKey("metadata", Some("migration")) in m.session.cache && m.session.cache[CacheKey("metadata", Some("migration"))] == CompletionRecord(completedAt)
  {
  }

  lemma MigrateDataMarksComplete(s: Session, legacy: map<string, Value>, toBlob: Value -> Option<Value>,
                                 completedAt: nat, markedAt: nat)
    requires MigrateData(s, legacy, toBlob, completedAt, markedAt).outcome == Done
    ensures var m := MigrateData(s, legacy, toBlob, completedAt, markedAt);
      CacheKey("metadata", Some("migration")) in m.session.cache && m.session.cache[CacheKey("metadata", Some("migration"))] == CompletionRecord(completedAt)
  {
    var bookmarks := Prop(legacy, "bookmarks");
    var s1 := if Truthy(bookmarks) && LengthPositive(bookmarks) then AfterSet(s, "bookmarks", bookmarks, None).session else s;
    assert MigrateData(s, legacy, toBlob, completedAt, markedAt) == MigrateFolderData(s1, legacy, toBlob, completedAt, markedAt);
    var folders := Prop(legacy, "folders");
    var f := MigrateFolders(s1, folders, toBlob);
    var data := if Truthy(folders) && LengthPositive(folders) && folders.Arr? then legacy["folders" := f.folders] else legacy;
    FinishMarksComplete(f.session, legacy, data, completedAt, markedAt);
  }

  /**
   * A migration that returns normally leaves the completion flag readable
   * through the cache, so a second run in the same session is a no-op.
   */
  lemma MigrationCompletes(s: Session, legacy: map<string, Value>, toBlob: Value -> Option<Value>,
                           iso: string, completedAt: nat, markedAt: nat)
    requires AfterMigration(s, legacy, toBlob, iso, completedAt, markedAt).outcome == Done
    ensures var m := AfterMigration(s, legacy, toBlob, iso, completedAt, markedAt);
      CacheKey("metadata", Some("migration")) in m.session.cache && Truthy(Field(m.session.cache[CacheKey("metadata", Some("migration"))], "completed"))
    ensures MarkedComplete(AfterMigration(s, legacy, toBlob, iso, completedAt, markedAt).session)
  {
    var gate := AfterGet(s, "metadata", Some("migration"));
    if !Truthy(Field(gate.value, "completed")) && legacy != map[] {
      var backup := AfterSet(gate.session, "metadata", BackupRecord(iso, Obj(legacy)), Some("pre-migration-backup"));
      MigrateDataMarksComplete(backup.session, legacy, toBlob, completedAt, markedAt);
    }
  }

  /** Hence running the migration again after it returned normally changes nothing. */
  lemma SecondMigrationIsNoOp(s: Session, legacy: map<string, Value>, toBlob: Value -> Option<Value>,
                              iso: string, completedAt: nat, markedAt: nat,
                              toBlob': Value -> Option<Value>, iso': string, completedAt': nat, markedAt': nat)
    requires AfterMigration(s, legacy, toBlob, iso, completedAt, markedAt).outcome == Done
    ensures var m := AfterMigration(s, legacy, toBlob, iso, completedAt, markedAt);
      AfterMigration(m.session, m.legacy, toBlob', iso', completedAt', markedAt') == Migration(m.session, m.legacy, Done)
  {
    MigrationCompletes(s, legacy, toBlob, iso, completedAt, markedAt);
  }

  /** With no legacy data the only write is the completion record `{completed: true, version: '2.0'}`. */
  lemma EmptyLegacyOnlyCompletes(s: Session, toBlob: Value -> Option<Value>, iso: string, completedAt: nat, markedAt: nat)
    requires !MarkedComplete(s)
    ensures var m := AfterMigration(s, map[], toBlob, iso, completedAt, markedAt);
      m.session.calls == s.calls + [SetCall("metadata", CompletionRecord(completedAt), Some("migration"))] &&
      m.legacy == map[]
    ensures Field(CompletionRecord(completedAt), "completed") == Bool(true)
    ensures Field(CompletionRecord(completedAt), "version") == Str("2.0")
  {
  }

  /** A migration that throws leaves `chrome.storage.local` as it was. */
  lemma FailedMigrationKeepsLegacy(s: Session, legacy: map<string, Value>, toBlob: Value -> Option<Value>,
                                   iso: string, completedAt: nat, markedAt: nat)
    requires AfterMigration(s, legacy, toBlob, iso, completedAt, markedAt).outcome.Thrown?
    ensures AfterMigration(s, legacy, toBlob, iso, completedAt, markedAt).legacy == legacy
  {
    var gate := AfterGet(s, "metadata", Some("migration"));
    if !Truthy(Field(gate.value, "completed")) && legacy != map[] {
      var backup := AfterSet(gate.session, "metadata", BackupRecord(iso, Obj(legacy)), Some("pre-migration-backup"));
      FailedStagesKeepLegacy(backup.session, legacy, toBlob, completedAt, markedAt);
    }
  }

  /** A throw in any stage after the backup leaves the legacy data as it was. */
  lemma FailedStagesKeepLegacy(s: Session, legacy: map<string, Value>, toBlob: Value -> Option<Value>,
                               completedAt: nat, markedAt: nat)
    requires MigrateData(s, legacy, toBlob, completedAt, markedAt).outcome.Thrown?
    ensures MigrateData(s, legacy, toBlob, completedAt, markedAt).legacy == legacy
  {
    var bookmarks := Prop(legacy, "bookmarks");
    var copied := Truthy(bookmarks) && LengthPositive(bookmarks);
    if !copied || !AfterSet(s, "bookmarks", bookmarks, None).outcome.Thrown? {
      var s1 := if copied then AfterSet(s, "bookmarks", bookmarks, None).session else s;
      assert MigrateData(s, legacy, toBlob, completedAt, markedAt) == MigrateFolderData(s1, legacy, toBlob, completedAt, markedAt);
      var folders := Prop(legacy, "folders");
      var f := MigrateFolders(s1, folders, toBlob);
      if !f.outcome.Thrown? {
        var data := if Truthy(folders) && LengthPositive(folders) && folders.Arr? then legacy["folders" := f.folders] else legacy;
        assert MigrateFolderData(s1, legacy, toBlob, completedAt, markedAt) == FinishMigration(f.session, legacy, data, completedAt, markedAt);
      }
    }
  }

  function SettingsTargets(legacy: map<string, Value>): seq<string> {
    if Truthy(Prop(legacy, "settings")) then [CacheKey("settings", Some("main"))] else []
  }

  function FolderTargets(legacy: map<string, Value>): seq<string> {
    var folders := Prop(legacy, "folders");
    if Truthy(folders) && LengthPositive(folders) then ["folders"] else []
  }

  function BookmarkTargets(legacy: map<string, Value>): seq<string> {
    var bookmarks := Prop(legacy, "bookmarks");
    if Truthy(bookmarks) && LengthPositive(bookmarks) then ["bookmarks"] else []
  }

  lemma FinishTargets(s: Session, legacy: map<string, Value>, data: map<string, Value>, completedAt: nat, markedAt: nat)
    requires FinishMigration(s, legacy, data, completedAt, markedAt).outcome == Done
    ensures var m := FinishMigration(s, legacy, data, completedAt, markedAt);
      Targets(m.session.calls) == Targets(s.calls) + SettingsTargets(legacy) + [CacheKey("metadata", Some("migration"))] &&
      m.legacy == Marker(data, markedAt)
  {
    var settings := Prop(legacy, "settings");
    var st := if Truthy(settings) then AfterSet(s, "settings", MigratedSettings(settings), Some("main"))
              else Wrote(s, Done);
    assert Targets(st.session.calls) == Targets(s.calls) + SettingsTargets(legacy) by {
      if Truthy(settings) {
        TargetsAppend(s.calls, SetCall("settings", MigratedSettings(settings), Some("main")));
      }
    }
    var c := AfterSet(st.session, "metadata", CompletionRecord(completedAt), Some("migration"));
    TargetsAppend(st.session.calls, SetCall("metadata", CompletionRecord(completedAt), Some("migration")));
    assert FinishMigration(s, legacy, data, completedAt, markedAt) == Migration(c.session, Marker(data, markedAt), Done);
  }

  lemma MigrateFoldersTargets(s: Session, folders: Value, toBlob: Value -> Option<Value>)
    requires MigrateFolders(s, folders, toBlob).outcome == Done
    ensures Targets(MigrateFolders(s, folders, toBlob).session.calls) ==
      Targets(s.calls) + (if Truthy(folders) && LengthPositive(folders) then ["folders"] else [])
  {
    if Truthy(folders) && LengthPositive(folders) {
      if folders.Arr? {
        var c := ConvertFolders(s, folders.items, toBlob);
        TargetsAppend(c.session.calls, SetCall("folders", Arr(c.folders), None));
      } else {
        TargetsAppend(s.calls, SetCall("folders", folders, None));
      }
    }
  }

  lemma MigrateDataTargets(s: Session, legacy: map<string, Value>, toBlob: Value -> Option<Value>,
                           completedAt: nat, markedAt: nat)
    requires MigrateData(s, legacy, toBlob, completedAt, markedAt).outcome == Done
    ensures var m := MigrateData(s, legacy, toBlob, completedAt, markedAt);
      Targets(m.session.calls) ==
        Targets(s.calls) + BookmarkTargets(legacy) + FolderTargets(legacy) + SettingsTargets(legacy) + [CacheKey("metadata", Some("migration"))] &&
      m.legacy.Keys == {"migrationBackup", "migrationDate"} && m.legacy["migrationDate"] == Num(markedAt)
  {
    var bookmarks := Prop(legacy, "bookmarks");
    var s1 := if Truthy(bookmarks) && LengthPositive(bookmarks) then AfterSet(s, "bookmarks", bookmarks, None).session else s;
    if Truthy(bookmarks) && LengthPositive(bookmarks) {
      TargetsAppend(s.calls, SetCall("bookmarks", bookmarks, None));
    }
    assert Targets(s1.calls) == Targets(s.calls) + BookmarkTargets(legacy);
    assert MigrateData(s, legacy, toBlob, completedAt, markedAt) == MigrateFolderData(s1, legacy, toBlob, completedAt, markedAt);
    var folders := Prop(legacy, "folders");
    var f := MigrateFolders(s1, folders, toBlob);
    MigrateFoldersTargets(s1, folders, toBlob);
    var data := if Truthy(folders) && LengthPositive(folders) && folders.Arr? then legacy["folders" := f.folders] else legacy;
    var m := MigrateData(s, legacy, toBlob, completedAt, markedAt);
    assert m == FinishMigration(f.session, legacy, data, completedAt, markedAt);
    FinishTargets(f.session, legacy, data, completedAt, markedAt);
    MarkerKeys(data, markedAt);
    ChainTargets(Targets(s.calls), Targets(s1.calls), Targets(f.session.calls), Targets(m.session.calls),
                 BookmarkTargets(legacy), FolderTargets(legacy), SettingsTargets(legacy), [CacheKey("metadata", Some("migration"))]);
  }

  /** Writes recorded stage after stage add up to the stages' writes in order. */
  lemma ChainTargets(t0: seq<string>, t1: seq<string>, t2: seq<string>, t3: seq<string>,
                     first: seq<string>, second: seq<string>, third: seq<string>, last: seq<string>)
    requires t1 == t0 + first && t2 == t1 + second && t3 == t2 + third + last
    ensures t3 == t0 + first + second + third + last
  {
  }

  /**
   * A migration of non-empty legacy data that returns normally made its `set`
   * calls in the order backup, bookmarks (when non-empty), folders (when
   * non-empty), settings (when present), completion record, whether or not
   * the backup's own write failed; and it left only the marker in
   * `chrome.storage.local`.
   */
  lemma MigrationWriteOrder(s: Session, legacy: map<string, Value>, toBlob: Value -> Option<Value>,
                            iso: string, completedAt: nat, markedAt: nat)
    requires !MarkedComplete(s) && legacy != map[]
    requires AfterMigration(s, legacy, toBlob, iso, completedAt, markedAt).outcome == Done
    ensures var m := AfterMigration(s, legacy, toBlob, iso, completedAt, markedAt);
      Targets(m.session.calls) ==
        Targets(s.calls) + [CacheKey("metadata", Some("pre-migration-backup"))] + BookmarkTargets(legacy) + FolderTargets(legacy)
        + SettingsTargets(legacy) + [CacheKey("metadata", Some("migration"))] &&
      m.legacy.Keys == {"migrationBackup", "migrationDate"} && m.legacy["migrationDate"] == Num(markedAt)
  {
    var gate := AfterGet(s, "metadata", Some("migration"));
    var backup := AfterSet(gate.session, "metadata", BackupRecord(iso, Obj(legacy)), Some("pre-migration-backup"));
    TargetsAppend(gate.session.calls, SetCall("metadata", BackupRecord(iso, Obj(legacy)), Some("pre-migration-backup")));
    assert AfterMigration(s, legacy, toBlob, iso, completedAt, markedAt) == MigrateData(backup.session, legacy, toBlob, completedAt, markedAt);
    MigrateDataTargets(backup.session, legacy, toBlob, completedAt, markedAt);
  }

  /**
   * A legacy bookmark without an `id` makes the bookmarks `set` throw a
   * DataError after the bookmarks before it were committed; the migration
   * throws, `chrome.storage.local` keeps the legacy data, and the completion
   * flag still reads as unset, so the next start tries the migration again.
   */
  lemma UnkeyedLegacyBookmarkStopsMigration(s: Session, legacy: map<string, Value>,
                                            toBlob: Value -> Option<Value>, iso: string,
                                            completedAt: nat, markedAt: nat,
                                            items: seq<Value>, j: nat)
    requires !MarkedComplete(s)
    requires s.db.Some? && "bookmarks" in s.db.value && s.db.value["bookmarks"].inline
    requires "bookmarks" in legacy && legacy["bookmarks"] == Arr(items)
    requires j < |items| && KeyOf(items[j]).None?
    requires AllKeyed(items[..j]) && DistinctKeys(items[..j])
    ensures var m := AfterMigration(s, legacy, toBlob, iso, completedAt, markedAt);
      m.outcome == Thrown(DataError) && m.legacy == legacy && !MarkedComplete(m.session) &&
      m.session.db.Some? && "bookmarks" in m.session.db.value &&
      multiset(Values(m.session.db.value["bookmarks"].entries)) == multiset(items[..j])
  {
    var gate := AfterGet(s, "metadata", Some("migration"));
    var backup := AfterSet(gate.session, "metadata", BackupRecord(iso, Obj(legacy)), Some("pre-migration-backup"));
    SetIsLocal(gate.session, "metadata", BackupRecord(iso, Obj(legacy)), Some("pre-migration-backup"), "bookmarks");
    SetArrayStopsAtMissingId(backup.session, "bookmarks", items, j);
    var w := AfterSet(backup.session, "bookmarks", Arr(items), None);
    assert MigrateData(backup.session, legacy, toBlob, completedAt, markedAt) == Migration(w.session, legacy, Thrown(DataError));
    assert AfterMigration(s, legacy, toBlob, iso, completedAt, markedAt) == Migration(w.session, legacy, Thrown(DataError));
    NotMarkedAfterUnrelatedSets(s, iso, legacy, items);
  }

  /** The backup and bookmarks writes leave the completion flag as the migration gate read it. */
  lemma NotMarkedAfterUnrelatedSets(s: Session, iso: string, legacy: map<string, Value>, items: seq<Value>)
    requires !MarkedComplete(s)
    ensures var gate := AfterGet(s, "metadata", Some("migration"));
      var backup := AfterSet(gate.session, "metadata", BackupRecord(iso, Obj(legacy)), Some("pre-migration-backup"));
      !MarkedComplete(AfterSet(backup.session, "bookmarks", Arr(items), None).session)
  {
    var gate := AfterGet(s, "metadata", Some("migration"));
    var backup := AfterSet(gate.session, "metadata", BackupRecord(iso, Obj(legacy)), Some("pre-migration-backup"));
    var w := AfterSet(backup.session, "bookmarks", Arr(items), None);
    var ck := CacheKey("metadata", Some("migration"));
    assert CacheKey("metadata", Some("pre-migration-backup")) != ck;
    assert CacheKey("bookmarks", None) != ck;
    if ck in gate.session.cache {
      assert w.session.cache[ck] == gate.session.cache[ck];
    } else {
      assert s.db.Some? ==> "metadata" !in s.db.value;
      assert backup.session.db == s.db;
      if s.db.Some? {
        SetIsLocal(backup.session, "bookmarks", Arr(items), None, "metadata");
      }
    }
  }

  // ---------------------------------------------------------------------
  // The class
  // ---------------------------------------------------------------------

  /** The `add` requests of `set` for an array, one record at a time, into the cleared store. */
  method AddAll(inline: bool, items: seq<Value>) returns (added: AddOutcome)
    ensures added == AddEach([], items, inline)
  {
    var entries: Entries := [];
    var i := 0;
    while i < |items|
      invariant 0 <= i <= |items|
      invariant AddEach([], items, inline) == AddEach(entries, items[i..], inline)
    {
      assert items[i..][1..] == items[i + 1..];
      var k := KeyFor(inline, items[i]);
      if k.None? {
        return MissingKey(entries);
      }
      if k.value in KeySet(entries) {
        return DuplicateKey;
      }
      entries := Upsert(entries, k.value, items[i]);
      i := i + 1;
    }
    added := AllAdded(entries);
  }

  class StorageManager {
    var db: Option<Database>
    var cache: map<string, Value>
    ghost var calls: seq<Call>

    ghost function Snapshot(): Session
      reads this
    {
      Session(db, cache, calls)
    }

    constructor ()
      ensures Snapshot() == Session(None, map[], [])
    {
      db := None;
      cache := map[];
      calls := [];
    }

    /** `initialize()`: opens the database (none when opening fails) and runs the migration. */
    method Initialize(persisted: bool, onDisk: Option<Database>, legacy: LocalArea,
                      toBlob: Value -> Option<Value>, iso: string, completedAt: nat, markedAt: nat)
      returns (granted: bool, outcome: Outcome)
      modifies this, legacy
      ensures granted == persisted
      ensures onDisk.None? ==> outcome == Thrown(OpenFailed) && Snapshot() == old(Snapshot()) && legacy.items == old(legacy.items)
      ensures onDisk.Some? ==>
        var m := AfterMigration(old(Snapshot()).(db := Some(Upgrade(onDisk.value))), old(legacy.items),
                                toBlob, iso, completedAt, markedAt);
        Snapshot() == m.session && legacy.items == m.legacy && outcome == m.outcome
    {
      granted := persisted;
      if onDisk.None? {
        return granted, Thrown(OpenFailed);
      }
      db := Some(Upgrade(onDisk.value));
      outcome := MigrateFromChromeStorage(legacy, toBlob, iso, completedAt, markedAt);
    }

    method Get(store: string, key: Option<string>) returns (value: Value)
      modifies this
      ensures Snapshot() == AfterGet(old(Snapshot()), store, key).session
      ensures value == AfterGet(old(Snapshot()), store, key).value
    {
      var ck := CacheKey(store, key);
      if ck in cache {
        return cache[ck];
      }
      match ReadStore(db, store, key)
      case Fetched(v) =>
        cache := cache[ck := v];
        value := v;
      case Failed(_) =>
        value := if KeyGiven(key) then Null else Arr([]);
    }

    method Set(store: string, value: Value, key: Option<string>) returns (outcome: Outcome)
      modifies this
      ensures Snapshot() == AfterSet(old(Snapshot()), store, value, key).session
      ensures outcome == AfterSet(old(Snapshot()), store, value, key).outcome
    {
      cache := cache[CacheKey(store, key) := value];
      calls := calls + [SetCall(store, value, key)];
      if db.None? {
        return Thrown(TypeError);
      }
      var stores := db.value;
      if store !in stores {
        return Thrown(NotFoundError);
      }
      var target := stores[store];
      if value.Arr? {
        var added := AddAll(target.inline, value.items);
        match added
        case AllAdded(es) =>
          db := Some(stores[store := target.(entries := es)]);
          outcome := Done;
        case MissingKey(es) =>
          db := Some(stores[store := target.(entries := es)]);
          outcome := Thrown(DataError);
        case DuplicateKey =>
          outcome := Thrown(ConstraintError);
      } else {
        var c := Put(stores, store, value, ExplicitKey(key));
        db := Some(c.db);
        outcome := c.outcome;
      }
    }

    method SaveImage(id: string, blob: Value) returns (outcome: Outcome)
      modifies this
      ensures Snapshot() == AfterSaveImage(old(Snapshot()), id, blob).session
      ensures outcome == AfterSaveImage(old(Snapshot()), id, blob).outcome
    {
      calls := calls + [SaveImageCall(id, blob)];
      if db.None? {
        return Thrown(TypeError);
      }
      if "images" !in db.value {
        return Thrown(NotFoundError);
      }
      var c := Put(db.value, "images", blob, Some(StrKey(id)));
      db := Some(c.db);
      outcome := c.outcome;
    }

    method GetImage(id: string) returns (url: Option<Value>)
      ensures url == ImageUrl(db, id)
      ensures url.Some? ==> url.value.Blob?
    {
      url := ImageUrl(db, id);
    }

    method DeleteImage(id: string)
      modifies this
      ensures Snapshot() == AfterDeleteImage(old(Snapshot()), id)
    {
      calls := calls + [DeleteImageCall(id)];
      if db.Some? && "images" in db.value {
        var st := db.value["images"];
        db := Some(db.value["images" := st.(entries := Remove(st.entries, StrKey(id)))]);
      }
    }

    /** `clearCache()`: forgets every cached value; the database is untouched. */
    method ClearCache()
      modifies this
      ensures Snapshot() == old(Snapshot()).(cache := map[])
    {
      cache := map[];
    }

    /** `createMigrationBackup(data)`: sets the backup record; a failure is swallowed. */
    method CreateMigrationBackup(data: Value, iso: string)
      modifies this
      ensures Snapshot() == AfterSet(old(Snapshot()), "metadata", BackupRecord(iso, data), Some("pre-migration-backup")).session
    {
      var _ := Set("metadata", BackupRecord(iso, data), Some("pre-migration-backup"));
    }

    /** `setMigrationComplete()`: sets the completion record; a failure is rethrown. */
    method SetMigrationComplete(now: nat) returns (outcome: Outcome)
      modifies this
      ensures var w := AfterSet(old(Snapshot()), "metadata", CompletionRecord(now), Some("migration"));
        Snapshot() == w.session && outcome == w.outcome
    {
      outcome := Set("metadata", CompletionRecord(now), Some("migration"));
    }

    /** One turn of the folder loop: converts the folder's inline background into an image record, if it can. */
    method ConvertOneFolder(folder: Value, toBlob: Value -> Option<Value>) returns (result: Value, ok: bool)
      modifies this
      ensures ConvertFolder(old(Snapshot()), folder, toBlob) == if ok then Some(FolderStep(Snapshot(), result)) else None
      ensures !ok ==> Snapshot() == old(Snapshot())
    {
      if folder.Null? || folder.Undefined? {
        return folder, false;
      }
      result, ok := folder, true;
      var file := Field(folder, "backgroundFile");
      if Truthy(file) {
        var blob := toBlob(file);
        if blob.Some? {
          var imageId := ImageIdFor(folder);
          var saved := SaveImage(imageId, blob.value);
          if saved == Done {
            result := ConvertedFolder(folder);
          }
        }
      }
    }

    /** The loop over the legacy folders, converting each inline background in turn. */
    method ConvertFolderList(items: seq<Value>, toBlob: Value -> Option<Value>)
      returns (converted: seq<Value>, failed: bool)
      modifies this
      ensures var c := ConvertFolders(old(Snapshot()), items, toBlob);
        Snapshot() == c.session && failed == c.failed && (!failed ==> converted == c.folders)
    {
      converted, failed := [], false;
      var i := 0;
      while i < |items|
        invariant 0 <= i <= |items|
        invariant var whole := ConvertFolders(old(Snapshot()), items, toBlob);
          var rest := ConvertFolders(Snapshot(), items[i..], toBlob);
          whole == Conversion(rest.session, converted + rest.folders, rest.failed)
      {
        assert items[i..][1..] == items[i + 1..];
        ghost var before := Snapshot();
        var folder, ok := ConvertOneFolder(items[i], toBlob);
        if !ok {
          return converted, true;
        }
        ghost var rest := ConvertFolders(Snapshot(), items[i + 1..], toBlob);
        assert ConvertFolders(before, items[i..], toBlob) == Conversion(rest.session, [folder] + rest.folders, rest.failed);
        assert converted + [folder] + rest.folders == converted + ([folder] + rest.folders);
        converted := converted + [folder];
        i := i + 1;
      }
      assert converted + [] == converted;
    }

    /** The folders stage of the migration: convert the legacy folders when there are any, then set them. */
    method MigrateFolderStage(folders: Value, toBlob: Value -> Option<Value>) returns (result: Value, outcome: Outcome)
      modifies this
      ensures MigrateFolders(old(Snapshot()), folders, toBlob) == FolderMigration(Snapshot(), result, outcome)
    {
      result, outcome := folders, Done;
      if !(Truthy(folders) && LengthPositive(folders)) {
        return;
      }
      if folders.Obj? {
        return folders, Thrown(TypeError);
      }
      if folders.Arr? {
        var converted, failed := ConvertFolderList(folders.items, toBlob);
        if failed {
          return folders, Thrown(TypeError);
        }
        result := Arr(converted);
      }
      outcome := Set("folders", result, None);
    }

    /** The stages after the backup: bookmarks, folders, settings and the completion record. */
    method MigrateLegacyData(oldData: map<string, Value>, toBlob: Value -> Option<Value>, completedAt: nat, markedAt: nat)
      returns (data: map<string, Value>, outcome: Outcome)
      modifies this
      ensures var m := MigrateData(old(Snapshot()), oldData, toBlob, completedAt, markedAt);
        Snapshot() == m.session && outcome == m.outcome &&
        m.legacy == if outcome == Done then Marker(data, markedAt) else oldData
    {
      ghost var s1 := Snapshot();
      data := oldData;
      var bookmarks := Prop(oldData, "bookmarks");
      outcome := Done;
      if Truthy(bookmarks) && LengthPositive(bookmarks) {
        outcome := Set("bookmarks", bookmarks, None);
        if outcome.Thrown? {
          return;
        }
      }
      ghost var s2 := Snapshot();
      assert MigrateData(s1, oldData, toBlob, completedAt, markedAt) == MigrateFolderData(s2, oldData, toBlob, completedAt, markedAt);

      var folders := Prop(oldData, "folders");
      var newFolders;
      newFolders, outcome := MigrateFolderStage(folders, toBlob);
      if outcome.Thrown? {
        return;
      }
      if Truthy(folders) && LengthPositive(folders) && folders.Arr? {
        data := oldData["folders" := newFolders];
      }
      ghost var s3 := Snapshot();
      assert MigrateFolderData(s2, oldData, toBlob, completedAt, markedAt) == FinishMigration(s3, oldData, data, completedAt, markedAt);

      var settings := Prop(oldData, "settings");
      if Truthy(settings) {
        outcome := Set("settings", MigratedSettings(settings), Some("main"));
        if outcome.Thrown? {
          return;
        }
      }
      ghost var s4 := Snapshot();
      ghost var c := AfterSet(s4, "metadata", CompletionRecord(completedAt), Some("migration"));
      assert FinishMigration(s3, oldData, data, completedAt, markedAt) ==
        if c.outcome.Thrown? then Migration(c.session, oldData, c.outcome) else Migration(c.session, Marker(data, markedAt), Done);

      outcome := SetMigrationComplete(completedAt);
    }

    method MigrateFromChromeStorage(legacy: LocalArea, toBlob: Value -> Option<Value>,
                                    iso: string, completedAt: nat, markedAt: nat)
      returns (outcome: Outcome)
      modifies this, legacy
      ensures var m := AfterMigration(old(Snapshot()), old(legacy.items), toBlob, iso, completedAt, markedAt);
        Snapshot() == m.session && legacy.items == m.legacy && outcome == m.outcome
    {
      var migration := Get("metadata", Some("migration"));
      if Truthy(Field(migration, "completed")) {
        return Done;
      }
      var oldData := legacy.GetAll();
      if oldData == map[] {
        outcome := SetMigrationComplete(completedAt);
        return;
      }
      CreateMigrationBackup(Obj(oldData), iso);
      var data;
      data, outcome := MigrateLegacyData(oldData, toBlob, completedAt, markedAt);
      if outcome.Thrown? {
        return;
      }
      legacy.Clear();
      legacy.Set(Marker(data, markedAt));
    }
  }
}
