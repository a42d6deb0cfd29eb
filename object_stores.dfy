/**
 * The part of IndexedDB the storage layer depends on: keys and their order,
 * object stores with in-line (`keyPath: 'id'`) or out-of-line keys, and the
 * `get`, `getAll`, `put`, `add`, `clear` and `delete` requests as pure
 * functions. A store keeps its records in ascending key order, which is the
 * order `getAll` returns them in.
 */
module ObjectStores {
  import opened Json

  /** The keys the extension produces: numbers and strings. */
  datatype Key = NumKey(n: int) | StrKey(s: string)

  /**
   * Strings compare character by character, by code point (the same as
   * UTF-16 code-unit order for strings without supplementary characters);
   * a proper prefix is smaller.
   */
  predicate StrLess(a: string, b: string)
    decreases |a|
  {
    if a == [] then b != []
    else if b == [] then false
    else a[0] < b[0] || (a[0] == b[0] && StrLess(a[1..], b[1..]))
  }

  /** IndexedDB key order: every number sorts before every string. */
  predicate KeyLess(a: Key, b: Key) {
    match a
    case NumKey(x) => (match b case NumKey(y) => x < y case StrKey(_) => true)
    case StrKey(x) => (match b case NumKey(_) => false case StrKey(y) => StrLess(x, y))
  }

  lemma {:induction false} StrLessIrreflexive(a: string)
    ensures !StrLess(a, a)
    decreases |a|
  {
    if a != [] {
      StrLessIrreflexive(a[1..]);
    }
  }

  lemma {:induction false} StrLessTransitive(a: string, b: string, c: string)
    requires StrLess(a, b) && StrLess(b, c)
    ensures StrLess(a, c)
    decreases |a|
  {
    if a != [] && a[0] == b[0] && b[0] == c[0] {
      StrLessTransitive(a[1..], b[1..], c[1..]);
    }
  }

  lemma {:induction false} StrLessTotal(a: string, b: string)
    requires a != b
    ensures StrLess(a, b) || StrLess(b, a)
    decreases |a|
  {
    if a != [] && b != [] && a[0] == b[0] {
      StrLessTotal(a[1..], b[1..]);
    }
  }

  /** The key order is a strict total order. */
  lemma KeyLessIrreflexive(a: Key)
    ensures !KeyLess(a, a)
  {
    if a.StrKey? { StrLessIrreflexive(a.s); }
  }

  lemma KeyLessTransitive(a: Key, b: Key, c: Key)
    requires KeyLess(a, b) && KeyLess(b, c)
    ensures KeyLess(a, c)
  {
    if a.StrKey? && b.StrKey? && c.StrKey? { StrLessTransitive(a.s, b.s, c.s); }
  }

  lemma KeyLessTotal(a: Key, b: Key)
    requires a != b
    ensures KeyLess(a, b) || KeyLess(b, a)
  {
    if a.StrKey? && b.StrKey? { StrLessTotal(a.s, b.s); }
  }

  /** The key an in-line (`keyPath: 'id'`) store extracts from a record, if it is a valid key. */
  function KeyOf(v: Value): Option<Key> {
    match Field(v, "id")
    case Num(n) => Some(NumKey(n))
    case Str(s) => Some(StrKey(s))
    case _ => None
  }

  /** The key `add(item)` gives a record: its `id` in an in-line store, none in an out-of-line store. */
  function KeyFor(inline: bool, v: Value): Option<Key> {
    if inline then KeyOf(v) else None
  }

  datatype Entry = Entry(key: Key, value: Value)

  function KeySet(es: seq<Entry>): set<Key> {
    if es == [] then {} else {es[0].key} + KeySet(es[1..])
  }

  /** Every key of the set sorts after `k`. */
  predicate Above(k: Key, keys: set<Key>) {
    forall x :: x in keys ==> KeyLess(k, x)
  }

  /** Records in strictly ascending key order, so no key occurs twice. */
  predicate Ordered(es: seq<Entry>) {
    es == [] || (Above(es[0].key, KeySet(es[1..])) && Ordered(es[1..]))
  }

  type Entries = es: seq<Entry> | Ordered(es) witness []

  /** An object store: whether it takes its keys from the records' `id`, and its records. */
  datatype ObjectStore = ObjectStore(inline: bool, entries: Entries)

  /** `getAll()`: the records' values in key order. */
  function Values(es: seq<Entry>): seq<Value> {
    if es == [] then [] else [es[0].value] + Values(es[1..])
  }

  /** `get(key)`: the value stored under a key, if any. */
  function Lookup(es: seq<Entry>, k: Key): (r: Option<Value>)
    ensures r.Some? <==> k in KeySet(es)
  {
    if es == [] then None
    else if es[0].key == k then Some(es[0].value)
    else Lookup(es[1..], k)
  }

  lemma HeadNotInTail(es: Entries)
    requires es != []
    ensures es[0].key !in KeySet(es[1..])
  {
    KeyLessIrreflexive(es[0].key);
  }

  lemma AboveWeaken(k: Key, j: Key, keys: set<Key>)
    requires KeyLess(k, j) && Above(j, keys)
    ensures Above(k, keys)
  {
    forall x | x in keys ensures KeyLess(k, x) { KeyLessTransitive(k, j, x); }
  }

  /**
   * `put(value, key)`: replaces the record stored under the key, or inserts it
   * in key order, keeping the records ordered.
   */
  function Upsert(es: Entries, k: Key, v: Value): (r: Entries)
    ensures KeySet(r) == KeySet(es) + {k}
    decreases |es|
  {
    if es == [] then [Entry(k, v)]
    else if es[0].key == k then
      UpsertHead(es, v)
    else if KeyLess(k, es[0].key) then
      UpsertFront(es, k, v)
    else
      var tail: Entries := es[1..];
      var rest := Upsert(tail, k, v);
      KeyLessTotal(k, es[0].key);
      var r := [es[0]] + rest;
      assert r[1..] == rest;
      r
  }

  function UpsertHead(es: Entries, v: Value): (r: Entries)
    requires es != []
    ensures r == [Entry(es[0].key, v)] + es[1..]
    ensures KeySet(r) == KeySet(es)
  {
    var r := [Entry(es[0].key, v)] + es[1..];
    assert r[1..] == es[1..];
    r
  }

  function UpsertFront(es: Entries, k: Key, v: Value): (r: Entries)
    requires es != [] && KeyLess(k, es[0].key)
    ensures r == [Entry(k, v)] + es
    ensures KeySet(r) == KeySet(es) + {k}
  {
    AboveWeaken(k, es[0].key, KeySet(es[1..]));
    var r := [Entry(k, v)] + es;
    assert r[1..] == es;
    r
  }

  /** After `put(v, k)` the key reads back `v` and every other key reads what it read before. */
  lemma {:induction false} UpsertLookup(es: Entries, k: Key, v: Value, k': Key)
    ensures Lookup(Upsert(es, k, v), k') == if k' == k then Some(v) else Lookup(es, k')
    decreases |es|
  {
    if es != [] && es[0].key != k && !KeyLess(k, es[0].key) {
      var tail: Entries := es[1..];
      UpsertLookup(tail, k, v, k');
      var r := Upsert(es, k, v);
      assert r[1..] == Upsert(tail, k, v);
    }
  }

  /** Putting a record under a new key adds exactly that record to `getAll()`. */
  lemma {:induction false} UpsertValues(es: Entries, k: Key, v: Value)
    requires k !in KeySet(es)
    ensures multiset(Values(Upsert(es, k, v))) == multiset(Values(es)) + multiset{v}
    decreases |es|
  {
    if es != [] && !KeyLess(k, es[0].key) {
      var tail: Entries := es[1..];
      UpsertValues(tail, k, v);
      var r := Upsert(es, k, v);
      assert r[1..] == Upsert(tail, k, v);
    }
  }

  /** `delete(key)`: removes the record stored under the key, if there is one. */
  function Remove(es: Entries, k: Key): (r: Entries)
    ensures KeySet(r) == KeySet(es) - {k}
    decreases |es|
  {
    if es == [] then []
    else
      HeadNotInTail(es);
      var tail: Entries := es[1..];
      if es[0].key == k then tail
      else
        var rest := Remove(tail, k);
        var r := [es[0]] + rest;
        assert r[1..] == rest;
        r
  }

  /** After `delete(k)` the key reads nothing and every other key reads what it read before. */
  lemma {:induction false} RemoveLookup(es: Entries, k: Key, k': Key)
    ensures Lookup(Remove(es, k), k') == if k' == k then None else Lookup(es, k')
    decreases |es|
  {
    if es != [] {
      HeadNotInTail(es);
      var tail: Entries := es[1..];
      RemoveLookup(tail, k, k');
      if es[0].key != k {
        var r := Remove(es, k);
        assert r[1..] == Remove(tail, k);
      }
    }
  }

  // ---------------------------------------------------------------------
  // Rewriting a whole collection: clear, then add every record in turn
  // ---------------------------------------------------------------------

  /**
   * How a run of `add` requests over a transaction ends. A record without a
   * valid key makes `add` throw a DataError synchronously: the transaction is
   * not aborted, so what was written before it commits. A key that is
   * already present fails the request with a ConstraintError, which aborts
   * the transaction and rolls every request in it back.
   */
  datatype AddOutcome = AllAdded(entries: Entries) | MissingKey(entries: Entries) | DuplicateKey

  function AddEach(es: Entries, items: seq<Value>, inline: bool): AddOutcome
    decreases |items|
  {
    if items == [] then AllAdded(es)
    else match KeyFor(inline, items[0])
      case None => MissingKey(es)
      case Some(k) =>
        if k in KeySet(es) then DuplicateKey
        else AddEach(Upsert(es, k, items[0]), items[1..], inline)
  }

  /** Every record carries a valid key. */
  predicate AllKeyed(items: seq<Value>) {
    forall i :: 0 <= i < |items| ==> KeyOf(items[i]).Some?
  }

  function ItemKeys(items: seq<Value>): set<Key>
    requires AllKeyed(items)
  {
    if items == [] then {} else {KeyOf(items[0]).value} + ItemKeys(items[1..])
  }

  /** No two records share a key. */
  predicate DistinctKeys(items: seq<Value>)
    requires AllKeyed(items)
  {
    items == [] || (KeyOf(items[0]).value !in ItemKeys(items[1..]) && DistinctKeys(items[1..]))
  }

  /**
   * Adding records to a store succeeds exactly when every record has a key,
   * the keys are distinct and none is already in the store.
   */
  lemma {:induction false} AddEachSucceeds(es: Entries, items: seq<Value>)
    ensures AddEach(es, items, true).AllAdded? <==>
      AllKeyed(items) && DistinctKeys(items) && ItemKeys(items) !! KeySet(es)
    decreases |items|
  {
    if items != [] {
      var tail := items[1..];
      var k := KeyOf(items[0]);
      assert AllKeyed(items) <==> k.Some? && AllKeyed(tail) by {
        if k.Some? && AllKeyed(tail) {
          forall i | 0 <= i < |items| ensures KeyOf(items[i]).Some? {
            if i > 0 { assert items[i] == tail[i - 1]; }
          }
        }
      }
      if k.Some? && k.value !in KeySet(es) {
        AddEachSucceeds(Upsert(es, k.value, items[0]), tail);
      }
    }
  }

  /** When every record is added, the store holds its old records plus exactly the added ones. */
  lemma {:induction false} AddEachAddsItems(es: Entries, items: seq<Value>)
    requires AddEach(es, items, true).AllAdded?
    ensures multiset(Values(AddEach(es, items, true).entries)) == multiset(Values(es)) + multiset(items)
    decreases |items|
  {
    if items != [] {
      var k := KeyOf(items[0]).value;
      var es' := Upsert(es, k, items[0]);
      var r := AddEach(es', items[1..], true);
      assert AddEach(es, items, true) == r;
      AddEachAddsItems(es', items[1..]);
      UpsertValues(es, k, items[0]);
      AddFirstThenRest(multiset(Values(r.entries)), multiset(Values(es)), multiset(Values(es')), items);
    }
  }

  /** Adding the first value and then the others adds them all. */
  lemma AddFirstThenRest<T>(result: multiset<T>, before: multiset<T>, between: multiset<T>, items: seq<T>)
    requires items != []
    requires between == before + multiset{items[0]} && result == between + multiset(items[1..])
    ensures result == before + multiset(items)
  {
    assert items == [items[0]] + items[1..];
  }

  /** A record without a key stops the run there: exactly the records before it are added. */
  lemma {:induction false} AddEachStopsAtMissingKey(es: Entries, items: seq<Value>, j: nat)
    requires j < |items| && KeyOf(items[j]).None?
    requires AllKeyed(items[..j]) && DistinctKeys(items[..j]) && ItemKeys(items[..j]) !! KeySet(es)
    ensures AddEach(es, items, true).MissingKey?
    ensures multiset(Values(AddEach(es, items, true).entries)) == multiset(Values(es)) + multiset(items[..j])
    decreases j
  {
    if j > 0 {
      var prefix := items[..j];
      var rest := prefix[1..];
      var tail := items[1..];
      SliceShift(items, j);
      var k := KeyOf(items[0]).value;
      assert AllKeyed(rest) by {
        forall i | 0 <= i < |rest| ensures KeyOf(rest[i]).Some? {
          assert rest[i] == prefix[i + 1];
        }
      }
      var es' := Upsert(es, k, items[0]);
      AddEachStopsAtMissingKey(es', tail, j - 1);
      UpsertValues(es, k, items[0]);
      AddFirstThenRest(multiset(Values(AddEach(es', tail, true).entries)), multiset(Values(es)), multiset(Values(es')), prefix);
    }
  }

  lemma SliceShift<T>(s: seq<T>, j: nat)
    requires 0 < j < |s|
    ensures s[1..][..j - 1] == s[..j][1..] && s[1..][j - 1] == s[j] && s[..j][0] == s[0]
  {
  }

  /** Each record of a store is found under its own key. */
  lemma {:induction false} StoredUnderOwnKey(es: Entries, i: nat)
    requires i < |es|
    ensures Lookup(es, es[i].key) == Some(es[i].value)
    decreases i
  {
    if i > 0 {
      var tail: Entries := es[1..];
      StoredUnderOwnKey(tail, i - 1);
      assert es[i].key in KeySet(tail) by { KeySetHas(tail, i - 1); }
      HeadNotInTail(es);
    }
  }

  /** In a store with in-line keys, every record sits under the key its own `id` gives. */
  predicate InlineKeyed(es: seq<Entry>) {
    forall i :: 0 <= i < |es| ==> KeyOf(es[i].value) == Some(es[i].key)
  }

  /** Putting a record under the key its `id` gives keeps every record under its own `id`. */
  lemma {:induction false} UpsertKeepsInlineKeyed(es: Entries, k: Key, v: Value)
    requires InlineKeyed(es) && KeyOf(v) == Some(k)
    ensures InlineKeyed(Upsert(es, k, v))
    decreases |es|
  {
    var r := Upsert(es, k, v);
    if es != [] && es[0].key != k && !KeyLess(k, es[0].key) {
      var tail: Entries := es[1..];
      assert InlineKeyed(tail) by {
        forall i | 0 <= i < |tail| ensures KeyOf(tail[i].value) == Some(tail[i].key) {
          assert tail[i] == es[i + 1];
        }
      }
      UpsertKeepsInlineKeyed(tail, k, v);
      var rest := Upsert(tail, k, v);
      assert r == [es[0]] + rest;
      forall i | 0 <= i < |r| ensures KeyOf(r[i].value) == Some(r[i].key) {
        if i > 0 { assert r[i] == rest[i - 1]; }
      }
    } else if es != [] && es[0].key != k {
      assert r == [Entry(k, v)] + es;
      forall i | 0 <= i < |r| ensures KeyOf(r[i].value) == Some(r[i].key) {
        if i > 0 { assert r[i] == es[i - 1]; }
      }
    }
  }

  /**
   * Adding records to an in-line store puts each under its own `id`, so
   * whatever the adds leave behind (all of them, or those before a record
   * without a key) keeps every record under its own `id`.
   */
  lemma {:induction false} AddEachKeepsInlineKeyed(es: Entries, items: seq<Value>)
    requires InlineKeyed(es)
    ensures var r := AddEach(es, items, true); !r.DuplicateKey? ==> InlineKeyed(r.entries)
    decreases |items|
  {
    if items != [] {
      match KeyOf(items[0])
      case None =>
      case Some(k) =>
        if k !in KeySet(es) {
          UpsertKeepsInlineKeyed(es, k, items[0]);
          AddEachKeepsInlineKeyed(Upsert(es, k, items[0]), items[1..]);
        }
    }
  }

  /** Deleting a record keeps the others under their own `id`. */
  lemma {:induction false} RemoveKeepsInlineKeyed(es: Entries, k: Key)
    requires InlineKeyed(es)
    ensures InlineKeyed(Remove(es, k))
    decreases |es|
  {
    if es != [] {
      var tail: Entries := es[1..];
      assert InlineKeyed(tail) by {
        forall i | 0 <= i < |tail| ensures KeyOf(tail[i].value) == Some(tail[i].key) {
          assert tail[i] == es[i + 1];
        }
      }
      if es[0].key != k {
        RemoveKeepsInlineKeyed(tail, k);
        var r := Remove(es, k);
        var rest := Remove(tail, k);
        assert r == [es[0]] + rest;
        forall i | 0 <= i < |r| ensures KeyOf(r[i].value) == Some(r[i].key) {
          if i > 0 { assert r[i] == rest[i - 1]; }
        }
      }
    }
  }

  /** In a store keyed in-line, each record is found under its own `id`. */
  lemma FoundById(es: Entries, i: nat)
    requires InlineKeyed(es) && i < |es|
    ensures KeyOf(es[i].value).Some? && Lookup(es, KeyOf(es[i].value).value) == Some(es[i].value)
  {
    StoredUnderOwnKey(es, i);
  }

  lemma {:induction false} KeySetHas(es: seq<Entry>, i: nat)
    requires i < |es|
    ensures es[i].key in KeySet(es)
    decreases i
  {
    if i > 0 { KeySetHas(es[1..], i - 1); }
  }
}
