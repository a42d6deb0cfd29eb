/**
 * `chrome.storage.local`, the extension's legacy key-value area: a map from
 * item names to JSON values, read and written whole items at a time.
 */
module ChromeStorage {
  import opened Json

  class LocalArea {
    var items: map<string, Value>

    constructor (initial: map<string, Value>)
      ensures items == initial
    {
      items := initial;
    }

    /** `get(null)`: every stored item. */
    method GetAll() returns (r: map<string, Value>)
      ensures r == items
    {
      r := items;
    }

    /** `get([names])`: the named items that are stored; absent names are simply missing. */
    method Get(names: set<string>) returns (r: map<string, Value>)
      ensures forall name :: name in r <==> name in names && name in items
      ensures forall name :: name in r ==> r[name] == items[name]
    {
      r := map name | name in names && name in items :: items[name];
    }

    /** `clear()` */
    method Clear()
      modifies this
      ensures items == map[]
    {
      items := map[];
    }

    /** `set(update)`: writes every item of the update, keeping the others. */
    method Set(update: map<string, Value>)
      modifies this
      ensures items == old(items) + update
    {
      items := items + update;
    }
  }
}
