/**
 * The toolbar popup's "add current tab" button (`PopupManager` in
 * popup.js): it reads the stored bookmark list from `chrome.storage.local`,
 * refuses a tab whose URL is already stored, and otherwise appends one
 * bookmark record and writes the list back with a `lastUpdated` time.
 *
 * Parsing the tab's URL is done by the browser; here its outcome is given as
 * an optional hostname. The two clock readings are parameters.
 */
module Popup {
  import opened Json
  import opened Favicons
  import ChromeStorage

  /** The fields of the active tab the popup uses. */
  datatype Tab = Tab(title: string, url: string)

  datatype Outcome = Added | AlreadyStored | Failed

  /** What one run produces: how it ended and the items it wrote (none unless it added). */
  datatype Addition = Addition(outcome: Outcome, written: map<string, Value>)

  /** `result.bookmarks || []` */
  function StoredList(items: map<string, Value>): Value {
    Or(Prop(items, "bookmarks"), Arr([]))
  }

  /** Reading a property of these throws a TypeError. */
  predicate Nullish(v: Value) {
    v.Null? || v.Undefined?
  }

  datatype Search = Found | NotFound | Threw

  /**
   * `bookmarks.find(bookmark => bookmark.url === url)`: stops at the first
   * element whose `url` is the tab's, and throws at a null or undefined
   * element met before it.
   */
  function FindByUrl(items: seq<Value>, url: string): (r: Search)
    ensures r == Found <==>
      exists i :: 0 <= i < |items| && Field(items[i], "url") == Str(url) && forall j :: 0 <= j < i ==> !Nullish(items[j])
    ensures r == NotFound <==>
      forall i :: 0 <= i < |items| ==> !Nullish(items[i]) && Field(items[i], "url") != Str(url)
  {
    if items == [] then NotFound
    else if Nullish(items[0]) then Threw
    else if Field(items[0], "url") == Str(url) then Found
    else
      var r := FindByUrl(items[1..], url);
      assert forall i :: 1 <= i < |items| ==> items[i] == items[1..][i - 1];
      r
  }

  /** The record the popup appends: no `folderId`, the favicon service icon, the old length as `order`. */
  function NewRecord(tab: Tab, hostname: string, idTime: nat, order: nat): Value {
    Obj(map[
      "id" := Str(NatToString(idTime)),
      "title" := Str(tab.title),
      "url" := Str(tab.url),
      "icon" := Str(FaviconUrl(hostname)),
      "customIcon" := Bool(false),
      "iconFilename" := Null,
      "order" := Num(order)])
  }

  /** The appended record carries the tab's title and URL, the service icon, no custom icon and no folder. */
  lemma NewRecordFields(tab: Tab, hostname: string, idTime: nat, order: nat)
    ensures var b := NewRecord(tab, hostname, idTime, order);
      Field(b, "id") == Str(NatToString(idTime)) && Field(b, "order") == Num(order) &&
      Field(b, "url") == Str(tab.url) && Field(b, "title") == Str(tab.title) &&
      Field(b, "customIcon") == Bool(false) && Field(b, "iconFilename") == Null &&
      Field(b, "folderId") == Undefined && Field(b, "icon") == Str(FaviconUrl(hostname))
  {
    var b := NewRecord(tab, hostname, idTime, order);
    assert "folderId" !in b.fields;
  }

  /**
   * `addBookmarkFromTab(tab)` against the stored items; a thrown error is
   * caught and reported, so it ends the run with nothing written.
   */
  function AddedFromTab(items: map<string, Value>, tab: Tab, hostname: Option<string>, idTime: nat, updateTime: nat): Addition {
    var list := StoredList(items);
    if !list.Arr? then Addition(Failed, map[])
    else
      match FindByUrl(list.items, tab.url)
      case Threw => Addition(Failed, map[])
      case Found => Addition(AlreadyStored, map[])
      case NotFound =>
        if hostname.None? then Addition(Failed, map[])
        else
          var record := NewRecord(tab, hostname.value, idTime, |list.items|);
          Addition(Added, map["bookmarks" := Arr(list.items + [record]), "lastUpdated" := Num(updateTime)])
  }

  /**
   * `PopupManager.addBookmarkFromTab(tab)`; `idTime` and `updateTime` are the
   * two clock readings, `hostname` the parsed URL's host.
   */
  method AddBookmarkFromTab(area: ChromeStorage.LocalArea, tab: Tab, hostname: Option<string>, idTime: nat, updateTime: nat)
    returns (outcome: Outcome)
    modifies area
    ensures var a := AddedFromTab(old(area.items), tab, hostname, idTime, updateTime);
      outcome == a.outcome && area.items == old(area.items) + a.written
  {
    var result := area.Get({"bookmarks"});
    assert Prop(result, "bookmarks") == Prop(area.items, "bookmarks");
    var bookmarks := Or(Prop(result, "bookmarks"), Arr([]));
    if !bookmarks.Arr? {
      assert area.items + map[] == area.items;
      return Failed;
    }
    var found := FindByUrl(bookmarks.items, tab.url);
    if found != NotFound {
      assert area.items + map[] == area.items;
      return if found == Found then AlreadyStored else Failed;
    }
    if hostname.None? {
      assert area.items + map[] == area.items;
      return Failed;
    }
    var newBookmark := NewRecord(tab, hostname.value, idTime, |bookmarks.items|);
    var list := bookmarks.items + [newBookmark];
    area.Set(map["bookmarks" := Arr(list), "lastUpdated" := Num(updateTime)]);
    outcome := Added;
  }

  // ---------------------------------------------------------------------
  // Properties
  // ---------------------------------------------------------------------

  /** A tab whose URL is already stored is refused and nothing is written. */
  lemma DuplicateRefused(items: map<string, Value>, tab: Tab, hostname: Option<string>, idTime: nat, updateTime: nat, i: nat)
    requires StoredList(items).Arr? && i < |StoredList(items).items|
    requires Field(StoredList(items).items[i], "url") == Str(tab.url)
    requires forall j :: 0 <= j < i ==> !Nullish(StoredList(items).items[j])
    ensures AddedFromTab(items, tab, hostname, idTime, updateTime) == Addition(AlreadyStored, map[])
  {
    var list := StoredList(items).items;
    assert FindByUrl(list, tab.url) == Found;
  }

  /**
   * A run writes only when it adds, and then exactly the old list with one
   * record appended (numbered with the old length, no custom icon and no
   * folder) and the update time.
   */
  lemma AddedAppendsOne(items: map<string, Value>, tab: Tab, hostname: Option<string>, idTime: nat, updateTime: nat)
    ensures var a := AddedFromTab(items, tab, hostname, idTime, updateTime);
      a.outcome != Added ==> a.written == map[]
    ensures var a := AddedFromTab(items, tab, hostname, idTime, updateTime);
      a.outcome == Added ==>
        StoredList(items).Arr? && hostname.Some? &&
        var old_ := StoredList(items).items;
        a.written.Keys == {"bookmarks", "lastUpdated"} && a.written["lastUpdated"] == Num(updateTime) &&
        a.written["bookmarks"].Arr? &&
        var list := a.written["bookmarks"].items;
        |list| == |old_| + 1 && list[..|old_|] == old_ &&
        var b := list[|old_|];
        Field(b, "order") == Num(|old_|) && Field(b, "url") == Str(tab.url) && Field(b, "title") == Str(tab.title) &&
        Field(b, "customIcon") == Bool(false) && Field(b, "iconFilename") == Null &&
        Field(b, "folderId") == Undefined && Field(b, "icon") == Str(FaviconUrl(hostname.value))
    ensures var a := AddedFromTab(items, tab, hostname, idTime, updateTime);
      a.outcome == Added <==>
        StoredList(items).Arr? && hostname.Some? &&
        forall i :: 0 <= i < |StoredList(items).items| ==>
          !Nullish(StoredList(items).items[i]) && Field(StoredList(items).items[i], "url") != Str(tab.url)
  {
    var a := AddedFromTab(items, tab, hostname, idTime, updateTime);
    if a.outcome == Added {
      var old_ := StoredList(items).items;
      var list := old_ + [NewRecord(tab, hostname.value, idTime, |old_|)];
      assert list[..|old_|] == old_;
      NewRecordFields(tab, hostname.value, idTime, |old_|);
    }
  }

  /** With no stored list (or a falsy one), the tab becomes the only bookmark, numbered 0. */
  lemma MissingListIsEmpty(items: map<string, Value>, tab: Tab, hostname: string, idTime: nat, updateTime: nat)
    requires "bookmarks" !in items || !Truthy(items["bookmarks"])
    ensures AddedFromTab(items, tab, Some(hostname), idTime, updateTime) ==
      Addition(Added, map["bookmarks" := Arr([NewRecord(tab, hostname, idTime, 0)]), "lastUpdated" := Num(updateTime)])
  {
    assert StoredList(items) == Arr([]);
    assert [] + [NewRecord(tab, hostname, idTime, 0)] == [NewRecord(tab, hostname, idTime, 0)];
  }
}
