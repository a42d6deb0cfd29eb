/**
 * The service worker's context-menu and keyboard-shortcut handler
 * (`addBookmarkFromTab` in background.js): it appends the tab to the stored
 * bookmark list in the "main" folder. Unlike the popup it does not look for
 * a stored bookmark with the same URL, and it writes only the list.
 *
 * Parsing the tab's URL is done by the browser; here its outcome is given as
 * an optional hostname. The clock reading is a parameter.
 */
module BackgroundScript {
  import opened Json
  import opened Favicons
  import ChromeStorage
  import Popup

  /** The handler reports nothing: an error is caught and dropped. */
  datatype Outcome = Added | Failed

  datatype Addition = Addition(outcome: Outcome, written: map<string, Value>)

  /** The record the handler appends: the popup's record plus `folderId: 'main'`. */
  function NewRecord(tab: Popup.Tab, hostname: string, idTime: nat, order: nat): Value {
    Obj(map[
      "id" := Str(NatToString(idTime)),
      "title" := Str(tab.title),
      "url" := Str(tab.url),
      "icon" := Str(FaviconUrl(hostname)),
      "customIcon" := Bool(false),
      "iconFilename" := Null,
      "folderId" := Str("main"),
      "order" := Num(order)])
  }

  /**
   * `addBookmarkFromTab(tab)` against the stored items: an unparsable URL or
   * a stored value that is not an array (whose `push` throws) ends the run
   * with nothing written.
   */
  function AddedFromTab(items: map<string, Value>, tab: Popup.Tab, hostname: Option<string>, idTime: nat): Addition {
    var list := Popup.StoredList(items);
    if hostname.None? || !list.Arr? then Addition(Failed, map[])
    else
      var record := NewRecord(tab, hostname.value, idTime, |list.items|);
      Addition(Added, map["bookmarks" := Arr(list.items + [record])])
  }

  /** `addBookmarkFromTab(tab)`; `idTime` is the clock reading, `hostname` the parsed URL's host. */
  method AddBookmarkFromTab(area: ChromeStorage.LocalArea, tab: Popup.Tab, hostname: Option<string>, idTime: nat)
    returns (outcome: Outcome)
    modifies area
    ensures var a := AddedFromTab(old(area.items), tab, hostname, idTime);
      outcome == a.outcome && area.items == old(area.items) + a.written
  {
    var result := area.Get({"bookmarks"});
    assert Prop(result, "bookmarks") == Prop(area.items, "bookmarks");
    var bookmarks := Or(Prop(result, "bookmarks"), Arr([]));
    if hostname.None? || !bookmarks.Arr? {
      assert area.items + map[] == area.items;
      return Failed;
    }
    var newBookmark := NewRecord(tab, hostname.value, idTime, |bookmarks.items|);
    var list := bookmarks.items + [newBookmark];
    area.Set(map["bookmarks" := Arr(list)]);
    outcome := Added;
  }

  // ---------------------------------------------------------------------
  // Properties
  // ---------------------------------------------------------------------

  /**
   * The handler adds exactly when the URL parses and the stored list is an
   * array (or absent), and then writes only the list, with one record in
   * the main folder appended after the old ones.
   */
  lemma AddedAppendsToMain(items: map<string, Value>, tab: Popup.Tab, hostname: Option<string>, idTime: nat)
    ensures var a := AddedFromTab(items, tab, hostname, idTime);
      a.outcome == Added <==> hostname.Some? && Popup.StoredList(items).Arr?
    ensures var a := AddedFromTab(items, tab, hostname, idTime);
      a.outcome == Failed ==> a.written == map[]
    ensures var a := AddedFromTab(items, tab, hostname, idTime);
      a.outcome == Added ==>
        var old_ := Popup.StoredList(items).items;
        a.written.Keys == {"bookmarks"} && a.written["bookmarks"].Arr? &&
        var list := a.written["bookmarks"].items;
        |list| == |old_| + 1 && list[..|old_|] == old_ &&
        var b := list[|old_|];
        Field(b, "folderId") == Str("main") && Field(b, "order") == Num(|old_|) &&
        Field(b, "url") == Str(tab.url) && Field(b, "icon") == Str(FaviconUrl(hostname.value))
  {
    var a := AddedFromTab(items, tab, hostname, idTime);
    if a.outcome == Added {
      var old_ := Popup.StoredList(items).items;
      var list := old_ + [NewRecord(tab, hostname.value, idTime, |old_|)];
      assert list[..|old_|] == old_;
    }
  }

  /** The two entry points build the same record except for the folder. */
  lemma SameRecordAsPopup(tab: Popup.Tab, hostname: string, idTime: nat, order: nat)
    ensures NewRecord(tab, hostname, idTime, order).Obj? && Popup.NewRecord(tab, hostname, idTime, order).Obj?
    ensures NewRecord(tab, hostname, idTime, order).fields ==
      Popup.NewRecord(tab, hostname, idTime, order).fields["folderId" := Str("main")]
  {
  }

  /**
   * Where the popup refuses a tab as already stored, the handler stores it
   * a second time.
   */
  lemma StoresDuplicates(items: map<string, Value>, tab: Popup.Tab, hostname: string, idTime: nat, updateTime: nat)
    requires Popup.AddedFromTab(items, tab, Some(hostname), idTime, updateTime).outcome == Popup.AlreadyStored
    ensures var a := AddedFromTab(items, tab, Some(hostname), idTime);
      a.outcome == Added &&
      exists i :: 0 <= i < |a.written["bookmarks"].items| - 1 && Field(a.written["bookmarks"].items[i], "url") == Str(tab.url)
  {
    var old_ := Popup.StoredList(items).items;
    var i :| 0 <= i < |old_| && Field(old_[i], "url") == Str(tab.url) &&
             forall j :: 0 <= j < i ==> !Popup.Nullish(old_[j]);
    var list := AddedFromTab(items, tab, Some(hostname), idTime).written["bookmarks"].items;
    assert list[i] == old_[i];
  }
}
