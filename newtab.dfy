/**
 * The new-tab page (`Homepage` in newtab.js): bookmarks grouped into folders
 * shown as tabs, with per-folder backgrounds. Every operation edits the
 * page's `bookmarks`, `folders` and `currentFolderId` in memory; the page
 * then persists them through the storage layer, which is modelled on its own.
 *
 * Each operation is a pure function from one `Page` to the next, stated and
 * proved about here, and a method of the `Homepage` class that makes the
 * same change step by step the way the page's code does.
 */
module NewTab {
  import opened Json
  import opened Sequences
  import opened Favicons
  import ObjectStores
  import Storage

  // ---------------------------------------------------------------------
  // Records
  // ---------------------------------------------------------------------

  /**
   * A bookmark record. `id` and `folderId` are missing on bookmarks saved by
   * versions without folders; a missing `order` reads as 0 wherever the page
   * uses it (`order || 0`).
   */
  datatype Bookmark = Bookmark(
    id: Option<string>,
    title: string,
    url: string,
    icon: string,
    customIcon: bool,
    iconFilename: Option<string>,
    folderId: Option<string>,
    order: int)

  /** A folder tab. The background fields keep whatever JSON value they were given. */
  datatype Folder = Folder(
    id: string,
    name: string,
    order: int,
    isDefault: bool,
    backgroundFile: Value,
    backgroundFilename: Value,
    backgroundUrl: Value,
    backgroundImageId: Option<string>,
    inheritBackground: bool)

  /** A truthy optional string: present and not empty. */
  predicate Present(o: Option<string>) {
    o.Some? && o.value != ""
  }

  /** The state the operations edit. */
  datatype Page = Page(
    bookmarks: seq<Bookmark>,
    folders: seq<Folder>,
    currentFolderId: string,
    settings: map<string, Value>)

  const DefaultSettings: map<string, Value> := map[
    "backgroundUrl" := Str(""),
    "backgroundFile" := Null,
    "backgroundFilename" := Null,
    "iconSize" := Num(64),
    "titleSize" := Num(14),
    "titleColor" := Str("#ffffff"),
    "gridPosition" := Str("center-middle"),
    "maxAppsWidth" := Num(10)]

  // ---------------------------------------------------------------------
  // Text: trim and case folding of user input
  // ---------------------------------------------------------------------

  /** The white space and line terminators `String.prototype.trim` removes. */
  predicate IsSpace(c: char) {
    c == ' ' || c == '\t' || c == '\n' || c == '\r' || c == '\U{000B}' || c == '\U{000C}' ||
    c == '\U{00A0}' || c == '\U{1680}' || ('\U{2000}' <= c <= '\U{200A}') ||
    c == '\U{2028}' || c == '\U{2029}' || c == '\U{202F}' || c == '\U{205F}' ||
    c == '\U{3000}' || c == '\U{FEFF}'
  }

  predicate AllSpace(s: string) {
    forall i :: 0 <= i < |s| ==> IsSpace(s[i])
  }

  /** `s.trimStart()` */
  function TrimStart(s: string): string {
    if s != [] && IsSpace(s[0]) then TrimStart(s[1..]) else s
  }

  /** `s.trimEnd()` */
  function TrimEnd(s: string): string {
    if s != [] && IsSpace(s[|s| - 1]) then TrimEnd(s[..|s| - 1]) else s
  }

  /** `s.trim()` */
  function Trim(s: string): string {
    TrimEnd(TrimStart(s))
  }

  /** Leading white space goes and the rest of the string stays. */
  lemma {:induction false} TrimStartSpec(s: string)
    ensures var r := TrimStart(s); |r| <= |s| && r == s[|s| - |r|..]
    ensures TrimStart(s) == [] <==> AllSpace(s)
    ensures TrimStart(s) != [] ==> !IsSpace(TrimStart(s)[0])
  {
    if s != [] && IsSpace(s[0]) {
      TrimStartSpec(s[1..]);
      assert forall i :: 1 <= i < |s| ==> s[i] == s[1..][i - 1];
    }
  }

  /** Trailing white space goes and the rest of the string stays. */
  lemma {:induction false} TrimEndSpec(s: string)
    ensures var r := TrimEnd(s); |r| <= |s| && r == s[..|r|]
    ensures TrimEnd(s) == [] <==> AllSpace(s)
    ensures TrimEnd(s) != [] ==> !IsSpace(TrimEnd(s)[|TrimEnd(s)| - 1])
  {
    if s != [] && IsSpace(s[|s| - 1]) {
      TrimEndSpec(s[..|s| - 1]);
      assert forall i :: 0 <= i < |s| - 1 ==> s[i] == s[..|s| - 1][i];
    }
  }

  /** `s.trim()` is empty exactly for blank input, and otherwise neither starts nor ends with white space. */
  lemma TrimSpec(s: string)
    ensures Trim(s) == [] <==> AllSpace(s)
    ensures Trim(s) != [] ==> !IsSpace(Trim(s)[0]) && !IsSpace(Trim(s)[|Trim(s)| - 1])
  {
    var t := TrimStart(s);
    TrimStartSpec(s);
    TrimEndSpec(t);
    assert Trim(s) != [] ==> Trim(s)[0] == t[0];
  }

  function LowerChar(c: char): char {
    if 'A' <= c <= 'Z' then (c as int - 'A' as int + 'a' as int) as char else c
  }

  /** `s.toLowerCase()` on the ASCII letters. */
  function Lower(s: string): (r: string)
    ensures |r| == |s|
  {
    seq(|s|, i requires 0 <= i < |s| => LowerChar(s[i]))
  }

  /** Folder names compare case-insensitively. */
  predicate SameName(a: string, b: string) {
    Lower(a) == Lower(b)
  }

  /** No two folders have names that differ only in letter case. */
  ghost predicate NamesUnique(fs: seq<Folder>) {
    forall i, j :: 0 <= i < j < |fs| ==> !SameName(fs[i].name, fs[j].name)
  }

  ghost predicate IdsUnique(fs: seq<Folder>) {
    forall i, j :: 0 <= i < j < |fs| ==> fs[i].id != fs[j].id
  }

  // ---------------------------------------------------------------------
  // Finding folders
  // ---------------------------------------------------------------------

  function HasId(id: string): Folder -> bool {
    (f: Folder) => f.id == id
  }

  function HasOtherId(id: string): Folder -> bool {
    (f: Folder) => f.id != id
  }

  const IsDefault: Folder -> bool := (f: Folder) => f.isDefault

  // ---------------------------------------------------------------------
  // loadData
  // ---------------------------------------------------------------------

  /**
   * `loadData()`: the stored bookmarks and folders (an empty list when the
   * stored value is falsy) and the stored settings spread over the current ones.
   */
  function Loaded(p: Page, bookmarks: Option<seq<Bookmark>>, folders: Option<seq<Folder>>, settings: Value): (r: Page)
    ensures r.bookmarks == (if bookmarks.Some? then bookmarks.value else [])
    ensures r.folders == (if folders.Some? then folders.value else [])
    ensures r.currentFolderId == p.currentFolderId
    ensures r.settings.Keys == p.settings.Keys + Spread(settings).Keys
    ensures forall k :: k in Spread(settings) ==> r.settings[k] == Spread(settings)[k]
    ensures forall k :: k in p.settings && k !in Spread(settings) ==> r.settings[k] == p.settings[k]
  {
    Page(bookmarks.GetOr([]), folders.GetOr([]), p.currentFolderId, p.settings + Spread(settings))
  }

  // ---------------------------------------------------------------------
  // migrateToFolders
  // ---------------------------------------------------------------------

  /** The `main` folder created from the settings of a page without folders. */
  function MainFolder(settings: map<string, Value>): Folder {
    Folder("main", "Main", 0, true,
           Or(Prop(settings, "backgroundFile"), Null),
           Or(Prop(settings, "backgroundFilename"), Null),
           Or(Prop(settings, "backgroundUrl"), Str("")),
           None, false)
  }

  /** `migrated-${Date.now()}-${index}` */
  function MigratedId(time: nat, index: nat): string {
    "migrated-" + NatToString(time) + "-" + NatToString(index)
  }

  /** One bookmark after migration: a missing folder becomes `main`, a missing id is made up. */
  function AssignedToMain(b: Bookmark, index: nat, time: nat): (r: Bookmark)
    ensures Present(r.folderId) && Present(r.id)
    ensures Present(b.folderId) ==> r.folderId == b.folderId
    ensures !Present(b.folderId) ==> r.folderId == Some("main")
    ensures Present(b.id) ==> r.id == b.id
    ensures !Present(b.id) ==> r.id == Some(MigratedId(time, index))
    ensures r.(folderId := b.folderId, id := b.id) == b
  {
    var b1 := if Present(b.folderId) then b else b.(folderId := Some("main"));
    if Present(b1.id) then b1 else b1.(id := Some(MigratedId(time, index)))
  }

  /** Every bookmark after migration; `now(i)` is the clock read while visiting bookmark `i`. */
  function AllAssignedToMain(bs: seq<Bookmark>, now: nat -> nat): (r: seq<Bookmark>)
    ensures |r| == |bs|
    ensures forall i :: 0 <= i < |bs| ==> r[i] == AssignedToMain(bs[i], i, now(i))
  {
    seq(|bs|, i requires 0 <= i < |bs| => AssignedToMain(bs[i], i, now(i)))
  }

  /** `migrateToFolders()`: a page without folders gets the `main` folder and its bookmarks move into it. */
  function MigratedToFolders(p: Page, now: nat -> nat): Page {
    if p.folders != [] then p
    else p.(folders := [MainFolder(p.settings)], bookmarks := AllAssignedToMain(p.bookmarks, now))
  }

  // ---------------------------------------------------------------------
  // reorderFolderTabs
  // ---------------------------------------------------------------------

  /** `folders.forEach((folder, index) => { folder.order = index; })` */
  function NumberedFolders(fs: seq<Folder>): (r: seq<Folder>)
    ensures |r| == |fs|
    ensures forall i :: 0 <= i < |r| ==> r[i].order == i && r[i].(order := fs[i].order) == fs[i]
  {
    seq(|fs|, i requires 0 <= i < |fs| => fs[i].(order := i))
  }

  /** `reorderFolderTabs(from, to)`: the dragged tab moves to the drop position and the orders follow the positions. */
  function ReorderedFolderTabs(p: Page, from: nat, to: nat): Page
    requires from < |p.folders| && to < |p.folders|
  {
    if from == to then p
    else p.(folders := NumberedFolders(Moved(p.folders, from, to)))
  }

  // ---------------------------------------------------------------------
  // The folder view of renderBookmarks, and moveBookmark
  // ---------------------------------------------------------------------

  function Range(n: nat): (r: seq<nat>)
    ensures |r| == n && forall i :: 0 <= i < n ==> r[i] == i
  {
    if n == 0 then [] else Range(n - 1) + [n - 1]
  }

  lemma RangeDistinct(n: nat)
    ensures Distinct(Range(n))
    ensures forall i: nat :: i in Range(n) <==> i < n
  {
    forall i: nat | i < n ensures i in Range(n) {
      assert Range(n)[i] == i;
    }
  }

  /** Whether position `i` holds a bookmark of folder `cur`. */
  function MemberOf(bs: seq<Bookmark>, cur: string): nat -> bool {
    (i: nat) => i < |bs| && bs[i].folderId == Some(cur)
  }

  /** `bookmark.order || 0` */
  function OrderAt(bs: seq<Bookmark>, i: nat): int {
    if i < |bs| then bs[i].order else 0
  }

  /** The comparator `(a, b) => (a.order || 0) - (b.order || 0)`, on positions. */
  function ByOrder(bs: seq<Bookmark>): (nat, nat) -> bool {
    (i: nat, j: nat) => OrderAt(bs, i) <= OrderAt(bs, j)
  }

  lemma ByOrderTotal(bs: seq<Bookmark>)
    ensures TotalPreorder(ByOrder(bs))
  {
  }

  /**
   * The bookmarks `renderBookmarks` shows, as positions in `bookmarks`: those
   * of folder `cur`, sorted by `order` and, for equal orders, by position.
   */
  function FolderView(bs: seq<Bookmark>, cur: string): (r: seq<nat>)
    ensures forall i: nat :: i in r <==> i < |bs| && bs[i].folderId == Some(cur)
  {
    var members := Filter<nat>(Range(|bs|), MemberOf(bs, cur));
    var r := Sort<nat>(members, ByOrder(bs));
    RangeDistinct(|bs|);
    FilterSpec<nat>(Range(|bs|), MemberOf(bs, cur));
    assert forall i: nat :: i in r <==> i < |bs| && bs[i].folderId == Some(cur) by {
      forall i: nat ensures i in r <==> i < |bs| && bs[i].folderId == Some(cur) {
        assert i in r <==> i in multiset(r);
        assert i in members <==> i in multiset(members);
        assert i in members <==> i in Range(|bs|) && MemberOf(bs, cur)(i);
      }
    }
    r
  }

  /** Each bookmark appears in the view once. */
  lemma FolderViewDistinct(bs: seq<Bookmark>, cur: string)
    ensures Distinct(FolderView(bs, cur))
  {
    var members := Filter<nat>(Range(|bs|), MemberOf(bs, cur));
    RangeDistinct(|bs|);
    FilterDistinct<nat>(Range(|bs|), MemberOf(bs, cur));
    DistinctPermutation<nat>(members, FolderView(bs, cur));
  }

  /** The view is in ascending `order`. */
  lemma FolderViewSorted(bs: seq<Bookmark>, cur: string)
    ensures Sorted(FolderView(bs, cur), ByOrder(bs))
  {
    ByOrderTotal(bs);
    SortSorted<nat>(Filter<nat>(Range(|bs|), MemberOf(bs, cur)), ByOrder(bs));
  }

  /** The position of bookmark `i` in the view, or -1 (also for an index outside `bookmarks`). */
  function PositionIn(view: seq<nat>, i: int): (r: int)
    ensures -1 <= r < |view|
    ensures r == -1 <==> i < 0 || i !in view
    ensures 0 <= r ==> view[r] == i
  {
    if i < 0 then -1 else IndexOf(view, i)
  }

  /** A list of positions of `bs`, none of them twice. */
  ghost predicate ValidView(bs: seq<Bookmark>, v: seq<nat>) {
    Distinct(v) && forall k :: 0 <= k < |v| ==> v[k] < |bs|
  }

  /** Gives the bookmark at position `v[k]` the order `k`; the bookmarks not in `v` keep theirs. */
  function Renumbered(bs: seq<Bookmark>, v: seq<nat>): (r: seq<Bookmark>)
    requires ValidView(bs, v)
    ensures |r| == |bs|
    ensures forall k :: 0 <= k < |v| ==> r[v[k]].order == k
    ensures forall i :: 0 <= i < |bs| ==> r[i].(order := bs[i].order) == bs[i]
    ensures forall i :: 0 <= i < |bs| && i !in v ==> r[i] == bs[i]
  {
    assert forall k :: 0 <= k < |v| ==> IndexOf(v, v[k]) == k by {
      forall k | 0 <= k < |v| ensures IndexOf(v, v[k]) == k {
        IndexOfDistinct(v, k);
      }
    }
    seq(|bs|, i requires 0 <= i < |bs| => if i in v then bs[i].(order := IndexOf(v, i)) else bs[i])
  }

  /** A reordered view holds the same positions as the view, once each. */
  lemma MovedViewValid(bs: seq<Bookmark>, cur: string, fp: nat, tp: nat)
    requires fp < |FolderView(bs, cur)| && tp < |FolderView(bs, cur)|
    ensures ValidView(bs, Moved(FolderView(bs, cur), fp, tp))
  {
    var view := FolderView(bs, cur);
    var m := Moved(view, fp, tp);
    FolderViewDistinct(bs, cur);
    DistinctPermutation(view, m);
    forall k | 0 <= k < |m| ensures m[k] < |bs| {
      assert m[k] in multiset(view);
      assert m[k] in view;
    }
  }

  /**
   * `moveBookmark(from, to)`: within the current folder's view, the bookmark
   * at `from` moves to where the one at `to` is, and the view's bookmarks are
   * numbered by their new positions.
   */
  function MovedBookmark(p: Page, from: int, to: int): Page {
    if from == to then p
    else
      var view := FolderView(p.bookmarks, p.currentFolderId);
      var fp := PositionIn(view, from);
      var tp := PositionIn(view, to);
      if fp < 0 || tp < 0 then p
      else p.(bookmarks := ReorderedInView(p.bookmarks, p.currentFolderId, fp, tp))
  }

  /** The bookmarks once the view's entry at `fp` has moved to `tp` and the view is renumbered. */
  function ReorderedInView(bs: seq<Bookmark>, cur: string, fp: nat, tp: nat): seq<Bookmark>
    requires fp < |FolderView(bs, cur)| && tp < |FolderView(bs, cur)|
  {
    MovedViewValid(bs, cur, fp, tp);
    Renumbered(bs, Moved(FolderView(bs, cur), fp, tp))
  }

  /** `moveBookmarkToFolder(index, folderId)` */
  function MovedBookmarkToFolder(p: Page, index: int, target: string): Page {
    if 0 <= index < |p.bookmarks| then
      p.(bookmarks := p.bookmarks[index := p.bookmarks[index].(folderId := Some(target))])
    else p
  }

  // ---------------------------------------------------------------------
  // addBookmark and deleteBookmark
  // ---------------------------------------------------------------------

  /** A chosen icon file: its name and its data URL, none when reading it failed. */
  datatype IconUpload = IconUpload(name: string, dataUrl: Option<string>)

  /** The record `addBookmark` appends. */
  function NewBookmark(title: string, url: string, upload: Option<IconUpload>, hostname: Option<string>,
                       now: nat, folderId: string, order: nat): Bookmark
  {
    var custom := upload.Some? && upload.value.dataUrl.Some?;
    Bookmark(Some(NatToString(now)), title, url,
             if custom then upload.value.dataUrl.value else Favicon(hostname),
             custom, if custom then Some(upload.value.name) else None,
             Some(folderId), order)
  }

  /** `addBookmark()` with the dialog's title and URL fields, the chosen icon file and the clock. */
  function AddedBookmark(p: Page, titleInput: string, urlInput: string, upload: Option<IconUpload>,
                         hostname: Option<string>, now: nat): Page
  {
    var title := Trim(titleInput);
    var url := Trim(urlInput);
    if title == "" || url == "" then p
    else p.(bookmarks := p.bookmarks + [NewBookmark(title, url, upload, hostname, now, p.currentFolderId, |p.bookmarks|)])
  }

  /** `deleteBookmark(index)` once the user has answered the confirmation. */
  function DeletedBookmark(p: Page, index: int, confirmed: bool): Page {
    if confirmed then p.(bookmarks := SpliceOut(p.bookmarks, index)) else p
  }

  // ---------------------------------------------------------------------
  // createFolder and the renaming part of saveFolderSettings
  // ---------------------------------------------------------------------

  /** `folders.some(f => (except is none or f.id !== except) && f.name.toLowerCase() === name.toLowerCase())` */
  predicate NameTaken(fs: seq<Folder>, name: string, except: Option<string>) {
    exists i :: 0 <= i < |fs| && (except.None? || fs[i].id != except.value) && SameName(fs[i].name, name)
  }

  /** The record `createFolder` appends. */
  function NewFolder(name: string, now: nat, order: nat): Folder {
    Folder(NatToString(now), name, order, false, Null, Null, Str(""), None, true)
  }

  /** `createFolder()` with the dialog's name field and the clock. */
  function CreatedFolder(p: Page, nameInput: string, now: nat): Page {
    var name := Trim(nameInput);
    if name == "" || NameTaken(p.folders, name, None) then p
    else p.(folders := p.folders + [NewFolder(name, now, |p.folders|)])
  }

  datatype EditOutcome = Saved | SavedWithoutImage | NoFolder | BlankName | NameInUse

  datatype Rename = Rename(folders: seq<Folder>, index: int, outcome: EditOutcome)

  /** The name check and rename of `saveFolderSettings()`, for the folder being edited. */
  function Renamed(fs: seq<Folder>, editingId: Option<string>, nameInput: string): (r: Rename)
    ensures |r.folders| == |fs|
    ensures r.outcome == Saved ==>
      editingId.Some? && 0 <= r.index < |fs| && fs[r.index].id == editingId.value &&
      r.folders[r.index].name == Trim(nameInput)
    ensures forall i :: 0 <= i < |fs| ==> r.folders[i].(name := fs[i].name) == fs[i]
    ensures forall i :: 0 <= i < |fs| && (editingId.None? || fs[i].id != editingId.value) ==> r.folders[i] == fs[i]
  {
    var i := if editingId.Some? then FindIndex(fs, HasId(editingId.value)) else -1;
    if i < 0 then Rename(fs, -1, NoFolder)
    else
      var name := Trim(nameInput);
      if name == "" then Rename(fs, i, BlankName)
      else if NameTaken(fs, name, Some(fs[i].id)) then Rename(fs, i, NameInUse)
      else
        assert HasId(editingId.value)(fs[i]);
        Rename(fs[i := fs[i].(name := name)], i, Saved)
  }

  /** `bg-${folder.id}-${Date.now()}` */
  function UploadedImageId(folderId: string, now: nat): string {
    "bg-" + folderId + "-" + NatToString(now)
  }

  datatype FolderSave = FolderSave(folders: seq<Folder>, session: Storage.Session, outcome: EditOutcome)

  /**
   * `saveFolderSettings()`: the rename, then for a chosen file the image is
   * saved under a fresh id, the folder's previous image deleted and the new
   * id recorded. A failed save leaves the folder's image as it was.
   */
  function SavedFolderSettings(fs: seq<Folder>, s: Storage.Session, editingId: Option<string>, nameInput: string,
                               upload: Option<Value>, now: nat): FolderSave
  {
    var rn := Renamed(fs, editingId, nameInput);
    if rn.outcome != Saved || upload.None? then FolderSave(rn.folders, s, rn.outcome)
    else
      var f := rn.folders[rn.index];
      var imageId := UploadedImageId(f.id, now);
      var w := Storage.AfterSaveImage(s, imageId, upload.value);
      if w.outcome != Storage.Done then FolderSave(rn.folders, w.session, SavedWithoutImage)
      else
        var s' := if Present(f.backgroundImageId) then Storage.AfterDeleteImage(w.session, f.backgroundImageId.value)
                  else w.session;
        FolderSave(rn.folders[rn.index := f.(backgroundImageId := Some(imageId))], s', Saved)
  }

  // ---------------------------------------------------------------------
  // deleteFolder and sortFolderBookmarks
  // ---------------------------------------------------------------------

  /** A bookmark of the deleted folder moves to `main`. */
  function Rehomed(b: Bookmark, folderId: string): Bookmark {
    if b.folderId == Some(folderId) then b.(folderId := Some("main")) else b
  }

  function AllRehomed(bs: seq<Bookmark>, folderId: string): (r: seq<Bookmark>)
    ensures |r| == |bs| && forall i :: 0 <= i < |bs| ==> r[i] == Rehomed(bs[i], folderId)
  {
    seq(|bs|, i requires 0 <= i < |bs| => Rehomed(bs[i], folderId))
  }

  /** `deleteFolder(folderId)` once the user has answered the confirmation; the default folder is never deleted. */
  function DeletedFolder(p: Page, folderId: string, confirmed: bool): Page {
    var i := FindIndex(p.folders, HasId(folderId));
    if i < 0 || p.folders[i].isDefault || !confirmed then p
    else
      Page(AllRehomed(p.bookmarks, folderId),
           Filter(p.folders, HasOtherId(folderId)),
           if p.currentFolderId == folderId then "main" else p.currentFolderId,
           p.settings)
  }

  function IsIn(folderId: string): Bookmark -> bool {
    (b: Bookmark) => b.folderId == Some(folderId)
  }

  function IsNotIn(folderId: string): Bookmark -> bool {
    (b: Bookmark) => b.folderId != Some(folderId)
  }

  /** `a.title.localeCompare(b.title) <= 0`, with titles compared character by character (by code point). */
  const ByTitle: (Bookmark, Bookmark) -> bool := (a: Bookmark, b: Bookmark) => !ObjectStores.StrLess(b.title, a.title)

  /** `folderBookmarks.forEach((bookmark, index) => { bookmark.order = index; })` */
  function Numbered(bs: seq<Bookmark>): (r: seq<Bookmark>)
    ensures |r| == |bs|
    ensures forall i :: 0 <= i < |r| ==> r[i].order == i && r[i].(order := bs[i].order) == bs[i]
  {
    seq(|bs|, i requires 0 <= i < |bs| => bs[i].(order := i))
  }

  /** `sortFolderBookmarks(folderId)`: the other bookmarks, then the folder's sorted by title and renumbered. */
  function SortedFolderBookmarks(p: Page, folderId: string): Page {
    p.(bookmarks := Filter(p.bookmarks, IsNotIn(folderId)) +
                    Numbered(Sort(Filter(p.bookmarks, IsIn(folderId)), ByTitle)))
  }

  // ---------------------------------------------------------------------
  // applyFolderBackground / applyBackground
  // ---------------------------------------------------------------------

  datatype Backdrop = ImageBackdrop(image: Value) | UrlBackdrop(url: Value) | BuiltinBackdrop

  /** `folder.backgroundImageId || folder.backgroundUrl` */
  predicate HasBackground(f: Folder) {
    Present(f.backgroundImageId) || Truthy(f.backgroundUrl)
  }

  /** `applyBackground(folder)`: its stored image, else its URL, else the built-in background. */
  function FolderBackdrop(f: Folder, db: Option<Storage.Database>): Backdrop {
    if Present(f.backgroundImageId) then
      match Storage.ImageUrl(db, f.backgroundImageId.value)
      case Some(image) => ImageBackdrop(image)
      case None => BuiltinBackdrop
    else if Truthy(f.backgroundUrl) then UrlBackdrop(f.backgroundUrl)
    else BuiltinBackdrop
  }

  /**
   * `applyFolderBackground()`: the default folder shows its own background;
   * another folder shows its own image, or else inherits the default folder's
   * background; anything else shows the built-in one.
   */
  function PageBackdrop(fs: seq<Folder>, current: string, db: Option<Storage.Database>): Backdrop {
    var c := FindIndex(fs, HasId(current));
    if c < 0 then BuiltinBackdrop
    else if fs[c].isDefault then
      if HasBackground(fs[c]) then FolderBackdrop(fs[c], db) else BuiltinBackdrop
    else if Present(fs[c].backgroundImageId) then FolderBackdrop(fs[c], db)
    else
      var m := FindIndex(fs, IsDefault);
      if m >= 0 && HasBackground(fs[m]) then FolderBackdrop(fs[m], db) else BuiltinBackdrop
  }

  lemma SplitStep(bs: seq<Bookmark>, i: nat, folderId: string)
    requires i < |bs|
    ensures Filter(bs[..i + 1], IsIn(folderId)) == Filter(bs[..i], IsIn(folderId)) + (if IsIn(folderId)(bs[i]) then [bs[i]] else [])
    ensures Filter(bs[..i + 1], IsNotIn(folderId)) == Filter(bs[..i], IsNotIn(folderId)) + (if IsNotIn(folderId)(bs[i]) then [bs[i]] else [])
  {
    assert bs[..i + 1] == bs[..i] + [bs[i]];
    FilterSnoc(bs[..i], bs[i], IsIn(folderId));
    FilterSnoc(bs[..i], bs[i], IsNotIn(folderId));
  }

  /** The `forEach` of `sortFolderBookmarks` that separates the folder's bookmarks from the others. */
  method SplitByFolder(bs: seq<Bookmark>, folderId: string) returns (inFolder: seq<Bookmark>, others: seq<Bookmark>)
    ensures inFolder == Filter(bs, IsIn(folderId))
    ensures others == Filter(bs, IsNotIn(folderId))
  {
    inFolder := [];
    others := [];
    var i := 0;
    assert bs[..i] == [];
    while i < |bs|
      invariant 0 <= i <= |bs|
      invariant inFolder == Filter(bs[..i], IsIn(folderId))
      invariant others == Filter(bs[..i], IsNotIn(folderId))
    {
      var bookmark := bs[i];
      SplitStep(bs, i, folderId);
      if IsIn(folderId)(bookmark) {
        inFolder := inFolder + [bookmark];
      } else {
        others := others + [bookmark];
      }
      i := i + 1;
    }
    assert bs[..i] == bs;
  }

  /** The `forEach` that sets each bookmark's `order` to its index. */
  method NumberInPlace(bs: seq<Bookmark>) returns (r: seq<Bookmark>)
    ensures r == Numbered(bs)
  {
    r := bs;
    var k := 0;
    while k < |r|
      invariant 0 <= k <= |r| == |bs|
      invariant forall j :: 0 <= j < k ==> r[j] == bs[j].(order := j)
      invariant forall j :: k <= j < |r| ==> r[j] == bs[j]
    {
      r := r[k := r[k].(order := k)];
      k := k + 1;
    }
  }

  /** The `forEach` of `moveBookmark` that numbers the reordered view's bookmarks. */
  method RenumberInPlace(bs: seq<Bookmark>, v: seq<nat>) returns (r: seq<Bookmark>)
    requires ValidView(bs, v)
    ensures r == Renumbered(bs, v)
  {
    r := bs;
    var k := 0;
    while k < |v|
      invariant 0 <= k <= |v|
      invariant |r| == |bs|
      invariant forall i :: 0 <= i < |bs| ==>
        r[i] == if i in v[..k] then bs[i].(order := IndexOf(v, i)) else bs[i]
    {
      IndexOfDistinct(v, k);
      assert v[..k + 1] == v[..k] + [v[k]];
      assert v[k] !in v[..k];
      r := r[v[k] := r[v[k]].(order := k)];
      k := k + 1;
    }
    assert v[..k] == v;
  }

  /** The two `splice` calls of `moveBookmark` on the current view, then its renumbering. */
  method ReorderInView(bs: seq<Bookmark>, cur: string, fp: nat, tp: nat) returns (r: seq<Bookmark>)
    requires fp < |FolderView(bs, cur)| && tp < |FolderView(bs, cur)|
    ensures r == ReorderedInView(bs, cur, fp, tp)
  {
    var view := FolderView(bs, cur);
    var moved := Moved(view, fp, tp);
    MovedViewValid(bs, cur, fp, tp);
    r := RenumberInPlace(bs, moved);
  }

  /**
   * The image part of `saveFolderSettings()`: the file is saved under a fresh
   * id; only once that succeeds is the folder's previous image deleted and the
   * new id recorded.
   */
  method ReplaceBackground(storage: Storage.StorageManager, f: Folder, blob: Value, now: nat)
    returns (saved: bool, g: Folder)
    modifies storage
    ensures var w := Storage.AfterSaveImage(old(storage.Snapshot()), UploadedImageId(f.id, now), blob);
      saved == (w.outcome == Storage.Done) &&
      (saved ==> g == f.(backgroundImageId := Some(UploadedImageId(f.id, now))) &&
                 storage.Snapshot() == (if Present(f.backgroundImageId)
                                        then Storage.AfterDeleteImage(w.session, f.backgroundImageId.value)
                                        else w.session)) &&
      (!saved ==> storage.Snapshot() == w.session)
  {
    var imageId := UploadedImageId(f.id, now);
    var outcome := storage.SaveImage(imageId, blob);
    g := f;
    if outcome != Storage.Done {
      return false, g;
    }
    if Present(f.backgroundImageId) {
      storage.DeleteImage(f.backgroundImageId.value);
    }
    g := f.(backgroundImageId := Some(imageId));
    saved := true;
  }

  /** `saveFolderSettings()` on the folder list: the rename, then the background image. */
  method SaveFolder(storage: Storage.StorageManager, fs: seq<Folder>, editingId: Option<string>, nameInput: string,
                    upload: Option<Value>, now: nat)
    returns (folders: seq<Folder>, outcome: EditOutcome)
    modifies storage
    ensures var r := SavedFolderSettings(fs, old(storage.Snapshot()), editingId, nameInput, upload, now);
      folders == r.folders && storage.Snapshot() == r.session && outcome == r.outcome
  {
    var rn := Renamed(fs, editingId, nameInput);
    folders := rn.folders;
    if rn.outcome != Saved || upload.None? {
      return folders, rn.outcome;
    }
    var saved, g := ReplaceBackground(storage, folders[rn.index], upload.value, now);
    if !saved {
      return folders, SavedWithoutImage;
    }
    folders := folders[rn.index := g];
    outcome := Saved;
  }

  // ---------------------------------------------------------------------
  // The page object
  // ---------------------------------------------------------------------

  /**
   * The icon part of `addBookmark()`: the chosen file's data URL when it could
   * be read, the favicon otherwise (also when reading the file failed).
   */
  method ChooseIcon(upload: Option<IconUpload>, hostname: Option<string>)
    returns (icon: string, customIcon: bool, iconFilename: Option<string>)
    ensures customIcon <==> upload.Some? && upload.value.dataUrl.Some?
    ensures customIcon ==> icon == upload.value.dataUrl.value && iconFilename == Some(upload.value.name)
    ensures !customIcon ==> icon == Favicon(hostname) && iconFilename == None
  {
    customIcon := false;
    iconFilename := None;
    if upload.Some? {
      if upload.value.dataUrl.Some? {
        icon := upload.value.dataUrl.value;
        customIcon := true;
        iconFilename := Some(upload.value.name);
      } else {
        icon := Favicon(hostname);
      }
    } else {
      icon := Favicon(hostname);
    }
  }

  /** The record `addBookmark()` pushes, with the icon `ChooseIcon` picks. */
  method BuildBookmark(title: string, url: string, upload: Option<IconUpload>, hostname: Option<string>,
                       now: nat, folderId: string, order: nat) returns (bookmark: Bookmark)
    ensures bookmark == NewBookmark(title, url, upload, hostname, now, folderId, order)
  {
    var icon, customIcon, iconFilename := ChooseIcon(upload, hostname);
    bookmark := Bookmark(Some(NatToString(now)), title, url, icon, customIcon, iconFilename, Some(folderId), order);
  }

  class Homepage {
    var bookmarks: seq<Bookmark>
    var folders: seq<Folder>
    var currentFolderId: string
    var settings: map<string, Value>

    function View(): Page
      reads this
    {
      Page(bookmarks, folders, currentFolderId, settings)
    }

    constructor ()
      ensures View() == Page([], [], "main", DefaultSettings)
    {
      bookmarks := [];
      folders := [];
      currentFolderId := "main";
      settings := DefaultSettings;
    }

    /** `loadData()`, given what the storage layer returned for the three reads. */
    method LoadData(storedBookmarks: Option<seq<Bookmark>>, storedFolders: Option<seq<Folder>>, storedSettings: Value)
      modifies this
      ensures View() == Loaded(old(View()), storedBookmarks, storedFolders, storedSettings)
    {
      bookmarks := if storedBookmarks.Some? then storedBookmarks.value else [];
      folders := if storedFolders.Some? then storedFolders.value else [];
      settings := settings + Spread(storedSettings);
    }

    /** `migrateToFolders()`; `now(i)` is the clock read while visiting bookmark `i`. */
    method MigrateToFolders(now: nat -> nat)
      modifies this
      ensures View() == MigratedToFolders(old(View()), now)
    {
      if |folders| == 0 && |bookmarks| > 0 {
        folders := [MainFolder(settings)];
        var i := 0;
        while i < |bookmarks|
          invariant 0 <= i <= |bookmarks| == |old(bookmarks)|
          invariant forall j :: 0 <= j < i ==> bookmarks[j] == AssignedToMain(old(bookmarks)[j], j, now(j))
          invariant forall j :: i <= j < |bookmarks| ==> bookmarks[j] == old(bookmarks)[j]
          invariant folders == [MainFolder(settings)] && settings == old(settings)
          invariant currentFolderId == old(currentFolderId)
        {
          var b := bookmarks[i];
          if !Present(b.folderId) {
            b := b.(folderId := Some("main"));
          }
          if !Present(b.id) {
            b := b.(id := Some(MigratedId(now(i), i)));
          }
          bookmarks := bookmarks[i := b];
          i := i + 1;
        }
      } else if |folders| == 0 {
        folders := [MainFolder(settings)];
      }
    }

    /** `reorderFolderTabs(from, to)` */
    method ReorderFolderTabs(from: nat, to: nat)
      requires from < |folders| && to < |folders|
      modifies this
      ensures View() == ReorderedFolderTabs(old(View()), from, to)
    {
      if from == to {
        return;
      }
      var moved := Moved(folders, from, to);
      folders := moved;
      var i := 0;
      while i < |folders|
        invariant 0 <= i <= |folders| == |moved|
        invariant forall j :: 0 <= j < i ==> folders[j] == moved[j].(order := j)
        invariant forall j :: i <= j < |folders| ==> folders[j] == moved[j]
        invariant bookmarks == old(bookmarks) && currentFolderId == old(currentFolderId) && settings == old(settings)
      {
        folders := folders[i := folders[i].(order := i)];
        i := i + 1;
      }
    }

    /** `moveBookmarkToFolder(index, folderId)` */
    method MoveBookmarkToFolder(index: int, target: string)
      modifies this
      ensures View() == MovedBookmarkToFolder(old(View()), index, target)
    {
      if 0 <= index < |bookmarks| {
        bookmarks := bookmarks[index := bookmarks[index].(folderId := Some(target))];
      }
    }

    /** `moveBookmark(from, to)` */
    method MoveBookmark(from: int, to: int)
      modifies this
      ensures View() == MovedBookmark(old(View()), from, to)
    {
      if from == to {
        return;
      }
      var view := FolderView(bookmarks, currentFolderId);
      var fp := PositionIn(view, from);
      var tp := PositionIn(view, to);
      if fp < 0 || tp < 0 {
        return;
      }
      bookmarks := ReorderInView(bookmarks, currentFolderId, fp, tp);
    }

    /** `addBookmark()` with the dialog's fields, the chosen icon file, the parsed hostname and the clock. */
    method AddBookmark(titleInput: string, urlInput: string, upload: Option<IconUpload>, hostname: Option<string>, now: nat)
      returns (added: bool)
      modifies this
      ensures View() == AddedBookmark(old(View()), titleInput, urlInput, upload, hostname, now)
      ensures added <==> |bookmarks| == |old(bookmarks)| + 1
    {
      var title := Trim(titleInput);
      var url := Trim(urlInput);
      added := title != "" && url != "";
      if added {
        var bookmark := BuildBookmark(title, url, upload, hostname, now, currentFolderId, |bookmarks|);
        bookmarks := bookmarks + [bookmark];
      }
    }

    /** `deleteBookmark(index)`; `confirmed` is the answer to the confirmation. */
    method DeleteBookmark(index: int, confirmed: bool)
      modifies this
      ensures View() == DeletedBookmark(old(View()), index, confirmed)
    {
      if confirmed {
        bookmarks := SpliceOut(bookmarks, index);
      }
    }

    /** `createFolder()` with the dialog's name field and the clock. */
    method CreateFolder(nameInput: string, now: nat) returns (created: bool)
      modifies this
      ensures View() == CreatedFolder(old(View()), nameInput, now)
      ensures created <==> Trim(nameInput) != "" && !NameTaken(old(folders), Trim(nameInput), None)
    {
      var name := Trim(nameInput);
      if name == "" {
        return false;
      }
      if NameTaken(folders, name, None) {
        return false;
      }
      var folder := Folder(NatToString(now), name, |folders|, false, Null, Null, Str(""), None, true);
      folders := folders + [folder];
      created := true;
    }

    /**
     * `saveFolderSettings()` for the folder being edited, with the dialog's
     * name field, the chosen background file and the clock.
     */
    method SaveFolderSettings(storage: Storage.StorageManager, editingId: Option<string>, nameInput: string,
                              upload: Option<Value>, now: nat)
      returns (outcome: EditOutcome)
      modifies this, storage
      ensures var r := SavedFolderSettings(old(folders), old(storage.Snapshot()), editingId, nameInput, upload, now);
        folders == r.folders && storage.Snapshot() == r.session && outcome == r.outcome
      ensures bookmarks == old(bookmarks) && currentFolderId == old(currentFolderId) && settings == old(settings)
    {
      folders, outcome := SaveFolder(storage, folders, editingId, nameInput, upload, now);
    }

    /** `deleteFolder(folderId)`; `confirmed` is the answer to the confirmation. */
    method DeleteFolder(folderId: string, confirmed: bool)
      modifies this
      ensures View() == DeletedFolder(old(View()), folderId, confirmed)
    {
      var i := FindIndex(folders, HasId(folderId));
      if i < 0 || folders[i].isDefault {
        return;
      }
      if !confirmed {
        return;
      }
      var j := 0;
      while j < |bookmarks|
        invariant 0 <= j <= |bookmarks| == |old(bookmarks)|
        invariant forall k :: 0 <= k < j ==> bookmarks[k] == Rehomed(old(bookmarks)[k], folderId)
        invariant forall k :: j <= k < |bookmarks| ==> bookmarks[k] == old(bookmarks)[k]
        invariant folders == old(folders) && currentFolderId == old(currentFolderId) && settings == old(settings)
      {
        if bookmarks[j].folderId == Some(folderId) {
          bookmarks := bookmarks[j := bookmarks[j].(folderId := Some("main"))];
        }
        j := j + 1;
      }
      folders := Filter(folders, HasOtherId(folderId));
      if currentFolderId == folderId {
        currentFolderId := "main";
      }
    }

    /** `sortFolderBookmarks(folderId)` */
    method SortFolderBookmarks(folderId: string)
      modifies this
      ensures View() == SortedFolderBookmarks(old(View()), folderId)
    {
      var inFolder, others := SplitByFolder(bookmarks, folderId);
      var sorted := Sort(inFolder, ByTitle);
      var numbered := NumberInPlace(sorted);
      bookmarks := others + numbered;
    }
  }
}
