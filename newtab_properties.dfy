/**
 * What the new-tab page's operations promise, stated about the functions
 * that specify them: orders re-sequenced by position, arrangements kept as
 * permutations, folder names kept unique, bookmarks kept in existing
 * folders, and the background rule.
 */
module NewTabProperties {
  import opened Json
  import opened Sequences
  import opened NewTab
  import ObjectStores
  import Storage

  // ---------------------------------------------------------------------
  // The folder view and moveBookmark
  // ---------------------------------------------------------------------

  /** The folder's bookmarks, once numbered along `v`, are sorted along `v` with no ties. */
  lemma RenumberedSortedAlong(bs: seq<Bookmark>, v: seq<nat>)
    requires ValidView(bs, v)
    ensures Sorted(v, ByOrder(Renumbered(bs, v)))
    ensures forall i, j ::
      (0 <= i < |v| && 0 <= j < |v| && ByOrder(Renumbered(bs, v))(v[i], v[j]) && ByOrder(Renumbered(bs, v))(v[j], v[i]))
      ==> v[i] == v[j]
  {
    var r := Renumbered(bs, v);
    forall i, j | 0 <= i < |v| && 0 <= j < |v| ensures OrderAt(r, v[i]) <= OrderAt(r, v[j]) <==> i <= j {
      assert OrderAt(r, v[i]) == i && OrderAt(r, v[j]) == j;
    }
  }

  /**
   * Numbering an arrangement of exactly the folder's bookmarks makes
   * `renderBookmarks` show them in that arrangement.
   */
  lemma RenumberedViewIs(bs: seq<Bookmark>, cur: string, v: seq<nat>)
    requires ValidView(bs, v)
    requires forall i: nat :: i in v <==> i < |bs| && bs[i].folderId == Some(cur)
    ensures FolderView(Renumbered(bs, v), cur) == v
  {
    var r := Renumbered(bs, v);
    var nv := FolderView(r, cur);
    forall i: nat ensures i in nv <==> i in v {
      if i < |bs| {
        assert r[i].folderId == bs[i].folderId by {
          assert r[i].(order := bs[i].order) == bs[i];
        }
      }
    }
    FolderViewDistinct(r, cur);
    SameElements(v, nv);
    FolderViewSorted(r, cur);
    RenumberedSortedAlong(bs, v);
    SortedUnique(v, nv, ByOrder(r));
  }

  /** Within `moveBookmark` the two `splice` calls and the renumbering only change `order`s in the folder. */
  lemma ReorderedInViewChangesOnlyOrders(bs: seq<Bookmark>, cur: string, fp: nat, tp: nat)
    requires fp < |FolderView(bs, cur)| && tp < |FolderView(bs, cur)|
    ensures var r := ReorderedInView(bs, cur, fp, tp);
      |r| == |bs| &&
      (forall i :: 0 <= i < |bs| ==> r[i].(order := bs[i].order) == bs[i]) &&
      (forall i :: 0 <= i < |bs| && bs[i].folderId != Some(cur) ==> r[i] == bs[i])
  {
    var view := FolderView(bs, cur);
    MovedViewValid(bs, cur, fp, tp);
    var m := Moved(view, fp, tp);
    forall i | 0 <= i < |bs| && bs[i].folderId != Some(cur) ensures i !in m {
      assert i !in multiset(view);
    }
  }

  /**
   * `moveBookmark(from, to)` changes nothing but the `order` of bookmarks of
   * the current folder, and nothing at all when the two are the same or
   * either is not a bookmark of the current folder.
   */
  lemma MovedBookmarkChangesOnlyOrders(p: Page, from: int, to: int)
    ensures var r := MovedBookmark(p, from, to);
      r.folders == p.folders && r.currentFolderId == p.currentFolderId && r.settings == p.settings &&
      |r.bookmarks| == |p.bookmarks| &&
      (forall i :: 0 <= i < |p.bookmarks| ==> r.bookmarks[i].(order := p.bookmarks[i].order) == p.bookmarks[i]) &&
      (forall i :: 0 <= i < |p.bookmarks| && p.bookmarks[i].folderId != Some(p.currentFolderId) ==>
         r.bookmarks[i] == p.bookmarks[i])
    ensures from == to || !(0 <= from < |p.bookmarks| && p.bookmarks[from].folderId == Some(p.currentFolderId)) ||
            !(0 <= to < |p.bookmarks| && p.bookmarks[to].folderId == Some(p.currentFolderId)) ==>
      MovedBookmark(p, from, to) == p
  {
    var bs, cur := p.bookmarks, p.currentFolderId;
    var view := FolderView(bs, cur);
    var fp := PositionIn(view, from);
    var tp := PositionIn(view, to);
    if from != to && fp >= 0 && tp >= 0 {
      ReorderedInViewChangesOnlyOrders(bs, cur, fp, tp);
    }
  }

  /** The view after the move is the moved view. */
  lemma ReorderedInViewShows(bs: seq<Bookmark>, cur: string, fp: nat, tp: nat)
    requires fp < |FolderView(bs, cur)| && tp < |FolderView(bs, cur)|
    ensures FolderView(ReorderedInView(bs, cur, fp, tp), cur) == Moved(FolderView(bs, cur), fp, tp)
  {
    var view := FolderView(bs, cur);
    MovedViewValid(bs, cur, fp, tp);
    var m := Moved(view, fp, tp);
    forall i: nat ensures i in m <==> i < |bs| && bs[i].folderId == Some(cur) {
      assert i in m <==> i in multiset(m);
      assert i in view <==> i in multiset(view);
    }
    RenumberedViewIs(bs, cur, m);
  }

  /** After a move inside the view, the view's bookmarks are numbered 0, 1, 2, … in view order. */
  lemma ReorderedInViewNumbered(bs: seq<Bookmark>, cur: string, fp: nat, tp: nat)
    requires fp < |FolderView(bs, cur)| && tp < |FolderView(bs, cur)|
    ensures var r := ReorderedInView(bs, cur, fp, tp);
      var after := FolderView(r, cur);
      forall k :: 0 <= k < |after| ==> OrderAt(r, after[k]) == k
  {
    var m := Moved(FolderView(bs, cur), fp, tp);
    ReorderedInViewShows(bs, cur, fp, tp);
    MovedViewValid(bs, cur, fp, tp);
    assert ReorderedInView(bs, cur, fp, tp) == Renumbered(bs, m);
  }

  /**
   * After `moveBookmark(from, to)` within the current folder, the folder
   * shows its bookmarks with the dragged one taken out and put in at the
   * target's place, numbered 0, 1, 2, … in that arrangement.
   */
  lemma MovedBookmarkShowsMove(p: Page, from: nat, to: nat)
    requires from != to && from < |p.bookmarks| && to < |p.bookmarks|
    requires p.bookmarks[from].folderId == Some(p.currentFolderId)
    requires p.bookmarks[to].folderId == Some(p.currentFolderId)
    ensures var view := FolderView(p.bookmarks, p.currentFolderId);
      var after := FolderView(MovedBookmark(p, from, to).bookmarks, p.currentFolderId);
      after == Moved(view, IndexOf(view, from), IndexOf(view, to)) && after[IndexOf(view, to)] == from
    ensures var r := MovedBookmark(p, from, to).bookmarks;
      var after := FolderView(r, p.currentFolderId);
      forall k :: 0 <= k < |after| ==> OrderAt(r, after[k]) == k
  {
    var bs, cur := p.bookmarks, p.currentFolderId;
    var view := FolderView(bs, cur);
    assert from in view && to in view;
    var fp, tp := IndexOf(view, from), IndexOf(view, to);
    assert PositionIn(view, from) == fp && PositionIn(view, to) == tp;
    assert MovedBookmark(p, from, to).bookmarks == ReorderedInView(bs, cur, fp, tp);
    ReorderedInViewShows(bs, cur, fp, tp);
    ReorderedInViewNumbered(bs, cur, fp, tp);
  }

  // ---------------------------------------------------------------------
  // migrateToFolders
  // ---------------------------------------------------------------------

  /**
   * A page with folders is left alone. A page without any gets exactly the
   * default `main` folder, and every bookmark ends up with a folder and an
   * id, keeping the ones it had.
   */
  lemma MigrationEffect(p: Page, now: nat -> nat)
    ensures p.folders != [] ==> MigratedToFolders(p, now) == p
    ensures p.folders == [] ==>
      var r := MigratedToFolders(p, now);
      |r.folders| == 1 && r.folders[0].id == "main" && r.folders[0].isDefault && r.folders[0].order == 0 &&
      !r.folders[0].inheritBackground && r.folders[0].backgroundImageId.None? &&
      r.folders[0].name == "Main" &&
      r.folders[0].backgroundFile == Or(Prop(p.settings, "backgroundFile"), Null) &&
      r.folders[0].backgroundFilename == Or(Prop(p.settings, "backgroundFilename"), Null) &&
      r.folders[0].backgroundUrl == Or(Prop(p.settings, "backgroundUrl"), Str("")) &&
      |r.bookmarks| == |p.bookmarks| && r.currentFolderId == p.currentFolderId && r.settings == p.settings &&
      forall i :: 0 <= i < |p.bookmarks| ==>
        Present(r.bookmarks[i].folderId) && Present(r.bookmarks[i].id) &&
        (Present(p.bookmarks[i].folderId) ==> r.bookmarks[i].folderId == p.bookmarks[i].folderId) &&
        (Present(p.bookmarks[i].id) ==> r.bookmarks[i].id == p.bookmarks[i].id)
  {
  }

  /** `migrated-<time>-<index>` determines both the time and the index. */
  lemma MigratedIdInjective(t1: nat, i1: nat, t2: nat, i2: nat)
    requires MigratedId(t1, i1) == MigratedId(t2, i2)
    ensures t1 == t2 && i1 == i2
  {
    var prefix := "migrated-";
    var a1, a2 := NatToString(t1), NatToString(t2);
    var b1, b2 := NatToString(i1), NatToString(i2);
    assert prefix + (a1 + "-" + b1) == MigratedId(t1, i1);
    assert prefix + (a2 + "-" + b2) == MigratedId(t2, i2);
    assert a1 + "-" + b1 == MigratedId(t1, i1)[|prefix|..];
    assert a2 + "-" + b2 == MigratedId(t2, i2)[|prefix|..];
    DigitsHaveNoSeparator(a1, '-');
    DigitsHaveNoSeparator(a2, '-');
    SplitAtSeparator(a1, b1, a2, b2, '-');
    NatToStringInjective(t1, t2);
    NatToStringInjective(i1, i2);
  }

  /** The ids migration makes up differ from each other, whatever the clock read. */
  lemma MigratedIdsDistinct(p: Page, now: nat -> nat, i: nat, j: nat)
    requires p.folders == [] && i < j < |p.bookmarks|
    requires !Present(p.bookmarks[i].id) && !Present(p.bookmarks[j].id)
    ensures MigratedToFolders(p, now).bookmarks[i].id != MigratedToFolders(p, now).bookmarks[j].id
  {
    var r := MigratedToFolders(p, now);
    if r.bookmarks[i].id == r.bookmarks[j].id {
      MigratedIdInjective(now(i), i, now(j), j);
    }
  }

  // ---------------------------------------------------------------------
  // reorderFolderTabs
  // ---------------------------------------------------------------------

  /** A folder with its `order` cleared, to compare folders up to their numbering. */
  function Unnumbered(f: Folder): Folder {
    f.(order := 0)
  }

  lemma NumberedFoldersUnnumbered(fs: seq<Folder>)
    ensures Map(NumberedFolders(fs), Unnumbered) == Map(fs, Unnumbered)
  {
    var r := NumberedFolders(fs);
    forall i | 0 <= i < |fs| ensures Unnumbered(r[i]) == Unnumbered(fs[i]) {
      assert r[i].(order := fs[i].order) == fs[i];
    }
  }

  /**
   * `reorderFolderTabs(from, to)`: the dragged folder ends at `to`, the tabs
   * are the same folders rearranged, and each `order` is the tab's index.
   */
  lemma ReorderedFolderTabsEffect(p: Page, from: nat, to: nat)
    requires from < |p.folders| && to < |p.folders|
    ensures var r := ReorderedFolderTabs(p, from, to);
      r.bookmarks == p.bookmarks && r.currentFolderId == p.currentFolderId && r.settings == p.settings &&
      |r.folders| == |p.folders| && Unnumbered(r.folders[to]) == Unnumbered(p.folders[from]) &&
      multiset(Map(r.folders, Unnumbered)) == multiset(Map(p.folders, Unnumbered))
    ensures from != to ==> forall i :: 0 <= i < |p.folders| ==> ReorderedFolderTabs(p, from, to).folders[i].order == i
  {
    if from != to {
      var m := Moved(p.folders, from, to);
      NumberedFoldersUnnumbered(m);
      MapPermutation(m, p.folders, Unnumbered);
    }
  }

  // ---------------------------------------------------------------------
  // moveBookmarkToFolder, addBookmark, deleteBookmark
  // ---------------------------------------------------------------------

  /** `moveBookmarkToFolder` changes the one bookmark's folder and nothing else; a bad index changes nothing. */
  lemma MovedBookmarkToFolderEffect(p: Page, index: int, target: string)
    ensures var r := MovedBookmarkToFolder(p, index, target);
      r.folders == p.folders && r.currentFolderId == p.currentFolderId && r.settings == p.settings &&
      |r.bookmarks| == |p.bookmarks| &&
      (forall i :: 0 <= i < |p.bookmarks| && i != index ==> r.bookmarks[i] == p.bookmarks[i]) &&
      (0 <= index < |p.bookmarks| ==> r.bookmarks[index] == p.bookmarks[index].(folderId := Some(target)))
  {
  }

  /**
   * `addBookmark()`: a blank title or URL changes nothing; otherwise one
   * bookmark is appended to the current folder, trimmed, numbered with the
   * old length, and with the favicon unless an icon file was read.
   */
  lemma AddedBookmarkEffect(p: Page, titleInput: string, urlInput: string, upload: Option<IconUpload>,
                            hostname: Option<string>, now: nat)
    ensures AllSpace(titleInput) || AllSpace(urlInput) ==> AddedBookmark(p, titleInput, urlInput, upload, hostname, now) == p
    ensures !AllSpace(titleInput) && !AllSpace(urlInput) ==>
      var r := AddedBookmark(p, titleInput, urlInput, upload, hostname, now);
      r.folders == p.folders && r.currentFolderId == p.currentFolderId && r.settings == p.settings &&
      |r.bookmarks| == |p.bookmarks| + 1 && r.bookmarks[..|p.bookmarks|] == p.bookmarks &&
      var b := r.bookmarks[|p.bookmarks|];
      b.folderId == Some(p.currentFolderId) && b.order == |p.bookmarks| &&
      b.title == Trim(titleInput) && b.url == Trim(urlInput) && b.title != "" && b.url != "" &&
      b.id == Some(NatToString(now)) &&
      (b.customIcon <==> upload.Some? && upload.value.dataUrl.Some?) &&
      (!b.customIcon ==> b.icon == Favicons.Favicon(hostname) && b.iconFilename.None?)
  {
    TrimSpec(titleInput);
    TrimSpec(urlInput);
  }

  /**
   * `deleteBookmark(index)`, once confirmed, removes exactly the bookmark at
   * `index` (a negative index counts from the end, as for `splice`).
   */
  lemma DeletedBookmarkEffect(p: Page, index: int, confirmed: bool)
    ensures !confirmed ==> DeletedBookmark(p, index, confirmed) == p
    ensures confirmed && index >= |p.bookmarks| ==> DeletedBookmark(p, index, confirmed) == p
    ensures confirmed && 0 <= index < |p.bookmarks| ==>
      DeletedBookmark(p, index, confirmed).bookmarks == p.bookmarks[..index] + p.bookmarks[index + 1..]
    ensures confirmed && index < 0 && |p.bookmarks| > 0 ==>
      var k := if |p.bookmarks| + index < 0 then 0 else |p.bookmarks| + index;
      DeletedBookmark(p, index, confirmed).bookmarks == p.bookmarks[..k] + p.bookmarks[k + 1..]
    ensures var r := DeletedBookmark(p, index, confirmed);
      r.folders == p.folders && r.currentFolderId == p.currentFolderId && r.settings == p.settings
  {
    if confirmed {
      var bs := p.bookmarks;
      var k := SpliceStart(|bs|, index);
      if k < |bs| {
        var r := SpliceOut(bs, index);
        assert r == bs[..k] + bs[k + 1..];
      }
    }
  }

  // ---------------------------------------------------------------------
  // createFolder and renaming
  // ---------------------------------------------------------------------

  /**
   * `createFolder()`: a blank name or one already used (ignoring letter case)
   * changes nothing; otherwise one non-default, inheriting folder is appended
   * with the old length as its order.
   */
  lemma CreatedFolderEffect(p: Page, nameInput: string, now: nat)
    ensures AllSpace(nameInput) ==> CreatedFolder(p, nameInput, now) == p
    ensures (exists i :: 0 <= i < |p.folders| && SameName(p.folders[i].name, Trim(nameInput))) ==>
      CreatedFolder(p, nameInput, now) == p
    ensures !AllSpace(nameInput) && (forall i :: 0 <= i < |p.folders| ==> !SameName(p.folders[i].name, Trim(nameInput))) ==>
      var r := CreatedFolder(p, nameInput, now);
      |r.folders| == |p.folders| + 1 && r.folders[..|p.folders|] == p.folders &&
      var f := r.folders[|p.folders|];
      f.name == Trim(nameInput) && f.id == NatToString(now) && f.order == |p.folders| &&
      !f.isDefault && f.inheritBackground && f.backgroundImageId.None?
    ensures var r := CreatedFolder(p, nameInput, now);
      r.bookmarks == p.bookmarks && r.currentFolderId == p.currentFolderId && r.settings == p.settings
  {
    TrimSpec(nameInput);
  }

  /** Creating a folder keeps folder names unique up to letter case. */
  lemma CreatedFolderKeepsNamesUnique(p: Page, nameInput: string, now: nat)
    requires NamesUnique(p.folders)
    ensures NamesUnique(CreatedFolder(p, nameInput, now).folders)
  {
    var r := CreatedFolder(p, nameInput, now);
    if r != p {
      var fs := r.folders;
      var n := |p.folders|;
      forall i, j | 0 <= i < j < |fs| ensures !SameName(fs[i].name, fs[j].name) {
        if j == n {
          assert fs[i] == p.folders[i];
        } else {
          assert fs[i] == p.folders[i] && fs[j] == p.folders[j];
        }
      }
    }
  }

  /** With unique ids, `findIndex` by id finds the folder itself. */
  lemma FindById(fs: seq<Folder>, c: nat)
    requires IdsUnique(fs) && c < |fs|
    ensures FindIndex(fs, HasId(fs[c].id)) == c
  {
    assert HasId(fs[c].id)(fs[c]);
  }

  /**
   * The rename of `saveFolderSettings()` keeps folder names unique up to
   * letter case and never changes an id.
   */
  lemma RenameKeepsNamesUnique(fs: seq<Folder>, editingId: Option<string>, nameInput: string)
    requires NamesUnique(fs) && IdsUnique(fs)
    ensures var r := Renamed(fs, editingId, nameInput);
      NamesUnique(r.folders) && IdsUnique(r.folders) && |r.folders| == |fs| &&
      forall i :: 0 <= i < |fs| ==> r.folders[i].id == fs[i].id
  {
    var r := Renamed(fs, editingId, nameInput);
    if r.outcome == Saved {
      var c := r.index;
      var name := Trim(nameInput);
      assert r.folders == fs[c := fs[c].(name := name)];
      assert !NameTaken(fs, name, Some(fs[c].id));
      RenamedNamesUnique(fs, c, name);
    }
  }

  lemma RenamedNamesUnique(fs: seq<Folder>, c: nat, name: string)
    requires NamesUnique(fs) && IdsUnique(fs) && c < |fs|
    requires !NameTaken(fs, name, Some(fs[c].id))
    ensures NamesUnique(fs[c := fs[c].(name := name)])
  {
    var rs := fs[c := fs[c].(name := name)];
    forall i, j | 0 <= i < j < |rs| ensures !SameName(rs[i].name, rs[j].name) {
      if i == c {
        assert fs[j].id != fs[c].id;
        assert !SameName(fs[j].name, name);
      } else if j == c {
        assert fs[i].id != fs[c].id;
        assert !SameName(fs[i].name, name);
      }
    }
  }

  /** A folder may keep its own name, in any letter case, when renamed. */
  lemma RenameAllowsOwnName(fs: seq<Folder>, c: nat, nameInput: string)
    requires NamesUnique(fs) && IdsUnique(fs) && c < |fs|
    requires !AllSpace(nameInput) && SameName(Trim(nameInput), fs[c].name)
    ensures Renamed(fs, Some(fs[c].id), nameInput).outcome == Saved
    ensures Renamed(fs, Some(fs[c].id), nameInput).folders == fs[c := fs[c].(name := Trim(nameInput))]
  {
    TrimSpec(nameInput);
    FindById(fs, c);
  }

  /** A rename to another folder's name, in any letter case, is refused and changes nothing. */
  lemma RenameRefusesOtherName(fs: seq<Folder>, c: nat, nameInput: string, j: nat)
    requires IdsUnique(fs) && c < |fs| && j < |fs| && j != c
    requires !AllSpace(nameInput) && SameName(fs[j].name, Trim(nameInput))
    ensures Renamed(fs, Some(fs[c].id), nameInput).outcome == NameInUse
    ensures Renamed(fs, Some(fs[c].id), nameInput).folders == fs
  {
    TrimSpec(nameInput);
    FindById(fs, c);
    assert fs[j].id != fs[c].id;
  }
  // ---------------------------------------------------------------------
  // deleteFolder
  // ---------------------------------------------------------------------

  function FolderIds(fs: seq<Folder>): set<string> {
    set f | f in fs :: f.id
  }

  /** Every bookmark belongs to a folder that exists, and so does the current folder. */
  ghost predicate Homed(p: Page) {
    p.currentFolderId in FolderIds(p.folders) &&
    forall i :: 0 <= i < |p.bookmarks| ==> p.bookmarks[i].folderId.Some? && p.bookmarks[i].folderId.value in FolderIds(p.folders)
  }

  /** `deleteFolder` does nothing for a missing folder, the default folder, or an unconfirmed deletion. */
  lemma DeletedFolderRefused(p: Page, folderId: string, confirmed: bool)
    ensures folderId !in FolderIds(p.folders) ==> DeletedFolder(p, folderId, confirmed) == p
    ensures !confirmed ==> DeletedFolder(p, folderId, confirmed) == p
    ensures (exists i :: 0 <= i < |p.folders| && p.folders[i].id == folderId && p.folders[i].isDefault &&
               forall j :: 0 <= j < i ==> p.folders[j].id != folderId) ==>
      DeletedFolder(p, folderId, confirmed) == p
  {
    var k := FindIndex(p.folders, HasId(folderId));
    if folderId !in FolderIds(p.folders) {
      forall j | 0 <= j < |p.folders| ensures !HasId(folderId)(p.folders[j]) {
        assert p.folders[j] in p.folders;
      }
    }
    if i :| 0 <= i < |p.folders| && p.folders[i].id == folderId && p.folders[i].isDefault &&
            forall j :: 0 <= j < i ==> p.folders[j].id != folderId {
      assert HasId(folderId)(p.folders[i]);
      assert k == i;
    }
  }

  /**
   * A confirmed `deleteFolder` of a non-default folder removes exactly the
   * folders with that id, sends exactly that folder's bookmarks to `main`,
   * and leaves the current folder unless it was the deleted one.
   */
  lemma DeletedFolderEffect(p: Page, folderId: string, c: nat)
    requires c < |p.folders| && p.folders[c].id == folderId && !p.folders[c].isDefault
    requires forall j :: 0 <= j < c ==> p.folders[j].id != folderId
    ensures var r := DeletedFolder(p, folderId, true);
      (forall f :: f in r.folders <==> f in p.folders && f.id != folderId) &&
      |r.bookmarks| == |p.bookmarks| &&
      (forall k :: 0 <= k < |p.bookmarks| ==>
         r.bookmarks[k].(folderId := p.bookmarks[k].folderId) == p.bookmarks[k] &&
         r.bookmarks[k].folderId == if p.bookmarks[k].folderId == Some(folderId) then Some("main") else p.bookmarks[k].folderId) &&
      r.currentFolderId == (if p.currentFolderId == folderId then "main" else p.currentFolderId) &&
      r.settings == p.settings
  {
    assert HasId(folderId)(p.folders[c]);
    FilterSpec(p.folders, HasOtherId(folderId));
  }

  /**
   * Deleting a folder other than `main` keeps every bookmark in an existing
   * folder and the current folder an existing one, and the deleted id is gone.
   */
  lemma DeletedFolderKeepsHomes(p: Page, folderId: string, confirmed: bool)
    requires Homed(p) && "main" in FolderIds(p.folders) && folderId != "main"
    ensures Homed(DeletedFolder(p, folderId, confirmed))
    ensures DeletedFolder(p, folderId, confirmed) != p ==> folderId !in FolderIds(DeletedFolder(p, folderId, confirmed).folders)
  {
    var r := DeletedFolder(p, folderId, confirmed);
    if r != p {
      var keep := HasOtherId(folderId);
      FilterSpec(p.folders, keep);
      var main :| main in p.folders && main.id == "main";
      assert main in r.folders;
      assert "main" in FolderIds(r.folders);
      forall x | x in FolderIds(p.folders) && x != folderId ensures x in FolderIds(r.folders) {
        var f :| f in p.folders && f.id == x;
        assert f in r.folders;
      }
      forall f | f in r.folders ensures f.id != folderId {
        assert keep(f);
      }
    }
  }

  // ---------------------------------------------------------------------
  // sortFolderBookmarks
  // ---------------------------------------------------------------------

  /** A bookmark with its `order` cleared, to compare bookmarks up to their numbering. */
  function BookmarkUnnumbered(b: Bookmark): Bookmark {
    b.(order := 0)
  }

  /** Comparing titles character by character (by code point) is a total preorder. */
  lemma ByTitleTotal()
    ensures TotalPreorder(ByTitle)
  {
    forall a: Bookmark, b: Bookmark ensures ByTitle(a, b) || ByTitle(b, a) {
      if ObjectStores.StrLess(b.title, a.title) && ObjectStores.StrLess(a.title, b.title) {
        ObjectStores.StrLessTransitive(a.title, b.title, a.title);
        ObjectStores.StrLessIrreflexive(a.title);
      }
    }
    forall a: Bookmark, b: Bookmark, c: Bookmark | ByTitle(a, b) && ByTitle(b, c) ensures ByTitle(a, c) {
      if ObjectStores.StrLess(c.title, a.title) {
        if a.title == b.title {
        } else {
          ObjectStores.StrLessTotal(a.title, b.title);
          ObjectStores.StrLessTransitive(c.title, a.title, b.title);
        }
      }
    }
  }

  lemma NumberedUnnumbered(bs: seq<Bookmark>)
    ensures Map(Numbered(bs), BookmarkUnnumbered) == Map(bs, BookmarkUnnumbered)
  {
    var r := Numbered(bs);
    forall i | 0 <= i < |bs| ensures BookmarkUnnumbered(r[i]) == BookmarkUnnumbered(bs[i]) {
      assert r[i].(order := bs[i].order) == bs[i];
    }
  }

  /**
   * `sortFolderBookmarks(folderId)`: first the other bookmarks in their old
   * relative order, then the folder's bookmarks sorted by title and numbered
   * 0, 1, 2, …; the same bookmarks as before, up to their numbering.
   */
  lemma SortedFolderBookmarksEffect(p: Page, folderId: string)
    ensures var r := SortedFolderBookmarks(p, folderId);
      var others := Filter(p.bookmarks, IsNotIn(folderId));
      r.folders == p.folders && r.currentFolderId == p.currentFolderId && r.settings == p.settings &&
      r.bookmarks[..|others|] == others &&
      (forall i :: |others| <= i < |r.bookmarks| ==>
         r.bookmarks[i].folderId == Some(folderId) && r.bookmarks[i].order == i - |others|) &&
      Sorted(r.bookmarks[|others|..], ByTitle)
  {
    var bs := p.bookmarks;
    var others := Filter(bs, IsNotIn(folderId));
    var inFolder := Filter(bs, IsIn(folderId));
    var tail := Numbered(Sort(inFolder, ByTitle));
    var r := others + tail;
    assert SortedFolderBookmarks(p, folderId).bookmarks == r;
    assert r[..|others|] == others && r[|others|..] == tail;
    SortedTailNumbered(bs, folderId);
    forall i | |others| <= i < |r| ensures r[i].folderId == Some(folderId) && r[i].order == i - |others| {
      assert r[i] == tail[i - |others|];
    }
  }

  /** The folder's part after `sortFolderBookmarks`: its bookmarks, sorted by title, numbered by position. */
  lemma SortedTailNumbered(bs: seq<Bookmark>, folderId: string)
    ensures var tail := Numbered(Sort(Filter(bs, IsIn(folderId)), ByTitle));
      Sorted(tail, ByTitle) && forall k :: 0 <= k < |tail| ==> tail[k].folderId == Some(folderId) && tail[k].order == k
  {
    var inFolder := Filter(bs, IsIn(folderId));
    var sorted := Sort(inFolder, ByTitle);
    var tail := Numbered(sorted);
    FilterSpec(bs, IsIn(folderId));
    forall k | 0 <= k < |tail| ensures tail[k].folderId == Some(folderId) {
      assert tail[k].(order := sorted[k].order) == sorted[k];
      assert sorted[k] in multiset(inFolder);
      assert IsIn(folderId)(sorted[k]);
    }
    ByTitleTotal();
    SortSorted(inFolder, ByTitle);
    forall a, b | 0 <= a < b < |tail| ensures ByTitle(tail[a], tail[b]) {
      assert tail[a].(order := sorted[a].order) == sorted[a];
      assert tail[b].(order := sorted[b].order) == sorted[b];
    }
  }

  /** `sortFolderBookmarks` keeps the same bookmarks, up to their numbering. */
  lemma SortedKeepsBookmarks(p: Page, folderId: string)
    ensures |SortedFolderBookmarks(p, folderId).bookmarks| == |p.bookmarks|
    ensures multiset(Map(SortedFolderBookmarks(p, folderId).bookmarks, BookmarkUnnumbered)) ==
            multiset(Map(p.bookmarks, BookmarkUnnumbered))
  {
    var bs := p.bookmarks;
    var others := Filter(bs, IsNotIn(folderId));
    var inFolder := Filter(bs, IsIn(folderId));
    var sorted := Sort(inFolder, ByTitle);
    FilterSplit(bs, IsIn(folderId), IsNotIn(folderId));
    assert multiset(others + inFolder) == multiset(bs);
    NumberedUnnumbered(sorted);
    MapPermutation(sorted, inFolder, BookmarkUnnumbered);
    MapAppend(others, Numbered(sorted), BookmarkUnnumbered);
    MapAppend(others, inFolder, BookmarkUnnumbered);
    MapPermutation(others + inFolder, bs, BookmarkUnnumbered);
  }

  // ---------------------------------------------------------------------
  // applyFolderBackground
  // ---------------------------------------------------------------------

  /** With no current folder, the built-in background shows. */
  lemma NoFolderBuiltinBackdrop(fs: seq<Folder>, current: string, db: Option<Storage.Database>)
    requires current !in FolderIds(fs)
    ensures PageBackdrop(fs, current, db) == BuiltinBackdrop
  {
    forall j | 0 <= j < |fs| ensures !HasId(current)(fs[j]) {
      assert fs[j] in fs;
    }
  }

  /** The default folder shows its own background when it has one, else the built-in one. */
  lemma DefaultFolderOwnBackdrop(fs: seq<Folder>, c: nat, db: Option<Storage.Database>)
    requires IdsUnique(fs) && c < |fs| && fs[c].isDefault
    ensures PageBackdrop(fs, fs[c].id, db) == if HasBackground(fs[c]) then FolderBackdrop(fs[c], db) else BuiltinBackdrop
  {
    FindById(fs, c);
  }

  /**
   * A folder with an image id shows that image (or the built-in background
   * when it cannot be read), whatever its URL and whether or not it is the
   * default folder: the image takes precedence.
   */
  lemma ImageIdFirst(fs: seq<Folder>, c: nat, db: Option<Storage.Database>)
    requires IdsUnique(fs) && c < |fs| && Present(fs[c].backgroundImageId)
    ensures PageBackdrop(fs, fs[c].id, db) ==
      match Storage.ImageUrl(db, fs[c].backgroundImageId.value)
      case Some(image) => ImageBackdrop(image)
      case None => BuiltinBackdrop
  {
    FindById(fs, c);
  }

  /**
   * `applyFolderBackground()` looks only at the current folder and the
   * default folder it finds: two folder lists that find the same positions
   * and agree there show the same background.
   */
  lemma PageBackdropAgrees(fs: seq<Folder>, gs: seq<Folder>, current: string, db: Option<Storage.Database>)
    requires FindIndex(fs, HasId(current)) == FindIndex(gs, HasId(current))
    requires FindIndex(fs, IsDefault) == FindIndex(gs, IsDefault)
    requires var k := FindIndex(fs, HasId(current));
      k >= 0 ==> fs[k].isDefault == gs[k].isDefault && fs[k].backgroundImageId == gs[k].backgroundImageId &&
                 (fs[k].isDefault ==> fs[k] == gs[k])
    requires var m := FindIndex(fs, IsDefault); m >= 0 ==> fs[m] == gs[m]
    ensures PageBackdrop(fs, current, db) == PageBackdrop(gs, current, db)
  {
    var k := FindIndex(fs, HasId(current));
    if k >= 0 && !fs[k].isDefault && Present(fs[k].backgroundImageId) {
      assert FolderBackdrop(fs[k], db) == FolderBackdrop(gs[k], db);
    }
  }

  /** A non-default folder's own URL is never shown. */
  lemma NonDefaultUrlIgnored(fs: seq<Folder>, c: nat, url: Value, db: Option<Storage.Database>)
    requires c < |fs| && !fs[c].isDefault
    ensures PageBackdrop(fs[c := fs[c].(backgroundUrl := url)], fs[c].id, db) == PageBackdrop(fs, fs[c].id, db)
  {
    var gs := fs[c := fs[c].(backgroundUrl := url)];
    var id := fs[c].id;
    FindIndexAgrees(fs, gs, HasId(id));
    FindIndexAgrees(fs, gs, IsDefault);
    var k := FindIndex(fs, HasId(id));
    var m := FindIndex(fs, IsDefault);
    assert k >= 0 by {
      assert HasId(id)(fs[c]);
    }
    assert m != c;
    if k != c {
      assert gs[k] == fs[k];
    }
    if m >= 0 {
      assert gs[m] == fs[m];
    }
    PageBackdropAgrees(fs, gs, id, db);
  }

  /**
   * A non-default folder without an image looks like the default folder;
   * with no default folder it shows the built-in background.
   */
  lemma InheritsDefaultBackdrop(fs: seq<Folder>, c: nat, db: Option<Storage.Database>)
    requires IdsUnique(fs) && c < |fs| && !fs[c].isDefault && !Present(fs[c].backgroundImageId)
    ensures var m := FindIndex(fs, IsDefault);
      m >= 0 ==> PageBackdrop(fs, fs[c].id, db) == PageBackdrop(fs, fs[m].id, db)
    ensures (forall j :: 0 <= j < |fs| ==> !fs[j].isDefault) ==> PageBackdrop(fs, fs[c].id, db) == BuiltinBackdrop
  {
    FindById(fs, c);
    var m := FindIndex(fs, IsDefault);
    if m >= 0 {
      FindById(fs, m);
    }
  }

  // ---------------------------------------------------------------------
  // saveFolderSettings
  // ---------------------------------------------------------------------

  /** A refused `saveFolderSettings()` changes neither the folders nor storage. */
  lemma SavedFolderSettingsRefused(fs: seq<Folder>, s: Storage.Session, editingId: Option<string>, nameInput: string,
                                   upload: Option<Value>, now: nat)
    ensures var r := SavedFolderSettings(fs, s, editingId, nameInput, upload, now);
      r.outcome == NoFolder || r.outcome == BlankName || r.outcome == NameInUse ==> r.folders == fs && r.session == s
  {
  }

  /**
   * `saveFolderSettings()` changes only the edited folder and no id; a
   * failed image save keeps the rename but every folder's image.
   */
  lemma SavedFolderSettingsEffect(fs: seq<Folder>, s: Storage.Session, editingId: Option<string>, nameInput: string,
                                  upload: Option<Value>, now: nat)
    ensures var r := SavedFolderSettings(fs, s, editingId, nameInput, upload, now);
      |r.folders| == |fs| &&
      (forall i :: 0 <= i < |fs| ==> r.folders[i].id == fs[i].id) &&
      (r.outcome == SavedWithoutImage ==> forall i :: 0 <= i < |fs| ==> r.folders[i].backgroundImageId == fs[i].backgroundImageId) &&
      (forall i :: 0 <= i < |fs| && (editingId.None? || fs[i].id != editingId.value) ==> r.folders[i] == fs[i])
  {
    var rn := Renamed(fs, editingId, nameInput);
    var r := SavedFolderSettings(fs, s, editingId, nameInput, upload, now);
    if rn.outcome == Saved && upload.Some? {
      var f := rn.folders[rn.index];
      var w := Storage.AfterSaveImage(s, UploadedImageId(f.id, now), upload.value);
      if w.outcome == Storage.Done {
        assert r.folders == rn.folders[rn.index := f.(backgroundImageId := Some(UploadedImageId(f.id, now)))];
      } else {
        assert r.folders == rn.folders && r.outcome == SavedWithoutImage;
      }
    } else {
      assert r.folders == rn.folders && r.outcome == rn.outcome;
    }
  }

  /**
   * Saving a new image for a folder, when it succeeds, makes that folder show
   * it: the id is recorded and the image reads back even after the old image
   * is deleted.
   */
  lemma SavedBackgroundShows(fs: seq<Folder>, s: Storage.Session, c: nat, nameInput: string, blob: Value, now: nat)
    requires IdsUnique(fs) && c < |fs| && blob.Blob?
    requires SavedFolderSettings(fs, s, Some(fs[c].id), nameInput, Some(blob), now).outcome == Saved
    requires fs[c].backgroundImageId != Some(UploadedImageId(fs[c].id, now))
    ensures var r := SavedFolderSettings(fs, s, Some(fs[c].id), nameInput, Some(blob), now);
      r.folders[c].backgroundImageId == Some(UploadedImageId(fs[c].id, now)) &&
      PageBackdrop(r.folders, fs[c].id, r.session.db) == ImageBackdrop(blob)
  {
    FindById(fs, c);
    var rn := Renamed(fs, Some(fs[c].id), nameInput);
    assert rn.index == c;
    var f := rn.folders[c];
    var imageId := UploadedImageId(f.id, now);
    var w := Storage.AfterSaveImage(s, imageId, blob);
    Storage.SavedImageReadsBack(s, imageId, blob);
    if Present(f.backgroundImageId) {
      Storage.DeletingKeepsOtherImages(w.session, f.backgroundImageId.value, imageId);
    }
    var r := SavedFolderSettings(fs, s, Some(fs[c].id), nameInput, Some(blob), now);
    assert r.folders == rn.folders[c := f.(backgroundImageId := Some(imageId))];
    assert IdsUnique(r.folders) by {
      forall i, j | 0 <= i < j < |r.folders| ensures r.folders[i].id != r.folders[j].id {
        assert r.folders[i].id == fs[i].id && r.folders[j].id == fs[j].id;
      }
    }
    ImageIdFirst(r.folders, c, r.session.db);
  }
}
