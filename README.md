# CodeSplash Homepage: storage, bookmarks and folders in Dafny

This project models the data-handling core of the CodeSplash Homepage browser extension and proves what that code promises. The extension is a new-tab page that shows bookmarks grouped into folder tabs, with per-folder backgrounds.

Four pieces are modelled:

- **`StorageManager`** (storage-manager.js) is a read-through, write-first cache over the extension's IndexedDB database. It also carries the one-time migration of the legacy `chrome.storage.local` data.
  - The database is a map from store names to key-ordered object stores (`ObjectStores`). A record's key is either its `id` (keyPath stores) or an explicit key.
  - Each operation is a pure function from one `Session` to the next. A session holds the database, the cache and the `set` calls made so far.
  - A `StorageManager` class changes its fields step by step and promises to agree with those functions.
- **The `Homepage` collection operations** (newtab.js) edit the page's `bookmarks`, `folders` and `currentFolderId`:
  - load and the first-run folder migration;
  - reordering folder tabs and bookmarks;
  - moving, adding and deleting bookmarks;
  - creating, renaming and deleting folders;
  - sorting a folder;
  - choosing which background shows.

  Each is a pure function from one `Page` to the next. A method of the `Homepage` class makes the same change step by step, and `NewTabProperties` proves what each change does.
- **The popup's "add current tab" button** (popup.js) appends the tab to the bookmark list in `chrome.storage.local`, unless its URL is already stored.
- **The background script's context-menu handler** (background.js) appends the tab to the `main` folder with no duplicate check.

Values stored by the browser are modelled as a JSON-like `Json.Value`, with JavaScript truthiness, `||` and property reads. `chrome.storage.local` is the `ChromeStorage.LocalArea` class.

Clock readings, the answers to `confirm` dialogs, the host names produced by `new URL(...)` and the result of decoding a base64 image are all parameters.

## Model

| member | source | states |
|---|---|---|
| ChromeStorage.LocalArea.Get | storage-manager.js:212 | `get([names])` returns exactly the named items that are stored, with their values |
| ChromeStorage.LocalArea.GetAll | storage-manager.js:212 | `get(null)` returns every stored item |
| ChromeStorage.LocalArea.Clear | storage-manager.js:265 | `clear()` empties the area |
| ChromeStorage.LocalArea.Set | storage-manager.js:266 | `set(update)` writes every item of the update and keeps the others |
| ObjectStores.Upsert | storage-manager.js:149 | `put(value, key)` on a key-ordered store gives a key-ordered store whose keys are the old keys plus `key` |
| ObjectStores.UpsertLookup | storage-manager.js:149 | after `put(v, k)` the key reads back `v` and every other key reads what it read before |
| ObjectStores.UpsertValues | storage-manager.js:149 | putting a record under a new key adds exactly that record to `getAll()` |
| ObjectStores.Remove | storage-manager.js:193 | `delete(key)` gives a key-ordered store whose keys are the old keys minus `key` |
| ObjectStores.RemoveLookup | storage-manager.js:193 | after `delete(k)` the key reads nothing and every other key reads as before |
| ObjectStores.Lookup | storage-manager.js:111 | `get(key)` finds a value exactly when the key is stored |
| ObjectStores.AddEachSucceeds | storage-manager.js:144-147 | adding records one by one succeeds exactly when every record has a key, the keys are distinct and none was stored already |
| ObjectStores.AddEachAddsItems | storage-manager.js:144-147 | when every add succeeds, the store holds its old records plus exactly the added ones |
| ObjectStores.AddEachStopsAtMissingKey | storage-manager.js:145-147 | a record without a key stops the adds there: exactly the records before it are stored |
| ObjectStores.StoredUnderOwnKey | storage-manager.js:111 | each record of a store is found by `get` under the key it is stored under |
| ObjectStores.UpsertKeepsInlineKeyed | storage-manager.js:60-64 | putting a record under the key its own `id` gives keeps every record of a keyPath store under its own `id` |
| ObjectStores.AddEachKeepsInlineKeyed | storage-manager.js:144-147 | whatever the `add` loop leaves in a keyPath store, all records or those before a record without a key, every record is under its own `id` |
| ObjectStores.RemoveKeepsInlineKeyed | storage-manager.js:193 | `delete` keeps the remaining records of a keyPath store under their own `id` |
| ObjectStores.FoundById | storage-manager.js:60-64 | in a keyPath store whose records sit under their own `id`, each record has a valid `id` and `get` finds it under that `id` |
| ObjectStores.KeyLessTotal | storage-manager.js:113 | any two different keys are ordered one way or the other in the key order `getAll` follows (numbers before strings, strings by code point, which is code-unit order for strings without supplementary characters) |
| Storage.Upgrade | storage-manager.js:55-77 | the upgrade step creates each missing store of the five empty; `bookmarks` and `folders` are keyed by `id`; existing stores are kept |
| Storage.CacheKeyInjective | storage-manager.js:98 | two calls share a cache entry only when they name the same store and the same key, or both name none |
| Storage.GetNeverWrites | storage-manager.js:96-122 | `get` never changes the database and makes no `set` call |
| Storage.GetTwice | storage-manager.js:101-118 | a second `get` of the same store and key returns the same value and changes nothing |
| Storage.GetFailureDefault | storage-manager.js:119-122 | a failed read returns `null` for a keyed read and `[]` for a collection, and changes nothing |
| Storage.AfterSet | storage-manager.js:133-136 | `set` replaces the cache entry and records the call before any database work |
| Storage.ReadYourWrites | storage-manager.js:133-157 | after `set`, `get` of the same store and key returns the value set, even when the database write threw |
| Storage.SetIsLocal | storage-manager.js:139-152 | `set` touches no store but its own |
| Storage.SetArrayReplacesCollection | storage-manager.js:142-147 | an array `set` on a keyPath store succeeds exactly when every record has an `id` and no two share one; the store then holds exactly the array's records |
| Storage.SetArrayStopsAtMissingId | storage-manager.js:145-156 | a record without `id` makes `set` throw DataError after the cache was updated; the store keeps exactly the records before it |
| Storage.SetKeyedUpserts | storage-manager.js:148-149 | a non-array value with a truthy key is put under that key; no other key changes |
| Storage.UpgradeKeepsInlineKeyed | storage-manager.js:55-77 | the upgrade step keeps every keyPath store's records under their own `id` |
| Storage.PutKeepsInlineKeyed | storage-manager.js:148-151 | `put`, with or without an explicit key, keeps every keyPath store's records under their own `id` |
| Storage.ReplaceAllKeepsInlineKeyed | storage-manager.js:144-147 | clearing and refilling a store keeps every keyPath store's records under their own `id`, whether the adds succeed, stop at a record without a key or roll back |
| Storage.SetKeepsInlineKeyed | storage-manager.js:131-158 | after `set`, whether it succeeds or throws, every record of `bookmarks` or `folders` is under its own `id` |
| Storage.RecordFoundById | storage-manager.js:60-64 | in a database that keeps that invariant, every record of `bookmarks` or `folders` is found by `get` under its own `id` |
| Storage.AddAll | storage-manager.js:144-147 | the `add` loop over the cleared store computes `AddEach`: it stops at the first record without a key or with a repeated key |
| Storage.AfterSaveImage | storage-manager.js:163-171 | `saveImage` leaves the cache alone and records the call |
| Storage.SavedImageReadsBack | storage-manager.js:163-183 | a successfully saved blob reads back through `getImage` |
| Storage.SavedNonBlobReadsNone | storage-manager.js:173-187 | a successfully saved value that is not a blob reads back through `getImage` as `null`: a falsy value fails the `if (blob)` test, and `createObjectURL` throws on any other, which the catch turns into `null` |
| Storage.DeletedImageIsMissing | storage-manager.js:190-197 | after `deleteImage` the id reads as missing |
| Storage.DeletingKeepsOtherImages | storage-manager.js:190-197 | `deleteImage` leaves every other image readable as before |
| Storage.ImagesKeepInlineKeyed | storage-manager.js:163-197 | `saveImage` and `deleteImage` keep every keyPath store's records under their own `id` |
| Storage.MigratedSettings | storage-manager.js:250-255 | the migrated settings are the spread copy of the legacy settings without `backgroundFile`, `backgroundFilename` and `backgroundUrl` |
| Storage.MigratedStringSettings | storage-manager.js:250-255 | legacy settings stored as a string migrate as its index properties `"0"`, `"1"`, …, each holding one character |
| Storage.ConvertedFolderShape | storage-manager.js:235-239 | a converted folder gets `backgroundImageId` `bg-<id>`, loses the two inline fields and keeps everything else |
| Storage.ConvertedFolderImageStored | storage-manager.js:234-236 | a converted folder's image is stored under `bg-<id>` in `images` |
| Storage.ConvertFolderEffect | storage-manager.js:232-243 | one folder is kept or converted; a conversion failure keeps it; no `set` call and no cache change |
| Storage.ConvertFolders | storage-manager.js:230-244 | the folder loop keeps the list's length and makes no `set` call |
| Storage.ConvertFolderFails | storage-manager.js:232 | one turn of the loop throws exactly at a null or undefined element |
| Storage.ConvertFoldersFailsOnNullish | storage-manager.js:230-244 | the loop throws exactly when some element is null or undefined |
| Storage.ConvertFoldersKeepsOrConverts | storage-manager.js:230-244 | when the loop does not throw, each folder is kept or converted, and it is converted only when it has a decodable `backgroundFile` |
| Storage.MigrationSkippedWhenComplete | storage-manager.js:205-208 | with the completion flag set, the migration writes nothing and keeps the legacy data |
| Storage.FinishMarksComplete | storage-manager.js:261 | the finishing stage leaves the completion record in the cache |
| Storage.MigrateDataMarksComplete | storage-manager.js:222-261 | a migration of non-empty data that returns normally caches the completion record |
| Storage.MigrationCompletes | storage-manager.js:289-297 | a migration that returns normally leaves the completion flag readable through the cache |
| Storage.SecondMigrationIsNoOp | storage-manager.js:205-208 | running the migration again in the same session changes nothing |
| Storage.EmptyLegacyOnlyCompletes | storage-manager.js:214-217 | with no legacy data the only write is `{completed: true, version: '2.0'}` under `migration` |
| Storage.FailedMigrationKeepsLegacy | storage-manager.js:269-272 | a migration that throws leaves `chrome.storage.local` as it was |
| Storage.FailedStagesKeepLegacy | storage-manager.js:222-272 | a throw in any stage after the backup leaves the legacy data as it was |
| Storage.FinishTargets | storage-manager.js:250-266 | the finishing stage writes the settings (when present), then the completion record, then leaves only the marker in the legacy area |
| Storage.MigrateFoldersTargets | storage-manager.js:228-247 | the folder stage writes `folders` only when the legacy list is non-empty |
| Storage.MigrateDataTargets | storage-manager.js:222-266 | after the backup, the writes are bookmarks, folders and settings (each only when present), then the completion record |
| Storage.MigrationWriteOrder | storage-manager.js:202-273 | a completed migration writes backup, bookmarks, folders, settings and completion in that order; the legacy area ends holding only `migrationBackup` and `migrationDate` |
| Storage.UnkeyedLegacyBookmarkStopsMigration | storage-manager.js:224 | a legacy bookmark without `id` makes the migration throw DataError after storing the bookmarks before it; the flag stays unset and the legacy data stays |
| Storage.NotMarkedAfterUnrelatedSets | storage-manager.js:220-224 | the backup and bookmarks writes do not set the completion flag the gate reads |
| Storage.StorageManager.constructor | storage-manager.js:6-11 | no database, an empty cache |
| Storage.StorageManager.Initialize | storage-manager.js:17-44 | opening fails with nothing changed, or the upgraded database is opened and the migration runs |
| Storage.StorageManager.Get | storage-manager.js:96-123 | agrees with `AfterGet`: a cache hit, or a read that is cached, or the failure default |
| Storage.StorageManager.Set | storage-manager.js:131-158 | agrees with `AfterSet`: first the cache entry and the recorded call; then an array clears and refills the store through `AddAll`, and any other value is put |
| Storage.StorageManager.SaveImage | storage-manager.js:163-171 | agrees with `AfterSaveImage`: a put under the id; failures are rethrown |
| Storage.StorageManager.GetImage | storage-manager.js:173-188 | agrees with `ImageUrl`: the stored value when it is a blob, otherwise none (nothing stored, a falsy value, a value `createObjectURL` rejects, or a failed read) |
| Storage.StorageManager.DeleteImage | storage-manager.js:190-197 | agrees with `AfterDeleteImage`: the id is removed; failures are swallowed |
| Storage.StorageManager.ClearCache | storage-manager.js:339-341 | the cache is emptied and the database is untouched |
| Storage.StorageManager.CreateMigrationBackup | storage-manager.js:275-287 | the backup record is set under `pre-migration-backup`; a failure is swallowed |
| Storage.StorageManager.SetMigrationComplete | storage-manager.js:289-297 | the completion record is set under `migration`; a failure is rethrown |
| Storage.StorageManager.ConvertOneFolder | storage-manager.js:232-243 | agrees with `ConvertFolder` for one folder |
| Storage.StorageManager.ConvertFolderList | storage-manager.js:230-244 | agrees with `ConvertFolders` for the whole list |
| Storage.StorageManager.MigrateFolderStage | storage-manager.js:228-247 | agrees with `MigrateFolders` |
| Storage.StorageManager.MigrateLegacyData | storage-manager.js:222-266 | agrees with `MigrateData` |
| Storage.StorageManager.MigrateFromChromeStorage | storage-manager.js:202-273 | agrees with `AfterMigration`, for both the database and the legacy area |
| Json.NatToString | newtab.js:706 | `Date.now().toString()` is a non-empty string of digits |
| Json.NatToStringInjective | newtab.js:706 | distinct clock readings give distinct ids |
| Json.NatToStringRoundTrip | newtab.js:706 | reading the decimal digits back gives the clock reading |
| Json.IndexedKeys | storage-manager.js:251 | the properties `{...array}` copies are exactly the decimal indices below the length |
| Json.IndexedValues | storage-manager.js:251 | each index property `{...array}` copies holds the element at that index |
| Json.SpreadArray | newtab.js:72 | spreading an array gives exactly its indices as properties, holding its elements |
| Json.SpreadString | newtab.js:72 | spreading a string gives exactly its indices as properties, each holding one character |
| Favicons.FaviconUrl | newtab.js:725 | the favicon URL is exactly as long as the service prefix, the hostname and the size suffix together |
| Favicons.FaviconUrlHost | newtab.js:725 | the favicon URL starts with the service prefix, continues with the hostname and ends with `&sz=64` |
| Favicons.FaviconUrlInjective | newtab.js:725 | distinct hosts get distinct icon URLs |
| Sequences.SpliceOut | newtab.js:733 | `splice(index, 1)` removes the element at the index, counting a negative index from the end, and nothing when the index is out of range |
| Sequences.Moved | newtab.js:668-669 | the element taken out at `from` ends at `to`, and the others keep their relative order |
| Sequences.FindIndex | newtab.js:1214 | `find`/`findIndex` give the first position whose element satisfies the predicate, or -1 |
| Sequences.FilterSpec | newtab.js:1275 | an element is in the result of `filter` exactly when it is in the input and satisfies the predicate; no element is added or repeated |
| Sequences.FilterSplit | newtab.js:1293-1299 | splitting by a predicate and its negation loses and adds nothing |
| Sequences.Sort | newtab.js:1302 | the comparator sort returns a rearrangement of the same elements |
| Sequences.SortSorted | newtab.js:1302 | the sort result is ordered by the comparator |
| Sequences.SortedUnique | newtab.js:533 | with a comparator that ties no two different elements, a multiset has only one sorted arrangement |
| NewTab.TrimStartSpec | newtab.js:681-682 | trimming the start leaves a suffix of the input that is empty exactly for blank input and otherwise starts with a non-space |
| NewTab.TrimEndSpec | newtab.js:681-682 | trimming the end leaves a prefix of the input that is empty exactly for blank input and otherwise ends with a non-space |
| NewTab.TrimSpec | newtab.js:681-682 | `trim()` is empty exactly for blank input, and otherwise starts and ends with a non-space |
| NewTab.Loaded | newtab.js:67-77 | `loadData` takes the stored lists (or `[]` for a falsy read) and spreads the stored settings over the current ones |
| NewTab.AssignedToMain | newtab.js:99-107 | a missing folder becomes `main`, a missing id becomes `migrated-<time>-<index>`; present values and other fields are kept |
| NewTab.AllAssignedToMain | newtab.js:99-107 | every bookmark is migrated in place, by its index |
| NewTab.NumberedFolders | newtab.js:512-514 | each folder's `order` becomes its index and nothing else changes |
| NewTab.FolderView | newtab.js:531-533 | the view holds exactly the current folder's bookmarks |
| NewTab.FolderViewDistinct | newtab.js:531-533 | each bookmark appears in the view once |
| NewTab.FolderViewSorted | newtab.js:533 | the view is in ascending `order || 0` |
| NewTab.PositionIn | newtab.js:662-663 | the position of a bookmark in the view, or -1 exactly when it is not there |
| NewTab.Renumbered | newtab.js:672-674 | the view's k-th bookmark gets `order` k; only `order`s of the view's bookmarks change |
| NewTab.Renamed | newtab.js:1214-1231 | the rename changes only the edited folder's name, to the trimmed input, and only when the checks pass |
| NewTab.AllRehomed | newtab.js:1268-1272 | each bookmark of the deleted folder moves to `main`, and the others are kept |
| NewTab.Numbered | newtab.js:1305-1307 | each bookmark's `order` becomes its index and nothing else changes |
| NewTab.SplitByFolder | newtab.js:1290-1299 | the loop separates the folder's bookmarks from the others, each in the original order |
| NewTab.NumberInPlace | newtab.js:1305-1307 | the loop computes `Numbered` |
| NewTab.RenumberInPlace | newtab.js:672-674 | the loop computes `Renumbered` |
| NewTab.ReorderInView | newtab.js:653-674 | the view, the two `splice` calls and the renumbering compute `ReorderedInView` |
| NewTab.ReplaceBackground | newtab.js:1234-1251 | the file is saved under `bg-<id>-<time>`; only after that succeeds is the old image deleted and the new id recorded; a failure keeps the folder |
| NewTab.SaveFolder | newtab.js:1213-1252 | the rename then the image swap, agreeing with `SavedFolderSettings` |
| NewTab.ChooseIcon | newtab.js:688-703 | the icon is custom exactly when a file was chosen and read: then its data URL and file name, otherwise the favicon and no file name |
| NewTab.BuildBookmark | newtab.js:705-714 | builds the record `NewBookmark` describes: the clock reading as id, the chosen icon, the current folder and the old length as `order` |
| NewTab.Homepage.constructor | newtab.js:2-16 | no bookmarks, no folders, current folder `main`, the default settings |
| NewTab.Homepage.LoadData | newtab.js:67-77 | agrees with `Loaded` |
| NewTab.Homepage.MigrateToFolders | newtab.js:79-130 | agrees with `MigratedToFolders`; the loop assigns each bookmark in place |
| NewTab.Homepage.ReorderFolderTabs | newtab.js:502-519 | agrees with `ReorderedFolderTabs` |
| NewTab.Homepage.MoveBookmarkToFolder | newtab.js:640-647 | agrees with `MovedBookmarkToFolder` |
| NewTab.Homepage.MoveBookmark | newtab.js:649-678 | agrees with `MovedBookmark` |
| NewTab.Homepage.AddBookmark | newtab.js:680-720 | agrees with `AddedBookmark`; it reports adding exactly when one bookmark was appended |
| NewTab.Homepage.DeleteBookmark | newtab.js:731-737 | agrees with `DeletedBookmark` |
| NewTab.Homepage.CreateFolder | newtab.js:1118-1144 | agrees with `CreatedFolder`; it creates exactly when the trimmed name is non-empty and not taken in any letter case |
| NewTab.Homepage.SaveFolderSettings | newtab.js:1213-1260 | agrees with `SavedFolderSettings` for folders and storage; bookmarks, current folder and settings are unchanged |
| NewTab.Homepage.DeleteFolder | newtab.js:1262-1286 | agrees with `DeletedFolder` |
| NewTab.Homepage.SortFolderBookmarks | newtab.js:1288-1314 | agrees with `SortedFolderBookmarks` |
| NewTabProperties.RenumberedViewIs | newtab.js:672-674 | numbering an arrangement of exactly the folder's bookmarks makes the page show them in that arrangement |
| NewTabProperties.MovedBookmarkChangesOnlyOrders | newtab.js:649-674 | `moveBookmark` changes only `order`s of the current folder's bookmarks, and nothing when `from == to` or either bookmark is not in the view |
| NewTabProperties.ReorderedInViewChangesOnlyOrders | newtab.js:666-674 | the two `splice` calls and the renumbering change only `order`s, and only of the current folder's bookmarks |
| NewTabProperties.ReorderedInViewShows | newtab.js:666-674 | after the move the folder shows the view with the dragged bookmark taken out and put in at the target's place |
| NewTabProperties.ReorderedInViewNumbered | newtab.js:672-674 | after the move the view's bookmarks are numbered 0, 1, 2, … in view order |
| NewTabProperties.MovedBookmarkShowsMove | newtab.js:649-674 | after the move the folder shows its view with the dragged bookmark taken out and put in at the target's place, numbered 0, 1, 2, … |
| NewTabProperties.MigrationEffect | newtab.js:79-130 | a page with folders is unchanged; otherwise exactly one folder is created: `main`, named `Main`, default, numbered 0, not inheriting, with `backgroundFile`, `backgroundFilename` and `backgroundUrl` taken from the settings (or `null`, `null`, `''`); every bookmark gets a folder and an id, keeping the ones it had |
| NewTabProperties.MigratedIdInjective | newtab.js:105 | `migrated-<time>-<index>` determines both the time and the index |
| NewTabProperties.MigratedIdsDistinct | newtab.js:105 | the ids migration makes up are pairwise distinct, whatever the clock reads |
| NewTabProperties.ReorderedFolderTabsEffect | newtab.js:502-514 | the dragged folder ends at `to`, the tabs are the same folders rearranged, and each `order` is its index; `from == to` changes nothing |
| NewTabProperties.MovedBookmarkToFolderEffect | newtab.js:640-647 | only that bookmark's `folderId` changes; an out-of-range index changes nothing |
| NewTabProperties.AddedBookmarkEffect | newtab.js:680-716 | a blank title or URL changes nothing; otherwise one trimmed bookmark is appended in the current folder, with `order` the old length |
| NewTabProperties.DeletedBookmarkEffect | newtab.js:731-737 | once confirmed, exactly the bookmark at the index is removed (a negative index counts from the end); unconfirmed, nothing changes |
| NewTabProperties.CreatedFolderEffect | newtab.js:1118-1140 | a blank or taken name changes nothing; otherwise one non-default, inheriting folder is appended with `order` the old length |
| NewTabProperties.CreatedFolderKeepsNamesUnique | newtab.js:1124 | creating a folder keeps names unique up to letter case |
| NewTabProperties.RenameKeepsNamesUnique | newtab.js:1226-1231 | a rename keeps names unique up to letter case and never changes an id |
| NewTabProperties.RenameAllowsOwnName | newtab.js:1226 | a folder may keep its own name, in any letter case |
| NewTabProperties.RenameRefusesOtherName | newtab.js:1226-1229 | a rename to another folder's name, in any letter case, is refused and changes nothing |
| NewTabProperties.DeletedFolderRefused | newtab.js:1263-1266 | a missing folder, the default folder or an unconfirmed deletion changes nothing |
| NewTabProperties.DeletedFolderEffect | newtab.js:1266-1280 | exactly the folder is removed, exactly its bookmarks move to `main`, and the current folder becomes `main` if it was deleted |
| NewTabProperties.DeletedFolderKeepsHomes | newtab.js:1262-1280 | deleting a folder other than `main` keeps every bookmark, and the current folder, in an existing folder |
| NewTabProperties.ByTitleTotal | newtab.js:1302 | the title comparator is a total preorder |
| NewTabProperties.SortedFolderBookmarksEffect | newtab.js:1288-1310 | the other bookmarks come first in their old order, then the folder's bookmarks sorted by title and numbered 0, 1, 2, … |
| NewTabProperties.SortedKeepsBookmarks | newtab.js:1288-1310 | sorting keeps the same bookmarks, up to their numbering |
| NewTabProperties.NoFolderBuiltinBackdrop | newtab.js:1019-1021 | with no current folder the built-in background shows |
| NewTabProperties.DefaultFolderOwnBackdrop | newtab.js:999-1005 | the default folder shows its own background when it has one, else the built-in one |
| NewTabProperties.ImageIdFirst | newtab.js:1026-1035 | a folder with an image id shows that image, or the built-in background when it cannot be read, whatever its URL |
| NewTabProperties.NonDefaultUrlIgnored | newtab.js:1006-1017 | a non-default folder's own URL is never shown |
| NewTabProperties.InheritsDefaultBackdrop | newtab.js:1010-1016 | a non-default folder without an image looks like the default folder, or shows the built-in background when there is none |
| NewTabProperties.SavedFolderSettingsRefused | newtab.js:1214-1229 | a refused save changes neither the folders nor storage |
| NewTabProperties.SavedFolderSettingsEffect | newtab.js:1231-1251 | only the edited folder changes, and no id; a failed image save keeps the rename and every folder's image |
| NewTabProperties.SavedBackgroundShows | newtab.js:1234-1258 | a successful save of an uploaded blob makes the folder show the new image, even after the old one is deleted |
| Popup.FindByUrl | popup.js:64 | `find` succeeds exactly when some element has the tab's URL with no null or undefined before it, and reports not found exactly when no element is nullish or matches |
| Popup.NewRecordFields | popup.js:75-83 | the new record carries the tab's title and URL, the favicon-service icon, `customIcon: false`, `iconFilename: null`, no `folderId` and the given `order` |
| Popup.AddBookmarkFromTab | popup.js:57-100 | agrees with `AddedFromTab`: the area gains exactly what that run writes |
| Popup.DuplicateRefused | popup.js:63-68 | a stored bookmark with the tab's URL makes the run refuse, with nothing written |
| Popup.AddedAppendsOne | popup.js:75-92 | it writes only when it adds; it adds exactly when the list is an array with no match and the URL parses; it then appends one record numbered with the old length, keeps the old entries, writes `lastUpdated`, and the record has `customIcon: false`, `iconFilename: null` and no `folderId` |
| Popup.MissingListIsEmpty | popup.js:61 | a missing or falsy list is treated as `[]`: the tab becomes the only bookmark, numbered 0 |
| BackgroundScript.AddBookmarkFromTab | background.js:26-65 | agrees with `AddedFromTab`: the area gains exactly what that run writes |
| BackgroundScript.AddedAppendsToMain | background.js:28-52 | it adds exactly when the URL parses and the list is an array (or missing); it writes only `bookmarks`, appending one record in `main` numbered with the old length, with the favicon-service icon, and keeping the old entries |
| BackgroundScript.SameRecordAsPopup | background.js:37-46 | the record is the popup's record plus `folderId: 'main'` |
| BackgroundScript.StoresDuplicates | background.js:28-52 | where the popup refuses a tab as already stored, the handler stores it again |

## Left out

- Opening the IndexedDB database, `promisifyRequest` and `close` are left out. A database that failed to open is an `Initialize` parameter, and the upgrade step is `Storage.Upgrade`. Transactions commit or stop as described for `set`; other engine behaviour is not modelled.
- Persistent-storage requests, `navigator.storage.estimate` and `getStorageUsage` are host capabilities with floating-point display. `Initialize` takes the persistence answer as a parameter.
- `base64ToBlob` uses `fetch`. It is a parameter that either produces a blob or fails. `URL.createObjectURL` is replaced by the stored blob. Its TypeError on a value that is not a Blob is modelled; MediaSource objects, which it also accepts, are not.
- Aliasing is not modelled. JavaScript shares arrays between the cache, `oldData` and the page's fields; here values are immutable copies, and each operation is one atomic step.
- `Homepage.LoadData` takes the three reads already decoded into typed records. Decoding arbitrary stored JSON into `Bookmark`/`Folder` records is not modelled.
- `saveData` and the other persistence calls of newtab.js are not connected to the `StorageManager` model. The exception is `saveFolderSettings`, whose image save and delete go through it. The un-awaited `saveData()` calls, and their interleaving with later operations, are left out.
- The popup and the background script are not connected to `StorageManager`. They write `chrome.storage.local`, which after the migration holds only the legacy marker.
- `NewTab.Lower`: only ASCII letters are folded. `toLowerCase` also folds other Unicode letters.
- `NewTabProperties.ByTitleTotal`: `localeCompare` is locale-dependent. It is modelled as comparison by code point, which is one admissible total order.
- `NewTab.Homepage.ReorderFolderTabs` requires both indices to be tab positions. Its only caller, the drag-and-drop handler, passes two indices found by `findIndex` on existing tabs. Out-of-range `splice` indices are not modelled.
- `Sequences.Sort`: the sort is modelled as a stable insertion sort. The stability of `Array.prototype.sort` is relied on but not stated as a separate property.
- DOM rendering, event listeners, modals, context menus, drag visuals, `alert`, the error and success messages, and notifications are left out. Each `confirm` answer is a parameter.
- Clock readings (`Date.now()`, `new Date().toISOString()`) are parameters.
- URL parsing (`new URL(url).hostname`) is an optional hostname parameter. None means the URL did not parse.
- `chrome.storage.local` quota errors are not modelled. Its `get` and `set` always succeed here.
- `Storage.UnkeyedLegacyBookmarkStopsMigration` states what the code does for legacy bookmarks without an `id`: the migration throws and is retried at the next start. It never completes, because the `bookmarks` store takes its keys from `id`.
- `ObjectStores.StrLess` and `ObjectStores.KeyLess`: strings are sequences of Unicode scalar values and are compared by code point. IndexedDB compares UTF-16 code units, so keys with supplementary characters (which sort before U+E000–U+FFFF there) can be ordered differently in `getAll`, and strings holding lone surrogates cannot be represented.
- `Json.Value` has integers only: floating-point numbers and `NaN` in stored data are not modelled.
