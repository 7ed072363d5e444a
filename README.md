# Menus and icon cache of a desktop file manager

This project models two parts of the file manager's user-interface code.

The first is the menu rules of `src/menu.rs`:
- what the context menu of a tab shows, given the tab's mode (application, desktop or file-chooser dialog), its location (a path, a search, the recent files, the network, the trash) and a summary of the selection;
- which buttons of the application's menu bar and of the dialog's menu bar are enabled;
- which of their check boxes are checked.

The second is the icon cache of `src/app/icons.rs`. It is a memoising map from an icon name at a pixel size to an icon handle. It is seeded with a bundle of vector icons at size 14. Any other key is loaded from the icon theme on first use and kept from then on.

The modules are:
- `Icons`: the `IconCache` class. Its single field `cache`, a map, is updated in place by `GetHandle` and `GetIcon`.
- `MenuTypes`: the modes, locations, sort headings, actions and abstract menu items, plus `menu_button_optional`.
- `Paths`: the `.desktop` extension test of Rust's `Path`.
- `MimeOrder`: `sort_unstable` and `dedup` of the selected MIME types, and the `retain` of "Extract here".
- `Selection`: the selection loops, as methods with loop invariants proved against fold functions over the selected items.
- `KeyBinds`: `find_key`, a loop over the key-binding table.
- `ContextMenus`: `context_menu` as a function of the selection summary. Its branches are concatenations of the item runs the code pushes.
- `BarMenus`: `menu_bar` and `dialog_menu`.

## Model

| member | source | states |
|---|---|---|
| MenuTypes.MenuButtonOptionalShape | src/menu.rs:39-50 | the item is a pressable button exactly when enabled and a disabled button otherwise; label, icon and action are unchanged either way |
| MenuTypes.ImageNotBundled | src/menu.rs:424-426 | the wallpaper entry's icon "image-symbolic" is not in the bundle, so it resolves through the theme lookup |
| KeyBinds.FindKey | src/menu.rs:56-63 | if some binding maps to the action, the text is the display of such a binding; if none does, the text is empty |
| Paths.DesktopExtensionIff | src/menu.rs:114-116 | a file name has extension `desktop` exactly when it ends in `.desktop` with at least one character before it |
| Paths.DesktopFileIff | src/menu.rs:114-116 | a path is a desktop file exactly when its last component ends in `.desktop` with at least one character before it |
| Selection.Summarize | src/menu.rs:100-129 | the loop's result: selected count, selected-directory count, trash flag (a selected trash item and exactly one selected), the first selected item's `.desktop` path, and the selected MIME types strictly sorted with exactly the selected items' types |
| Selection.ScanSelected | src/menu.rs:107-108 | the loop's counter equals the number of selected items |
| Selection.ScanDirs | src/menu.rs:109-111 | the directory counter equals the number of selected directories |
| Selection.ScanTrash | src/menu.rs:112-113 | the trash flag is set exactly when some selected item lies in the trash |
| Selection.ScanDesktop | src/menu.rs:114-120 | the desktop path is that of the first selected item, and only when it is a `.desktop` path |
| Selection.ScanTypes | src/menu.rs:123 | the pushed types are the selected items' types, in order |
| Selection.SummaryBounds | src/menu.rs:100-129 | at most as many directories as selected items; trash-only implies exactly one selected item; a desktop path only from a selected `.desktop` path |
| Selection.SummaryTypesBound | src/menu.rs:123-128 | no more distinct types than selected items; an empty selection records no type, no desktop path and no trash |
| Selection.SelectedItemsMembers | src/menu.rs:106-107 | the selected items are exactly the items whose flag is set |
| Selection.CountDirsExtremes | src/menu.rs:109-111 | the directory count is the full length exactly when all are directories, and 0 exactly when none is |
| Selection.CountGalleryZero | src/menu.rs:826-828 | the gallery count is 0 exactly when no item can be shown in the gallery |
| Selection.MimesMembers | src/menu.rs:123 | the collected types are exactly the types of the items |
| Selection.CountSelection | src/menu.rs:816-831 | the three counters of `menu_bar` equal the selected, selected-directory and selected-gallery counts; no tab or no items counts nothing |
| Selection.CountSelectedGallery | src/menu.rs:655-664 | the counter of `dialog_menu` equals the number of selected gallery-capable items |
| MimeOrder.SortDedup | src/menu.rs:127-128 | the result is strictly increasing and has exactly the input's elements |
| MimeOrder.StrictlySortedNoRepeats | src/menu.rs:127-128 | a strictly sorted sequence has no repeated type |
| MimeOrder.StrictlySortedUnique | src/menu.rs:127-128 | two strictly sorted sequences with the same elements are equal, so sort then dedup has only one result |
| MimeOrder.LessTotal | src/menu.rs:127 | the order on types is total on distinct strings |
| MimeOrder.LessTransitive | src/menu.rs:127 | the order on types is transitive |
| MimeOrder.LessAsymmetric | src/menu.rs:127 | the order on types is asymmetric |
| MimeOrder.RetainNotIn | src/menu.rs:322 | the retained types are exactly those not in the excluded list |
| MimeOrder.RetainEmptyIff | src/menu.rs:322-323 | nothing is retained exactly when every type is in the excluded list |
| ContextMenus.DesktopEntryFromSummary | src/menu.rs:130-141 | the desktop-entry branch needs a first selected `.desktop` path; with the `desktop` feature it takes the parse result and only for a single selection; without it any selection starting at a `.desktop` path takes it, with no actions |
| ContextMenus.ContextSortArrows | src/menu.rs:83-98 | each sort item toggles its own column; down arrow exactly when it is the current sort in direction true, up arrow exactly when in direction false; at most one item shows an arrow |
| ContextMenus.EntryActionItems | src/menu.rs:177-183 | one button per desktop action |
| ContextMenus.SelectionOpen | src/menu.rs:219-228 | "Open" appears exactly when one directory alone is selected or no directory is |
| ContextMenus.SelectionOpenWith | src/menu.rs:229-238 | "Open with" appears exactly when one item is selected |
| ContextMenus.SelectionOpenTerminal | src/menu.rs:239-248 | "Open in terminal" appears exactly when a single directory is selected |
| ContextMenus.SelectionItemLocation | src/menu.rs:249-259 | "Open item location" appears exactly in a search |
| ContextMenus.SelectionNewTab | src/menu.rs:260-268 | "Open in new tab" appears exactly in the application when every selected item is a directory |
| ContextMenus.SelectionNewWindow | src/menu.rs:269-277 | "Open in new window" appears exactly in the application when every selected item is a directory |
| ContextMenus.SelectionExtract | src/menu.rs:305-332 | "Extract here" appears exactly when every selected type is a supported archive type |
| ContextMenus.ExtractAllowedIff | src/menu.rs:305-323 | the `retain` leaves nothing exactly when every selected type is an archive type |
| ContextMenus.SelectionSidebar | src/menu.rs:352-362 | "Add to sidebar" appears exactly in the application |
| ContextMenus.SelectionAlways | src/menu.rs:278-371 | rename, cut, copy, compress and details always appear, and the menu ends with a divider and "Move to trash" |
| ContextMenus.TrashOnlyItems | src/menu.rs:146-165 | a trash-only selection shows "Open" first, and "Empty trash" exactly when the trash has entries |
| ContextMenus.EntryItems | src/menu.rs:166-216 | a desktop entry shows "Open", one button per desktop action emitting its index, then divider, rename, cut, copy and move to trash |
| ContextMenus.EntryActionIndex | src/menu.rs:177-183 | a desktop-action button with index i exists exactly when i is an action of the entry, titled by that action's name and without icon |
| ContextMenus.NoSelectionSelectAll | src/menu.rs:400-409 | with nothing selected, "Select all" appears exactly when the mode allows several items |
| ContextMenus.NoSelectionSettings | src/menu.rs:420-429 | "Change wallpaper" appears exactly on the desktop |
| ContextMenus.NoSelectionAppearance | src/menu.rs:430-437 | "Desktop appearance" appears exactly on the desktop |
| ContextMenus.NoSelectionDisplays | src/menu.rs:438-446 | "Display settings" appears exactly on the desktop |
| ContextMenus.NoSelectionViewOptions | src/menu.rs:457-467 | the desktop view options appear exactly at a desktop location, and then last |
| ContextMenus.NoSelectionAlways | src/menu.rs:373-456 | new folder, new file and terminal come first; paste and the three sort items always appear |
| ContextMenus.DialogSelection | src/menu.rs:474-503 | a dialog with a selection: "Open" under the same rule, the item location exactly in a search, details last |
| ContextMenus.DialogNoSelection | src/menu.rs:504-535 | a dialog with nothing selected: new folder exactly when saving, select all exactly when multiple, a divider exactly when one of them is there, never first, and the sort items last |
| ContextMenus.NetworkSelection | src/menu.rs:538-548 | the network with a selection: at most one item, "Open" under the same rule |
| ContextMenus.NetworkNoSelection | src/menu.rs:549-570 | the network with nothing selected: select all and its divider exactly when multiple, the sort items last |
| ContextMenus.TrashMenu | src/menu.rs:572-613 | the trash: select all exactly when multiple; restore exactly with a selection; ends with details, divider, restore, or with the sort items by name, trashing date and size |
| ContextMenus.SelectionNoRestore | src/menu.rs:218-371 | a selection outside the trash never gets "Restore from trash" |
| ContextMenus.SelectionNoEmptyTrash | src/menu.rs:218-371 | a selection that is not trash-only never gets "Empty trash" |
| ContextMenus.NoSelectionNoTrashItems | src/menu.rs:372-467 | with nothing selected, neither restore nor empty trash |
| ContextMenus.NoSelectionNoEditing | src/menu.rs:372-467 | with nothing selected, neither rename nor move to trash |
| ContextMenus.BrowseNoRestore | src/menu.rs:145-469 | the application and desktop arm never offers restore |
| ContextMenus.BrowseEmptyTrash | src/menu.rs:145-469 | in that arm, empty trash exactly for a trash-only selection when the trash has entries |
| ContextMenus.BrowseEditing | src/menu.rs:145-469 | in that arm, rename and move to trash exactly for a desktop entry or a selection that is not trash-only |
| ContextMenus.OtherArmsNoEditing | src/menu.rs:470-614 | the dialog, network and trash arms offer neither rename nor move to trash |
| ContextMenus.ContextRestore | src/menu.rs:143-614 | over the whole branching on mode and location: restore exactly in the trash with a selection |
| ContextMenus.ContextEmptyTrash | src/menu.rs:143-614 | empty trash exactly in the application or desktop, in a browsing location, for a trash-only selection with trash entries |
| ContextMenus.ContextEditing | src/menu.rs:143-614 | rename and move to trash exactly in the application or desktop, in a browsing location, for a desktop entry or a selection that is not trash-only |
| BarMenus.MenuBar | src/menu.rs:798-1061 | the bar is File, Edit, View and Sort, built from the counts of the tab's selection |
| BarMenus.DialogMenu | src/menu.rs:639-796 | the dialog bar is view, sort and more, built from the gallery count of the selection |
| BarMenus.SortCheckedIff | src/menu.rs:804-813 | every sort entry is a check box without icon, checked exactly when there is a current sort and the entry sets that heading and direction |
| BarMenus.SortNoTab | src/menu.rs:808-810 | with no tab, no sort entry is checked |
| BarMenus.SortRecency | src/menu.rs:1024-1041 | newest first and oldest first sort by trashing date in the trash and by modification date elsewhere |
| BarMenus.SortCovers | src/menu.rs:1022-1051 | every offered heading appears in both directions |
| BarMenus.SortCheckedOnce | src/menu.rs:1022-1051 | at most one sort entry is checked, and one is exactly when the current sort is offered |
| BarMenus.FileOpen | src/menu.rs:859-864 | "Open" is enabled exactly when files only or one directory alone are selected, disabled otherwise |
| BarMenus.FileOpenWith | src/menu.rs:865-870 | "Open with" is enabled exactly when one item is selected |
| BarMenus.FileRename | src/menu.rs:872-877 | "Rename" is enabled exactly when something is selected |
| BarMenus.FileSidebar | src/menu.rs:879-884 | "Add to sidebar" is enabled exactly when something is selected |
| BarMenus.FileMoveToTrash | src/menu.rs:886-891 | "Move to trash" is enabled exactly when something is selected |
| BarMenus.FileAlways | src/menu.rs:839-902 | the File menu has 15 entries, new tab, new window, new folder, new file, close tab and quit always pressable |
| BarMenus.EditCut | src/menu.rs:911-916 | "Cut" is enabled exactly when something is selected |
| BarMenus.EditCopy | src/menu.rs:917-922 | "Copy" is enabled exactly when something is selected |
| BarMenus.EditPaste | src/menu.rs:923-928 | "Paste" is enabled exactly when something is selected |
| BarMenus.EditAlways | src/menu.rs:929-939 | select all and history are always pressable |
| BarMenus.GalleryEnabled | src/menu.rs:782-787 | the gallery button of both bars is enabled exactly when a selected item can be shown in the gallery |
| BarMenus.ViewChoiceChecks | src/menu.rs:964-975 | grid is checked exactly when there is a tab in grid view, list likewise |
| BarMenus.ViewToggleChecks | src/menu.rs:977-988 | hidden files and folders first are checked exactly as the tab's settings say, unchecked without a tab |
| BarMenus.ViewDetailsCheck | src/menu.rs:989-994 | details is checked exactly when details are shown |
| BarMenus.ViewAlways | src/menu.rs:948-1013 | the View menu holds the zoom buttons, settings and about, always pressable |
| BarMenus.DialogSortChecks | src/menu.rs:645-652 | a dialog sort entry is checked exactly when it sets the tab's sort, and one is checked exactly when that sort is offered |
| BarMenus.DialogChoiceChecks | src/menu.rs:673-690 | the dialog's grid and list boxes are checked exactly as the tab's view |
| BarMenus.DialogToggleChecks | src/menu.rs:763-780 | the dialog's hidden, folders-first and details boxes follow the tab's settings and the details flag |
| Icons.IconCache.constructor | src/app/icons.rs:20-74 | the seeded map holds exactly the bundled names at size 14, each as its bundled symbolic SVG, 34 keys, consistent |
| Icons.SeedSize | src/app/icons.rs:46 | the repeated "arrow-into-box-symbolic" (also at line 62) leaves a single key, 34 in all |
| Icons.BundleRepeats | src/app/icons.rs:37-71 | of the 35 bundled names, exactly the 26th repeats an earlier one |
| Icons.SeedKeys | src/app/icons.rs:37-71 | the seeded keys are exactly the bundled names at size 14 |
| Icons.SeedConsistent | src/app/icons.rs:20-74 | every seeded entry is the handle its key stands for |
| Icons.OrInsert | src/app/icons.rs:86-90 | the keys grow by the looked-up key only, the returned handle is the stored one, other entries are kept, a miss loads from the theme |
| Icons.OrInsertHit | src/app/icons.rs:85-92 | a hit returns the stored handle and leaves the map unchanged |
| Icons.OrInsertMiss | src/app/icons.rs:86-90 | a miss inserts exactly that key, mapped to the theme handle, one more entry |
| Icons.OrInsertIdempotent | src/app/icons.rs:79-81 | a second lookup returns the same handle with no change to the map |
| Icons.SizesAreIndependent | src/app/icons.rs:9-13 | one name at two sizes gives two entries, the first kept when the second is looked up |
| Icons.OrInsertResolves | src/app/icons.rs:85-92 | on a consistent cache the handle returned is the one the key stands for, and the cache stays consistent |
| Icons.IconCache.GetHandle | src/app/icons.rs:85-92 | hit: stored handle, map unchanged; miss: exactly that key added with the theme handle; keys only grow; the handle is the key's resolution |
| Icons.IconCache.GetIcon | src/app/icons.rs:76-83 | the same map update as `GetHandle`, and the icon is the resolved handle at the requested size |

## Left out

- Widgets, styling and layout: the `menu_button!` macro, containers, borders, widths, item heights and spacing. They are presentation only.
- Localised labels: a label is the id of its message, a sort label is its id and its arrow, and a desktop action is its name. The `"{} {}"` formatting of sort labels is not modelled.
- The key-binding text beside each context-menu item: `FindKey` is modelled on its own, and items do not carry that text.
- Icons: an item's icon is the glyph it asks the cache for. The cache is not threaded through the menus.
- The SVG bytes of the bundle and the theme lookup: a handle records only how it was made.
- The `OnceLock<Mutex<IconCache>>` global and the free functions `get_icon` and `get_handle` (src/app/icons.rs:7, 95-103). They are global state and locking.
- Desktop-file parsing (`load_desktop_file`) is file I/O. Its result is the parameter `loaded`.
- `trash_entries()` reads the file system and is the parameter `trashEntries`.
- `is_dir()`, `can_gallery()` and `Mode::multiple()` are booleans of the item or the mode. `src/tab.rs` is not part of this model, so a dialog's `multiple` is a field of its kind.
- MIME parsing: types are their essence strings, ordered by character. The archive types gated by the `bzip2` and `liblzma` features are flags.
- KeyBinds.FindKey: the map's iteration order is unspecified, so the contract does not say which of several bindings is found. `KeyBind::to_string` is the parameter `show`.
- Sort, dedup and retain work on sequence values, and pushes onto `children` are sequence concatenations; in-place mutation of those vectors is not modelled.
- `location_context_menu` (src/menu.rs:1063-1109) is not modelled. It builds a fixed list of navigation buttons with no selection logic.
- The themed root icons of the dialog bar are kept as names, not as cache keys.
