/**
  `context_menu` (src/menu.rs:52-637): the right-click menu of a tab, as the
  ordered list of items it shows. After the selection summary it branches on
  the tab's mode and location and pushes items one after another; here each
  run of pushes is a sequence and the branches concatenate them.
 */
module ContextMenus {
  import opened Icons
  import opened MenuTypes
  import opened MimeOrder
  import opened Paths
  import opened Selection

  /** The cargo features the context menu depends on. */
  datatype Features = Features(desktop: bool, bzip2: bool, liblzma: bool)

  /** A parsed desktop entry, through what the menu uses of it: the names of its actions. */
  datatype DesktopEntry = DesktopEntry(actionNames: seq<string>)

  /** The MIME types "Extract here" accepts (src/menu.rs:305-318); all of them parse. */
  function SupportedArchiveTypes(f: Features): seq<Mime> {
    ["application/gzip", "application/x-compressed-tar", "application/x-tar", "application/zip"]
    + (if f.bzip2 then ["application/x-bzip", "application/x-bzip-compressed-tar"] else [])
    + (if f.liblzma then ["application/x-xz", "application/x-xz-compressed-tar"] else [])
  }

  /**
    The desktop entry the menu branches on (src/menu.rs:130-141). With the
    `desktop` feature it is the file's parse, `loaded`, and only for a single
    selection; without it the `.desktop` path itself stands in, with no actions.
   */
  function DesktopEntryOf(s: Summary, loaded: Option<DesktopEntry>, f: Features): Option<DesktopEntry> {
    if s.desktopPath.None? then None
    else if !f.desktop then Some(DesktopEntry([]))
    else if s.selected == 1 then loaded
    else None
  }

  /**
    The desktop-entry branch is taken only when the first selected item is a
    `.desktop` path; with the `desktop` feature, only when it is the only
    selected item as well, and with the actions the parse found. Without the
    feature a longer selection starting at a `.desktop` path takes it too.
   */
  lemma DesktopEntryFromSummary(s: Summary, items: Option<seq<FileItem>>, loaded: Option<DesktopEntry>, f: Features)
    requires Summarises(s, items)
    ensures var e := DesktopEntryOf(s, loaded, f);
      var sel := Selected(items);
      && (e.Some? ==> |sel| >= 1 && sel[0].location.Some? && sel[0].location.value.Path?
                      && IsDesktopFile(sel[0].location.value.path))
      && (f.desktop ==> e == if FirstDesktopPath(sel).Some? && |sel| == 1 then loaded else None)
      && (!f.desktop ==> (e.Some? <==> FirstDesktopPath(sel).Some?) && (e.Some? ==> e.value.actionNames == []))
  {
  }

  // The items the menu builds, with their message ids and icons.
  const OpenItem: Item := Btn(open, document_open, Action.Open)
  const EmptyTrashItem: Item := Btn(empty_trash, user_trash, EmptyTrash)
  const RenameItem: Item := Btn(rename, edit_icon, Rename)
  const CutItem: Item := Btn(cut, cut_icon, Cut)
  const CopyItem: Item := Btn(copy, copy_icon, Copy)
  const MoveToTrashItem: Item := Btn(move_to_trash, user_trash, MoveToTrash)
  const OpenWithItem: Item := Btn(open_with, external_link, OpenWith)
  const OpenTerminalItem: Item := Btn(open_in_terminal, terminal, OpenTerminal)
  const OpenItemLocationItem: Item := Btn(open_item_location, symbolic_link, OpenItemLocation)
  const OpenInNewTabItem: Item := Btn(open_in_new_tab, tab_new_filled, OpenInNewTab)
  const OpenInNewWindowItem: Item := Btn(open_in_new_window, edit_copy, OpenInNewWindow)
  const ExtractHereItem: Item := Btn(extract_here, archive_extract, ExtractHere)
  const CompressItem: Item := Btn(compress, package_x_generic, Compress)
  const PreviewItem: Item := Btn(show_details, info_outline, Preview)
  const AddToSidebarItem: Item := Btn(add_to_sidebar, dock_left, AddToSidebar)
  const NewFolderItem: Item := Btn(new_folder, folder_new, NewFolder)
  const NewFileItem: Item := Btn(new_file, paper, NewFile)
  const SelectAllItem: Item := Btn(select_all, edit_select_all, SelectAll)
  const PasteItem: Item := Btn(paste, clipboard, Paste)
  const WallpaperItem: Item := Btn(change_wallpaper, image, CosmicSettingsWallpaper)
  const AppearanceItem: Item := Btn(desktop_appearance, brush_monitor, CosmicSettingsAppearance)
  const DisplaysItem: Item := Btn(display_settings, display, CosmicSettingsDisplays)
  const DesktopViewOptionsItem: Item := Btn(desktop_view_options, shell_overview, DesktopViewOptions)
  const RestoreItem: Item := Btn(restore_from_trash, empty_trash_bin, RestoreFromTrash)

  /** The arrow of a context sort label (src/menu.rs:88-92). */
  function ArrowFor(sort: SortOptions, variant: HeadingOptions): Arrow {
    if sort.heading == variant then (if sort.direction then DownArrow else UpArrow) else NoArrow
  }

  /** `sort_item` of `context_menu` (src/menu.rs:83-98): a button toggling the sort by `variant`. */
  function ContextSortItem(id: Msg, sort: SortOptions, variant: HeadingOptions): Item {
    Button(SortLabel(id, ArrowFor(sort, variant)), None, ToggleSort(variant))
  }

  /** The three sort items: by name, by `middle` (modified, or trashed on), by size. */
  function ContextSortItems(sort: SortOptions, middleId: Msg, middle: HeadingOptions): seq<Item> {
    [ContextSortItem(sort_by_name, sort, Name),
     ContextSortItem(middleId, sort, middle),
     ContextSortItem(sort_by_size, sort, Size)]
  }

  /**
    The arrows of the three context sort items (src/menu.rs:88-92): each
    item toggles its own column; it shows a down arrow when that column is
    the current sort in direction `true`, an up arrow when in direction
    `false`, and no arrow otherwise, so at most one of the three shows one.
   */
  lemma ContextSortArrows(sort: SortOptions, middleId: Msg, middle: HeadingOptions)
    requires middle != Name && middle != Size
    ensures var r := ContextSortItems(sort, middleId, middle);
      && |r| == 3
      && r[0].action == ToggleSort(Name) && r[1].action == ToggleSort(middle) && r[2].action == ToggleSort(Size)
      && (forall i :: 0 <= i < 3 ==>
            && r[i].Button? && r[i].title.SortLabel? && r[i].action.ToggleSort?
            && (r[i].title.arrow == DownArrow <==> r[i].action.variant == sort.heading && sort.direction)
            && (r[i].title.arrow == UpArrow <==> r[i].action.variant == sort.heading && !sort.direction))
      && (forall i, j :: 0 <= i < j < 3 ==> r[i].title.arrow == NoArrow || r[j].title.arrow == NoArrow)
  {
  }

  /** Whether "Open" is offered for a selection: one directory alone, or no directory at all. */
  predicate OpenAllowed(s: Summary) {
    (s.selectedDir == 1 && s.selected == 1) || s.selectedDir == 0
  }

  /** "Extract here" is offered when no selected type is left after dropping the archive types. */
  predicate ExtractAllowed(s: Summary, f: Features) {
    RetainNotIn(s.types, SupportedArchiveTypes(f)) == []
  }

  /** One button per desktop action, in order, emitting its index (src/menu.rs:177-183). */
  function EntryActionItems(names: seq<string>): (r: seq<Item>)
    ensures |r| == |names|
  {
    seq(|names|, i requires 0 <= i < |names| => Button(Text(names[i]), None, ExecEntryAction(i)))
  }

  /** App or Desktop mode, browsing, with a selection that is neither trash-only nor a desktop entry (src/menu.rs:218-371). */
  function SelectionItems(mode: Mode, loc: Location, s: Summary, f: Features): seq<Item> {
    (if OpenAllowed(s) then [OpenItem] else [])
    + (if s.selected == 1 then [OpenWithItem] + (if s.selectedDir == 1 then [OpenTerminalItem] else []) else [])
    + (if loc.Search? then [OpenItemLocationItem] else [])
    + (if s.selected == s.selectedDir && mode.App? then [OpenInNewTabItem, OpenInNewWindowItem] else [])
    + [Divider, RenameItem, CutItem, CopyItem, Divider]
    + (if ExtractAllowed(s, f) then [ExtractHereItem] else [])
    + [CompressItem, Divider, PreviewItem]
    + (if mode.App? then [Divider, AddToSidebarItem] else [])
    + [Divider, MoveToTrashItem]
  }

  /** App or Desktop mode, browsing, nothing selected (src/menu.rs:372-467). */
  function NoSelectionItems(mode: Mode, loc: Location, sort: SortOptions): seq<Item> {
    [NewFolderItem, NewFileItem, OpenTerminalItem, Divider]
    + (if Multiple(mode) then [SelectAllItem] else [])
    + [PasteItem]
    + (if mode.Desktop? then [Divider, WallpaperItem, AppearanceItem, DisplaysItem] else [])
    + [Divider]
    + ContextSortItems(sort, sort_by_modified, Modified)
    + (if loc.Desktop? then [Divider, DesktopViewOptionsItem] else [])
  }

  /** The first arm: App or Desktop mode in a browsing location (src/menu.rs:145-469). */
  function BrowseItems(mode: Mode, loc: Location, s: Summary, sort: SortOptions, trashEntries: nat,
                       entry: Option<DesktopEntry>, f: Features): seq<Item> {
    if s.trashOnly then
      [OpenItem] + (if trashEntries > 0 then [EmptyTrashItem] else [])
    else if entry.Some? then
      [OpenItem] + EntryActionItems(entry.value.actionNames) + [Divider, RenameItem, CutItem, CopyItem, MoveToTrashItem]
    else if s.selected > 0 then
      SelectionItems(mode, loc, s, f)
    else
      NoSelectionItems(mode, loc, sort)
  }

  /** A divider after `head` only when `head` is not empty (the `!children.is_empty()` guards). */
  function DividedAfter(head: seq<Item>): seq<Item> {
    head + (if head != [] then [Divider] else [])
  }

  /** The second arm: a file-chooser dialog in a browsing location (src/menu.rs:470-536). */
  function DialogItems(mode: Mode, loc: Location, s: Summary, sort: SortOptions): seq<Item>
    requires mode.Dialog?
  {
    if s.selected > 0 then
      (if OpenAllowed(s) then [OpenItem] else [])
      + (if loc.Search? then [OpenItemLocationItem] else [])
      + [Divider, PreviewItem]
    else
      DividedAfter((if mode.kind.save then [NewFolderItem] else []) + (if Multiple(mode) then [SelectAllItem] else []))
      + ContextSortItems(sort, sort_by_modified, Modified)
  }

  /** The network arm, any mode (src/menu.rs:537-571). */
  function NetworkItems(mode: Mode, s: Summary, sort: SortOptions): seq<Item> {
    if s.selected > 0 then
      (if OpenAllowed(s) then [OpenItem] else [])
    else
      DividedAfter(if Multiple(mode) then [SelectAllItem] else [])
      + ContextSortItems(sort, sort_by_modified, Modified)
  }

  /** The trash arm, any mode (src/menu.rs:572-614). */
  function TrashItems(mode: Mode, s: Summary, sort: SortOptions): seq<Item> {
    DividedAfter(if Multiple(mode) then [SelectAllItem] else [])
    + (if s.selected > 0 then [PreviewItem, Divider, RestoreItem]
       else ContextSortItems(sort, sort_by_trashed, TrashedOn))
  }

  /**
    The items of the context menu for a tab in `mode` at `loc`, given the
    selection summary, the sort options, the number of trash entries, the
    desktop entry as `DesktopEntryOf` gives it, and the enabled features.
   */
  function ContextMenu(mode: Mode, loc: Location, s: Summary, sort: SortOptions, trashEntries: nat,
                       entry: Option<DesktopEntry>, f: Features): seq<Item> {
    if loc.Network? then NetworkItems(mode, s, sort)
    else if loc.Trash? then TrashItems(mode, s, sort)
    else if mode.Dialog? then DialogItems(mode, loc, s, sort)
    else BrowseItems(mode, loc, s, sort, trashEntries, entry, f)
  }

  /** `tail` is the end of `r`. */
  predicate EndsWith(r: seq<Item>, tail: seq<Item>) {
    |tail| <= |r| && r[|r| - |tail|..] == tail
  }

  /** "Open" is offered for one directory alone or for files only (src/menu.rs:219-228). */
  lemma SelectionOpen(mode: Mode, loc: Location, s: Summary, f: Features)
    ensures OpenItem in SelectionItems(mode, loc, s, f) <==>
      (s.selectedDir == 1 && s.selected == 1) || s.selectedDir == 0
  {
  }

  /** "Open with" only for a single item (src/menu.rs:229-238). */
  lemma SelectionOpenWith(mode: Mode, loc: Location, s: Summary, f: Features)
    ensures OpenWithItem in SelectionItems(mode, loc, s, f) <==> s.selected == 1
  {
  }

  /** "Open in terminal" only for a single directory (src/menu.rs:239-248). */
  lemma SelectionOpenTerminal(mode: Mode, loc: Location, s: Summary, f: Features)
    ensures OpenTerminalItem in SelectionItems(mode, loc, s, f) <==> s.selected == 1 && s.selectedDir == 1
  {
  }

  /** "Open item location" only in a search (src/menu.rs:249-259). */
  lemma SelectionItemLocation(mode: Mode, loc: Location, s: Summary, f: Features)
    ensures OpenItemLocationItem in SelectionItems(mode, loc, s, f) <==> loc.Search?
  {
  }

  /** New tab and new window only in the application, and only when every selected item is a directory (src/menu.rs:260-277). */
  lemma SelectionNewTab(mode: Mode, loc: Location, s: Summary, f: Features)
    ensures OpenInNewTabItem in SelectionItems(mode, loc, s, f) <==> s.selected == s.selectedDir && mode.App?
  {
  }

  lemma SelectionNewWindow(mode: Mode, loc: Location, s: Summary, f: Features)
    ensures OpenInNewWindowItem in SelectionItems(mode, loc, s, f) <==> s.selected == s.selectedDir && mode.App?
  {
  }

  /** "Extract here" exactly when every selected type is a supported archive type (src/menu.rs:305-332). */
  lemma SelectionExtract(mode: Mode, loc: Location, s: Summary, f: Features)
    ensures ExtractHereItem in SelectionItems(mode, loc, s, f) <==>
      forall t :: t in s.types ==> t in SupportedArchiveTypes(f)
  {
    ExtractAllowedIff(s, f);
    assert ExtractHereItem in SelectionItems(mode, loc, s, f) <==> ExtractAllowed(s, f);
  }

  /** Nothing is left after dropping the archive types exactly when every type is one. */
  lemma ExtractAllowedIff(s: Summary, f: Features)
    ensures ExtractAllowed(s, f) <==> forall t :: t in s.types ==> t in SupportedArchiveTypes(f)
  {
    RetainEmptyIff(s.types, SupportedArchiveTypes(f));
  }

  /** "Add to sidebar" only in the application (src/menu.rs:352-362). */
  lemma SelectionSidebar(mode: Mode, loc: Location, s: Summary, f: Features)
    ensures AddToSidebarItem in SelectionItems(mode, loc, s, f) <==> mode.App?
  {
  }

  /** Rename, cut, copy, compress and details are always there, and "Move to trash" comes last (src/menu.rs:278-304, 333-351, 363-371). */
  lemma SelectionAlways(mode: Mode, loc: Location, s: Summary, f: Features)
    ensures var r := SelectionItems(mode, loc, s, f);
      && RenameItem in r && CutItem in r && CopyItem in r && CompressItem in r && PreviewItem in r
      && EndsWith(r, [Divider, MoveToTrashItem])
  {
  }

  /** A trash-only selection offers "Open", then "Empty trash" exactly when the trash is not empty (src/menu.rs:146-165). */
  lemma TrashOnlyItems(mode: Mode, loc: Location, s: Summary, sort: SortOptions, trashEntries: nat,
                       entry: Option<DesktopEntry>, f: Features)
    requires s.trashOnly
    ensures var r := BrowseItems(mode, loc, s, sort, trashEntries, entry, f);
      && r[0] == OpenItem
      && (EmptyTrashItem in r <==> trashEntries > 0)
      && |r| == (if trashEntries > 0 then 2 else 1)
  {
  }

  /**
    A desktop entry gets "Open", then one button per desktop action emitting
    that action's index and titled by its name, then the editing items
    (src/menu.rs:166-216).
   */
  lemma EntryItems(mode: Mode, loc: Location, s: Summary, sort: SortOptions, trashEntries: nat,
                   entry: Option<DesktopEntry>, f: Features)
    requires !s.trashOnly && entry.Some?
    ensures var r := BrowseItems(mode, loc, s, sort, trashEntries, entry, f);
      var names := entry.value.actionNames;
      && |r| == |names| + 6
      && r[0] == OpenItem
      && (forall i :: 0 <= i < |names| ==> r[i + 1] == Button(Text(names[i]), None, ExecEntryAction(i)))
      && r[|names| + 1..] == [Divider, RenameItem, CutItem, CopyItem, MoveToTrashItem]
  {
    var r := BrowseItems(mode, loc, s, sort, trashEntries, entry, f);
    var names := entry.value.actionNames;
    assert r == [OpenItem] + EntryActionItems(names) + [Divider, RenameItem, CutItem, CopyItem, MoveToTrashItem];
  }

  /** The index a desktop-action button emits names an action of the entry, and the button carries that action's name. */
  lemma EntryActionIndex(names: seq<string>, title: Label, icon: Option<Glyph>, i: nat)
    ensures Button(title, icon, ExecEntryAction(i)) in EntryActionItems(names) <==>
      i < |names| && title == Text(names[i]) && icon.None?
  {
    var r := EntryActionItems(names);
    if Button(title, icon, ExecEntryAction(i)) in r {
      var k :| 0 <= k < |r| && r[k] == Button(title, icon, ExecEntryAction(i));
    }
    if i < |names| && title == Text(names[i]) && icon.None? {
      assert r[i] == Button(title, icon, ExecEntryAction(i));
    }
  }

  /** With nothing selected, "Select all" only when the mode allows several items (src/menu.rs:400-409). */
  lemma NoSelectionSelectAll(mode: Mode, loc: Location, sort: SortOptions)
    ensures SelectAllItem in NoSelectionItems(mode, loc, sort) <==> Multiple(mode)
  {
  }

  /** The wallpaper, appearance and display settings only on the desktop (src/menu.rs:420-446). */
  lemma NoSelectionSettings(mode: Mode, loc: Location, sort: SortOptions)
    ensures WallpaperItem in NoSelectionItems(mode, loc, sort) <==> mode.Desktop?
  {
  }

  lemma NoSelectionAppearance(mode: Mode, loc: Location, sort: SortOptions)
    ensures AppearanceItem in NoSelectionItems(mode, loc, sort) <==> mode.Desktop?
  {
  }

  lemma NoSelectionDisplays(mode: Mode, loc: Location, sort: SortOptions)
    ensures DisplaysItem in NoSelectionItems(mode, loc, sort) <==> mode.Desktop?
  {
  }

  /** The desktop view options only at a desktop location, and then last (src/menu.rs:457-467). */
  lemma NoSelectionViewOptions(mode: Mode, loc: Location, sort: SortOptions)
    ensures DesktopViewOptionsItem in NoSelectionItems(mode, loc, sort) <==> loc.Desktop?
    ensures loc.Desktop? ==> EndsWith(NoSelectionItems(mode, loc, sort), [Divider, DesktopViewOptionsItem])
  {
  }

  /** New folder, new file, terminal, paste and the three sort items are always there (src/menu.rs:373-418, 448-456). */
  lemma NoSelectionAlways(mode: Mode, loc: Location, sort: SortOptions)
    ensures var r := NoSelectionItems(mode, loc, sort);
      && r[..3] == [NewFolderItem, NewFileItem, OpenTerminalItem]
      && PasteItem in r
      && (forall it :: it in ContextSortItems(sort, sort_by_modified, Modified) ==> it in r)
  {
  }

  /** A dialog with a selection: "Open" as in the application, the location in a search, and the details last (src/menu.rs:474-503). */
  lemma DialogSelection(mode: Mode, loc: Location, s: Summary, sort: SortOptions)
    requires mode.Dialog? && s.selected > 0
    ensures var r := DialogItems(mode, loc, s, sort);
      && (OpenItem in r <==> OpenAllowed(s))
      && (OpenItemLocationItem in r <==> loc.Search?)
      && EndsWith(r, [Divider, PreviewItem])
  {
  }

  /**
    A dialog with nothing selected: "New folder" only when saving, "Select
    all" only when several items may be chosen, a divider only when one of
    them is there, and the sort items last (src/menu.rs:504-535).
   */
  lemma DialogNoSelection(mode: Mode, loc: Location, s: Summary, sort: SortOptions)
    requires mode.Dialog? && s.selected == 0
    ensures var r := DialogItems(mode, loc, s, sort);
      && (NewFolderItem in r <==> mode.kind.save)
      && (SelectAllItem in r <==> mode.kind.multiple)
      && (Divider in r <==> mode.kind.save || mode.kind.multiple)
      && r[0] != Divider
      && EndsWith(r, ContextSortItems(sort, sort_by_modified, Modified))
  {
  }

  /** The network with a selection: only "Open", under the same rule (src/menu.rs:538-548). */
  lemma NetworkSelection(mode: Mode, s: Summary, sort: SortOptions)
    requires s.selected > 0
    ensures var r := NetworkItems(mode, s, sort);
      && |r| <= 1
      && (OpenItem in r <==> OpenAllowed(s))
  {
  }

  /** The network with nothing selected: "Select all" and its divider as the mode allows, then the sort items (src/menu.rs:549-570). */
  lemma NetworkNoSelection(mode: Mode, s: Summary, sort: SortOptions)
    requires s.selected == 0
    ensures var r := NetworkItems(mode, s, sort);
      && (SelectAllItem in r <==> Multiple(mode))
      && (Divider in r <==> Multiple(mode))
      && r[0] != Divider
      && EndsWith(r, ContextSortItems(sort, sort_by_modified, Modified))
  {
  }

  /**
    The trash: "Select all" and its divider as the mode allows; then the
    details and "Restore" for a selection, or the sort items by name, by
    trashing date and by size (src/menu.rs:572-613).
   */
  lemma TrashMenu(mode: Mode, s: Summary, sort: SortOptions)
    ensures var r := TrashItems(mode, s, sort);
      && (SelectAllItem in r <==> Multiple(mode))
      && r[0] != Divider
      && (RestoreItem in r <==> s.selected > 0)
      && (s.selected > 0 ==> EndsWith(r, [PreviewItem, Divider, RestoreItem]))
      && (s.selected == 0 ==> EndsWith(r, ContextSortItems(sort, sort_by_trashed, TrashedOn)))
  {
  }

  /** A selection outside the trash is never offered "Restore from trash"... */
  lemma SelectionNoRestore(mode: Mode, loc: Location, s: Summary, f: Features)
    ensures RestoreItem !in SelectionItems(mode, loc, s, f)
  {
  }

  /** ... nor "Empty trash". */
  lemma SelectionNoEmptyTrash(mode: Mode, loc: Location, s: Summary, f: Features)
    ensures EmptyTrashItem !in SelectionItems(mode, loc, s, f)
  {
  }

  /** With nothing selected there is nothing to restore or empty. */
  lemma NoSelectionNoTrashItems(mode: Mode, loc: Location, sort: SortOptions)
    ensures RestoreItem !in NoSelectionItems(mode, loc, sort)
    ensures EmptyTrashItem !in NoSelectionItems(mode, loc, sort)
  {
  }

  /** With nothing selected there is nothing to rename or move to the trash. */
  lemma NoSelectionNoEditing(mode: Mode, loc: Location, sort: SortOptions)
    ensures RenameItem !in NoSelectionItems(mode, loc, sort)
    ensures MoveToTrashItem !in NoSelectionItems(mode, loc, sort)
  {
  }

  /** The arms other than the trash never offer "Restore from trash". */
  lemma BrowseNoRestore(mode: Mode, loc: Location, s: Summary, sort: SortOptions, trashEntries: nat,
                        entry: Option<DesktopEntry>, f: Features)
    ensures RestoreItem !in BrowseItems(mode, loc, s, sort, trashEntries, entry, f)
  {
    if !s.trashOnly && entry.Some? {
      assert RestoreItem !in EntryActionItems(entry.value.actionNames);
    } else if !s.trashOnly && s.selected > 0 {
      SelectionNoRestore(mode, loc, s, f);
    } else if !s.trashOnly {
      NoSelectionNoTrashItems(mode, loc, sort);
    }
  }

  /**
    The branching on mode and location (src/menu.rs:143-614): "Restore from
    trash" only in the trash with a selection.
   */
  lemma ContextRestore(mode: Mode, loc: Location, s: Summary, sort: SortOptions, trashEntries: nat,
                       entry: Option<DesktopEntry>, f: Features)
    ensures RestoreItem in ContextMenu(mode, loc, s, sort, trashEntries, entry, f) <==> loc.Trash? && s.selected > 0
  {
    if loc.Trash? {
      TrashMenu(mode, s, sort);
    } else if !loc.Network? && !mode.Dialog? {
      BrowseNoRestore(mode, loc, s, sort, trashEntries, entry, f);
    }
  }

  /** Within the first arm, "Empty trash" only for a trash-only selection when the trash has entries. */
  lemma BrowseEmptyTrash(mode: Mode, loc: Location, s: Summary, sort: SortOptions, trashEntries: nat,
                         entry: Option<DesktopEntry>, f: Features)
    ensures EmptyTrashItem in BrowseItems(mode, loc, s, sort, trashEntries, entry, f) <==> s.trashOnly && trashEntries > 0
  {
    if !s.trashOnly && entry.Some? {
      assert EmptyTrashItem !in EntryActionItems(entry.value.actionNames);
    } else if !s.trashOnly && s.selected > 0 {
      SelectionNoEmptyTrash(mode, loc, s, f);
    } else if !s.trashOnly {
      NoSelectionNoTrashItems(mode, loc, sort);
    }
  }

  /** "Empty trash" only for a trash-only selection in the application or on the desktop, when the trash has entries (src/menu.rs:143-165). */
  lemma ContextEmptyTrash(mode: Mode, loc: Location, s: Summary, sort: SortOptions, trashEntries: nat,
                          entry: Option<DesktopEntry>, f: Features)
    ensures EmptyTrashItem in ContextMenu(mode, loc, s, sort, trashEntries, entry, f) <==>
      Browsing(loc) && !mode.Dialog? && s.trashOnly && trashEntries > 0
  {
    if !loc.Network? && !loc.Trash? && !mode.Dialog? {
      BrowseEmptyTrash(mode, loc, s, sort, trashEntries, entry, f);
    }
  }

  /** Within the first arm, renaming and moving to the trash for a selection that is not trash-only, or for a desktop entry. */
  lemma BrowseEditing(mode: Mode, loc: Location, s: Summary, sort: SortOptions, trashEntries: nat,
                      entry: Option<DesktopEntry>, f: Features)
    ensures var r := BrowseItems(mode, loc, s, sort, trashEntries, entry, f);
      && (RenameItem in r <==> !s.trashOnly && (entry.Some? || s.selected > 0))
      && (MoveToTrashItem in r <==> !s.trashOnly && (entry.Some? || s.selected > 0))
  {
    if !s.trashOnly && entry.Some? {
      assert RenameItem !in EntryActionItems(entry.value.actionNames);
      assert MoveToTrashItem !in EntryActionItems(entry.value.actionNames);
    } else if !s.trashOnly && s.selected > 0 {
      SelectionAlways(mode, loc, s, f);
    } else if !s.trashOnly {
      NoSelectionNoEditing(mode, loc, sort);
    }
  }

  /** The dialog, network and trash arms offer neither renaming nor moving to the trash. */
  lemma OtherArmsNoEditing(mode: Mode, loc: Location, s: Summary, sort: SortOptions)
    ensures RenameItem !in NetworkItems(mode, s, sort) && MoveToTrashItem !in NetworkItems(mode, s, sort)
    ensures RenameItem !in TrashItems(mode, s, sort) && MoveToTrashItem !in TrashItems(mode, s, sort)
    ensures mode.Dialog? ==> RenameItem !in DialogItems(mode, loc, s, sort) && MoveToTrashItem !in DialogItems(mode, loc, s, sort)
  {
  }

  /**
    Renaming and moving to the trash are offered only by the application and
    the desktop in a browsing location, for a selection that is not
    trash-only or for a desktop entry (src/menu.rs:145-469); a dialog, the
    network and the trash never offer them.
   */
  lemma ContextEditing(mode: Mode, loc: Location, s: Summary, sort: SortOptions, trashEntries: nat,
                       entry: Option<DesktopEntry>, f: Features)
    ensures var r := ContextMenu(mode, loc, s, sort, trashEntries, entry, f);
      && (RenameItem in r <==> Browsing(loc) && !mode.Dialog? && !s.trashOnly && (entry.Some? || s.selected > 0))
      && (MoveToTrashItem in r <==> Browsing(loc) && !mode.Dialog? && !s.trashOnly && (entry.Some? || s.selected > 0))
  {
    if loc.Network? || loc.Trash? || mode.Dialog? {
      OtherArmsNoEditing(mode, loc, s, sort);
    } else {
      BrowseEditing(mode, loc, s, sort, trashEntries, entry, f);
    }
  }
}
