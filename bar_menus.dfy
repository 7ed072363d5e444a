/**
  The two menu bars of src/menu.rs: `menu_bar` (src/menu.rs:798-1061), the
  File, Edit, View and Sort menus of the application window, and
  `dialog_menu` (src/menu.rs:639-796), the view, sort and more menus of a
  file-chooser dialog. Each is a sequence of trees, and each tree a root and
  its item list; what varies is which buttons are enabled and which check
  boxes are checked.
 */
module BarMenus {
  import opened MenuTypes
  import opened Selection
  import opened ContextMenus

  /** What the bars read of a tab: its location, its view settings, its sort and its items. */
  datatype TabState = TabState(
    location: Location,
    view: View,
    showHidden: bool,
    foldersFirst: bool,
    sort: SortOptions,
    items: Option<seq<FileItem>>)

  /** A menu root: a localised title (`menu::root`), or a themed icon button (`widget::icon::from_name`). */
  datatype Root = RootTitle(id: Msg) | RootIcon(name: string)

  /** `menu::Tree::with_children`: a root and the items under it. */
  datatype Tree = Tree(root: Root, children: seq<Item>)

  /** The column the newest-first and oldest-first items sort by: the trashing date in the trash, the modification date elsewhere. */
  function RecencyHeading(inTrash: bool): HeadingOptions {
    if inTrash then TrashedOn else Modified
  }

  /**
    `sort_item` of the bars (src/menu.rs:645-652, 804-812): a check box that
    sets the sort to `heading` in direction `dir`, checked when that is the
    current sort. The application bar may have no tab, and then nothing is
    checked; the dialog always has one.
   */
  function SortCheckItem(id: Msg, current: Option<SortOptions>, heading: HeadingOptions, dir: bool): Item {
    CheckBox(Fl(id), None,
             current.Some? && current.value.heading == heading && current.value.direction == dir,
             SetSort(heading, dir))
  }

  /** The six sort entries, each heading in both directions (src/menu.rs:705-734, 1022-1051). */
  function SortCheckItems(current: Option<SortOptions>, inTrash: bool): seq<Item> {
    [SortCheckItem(sort_a_z, current, Name, true),
     SortCheckItem(sort_z_a, current, Name, false),
     SortCheckItem(sort_newest_first, current, RecencyHeading(inTrash), false),
     SortCheckItem(sort_oldest_first, current, RecencyHeading(inTrash), true),
     SortCheckItem(sort_smallest_to_largest, current, Size, true),
     SortCheckItem(sort_largest_to_smallest, current, Size, false)]
  }

  /** The headings the sort menus offer. */
  predicate Offered(heading: HeadingOptions, inTrash: bool) {
    heading == Name || heading == Size || heading == RecencyHeading(inTrash)
  }

  /** "Open" in the File menu: files only, or one directory alone. */
  predicate BarOpenEnabled(c: Counts) {
    (c.selected > 0 && c.selectedDir == 0) || (c.selectedDir == 1 && c.selected == 1)
  }

  /** The File menu (src/menu.rs:834-905). */
  function FileItems(c: Counts): seq<Item> {
    [Btn(new_tab, tab_new_filled, TabNew),
     Btn(new_window, edit_copy, WindowNew),
     Btn(new_folder, folder_new, NewFolder),
     Btn(new_file, paper, NewFile),
     MenuButtonOptional(Fl(open), Some(document_open), Action.Open, BarOpenEnabled(c)),
     MenuButtonOptional(Fl(open_with), Some(external_link), OpenWith, c.selected == 1),
     Divider,
     MenuButtonOptional(Fl(rename), Some(edit_icon), Rename, c.selected > 0),
     Divider,
     MenuButtonOptional(Fl(add_to_sidebar), Some(dock_left), AddToSidebar, c.selected > 0),
     Divider,
     MenuButtonOptional(Fl(move_to_trash), Some(user_trash), MoveToTrash, c.selected > 0),
     Divider,
     Btn(close_tab, cross_small_square_filled, TabClose),
     Btn(quit, arrow_into_box, WindowClose)]
  }

  /** The Edit menu (src/menu.rs:906-942). */
  function EditItems(c: Counts): seq<Item> {
    [MenuButtonOptional(Fl(cut), Some(cut_icon), Cut, c.selected > 0),
     MenuButtonOptional(Fl(copy), Some(copy_icon), Copy, c.selected > 0),
     MenuButtonOptional(Fl(paste), Some(clipboard), Paste, c.selected > 0),
     Btn(select_all, edit_select_all, SelectAll),
     Divider,
     Btn(history, history_undo, EditHistory)]
  }

  /** The zoom buttons both bars share (src/menu.rs:747-761, 948-962). */
  const ZoomItems: seq<Item> := [
    Btn(zoom_in, value_increase, ZoomIn),
    Btn(default_size, loupe, ZoomDefault),
    Btn(zoom_out, value_decrease, ZoomOut)]

  /** The grid and list check boxes (src/menu.rs:677-689, 964-975). */
  function ViewChoiceItems(isGrid: bool, isList: bool): seq<Item> {
    [CheckBox(Fl(grid_view), Some(grid), isGrid, TabViewGrid),
     CheckBox(Fl(list_view), Some(list_large), isList, TabViewList)]
  }

  /** The hidden-files, folders-first and details check boxes (src/menu.rs:763-780, 977-994). */
  function ToggleItems(showHidden: bool, foldersFirst: bool, showDetails: bool): seq<Item> {
    [CheckBox(Fl(show_hidden_files), Some(view_conceal), showHidden, ToggleShowHidden),
     CheckBox(Fl(list_directories_first), Some(folder), foldersFirst, ToggleFoldersFirst),
     CheckBox(Fl(show_details), Some(info_outline), showDetails, Preview)]
  }

  /** The gallery button, enabled when a selected item can be shown in the gallery (src/menu.rs:782-787, 996-1001). */
  function GalleryItem(selectedGallery: nat): Item {
    MenuButtonOptional(Fl(gallery_preview), Some(image_round), Gallery, selectedGallery > 0)
  }

  /** The View menu (src/menu.rs:943-1016): with no tab, the tab's check boxes are unchecked. */
  function ViewItems(tab: Option<TabState>, showDetails: bool, c: Counts): seq<Item> {
    ZoomItems + [Divider]
    + ViewChoiceItems(tab.Some? && tab.value.view.Grid?, tab.Some? && tab.value.view.List?)
    + [Divider]
    + ToggleItems(tab.Some? && tab.value.showHidden, tab.Some? && tab.value.foldersFirst, showDetails)
    + [Divider, GalleryItem(c.selectedGallery), Divider,
       Btn(menu_settings, settings, Settings), Divider,
       Btn(menu_about, info_outline, About)]
  }

  /** The current sort of the application bar: absent without a tab. */
  function CurrentSort(tab: Option<TabState>): Option<SortOptions> {
    match tab
    case None => None
    case Some(t) => Some(t.sort)
  }

  /** Whether the tab shows the trash; no tab is not in the trash. */
  predicate InTrash(tab: Option<TabState>) {
    tab.Some? && tab.value.location.Trash?
  }

  /** `menu_bar` given its counts: File, Edit, View and Sort. */
  function MenuBarTrees(tab: Option<TabState>, showDetails: bool, c: Counts): seq<Tree> {
    [Tree(RootTitle(file), FileItems(c)),
     Tree(RootTitle(edit), EditItems(c)),
     Tree(RootTitle(view), ViewItems(tab, showDetails, c)),
     Tree(RootTitle(sort), SortCheckItems(CurrentSort(tab), InTrash(tab)))]
  }

  /** The selection counts of an optional tab: no tab counts nothing. */
  function TabCounts(tab: Option<TabState>): Counts {
    var sel := if tab.Some? then Selected(tab.value.items) else [];
    Counts(|sel|, CountDirs(sel), CountGallery(sel))
  }

  /** `menu_bar`: count the selection, then build the four menus. */
  method MenuBar(tab: Option<TabState>, showDetails: bool) returns (bar: seq<Tree>)
    ensures bar == MenuBarTrees(tab, showDetails, TabCounts(tab))
  {
    var c := Counts(0, 0, 0);
    if tab.Some? {
      c := CountSelection(tab.value.items);
    }
    bar := MenuBarTrees(tab, showDetails, c);
  }

  /** The dialog's view root shows the current view (src/menu.rs:668-671). */
  function ViewRootIcon(view: View): Root {
    match view
    case Grid => RootIcon("view-grid-symbolic")
    case List => RootIcon("view-list-symbolic")
  }

  /** The dialog's sort root shows the current direction (src/menu.rs:694-698). */
  function SortRootIcon(direction: bool): Root {
    if direction then RootIcon("view-sort-ascending-symbolic") else RootIcon("view-sort-descending-symbolic")
  }

  /** The dialog's more menu (src/menu.rs:739-790). */
  function MoreItems(tab: TabState, showDetails: bool, selectedGallery: nat): seq<Item> {
    ZoomItems + [Divider] + ToggleItems(tab.showHidden, tab.foldersFirst, showDetails)
    + [Divider, GalleryItem(selectedGallery)]
  }

  /** `dialog_menu` given its gallery count: view, sort and more. */
  function DialogMenuTrees(tab: TabState, showDetails: bool, selectedGallery: nat): seq<Tree> {
    [Tree(ViewRootIcon(tab.view), ViewChoiceItems(tab.view.Grid?, tab.view.List?)),
     Tree(SortRootIcon(tab.sort.direction), SortCheckItems(Some(tab.sort), tab.location.Trash?)),
     Tree(RootIcon("view-more-symbolic"), MoreItems(tab, showDetails, selectedGallery))]
  }

  /** `dialog_menu`: count the gallery-capable selection, then build the three menus. */
  method DialogMenu(tab: TabState, showDetails: bool) returns (bar: seq<Tree>)
    ensures bar == DialogMenuTrees(tab, showDetails, CountGallery(Selected(tab.items)))
  {
    var n := CountSelectedGallery(tab.items);
    bar := DialogMenuTrees(tab, showDetails, n);
  }

  /**
    A sort entry is checked exactly when there is a current sort and the
    entry sets that very heading and direction.
   */
  lemma SortCheckedIff(current: Option<SortOptions>, inTrash: bool)
    ensures var r := SortCheckItems(current, inTrash);
      forall i :: 0 <= i < |r| ==>
        && r[i].CheckBox? && r[i].icon.None?
        && (r[i].checked <==> current.Some? && r[i].action == SetSort(current.value.heading, current.value.direction))
  {
  }

  /** With no tab, no sort entry is checked. */
  lemma SortNoTab(inTrash: bool)
    ensures forall it :: it in SortCheckItems(None, inTrash) ==> !it.checked
  {
  }

  /** Newest first and oldest first sort by the trashing date in the trash and by the modification date elsewhere. */
  lemma SortRecency(current: Option<SortOptions>, inTrash: bool)
    ensures var r := SortCheckItems(current, inTrash);
      && r[2].action == SetSort(if inTrash then TrashedOn else Modified, false)
      && r[3].action == SetSort(if inTrash then TrashedOn else Modified, true)
  {
  }

  /** Every offered heading appears in both directions. */
  lemma SortCovers(current: Option<SortOptions>, inTrash: bool, heading: HeadingOptions, dir: bool)
    requires Offered(heading, inTrash)
    ensures exists i :: 0 <= i < 6 && SortCheckItems(current, inTrash)[i].action == SetSort(heading, dir)
  {
    var r := SortCheckItems(current, inTrash);
    var i := if heading == Name then (if dir then 0 else 1)
             else if heading == Size then (if dir then 4 else 5)
             else (if dir then 3 else 2);
    assert r[i].action == SetSort(heading, dir);
  }

  /** At most one sort entry is checked, and one is exactly when the current sort is one the menu offers. */
  lemma SortCheckedOnce(current: Option<SortOptions>, inTrash: bool)
    ensures var r := SortCheckItems(current, inTrash);
      && (forall i, j :: 0 <= i < |r| && 0 <= j < |r| && r[i].checked && r[j].checked ==> i == j)
      && ((exists i :: 0 <= i < |r| && r[i].checked) <==> current.Some? && Offered(current.value.heading, inTrash))
  {
    var r := SortCheckItems(current, inTrash);
    if current.Some? && Offered(current.value.heading, inTrash) {
      SortCovers(current, inTrash, current.value.heading, current.value.direction);
    }
  }

  /** The File menu's "Open" is an enabled button exactly under the Open rule, and a greyed-out one otherwise (src/menu.rs:859-864). */
  lemma FileOpen(c: Counts)
    ensures Button(Fl(open), Some(document_open), Action.Open) in FileItems(c) <==> BarOpenEnabled(c)
    ensures ButtonDisabled(Fl(open), Some(document_open), Action.Open) in FileItems(c) <==> !BarOpenEnabled(c)
  {
    MenuButtonOptionalShape(Fl(open), Some(document_open), Action.Open, BarOpenEnabled(c));
    assert FileItems(c)[4] in FileItems(c);
  }

  /** "Open with" is enabled exactly for a single selected item (src/menu.rs:865-870). */
  lemma FileOpenWith(c: Counts)
    ensures Button(Fl(open_with), Some(external_link), OpenWith) in FileItems(c) <==> c.selected == 1
    ensures ButtonDisabled(Fl(open_with), Some(external_link), OpenWith) in FileItems(c) <==> c.selected != 1
  {
    MenuButtonOptionalShape(Fl(open_with), Some(external_link), OpenWith, c.selected == 1);
    assert FileItems(c)[5] in FileItems(c);
  }

  /** "Rename" is enabled exactly when something is selected (src/menu.rs:872-877). */
  lemma FileRename(c: Counts)
    ensures Button(Fl(rename), Some(edit_icon), Rename) in FileItems(c) <==> c.selected > 0
    ensures ButtonDisabled(Fl(rename), Some(edit_icon), Rename) in FileItems(c) <==> c.selected == 0
  {
    MenuButtonOptionalShape(Fl(rename), Some(edit_icon), Rename, c.selected > 0);
    assert FileItems(c)[7] in FileItems(c);
  }

  /** "Add to sidebar" is enabled exactly when something is selected (src/menu.rs:879-884). */
  lemma FileSidebar(c: Counts)
    ensures Button(Fl(add_to_sidebar), Some(dock_left), AddToSidebar) in FileItems(c) <==> c.selected > 0
    ensures ButtonDisabled(Fl(add_to_sidebar), Some(dock_left), AddToSidebar) in FileItems(c) <==> c.selected == 0
  {
    MenuButtonOptionalShape(Fl(add_to_sidebar), Some(dock_left), AddToSidebar, c.selected > 0);
    assert FileItems(c)[9] in FileItems(c);
  }

  /** "Move to trash" is enabled exactly when something is selected (src/menu.rs:886-891). */
  lemma FileMoveToTrash(c: Counts)
    ensures Button(Fl(move_to_trash), Some(user_trash), MoveToTrash) in FileItems(c) <==> c.selected > 0
    ensures ButtonDisabled(Fl(move_to_trash), Some(user_trash), MoveToTrash) in FileItems(c) <==> c.selected == 0
  {
    MenuButtonOptionalShape(Fl(move_to_trash), Some(user_trash), MoveToTrash, c.selected > 0);
    assert FileItems(c)[11] in FileItems(c);
  }

  /** The File menu has fifteen entries; the tab, window, folder, file, close and quit buttons are always enabled (src/menu.rs:839-858, 893-902). */
  lemma FileAlways(c: Counts)
    ensures var r := FileItems(c);
      && |r| == 15
      && Btn(new_tab, tab_new_filled, TabNew) in r
      && Btn(new_window, edit_copy, WindowNew) in r
      && Btn(new_folder, folder_new, NewFolder) in r
      && Btn(new_file, paper, NewFile) in r
      && Btn(close_tab, cross_small_square_filled, TabClose) in r
      && Btn(quit, arrow_into_box, WindowClose) in r
  {
    var r := FileItems(c);
    assert r[0] in r && r[1] in r && r[2] in r && r[3] in r && r[13] in r && r[14] in r;
  }

  /** "Cut" is enabled exactly when something is selected (src/menu.rs:911-916). */
  lemma EditCut(c: Counts)
    ensures Button(Fl(cut), Some(cut_icon), Cut) in EditItems(c) <==> c.selected > 0
    ensures ButtonDisabled(Fl(cut), Some(cut_icon), Cut) in EditItems(c) <==> c.selected == 0
  {
    MenuButtonOptionalShape(Fl(cut), Some(cut_icon), Cut, c.selected > 0);
    assert EditItems(c)[0] in EditItems(c);
  }

  /** "Copy" is enabled exactly when something is selected (src/menu.rs:917-922). */
  lemma EditCopy(c: Counts)
    ensures Button(Fl(copy), Some(copy_icon), Copy) in EditItems(c) <==> c.selected > 0
    ensures ButtonDisabled(Fl(copy), Some(copy_icon), Copy) in EditItems(c) <==> c.selected == 0
  {
    MenuButtonOptionalShape(Fl(copy), Some(copy_icon), Copy, c.selected > 0);
    assert EditItems(c)[1] in EditItems(c);
  }

  /** "Paste" is enabled exactly when something is selected (src/menu.rs:923-928). */
  lemma EditPaste(c: Counts)
    ensures Button(Fl(paste), Some(clipboard), Paste) in EditItems(c) <==> c.selected > 0
    ensures ButtonDisabled(Fl(paste), Some(clipboard), Paste) in EditItems(c) <==> c.selected == 0
  {
    MenuButtonOptionalShape(Fl(paste), Some(clipboard), Paste, c.selected > 0);
    assert EditItems(c)[2] in EditItems(c);
  }

  /** "Select all" and "History" are always enabled (src/menu.rs:929-939). */
  lemma EditAlways(c: Counts)
    ensures var r := EditItems(c);
      && |r| == 6
      && Btn(select_all, edit_select_all, SelectAll) in r
      && Btn(history, history_undo, EditHistory) in r
  {
    var r := EditItems(c);
    assert r[3] in r && r[5] in r;
  }

  /** The gallery button is enabled exactly when a selected item can be shown in the gallery, in both bars (src/menu.rs:782-787, 996-1001). */
  lemma GalleryEnabled(tab: Option<TabState>, dialogTab: TabState, showDetails: bool, c: Counts, selectedGallery: nat)
    ensures Button(Fl(gallery_preview), Some(image_round), Gallery) in ViewItems(tab, showDetails, c) <==> c.selectedGallery > 0
    ensures Button(Fl(gallery_preview), Some(image_round), Gallery) in MoreItems(dialogTab, showDetails, selectedGallery) <==> selectedGallery > 0
  {
    MenuButtonOptionalShape(Fl(gallery_preview), Some(image_round), Gallery, c.selectedGallery > 0);
    MenuButtonOptionalShape(Fl(gallery_preview), Some(image_round), Gallery, selectedGallery > 0);
    var v := ViewItems(tab, showDetails, c);
    var m := MoreItems(dialogTab, showDetails, selectedGallery);
    assert v[11] in v;
    assert m[8] in m;
  }

  /**
    The View menu's grid and list check boxes follow the tab's view, so with
    a tab exactly one of them is checked; with no tab neither is (src/menu.rs:964-975).
   */
  lemma ViewChoiceChecks(tab: Option<TabState>, showDetails: bool, c: Counts)
    ensures var r := ViewItems(tab, showDetails, c);
      && (CheckBox(Fl(grid_view), Some(grid), true, TabViewGrid) in r <==> tab.Some? && tab.value.view.Grid?)
      && (CheckBox(Fl(list_view), Some(list_large), true, TabViewList) in r <==> tab.Some? && tab.value.view.List?)
  {
    var r := ViewItems(tab, showDetails, c);
    assert r[4] in r && r[5] in r;
  }

  /** The hidden-files and folders-first check boxes follow the tab's settings, unchecked with no tab (src/menu.rs:977-988). */
  lemma ViewToggleChecks(tab: Option<TabState>, showDetails: bool, c: Counts)
    ensures var r := ViewItems(tab, showDetails, c);
      && (CheckBox(Fl(show_hidden_files), Some(view_conceal), true, ToggleShowHidden) in r <==> tab.Some? && tab.value.showHidden)
      && (CheckBox(Fl(list_directories_first), Some(folder), true, ToggleFoldersFirst) in r <==> tab.Some? && tab.value.foldersFirst)
  {
    var r := ViewItems(tab, showDetails, c);
    assert r[7] in r && r[8] in r;
  }

  /** The details check box follows the configuration, tab or no tab (src/menu.rs:989-994). */
  lemma ViewDetailsCheck(tab: Option<TabState>, showDetails: bool, c: Counts)
    ensures CheckBox(Fl(show_details), Some(info_outline), true, Preview) in ViewItems(tab, showDetails, c) <==> showDetails
  {
    var r := ViewItems(tab, showDetails, c);
    assert r[9] in r;
  }

  /** The View menu always offers zooming, the settings and the about page (src/menu.rs:948-962, 1003-1013). */
  lemma ViewAlways(tab: Option<TabState>, showDetails: bool, c: Counts)
    ensures var r := ViewItems(tab, showDetails, c);
      && |r| == 16
      && (forall it :: it in ZoomItems ==> it in r)
      && Btn(menu_settings, settings, Settings) in r
      && Btn(menu_about, info_outline, About) in r
  {
    var r := ViewItems(tab, showDetails, c);
    assert r[0] in r && r[1] in r && r[2] in r && r[13] in r && r[15] in r;
  }

  /**
    The dialog always has a tab, so its sort menu checks exactly the entry of
    the tab's sort, and one entry is checked whenever that heading is offered (src/menu.rs:645-652, 700-736).
   */
  lemma DialogSortChecks(tab: TabState, showDetails: bool, selectedGallery: nat)
    ensures var r := DialogMenuTrees(tab, showDetails, selectedGallery)[1].children;
      && (forall i :: 0 <= i < |r| ==> (r[i].checked <==> r[i].action == SetSort(tab.sort.heading, tab.sort.direction)))
      && (Offered(tab.sort.heading, tab.location.Trash?) <==> exists i :: 0 <= i < |r| && r[i].checked)
  {
    SortCheckedIff(Some(tab.sort), tab.location.Trash?);
    SortCheckedOnce(Some(tab.sort), tab.location.Trash?);
  }

  /** The dialog's grid and list check boxes follow the tab's view, so exactly one is checked (src/menu.rs:673-690). */
  lemma DialogChoiceChecks(tab: TabState, showDetails: bool, selectedGallery: nat)
    ensures var v := DialogMenuTrees(tab, showDetails, selectedGallery)[0].children;
      && (CheckBox(Fl(grid_view), Some(grid), true, TabViewGrid) in v <==> tab.view.Grid?)
      && (CheckBox(Fl(list_view), Some(list_large), true, TabViewList) in v <==> tab.view.List?)
  {
    var v := DialogMenuTrees(tab, showDetails, selectedGallery)[0].children;
    assert v[0] in v && v[1] in v;
  }

  /** The dialog's hidden-files, folders-first and details check boxes follow the tab and the configuration (src/menu.rs:763-780). */
  lemma DialogToggleChecks(tab: TabState, showDetails: bool, selectedGallery: nat)
    ensures var m := MoreItems(tab, showDetails, selectedGallery);
      && (CheckBox(Fl(show_hidden_files), Some(view_conceal), true, ToggleShowHidden) in m <==> tab.showHidden)
      && (CheckBox(Fl(list_directories_first), Some(folder), true, ToggleFoldersFirst) in m <==> tab.foldersFirst)
      && (CheckBox(Fl(show_details), Some(info_outline), true, Preview) in m <==> showDetails)
  {
    var m := MoreItems(tab, showDetails, selectedGallery);
    assert m[4] in m && m[5] in m && m[6] in m;
  }
}
