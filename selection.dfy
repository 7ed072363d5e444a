/**
  The selection summaries the menu builders compute before choosing items
  (src/menu.rs:100-129, 655-664 and 816-831): passes over the tab's items that
  count the selected ones, the selected directories and the selected
  gallery-capable ones, note whether a selected item lies in the trash, take
  a desktop-entry path from the first selected item, and collect the selected
  MIME types.
 */
module Selection {
  import opened MenuTypes
  import opened Paths
  import opened MimeOrder

  /**
    What the menus read of one item of a tab: `item.selected`,
    `item.metadata.is_dir()`, `item.can_gallery()`, `item.location_opt` and `item.mime`.
   */
  datatype FileItem = FileItem(
    selected: bool,
    isDir: bool,
    canGallery: bool,
    location: Option<Location>,
    mime: Mime)

  /** The selected items, in order. */
  function SelectedItems(items: seq<FileItem>): (r: seq<FileItem>)
    ensures |r| <= |items|
  {
    if items == [] then []
    else
      var last := items[|items| - 1];
      assert items == items[..|items| - 1] + [last];
      SelectedItems(items[..|items| - 1]) + (if last.selected then [last] else [])
  }

  /** `tab.items_opt()` may be absent; then nothing is selected. */
  function Selected(items: Option<seq<FileItem>>): seq<FileItem> {
    match items
    case None => []
    case Some(s) => SelectedItems(s)
  }

  /** The number of directories in `s`. */
  function CountDirs(s: seq<FileItem>): (n: nat)
    ensures n <= |s|
  {
    if s == [] then 0
    else
      var last := s[|s| - 1];
      assert s == s[..|s| - 1] + [last];
      CountDirs(s[..|s| - 1]) + (if last.isDir then 1 else 0)
  }

  /** The number of gallery-capable items in `s`. */
  function CountGallery(s: seq<FileItem>): (n: nat)
    ensures n <= |s|
  {
    if s == [] then 0
    else
      var last := s[|s| - 1];
      assert s == s[..|s| - 1] + [last];
      CountGallery(s[..|s| - 1]) + (if last.canGallery then 1 else 0)
  }

  /** The MIME types of `s`, in order, repeats kept. */
  function Mimes(s: seq<FileItem>): (r: seq<Mime>)
    ensures |r| == |s|
  {
    if s == [] then []
    else
      var last := s[|s| - 1];
      assert s == s[..|s| - 1] + [last];
      Mimes(s[..|s| - 1]) + [last.mime]
  }

  /** The selected items are exactly the items whose `selected` flag is set. */
  lemma {:induction false} SelectedItemsMembers(items: seq<FileItem>)
    ensures forall it :: it in SelectedItems(items) <==> it in items && it.selected
  {
    if items != [] {
      var init := items[..|items| - 1];
      SelectedItemsMembers(init);
      assert items == init + [items[|items| - 1]];
    }
  }

  /** All of `s` are directories exactly when the count is `|s|`; none are exactly when it is 0. */
  lemma {:induction false} CountDirsExtremes(s: seq<FileItem>)
    ensures CountDirs(s) == |s| <==> forall it :: it in s ==> it.isDir
    ensures CountDirs(s) == 0 <==> forall it :: it in s ==> !it.isDir
  {
    if s != [] {
      var init := s[..|s| - 1];
      CountDirsExtremes(init);
      assert s == init + [s[|s| - 1]];
    }
  }

  /** No item of `s` is gallery-capable exactly when the gallery count is 0. */
  lemma {:induction false} CountGalleryZero(s: seq<FileItem>)
    ensures CountGallery(s) == 0 <==> forall it :: it in s ==> !it.canGallery
  {
    if s != [] {
      var init := s[..|s| - 1];
      CountGalleryZero(init);
      assert s == init + [s[|s| - 1]];
    }
  }

  /** The collected types are exactly the types of the items. */
  lemma {:induction false} MimesMembers(s: seq<FileItem>)
    ensures forall t :: t in Mimes(s) <==> exists it :: it in s && it.mime == t
  {
    if s != [] {
      var init := s[..|s| - 1];
      MimesMembers(init);
      assert s == init + [s[|s| - 1]];
    }
  }

  /** The desktop-entry path: only the first selected item's, and only when it is a `.desktop` path. */
  function FirstDesktopPath(sel: seq<FileItem>): Option<FsPath> {
    if sel != [] && sel[0].location.Some? && sel[0].location.value.Path? && IsDesktopFile(sel[0].location.value.path)
    then Some(sel[0].location.value.path)
    else None
  }

  /** The summary `context_menu` computes before branching. */
  datatype Summary = Summary(
    selected: nat,
    selectedDir: nat,
    trashOnly: bool,
    desktopPath: Option<FsPath>,
    types: seq<Mime>)

  /** The summary's promised relation to the items it was computed from. */
  ghost predicate Summarises(s: Summary, items: Option<seq<FileItem>>) {
    var sel := Selected(items);
    && s.selected == |sel|
    && s.selectedDir == CountDirs(sel)
    && s.trashOnly == ((exists it :: it in sel && it.location == Some(Location.Trash)) && |sel| == 1)
    && s.desktopPath == FirstDesktopPath(sel)
    && StrictlySorted(s.types)
    && (forall t :: t in s.types <==> exists it :: it in sel && it.mime == t)
  }

  /** What one more item does to the selected items and to everything computed from them. */
  lemma SelectionStep(items: seq<FileItem>, i: nat)
    requires i < |items|
    ensures var sel, sel', x := SelectedItems(items[..i]), SelectedItems(items[..i + 1]), items[i];
      if x.selected then
        && sel' == sel + [x]
        && |sel'| == |sel| + 1
        && CountDirs(sel') == CountDirs(sel) + (if x.isDir then 1 else 0)
        && CountGallery(sel') == CountGallery(sel) + (if x.canGallery then 1 else 0)
        && Mimes(sel') == Mimes(sel) + [x.mime]
        && FirstDesktopPath(sel') == (if sel == [] then FirstDesktopPath([x]) else FirstDesktopPath(sel))
      else sel' == sel
  {
    assert items[..i + 1][..i] == items[..i];
    var sel := SelectedItems(items[..i]);
    assert (sel + [items[i]])[..|sel|] == sel;
  }

  /** The variables of the summary loop of `context_menu`. */
  datatype Scan = Scan(selected: nat, selectedDir: nat, trash: bool, desktop: Option<FsPath>, types: seq<Mime>)

  /** One pass of the loop body over `x`. */
  ghost function Visit(s: Scan, x: FileItem): Scan {
    if !x.selected then s
    else
      var n := s.selected + 1;
      Scan(
        n,
        s.selectedDir + (if x.isDir then 1 else 0),
        s.trash || x.location == Some(Location.Trash),
        if x.location.Some? && x.location.value.Path? && n == 1 && IsDesktopFile(x.location.value.path)
        then Some(x.location.value.path) else s.desktop,
        s.types + [x.mime])
  }

  /** The loop variables after visiting `items` in order. */
  ghost function ScanOf(items: seq<FileItem>): Scan {
    if items == [] then Scan(0, 0, false, None, [])
    else Visit(ScanOf(items[..|items| - 1]), items[|items| - 1])
  }

  lemma ScanStep(items: seq<FileItem>, i: nat)
    requires i < |items|
    ensures ScanOf(items[..i + 1]) == Visit(ScanOf(items[..i]), items[i])
  {
    assert items[..i + 1][..i] == items[..i];
  }

  /** The loop's counter is the number of selected items. */
  lemma {:induction false} ScanSelected(items: seq<FileItem>)
    ensures ScanOf(items).selected == |SelectedItems(items)|
  {
    if items != [] {
      var i := |items| - 1;
      ScanSelected(items[..i]);
      SelectionStep(items, i);
      assert items[..i + 1] == items;
    }
  }

  /** The loop's directory counter is the number of selected directories. */
  lemma {:induction false} ScanDirs(items: seq<FileItem>)
    ensures ScanOf(items).selectedDir == CountDirs(SelectedItems(items))
  {
    if items != [] {
      var i := |items| - 1;
      ScanDirs(items[..i]);
      SelectionStep(items, i);
      assert items[..i + 1] == items;
    }
  }

  /** The loop's trash flag says whether a selected item lies in the trash. */
  lemma {:induction false} ScanTrash(items: seq<FileItem>)
    ensures ScanOf(items).trash <==> exists it :: it in SelectedItems(items) && it.location == Some(Location.Trash)
  {
    if items != [] {
      var i := |items| - 1;
      ScanTrash(items[..i]);
      SelectionStep(items, i);
      assert items[..i + 1] == items;
      var sel := SelectedItems(items[..i]);
      if items[i].selected && items[i].location == Some(Location.Trash) {
        assert items[i] in sel + [items[i]];
      }
    }
  }

  /** The loop's desktop entry is the first selected item's desktop path. */
  lemma {:induction false} ScanDesktop(items: seq<FileItem>)
    ensures ScanOf(items).desktop == FirstDesktopPath(SelectedItems(items))
  {
    if items != [] {
      var i := |items| - 1;
      ScanDesktop(items[..i]);
      ScanSelected(items[..i]);
      SelectionStep(items, i);
      assert items[..i + 1] == items;
    }
  }

  /** The loop's types are the selected items' types, in order. */
  lemma {:induction false} ScanTypes(items: seq<FileItem>)
    ensures ScanOf(items).types == Mimes(SelectedItems(items))
  {
    if items != [] {
      var i := |items| - 1;
      ScanTypes(items[..i]);
      SelectionStep(items, i);
      assert items[..i + 1] == items;
    }
  }

  /**
    The selection-summary loop of `context_menu` (src/menu.rs:100-129),
    followed by `sort_unstable`, `dedup` and the `&& selected == 1` on the trash flag.
   */
  method Summarize(items: Option<seq<FileItem>>) returns (s: Summary)
    ensures Summarises(s, items)
  {
    var selectedDir: nat := 0;
    var selected: nat := 0;
    var selectedTrashOnly := false;
    var selectedDesktopEntry: Option<FsPath> := None;
    var selectedTypes: seq<Mime> := [];
    var xs := if items.Some? then items.value else [];
    if items.Some? {
      for i := 0 to |xs|
        invariant Scan(selected, selectedDir, selectedTrashOnly, selectedDesktopEntry, selectedTypes) == ScanOf(xs[..i])
      {
        ScanStep(xs, i);
        var item := xs[i];
        if item.selected {
          selected := selected + 1;
          if item.isDir {
            selectedDir := selectedDir + 1;
          }
          match item.location {
            case Some(Trash) => selectedTrashOnly := true;
            case Some(Path(path)) =>
              if selected == 1 && IsDesktopFile(path) {
                selectedDesktopEntry := Some(path);
              }
            case _ =>
          }
          selectedTypes := selectedTypes + [item.mime];
        }
      }
      assert xs[..|xs|] == xs;
    }
    ScanSelected(xs);
    ScanDirs(xs);
    ScanTrash(xs);
    ScanDesktop(xs);
    ScanTypes(xs);
    MimesMembers(Selected(items));
    selectedTypes := SortDedup(selectedTypes);
    selectedTrashOnly := selectedTrashOnly && selected == 1;
    s := Summary(selected, selectedDir, selectedTrashOnly, selectedDesktopEntry, selectedTypes);
  }

  /** What the summary implies: at most as many directories as selected items, the trash flag only for a single selection, a desktop path only from a selected `.desktop` path. */
  lemma SummaryBounds(s: Summary, items: Option<seq<FileItem>>)
    requires Summarises(s, items)
    ensures s.selectedDir <= s.selected
    ensures s.trashOnly ==> s.selected == 1
    ensures s.desktopPath.Some? ==> s.selected >= 1 && IsDesktopFile(s.desktopPath.value)
  {
  }

  /** No more distinct types than selected items, and nothing at all recorded for an empty selection. */
  lemma SummaryTypesBound(s: Summary, items: Option<seq<FileItem>>)
    requires Summarises(s, items)
    ensures |s.types| <= s.selected
    ensures s.selected == 0 ==> s.types == [] && s.desktopPath.None? && !s.trashOnly
  {
    var sel := Selected(items);
    var distinct := SortDedup(Mimes(sel));
    MimesMembers(sel);
    StrictlySortedUnique(s.types, distinct);
    assert s.types == distinct;
    TypesBound(Mimes(sel));
  }

  /** Deduplication never lengthens the sequence. */
  lemma {:induction false} TypesBound(t: seq<Mime>)
    ensures |SortDedup(t)| <= |t|
  {
    if t != [] {
      var init := t[..|t| - 1];
      TypesBound(init);
      InsertSortedLength(SortDedup(init), t[|t| - 1]);
    }
  }

  /** Inserting adds at most one element. */
  lemma {:induction false} InsertSortedLength(s: seq<Mime>, x: Mime)
    requires StrictlySorted(s)
    ensures |InsertSorted(s, x)| <= |s| + 1
  {
    if s != [] && x != s[0] && !Less(x, s[0]) {
      InsertSortedLength(s[1..], x);
    }
  }

  /** The three counters `menu_bar` computes (src/menu.rs:816-831). */
  datatype Counts = Counts(selected: nat, selectedDir: nat, selectedGallery: nat)

  /** The counting loop of `menu_bar`: no tab, or a tab without items, counts nothing. */
  method CountSelection(items: Option<seq<FileItem>>) returns (c: Counts)
    ensures c.selected == |Selected(items)|
    ensures c.selectedDir == CountDirs(Selected(items))
    ensures c.selectedGallery == CountGallery(Selected(items))
  {
    var selectedDir: nat := 0;
    var selected: nat := 0;
    var selectedGallery: nat := 0;
    if items.Some? {
      var xs := items.value;
      for i := 0 to |xs|
        invariant selected == |SelectedItems(xs[..i])|
        invariant selectedDir == CountDirs(SelectedItems(xs[..i]))
        invariant selectedGallery == CountGallery(SelectedItems(xs[..i]))
      {
        SelectionStep(xs, i);
        var item := xs[i];
        if item.selected {
          selected := selected + 1;
          if item.isDir {
            selectedDir := selectedDir + 1;
          }
          if item.canGallery {
            selectedGallery := selectedGallery + 1;
          }
        }
      }
      assert xs[..|xs|] == xs;
    }
    c := Counts(selected, selectedDir, selectedGallery);
  }

  /** The counting loop of `dialog_menu` (src/menu.rs:655-664): only the gallery-capable selected items. */
  method CountSelectedGallery(items: Option<seq<FileItem>>) returns (n: nat)
    ensures n == CountGallery(Selected(items))
  {
    n := 0;
    if items.Some? {
      var xs := items.value;
      for i := 0 to |xs|
        invariant n == CountGallery(SelectedItems(xs[..i]))
      {
        SelectionStep(xs, i);
        if xs[i].selected {
          if xs[i].canGallery {
            n := n + 1;
          }
        }
      }
      assert xs[..|xs|] == xs;
    }
  }
}
