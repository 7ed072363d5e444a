/**
  The vocabulary shared by the menu builders of src/menu.rs: the tab's mode and
  location, the sort headings, the actions a menu item emits, and the abstract
  menu items (`menu::Item`) the builders return. Localised labels, icons and
  widget layout stay opaque: a label is the id of its localised message, an
  icon is the cache key it is requested under.
 */
module MenuTypes {
  import opened Icons

  datatype Option<T> = None | Some(value: T)

  /** The kind of a file-chooser dialog, through the two questions the menus ask of it. */
  datatype DialogKind = DialogKind(save: bool, multiple: bool)

  /** `tab::Mode`. */
  datatype Mode = App | Desktop | Dialog(kind: DialogKind)

  /**
    `Mode::multiple()`: whether several items may be selected. The application
    and the desktop always allow it; a dialog allows it when its kind does.
   */
  predicate Multiple(mode: Mode) {
    match mode
    case App => true
    case Desktop => true
    case Dialog(kind) => kind.multiple
  }

  /** A file-system path, as its sequence of component names. */
  datatype FsPath = FsPath(components: seq<string>)

  /** `tab::Location`, with the data of each variant that the menus never look at kept abstract. */
  datatype Location =
    | Desktop(path: FsPath)
    | Path(path: FsPath)
    | Search(path: FsPath, term: string)
    | Recents
    | Network(uri: string, name: string)
    | Trash

  /** The locations that get the file-browsing context menus. */
  predicate Browsing(loc: Location) {
    loc.Desktop? || loc.Path? || loc.Search? || loc.Recents?
  }

  /** `tab::HeadingOptions`: the columns a tab can be sorted by. */
  datatype HeadingOptions = Name | Modified | Size | TrashedOn

  /** The first two parts of `tab.sort_options()`: the sort column and its direction. */
  datatype SortOptions = SortOptions(heading: HeadingOptions, direction: bool)

  /** `tab::View`. */
  datatype View = Grid | List

  /** `app::Action`, restricted to the actions the menus emit. */
  datatype Action =
    | About | AddToSidebar | Compress | Copy | CosmicSettingsAppearance
    | CosmicSettingsDisplays | CosmicSettingsWallpaper | Cut | DesktopViewOptions
    | EditHistory | EmptyTrash | ExecEntryAction(index: nat) | ExtractHere | Gallery
    | MoveToTrash | NewFile | NewFolder | Open | OpenInNewTab | OpenInNewWindow
    | OpenItemLocation | OpenTerminal | OpenWith | Paste | Preview | Rename
    | RestoreFromTrash | SelectAll | SetSort(sort: HeadingOptions, dir: bool) | Settings
    | TabClose | TabNew | TabViewGrid | TabViewList | ToggleFoldersFirst
    | ToggleShowHidden | ToggleSort(variant: HeadingOptions) | WindowClose | WindowNew
    | ZoomDefault | ZoomIn | ZoomOut

  /** The arrow a context-menu sort label ends with: U+2B07, U+2B06, or nothing. */
  datatype Arrow = DownArrow | UpArrow | NoArrow

  /**
    The ids of the localised messages the menus show, as in the translation
    files (`fl!("open-with")` is `open_with`).
   */
  datatype Msg =
    | about | add_to_sidebar | change_wallpaper | close_tab | compress | copy | cut
    | default_size | desktop_appearance | desktop_view_options | display_settings | edit
    | empty_trash | extract_here | file | gallery_preview | grid_view | history
    | list_directories_first | list_view | menu_about | menu_settings | move_to_trash
    | new_file | new_folder | new_tab | new_window | open | open_in_new_tab
    | open_in_new_window | open_in_terminal | open_item_location | open_with | paste | quit
    | rename | restore_from_trash | select_all | show_details | show_hidden_files | sort
    | sort_a_z | sort_by_modified | sort_by_name | sort_by_size | sort_by_trashed
    | sort_largest_to_smallest | sort_newest_first | sort_oldest_first
    | sort_smallest_to_largest | sort_z_a | view | zoom_in | zoom_out

  /** An opaque label: a localised message, a literal text, or a sort message with its arrow. */
  datatype Label = Fl(id: Msg) | Text(text: string) | SortLabel(id: Msg, arrow: Arrow)

  /**
    The icons the menus request from the icon cache at size 14, by name
    without the common `-symbolic` suffix.
   */
  datatype Glyph =
    | archive_extract | arrow_into_box | brush_monitor | clipboard | copy_icon
    | cross_small_square_filled | cut_icon | display | dock_left | document_open | edit_copy
    | edit_icon | edit_select_all | empty_trash_bin | external_link | folder | folder_new
    | grid | history_undo | image | image_round | info_outline | list_large | loupe
    | package_x_generic | paper | settings | shell_overview | symbolic_link
    | tab_new_filled | terminal | user_trash | value_decrease | value_increase | view_conceal

  /** The icon name a glyph is requested under. */
  function GlyphName(g: Glyph): string {
    match g
    case archive_extract => "archive-extract-symbolic"
    case arrow_into_box => "arrow-into-box-symbolic"
    case brush_monitor => "brush-monitor-symbolic"
    case clipboard => "clipboard-symbolic"
    case copy_icon => "copy-symbolic"
    case cross_small_square_filled => "cross-small-square-filled-symbolic"
    case cut_icon => "cut-symbolic"
    case display => "display-symbolic"
    case dock_left => "dock-left-symbolic"
    case document_open => "document-open-symbolic"
    case edit_copy => "edit-copy-symbolic"
    case edit_icon => "edit-symbolic"
    case edit_select_all => "edit-select-all-symbolic"
    case empty_trash_bin => "empty-trash-bin-symbolic"
    case external_link => "external-link-symbolic"
    case folder => "folder-symbolic"
    case folder_new => "folder-new-symbolic"
    case grid => "grid-symbolic"
    case history_undo => "history-undo-symbolic"
    case image => "image-symbolic"
    case image_round => "image-round-symbolic"
    case info_outline => "info-outline-symbolic"
    case list_large => "list-large-symbolic"
    case loupe => "loupe-symbolic"
    case package_x_generic => "package-x-generic-symbolic"
    case paper => "paper-symbolic"
    case settings => "settings-symbolic"
    case shell_overview => "shell-overview-symbolic"
    case symbolic_link => "symbolic-link-symbolic"
    case tab_new_filled => "tab-new-filled-symbolic"
    case terminal => "terminal-symbolic"
    case user_trash => "user-trash-symbolic"
    case value_decrease => "value-decrease-symbolic"
    case value_increase => "value-increase-symbolic"
    case view_conceal => "view-conceal-symbolic"
  }

  /** `icons::get_handle(name, 14)`: the cache key a glyph is requested under. */
  function KeyOf(g: Glyph): IconCacheKey {
    IconCacheKey(GlyphName(g), BundledSize)
  }

  /**
    `menu::Item`. The context menu's buttons and dividers are modelled by the
    same constructors: each of its buttons is pressable and emits its action.
   */
  datatype Item =
    | Button(title: Label, icon: Option<Glyph>, action: Action)
    | ButtonDisabled(title: Label, icon: Option<Glyph>, action: Action)
    | CheckBox(title: Label, icon: Option<Glyph>, checked: bool, action: Action)
    | Divider

  /** A labelled button with an icon. */
  function Btn(id: Msg, icon: Glyph, action: Action): Item {
    Button(Fl(id), Some(icon), action)
  }

  /** `menu_button_optional`: an enabled button, or the same button disabled. */
  function MenuButtonOptional(title: Label, icon: Option<Glyph>, action: Action, enabled: bool): Item {
    if enabled then Button(title, icon, action) else ButtonDisabled(title, icon, action)
  }

  /** The button is pressable exactly when enabled, and greyed out otherwise; its label, icon and action are kept either way. */
  lemma MenuButtonOptionalShape(title: Label, icon: Option<Glyph>, action: Action, enabled: bool)
    ensures var r := MenuButtonOptional(title, icon, action, enabled);
      && (r.Button? <==> enabled)
      && (r.ButtonDisabled? <==> !enabled)
      && r.title == title && r.icon == icon && r.action == action
  {
  }

  /** "image-symbolic" is not bundled: the menu icon of the wallpaper entry comes from the theme lookup. */
  lemma ImageNotBundled()
    ensures GlyphName(image) !in Bundle
    ensures Resolve(KeyOf(image)) == FromName(GlyphName(image), BundledSize)
  {
    assert forall k :: 0 <= k < |Bundle| ==> Bundle[k] != GlyphName(image);
  }
}
