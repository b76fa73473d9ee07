/**
 The native menu as data: its ids, its tree, its labels and their validation, and
 the flags that a window's snapshot gives each item (src-tauri/src/native_menu_spec.rs).
 */
module MenuSpec {
  import opened Options
  import opened Text

  /** The items whose flags a window's snapshot decides. */
  datatype Owned =
    | NewWindow | OpenWorkspace | Save | ExportImage | VersionHistory
    | AppearanceSystem | AppearanceLight | AppearanceDark
    | LanguageSystem | LanguageEn | LanguageZhCn | LanguageEs | LanguageJa
    | ToolLock | Grid | Snap | Zen | ViewMode | Help | Quit

  datatype SubmenuName =
    | ApplicationMenu | LanguageMenu | FileMenu | EditMenu | ViewMenu | AppearanceMenu | WindowMenu | HelpMenu

  /** The ids the source names as distinct string constants, and any other id. */
  datatype MenuId = OwnedId(item: Owned) | SubmenuId(menu: SubmenuName) | OtherId(name: string)

  const HISTORY := OwnedId(VersionHistory)

  /** The label ids the source names as string constants, and any other id. */
  datatype LabelKey =
    | LAppAbout | LAppLanguage | LAppLanguageSystem | LAppLanguageEn | LAppLanguageZhCn
    | LAppLanguageEs | LAppLanguageJa | LAppServices | LAppHide | LAppHideOthers | LAppQuit | LFile
    | LFileNewWindow | LFileOpenWorkspace | LFileSave | LFileExportImage | LFileVersionHistory
    | LFileCloseWindow | LEdit | LEditUndo | LEditRedo | LEditCut | LEditCopy | LEditPaste
    | LEditSelectAll | LView | LViewAppearance | LViewAppearanceSystem | LViewAppearanceLight
    | LViewAppearanceDark | LViewToolLock | LViewGrid | LViewSnap | LViewZen | LViewViewMode
    | LViewFullscreen | LWindow | LWindowMinimize | LWindowZoom | LHelp | LHelpExcalidrawHelp
    | OtherLabel(name: string)

  /** An item's text: a label, or the spelling of an id that has none. */
  datatype ItemText = Words(text: string) | IdItself(key: LabelKey)

  datatype Language = System | En | ZhCn | Es | Ja

  datatype Appearance = Auto | Light | Dark

  datatype SyncState = SyncState(
    language: Language,
    appearance: Appearance,
    hasDocument: bool,
    forcedReadOnly: bool,
    toolLock: bool,
    grid: bool,
    snap: bool,
    zen: bool,
    viewMode: bool)

  const DEFAULT_STATE := SyncState(System, Auto, false, false, false, false, false, false, false)

  /** `checked` is present only for check items. */
  datatype ItemState = ItemState(enabled: bool, checked: Option<bool>)

  /** The state of an owned item; `None` for ids the snapshot does not govern. */
  function ItemStateOf(id: MenuId, s: SyncState, historyEnabled: bool, hasWindow: bool): Option<ItemState> {
    if id.OwnedId? then Some(OwnedState(id.item, s, historyEnabled, hasWindow)) else None
  }

  function OwnedState(item: Owned, s: SyncState, historyEnabled: bool, hasWindow: bool): ItemState {
    var document := s.hasDocument;
    var editable := document && !s.forcedReadOnly;
    match item
    case NewWindow => Plain(true)
    case Quit => Plain(true)
    case OpenWorkspace => Plain(hasWindow)
    case Save => Plain(document)
    case ExportImage => Plain(true)
    case VersionHistory => Plain(historyEnabled)
    case Help => Plain(document)
    case AppearanceSystem => Checked(true, s.appearance == Auto)
    case AppearanceLight => Checked(true, s.appearance == Light)
    case AppearanceDark => Checked(true, s.appearance == Dark)
    case LanguageSystem => Checked(true, s.language == System)
    case LanguageEn => Checked(true, s.language == En)
    case LanguageZhCn => Checked(true, s.language == ZhCn)
    case LanguageEs => Checked(true, s.language == Es)
    case LanguageJa => Checked(true, s.language == Ja)
    case ToolLock => Checked(editable, s.toolLock)
    case Grid => Checked(document, s.grid)
    case Snap => Checked(editable, s.snap)
    case Zen => Checked(document, s.zen)
    case ViewMode => Checked(editable, s.forcedReadOnly || s.viewMode)
  }

  function Plain(enabled: bool): ItemState {
    ItemState(enabled, None)
  }

  function Checked(enabled: bool, checked: bool): ItemState {
    ItemState(enabled, Some(checked))
  }

  /** Ids that are forwarded to a webview: New Window and Quit are handled in Rust. */
  predicate IsCommand(id: MenuId) {
    id.OwnedId? && !id.item.NewWindow? && !id.item.Quit?
  }

  // ---------------------------------------------------------------- the tree

  datatype SystemItem =
    | About | Services | Hide | HideOthers | CloseWindow | Undo | Redo | Cut
    | Copy | Paste | SelectAll | Minimize | Zoom | Fullscreen

  datatype SubmenuLabel = LabelId(key: LabelKey) | AppName

  datatype MenuEntry =
    | Submenu(id: MenuId, title: SubmenuLabel, children: seq<MenuEntry>)
    | Item(id: MenuId, key: LabelKey, check: bool, accelerator: Option<string>)
    | SystemEntry(kind: SystemItem, key: LabelKey)
    | Separator

  function PlainEntry(item: Owned, key: LabelKey): MenuEntry {
    Item(OwnedId(item), key, false, None)
  }

  function CheckEntry(item: Owned, key: LabelKey): MenuEntry {
    Item(OwnedId(item), key, true, None)
  }

  const QUIT_ENTRY := Item(OwnedId(Quit), LAppQuit, false, Some("CmdOrCtrl+Q"))

  const LANGUAGE_SUBMENU :=
    Submenu(SubmenuId(LanguageMenu), LabelId(LAppLanguage), [
      CheckEntry(LanguageSystem, LAppLanguageSystem),
      CheckEntry(LanguageEn, LAppLanguageEn),
      CheckEntry(LanguageZhCn, LAppLanguageZhCn),
      CheckEntry(LanguageEs, LAppLanguageEs),
      CheckEntry(LanguageJa, LAppLanguageJa)])

  const APPEARANCE_SUBMENU :=
    Submenu(SubmenuId(AppearanceMenu), LabelId(LViewAppearance), [
      CheckEntry(AppearanceSystem, LViewAppearanceSystem),
      CheckEntry(AppearanceLight, LViewAppearanceLight),
      CheckEntry(AppearanceDark, LViewAppearanceDark)])

  const FILE_ENTRIES :=
    [Item(OwnedId(NewWindow), LFileNewWindow, false, Some("CmdOrCtrl+Shift+N")),
     Item(OwnedId(OpenWorkspace), LFileOpenWorkspace, false, Some("CmdOrCtrl+Shift+O")),
     Separator,
     Item(OwnedId(Save), LFileSave, false, Some("CmdOrCtrl+S")),
     Item(OwnedId(ExportImage), LFileExportImage, false, Some("CmdOrCtrl+Alt+E"))]

  const HISTORY_ENTRY := PlainEntry(VersionHistory, LFileVersionHistory)

  const FILE_TAIL := [Separator, SystemEntry(CloseWindow, LFileCloseWindow), QUIT_ENTRY]

  function FileEntries(mac: bool): seq<MenuEntry> {
    FILE_ENTRIES + [HISTORY_ENTRY] + if mac then [] else FILE_TAIL
  }

  const EDIT_ENTRIES :=
    [SystemEntry(Undo, LEditUndo), SystemEntry(Redo, LEditRedo), Separator,
     SystemEntry(Cut, LEditCut), SystemEntry(Copy, LEditCopy),
     SystemEntry(Paste, LEditPaste), SystemEntry(SelectAll, LEditSelectAll)]

  const VIEW_TOGGLES :=
    [Separator,
     CheckEntry(ToolLock, LViewToolLock), CheckEntry(Grid, LViewGrid),
     CheckEntry(Snap, LViewSnap), CheckEntry(Zen, LViewZen),
     CheckEntry(ViewMode, LViewViewMode)]

  /** The layout without an application menu has the languages here. */
  function ViewHead(mac: bool): seq<MenuEntry> {
    if mac then [] else [LANGUAGE_SUBMENU] + [Separator]
  }

  function ViewTail(mac: bool): seq<MenuEntry> {
    if mac then [Separator, SystemEntry(Fullscreen, LViewFullscreen)] else []
  }

  function ViewEntries(mac: bool): seq<MenuEntry> {
    ViewHead(mac) + ([APPEARANCE_SUBMENU] + VIEW_TOGGLES) + ViewTail(mac)
  }

  const WINDOW_ENTRIES :=
    [SystemEntry(Minimize, LWindowMinimize), SystemEntry(Zoom, LWindowZoom), Separator,
     SystemEntry(CloseWindow, LFileCloseWindow)]

  function HelpEntries(mac: bool): seq<MenuEntry> {
    [PlainEntry(Help, LHelpExcalidrawHelp)]
    + if mac then [] else [SystemEntry(About, LAppAbout)]
  }

  const APPLICATION_TAIL :=
    [Separator, SystemEntry(Services, LAppServices), Separator,
     SystemEntry(Hide, LAppHide), SystemEntry(HideOthers, LAppHideOthers), Separator,
     QUIT_ENTRY]

  const APPLICATION_ENTRIES: seq<MenuEntry> :=
    [SystemEntry(About, LAppAbout), Separator] + [LANGUAGE_SUBMENU] + APPLICATION_TAIL

  /** The application menu (if any) followed by the five common submenus. */
  function Assemble(head: seq<MenuEntry>, file: seq<MenuEntry>, edit: seq<MenuEntry>, view: seq<MenuEntry>,
                    window: seq<MenuEntry>, help: seq<MenuEntry>): seq<MenuEntry> {
    head + [Submenu(SubmenuId(FileMenu), LabelId(LFile), file),
            Submenu(SubmenuId(EditMenu), LabelId(LEdit), edit),
            Submenu(SubmenuId(ViewMenu), LabelId(LView), view),
            Submenu(SubmenuId(WindowMenu), LabelId(LWindow), window),
            Submenu(SubmenuId(HelpMenu), LabelId(LHelp), help)]
  }

  function ApplicationMenuOf(mac: bool): seq<MenuEntry> {
    if mac then [Submenu(SubmenuId(ApplicationMenu), AppName, APPLICATION_ENTRIES)] else []
  }

  /** The whole menu tree; `mac` selects the macOS layout. */
  function AppMenu(mac: bool): seq<MenuEntry> {
    Assemble(ApplicationMenuOf(mac), FileEntries(mac), EDIT_ENTRIES, ViewEntries(mac), WINDOW_ENTRIES, HelpEntries(mac))
  }

  // ---------------------------------------------------------------- labels

  type Labels = map<LabelKey, string>

  const APPLICATION_LABELS: seq<LabelKey> :=
    [LAppAbout, LAppLanguage, LAppLanguageSystem, LAppLanguageEn, LAppLanguageZhCn,
     LAppLanguageEs, LAppLanguageJa, LAppServices, LAppHide, LAppHideOthers, LAppQuit]

  const FILE_LABELS: seq<LabelKey> :=
    [LFile, LFileNewWindow, LFileOpenWorkspace, LFileSave, LFileExportImage,
     LFileVersionHistory, LFileCloseWindow]

  const EDIT_LABELS: seq<LabelKey> :=
    [LEdit, LEditUndo, LEditRedo, LEditCut, LEditCopy, LEditPaste, LEditSelectAll]

  const VIEW_LABELS: seq<LabelKey> :=
    [LView, LViewAppearance, LViewAppearanceSystem, LViewAppearanceLight, LViewAppearanceDark,
     LViewToolLock, LViewGrid, LViewSnap, LViewZen, LViewViewMode, LViewFullscreen]

  const WINDOW_LABELS: seq<LabelKey> := [LWindow, LWindowMinimize, LWindowZoom, LHelp, LHelpExcalidrawHelp]

  const LABEL_IDS := APPLICATION_LABELS + FILE_LABELS + EDIT_LABELS + VIEW_LABELS + WINDOW_LABELS

  const MAX_LABEL_CHARS := 64

  datatype LabelError =
    | Missing(id: LabelKey)
    | Unknown(id: LabelKey)
    | Empty(id: LabelKey)
    | TooLong(id: LabelKey)
    | HasControl(id: LabelKey)

  /** Rust's `char::is_control`: general category Cc. */
  predicate IsControl(c: char) {
    c as int < 0x20 || 0x7F <= c as int < 0xA0
  }

  predicate AcceptableText(text: string) {
    && !Blank(text, RustWhitespace)
    && |text| <= MAX_LABEL_CHARS
    && forall i :: 0 <= i < |text| ==> !IsControl(text[i])
  }

  function RequiredIds(): set<LabelKey> {
    IdSet(LABEL_IDS)
  }

  function IdSet(ids: seq<LabelKey>): set<LabelKey> {
    set id | id in ids
  }

  /** Exactly the required ids, each with an acceptable text. */
  predicate ValidLabels(labels: Labels) {
    ValidFor(labels, LABEL_IDS)
  }

  predicate ValidFor(labels: Labels, required: seq<LabelKey>) {
    && labels.Keys == IdSet(required)
    && forall id :: id in labels ==> AcceptableText(labels[id])
  }

  /** The label's text, or the id itself when the set has no such label. */
  function LabelText(labels: Labels, id: LabelKey): ItemText {
    if id in labels then Words(labels[id]) else IdItself(id)
  }

  /** Whether the reported fault is real, and no fault of an earlier check was passed over. */
  ghost predicate RealFault(e: LabelError, labels: Labels, required: seq<LabelKey>) {
    match e
    case Missing(id) =>
      exists k :: 0 <= k < |required| && required[k] == id && id !in labels && IdSet(required[..k]) <= labels.Keys
    case Unknown(id) => IdSet(required) <= labels.Keys && id in labels && id !in required
    case _ => labels.Keys == IdSet(required) && e.id in labels && RealTextFault(e, labels[e.id])
  }

  /** The first of the three checks of a text that fails. */
  predicate RealTextFault(e: LabelError, text: string) {
    match e
    case Empty(_) => Blank(text, RustWhitespace)
    case TooLong(_) => !Blank(text, RustWhitespace) && |text| > MAX_LABEL_CHARS
    case HasControl(_) =>
      && !Blank(text, RustWhitespace) && |text| <= MAX_LABEL_CHARS
      && exists i :: 0 <= i < |text| && IsControl(text[i])
    case _ => false
  }

  /** Accepts exactly the valid sets; otherwise reports a real fault, the first missing label first. */
  method Validate(labels: Labels) returns (r: Result<Labels, LabelError>)
    ensures r.Ok? <==> ValidLabels(labels)
    ensures r.Ok? ==> r.value == labels
    ensures r.Err? ==> RealFault(r.error, labels, LABEL_IDS)
  {
    r := ValidateFor(labels, LABEL_IDS);
  }

  method ValidateFor(labels: Labels, required: seq<LabelKey>) returns (r: Result<Labels, LabelError>)
    ensures r.Ok? <==> ValidFor(labels, required)
    ensures r.Ok? ==> r.value == labels
    ensures r.Err? ==> RealFault(r.error, labels, required)
  {
    for k := 0 to |required|
      invariant IdSet(required[..k]) <= labels.Keys
    {
      if required[k] !in labels {
        return Err(Missing(required[k]));
      }
    }
    assert required[..|required|] == required;
    var unseen := labels.Keys;
    while unseen != {}
      invariant unseen <= labels.Keys
      invariant labels.Keys - unseen <= IdSet(required)
    {
      var id :| id in unseen;
      if id !in required {
        return Err(Unknown(id));
      }
      unseen := unseen - {id};
    }
    unseen := labels.Keys;
    while unseen != {}
      invariant unseen <= labels.Keys
      invariant forall id :: id in labels.Keys - unseen ==> AcceptableText(labels[id])
    {
      var id :| id in unseen;
      if Blank(labels[id], RustWhitespace) {
        return Err(Empty(id));
      }
      if |labels[id]| > MAX_LABEL_CHARS {
        return Err(TooLong(id));
      }
      if exists i :: 0 <= i < |labels[id]| && IsControl(labels[id][i]) {
        return Err(HasControl(id));
      }
      unseen := unseen - {id};
    }
    return Ok(labels);
  }
}
