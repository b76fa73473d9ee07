/**
 What the menu tree and the derived item states promise each other
 (src-tauri/src/native_menu_spec.rs): every owned item is in the menu once, as a
 check item exactly when its state has a check mark.
 */
module MenuContract {
  import opened Options
  import opened MenuSpec

  // ---------------------------------------------------------------- item states

  const DOCUMENT_ITEMS := {Save, Help, Grid, Zen}
  const EDIT_ITEMS := {ToolLock, Snap, ViewMode}

  /** Which items need a document, an editable one, a window, or the history; the others are always on. */
  predicate On(item: Owned, s: SyncState, historyEnabled: bool, hasWindow: bool) {
    && (item in DOCUMENT_ITEMS + EDIT_ITEMS ==> s.hasDocument)
    && (item in EDIT_ITEMS ==> !s.forcedReadOnly)
    && (item == OpenWorkspace ==> hasWindow)
    && (item == VersionHistory ==> historyEnabled)
  }

  lemma EnabledExactly(item: Owned, s: SyncState, historyEnabled: bool, hasWindow: bool)
    ensures OwnedState(item, s, historyEnabled, hasWindow).enabled <==> On(item, s, historyEnabled, hasWindow)
  {
  }

  /** The item of a language or an appearance. */
  function LanguageItem(language: Language): Owned {
    match language
    case System => LanguageSystem
    case En => LanguageEn
    case ZhCn => LanguageZhCn
    case Es => LanguageEs
    case Ja => LanguageJa
  }

  function AppearanceItem(appearance: Appearance): Owned {
    match appearance
    case Auto => AppearanceSystem
    case Light => AppearanceLight
    case Dark => AppearanceDark
  }

  /** Exactly the current language and the current appearance are marked, and the preferences that are on. */
  predicate Marked(item: Owned, s: SyncState) {
    || item == LanguageItem(s.language)
    || item == AppearanceItem(s.appearance)
    || (item == ToolLock && s.toolLock)
    || (item == Grid && s.grid)
    || (item == Snap && s.snap)
    || (item == Zen && s.zen)
    || (item == ViewMode && (s.forcedReadOnly || s.viewMode))
  }

  lemma CheckedExactly(item: Owned, s: SyncState, historyEnabled: bool, hasWindow: bool)
    ensures OwnedState(item, s, historyEnabled, hasWindow).checked == Some(true) <==> Marked(item, s)
  {
  }

  // ---------------------------------------------------------------- which label each entry carries

  function LabelOf(item: Owned): LabelKey {
    match item
    case NewWindow => LFileNewWindow
    case OpenWorkspace => LFileOpenWorkspace
    case Save => LFileSave
    case ExportImage => LFileExportImage
    case VersionHistory => LFileVersionHistory
    case AppearanceSystem => LViewAppearanceSystem
    case AppearanceLight => LViewAppearanceLight
    case AppearanceDark => LViewAppearanceDark
    case LanguageSystem => LAppLanguageSystem
    case LanguageEn => LAppLanguageEn
    case LanguageZhCn => LAppLanguageZhCn
    case LanguageEs => LAppLanguageEs
    case LanguageJa => LAppLanguageJa
    case ToolLock => LViewToolLock
    case Grid => LViewGrid
    case Snap => LViewSnap
    case Zen => LViewZen
    case ViewMode => LViewViewMode
    case Help => LHelpExcalidrawHelp
    case Quit => LAppQuit
  }

  function SystemLabel(kind: SystemItem): LabelKey {
    match kind
    case About => LAppAbout
    case Services => LAppServices
    case Hide => LAppHide
    case HideOthers => LAppHideOthers
    case CloseWindow => LFileCloseWindow
    case Undo => LEditUndo
    case Redo => LEditRedo
    case Cut => LEditCut
    case Copy => LEditCopy
    case Paste => LEditPaste
    case SelectAll => LEditSelectAll
    case Minimize => LWindowMinimize
    case Zoom => LWindowZoom
    case Fullscreen => LViewFullscreen
  }

  /** The application menu is named after the application. */
  function TitleOf(menu: SubmenuName): SubmenuLabel {
    match menu
    case ApplicationMenu => AppName
    case LanguageMenu => LabelId(LAppLanguage)
    case FileMenu => LabelId(LFile)
    case EditMenu => LabelId(LEdit)
    case ViewMenu => LabelId(LView)
    case AppearanceMenu => LabelId(LViewAppearance)
    case WindowMenu => LabelId(LWindow)
    case HelpMenu => LabelId(LHelp)
  }

  // ---------------------------------------------------------------- counting items

  type Test = MenuEntry -> bool

  /** How many items and submenus of a tree pass. */
  function Tally(es: seq<MenuEntry>, t: Test): nat
    decreases es, 0
  {
    if es == [] then 0 else TallyOne(es[0], t) + Tally(es[1..], t)
  }

  function TallyOne(e: MenuEntry, t: Test): nat
    decreases e, 1
  {
    match e
    case Item(_, _, _, _) => if t(e) then 1 else 0
    case Submenu(_, _, children) => (if t(e) then 1 else 0) + Tally(children, t)
    case _ => 0
  }

  /** Submenus that carry a submenu's id do not pass. */
  ghost predicate ItemsOnly(t: Test) {
    forall e: MenuEntry :: e.Submenu? && e.id.SubmenuId? ==> !t(e)
  }

  lemma {:induction false} TallyAppend(a: seq<MenuEntry>, b: seq<MenuEntry>, t: Test)
    ensures Tally(a + b, t) == Tally(a, t) + Tally(b, t)
    decreases a
  {
    if a == [] {
      assert a + b == b;
    } else {
      TallyAppend(a[1..], b, t);
      assert (a + b)[0] == a[0] && (a + b)[1..] == a[1..] + b;
    }
  }

  lemma TallySingle(e: MenuEntry, t: Test)
    ensures Tally([e], t) == TallyOne(e, t)
  {
    assert [e][1..] == [];
  }

  predicate Hits(e: MenuEntry, t: Test) {
    e.Item? && t(e)
  }

  predicate Flat(es: seq<MenuEntry>) {
    forall i :: 0 <= i < |es| ==> !es[i].Submenu?
  }

  predicate HitsOnce(es: seq<MenuEntry>, t: Test) {
    forall i, j :: 0 <= i < j < |es| ==> !(Hits(es[i], t) && Hits(es[j], t))
  }

  lemma {:induction false} FlatTally(es: seq<MenuEntry>, t: Test)
    requires Flat(es) && HitsOnce(es, t)
    ensures Tally(es, t) == if exists i :: 0 <= i < |es| && Hits(es[i], t) then 1 else 0
    decreases es
  {
    if es != [] {
      FlatTally(es[1..], t);
      if Hits(es[0], t) {
        assert forall i :: 0 <= i < |es| - 1 ==> es[1..][i] == es[i + 1];
      } else if i :| 0 <= i < |es| && Hits(es[i], t) {
        assert es[1..][i - 1] == es[i];
      }
    }
  }

  /** A menu's count is the sum of its parts'. */
  lemma TallyAssembled(head: seq<MenuEntry>, file: seq<MenuEntry>, edit: seq<MenuEntry>, view: seq<MenuEntry>,
                       window: seq<MenuEntry>, help: seq<MenuEntry>, t: Test)
    requires ItemsOnly(t)
    ensures
      Tally(Assemble(head, file, edit, view, window, help), t) ==
        Tally(head, t) + Tally(file, t) + Tally(edit, t) + Tally(view, t) + Tally(window, t) + Tally(help, t)
  {
    var es := Assemble(head, file, edit, view, window, help);
    var f, e, v, w, h := es[|head|], es[|head| + 1], es[|head| + 2], es[|head| + 3], es[|head| + 4];
    TallySingle(f, t);
    TallySingle(e, t);
    TallySingle(v, t);
    TallySingle(w, t);
    TallySingle(h, t);
    TallyAppend(head, [f], t);
    TallyAppend(head + [f], [e], t);
    TallyAppend(head + [f] + [e], [v], t);
    TallyAppend(head + [f] + [e] + [v], [w], t);
    TallyAppend(head + [f] + [e] + [v] + [w], [h], t);
    assert es == head + [f] + [e] + [v] + [w] + [h];
  }

  // ---------------------------------------------------------------- the application's menu

  /** The state of the item carries a check mark, on or off. */
  predicate HasMark(item: Owned) {
    || item.LanguageSystem? || item.LanguageEn? || item.LanguageZhCn? || item.LanguageEs? || item.LanguageJa?
    || item.AppearanceSystem? || item.AppearanceLight? || item.AppearanceDark?
    || item.ToolLock? || item.Grid? || item.Snap? || item.Zen? || item.ViewMode?
  }

  function Named(item: Owned): Test {
    (e: MenuEntry) => e.Item? && e.id == OwnedId(item)
  }

  /** An item that no state governs or whose kind does not fit its state, or a submenu under another id. */
  function Misfit(): Test {
    (e: MenuEntry) =>
      || (e.Item? && !(e.id.OwnedId? && (e.check <==> HasMark(e.id.item))))
      || (e.Submenu? && !e.id.SubmenuId?)
  }

  function One(b: bool): nat {
    if b then 1 else 0
  }

  /** The list has the item `n` times, and no misfit. */
  predicate Holds(es: seq<MenuEntry>, item: Owned, n: nat) {
    Tally(es, Named(item)) == n && Tally(es, Misfit()) == 0
  }

  predicate ItemAt(es: seq<MenuEntry>, i: int, item: Owned) {
    0 <= i < |es| && es[i].Item? && es[i].id == OwnedId(item)
  }

  /** In a flat list with fitting items, each at its place, an item occurs once if it has a place. */
  lemma FlatHolds(es: seq<MenuEntry>, places: map<Owned, nat>, item: Owned)
    requires Flat(es)
    requires forall x :: x in places ==> ItemAt(es, places[x], x)
    requires forall i :: 0 <= i < |es| && es[i].Item? ==>
               && es[i].id.OwnedId? && es[i].id.item in places && places[es[i].id.item] == i
               && (es[i].check <==> HasMark(es[i].id.item))
    ensures Holds(es, item, One(item in places))
  {
    FlatTally(es, Misfit());
    FlatTally(es, Named(item));
    if item in places {
      assert Hits(es[places[item]], Named(item));
    }
  }

  /** A flat list without items. */
  lemma NothingHeld(es: seq<MenuEntry>, item: Owned)
    requires Flat(es) && forall i :: 0 <= i < |es| ==> !es[i].Item?
    ensures Holds(es, item, 0)
  {
    FlatHolds(es, map[], item);
  }

  lemma HoldsAppend(a: seq<MenuEntry>, m: nat, b: seq<MenuEntry>, n: nat, item: Owned)
    requires Holds(a, item, m) && Holds(b, item, n)
    ensures Holds(a + b, item, m + n)
  {
    TallyAppend(a, b, Named(item));
    TallyAppend(a, b, Misfit());
  }

  lemma SubmenuHolds(e: MenuEntry, n: nat, item: Owned)
    requires e.Submenu? && e.id.SubmenuId? && Holds(e.children, item, n)
    ensures Holds([e], item, n)
  {
    TallySingle(e, Named(item));
    TallySingle(e, Misfit());
  }

  // where the items stand in their parts
  const LANGUAGE_PLACES: map<Owned, nat> :=
    map[LanguageSystem := 0, LanguageEn := 1, LanguageZhCn := 2, LanguageEs := 3, LanguageJa := 4]
  const APPEARANCE_PLACES: map<Owned, nat> := map[AppearanceSystem := 0, AppearanceLight := 1, AppearanceDark := 2]
  const TOGGLE_PLACES: map<Owned, nat> := map[ToolLock := 1, Grid := 2, Snap := 3, Zen := 4, ViewMode := 5]
  const FILE_PLACES: map<Owned, nat> := map[NewWindow := 0, OpenWorkspace := 1, Save := 3, ExportImage := 4]

  lemma LanguageHolds(item: Owned)
    ensures Holds([LANGUAGE_SUBMENU], item, One(item in LANGUAGE_PLACES))
  {
    FlatHolds(LANGUAGE_SUBMENU.children, LANGUAGE_PLACES, item);
    SubmenuHolds(LANGUAGE_SUBMENU, One(item in LANGUAGE_PLACES), item);
  }

  lemma AppearanceHolds(item: Owned)
    ensures Holds([APPEARANCE_SUBMENU], item, One(item in APPEARANCE_PLACES))
  {
    FlatHolds(APPEARANCE_SUBMENU.children, APPEARANCE_PLACES, item);
    SubmenuHolds(APPEARANCE_SUBMENU, One(item in APPEARANCE_PLACES), item);
  }

  lemma TogglesHold(item: Owned)
    ensures Holds(VIEW_TOGGLES, item, One(item in TOGGLE_PLACES))
  {
    FlatHolds(VIEW_TOGGLES, TOGGLE_PLACES, item);
  }

  lemma FileHolds(item: Owned)
    ensures Holds(FILE_ENTRIES, item, One(item in FILE_PLACES))
  {
    FlatHolds(FILE_ENTRIES, FILE_PLACES, item);
  }

  lemma HistoryHolds(item: Owned)
    ensures Holds([HISTORY_ENTRY], item, One(item == VersionHistory))
  {
    FlatHolds([HISTORY_ENTRY], map[VersionHistory := 0], item);
  }

  lemma FileTailHolds(item: Owned)
    ensures Holds(FILE_TAIL, item, One(item == Quit))
  {
    FlatHolds(FILE_TAIL, map[Quit := 2], item);
  }

  lemma ApplicationTailHolds(item: Owned)
    ensures Holds(APPLICATION_TAIL, item, One(item == Quit))
  {
    FlatHolds(APPLICATION_TAIL, map[Quit := 6], item);
  }

  lemma HelpHolds(item: Owned, mac: bool)
    ensures Holds(HelpEntries(mac), item, One(item == Help))
  {
    FlatHolds(HelpEntries(mac), map[Help := 0], item);
  }

  /** How often the four parts with items have an item. */
  function InApplication(item: Owned, mac: bool): nat {
    One(item in LANGUAGE_PLACES && mac) + One(item == Quit && mac)
  }

  function InFile(item: Owned, mac: bool): nat {
    One(item in FILE_PLACES) + One(item == VersionHistory) + One(item == Quit && !mac)
  }

  function InView(item: Owned, mac: bool): nat {
    One(item in LANGUAGE_PLACES && !mac) + (One(item in APPEARANCE_PLACES) + One(item in TOGGLE_PLACES))
  }

  lemma FileMenuHolds(item: Owned, mac: bool)
    ensures Holds(FileEntries(mac), item, InFile(item, mac))
  {
    FileHolds(item);
    HistoryHolds(item);
    FileTailHolds(item);
    NothingHeld([], item);
    HoldsAppend(FILE_ENTRIES, One(item in FILE_PLACES), [HISTORY_ENTRY], One(item == VersionHistory), item);
    HoldsAppend(FILE_ENTRIES + [HISTORY_ENTRY], One(item in FILE_PLACES) + One(item == VersionHistory),
                if mac then [] else FILE_TAIL, One(item == Quit && !mac), item);
  }

  lemma ViewHeadHolds(item: Owned, mac: bool)
    ensures Holds(ViewHead(mac), item, One(item in LANGUAGE_PLACES && !mac))
  {
    LanguageHolds(item);
    NothingHeld([], item);
    NothingHeld([Separator], item);
    HoldsAppend([LANGUAGE_SUBMENU], One(item in LANGUAGE_PLACES), [Separator], 0, item);
  }

  lemma ViewBodyHolds(item: Owned)
    ensures Holds([APPEARANCE_SUBMENU] + VIEW_TOGGLES, item, One(item in APPEARANCE_PLACES) + One(item in TOGGLE_PLACES))
  {
    AppearanceHolds(item);
    TogglesHold(item);
    HoldsAppend([APPEARANCE_SUBMENU], One(item in APPEARANCE_PLACES), VIEW_TOGGLES, One(item in TOGGLE_PLACES), item);
  }

  lemma ViewMenuHolds(item: Owned, mac: bool)
    ensures Holds(ViewEntries(mac), item, InView(item, mac))
  {
    ViewHeadHolds(item, mac);
    ViewBodyHolds(item);
    NothingHeld(ViewTail(mac), item);
    var languages, body := One(item in LANGUAGE_PLACES && !mac), One(item in APPEARANCE_PLACES) + One(item in TOGGLE_PLACES);
    HoldsAppend(ViewHead(mac), languages, [APPEARANCE_SUBMENU] + VIEW_TOGGLES, body, item);
    HoldsAppend(ViewHead(mac) + ([APPEARANCE_SUBMENU] + VIEW_TOGGLES), languages + body, ViewTail(mac), 0, item);
  }

  lemma ApplicationMenuHolds(item: Owned, mac: bool)
    ensures Holds(ApplicationMenuOf(mac), item, InApplication(item, mac))
  {
    var head, languages := [SystemEntry(About, LAppAbout), Separator], One(item in LANGUAGE_PLACES);
    NothingHeld([], item);
    NothingHeld(head, item);
    LanguageHolds(item);
    ApplicationTailHolds(item);
    HoldsAppend(head, 0, [LANGUAGE_SUBMENU], languages, item);
    HoldsAppend(head + [LANGUAGE_SUBMENU], languages, APPLICATION_TAIL, One(item == Quit), item);
    if mac {
      SubmenuHolds(ApplicationMenuOf(true)[0], languages + One(item == Quit), item);
    }
  }

  lemma AssembledHolds(head: seq<MenuEntry>, file: seq<MenuEntry>, edit: seq<MenuEntry>, view: seq<MenuEntry>,
                       window: seq<MenuEntry>, help: seq<MenuEntry>, h: nat, f: nat, v: nat, l: nat, n: nat,
                       item: Owned)
    requires n == h + f + v + l
    requires Holds(head, item, h) && Holds(file, item, f) && Holds(edit, item, 0)
    requires Holds(view, item, v) && Holds(window, item, 0) && Holds(help, item, l)
    ensures Holds(Assemble(head, file, edit, view, window, help), item, n)
  {
    TallyAssembled(head, file, edit, view, window, help, Misfit());
    TallyAssembled(head, file, edit, view, window, help, Named(item));
  }

  lemma EditMenuHolds(item: Owned)
    ensures Holds(EDIT_ENTRIES, item, 0)
  {
    NothingHeld(EDIT_ENTRIES, item);
  }

  lemma WindowMenuHolds(item: Owned)
    ensures Holds(WINDOW_ENTRIES, item, 0)
  {
    NothingHeld(WINDOW_ENTRIES, item);
  }

  lemma AppMenuHolds(item: Owned, mac: bool, h: nat, f: nat, v: nat, l: nat, n: nat)
    requires n == h + f + v + l
    requires Holds(ApplicationMenuOf(mac), item, h) && Holds(FileEntries(mac), item, f)
    requires Holds(ViewEntries(mac), item, v) && Holds(HelpEntries(mac), item, l)
    ensures Holds(AppMenu(mac), item, n)
  {
    EditMenuHolds(item);
    WindowMenuHolds(item);
    AssembledHolds(ApplicationMenuOf(mac), FileEntries(mac), EDIT_ENTRIES, ViewEntries(mac), WINDOW_ENTRIES,
                   HelpEntries(mac), h, f, v, l, n, item);
  }

  lemma PartsHold(item: Owned, mac: bool)
    ensures Holds(ApplicationMenuOf(mac), item, InApplication(item, mac))
    ensures Holds(FileEntries(mac), item, InFile(item, mac))
    ensures Holds(ViewEntries(mac), item, InView(item, mac))
    ensures Holds(HelpEntries(mac), item, One(item == Help))
  {
    ApplicationMenuHolds(item, mac);
    FileMenuHolds(item, mac);
    ViewMenuHolds(item, mac);
    HelpHolds(item, mac);
  }

  /** Each owned item belongs to one part of the menu. */
  lemma OnePart(item: Owned, mac: bool)
    ensures InApplication(item, mac) + InFile(item, mac) + InView(item, mac) + One(item == Help) == 1
  {
  }

  /**
   On both layouts every owned item is in the menu exactly once, there is no other item,
   and an item is a check item exactly when its state carries a check mark.
   */
  lemma EveryOwnedItemOnce(item: Owned, mac: bool)
    ensures Holds(AppMenu(mac), item, 1)
  {
    PartsHold(item, mac);
    OnePart(item, mac);
    AppMenuHolds(item, mac, InApplication(item, mac), InFile(item, mac), InView(item, mac), One(item == Help), 1);
  }

  /** The mark of an item is part of its state. */
  lemma MarksAreDerived(item: Owned, s: SyncState, historyEnabled: bool, hasWindow: bool)
    ensures HasMark(item) <==> OwnedState(item, s, historyEnabled, hasWindow).checked.Some?
  {
  }

  // ---------------------------------------------------------------- every entry under its own label

  predicate UnderItsLabel(e: MenuEntry) {
    match e
    case Item(id, key, _, _) => id.OwnedId? && key == LabelOf(id.item)
    case SystemEntry(kind, key) => key == SystemLabel(kind)
    case Submenu(id, title, _) => id.SubmenuId? && title == TitleOf(id.menu)
    case Separator => true
  }

  /** At every depth. */
  predicate LabelledEntry(e: MenuEntry)
    decreases e, 0
  {
    UnderItsLabel(e) && (e.Submenu? ==> Labelled(e.children))
  }

  predicate Labelled(es: seq<MenuEntry>)
    decreases es, 1
  {
    forall i :: 0 <= i < |es| ==> LabelledEntry(es[i])
  }

  lemma LabelledAppend(a: seq<MenuEntry>, b: seq<MenuEntry>)
    requires Labelled(a) && Labelled(b)
    ensures Labelled(a + b)
  {
  }

  lemma CheckLabelled(item: Owned, key: LabelKey)
    requires key == LabelOf(item)
    ensures LabelledEntry(CheckEntry(item, key))
  {
  }

  lemma FiveLabelled(a: MenuEntry, b: MenuEntry, c: MenuEntry, d: MenuEntry, e: MenuEntry)
    requires LabelledEntry(a) && LabelledEntry(b) && LabelledEntry(c) && LabelledEntry(d) && LabelledEntry(e)
    ensures Labelled([a, b, c, d, e]) && Labelled([a, b, c])
  {
  }

  lemma LanguagesLabelled()
    ensures LabelledEntry(LANGUAGE_SUBMENU)
  {
    CheckLabelled(LanguageSystem, LAppLanguageSystem);
    CheckLabelled(LanguageEn, LAppLanguageEn);
    CheckLabelled(LanguageZhCn, LAppLanguageZhCn);
    CheckLabelled(LanguageEs, LAppLanguageEs);
    CheckLabelled(LanguageJa, LAppLanguageJa);
    FiveLabelled(CheckEntry(LanguageSystem, LAppLanguageSystem), CheckEntry(LanguageEn, LAppLanguageEn),
                 CheckEntry(LanguageZhCn, LAppLanguageZhCn), CheckEntry(LanguageEs, LAppLanguageEs),
                 CheckEntry(LanguageJa, LAppLanguageJa));
  }

  lemma AppearancesLabelled()
    ensures LabelledEntry(APPEARANCE_SUBMENU)
  {
    CheckLabelled(AppearanceSystem, LViewAppearanceSystem);
    CheckLabelled(AppearanceLight, LViewAppearanceLight);
    CheckLabelled(AppearanceDark, LViewAppearanceDark);
    FiveLabelled(CheckEntry(AppearanceSystem, LViewAppearanceSystem), CheckEntry(AppearanceLight, LViewAppearanceLight),
                 CheckEntry(AppearanceDark, LViewAppearanceDark), Separator, Separator);
  }

  lemma FileLabelled()
    ensures Labelled(FILE_ENTRIES) && Labelled([HISTORY_ENTRY])
  {
  }

  lemma FileTailLabelled()
    ensures Labelled(FILE_TAIL)
  {
  }

  lemma FileMenuLabelled(mac: bool)
    ensures Labelled(FileEntries(mac))
  {
    FileLabelled();
    FileTailLabelled();
    LabelledAppend(FILE_ENTRIES, [HISTORY_ENTRY]);
    LabelledAppend(FILE_ENTRIES + [HISTORY_ENTRY], if mac then [] else FILE_TAIL);
  }

  lemma TogglesLabelled()
    ensures Labelled(VIEW_TOGGLES)
  {
    CheckLabelled(ToolLock, LViewToolLock);
    CheckLabelled(Grid, LViewGrid);
    CheckLabelled(Snap, LViewSnap);
    CheckLabelled(Zen, LViewZen);
    CheckLabelled(ViewMode, LViewViewMode);
  }

  lemma ViewEndsLabelled(mac: bool)
    ensures Labelled(ViewHead(mac)) && Labelled(ViewTail(mac))
  {
    LanguagesLabelled();
    LabelledAppend([LANGUAGE_SUBMENU], [Separator]);
  }

  lemma ViewMenuLabelled(mac: bool)
    ensures Labelled(ViewEntries(mac))
  {
    ViewEndsLabelled(mac);
    AppearancesLabelled();
    TogglesLabelled();
    LabelledAppend([APPEARANCE_SUBMENU], VIEW_TOGGLES);
    LabelledAppend(ViewHead(mac), [APPEARANCE_SUBMENU] + VIEW_TOGGLES);
    LabelledAppend(ViewHead(mac) + ([APPEARANCE_SUBMENU] + VIEW_TOGGLES), ViewTail(mac));
  }

  lemma ApplicationTailLabelled()
    ensures Labelled(APPLICATION_TAIL)
  {
  }

  lemma ApplicationLabelled(mac: bool)
    ensures Labelled(ApplicationMenuOf(mac))
  {
    LanguagesLabelled();
    ApplicationTailLabelled();
    LabelledAppend([SystemEntry(About, LAppAbout), Separator], [LANGUAGE_SUBMENU]);
    LabelledAppend([SystemEntry(About, LAppAbout), Separator] + [LANGUAGE_SUBMENU], APPLICATION_TAIL);
  }

  lemma EditLabelled()
    ensures Labelled(EDIT_ENTRIES)
  {
  }

  lemma WindowLabelled()
    ensures Labelled(WINDOW_ENTRIES)
  {
  }

  lemma HelpLabelled(mac: bool)
    ensures Labelled(HelpEntries(mac))
  {
  }

  lemma AssembledLabelled(head: seq<MenuEntry>, file: seq<MenuEntry>, edit: seq<MenuEntry>, view: seq<MenuEntry>,
                          window: seq<MenuEntry>, help: seq<MenuEntry>)
    requires Labelled(head) && Labelled(file) && Labelled(edit) && Labelled(view) && Labelled(window) && Labelled(help)
    ensures Labelled(Assemble(head, file, edit, view, window, help))
  {
  }

  /** On both layouts every item, system item and submenu is under its own label, at every depth. */
  lemma AppMenuLabelled(mac: bool)
    ensures Labelled(AppMenu(mac))
  {
    ApplicationLabelled(mac);
    FileMenuLabelled(mac);
    EditLabelled();
    ViewMenuLabelled(mac);
    WindowLabelled();
    HelpLabelled(mac);
    AssembledLabelled(ApplicationMenuOf(mac), FileEntries(mac), EDIT_ENTRIES, ViewEntries(mac), WINDOW_ENTRIES,
                      HelpEntries(mac));
  }
}
