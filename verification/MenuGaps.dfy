/**
 The application's own menu, and exactly when the steps that write less than the
 whole menu leave it showing the wrong thing (src-tauri/src/native_menu.rs,
 src-tauri/src/native_menu_spec.rs).
 */
module MenuGaps {
  import opened Options
  import opened MenuContract
  import opened MenuSpec
  import opened MenuTree
  import opened MenuShell

  function AppWorld(app: string, mac: bool): World {
    World(AppMenu(mac), app, mac)
  }

  // ------------------------------------------------- reading a menu entry by entry

  lemma {:induction false} LabelAt(es: seq<MenuEntry>, i: nat)
    requires i < |es|
    ensures es[i].Item? || es[i].SystemEntry? ==> es[i].key in LabelsUsed(es)
    ensures es[i].Submenu? && es[i].title.LabelId? ==> es[i].title.key in LabelsUsed(es)
    ensures es[i].Submenu? ==> LabelsUsed(es[i].children) <= LabelsUsed(es)
    decreases i
  {
    if i > 0 {
      LabelAt(es[1..], i - 1);
    }
  }

  // ------------------------------------------------- what the menu's items say

  /** A tree without misfits meets what the theorems about runs ask of it, if it has Version History once. */
  lemma {:induction false} FittingTree(es: seq<MenuEntry>)
    requires Tally(es, Misfit()) == 0
    ensures OnlyPlain(es, HISTORY) && EntryChecksAreCommands(es)
    ensures Occurrences(es, HISTORY) == Tally(es, Named(VersionHistory))
    decreases es
  {
    if es != [] {
      if es[0].Submenu? {
        FittingTree(es[0].children);
      }
      FittingTree(es[1..]);
    }
  }

  lemma {:induction false} CountedIsListed(es: seq<MenuEntry>, item: Owned)
    requires Tally(es, Misfit()) == 0 && Tally(es, Named(item)) > 0
    ensures (OwnedId(item), HasMark(item)) in Items(es)
    decreases es
  {
    if Tally(es[1..], Named(item)) > 0 {
      CountedIsListed(es[1..], item);
    } else if es[0].Submenu? {
      CountedIsListed(es[0].children, item);
    }
  }

  /** On both platforms Version History occurs once, as a plain item, and every check item is a command. */
  lemma AppMenuIsWellFormed(app: string, mac: bool)
    ensures WellFormed(AppWorld(app, mac))
  {
    EveryOwnedItemOnce(VersionHistory, mac);
    FittingTree(AppMenu(mac));
  }

  /** Every owned item is among the menu's items, of the kind its state needs. */
  lemma AppItem(item: Owned, mac: bool)
    ensures (OwnedId(item), HasMark(item)) in Items(AppMenu(mac))
  {
    EveryOwnedItemOnce(item, mac);
    CountedIsListed(AppMenu(mac), item);
  }

  // ------------------------------------------------- what the installed menu says

  /** The leaves of a tree. */
  function Leaves(ns: seq<Node>): set<Node>
    decreases ns
  {
    if ns == [] then {}
    else (if ns[0].SubmenuNode? then Leaves(ns[0].children) else {ns[0]}) + Leaves(ns[1..])
  }

  predicate IsItem(n: Node) {
    n.PlainNode? || n.CheckNode?
  }

  /** The node says of its item what the snapshot asks for: label, kind, enabled and checked. */
  predicate Says(n: Node, s: Shown) {
    && IsItem(n) && n.id.OwnedId?
    && n.text == LabelText(s.labels, LabelOf(n.id.item))
    && (n.enabled <==> On(n.id.item, s.state, s.historyEnabled, s.hasWindow))
    && (n.CheckNode? <==> HasMark(n.id.item))
    && (n.CheckNode? ==> (n.checked <==> Marked(n.id.item, s.state)))
  }

  lemma BuiltItemSays(e: MenuEntry, s: Shown, app: string)
    requires e.Item? && UnderItsLabel(e) && !Misfit()(e)
    ensures Says(Build(e, s, app), s)
  {
    EnabledExactly(e.id.item, s.state, s.historyEnabled, s.hasWindow);
    CheckedExactly(e.id.item, s.state, s.historyEnabled, s.hasWindow);
  }

  lemma {:induction false} BuiltLeavesSay(es: seq<MenuEntry>, s: Shown, app: string)
    requires Tally(es, Misfit()) == 0 && Labelled(es)
    ensures forall n :: n in Leaves(BuildAll(es, s, app)) && IsItem(n) ==> Says(n, s)
    decreases es
  {
    if es != [] {
      assert BuildAll(es, s, app)[1..] == BuildAll(es[1..], s, app);
      BuiltLeavesSay(es[1..], s, app);
      match es[0]
      case Submenu(_, _, children) => BuiltLeavesSay(children, s, app);
      case Item(_, _, _, _) => BuiltItemSays(es[0], s, app);
      case _ =>
    }
  }

  lemma {:induction false} CountedIsShown(es: seq<MenuEntry>, item: Owned, s: Shown, app: string) returns (n: Node)
    requires Tally(es, Named(item)) > 0
    ensures n in Leaves(BuildAll(es, s, app)) && IsItem(n) && n.id == OwnedId(item)
    decreases es
  {
    assert BuildAll(es, s, app)[1..] == BuildAll(es[1..], s, app);
    if Tally(es[1..], Named(item)) > 0 {
      n := CountedIsShown(es[1..], item, s, app);
    } else if es[0].Submenu? {
      n := CountedIsShown(es[0].children, item, s, app);
    } else {
      n := Build(es[0], s, app);
    }
  }

  /**
   What a build of the application's menu says on both platforms: each owned item is
   shown, under its own label, enabled and checked as the snapshot asks; no other item is.
   */
  lemma AppMenuSays(item: Owned, s: Shown, app: string, mac: bool)
    ensures
      var leaves := Leaves(BuildAll(AppMenu(mac), s, app));
      && (exists n :: n in leaves && IsItem(n) && n.id == OwnedId(item))
      && (forall n :: n in leaves && IsItem(n) ==> Says(n, s))
  {
    EveryOwnedItemOnce(item, mac);
    AppMenuLabelled(mac);
    BuiltLeavesSay(AppMenu(mac), s, app);
    var n := CountedIsShown(AppMenu(mac), item, s, app);
  }

  // ------------------------------------------------- which states look alike

  /** Two snapshots give every item of the application's menu the same flags. */
  predicate SameLook(a: Shown, b: Shown) {
    && a.state.language == b.state.language
    && a.state.appearance == b.state.appearance
    && a.state.hasDocument == b.state.hasDocument
    && (a.state.hasDocument && !a.state.forcedReadOnly) == (b.state.hasDocument && !b.state.forcedReadOnly)
    && a.state.toolLock == b.state.toolLock
    && a.state.grid == b.state.grid
    && a.state.snap == b.state.snap
    && a.state.zen == b.state.zen
    && (a.state.forcedReadOnly || a.state.viewMode) == (b.state.forcedReadOnly || b.state.viewMode)
    && a.historyEnabled == b.historyEnabled
    && a.hasWindow == b.hasWindow
  }

  predicate AllSameFlags(items: set<(MenuId, bool)>, a: Shown, b: Shown) {
    forall item :: item in items ==> SameFlags(item.0, item.1, a, b)
  }

  predicate HasEveryItem(items: set<(MenuId, bool)>) {
    forall item :: (OwnedId(item), HasMark(item)) in items
  }

  /** An item's two flags, read off the builds that share them. */
  lemma FlagsOf(items: set<(MenuId, bool)>, item: Owned, a: Shown, b: Shown)
    requires HasEveryItem(items) && AllSameFlags(items, a, b)
    ensures Flags(item, a).enabled == Flags(item, b).enabled
    ensures HasMark(item) ==> Flags(item, a).checked.GetOr(false) == Flags(item, b).checked.GetOr(false)
  {
    assert SameFlags(OwnedId(item), HasMark(item), a, b);
  }

  function Flags(item: Owned, s: Shown): ItemState {
    OwnedState(item, s.state, s.historyEnabled, s.hasWindow)
  }

  lemma LanguagesAgree(items: set<(MenuId, bool)>, a: Shown, b: Shown)
    requires HasEveryItem(items) && AllSameFlags(items, a, b)
    ensures a.state.language == b.state.language
  {
    FlagsOf(items, LanguageItem(a.state.language), a, b);
  }

  lemma AppearancesAgree(items: set<(MenuId, bool)>, a: Shown, b: Shown)
    requires HasEveryItem(items) && AllSameFlags(items, a, b)
    ensures a.state.appearance == b.state.appearance
  {
    FlagsOf(items, AppearanceItem(a.state.appearance), a, b);
  }

  lemma FileFlagsAgree(items: set<(MenuId, bool)>, a: Shown, b: Shown)
    requires HasEveryItem(items) && AllSameFlags(items, a, b)
    ensures a.hasWindow == b.hasWindow && a.historyEnabled == b.historyEnabled
    ensures a.state.hasDocument == b.state.hasDocument
  {
    FlagsOf(items, OpenWorkspace, a, b);
    FlagsOf(items, VersionHistory, a, b);
    FlagsOf(items, Save, a, b);
  }

  lemma DocumentTogglesAgree(items: set<(MenuId, bool)>, a: Shown, b: Shown)
    requires HasEveryItem(items) && AllSameFlags(items, a, b)
    ensures a.state.grid == b.state.grid && a.state.zen == b.state.zen
  {
    FlagsOf(items, Grid, a, b);
    FlagsOf(items, Zen, a, b);
  }

  lemma EditTogglesAgree(items: set<(MenuId, bool)>, a: Shown, b: Shown)
    requires HasEveryItem(items) && AllSameFlags(items, a, b)
    ensures (a.state.hasDocument && !a.state.forcedReadOnly) == (b.state.hasDocument && !b.state.forcedReadOnly)
    ensures a.state.toolLock == b.state.toolLock && a.state.snap == b.state.snap
    ensures (a.state.forcedReadOnly || a.state.viewMode) == (b.state.forcedReadOnly || b.state.viewMode)
  {
    FlagsOf(items, ToolLock, a, b);
    FlagsOf(items, Snap, a, b);
    FlagsOf(items, ViewMode, a, b);
  }

  lemma SameLookSameStates(a: Shown, b: Shown, item: Owned)
    requires SameLook(a, b)
    ensures On(item, a.state, a.historyEnabled, a.hasWindow) <==> On(item, b.state, b.historyEnabled, b.hasWindow)
    ensures Marked(item, a.state) <==> Marked(item, b.state)
  {
  }

  lemma SameLookSameFlags(a: Shown, b: Shown, id: MenuId, check: bool)
    requires SameLook(a, b)
    ensures SameFlags(id, check, a, b)
  {
    if id.OwnedId? {
      SameLookSameStates(a, b, id.item);
      EnabledExactly(id.item, a.state, a.historyEnabled, a.hasWindow);
      EnabledExactly(id.item, b.state, b.historyEnabled, b.hasWindow);
      CheckedExactly(id.item, a.state, a.historyEnabled, a.hasWindow);
      CheckedExactly(id.item, b.state, b.historyEnabled, b.hasWindow);
    }
  }

  lemma FlagsDecideTheLook(items: set<(MenuId, bool)>, a: Shown, b: Shown)
    requires HasEveryItem(items) && AllSameFlags(items, a, b)
    ensures SameLook(a, b)
  {
    LanguagesAgree(items, a, b);
    AppearancesAgree(items, a, b);
    FileFlagsAgree(items, a, b);
    DocumentTogglesAgree(items, a, b);
    EditTogglesAgree(items, a, b);
  }

  lemma SameFlagsSameLook(a: Shown, b: Shown, mac: bool)
    requires AllSameFlags(Items(AppMenu(mac)), a, b)
    ensures SameLook(a, b)
  {
    forall item
      ensures (OwnedId(item), HasMark(item)) in Items(AppMenu(mac))
    {
      AppItem(item, mac);
    }
    FlagsDecideTheLook(Items(AppMenu(mac)), a, b);
  }

  /** The application's menu shows two snapshots alike exactly when they look alike. */
  lemma AppMenuTellsApart(a: Shown, b: Shown, app: string, mac: bool)
    requires a.labels == b.labels
    ensures BuildAll(AppMenu(mac), a, app) == BuildAll(AppMenu(mac), b, app) <==> SameLook(a, b)
  {
    EqualBuildsIff(AppMenu(mac), a, b, app);
    if SameLook(a, b) {
      forall item | item in Items(AppMenu(mac))
        ensures SameFlags(item.0, item.1, a, b)
      {
        SameLookSameFlags(a, b, item.0, item.1);
      }
    }
    if AllSameFlags(Items(AppMenu(mac)), a, b) {
      SameFlagsSameLook(a, b, mac);
    }
  }

  // ------------------------------------------------- exactly when partial writes go wrong

  /**
   A sync from a window that is not the target is stored without being shown. The
   menu stays right exactly when that window is not the one shown, or its new
   report looks like its old one.
   */
  lemma UnshownSyncAgreesIff(app: string, mac: bool, s: Shell, caller: string, target: Option<string>,
                             labels: Labels, state: SyncState, p: Answers)
    requires s.tree.Some? && Agrees(AppWorld(app, mac), s)
    requires ValidLabels(labels) && labels == s.model.labels && target != Some(caller)
    ensures Agrees(AppWorld(app, mac), SyncStep(AppWorld(app, mac), s, caller, target, labels, state, p).shell)
       <==> (s.model.active != Some(caller) || SameLook(s.model.Shows(), s.model.Shows().(state := state)))
  {
    var shown := s.model.Shows();
    UnshownSyncInstalls(AppWorld(app, mac), s, caller, target, labels, state, p);
    AppMenuTellsApart(shown, if s.model.active == Some(caller) then shown.(state := state) else shown, app, mac);
  }

  /**
   An enable from the target writes one item, even when it moves the menu to
   another window. The menu stays right exactly when the target's stored report
   looks like the one already shown.
   */
  lemma TargetEnableAgreesIff(app: string, mac: bool, s: Shell, caller: string, enabled: bool)
    requires s.tree.Some? && Agrees(AppWorld(app, mac), s)
    ensures EnableStep(s, caller, Some(caller), HISTORY, enabled, true).verdict.Done?
    ensures Agrees(AppWorld(app, mac), EnableStep(s, caller, Some(caller), HISTORY, enabled, true).shell)
       <==> SameLook(s.model.Shows().(historyEnabled := enabled),
                     Shown(s.model.labels, s.model.Reported(caller).state, enabled, true))
  {
    AppMenuIsWellFormed(app, mac);
    TargetEnableInstalls(AppWorld(app, mac), s, caller, enabled);
    AppMenuTellsApart(s.model.Shows().(historyEnabled := enabled),
                      Shown(s.model.labels, s.model.Reported(caller).state, enabled, true), app, mac);
  }

  /** An enable from another window writes nothing: right exactly when nothing shown changed. */
  lemma OtherEnableAgreesIff(app: string, mac: bool, s: Shell, caller: string, target: Option<string>, enabled: bool)
    requires s.tree.Some? && Agrees(AppWorld(app, mac), s) && target != Some(caller)
    ensures Agrees(AppWorld(app, mac), EnableStep(s, caller, target, HISTORY, enabled, true).shell)
       <==> (s.model.active != Some(caller) || s.model.Reported(caller).historyEnabled == enabled)
  {
    var shown := s.model.Shows();
    OtherEnableInstalls(s, caller, target, enabled);
    AppMenuTellsApart(shown, shown.(historyEnabled := enabled), app, mac);
  }

  /** An enable moves the menu to a window without a drawing and leaves the other window's Save item on. */
  lemma EnableCanShowTheWrongWindow(labels: Labels, app: string, mac: bool, front: string, other: string)
    requires front != other
    ensures
      var w := AppWorld(app, mac);
      var m := Model(labels, map[other := WindowState(DEFAULT_STATE.(hasDocument := true), false)], Some(other));
      var s := Shell(m, Some(Rebuilt(w, m)));
      Agrees(w, s) && !Agrees(w, EnableStep(s, front, Some(front), HISTORY, true, true).shell)
  {
    var m := Model(labels, map[other := WindowState(DEFAULT_STATE.(hasDocument := true), false)], Some(other));
    TargetEnableAgreesIff(app, mac, Shell(m, Some(Rebuilt(AppWorld(app, mac), m))), front, true);
  }

  // ------------------------------------------------- a lost registration

  /** A required label belongs to one part of the macOS menu. */
  datatype Place = TopLevel | InApplication | InLanguage | InFile | InEdit | InView | InAppearance | InWindow | Nowhere

  function PlaceOf(id: LabelKey): Place {
    match id
    case LFile => TopLevel case LEdit => TopLevel case LView => TopLevel case LWindow => TopLevel case LHelp => TopLevel
    case LAppAbout => InApplication case LAppServices => InApplication case LAppHide => InApplication
    case LAppHideOthers => InApplication case LAppQuit => InApplication
    case LAppLanguage => InLanguage case LAppLanguageSystem => InLanguage case LAppLanguageEn => InLanguage
    case LAppLanguageZhCn => InLanguage case LAppLanguageEs => InLanguage case LAppLanguageJa => InLanguage
    case LFileNewWindow => InFile case LFileOpenWorkspace => InFile case LFileSave => InFile
    case LFileExportImage => InFile case LFileVersionHistory => InFile
    case LEditUndo => InEdit case LEditRedo => InEdit case LEditCut => InEdit case LEditCopy => InEdit
    case LEditPaste => InEdit case LEditSelectAll => InEdit
    case LViewAppearance => InAppearance case LViewAppearanceSystem => InAppearance
    case LViewAppearanceLight => InAppearance case LViewAppearanceDark => InAppearance
    case LViewToolLock => InView case LViewGrid => InView case LViewSnap => InView case LViewZen => InView
    case LViewViewMode => InView case LViewFullscreen => InView
    case LWindowMinimize => InWindow case LWindowZoom => InWindow case LFileCloseWindow => InWindow
    case LHelpExcalidrawHelp => InWindow
    case OtherLabel(_) => Nowhere
  }

  lemma FileLabels(id: LabelKey)
    requires PlaceOf(id) == InFile
    ensures id in LabelsUsed(FileEntries(true))
  {
    var k := match id case LFileNewWindow => 0 case LFileOpenWorkspace => 1 case LFileSave => 3
                      case LFileExportImage => 4 case _ => 5;
    LabelAt(FileEntries(true), k);
  }

  lemma EditLabels(id: LabelKey)
    requires PlaceOf(id) == InEdit
    ensures id in LabelsUsed(EDIT_ENTRIES)
  {
    var k := match id case LEditUndo => 0 case LEditRedo => 1 case LEditCut => 3 case LEditCopy => 4
                      case LEditPaste => 5 case _ => 6;
    LabelAt(EDIT_ENTRIES, k);
  }

  lemma AppearanceLabels(id: LabelKey)
    requires PlaceOf(id) == InAppearance
    ensures id in LabelsUsed(ViewEntries(true))
  {
    var k := match id case LViewAppearanceSystem => 0 case LViewAppearanceLight => 1 case _ => 2;
    LabelAt(APPEARANCE_SUBMENU.children, k);
    LabelAt(ViewEntries(true), 0);
  }

  lemma ViewLabels(id: LabelKey)
    requires PlaceOf(id) == InView
    ensures id in LabelsUsed(ViewEntries(true))
  {
    var k := match id case LViewToolLock => 2 case LViewGrid => 3 case LViewSnap => 4 case LViewZen => 5
                      case LViewViewMode => 6 case _ => 8;
    LabelAt(ViewEntries(true), k);
  }

  lemma LanguageLabels(id: LabelKey)
    requires PlaceOf(id) == InLanguage
    ensures id in LabelsUsed(APPLICATION_ENTRIES)
  {
    var k := match id case LAppLanguageSystem => 0 case LAppLanguageEn => 1 case LAppLanguageZhCn => 2
                      case LAppLanguageEs => 3 case _ => 4;
    LabelAt(LANGUAGE_SUBMENU.children, k);
    LabelAt(APPLICATION_ENTRIES, 2);
  }

  lemma ApplicationLabels(id: LabelKey)
    requires PlaceOf(id) == InApplication
    ensures id in LabelsUsed(APPLICATION_ENTRIES)
  {
    var k := match id case LAppAbout => 0 case LAppServices => 4 case LAppHide => 6 case LAppHideOthers => 7 case _ => 9;
    LabelAt(APPLICATION_ENTRIES, k);
  }

  lemma WindowLabels(id: LabelKey)
    requires PlaceOf(id) == InWindow
    ensures id in LabelsUsed(WINDOW_ENTRIES) + LabelsUsed(HelpEntries(true))
  {
    LabelAt(WINDOW_ENTRIES, 0);
    LabelAt(WINDOW_ENTRIES, 1);
    LabelAt(WINDOW_ENTRIES, 3);
    LabelAt(HelpEntries(true), 0);
  }

  lemma AssembledLabels(head: seq<MenuEntry>, file: seq<MenuEntry>, edit: seq<MenuEntry>, view: seq<MenuEntry>,
                        window: seq<MenuEntry>, help: seq<MenuEntry>, id: LabelKey)
    requires |head| == 1 && head[0].Submenu?
    requires || id in LabelsUsed(head[0].children) || id in LabelsUsed(file) || id in LabelsUsed(edit)
             || id in LabelsUsed(view) || id in LabelsUsed(window) || id in LabelsUsed(help)
             || PlaceOf(id) == TopLevel
    ensures id in LabelsUsed(Assemble(head, file, edit, view, window, help))
  {
    var es := Assemble(head, file, edit, view, window, help);
    LabelAt(es, 0);
    LabelAt(es, 1);
    LabelAt(es, 2);
    LabelAt(es, 3);
    LabelAt(es, 4);
    LabelAt(es, 5);
  }

  lemma RequiredIsPlaced(id: LabelKey)
    requires id in RequiredIds()
    ensures !id.OtherLabel?
  {
    assert id in LABEL_IDS;
  }

  /** The macOS menu renders every required label. */
  lemma MacMenuUsesEveryLabel(id: LabelKey)
    requires id in RequiredIds()
    ensures id in LabelsUsed(AppMenu(true))
  {
    RequiredIsPlaced(id);
    match PlaceOf(id) {
      case TopLevel =>
      case InApplication => ApplicationLabels(id);
      case InLanguage => LanguageLabels(id);
      case InFile => FileLabels(id);
      case InEdit => EditLabels(id);
      case InView => ViewLabels(id);
      case InAppearance => AppearanceLabels(id);
      case InWindow => WindowLabels(id);
    }
    AssembledLabels(ApplicationMenuOf(true), FileEntries(true), EDIT_ENTRIES, ViewEntries(true), WINDOW_ENTRIES,
                    HelpEntries(true), id);
  }

  lemma ApplicationIds(id: LabelKey)
    requires PlaceOf(id) in {InApplication, InLanguage}
    ensures id in APPLICATION_LABELS
  {
    var k := match id case LAppAbout => 0 case LAppLanguage => 1 case LAppLanguageSystem => 2 case LAppLanguageEn => 3
                      case LAppLanguageZhCn => 4 case LAppLanguageEs => 5 case LAppLanguageJa => 6 case LAppServices => 7
                      case LAppHide => 8 case LAppHideOthers => 9 case _ => 10;
    assert APPLICATION_LABELS[k] == id;
  }

  lemma ViewIds(id: LabelKey)
    requires PlaceOf(id) in {InView, InAppearance} || id.LView?
    ensures id in VIEW_LABELS
  {
    var k := match id case LView => 0 case LViewAppearance => 1 case LViewAppearanceSystem => 2
                      case LViewAppearanceLight => 3 case LViewAppearanceDark => 4 case LViewToolLock => 5
                      case LViewGrid => 6 case LViewSnap => 7 case LViewZen => 8 case LViewViewMode => 9 case _ => 10;
    assert VIEW_LABELS[k] == id;
  }

  lemma NamedIsRequired(id: LabelKey)
    requires !id.OtherLabel?
    ensures id in RequiredIds()
  {
    match PlaceOf(id) {
      case InApplication => ApplicationIds(id);
      case InLanguage => ApplicationIds(id);
      case InView => ViewIds(id);
      case InAppearance => ViewIds(id);
      case _ => OtherIds(id);
    }
    assert id in LABEL_IDS;
  }

  lemma OtherIds(id: LabelKey)
    requires PlaceOf(id) in {TopLevel, InFile, InEdit, InWindow}
    ensures id in FILE_LABELS + EDIT_LABELS + VIEW_LABELS + WINDOW_LABELS
  {
    if id.LView? {
      ViewIds(id);
    } else {
      var k := match id case LFile => 0 case LFileNewWindow => 1 case LFileOpenWorkspace => 2 case LFileSave => 3
                        case LFileExportImage => 4 case LFileVersionHistory => 5 case LFileCloseWindow => 6
                        case LEdit => 7 case LEditUndo => 8 case LEditRedo => 9 case LEditCut => 10
                        case LEditCopy => 11 case LEditPaste => 12 case LEditSelectAll => 13
                        case LWindow => 14 case LWindowMinimize => 15 case LWindowZoom => 16 case LHelp => 17 case _ => 18;
      assert (FILE_LABELS + EDIT_LABELS + WINDOW_LABELS)[k] == id;
    }
  }

  lemma {:induction false} LabelsAreNamed(es: seq<MenuEntry>)
    requires Labelled(es)
    ensures forall id :: id in LabelsUsed(es) ==> !id.OtherLabel?
    decreases es
  {
    if es != [] {
      if es[0].Submenu? {
        LabelsAreNamed(es[0].children);
      }
      LabelsAreNamed(es[1..]);
    }
  }

  /** The labels the application renders are the required ones: all of them on macOS, no other anywhere. */
  lemma RenderedAreRequired()
    ensures LabelsUsed(AppMenu(true)) == RequiredIds()
    ensures LabelsUsed(AppMenu(false)) <= RequiredIds()
  {
    forall mac, id | id in LabelsUsed(AppMenu(mac))
      ensures id in RequiredIds()
    {
      AppMenuLabelled(mac);
      LabelsAreNamed(AppMenu(mac));
      NamedIsRequired(id);
    }
    forall id | id in RequiredIds()
      ensures id in LabelsUsed(AppMenu(true))
    {
      MacMenuUsesEveryLabel(id);
    }
  }

  lemma MapsDiffer<K, V>(a: map<K, V>, b: map<K, V>) returns (k: K)
    requires a.Keys == b.Keys && a != b
    ensures k in a && k in b && a[k] != b[k]
  {
    k :| k in a && a[k] != b[k];
  }

  /** The macOS menu reads the same in two valid label sets only if they are equal. */
  lemma MacTextsIff(l: Labels, m: Labels)
    requires ValidLabels(l) && ValidLabels(m)
    ensures SameTexts(AppMenu(true), l, m) <==> l == m
  {
    if l != m {
      var id := MapsDiffer(l, m);
      MacMenuUsesEveryLabel(id);
      assert LabelText(l, id) != LabelText(m, id);
    }
  }

  lemma {:induction false} LabelsStayValid(w: World, s: Shell, l: Labels, es: seq<Event>)
    requires ValidLabels(s.model.labels) && ValidLabels(l)
    ensures ValidLabels(Run(w, s, es).model.labels) && ValidLabels(InstalledAfter(w, s, l, es))
    decreases |es|
  {
    if es != [] {
      StepKeepsLabelsValid(w, s, es[0]);
      LabelsStayValid(w, Step(w, s, es[0]).shell, Installed(s, l, es[0]), es[1..]);
    }
  }

  lemma StepKeepsLabelsValid(w: World, s: Shell, e: Event)
    requires ValidLabels(s.model.labels)
    ensures ValidLabels(Step(w, s, e).shell.model.labels)
  {
  }

  lemma {:induction false} TreeStays(w: World, s: Shell, es: seq<Event>)
    requires s.tree.Some?
    ensures Run(w, s, es).tree.Some?
    decreases |es|
  {
    if es != [] {
      StepKeepsTree(w, s, es[0]);
      TreeStays(w, Step(w, s, es[0]).shell, es[1..]);
    }
  }

  lemma StepKeepsTree(w: World, s: Shell, e: Event)
    requires s.tree.Some?
    ensures Step(w, s, e).shell.tree.Some?
  {
  }

  /**
   On macOS a failed sync of new labels leaves the menu in shape exactly when it
   failed before the new menu was installed: once installed, the labels roll back
   and the menu does not.
   */
  lemma FailedRelabelKeepsShapeIff(app: string, s: Shell, caller: string, target: Option<string>, labels: Labels,
                                   state: SyncState, p: Answers)
    requires s.tree.Some? && InShape(AppWorld(app, true), s) && ValidLabels(s.model.labels)
    requires ValidLabels(labels) && labels != s.model.labels
    requires SyncStep(AppWorld(app, true), s, caller, target, labels, state, p).verdict.Failed?
    ensures InShape(AppWorld(app, true), SyncStep(AppWorld(app, true), s, caller, target, labels, state, p).shell)
       <==> !(p.builds && p.installs)
  {
    var w := AppWorld(app, true);
    var after := SyncStep(w, s, caller, target, labels, state, p).shell;
    FailedSyncIsATransaction(w, s, caller, target, labels, state, p);
    if p.builds && p.installs {
      SyncKeepsShape(w, s, s.model.labels, caller, target, labels, state, p);
      ShapeIff(w, after, labels);
      MacTextsIff(labels, s.model.labels);
    }
  }

  /** After any run on macOS, menu and model are together if and only if the labels installed last are the model's. */
  lemma MacRunInShapeIff(app: string, s: Shell, es: seq<Event>)
    requires s.tree.Some? && InShape(AppWorld(app, true), s) && ValidLabels(s.model.labels)
    ensures
      var w := AppWorld(app, true);
      InShape(w, Run(w, s, es)) <==> InstalledAfter(w, s, s.model.labels, es) == Run(w, s, es).model.labels
  {
    var w := AppWorld(app, true);
    AppMenuIsWellFormed(app, true);
    TreeStays(w, s, es);
    RunInShapeIff(w, s, es);
    LabelsStayValid(w, s, s.model.labels, es);
    MacTextsIff(InstalledAfter(w, s, s.model.labels, es), Run(w, s, es).model.labels);
  }

  /**
   After any run on macOS, a refreshing step that succeeds leaves exactly the rebuilt menu
   if and only if it brings new labels, or the labels installed last are the model's.
   */
  lemma MacRefreshAgreesIff(app: string, s: Shell, es: seq<Event>, e: Event)
    requires s.tree.Some? && InShape(AppWorld(app, true), s) && ValidLabels(s.model.labels)
    requires
      var w := AppWorld(app, true);
      Refreshes(Run(w, s, es), e) && Step(w, Run(w, s, es), e).verdict.Done?
    ensures
      var w := AppWorld(app, true);
      var last := Run(w, s, es);
      Agrees(w, Step(w, last, e).shell) <==>
      Relabels(last, e) || InstalledAfter(w, s, s.model.labels, es) == last.model.labels
  {
    var w := AppWorld(app, true);
    var last, installed := Run(w, s, es), InstalledAfter(w, s, s.model.labels, es);
    AppMenuIsWellFormed(app, true);
    TreeStays(w, s, es);
    StepKeepsTree(w, last, e);
    RunThenRefreshAgreesIff(w, s, es, e);
    LabelsStayValid(w, s, s.model.labels, es);
    StepKeepsLabelsValid(w, last, e);
    DoneKeepsLabels(w, last, e);
    MacTextsIff(Installed(last, installed, e), Step(w, last, e).shell.model.labels);
  }

  predicate NothingRelabels(w: World, s: Shell, es: seq<Event>)
    decreases |es|
  {
    es != [] ==> !Relabels(s, es[0]) && NothingRelabels(w, Step(w, s, es[0]).shell, es[1..])
  }

  lemma {:induction false} LabelsStay(w: World, s: Shell, l: Labels, es: seq<Event>)
    requires NothingRelabels(w, s, es)
    ensures InstalledAfter(w, s, l, es) == l && Run(w, s, es).model.labels == s.model.labels
    decreases |es|
  {
    if es != [] {
      UnlabelledStepKeepsLabels(w, s, es[0]);
      LabelsStay(w, Step(w, s, es[0]).shell, l, es[1..]);
    }
  }

  lemma UnlabelledStepKeepsLabels(w: World, s: Shell, e: Event)
    requires !Relabels(s, e)
    ensures Step(w, s, e).shell.model.labels == s.model.labels
  {
  }

  /** A lost registration lasts: whatever follows, until new labels are installed the menu never agrees again. */
  lemma LostRegistrationLasts(app: string, s: Shell, lost: Event, es: seq<Event>)
    requires s.tree.Some? && InShape(AppWorld(app, true), s) && ValidLabels(s.model.labels)
    requires LosesRegistration(AppWorld(app, true), s, lost)
    requires NothingRelabels(AppWorld(app, true), Step(AppWorld(app, true), s, lost).shell, es)
    ensures
      var w := AppWorld(app, true);
      && Step(w, s, lost).verdict.Failed? && Step(w, s, lost).shell.model == s.model
      && !Agrees(w, Run(w, Step(w, s, lost).shell, es))
  {
    var w := AppWorld(app, true);
    var after := Step(w, s, lost).shell;
    MacRunInShapeIff(app, s, [lost] + es);
    assert ([lost] + es)[1..] == es;
    assert Run(w, s, [lost] + es) == Run(w, after, es);
    LabelsStay(w, after, lost.labels, es);
    TreeStays(w, after, es);
  }

  lemma MacHasWindowMenu(app: string)
    ensures HasWindowMenu(AppWorld(app, true))
  {
    var es := AppMenu(true);
    assert es[4].Submenu? && es[4].id == SubmenuId(WindowMenu);
  }

  /** The failing input: the new menu is installed, its registration fails, and the next focus does not repair it. */
  lemma FocusDoesNotRepair(app: string, s: Shell, caller: string, target: Option<string>, labels: Labels,
                           state: SyncState, window: string, budget: nat)
    requires s.tree.Some? && Agrees(AppWorld(app, true), s) && ValidLabels(s.model.labels)
    requires ValidLabels(labels) && labels != s.model.labels && s.model.active != Some(window)
    ensures
      var w := AppWorld(app, true);
      var after := Step(w, s, Sync(caller, target, labels, state, Answers(true, true, false, 0))).shell;
      && Refreshes(after, Focus(window, budget))
      && !Agrees(w, Step(w, after, Focus(window, budget)).shell)
  {
    var w := AppWorld(app, true);
    var lost := Sync(caller, target, labels, state, Answers(true, true, false, 0));
    MacHasWindowMenu(app);
    LostRegistrationLasts(app, s, lost, [Focus(window, budget)]);
    assert [Focus(window, budget)][1..] == [];
  }

  /** What repairs it is the same request again: it still brings new labels. */
  lemma RetryRepairs(app: string, s: Shell, lost: Event, again: Answers)
    requires LosesRegistration(AppWorld(app, true), s, lost)
    requires again.builds && again.installs && again.registers
    ensures
      var w := AppWorld(app, true);
      var retry := Step(w, Step(w, s, lost).shell, Sync(lost.caller, lost.target, lost.labels, lost.state, again));
      retry.verdict.Done? && Agrees(w, retry.shell) && retry.shell.model.labels == lost.labels
  {
    var w := AppWorld(app, true);
    RelabellingHeals(w, Step(w, s, lost).shell, Sync(lost.caller, lost.target, lost.labels, lost.state, again));
  }
}
