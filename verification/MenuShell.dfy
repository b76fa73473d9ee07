/**
 The menu model, the installed tree, and every step that changes them
 (src-tauri/src/native_menu.rs), as a state machine over values. `NativeMenu`
 proves the in-place code against these steps; this module proves what whole
 runs keep.
 */
module MenuShell {
  import opened Options
  import opened MenuSpec
  import opened MenuTree

  datatype WindowState = WindowState(state: SyncState, historyEnabled: bool)

  const DEFAULT_WINDOW := WindowState(DEFAULT_STATE, false)

  /** Last valid labels, every window's last report, and the window the menu shows. */
  datatype Model = Model(labels: Labels, windows: map<string, WindowState>, active: Option<string>) {
    function Reported(name: string): WindowState {
      if name in windows then windows[name] else DEFAULT_WINDOW
    }

    function Shows(): Shown {
      match active
      case Some(name) => Shown(labels, Reported(name).state, Reported(name).historyEnabled, true)
      case None => Shown(labels, DEFAULT_STATE, false, false)
    }

    function Report(name: string, w: WindowState): Model {
      this.(windows := windows[name := w])
    }
  }

  /** What never changes: the menu tree, the application name, the platform. */
  datatype World = World(entries: seq<MenuEntry>, app: string, mac: bool)

  /** The model, and the menu installed in the application (if any). */
  datatype Shell = Shell(model: Model, tree: Option<seq<Node>>)

  /** `Rejected` steps fail before any menu call; `Failed` ones at a menu call. */
  datatype Verdict = Done | Rejected | Failed

  datatype Outcome = Outcome(shell: Shell, verdict: Verdict)

  /**
   How the platform answers: whether a build, installing it, and registering its
   Window submenu succeed, and how many menu calls an in-place walk gets.
   */
  datatype Answers = Answers(builds: bool, installs: bool, registers: bool, budget: nat)

  function Rebuilt(w: World, m: Model): seq<Node> {
    BuildAll(w.entries, m.Shows(), w.app)
  }

  /** The installed tree, if any, shows exactly what a full rebuild would. */
  predicate Agrees(w: World, s: Shell) {
    s.tree.Some? ==> s.tree.value == Rebuilt(w, s.model)
  }

  /** The installed tree differs from a rebuild at most in governed flags. */
  predicate InShape(w: World, s: Shell) {
    s.tree.Some? ==> FrameAll(s.tree.value) == FrameAll(Rebuilt(w, s.model))
  }

  predicate WellFormed(w: World) {
    && Occurrences(w.entries, HISTORY) == 1
    && OnlyPlain(w.entries, HISTORY)
    && EntryChecksAreCommands(w.entries)
  }

  predicate EntryChecksAreCommands(es: seq<MenuEntry>)
    decreases es
  {
    es != [] ==>
      && (es[0].Item? && es[0].check ==> IsCommand(es[0].id))
      && (es[0].Submenu? ==> EntryChecksAreCommands(es[0].children))
      && EntryChecksAreCommands(es[1..])
  }

  // ---------------------------------------------------------------- steps

  /** Re-apply the model to the installed menu; listing its items is the first call. */
  function Refresh(s: Shell, budget: nat): Outcome {
    match s.tree
    case None => Outcome(s, Done)
    case Some(ns) =>
      if budget == 0 then Outcome(s, Failed)
      else
        var walk := ApplyWithin(ns, s.model.Shows(), budget - 1);
        Outcome(s.(tree := Some(walk.nodes)), if walk.ok then Done else Failed)
  }

  /** The top level holds the Window submenu that macOS registers after an install. */
  predicate HasWindowMenu(w: World) {
    exists i :: 0 <= i < |w.entries| && w.entries[i].Submenu? && w.entries[i].id == SubmenuId(WindowMenu)
  }

  /** An install replaces the tree first and registers its Window submenu second. */
  predicate RegistrationFails(w: World, p: Answers) {
    p.builds && p.installs && w.mac && HasWindowMenu(w) && !p.registers
  }

  function SyncedModel(m: Model, caller: string, target: Option<string>, labels: Labels, state: SyncState): Model {
    m.(labels := labels,
       windows := m.windows[caller := m.Reported(caller).(state := state)],
       active := if target == Some(caller) then target else m.active)
  }

  function SyncStep(w: World, s: Shell, caller: string, target: Option<string>, labels: Labels,
                    state: SyncState, p: Answers): Outcome {
    if !ValidLabels(labels) then Outcome(s, Rejected)
    else Show(w, s, SyncedModel(s.model, caller, target, labels, state), target == Some(caller), p)
  }

  /** Shows the revised model `m`, or goes back to the previous one. */
  function Show(w: World, s: Shell, m: Model, showsCaller: bool, p: Answers): Outcome {
    if m.labels != s.model.labels then
      if !p.builds || !p.installs then Outcome(s, Failed)
      else if RegistrationFails(w, p) then Outcome(Shell(s.model, Some(Rebuilt(w, m))), Failed)
      else Outcome(Shell(m, Some(Rebuilt(w, m))), Done)
    else if showsCaller then
      var after := Refresh(Shell(m, s.tree), p.budget);
      if after.verdict.Done? then after else Outcome(Shell(s.model, after.shell.tree), Failed)
    else Outcome(Shell(m, s.tree), Done)
  }

  /** The locked half of `set_native_menu_enabled`. */
  function EnableStore(s: Shell, caller: string, target: Option<string>, enabled: bool): Shell {
    s.(model := s.model.Report(caller, s.model.Reported(caller).(historyEnabled := enabled))
                .(active := if target == Some(caller) then target else s.model.active))
  }

  /** The unlocked half: one write into the menu that was fetched before the lock. */
  function EnableWrite(s: Shell, enabled: bool, answers: bool): Outcome {
    if s.tree.None? || !answers then Outcome(s, Failed)
    else
      var written := SetFirst(s.tree.value, HISTORY, enabled);
      Outcome(s.(tree := Some(written.nodes)), if written.found then Done else Failed)
  }

  /** Both halves back to back. */
  function EnableStep(s: Shell, caller: string, target: Option<string>, command: MenuId,
                      enabled: bool, answers: bool): Outcome {
    if command != HISTORY || s.tree.None? then Outcome(s, Rejected)
    else
      var stored := EnableStore(s, caller, target, enabled);
      if target != Some(caller) then Outcome(stored, Done)
      else EnableWrite(stored, enabled, answers)
  }

  function FocusStep(s: Shell, name: string, budget: nat): Outcome {
    if s.model.active == Some(name) then Outcome(s, Done)
    else Refresh(s.(model := s.model.(active := Some(name))), budget)
  }

  function DestroyStep(s: Shell, name: string, next: Option<string>, budget: nat): Outcome {
    var m := s.model.(windows := s.model.windows - {name});
    if m.active.Some? && m.active != Some(name) then Outcome(s.(model := m), Done)
    else Refresh(s.(model := m.(active := next)), budget)
  }

  /** AppKit toggles the clicked check item, then the event handler restores the flags. */
  function ClickStep(s: Shell, path: seq<nat>, budget: nat): Outcome {
    if s.tree.None? then Outcome(s, Done)
    else
      var clicked := NodeAt(s.tree.value, path);
      var toggled := s.(tree := Some(Toggle(s.tree.value, path)));
      if clicked.Some? && (clicked.value.PlainNode? || clicked.value.CheckNode?) && IsCommand(clicked.value.id)
      then Refresh(toggled, budget)
      else Outcome(toggled, Done)
  }

  datatype Event =
    | Sync(caller: string, target: Option<string>, labels: Labels, state: SyncState, answers: Answers)
    | Enable(caller: string, target: Option<string>, command: MenuId, enabled: bool, answered: bool)
    | Store(caller: string, target: Option<string>, enabled: bool)
    | Write(enabled: bool, current: bool, answered: bool)
    | Focus(window: string, budget: nat)
    | Destroy(window: string, next: Option<string>, budget: nat)
    | Click(path: seq<nat>, budget: nat)

  /** A late write goes to the installed menu only when no rebuild came between. */
  function Step(w: World, s: Shell, e: Event): Outcome {
    match e
    case Sync(caller, target, labels, state, p) => SyncStep(w, s, caller, target, labels, state, p)
    case Enable(caller, target, command, enabled, answered) =>
      EnableStep(s, caller, target, command, enabled, answered)
    case Store(caller, target, enabled) => Outcome(EnableStore(s, caller, target, enabled), Done)
    case Write(enabled, current, answered) =>
      if current then EnableWrite(s, enabled, answered) else Outcome(s, Done)
    case Focus(window, budget) => FocusStep(s, window, budget)
    case Destroy(window, next, budget) => DestroyStep(s, window, next, budget)
    case Click(path, budget) => ClickStep(s, path, budget)
  }

  function Run(w: World, s: Shell, es: seq<Event>): Shell
    decreases |es|
  {
    if es == [] then s else Run(w, Step(w, s, es[0]).shell, es[1..])
  }

  // ---------------------------------------------------------------- every run

  lemma {:induction false} BuiltChecksAreCommands(es: seq<MenuEntry>, s: Shown, app: string)
    requires EntryChecksAreCommands(es)
    ensures ChecksAreCommands(BuildAll(es, s, app))
    decreases es
  {
    if es != [] {
      if es[0].Submenu? {
        BuiltChecksAreCommands(es[0].children, s, app);
      }
      BuiltChecksAreCommands(es[1..], s, app);
      assert BuildAll(es, s, app)[1..] == BuildAll(es[1..], s, app);
    }
  }

  /** The tree that a full build from the model would give, but with the labels `l`. */
  function BuiltWith(w: World, m: Model, l: Labels): seq<Node> {
    BuildAll(w.entries, m.Shows().(labels := l), w.app)
  }

  /** The installed tree was built with the labels `l`: up to governed flags it still is that build. */
  predicate Shaped(w: World, s: Shell, l: Labels) {
    s.tree.Some? ==> FrameAll(s.tree.value) == FrameAll(BuiltWith(w, s.model, l))
  }

  lemma ShapeMakesCommands(w: World, s: Shell, l: Labels)
    requires WellFormed(w) && Shaped(w, s, l) && s.tree.Some?
    ensures ChecksAreCommands(s.tree.value)
  {
    BuiltChecksAreCommands(w.entries, s.model.Shows().(labels := l), w.app);
    CommandsInFrame(BuiltWith(w, s.model, l));
    CommandsInFrame(s.tree.value);
  }

  /** Which labels the tree was built with does not depend on the model. */
  lemma ShapeSurvives(w: World, s: Shell, l: Labels, m: Model)
    requires Shaped(w, s, l)
    ensures Shaped(w, s.(model := m), l)
  {
    FrameOfBuild(w.entries, s.model.Shows().(labels := l), m.Shows().(labels := l), w.app);
  }

  lemma RefreshKeepsShape(w: World, s: Shell, l: Labels, budget: nat)
    requires Shaped(w, s, l)
    ensures Shaped(w, Refresh(s, budget).shell, l)
  {
    if s.tree.Some? && budget > 0 {
      WalkKeepsFrame(s.tree.value, s.model.Shows(), budget - 1);
    }
  }

  /** A refresh the platform lets finish gives the model's build in the labels the tree has, whatever its flags were. */
  lemma RefreshRestoresFlags(w: World, s: Shell, l: Labels, budget: nat)
    requires Shaped(w, s, l) && Refresh(s, budget).verdict.Done? && s.tree.Some?
    ensures Refresh(s, budget).shell.tree == Some(BuiltWith(w, s.model, l))
  {
    FinishedWalkAppliesAll(s.tree.value, s.model.Shows(), budget - 1);
    UpdateInPlaceKeepsTexts(w.entries, s.tree.value, l, s.model.Shows(), w.app);
  }

  /** A sync that installs a new menu, whether or not its registration then fails. */
  predicate Relabels(s: Shell, e: Event) {
    e.Sync? && ValidLabels(e.labels) && e.labels != s.model.labels && e.answers.builds && e.answers.installs
  }

  /** The labels of the menu installed last. */
  function Installed(s: Shell, l: Labels, e: Event): Labels {
    if Relabels(s, e) then e.labels else l
  }

  lemma StepKeepsShape(w: World, s: Shell, l: Labels, e: Event)
    requires WellFormed(w) && Shaped(w, s, l)
    ensures Shaped(w, Step(w, s, e).shell, Installed(s, l, e))
  {
    match e
    case Sync(caller, target, labels, state, p) => SyncKeepsShape(w, s, l, caller, target, labels, state, p);
    case Enable(caller, target, command, enabled, answered) =>
      ShapeSurvives(w, s, l, EnableStore(s, caller, target, enabled).model);
      if s.tree.Some? {
        WriteKeepsFrame(s.tree.value, HISTORY, enabled);
      }
    case Store(caller, target, enabled) => ShapeSurvives(w, s, l, EnableStore(s, caller, target, enabled).model);
    case Write(enabled, current, answered) =>
      if s.tree.Some? {
        WriteKeepsFrame(s.tree.value, HISTORY, enabled);
      }
    case Focus(window, budget) =>
      var m := s.model.(active := Some(window));
      ShapeSurvives(w, s, l, m);
      RefreshKeepsShape(w, s.(model := m), l, budget);
    case Destroy(window, next, budget) =>
      var m := s.model.(windows := s.model.windows - {window});
      ShapeSurvives(w, s, l, m);
      ShapeSurvives(w, s, l, m.(active := next));
      RefreshKeepsShape(w, s.(model := m.(active := next)), l, budget);
    case Click(path, budget) =>
      if s.tree.Some? {
        ShapeMakesCommands(w, s, l);
        ToggleKeepsFrame(s.tree.value, path);
        RefreshKeepsShape(w, s.(tree := Some(Toggle(s.tree.value, path))), l, budget);
      }
  }

  lemma SyncKeepsShape(w: World, s: Shell, l: Labels, caller: string, target: Option<string>, labels: Labels,
                       state: SyncState, p: Answers)
    requires Shaped(w, s, l)
    ensures Shaped(w, SyncStep(w, s, caller, target, labels, state, p).shell,
                   Installed(s, l, Sync(caller, target, labels, state, p)))
  {
    var m := SyncedModel(s.model, caller, target, labels, state);
    if ValidLabels(labels) {
      if labels == s.model.labels {
        ShapeSurvives(w, s, l, m);
        RefreshKeepsShape(w, Shell(m, s.tree), l, p.budget);
        ShapeSurvives(w, Refresh(Shell(m, s.tree), p.budget).shell, l, s.model);
      } else if p.builds && p.installs {
        ShapeSurvives(w, Shell(m, Some(Rebuilt(w, m))), labels, s.model);
      }
    }
  }

  /** The labels of the menu that is installed after a run. */
  function InstalledAfter(w: World, s: Shell, l: Labels, es: seq<Event>): Labels
    decreases |es|
  {
    if es == [] then l else InstalledAfter(w, Step(w, s, es[0]).shell, Installed(s, l, es[0]), es[1..])
  }

  /**
   Every run, with any interleaving of the two halves of an enable, any failing menu
   calls and any lost registration, leaves the tree a build with the labels that
   were installed last, up to governed flags.
   */
  lemma {:induction false} EveryRunKeepsShape(w: World, s: Shell, l: Labels, es: seq<Event>)
    requires WellFormed(w) && Shaped(w, s, l)
    ensures Shaped(w, Run(w, s, es), InstalledAfter(w, s, l, es))
    decreases |es|
  {
    if es != [] {
      StepKeepsShape(w, s, l, es[0]);
      EveryRunKeepsShape(w, Step(w, s, es[0]).shell, Installed(s, l, es[0]), es[1..]);
    }
  }

  /** So the tree is in shape exactly when those labels and the model's give it the same texts. */
  lemma ShapeIff(w: World, s: Shell, l: Labels)
    requires Shaped(w, s, l) && s.tree.Some?
    ensures InShape(w, s) <==> SameTexts(w.entries, l, s.model.labels)
  {
    FramesAgreeIff(w.entries, s.model.Shows().(labels := l), s.model.Shows(), w.app);
  }

  lemma RunInShapeIff(w: World, s: Shell, es: seq<Event>)
    requires WellFormed(w) && InShape(w, s) && Run(w, s, es).tree.Some?
    ensures InShape(w, Run(w, s, es))
       <==> SameTexts(w.entries, InstalledAfter(w, s, s.model.labels, es), Run(w, s, es).model.labels)
  {
    EveryRunKeepsShape(w, s, s.model.labels, es);
    ShapeIff(w, Run(w, s, es), InstalledAfter(w, s, s.model.labels, es));
  }

  // ---------------------------------------------------------------- refreshing

  /** The events that re-apply the model to the whole menu, or rebuild it. */
  predicate Refreshes(s: Shell, e: Event) {
    match e
    case Sync(caller, target, labels, _, _) =>
      ValidLabels(labels) && (target == Some(caller) || labels != s.model.labels)
    case Focus(window, _) => s.model.active != Some(window)
    case Destroy(window, _, _) => s.model.active.None? || s.model.active == Some(window)
    case Click(path, _) =>
      s.tree.Some? ==>
        NodeAt(s.tree.value, path).Some?
        && (NodeAt(s.tree.value, path).value.PlainNode? || NodeAt(s.tree.value, path).value.CheckNode?)
        && IsCommand(NodeAt(s.tree.value, path).value.id)
    case _ => false
  }

  /** A refreshing step that succeeds leaves the build from the model, in the labels installed last. */
  lemma RefreshingStepRestores(w: World, s: Shell, l: Labels, e: Event)
    requires WellFormed(w) && Shaped(w, s, l)
    requires Refreshes(s, e) && Step(w, s, e).verdict.Done?
    ensures
      var after := Step(w, s, e).shell;
      after.tree.Some? ==> after.tree == Some(BuiltWith(w, after.model, Installed(s, l, e)))
  {
    match e
    case Sync(caller, target, labels, state, p) =>
      var m := SyncedModel(s.model, caller, target, labels, state);
      if labels == s.model.labels {
        RefreshesFrom(w, s, l, m, p.budget);
      } else {
        assert m.Shows().(labels := labels) == m.Shows();
      }
    case Focus(window, budget) => RefreshesFrom(w, s, l, s.model.(active := Some(window)), budget);
    case Destroy(window, next, budget) =>
      RefreshesFrom(w, s, l, s.model.(windows := s.model.windows - {window}, active := next), budget);
    case Click(path, budget) =>
      if s.tree.Some? {
        ShapeMakesCommands(w, s, l);
        ToggleKeepsFrame(s.tree.value, path);
        RefreshesFrom(w, s.(tree := Some(Toggle(s.tree.value, path))), l, s.model, budget);
      }
    case _ =>
  }

  lemma RefreshesFrom(w: World, s: Shell, l: Labels, m: Model, budget: nat)
    requires Shaped(w, s, l) && Refresh(s.(model := m), budget).verdict.Done?
    ensures
      var after := Refresh(s.(model := m), budget).shell;
      && after.model == m
      && (after.tree.Some? ==> after.tree == Some(BuiltWith(w, m, l)))
  {
    ShapeSurvives(w, s, l, m);
    if s.tree.Some? {
      RefreshRestoresFlags(w, s.(model := m), l, budget);
    }
  }

  /** It leaves exactly the rebuilt menu if and only if those labels read like the model's. */
  lemma RefreshingStepAgreesIff(w: World, s: Shell, l: Labels, e: Event)
    requires WellFormed(w) && Shaped(w, s, l)
    requires Refreshes(s, e) && Step(w, s, e).verdict.Done? && Step(w, s, e).shell.tree.Some?
    ensures
      var after := Step(w, s, e).shell;
      Agrees(w, after) <==> SameTexts(w.entries, Installed(s, l, e), after.model.labels)
  {
    var after := Step(w, s, e).shell;
    RefreshingStepRestores(w, s, l, e);
    var shown := after.model.Shows().(labels := Installed(s, l, e));
    RelabelledBuildsIff(w.entries, shown, after.model.labels, w.app);
    assert shown.(labels := after.model.labels) == after.model.Shows();
  }

  /** From a tree in shape it does. */
  lemma RefreshingStepHeals(w: World, s: Shell, e: Event)
    requires WellFormed(w) && InShape(w, s)
    requires Refreshes(s, e) && Step(w, s, e).verdict.Done?
    ensures Agrees(w, Step(w, s, e).shell)
  {
    RefreshingStepRestores(w, s, s.model.labels, e);
    DoneKeepsLabels(w, s, e);
    var after := Step(w, s, e).shell;
    assert after.model.Shows().(labels := after.model.labels) == after.model.Shows();
  }

  /** A step that succeeds leaves the model the labels it had, or those it installed. */
  lemma DoneKeepsLabels(w: World, s: Shell, e: Event)
    requires Step(w, s, e).verdict.Done?
    ensures Step(w, s, e).shell.model.labels == Installed(s, s.model.labels, e)
  {
  }

  /** A sync that brings new labels and succeeds leaves exactly the rebuilt menu, from any state at all. */
  lemma RelabellingHeals(w: World, s: Shell, e: Event)
    requires e.Sync? && e.labels != s.model.labels && Step(w, s, e).verdict.Done?
    ensures Agrees(w, Step(w, s, e).shell) && Step(w, s, e).shell.model.labels == e.labels
  {
  }

  /**
   Exactly when one refreshing step repairs a run. After any run at all, with failed
   and raced steps and lost registrations, a refreshing step that succeeds leaves the
   rebuilt menu if and only if the labels installed last read like the model's.
   */
  lemma RunThenRefreshAgreesIff(w: World, s: Shell, es: seq<Event>, e: Event)
    requires WellFormed(w) && InShape(w, s)
    requires Refreshes(Run(w, s, es), e) && Step(w, Run(w, s, es), e).verdict.Done?
    requires Step(w, Run(w, s, es), e).shell.tree.Some?
    ensures
      var last, after := Run(w, s, es), Step(w, Run(w, s, es), e).shell;
      var installed := Installed(last, InstalledAfter(w, s, s.model.labels, es), e);
      Agrees(w, after) <==> SameTexts(w.entries, installed, after.model.labels)
  {
    EveryRunKeepsShape(w, s, s.model.labels, es);
    RefreshingStepAgreesIff(w, Run(w, s, es), InstalledAfter(w, s, s.model.labels, es), e);
  }

  /** The one event after which the model has other labels than the menu: an install that lost its registration. */
  predicate LosesRegistration(w: World, s: Shell, e: Event) {
    e.Sync? && ValidLabels(e.labels) && e.labels != s.model.labels && RegistrationFails(w, e.answers)
  }

  predicate NeverLosesRegistration(w: World, s: Shell, es: seq<Event>)
    decreases |es|
  {
    es != [] ==> !LosesRegistration(w, s, es[0]) && NeverLosesRegistration(w, Step(w, s, es[0]).shell, es[1..])
  }

  /** Without such an event the labels of the menu are the model's, so every refresh that succeeds repairs everything. */
  lemma {:induction false} InstalledFollowsModel(w: World, s: Shell, es: seq<Event>)
    requires NeverLosesRegistration(w, s, es)
    ensures InstalledAfter(w, s, s.model.labels, es) == Run(w, s, es).model.labels
    decreases |es|
  {
    if es != [] {
      StepFollowsModel(w, s, es[0]);
      InstalledFollowsModel(w, Step(w, s, es[0]).shell, es[1..]);
    }
  }

  lemma StepFollowsModel(w: World, s: Shell, e: Event)
    requires !LosesRegistration(w, s, e)
    ensures Installed(s, s.model.labels, e) == Step(w, s, e).shell.model.labels
  {
  }

  lemma RunThenRefreshAgrees(w: World, s: Shell, es: seq<Event>, e: Event)
    requires WellFormed(w) && InShape(w, s) && NeverLosesRegistration(w, s, es)
    requires Refreshes(Run(w, s, es), e) && Step(w, Run(w, s, es), e).verdict.Done?
    ensures Agrees(w, Step(w, Run(w, s, es), e).shell)
  {
    EveryRunKeepsShape(w, s, s.model.labels, es);
    InstalledFollowsModel(w, s, es);
    RefreshingStepHeals(w, Run(w, s, es), e);
  }

  // ---------------------------------------------------------------- guarded runs

  /** What the callers must respect for the tree never to disagree. */
  predicate Guarded(s: Shell, e: Event) {
    match e
    case Sync(caller, target, labels, _, _) =>
      target == Some(caller) || s.model.active != Some(caller) || labels != s.model.labels
    case Enable(caller, target, _, _, _) =>
      target == Some(caller) <==> s.model.active == Some(caller)
    case Store(caller, target, _) => target != Some(caller) && s.model.active != Some(caller)
    case Write(enabled, current, _) => current ==> s.model.Shows().historyEnabled == enabled
    case _ => true
  }

  /** A late Version History write leaves an agreeing tree right exactly when it says what the model says. */
  lemma WriteAgreesIff(w: World, s: Shell, enabled: bool)
    requires WellFormed(w) && Agrees(w, s) && s.tree.Some?
    ensures EnableWrite(s, enabled, true).verdict.Done?
    ensures Agrees(w, EnableWrite(s, enabled, true).shell) <==> s.model.Shows().historyEnabled == enabled
  {
    var shown := s.model.Shows();
    SingleWriteIsRebuild(w.entries, shown, enabled, w.app);
    SingleWriteIsRebuild(w.entries, shown, shown.historyEnabled, w.app);
    assert shown.(historyEnabled := shown.historyEnabled) == shown;
    if enabled != shown.historyEnabled {
      HistoryItemOccurs(w.entries);
      EqualBuildsIff(w.entries, shown, shown.(historyEnabled := enabled), w.app);
      assert (HISTORY, false) in Items(w.entries);
      assert !SameFlags(HISTORY, false, shown, shown.(historyEnabled := enabled));
    }
  }

  lemma {:induction false} HistoryItemOccurs(es: seq<MenuEntry>)
    requires Occurrences(es, HISTORY) > 0 && OnlyPlain(es, HISTORY)
    ensures (HISTORY, false) in Items(es)
    decreases es
  {
    if Occurrences(es[1..], HISTORY) > 0 {
      HistoryItemOccurs(es[1..]);
    } else if es[0].Submenu? {
      HistoryItemOccurs(es[0].children);
    }
  }

  lemma GuardedStepAgrees(w: World, s: Shell, e: Event)
    requires WellFormed(w) && Agrees(w, s) && Guarded(s, e)
    requires !Step(w, s, e).verdict.Failed?
    ensures Agrees(w, Step(w, s, e).shell)
  {
    if Refreshes(s, e) && Step(w, s, e).verdict.Done? {
      RefreshingStepHeals(w, s, e);
    } else {
      match e
      case Enable(caller, target, command, enabled, answered) =>
        if command == HISTORY && s.tree.Some? && target == Some(caller) {
          var shown := s.model.Shows();
          SingleWriteIsRebuild(w.entries, shown, enabled, w.app);
          assert EnableStore(s, caller, target, enabled).model.Shows() == shown.(historyEnabled := enabled);
        }
      case Write(enabled, current, answered) =>
        if current && s.tree.Some? {
          WriteAgreesIff(w, s, enabled);
        }
      case Click(path, budget) =>
        if s.tree.Some? {
          ShapeMakesCommands(w, s, s.model.labels);
          ToggleKeepsFrame(s.tree.value, path);
        }
      case _ =>
    }
  }

  predicate GuardedRun(w: World, s: Shell, es: seq<Event>)
    decreases |es|
  {
    es != [] ==>
      && Guarded(s, es[0]) && !Step(w, s, es[0]).verdict.Failed?
      && GuardedRun(w, Step(w, s, es[0]).shell, es[1..])
  }

  /**
   In every run of sync, enable, focus, destroy and click steps, by any number of
   windows, whose callers respect the guards and whose menu calls succeed, the
   installed tree is always exactly the tree a full rebuild would give.
   */
  lemma {:induction false} GuardedRunAgrees(w: World, s: Shell, es: seq<Event>)
    requires WellFormed(w) && Agrees(w, s) && GuardedRun(w, s, es)
    ensures Agrees(w, Run(w, s, es))
    decreases |es|
  {
    if es != [] {
      GuardedStepAgrees(w, s, es[0]);
      GuardedRunAgrees(w, Step(w, s, es[0]).shell, es[1..]);
    }
  }

  /** A sync that fails leaves the model as it was; one that fails to build or install leaves the tree too. */
  lemma FailedSyncIsATransaction(w: World, s: Shell, caller: string, target: Option<string>, labels: Labels,
                                 state: SyncState, p: Answers)
    requires !SyncStep(w, s, caller, target, labels, state, p).verdict.Done?
    ensures SyncStep(w, s, caller, target, labels, state, p).shell.model == s.model
    ensures labels != s.model.labels && !RegistrationFails(w, p) ==>
              SyncStep(w, s, caller, target, labels, state, p).shell == s
  {
  }

  /** What a target's enable installs, and what the model then asks for. */
  lemma TargetEnableInstalls(w: World, s: Shell, caller: string, enabled: bool)
    requires WellFormed(w) && Agrees(w, s) && s.tree.Some?
    ensures
      var after := EnableStep(s, caller, Some(caller), HISTORY, enabled, true);
      && after.verdict.Done?
      && after.shell.tree == Some(BuildAll(w.entries, s.model.Shows().(historyEnabled := enabled), w.app))
      && after.shell.model.Shows() == Shown(s.model.labels, s.model.Reported(caller).state, enabled, true)
  {
    SingleWriteIsRebuild(w.entries, s.model.Shows(), enabled, w.app);
  }

  /** What a sync that is not shown leaves installed, and what the model then asks for. */
  lemma UnshownSyncInstalls(w: World, s: Shell, caller: string, target: Option<string>, labels: Labels,
                            state: SyncState, p: Answers)
    requires ValidLabels(labels) && labels == s.model.labels && target != Some(caller)
    ensures
      var after := SyncStep(w, s, caller, target, labels, state, p).shell;
      && after.tree == s.tree
      && after.model.Shows()
         == if s.model.active == Some(caller) then s.model.Shows().(state := state) else s.model.Shows()
  {
  }

  /** What another window's enable leaves installed, and what the model then asks for. */
  lemma OtherEnableInstalls(s: Shell, caller: string, target: Option<string>, enabled: bool)
    requires s.tree.Some? && target != Some(caller)
    ensures
      var after := EnableStep(s, caller, target, HISTORY, enabled, true).shell;
      && after.tree == s.tree
      && after.model.Shows()
         == if s.model.active == Some(caller) then s.model.Shows().(historyEnabled := enabled) else s.model.Shows()
  {
  }
}
