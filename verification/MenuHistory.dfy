/**
 What the menu shows, read off the list of events alone: the labels synced last, the
 window that came to the front last, and what that window reported last
 (src-tauri/src/native_menu.rs). The model of `MenuShell` is proved to be this record.
 */
module MenuHistory {
  import opened Options
  import opened MenuSpec
  import opened MenuTree
  import opened MenuShell
  import opened MenuGaps

  // ---------------------------------------------------------------- one step

  /** Focus shows the focused window, whatever was shown, and forgets nothing. */
  lemma FocusModel(w: World, s: Shell, name: string, budget: nat)
    ensures Step(w, s, Focus(name, budget)).shell.model == Model(s.model.labels, s.model.windows, Some(name))
  {
  }

  /** Destroy drops that window's report only, and moves on exactly when it was shown or none was. */
  lemma DestroyModel(w: World, s: Shell, name: string, next: Option<string>, budget: nat)
    ensures
      var m := Step(w, s, Destroy(name, next, budget)).shell.model;
      && m.labels == s.model.labels
      && (forall x :: x in m.windows <==> x in s.model.windows && x != name)
      && (forall x :: x in m.windows ==> m.windows[x] == s.model.windows[x])
      && m.active == if s.model.active in {None, Some(name)} then next else s.model.active
  {
  }

  // ---------------------------------------------------------------- what a list of events says

  /** The window the event reports about, if it leaves a report. */
  function Reporter(e: Event): Option<string> {
    match e
    case Sync(caller, _, _, _, _) => Some(caller)
    case Enable(caller, _, _, _, _) => Some(caller)
    case Store(caller, _, _) => Some(caller)
    case _ => None
  }

  /** The window asked for while it is the target. */
  function Fronted(e: Event): Option<string> {
    match e
    case Sync(caller, target, _, _, _) => if target == Some(caller) then target else None
    case Enable(caller, target, _, _, _) => if target == Some(caller) then target else None
    case Store(caller, target, _) => if target == Some(caller) then target else None
    case Focus(window, _) => Some(window)
    case _ => None
  }

  /** The labels of the last sync. */
  function LastLabels(start: Labels, es: seq<Event>): Labels
    decreases |es|
  {
    if es == [] then start
    else
      var e := es[|es| - 1];
      if e.Sync? then e.labels else LastLabels(start, es[..|es| - 1])
  }

  /** The last window focused, or asked for as the target; closing it shows the next one. */
  function LastShown(es: seq<Event>): Option<string>
    decreases |es|
  {
    if es == [] then None
    else
      var e, before := es[|es| - 1], LastShown(es[..|es| - 1]);
      if Fronted(e).Some? then Fronted(e)
      else if e.Destroy? && (before.None? || before == Some(e.window)) then e.next
      else before
  }

  /** The state the window synced last since it was opened. */
  function LastState(es: seq<Event>, x: string): SyncState
    decreases |es|
  {
    if es == [] then DEFAULT_STATE
    else
      var e := es[|es| - 1];
      if e.Sync? && e.caller == x then e.state
      else if e.Destroy? && e.window == x then DEFAULT_STATE
      else LastState(es[..|es| - 1], x)
  }

  /** The Version History flag the window stored last since it was opened. */
  function LastHistory(es: seq<Event>, x: string): bool
    decreases |es|
  {
    if es == [] then false
    else
      var e := es[|es| - 1];
      if (e.Enable? || e.Store?) && e.caller == x then e.enabled
      else if e.Destroy? && e.window == x then false
      else LastHistory(es[..|es| - 1], x)
  }

  /** The window has reported something since it was opened. */
  predicate HasReported(es: seq<Event>, x: string)
    decreases |es|
  {
    es != [] &&
    var e := es[|es| - 1];
    Reporter(e) == Some(x) || (!(e.Destroy? && e.window == x) && HasReported(es[..|es| - 1], x))
  }

  /** The model is what the events say. */
  ghost predicate Records(m: Model, start: Labels, es: seq<Event>) {
    && m.labels == LastLabels(start, es)
    && m.active == LastShown(es)
    && (forall x :: x in m.windows <==> HasReported(es, x))
    && (forall x :: m.Reported(x) == WindowState(LastState(es, x), LastHistory(es, x)))
  }

  /** A rejected request leaves no trace, nor does a sync that fails; anything else counts, failed or not. */
  predicate Counts(e: Event, verdict: Verdict) {
    !verdict.Rejected? && !(e.Sync? && verdict.Failed?)
  }

  /** What the list of events that count gains. */
  function Kept(e: Event, verdict: Verdict): seq<Event> {
    if Counts(e, verdict) then [e] else []
  }

  /** The events of a run that count. */
  function Taken(w: World, s: Shell, es: seq<Event>): seq<Event>
    decreases |es|
  {
    if es == [] then []
    else
      var after := Step(w, s, es[0]);
      Kept(es[0], after.verdict) + Taken(w, after.shell, es[1..])
  }

  lemma StepRecords(w: World, s: Shell, start: Labels, past: seq<Event>, e: Event)
    requires Records(s.model, start, past)
    ensures Records(Step(w, s, e).shell.model, start, past + Kept(e, Step(w, s, e).verdict))
  {
    var now := past + Kept(e, Step(w, s, e).verdict);
    if Counts(e, Step(w, s, e).verdict) {
      assert now[|now| - 1] == e && now[..|now| - 1] == past;
      TakenStepRecords(w, s, start, past, e, now);
    } else {
      assert now == past;
      UncountedKeepsModel(w, s, e);
    }
  }

  lemma UncountedKeepsModel(w: World, s: Shell, e: Event)
    requires !Counts(e, Step(w, s, e).verdict)
    ensures Step(w, s, e).shell.model == s.model
  {
  }

  /** What an event that counts does to the model. */
  function Revised(m: Model, e: Event): Model {
    match e
    case Sync(caller, target, labels, state, _) => SyncedModel(m, caller, target, labels, state)
    case Focus(window, _) => m.(active := Some(window))
    case Destroy(window, next, _) =>
      m.(windows := m.windows - {window}, active := if m.active.None? || m.active == Some(window) then next else m.active)
    case Write(_, _, _) => m
    case Click(_, _) => m
    case _ => EnableStore(Shell(m, None), e.caller, e.target, e.enabled).model
  }

  lemma TakenRevises(w: World, s: Shell, e: Event)
    requires Counts(e, Step(w, s, e).verdict)
    ensures Step(w, s, e).shell.model == Revised(s.model, e)
  {
  }

  lemma TakenStepRecords(w: World, s: Shell, start: Labels, past: seq<Event>, e: Event, now: seq<Event>)
    requires Records(s.model, start, past) && Counts(e, Step(w, s, e).verdict)
    requires |now| > 0 && now[|now| - 1] == e && now[..|now| - 1] == past
    ensures Records(Step(w, s, e).shell.model, start, now)
  {
    TakenRevises(w, s, e);
    RevisedRecords(s.model, start, past, e, now);
  }

  lemma RevisedRecords(m: Model, start: Labels, past: seq<Event>, e: Event, now: seq<Event>)
    requires Records(m, start, past)
    requires |now| > 0 && now[|now| - 1] == e && now[..|now| - 1] == past
    ensures Records(Revised(m, e), start, now)
  {
  }

  /** In every run, with any failures and any interleaving, the model is what the events that count say. */
  lemma {:induction false} RunRecords(w: World, s: Shell, start: Labels, past: seq<Event>, es: seq<Event>)
    requires Records(s.model, start, past)
    ensures Records(Run(w, s, es).model, start, past + Taken(w, s, es))
    decreases |es|
  {
    if es == [] {
      assert past + Taken(w, s, es) == past;
    } else {
      var after := Step(w, s, es[0]);
      var kept := Kept(es[0], after.verdict);
      StepRecords(w, s, start, past, es[0]);
      RunRecords(w, after.shell, start, past + kept, es[1..]);
      Regroup(past, kept, Taken(w, after.shell, es[1..]));
    }
  }

  lemma Regroup<T>(a: seq<T>, b: seq<T>, c: seq<T>)
    ensures a + b + c == a + (b + c)
  {
  }

  // ---------------------------------------------------------------- what the menu shows

  /** The bootstrap: the menu of the first labels, with no window reported. */
  function Bootstrap(w: World, start: Labels): Shell {
    Shell(Model(start, map[], None), Some(MenuOf(w, start, [])))
  }

  /** What the events ask for: the last report of the window shown last, in the labels synced last. */
  function ShownBy(start: Labels, es: seq<Event>): Shown {
    var labels := LastLabels(start, es);
    match LastShown(es)
    case None => Shown(labels, DEFAULT_STATE, false, false)
    case Some(x) => Shown(labels, LastState(es, x), LastHistory(es, x), true)
  }

  function MenuOf(w: World, start: Labels, es: seq<Event>): seq<Node> {
    BuildAll(w.entries, ShownBy(start, es), w.app)
  }

  lemma RebuiltIsTheMenuOf(w: World, m: Model, start: Labels, es: seq<Event>)
    requires Records(m, start, es)
    ensures Rebuilt(w, m) == MenuOf(w, start, es)
  {
    if m.active.Some? {
      assert m.Reported(m.active.value) == WindowState(LastState(es, m.active.value), LastHistory(es, m.active.value));
    }
  }

  lemma BootstrapRecords(w: World, start: Labels)
    ensures Records(Bootstrap(w, start).model, start, [])
    ensures Agrees(w, Bootstrap(w, start))
  {
  }

  lemma RunFromBootstrap(w: World, start: Labels, es: seq<Event>)
    ensures Records(Run(w, Bootstrap(w, start), es).model, start, Taken(w, Bootstrap(w, start), es))
  {
    BootstrapRecords(w, start);
    RunRecords(w, Bootstrap(w, start), start, [], es);
    assert [] + Taken(w, Bootstrap(w, start), es) == Taken(w, Bootstrap(w, start), es);
  }

  /** A request that is turned down whatever the state: invalid labels, or a command other than Version History. */
  predicate Refused(e: Event) {
    (e.Sync? && !ValidLabels(e.labels)) || (e.Enable? && e.command != HISTORY)
  }

  function Accepted(es: seq<Event>): seq<Event>
    decreases |es|
  {
    if es == [] then [] else (if Refused(es[0]) then [] else [es[0]]) + Accepted(es[1..])
  }

  /** With a menu installed and no failing call, these are the only events that do not count. */
  lemma {:induction false} GuardedRunTakes(w: World, s: Shell, es: seq<Event>)
    requires s.tree.Some? && GuardedRun(w, s, es)
    ensures Taken(w, s, es) == Accepted(es)
    decreases |es|
  {
    if es != [] {
      StepKeepsTree(w, s, es[0]);
      RejectedIffRefused(w, s, es[0]);
      GuardedRunTakes(w, Step(w, s, es[0]).shell, es[1..]);
    }
  }

  lemma RejectedIffRefused(w: World, s: Shell, e: Event)
    requires s.tree.Some?
    ensures Step(w, s, e).verdict.Rejected? <==> Refused(e)
  {
  }

  /**
   In every guarded run from the bootstrap, the installed menu is the build of the last
   report of the window shown last, in the labels synced last, all read off the events.
   */
  lemma GuardedRunShowsTheLastReport(w: World, start: Labels, es: seq<Event>)
    requires WellFormed(w) && GuardedRun(w, Bootstrap(w, start), es)
    ensures Run(w, Bootstrap(w, start), es).tree == Some(MenuOf(w, start, Accepted(es)))
  {
    var s := Bootstrap(w, start);
    BootstrapRecords(w, start);
    GuardedRunAgrees(w, s, es);
    TreeStays(w, s, es);
    RunFromBootstrap(w, start, es);
    GuardedRunTakes(w, s, es);
    RebuiltIsTheMenuOf(w, Run(w, s, es).model, start, Accepted(es));
  }

  /** Item by item, for the application's own menu: each owned item is there and says what the events ask for. */
  lemma GuardedRunSays(app: string, mac: bool, start: Labels, es: seq<Event>, item: Owned)
    requires GuardedRun(AppWorld(app, mac), Bootstrap(AppWorld(app, mac), start), es)
    ensures
      var w := AppWorld(app, mac);
      var tree := Run(w, Bootstrap(w, start), es).tree;
      && tree.Some?
      && (exists n :: n in Leaves(tree.value) && IsItem(n) && n.id == OwnedId(item))
      && (forall n :: n in Leaves(tree.value) && IsItem(n) ==> Says(n, ShownBy(start, Accepted(es))))
  {
    AppMenuIsWellFormed(app, mac);
    GuardedRunShowsTheLastReport(AppWorld(app, mac), start, es);
    AppMenuSays(item, ShownBy(start, Accepted(es)), app, mac);
  }

  /** After any other run that lost no registration, one refreshing step that succeeds shows it too. */
  lemma RefreshShowsTheLastReport(w: World, start: Labels, es: seq<Event>, e: Event)
    requires WellFormed(w) && NeverLosesRegistration(w, Bootstrap(w, start), es)
    requires Refreshes(Run(w, Bootstrap(w, start), es), e)
    requires Step(w, Run(w, Bootstrap(w, start), es), e).verdict.Done?
    ensures
      var s := Bootstrap(w, start);
      Step(w, Run(w, s, es), e).shell.tree == Some(MenuOf(w, start, Taken(w, s, es) + [e]))
  {
    var s := Bootstrap(w, start);
    BootstrapRecords(w, start);
    RunThenRefreshAgrees(w, s, es, e);
    TreeStays(w, s, es);
    StepKeepsTree(w, Run(w, s, es), e);
    RunFromBootstrap(w, start, es);
    StepRecords(w, Run(w, s, es), start, Taken(w, s, es), e);
    RebuiltIsTheMenuOf(w, Step(w, Run(w, s, es), e).shell.model, start, Taken(w, s, es) + [e]);
  }
}
