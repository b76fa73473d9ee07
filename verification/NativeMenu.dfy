/**
 The native menu in place: live items whose flags are written one by one, and
 the store that keeps the model beside them (src-tauri/src/native_menu.rs).
 Every method is proved against the step of `MenuShell` it carries out.
 */
module NativeMenu {
  import opened Options
  import opened MenuSpec
  import opened MenuTree
  import opened MenuShell

  class PlainItem {
    const id: MenuId
    const text: ItemText
    const accelerator: Option<string>
    var enabled: bool

    constructor (id: MenuId, text: ItemText, enabled: bool, accelerator: Option<string>)
      ensures this.id == id && this.text == text && this.accelerator == accelerator && this.enabled == enabled
    {
      this.id, this.text, this.accelerator, this.enabled := id, text, accelerator, enabled;
    }
  }

  class CheckItem {
    const id: MenuId
    const text: ItemText
    const accelerator: Option<string>
    var enabled: bool
    var checked: bool

    constructor (id: MenuId, text: ItemText, enabled: bool, checked: bool, accelerator: Option<string>)
      ensures this.id == id && this.text == text && this.accelerator == accelerator
      ensures this.enabled == enabled && this.checked == checked
    {
      this.id, this.text, this.accelerator := id, text, accelerator;
      this.enabled, this.checked := enabled, checked;
    }
  }

  /** A handle to an installed item. A submenu's items never change; its leaves' flags do. */
  datatype LiveItem =
    | LiveSubmenu(id: MenuId, text: ItemText, children: seq<LiveItem>)
    | LivePlain(plain: PlainItem)
    | LiveCheck(check: CheckItem)
    | LiveSystem(kind: SystemItem, text: ItemText)
    | LiveSeparator

  ghost function Leaves(item: LiveItem): set<object>
    decreases item, 1
  {
    match item
    case LiveSubmenu(_, _, children) => LeavesAll(children)
    case LivePlain(plain) => {plain}
    case LiveCheck(check) => {check}
    case LiveSystem(_, _) => {}
    case LiveSeparator => {}
  }

  ghost function LeavesAll(items: seq<LiveItem>): set<object>
    decreases items, 0
  {
    set i, o | 0 <= i < |items| && o in Leaves(items[i]) :: o
  }

  /** Handles are allocated objects, so what is allocated later is none of them. */
  lemma {:induction false} LeavesAreAllocated(item: LiveItem)
    ensures forall o :: o in Leaves(item) ==> allocated(o)
    decreases item, 1
  {
    match item
    case LiveSubmenu(_, _, children) => AllLeavesAreAllocated(children);
    case LivePlain(plain) => assert allocated(plain);
    case LiveCheck(check) => assert allocated(check);
    case LiveSystem(_, _) =>
    case LiveSeparator =>
  }

  lemma {:induction false} AllLeavesAreAllocated(items: seq<LiveItem>)
    ensures forall o :: o in LeavesAll(items) ==> allocated(o)
    decreases items, 0
  {
    forall i | 0 <= i < |items|
      ensures forall o :: o in Leaves(items[i]) ==> allocated(o)
    {
      LeavesAreAllocated(items[i]);
    }
  }

  /** No object is the handle of two items. */
  ghost predicate Distinct(items: seq<LiveItem>)
    decreases items
  {
    && (forall i, j :: 0 <= i < j < |items| ==> Leaves(items[i]) !! Leaves(items[j]))
    && (forall i :: 0 <= i < |items| && items[i].LiveSubmenu? ==> Distinct(items[i].children))
  }

  ghost function Snapshot(item: LiveItem): Node
    reads Leaves(item)
    decreases item, 1
  {
    match item
    case LiveSubmenu(id, text, children) => SubmenuNode(id, text, SnapshotAll(children))
    case LivePlain(plain) => PlainNode(plain.id, plain.text, plain.enabled, plain.accelerator)
    case LiveCheck(check) => CheckNode(check.id, check.text, check.enabled, check.checked, check.accelerator)
    case LiveSystem(kind, text) => SystemNode(kind, text)
    case LiveSeparator => SeparatorNode
  }

  ghost function SnapshotAll(items: seq<LiveItem>): (ns: seq<Node>)
    reads LeavesAll(items)
    ensures |ns| == |items|
    decreases items, 0
  {
    seq(|items|, i requires 0 <= i < |items| reads LeavesAll(items) => Snapshot(items[i]))
  }

  // ---------------------------------------------------------------- building

  method BuildEntry(entry: MenuEntry, shown: Shown, app: string) returns (item: LiveItem)
    ensures fresh(Leaves(item)) && (item.LiveSubmenu? ==> Distinct(item.children))
    ensures Snapshot(item) == Build(entry, shown, app)
    decreases entry, 1
  {
    match entry {
      case Submenu(id, title, children) =>
        var built := BuildEntries(children, shown, app);
        item := LiveSubmenu(id, TitleText(title, shown, app), built);
      case Item(id, key, check, accelerator) =>
        var state := shown.Of(id);
        var enabled := state.None? || state.value.enabled;
        if check {
          var checked := state.Some? && state.value.checked.GetOr(false);
          var c := new CheckItem(id, LabelText(shown.labels, key), enabled, checked, accelerator);
          item := LiveCheck(c);
        } else {
          var p := new PlainItem(id, LabelText(shown.labels, key), enabled, accelerator);
          item := LivePlain(p);
        }
      case SystemEntry(kind, key) =>
        item := LiveSystem(kind, LabelText(shown.labels, key));
      case Separator =>
        item := LiveSeparator;
    }
  }

  lemma LeavesAppend(items: seq<LiveItem>, item: LiveItem)
    ensures LeavesAll(items + [item]) == LeavesAll(items) + Leaves(item)
  {
    var longer := items + [item];
    forall o | o in LeavesAll(items)
      ensures o in LeavesAll(longer)
    {
      var i :| 0 <= i < |items| && o in Leaves(items[i]);
      assert longer[i] == items[i];
    }
    assert longer[|items|] == item;
  }

  lemma DistinctAppend(items: seq<LiveItem>, item: LiveItem)
    requires Distinct(items) && LeavesAll(items) !! Leaves(item)
    requires item.LiveSubmenu? ==> Distinct(item.children)
    ensures Distinct(items + [item])
  {
    var longer := items + [item];
    forall i, j | 0 <= i < j < |longer|
      ensures Leaves(longer[i]) !! Leaves(longer[j])
    {
      assert longer[i] == items[i];
      assert Leaves(items[i]) <= LeavesAll(items);
    }
  }

  method BuildEntries(entries: seq<MenuEntry>, shown: Shown, app: string) returns (items: seq<LiveItem>)
    ensures fresh(LeavesAll(items)) && Distinct(items)
    ensures SnapshotAll(items) == BuildAll(entries, shown, app)
    decreases entries, 0
  {
    items := [];
    ghost var ahead := BuildAll(entries, shown, app);
    for n := 0 to |entries|
      invariant |items| == n
      invariant fresh(LeavesAll(items)) && Distinct(items)
      invariant ahead == BuildAll(entries[n..], shown, app)
      invariant BuildAll(entries, shown, app) == SnapshotAll(items) + ahead
    {
      ghost var before, rest := SnapshotAll(items), BuildAll(entries[n + 1..], shown, app);
      BuildHead(entries[n..], shown, app);
      assert entries[n..][1..] == entries[n + 1..];
      AllLeavesAreAllocated(items);
      var item := BuildEntry(entries[n], shown, app);
      assert SnapshotAll(items) == before;
      LeavesAppend(items, item);
      DistinctAppend(items, item);
      assert SnapshotAll(items + [item]) == before + [Snapshot(item)];
      Shift(before, Snapshot(item), rest);
      items, ahead := items + [item], rest;
    }
    assert entries[|entries|..] == [];
  }

  lemma BuildHead(entries: seq<MenuEntry>, shown: Shown, app: string)
    requires entries != []
    ensures BuildAll(entries, shown, app) == [Build(entries[0], shown, app)] + BuildAll(entries[1..], shown, app)
  {
  }

  // ---------------------------------------------------------------- re-applying

  lemma LeavesApart(items: seq<LiveItem>, n: nat, i: nat)
    requires n < |items| && i < |items| && i != n && Distinct(items)
    ensures Leaves(items[i]) !! Leaves(items[n])
    ensures Leaves(items[i]) <= LeavesAll(items)
  {
    if i < n {
      assert Leaves(items[i]) !! Leaves(items[n]);
    } else {
      assert Leaves(items[n]) !! Leaves(items[i]);
    }
  }

  lemma Splice(before: seq<Node>, done: seq<Node>, head: Node, rest: seq<Node>, now: Node)
    requires before == done + ([head] + rest)
    ensures before[|done|] == head
    ensures before[|done| := now] == (done + [now]) + rest
  {
  }

  lemma Shift(done: seq<Node>, now: Node, rest: seq<Node>)
    ensures done + ([now] + rest) == (done + [now]) + rest
  {
  }

  lemma WalkHead(head: Node, rest: seq<Node>, shown: Shown, budget: nat)
    ensures
      var first := ApplyOneWithin(head, shown, budget);
      var next := ApplyWithin(rest, shown, first.left);
      ApplyWithin([head] + rest, shown, budget)
      == if first.ok then Walk(first.nodes + next.nodes, next.left, next.ok)
         else Walk(first.nodes + rest, first.left, false)
  {
    assert ([head] + rest)[0] == head && ([head] + rest)[1..] == rest;
  }

  method ApplyItem(item: LiveItem, shown: Shown, budget: nat) returns (left: nat, ok: bool)
    requires item.LiveSubmenu? ==> Distinct(item.children)
    modifies Leaves(item)
    ensures Walk([Snapshot(item)], left, ok) == ApplyOneWithin(old(Snapshot(item)), shown, budget)
    decreases item, 1
  {
    left, ok := budget, true;
    match item {
      case LiveSubmenu(id, text, children) =>
        if left == 0 {
          ok := false;
        } else {
          left, ok := ApplyMenuState(children, shown, left - 1);
        }
      case LivePlain(plain) =>
        var state := shown.Of(plain.id);
        if state.Some? {
          if left == 0 {
            ok := false;
          } else {
            plain.enabled := state.value.enabled;
            left := left - 1;
          }
        }
      case LiveCheck(check) =>
        var state := shown.Of(check.id);
        if state.Some? {
          if left == 0 {
            ok := false;
          } else {
            check.enabled := state.value.enabled;
            left := left - 1;
            if left == 0 {
              ok := false;
            } else {
              check.checked := state.value.checked.GetOr(false);
              left := left - 1;
            }
          }
        }
      case LiveSystem(_, _) =>
      case LiveSeparator =>
    }
  }

  /** Pushes the flags onto the items; `left` menu calls remain, `ok` unless one failed. */
  method ApplyMenuState(items: seq<LiveItem>, shown: Shown, budget: nat) returns (left: nat, ok: bool)
    requires Distinct(items)
    modifies LeavesAll(items)
    ensures Walk(SnapshotAll(items), left, ok) == ApplyWithin(old(SnapshotAll(items)), shown, budget)
    decreases items, 1
  {
    left, ok := budget, true;
    ghost var goal := ApplyWithin(SnapshotAll(items), shown, budget);
    ghost var done: seq<Node>, todo := [], SnapshotAll(items);
    ghost var ahead := goal;
    for n := 0 to |items|
      invariant ok && |done| == n && |todo| == |items| - n
      invariant SnapshotAll(items) == done + todo
      invariant ahead == ApplyWithin(todo, shown, left)
      invariant goal == Walk(done + ahead.nodes, ahead.left, ahead.ok)
    {
      ghost var head, rest, before := todo[0], todo[1..], SnapshotAll(items);
      assert todo == [head] + rest;
      WalkHead(head, rest, shown, left);
      left, ok := ApplyNth(items, n, shown, left, head);
      ghost var now := Snapshot(items[n]);
      Splice(before, done, head, rest, now);
      if !ok {
        Shift(done, now, rest);
        return;
      }
      ahead := ApplyWithin(rest, shown, left);
      Shift(done, now, ahead.nodes);
      done, todo := done + [now], rest;
    }
    NothingAhead(todo, shown, left);
  }

  lemma NothingAhead(todo: seq<Node>, shown: Shown, left: nat)
    requires |todo| == 0
    ensures ApplyWithin(todo, shown, left) == Walk(todo, left, true)
  {
    assert todo == [];
  }

  /** One turn of the loop: only entry `n` of the snapshot changes. */
  method ApplyNth(items: seq<LiveItem>, n: nat, shown: Shown, budget: nat, ghost head: Node)
    returns (left: nat, ok: bool)
    requires n < |items| && Distinct(items) && SnapshotAll(items)[n] == head
    modifies LeavesAll(items)
    ensures SnapshotAll(items) == old(SnapshotAll(items))[n := Snapshot(items[n])]
    ensures Walk([Snapshot(items[n])], left, ok) == ApplyOneWithin(head, shown, budget)
    decreases items, 0
  {
    var item := items[n];
    AllLeavesAreAllocated(items);
    assert Leaves(item) <= LeavesAll(items);
    left, ok := ApplyItem(item, shown, budget);
    forall i | 0 <= i < |items| && i != n
      ensures Snapshot(items[i]) == old(Snapshot(items[i]))
    {
      LeavesApart(items, n, i);
    }
  }

  // ---------------------------------------------------------------- one item

  /** What a search finds in a list whose head it has turned into `now`. */
  ghost function Advanced(now: Node, next: Written): Written {
    Written([now] + next.nodes, next.found)
  }

  /** What lies behind the head: nothing more to search, or the search of the rest. */
  ghost function Behind(rest: seq<Node>, id: MenuId, enabled: bool, stop: bool, found: bool): Written {
    if stop then Written(rest, found) else SetFirst(rest, id, enabled)
  }

  /** The search in one item, whatever items follow it. */
  method SetInItem(item: LiveItem, id: MenuId, enabled: bool, ghost rest: seq<Node>) returns (stop: bool, found: bool)
    requires item.LiveSubmenu? ==> Distinct(item.children)
    modifies Leaves(item)
    ensures SetFirst([old(Snapshot(item))] + rest, id, enabled)
         == Advanced(Snapshot(item), Behind(rest, id, enabled, stop, found))
    decreases item, 1
  {
    stop, found := false, false;
    ghost var was := Snapshot(item);
    assert ([was] + rest)[0] == was && ([was] + rest)[1..] == rest;
    match item {
      case LiveSubmenu(own, _, children) =>
        if own == id {
          stop := true;
        } else {
          found := SetMenuItemEnabled(children, id, enabled);
          stop := found;
        }
      case LivePlain(plain) =>
        if plain.id == id {
          plain.enabled := enabled;
          stop, found := true, true;
        }
      case LiveCheck(check) =>
        stop := check.id == id;
      case LiveSystem(_, _) =>
      case LiveSeparator =>
    }
  }

  /** Writes the first item whose id matches; false when there is none to write. */
  method SetMenuItemEnabled(items: seq<LiveItem>, id: MenuId, enabled: bool) returns (found: bool)
    requires Distinct(items)
    modifies LeavesAll(items)
    ensures Written(SnapshotAll(items), found) == SetFirst(old(SnapshotAll(items)), id, enabled)
    decreases items, 1
  {
    ghost var goal := SetFirst(SnapshotAll(items), id, enabled);
    ghost var done: seq<Node>, todo := [], SnapshotAll(items);
    for n := 0 to |items|
      invariant |done| == n && |todo| == |items| - n
      invariant SnapshotAll(items) == done + todo
      invariant goal == Searched(done, todo, id, enabled)
    {
      ghost var head, rest := todo[0], todo[1..];
      assert todo == [head] + rest;
      var stop;
      stop, found := SetInNth(items, n, id, enabled, done, head, rest);
      ghost var now := Snapshot(items[n]);
      SearchMoves(done, head, rest, now, id, enabled, stop, found);
      done, todo := done + [now], rest;
      if stop {
        return;
      }
    }
    NoneAhead(done, todo, id, enabled);
    return false;
  }

  /** The result of a search that has passed `done` and still has `todo` ahead. */
  ghost function Searched(done: seq<Node>, todo: seq<Node>, id: MenuId, enabled: bool): Written {
    Written(done + SetFirst(todo, id, enabled).nodes, SetFirst(todo, id, enabled).found)
  }

  lemma SearchMoves(done: seq<Node>, head: Node, rest: seq<Node>, now: Node, id: MenuId, enabled: bool,
                    stop: bool, found: bool)
    requires SetFirst([head] + rest, id, enabled) == Advanced(now, Behind(rest, id, enabled, stop, found))
    ensures Searched(done, [head] + rest, id, enabled) ==
              if stop then Written(done + [now] + rest, found) else Searched(done + [now], rest, id, enabled)
  {
    Shift(done, now, Behind(rest, id, enabled, stop, found).nodes);
  }

  lemma NoneAhead(done: seq<Node>, todo: seq<Node>, id: MenuId, enabled: bool)
    requires |todo| == 0
    ensures Searched(done, todo, id, enabled) == Written(done + todo, false)
  {
    assert todo == [];
  }

  /** One turn of the loop: only entry `n` of the snapshot changes. */
  method SetInNth(items: seq<LiveItem>, n: nat, id: MenuId, enabled: bool,
                  ghost done: seq<Node>, ghost head: Node, ghost rest: seq<Node>)
    returns (stop: bool, found: bool)
    requires n < |items| && Distinct(items)
    requires |done| == n && SnapshotAll(items) == done + ([head] + rest)
    modifies LeavesAll(items)
    ensures SnapshotAll(items) == done + [Snapshot(items[n])] + rest
    ensures SetFirst([head] + rest, id, enabled)
         == Advanced(Snapshot(items[n]), Behind(rest, id, enabled, stop, found))
    decreases items, 0
  {
    ghost var before := SnapshotAll(items);
    AllLeavesAreAllocated(items);
    assert Leaves(items[n]) <= LeavesAll(items);
    stop, found := SetInItem(items[n], id, enabled, rest);
    forall i | 0 <= i < |items| && i != n
      ensures Snapshot(items[i]) == old(Snapshot(items[i]))
    {
      LeavesApart(items, n, i);
    }
    Splice(before, done, head, rest, Snapshot(items[n]));
    assert SnapshotAll(items) == before[n := Snapshot(items[n])];
  }

  // ---------------------------------------------------------------- a click

  /** AppKit's toggle of the check item at `path`; reports the id of the item that was clicked. */
  method ToggleAt(items: seq<LiveItem>, path: seq<nat>) returns (clicked: Option<MenuId>)
    requires Distinct(items)
    modifies LeavesAll(items)
    ensures SnapshotAll(items) == Toggle(old(SnapshotAll(items)), path)
    ensures clicked == ClickedId(NodeAt(old(SnapshotAll(items)), path))
    decreases path
  {
    if path == [] || path[0] >= |items| {
      return None;
    }
    var n := path[0];
    AllLeavesAreAllocated(items);
    assert Leaves(items[n]) <= LeavesAll(items);
    ghost var head := Snapshot(items[n]);
    clicked := ToggleIn(items[n], path);
    forall i | 0 <= i < |items| && i != n
      ensures Snapshot(items[i]) == old(Snapshot(items[i]))
    {
      LeavesApart(items, n, i);
    }
    assert SnapshotAll(items) == old(SnapshotAll(items))[n := Snapshot(items[n])];
    ToggleHead(old(SnapshotAll(items)), path, head);
  }

  /** The item a non-empty path goes through: the node it becomes, and the id it was clicked on. */
  method ToggleIn(item: LiveItem, path: seq<nat>) returns (clicked: Option<MenuId>)
    requires path != [] && (item.LiveSubmenu? ==> Distinct(item.children))
    modifies Leaves(item)
    ensures [Snapshot(item)] == Toggle([old(Snapshot(item))], [0] + path[1..])
    ensures clicked == ClickedId(NodeAt([old(Snapshot(item))], [0] + path[1..]))
    decreases path, 0
  {
    ghost var inner := [0] + path[1..];
    assert inner[1..] == path[1..];
    match item {
      case LiveSubmenu(_, _, children) =>
        clicked := ToggleAt(children, path[1..]);
        if |path| == 1 {
          clicked := None;
        }
      case LivePlain(plain) =>
        clicked := if |path| == 1 then Some(plain.id) else None;
      case LiveCheck(check) =>
        clicked := None;
        if |path| == 1 {
          check.checked := !check.checked;
          clicked := Some(check.id);
        }
      case LiveSystem(_, _) =>
        clicked := None;
      case LiveSeparator =>
        clicked := None;
    }
  }

  ghost function ClickedId(n: Option<Node>): Option<MenuId> {
    if n.Some? && (n.value.PlainNode? || n.value.CheckNode?) then Some(n.value.id) else None
  }

  /** A path works on the item it enters as on a list of that item alone. */
  lemma ToggleHead(ns: seq<Node>, path: seq<nat>, head: Node)
    requires path != [] && path[0] < |ns| && head == ns[path[0]]
    ensures Toggle(ns, path) == ns[path[0] := Toggle([head], [0] + path[1..])[0]]
    ensures NodeAt(ns, path) == NodeAt([head], [0] + path[1..])
  {
    var inner := [0] + path[1..];
    assert inner[0] == 0 && inner[1..] == path[1..];
    assert [head][0] == head;
  }

  // ---------------------------------------------------------------- the store

  class NativeMenuStore {
    const world: World
    var labels: Labels
    var windows: map<string, WindowState>
    var active: Option<string>
    var menu: Option<seq<LiveItem>>

    ghost function Handles(): set<object>
      reads this`menu
    {
      if menu.Some? then LeavesAll(menu.value) else {}
    }

    ghost predicate Valid()
      reads this`menu
    {
      this !in Handles() && (menu.Some? ==> Distinct(menu.value))
    }

    function CurrentModel(): Model
      reads this
    {
      Model(labels, windows, active)
    }

    ghost function InstalledTree(): Option<seq<Node>>
      reads this`menu, Handles()
    {
      if menu.Some? then Some(SnapshotAll(menu.value)) else None
    }

    /** The model and the installed tree, as the state machine sees them. */
    ghost function View(): Shell
      reads this, Handles()
    {
      Shell(CurrentModel(), InstalledTree())
    }

    /** The bootstrap menu, installed from the given labels with no window reported. */
    constructor (world: World, labels: Labels)
      ensures Valid() && fresh(Handles()) && this.world == world
      ensures View().model == Model(labels, map[], None) && View().tree.Some?
      ensures Agrees(world, View())
    {
      this.world, this.labels, this.windows, this.active, this.menu := world, labels, map[], None, None;
      new;
      var items := BuildEntries(world.entries, Model(labels, map[], None).Shows(), world.app);
      menu := Some(items);
    }

    /** Builds the model's menu, installs it, and registers its Window submenu. */
    method Install(p: Answers) returns (ok: bool)
      requires Valid()
      modifies this`menu
      ensures Valid() && (menu == old(menu) || fresh(Handles()))
      ensures ok == (p.builds && p.installs && !RegistrationFails(world, p))
      ensures !(p.builds && p.installs) ==> menu == old(menu) && View() == old(View())
      ensures p.builds && p.installs ==> View() == Shell(old(CurrentModel()), Some(Rebuilt(world, old(CurrentModel()))))
    {
      if !p.builds {
        return false;
      }
      if menu.Some? {
        AllLeavesAreAllocated(menu.value);
      }
      var items := BuildEntries(world.entries, CurrentModel().Shows(), world.app);
      if !p.installs {
        return false;
      }
      menu := Some(items);
      return !(world.mac && HasWindowMenu(world) && !p.registers);
    }

    /** Re-applies the model to the installed menu, when there is one. */
    method ApplyInstalled(budget: nat) returns (ok: bool)
      requires Valid()
      modifies Handles()
      ensures Valid()
      ensures View() == Refresh(old(View()), budget).shell
      ensures ok <==> Refresh(old(View()), budget).verdict.Done?
    {
      if menu.None? {
        return true;
      }
      if budget == 0 {
        return false;
      }
      var left;
      left, ok := ApplyMenuState(menu.value, CurrentModel().Shows(), budget - 1);
    }

    /** Rejects invalid labels; otherwise revises the model, shows it, and rolls back if that fails. */
    method Sync(caller: string, target: Option<string>, newLabels: Labels, state: SyncState, p: Answers)
      returns (verdict: Verdict)
      requires Valid()
      modifies this, Handles()
      ensures Valid() && (menu == old(menu) || fresh(Handles()))
      ensures Outcome(View(), verdict) == SyncStep(world, old(View()), caller, target, newLabels, state, p)
      ensures !verdict.Done? ==> labels == old(labels) && windows == old(windows) && active == old(active)
      ensures !verdict.Done? && newLabels != old(labels) && !RegistrationFails(world, p) ==> View() == old(View())
    {
      if menu.Some? {
        AllLeavesAreAllocated(menu.value);
      }
      if !SyncStep(world, View(), caller, target, newLabels, state, p).verdict.Done? {
        FailedSyncIsATransaction(world, View(), caller, target, newLabels, state, p);
      }
      var checked := Validate(newLabels);
      assert View() == old(View());
      if checked.Err? {
        return Rejected;
      }
      verdict := Revise(caller, target, newLabels, state, p);
    }

    method Revise(caller: string, target: Option<string>, newLabels: Labels, state: SyncState, p: Answers)
      returns (verdict: Verdict)
      requires Valid()
      modifies this, Handles()
      ensures Valid() && (menu == old(menu) || fresh(Handles()))
      ensures
        var revised := SyncedModel(old(CurrentModel()), caller, target, newLabels, state);
        Outcome(View(), verdict) == Show(world, old(View()), revised, target == Some(caller), p)
      ensures !verdict.Done? ==> labels == old(labels) && windows == old(windows) && active == old(active)
    {
      var previousLabels, previousActive := labels, active;
      var previousWindow := if caller in windows then Some(windows[caller]) else None;
      var rebuild := newLabels != labels;
      ghost var before := View();
      Record(caller, target, newLabels, state);
      var ok := ShowRevised(rebuild, target == Some(caller), p, before);
      if !ok {
        RollBack(previousLabels, caller, previousWindow, previousActive);
        RolledBack(before.model.windows, caller, before.model.Reported(caller).(state := state));
        return Failed;
      }
      return Done;
    }

    static lemma RolledBack(before: map<string, WindowState>, caller: string, reported: WindowState)
      ensures caller in before ==> before[caller := reported][caller := before[caller]] == before
      ensures caller !in before ==> before[caller := reported] - {caller} == before
    {
    }

    /** Records the labels, the caller's report, and which window the menu shows. */
    method Record(caller: string, target: Option<string>, newLabels: Labels, state: SyncState)
      requires Valid()
      modifies this`labels, this`windows, this`active
      ensures Valid() && InstalledTree() == old(InstalledTree())
      ensures CurrentModel() == SyncedModel(old(CurrentModel()), caller, target, newLabels, state)
    {
      labels := newLabels;
      var entry := if caller in windows then windows[caller] else DEFAULT_WINDOW;
      windows := windows[caller := entry.(state := state)];
      if target == Some(caller) {
        active := target;
      }
    }

    /** Puts the labels, the caller's entry or its absence, and the shown window back. */
    method RollBack(previousLabels: Labels, caller: string, previousWindow: Option<WindowState>,
                    previousActive: Option<string>)
      requires Valid()
      modifies this`labels, this`windows, this`active
      ensures Valid() && InstalledTree() == old(InstalledTree())
      ensures labels == previousLabels && active == previousActive
      ensures windows == if previousWindow.Some? then old(windows)[caller := previousWindow.value] else old(windows) - {caller}
    {
      labels := previousLabels;
      match previousWindow {
        case Some(previous) => windows := windows[caller := previous];
        case None => windows := windows - {caller};
      }
      active := previousActive;
    }

    /** Rebuilds the menu, or updates it in place when it shows the caller. */
    method ShowRevised(rebuild: bool, showsCaller: bool, p: Answers, ghost before: Shell) returns (ok: bool)
      requires Valid() && before.tree == InstalledTree() && rebuild == (labels != before.model.labels)
      modifies this`menu, Handles()
      ensures Valid() && (menu == old(menu) || fresh(Handles()))
      ensures CurrentModel() == old(CurrentModel())
      ensures
        var shown := Show(world, before, old(CurrentModel()), showsCaller, p);
        ok == shown.verdict.Done? && InstalledTree() == shown.shell.tree
    {
      if rebuild {
        ok := Install(p);
      } else if showsCaller {
        ok := ApplyInstalled(p.budget);
      } else {
        ok := true;
      }
    }

    /** Stores the flag under the lock, then writes one item of the menu fetched before it. */
    method SetEnabled(caller: string, target: Option<string>, command: MenuId, enabled: bool, answered: bool)
      returns (verdict: Verdict)
      requires Valid()
      modifies this, Handles()
      ensures Valid() && menu == old(menu)
      ensures Outcome(View(), verdict) == EnableStep(old(View()), caller, target, command, enabled, answered)
      ensures verdict.Rejected? <==> command != HISTORY || menu.None?
      ensures labels == old(labels) && active == if !verdict.Rejected? && target == Some(caller) then target else old(active)
      ensures
        windows ==
          if verdict.Rejected? then old(windows)
          else old(windows)[caller := WindowState(old(CurrentModel()).Reported(caller).state, enabled)]
    {
      if command != HISTORY {
        return Rejected;
      }
      if menu.None? {
        return Rejected;
      }
      var entry := if caller in windows then windows[caller] else DEFAULT_WINDOW;
      windows := windows[caller := entry.(historyEnabled := enabled)];
      if target != Some(caller) {
        return Done;
      }
      active := target;
      if !answered {
        return Failed;
      }
      var found := SetMenuItemEnabled(menu.value, command, enabled);
      return if found then Done else Failed;
    }

    /** Shows a focused window's last report. */
    method ShowWindowState(name: string, budget: nat) returns (verdict: Verdict)
      requires Valid()
      modifies this, Handles()
      ensures Valid() && menu == old(menu)
      ensures Outcome(View(), verdict) == FocusStep(old(View()), name, budget)
      ensures active == Some(name) && labels == old(labels) && windows == old(windows)
      ensures old(active) == Some(name) ==> verdict.Done? && View() == old(View())
    {
      if active == Some(name) {
        return Done;
      }
      active := Some(name);
      var ok := ApplyInstalled(budget);
      return if ok then Done else Failed;
    }

    /** Drops a destroyed window's report and shows the next window's, if the menu showed it. */
    method ForgetWindowState(name: string, next: Option<string>, budget: nat) returns (verdict: Verdict)
      requires Valid()
      modifies this, Handles()
      ensures Valid() && menu == old(menu)
      ensures Outcome(View(), verdict) == DestroyStep(old(View()), name, next, budget)
      ensures labels == old(labels) && windows == old(windows) - {name}
      ensures active == if old(active).None? || old(active) == Some(name) then next else old(active)
    {
      windows := windows - {name};
      if active != Some(name) && active.Some? {
        return Done;
      }
      active := next;
      var ok := ApplyInstalled(budget);
      return if ok then Done else Failed;
    }

    /** AppKit toggles the clicked item; a forwarded command then restores the last synced flags. */
    method Click(path: seq<nat>, budget: nat) returns (verdict: Verdict)
      requires Valid()
      modifies this, Handles()
      ensures Valid() && menu == old(menu) && CurrentModel() == old(CurrentModel())
      ensures Outcome(View(), verdict) == ClickStep(old(View()), path, budget)
    {
      if menu.None? {
        return Done;
      }
      var clicked := ToggleAt(menu.value, path);
      if clicked.None? || !IsCommand(clicked.value) {
        return Done;
      }
      var ok := ApplyInstalled(budget);
      return if ok then Done else Failed;
    }
  }
}
