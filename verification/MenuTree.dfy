/**
 The installed menu as a value, and the four ways the source writes it: a full
 build, a walk that re-applies every governed flag, a first-match write of one
 item, and the platform's own toggle of a clicked check item
 (src-tauri/src/native_menu.rs).
 */
module MenuTree {
  import opened Options
  import opened MenuSpec

  datatype Node =
    | SubmenuNode(id: MenuId, text: ItemText, children: seq<Node>)
    | PlainNode(id: MenuId, text: ItemText, enabled: bool, accelerator: Option<string>)
    | CheckNode(id: MenuId, text: ItemText, enabled: bool, checked: bool, accelerator: Option<string>)
    | SystemNode(kind: SystemItem, text: ItemText)
    | SeparatorNode

  /** What the installed menu shows: one window's flags, or the no-document state. */
  datatype Shown = Shown(labels: Labels, state: SyncState, historyEnabled: bool, hasWindow: bool) {
    function Of(id: MenuId): Option<ItemState> {
      ItemStateOf(id, state, historyEnabled, hasWindow)
    }
  }

  // ---------------------------------------------------------------- building

  function TitleText(title: SubmenuLabel, s: Shown, app: string): ItemText {
    match title
    case LabelId(key) => LabelText(s.labels, key)
    case AppName => Words(app)
  }

  function Build(e: MenuEntry, s: Shown, app: string): Node
    decreases e, 1
  {
    match e
    case Submenu(id, title, children) => SubmenuNode(id, TitleText(title, s, app), BuildAll(children, s, app))
    case Item(id, key, check, accelerator) =>
      var shown := s.Of(id);
      var enabled := shown.None? || shown.value.enabled;
      if check then
        CheckNode(id, LabelText(s.labels, key), enabled,
                  shown.Some? && shown.value.checked.GetOr(false), accelerator)
      else
        PlainNode(id, LabelText(s.labels, key), enabled, accelerator)
    case SystemEntry(kind, key) => SystemNode(kind, LabelText(s.labels, key))
    case Separator => SeparatorNode
  }

  function BuildAll(es: seq<MenuEntry>, s: Shown, app: string): (ns: seq<Node>)
    ensures |ns| == |es|
    decreases es, 0
  {
    if es == [] then [] else [Build(es[0], s, app)] + BuildAll(es[1..], s, app)
  }

  // ---------------------------------------------------------------- re-applying

  function Apply(n: Node, s: Shown): Node
    decreases n, 1
  {
    match n
    case SubmenuNode(id, text, children) => SubmenuNode(id, text, ApplyAll(children, s))
    case PlainNode(id, text, _, accelerator) =>
      if s.Of(id).Some? then PlainNode(id, text, s.Of(id).value.enabled, accelerator) else n
    case CheckNode(id, text, _, _, accelerator) =>
      if s.Of(id).Some? then
        CheckNode(id, text, s.Of(id).value.enabled, s.Of(id).value.checked.GetOr(false), accelerator)
      else n
    case SystemNode(_, _) => n
    case SeparatorNode => n
  }

  function ApplyAll(ns: seq<Node>, s: Shown): seq<Node>
    decreases ns, 0
  {
    if ns == [] then [] else [Apply(ns[0], s)] + ApplyAll(ns[1..], s)
  }

  /** Items, the number of menu calls the platform still answers, and whether the walk finished. */
  datatype Walk = Walk(nodes: seq<Node>, left: nat, ok: bool)

  /**
   The same walk when only `budget` menu calls succeed: one call writes a flag or
   lists a submenu's items, and the first call that fails ends the walk.
   */
  function ApplyWithin(ns: seq<Node>, s: Shown, budget: nat): (w: Walk)
    ensures |w.nodes| == |ns|
    decreases ns
  {
    if ns == [] then Walk([], budget, true)
    else
      var first := ApplyOneWithin(ns[0], s, budget);
      if !first.ok then Walk(first.nodes + ns[1..], first.left, false)
      else
        var rest := ApplyWithin(ns[1..], s, first.left);
        Walk(first.nodes + rest.nodes, rest.left, rest.ok)
  }

  function ApplyOneWithin(n: Node, s: Shown, budget: nat): (w: Walk)
    ensures |w.nodes| == 1
    decreases n
  {
    match n
    case SubmenuNode(id, text, children) =>
      if budget == 0 then Walk([n], 0, false)
      else
        var inner := ApplyWithin(children, s, budget - 1);
        Walk([SubmenuNode(id, text, inner.nodes)], inner.left, inner.ok)
    case PlainNode(id, text, _, accelerator) =>
      if s.Of(id).None? then Walk([n], budget, true)
      else if budget == 0 then Walk([n], 0, false)
      else Walk([Apply(n, s)], budget - 1, true)
    case CheckNode(id, text, _, checked, accelerator) =>
      if s.Of(id).None? then Walk([n], budget, true)
      else if budget == 0 then Walk([n], 0, false)
      else if budget == 1 then Walk([CheckNode(id, text, s.Of(id).value.enabled, checked, accelerator)], 0, false)
      else Walk([Apply(n, s)], budget - 2, true)
    case SystemNode(_, _) => Walk([n], budget, true)
    case SeparatorNode => Walk([n], budget, true)
  }

  /** A walk the platform lets finish is the plain walk. */
  lemma {:induction false} FinishedWalkAppliesAll(ns: seq<Node>, s: Shown, budget: nat)
    requires ApplyWithin(ns, s, budget).ok
    ensures ApplyWithin(ns, s, budget).nodes == ApplyAll(ns, s)
    decreases ns
  {
    if ns != [] {
      if ns[0].SubmenuNode? {
        FinishedWalkAppliesAll(ns[0].children, s, budget - 1);
      }
      FinishedWalkAppliesAll(ns[1..], s, ApplyOneWithin(ns[0], s, budget).left);
    }
  }

  // ---------------------------------------------------------------- frames

  /** The tree with every governed flag blanked: what no state change may touch. */
  function Frame(n: Node): Node
    decreases n, 1
  {
    match n
    case SubmenuNode(id, text, children) => SubmenuNode(id, text, FrameAll(children))
    case PlainNode(id, text, _, accelerator) =>
      if id.OwnedId? then PlainNode(id, text, false, accelerator) else n
    case CheckNode(id, text, _, _, accelerator) =>
      if id.OwnedId? then CheckNode(id, text, false, false, accelerator) else n
    case SystemNode(_, _) => n
    case SeparatorNode => n
  }

  function FrameAll(ns: seq<Node>): (fs: seq<Node>)
    ensures |fs| == |ns|
    decreases ns, 0
  {
    if ns == [] then [] else [Frame(ns[0])] + FrameAll(ns[1..])
  }

  lemma {:induction false} ApplySeesOnlyTheFrame(ns: seq<Node>, s: Shown)
    ensures ApplyAll(ns, s) == ApplyAll(FrameAll(ns), s)
    decreases ns
  {
    if ns != [] {
      if ns[0].SubmenuNode? {
        ApplySeesOnlyTheFrame(ns[0].children, s);
      }
      ApplySeesOnlyTheFrame(ns[1..], s);
      assert FrameAll(ns)[1..] == FrameAll(ns[1..]);
    }
  }

  lemma {:induction false} ApplyOfBuild(es: seq<MenuEntry>, s: Shown, s': Shown, app: string)
    requires s.labels == s'.labels
    ensures ApplyAll(BuildAll(es, s, app), s') == BuildAll(es, s', app)
    decreases es
  {
    if es != [] {
      if es[0].Submenu? {
        ApplyOfBuild(es[0].children, s, s', app);
      }
      ApplyOfBuild(es[1..], s, s', app);
      assert BuildAll(es, s, app)[1..] == BuildAll(es[1..], s, app);
    }
  }

  /**
   Updating in place equals rebuilding: whatever tree is installed, if it differs
   from a build with the same labels only in governed flags, one walk turns it
   into exactly the tree a full rebuild would give.
   */
  lemma UpdateInPlaceIsRebuild(es: seq<MenuEntry>, ns: seq<Node>, s: Shown, s': Shown, app: string)
    requires FrameAll(ns) == FrameAll(BuildAll(es, s, app))
    requires s.labels == s'.labels
    ensures ApplyAll(ns, s') == BuildAll(es, s', app)
  {
    ApplySeesOnlyTheFrame(ns, s');
    ApplySeesOnlyTheFrame(BuildAll(es, s, app), s');
    ApplyOfBuild(es, s, s', app);
  }

  /** A build's frame is decided by its labels alone. */
  lemma {:induction false} FrameOfBuild(es: seq<MenuEntry>, s: Shown, s': Shown, app: string)
    requires s.labels == s'.labels
    ensures FrameAll(BuildAll(es, s, app)) == FrameAll(BuildAll(es, s', app))
    decreases es
  {
    if es != [] {
      if es[0].Submenu? {
        FrameOfBuild(es[0].children, s, s', app);
      }
      FrameOfBuild(es[1..], s, s', app);
      assert BuildAll(es, s, app)[1..] == BuildAll(es[1..], s, app);
      assert BuildAll(es, s', app)[1..] == BuildAll(es[1..], s', app);
    }
  }

  /** A walk keeps the frame even when the platform stops it half-way. */
  lemma {:induction false} WalkKeepsFrame(ns: seq<Node>, s: Shown, budget: nat)
    ensures FrameAll(ApplyWithin(ns, s, budget).nodes) == FrameAll(ns)
    decreases ns
  {
    if ns != [] {
      var first := ApplyOneWithin(ns[0], s, budget);
      if ns[0].SubmenuNode? && budget > 0 {
        WalkKeepsFrame(ns[0].children, s, budget - 1);
      }
      assert Frame(first.nodes[0]) == Frame(ns[0]);
      WalkKeepsFrame(ns[1..], s, first.left);
      var after := ApplyWithin(ns, s, budget).nodes;
      assert after[1..] == if first.ok then ApplyWithin(ns[1..], s, first.left).nodes else ns[1..];
    }
  }

  // ---------------------------------------------------------------- one item

  /** The tree after a write, and whether an item was written. */
  datatype Written = Written(nodes: seq<Node>, found: bool)

  /**
   The first item whose id matches, level by level: a match that is not a plain
   item ends the search of its own level unsuccessfully.
   */
  function SetFirst(ns: seq<Node>, id: MenuId, enabled: bool): (w: Written)
    ensures |w.nodes| == |ns|
    ensures !w.found ==> w.nodes == ns
    decreases ns
  {
    if ns == [] then Written([], false)
    else if HasId(ns[0], id) then
      match ns[0]
      case PlainNode(_, text, _, accelerator) =>
        Written([PlainNode(id, text, enabled, accelerator)] + ns[1..], true)
      case _ => Written(ns, false)
    else
      var inner := if ns[0].SubmenuNode? then SetFirst(ns[0].children, id, enabled) else Written([], false);
      if inner.found then Written([ns[0].(children := inner.nodes)] + ns[1..], true)
      else
        var rest := SetFirst(ns[1..], id, enabled);
        Written([ns[0]] + rest.nodes, rest.found)
  }

  /** System items and separators carry generated ids, which are never menu ids. */
  predicate HasId(n: Node, id: MenuId) {
    (n.SubmenuNode? || n.PlainNode? || n.CheckNode?) && n.id == id
  }

  lemma {:induction false} WriteKeepsFrame(ns: seq<Node>, id: MenuId, enabled: bool)
    requires id.OwnedId?
    ensures FrameAll(SetFirst(ns, id, enabled).nodes) == FrameAll(ns)
    decreases ns
  {
    if ns != [] {
      if ns[0].SubmenuNode? {
        WriteKeepsFrame(ns[0].children, id, enabled);
      }
      WriteKeepsFrame(ns[1..], id, enabled);
      var after := SetFirst(ns, id, enabled).nodes;
      assert Frame(after[0]) == Frame(ns[0]);
      assert after[1..] == ns[1..] || after[1..] == SetFirst(ns[1..], id, enabled).nodes;
    }
  }

  /** How often the id occurs in the menu tree, at any depth. */
  function Occurrences(es: seq<MenuEntry>, id: MenuId): nat
    decreases es
  {
    if es == [] then 0
    else
      (if (es[0].Submenu? || es[0].Item?) && es[0].id == id then 1 else 0)
      + (if es[0].Submenu? then Occurrences(es[0].children, id) else 0)
      + Occurrences(es[1..], id)
  }

  /** Every occurrence of the id is a plain item. */
  predicate OnlyPlain(es: seq<MenuEntry>, id: MenuId)
    decreases es
  {
    es != [] ==>
      && (es[0].Submenu? ==> es[0].id != id && OnlyPlain(es[0].children, id))
      && (es[0].Item? && es[0].id == id ==> !es[0].check)
      && OnlyPlain(es[1..], id)
  }

  lemma {:induction false} AbsentIdIsIrrelevant(es: seq<MenuEntry>, s: Shown, enabled: bool, app: string)
    requires Occurrences(es, HISTORY) == 0
    ensures BuildAll(es, s, app) == BuildAll(es, s.(historyEnabled := enabled), app)
    decreases es
  {
    if es != [] {
      if es[0].Submenu? {
        AbsentIdIsIrrelevant(es[0].children, s, enabled, app);
      }
      AbsentIdIsIrrelevant(es[1..], s, enabled, app);
    }
  }

  lemma {:induction false} AbsentIdIsNotFound(es: seq<MenuEntry>, id: MenuId, s: Shown, enabled: bool, app: string)
    requires Occurrences(es, id) == 0
    ensures SetFirst(BuildAll(es, s, app), id, enabled) == Written(BuildAll(es, s, app), false)
    decreases es
  {
    if es != [] {
      SetFirstHead(Build(es[0], s, app), BuildAll(es[1..], s, app), id, enabled);
      if es[0].Submenu? {
        AbsentIdIsNotFound(es[0].children, id, s, enabled, app);
      }
      AbsentIdIsNotFound(es[1..], id, s, enabled, app);
    }
  }

  /**
   The single write equals a rebuild with only the Version History flag changed,
   in every tree where that id occurs once, as a plain item.
   */
  lemma {:induction false} SingleWriteIsRebuild(es: seq<MenuEntry>, s: Shown, enabled: bool, app: string)
    requires Occurrences(es, HISTORY) == 1 && OnlyPlain(es, HISTORY)
    ensures SetFirst(BuildAll(es, s, app), HISTORY, enabled)
         == Written(BuildAll(es, s.(historyEnabled := enabled), app), true)
    decreases es
  {
    var s' := s.(historyEnabled := enabled);
    var head, rest := Build(es[0], s, app), BuildAll(es[1..], s, app);
    SetFirstHead(head, rest, HISTORY, enabled);
    if Occurrences(es[1..], HISTORY) == 1 {
      HeadWithoutHistory(es[0], s, enabled, app);
      SingleWriteIsRebuild(es[1..], s, enabled, app);
    } else {
      AbsentIdIsIrrelevant(es[1..], s, enabled, app);
      if es[0].Submenu? {
        SingleWriteIsRebuild(es[0].children, s, enabled, app);
      }
    }
  }

  lemma HeadWithoutHistory(e: MenuEntry, s: Shown, enabled: bool, app: string)
    requires e.Item? || e.Submenu? ==> e.id != HISTORY
    requires e.Submenu? ==> Occurrences(e.children, HISTORY) == 0
    ensures Build(e, s, app) == Build(e, s.(historyEnabled := enabled), app)
    ensures !HasId(Build(e, s, app), HISTORY)
    ensures e.Submenu? ==> !SetFirst(Build(e, s, app).children, HISTORY, enabled).found
  {
    if e.Submenu? {
      AbsentIdIsNotFound(e.children, HISTORY, s, enabled, app);
      AbsentIdIsIrrelevant(e.children, s, enabled, app);
    }
  }

  lemma SetFirstHead(head: Node, rest: seq<Node>, id: MenuId, enabled: bool)
    ensures
      SetFirst([head] + rest, id, enabled)
      == if HasId(head, id) then
           if head.PlainNode? then Written([PlainNode(id, head.text, enabled, head.accelerator)] + rest, true)
           else Written([head] + rest, false)
         else if head.SubmenuNode? && SetFirst(head.children, id, enabled).found then
           Written([SubmenuNode(head.id, head.text, SetFirst(head.children, id, enabled).nodes)] + rest, true)
         else Written([head] + SetFirst(rest, id, enabled).nodes, SetFirst(rest, id, enabled).found)
  {
    assert ([head] + rest)[0] == head && ([head] + rest)[1..] == rest;
  }

  // ---------------------------------------------------------------- a click

  /** AppKit's own toggle: the check item at `path` is flipped, anything else is left alone. */
  function Toggle(ns: seq<Node>, path: seq<nat>): (t: seq<Node>)
    ensures |t| == |ns|
    decreases path
  {
    if path == [] || path[0] >= |ns| then ns
    else
      var n := ns[path[0]];
      match n
      case CheckNode(_, _, _, checked, _) =>
        if |path| == 1 then ns[path[0] := n.(checked := !checked)] else ns
      case SubmenuNode(_, _, children) => ns[path[0] := n.(children := Toggle(children, path[1..]))]
      case _ => ns
  }

  /** The node a path leads to. */
  function NodeAt(ns: seq<Node>, path: seq<nat>): Option<Node>
    decreases path
  {
    if path == [] || path[0] >= |ns| then None
    else if |path| == 1 then Some(ns[path[0]])
    else if ns[path[0]].SubmenuNode? then NodeAt(ns[path[0]].children, path[1..])
    else None
  }

  /** Every check item of the menu carries a forwarded command. */
  predicate ChecksAreCommands(ns: seq<Node>)
    decreases ns
  {
    ns != [] ==>
      && (ns[0].CheckNode? ==> IsCommand(ns[0].id))
      && (ns[0].SubmenuNode? ==> ChecksAreCommands(ns[0].children))
      && ChecksAreCommands(ns[1..])
  }

  lemma {:induction false} ChecksAreCommandsAt(ns: seq<Node>, i: nat)
    requires ChecksAreCommands(ns) && i < |ns|
    ensures ns[i].CheckNode? ==> IsCommand(ns[i].id)
    ensures ns[i].SubmenuNode? ==> ChecksAreCommands(ns[i].children)
    decreases i
  {
    if i > 0 {
      ChecksAreCommandsAt(ns[1..], i - 1);
    }
  }

  lemma {:induction false} FrameAllAt(ns: seq<Node>, i: nat)
    requires i < |ns|
    ensures FrameAll(ns)[i] == Frame(ns[i])
    decreases i
  {
    if i > 0 {
      FrameAllAt(ns[1..], i - 1);
    }
  }

  lemma FrameAllUpdate(ns: seq<Node>, i: nat, n: Node)
    requires i < |ns| && Frame(n) == Frame(ns[i])
    ensures FrameAll(ns[i := n]) == FrameAll(ns)
  {
    forall k | 0 <= k < |ns|
      ensures FrameAll(ns[i := n])[k] == FrameAll(ns)[k]
    {
      FrameAllAt(ns[i := n], k);
      FrameAllAt(ns, k);
    }
  }

  /** A toggle changes nothing but governed flags, and none at all unless it hits a forwarded command. */
  lemma {:induction false} ToggleKeepsFrame(ns: seq<Node>, path: seq<nat>)
    requires ChecksAreCommands(ns)
    ensures FrameAll(Toggle(ns, path)) == FrameAll(ns)
    ensures Toggle(ns, path) != ns ==>
              NodeAt(ns, path).Some? && NodeAt(ns, path).value.CheckNode? && IsCommand(NodeAt(ns, path).value.id)
    decreases path
  {
    if path != [] && path[0] < |ns| {
      ChecksAreCommandsAt(ns, path[0]);
      var n := ns[path[0]];
      if n.SubmenuNode? {
        ToggleKeepsFrame(n.children, path[1..]);
        FrameAllUpdate(ns, path[0], n.(children := Toggle(n.children, path[1..])));
        if Toggle(n.children, path[1..]) == n.children {
          assert ns[path[0] := n] == ns;
        }
      } else if n.CheckNode? && |path| == 1 {
        FrameAllUpdate(ns, path[0], n.(checked := !n.checked));
      }
    }
  }

  /** Whether every check item carries a command is part of the frame. */
  lemma {:induction false} CommandsInFrame(ns: seq<Node>)
    ensures ChecksAreCommands(ns) == ChecksAreCommands(FrameAll(ns))
    decreases ns
  {
    if ns != [] {
      if ns[0].SubmenuNode? {
        CommandsInFrame(ns[0].children);
      }
      CommandsInFrame(ns[1..]);
      assert FrameAll(ns)[1..] == FrameAll(ns[1..]);
    }
  }

  // ---------------------------------------------------------------- telling trees apart

  /** The items of a menu tree: id, and whether it is a check item. */
  function Items(es: seq<MenuEntry>): set<(MenuId, bool)>
    decreases es
  {
    if es == [] then {}
    else
      (match es[0]
       case Item(id, _, check, _) => {(id, check)}
       case Submenu(_, _, children) => Items(children)
       case _ => {})
      + Items(es[1..])
  }

  /** The two states give the item the same flags. */
  predicate SameFlags(id: MenuId, check: bool, s: Shown, s': Shown) {
    var a, b := s.Of(id), s'.Of(id);
    && (a.None? || a.value.enabled) == (b.None? || b.value.enabled)
    && (check ==> (a.Some? && a.value.checked.GetOr(false)) == (b.Some? && b.value.checked.GetOr(false)))
  }

  /** Two builds with the same labels are equal exactly when every item's flags are. */
  lemma {:induction false} EqualBuildsIff(es: seq<MenuEntry>, s: Shown, s': Shown, app: string)
    requires s.labels == s'.labels
    ensures BuildAll(es, s, app) == BuildAll(es, s', app)
       <==> forall item :: item in Items(es) ==> SameFlags(item.0, item.1, s, s')
    decreases es
  {
    if es != [] {
      var ns, ns' := BuildAll(es, s, app), BuildAll(es, s', app);
      assert ns[0] == Build(es[0], s, app) && ns[1..] == BuildAll(es[1..], s, app);
      assert ns'[0] == Build(es[0], s', app) && ns'[1..] == BuildAll(es[1..], s', app);
      assert ns == ns' <==> ns[0] == ns'[0] && ns[1..] == ns'[1..] by {
        assert ns == [ns[0]] + ns[1..] && ns' == [ns'[0]] + ns'[1..];
      }
      EqualBuildsIff(es[1..], s, s', app);
      match es[0]
      case Submenu(_, _, children) =>
        EqualBuildsIff(children, s, s', app);
        assert Items(es) == Items(children) + Items(es[1..]);
      case Item(id, _, check, _) =>
        assert Items(es) == {(id, check)} + Items(es[1..]);
        assert ns[0] == ns'[0] <==> SameFlags(id, check, s, s');
      case _ =>
        assert Items(es) == Items(es[1..]);
    }
  }

  /** The label ids a menu tree renders. */
  function LabelsUsed(es: seq<MenuEntry>): set<LabelKey>
    decreases es
  {
    if es == [] then {}
    else
      (match es[0]
       case Item(_, key, _, _) => {key}
       case SystemEntry(_, key) => {key}
       case Submenu(_, title, children) =>
         (match title case LabelId(key) => {key} case AppName => {}) + LabelsUsed(children)
       case Separator => {})
      + LabelsUsed(es[1..])
  }

  /** Builds with equal frames show the same text for every label they render. */
  lemma {:induction false} EqualFramesShareTexts(es: seq<MenuEntry>, s: Shown, s': Shown, app: string, key: LabelKey)
    requires FrameAll(BuildAll(es, s, app)) == FrameAll(BuildAll(es, s', app))
    requires key in LabelsUsed(es)
    ensures LabelText(s.labels, key) == LabelText(s'.labels, key)
    decreases es
  {
    var ns, ns' := BuildAll(es, s, app), BuildAll(es, s', app);
    assert ns[0] == Build(es[0], s, app) && ns[1..] == BuildAll(es[1..], s, app);
    assert ns'[0] == Build(es[0], s', app) && ns'[1..] == BuildAll(es[1..], s', app);
    assert FrameAll(ns)[0] == Frame(ns[0]) && FrameAll(ns')[0] == Frame(ns'[0]);
    assert FrameAll(ns)[1..] == FrameAll(ns[1..]) && FrameAll(ns')[1..] == FrameAll(ns'[1..]);
    if key in LabelsUsed(es[1..]) {
      EqualFramesShareTexts(es[1..], s, s', app, key);
    } else if es[0].Submenu? && key in LabelsUsed(es[0].children) {
      EqualFramesShareTexts(es[0].children, s, s', app, key);
    }
  }

  /** The two label sets give every label the tree renders the same text. */
  predicate SameTexts(es: seq<MenuEntry>, l: Labels, m: Labels) {
    forall key :: key in LabelsUsed(es) ==> LabelText(l, key) == LabelText(m, key)
  }

  lemma {:induction false} BuildSeesTextsOnly(es: seq<MenuEntry>, s: Shown, l: Labels, app: string)
    requires SameTexts(es, s.labels, l)
    ensures BuildAll(es, s, app) == BuildAll(es, s.(labels := l), app)
    decreases es
  {
    if es != [] {
      if es[0].Submenu? {
        BuildSeesTextsOnly(es[0].children, s, l, app);
      }
      BuildSeesTextsOnly(es[1..], s, l, app);
    }
  }

  /** Two label sets build trees alike up to governed flags exactly when the texts the tree renders agree. */
  lemma FramesAgreeIff(es: seq<MenuEntry>, s: Shown, s': Shown, app: string)
    ensures FrameAll(BuildAll(es, s, app)) == FrameAll(BuildAll(es, s', app)) <==> SameTexts(es, s.labels, s'.labels)
  {
    if FrameAll(BuildAll(es, s, app)) == FrameAll(BuildAll(es, s', app)) {
      forall key | key in LabelsUsed(es)
        ensures LabelText(s.labels, key) == LabelText(s'.labels, key)
      {
        EqualFramesShareTexts(es, s, s', app, key);
      }
    }
    if SameTexts(es, s.labels, s'.labels) {
      BuildSeesTextsOnly(es, s, s'.labels, app);
      FrameOfBuild(es, s.(labels := s'.labels), s', app);
    }
  }

  /** With equal states, the builds are equal exactly when the texts are. */
  lemma RelabelledBuildsIff(es: seq<MenuEntry>, s: Shown, l: Labels, app: string)
    ensures BuildAll(es, s, app) == BuildAll(es, s.(labels := l), app) <==> SameTexts(es, s.labels, l)
  {
    FramesAgreeIff(es, s, s.(labels := l), app);
    if SameTexts(es, s.labels, l) {
      BuildSeesTextsOnly(es, s, l, app);
    }
  }

  /** Re-applying state does not look at labels. */
  lemma {:induction false} ApplyIgnoresLabels(ns: seq<Node>, s: Shown, l: Labels)
    ensures ApplyAll(ns, s) == ApplyAll(ns, s.(labels := l))
    decreases ns
  {
    if ns != [] {
      if ns[0].SubmenuNode? {
        ApplyIgnoresLabels(ns[0].children, s, l);
      }
      ApplyIgnoresLabels(ns[1..], s, l);
    }
  }

  /** So re-applying to a tree built with other labels gives the build of the state with those labels. */
  lemma UpdateInPlaceKeepsTexts(es: seq<MenuEntry>, ns: seq<Node>, l: Labels, s: Shown, app: string)
    requires FrameAll(ns) == FrameAll(BuildAll(es, s.(labels := l), app))
    ensures ApplyAll(ns, s) == BuildAll(es, s.(labels := l), app)
  {
    ApplyIgnoresLabels(ns, s, l);
    UpdateInPlaceIsRebuild(es, ns, s.(labels := l), s.(labels := l), app);
  }
}
