/**
 Startup opens what the last session left, in order and with its active tab once more
 at the end, and then the launch paths; a handshake that several registrations read
 is drained once (src/app/openFileHandler.ts).
 */
module RestoreTabs {
  import opened Options

  /** How an open ends: with a tab here, in another window (`null`), or with an error. */
  datatype Opening = Opened | Elsewhere | Threw

  datatype Restore = Restore(tabs: seq<string>, activePath: Option<string>, skipped: int)

  /** Handshakes are told apart by identity, as a weak set does. */
  type HandshakeId = nat

  datatype Handshake = Handshake(restore: Option<Restore>, pending: seq<string>)

  /** The document manager as this module sees it: the calls made, and the answers still to come. */
  class Manager {
    var calls: seq<string>
    var answers: seq<Opening>

    constructor (answers: seq<Opening>)
      ensures this.calls == [] && this.answers == answers
    {
      calls, this.answers := [], answers;
    }

    method OpenRouted(path: string) returns (answer: Opening)
      requires answers != []
      modifies this
      ensures calls == old(calls) + [path]
      ensures answer == old(answers)[0] && answers == old(answers)[1..]
    {
      calls := calls + [path];
      answer := answers[0];
      answers := answers[1..];
    }
  }

  // ---------------------------------------------------------------- the plan

  function Tabs(h: Handshake): seq<string> {
    if h.restore.Some? then h.restore.value.tabs else []
  }

  /** The tabs that opened here, by the answers to them. */
  function Reopened(tabs: seq<string>, answers: seq<Opening>): set<string> {
    set i | 0 <= i < |tabs| && i < |answers| && answers[i].Opened? :: tabs[i]
  }

  /** The active tab, when it was restored. */
  function Front(r: Restore, answers: seq<Opening>): seq<string> {
    if r.activePath.Some? && r.activePath.value in Reopened(r.tabs, answers) then [r.activePath.value] else []
  }

  /** The path is that of a tab that opened here. */
  predicate OpenedHere(tabs: seq<string>, answers: seq<Opening>, path: string) {
    exists i :: 0 <= i < |tabs| && i < |answers| && tabs[i] == path && answers[i] == Opened
  }

  /** One call brings the active tab to the front if it opened here, and there is none otherwise. */
  lemma FrontIsTheActiveTab(r: Restore, answers: seq<Opening>)
    ensures r.activePath.Some? && OpenedHere(r.tabs, answers, r.activePath.value) ==>
              Front(r, answers) == [r.activePath.value]
    ensures r.activePath.None? || !OpenedHere(r.tabs, answers, r.activePath.value) ==> Front(r, answers) == []
  {
  }

  /** All calls of a drain whose tabs were answered so. */
  function Plan(h: Handshake, answers: seq<Opening>): seq<string> {
    (if h.restore.Some? then h.restore.value.tabs + Front(h.restore.value, answers) else []) + h.pending
  }

  /**
   A plan is the tabs, then the active tab exactly if it opened here, then the launch paths;
   without anything to restore it is the launch paths.
   */
  lemma PlanIs(h: Handshake, answers: seq<Opening>)
    ensures h.restore.None? ==> Plan(h, answers) == h.pending
    ensures h.restore.Some? ==>
              var r := h.restore.value;
              if r.activePath.Some? && OpenedHere(r.tabs, answers, r.activePath.value)
              then Plan(h, answers) == r.tabs + [r.activePath.value] + h.pending
              else Plan(h, answers) == r.tabs + h.pending
  {
    if h.restore.Some? {
      FrontIsTheActiveTab(h.restore.value, answers);
      assert h.restore.value.tabs + [] == h.restore.value.tabs;
    }
  }

  /** How many tabs opened. */
  function Opens(answers: seq<Opening>): nat {
    if answers == [] then 0 else Opens(answers[..|answers| - 1]) + if answers[|answers| - 1].Opened? then 1 else 0
  }

  // ---------------------------------------------------------------- one restore alone

  /**
   `restoreTabs`. Tabs are conserved: those skipped beyond the backend's own, and
   those reopened, are all of them. The active tab is opened again, last, exactly when
   it was restored. There are answers enough for every call.
   */
  method RestoreTabs(manager: Manager, restore: Restore) returns (skipped: int)
    requires |manager.answers| > |restore.tabs|
    modifies manager
    ensures skipped - restore.skipped + Opens(old(manager.answers)[..|restore.tabs|]) == |restore.tabs|
    ensures manager.calls == old(manager.calls) + restore.tabs + Front(restore, old(manager.answers))
    ensures manager.calls == old(manager.calls) + restore.tabs +
              if restore.activePath.Some? && OpenedHere(restore.tabs, old(manager.answers), restore.activePath.value)
              then [restore.activePath.value] else []
    ensures manager.answers == old(manager.answers)[|restore.tabs| + |Front(restore, old(manager.answers))|..]
  {
    ghost var answers := manager.answers;
    var tabs := restore.tabs;
    skipped := restore.skipped;
    var reopened: set<string> := {};
    for i := 0 to |tabs|
      invariant manager.answers == answers[i..]
      invariant manager.calls == old(manager.calls) + tabs[..i]
      invariant skipped - restore.skipped + Opens(answers[..i]) == i
      invariant reopened == Reopened(tabs[..i], answers)
    {
      var answer := manager.OpenRouted(tabs[i]);
      assert answers[..i + 1][..i] == answers[..i];
      assert tabs[..i + 1] == tabs[..i] + [tabs[i]];
      ReopenedGrows(tabs, answers, i);
      if answer.Opened? {
        reopened := reopened + {tabs[i]};
      } else {
        skipped := skipped + 1;
      }
    }
    assert tabs[..|tabs|] == tabs;
    FrontIsTheActiveTab(restore, answers);
    if restore.activePath.Some? && restore.activePath.value in reopened {
      var _ := manager.OpenRouted(restore.activePath.value);
    }
  }

  lemma ReopenedGrows(tabs: seq<string>, answers: seq<Opening>, i: nat)
    requires i < |tabs| && i < |answers|
    ensures
      Reopened(tabs[..i + 1], answers) ==
        Reopened(tabs[..i], answers) + if answers[i].Opened? then {tabs[i]} else {}
  {
    assert forall j :: 0 <= j < i ==> tabs[..i + 1][j] == tabs[..i][j];
    assert tabs[..i + 1][i] == tabs[i];
  }

  /** The drain of one handshake: `told` is the number of tabs reported as skipped. */
  method Drain(manager: Manager, h: Handshake) returns (told: Option<int>)
    requires |manager.answers| > |Tabs(h)| + |h.pending|
    modifies manager
    ensures manager.calls == old(manager.calls) + Plan(h, old(manager.answers))
    ensures h.restore.None? ==> told.None?
    ensures h.restore.Some? ==>
              var skipped := h.restore.value.skipped + |Tabs(h)| - Opens(old(manager.answers)[..|Tabs(h)|]);
              told == if skipped > 0 then Some(skipped) else None
  {
    told := None;
    if h.restore.Some? {
      var skipped := RestoreTabs(manager, h.restore.value);
      if skipped > 0 {
        told := Some(skipped);
      }
    }
    ghost var restored := manager.calls;
    for i := 0 to |h.pending|
      invariant manager.calls == restored + h.pending[..i]
      invariant |manager.answers| >= |h.pending| - i
    {
      var _ := manager.OpenRouted(h.pending[i]);
      assert h.pending[..i + 1] == h.pending[..i] + [h.pending[i]];
    }
    assert h.pending[..|h.pending|] == h.pending;
  }

  /** The module-level set of handshakes that were drained, and what a registration does with the one it loads. */
  class Startup {
    var drained: set<HandshakeId>

    constructor ()
      ensures drained == {}
    {
      drained := {};
    }

    /** A handshake that fails to load, or was drained before, opens nothing. */
    method DrainPending(manager: Manager, id: HandshakeId, response: Option<Handshake>)
      returns (told: Option<int>, failed: bool)
      requires response.Some? ==> |manager.answers| > |Tabs(response.value)| + |response.value.pending|
      modifies this, manager
      ensures failed == response.None?
      ensures drained == old(drained) + if failed then {} else {id}
      ensures manager.calls == old(manager.calls)
                + if failed || id in old(drained) then [] else Plan(response.value, old(manager.answers))
      ensures failed || id in old(drained) ==> told.None?
    {
      if response.None? {
        return None, true;
      }
      if id in drained {
        return None, false;
      }
      drained := drained + {id};
      told := Drain(manager, response.value);
      failed := false;
    }
  }

  /** The count is the number of places at which an open ended with a tab here. */
  lemma {:induction false} OpensCounts(answers: seq<Opening>)
    ensures Opens(answers) == |set i | 0 <= i < |answers| && answers[i] == Opened|
  {
    var here := set i | 0 <= i < |answers| && answers[i] == Opened;
    if answers != [] {
      var last := |answers| - 1;
      var before := set i | 0 <= i < last && answers[..last][i] == Opened;
      OpensCounts(answers[..last]);
      assert before == set i | 0 <= i < |answers[..last]| && answers[..last][i] == Opened;
      assert here == before + if answers[last] == Opened then {last} else {};
    } else {
      assert here == {};
    }
  }

  /** Tabs that failed and tabs that opened are never both counted, whatever the answers. */
  lemma {:induction false} OpensAtMost(answers: seq<Opening>)
    ensures Opens(answers) <= |answers|
    ensures Opens(answers) == |answers| <==> forall i :: 0 <= i < |answers| ==> answers[i].Opened?
  {
    if answers != [] {
      OpensAtMost(answers[..|answers| - 1]);
      assert forall i :: 0 <= i < |answers| - 1 ==> answers[..|answers| - 1][i] == answers[i];
    }
  }

  // ---------------------------------------------------------------- overlapping registrations

  type Registration = nat

  /** A drain's progress is the answers it has had; each call is one step with the answer it will get. */
  datatype Phase = Loading | Draining(id: HandshakeId, answers: seq<Opening>) | LeftAlone(id: HandshakeId) | Failed

  datatype State = State(
    drained: set<HandshakeId>,
    registrations: map<Registration, Phase>,
    calls: seq<(HandshakeId, string)>)

  const START := State({}, map[], [])

  datatype Step =
    | Register(r: Registration)
    | Loaded(r: Registration, id: HandshakeId)
    | LoadFailed(r: Registration)
    | Open(r: Registration, answer: Opening)

  type Handshakes = HandshakeId -> Handshake

  predicate Possible(hs: Handshakes, s: State, step: Step) {
    match step
    case Register(r) => r !in s.registrations
    case Open(r, _) =>
      && r in s.registrations && s.registrations[r].Draining?
      && |s.registrations[r].answers| < |Plan(hs(s.registrations[r].id), s.registrations[r].answers)|
    case _ => step.r in s.registrations && s.registrations[step.r].Loading?
  }

  function Next(hs: Handshakes, s: State, step: Step): State
    requires Possible(hs, s, step)
  {
    match step
    case Register(r) => s.(registrations := s.registrations[r := Loading])
    case LoadFailed(r) => s.(registrations := s.registrations[r := Failed])
    case Loaded(r, id) =>
      if id in s.drained then s.(registrations := s.registrations[r := LeftAlone(id)])
      else s.(drained := s.drained + {id}, registrations := s.registrations[r := Draining(id, [])])
    case Open(r, answer) =>
      var p := s.registrations[r];
      s.(registrations := s.registrations[r := Draining(p.id, p.answers + [answer])],
         calls := s.calls + [(p.id, Plan(hs(p.id), p.answers)[|p.answers|])])
  }

  predicate IsRun(hs: Handshakes, s: State, steps: seq<Step>)
    decreases |steps|
  {
    steps != [] ==> Possible(hs, s, steps[0]) && IsRun(hs, Next(hs, s, steps[0]), steps[1..])
  }

  function Run(hs: Handshakes, s: State, steps: seq<Step>): State
    requires IsRun(hs, s, steps)
    decreases |steps|
  {
    if steps == [] then s else Run(hs, Next(hs, s, steps[0]), steps[1..])
  }

  /** The calls made for one handshake. */
  function For(calls: seq<(HandshakeId, string)>, id: HandshakeId): seq<string> {
    if calls == [] then []
    else For(calls[..|calls| - 1], id) + if calls[|calls| - 1].0 == id then [calls[|calls| - 1].1] else []
  }

  /** Until the tabs are answered the plan may still gain the active tab, behind what was called. */
  lemma PlanExtends(h: Handshake, answers: seq<Opening>, answer: Opening)
    requires |answers| < |Plan(h, answers)|
    ensures |answers| + 1 <= |Plan(h, answers + [answer])|
    ensures Plan(h, answers + [answer])[..|answers| + 1] == Plan(h, answers)[..|answers| + 1]
  {
    var more := answers + [answer];
    if h.restore.Some? {
      var r := h.restore.value;
      if |answers| < |r.tabs| {
        assert Plan(h, answers)[..|r.tabs|] == r.tabs == Plan(h, more)[..|r.tabs|];
      } else {
        assert Reopened(r.tabs, more) == Reopened(r.tabs, answers);
      }
    }
  }

  predicate Drains(s: State, r: Registration, id: HandshakeId) {
    r in s.registrations && s.registrations[r].Draining? && s.registrations[r].id == id
  }

  /** What was called for the registration's handshake is the beginning of its plan. */
  ghost predicate OnPlan(hs: Handshakes, s: State, r: Registration)
    requires r in s.registrations && s.registrations[r].Draining?
  {
    var p := s.registrations[r];
    && |p.answers| <= |Plan(hs(p.id), p.answers)|
    && For(s.calls, p.id) == Plan(hs(p.id), p.answers)[..|p.answers|]
  }

  ghost predicate AllOnPlan(hs: Handshakes, s: State) {
    forall r :: r in s.registrations && s.registrations[r].Draining? ==> OnPlan(hs, s, r)
  }

  ghost predicate OneDrainEach(s: State) {
    && (forall q, r, id :: Drains(s, q, id) && Drains(s, r, id) ==> q == r)
    && (forall id :: id in s.drained <==> exists r :: Drains(s, r, id))
  }

  ghost predicate Inv(hs: Handshakes, s: State) {
    AllOnPlan(hs, s) && OneDrainEach(s) && forall id :: id !in s.drained ==> For(s.calls, id) == []
  }

  lemma CallsAppend(calls: seq<(HandshakeId, string)>, call: (HandshakeId, string), id: HandshakeId)
    ensures For(calls + [call], id) == For(calls, id) + if call.0 == id then [call.1] else []
  {
    assert (calls + [call])[..|calls|] == calls;
  }

  lemma SameDrains(s: State, t: State)
    requires OneDrainEach(s) && t.drained == s.drained
    requires forall r, id :: Drains(t, r, id) <==> Drains(s, r, id)
    ensures OneDrainEach(t)
  {
  }

  lemma LoadKeepsInv(hs: Handshakes, s: State, r: Registration, id: HandshakeId)
    requires Inv(hs, s) && Possible(hs, s, Loaded(r, id)) && id !in s.drained
    ensures Inv(hs, Next(hs, s, Loaded(r, id)))
  {
    var t := Next(hs, s, Loaded(r, id));
    assert Drains(t, r, id);
    assert forall q, other :: Drains(t, q, other) <==> Drains(s, q, other) || (q == r && other == id);
    forall q | q in t.registrations && t.registrations[q].Draining?
      ensures OnPlan(hs, t, q)
    {
      assert q != r ==> OnPlan(hs, s, q);
    }
  }

  lemma OpenKeepsInv(hs: Handshakes, s: State, r: Registration, answer: Opening)
    requires Inv(hs, s) && Possible(hs, s, Open(r, answer))
    ensures Inv(hs, Next(hs, s, Open(r, answer)))
  {
    var t := Next(hs, s, Open(r, answer));
    var p := s.registrations[r];
    var call := (p.id, Plan(hs(p.id), p.answers)[|p.answers|]);
    assert OnPlan(hs, s, r) && Drains(s, r, p.id);
    PlanExtends(hs(p.id), p.answers, answer);
    forall id {
      CallsAppend(s.calls, call, id);
    }
    assert For(t.calls, p.id) == Plan(hs(p.id), p.answers)[..|p.answers| + 1];
    forall q | q in t.registrations && t.registrations[q].Draining?
      ensures OnPlan(hs, t, q)
    {
      if q != r {
        assert OnPlan(hs, s, q) && Drains(s, q, s.registrations[q].id);
      }
    }
    SameDrains(s, t);
  }

  lemma StepKeepsInv(hs: Handshakes, s: State, step: Step)
    requires Inv(hs, s) && Possible(hs, s, step)
    ensures Inv(hs, Next(hs, s, step))
  {
    if step.Open? {
      OpenKeepsInv(hs, s, step.r, step.answer);
    } else if step.Loaded? && step.id !in s.drained {
      LoadKeepsInv(hs, s, step.r, step.id);
    } else {
      var t := Next(hs, s, step);
      SameDrains(s, t);
      forall q | q in t.registrations && t.registrations[q].Draining?
        ensures OnPlan(hs, t, q)
      {
        assert OnPlan(hs, s, q);
      }
    }
  }

  lemma {:induction false} RunKeepsInv(hs: Handshakes, s: State, steps: seq<Step>)
    requires Inv(hs, s) && IsRun(hs, s, steps)
    ensures Inv(hs, Run(hs, s, steps))
    decreases |steps|
  {
    if steps != [] {
      StepKeepsInv(hs, s, steps[0]);
      RunKeepsInv(hs, Next(hs, s, steps[0]), steps[1..]);
    }
  }

  /**
   However registrations overlap, each handshake that was loaded is drained by exactly
   one of them, and the calls made for it are the beginning of one plan: no tab and no
   launch path is opened twice by draining.
   */
  lemma EachHandshakeIsDrainedOnce(hs: Handshakes, steps: seq<Step>, id: HandshakeId)
    requires IsRun(hs, START, steps)
    ensures
      var s := Run(hs, START, steps);
      if id in s.drained then
        exists r :: Drains(s, r, id)
          && For(s.calls, id) <= Plan(hs(id), s.registrations[r].answers)
          && |For(s.calls, id)| == |s.registrations[r].answers|
          && forall q :: Drains(s, q, id) ==> q == r
      else For(s.calls, id) == []
  {
    RunKeepsInv(hs, START, steps);
    var s := Run(hs, START, steps);
    if id in s.drained {
      var r :| Drains(s, r, id);
      assert OnPlan(hs, s, r);
    }
  }

  /** The answers a registration got in a run. */
  function AnswersTo(steps: seq<Step>, r: Registration): seq<Opening> {
    if steps == [] then []
    else (if steps[0].Open? && steps[0].r == r then [steps[0].answer] else []) + AnswersTo(steps[1..], r)
  }

  /** A drain goes by the answers that the run gave it. */
  lemma {:induction false} DrainHasItsAnswers(hs: Handshakes, s: State, steps: seq<Step>, r: Registration)
    requires IsRun(hs, s, steps)
    requires r in s.registrations ==> s.registrations[r].Loading? || s.registrations[r].Draining?
    requires r in Run(hs, s, steps).registrations && Run(hs, s, steps).registrations[r].Draining?
    ensures
      var before := if r in s.registrations && s.registrations[r].Draining? then s.registrations[r].answers else [];
      Run(hs, s, steps).registrations[r].answers == before + AnswersTo(steps, r)
    decreases |steps|
  {
    if steps != [] {
      var t := Next(hs, s, steps[0]);
      if r in t.registrations && (t.registrations[r].LeftAlone? || t.registrations[r].Failed?) {
        OutOfTheDrain(hs, t, steps[1..], r);
      }
      DrainHasItsAnswers(hs, t, steps[1..], r);
    }
  }

  lemma {:induction false} OutOfTheDrain(hs: Handshakes, s: State, steps: seq<Step>, r: Registration)
    requires IsRun(hs, s, steps)
    requires r in s.registrations && (s.registrations[r].LeftAlone? || s.registrations[r].Failed?)
    ensures r in Run(hs, s, steps).registrations && !Run(hs, s, steps).registrations[r].Draining?
    decreases |steps|
  {
    if steps != [] {
      OutOfTheDrain(hs, Next(hs, s, steps[0]), steps[1..], r);
    }
  }

  /** A handshake is drained exactly if some registration loaded it. */
  lemma {:induction false} LoadedIsDrained(hs: Handshakes, s: State, steps: seq<Step>, id: HandshakeId)
    requires IsRun(hs, s, steps)
    ensures id in Run(hs, s, steps).drained <==>
            id in s.drained || exists step :: step in steps && step.Loaded? && step.id == id
    decreases |steps|
  {
    if steps != [] {
      LoadedIsDrained(hs, Next(hs, s, steps[0]), steps[1..], id);
      assert steps == [steps[0]] + steps[1..];
    }
  }

  /**
   With nothing left to do, every handshake that some registration loaded had exactly these
   calls, by one registration `r` and once: its tabs, then the active tab exactly if it
   opened here, then its launch paths.
   */
  lemma AtRestEachPlanIsDone(hs: Handshakes, steps: seq<Step>, load: Step) returns (r: Registration)
    requires IsRun(hs, START, steps) && load in steps && load.Loaded?
    requires forall q, answer :: !Possible(hs, Run(hs, START, steps), Open(q, answer))
    ensures
      var calls := For(Run(hs, START, steps).calls, load.id);
      match hs(load.id).restore
      case None => calls == hs(load.id).pending
      case Some(restore) =>
        if restore.activePath.Some? && OpenedHere(restore.tabs, AnswersTo(steps, r), restore.activePath.value)
        then calls == restore.tabs + [restore.activePath.value] + hs(load.id).pending
        else calls == restore.tabs + hs(load.id).pending
  {
    RunKeepsInv(hs, START, steps);
    LoadedIsDrained(hs, START, steps, load.id);
    var s := Run(hs, START, steps);
    r :| Drains(s, r, load.id);
    assert OnPlan(hs, s, r);
    assert !Possible(hs, s, Open(r, Opened));
    DrainHasItsAnswers(hs, START, steps, r);
    var answers := AnswersTo(steps, r);
    assert answers == s.registrations[r].answers;
    assert For(s.calls, load.id) == Plan(hs(load.id), answers)[..|answers|] == Plan(hs(load.id), answers);
    PlanIs(hs(load.id), answers);
  }
}
