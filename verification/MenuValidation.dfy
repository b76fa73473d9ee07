/**
 The menu validation ledger (src-tauri/src/native_menu.rs): every forwarded menu
 command draws an id, is recorded as pending, logged, and sent to a webview; an
 acknowledgement that names the id and its command is logged as routed. Menu
 events and acknowledgements interleave between the atomic steps below.
 */
module MenuValidation {
  import opened MenuSpec

  datatype Observation =
    | NativeEntry(id: nat, command: Owned)
    | ApplicationRoute(id: nat, command: Owned)

  datatype Ledger = Ledger(sequence: nat, pending: map<nat, Owned>, log: seq<Observation>)

  /** How far the handling of one menu event has come. */
  datatype Stage = Drawn | Registered | Announced | Sent | Dropped

  datatype MenuEvent = MenuEvent(command: Owned, stage: Stage)

  /** `routing` holds what was consumed from `pending` and is not logged yet. */
  datatype State = State(ledger: Ledger, events: map<nat, MenuEvent>, routing: map<nat, Owned>)

  const START := State(Ledger(1, map[], []), map[], map[])

  datatype Step =
    | Draw(command: Owned)
    | Register(id: nat)
    | Announce(id: nat)
    | Forward(id: nat, sent: bool)
    | Acknowledge(id: nat, command: Owned)
    | Route(id: nat)

  predicate At(s: State, id: nat, stage: Stage) {
    id in s.events && s.events[id].stage == stage
  }

  predicate Possible(s: State, step: Step) {
    match step
    case Register(id) => At(s, id, Drawn)
    case Announce(id) => At(s, id, Registered)
    case Forward(id, _) => At(s, id, Announced)
    case Route(id) => id in s.routing
    case _ => true
  }

  function Moved(s: State, id: nat, stage: Stage): State
    requires id in s.events
  {
    s.(events := s.events[id := MenuEvent(s.events[id].command, stage)])
  }

  /** The listener's test: ids are positive, known, and carry the recorded command. */
  predicate Accepted(l: Ledger, id: nat, command: Owned) {
    id > 0 && id in l.pending && l.pending[id] == command
  }

  function Next(s: State, step: Step): State
    requires Possible(s, step)
  {
    var l := s.ledger;
    match step
    case Draw(command) =>
      s.(ledger := l.(sequence := l.sequence + 1), events := s.events[l.sequence := MenuEvent(command, Drawn)])
    case Register(id) =>
      Moved(s, id, Registered).(ledger := l.(pending := l.pending[id := s.events[id].command]))
    case Announce(id) =>
      Moved(s, id, Announced).(ledger := l.(log := l.log + [NativeEntry(id, s.events[id].command)]))
    case Forward(id, sent) =>
      if sent then Moved(s, id, Sent) else Moved(s, id, Dropped).(ledger := l.(pending := l.pending - {id}))
    case Acknowledge(id, command) =>
      if Accepted(l, id, command)
      then s.(ledger := l.(pending := l.pending - {id}), routing := s.routing[id := command])
      else s
    case Route(id) =>
      s.(ledger := l.(log := l.log + [ApplicationRoute(id, s.routing[id])]), routing := s.routing - {id})
  }

  predicate IsRun(s: State, steps: seq<Step>)
    decreases |steps|
  {
    steps != [] ==> Possible(s, steps[0]) && IsRun(Next(s, steps[0]), steps[1..])
  }

  function Run(s: State, steps: seq<Step>): State
    requires IsRun(s, steps)
    decreases |steps|
  {
    if steps == [] then s else Run(Next(s, steps[0]), steps[1..])
  }

  /** No acknowledgement names an id that is recorded but not logged yet. */
  predicate Timely(s: State, steps: seq<Step>)
    requires IsRun(s, steps)
    decreases |steps|
  {
    steps != [] ==>
      && (steps[0].Acknowledge? ==> !At(s, steps[0].id, Registered))
      && Timely(Next(s, steps[0]), steps[1..])
  }

  // ---------------------------------------------------------------- the ledger in place

  class ValidationLedger {
    var sequence: nat
    var pending: map<nat, Owned>
    var log: seq<Observation>

    constructor ()
      ensures View() == START.ledger
    {
      sequence, pending, log := 1, map[], [];
    }

    function View(): Ledger
      reads this
    {
      Ledger(sequence, pending, log)
    }

    /** One menu event, uninterrupted; `sent` is whether a target window took the payload. */
    method Handle(command: Owned, validating: bool, sent: bool, ghost s: State)
      requires s.ledger == View()
      modifies this
      ensures View() == (if validating then Handled(s, command, sent) else s).ledger
    {
      if !validating {
        return;
      }
      HandledLedger(s, command, sent);
      var id := sequence;
      sequence := sequence + 1;
      pending := pending[id := command];
      log := log + [NativeEntry(id, command)];
      if !sent {
        pending := pending - {id};
      }
    }

    /** One acknowledgement, uninterrupted. */
    method Consume(id: nat, command: Owned, ghost s: State) returns (routed: bool)
      requires s.ledger == View()
      modifies this
      ensures routed == Accepted(s.ledger, id, command)
      ensures View() == Run(s, [Acknowledge(id, command)] + if routed then [Route(id)] else []).ledger
    {
      if id == 0 || id !in pending || pending[id] != command {
        RunFirst(s, Acknowledge(id, command), []);
        return false;
      }
      pending := pending - {id};
      log := log + [ApplicationRoute(id, command)];
      ghost var consumed := Next(s, Acknowledge(id, command));
      RunFirst(consumed, Route(id), []);
      RunFirst(s, Acknowledge(id, command), [Route(id)]);
      assert [Route(id)] == [Route(id)] + [];
      return true;
    }
  }

  /** The four steps of one menu event, with nothing in between. */
  function Handled(s: State, command: Owned, sent: bool): State {
    var id := s.ledger.sequence;
    Next(Next(Next(Next(s, Draw(command)), Register(id)), Announce(id)), Forward(id, sent))
  }

  lemma RunFirst(s: State, step: Step, rest: seq<Step>)
    requires Possible(s, step)
    ensures IsRun(s, [step] + rest) <==> IsRun(Next(s, step), rest)
    ensures IsRun(Next(s, step), rest) ==> Run(s, [step] + rest) == Run(Next(s, step), rest)
  {
    assert ([step] + rest)[1..] == rest;
  }

  lemma HandledLedger(s: State, command: Owned, sent: bool)
    ensures
      var l := s.ledger;
      var pending := l.pending[l.sequence := command];
      Handled(s, command, sent).ledger ==
        Ledger(l.sequence + 1, if sent then pending else pending - {l.sequence}, l.log + [NativeEntry(l.sequence, command)])
  {
    var id := s.ledger.sequence;
    var s1 := Next(s, Draw(command));
    assert s1.events[id] == MenuEvent(command, Drawn);
    var s2 := Next(s1, Register(id));
    assert s2.events[id] == MenuEvent(command, Registered) && s2.ledger.pending == s.ledger.pending[id := command];
    var s3 := Next(s2, Announce(id));
    assert s3.events[id] == MenuEvent(command, Announced) && s3.ledger.log == s.ledger.log + [NativeEntry(id, command)];
  }

  lemma HandledIsARun(s: State, command: Owned, sent: bool)
    ensures
      var id := s.ledger.sequence;
      var steps := [Draw(command)] + ([Register(id)] + ([Announce(id)] + ([Forward(id, sent)] + [])));
      IsRun(s, steps) && Run(s, steps) == Handled(s, command, sent)
  {
    var id := s.ledger.sequence;
    var s1 := Next(s, Draw(command));
    var s2 := Next(s1, Register(id));
    var s3 := Next(s2, Announce(id));
    RunFirst(s3, Forward(id, sent), []);
    RunFirst(s2, Announce(id), [Forward(id, sent)] + []);
    RunFirst(s1, Register(id), [Announce(id)] + ([Forward(id, sent)] + []));
    RunFirst(s, Draw(command), [Register(id)] + ([Announce(id)] + ([Forward(id, sent)] + [])));
  }

  // ---------------------------------------------------------------- the invariant

  /** Ids count up from 1, and what is recorded under an id is its event's command. */
  ghost predicate Recorded(s: State) {
    && s.ledger.sequence >= 1
    && (forall id :: id in s.events <==> 1 <= id < s.ledger.sequence)
    && (forall id :: id in s.ledger.pending ==>
          && id in s.events && s.events[id].command == s.ledger.pending[id]
          && !s.events[id].stage.Drawn? && !s.events[id].stage.Dropped?)
    && (forall id :: id in s.routing ==>
          && id in s.events && s.events[id].command == s.routing[id] && !s.events[id].stage.Drawn?
          && id !in s.ledger.pending)
  }

  ghost predicate Routed(log: seq<Observation>, id: nat) {
    exists o :: o in log && o.ApplicationRoute? && o.id == id
  }

  ghost predicate NoRepeats(log: seq<Observation>) {
    forall i, j :: 0 <= i < j < |log| ==> log[i] != log[j]
  }

  /** What is logged was recorded under that command, announced if it is an entry, consumed if it is a route. */
  ghost predicate Truthful(s: State, o: Observation) {
    && o.id in s.events && s.events[o.id].command == o.command && !s.events[o.id].stage.Drawn?
    && (o.NativeEntry? ==> !s.events[o.id].stage.Registered?)
    && (o.ApplicationRoute? ==> o.id !in s.ledger.pending && o.id !in s.routing)
  }

  ghost predicate AllTruthful(s: State) {
    forall o :: o in s.ledger.log ==> Truthful(s, o)
  }

  predicate WasAnnounced(e: MenuEvent) {
    e.stage.Announced? || e.stage.Sent? || e.stage.Dropped?
  }

  ghost predicate AllAnnounced(s: State) {
    forall id :: id in s.events && WasAnnounced(s.events[id]) ==> NativeEntry(id, s.events[id].command) in s.ledger.log
  }

  /** A recorded event that was not dropped is still pending, consumed, or routed. */
  ghost predicate Kept(s: State) {
    forall id :: id in s.events && !s.events[id].stage.Drawn? && !s.events[id].stage.Dropped? ==>
      id in s.ledger.pending || id in s.routing || Routed(s.ledger.log, id)
  }

  ghost predicate Inv(s: State) {
    Recorded(s) && NoRepeats(s.ledger.log) && AllTruthful(s) && AllAnnounced(s) && Kept(s)
  }

  lemma LogGrows(log: seq<Observation>, o: Observation)
    ensures forall x :: x in log + [o] <==> x in log || x == o
    ensures NoRepeats(log) && o !in log ==> NoRepeats(log + [o])
    ensures forall id :: Routed(log + [o], id) <==> Routed(log, id) || (o.ApplicationRoute? && o.id == id)
  {
    var after := log + [o];
    assert forall i :: 0 <= i < |log| ==> after[i] == log[i];
    assert o in after;
    forall id | Routed(log, id)
      ensures Routed(after, id)
    {
      var x :| x in log && x.ApplicationRoute? && x.id == id;
      assert x in after;
    }
  }

  lemma RecordingKeepsInv(s: State, step: Step)
    requires Inv(s) && Possible(s, step) && (step.Draw? || step.Register?)
    ensures Inv(Next(s, step))
  {
    var t := Next(s, step);
    forall o | o in s.ledger.log
      ensures Truthful(t, o)
    {
      assert Truthful(s, o);
    }
  }

  lemma AnnounceKeepsInv(s: State, id: nat)
    requires Inv(s) && At(s, id, Registered)
    ensures Inv(Next(s, Announce(id)))
  {
    var t := Next(s, Announce(id));
    var o := NativeEntry(id, s.events[id].command);
    assert o in s.ledger.log ==> Truthful(s, o);
    LogGrows(s.ledger.log, o);
    forall x | x in s.ledger.log
      ensures Truthful(t, x)
    {
      assert Truthful(s, x);
    }
  }

  lemma ForwardKeepsInv(s: State, id: nat, sent: bool)
    requires Inv(s) && At(s, id, Announced)
    ensures Inv(Next(s, Forward(id, sent)))
  {
    var t := Next(s, Forward(id, sent));
    forall o | o in s.ledger.log
      ensures Truthful(t, o)
    {
      assert Truthful(s, o);
    }
  }

  lemma AcknowledgeKeepsInv(s: State, id: nat, command: Owned)
    requires Inv(s)
    ensures Inv(Next(s, Acknowledge(id, command)))
  {
    var t := Next(s, Acknowledge(id, command));
    forall o | o in s.ledger.log
      ensures Truthful(t, o)
    {
      assert Truthful(s, o);
    }
  }

  lemma RouteKeepsInv(s: State, id: nat)
    requires Inv(s) && id in s.routing
    ensures Inv(Next(s, Route(id)))
  {
    var t := Next(s, Route(id));
    var o := ApplicationRoute(id, s.routing[id]);
    assert o in s.ledger.log ==> Truthful(s, o);
    LogGrows(s.ledger.log, o);
    forall x | x in s.ledger.log
      ensures Truthful(t, x)
    {
      assert Truthful(s, x);
    }
  }

  lemma StepKeepsInv(s: State, step: Step)
    requires Inv(s) && Possible(s, step)
    ensures Inv(Next(s, step))
  {
    match step
    case Announce(id) => AnnounceKeepsInv(s, id);
    case Forward(id, sent) => ForwardKeepsInv(s, id, sent);
    case Acknowledge(id, command) => AcknowledgeKeepsInv(s, id, command);
    case Route(id) => RouteKeepsInv(s, id);
    case _ => RecordingKeepsInv(s, step);
  }

  lemma {:induction false} RunKeepsInv(s: State, steps: seq<Step>)
    requires Inv(s) && IsRun(s, steps)
    ensures Inv(Run(s, steps))
    decreases |steps|
  {
    if steps != [] {
      StepKeepsInv(s, steps[0]);
      RunKeepsInv(Next(s, steps[0]), steps[1..]);
    }
  }

  /** Every routed observation comes after its event's own. */
  ghost predicate InOrder(log: seq<Observation>) {
    forall i :: 0 <= i < |log| && log[i].ApplicationRoute? ==> NativeEntry(log[i].id, log[i].command) in log[..i]
  }

  ghost predicate ConsumedInOrder(s: State) {
    InOrder(s.ledger.log) && forall id :: id in s.routing ==> !At(s, id, Registered)
  }

  lemma StepKeepsOrder(s: State, step: Step)
    requires Inv(s) && ConsumedInOrder(s) && Possible(s, step)
    requires step.Acknowledge? ==> !At(s, step.id, Registered)
    ensures ConsumedInOrder(Next(s, step))
  {
    StepOrderIff(s, step);
    ConsumptionStaysInOrder(s, step);
  }

  lemma ConsumptionStaysInOrder(s: State, step: Step)
    requires Recorded(s) && Possible(s, step) && (step.Acknowledge? ==> !At(s, step.id, Registered))
    requires forall id :: id in s.routing ==> !At(s, id, Registered)
    ensures forall id :: id in Next(s, step).routing ==> !At(Next(s, step), id, Registered)
  {
  }

  lemma {:induction false} RunKeepsOrder(s: State, steps: seq<Step>)
    requires Inv(s) && ConsumedInOrder(s) && IsRun(s, steps) && Timely(s, steps)
    ensures ConsumedInOrder(Run(s, steps))
    decreases |steps|
  {
    if steps != [] {
      StepKeepsInv(s, steps[0]);
      StepKeepsOrder(s, steps[0]);
      RunKeepsOrder(Next(s, steps[0]), steps[1..]);
    }
  }

  // ---------------------------------------------------------------- main results

  /** The commands drawn, in order: the first has id 1. */
  function Drawns(steps: seq<Step>): seq<Owned>
    decreases |steps|
  {
    if steps == [] then []
    else Drawns(steps[..|steps| - 1]) + if steps[|steps| - 1].Draw? then [steps[|steps| - 1].command] else []
  }

  predicate Reached(s: State, id: nat) {
    id in s.events && !s.events[id].stage.Drawn?
  }

  /** Where an event stands is what its own steps were. */
  ghost predicate StageFollows(s: State, past: seq<Step>, id: nat) {
    && (Reached(s, id) <==> Register(id) in past)
    && (id in s.events && WasAnnounced(s.events[id]) <==> Announce(id) in past)
    && (At(s, id, Sent) <==> Forward(id, true) in past)
    && (At(s, id, Dropped) <==> Forward(id, false) in past)
  }

  ghost predicate EventFollows(s: State, past: seq<Step>, id: nat) {
    StageFollows(s, past, id) && (Routed(s.ledger.log, id) <==> Route(id) in past)
  }

  /** The command drawn for an id. */
  predicate DrawnAs(past: seq<Step>, id: nat, command: Owned) {
    1 <= id <= |Drawns(past)| && command == Drawns(past)[id - 1]
  }

  /** Ids are given in the order of drawing. */
  ghost predicate DrawsFollow(s: State, past: seq<Step>) {
    && s.ledger.sequence == |Drawns(past)| + 1
    && (forall id :: id in s.events <==> 1 <= id <= |Drawns(past)|)
    && (forall id :: id in s.events ==> DrawnAs(past, id, s.events[id].command))
  }

  /** An entry is logged when its event is announced, under the command drawn. */
  ghost predicate LogFollows(s: State, past: seq<Step>) {
    && DrawsFollow(s, past)
    && (forall id: nat, command :: NativeEntry(id, command) in s.ledger.log <==>
          Announce(id) in past && DrawnAs(past, id, command))
  }

  lemma LastStep(past: seq<Step>, step: Step)
    ensures forall x :: x in past + [step] <==> x in past || x == step
    ensures Drawns(past + [step]) == Drawns(past) + if step.Draw? then [step.command] else []
  {
    var now := past + [step];
    assert now[|now| - 1] == step && now[..|now| - 1] == past;
  }

  lemma StageStepFollows(s: State, past: seq<Step>, step: Step, now: seq<Step>, id: nat)
    requires Recorded(s) && Possible(s, step) && StageFollows(s, past, id)
    requires forall x :: x in now <==> x in past || x == step
    ensures StageFollows(Next(s, step), now, id)
  {
  }

  lemma RouteStepFollows(s: State, past: seq<Step>, step: Step, now: seq<Step>, id: nat)
    requires Possible(s, step) && (Routed(s.ledger.log, id) <==> Route(id) in past)
    requires forall x :: x in now <==> x in past || x == step
    ensures Routed(Next(s, step).ledger.log, id) <==> Route(id) in now
  {
    if step.Announce? {
      LogGrows(s.ledger.log, NativeEntry(step.id, s.events[step.id].command));
    } else if step.Route? {
      LogGrows(s.ledger.log, ApplicationRoute(step.id, s.routing[step.id]));
    } else {
      assert Next(s, step).ledger.log == s.ledger.log;
    }
  }

  lemma EventStepFollows(s: State, past: seq<Step>, step: Step, id: nat)
    requires Recorded(s) && Possible(s, step) && EventFollows(s, past, id)
    ensures EventFollows(Next(s, step), past + [step], id)
  {
    LastStep(past, step);
    StageStepFollows(s, past, step, past + [step], id);
    RouteStepFollows(s, past, step, past + [step], id);
  }

  lemma CountStepFollows(s: State, past: seq<Step>, step: Step, now: seq<Step>)
    requires Recorded(s) && Possible(s, step) && DrawsFollow(s, past)
    requires Drawns(now) == Drawns(past) + if step.Draw? then [step.command] else []
    ensures DrawsFollow(Next(s, step), now)
  {
    var t := Next(s, step);
    if step.Draw? {
      assert t.events.Keys == s.events.Keys + {s.ledger.sequence};
      assert forall id :: id in s.events ==> t.events[id] == s.events[id];
    } else {
      assert t.events.Keys == s.events.Keys;
      assert forall id :: id in s.events ==> t.events[id].command == s.events[id].command;
    }
  }

  lemma EntryStepFollows(s: State, past: seq<Step>, step: Step, now: seq<Step>, id: nat, command: Owned)
    requires Recorded(s) && Possible(s, step) && DrawsFollow(s, past)
    requires Drawns(now) == Drawns(past) + if step.Draw? then [step.command] else []
    requires forall x :: x in now <==> x in past || x == step
    requires Announce(id) in past ==> id in s.events
    requires NativeEntry(id, command) in s.ledger.log <==> Announce(id) in past && DrawnAs(past, id, command)
    ensures NativeEntry(id, command) in Next(s, step).ledger.log <==> Announce(id) in now && DrawnAs(now, id, command)
  {
    if step.Announce? {
      LogGrows(s.ledger.log, NativeEntry(step.id, s.events[step.id].command));
    } else if step.Route? {
      LogGrows(s.ledger.log, ApplicationRoute(step.id, s.routing[step.id]));
    }
  }

  lemma LogStepFollows(s: State, past: seq<Step>, step: Step)
    requires Recorded(s) && Possible(s, step) && LogFollows(s, past)
    requires forall id :: EventFollows(s, past, id)
    ensures LogFollows(Next(s, step), past + [step])
  {
    LastStep(past, step);
    CountStepFollows(s, past, step, past + [step]);
    forall id: nat, command
      ensures NativeEntry(id, command) in Next(s, step).ledger.log <==>
              Announce(id) in past + [step] && DrawnAs(past + [step], id, command)
    {
      assert EventFollows(s, past, id);
      EntryStepFollows(s, past, step, past + [step], id, command);
    }
  }

  ghost predicate Follows(s: State, past: seq<Step>) {
    LogFollows(s, past) && forall id :: EventFollows(s, past, id)
  }

  lemma StepFollows(s: State, past: seq<Step>, step: Step)
    requires Recorded(s) && Possible(s, step) && Follows(s, past)
    ensures Follows(Next(s, step), past + [step])
  {
    forall id
      ensures EventFollows(Next(s, step), past + [step], id)
    {
      EventStepFollows(s, past, step, id);
    }
    LogStepFollows(s, past, step);
  }

  lemma Regroup(past: seq<Step>, steps: seq<Step>)
    requires steps != []
    ensures past + [steps[0]] + steps[1..] == past + steps
  {
  }

  lemma {:induction false} RunFollows(s: State, past: seq<Step>, steps: seq<Step>)
    requires Inv(s) && IsRun(s, steps) && Follows(s, past)
    ensures Follows(Run(s, steps), past + steps)
    decreases |steps|
  {
    if steps == [] {
      assert past + steps == past;
    } else {
      StepFollows(s, past, steps[0]);
      StepKeepsInv(s, steps[0]);
      RunFollows(Next(s, steps[0]), past + [steps[0]], steps[1..]);
      Regroup(past, steps);
    }
  }

  /** In every run the ledger's events and log are those of the steps taken. */
  lemma LedgerFollowsTheSteps(steps: seq<Step>, id: nat)
    requires IsRun(START, steps)
    ensures LogFollows(Run(START, steps), steps) && EventFollows(Run(START, steps), steps, id)
  {
    RunFollows(START, [], steps);
    assert [] + steps == steps;
  }

  /** In every run a routed observation carries the command its id was recorded with, and is the only one for that id. */
  lemma RoutesAreGenuineAndUnique(steps: seq<Step>, i: nat)
    requires IsRun(START, steps)
    requires i < |Run(START, steps).ledger.log| && Run(START, steps).ledger.log[i].ApplicationRoute?
    ensures
      var s := Run(START, steps);
      var o := s.ledger.log[i];
      && o.id in s.events && s.events[o.id].command == o.command
      && o.id !in s.ledger.pending
      && forall j :: 0 <= j < |s.ledger.log| && j != i && s.ledger.log[j].ApplicationRoute? ==> s.ledger.log[j].id != o.id
  {
    RunKeepsInv(START, steps);
    var s := Run(START, steps);
    var o := s.ledger.log[i];
    assert o in s.ledger.log && Truthful(s, o);
    forall j | 0 <= j < |s.ledger.log| && j != i && s.ledger.log[j].ApplicationRoute?
      ensures s.ledger.log[j].id != o.id
    {
      assert s.ledger.log[j] in s.ledger.log && Truthful(s, s.ledger.log[j]);
      assert s.ledger.log[j] != o;
    }
  }

  /**
   When no acknowledgement names an id between its recording and its log line, every
   routed observation is preceded by the native entry with the same id and command.
   */
  lemma RoutesFollowTheirEntry(steps: seq<Step>, i: nat)
    requires IsRun(START, steps) && Timely(START, steps)
    requires i < |Run(START, steps).ledger.log| && Run(START, steps).ledger.log[i].ApplicationRoute?
    ensures
      var log := Run(START, steps).ledger.log;
      exists j :: 0 <= j < i && log[j] == NativeEntry(log[i].id, log[i].command)
  {
    RunKeepsOrder(START, steps);
    var log := Run(START, steps).ledger.log;
    assert NativeEntry(log[i].id, log[i].command) in log[..i];
  }

  /** No route is logged while its id is recorded but not logged itself. */
  predicate NoEarlyRoute(s: State, steps: seq<Step>)
    requires IsRun(s, steps)
    decreases |steps|
  {
    steps != [] ==>
      && (steps[0].Route? ==> !At(s, steps[0].id, Registered))
      && NoEarlyRoute(Next(s, steps[0]), steps[1..])
  }

  /** One more line keeps the order, unless it is a route without its entry. */
  lemma OrderAppends(log: seq<Observation>, o: Observation)
    ensures InOrder(log + [o]) <==>
            InOrder(log) && (o.ApplicationRoute? ==> NativeEntry(o.id, o.command) in log)
  {
    var after := log + [o];
    assert after[..|log|] == log && after[|log|] == o;
    assert forall i :: 0 <= i < |log| ==> after[..i] == log[..i] && after[i] == log[i];
  }

  /** A step leaves the log in order exactly when it was and the step does not route early. */
  lemma StepOrderIff(s: State, step: Step)
    requires Inv(s) && Possible(s, step)
    ensures InOrder(Next(s, step).ledger.log) <==>
            InOrder(s.ledger.log) && (step.Route? ==> !At(s, step.id, Registered))
  {
    if step.Announce? {
      OrderAppends(s.ledger.log, NativeEntry(step.id, s.events[step.id].command));
    } else if step.Route? {
      var o := ApplicationRoute(step.id, s.routing[step.id]);
      OrderAppends(s.ledger.log, o);
      var entry := NativeEntry(step.id, s.routing[step.id]);
      assert entry in s.ledger.log ==> Truthful(s, entry);
    }
  }

  lemma {:induction false} RunOrderIff(s: State, steps: seq<Step>)
    requires Inv(s) && IsRun(s, steps)
    ensures InOrder(Run(s, steps).ledger.log) <==> InOrder(s.ledger.log) && NoEarlyRoute(s, steps)
    decreases |steps|
  {
    if steps != [] {
      StepKeepsInv(s, steps[0]);
      StepOrderIff(s, steps[0]);
      RunOrderIff(Next(s, steps[0]), steps[1..]);
    }
  }

  /**
   Exactly when a run logs every route behind its native entry: when none is logged
   between the recording of its id and the id's own line.
   */
  lemma RoutesFollowTheirEntryIff(steps: seq<Step>)
    requires IsRun(START, steps)
    ensures InOrder(Run(START, steps).ledger.log) <==> NoEarlyRoute(START, steps)
  {
    RunOrderIff(START, steps);
  }

  predicate NoAcknowledgement(steps: seq<Step>) {
    forall i :: 0 <= i < |steps| ==> !steps[i].Acknowledge?
  }

  /** The handler and the listener can go on, without hearing anything more, to a log out of order. */
  ghost predicate CanMisorder(s: State) {
    exists later :: IsRun(s, later) && NoAcknowledgement(later) && !InOrder(Run(s, later).ledger.log)
  }

  /** They can exactly when the log is out of order already, or something was consumed too early. */
  lemma CanMisorderIff(s: State)
    requires Inv(s)
    ensures CanMisorder(s) <==> !ConsumedInOrder(s)
  {
    if ConsumedInOrder(s) {
      forall later | IsRun(s, later) && NoAcknowledgement(later)
        ensures InOrder(Run(s, later).ledger.log)
      {
        QuietIsTimely(s, later);
        RunKeepsOrder(s, later);
      }
    } else if !InOrder(s.ledger.log) {
      assert IsRun(s, []) && NoAcknowledgement([]) && Run(s, []) == s;
    } else {
      var id :| id in s.routing && At(s, id, Registered);
      var later := [Route(id)];
      assert later[1..] == [];
      assert IsRun(Next(s, Route(id)), []);
      assert IsRun(s, later) && !NoEarlyRoute(s, later);
      RunOrderIff(s, later);
      assert NoAcknowledgement(later);
    }
  }

  lemma {:induction false} QuietIsTimely(s: State, steps: seq<Step>)
    requires IsRun(s, steps) && NoAcknowledgement(steps)
    ensures Timely(s, steps)
    decreases |steps|
  {
    if steps != [] {
      assert forall i :: 0 <= i < |steps| - 1 ==> steps[1..][i] == steps[i + 1];
      QuietIsTimely(Next(s, steps[0]), steps[1..]);
    }
  }

  /**
   Exactly which acknowledgements are dangerous. In a run that could not go wrong so far, an
   acknowledgement opens a continuation that logs a route before its native entry if and
   only if it is accepted and its id is recorded and not logged yet.
   */
  lemma AcknowledgementMisordersIff(steps: seq<Step>, id: nat, command: Owned)
    requires IsRun(START, steps) && !CanMisorder(Run(START, steps))
    ensures
      var s := Run(START, steps);
      CanMisorder(Next(s, Acknowledge(id, command))) <==> Accepted(s.ledger, id, command) && At(s, id, Registered)
  {
    RunKeepsInv(START, steps);
    var s := Run(START, steps);
    CanMisorderIff(s);
    StepKeepsInv(s, Acknowledge(id, command));
    CanMisorderIff(Next(s, Acknowledge(id, command)));
    var t := Next(s, Acknowledge(id, command));
    if Accepted(s.ledger, id, command) {
      assert id in t.routing;
    }
  }

  /**
   In particular, wherever a run has recorded an id and not logged it, an acknowledgement
   that guesses it is routed without a native entry before it.
   */
  lemma AGuessCanRouteFirst(steps: seq<Step>, id: nat)
    requires IsRun(START, steps) && At(Run(START, steps), id, Registered) && id in Run(START, steps).ledger.pending
    ensures
      var s := Run(START, steps);
      var command := s.events[id].command;
      var consumed := Next(s, Acknowledge(id, command));
      && Possible(consumed, Route(id))
      && var log := Next(consumed, Route(id)).ledger.log;
         && log[|log| - 1] == ApplicationRoute(id, command)
         && NativeEntry(id, command) !in log
  {
    RunKeepsInv(START, steps);
  }

  /** Such a run exists. */
  lemma AGuessIsPossible(command: Owned)
    ensures
      var steps := [Draw(command), Register(1)];
      && IsRun(START, steps)
      && At(Run(START, steps), 1, Registered) && 1 in Run(START, steps).ledger.pending
  {
    var steps := [Draw(command), Register(1)];
    RunFirst(Next(START, Draw(command)), Register(1), []);
    RunFirst(START, Draw(command), [Register(1)]);
    assert steps == [Draw(command)] + [Register(1)] && [Register(1)] == [Register(1)] + [];
  }

  /** An acknowledgement of a payload that left for a webview is never too early. */
  lemma AnswersToPayloadsAreTimely(steps: seq<Step>, id: nat, sent: bool, later: seq<Step>)
    requires IsRun(START, steps) && Possible(Run(START, steps), Forward(id, sent))
    requires IsRun(Next(Run(START, steps), Forward(id, sent)), later)
    ensures !At(Run(Next(Run(START, steps), Forward(id, sent)), later), id, Registered)
  {
    RunKeepsInv(START, steps);
    StageNeverReturns(Next(Run(START, steps), Forward(id, sent)), id, later);
  }

  lemma {:induction false} StageNeverReturns(s: State, id: nat, steps: seq<Step>)
    requires IsRun(s, steps) && id in s.events && id < s.ledger.sequence
    requires !s.events[id].stage.Drawn? && !s.events[id].stage.Registered?
    ensures !At(Run(s, steps), id, Registered)
    decreases |steps|
  {
    if steps != [] {
      StageNeverReturns(Next(s, steps[0]), id, steps[1..]);
    }
  }

  /**
   An acknowledgement changes anything exactly when its id is pending under its
   command; in particular discarded, unknown and mismatched ones leave the ledger as it was.
   */
  lemma RejectedExactly(steps: seq<Step>, id: nat, command: Owned)
    requires IsRun(START, steps)
    ensures
      var s := Run(START, steps);
      && (Next(s, Acknowledge(id, command)) == s <==> !(id in s.ledger.pending && s.ledger.pending[id] == command))
      && (At(s, id, Dropped) || id !in s.events || s.events[id].command != command ==>
            Next(s, Acknowledge(id, command)) == s)
  {
    RunKeepsInv(START, steps);
    var s := Run(START, steps);
    if Accepted(s.ledger, id, command) {
      assert id !in Next(s, Acknowledge(id, command)).ledger.pending;
    }
  }

  /** Once dropped without having been consumed, an id is never routed, whatever happens later. */
  lemma {:induction false} DroppedIsNeverRouted(s: State, id: nat, steps: seq<Step>)
    requires Inv(s) && IsRun(s, steps)
    requires DroppedUnanswered(s, id)
    ensures !Routed(Run(s, steps).ledger.log, id)
    decreases |steps|
  {
    if steps != [] {
      StepKeepsInv(s, steps[0]);
      StaysDropped(s, id, steps[0]);
      DroppedIsNeverRouted(Next(s, steps[0]), id, steps[1..]);
    }
  }

  ghost predicate DroppedUnanswered(s: State, id: nat) {
    At(s, id, Dropped) && id !in s.routing && !Routed(s.ledger.log, id)
  }

  lemma StaysDropped(s: State, id: nat, step: Step)
    requires Recorded(s) && Possible(s, step) && DroppedUnanswered(s, id)
    ensures DroppedUnanswered(Next(s, step), id)
  {
    var t := Next(s, step);
    if t.ledger.log != s.ledger.log {
      LogGrows(s.ledger.log, t.ledger.log[|s.ledger.log|]);
    }
  }

  /** Every recorded id has exactly one fate: pending, consumed, routed, or dropped unanswered. */
  lemma OneFateEach(steps: seq<Step>, id: nat)
    requires IsRun(START, steps) && id in Run(START, steps).events
    requires !At(Run(START, steps), id, Drawn)
    ensures
      var s := Run(START, steps);
      var pending, consumed, routed := id in s.ledger.pending, id in s.routing, Routed(s.ledger.log, id);
      && !(pending && consumed) && !(pending && routed) && !(consumed && routed)
      && (!pending && !consumed && !routed ==> At(s, id, Dropped))
      && (pending ==> !At(s, id, Dropped))
  {
    RunKeepsInv(START, steps);
  }
}
