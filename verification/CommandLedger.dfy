/**
 The performance command ledger (src-tauri/src/e2e_performance.rs): pollers hand
 commands out, publishers answer them, and any number of both interleave at the
 lock. A publisher takes the lock twice, validates in between, publishes without
 it, and puts the command back when publishing fails.
 */
module CommandLedger {
  import opened Options

  /** A double, with rounding left out. */
  datatype Float = Finite(value: real) | PositiveInfinity | NegativeInfinity | NotANumber {
    /** IEEE 754 `x < this`: never true of NaN. */
    predicate Above(x: real) {
      match this
      case Finite(v) => x < v
      case PositiveInfinity => true
      case _ => false
    }

    function Scaled(factor: real): Float {
      match this
      case Finite(v) => Finite(v * factor)
      case _ => this
    }
  }

  datatype Operation = PanZoom | HighFrequencyEdit | EditSoak

  datatype Command = Command(schemaVersion: string, id: string, operation: Operation, durationMs: Float, seed: nat,
                             targetEvents: Option<nat>)

  datatype Report = Report(schemaVersion: string, id: string, operation: Operation, completed: bool, durationMs: Float,
                           eventCount: nat, frameIntervalsMs: seq<Float>, visibility: string, frameClock: string)

  const SCHEMA_VERSION := "1.0.0"
  const MAXIMUM_ID_LENGTH := 128

  predicate IdChar(c: char) {
    'a' <= c <= 'z' || 'A' <= c <= 'Z' || '0' <= c <= '9' || c == '-' || c == '_'
  }

  predicate ValidId(id: string) {
    0 < |id| <= MAXIMUM_ID_LENGTH && forall i :: 0 <= i < |id| ==> IdChar(id[i])
  }

  predicate ValidCommand(c: Command) {
    && c.schemaVersion == SCHEMA_VERSION
    && ValidId(c.id)
    && c.durationMs.Finite? && c.durationMs.value > 0.0
    && c.targetEvents != Some(0)
  }

  function Total(intervals: seq<Float>): real {
    if intervals == [] then 0.0
    else (if intervals[0].Finite? then intervals[0].value else 0.0) + Total(intervals[1..])
  }

  predicate ValidReport(r: Report, c: Command) {
    && r.schemaVersion == SCHEMA_VERSION
    && r.id == c.id && r.operation == c.operation && r.completed
    && r.durationMs.Finite? && !c.durationMs.Above(r.durationMs.value)
    && r.visibility == "visible" && r.frameClock == "requestAnimationFrame-performance.now"
    && (forall i :: 0 <= i < |r.frameIntervalsMs| ==>
          r.frameIntervalsMs[i].Finite? && r.frameIntervalsMs[i].value >= 0.0)
    && (c.operation != EditSoak ==> CoversTheWindow(r, c))
  }

  predicate CoversTheWindow(r: Report, c: Command) {
    && !c.durationMs.Scaled(0.95).Above(Total(r.frameIntervalsMs))
    && (r.durationMs.Finite? ==> Total(r.frameIntervalsMs) <= r.durationMs.value + 1000.0)
  }

  function SumOf(values: seq<real>): real {
    if values == [] then 0.0 else values[0] + SumOf(values[1..])
  }

  /** The frame intervals as numbers, none negative. */
  predicate Intervals(values: seq<real>, intervals: seq<Float>) {
    |values| == |intervals| && forall i :: 0 <= i < |values| ==> intervals[i] == Finite(values[i]) && values[i] >= 0.0
  }

  /**
   A completed answer of a visible window, by the animation clock, that lasted as long as asked;
   unless it was a soak, its frames add up to 95 % of that at least, and to a second more than
   it lasted at most.
   */
  predicate Proves(r: Report, c: Command, values: seq<real>)
    requires c.durationMs.Finite?
  {
    && r.schemaVersion == "1.0.0" && r.id == c.id && r.operation == c.operation && r.completed
    && r.visibility == "visible" && r.frameClock == "requestAnimationFrame-performance.now"
    && r.durationMs.Finite? && r.durationMs.value >= c.durationMs.value
    && Intervals(values, r.frameIntervalsMs)
    && (c.operation != EditSoak ==> 0.95 * c.durationMs.value <= SumOf(values) <= r.durationMs.value + 1000.0)
  }

  lemma {:induction false} TotalIsSum(values: seq<real>, intervals: seq<Float>)
    requires Intervals(values, intervals)
    ensures Total(intervals) == SumOf(values)
  {
    if values != [] {
      assert forall i :: 0 <= i < |values| - 1 ==> values[1..][i] == values[i + 1] && intervals[1..][i] == intervals[i + 1];
      TotalIsSum(values[1..], intervals[1..]);
    }
  }

  lemma ValidReportIff(r: Report, c: Command)
    requires c.durationMs.Finite?
    ensures ValidReport(r, c) <==> exists values :: Proves(r, c, values)
  {
    if ValidReport(r, c) {
      var values := seq(|r.frameIntervalsMs|, i requires 0 <= i < |r.frameIntervalsMs| => r.frameIntervalsMs[i].value);
      TotalIsSum(values, r.frameIntervalsMs);
      assert Proves(r, c, values);
    }
    if values :| Proves(r, c, values) {
      TotalIsSum(values, r.frameIntervalsMs);
    }
  }

  /** A valid answer to a valid timed command saw at least one frame, and some of them took time. */
  lemma {:induction false} TimedReportHasFrames(r: Report, c: Command)
    requires ValidCommand(c) && ValidReport(r, c) && c.operation != EditSoak
    ensures exists i :: 0 <= i < |r.frameIntervalsMs| && r.frameIntervalsMs[i].Finite? && r.frameIntervalsMs[i].value > 0.0
  {
    assert Total(r.frameIntervalsMs) > 0.0;
    var i := PositiveInterval(r.frameIntervalsMs);
  }

  lemma {:induction false} PositiveInterval(intervals: seq<Float>) returns (i: nat)
    requires Total(intervals) > 0.0
    ensures i < |intervals| && intervals[i].Finite? && intervals[i].value > 0.0
    decreases intervals
  {
    if intervals[0].Finite? && intervals[0].value > 0.0 {
      i := 0;
    } else {
      var k := PositiveInterval(intervals[1..]);
      i := k + 1;
    }
  }

  // ---------------------------------------------------------------- the locked ledger

  datatype Ledger = Ledger(processed: set<string>, issued: map<string, Command>)

  function Registered(l: Ledger, c: Command): Ledger {
    if c.id in l.processed then l else Ledger(l.processed + {c.id}, l.issued[c.id := c])
  }

  /** What the mutex guards. Each method is one locked section. */
  class CommandLedger {
    var processed: set<string>
    var issued: map<string, Command>

    function View(): Ledger
      reads this
    {
      Ledger(processed, issued)
    }

    constructor ()
      ensures View() == Ledger({}, map[])
    {
      processed, issued := {}, map[];
    }

    /** Hands a command out unless its id was seen before. */
    method Register(c: Command) returns (out: Option<Command>)
      modifies this
      ensures View() == Registered(old(View()), c)
      ensures out == if c.id in old(processed) then None else Some(c)
    {
      if c.id in processed {
        return None;
      }
      processed := processed + {c.id};
      issued := issued[c.id := c];
      return Some(c);
    }

    /** The first section: what the report will be checked against. */
    method Look(id: string) returns (expected: Option<Command>)
      ensures expected == if id in issued then Some(issued[id]) else None
    {
      return if id in issued then Some(issued[id]) else None;
    }

    /** The second section: takes the command, unless someone else has. */
    method Take(id: string) returns (taken: bool)
      modifies this
      ensures taken == (id in old(issued))
      ensures View() == old(View()).(issued := old(issued) - {id})
    {
      taken := id in issued;
      issued := issued - {id};
    }

    /** The third section, after a failed publication. */
    method Restore(c: Command)
      modifies this
      ensures View() == old(View()).(issued := old(issued)[c.id := c])
    {
      issued := issued[c.id := c];
    }
  }

  // ---------------------------------------------------------------- the protocol

  /** Where a caller stands between two of its atomic steps. */
  datatype Phase =
    | Polled(command: Command)
    | Looking(report: Report)
    | Checking(report: Report, expected: Command)
    | Ready(report: Report, expected: Command)
    | Publishing(report: Report, expected: Command)
    | Restoring(expected: Command)
    | Finished

  type Caller = nat

  datatype State = State(
    ledger: Ledger,
    callers: map<Caller, Phase>,
    handedOut: seq<Command>,
    published: seq<(Report, Command)>)

  const START := State(Ledger({}, map[]), map[], [], [])

  datatype Step =
    | Poll(caller: Caller, command: Command)
    | Submit(caller: Caller, report: Report)
    | Continue(caller: Caller, written: bool)

  /** New callers appear with a read command or a report; old ones take their next step. */
  predicate Possible(s: State, step: Step) {
    if step.Continue? then step.caller in s.callers else step.caller !in s.callers
  }

  function Next(s: State, step: Step): State
    requires Possible(s, step)
  {
    match step
    case Poll(caller, command) =>
      s.(callers := s.callers[caller := if ValidCommand(command) then Polled(command) else Finished])
    case Submit(caller, report) => s.(callers := s.callers[caller := Looking(report)])
    case Continue(caller, written) => Advance(s, caller, s.callers[caller], written)
  }

  /** One atomic step of a caller; `written` is the answer of the publication, when it is the one to come. */
  function Advance(s: State, caller: Caller, phase: Phase, written: bool): State {
    match phase
    case Polled(command) =>
      s.(ledger := Registered(s.ledger, command),
         callers := s.callers[caller := Finished],
         handedOut := if command.id in s.ledger.processed then s.handedOut else s.handedOut + [command])
    case Looking(report) =>
      s.(callers := s.callers[caller :=
        if report.id in s.ledger.issued then Checking(report, s.ledger.issued[report.id]) else Finished])
    case Checking(report, expected) =>
      s.(callers := s.callers[caller := if ValidReport(report, expected) then Ready(report, expected) else Finished])
    case Ready(report, expected) =>
      if report.id in s.ledger.issued then
        s.(ledger := s.ledger.(issued := s.ledger.issued - {report.id}),
           callers := s.callers[caller := Publishing(report, expected)])
      else s.(callers := s.callers[caller := Finished])
    case Publishing(report, expected) =>
      if written then s.(callers := s.callers[caller := Finished], published := s.published + [(report, expected)])
      else s.(callers := s.callers[caller := Restoring(expected)])
    case Restoring(expected) =>
      s.(ledger := s.ledger.(issued := s.ledger.issued[expected.id := expected]),
         callers := s.callers[caller := Finished])
    case Finished => s
  }

  predicate IsRun(s: State, steps: seq<Step>)
    decreases |steps|
  {
    steps != [] ==> Possible(s, steps[0]) && IsRun(Next(s, steps[0]), steps[1..])
  }

  function Run(s: State, steps: seq<Step>): State
    requires IsRun(s, steps)
    decreases |steps|
  {
    if steps == [] then s else Run(Next(s, steps[0]), steps[1..])
  }

  // ---------------------------------------------------------------- the invariant

  /** The caller has taken a command and neither published it nor put it back. */
  predicate Holds(p: Phase) {
    p.Publishing? || p.Restoring?
  }

  function HeldIds(callers: map<Caller, Phase>): set<string> {
    set c | c in callers && Holds(callers[c]) :: callers[c].expected.id
  }

  function PublishedIds(published: seq<(Report, Command)>): set<string> {
    set k | 0 <= k < |published| :: published[k].1.id
  }

  ghost predicate OneHolder(callers: map<Caller, Phase>) {
    forall c, d :: c in callers && d in callers && Holds(callers[c]) && Holds(callers[d]) ==>
      callers[c].expected.id == callers[d].expected.id ==> c == d
  }

  ghost predicate OneAnswer(published: seq<(Report, Command)>) {
    forall i, j :: 0 <= i < j < |published| ==> published[i].1.id != published[j].1.id
  }

  /** Every processed id is issued, held or published, and only one of the three, once. */
  ghost predicate Balanced(s: State) {
    var issued, held, published := s.ledger.issued.Keys, HeldIds(s.callers), PublishedIds(s.published);
    && s.ledger.processed == issued + held + published
    && issued !! held && issued !! published && held !! published
    && OneHolder(s.callers) && OneAnswer(s.published)
  }

  /** No id is handed out twice, and every processed id was handed out. */
  ghost predicate HandedOutOnce(handedOut: seq<Command>, processed: set<string>) {
    && (forall i, j :: 0 <= i < j < |handedOut| ==> handedOut[i].id != handedOut[j].id)
    && (forall c :: c in handedOut ==> c.id in processed && ValidCommand(c))
    && (forall id :: id in processed ==> exists c :: c in handedOut && c.id == id)
  }

  /** Commands are the ones handed out, and reports were checked against them. */
  ghost predicate GenuinePhase(handedOut: seq<Command>, p: Phase) {
    match p
    case Polled(command) => ValidCommand(command)
    case Checking(report, expected) => expected in handedOut && report.id == expected.id
    case Ready(report, expected) => expected in handedOut && ValidReport(report, expected)
    case Publishing(report, expected) => expected in handedOut && ValidReport(report, expected)
    case Restoring(expected) => expected in handedOut
    case _ => true
  }

  ghost predicate GenuineIssued(handedOut: seq<Command>, issued: map<string, Command>) {
    forall id :: id in issued ==> issued[id].id == id && issued[id] in handedOut
  }

  ghost predicate GenuineCallers(handedOut: seq<Command>, callers: map<Caller, Phase>) {
    forall c :: c in callers ==> GenuinePhase(handedOut, callers[c])
  }

  ghost predicate GenuinePublished(handedOut: seq<Command>, published: seq<(Report, Command)>) {
    forall k :: 0 <= k < |published| ==> published[k].1 in handedOut && ValidReport(published[k].0, published[k].1)
  }

  ghost predicate Genuine(s: State) {
    && GenuineIssued(s.handedOut, s.ledger.issued)
    && GenuineCallers(s.handedOut, s.callers)
    && GenuinePublished(s.handedOut, s.published)
  }

  ghost predicate Inv(s: State) {
    HandedOutOnce(s.handedOut, s.ledger.processed) && Genuine(s) && Balanced(s)
  }

  /** The id names one command for good. */
  lemma OneCommandPerId(handedOut: seq<Command>, processed: set<string>, a: Command, b: Command)
    requires HandedOutOnce(handedOut, processed) && a in handedOut && b in handedOut && a.id == b.id
    ensures a == b
  {
    var i :| 0 <= i < |handedOut| && handedOut[i] == a;
    var j :| 0 <= j < |handedOut| && handedOut[j] == b;
    assert i == j;
  }

  // ---------------------------------------------------------------- who holds what

  lemma HoldNothingNew(callers: map<Caller, Phase>, caller: Caller, phase: Phase)
    requires OneHolder(callers) && !Holds(phase) && (caller in callers ==> !Holds(callers[caller]))
    ensures HeldIds(callers[caller := phase]) == HeldIds(callers) && OneHolder(callers[caller := phase])
  {
    var after := callers[caller := phase];
    forall id | id in HeldIds(callers)
      ensures id in HeldIds(after)
    {
      var c :| c in callers && Holds(callers[c]) && callers[c].expected.id == id;
      assert after[c] == callers[c];
    }
  }

  lemma HoldMore(callers: map<Caller, Phase>, caller: Caller, phase: Phase)
    requires OneHolder(callers) && Holds(phase) && phase.expected.id !in HeldIds(callers)
    requires caller in callers && !Holds(callers[caller])
    ensures HeldIds(callers[caller := phase]) == HeldIds(callers) + {phase.expected.id}
    ensures OneHolder(callers[caller := phase])
  {
    var after := callers[caller := phase];
    assert after[caller] == phase;
    forall id | id in HeldIds(callers)
      ensures id in HeldIds(after)
    {
      var c :| c in callers && Holds(callers[c]) && callers[c].expected.id == id;
      assert after[c] == callers[c];
    }
    forall c | c in callers && Holds(callers[c])
      ensures callers[c].expected.id != phase.expected.id
    {
      assert callers[c].expected.id in HeldIds(callers);
    }
  }

  lemma HoldLess(callers: map<Caller, Phase>, caller: Caller, phase: Phase)
    requires OneHolder(callers) && !Holds(phase) && caller in callers && Holds(callers[caller])
    ensures HeldIds(callers[caller := phase]) == HeldIds(callers) - {callers[caller].expected.id}
    ensures OneHolder(callers[caller := phase])
  {
    var after := callers[caller := phase];
    forall id | id in HeldIds(callers) && id != callers[caller].expected.id
      ensures id in HeldIds(after)
    {
      var c :| c in callers && Holds(callers[c]) && callers[c].expected.id == id;
      assert after[c] == callers[c];
    }
  }

  lemma HoldTheSame(callers: map<Caller, Phase>, caller: Caller, phase: Phase)
    requires OneHolder(callers) && Holds(phase) && caller in callers && Holds(callers[caller])
    requires phase.expected == callers[caller].expected
    ensures HeldIds(callers[caller := phase]) == HeldIds(callers) && OneHolder(callers[caller := phase])
  {
    var after := callers[caller := phase];
    forall id | id in HeldIds(callers)
      ensures id in HeldIds(after)
    {
      var c :| c in callers && Holds(callers[c]) && callers[c].expected.id == id;
      assert Holds(after[c]) && after[c].expected == callers[c].expected;
    }
    forall id | id in HeldIds(after)
      ensures id in HeldIds(callers)
    {
      var c :| c in after && Holds(after[c]) && after[c].expected.id == id;
      assert Holds(callers[c]) && after[c].expected == callers[c].expected;
    }
  }

  lemma PublishMore(published: seq<(Report, Command)>, answer: (Report, Command))
    requires OneAnswer(published) && answer.1.id !in PublishedIds(published)
    ensures PublishedIds(published + [answer]) == PublishedIds(published) + {answer.1.id}
    ensures OneAnswer(published + [answer])
  {
    var after := published + [answer];
    assert after[|published|] == answer;
    forall k | 0 <= k < |published|
      ensures published[k].1.id in PublishedIds(published) && after[k] == published[k]
    {
    }
    assert PublishedIds(after) <= PublishedIds(published) + {answer.1.id};
    forall id | id in PublishedIds(published)
      ensures id in PublishedIds(after)
    {
      var k :| 0 <= k < |published| && published[k].1.id == id;
      assert after[k].1.id == id;
    }
  }

  // ---------------------------------------------------------------- each step

  /** A step between phases in which the caller holds nothing. */
  lemma MoveKeepsInv(s: State, caller: Caller, phase: Phase)
    requires Inv(s) && GenuinePhase(s.handedOut, phase) && !Holds(phase)
    requires caller in s.callers ==> !Holds(s.callers[caller])
    ensures Inv(s.(callers := s.callers[caller := phase]))
  {
    HoldNothingNew(s.callers, caller, phase);
    assert GenuineCallers(s.handedOut, s.callers[caller := phase]);
  }

  lemma HandOutMore(handedOut: seq<Command>, processed: set<string>, c: Command)
    requires HandedOutOnce(handedOut, processed) && ValidCommand(c) && c.id !in processed
    ensures HandedOutOnce(handedOut + [c], processed + {c.id})
  {
    var after := handedOut + [c];
    assert after[|handedOut|] == c;
    forall i | 0 <= i < |handedOut|
      ensures after[i] == handedOut[i] && handedOut[i].id in processed
    {
      assert handedOut[i] in handedOut;
    }
    forall id | id in processed + {c.id}
      ensures exists d :: d in after && d.id == id
    {
      if id in processed {
        var d :| d in handedOut && d.id == id;
        assert d in after;
      } else {
        assert c in after;
      }
    }
  }

  lemma GenuineGrows(s: State, c: Command)
    requires Genuine(s)
    ensures Genuine(s.(handedOut := s.handedOut + [c]))
  {
    var after := s.handedOut + [c];
    assert forall d :: d in s.handedOut ==> d in after;
    forall x | x in s.callers
      ensures GenuinePhase(after, s.callers[x])
    {
      assert GenuinePhase(s.handedOut, s.callers[x]);
    }
  }

  lemma RegisterKeepsInv(s: State, caller: Caller)
    requires Inv(s) && caller in s.callers && s.callers[caller].Polled?
    ensures Inv(Advance(s, caller, s.callers[caller], true))
  {
    var command := s.callers[caller].command;
    assert GenuinePhase(s.handedOut, s.callers[caller]);
    MoveKeepsInv(s, caller, Finished);
    if command.id !in s.ledger.processed {
      HandOutMore(s.handedOut, s.ledger.processed, command);
      var m := s.(callers := s.callers[caller := Finished]);
      GenuineGrows(m, command);
      var t := Advance(s, caller, s.callers[caller], true);
      assert t.ledger.issued.Keys == s.ledger.issued.Keys + {command.id};
      assert command in t.handedOut;
      assert GenuineIssued(t.handedOut, t.ledger.issued);
    }
  }

  lemma TakeKeepsInv(s: State, caller: Caller)
    requires Inv(s) && caller in s.callers && s.callers[caller].Ready?
    requires s.callers[caller].report.id in s.ledger.issued
    ensures Inv(Advance(s, caller, s.callers[caller], true))
    ensures s.ledger.issued[s.callers[caller].report.id] == s.callers[caller].expected
  {
    var p := s.callers[caller];
    assert GenuinePhase(s.handedOut, p);
    OneCommandPerId(s.handedOut, s.ledger.processed, p.expected, s.ledger.issued[p.report.id]);
    HoldMore(s.callers, caller, Publishing(p.report, p.expected));
    var t := Advance(s, caller, p, true);
    assert t.ledger.issued.Keys == s.ledger.issued.Keys - {p.report.id};
    assert GenuineCallers(t.handedOut, t.callers);
  }

  lemma PublishKeepsInv(s: State, caller: Caller, written: bool)
    requires Inv(s) && caller in s.callers && s.callers[caller].Publishing?
    ensures Inv(Advance(s, caller, s.callers[caller], written))
  {
    var p := s.callers[caller];
    assert GenuinePhase(s.handedOut, p) && p.expected.id in HeldIds(s.callers);
    var t := Advance(s, caller, p, written);
    if written {
      HoldLess(s.callers, caller, Finished);
      PublishMore(s.published, (p.report, p.expected));
      assert GenuinePublished(t.handedOut, t.published);
    } else {
      HoldTheSame(s.callers, caller, Restoring(p.expected));
    }
    assert GenuineCallers(t.handedOut, t.callers);
  }

  /** Putting the command back overwrites nothing. */
  lemma RestoreKeepsInv(s: State, caller: Caller)
    requires Inv(s) && caller in s.callers && s.callers[caller].Restoring?
    ensures s.callers[caller].expected.id !in s.ledger.issued
    ensures Inv(Advance(s, caller, s.callers[caller], true))
  {
    var p := s.callers[caller];
    assert GenuinePhase(s.handedOut, p) && p.expected.id in HeldIds(s.callers);
    HoldLess(s.callers, caller, Finished);
    var t := Advance(s, caller, p, true);
    assert t.ledger.issued.Keys == s.ledger.issued.Keys + {p.expected.id};
    assert GenuineCallers(t.handedOut, t.callers);
  }

  lemma ContinueKeepsInv(s: State, caller: Caller, written: bool)
    requires Inv(s) && caller in s.callers
    ensures Inv(Advance(s, caller, s.callers[caller], written))
  {
    var p := s.callers[caller];
    assert GenuinePhase(s.handedOut, p);
    match p
    case Polled(_) => RegisterKeepsInv(s, caller);
    case Looking(report) =>
      MoveKeepsInv(s, caller,
        if report.id in s.ledger.issued then Checking(report, s.ledger.issued[report.id]) else Finished);
    case Checking(report, expected) =>
      MoveKeepsInv(s, caller, if ValidReport(report, expected) then Ready(report, expected) else Finished);
    case Ready(report, expected) =>
      if report.id in s.ledger.issued {
        TakeKeepsInv(s, caller);
      } else {
        MoveKeepsInv(s, caller, Finished);
      }
    case Publishing(_, _) => PublishKeepsInv(s, caller, written);
    case Restoring(_) => RestoreKeepsInv(s, caller);
    case Finished =>
  }

  lemma StepKeepsInv(s: State, step: Step)
    requires Inv(s) && Possible(s, step)
    ensures Inv(Next(s, step))
  {
    match step
    case Poll(caller, command) => MoveKeepsInv(s, caller, if ValidCommand(command) then Polled(command) else Finished);
    case Submit(caller, report) => MoveKeepsInv(s, caller, Looking(report));
    case Continue(caller, written) => ContinueKeepsInv(s, caller, written);
  }

  lemma {:induction false} RunKeepsInv(s: State, steps: seq<Step>)
    requires Inv(s) && IsRun(s, steps)
    ensures Inv(Run(s, steps))
    decreases |steps|
  {
    if steps != [] {
      StepKeepsInv(s, steps[0]);
      RunKeepsInv(Next(s, steps[0]), steps[1..]);
    }
  }

  // ---------------------------------------------------------------- main results

  /**
   Under every interleaving of pollers and publishers the processed ids are exactly
   partitioned into issued, held in flight, and published; no two callers hold one
   id, and no id is published twice.
   */
  lemma ProcessedIdsArePartitioned(steps: seq<Step>)
    requires IsRun(START, steps)
    ensures Balanced(Run(START, steps))
  {
    RunKeepsInv(START, steps);
  }

  /**
   Each id is handed out at most once and answered at most once, by a report that
   was checked against the very command handed out.
   */
  lemma AnswersMatchTheCommandHandedOut(steps: seq<Step>, i: nat, k: nat)
    requires IsRun(START, steps)
    requires i < |Run(START, steps).handedOut| && k < |Run(START, steps).published|
    requires Run(START, steps).published[k].0.id == Run(START, steps).handedOut[i].id
    ensures
      var s := Run(START, steps);
      && ValidCommand(s.handedOut[i])
      && ValidReport(s.published[k].0, s.handedOut[i])
      && (forall j :: 0 <= j < |s.handedOut| && j != i ==> s.handedOut[j].id != s.handedOut[i].id)
      && (forall j :: 0 <= j < |s.published| && j != k ==> s.published[j].0.id != s.published[k].0.id)
  {
    RunKeepsInv(START, steps);
    var s := Run(START, steps);
    assert s.handedOut[i] in s.handedOut;
    OneCommandPerId(s.handedOut, s.ledger.processed, s.published[k].1, s.handedOut[i]);
    forall j | 0 <= j < |s.published|
      ensures s.published[j].0.id == s.published[j].1.id
    {
      assert ValidReport(s.published[j].0, s.published[j].1);
    }
  }

  /** In every run a published answer to a timed command saw a frame that took time. */
  lemma PublishedTimedReportsHaveFrames(steps: seq<Step>, k: nat)
    requires IsRun(START, steps) && k < |Run(START, steps).published|
    requires Run(START, steps).published[k].1.operation != EditSoak
    ensures
      var intervals := Run(START, steps).published[k].0.frameIntervalsMs;
      exists i :: 0 <= i < |intervals| && intervals[i].Finite? && intervals[i].value > 0.0
  {
    RunKeepsInv(START, steps);
    var answer := Run(START, steps).published[k];
    TimedReportHasFrames(answer.0, answer.1);
  }

  /**
   A failed publication restores the command that was handed out and overwrites
   nothing, however often the entry was taken and put back in the meantime.
   */
  lemma FailedPublicationRestores(steps: seq<Step>, caller: Caller, written: bool)
    requires IsRun(START, steps)
    requires caller in Run(START, steps).callers && Run(START, steps).callers[caller].Restoring?
    ensures
      var s := Run(START, steps);
      var command := s.callers[caller].expected;
      && command in s.handedOut
      && command.id !in s.ledger.issued
      && Next(s, Continue(caller, written)).ledger.issued == s.ledger.issued[command.id := command]
  {
    RunKeepsInv(START, steps);
    var s := Run(START, steps);
    assert GenuinePhase(s.handedOut, s.callers[caller]);
    assert s.callers[caller].expected.id in HeldIds(s.callers);
  }

  /** With nobody in flight, what was handed out and not answered is still issued, as handed out. */
  lemma NothingIsLostAtRest(steps: seq<Step>, c: Command)
    requires IsRun(START, steps) && c in Run(START, steps).handedOut
    requires forall x :: x in Run(START, steps).callers ==> Run(START, steps).callers[x].Finished?
    ensures
      var s := Run(START, steps);
      c.id !in PublishedIds(s.published) <==> c.id in s.ledger.issued && s.ledger.issued[c.id] == c
  {
    RunKeepsInv(START, steps);
    var s := Run(START, steps);
    assert HeldIds(s.callers) == {};
    if c.id in s.ledger.issued {
      OneCommandPerId(s.handedOut, s.ledger.processed, c, s.ledger.issued[c.id]);
    }
  }

  // ---------------------------------------------------------------- what each step was for

  /**
   The write decides. A successful one publishes exactly the report in hand and restores
   nothing; a failed one publishes nothing, and the caller's next step puts back the
   command that was handed out.
   */
  lemma WriteDecides(steps: seq<Step>, caller: Caller, ignored: bool)
    requires IsRun(START, steps)
    requires caller in Run(START, steps).callers && Run(START, steps).callers[caller].Publishing?
    ensures
      var s := Run(START, steps);
      var p := s.callers[caller];
      var written, failed := Next(s, Continue(caller, true)), Next(s, Continue(caller, false));
      && written.published == s.published + [(p.report, p.expected)] && written.ledger == s.ledger
      && failed.published == s.published && failed.ledger == s.ledger
      && caller in failed.callers
      && var restored := Next(failed, Continue(caller, ignored));
         && restored.published == s.published
         && restored.ledger.processed == s.ledger.processed
         && p.expected.id !in s.ledger.issued
         && restored.ledger.issued == s.ledger.issued[p.expected.id := p.expected]
  {
    RunKeepsInv(START, steps);
    var s := Run(START, steps);
    StepKeepsInv(s, Continue(caller, false));
    assert s.callers[caller].expected.id in HeldIds(s.callers);
  }

  /** The step is a write that succeeds. */
  predicate IsWrite(s: State, step: Step) {
    step.Continue? && step.written && step.caller in s.callers && s.callers[step.caller].Publishing?
  }

  /** The successful writes of a run, in order. */
  function Writes(s: State, steps: seq<Step>): nat
    requires IsRun(s, steps)
    decreases |steps|
  {
    if steps == [] then 0 else (if IsWrite(s, steps[0]) then 1 else 0) + Writes(Next(s, steps[0]), steps[1..])
  }

  lemma {:induction false} PublishedPerWrite(s: State, steps: seq<Step>)
    requires IsRun(s, steps)
    ensures |Run(s, steps).published| == |s.published| + Writes(s, steps)
    decreases |steps|
  {
    if steps != [] {
      PublishedPerWrite(Next(s, steps[0]), steps[1..]);
    }
  }

  /** In every run there is one published answer for each successful write. */
  lemma OneAnswerPerWrite(steps: seq<Step>)
    requires IsRun(START, steps)
    ensures |Run(START, steps).published| == Writes(START, steps)
  {
    PublishedPerWrite(START, steps);
  }

  /** What a phase carries was read from the command file or submitted. */
  ghost predicate Sourced(steps: seq<Step>, handedOut: seq<Command>, p: Phase, caller: Caller) {
    && (p.Polled? ==> Poll(caller, p.command) in steps)
    && (p.Looking? || p.Checking? || p.Ready? || p.Publishing? ==> Submit(caller, p.report) in steps)
  }

  ghost predicate AllSourced(steps: seq<Step>, s: State) {
    && (forall c :: c in s.callers ==> Sourced(steps, s.handedOut, s.callers[c], c))
    && (forall c :: c in s.handedOut ==> exists caller :: Poll(caller, c) in steps)
    && (forall a :: a in s.published ==> exists caller :: Submit(caller, a.0) in steps)
  }

  lemma StepKeepsSourced(all: seq<Step>, s: State, step: Step)
    requires AllSourced(all, s) && Possible(s, step) && step in all
    ensures AllSourced(all, Next(s, step))
  {
    var t := Next(s, step);
    if step.Continue? {
      assert Sourced(all, s.handedOut, s.callers[step.caller], step.caller);
    }
    forall c | c in t.callers
      ensures Sourced(all, t.handedOut, t.callers[c], c)
    {
      if c in s.callers {
        assert Sourced(all, s.handedOut, s.callers[c], c);
      }
    }
  }

  lemma {:induction false} RunKeepsSourced(all: seq<Step>, s: State, steps: seq<Step>)
    requires AllSourced(all, s) && IsRun(s, steps) && forall step :: step in steps ==> step in all
    ensures AllSourced(all, Run(s, steps))
    decreases |steps|
  {
    if steps != [] {
      StepKeepsSourced(all, s, steps[0]);
      RunKeepsSourced(all, Next(s, steps[0]), steps[1..]);
    }
  }

  /** In every run what was handed out had been read from the command file, and what was published had been submitted. */
  lemma NothingIsInvented(steps: seq<Step>)
    requires IsRun(START, steps)
    ensures
      var s := Run(START, steps);
      && (forall c :: c in s.handedOut ==> exists caller :: Poll(caller, c) in steps)
      && (forall a :: a in s.published ==> exists caller :: Submit(caller, a.0) in steps)
  {
    RunKeepsSourced(steps, START, steps);
  }

  /** A poll by itself hands out what it read if and only if the command is valid and its id is new. */
  lemma PollHandsOutIff(steps: seq<Step>, caller: Caller, command: Command, ignored: bool)
    requires IsRun(START, steps) && caller !in Run(START, steps).callers
    ensures
      var s := Run(START, steps);
      var read := Next(s, Poll(caller, command));
      var after := Next(read, Continue(caller, ignored));
      if ValidCommand(command) && command.id !in s.ledger.processed then
        && after.handedOut == s.handedOut + [command]
        && after.ledger == Ledger(s.ledger.processed + {command.id}, s.ledger.issued[command.id := command])
      else after.handedOut == s.handedOut && after.ledger == s.ledger
  {
  }

  /** In every run a published answer proves the window asked for by the command that was handed out. */
  lemma PublishedAnswersProve(steps: seq<Step>, k: nat)
    requires IsRun(START, steps) && k < |Run(START, steps).published|
    ensures
      var s := Run(START, steps);
      var (report, command) := s.published[k];
      && command in s.handedOut && command.durationMs.Finite? && command.durationMs.value > 0.0
      && exists values :: Proves(report, command, values)
  {
    RunKeepsInv(START, steps);
    var s := Run(START, steps);
    ValidReportIff(s.published[k].0, s.published[k].1);
  }

  /** A report submitted and carried through without interruption. */
  function Answered(s: State, caller: Caller, report: Report): State
    requires caller !in s.callers
  {
    var looked := Next(Next(s, Submit(caller, report)), Continue(caller, true));
    Next(Next(Next(looked, Continue(caller, true)), Continue(caller, true)), Continue(caller, true))
  }

  /** It is published if and only if it is valid for an issued command; otherwise nothing changes. */
  lemma AnswerPublishedIff(steps: seq<Step>, caller: Caller, report: Report)
    requires IsRun(START, steps) && caller !in Run(START, steps).callers
    ensures
      var s := Run(START, steps);
      var after := Answered(s, caller, report);
      if report.id in s.ledger.issued && ValidReport(report, s.ledger.issued[report.id]) then
        && after.published == s.published + [(report, s.ledger.issued[report.id])]
        && after.ledger == s.ledger.(issued := s.ledger.issued - {report.id})
      else after.published == s.published && after.ledger == s.ledger
  {
  }
}
