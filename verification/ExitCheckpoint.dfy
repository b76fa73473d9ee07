/**
 Attempts to close a window, the user's and those of peers, each behind a checkpoint
 (src/app/exitCheckpoint.ts). Every `await` ends a step, and any number of attempts
 overlap.
 */
module ExitCheckpoint {
  import opened Options

  type Attempt = nat

  datatype Kind = Native | Peer(requestId: string)

  datatype Observation =
    | Checkpointed(attempt: Attempt)
    | CheckpointFailed(attempt: Attempt)
    | DestroyCalled(attempt: Attempt)
    | Destroyed(attempt: Attempt)
    | DestroyFailed(attempt: Attempt)
    | ReportedFailed(attempt: Attempt)
    | ClosedUnprevented(attempt: Attempt)

  /** Where an attempt stands; `tried` says whether `destroy` was called. */
  datatype Phase =
    | Checkpointing
    | Destroying
    | Gone
    | Failed(tried: bool)
    | Reported(tried: bool)
    | LetThrough
    | Ignored

  datatype Progress = Progress(kind: Kind, phase: Phase)

  datatype State = State(destroying: bool, attempts: map<Attempt, Progress>, log: seq<Observation>)

  const START := State(false, map[], [])

  datatype Step =
    | Begin(attempt: Attempt, kind: Kind)
    | CheckpointSettles(attempt: Attempt, ok: bool)
    | DestroySettles(attempt: Attempt, ok: bool)
    | Report(attempt: Attempt)

  predicate At(s: State, a: Attempt, phase: Phase) {
    a in s.attempts && s.attempts[a].phase == phase
  }

  predicate MayReport(s: State, a: Attempt) {
    a in s.attempts && s.attempts[a].phase.Failed? && s.attempts[a].kind.Peer?
  }

  predicate Possible(s: State, step: Step) {
    match step
    case Begin(a, _) => a !in s.attempts
    case CheckpointSettles(a, _) => At(s, a, Checkpointing)
    case DestroySettles(a, _) => At(s, a, Destroying)
    case Report(a) => MayReport(s, a)
  }

  function Moved(s: State, a: Attempt, phase: Phase, seen: seq<Observation>): State
    requires a in s.attempts
  {
    s.(attempts := s.attempts[a := Progress(s.attempts[a].kind, phase)], log := s.log + seen)
  }

  function Next(s: State, step: Step): State
    requires Possible(s, step)
  {
    match step
    case Begin(a, kind) =>
      var begun := s.(attempts := s.attempts[a := Progress(kind, Checkpointing)]);
      if !s.destroying then begun
      else if kind.Native? then Moved(begun, a, LetThrough, [ClosedUnprevented(a)])
      else Moved(begun, a, Ignored, [])
    case CheckpointSettles(a, ok) =>
      if ok then Moved(s, a, Destroying, [Checkpointed(a), DestroyCalled(a)]).(destroying := true)
      else Moved(s, a, Failed(false), [CheckpointFailed(a)])
    case DestroySettles(a, ok) =>
      if ok then Moved(s, a, Gone, [Destroyed(a)]) else Moved(s, a, Failed(true), [DestroyFailed(a)])
    case Report(a) => Moved(s, a, Reported(s.attempts[a].phase.tried), [ReportedFailed(a)])
  }

  predicate IsRun(s: State, steps: seq<Step>)
    decreases |steps|
  {
    steps != [] ==> Possible(s, steps[0]) && IsRun(Next(s, steps[0]), steps[1..])
  }

  function Run(s: State, steps: seq<Step>): State
    requires IsRun(s, steps)
    decreases |steps|
  {
    if steps == [] then s else Run(Next(s, steps[0]), steps[1..])
  }

  // ---------------------------------------------------------------- the handlers in place

  class ExitGuard {
    var destroying: bool
    var attempts: map<Attempt, Progress>
    var log: seq<Observation>

    constructor ()
      ensures View() == START
    {
      destroying, attempts, log := false, map[], [];
    }

    function View(): State
      reads this
    {
      State(destroying, attempts, log)
    }

    /** The close-requested handler up to its first `await`. */
    method OnCloseRequested(a: Attempt) returns (prevented: bool)
      requires a !in attempts
      modifies this
      ensures View() == Next(old(View()), Begin(a, Native)) && prevented == !old(destroying)
    {
      if destroying {
        attempts := attempts[a := Progress(Native, LetThrough)];
        log := log + [ClosedUnprevented(a)];
        return false;
      }
      attempts := attempts[a := Progress(Native, Checkpointing)];
      return true;
    }

    /** The peer's request up to its first `await`. */
    method OnPeerRequest(a: Attempt, requestId: string)
      requires a !in attempts
      modifies this
      ensures View() == Next(old(View()), Begin(a, Peer(requestId)))
    {
      attempts := attempts[a := Progress(Peer(requestId), if destroying then Ignored else Checkpointing)];
    }

    method AfterCheckpoint(a: Attempt, ok: bool)
      requires At(View(), a, Checkpointing)
      modifies this
      ensures View() == Next(old(View()), CheckpointSettles(a, ok))
      ensures log == old(log) + if ok then [Checkpointed(a), DestroyCalled(a)] else [CheckpointFailed(a)]
      ensures destroying == (old(destroying) || ok)
    {
      var kind := attempts[a].kind;
      if ok {
        destroying := true;
        attempts := attempts[a := Progress(kind, Destroying)];
        log := log + [Checkpointed(a), DestroyCalled(a)];
      } else {
        attempts := attempts[a := Progress(kind, Failed(false))];
        log := log + [CheckpointFailed(a)];
      }
    }

    method AfterDestroy(a: Attempt, ok: bool)
      requires At(View(), a, Destroying)
      modifies this
      ensures View() == Next(old(View()), DestroySettles(a, ok))
      ensures log == old(log) + [if ok then Destroyed(a) else DestroyFailed(a)] && destroying == old(destroying)
    {
      var kind := attempts[a].kind;
      attempts := attempts[a := Progress(kind, if ok then Gone else Failed(true))];
      log := log + [if ok then Destroyed(a) else DestroyFailed(a)];
    }

    method AfterFailedClose(a: Attempt)
      requires MayReport(View(), a)
      modifies this
      ensures View() == Next(old(View()), Report(a))
    {
      attempts := attempts[a := Progress(attempts[a].kind, Reported(attempts[a].phase.tried))];
      log := log + [ReportedFailed(a)];
    }
  }

  // ---------------------------------------------------------------- the invariant

  /** What the log says of one attempt. */
  function Of(log: seq<Observation>, a: Attempt): seq<Observation> {
    if log == [] then []
    else Of(log[..|log| - 1], a) + if log[|log| - 1].attempt == a then [log[|log| - 1]] else []
  }

  lemma {:induction false} OfAppends(log: seq<Observation>, seen: seq<Observation>, a: Attempt)
    ensures Of(log + seen, a) == Of(log, a) + Of(seen, a)
  {
    if seen == [] {
      assert log + [] == log;
    } else {
      var before, last := seen[..|seen| - 1], seen[|seen| - 1];
      OfAppends(log, before, a);
      assert (log + seen)[..|log + seen| - 1] == log + before;
    }
  }

  lemma {:induction false} OfOwn(seen: seq<Observation>, a: Attempt, b: Attempt)
    requires forall o :: o in seen ==> o.attempt == a
    ensures Of(seen, b) == if a == b then seen else []
  {
    if seen != [] {
      OfOwn(seen[..|seen| - 1], a, b);
      assert seen == seen[..|seen| - 1] + [seen[|seen| - 1]];
    }
  }

  /** The failure that was seen, after what led to it. */
  function Failure(a: Attempt, tried: bool): seq<Observation> {
    if tried then [Checkpointed(a), DestroyCalled(a), DestroyFailed(a)] else [CheckpointFailed(a)]
  }

  /** The whole story of an attempt, from where it stands. */
  function Story(a: Attempt, phase: Phase): seq<Observation> {
    match phase
    case Checkpointing => []
    case Destroying => [Checkpointed(a), DestroyCalled(a)]
    case Gone => [Checkpointed(a), DestroyCalled(a), Destroyed(a)]
    case Failed(tried) => Failure(a, tried)
    case Reported(tried) => Failure(a, tried) + [ReportedFailed(a)]
    case LetThrough => [ClosedUnprevented(a)]
    case Ignored => []
  }

  predicate Fits(p: Progress) {
    && (p.phase.Reported? || p.phase.Ignored? ==> p.kind.Peer?)
    && (p.phase.LetThrough? ==> p.kind.Native?)
  }

  ghost predicate StoriesHold(s: State) {
    forall a :: Of(s.log, a) == if a in s.attempts then Story(a, s.attempts[a].phase) else []
  }

  ghost predicate Succeeded(log: seq<Observation>) {
    exists o :: o in log && o.Checkpointed?
  }

  ghost predicate ClosesCovered(log: seq<Observation>) {
    forall i :: 0 <= i < |log| && log[i].ClosedUnprevented? ==> Succeeded(log[..i])
  }

  ghost predicate Inv(s: State) {
    && StoriesHold(s)
    && (forall a :: a in s.attempts ==> Fits(s.attempts[a]))
    && (s.destroying <==> Succeeded(s.log))
    && ClosesCovered(s.log)
  }

  lemma CoveredAppends(log: seq<Observation>, seen: seq<Observation>)
    requires ClosesCovered(log)
    requires forall o :: o in seen && o.ClosedUnprevented? ==> Succeeded(log)
    ensures ClosesCovered(log + seen)
    ensures Succeeded(log + seen) <==> Succeeded(log) || exists o :: o in seen && o.Checkpointed?
  {
    var after := log + seen;
    forall o | o in log
      ensures o in after
    {
    }
    if o :| o in seen && o.Checkpointed? {
      assert o in after;
    }
    forall i | 0 <= i < |after| && after[i].ClosedUnprevented?
      ensures Succeeded(after[..i])
    {
      if i < |log| {
        assert after[..i] == log[..i];
      } else {
        assert after[i] in seen;
        var o :| o in log && o.Checkpointed?;
        assert after[..i][..|log|] == log;
        assert o in after[..i];
      }
    }
  }

  /** A move that continues the attempt's story keeps the invariant. */
  lemma MoveKeepsInv(s: State, a: Attempt, phase: Phase, seen: seq<Observation>, destroying: bool)
    requires Inv(s) && a in s.attempts && Fits(Progress(s.attempts[a].kind, phase))
    requires forall o :: o in seen ==> o.attempt == a && (o.ClosedUnprevented? ==> s.destroying)
    requires Story(a, phase) == Story(a, s.attempts[a].phase) + seen
    requires destroying <==> s.destroying || exists o :: o in seen && o.Checkpointed?
    ensures Inv(Moved(s, a, phase, seen).(destroying := destroying))
  {
    MoveKeepsStories(s, a, phase, seen);
    CoveredAppends(s.log, seen);
  }

  lemma MoveKeepsStories(s: State, a: Attempt, phase: Phase, seen: seq<Observation>)
    requires StoriesHold(s) && a in s.attempts
    requires forall o :: o in seen ==> o.attempt == a
    requires Story(a, phase) == Story(a, s.attempts[a].phase) + seen
    ensures StoriesHold(Moved(s, a, phase, seen))
  {
    var t := Moved(s, a, phase, seen);
    forall b
      ensures Of(t.log, b) == if b in t.attempts then Story(b, t.attempts[b].phase) else []
    {
      OfAppends(s.log, seen, b);
      OfOwn(seen, a, b);
    }
  }

  lemma BeginKeepsInv(s: State, a: Attempt, kind: Kind)
    requires Inv(s) && a !in s.attempts
    ensures Inv(Next(s, Begin(a, kind)))
  {
    var begun := s.(attempts := s.attempts[a := Progress(kind, Checkpointing)]);
    assert Inv(begun);
    if s.destroying {
      if kind.Native? {
        MoveKeepsInv(begun, a, LetThrough, [ClosedUnprevented(a)], true);
      } else {
        MoveKeepsInv(begun, a, Ignored, [], true);
      }
    }
  }

  lemma SuccessKeepsInv(s: State, a: Attempt)
    requires Inv(s) && At(s, a, Checkpointing)
    ensures Inv(Next(s, CheckpointSettles(a, true)))
  {
    var seen := [Checkpointed(a), DestroyCalled(a)];
    assert seen[0] in seen;
    MoveKeepsInv(s, a, Destroying, seen, true);
  }

  lemma FailureKeepsInv(s: State, a: Attempt)
    requires Inv(s) && At(s, a, Checkpointing)
    ensures Inv(Next(s, CheckpointSettles(a, false)))
  {
    MoveKeepsInv(s, a, Failed(false), [CheckpointFailed(a)], s.destroying);
  }

  lemma DestroyKeepsInv(s: State, a: Attempt, ok: bool)
    requires Inv(s) && At(s, a, Destroying)
    ensures Inv(Next(s, DestroySettles(a, ok)))
  {
    if ok {
      MoveKeepsInv(s, a, Gone, [Destroyed(a)], s.destroying);
    } else {
      MoveKeepsInv(s, a, Failed(true), [DestroyFailed(a)], s.destroying);
    }
  }

  lemma StepKeepsInv(s: State, step: Step)
    requires Inv(s) && Possible(s, step)
    ensures Inv(Next(s, step))
  {
    match step
    case Begin(a, kind) => BeginKeepsInv(s, a, kind);
    case CheckpointSettles(a, ok) =>
      if ok {
        SuccessKeepsInv(s, a);
      } else {
        FailureKeepsInv(s, a);
      }
    case DestroySettles(a, ok) => DestroyKeepsInv(s, a, ok);
    case Report(a) => MoveKeepsInv(s, a, Reported(s.attempts[a].phase.tried), [ReportedFailed(a)], s.destroying);
  }

  lemma {:induction false} RunKeepsInv(s: State, steps: seq<Step>)
    requires Inv(s) && IsRun(s, steps)
    ensures Inv(Run(s, steps))
    decreases |steps|
  {
    if steps != [] {
      StepKeepsInv(s, steps[0]);
      RunKeepsInv(Next(s, steps[0]), steps[1..]);
    }
  }

  // ---------------------------------------------------------------- main results

  /**
   In every run each attempt's story is one of these: `destroy` is called at most once
   per attempt and right after that attempt's own successful checkpoint; a failure is
   reported at most once, only for a peer, and only after that attempt's own failure.
   */
  lemma EveryAttemptKeepsTheProtocol(steps: seq<Step>, a: Attempt)
    requires IsRun(START, steps) && a in Run(START, steps).attempts
    ensures
      var s := Run(START, steps);
      var story := Of(s.log, a);
      var tries := [Checkpointed(a), DestroyCalled(a)];
      var failures := {[CheckpointFailed(a)], tries + [DestroyFailed(a)]};
      && (story in {[], tries, tries + [Destroyed(a)]} || story in failures
          || (s.attempts[a].kind.Native? && story == [ClosedUnprevented(a)])
          || (s.attempts[a].kind.Peer? && exists f :: f in failures && story == f + [ReportedFailed(a)]))
  {
    RunKeepsInv(START, steps);
    var s := Run(START, steps);
    var tries := [Checkpointed(a), DestroyCalled(a)];
    assert tries + [DestroyFailed(a)] == Failure(a, true) && tries + [Destroyed(a)] == Story(a, Gone);
    assert Of(s.log, a) == Story(a, s.attempts[a].phase);
  }

  /** A native close goes through unprevented only after some attempt's checkpoint succeeded. */
  lemma UnpreventedOnlyAfterACheckpoint(steps: seq<Step>, i: nat)
    requires IsRun(START, steps) && i < |Run(START, steps).log| && Run(START, steps).log[i].ClosedUnprevented?
    ensures
      var log := Run(START, steps).log;
      exists j :: 0 <= j < i && log[j].Checkpointed?
  {
    RunKeepsInv(START, steps);
    var log := Run(START, steps).log;
    var o :| o in log[..i] && o.Checkpointed?;
    var j :| 0 <= j < i && log[..i][j] == o;
    assert log[j] == o;
  }

  predicate Settled(s: State) {
    forall a :: a in s.attempts ==>
      !s.attempts[a].phase.Checkpointing? && !s.attempts[a].phase.Destroying? && !MayReport(s, a)
  }

  /**
   Exactly which peer requests get no answer. Once everything has settled, a request
   ended with the window destroyed by it or with a failure report, unless some
   checkpoint had succeeded before it came: then its story is empty.
   */
  lemma PeerAnsweredIff(steps: seq<Step>, a: Attempt, requestId: string, later: seq<Step>)
    requires IsRun(START, steps) && Possible(Run(START, steps), Begin(a, Peer(requestId)))
    requires
      var begun := Next(Run(START, steps), Begin(a, Peer(requestId)));
      IsRun(begun, later) && Settled(Run(begun, later))
    ensures
      var before := Run(START, steps);
      var log := Run(Next(before, Begin(a, Peer(requestId))), later).log;
      && (Destroyed(a) in Of(log, a) || ReportedFailed(a) in Of(log, a) <==> !Succeeded(before.log))
      && (Of(log, a) == [] <==> Succeeded(before.log))
  {
    RunKeepsInv(START, steps);
    var before := Run(START, steps);
    var begun := Next(before, Begin(a, Peer(requestId)));
    StepKeepsInv(before, Begin(a, Peer(requestId)));
    RunKeepsInv(begun, later);
    KindStays(begun, later, a);
    PeerEnds(Run(begun, later), a);
  }

  lemma PeerEnds(s: State, a: Attempt)
    requires StoriesHold(s) && Settled(s) && a in s.attempts && s.attempts[a].kind.Peer? && Fits(s.attempts[a])
    ensures Destroyed(a) in Of(s.log, a) || ReportedFailed(a) in Of(s.log, a) <==> !At(s, a, Ignored)
    ensures Of(s.log, a) == [] <==> At(s, a, Ignored)
  {
    var story := Story(a, s.attempts[a].phase);
    assert Of(s.log, a) == story;
    assert !MayReport(s, a);
    if !At(s, a, Ignored) {
      assert story[|story| - 1] in story;
    }
  }

  /** An attempt keeps its kind, and one that was ignored or let through stays so. */
  lemma {:induction false} KindStays(s: State, steps: seq<Step>, a: Attempt)
    requires IsRun(s, steps) && a in s.attempts
    ensures
      var t := Run(s, steps);
      && a in t.attempts && t.attempts[a].kind == s.attempts[a].kind
      && (t.attempts[a].phase.Ignored? <==> s.attempts[a].phase.Ignored?)
      && (t.attempts[a].phase.LetThrough? <==> s.attempts[a].phase.LetThrough?)
    decreases |steps|
  {
    if steps != [] {
      KindStays(Next(s, steps[0]), steps[1..], a);
    }
  }

  /**
   In particular `destroy` may fail after its checkpoint succeeded: the window stays
   open, and from then on every request of a peer is left without an answer.
   */
  lemma FailedDestroySilencesPeers(steps: seq<Step>, a: Attempt, ok: bool, b: Attempt, requestId: string)
    requires IsRun(START, steps) && Possible(Run(START, steps), DestroySettles(a, ok))
    requires b !in Run(START, steps).attempts
    ensures
      var s := Next(Run(START, steps), DestroySettles(a, ok));
      && s.destroying
      && Possible(s, Begin(b, Peer(requestId)))
      && At(Next(s, Begin(b, Peer(requestId))), b, Ignored)
  {
    RunKeepsInv(START, steps);
    var s := Run(START, steps);
    assert Of(s.log, a) == [Checkpointed(a), DestroyCalled(a)];
    OfIsFromLog(s.log, a, Checkpointed(a));
  }

  lemma {:induction false} OfIsFromLog(log: seq<Observation>, a: Attempt, o: Observation)
    requires o in Of(log, a)
    ensures o in log
  {
    if o != log[|log| - 1] {
      OfIsFromLog(log[..|log| - 1], a, o);
    }
  }

  /**
   Exactly which native closes go through. A close is let through, at once and without a
   checkpoint of its own whatever happens later, if and only if some checkpoint had
   succeeded before it came.
   */
  lemma NativeLetThroughIff(steps: seq<Step>, a: Attempt, later: seq<Step>)
    requires IsRun(START, steps) && Possible(Run(START, steps), Begin(a, Native))
    requires IsRun(Next(Run(START, steps), Begin(a, Native)), later)
    ensures
      var before := Run(START, steps);
      var begun := Next(before, Begin(a, Native));
      var story := Of(Run(begun, later).log, a);
      && (At(begun, a, LetThrough) <==> Succeeded(before.log))
      && (ClosedUnprevented(a) in story <==> Succeeded(before.log))
      && (Succeeded(before.log) ==> story == [ClosedUnprevented(a)])
  {
    RunKeepsInv(START, steps);
    var before := Run(START, steps);
    var begun := Next(before, Begin(a, Native));
    StepKeepsInv(before, Begin(a, Native));
    RunKeepsInv(begun, later);
    KindStays(begun, later, a);
    StoryWithout(Run(begun, later), a);
  }

  /** Only an attempt that was let through has that in its story. */
  lemma StoryWithout(s: State, a: Attempt)
    requires StoriesHold(s) && a in s.attempts
    ensures At(s, a, LetThrough) ==> Of(s.log, a) == [ClosedUnprevented(a)]
    ensures ClosedUnprevented(a) in Of(s.log, a) ==> At(s, a, LetThrough)
  {
    assert Of(s.log, a) == Story(a, s.attempts[a].phase);
  }

  /** After a checkpoint that succeeded and a `destroy` that failed, the next native close goes through unchecked. */
  lemma FailedDestroyLetsClosesThrough(steps: seq<Step>, a: Attempt, b: Attempt)
    requires IsRun(START, steps) && Possible(Run(START, steps), DestroySettles(a, false))
    requires b !in Run(START, steps).attempts
    ensures
      var open := Next(Run(START, steps), DestroySettles(a, false));
      && Possible(open, Begin(b, Native))
      && At(Next(open, Begin(b, Native)), b, LetThrough)
      && Of(Next(open, Begin(b, Native)).log, b) == [ClosedUnprevented(b)]
  {
    RunKeepsInv(START, steps);
    var s := Run(START, steps);
    StepKeepsInv(s, DestroySettles(a, false));
    var open := Next(s, DestroySettles(a, false));
    FailedDestroySilencesPeers(steps, a, false, b, "");
    StepKeepsInv(open, Begin(b, Native));
    StoryWithout(Next(open, Begin(b, Native)), b);
  }

  /** Such a run: the window is open, nothing was destroyed, and the second close goes through. */
  lemma ACloseWithoutCheckpoint()
    ensures
      var steps := [Begin(0, Native), CheckpointSettles(0, true), DestroySettles(0, false), Begin(1, Native)];
      && IsRun(START, steps)
      && Run(START, steps).log == [Checkpointed(0), DestroyCalled(0), DestroyFailed(0), ClosedUnprevented(1)]
  {
    var steps := [Begin(0, Native), CheckpointSettles(0, true), DestroySettles(0, false), Begin(1, Native)];
    var s1 := Next(START, steps[0]);
    var s2 := Next(s1, steps[1]);
    var s3 := Next(s2, steps[2]);
    assert s1.log == [] && s2.log == [Checkpointed(0), DestroyCalled(0)];
    assert s3.log == [Checkpointed(0), DestroyCalled(0), DestroyFailed(0)];
    RunFirst(s3, steps[3..]);
    RunFirst(s2, steps[2..]);
    RunFirst(s1, steps[1..]);
    RunFirst(START, steps);
  }

  lemma RunFirst(s: State, steps: seq<Step>)
    requires steps != [] && Possible(s, steps[0])
    ensures IsRun(s, steps) <==> IsRun(Next(s, steps[0]), steps[1..])
    ensures IsRun(s, steps) ==> Run(s, steps) == Run(Next(s, steps[0]), steps[1..])
  {
  }

  // ---------------------------------------------------------------- the log against the steps

  /** The step that each observation is made at. */
  predicate Causes(step: Step, o: Observation) {
    match o
    case Checkpointed(a) => step == CheckpointSettles(a, true)
    case DestroyCalled(a) => step == CheckpointSettles(a, true)
    case CheckpointFailed(a) => step == CheckpointSettles(a, false)
    case Destroyed(a) => step == DestroySettles(a, true)
    case DestroyFailed(a) => step == DestroySettles(a, false)
    case ReportedFailed(a) => step == Report(a)
    case ClosedUnprevented(a) => step == Begin(a, Native)
  }

  lemma StepLogs(s: State, step: Step, o: Observation)
    requires Possible(s, step)
    ensures !o.ClosedUnprevented? ==> (o in Next(s, step).log <==> o in s.log || Causes(step, o))
    ensures o.ClosedUnprevented? ==> (o in Next(s, step).log <==> o in s.log || (Causes(step, o) && s.destroying))
  {
    var seen := Next(s, step).log[|s.log|..];
    assert Next(s, step).log == s.log + seen;
    match step
    case CheckpointSettles(a, ok) =>
      assert seen == if ok then [Checkpointed(a), DestroyCalled(a)] else [CheckpointFailed(a)];
    case _ =>
  }

  lemma {:induction false} RunLogs(s: State, steps: seq<Step>, o: Observation)
    requires IsRun(s, steps) && !o.ClosedUnprevented?
    ensures o in Run(s, steps).log <==> o in s.log || exists step :: step in steps && Causes(step, o)
    decreases |steps|
  {
    if steps != [] {
      StepLogs(s, steps[0], o);
      RunLogs(Next(s, steps[0]), steps[1..], o);
      assert steps == [steps[0]] + steps[1..];
    }
  }

  /**
   In every run the log says how things settled: a checkpoint is logged as successful, and
   `destroy` is called, exactly if it settled so; it is logged as failed exactly if it did;
   and a destroyed window, a failed destroy and a report are logged exactly if they happened.
   */
  lemma LogSaysHowItSettled(steps: seq<Step>, a: Attempt)
    requires IsRun(START, steps)
    ensures
      var log := Run(START, steps).log;
      && (Checkpointed(a) in log <==> CheckpointSettles(a, true) in steps)
      && (DestroyCalled(a) in log <==> CheckpointSettles(a, true) in steps)
      && (CheckpointFailed(a) in log <==> CheckpointSettles(a, false) in steps)
      && (Destroyed(a) in log <==> DestroySettles(a, true) in steps)
      && (DestroyFailed(a) in log <==> DestroySettles(a, false) in steps)
      && (ReportedFailed(a) in log <==> Report(a) in steps)
  {
    RunLogs(START, steps, Checkpointed(a));
    RunLogs(START, steps, DestroyCalled(a));
    RunLogs(START, steps, CheckpointFailed(a));
    RunLogs(START, steps, Destroyed(a));
    RunLogs(START, steps, DestroyFailed(a));
    RunLogs(START, steps, ReportedFailed(a));
  }

  /** In every run the flag is set exactly if some checkpoint settled well. */
  lemma FlagSaysCheckpointed(steps: seq<Step>)
    requires IsRun(START, steps)
    ensures Run(START, steps).destroying <==> exists a :: CheckpointSettles(a, true) in steps
  {
    RunKeepsInv(START, steps);
    var log := Run(START, steps).log;
    if Succeeded(log) {
      var o :| o in log && o.Checkpointed?;
      LogSaysHowItSettled(steps, o.attempt);
    }
    if a :| CheckpointSettles(a, true) in steps {
      LogSaysHowItSettled(steps, a);
      assert Checkpointed(a) in log;
    }
  }

  /** In every run the attempts are the ones that began, of the kinds they began as. */
  lemma {:induction false} AttemptsBegan(s: State, steps: seq<Step>, a: Attempt, kind: Kind)
    requires IsRun(s, steps) && a !in s.attempts
    ensures
      var t := Run(s, steps);
      a in t.attempts && t.attempts[a].kind == kind <==> Begin(a, kind) in steps
    decreases |steps|
  {
    if steps != [] {
      var t := Next(s, steps[0]);
      assert steps == [steps[0]] + steps[1..];
      if a in t.attempts {
        KindStays(t, steps[1..], a);
        NeverBeginsAgain(t, steps[1..], a, kind);
      } else {
        AttemptsBegan(t, steps[1..], a, kind);
      }
    }
  }

  lemma {:induction false} NeverBeginsAgain(s: State, steps: seq<Step>, a: Attempt, kind: Kind)
    requires IsRun(s, steps) && a in s.attempts
    ensures Begin(a, kind) !in steps
    decreases |steps|
  {
    if steps != [] {
      NeverBeginsAgain(Next(s, steps[0]), steps[1..], a, kind);
    }
  }

  /** `destroy` can be called twice: of two overlapping attempts both reach it when both checkpoints succeed. */
  lemma OverlappingAttemptsBothDestroy(steps: seq<Step>, a: Attempt, b: Attempt)
    requires IsRun(START, steps) && a != b
    requires At(Run(START, steps), a, Checkpointing) && At(Run(START, steps), b, Checkpointing)
    ensures
      var s := Next(Run(START, steps), CheckpointSettles(a, true));
      && Possible(s, CheckpointSettles(b, true))
      && var log := Next(s, CheckpointSettles(b, true)).log;
         DestroyCalled(a) in Of(log, a) && DestroyCalled(b) in Of(log, b)
  {
    RunKeepsInv(START, steps);
    var s := Run(START, steps);
    StepKeepsInv(s, CheckpointSettles(a, true));
    var s1 := Next(s, CheckpointSettles(a, true));
    StepKeepsInv(s1, CheckpointSettles(b, true));
    var s2 := Next(s1, CheckpointSettles(b, true));
    StoryHasDestroy(s2, a);
    StoryHasDestroy(s2, b);
  }

  lemma StoryHasDestroy(s: State, a: Attempt)
    requires StoriesHold(s) && At(s, a, Destroying)
    ensures DestroyCalled(a) in Of(s.log, a)
  {
    assert Of(s.log, a) == Story(a, Destroying);
    assert Story(a, Destroying)[1] == DestroyCalled(a);
  }
}

/**
 Quitting the app: each window checkpoints, answers, and explains a failure of its
 own once, here or when the cancelled quit names it (src/app/exitCheckpoint.ts).
 */
module QuitCheckpoint {
  /** The checkpoint of a request settles, or its quit is cancelled, perhaps on this window's account. */
  datatype Event = Settled(id: string, ok: bool) | Cancelled(id: string, mine: bool)

  /** The requests explained as failed, every explanation shown, and every answer given. */
  datatype State = State(failed: set<string>, told: seq<string>, answers: seq<(string, bool)>)

  const START := State({}, [], [])

  function Next(s: State, e: Event): State {
    match e
    case Settled(id, ok) =>
      if ok then s.(answers := s.answers + [(id, true)])
      else State(s.failed + {id}, s.told + [id], s.answers + [(id, false)])
    case Cancelled(id, mine) =>
      s.(failed := s.failed - {id}, told := if mine && id !in s.failed then s.told + [id] else s.told)
  }

  function Run(es: seq<Event>): State {
    if es == [] then START else Next(Run(es[..|es| - 1]), es[|es| - 1])
  }

  class QuitGuard {
    var failed: set<string>
    var told: seq<string>
    var answers: seq<(string, bool)>

    constructor ()
      ensures View() == START
    {
      failed, told, answers := {}, [], [];
    }

    function View(): State
      reads this
    {
      State(failed, told, answers)
    }

    method AfterCheckpoint(id: string, ok: bool)
      modifies this
      ensures View() == Next(old(View()), Settled(id, ok))
    {
      if !ok {
        failed := failed + {id};
        told := told + [id];
      }
      answers := answers + [(id, ok)];
    }

    method OnCancelled(id: string, mine: bool)
      modifies this
      ensures View() == Next(old(View()), Cancelled(id, mine))
    {
      if mine && id !in failed {
        told := told + [id];
      }
      failed := failed - {id};
    }
  }

  /** Each settled request is answered once, with the outcome it settled with, and nothing else is. */
  lemma {:induction false} AnsweredAsSettled(es: seq<Event>, id: string, ok: bool)
    ensures multiset(Run(es).answers)[(id, ok)] == multiset(es)[Settled(id, ok)]
  {
    if es != [] {
      var before, e := es[..|es| - 1], es[|es| - 1];
      AnsweredAsSettled(before, id, ok);
      assert es == before + [e];
      assert Run(es) == Next(Run(before), e);
      if e.Settled? {
        CountAppended(Run(before).answers, (e.id, e.ok), (id, ok));
      }
    }
  }

  lemma CountAppended(answers: seq<(string, bool)>, answer: (string, bool), counted: (string, bool))
    ensures multiset(answers + [answer])[counted] == multiset(answers)[counted] + if answer == counted then 1 else 0
  {
  }

  /** The events of one request. */
  function For(es: seq<Event>, id: string): seq<Event> {
    if es == [] then [] else For(es[..|es| - 1], id) + if es[|es| - 1].id == id then [es[|es| - 1]] else []
  }

  function Times(told: seq<string>, id: string): nat {
    multiset(told)[id]
  }

  /** Requests do not disturb each other. */
  lemma {:induction false} OthersDoNotMatter(es: seq<Event>, id: string)
    ensures id in Run(es).failed <==> id in Run(For(es, id)).failed
    ensures Times(Run(es).told, id) == Times(Run(For(es, id)).told, id)
  {
    if es != [] {
      var before, e := es[..|es| - 1], es[|es| - 1];
      OthersDoNotMatter(before, id);
      if e.id == id {
        assert For(es, id)[..|For(es, id)| - 1] == For(before, id);
      } else {
        assert For(es, id) == For(before, id);
      }
    }
  }

  /** A window explains a request exactly when its checkpoint failed or the quit was cancelled on its account. */
  lemma {:induction false} ExplainedIff(es: seq<Event>, id: string)
    ensures id in Run(es).failed ==> Settled(id, false) in es
    ensures Times(Run(es).told, id) > 0 <==> Settled(id, false) in es || Cancelled(id, true) in es
  {
    if es != [] {
      var before, e := es[..|es| - 1], es[|es| - 1];
      ExplainedIff(before, id);
      assert es == before + [e];
      TimesAppends(Run(before).told, e.id, id);
      FailedWasTold(before, id);
    }
  }

  lemma {:induction false} FailedWasTold(es: seq<Event>, id: string)
    ensures id in Run(es).failed ==> Times(Run(es).told, id) > 0
  {
    if es != [] {
      FailedWasTold(es[..|es| - 1], id);
      TimesAppends(Run(es[..|es| - 1]).told, es[|es| - 1].id, id);
    }
  }

  /**
   For a request that settles at most once and is cancelled at most once, the window
   explains it twice in one case only: the checkpoint fails after the quit was
   already cancelled on its account.
   */
  lemma ExplainedTwiceIff(es: seq<Event>, id: string)
    requires OnceEach(For(es, id))
    ensures Times(Run(es).told, id) <= 2
    ensures Times(Run(es).told, id) == 2 <==> CancelledThenFailed(For(es, id), id)
  {
    OthersDoNotMatter(es, id);
    ForIsOwn(es, id);
    OwnTwiceIff(For(es, id), id);
  }

  predicate OnceEach(own: seq<Event>) {
    |own| <= 1 || (|own| == 2 && (own[0].Settled? <==> own[1].Cancelled?))
  }

  predicate CancelledThenFailed(own: seq<Event>, id: string) {
    |own| == 2 && own[0] == Cancelled(id, true) && own[1] == Settled(id, false)
  }

  lemma OwnTwiceIff(own: seq<Event>, id: string)
    requires OnceEach(own) && forall e :: e in own ==> e.id == id
    ensures Times(Run(own).told, id) <= 2
    ensures Times(Run(own).told, id) == 2 <==> CancelledThenFailed(own, id)
  {
    if |own| == 1 {
      assert own == [own[0]];
      ShortRuns(own[0], own[0]);
      TimesAppends([], id, id);
    } else if |own| == 2 {
      assert own == [own[0], own[1]];
      ShortRuns(own[0], own[1]);
      TwoEvents(own[0], own[1], id);
    }
  }

  lemma ShortRuns(e: Event, f: Event)
    ensures Run([e]) == Next(START, e) && Run([e, f]) == Next(Next(START, e), f)
  {
    RunAppends([], e);
    RunAppends([e], f);
    assert [] + [e] == [e] && [e] + [f] == [e, f];
  }

  lemma TwoEvents(e: Event, f: Event, id: string)
    requires e.id == id && f.id == id && (e.Settled? <==> f.Cancelled?)
    ensures Times(Next(Next(START, e), f).told, id) <= 2
    ensures Times(Next(Next(START, e), f).told, id) == 2 <==> e == Cancelled(id, true) && f == Settled(id, false)
  {
    TimesAppends([], id, id);
    TimesAppends([id], id, id);
  }

  lemma RunAppends(es: seq<Event>, e: Event)
    ensures Run(es + [e]) == Next(Run(es), e)
  {
    assert (es + [e])[..|es + [e]| - 1] == es;
  }

  lemma TimesAppends(told: seq<string>, x: string, id: string)
    ensures Times(told + [x], id) == Times(told, id) + if x == id then 1 else 0
  {
  }

  lemma {:induction false} ForIsOwn(es: seq<Event>, id: string)
    ensures forall e :: e in For(es, id) ==> e.id == id
  {
    if es != [] {
      ForIsOwn(es[..|es| - 1], id);
    }
  }
}
