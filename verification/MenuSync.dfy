/**
 The frontend's deduplicating cache in front of the backend's menu model
 (src/app/nativeMenuSync.ts, src-tauri/src/native_menu.rs): any number of
 windows, any number of outstanding requests each, and every other menu event in
 between.
 */
module MenuSync {
  import opened Options
  import opened MenuSpec
  import opened MenuTree
  import opened MenuShell

  /** A request; its JSON text is taken to determine it. */
  datatype Request = Request(labels: Labels, state: SyncState)

  /** The request the cache remembers, requests not yet handled, and answers not yet seen. */
  datatype Client = Client(lastSent: Option<Request>, queue: seq<Request>, replies: seq<bool>)

  const NEW_CLIENT := Client(None, [], [])

  function Called(c: Client, r: Request): Client {
    if c.lastSent == Some(r) then c else c.(lastSent := Some(r), queue := c.queue + [r])
  }

  function Answered(c: Client, ok: bool): Client {
    if ok then c else c.(lastSent := None)
  }

  /** The cache itself: one remembered request per window. */
  class NativeMenuSync {
    var lastSent: Option<Request>

    constructor ()
      ensures lastSent == None
    {
      lastSent := None;
    }

    /** Whether the request goes out; it is remembered before it is answered. */
    method Send(r: Request) returns (sent: bool)
      modifies this
      ensures sent == (old(lastSent) != Some(r)) && lastSent == Some(r)
      ensures forall c: Client :: c.lastSent == old(lastSent) ==>
                Called(c, r) == Client(lastSent, if sent then c.queue + [r] else c.queue, c.replies)
    {
      if lastSent == Some(r) {
        return false;
      }
      lastSent := Some(r);
      return true;
    }

    /** An answer arrives: a failure forgets whatever is remembered by then. */
    method Settle(ok: bool)
      modifies this
      ensures lastSent == if ok then old(lastSent) else None
      ensures forall c: Client :: c.lastSent == old(lastSent) ==> Answered(c, ok) == c.(lastSent := lastSent)
    {
      if !ok {
        lastSent := None;
      }
    }
  }

  datatype AppState = AppState(shell: Shell, clients: map<string, Client>)

  /** `Handle` takes the request at `position`; in sending order that is the first. */
  datatype Step =
    | Open(window: string)
    | Call(window: string, request: Request)
    | Handle(window: string, position: nat, target: Option<string>, answers: Answers)
    | Reply(window: string, position: nat)
    | Other(event: Event)

  function RemoveAt<T>(s: seq<T>, i: nat): seq<T>
    requires i < |s|
  {
    s[..i] + s[i + 1..]
  }

  /** A late sync of a window that is gone may still arrive as `Other`; a live window's goes through its client. */
  predicate Possible(s: AppState, step: Step) {
    match step
    case Open(window) => window !in s.clients
    case Call(window, _) => window in s.clients
    case Handle(window, position, _, _) => window in s.clients && position < |s.clients[window].queue|
    case Reply(window, position) => window in s.clients && position < |s.clients[window].replies|
    case Other(event) => event.Sync? ==> event.caller !in s.clients
  }

  function Next(w: World, s: AppState, step: Step): AppState
    requires Possible(s, step)
  {
    match step
    case Open(window) => s.(clients := s.clients[window := NEW_CLIENT])
    case Call(window, request) => s.(clients := s.clients[window := Called(s.clients[window], request)])
    case Handle(window, position, target, answers) =>
      var c := s.clients[window];
      var r := c.queue[position];
      var done := SyncStep(w, s.shell, window, target, r.labels, r.state, answers);
      AppState(done.shell, s.clients[window :=
        c.(queue := RemoveAt(c.queue, position), replies := c.replies + [done.verdict.Done?])])
    case Reply(window, position) =>
      var c := s.clients[window];
      s.(clients := s.clients[window := Answered(c.(replies := RemoveAt(c.replies, position)), c.replies[position])])
    case Other(event) =>
      AppState(MenuShell.Step(w, s.shell, event).shell,
             if event.Destroy? then s.clients - {event.window} else s.clients)
  }

  predicate IsRun(w: World, s: AppState, steps: seq<Step>)
    decreases |steps|
  {
    steps != [] ==> Possible(s, steps[0]) && IsRun(w, Next(w, s, steps[0]), steps[1..])
  }

  function RunAll(w: World, s: AppState, steps: seq<Step>): AppState
    requires IsRun(w, s, steps)
    decreases |steps|
  {
    if steps == [] then s else RunAll(w, Next(w, s, steps[0]), steps[1..])
  }

  /** Every window's requests are handled in the order it sent them. */
  predicate InOrder(steps: seq<Step>) {
    forall i :: 0 <= i < |steps| ==> steps[i].Handle? ==> steps[i].position == 0
  }

  predicate Stored(s: AppState, window: string, r: Request) {
    window in s.shell.model.windows && s.shell.model.windows[window].state == r.state
  }

  /** What the cache remembers is last in line, or stored, or about to be forgotten. */
  predicate Tracked(s: AppState, window: string) {
    window in s.clients ==>
      var c := s.clients[window];
      c.lastSent.Some? ==>
        if c.queue != [] then c.queue[|c.queue| - 1] == c.lastSent.value
        else false in c.replies || Stored(s, window, c.lastSent.value)
  }

  predicate AllTracked(s: AppState) {
    forall window :: window in s.clients ==> Tracked(s, window)
  }

  // ---------------------------------------------------------------- each step

  /** A step of another window, or one that is not a sync, keeps a live window's stored state. */
  lemma OthersKeepStored(w: World, shell: Shell, e: Event, window: string)
    requires window in shell.model.windows
    requires e.Sync? ==> e.caller != window
    requires e.Destroy? ==> e.window != window
    ensures
      var after := MenuShell.Step(w, shell, e).shell.model.windows;
      window in after && after[window].state == shell.model.windows[window].state
  {
    match e
    case Sync(caller, target, labels, state, p) =>
    case Enable(caller, target, command, enabled, answered) =>
      var stored := EnableStore(shell, caller, target, enabled).model.windows;
      assert window in stored && stored[window].state == shell.model.windows[window].state;
    case Store(caller, target, enabled) =>
    case Write(enabled, current, answered) =>
    case Focus(_, _) =>
    case Destroy(gone, next, budget) =>
    case Click(path, budget) =>
  }

  lemma HandledKeepsTracked(w: World, s: AppState, step: Step, window: string)
    requires step.Handle? && step.position == 0 && Possible(s, step) && AllTracked(s) && window in s.clients
    ensures Tracked(Next(w, s, step), window)
  {
    var c := s.clients[step.window];
    var r := c.queue[0];
    var done := SyncStep(w, s.shell, step.window, step.target, r.labels, r.state, step.answers);
    assert Tracked(s, window);
    if window != step.window {
      if window in s.shell.model.windows {
        OthersKeepStored(w, s.shell, Sync(step.window, step.target, r.labels, r.state, step.answers), window);
      }
    } else {
      var rest := RemoveAt(c.queue, 0);
      assert rest == c.queue[1..];
      var replies := c.replies + [done.verdict.Done?];
      assert replies[|c.replies|] == done.verdict.Done?;
      if rest != [] {
        assert rest[|rest| - 1] == c.queue[|c.queue| - 1];
      }
    }
  }

  lemma ReplyKeepsTracked(w: World, s: AppState, step: Step, window: string)
    requires step.Reply? && Possible(s, step) && AllTracked(s) && window in s.clients
    ensures Tracked(Next(w, s, step), window)
  {
    assert Tracked(s, window);
    if window == step.window {
      var c := s.clients[window];
      if c.replies[step.position] && false in c.replies {
        FalseStays(c.replies, step.position);
      }
    }
  }

  lemma StepKeepsTracked(w: World, s: AppState, step: Step)
    requires Possible(s, step) && AllTracked(s)
    requires step.Handle? ==> step.position == 0
    ensures AllTracked(Next(w, s, step))
  {
    var after := Next(w, s, step);
    forall window | window in after.clients
      ensures Tracked(after, window)
    {
      match step
      case Open(_) =>
        assert window in s.clients ==> Tracked(s, window);
      case Call(_, _) =>
        assert Tracked(s, window);
      case Handle(_, _, _, _) =>
        HandledKeepsTracked(w, s, step, window);
      case Reply(_, _) =>
        ReplyKeepsTracked(w, s, step, window);
      case Other(event) =>
        assert Tracked(s, window);
        if window in s.shell.model.windows {
          OthersKeepStored(w, s.shell, event, window);
        }
    }
  }

  lemma {:induction false} RunKeepsTracked(w: World, s: AppState, steps: seq<Step>)
    requires IsRun(w, s, steps) && InOrder(steps) && AllTracked(s)
    ensures AllTracked(RunAll(w, s, steps))
    decreases |steps|
  {
    if steps != [] {
      StepKeepsTracked(w, s, steps[0]);
      RunKeepsTracked(w, Next(w, s, steps[0]), steps[1..]);
    }
  }

  // ---------------------------------------------------------------- the cache, from the steps

  /** A step, and whether it brought a window the news that a request failed. */
  datatype Seen = Seen(step: Step, refused: bool)

  function History(w: World, s: AppState, steps: seq<Step>): seq<Seen>
    requires IsRun(w, s, steps)
    decreases |steps|
  {
    if steps == [] then []
    else
      var refused := steps[0].Reply? && !s.clients[steps[0].window].replies[steps[0].position];
      [Seen(steps[0], refused)] + History(w, Next(w, s, steps[0]), steps[1..])
  }

  /** The request the window called for last, unless a refusal came back since, or the window is new. */
  function LastCalled(seen: seq<Seen>, window: string): Option<Request>
    decreases |seen|
  {
    if seen == [] then None
    else
      var last := seen[|seen| - 1];
      match last.step
      case Call(caller, request) => if caller == window then Some(request) else LastCalled(seen[..|seen| - 1], window)
      case Open(newcomer) => if newcomer == window then None else LastCalled(seen[..|seen| - 1], window)
      case Reply(receiver, _) =>
        if receiver == window && last.refused then None else LastCalled(seen[..|seen| - 1], window)
      case _ => LastCalled(seen[..|seen| - 1], window)
  }

  ghost predicate CachesFollow(s: AppState, seen: seq<Seen>) {
    forall window :: window in s.clients ==> s.clients[window].lastSent == LastCalled(seen, window)
  }

  lemma CacheStepFollows(w: World, s: AppState, past: seq<Seen>, step: Step, now: seq<Seen>)
    requires Possible(s, step) && CachesFollow(s, past)
    requires |now| > 0 && now[..|now| - 1] == past && now[|now| - 1].step == step
    requires now[|now| - 1].refused == (step.Reply? && !s.clients[step.window].replies[step.position])
    ensures CachesFollow(Next(w, s, step), now)
  {
  }

  lemma {:induction false} RunCachesFollow(w: World, s: AppState, past: seq<Seen>, steps: seq<Step>)
    requires IsRun(w, s, steps) && CachesFollow(s, past)
    ensures CachesFollow(RunAll(w, s, steps), past + History(w, s, steps))
    decreases |steps|
  {
    if steps == [] {
      assert past + History(w, s, steps) == past;
    } else {
      var first := History(w, s, steps)[0];
      var now := past + [first];
      assert now[..|now| - 1] == past;
      CacheStepFollows(w, s, past, steps[0], now);
      RunCachesFollow(w, Next(w, s, steps[0]), now, steps[1..]);
      assert now + History(w, Next(w, s, steps[0]), steps[1..]) == past + History(w, s, steps);
    }
  }

  /**
   In every run, handled in any order, a call goes out exactly when it is not the request the
   window called for last, or a refusal came back since; a skipped call leaves everything alone.
   */
  lemma CallGoesOutIff(w: World, shell: Shell, steps: seq<Step>, window: string, request: Request)
    requires IsRun(w, AppState(shell, map[]), steps)
    requires window in RunAll(w, AppState(shell, map[]), steps).clients
    ensures
      var s := RunAll(w, AppState(shell, map[]), steps);
      var called := Next(w, s, Call(window, request));
      if LastCalled(History(w, AppState(shell, map[]), steps), window) == Some(request) then called == s
      else
        && called.shell == s.shell && called.clients.Keys == s.clients.Keys
        && called.clients[window].queue == s.clients[window].queue + [request]
        && called.clients[window].replies == s.clients[window].replies
        && forall other :: other in s.clients && other != window ==> called.clients[other] == s.clients[other]
  {
    var s0 := AppState(shell, map[]);
    RunCachesFollow(w, s0, [], steps);
    assert [] + History(w, s0, steps) == History(w, s0, steps);
    var s := RunAll(w, s0, steps);
    assert s.clients[window := s.clients[window]] == s.clients;
  }

  // ---------------------------------------------------------------- main results

  /**
   In every run from no open window, with requests handled in sending order, a live
   window with nothing in flight whose cache remembers a request has exactly that
   request's state stored in the backend.
   */
  lemma CacheAgreesWithBackend(w: World, shell: Shell, steps: seq<Step>, window: string)
    requires IsRun(w, AppState(shell, map[]), steps) && InOrder(steps)
    requires window in RunAll(w, AppState(shell, map[]), steps).clients
    ensures
      var s := RunAll(w, AppState(shell, map[]), steps);
      var c := s.clients[window];
      c.queue == [] && c.replies == [] && c.lastSent.Some? ==> Stored(s, window, c.lastSent.value)
  {
    RunKeepsTracked(w, AppState(shell, map[]), steps);
    var s := RunAll(w, AppState(shell, map[]), steps);
    assert Tracked(s, window);
  }

  /** A call the cache skips at rest would have left every window's stored state as it is. */
  lemma SkippedCallChangesNothing(w: World, shell: Shell, steps: seq<Step>, window: string,
                                  target: Option<string>, p: Answers)
    requires IsRun(w, AppState(shell, map[]), steps) && InOrder(steps)
    requires window in RunAll(w, AppState(shell, map[]), steps).clients
    requires
      var c := RunAll(w, AppState(shell, map[]), steps).clients[window];
      c.queue == [] && c.replies == [] && c.lastSent.Some?
    ensures
      var s := RunAll(w, AppState(shell, map[]), steps);
      var r := s.clients[window].lastSent.value;
      SyncStep(w, s.shell, window, target, r.labels, r.state, p).shell.model.windows == s.shell.model.windows
  {
    CacheAgreesWithBackend(w, shell, steps, window);
    var s := RunAll(w, AppState(shell, map[]), steps);
    var r := s.clients[window].lastSent.value;
    var m := s.shell.model;
    assert m.Reported(window).(state := r.state) == m.windows[window];
    assert m.windows[window := m.windows[window]] == m.windows;
  }

  /**
   Exactly when a skipped call would have been a no-op for the whole backend model:
   when its labels are the ones shown and it would not have moved the menu to its window.
   */
  lemma SkippedCallIsRedundantIff(w: World, shell: Shell, steps: seq<Step>, window: string,
                                  target: Option<string>, p: Answers)
    requires IsRun(w, AppState(shell, map[]), steps) && InOrder(steps)
    requires window in RunAll(w, AppState(shell, map[]), steps).clients
    requires
      var c := RunAll(w, AppState(shell, map[]), steps).clients[window];
      c.queue == [] && c.replies == [] && c.lastSent.Some?
    requires
      var s := RunAll(w, AppState(shell, map[]), steps);
      var r := s.clients[window].lastSent.value;
      SyncStep(w, s.shell, window, target, r.labels, r.state, p).verdict.Done?
    ensures
      var s := RunAll(w, AppState(shell, map[]), steps);
      var r := s.clients[window].lastSent.value;
      SyncStep(w, s.shell, window, target, r.labels, r.state, p).shell.model == s.shell.model <==>
      r.labels == s.shell.model.labels && (target == Some(window) ==> s.shell.model.active == Some(window))
  {
    SkippedCallChangesNothing(w, shell, steps, window, target, p);
    var s := RunAll(w, AppState(shell, map[]), steps);
    var r := s.clients[window].lastSent.value;
    DoneSyncModel(w, s.shell, window, target, r, p);
  }

  lemma DoneSyncModel(w: World, shell: Shell, window: string, target: Option<string>, r: Request, p: Answers)
    requires SyncStep(w, shell, window, target, r.labels, r.state, p).verdict.Done?
    ensures SyncStep(w, shell, window, target, r.labels, r.state, p).shell.model
         == SyncedModel(shell.model, window, target, r.labels, r.state)
  {
  }

  lemma {:induction false} RunConcat(w: World, s: AppState, a: seq<Step>, b: seq<Step>)
    requires IsRun(w, s, a) && IsRun(w, RunAll(w, s, a), b)
    ensures IsRun(w, s, a + b) && RunAll(w, s, a + b) == RunAll(w, RunAll(w, s, a), b)
    decreases |a|
  {
    if a == [] {
      assert a + b == b;
    } else {
      assert (a + b)[0] == a[0] && (a + b)[1..] == a[1..] + b;
      RunConcat(w, Next(w, s, a[0]), a[1..], b);
    }
  }

  lemma RunOne(w: World, s: AppState, step: Step)
    requires Possible(s, step)
    ensures IsRun(w, s, [step]) && RunAll(w, s, [step]) == Next(w, s, step)
  {
    assert [step][1..] == [];
  }

  /** A valid sync that is not shown, or whose rebuild succeeds, is stored. */
  lemma UnshownSyncIsStored(w: World, shell: Shell, window: string, r: Request, p: Answers)
    requires ValidLabels(r.labels) && p.builds && p.installs && p.registers
    ensures
      var done := SyncStep(w, shell, window, None, r.labels, r.state, p);
      done.verdict.Done? && done.shell.model == SyncedModel(shell.model, window, None, r.labels, r.state)
  {
  }

  lemma HandleUnshown(w: World, s: AppState, window: string, position: nat, p: Answers)
    requires Possible(s, Handle(window, position, None, p))
    requires p.builds && p.installs && p.registers
    requires ValidLabels(s.clients[window].queue[position].labels)
    ensures
      var c := s.clients[window];
      var r := c.queue[position];
      var after := Next(w, s, Handle(window, position, None, p));
      && after.shell.model == SyncedModel(s.shell.model, window, None, r.labels, r.state)
      && after.clients == s.clients[window := c.(queue := RemoveAt(c.queue, position), replies := c.replies + [true])]
  {
    UnshownSyncIsStored(w, s.shell, window, s.clients[window].queue[position], p);
  }

  function FirstSync(window: string, r: Request, p: Answers): seq<Step> {
    [Open(window)] + [Call(window, r)] + [Handle(window, 0, None, p)] + [Reply(window, 0)]
  }

  /** A new window's first sync, sent, handled and answered. */
  lemma FirstSyncSettles(w: World, s: AppState, window: string, r: Request, p: Answers)
    requires window !in s.clients && ValidLabels(r.labels) && p.builds && p.installs && p.registers
    ensures IsRun(w, s, FirstSync(window, r, p))
    ensures
      var after := RunAll(w, s, FirstSync(window, r, p));
      && after.clients == s.clients[window := Client(Some(r), [], [])]
      && after.shell.model == SyncedModel(s.shell.model, window, None, r.labels, r.state)
  {
    var s1 := Next(w, s, Open(window));
    var s2 := Next(w, s1, Call(window, r));
    assert s2.clients[window] == Client(Some(r), [r], []);
    HandleUnshown(w, s2, window, 0, p);
    var s3 := Next(w, s2, Handle(window, 0, None, p));
    assert s3.clients[window] == Client(Some(r), [], [true]);
    var s4 := Next(w, s3, Reply(window, 0));
    assert RemoveAt([true], 0) == [];
    assert s4.clients == s.clients[window := Client(Some(r), [], [])];
    RunFour(w, s, Open(window), Call(window, r), Handle(window, 0, None, p), Reply(window, 0));
  }

  lemma RunFour(w: World, s: AppState, a: Step, b: Step, c: Step, d: Step)
    requires Possible(s, a) && Possible(Next(w, s, a), b) && Possible(Next(w, Next(w, s, a), b), c)
    requires Possible(Next(w, Next(w, Next(w, s, a), b), c), d)
    ensures IsRun(w, s, [a] + [b] + [c] + [d])
    ensures RunAll(w, s, [a] + [b] + [c] + [d]) == Next(w, Next(w, Next(w, Next(w, s, a), b), c), d)
  {
    RunOne(w, s, a);
    RunOne(w, Next(w, s, a), b);
    RunConcat(w, s, [a], [b]);
    RunOne(w, Next(w, Next(w, s, a), b), c);
    RunConcat(w, s, [a] + [b], [c]);
    RunOne(w, Next(w, Next(w, Next(w, s, a), b), c), d);
    RunConcat(w, s, [a] + [b] + [c], [d]);
  }

  /**
   Labels are global and the cache is per window: once another window has
   relabelled the menu, a skipped call leaves that window's labels in place.
   */
  lemma SkipCanKeepOtherLabels(w: World, shell: Shell, window: string, other: string, a: Request, b: Request, p: Answers)
    requires window != other && ValidLabels(a.labels) && ValidLabels(b.labels) && a.labels != b.labels
    requires p.builds && p.installs && p.registers
    ensures
      var steps := FirstSync(window, a, p) + FirstSync(other, b, p);
      && IsRun(w, AppState(shell, map[]), steps)
      && var s := RunAll(w, AppState(shell, map[]), steps);
         && window in s.clients && Next(w, s, Call(window, a)) == s
         && s.shell.model.labels == b.labels
  {
    var s0 := AppState(shell, map[]);
    FirstSyncSettles(w, s0, window, a, p);
    var s1 := RunAll(w, s0, FirstSync(window, a, p));
    FirstSyncSettles(w, s1, other, b, p);
    var s2 := RunAll(w, s1, FirstSync(other, b, p));
    RunConcat(w, s0, FirstSync(window, a, p), FirstSync(other, b, p));
    assert s2.clients[window := s2.clients[window]] == s2.clients;
  }

  // ---------------------------------------------------------------- handling in any order

  /** The request of each open window that was handled last with success. */
  type Handled = map<string, Request>

  function HandledBy(w: World, s: AppState, done: Handled, step: Step): Handled
    requires Possible(s, step)
  {
    match step
    case Open(window) => done - {window}
    case Handle(window, position, target, p) =>
      var r := s.clients[window].queue[position];
      if SyncStep(w, s.shell, window, target, r.labels, r.state, p).verdict.Done? then done[window := r] else done
    case Other(event) => if event.Destroy? then done - {event.window} else done
    case _ => done
  }

  function HandledAfter(w: World, s: AppState, done: Handled, steps: seq<Step>): Handled
    requires IsRun(w, s, steps)
    decreases |steps|
  {
    if steps == [] then done else HandledAfter(w, Next(w, s, steps[0]), HandledBy(w, s, done, steps[0]), steps[1..])
  }

  /** What was handled last is what is stored; what is remembered was handled, or is on its way, or will be forgotten. */
  ghost predicate Recorded(s: AppState, done: Handled, window: string) {
    && (window in done ==> window in s.clients && Stored(s, window, done[window]))
    && (window in s.clients && s.clients[window].lastSent.Some? ==>
          var c := s.clients[window];
          c.lastSent.value in c.queue || false in c.replies || window in done)
  }

  ghost predicate AllRecorded(s: AppState, done: Handled) {
    forall window :: Recorded(s, done, window)
  }

  lemma HandleKeepsRecorded(w: World, s: AppState, done: Handled, step: Step, window: string)
    requires step.Handle? && Possible(s, step) && AllRecorded(s, done)
    ensures Recorded(Next(w, s, step), HandledBy(w, s, done, step), window)
  {
    var c := s.clients[step.window];
    var r := c.queue[step.position];
    var ok := SyncStep(w, s.shell, step.window, step.target, r.labels, r.state, step.answers).verdict.Done?;
    assert Recorded(s, done, window);
    if window != step.window {
      if window in done {
        OthersKeepStored(w, s.shell, Sync(step.window, step.target, r.labels, r.state, step.answers), window);
      }
    } else {
      var replies := c.replies + [ok];
      assert replies[|c.replies|] == ok;
      if ok {
        DoneSyncModel(w, s.shell, window, step.target, r, step.answers);
      }
    }
  }

  lemma StepKeepsRecorded(w: World, s: AppState, done: Handled, step: Step)
    requires Possible(s, step) && AllRecorded(s, done)
    ensures AllRecorded(Next(w, s, step), HandledBy(w, s, done, step))
  {
    forall window
      ensures Recorded(Next(w, s, step), HandledBy(w, s, done, step), window)
    {
      assert Recorded(s, done, window);
      match step
      case Open(_) =>
      case Call(_, _) =>
      case Handle(_, _, _, _) => HandleKeepsRecorded(w, s, done, step, window);
      case Reply(caller, position) =>
        if window == caller && false in s.clients[window].replies && s.clients[window].replies[position] {
          FalseStays(s.clients[window].replies, position);
        }
      case Other(event) =>
        if window in done && !(event.Destroy? && event.window == window) {
          OthersKeepStored(w, s.shell, event, window);
        }
    }
  }

  lemma FalseStays(replies: seq<bool>, position: nat)
    requires position < |replies| && replies[position] && false in replies
    ensures false in RemoveAt(replies, position)
  {
    var k :| 0 <= k < |replies| && !replies[k];
    assert RemoveAt(replies, position)[if k < position then k else k - 1] == false;
  }

  lemma {:induction false} RunKeepsRecorded(w: World, s: AppState, done: Handled, steps: seq<Step>)
    requires IsRun(w, s, steps) && AllRecorded(s, done)
    ensures AllRecorded(RunAll(w, s, steps), HandledAfter(w, s, done, steps))
    decreases |steps|
  {
    if steps != [] {
      StepKeepsRecorded(w, s, done, steps[0]);
      RunKeepsRecorded(w, Next(w, s, steps[0]), HandledBy(w, s, done, steps[0]), steps[1..]);
    }
  }

  /**
   The exact condition, over all runs with requests handled in any order: at rest, what the
   cache remembers is what is stored if and only if the window's last successful handling
   carried the same state.
   */
  lemma CacheAgreesIff(w: World, shell: Shell, steps: seq<Step>, window: string)
    requires IsRun(w, AppState(shell, map[]), steps)
    requires window in RunAll(w, AppState(shell, map[]), steps).clients
    requires
      var c := RunAll(w, AppState(shell, map[]), steps).clients[window];
      c.queue == [] && c.replies == [] && c.lastSent.Some?
    ensures
      var s := RunAll(w, AppState(shell, map[]), steps);
      var done := HandledAfter(w, AppState(shell, map[]), map[], steps);
      && window in done
      && (Stored(s, window, s.clients[window].lastSent.value)
          <==> done[window].state == s.clients[window].lastSent.value.state)
  {
    RunKeepsRecorded(w, AppState(shell, map[]), map[], steps);
    var s := RunAll(w, AppState(shell, map[]), steps);
    assert Recorded(s, HandledAfter(w, AppState(shell, map[]), map[], steps), window);
  }

  /** Two requests sent together and handled newest first. */
  function Overtaken(window: string, a: Request, b: Request, p: Answers): seq<Step> {
    [Open(window)] + [Call(window, a)] + [Call(window, b)]
    + [Handle(window, 1, None, p)] + [Handle(window, 0, None, p)] + [Reply(window, 0)] + [Reply(window, 0)]
  }

  /**
   Handled out of order, the older of two outstanding requests can be the one that stays stored.
   This is what the order is needed for, not a run of the program: the command is synchronous,
   so a window's requests are handled one after the other as they arrive.
   */
  lemma OutOfOrderBreaksTheCache(w: World, shell: Shell, window: string, a: Request, b: Request, p: Answers)
    requires ValidLabels(a.labels) && ValidLabels(b.labels) && a.state != b.state
    requires p.builds && p.installs && p.registers
    ensures IsRun(w, AppState(shell, map[]), Overtaken(window, a, b, p))
    ensures
      var s := RunAll(w, AppState(shell, map[]), Overtaken(window, a, b, p));
      && window in s.clients && s.clients[window] == Client(Some(b), [], [])
      && !Stored(s, window, b)
  {
    var s0 := AppState(shell, map[]);
    var s1 := Next(w, s0, Open(window));
    RunOne(w, s0, Open(window));
    var s2 := Next(w, s1, Call(window, a));
    RunOne(w, s1, Call(window, a));
    RunConcat(w, s0, [Open(window)], [Call(window, a)]);
    var s3 := Next(w, s2, Call(window, b));
    RunOne(w, s2, Call(window, b));
    RunConcat(w, s0, [Open(window)] + [Call(window, a)], [Call(window, b)]);
    var sent := [Open(window)] + [Call(window, a)] + [Call(window, b)];
    assert s3.clients[window] == Client(Some(b), [a, b], []);
    OvertakenEnds(w, s3, window, a, b, p);
    var tail := [Handle(window, 1, None, p)] + [Handle(window, 0, None, p)] + [Reply(window, 0)] + [Reply(window, 0)];
    RunConcat(w, s0, sent, tail);
    assert sent + tail == Overtaken(window, a, b, p);
  }

  lemma OvertakenEnds(w: World, s: AppState, window: string, a: Request, b: Request, p: Answers)
    requires window in s.clients && s.clients[window] == Client(Some(b), [a, b], [])
    requires ValidLabels(a.labels) && ValidLabels(b.labels) && p.builds && p.installs && p.registers
    ensures
      var tail := [Handle(window, 1, None, p)] + [Handle(window, 0, None, p)] + [Reply(window, 0)] + [Reply(window, 0)];
      && IsRun(w, s, tail)
      && var after := RunAll(w, s, tail);
         && window in after.clients && after.clients[window] == Client(Some(b), [], [])
         && window in after.shell.model.windows && after.shell.model.windows[window].state == a.state
  {
    var h1, h0, reply := Handle(window, 1, None, p), Handle(window, 0, None, p), Reply(window, 0);
    HandleUnshown(w, s, window, 1, p);
    var s1 := Next(w, s, h1);
    RunOne(w, s, h1);
    assert s1.clients[window] == Client(Some(b), [a], [true]);
    HandleUnshown(w, s1, window, 0, p);
    var s2 := Next(w, s1, h0);
    RunOne(w, s1, h0);
    RunConcat(w, s, [h1], [h0]);
    assert s2.clients[window] == Client(Some(b), [], [true, true]);
    var s3 := Next(w, s2, reply);
    RunOne(w, s2, reply);
    RunConcat(w, s, [h1] + [h0], [reply]);
    assert s3.clients[window] == Client(Some(b), [], [true]);
    RunOne(w, s3, reply);
    RunConcat(w, s, [h1] + [h0] + [reply], [reply]);
  }
}
