/**
 "Close it and open here": the call that asks another window to close returns a
 request id, and the outcome for that id arrives as an event, before or after the
 call returns (src/app/nestedWorkspace.ts). Outcomes are of any type.
 */
module Rendezvous {
  import opened Options

  type RequestId = string

  /** A `window-claim-result` event. */
  datatype Event<O> = Event(id: RequestId, outcome: O)

  datatype Answer<O> = Outcome(outcome: O) | InvokeFailed

  datatype State<O> = State(results: map<RequestId, O>, waiting: Option<RequestId>, answer: Option<Answer<O>>)

  function Start<O>(): State<O> {
    State(map[], None, None)
  }

  /** The listener: a promise that was resolved once stays so. */
  function OnEvent<O>(s: State<O>, e: Event<O>): State<O> {
    if s.waiting == Some(e.id) then (if s.answer.None? then s.(answer := Some(Outcome(e.outcome))) else s)
    else s.(results := s.results[e.id := e.outcome])
  }

  function OnEvents<O>(s: State<O>, es: seq<Event<O>>): State<O>
    decreases |es|
  {
    if es == [] then s else OnEvents(OnEvent(s, es[0]), es[1..])
  }

  /** The id is known now: an early result is the answer, otherwise the window waits. */
  function OnReturned<O>(s: State<O>, id: RequestId): State<O> {
    if id in s.results then s.(answer := Some(Outcome(s.results[id]))) else s.(waiting := Some(id))
  }

  // ---------------------------------------------------------------- the call in place

  class Call<O> {
    var results: map<RequestId, O>
    var waiting: Option<RequestId>
    var answer: Option<Answer<O>>

    constructor ()
      ensures View() == Start()
    {
      results, waiting, answer := map[], None, None;
    }

    function View(): State<O>
      reads this
    {
      State(results, waiting, answer)
    }

    method Hear(e: Event<O>)
      modifies this
      ensures View() == OnEvent(old(View()), e)
    {
      if waiting == Some(e.id) {
        if answer.None? {
          answer := Some(Outcome(e.outcome));
        }
      } else {
        results := results[e.id := e.outcome];
      }
    }

    method Return(id: RequestId)
      modifies this
      ensures View() == OnReturned(old(View()), id)
    {
      if id in results {
        answer := Some(Outcome(results[id]));
        return;
      }
      waiting := Some(id);
    }

    /** The call fails: whatever has been heard is dropped. */
    method Reject()
      modifies this
      ensures View() == old(View()).(answer := Some(InvokeFailed))
    {
      answer := Some(InvokeFailed);
    }
  }

  // ---------------------------------------------------------------- what each part of a run leaves

  function LastFor<O>(es: seq<Event<O>>, id: RequestId): Option<O> {
    if es == [] then None
    else if es[|es| - 1].id == id then Some(es[|es| - 1].outcome)
    else LastFor(es[..|es| - 1], id)
  }

  function FirstFor<O>(es: seq<Event<O>>, id: RequestId): Option<O> {
    if es == [] then None
    else if es[0].id == id then Some(es[0].outcome)
    else FirstFor(es[1..], id)
  }

  lemma {:induction false} EventsAppend<O>(s: State<O>, es: seq<Event<O>>, e: Event<O>)
    ensures OnEvents(s, es + [e]) == OnEvent(OnEvents(s, es), e)
    decreases |es|
  {
    if es == [] {
      assert [] + [e] == [e] && [e][1..] == [];
    } else {
      EventsAppend(OnEvent(s, es[0]), es[1..], e);
      assert (es + [e])[1..] == es[1..] + [e];
    }
  }

  /** Before the call returns, the last outcome of each id is kept and nothing is answered. */
  lemma {:induction false} EarlyEventsAreKept<O>(es: seq<Event<O>>, id: RequestId)
    ensures
      var s := OnEvents(Start(), es);
      && s.waiting.None? && s.answer.None?
      && (if id in s.results then Some(s.results[id]) else None) == LastFor(es, id)
  {
    if es != [] {
      var before, e := es[..|es| - 1], es[|es| - 1];
      EarlyEventsAreKept(before, id);
      assert es == before + [e];
      EventsAppend(Start(), before, e);
    }
  }

  lemma {:induction false} AnswerStays<O>(s: State<O>, es: seq<Event<O>>)
    requires s.answer.Some?
    ensures OnEvents(s, es).answer == s.answer
    decreases |es|
  {
    if es != [] {
      AnswerStays(OnEvent(s, es[0]), es[1..]);
    }
  }

  lemma {:induction false} WaitingTakesTheFirst<O>(s: State<O>, es: seq<Event<O>>, id: RequestId)
    requires s.waiting == Some(id) && s.answer.None?
    ensures
      OnEvents(s, es).answer == match FirstFor(es, id) case Some(o) => Some(Outcome(o)) case None => None
    decreases |es|
  {
    if es != [] {
      if es[0].id == id {
        AnswerStays(OnEvent(s, es[0]), es[1..]);
      } else {
        WaitingTakesTheFirst(OnEvent(s, es[0]), es[1..], id);
      }
    }
  }

  // ---------------------------------------------------------------- main results

  /** A whole run: events, the return of the call, more events. */
  function Completed<O>(before: seq<Event<O>>, id: RequestId, after: seq<Event<O>>): Option<Answer<O>> {
    OnEvents(OnReturned(OnEvents(Start(), before), id), after).answer
  }

  /**
   In every run the answer is the last outcome reported for the id before the call
   returned, and if there is none, the first one after.
   */
  lemma AnswerIs<O>(before: seq<Event<O>>, id: RequestId, after: seq<Event<O>>)
    ensures
      Completed(before, id, after) ==
        match LastFor(before, id)
        case Some(o) => Some(Outcome(o))
        case None =>
          match FirstFor(after, id)
          case Some(o) => Some(Outcome(o))
          case None => None
  {
    EarlyEventsAreKept(before, id);
    var s := OnReturned(OnEvents(Start(), before), id);
    if s.answer.Some? {
      AnswerStays(s, after);
    } else {
      WaitingTakesTheFirst(s, after, id);
    }
  }

  function For<O>(es: seq<Event<O>>, id: RequestId): seq<Event<O>> {
    if es == [] then [] else For(es[..|es| - 1], id) + if es[|es| - 1].id == id then [es[|es| - 1]] else []
  }

  lemma {:induction false} OnlyItsOwnMatter<O>(es: seq<Event<O>>, id: RequestId)
    ensures LastFor(For(es, id), id) == LastFor(es, id)
    ensures FirstFor(For(es, id), id) == FirstFor(es, id)
  {
    if es != [] {
      var before, e := es[..|es| - 1], es[|es| - 1];
      OnlyItsOwnMatter(before, id);
      assert es == before + [e];
      FirstForAppends(before, e, id);
      if e.id == id {
        var f := For(before, id);
        assert For(es, id) == f + [e];
        FirstForAppends(f, e, id);
      } else {
        assert For(es, id) == For(before, id);
      }
    }
  }

  lemma {:induction false} FirstForAppends<O>(es: seq<Event<O>>, e: Event<O>, id: RequestId)
    ensures
      FirstFor(es + [e], id) ==
        if FirstFor(es, id).Some? then FirstFor(es, id) else if e.id == id then Some(e.outcome) else None
  {
    if es == [] {
      assert ([] + [e])[1..] == [];
    } else {
      FirstForAppends(es[1..], e, id);
      assert (es + [e])[1..] == es[1..] + [e];
    }
  }

  /** Events for other ids change nothing, wherever they fall. */
  lemma OtherIdsNeverMatter<O>(before: seq<Event<O>>, id: RequestId, after: seq<Event<O>>)
    ensures Completed(before, id, after) == Completed(For(before, id), id, For(after, id))
  {
    AnswerIs(before, id, after);
    AnswerIs(For(before, id), id, For(after, id));
    OnlyItsOwnMatter(before, id);
    OnlyItsOwnMatter(after, id);
  }

  lemma {:induction false} ReportedFor<O>(es: seq<Event<O>>, id: RequestId)
    ensures LastFor(es, id).Some? ==> Event(id, LastFor(es, id).value) in es
    ensures FirstFor(es, id).Some? ==> Event(id, FirstFor(es, id).value) in es
    ensures (LastFor(es, id).Some? <==> FirstFor(es, id).Some?)
    ensures LastFor(es, id).None? <==> forall e :: e in es ==> e.id != id
  {
    if es != [] {
      var before, e := es[..|es| - 1], es[|es| - 1];
      ReportedFor(before, id);
      assert es == before + [e];
      FirstForAppends(before, e, id);
    }
  }

  /** The call completes exactly when an event for its id came, and with an outcome reported for it. */
  lemma NoLostOrCrossedWakeUp<O>(before: seq<Event<O>>, id: RequestId, after: seq<Event<O>>)
    ensures Completed(before, id, after).Some? <==> exists e :: e in before + after && e.id == id
    ensures
      var answer := Completed(before, id, after);
      answer.Some? ==> answer.value.Outcome? && Event(id, answer.value.outcome) in before + after
  {
    AnswerIs(before, id, after);
    ReportedFor(before, id);
    ReportedFor(after, id);
  }

  /** When the id is reported once, it does not matter when the call returns. */
  lemma TheOrderIsImmaterial<O>(es: seq<Event<O>>, i: nat, j: nat, id: RequestId)
    requires i <= |es| && j <= |es|
    requires forall e, f :: e in es && f in es && e.id == id && f.id == id ==> e == f
    ensures Completed(es[..i], id, es[i..]) == Completed(es[..j], id, es[j..])
  {
    NoLostOrCrossedWakeUp(es[..i], id, es[i..]);
    NoLostOrCrossedWakeUp(es[..j], id, es[j..]);
    assert es[..i] + es[i..] == es == es[..j] + es[j..];
  }
}
