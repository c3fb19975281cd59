/** Sequences of events arriving one at a time at a loader and its session delegate, and
    what they lead to. Each event has the effect the corresponding method in module Loader has. */
module Traces {
  import opened Types
  import opened Outcomes
  import opened Dispatcher
  import opened Chunks

  datatype Event =
    | Submit(request: Request, callback: Callback, taskCreated: bool)   // performRequest
    | Chunk(data: Bytes)                                               // didReceiveData
    | Complete(response: HttpResponse, error: Option<Error>)           // didCompleteWithError

  /** The loader's slot and logs, the delegate's buffer, the number of started tasks the
      transport has not yet reported complete, and the callback stored by the submission
      that started the last of them (None once none is running). */
  datatype System = System(dispatch: DispatchState, taskData: Option<Bytes>, inFlight: nat, running: Option<Callback>)

  const Initial := System(Idle, None, 0, None)

  function Step(s: System, e: Event): (r: System)
  {
    match e
    case Submit(request, cb, created) =>
      var started := s.dispatch.slot.None? && created;
      System(SubmitStep(s.dispatch, request, cb, created), s.taskData,
             if started then s.inFlight + 1 else s.inFlight,
             if started then Some(cb) else s.running)
    case Chunk(c) =>
      s.(taskData := AppendChunk(s.taskData, c))
    case Complete(response, error) =>
      System(CompleteStep(s.dispatch, response, s.taskData, error), None,
             if s.inFlight > 0 then s.inFlight - 1 else 0, None)
  }

  function Run(s: System, ev: seq<Event>): (r: System)
    decreases |ev|
  {
    if ev == [] then s else Step(Run(s, ev[..|ev| - 1]), ev[|ev| - 1])
  }

  /** At most one task is ever in flight, and while one is, the callback stored by the
      submission that started it holds the slot. */
  ghost predicate Inv(s: System)
  {
    s.inFlight <= 1 &&
    (s.inFlight == 1 <==> s.running.Some?) &&
    (s.running.Some? ==> s.dispatch.slot == s.running)
  }

  /** A completion reported while a task runs is delivered to that task's callback, once. */
  lemma CompletionAnswersItsTask(s: System, response: HttpResponse, error: Option<Error>)
    requires Inv(s) && s.inFlight == 1
    ensures var t := Step(s, Complete(response, error));
            Inv(t) && t.inFlight == 0 &&
            t.dispatch.log == s.dispatch.log + [Invocation(s.running.value, RawOutcome(Some(response), s.taskData, error))]
  {
  }

  lemma {:induction false} RunKeepsInv(s: System, ev: seq<Event>)
    requires Inv(s)
    ensures Inv(Run(s, ev))
    decreases |ev|
  {
    if ev != [] {
      RunKeepsInv(s, ev[..|ev| - 1]);
    }
  }

  /** Every task that is started is started while no other task is in flight. */
  lemma {:induction false} NoOverlappingTasks(ev: seq<Event>, request: Request, cb: Callback)
    ensures var s := Run(Initial, ev);
            |Step(s, Submit(request, cb, true)).dispatch.tasks| == |s.dispatch.tasks| + 1 ==> s.inFlight == 0
  {
    RunKeepsInv(Initial, ev);
  }

  /** The callbacks of the submissions in `ev`, with multiplicity. */
  function Submitted(ev: seq<Event>): (r: multiset<Callback>)
    decreases |ev|
  {
    if ev == [] then multiset{}
    else Submitted(ev[..|ev| - 1]) + (if ev[|ev| - 1].Submit? then multiset{ev[|ev| - 1].callback} else multiset{})
  }

  /** The callbacks invoked in `log`, with multiplicity. */
  function Invoked(log: seq<Invocation>): (r: multiset<Callback>)
    decreases |log|
  {
    if log == [] then multiset{} else Invoked(log[..|log| - 1]) + multiset{log[|log| - 1].callback}
  }

  lemma InvokedSnoc(log: seq<Invocation>, x: Invocation)
    ensures Invoked(log + [x]) == Invoked(log) + multiset{x.callback}
  {
    assert (log + [x])[..|log|] == log;
  }

  function Held(slot: Option<Callback>): (r: multiset<Callback>)
  {
    if slot.Some? then multiset{slot.value} else multiset{}
  }

  /** One event: what is invoked or held afterwards is what was invoked or held before, plus
      the callback the event submits, if any. */
  lemma StepConserves(p: System, e: Event)
    ensures var t := Step(p, e);
            Invoked(t.dispatch.log) + Held(t.dispatch.slot)
            == Invoked(p.dispatch.log) + Held(p.dispatch.slot) + (if e.Submit? then multiset{e.callback} else multiset{})
  {
    match e
    case Submit(request, cb, created) =>
      if p.dispatch.slot.Some? {
        InvokedSnoc(p.dispatch.log, Invocation(cb, Refused));
      }
    case Chunk(c) =>
    case Complete(response, error) =>
      if p.dispatch.slot.Some? {
        InvokedSnoc(p.dispatch.log, Invocation(p.dispatch.slot.value, RawOutcome(Some(response), p.taskData, error)));
      }
  }

  /** No callback is lost or duplicated: every submitted callback is either invoked or still
      pending, as many times as it was submitted. */
  lemma {:induction false} CallbacksConserved(s: System, ev: seq<Event>)
    ensures var t := Run(s, ev);
            Invoked(t.dispatch.log) + Held(t.dispatch.slot) == Invoked(s.dispatch.log) + Held(s.dispatch.slot) + Submitted(ev)
    decreases |ev|
  {
    if ev != [] {
      var front := ev[..|ev| - 1];
      CallbacksConserved(s, front);
      StepConserves(Run(s, front), ev[|ev| - 1]);
    }
  }

  predicate AllTasksCreated(ev: seq<Event>)
  {
    forall i :: 0 <= i < |ev| && ev[i].Submit? ==> ev[i].taskCreated
  }

  /** When every accepted request got its task, the slot is occupied exactly while a task runs. */
  lemma {:induction false} SlotMatchesTask(ev: seq<Event>)
    requires AllTasksCreated(ev)
    ensures var t := Run(Initial, ev); Inv(t) && (t.dispatch.slot.Some? <==> t.inFlight == 1)
    decreases |ev|
  {
    if ev != [] {
      SlotMatchesTask(ev[..|ev| - 1]);
    }
  }

  /** Exactly once: if every accepted request got a task and the transport has reported every
      task complete, each submitted callback has been invoked exactly as often as it was submitted. */
  lemma ExactlyOnce(ev: seq<Event>)
    requires AllTasksCreated(ev)
    requires Run(Initial, ev).inFlight == 0
    ensures Invoked(Run(Initial, ev).dispatch.log) == Submitted(ev)
  {
    SlotMatchesTask(ev);
    CallbacksConserved(Initial, ev);
    var t := Run(Initial, ev);
    assert Held(t.dispatch.slot) == multiset{};
    assert Invoked(Initial.dispatch.log) + Held(Initial.dispatch.slot) == multiset{};
    assert Invoked(t.dispatch.log) + multiset{} == multiset{} + Submitted(ev);
    assert Invoked(t.dispatch.log) + multiset{} == Invoked(t.dispatch.log);
    assert multiset{} + Submitted(ev) == Submitted(ev);
  }

  /** A submission's callback is not overwritten by later submissions: it stays in the slot,
      and no task is started, until a completion arrives. */
  lemma {:induction false} PendingSurvives(s: System, ev: seq<Event>)
    requires s.dispatch.slot.Some?
    requires forall i :: 0 <= i < |ev| ==> !ev[i].Complete?
    ensures Run(s, ev).dispatch.slot == s.dispatch.slot
    ensures Run(s, ev).dispatch.tasks == s.dispatch.tasks
    ensures Run(s, ev).inFlight == s.inFlight
    decreases |ev|
  {
    if ev != [] {
      PendingSurvives(s, ev[..|ev| - 1]);
    }
  }

  /** The transport only reports completion of a task it is running. */
  ghost predicate Honours(s: System, ev: seq<Event>)
    decreases |ev|
  {
    ev == [] ||
    (Honours(s, ev[..|ev| - 1]) && (ev[|ev| - 1].Complete? ==> Run(s, ev[..|ev| - 1]).inFlight > 0))
  }

  /** If the session produced no task for an accepted request, its callback keeps the slot for
      good: every later request is refused and no task is ever started again. */
  lemma {:induction false} LostTaskBlocksLoader(s: System, ev: seq<Event>)
    requires s.dispatch.slot.Some? && s.inFlight == 0
    requires Honours(s, ev)
    ensures Run(s, ev).dispatch.slot == s.dispatch.slot
    ensures Run(s, ev).dispatch.tasks == s.dispatch.tasks
    ensures Run(s, ev).inFlight == 0
    decreases |ev|
  {
    if ev != [] {
      LostTaskBlocksLoader(s, ev[..|ev| - 1]);
    }
  }

  function ChunkEvents(cs: seq<Bytes>): (r: seq<Event>)
    ensures |r| == |cs|
  {
    seq(|cs|, i requires 0 <= i < |cs| => Chunk(cs[i]))
  }

  /** Starting from an empty buffer, chunks accumulate in arrival order and nothing else changes. */
  lemma {:induction false} ChunksAccumulate(s: System, cs: seq<Bytes>)
    requires s.taskData.None?
    ensures Run(s, ChunkEvents(cs)) == s.(taskData := Buffered(cs))
    decreases |cs|
  {
    if cs != [] {
      var front := cs[..|cs| - 1];
      assert ChunkEvents(cs)[..|cs| - 1] == ChunkEvents(front);
      ChunksAccumulate(s, front);
      BufferedSnoc(front, cs[|cs| - 1]);
      assert front + [cs[|cs| - 1]] == cs;
    }
  }

  /** On completion the pending callback receives the whole body received since the last
      completion (nil if no chunk arrived), and the buffer is empty again for the next task. */
  lemma ChunksThenComplete(s: System, cs: seq<Bytes>, response: HttpResponse, error: Option<Error>)
    requires s.taskData.None? && s.dispatch.slot.Some?
    ensures var t := Run(s, ChunkEvents(cs) + [Complete(response, error)]);
            t.taskData.None? && t.dispatch.slot.None? &&
            t.dispatch.log == s.dispatch.log + [Invocation(s.dispatch.slot.value, RawOutcome(Some(response), Buffered(cs), error))]
  ensures Buffered(cs).Some? ==> |Buffered(cs).value| == TotalLength(cs)
  {
    var ev := ChunkEvents(cs) + [Complete(response, error)];
    assert ev[..|ev| - 1] == ChunkEvents(cs);
    ChunksAccumulate(s, cs);
    ConcatLength(cs);
  }

  /** Two chunks, of 4 and then 6 bytes, reach the callback as one 10-byte body. */
  lemma TwoChunksOneBody(s: System, a: Bytes, b: Bytes, response: HttpResponse, error: Option<Error>)
    requires s.taskData.None? && s.dispatch.slot.Some?
    requires |a| == 4 && |b| == 6
    ensures var t := Run(s, [Chunk(a), Chunk(b), Complete(response, error)]);
            |t.dispatch.log| == |s.dispatch.log| + 1 &&
            t.dispatch.log[|s.dispatch.log|].outcome.data == Some(a + b) &&
            |t.dispatch.log[|s.dispatch.log|].outcome.data.value| == 10
  {
    ChunksThenComplete(s, [a, b], response, error);
    assert ChunkEvents([a, b]) + [Complete(response, error)] == [Chunk(a), Chunk(b), Complete(response, error)];
    assert Concat([a, b]) == a + b by {
      assert [a, b][1..] == [b];
      assert Concat([b]) == b + Concat([]);
    }
    assert TotalLength([a, b]) == 10 by {
      assert [a, b][1..] == [b];
      assert TotalLength([b]) == |b| + TotalLength([]);
    }
  }
}
