/** The loader's single `responseCallback` slot as a value, with the ghost logs of what was
    delivered and which tasks were started. */
module Dispatcher {
  import opened Types
  import opened Outcomes

  /** One invocation of a stored (or refused) closure, with the arguments it received. */
  datatype Invocation = Invocation(callback: Callback, outcome: RawOutcome)

  datatype DispatchState = DispatchState(
    slot: Option<Callback>,     // responseCallback
    log: seq<Invocation>,       // every closure invocation, in order
    tasks: seq<Request>)        // every data task started, in order

  const Idle := DispatchState(None, [], [])

  /** performRequest: refuse at once while the slot is occupied, otherwise store the callback
      and then start the task, if the session produced one. */
  function SubmitStep(s: DispatchState, request: Request, cb: Callback, taskCreated: bool): (r: DispatchState)
    ensures r.slot.Some?
    ensures s.slot.Some? ==> r.slot == s.slot && r.tasks == s.tasks && r.log == s.log + [Invocation(cb, Refused)]
    ensures s.slot.None? ==> r.slot == Some(cb) && r.log == s.log
    ensures s.slot.None? ==> r.tasks == s.tasks + (if taskCreated then [request] else [])
  {
    match s.slot
    case Some(_) => s.(log := s.log + [Invocation(cb, Refused)])
    case None =>
      var stored := s.(slot := Some(cb));
      if taskCreated then stored.(tasks := stored.tasks + [request]) else stored
  }

  /** didReceiveResponse: call the pending closure, if any, then empty the slot. */
  function CompleteStep(s: DispatchState, response: HttpResponse, data: Option<Bytes>, error: Option<Error>): (r: DispatchState)
    ensures r.slot.None? && r.tasks == s.tasks
    ensures s.slot.Some? ==> r.log == s.log + [Invocation(s.slot.value, RawOutcome(Some(response), data, error))]
    ensures s.slot.None? ==> r.log == s.log
  {
    var delivered := if s.slot.Some? then [Invocation(s.slot.value, RawOutcome(Some(response), data, error))] else [];
    DispatchState(None, s.log + delivered, s.tasks)
  }
}
