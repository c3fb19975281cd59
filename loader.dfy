/** OAuth2Loader and OAuth2SessionDelegate: the objects whose fields change as requests are
    made, data arrives and tasks complete. */
module Loader {
  import opened Types
  import opened Outcomes
  import opened Dispatcher
  import opened Chunks

  /** Stands for the NSURLSession the loader creates: it only remembers its delegate. */
  class URLSession {
    const delegate: SessionDelegate

    constructor (delegate: SessionDelegate)
      ensures this.delegate == delegate
    {
      this.delegate := delegate;
    }
  }

  class OAuth2Loader {
    /** `oauth.request(forURL:)` of the OAuth2 object, an opaque request constructor. */
    const requestFor: Url -> Request

    var tryAutorefresh: bool
    var cachedSession: URLSession?            // `_session`
    var sessionDelegate: SessionDelegate?
    var responseCallback: Option<Callback>

    ghost var log: seq<Invocation>
    ghost var tasks: seq<Request>
    ghost var sessionsCreated: nat

    /** The single-slot dispatcher's view of this loader. */
    ghost function State(): (r: DispatchState)
      reads this
    {
      DispatchState(responseCallback, log, tasks)
    }

    /** The session and its delegate exist together, belong to this loader, and were made once. */
    ghost predicate Valid()
      reads this
    {
      (cachedSession == null <==> sessionDelegate == null) &&
      (cachedSession != null ==> cachedSession.delegate == sessionDelegate && sessionDelegate.loader == this) &&
      sessionsCreated == (if cachedSession == null then 0 else 1)
    }

    constructor (requestFor: Url -> Request)
      ensures Valid() && State() == Idle
      ensures this.requestFor == requestFor && tryAutorefresh
      ensures cachedSession == null && sessionsCreated == 0
    {
      this.requestFor := requestFor;
      tryAutorefresh := true;
      cachedSession := null;
      sessionDelegate := null;
      responseCallback := None;
      log := [];
      tasks := [];
      sessionsCreated := 0;
    }

    /** The lazy `session` getter: the session and its delegate are created on first access only. */
    method Session() returns (s: URLSession)
      requires Valid()
      modifies this
      ensures Valid() && cachedSession == s && sessionsCreated == 1
      ensures old(cachedSession) != null ==> s == old(cachedSession) && sessionDelegate == old(sessionDelegate)
      ensures old(cachedSession) == null ==> fresh(s) && fresh(sessionDelegate)
      ensures old(cachedSession) == null ==> sessionDelegate.taskData.None? && sessionDelegate.Valid() && sessionDelegate.chunks == []
      ensures State() == old(State()) && tryAutorefresh == old(tryAutorefresh)
    {
      if cachedSession == null {
        sessionDelegate := new SessionDelegate(this);
        cachedSession := new URLSession(sessionDelegate);
        sessionsCreated := sessionsCreated + 1;
      }
      s := cachedSession;
    }

    /** performRequest. `taskCreated` is whether `dataTaskWithRequest` returned a task. */
    method PerformRequest(request: Request, callback: Callback, taskCreated: bool)
      requires Valid()
      modifies this
      ensures Valid() && State() == SubmitStep(old(State()), request, callback, taskCreated)
      ensures old(responseCallback).Some? ==> cachedSession == old(cachedSession) && sessionDelegate == old(sessionDelegate)
      ensures old(responseCallback).None? ==> cachedSession != null && sessionsCreated == 1
      ensures old(cachedSession) != null ==> cachedSession == old(cachedSession) && sessionDelegate == old(sessionDelegate)
      ensures tryAutorefresh == old(tryAutorefresh)
    {
      if responseCallback.Some? {
        // a simultaneous request: answered at once with all arguments nil
        log := log + [Invocation(callback, Refused)];
        return;
      }
      responseCallback := Some(callback);
      var session := Session();
      if taskCreated {
        tasks := tasks + [request];
      }
    }

    /** requestDataFrom: build the authenticated request and submit it with the
        data-mapping closure (Outcomes.DataOutcomeOf) around the caller's. */
    method RequestDataFrom(url: Url, id: nat, taskCreated: bool)
      requires Valid()
      modifies this
      ensures Valid() && State() == SubmitStep(old(State()), requestFor(url), Callback(id, DataCaller), taskCreated)
      ensures old(cachedSession) != null ==> cachedSession == old(cachedSession) && sessionDelegate == old(sessionDelegate)
      ensures tryAutorefresh == old(tryAutorefresh)
    {
      PerformRequest(requestFor(url), Callback(id, DataCaller), taskCreated);
    }

    /** requestJSONFrom: requestDataFrom with the JSON-mapping closure (Outcomes.JsonOutcomeOf)
        around the caller's. */
    method RequestJSONFrom(url: Url, id: nat, taskCreated: bool)
      requires Valid()
      modifies this
      ensures Valid() && State() == SubmitStep(old(State()), requestFor(url), Callback(id, JsonCaller), taskCreated)
      ensures old(cachedSession) != null ==> cachedSession == old(cachedSession) && sessionDelegate == old(sessionDelegate)
      ensures tryAutorefresh == old(tryAutorefresh)
    {
      PerformRequest(requestFor(url), Callback(id, JsonCaller), taskCreated);
    }

    /** didReceiveResponse: the pending closure, if any, gets the arguments unchanged; then
        the slot is emptied. */
    method DidReceiveResponse(response: HttpResponse, data: Option<Bytes>, error: Option<Error>)
      requires Valid()
      modifies this
      ensures Valid() && State() == CompleteStep(old(State()), response, data, error)
      ensures cachedSession == old(cachedSession) && sessionDelegate == old(sessionDelegate)
      ensures sessionsCreated == old(sessionsCreated) && tryAutorefresh == old(tryAutorefresh)
    {
      if responseCallback.Some? {
        log := log + [Invocation(responseCallback.value, RawOutcome(Some(response), data, error))];
      }
      responseCallback := None;
    }
  }

  /** OAuth2SessionDelegate: buffers the chunks of the running task and hands them over on completion. */
  class SessionDelegate {
    const loader: OAuth2Loader
    var taskData: Option<Bytes>
    /** The chunks received since the last completion, in arrival order. */
    ghost var chunks: seq<Bytes>

    ghost predicate Valid()
      reads this
    {
      taskData == Buffered(chunks)
    }

    constructor (loader: OAuth2Loader)
      ensures Valid() && this.loader == loader && chunks == [] && taskData.None?
    {
      this.loader := loader;
      taskData := None;
      chunks := [];
    }

    /** didReceiveData: allocate the buffer if needed and append the chunk in place. */
    method DidReceiveData(data: Bytes)
      requires Valid()
      modifies this
      ensures Valid() && chunks == old(chunks) + [data]
      ensures taskData == AppendChunk(old(taskData), data)
    {
      var buffer := if taskData.Some? then taskData.value else [];
      taskData := Some(buffer + data);
      BufferedSnoc(chunks, data);
      chunks := chunks + [data];
    }

    /** didCompleteWithError: hand the whole buffer (nil if nothing arrived) to the loader,
        then reset it. The response is an NSHTTPURLResponse by type. */
    method DidCompleteWithError(response: HttpResponse, error: Option<Error>)
      requires Valid() && loader.Valid()
      modifies this, loader
      ensures Valid() && taskData.None? && chunks == []
      ensures loader.Valid() && loader.State() == CompleteStep(old(loader.State()), response, Buffered(old(chunks)), error)
      ensures loader.cachedSession == old(loader.cachedSession) && loader.sessionDelegate == old(loader.sessionDelegate)
      ensures loader.tryAutorefresh == old(loader.tryAutorefresh)
    {
      loader.DidReceiveResponse(response, taskData, error);
      taskData := None;
      chunks := [];
    }
  }
}
