# OAuth2Loader, modelled in Dafny

A model of `OAuth2Loader` and `OAuth2SessionDelegate` (file `OAuth2/OAuth2Loader.swift`). The
loader fetches resources from an OAuth2-protected server. It has one `responseCallback` slot, so
only one request can be outstanding at a time. A request made while the slot is occupied is
answered at once with `(nil, nil, nil)`. Otherwise the callback is stored and one data task is
started on a session that is created lazily and then reused. The session delegate buffers the
task's body chunks, and on completion it hands the whole buffer to the loader. The loader then
calls the stored callback and empties the slot. `requestDataFrom` and `requestJSONFrom` wrap the
caller's closure in result-mapping closures.

Modules:

- `Types` (types.dfy): options, bytes, errors, responses, requests, JSON values, callbacks.
- `Outcomes` (outcomes.dfy): the mapping closures as pure functions. `DataOutcomeOf` is
  requestDataFrom's closure, `JsonOutcomeOf` is requestJSONFrom's, and `Observe` gives what the
  caller behind a stored closure receives.
- `Chunks` (chunks.dfy): the delegate's `taskData` buffer as a value.
- `Dispatcher` (dispatcher.dfy): the single slot as a value, with ghost logs of the closure
  invocations and of the started tasks. `SubmitStep` is performRequest and `CompleteStep` is
  didReceiveResponse.
- `Loader` (loader.dfy): the classes `OAuth2Loader`, `SessionDelegate` and `URLSession`. The
  class `URLSession` stands for NSURLSession. Every method's `ensures` ties the object's new state
  to the step functions above.
- `Traces` (traces.dfy): event sequences of submissions, chunks and completions, run through the
  same step functions. The invariants and the "exactly once" property are proved here.

Callbacks are not first-class values. A closure is a `Callback(id, caller)`. The loader's ghost
`log` records every invocation with the `(response, data, error)` it received. The JSON parser
(NSJSONSerialization plus the `as? [String: NSCoding]` cast) is a parameter
`parse: Bytes -> ParseResult`. The OAuth2 object's `request(forURL:)` is the loader's constant
`requestFor`. Whether `dataTaskWithRequest` returned a task is the parameter `taskCreated`.

The code behaves as follows where a reader might expect otherwise, and the model does the same:

- There is no distinct concurrency error. A refused request gets `(nil, nil, nil)`, which reaches
  a JSON caller as `(nil, nil)`. That is the same thing an error-free response with no body gives
  (`RefusalLooksLikeEmptyResponse`).
- A 401 response that comes with an error, with `tryAutorefresh` set, only logs a message. It
  returns the same values as any other error, and nothing is refreshed or retried
  (`AutorefreshHasNoEffect`). A 401 without an error is delivered as `(data, nil)`, like any
  success, and nothing is logged.
- JSON that is not a string-keyed dictionary gives `(nil, nil)`, not a decode error. So does a
  missing body without an error.
- If `dataTaskWithRequest` gives no task, the callback has already been stored. The slot then
  stays occupied for good, and every later request is refused (`LostTaskBlocksLoader`).

## Model

| member | source | states |
|---|---|---|
| Outcomes.DataOutcomeOf | OAuth2/OAuth2Loader.swift:69-82 | the caller of requestDataFrom gets data and error exactly as the task reported them |
| Outcomes.AutorefreshHasNoEffect | OAuth2/OAuth2Loader.swift:70-77 | the result does not depend on `tryAutorefresh` or the status code; a 401 with the flag set is delivered as the plain error (no refresh, no retry) |
| Outcomes.JsonOutcomeOf | OAuth2/OAuth2Loader.swift:86-99 | json is present iff there is no error, there is data and it parses to a dictionary, and then it is that dictionary; an error is present iff the fetch failed or the parse threw, and it is that error; a non-dictionary parse gives neither |
| Outcomes.Observe | OAuth2/OAuth2Loader.swift:67-99 | a direct caller sees the raw triple, a requestDataFrom caller sees (data, error), a requestJSONFrom caller sees the JSON mapping of (data, error) |
| Outcomes.RefusalLooksLikeEmptyResponse | OAuth2/OAuth2Loader.swift:58-88 | a refused request reaches data and JSON callers as (nil, nil), the same as a bodiless error-free response |
| Chunks.Buffered | OAuth2/OAuth2Loader.swift:124-127 | the buffer is nil exactly when no chunk has arrived |
| Chunks.AppendChunk | OAuth2/OAuth2Loader.swift:125-126 | appending keeps the old buffer as a prefix, ends with the new chunk and adds its length |
| Chunks.BufferedSnoc | OAuth2/OAuth2Loader.swift:124-127 | appending a chunk to the buffer of some chunks gives the buffer of those chunks followed by it (concatenation invariant) |
| Dispatcher.SubmitStep | OAuth2/OAuth2Loader.swift:55-65 | with a pending callback: slot and tasks unchanged, the new callback invoked once with all nil; otherwise: the callback is stored, nothing is invoked, and one task is started if the session produced one; afterwards the slot is occupied |
| Dispatcher.CompleteStep | OAuth2/OAuth2Loader.swift:102-105 | the pending callback, if any, is invoked once with the response, data and error unchanged; no invocation without one; the slot is empty afterwards |
| Loader.OAuth2Loader.constructor | OAuth2/OAuth2Loader.swift:29-50 | no session, empty slot, `tryAutorefresh` true |
| Loader.OAuth2Loader.Session | OAuth2/OAuth2Loader.swift:34-41 | session and delegate are created only when none exists, later accesses return the same session, at most one session is ever created |
| Loader.OAuth2Loader.PerformRequest | OAuth2/OAuth2Loader.swift:55-65 | the new state is SubmitStep of the old one; a refused request does not touch the session |
| Loader.OAuth2Loader.RequestDataFrom | OAuth2/OAuth2Loader.swift:67-69 | submits the OAuth2-built request with a data-mapping callback |
| Loader.OAuth2Loader.RequestJSONFrom | OAuth2/OAuth2Loader.swift:85-86 | submits the OAuth2-built request with a JSON-mapping callback |
| Loader.OAuth2Loader.DidReceiveResponse | OAuth2/OAuth2Loader.swift:102-105 | the new state is CompleteStep of the old one; the session is unchanged |
| Loader.SessionDelegate.constructor | OAuth2/OAuth2Loader.swift:115-117 | the buffer starts empty (nil) |
| Loader.SessionDelegate.DidReceiveData | OAuth2/OAuth2Loader.swift:124-127 | the chunk is appended in place, and the buffer stays the concatenation of all chunks since the last completion |
| Loader.SessionDelegate.DidCompleteWithError | OAuth2/OAuth2Loader.swift:119-122 | the loader receives the accumulated buffer (nil if no chunk arrived) and the buffer is reset to nil |
| Traces.RunKeepsInv | OAuth2/OAuth2Loader.swift:55-105 | in every reachable state at most one task is in flight, and while one is, the callback stored by the submission that started it holds the slot |
| Traces.CompletionAnswersItsTask | OAuth2/OAuth2Loader.swift:102-105 | a completion reported while a task runs is delivered once, to the callback stored by the submission that started that task, and leaves no task in flight |
| Traces.StepConserves | OAuth2/OAuth2Loader.swift:55-105 | one event adds to the invoked and pending callbacks exactly the callback it submits, if any |
| Traces.NoOverlappingTasks | OAuth2/OAuth2Loader.swift:55-64 | a task is only ever started while no other task is in flight |
| Traces.CallbacksConserved | OAuth2/OAuth2Loader.swift:55-105 | over any event sequence, invoked plus pending callbacks equal the submitted ones, counted with multiplicity: none lost, none duplicated |
| Traces.SlotMatchesTask | OAuth2/OAuth2Loader.swift:55-105 | when every accepted request got a task, the slot is occupied exactly while a task runs |
| Traces.ExactlyOnce | OAuth2/OAuth2Loader.swift:55-105 | when every submission got a task and every started task has completed, each submitted callback has been invoked exactly as many times as it was submitted |
| Traces.PendingSurvives | OAuth2/OAuth2Loader.swift:56-60 | until a completion arrives, any number of further requests leave the pending callback in place and start no task |
| Traces.LostTaskBlocksLoader | OAuth2/OAuth2Loader.swift:61-64 | if the session produced no task for an accepted request, the slot stays occupied and no task is ever started again |
| Traces.ChunksAccumulate | OAuth2/OAuth2Loader.swift:124-127 | after any chunks from an empty buffer, the buffer is their concatenation in arrival order, and nothing else changes |
| Traces.ChunksThenComplete | OAuth2/OAuth2Loader.swift:119-127 | on completion the pending callback receives exactly the concatenated chunks (nil if none), whose length is the sum of the chunk lengths, and the next task starts from an empty buffer |
| Traces.TwoChunksOneBody | OAuth2/OAuth2Loader.swift:119-127 | chunks of 4 and 6 bytes reach the callback as one 10-byte body in a single invocation |

## Left out

- NSURLSession, NSURLSessionConfiguration and running tasks are foreign networking. Starting a task is an entry in the ghost `tasks` log. Completion is a call of `DidCompleteWithError`, or a `Complete` event in `Traces`.
- Whether `dataTaskWithRequest` returns a task is decided by the foreign session. It is the parameter `taskCreated`.
- The OAuth2 object and `request(forURL:)` are external. They are the opaque constant `requestFor`.
- NSJSONSerialization is foreign. It is the parameter `parse`, and JSON numbers are kept as literal text.
- Threading: delegate callbacks run on a background queue in the source. The model assumes events arrive one at a time.
- The forced cast `task.response as! NSHTTPURLResponse`: the completion takes an `HttpResponse` by type, so the crash path is not modelled.
- The `print` call in the 401 branch is console output and is not modelled.
- Closures as values: a callback cannot issue a new request while it runs. In the source such a request would be refused, because the slot is cleared only after the callback returns.
- Token refresh and retry on 401 are not implemented by the source, so the model has none.
