/** The result-mapping closures of requestDataFrom and requestJSONFrom: pure value transformations. */
module Outcomes {
  import opened Types

  /** The `(response, data, error)` triple a performRequest closure is called with. */
  datatype RawOutcome = RawOutcome(response: Option<HttpResponse>, data: Option<Bytes>, error: Option<Error>)

  /** What a refused (concurrent) request is answered with: all three arguments nil. */
  const Refused := RawOutcome(None, None, None)

  /** The `(data, error)` pair a requestDataFrom caller receives. */
  datatype DataOutcome = DataOutcome(data: Option<Bytes>, error: Option<Error>)

  /** The `(json, error)` pair a requestJSONFrom caller receives. */
  datatype JsonOutcome = JsonOutcome(json: Option<map<string, Json>>, error: Option<Error>)

  /** What the end caller behind a stored closure observes. */
  datatype Observed = SawRaw(raw: RawOutcome) | SawData(data: DataOutcome) | SawJson(json: JsonOutcome)

  predicate IsUnauthorized(o: RawOutcome)
  {
    o.response.Some? && o.response.value.statusCode == 401
  }

  /** The closure requestDataFrom hands to performRequest. The 401 branch only logs that a
      refresh should be tried; it neither refreshes nor retries. */
  function DataOutcomeOf(tryAutorefresh: bool, o: RawOutcome): (r: DataOutcome)
    ensures r.data == o.data && r.error == o.error
  {
    if o.error.Some? then
      if IsUnauthorized(o) && tryAutorefresh then
        DataOutcome(o.data, o.error)
      else
        DataOutcome(o.data, o.error)
    else
      DataOutcome(o.data, None)
  }

  /** The closure requestJSONFrom hands to requestDataFrom; `parse` stands for
      NSJSONSerialization followed by the dictionary cast. */
  function JsonOutcomeOf(d: DataOutcome, parse: Bytes -> ParseResult): (r: JsonOutcome)
    ensures r.json.Some? <==> d.error.None? && d.data.Some? && parse(d.data.value).Dict?
    ensures r.json.Some? ==> r.error.None? && r.json.value == parse(d.data.value).dict
    ensures r.error.Some? <==> d.error.Some? || (d.data.Some? && parse(d.data.value).ParseError?)
    ensures d.error.Some? ==> r.error == d.error
    ensures d.error.None? && r.error.Some? ==> r.error.value == parse(d.data.value).error
  {
    if d.error.Some? || d.data.None? then
      JsonOutcome(None, d.error)
    else
      match parse(d.data.value)
      case Dict(m) => JsonOutcome(Some(m), None)
      case OtherShape => JsonOutcome(None, None)
      case ParseError(e) => JsonOutcome(None, Some(e))
  }

  /** What the caller behind `cb` receives when the stored closure is invoked with `o`.
      `tryAutorefresh` is the loader's flag at the time of the invocation. */
  function Observe(cb: Callback, o: RawOutcome, tryAutorefresh: bool, parse: Bytes -> ParseResult): (r: Observed)
    ensures cb.caller == Direct ==> r == SawRaw(o)
    ensures cb.caller == DataCaller ==> r == SawData(DataOutcome(o.data, o.error))
    ensures cb.caller == JsonCaller ==> r.SawJson? && r.json == JsonOutcomeOf(DataOutcome(o.data, o.error), parse)
  {
    match cb.caller
    case Direct => SawRaw(o)
    case DataCaller => SawData(DataOutcomeOf(tryAutorefresh, o))
    case JsonCaller => SawJson(JsonOutcomeOf(DataOutcomeOf(tryAutorefresh, o), parse))
  }

  /** Neither the flag nor a 401 status changes what a requestDataFrom caller receives:
      no refresh and no retry happen. */
  lemma AutorefreshHasNoEffect(o: RawOutcome, status: int, flag1: bool, flag2: bool)
    ensures DataOutcomeOf(flag1, o) == DataOutcomeOf(flag2, o)
    ensures DataOutcomeOf(flag1, o) == DataOutcomeOf(flag1, o.(response := Some(HttpResponse(status))))
    ensures IsUnauthorized(o) && o.error.Some? ==> DataOutcomeOf(true, o) == DataOutcome(o.data, o.error)
  {
  }

  /** A refused request reaches a requestDataFrom or requestJSONFrom caller exactly as an
      error-free response without a body does: there is no distinct concurrency error. */
  lemma RefusalLooksLikeEmptyResponse(id: nat, response: HttpResponse, flag: bool, parse: Bytes -> ParseResult)
    ensures Observe(Callback(id, DataCaller), Refused, flag, parse) == SawData(DataOutcome(None, None))
    ensures Observe(Callback(id, JsonCaller), Refused, flag, parse) == SawJson(JsonOutcome(None, None))
    ensures Observe(Callback(id, DataCaller), Refused, flag, parse)
         == Observe(Callback(id, DataCaller), RawOutcome(Some(response), None, None), flag, parse)
    ensures Observe(Callback(id, JsonCaller), Refused, flag, parse)
         == Observe(Callback(id, JsonCaller), RawOutcome(Some(response), None, None), flag, parse)
  {
  }
}
