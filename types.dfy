/** Values exchanged between the loader, its session delegate and their callers. */
module Types {

  /** Swift's optional: `nil` is None. */
  datatype Option<+T> = None | Some(value: T)

  /** One octet of an NSData body. */
  newtype byte = x: int | 0 <= x < 256

  type Bytes = seq<byte>

  type Url = string

  /** An NSError, identified by its domain and code. */
  datatype Error = Error(domain: string, code: int)

  /** The part of an NSHTTPURLResponse the loader looks at. */
  datatype HttpResponse = HttpResponse(statusCode: int)

  /** An authenticated NSMutableURLRequest as built by the OAuth2 object. */
  datatype Request = Request(url: Url, headers: map<string, string>)

  /** A JSON value as NSJSONSerialization produces it (numbers kept as their literal text). */
  datatype Json =
    | JNull
    | JBool(b: bool)
    | JNumber(literal: string)
    | JString(s: string)
    | JArray(items: seq<Json>)
    | JObject(fields: map<string, Json>)

  /** What parsing a body and casting it with `as? [String: NSCoding]` can give. */
  datatype ParseResult =
    | ParseError(error: Error)          // the parser threw
    | Dict(dict: map<string, Json>)     // a string-keyed dictionary at the top level
    | OtherShape                        // valid JSON, but the cast to a dictionary failed

  /** Which public entry point a stored completion closure came from. */
  datatype Caller =
    | Direct        // performRequest called with the caller's own closure
    | DataCaller    // the closure requestDataFrom wraps around its caller's
    | JsonCaller    // requestDataFrom's closure wrapped around requestJSONFrom's

  /** A completion closure, identified by the caller that supplied it. */
  datatype Callback = Callback(id: nat, caller: Caller)
}
