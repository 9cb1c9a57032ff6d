/**
 * What the fetch functions of the clients share: their options, the request
 * they send, the response they read, the query pairs built from an input, the
 * header merge and the unwrapping of a response.
 */
module Transport {
  import opened Wrappers
  import opened JsValues
  import opened Core
  import opened FormUrlencoded

  type Headers = map<string, string>

  /** Configured headers: a fixed map, or a function whose awaited call ends as given. */
  datatype HeaderSource = Static(headers: Headers) | Dynamic(produced: Outcome<Headers>)

  datatype ClientOptions = ClientOptions(url: string, headers: HeaderSource)

  /** A request as `fetch` receives it; `verb` is its HTTP method. */
  datatype HttpRequest = HttpRequest(url: string, verb: string, headers: Headers)

  /** A response: its `ok` flag and how `response.json()` ends. */
  datatype HttpResponse = HttpResponse(ok: bool, json: Outcome<JsValue>)

  /** The request a fetch sends, if it gets that far, and how its promise ends. */
  datatype FetchResult = FetchResult(outcome: Outcome<JsValue>, sent: Option<HttpRequest>)

  /** A property key handed to a client proxy. */
  datatype PropertyKey = StrKey(name: string) | SymKey(id: nat)

  const ContentType: string := "Content-Type"
  const JsonMediaType: string := "application/json"
  const RequestFailedMessage: string := "Request failed"

  /** `searchParams.append(key, String(value))` for each entry of the input, in entry order. */
  function QueryPairs(input: JsValue): (pairs: seq<Pair>)
    ensures |pairs| == |Entries(input)|
    ensures forall i :: 0 <= i < |pairs| ==> pairs[i] == (Entries(input)[i].key, ToJsString(Entries(input)[i].value))
  {
    var es := Entries(input);
    seq(|es|, i requires 0 <= i < |es| => (es[i].key, ToJsString(es[i].value)))
  }

  /** `{"Content-Type": "application/json", ...configured}`: configured keys win. */
  function MergeHeaders(configured: Headers): (merged: Headers)
    ensures merged.Keys == configured.Keys + {ContentType}
    ensures forall k :: k in configured ==> merged[k] == configured[k]
    ensures ContentType !in configured ==> merged[ContentType] == JsonMediaType
  {
    map[ContentType := JsonMediaType] + configured
  }

  /** The `TypeError` a property read on null or undefined throws. */
  function ReadOfNothing(v: JsValue, property: string): Thrown
    requires v.Null? || v.Undefined?
  {
    Thrown(true, false, "Cannot read properties of " + (if v.Null? then "null" else "undefined") + " (reading '" + property + "')")
  }

  /**
   * The end of a fetch: a not-ok response rejects with its body's `error`
   * (as `new Error` converts it) or "Request failed"; an ok response yields
   * its body's `data`.
   */
  function Unwrap(response: HttpResponse): (r: Outcome<JsValue>)
    ensures response.json.Threw? ==> r == Threw(response.json.error)
    ensures response.json.Returned? && !response.json.value.Null? && !response.json.value.Undefined? ==>
      if response.ok then r == Returned(Get(response.json.value, "data"))
      else r.Threw? && r.error.isError && !r.error.hasIssues
    ensures !response.ok && response.json.Returned? && Truthy(Get(response.json.value, "error")) ==>
      r == Threw(Thrown(true, false, ToJsString(Get(response.json.value, "error"))))
  {
    match response.json
    case Threw(t) => Threw(t)
    case Returned(body) =>
      var field := if response.ok then "data" else "error";
      if body.Null? || body.Undefined? then Threw(ReadOfNothing(body, field))
      else if response.ok then Returned(Get(body, "data"))
      else
        var e := Get(body, "error");
        Threw(Thrown(true, false, if Truthy(e) then ToJsString(e) else RequestFailedMessage))
  }

  /** A not-ok body without a truthy `error` rejects with "Request failed". */
  lemma UnwrapFallbackMessage(body: JsValue)
    requires !body.Null? && !body.Undefined?
    requires !Truthy(Get(body, "error"))
    ensures Unwrap(HttpResponse(false, Returned(body))) == Threw(Thrown(true, false, RequestFailedMessage))
  {}
}
