/**
 * The client: `getTrpcFetch` turns a procedure name and an input into a GET
 * request and unwraps the response; `createTrpcClient` hands out a fetch
 * function for any string property.
 */
module TrpcClient {
  import opened Wrappers
  import opened JsValues
  import opened Naming
  import opened Core
  import opened FormUrlencoded
  import opened Transport

  /** The request URL: base, `/`, the kebab name, then `?` and the serialized pairs when the input is truthy. */
  function RequestUrl(url: string, slug: string, input: JsValue): string
  {
    var path := url + "/" + Kebabize(slug);
    if Truthy(input) then path + "?" + Serialize(QueryPairs(input)) else path
  }

  /** The URL step of `getTrpcFetch`: `requestUrl` is built, then extended by the query string the append loop fills. */
  method BuildRequestUrl(url: string, slug: string, input: JsValue) returns (requestUrl: string)
    ensures requestUrl == RequestUrl(url, slug, input)
  {
    var endpointName := Kebabize(slug);
    requestUrl := url + "/" + endpointName;
    if Truthy(input) {
      var searchParams: seq<Pair> := [];
      var entries := Entries(input);
      for i := 0 to |entries|
        invariant searchParams == QueryPairs(input)[..i]
      {
        searchParams := searchParams + [(entries[i].key, ToJsString(entries[i].value))];
      }
      assert searchParams == QueryPairs(input);
      requestUrl := requestUrl + "?" + Serialize(searchParams);
    }
  }

  /** The request sent with the given configured headers, and the unwrapped response `send` gives it. */
  function SendWith(url: string, slug: string, input: JsValue, headers: Headers, send: HttpRequest -> HttpResponse): FetchResult
  {
    var request := HttpRequest(RequestUrl(url, slug, input), "GET", MergeHeaders(headers));
    FetchResult(Unwrap(send(request)), Some(request))
  }

  /** One call of the function `getTrpcFetch({endpointSlug: slug, ...opts})` returns, over the transport `send`. */
  function Fetch(opts: ClientOptions, slug: string, input: JsValue, send: HttpRequest -> HttpResponse): (r: FetchResult)
    ensures r.sent.None? <==> opts.headers.Dynamic? && opts.headers.produced.Threw?
    ensures r.sent.Some? ==> r.sent.value.verb == "GET" && r.sent.value.url == RequestUrl(opts.url, slug, input)
    ensures r.sent.Some? ==> r.sent.value.headers == MergeHeaders(if opts.headers.Static? then opts.headers.headers else opts.headers.produced.value)
    ensures r.sent.None? ==> r.outcome == Threw(opts.headers.produced.error)
    ensures r.sent.Some? ==> r.outcome == Unwrap(send(r.sent.value))
  {
    match opts.headers
    case Static(h) => SendWith(opts.url, slug, input, h, send)
    case Dynamic(Returned(h)) => SendWith(opts.url, slug, input, h, send)
    case Dynamic(Threw(t)) => FetchResult(Threw(t), None)
  }

  method GetTrpcFetch(opts: ClientOptions, slug: string, input: JsValue, send: HttpRequest -> HttpResponse)
    returns (outcome: Outcome<JsValue>, sent: Option<HttpRequest>)
    ensures FetchResult(outcome, sent) == Fetch(opts, slug, input, send)
  {
    var requestUrl := BuildRequestUrl(opts.url, slug, input);
    var headerObject: Headers;
    match opts.headers {
      case Static(h) =>
        headerObject := h;
      case Dynamic(produced) =>
        if produced.Threw? {
          return Threw(produced.error), None;
        }
        headerObject := produced.value;
    }
    var request := HttpRequest(requestUrl, "GET", MergeHeaders(headerObject));
    var response := send(request);
    outcome, sent := Unwrap(response), Some(request);
  }

  /** The function a client property holds: `getTrpcFetch` bound to a name and the client's options. */
  datatype FetchBinding = FetchBinding(slug: string, opts: ClientOptions)

  datatype ClientEntry = ClientEntry(fetch: FetchBinding)

  function Call(b: FetchBinding, input: JsValue, send: HttpRequest -> HttpResponse): FetchResult
  {
    Fetch(b.opts, b.slug, input, send)
  }

  /** The proxy's `get`: any string key gives a fetch bound to that key, a symbol gives undefined. */
  function Access(opts: ClientOptions, prop: PropertyKey): (r: Option<ClientEntry>)
    ensures r.Some? <==> prop.StrKey?
    ensures r.Some? ==> r.value.fetch == FetchBinding(prop.name, opts)
  {
    match prop
    case StrKey(name) => Some(ClientEntry(FetchBinding(name, opts)))
    case SymKey(_) => None
  }

  // ---- properties ----

  /** A falsy input adds no query string at all. */
  lemma NoQueryForFalsyInput(url: string, slug: string, input: JsValue)
    requires !Truthy(input)
    ensures RequestUrl(url, slug, input) == url + "/" + Kebabize(slug)
  {}

  /** An empty object is truthy, so it leaves a bare trailing `?`. */
  lemma EmptyObjectLeavesQuestionMark(url: string, slug: string)
    ensures RequestUrl(url, slug, Obj([])) == url + "/" + Kebabize(slug) + "?"
  {
    assert QueryPairs(Obj([])) == [];
  }

  /** Per-field values are sent as `String(value)`: a number and its text give the same URL. */
  lemma NumberAndTextShareUrl(url: string, slug: string, key: string, n: int)
    ensures RequestUrl(url, slug, Obj([Member(key, Num(n))])) == RequestUrl(url, slug, Obj([Member(key, Str(IntText(n)))]))
    ensures Obj([Member(key, Num(n))]) != Obj([Member(key, Str(IntText(n)))])
  {
    assert QueryPairs(Obj([Member(key, Num(n))])) == QueryPairs(Obj([Member(key, Str(IntText(n)))]));
  }

  /** Headers produced by a function are merged exactly as the same static headers. */
  lemma DynamicHeadersMergeLikeStatic(url: string, h: Headers, slug: string, input: JsValue, send: HttpRequest -> HttpResponse)
    ensures Fetch(ClientOptions(url, Dynamic(Returned(h))), slug, input, send) == Fetch(ClientOptions(url, Static(h)), slug, input, send)
    ensures Fetch(ClientOptions(url, Static(h)), slug, input, send).sent.value.headers == MergeHeaders(h)
  {}

  /** A header function that rejects makes the fetch reject the same way, before anything is sent. */
  lemma RejectedHeadersSendNothing(url: string, t: Thrown, slug: string, input: JsValue, send: HttpRequest -> HttpResponse)
    ensures Fetch(ClientOptions(url, Dynamic(Threw(t))), slug, input, send) == FetchResult(Threw(t), None)
  {}
}
