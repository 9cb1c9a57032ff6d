/**
 * The rpc flavour of the client: `getRpcFetch` and `createRpcClient`, written
 * out again beside the trpc client and proved to behave the same.
 */
module RpcClient {
  import opened Wrappers
  import opened JsValues
  import opened Naming
  import opened Core
  import opened FormUrlencoded
  import opened Transport
  import TrpcClient

  function RequestUrl(url: string, slug: string, input: JsValue): string
  {
    var path := url + "/" + Kebabize(slug);
    if Truthy(input) then path + "?" + Serialize(QueryPairs(input)) else path
  }

  method BuildRequestUrl(url: string, slug: string, input: JsValue) returns (requestUrl: string)
    ensures requestUrl == RequestUrl(url, slug, input)
  {
    var endpointName := Kebabize(slug);
    requestUrl := url + "/" + endpointName;
    if Truthy(input) {
      var searchParams: seq<Pair> := [];
      var entries := Entries(input);
      for i := 0 to |entries|
        invariant searchParams == QueryPairs(input)[..i]
      {
        searchParams := searchParams + [(entries[i].key, ToJsString(entries[i].value))];
      }
      assert searchParams == QueryPairs(input);
      requestUrl := requestUrl + "?" + Serialize(searchParams);
    }
  }

  /** One call of the function `getRpcFetch({endpointSlug: slug, ...opts})` returns. */
  function Fetch(opts: ClientOptions, slug: string, input: JsValue, send: HttpRequest -> HttpResponse): (r: FetchResult)
    ensures r.sent.None? <==> opts.headers.Dynamic? && opts.headers.produced.Threw?
    ensures r.sent.Some? ==> r.sent.value.verb == "GET" && r.sent.value.url == RequestUrl(opts.url, slug, input)
    ensures r.sent.None? ==> r.outcome == Threw(opts.headers.produced.error)
    ensures r.sent.Some? ==> r.sent.value.headers == MergeHeaders(if opts.headers.Static? then opts.headers.headers else opts.headers.produced.value)
    ensures r.sent.Some? ==> r.outcome == Unwrap(send(r.sent.value))
  {
    match opts.headers
    case Static(h) =>
      var request := HttpRequest(RequestUrl(opts.url, slug, input), "GET", MergeHeaders(h));
      FetchResult(Unwrap(send(request)), Some(request))
    case Dynamic(Returned(h)) =>
      var request := HttpRequest(RequestUrl(opts.url, slug, input), "GET", MergeHeaders(h));
      FetchResult(Unwrap(send(request)), Some(request))
    case Dynamic(Threw(t)) => FetchResult(Threw(t), None)
  }

  method GetRpcFetch(opts: ClientOptions, slug: string, input: JsValue, send: HttpRequest -> HttpResponse)
    returns (outcome: Outcome<JsValue>, sent: Option<HttpRequest>)
    ensures FetchResult(outcome, sent) == Fetch(opts, slug, input, send)
  {
    var requestUrl := BuildRequestUrl(opts.url, slug, input);
    var headerObject: Headers;
    match opts.headers {
      case Static(h) =>
        headerObject := h;
      case Dynamic(produced) =>
        if produced.Threw? {
          return Threw(produced.error), None;
        }
        headerObject := produced.value;
    }
    var request := HttpRequest(requestUrl, "GET", MergeHeaders(headerObject));
    var response := send(request);
    outcome, sent := Unwrap(response), Some(request);
  }

  datatype RpcBinding = RpcBinding(slug: string, opts: ClientOptions)

  datatype RpcEntry = RpcEntry(fetch: RpcBinding)

  function Call(b: RpcBinding, input: JsValue, send: HttpRequest -> HttpResponse): FetchResult
  {
    Fetch(b.opts, b.slug, input, send)
  }

  /** The proxy's `get`: a string key gives a fetch bound to it, a symbol gives undefined. */
  function Access(opts: ClientOptions, prop: PropertyKey): (r: Option<RpcEntry>)
    ensures r.Some? <==> prop.StrKey?
    ensures r.Some? ==> r.value.fetch == RpcBinding(prop.name, opts)
  {
    match prop
    case StrKey(name) => Some(RpcEntry(RpcBinding(name, opts)))
    case SymKey(_) => None
  }

  /** `getRpcFetch` and `getTrpcFetch` agree on every options, name, input and transport. */
  lemma RpcFetchIsTrpcFetch(opts: ClientOptions, slug: string, input: JsValue, send: HttpRequest -> HttpResponse)
    ensures Fetch(opts, slug, input, send) == TrpcClient.Fetch(opts, slug, input, send)
  {}

  /** Both proxies answer the same keys, and what they bind fetches the same. */
  lemma RpcClientIsTrpcClient(opts: ClientOptions, prop: PropertyKey, input: JsValue, send: HttpRequest -> HttpResponse)
    ensures Access(opts, prop).Some? <==> TrpcClient.Access(opts, prop).Some?
    ensures Access(opts, prop).Some? ==>
      Call(Access(opts, prop).value.fetch, input, send) == TrpcClient.Call(TrpcClient.Access(opts, prop).value.fetch, input, send)
  {
    if prop.StrKey? {
      RpcFetchIsTrpcFetch(opts, prop.name, input, send);
    }
  }
}
