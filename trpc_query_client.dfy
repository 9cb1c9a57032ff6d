/**
 * `createTrpcQueryClient`: each string property gives the plain client's
 * fetch plus a `useQuery` that hands the configured query hook the caller's
 * options with a query key and a query function filled in.
 */
module TrpcQueryClient {
  import opened Wrappers
  import opened JsValues
  import opened Naming
  import opened Transport
  import opened TrpcClient

  /** A value in a query options object. */
  datatype OptionValue = Plain(v: JsValue) | KeyList(key: seq<string>) | QueryFn(fn: FetchBinding)

  type QueryOptions = map<string, OptionValue>

  /** The `useQuery` member of a property: bound to the property name and the client's options. */
  datatype HookBinding = HookBinding(name: string, opts: ClientOptions)

  datatype QueryEntry = QueryEntry(fetch: FetchBinding, useQuery: HookBinding)

  /** The query key: the name with `-` before each capital, lower-cased, as a one-element list. */
  function QueryKey(name: string): (key: seq<string>)
    ensures |key| == 1 && key[0] == DashedKey(name)
  {
    [DashedKey(name)]
  }

  /** The options object `useQuery(queryOptions)` passes to the hook. */
  function HookOptions(h: HookBinding, queryOptions: Option<QueryOptions>): (o: QueryOptions)
    ensures "queryKey" in o && o["queryKey"] == KeyList(QueryKey(h.name))
    ensures "queryFn" in o && o["queryFn"] == QueryFn(FetchBinding(h.name, h.opts))
    ensures forall k :: k != "queryKey" && k != "queryFn" ==>
      (k in o <==> queryOptions.Some? && k in queryOptions.value)
    ensures forall k :: k != "queryKey" && k != "queryFn" && k in o ==> o[k] == queryOptions.value[k]
  {
    var given := if queryOptions.Some? then queryOptions.value else map[];
    given["queryKey" := KeyList(QueryKey(h.name))]["queryFn" := QueryFn(FetchBinding(h.name, h.opts))]
  }

  /** The proxy's `get`: a string key gives `{fetch, useQuery}`, a symbol gives undefined. */
  function Access(opts: ClientOptions, prop: PropertyKey): (r: Option<QueryEntry>)
    ensures r.Some? <==> prop.StrKey?
    ensures r.Some? ==> r.value.fetch == FetchBinding(prop.name, opts) && r.value.useQuery == HookBinding(prop.name, opts)
  {
    match prop
    case StrKey(name) => Some(QueryEntry(FetchBinding(name, opts), HookBinding(name, opts)))
    case SymKey(_) => None
  }

  /** Without caller options the hook gets exactly the key and the query function. */
  lemma HookOptionsWithoutCallerOptions(h: HookBinding)
    ensures HookOptions(h, None).Keys == {"queryKey", "queryFn"}
  {}

  /** The query function is the entry's own fetch: called without input it is the plain client's no-input GET. */
  lemma QueryFnIsFetch(opts: ClientOptions, name: string, queryOptions: Option<QueryOptions>, send: HttpRequest -> HttpResponse)
    ensures HookOptions(Access(opts, StrKey(name)).value.useQuery, queryOptions)["queryFn"] == QueryFn(Access(opts, StrKey(name)).value.fetch)
    ensures Call(Access(opts, StrKey(name)).value.fetch, Undefined, send) == Fetch(opts, name, Undefined, send)
    ensures Fetch(opts, name, Undefined, send).sent.Some? ==> Fetch(opts, name, Undefined, send).sent.value.url == opts.url + "/" + Kebabize(name)
  {}

  /** The query key and the URL segment differ exactly where a capital does not open a kebab segment. */
  lemma QueryKeyVersusSegment(name: string)
    ensures QueryKey(name)[0] == Kebabize(name) <==> CapitalsOpenSegments(name, 0)
  {
    DashedKeyAgreesWithKebabize(name);
  }
}
