# next-trpc in Dafny

next-trpc is a small typed-RPC layer for Next.js. A server route exposes a
router of endpoints. Each endpoint is an action, optionally guarded by an
input contract. A client turns a procedure name into a GET request against
that route. This project models the parts of the library that decide what
goes over the wire and what comes back, and proves their properties:

- **Naming codec** (`naming.dfy`, `naming_vectors.dfy`). The client writes a
  procedure name such as `getUserProfile` into the URL path as
  `get-user-profile` (`kebabize`). The handler reads the segment back into a
  router key (`camelize`). The query clients derive their cache key by a
  second, inline rule: a hyphen before every capital, then lower case. The
  utilities module is not part of this model. Its two functions are defined
  here to match every expected value in `src/__tests__/utils.test.ts`, and
  each of those values is proved as a lemma.
- **Endpoints and routers** (`core.dfy`). An endpoint is an optional input
  contract plus an action. A router maps names to endpoints and is returned
  unchanged by `router` and `CtxRouter.router`.
- **The handler** (`api.dfy`). `createTrpcAPI` returns a request handler.
  Its early-return chain is modelled as it is written: missing segment,
  empty segment, unknown name. After that comes the `try` block: parse the
  input, build the context, call the action, answer 200. Last is the
  `catch` that classifies errors into 400 and 500.
  - `parseInput` keeps its loop. It is a method proved against the function
    that specifies the params object it fills: one entry per key, and the
    last value for a key wins.
- **The clients** (`transport.dfy`, `trpc_client.dfy`, `rpc_client.dfy`).
  `getTrpcFetch` builds the URL: base, `/`, the kebab name, then for a
  truthy input `?` and the form-encoded `key=String(value)` pairs. This
  step is a method with the source's append loop. It then merges headers
  over a default `Content-Type`, sends a GET, and unwraps the response
  (`data` on success, the `error` text or "Request failed" otherwise).
  `getRpcFetch` is a line-for-line duplicate and is proved equal. The
  proxies are functions from a property key to an optional entry.
- **The query clients** (`trpc_query_client.dfy`, `rpc_query_client.dfy`).
  For each property they give the plain client's fetch, plus a `useQuery`
  whose options object is the caller's options with `queryKey` and
  `queryFn` filled in.
- **The wire formats**:
  - The application/x-www-form-urlencoded serializer and parser of sections
    5.1 and 5.2 of the WHATWG URL Standard (`form_urlencoded.dfy`), over
    UTF-8 (`utf8.dfy`), with their round trip.
  - The envelope the handler answers with, as the client reads it
    (`wire.dfy`).
- **The input-token codec** (`json_text.dfy`, `json_round_trip.dfy`,
  `base64.dfy`, `base64_round_trip.dfy`, `input_token.dfy`). The
  serialization tests build requests with helpers of their own:
  1. JSON text of the whole input (RFC 8259), with NaN written as the
     string `"__NAN__"`;
  2. `btoa` of that text (section 4 of RFC 4648, defined on Latin-1 text);
  3. `encodeURIComponent`, as the single query parameter `input`.

  The tests expect the server to undo this: `atob`, then `JSON.parse` with a
  reviver that turns `"__NAN__"` back into NaN. The model proves that round
  trip and what it loses: undefined members vanish, and a genuine
  `"__NAN__"` string comes back as NaN.

JavaScript values are a datatype (`js_values.dfy`). Numbers are integers,
with NaN as a separate constructor. `String(v)` and `Object.entries` are
modelled for the values the clients meet.

Where the code, its tests and its example disagree, the model follows the code:

- **Two wire formats for the input.** The shown client and handler send and
  read one query parameter per field, each as `String(value)`
  (`src/create-trpc-client.ts:31-37`, `src/create-trpc-api.ts:7-20`). The
  serialization tests build their requests and expected URLs with helpers of
  their own, which send a single base64 `input` token
  (`src/__tests__/serialization-deserialization.test.ts:6-29`). The client
  and handler are modelled as written. The token codec is a separate module
  pinned to those helpers, and no lemma claims the shown handler reads it.
  - A consequence of the per-field format is proved: it is not injective. A
    number and its decimal text produce the same URL
    (`TrpcClient.NumberAndTextShareUrl`).
- **Encoding the token.** The helpers call `btoa` on the JSON text directly,
  with no UTF-8 step before it, so a character above U+00FF makes them throw.
  The model follows the helpers: `Token` is `None` exactly when the JSON text
  is not Latin-1.
- **Capital runs.** The two naming rules differ on runs of capitals. The
  tests expect `XMLHttpRequest` to become `xml-http-request`, so for
  `kebabize` a capital run stays one segment
  (`src/__tests__/utils.test.ts:13-15`). The query clients' inline key rule
  puts a hyphen before every capital (`src/create-trpc-query-client.ts:45`).
  `Naming.DashedKeyAgreesWithKebabize` states exactly when the two agree.
- **`useQuery` input.** The example component passes `{input: {orgSlug}}` to
  `useQuery` (`example/components/client-comp.tsx:11-15`). The hook spreads
  that argument into React Query's options, so the input never reaches the
  server. React Query calls `queryFn` with its own query-function context
  (`queryKey`, `signal`, `meta`). `getTrpcFetch` and `getRpcFetch` take that
  object as their input, and it is truthy, so the hook's real GET carries
  the context's fields as query parameters. The model states only the call
  without an argument, which is how the mocked tests call it
  (`src/__tests__/create-trpc-query-client.test.ts:270-281`).

## Model

| member | source | states |
|---|---|---|
| Naming.KebabizeNoUpper | src/__tests__/utils.test.ts:5-35 | the kebab form of any name holds no upper-case letter |
| Naming.KebabizeWithoutCapitals | src/__tests__/utils.test.ts:21-27 | a name without capitals (lower case, digits, empty) is its own kebab form |
| Naming.KebabCopiesRun | src/__tests__/utils.test.ts:29-31 | a stretch of the name without capitals is copied unchanged into the kebab form |
| Naming.KebabHyphenOnlyBeforeCapital | src/__tests__/utils.test.ts:5-35 | the kebab form of a suffix starts with an inserted hyphen exactly when its first character is a capital opening a segment: not first, and after a non-capital or ending a capital run before a lower-case letter |
| Naming.KebabizeEmpty | src/__tests__/utils.test.ts:25-27 | the kebab form is empty if and only if the name is |
| Naming.CamelizeWithoutHyphens | src/__tests__/utils.test.ts:51-57 | a string without hyphens, the empty one included, is its own camel form |
| Naming.CamelizeCopiesRun | src/__tests__/utils.test.ts:39-49 | a hyphen-free prefix is copied unchanged and camelize continues on the rest |
| Naming.CamelizeHyphen | src/__tests__/utils.test.ts:59-65 | a hyphen and the character after it become that character upper-cased |
| Naming.CamelizeWord | src/__tests__/utils.test.ts:39-49 | camelize works word by word: a hyphen-free word, then the character after the hyphen upper-cased |
| Naming.CamelizeKebabize | src/create-trpc-api.ts:55 | routing round trip: camelize undoes kebabize for names that start in lower case and have no adjacent capitals and no hyphen |
| Naming.DashedKeyNoUpper | src/create-trpc-query-client.ts:45 | the query-key rule never leaves an upper-case letter |
| Naming.DashedCopiesRun | src/create-trpc-query-client.ts:45 | a stretch without capitals is copied unchanged into the query key |
| Naming.DashedKeyAgreesWithKebabize | src/create-trpc-query-client.ts:45 | the query-key rule and kebabize give the same string if and only if every capital of the name opens a kebab segment |
| Naming.KebabFromAfter | src/__tests__/utils.test.ts:5-35 | kebabize from any position equals the left-to-right reading that knows only the character before that position |
| Naming.KebabizeLeftToRight | src/__tests__/utils.test.ts:5-35 | kebabize of a whole name equals the left-to-right reading started with no previous character |
| Naming.KebabAfterRun | src/__tests__/utils.test.ts:29-31 | a non-empty stretch without capitals is copied unchanged, and the reading continues after its last character |
| Naming.KebabAfterChar | src/__tests__/utils.test.ts:5-35 | one character is lower-cased, with a hyphen before it exactly when it is a capital opening a segment |
| Naming.KebabAfterCapitals | src/__tests__/utils.test.ts:13-15 | a run of capitals at the start or after a capital, not followed by a lower-case letter, stays in one segment, lower-cased |
| Naming.DashedFromSuffix | src/create-trpc-query-client.ts:45 | the query-key rule from a position equals the rule applied to the suffix there |
| Naming.DashedKeyCons | src/create-trpc-query-client.ts:45 | the query key of a name is its first character, hyphenated and lower-cased when it is a capital, followed by the key of the rest |
| Naming.DashedKeyAppend | src/create-trpc-query-client.ts:45 | the query key of a concatenation is the concatenation of the keys: the rule looks at each character alone |
| Naming.DashedKeyWithoutCapitals | src/create-trpc-query-client.ts:45 | a name without capitals is its own query key |
| NamingVectors.KebabizeCamelCase | src/__tests__/utils.test.ts:6 | `camelCase` becomes `camel-case` |
| NamingVectors.KebabizePascalCase | src/__tests__/utils.test.ts:10 | `PascalCase` becomes `pascal-case` |
| NamingVectors.KebabizeXmlHttpRequest | src/__tests__/utils.test.ts:14 | `XMLHttpRequest` becomes `xml-http-request` |
| NamingVectors.KebabizeTest | src/__tests__/utils.test.ts:18 | `Test` becomes `test` |
| NamingVectors.KebabizeLowercase | src/__tests__/utils.test.ts:22 | `lowercase` is unchanged |
| NamingVectors.KebabizeEmptyString | src/__tests__/utils.test.ts:26 | the empty string is unchanged |
| NamingVectors.KebabizeWithNumbers | src/__tests__/utils.test.ts:30 | `test123Case` becomes `test123-case` |
| NamingVectors.KebabizeHtmlParser | src/__tests__/utils.test.ts:34 | `HTMLParser` becomes `html-parser` |
| NamingVectors.CamelizeKebabCase | src/__tests__/utils.test.ts:40 | `kebab-case` becomes `kebabCase` |
| NamingVectors.CamelizeMultiWord | src/__tests__/utils.test.ts:44 | `multi-word-string` becomes `multiWordString` |
| NamingVectors.CamelizeSingleWord | src/__tests__/utils.test.ts:48 | `single-word` becomes `singleWord` |
| NamingVectors.CamelizeNoHyphens | src/__tests__/utils.test.ts:52 | `noHyphens` is unchanged |
| NamingVectors.CamelizeEmptyString | src/__tests__/utils.test.ts:56 | the empty string is unchanged |
| NamingVectors.CamelizeLeadingHyphen | src/__tests__/utils.test.ts:60 | `-test` becomes `Test` |
| NamingVectors.CamelizeConsecutiveHyphens | src/__tests__/utils.test.ts:64 | `test--case` becomes `test-case` |
| NamingVectors.QueryKeyUserProfile | src/__tests__/create-trpc-query-client.test.ts:107-112 | the query key of `getUserProfile` is `get-user-profile` |
| NamingVectors.QueryKeyXmlData | src/__tests__/create-trpc-query-client.test.ts:133-147 | the query key of `getXMLData` is `get-x-m-l-data` |
| NamingVectors.SegmentUserProfile | src/__tests__/create-trpc-client.test.ts:149-167 | the URL segment of `getUserProfile` is `get-user-profile` |
| NamingVectors.SegmentXmlData | src/create-trpc-client.ts:27 | the URL segment of `getXMLData` is `get-xml-data`, unlike its query key |
| NamingVectors.RoutingUserProfile | src/__tests__/create-trpc-api.test.ts:207-223 | the handler reads `get-user-profile` as `getUserProfile` |
| NamingVectors.RoutingXmlHttpRequest | src/create-trpc-api.ts:55 | the handler reads `xml-http-request` as `xmlHttpRequest`, which is not `XMLHttpRequest` |
| Core.InputAction | src/core.ts:25-31 | `endpoint.input(schema).action(f)` has input exactly `schema` and action exactly `f` |
| Core.ActionOnly | src/core.ts:33-37 | `endpoint.action(f)` has no input and action `f` |
| Core.MakeRouter | src/core.ts:42 | `router(r)` has the same names and the same endpoints as `r` |
| Core.CtxRouter.Route | src/core.ts:45-47 | `CtxRouter.router(r)` has the same names and endpoints as `r` |
| Core.BuildersDifferInInput | src/core.ts:9 | the two builders are told apart by the presence of `input` alone, whatever the actions |
| Api.ParseInput | src/create-trpc-api.ts:7-20 | the loop yields undefined without a contract, and otherwise the contract's verdict on the params object the pairs fill, a `__proto__` pair leaving it unchanged |
| Api.ParamsObjectKeys | src/create-trpc-api.ts:14-16 | the params object has a key if and only if some query pair has that name and the name is not `__proto__`, whose assignment runs the prototype setter and stores nothing |
| Api.ParamsObjectLastWins | src/create-trpc-api.ts:14-16 | a key holds the value of its last occurrence in the query; `__proto__` holds nothing |
| Api.BuildContext | src/create-trpc-api.ts:71-77 | the context is the factory's fields plus `request`, which overrides a field of that name |
| Api.ContextWithoutFactory | src/create-trpc-api.ts:71 | without a factory the context is exactly `{request}` |
| Api.ActionArgs | src/create-trpc-api.ts:72-77 | with a contract the action gets (input, context); without one it gets the context alone |
| Api.Caught | src/create-trpc-api.ts:80-92 | an `Error` with `issues` gives 400 "Invalid request data" with its message as details; anything else gives 500 "Internal Server Error" |
| Api.Invoke | src/create-trpc-api.ts:69-92 | 200 exactly when the action was called and returned; the body is then `{data: result}`; a failed parse runs neither the factory nor the action |
| Api.Handle | src/create-trpc-api.ts:33-93 | the status is 200, 400 or 500; 200 exactly when there is no error text; every failure has `data: null` and a non-empty error |
| Api.MissingSegment | src/create-trpc-api.ts:35-43 | without `trpc` the answer is the fixed 400 envelope, independent of router, query and factory |
| Api.EmptySegment | src/create-trpc-api.ts:44-53 | an empty segment gives the fixed 400 envelope |
| Api.UnknownEndpoint | src/create-trpc-api.ts:55-65 | a camelized name missing from the router gives 400 "No <name> endpoints found in the router object." |
| Api.Routed | src/create-trpc-api.ts:55-67 | a known camelized name runs that endpoint |
| Api.ClientSegmentReachesEndpoint | src/create-trpc-api.ts:55 | the segment the client writes for a name with no adjacent capitals or hyphens routes back to that name's endpoint |
| Api.Success | src/create-trpc-api.ts:69-79 | when parse, factory and action succeed, the answer is 200 with exactly `{data: result}` and the action saw the expected arguments |
| Api.ValidationError | src/create-trpc-api.ts:70-87 | a contract violation gives 400 with the message as details, before the factory or the action runs |
| Api.ActionThrows | src/create-trpc-api.ts:73-92 | an action that throws after a successful parse reaches the catch: 500 with exactly `{data: null, error: "Internal Server Error"}` for a plain error, 400 with details for an error carrying `issues` |
| Api.FactoryThrows | src/create-trpc-api.ts:71-92 | a context factory that throws after a successful parse reaches the same catch, with the same 400/500 split, and the action is never called |
| Api.InternalErrorHidesMessage | src/create-trpc-api.ts:89-92 | every other throw gives the same 500 envelope, whatever its message |
| Transport.QueryPairs | src/create-trpc-client.ts:33-35 | one pair per entry of the input, in entry order, holding the key and `String(value)` |
| Transport.MergeHeaders | src/create-trpc-client.ts:43-46 | the merged headers are the configured ones plus `Content-Type`, which defaults to `application/json` and can be overridden |
| Transport.Unwrap | src/create-trpc-client.ts:49-55 | ok gives the body's `data`; not-ok rejects with an `Error` of the body's truthy `error`; a JSON failure rejects as it did |
| Transport.UnwrapFallbackMessage | src/create-trpc-client.ts:51 | a not-ok body without a truthy `error` rejects with "Request failed" |
| TrpcClient.BuildRequestUrl | src/create-trpc-client.ts:27-37 | the loop builds base + `/` + kebab name, then `?` and the serialized pairs for a truthy input |
| TrpcClient.Fetch | src/create-trpc-client.ts:18-56 | a GET with the merged headers goes to the request URL unless the header function rejects, in which case nothing is sent and the fetch rejects with that error; otherwise the outcome is the unwrapped response |
| TrpcClient.GetTrpcFetch | src/create-trpc-client.ts:26-56 | the imperative fetch ends with the request and outcome `Fetch` specifies |
| TrpcClient.Access | src/create-trpc-client.ts:69-79 | any string key gives a fetch bound to that key and the options; a symbol gives undefined |
| TrpcClient.NoQueryForFalsyInput | src/create-trpc-client.ts:30-31 | a falsy input leaves the URL without a query string |
| TrpcClient.EmptyObjectLeavesQuestionMark | src/create-trpc-client.ts:31-36 | an empty object is truthy and leaves a bare trailing `?` |
| TrpcClient.NumberAndTextShareUrl | src/create-trpc-client.ts:34 | a number and its decimal text give the same URL although the inputs differ |
| TrpcClient.DynamicHeadersMergeLikeStatic | src/create-trpc-client.ts:39-46 | headers from a function are merged exactly like the same static headers |
| TrpcClient.RejectedHeadersSendNothing | src/create-trpc-client.ts:39-40 | a rejecting header function rejects the fetch before anything is sent |
| RpcClient.BuildRequestUrl | src/create-rpc-client.ts:27-37 | the loop builds base + `/` + kebab name, then `?` and the serialized pairs for a truthy input |
| RpcClient.Fetch | src/create-rpc-client.ts:18-56 | a GET with the merged headers goes to the request URL unless the header function rejects, in which case nothing is sent and the fetch rejects with that error; otherwise the outcome is the unwrapped response |
| RpcClient.GetRpcFetch | src/create-rpc-client.ts:26-56 | the imperative fetch ends with the request and outcome `Fetch` specifies |
| RpcClient.Access | src/create-rpc-client.ts:70-80 | a string key gives a fetch bound to it; a symbol gives undefined |
| RpcClient.RpcFetchIsTrpcFetch | src/create-rpc-client.ts:18-56 | `getRpcFetch` and `getTrpcFetch` agree on every options, name, input and transport |
| RpcClient.RpcClientIsTrpcClient | src/create-rpc-client.ts:64-82 | both proxies answer the same keys, and their fetches agree |
| TrpcQueryClient.QueryKey | src/create-trpc-query-client.ts:45-48 | the key is a one-element list holding the hyphen-before-every-capital, lower-cased name |
| TrpcQueryClient.HookOptions | src/create-trpc-query-client.ts:46-53 | the hook gets the caller's options unchanged except `queryKey` and `queryFn`, which are always set |
| TrpcQueryClient.HookOptionsWithoutCallerOptions | src/create-trpc-query-client.ts:46-53 | without caller options the hook gets exactly `queryKey` and `queryFn` |
| TrpcQueryClient.Access | src/create-trpc-query-client.ts:32-57 | a string key gives `{fetch, useQuery}` bound to it; a symbol gives undefined |
| TrpcQueryClient.QueryFnIsFetch | src/create-trpc-query-client.ts:35-52 | `queryFn` is the entry's own fetch, and called without input it is the plain no-input GET to base + `/` + kebab name |
| TrpcQueryClient.QueryKeyVersusSegment | src/create-trpc-query-client.ts:45 | the key equals the URL segment exactly when every capital opens a kebab segment |
| RpcQueryClient.QueryKey | src/create-rpc-query-client.ts:58-61 | the key is a one-element list holding the hyphen-before-every-capital, lower-cased name |
| RpcQueryClient.HookOptions | src/create-rpc-query-client.ts:59-66 | the hook gets the caller's options unchanged except `queryKey` and `queryFn`, which are always set |
| RpcQueryClient.HookOptionsWithoutCallerOptions | src/create-rpc-query-client.ts:59-66 | without caller options the hook gets exactly `queryKey` and `queryFn` |
| RpcQueryClient.Access | src/create-rpc-query-client.ts:45-70 | a string key gives `{fetch, useQuery}` bound to it; a symbol gives undefined |
| RpcQueryClient.QueryFnIsFetch | src/create-rpc-query-client.ts:48-65 | `queryFn` and `fetch` are the same `getRpcFetch` binding, and called without input it is the plain no-input GET |
| RpcQueryClient.QueryKeyVersusSegment | src/create-rpc-query-client.ts:58 | the key equals the URL segment exactly when every capital opens a kebab segment |
| Wire.ClientReadsEnvelope | src/create-trpc-client.ts:49-55 | on any handler answer the client settles with the action's result on 200 and rejects with the handler's error text otherwise |
| Wire.ParamsOfMembers | src/create-trpc-api.ts:14-16 | for an object input, the handler's params object has one key per member name other than `__proto__`, holding `String` of that member's last value |
| Wire.ServerReadsClientQuery | src/create-trpc-client.ts:31-36 | the query string the client writes parses back to exactly its pairs, and the contract sees `String(value)` per member, except a member named `__proto__`, which it does not see |
| JsValues.Entries | src/create-trpc-client.ts:33 | `Object.entries`: an object's members, an array's or string's indexed elements, nothing for other values |
| JsValues.NumberAndItsTextConvertAlike | src/create-trpc-client.ts:34 | `String(n)` and `String(String(n))` coincide for distinct values |
| JsValues.NumberTextInjective | src/create-trpc-client.ts:34 | distinct integers have distinct `String` texts |
| Utf8.DecodeEncode | src/create-trpc-client.ts:34-36 | UTF-8 decoding undoes UTF-8 encoding on every string |
| FormUrlencoded.SerializeBytesPlain | src/create-trpc-client.ts:36 | a serialized name or value holds no `&`, no `=` and only ASCII |
| FormUrlencoded.ParseSerializeComponent | src/create-trpc-client.ts:34-36 | every name and value reads back as written |
| FormUrlencoded.ParseSerialize | src/create-trpc-client.ts:32-36 | the parser reads back exactly the pairs the serializer wrote, in order |
| JsonText.Stringify | src/__tests__/serialization-deserialization.test.ts:7-12 | `JSON.stringify` gives no text exactly for undefined |
| JsonRoundTrip.ParseStringify | src/__tests__/serialization-deserialization.test.ts:957-995 | parsing the text of any value without the sentinel string gives the value with undefined members dropped and undefined elements nulled |
| JsonRoundTrip.NormalizeDefined | src/__tests__/serialization-deserialization.test.ts:957-995 | a value with no undefined anywhere is its own normal form |
| JsonRoundTrip.NormalizeMembersNames | src/__tests__/serialization-deserialization.test.ts:283-314 | after the round trip an object has exactly the members whose value was defined |
| JsonRoundTrip.TextNormalize | src/__tests__/serialization-deserialization.test.ts:283-314 | a value and its normal form have the same JSON text |
| JsonRoundTrip.TextKeepsStringsApart | src/__tests__/serialization-deserialization.test.ts:862-899 | the string `"123"` and the number 123 have different texts |
| JsonRoundTrip.SentinelStringBecomesNaN | src/__tests__/serialization-deserialization.test.ts:7-11 | a genuine `"__NAN__"` string has NaN's text and is read back as NaN |
| Base64.Encode | src/__tests__/serialization-deserialization.test.ts:13 | the output has 4 characters per started 3-byte group, all from the alphabet or `=` |
| Base64.Btoa | src/__tests__/serialization-deserialization.test.ts:13 | `btoa` succeeds exactly on Latin-1 text |
| Base64.Atob | src/__tests__/serialization-deserialization.test.ts:414-432 | what `atob` yields is Latin-1 text |
| Base64RoundTrip.DecodeEncode | src/__tests__/serialization-deserialization.test.ts:13 | decoding undoes encoding on every byte string |
| Base64RoundTrip.EncodeInjective | src/__tests__/serialization-deserialization.test.ts:13 | distinct byte strings have distinct encodings |
| Base64RoundTrip.AtobBtoa | src/__tests__/serialization-deserialization.test.ts:13 | on Latin-1 text `btoa` succeeds, uses only the alphabet and `=`, and `atob` gives the text back |
| InputToken.Serialized | src/__tests__/serialization-deserialization.test.ts:7-12 | the text `btoa` receives is the JSON text, or "undefined" for an undefined input |
| InputToken.Token | src/__tests__/serialization-deserialization.test.ts:6-14 | a token exists exactly when the JSON text is Latin-1 |
| InputToken.First | src/__tests__/serialization-deserialization.test.ts:26-27 | `get` finds a value exactly when a pair has the name, and the value is that of the first such pair |
| InputToken.EscapeTokenLikeForm | src/__tests__/serialization-deserialization.test.ts:14 | on base64 text `encodeURIComponent` escapes exactly like the form serializer |
| InputToken.EscapedBase64Chars | src/__tests__/serialization-deserialization.test.ts:14 | the escaped token holds only letters, digits and `%` escapes |
| InputToken.QueryCarriesMockParams | src/__tests__/serialization-deserialization.test.ts:6-29 | the URL query the client helper writes parses to exactly the parameters the request helper sets |
| InputToken.DecodeTokenOfToken | src/__tests__/serialization-deserialization.test.ts:957-995 | decoding the token of a defined input without the sentinel string gives its JSON normal form |
| InputToken.ServerReadsClientToken | src/__tests__/serialization-deserialization.test.ts:414-432 | end to end, the server reads from the client's query the JSON normal form of the input |
| InputToken.DefinedInputArrivesUnchanged | src/__tests__/serialization-deserialization.test.ts:957-995 | an input with no undefined anywhere, NaN and empty arrays and objects included, arrives deep-equal |
| InputToken.UndefinedMembersLeaveNoTrace | src/__tests__/serialization-deserialization.test.ts:283-314 | an input and its normal form have the same token |
| InputToken.UndefinedInputToken | src/__tests__/serialization-deserialization.test.ts:7-13 | an undefined input still gets a token, but one that does not decode |

## Left out

- Promise/await, `fetch`, `NextRequest` and `NextResponse` are not modelled as such. The transport is a function parameter from request to response. The contract, context factory and action are abstract outcomes (a value or a thrown error).
- The JSON layer between `NextResponse.json` and `response.json()` is not modelled. `Wire` hands the envelope object to the client directly.
- React Query and the hook itself are left out. Only the options object handed to the hook is modelled.
- The JavaScript `Proxy` mechanics are left out. Each accessor is a function from a string or symbol key to an optional entry.
- Api.Handle: the router is a finite map of own keys. The `in` operator's prototype lookup (a `toString` segment) and the falsy-value check are not modelled, because every entry is an endpoint.
- Api.Handle: the segment is a single string. Catch-all routes, where `params.trpc` is an array, are not modelled.
- Api.BuildContext: the factory's result is a map of fields. A non-object result and its spread are not modelled.
- TrpcClient.Fetch: `...opts` is spread after `endpointSlug`, so options carrying their own `endpointSlug` would override the name. The model binds the name given.
- Transport.MergeHeaders: headers are a string map. The other `HeadersInit` forms and the case-insensitivity of header names are not modelled.
- Transport.ReadOfNothing: the text of the `TypeError` thrown by reading a property of null or undefined follows V8's wording; only the fact of the rejection is relied on.
- JsValues.Entries: an object's members are kept in their list order, with repeated names allowed. JavaScript lists integer-like keys first and has unique keys.
- JsValues.Entries: strings are sequences of Unicode code points. `Object.entries` on a string yields UTF-16 code units, so a character outside the Basic Multilingual Plane gives two entries in JavaScript and one here.
- JsValues.ToJsString: numbers are integers. IEEE-754 doubles, `-0`, `Infinity`, fractions and exponents are not modelled, and neither are the texts of objects with custom `toString`.
- Utf8.Decode: malformed UTF-8 gives `None`, where the URL Standard substitutes U+FFFD. The round-trip lemmas only decode well-formed text.
- Base64.Atob: whitespace and unpadded input, which the forgiving-base64 decoder of `atob` accepts, are rejected here. The round trip only decodes what `btoa` wrote.
- JsonText.Parse: only the compact text `JSON.stringify` writes is read. Whitespace, fractions, exponents and duplicate keys are not handled.
- InputToken.ReadQuery: this is the token reading the tests expect of the server. The shown handler does not read the token, and what it does when the token fails to decode is not modelled.
- Naming.DashedCopiesRun: case mapping is ASCII-only. `.toLowerCase()` also lower-cases non-ASCII capitals (`É` becomes `é`) inside the stretch, which the model copies unchanged. Full Unicode case mapping is not modelled.
- Naming.DashedKeyCons: case mapping is ASCII-only. A non-ASCII capital first character is kept by the model and lower-cased by `.toLowerCase()`.
- Naming.DashedKeyAppend: case mapping is ASCII-only and per character. `.toLowerCase()` lower-cases every Unicode capital and is context-sensitive for the Greek final sigma (`ΑΣ` gives `ας`, the halves alone give `α` and `σ`), so for such names the source's key of a concatenation is not the concatenation of the keys.
- Naming.DashedKeyWithoutCapitals: "capital" means `A`-`Z`. A name whose only capitals are non-ASCII is lower-cased by the source and kept by the model.
- TrpcQueryClient.QueryKey: the key lower-cases only `A`-`Z`, where `.toLowerCase()` lower-cases every Unicode capital (`getÉtat` gives `getétat` in the source and `getÉtat` here). The regular expression `[A-Z]` that inserts hyphens is ASCII in both.
- RpcQueryClient.QueryKey: the same ASCII-only lower-casing as TrpcQueryClient.QueryKey.
- TrpcQueryClient.QueryFnIsFetch: React Query calls `queryFn` with its query-function context object, which the fetch takes as its input. That argument, and the query parameters it produces, are not modelled. The lemma states the call without an argument, as the mocked tests make it.
- RpcQueryClient.QueryFnIsFetch: the same as TrpcQueryClient.QueryFnIsFetch. The context object React Query passes is not modelled.
- Api.ClientSegmentReachesEndpoint: the client interpolates the kebab name into the URL path without escaping it, and URL path parsing, percent-decoding and dot-segment removal are not modelled. The lemma assumes the segment arrives verbatim, which fails for router keys holding `/`, `?`, `#`, `%` or `\` and for the keys `.` and `..`.
- The `EndpointClient` type and the `ctxRouter.endpoint` member, which the tests use but the source does not define, are not part of this model. TypeScript's conditional and mapped types are compile-time only.
