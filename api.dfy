/**
 * The server-side handler: it routes a request by its `[trpc]` path segment to
 * a router entry, validates the query against the entry's contract, builds the
 * context, runs the action and wraps the outcome in a JSON envelope.
 */
module Api {
  import opened Wrappers
  import opened JsValues
  import opened Naming
  import opened Core
  import opened FormUrlencoded

  /** The response envelope `{data, error?, details?}`. */
  datatype Body = Body(data: JsValue, error: Option<string>, details: Option<string>)

  /** The context factory given to the handler, if any, and how its call ends for this request. */
  datatype CtxFactory = NoFactory | Factory(result: Outcome<map<string, JsValue>>)

  /**
   * What one request leads to: the status and envelope of the response, whether
   * the context factory was called, and the arguments the action was called with.
   */
  datatype Handled = Handled(status: int, body: Body, factoryCalled: bool, actionArgs: Option<seq<Arg>>)

  const MissingSegmentMessage: string := "You must call createAPI in a [trpc]/route.ts file."
  const EmptySegmentMessage: string := "You must pass a params in your [trpc]/you-must-put-a-param-here call"
  const InvalidDataMessage: string := "Invalid request data"
  const InternalErrorMessage: string := "Internal Server Error"

  function NotFoundMessage(name: string): string
  {
    "No " + name + " endpoints found in the router object."
  }

  // ---- parseInput ----

  /**
   * The one key an assignment on a `{}` literal cannot create: `obj["__proto__"] = s`
   * runs the prototype setter, which ignores a string, so the object is left as it was.
   */
  const ProtoKey: string := "__proto__"

  /**
   * The object the query pairs fill in: one entry per key, the last value for a
   * key winning, and nothing for `__proto__`.
   */
  function ParamsObject(query: seq<Pair>): map<string, string>
  {
    if query == [] then map[]
    else if query[|query| - 1].0 == ProtoKey then ParamsObject(query[..|query| - 1])
    else ParamsObject(query[..|query| - 1])[query[|query| - 1].0 := query[|query| - 1].1]
  }

  /** What `parseInput` yields: undefined without a contract, else the contract's verdict on the params object. */
  function ParsedInput(e: Endpoint, query: seq<Pair>): Outcome<JsValue>
  {
    if !HasInput(e) then Returned(Undefined) else e.input.value.parse(ParamsObject(query))
  }

  method ParseInput(e: Endpoint, query: seq<Pair>) returns (r: Outcome<JsValue>)
    ensures r == ParsedInput(e, query)
  {
    if e.input.None? {
      return Returned(Undefined);
    }
    var paramsObj: map<string, string> := map[];
    for i := 0 to |query|
      invariant paramsObj == ParamsObject(query[..i])
    {
      assert query[..i + 1][..i] == query[..i];
      if query[i].0 != ProtoKey {
        paramsObj := paramsObj[query[i].0 := query[i].1];
      }
    }
    assert query[..|query|] == query;
    r := e.input.value.parse(paramsObj);
  }

  /** The params object has exactly the keys of the query, `__proto__` excepted. */
  lemma {:induction false} ParamsObjectKeys(query: seq<Pair>, k: string)
    ensures k in ParamsObject(query) <==> k != ProtoKey && exists i :: 0 <= i < |query| && query[i].0 == k
  {
    if query != [] {
      var init := query[..|query| - 1];
      ParamsObjectKeys(init, k);
      if k in ParamsObject(init) {
        var i :| 0 <= i < |init| && init[i].0 == k;
        assert query[i].0 == k;
      }
      if k != ProtoKey && exists i :: 0 <= i < |query| && query[i].0 == k {
        var i :| 0 <= i < |query| && query[i].0 == k;
        if i < |query| - 1 {
          assert init[i].0 == k;
        }
      }
    }
  }

  /**
   * A key's value is the value of its last occurrence in the query; the key
   * `__proto__` holds no value at all.
   */
  lemma {:induction false} ParamsObjectLastWins(query: seq<Pair>, i: nat)
    requires i < |query|
    requires forall j :: i < j < |query| ==> query[j].0 != query[i].0
    ensures query[i].0 in ParamsObject(query) <==> query[i].0 != ProtoKey
    ensures query[i].0 != ProtoKey ==> ParamsObject(query)[query[i].0] == query[i].1
  {
    if i < |query| - 1 {
      var init := query[..|query| - 1];
      assert init[i] == query[i];
      assert query[|query| - 1].0 != query[i].0;
      ParamsObjectLastWins(init, i);
    } else {
      ParamsObjectKeys(query[..i], ProtoKey);
    }
  }

  // ---- context ----

  /** `{...context, request}`: the factory's fields, then `request`, which overrides a field of that name. */
  function BuildContext(fields: map<string, JsValue>): (ctx: Context)
    ensures "request" in ctx && ctx["request"] == Request
    ensures forall k :: k != "request" ==> (k in ctx <==> k in fields)
    ensures forall k :: k != "request" && k in fields ==> ctx[k] == Value(fields[k])
  {
    (map k | k in fields :: Value(fields[k]))["request" := Request]
  }

  /** The arguments of the action call: the parsed input and the context with a contract, the context alone without. */
  function ActionArgs(e: Endpoint, input: JsValue, ctx: Context): (args: seq<Arg>)
    ensures HasInput(e) ==> args == [InputArg(input), ContextArg(ctx)]
    ensures !HasInput(e) ==> args == [ContextArg(ctx)]
  {
    if HasInput(e) then [InputArg(input), ContextArg(ctx)] else [ContextArg(ctx)]
  }

  // ---- responses ----

  function Reject(status: int, message: string): Handled
  {
    Handled(status, Body(Null, Some(message), None), false, None)
  }

  /**
   * The catch: an `Error` carrying `issues` gives 400 with its message as
   * details; anything else gives a generic 500.
   */
  function Caught(t: Thrown, factoryCalled: bool, actionArgs: Option<seq<Arg>>): (h: Handled)
    ensures t.isError && t.hasIssues ==> h.status == 400 && h.body == Body(Null, Some(InvalidDataMessage), Some(t.message))
    ensures !(t.isError && t.hasIssues) ==> h.status == 500 && h.body == Body(Null, Some(InternalErrorMessage), None)
  {
    if t.isError && t.hasIssues then Handled(400, Body(Null, Some(InvalidDataMessage), Some(t.message)), factoryCalled, actionArgs)
    else Handled(500, Body(Null, Some(InternalErrorMessage), None), factoryCalled, actionArgs)
  }

  /** The `try` block: parse the input, build the context, call the action, answer 200 with its result. */
  function Invoke(e: Endpoint, query: seq<Pair>, factory: CtxFactory): (h: Handled)
    ensures h.status == 200 <==> h.actionArgs.Some? && e.action(h.actionArgs.value).Returned?
    ensures h.status == 200 ==> h.body == Body(e.action(h.actionArgs.value).value, None, None)
    ensures h.status != 200 ==> h.body.data == Null && h.body.error.Some?
    ensures ParsedInput(e, query).Threw? ==> !h.factoryCalled && h.actionArgs.None?
  {
    match ParsedInput(e, query)
    case Threw(t) => Caught(t, false, None)
    case Returned(input) =>
      var fields := if factory.NoFactory? then Returned(map[]) else factory.result;
      match fields
      case Threw(t) => Caught(t, true, None)
      case Returned(f) =>
        var args := ActionArgs(e, input, BuildContext(f));
        match e.action(args)
        case Returned(v) => Handled(200, Body(v, None, None), factory.Factory?, Some(args))
        case Threw(t) => Caught(t, factory.Factory?, Some(args))
  }

  /** The handler, for the route params, router, query pairs and context factory of one request. */
  function Handle(params: map<string, string>, router: Router, query: seq<Pair>, factory: CtxFactory): (h: Handled)
    ensures h.status == 200 || h.status == 400 || h.status == 500
    ensures h.status == 200 <==> h.body.error.None?
    ensures h.status != 200 ==> h.body.data == Null
    ensures h.body.error.Some? ==> h.body.error.value != []
  {
    if "trpc" !in params then Reject(400, MissingSegmentMessage)
    else if params["trpc"] == "" then Reject(400, EmptySegmentMessage)
    else
      var name := Camelize(params["trpc"]);
      if name !in router then Reject(400, NotFoundMessage(name))
      else Invoke(router[name], query, factory)
  }

  // ---- properties of the handler ----

  /** Without a `trpc` param the answer is fixed: the router, query and factory play no part. */
  lemma MissingSegment(params: map<string, string>, router: Router, query: seq<Pair>, factory: CtxFactory,
                       router': Router, query': seq<Pair>, factory': CtxFactory)
    requires "trpc" !in params
    ensures Handle(params, router, query, factory) == Handled(400, Body(Null, Some(MissingSegmentMessage), None), false, None)
    ensures Handle(params, router, query, factory) == Handle(params, router', query', factory')
  {}

  lemma EmptySegment(params: map<string, string>, router: Router, query: seq<Pair>, factory: CtxFactory)
    requires "trpc" in params && params["trpc"] == ""
    ensures Handle(params, router, query, factory) == Handled(400, Body(Null, Some(EmptySegmentMessage), None), false, None)
  {}

  /** A segment whose camelized name is not in the router is rejected by that name. */
  lemma UnknownEndpoint(params: map<string, string>, router: Router, query: seq<Pair>, factory: CtxFactory)
    requires "trpc" in params && params["trpc"] != ""
    requires Camelize(params["trpc"]) !in router
    ensures Handle(params, router, query, factory)
      == Handled(400, Body(Null, Some(NotFoundMessage(Camelize(params["trpc"]))), None), false, None)
  {}

  /** A known name reaches its descriptor. */
  lemma Routed(params: map<string, string>, router: Router, query: seq<Pair>, factory: CtxFactory)
    requires "trpc" in params && params["trpc"] != ""
    requires Camelize(params["trpc"]) in router
    ensures Handle(params, router, query, factory) == Invoke(router[Camelize(params["trpc"])], query, factory)
  {}

  /**
   * The routing round trip: the segment a client writes for name `n` leads the
   * handler back to `n`'s descriptor, for names that start in lower case and
   * have no adjacent capitals or hyphens.
   */
  lemma ClientSegmentReachesEndpoint(n: string, router: Router, query: seq<Pair>, factory: CtxFactory)
    requires n != [] && !IsUpper(n[0])
    requires forall i :: 0 < i < |n| && IsUpper(n[i]) ==> !IsUpper(n[i - 1])
    requires NoHyphen(n)
    requires n in router
    ensures Handle(map["trpc" := Kebabize(n)], router, query, factory) == Invoke(router[n], query, factory)
  {
    KebabizeEmpty(n);
    CamelizeKebabize(n);
  }

  /** A successful call: status 200, the body is exactly `{data: result}`, and the action saw the expected arguments. */
  lemma Success(e: Endpoint, query: seq<Pair>, factory: CtxFactory, input: JsValue, fields: map<string, JsValue>, result: JsValue)
    requires ParsedInput(e, query) == Returned(input)
    requires factory == NoFactory ==> fields == map[]
    requires factory.Factory? ==> factory.result == Returned(fields)
    requires e.action(ActionArgs(e, input, BuildContext(fields))) == Returned(result)
    ensures Invoke(e, query, factory).status == 200
    ensures Invoke(e, query, factory).body == Body(result, None, None)
    ensures Invoke(e, query, factory).actionArgs == Some(ActionArgs(e, input, BuildContext(fields)))
  {}

  /**
   * A throw from the action goes to the catch: 400 with details for an error
   * carrying `issues`, 500 "Internal Server Error" for anything else.
   */
  lemma ActionThrows(e: Endpoint, query: seq<Pair>, factory: CtxFactory, input: JsValue, fields: map<string, JsValue>, t: Thrown)
    requires ParsedInput(e, query) == Returned(input)
    requires factory == NoFactory ==> fields == map[]
    requires factory.Factory? ==> factory.result == Returned(fields)
    requires e.action(ActionArgs(e, input, BuildContext(fields))) == Threw(t)
    ensures Invoke(e, query, factory) == Caught(t, factory.Factory?, Some(ActionArgs(e, input, BuildContext(fields))))
    ensures !(t.isError && t.hasIssues) ==> Invoke(e, query, factory).status == 500
    ensures !(t.isError && t.hasIssues) ==> Invoke(e, query, factory).body == Body(Null, Some(InternalErrorMessage), None)
    ensures t.isError && t.hasIssues ==> Invoke(e, query, factory).status == 400
    ensures t.isError && t.hasIssues ==> Invoke(e, query, factory).body == Body(Null, Some(InvalidDataMessage), Some(t.message))
  {}

  /**
   * A throw from the context factory, after a successful parse, goes to the
   * same catch, and the action is never called.
   */
  lemma FactoryThrows(e: Endpoint, query: seq<Pair>, factory: CtxFactory, input: JsValue, t: Thrown)
    requires ParsedInput(e, query) == Returned(input)
    requires factory.Factory? && factory.result == Threw(t)
    ensures Invoke(e, query, factory) == Caught(t, true, None)
    ensures Invoke(e, query, factory).actionArgs.None?
    ensures !(t.isError && t.hasIssues) ==> Invoke(e, query, factory).status == 500
    ensures !(t.isError && t.hasIssues) ==> Invoke(e, query, factory).body == Body(Null, Some(InternalErrorMessage), None)
    ensures t.isError && t.hasIssues ==> Invoke(e, query, factory).status == 400
    ensures t.isError && t.hasIssues ==> Invoke(e, query, factory).body == Body(Null, Some(InvalidDataMessage), Some(t.message))
  {}

  /** A contract violation answers 400 with its message as details; neither the factory nor the action runs. */
  lemma ValidationError(e: Endpoint, query: seq<Pair>, factory: CtxFactory, t: Thrown)
    requires ParsedInput(e, query) == Threw(t)
    requires t.isError && t.hasIssues
    ensures HasInput(e)
    ensures Invoke(e, query, factory) == Handled(400, Body(Null, Some(InvalidDataMessage), Some(t.message)), false, None)
  {}

  /** Any other throw answers 500, and nothing of what was thrown reaches the body. */
  lemma InternalErrorHidesMessage(t: Thrown, factoryCalled: bool, args: Option<seq<Arg>>)
    requires !(t.isError && t.hasIssues)
    ensures Caught(t, factoryCalled, args).status == 500
    ensures Caught(t, factoryCalled, args).body == Body(Null, Some(InternalErrorMessage), None)
    ensures forall t': Thrown :: !(t'.isError && t'.hasIssues) ==> Caught(t', factoryCalled, args) == Caught(t, factoryCalled, args)
  {}

  /** Without a factory the action's context is exactly `{request}`. */
  lemma ContextWithoutFactory()
    ensures BuildContext(map[]) == map["request" := Request]
  {}
}
