/**
 * Endpoint descriptors and routers. A descriptor is an optional input contract
 * plus an action; a router maps procedure names to descriptors.
 */
module Core {
  import opened Wrappers
  import opened JsValues

  /**
   * A thrown value as the handler's catch sees it: whether it is an `Error`,
   * whether it carries an `issues` property (a contract violation), and its message.
   */
  datatype Thrown = Thrown(isError: bool, hasIssues: bool, message: string)

  /** How a call or an awaited promise ends: with a value, or by throwing. */
  datatype Outcome<T> = Returned(value: T) | Threw(error: Thrown)

  /** An entry of the context object handed to an action: a plain value, or the incoming request itself. */
  datatype Slot = Value(v: JsValue) | Request

  type Context = map<string, Slot>

  /** One argument of an action call. */
  datatype Arg = InputArg(v: JsValue) | ContextArg(ctx: Context)

  /** An input contract, seen only through its `parse`, which is given the query parameters as an object. */
  datatype Schema = Schema(parse: map<string, string> -> Outcome<JsValue>)

  /** An action, as a function of its argument list. */
  type Action = seq<Arg> -> Outcome<JsValue>

  datatype Endpoint = Endpoint(input: Option<Schema>, action: Action)

  type Router = map<string, Endpoint>

  /** Whether a descriptor takes input: exactly whether it has an `input` contract. */
  predicate HasInput(e: Endpoint)
  {
    e.input.Some?
  }

  /** `endpoint.input(schema).action(f)`. */
  function InputAction(schema: Schema, f: Action): (e: Endpoint)
    ensures HasInput(e) && e.input.value == schema
    ensures e.action == f
  {
    Endpoint(Some(schema), f)
  }

  /** `endpoint.action(f)`. */
  function ActionOnly(f: Action): (e: Endpoint)
    ensures !HasInput(e)
    ensures e.action == f
  {
    Endpoint(None, f)
  }

  /** `router(r)`: the router itself, with the same names and descriptors. */
  function MakeRouter(r: Router): (out: Router)
    ensures out.Keys == r.Keys
    ensures forall name :: name in r ==> out[name] == r[name]
  {
    r
  }

  /** A router factory tied to one context type; it holds no state. */
  class CtxRouter {
    constructor ()
    {
    }

    /** `ctxRouter.router(r)`: the router itself, unchanged. */
    function Route(r: Router): (out: Router)
      ensures out.Keys == r.Keys
      ensures forall name :: name in r ==> out[name] == r[name]
    {
      r
    }
  }

  /** The two builders are told apart by `HasInput` alone, whatever the actions. */
  lemma BuildersDifferInInput(schema: Schema, f: Action, g: Action)
    ensures HasInput(InputAction(schema, f)) && !HasInput(ActionOnly(g))
    ensures InputAction(schema, f) != ActionOnly(g)
  {}
}
