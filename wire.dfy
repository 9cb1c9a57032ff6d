/**
 * The client and the handler against each other: what the handler reads from
 * the query string a client writes, and what a client makes of the envelope
 * the handler answers with.
 */
module Wire {
  import opened Wrappers
  import opened JsValues
  import opened Core
  import opened FormUrlencoded
  import opened Transport
  import opened Api

  /** The envelope as the JSON object the response carries. */
  function EnvelopeValue(body: Body): JsValue
  {
    Obj([Member("data", body.data)]
      + (if body.error.Some? then [Member("error", Str(body.error.value))] else [])
      + (if body.details.Some? then [Member("details", Str(body.details.value))] else []))
  }

  /** The handler's answer as the client receives it: `ok` exactly for a 2xx status. */
  function ServerResponse(h: Handled): HttpResponse
  {
    HttpResponse(200 <= h.status < 300, Returned(EnvelopeValue(h.body)))
  }

  /**
   * A client fetch settles with the action's result on success, and rejects
   * with the handler's error text otherwise.
   */
  lemma ClientReadsEnvelope(params: map<string, string>, router: Router, query: seq<Pair>, factory: CtxFactory)
    ensures var h := Handle(params, router, query, factory);
      Unwrap(ServerResponse(h)) == if h.status == 200 then Returned(h.body.data) else Threw(Thrown(true, false, h.body.error.value))
  {
    var h := Handle(params, router, query, factory);
    var v := EnvelopeValue(h.body);
    if h.status == 200 {
      assert v == Obj([Member("data", h.body.data)]);
    } else {
      var ms := v.members;
      assert ms[1] == Member("error", Str(h.body.error.value));
      if h.body.details.Some? {
        assert ms == [Member("data", Null), Member("error", Str(h.body.error.value)), Member("details", Str(h.body.details.value))];
        assert ms[..2] == [Member("data", Null), Member("error", Str(h.body.error.value))];
      } else {
        assert ms == [Member("data", Null), Member("error", Str(h.body.error.value))];
      }
      assert Get(v, "error") == Str(h.body.error.value);
    }
  }

  /**
   * What the handler's contract receives for an object input: one entry per
   * member name but `__proto__`, holding `String` of that member's value.
   */
  lemma {:induction false} ParamsOfMembers(ms: seq<Member>, k: string)
    ensures k in ParamsObject(QueryPairs(Obj(ms))) <==> k != ProtoKey && exists i :: 0 <= i < |ms| && ms[i].key == k
    ensures k in ParamsObject(QueryPairs(Obj(ms))) ==> ParamsObject(QueryPairs(Obj(ms)))[k] == ToJsString(Lookup(ms, k))
  {
    var q := QueryPairs(Obj(ms));
    ParamsObjectKeys(q, k);
    if k != ProtoKey && exists i :: 0 <= i < |ms| && ms[i].key == k {
      var i :| 0 <= i < |ms| && ms[i].key == k;
      assert q[i].0 == k;
    }
    if ms != [] {
      var init := ms[..|ms| - 1];
      QueryPairsOfInit(ms);
      if ms[|ms| - 1].key != k {
        ParamsOfMembers(init, k);
      }
    }
  }

  lemma QueryPairsOfInit(ms: seq<Member>)
    requires ms != []
    ensures QueryPairs(Obj(ms))[..|ms| - 1] == QueryPairs(Obj(ms[..|ms| - 1]))
  {
  }

  /**
   * The query string a client writes for an object input parses back to its
   * pairs, and the handler's params object holds `String(value)` per member,
   * a member named `__proto__` excepted.
   */
  lemma ServerReadsClientQuery(ms: seq<Member>, k: string)
    ensures Parse(Serialize(QueryPairs(Obj(ms)))) == Some(QueryPairs(Obj(ms)))
    ensures k in ParamsObject(QueryPairs(Obj(ms))) <==> k != ProtoKey && exists i :: 0 <= i < |ms| && ms[i].key == k
    ensures k in ParamsObject(QueryPairs(Obj(ms))) ==> ParamsObject(QueryPairs(Obj(ms)))[k] == ToJsString(Lookup(ms, k))
  {
    ParseSerialize(QueryPairs(Obj(ms)));
    ParamsOfMembers(ms, k);
  }
}
