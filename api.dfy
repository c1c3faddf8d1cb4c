/**
 * `src/api.ts`: `jsonRoute`, which checks a JSON API request's path parameters,
 * mandatory query parameters and body, in that order, before it calls the handler,
 * and `jsonErr`, the `{ error, status }` answer of every failed check.
 */
module Api {
  import opened Common
  import Js
  import Responses

  /**
   * A thrown value as `jsonErr` looks at it: an `Error` with its message, or any
   * other value with the text `e?.toString()` gives (`None` for `undefined` and `null`).
   */
  datatype Thrown = ErrorObject(message: string) | OtherValue(text: Option<string>)

  /** A plain string handed to `jsonErr`. */
  function Message(s: string): Thrown {
    OtherValue(Some(s))
  }

  /** `e instanceof Error ? e.message : e?.toString()`. */
  function ErrorText(e: Thrown): (r: Js.JsVal)
    ensures e.ErrorObject? ==> r == Js.Str(e.message)
    ensures e.OtherValue? ==> (r == Js.Undefined <==> e.text.None?)
    ensures e.OtherValue? && e.text.Some? ==> r == Js.Str(e.text.value)
  {
    match e
    case ErrorObject(m) => Js.Str(m)
    case OtherValue(t) => if t.Some? then Js.Str(t.value) else Js.Undefined
  }

  /**
   * `jsonErr`: a JSON body `{ error, status }` sent with that same status (always one the
   * constructor accepts where the route uses it: 400, 401 or 500).
   */
  function JsonErr(e: Thrown, status: int): (r: Attempt<Responses.Response>)
    ensures r.Ok? <==> Responses.AcceptsBody(status)
    ensures r.Ok? ==> r.value.status == status && r.value.body.Json? && r.value.body.value.Obj?
    ensures r.Ok? ==> Js.Get(r.value.body.value, "error") == ErrorText(e)
    ensures r.Ok? ==> Js.Get(r.value.body.value, "status") == Js.Num(status)
    ensures r.Ok? ==> r.value.headers == map["Content-Type" := Responses.JsonType]
  {
    var fields := [("error", ErrorText(e)), ("status", Js.Num(status))];
    assert "error" != "status" && Js.KeyIndex(fields[1..], "status") == 0;
    Responses.JsonResponse(Js.Obj(fields), status)
  }

  /**
   * What `jsonRoute` is given: the names of the declared path parameters (none when
   * `params` is absent), the declared query parameters with their declared values,
   * and whether a body schema is set.
   */
  datatype RouteOpts = RouteOpts(params: seq<string>, queryParams: Option<seq<(string, Js.JsVal)>>, hasBodySchema: bool)

  /** What `await req.json()` followed by `v.parse(schema, data)` ends with. */
  datatype BodyCheck =
    | Valid(body: Js.JsVal)
    | SchemaFailed(issues: string)   // a `ValiError`, with `JSON.stringify(e.issues)`
    | Failed(e: Thrown)              // anything else thrown, by `req.json()` or the schema

  /** What awaiting the handler gives. */
  datatype Outcome = Returned(value: Js.JsVal) | Raised(e: Thrown)

  /** The handler, called with the validated body and the query parameters. */
  type Handler = (Js.JsVal, Option<map<string, string>>) -> Outcome

  /** `params[key]` is truthy: present and not empty. */
  predicate ParamGiven(params: map<string, string>, key: string) {
    key in params && params[key] != ""
  }

  /** The position of the first declared path parameter that is missing or empty, or -1. */
  function FirstMissingParam(keys: seq<string>, params: map<string, string>): (i: int)
    ensures -1 <= i < |keys|
    ensures i == -1 <==> forall j :: 0 <= j < |keys| ==> ParamGiven(params, keys[j])
    ensures 0 <= i ==> !ParamGiven(params, keys[i]) && forall j :: 0 <= j < i ==> ParamGiven(params, keys[j])
  {
    if keys == [] then -1
    else if !ParamGiven(params, keys[0]) then 0
    else
      var k := FirstMissingParam(keys[1..], params);
      if k == -1 then -1 else k + 1
  }

  /** `Object.fromEntries(url.searchParams)`, read only when query parameters are declared. */
  function QueryOf(opts: RouteOpts, searchParams: seq<(string, string)>): (r: Option<map<string, string>>)
    ensures r.Some? <==> opts.queryParams.Some?
    ensures r.Some? ==> r.value == Js.FromEntries(searchParams)
  {
    if opts.queryParams.Some? then Some(Js.FromEntries(searchParams)) else None
  }

  /** A declared query parameter passes: it is optional, or `queryParams?.[key]` is truthy. */
  predicate QueryGiven(declared: (string, Js.JsVal), query: Option<map<string, string>>) {
    declared.1 != Js.Str("string") || (query.Some? && declared.0 in query.value && query.value[declared.0] != "")
  }

  /** The position of the first declared query parameter that fails, or -1. */
  function FirstMissingQuery(declared: seq<(string, Js.JsVal)>, query: Option<map<string, string>>): (i: int)
    ensures -1 <= i < |declared|
    ensures i == -1 <==> forall j :: 0 <= j < |declared| ==> QueryGiven(declared[j], query)
    ensures 0 <= i ==> !QueryGiven(declared[i], query) && forall j :: 0 <= j < i ==> QueryGiven(declared[j], query)
  {
    if declared == [] then -1
    else if !QueryGiven(declared[0], query) then 0
    else
      var k := FirstMissingQuery(declared[1..], query);
      if k == -1 then -1 else k + 1
  }

  /** The text of a failed body check. */
  function BodyError(b: BodyCheck): string {
    match b
    case Valid(_) => ""
    case SchemaFailed(issues) => "Zod schema validation failed: " + issues
    case Failed(e) => if e.ErrorObject? then e.message else "validate failed"
  }

  /** `'status' in res ? res.status : undefined`, used when it is a number, else 200. */
  function SuccessStatus(res: Js.JsVal): (status: int)
    ensures Js.Get(res, "status").Num? ==> status == Js.Get(res, "status").n
    ensures !Js.Get(res, "status").Num? ==> status == 200
  {
    var s := Js.Get(res, "status");
    if s.Num? then s.n else 200
  }

  /** What `'status' in res` throws when the handler's result is not an object. */
  const InOperatorError := JsError("TypeError", "", "TypeError: Cannot use 'in' operator to search for 'status'")

  /** The answer made of the handler's outcome. */
  /**
   * The answer made of the handler's outcome. A status the `Response` constructor refuses
   * (outside 200..599, or a null-body status such as 204 with the JSON body) makes it throw.
   */
  function Reply(outcome: Outcome): (r: Attempt<Responses.Response>)
    ensures outcome.Raised? ==> r == JsonErr(outcome.e, 500) && r.Ok? && r.value.status == 500
    ensures outcome.Returned? && Js.IsObject(outcome.value) && Responses.AcceptsBody(SuccessStatus(outcome.value)) ==>
      r.Ok? && r.value.body == Responses.Json(outcome.value) && r.value.status == SuccessStatus(outcome.value)
    ensures outcome.Returned? && Js.IsObject(outcome.value) && !(200 <= SuccessStatus(outcome.value) <= 599) ==>
      r == Threw(Responses.StatusRangeError(SuccessStatus(outcome.value)))
    ensures outcome.Returned? && Js.IsObject(outcome.value) && 200 <= SuccessStatus(outcome.value) <= 599
            && Responses.NullBodyStatus(SuccessStatus(outcome.value)) ==>
      r == Threw(Responses.NullBodyStatusError)
    ensures outcome.Returned? && !Js.IsObject(outcome.value) ==> r == Threw(InOperatorError)
  {
    match outcome
    case Raised(e) => JsonErr(e, 500)
    case Returned(res) =>
      if Js.IsObject(res) then Responses.JsonResponse(res, SuccessStatus(res)) else Threw(InOperatorError)
  }

  /** Every check passes: the path parameters, the mandatory query parameters and the body. */
  predicate PassesChecks(opts: RouteOpts, params: map<string, string>, searchParams: seq<(string, string)>, body: BodyCheck) {
    FirstMissingParam(opts.params, params) == -1
    && FirstMissingQuery(opts.queryParams.GetOr([]), QueryOf(opts, searchParams)) == -1
    && (opts.hasBodySchema ==> body.Valid?)
  }

  /**
   * The route `jsonRoute` returns, applied to one request: `params` is what
   * `getParams(req.url)` gives, `searchParams` the query string's pairs in order, and
   * `body` the outcome of reading and validating the body (looked at only with a schema).
   */
  method JsonRoute(opts: RouteOpts, params: map<string, string>, searchParams: seq<(string, string)>,
                   body: BodyCheck, handler: Handler) returns (r: Attempt<Responses.Response>)
    ensures var p := FirstMissingParam(opts.params, params);
      0 <= p ==> r == JsonErr(Message("Param '" + opts.params[p] + "' missing"), 401)
    ensures var declared := opts.queryParams.GetOr([]);
      var q := FirstMissingQuery(declared, QueryOf(opts, searchParams));
      FirstMissingParam(opts.params, params) == -1 && 0 <= q ==>
        r == JsonErr(Message("Mandatory QueryParam '" + declared[q].0 + "' missing"), 401)
    ensures (FirstMissingParam(opts.params, params) == -1
             && FirstMissingQuery(opts.queryParams.GetOr([]), QueryOf(opts, searchParams)) == -1
             && opts.hasBodySchema && !body.Valid?) ==>
      r == JsonErr(Message(BodyError(body)), 400)
    ensures PassesChecks(opts, params, searchParams, body) ==>
      r == Reply(handler(if opts.hasBodySchema then body.body else Js.Undefined, QueryOf(opts, searchParams)))
  {
    var i := 0;
    while i < |opts.params|
      invariant 0 <= i <= |opts.params|
      invariant forall j :: 0 <= j < i ==> ParamGiven(params, opts.params[j])
    {
      var key := opts.params[i];
      if !ParamGiven(params, key) {
        assert FirstMissingParam(opts.params, params) == i;
        return JsonErr(Message("Param '" + key + "' missing"), 401);
      }
      i := i + 1;
    }
    var query := QueryOf(opts, searchParams);
    var declared := opts.queryParams.GetOr([]);
    var k := 0;
    while k < |declared|
      invariant 0 <= k <= |declared|
      invariant forall j :: 0 <= j < k ==> QueryGiven(declared[j], query)
    {
      if !QueryGiven(declared[k], query) {
        assert FirstMissingQuery(declared, query) == k;
        return JsonErr(Message("Mandatory QueryParam '" + declared[k].0 + "' missing"), 401);
      }
      k := k + 1;
    }
    if opts.hasBodySchema && !body.Valid? {
      return JsonErr(Message(BodyError(body)), 400);
    }
    var validated := if opts.hasBodySchema then body.body else Js.Undefined;
    r := Reply(handler(validated, query));
  }

  /** A query parameter not declared as `'string'` never makes the route answer 401. */
  lemma OptionalQueryPasses(declared: seq<(string, Js.JsVal)>, query: Option<map<string, string>>)
    requires forall j :: 0 <= j < |declared| ==> declared[j].1 != Js.Str("string")
    ensures FirstMissingQuery(declared, query) == -1
  {
  }

  /** Without declared query parameters the query string is not read and never rejects. */
  lemma UndeclaredQueryIgnored(opts: RouteOpts, searchParams: seq<(string, string)>)
    requires opts.queryParams.None?
    ensures QueryOf(opts, searchParams).None?
    ensures FirstMissingQuery(opts.queryParams.GetOr([]), QueryOf(opts, searchParams)) == -1
  {
  }
}
