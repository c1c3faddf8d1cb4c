/**
 * `src/api.client.ts`: `makeRequest`, which sends a JSON API request and shapes
 * every failure into an object with `error` (and `status`), and the URL `fetchApi`
 * builds. `fetch`, the abort timer and the JSON parser of the response are outside
 * the model: what they produce is an input.
 */
module ApiClient {
  import opened Common
  import opened Strings
  import Js
  import Responses

  const TimeoutError := "Request timed out"
  const DefaultTimeout := 90000

  /** A `File`: its media type and an identity for its contents. */
  datatype File = File(mediaType: string, id: nat)

  /** The `data` argument: `undefined`, a `File`, or any other value. */
  datatype Data = NoData | FileData(file: File) | Value(v: Js.JsVal)

  /** A request body: none, the file itself, the text `JSON.stringify(v)`, or one the caller passed in its options. */
  datatype RequestBody = NoBody | FileBody(file: File) | JsonText(v: Js.JsVal) | CallerBody(id: nat)

  /**
   * The `options` argument: the caller's headers, the timeout, and the fields of
   * the rest of the options that override what `makeRequest` sets (`method`, `body`).
   */
  datatype Opts = Opts(headers: Option<Responses.Headers>, timeout: Option<int>,
                       verb: Option<string>, body: Option<RequestBody>)

  /** `options = {}`. */
  const NoOpts := Opts(None, None, None, None)

  /** The `RequestInit` given to `fetch`; `abortAfter` is when the signal aborts, in milliseconds. */
  datatype FetchOpts = FetchOpts(verb: string, headers: Responses.Headers, body: RequestBody, abortAfter: int)

  /** The request body made of `data`. */
  function BodyOf(data: Data): (r: RequestBody)
    ensures r.NoBody? <==> data.NoData?
    ensures data.FileData? ==> r == FileBody(data.file)
    ensures data.Value? ==> r == JsonText(data.v)
  {
    match data
    case NoData => NoBody
    case FileData(f) => FileBody(f)
    case Value(v) => JsonText(v)
  }

  /** The `RequestInit` `makeRequest` builds: the rest of the options are spread last and win. */
  function FetchOptions(verb: string, data: Data, options: Opts): (r: FetchOpts)
    ensures r.verb == options.verb.GetOr(verb)
    ensures options.body.None? ==> r.body == BodyOf(data)
    ensures options.body.Some? ==> r.body == options.body.value
    ensures r.headers.Keys == options.headers.GetOr(map[]).Keys + {"Content-Type"}
    ensures forall k :: k in options.headers.GetOr(map[]) ==> r.headers[k] == options.headers.GetOr(map[])[k]
    ensures "Content-Type" !in options.headers.GetOr(map[]) ==>
      r.headers["Content-Type"] == if data.FileData? then data.file.mediaType else Responses.JsonType
    ensures options.timeout.None? ==> r.abortAfter == DefaultTimeout
    ensures options.timeout.Some? ==> r.abortAfter == options.timeout.value
  {
    var contentType := if data.FileData? then data.file.mediaType else Responses.JsonType;
    FetchOpts(options.verb.GetOr(verb), Responses.WithDefaultType(contentType, options.headers.GetOr(map[])),
      options.body.GetOr(BodyOf(data)), options.timeout.GetOr(DefaultTimeout))
  }

  /** A caught value: its `name`, its `message` and its `toString()` text ("" where absent). */
  datatype Caught = Caught(name: string, message: string, text: string)

  /** How the `try` block ended. */
  datatype Fetched =
    | FetchThrew(e: Caught)                // `fetch` itself threw
    | JsonThrew(status: int, e: Caught)    // the response came, `response.json()` threw
    | Parsed(status: int, json: Js.JsVal)  // both succeeded

  /** `response.ok`. */
  predicate Ok(status: int) {
    200 <= status <= 299
  }

  /** Neither `!response`, nor `!response.ok`, nor a caught error. */
  predicate Succeeded(f: Fetched) {
    f.Parsed? && Ok(f.status)
  }

  /** `json` after the `try` block: `undefined` unless it was parsed. */
  function JsonOf(f: Fetched): Js.JsVal {
    if f.Parsed? then f.json else Js.Undefined
  }

  /** `response?.status`. */
  function StatusOf(f: Fetched): Option<int> {
    if f.FetchThrew? then None else Some(f.status)
  }

  /** `err?.name === 'AbortError'`. */
  predicate TimedOut(f: Fetched) {
    !f.Parsed? && f.e.name == "AbortError"
  }

  /** `err?.message || err?.toString() || 'Unknown fetch error'`. */
  function CaughtText(e: Caught): (r: string)
    ensures r != ""
    ensures e.message != "" ==> r == e.message
  {
    if e.message != "" then e.message else if e.text != "" then e.text else "Unknown fetch error"
  }

  /** `json` on a failure path, before any property is set: `{}` unless it is an object. */
  function FailureBase(json: Js.JsVal): (r: Js.JsVal)
    ensures Js.IsObject(r)
    ensures Js.IsObject(json) ==> r == json
  {
    if Js.IsObject(json) then json else Js.Obj([])
  }

  /** `json.key = value`; the properties of an array are not represented, so an array is kept as it is. */
  function Assign(json: Js.JsVal, key: string, value: Js.JsVal): (r: Js.JsVal)
    ensures json.Obj? ==> r.Obj? && Js.Get(r, key) == value
    ensures forall k :: k != key ==> Js.Get(r, k) == Js.Get(json, k)
    ensures !json.Obj? ==> r == json
  {
    if json.Obj? then Js.SetProp(json, key, value) else json
  }

  /** `response?.status` as the value assigned to `json.status`. */
  function StatusValue(status: Option<int>): Js.JsVal {
    if status.Some? then Js.Num(status.value) else Js.Undefined
  }

  /**
   * What `makeRequest` returns for the outcome `f` of the request `verb url`: on
   * success the parsed JSON unchanged; on failure an object (`{}` unless the parsed
   * JSON is one) carrying `error` set to the timeout text, or, for status 200, to the
   * caught error's text, or else carrying `status` and, unless the server sent a
   * string `error` or the status is 204, `Failed to <verb> <url>`; every other
   * property is kept.
   */
  ghost predicate Shaped(verb: string, url: string, f: Fetched, json: Js.JsVal) {
    var base := FailureBase(JsonOf(f));
    var keep := Js.Get(base, "error").Str? || StatusOf(f) == Some(204);
    (Succeeded(f) ==> json == f.json)
    && (!Succeeded(f) ==> (base.Arr? ==> json == base) && (base.Obj? ==> json.Obj?))
    && (!Succeeded(f) && TimedOut(f) ==>
          Js.Get(json, "error") == Js.Str(TimeoutError)
          && forall k :: k != "error" ==> Js.Get(json, k) == Js.Get(base, k))
    && ((!Succeeded(f) && !TimedOut(f) && StatusOf(f) == Some(200) && base.Obj?) ==>
          Js.Get(json, "error") == Js.Str(CaughtText(f.e))
          && forall k :: k != "error" ==> Js.Get(json, k) == Js.Get(base, k))
    && ((!Succeeded(f) && !TimedOut(f) && StatusOf(f) != Some(200) && base.Obj?) ==>
          Js.Get(json, "status") == StatusValue(StatusOf(f))
          && (keep ==> Js.Get(json, "error") == Js.Get(base, "error"))
          && (!keep ==> Js.Get(json, "error") == Js.Str("Failed to " + verb + " " + url))
          && forall k :: k != "error" && k != "status" ==> Js.Get(json, k) == Js.Get(base, k))
  }

  /**
   * `makeRequest`: `fetch` stands for sending the request and parsing its JSON answer;
   * the result is shaped from its outcome as `Shaped` says.
   */
  method MakeRequest(verb: string, url: string, data: Data, options: Opts, fetch: (string, FetchOpts) -> Fetched)
    returns (json: Js.JsVal)
    ensures Shaped(verb, url, fetch(url, FetchOptions(verb, data, options)), json)
  {
    var f := fetch(url, FetchOptions(verb, data, options));
    json := JsonOf(f);
    if !Succeeded(f) {
      if json.Null? || !Js.IsObject(json) {
        json := Js.Obj([]);
      }
      var status := StatusOf(f);
      if TimedOut(f) {
        json := Assign(json, "error", Js.Str(TimeoutError));
      } else if status == Some(200) {
        json := Assign(json, "error", Js.Str(CaughtText(f.e)));
      } else {
        json := Assign(json, "status", StatusValue(status));
        if !Js.Get(json, "error").Str? && status != Some(204) {
          json := Assign(json, "error", Js.Str("Failed to " + verb + " " + url));
        }
      }
    }
  }

  /**
   * `fetchApi`'s URL: `"?"` and the query string are appended only when query
   * parameters are given; `encode` stands for `new URLSearchParams(q).toString()`.
   */
  function ApiUrl(path: string, queryParams: Option<seq<(string, string)>>,
                  encode: seq<(string, string)> -> string): (r: string)
    ensures queryParams.None? ==> r == path
    ensures queryParams.Some? ==>
      |r| > |path| && r[..|path|] == path && r[|path|] == '?' && r[|path| + 1..] == encode(queryParams.value)
  {
    if queryParams.Some? then path + "?" + encode(queryParams.value) else path
  }

  /** With a path free of `?`, the query string is exactly what follows the URL's first `?`. */
  lemma QueryAfterFirstMark(path: string, queryParams: seq<(string, string)>, encode: seq<(string, string)> -> string)
    requires '?' !in path
    ensures var url := ApiUrl(path, Some(queryParams), encode);
      IndexOf(url, '?') == |path| && url[IndexOf(url, '?') + 1..] == encode(queryParams)
  {
    var url := ApiUrl(path, Some(queryParams), encode);
    assert url[..|path|] == path;
    assert '?' !in url[..|path|];
  }

  /** `fetchApi`: `makeRequest` on the built URL, with `{}` when no options are given. */
  method FetchApi(verb: string, path: string, data: Data, queryParams: Option<seq<(string, string)>>,
                  opts: Option<Opts>, encode: seq<(string, string)> -> string, fetch: (string, FetchOpts) -> Fetched)
    returns (json: Js.JsVal)
    ensures var url := ApiUrl(path, queryParams, encode);
      Shaped(verb, url, fetch(url, FetchOptions(verb, data, opts.GetOr(NoOpts))), json)
  {
    json := MakeRequest(verb, ApiUrl(path, queryParams, encode), data, opts.GetOr(NoOpts), fetch);
  }
}
