/**
 * `src/core/responses.ts`: building `Response` values for HTML and JSON, the
 * pull-driven stream that turns the engine's chunks into a response body, and the
 * GitHub Pages base path.
 */
module Responses {
  import opened Common
  import opened Strings
  import Js
  import Html
  import Numerals

  /** Header names to values, keyed by the exact names the source writes. */
  type Headers = map<string, string>

  /** A response body, before any byte encoding. */
  datatype Body =
    | NoBody
    | Text(text: string)              // a string body
    | Streamed(chunks: seq<string>)   // a stream of strings, in order
    | Json(value: Js.JsVal)           // the text `JSON.stringify(value)`
    | FileContents(path: string)      // the bytes of a file, streamed from disk
    | Bytes(data: seq<bv8>)           // bytes produced in memory, such as a transformed image

  datatype Response = Response(status: int, headers: Headers, body: Body)

  const HtmlType := "text/html; charset=utf-8"
  const JsonType := "application/json"

  /** `{ "Content-Type": type, ...headers }`: the caller's headers win. */
  function WithDefaultType(contentType: string, headers: Headers): (r: Headers)
    ensures r.Keys == headers.Keys + {"Content-Type"}
    ensures forall k :: k in headers ==> r[k] == headers[k]
    ensures "Content-Type" !in headers ==> r["Content-Type"] == contentType
  {
    map["Content-Type" := contentType] + headers
  }

  // ----- the `Response` constructor -----

  const TextPlainType := "text/plain;charset=UTF-8"

  /** The statuses whose responses must not carry a body. */
  predicate NullBodyStatus(status: int) {
    status == 101 || status == 103 || status == 204 || status == 205 || status == 304
  }

  /** A status `new Response` accepts together with a body: 200 to 599, and not a null-body status. */
  predicate AcceptsBody(status: int) {
    200 <= status <= 599 && !NullBodyStatus(status)
  }

  /** The `RangeError` for a status outside 200 to 599. */
  function StatusRangeError(status: int): JsError {
    JsError("RangeError", "", "RangeError: The status provided (" + Numerals.IntToString(status)
      + ") is outside the range [200, 599].")
  }

  /** The `TypeError` for a body given with a null-body status. */
  const NullBodyStatusError := JsError("TypeError", "", "TypeError: Response with null body status cannot have body")

  /** A string body: the `text/plain` type is added when no `Content-Type` is given. */
  function BodyHeaders(body: Body, headers: Headers): (r: Headers)
    ensures (body.Text? || body.Json?) && "Content-Type" !in headers ==> r == headers["Content-Type" := TextPlainType]
    ensures !(body.Text? || body.Json?) || "Content-Type" in headers ==> r == headers
  {
    if (body.Text? || body.Json?) && "Content-Type" !in headers then headers["Content-Type" := TextPlainType] else headers
  }

  /**
   * `new Response(body, { status, headers })`: a `RangeError` for a status outside 200
   * to 599, a `TypeError` for a body with a null-body status, and otherwise the response,
   * a string body bringing `text/plain;charset=UTF-8` when no type is given.
   */
  function Construct(body: Body, status: int, headers: Headers): (r: Attempt<Response>)
    ensures r.Ok? <==> 200 <= status <= 599 && (body.NoBody? || !NullBodyStatus(status))
    ensures !(200 <= status <= 599) ==> r == Threw(StatusRangeError(status))
    ensures 200 <= status <= 599 && NullBodyStatus(status) && !body.NoBody? ==> r == Threw(NullBodyStatusError)
    ensures r.Ok? ==> r.value.status == status && r.value.body == body && r.value.headers == BodyHeaders(body, headers)
  {
    if !(200 <= status <= 599) then Threw(StatusRangeError(status))
    else if NullBodyStatus(status) && !body.NoBody? then Threw(NullBodyStatusError)
    else Ok(Response(status, BodyHeaders(body, headers), body))
  }

  /**
   * `new Response(text, { status })`, where the status is one the constructor accepts
   * with a body (every caller passes a literal 404, 405 or 500).
   */
  function TextResponse(status: int, text: string): (r: Response)
    requires AcceptsBody(status)
    ensures Construct(Text(text), status, map[]) == Ok(r)
    ensures r.status == status && r.body == Text(text) && r.headers == map["Content-Type" := TextPlainType]
  {
    Response(status, map["Content-Type" := TextPlainType], Text(text))
  }

  /** What `htmlResponse` accepts: a whole string or an async iterable of strings. */
  datatype HtmlBody = Whole(text: string) | Chunked(chunks: seq<string>)

  /**
   * `htmlResponse`: a string is passed through, an async iterable is streamed; the
   * constructor throws for a status it does not accept with a body.
   */
  function HtmlResponse(body: HtmlBody, status: int := 200, headers: Headers := map[]): (r: Attempt<Response>)
    ensures r.Ok? <==> AcceptsBody(status)
    ensures !(200 <= status <= 599) ==> r == Threw(StatusRangeError(status))
    ensures 200 <= status <= 599 && NullBodyStatus(status) ==> r == Threw(NullBodyStatusError)
    ensures r.Ok? ==> r.value.status == status && r.value.headers == WithDefaultType(HtmlType, headers)
    ensures r.Ok? && body.Whole? ==> r.value.body == Text(body.text)
    ensures r.Ok? && body.Chunked? ==> r.value.body == Streamed(body.chunks)
  {
    Construct(if body.Chunked? then Streamed(body.chunks) else Text(body.text), status, WithDefaultType(HtmlType, headers))
  }

  /** `htmlToResponse`: the node's stream, whose text is the node rendered to a string. */
  function HtmlToResponse(node: Html.Html): (r: Response)
    ensures HtmlResponse(Chunked(Html.Chunks(node))) == Ok(r)
    ensures r.status == 200 && r.headers == map["Content-Type" := HtmlType]
    ensures r.body.Streamed? && Concat(r.body.chunks) == Html.RenderToString(node)
  {
    HtmlResponse(Chunked(Html.Chunks(node))).value
  }

  /**
   * `jsonResponse`: the body is the text `JSON.stringify(body)`; the constructor throws
   * for a status it does not accept with a body.
   */
  function JsonResponse(body: Js.JsVal, status: int := 200, headers: Headers := map[]): (r: Attempt<Response>)
    ensures r.Ok? <==> AcceptsBody(status)
    ensures !(200 <= status <= 599) ==> r == Threw(StatusRangeError(status))
    ensures 200 <= status <= 599 && NullBodyStatus(status) ==> r == Threw(NullBodyStatusError)
    ensures r.Ok? ==> r.value.status == status && r.value.body == Json(body)
    ensures r.Ok? ==> r.value.headers == WithDefaultType(JsonType, headers)
  {
    Construct(Json(body), status, WithDefaultType(JsonType, headers))
  }

  // ----- the stream behind an async-iterable body -----

  /** One call of the retained iterator's `next()`: a value, or a rejection with its text. */
  datatype IterStep = Yield(value: string) | Fail(error: string)

  /** What one pull hands to the controller: the encoding of a string, or the single byte 0. */
  datatype Enqueued = Encoded(text: string) | ZeroByte

  /** What one step enqueues: its value, or `" " + error` followed by a malformed zero byte. */
  function Enqueues(step: IterStep): seq<Enqueued> {
    match step
    case Yield(v) => [Encoded(v)]
    case Fail(e) => [Encoded(" " + e), ZeroByte]
  }

  /** What a sequence of steps enqueues, in order. */
  function AllEnqueues(steps: seq<IterStep>): seq<Enqueued> {
    if steps == [] then [] else AllEnqueues(steps[..|steps| - 1]) + Enqueues(steps[|steps| - 1])
  }

  /** The `ReadableStream` `toReadableStream` builds over an iterator. */
  class HtmlStream {
    /** The steps the iterator has yet to produce; it is done after the last. */
    var pending: seq<IterStep>
    /** Everything enqueued so far. */
    var enqueued: seq<Enqueued>
    var closed: bool
    /** Whether the iterator has a `return` method, and how often it was called. */
    const hasReturn: bool
    var returnCalls: nat
    /** Every step the iterator produces. */
    ghost const steps: seq<IterStep>

    ghost predicate Valid()
      reads this
    {
      |pending| <= |steps|
      && pending == steps[|steps| - |pending|..]
      && enqueued == AllEnqueues(steps[..|steps| - |pending|])
      && (closed ==> pending == [])
    }

    constructor(steps: seq<IterStep>, hasReturn: bool)
      ensures Valid() && this.steps == steps && this.hasReturn == hasReturn
      ensures pending == steps && enqueued == [] && !closed && returnCalls == 0
    {
      this.steps := steps;
      this.hasReturn := hasReturn;
      pending := steps;
      enqueued := [];
      closed := false;
      returnCalls := 0;
      new;
      assert steps[..|steps| - |steps|] == [];
    }

    /** `pull`: forwards exactly one step of the iterator. */
    method Pull()
      requires Valid() && !closed
      modifies this
      ensures Valid() && returnCalls == old(returnCalls)
      ensures old(pending) == [] ==> closed && enqueued == old(enqueued) && pending == []
      ensures old(pending) != [] ==>
        !closed && pending == old(pending)[1..] && enqueued == old(enqueued) + Enqueues(old(pending)[0])
    {
      if pending == [] {
        closed := true;
      } else {
        var step := pending[0];
        match step {
          case Yield(v) =>
            enqueued := enqueued + [Encoded(v)];
          case Fail(e) =>
            enqueued := enqueued + [Encoded(" " + e)];
            enqueued := enqueued + [ZeroByte];
        }
        ghost var done := |steps| - |pending|;
        assert steps[..done + 1] == steps[..done] + [step];
        pending := pending[1..];
      }
    }

    /** `cancel`: calls the iterator's `return` when it has one. */
    method Cancel()
      modifies this
      ensures returnCalls == old(returnCalls) + (if hasReturn then 1 else 0)
      ensures pending == old(pending) && enqueued == old(enqueued) && closed == old(closed)
    {
      if hasReturn {
        returnCalls := returnCalls + 1;
      }
    }

    /** Pulling until the stream closes enqueues every step's output, in order. */
    method Drain()
      requires Valid() && !closed
      modifies this
      ensures Valid() && closed && enqueued == AllEnqueues(steps)
    {
      while !closed
        invariant Valid()
        decreases |pending| + (if closed then 0 else 1)
      {
        Pull();
      }
      assert steps[..|steps|] == steps;
    }
  }

  /** The iterator over a rendered node: one `Yield` per chunk. */
  function Yields(chunks: seq<string>): (steps: seq<IterStep>)
    ensures |steps| == |chunks| && forall i :: 0 <= i < |chunks| ==> steps[i] == Yield(chunks[i])
  {
    seq(|chunks|, i requires 0 <= i < |chunks| => Yield(chunks[i]))
  }

  /** The text a consumer reads from the enqueued pieces, a zero byte read as the character 0. */
  function ReadText(pieces: seq<Enqueued>): string {
    if pieces == [] then ""
    else
      ReadText(pieces[..|pieces| - 1])
      + (match pieces[|pieces| - 1] case Encoded(t) => t case ZeroByte => [0 as char])
  }

  lemma {:induction false} ReadTextAppend(a: seq<Enqueued>, b: seq<Enqueued>)
    ensures ReadText(a + b) == ReadText(a) + ReadText(b)
    decreases |b|
  {
    if b == [] {
      assert a + b == a;
    } else {
      var b', x := b[..|b| - 1], b[|b| - 1];
      assert (a + b)[..|a + b| - 1] == a + b';
      ReadTextAppend(a, b');
    }
  }

  /** A stream over chunks that never fails reads back as the chunks joined. */
  lemma {:induction false} StreamReadsAsChunks(chunks: seq<string>)
    ensures ReadText(AllEnqueues(Yields(chunks))) == Concat(chunks)
    decreases |chunks|
  {
    if chunks != [] {
      var init := chunks[..|chunks| - 1];
      var last := chunks[|chunks| - 1];
      StreamReadsAsChunks(init);
      YieldsLast(chunks);
      ReadTextAppend(AllEnqueues(Yields(init)), [Encoded(last)]);
      ReadTextOne(last);
      ConcatLast(chunks);
    }
  }

  lemma YieldsLast(chunks: seq<string>)
    requires chunks != []
    ensures AllEnqueues(Yields(chunks)) == AllEnqueues(Yields(chunks[..|chunks| - 1])) + [Encoded(chunks[|chunks| - 1])]
  {
    assert Yields(chunks)[..|chunks| - 1] == Yields(chunks[..|chunks| - 1]);
  }

  lemma ReadTextOne(text: string)
    ensures ReadText([Encoded(text)]) == text
  {
    assert ReadText([Encoded(text)]) == "" + text;
  }

  lemma ConcatLast(chunks: seq<string>)
    requires chunks != []
    ensures Concat(chunks) == Concat(chunks[..|chunks| - 1]) + chunks[|chunks| - 1]
  {
    var init, last := chunks[..|chunks| - 1], chunks[|chunks| - 1];
    assert chunks == init + [last];
    ConcatAppend(init, [last]);
    assert Concat([last]) == last + Concat([]);
  }

  /** Draining the stream of `htmlToResponse` reads back as `renderToString` of the node. */
  lemma HtmlStreamReadsAsRendered(node: Html.Html)
    ensures ReadText(AllEnqueues(Yields(Html.Chunks(node)))) == Html.RenderToString(node)
  {
    StreamReadsAsChunks(Html.Chunks(node));
  }

  /** Once the iterator fails, the output holds a zero byte, so the body is malformed. */
  lemma {:induction false} FailureLeavesZeroByte(steps: seq<IterStep>, i: nat)
    requires i < |steps| && steps[i].Fail?
    ensures ZeroByte in AllEnqueues(steps)
    decreases |steps|
  {
    if i < |steps| - 1 {
      FailureLeavesZeroByte(steps[..|steps| - 1], i);
    }
  }

  // ----- ghPagesBasePath -----

  /** `GITHUB_REPOSITORY?.split("/")[1]`: the piece after the first `/`, if there is one. */
  function RepoName(githubRepository: Option<string>): (r: Option<string>)
    ensures r.Some? <==> githubRepository.Some? && '/' in githubRepository.value
    ensures r.Some? ==>
      var s := githubRepository.value;
      var t := s[IndexOf(s, '/') + 1..];
      '/' !in r.value
      && ('/' in t ==> r.value == t[..IndexOf(t, '/')])
      && ('/' !in t ==> r.value == t)
  {
    if githubRepository.None? then None
    else
      var parts := Split(githubRepository.value, '/');
      SplitCount(githubRepository.value, '/');
      if |parts| > 1 then
        var s := githubRepository.value;
        SplitAtFirst(s, '/');
        SplitHead(s[IndexOf(s, '/') + 1..], '/');
        Some(parts[1])
      else None
  }

  /** For `owner/repo`, the repository name is `repo`, and the base path is `/repo` unless it is a pages site. */
  lemma RepoNameOf(owner: string, repo: string)
    requires '/' !in owner && '/' !in repo
    ensures RepoName(Some(owner + "/" + repo)) == Some(repo)
    ensures repo != "" && !EndsWith(repo, ".github.io") ==> GhPagesBasePath(false, Some(owner + "/" + repo)) == "/" + repo
  {
    var s := owner + "/" + repo;
    IndexOfAt(s, '/', |owner|);
    assert s[|owner| + 1..] == repo;
  }

  /**
   * `ghPagesBasePath`: `"/" + repo` on a server whose `GITHUB_REPOSITORY` names a
   * repository that is not a `*.github.io` site, otherwise `""`.
   */
  function GhPagesBasePath(isBrowser: bool, githubRepository: Option<string>): (r: string)
    ensures r != "" <==>
      !isBrowser && RepoName(githubRepository).Some?
      && RepoName(githubRepository).value != "" && !EndsWith(RepoName(githubRepository).value, ".github.io")
    ensures r != "" ==> r == "/" + RepoName(githubRepository).value
  {
    if !isBrowser then
      var repo := RepoName(githubRepository);
      if repo.Some? && repo.value != "" && !EndsWith(repo.value, ".github.io") then "/" + repo.value else ""
    else ""
  }
}
