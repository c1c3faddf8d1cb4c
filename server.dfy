/**
 * `src/server.ts`: the `fetch` handler's decision between a static file, a route's
 * handler, 404, 405 and 500, and the helpers `staticCacheControlVal` and `isDevServer`.
 */
module Server {
  import opened Common
  import opened Strings
  import opened Routes
  import Responses

  /** `isDevServer`: the host name is `localhost`. */
  predicate IsDevServer(hostname: string) {
    hostname == "localhost"
  }

  /**
   * `staticCacheControlVal`: `deploymentId` is what `Deno.env.get("DENO_DEPLOYMENT_ID")`
   * gives (`None` outside Deno).
   */
  function StaticCacheControlVal(deploymentId: Option<string>, hostname: string): (r: Option<string>)
    ensures deploymentId.Some? && deploymentId.value != "" ==> r == Some("s-maxage=604800")
    ensures !(deploymentId.Some? && deploymentId.value != "") ==>
      (r.Some? <==> IsDevServer(hostname)) && (r.Some? ==> r.value == "max-age=0")
  {
    if deploymentId.Some? && deploymentId.value != "" then Some("s-maxage=604800")
    else if IsDevServer(hostname) then Some("max-age=0")
    else None
  }

  /** The parts of the request `fetch` looks at (`verb` is `req.method`). */
  datatype Request = Request(verb: string, url: string, hostname: string)

  /**
   * A route as `fetch` sees it: a name, a pattern and what awaiting its module gives
   * (the module, or the error its import rejects with).
   */
  datatype ServerRoute = ServerRoute(name: string, pathname: string, mod: Attempt<Module>)

  /** What awaiting a handler gives: a `Response`, some other value, or a thrown error. */
  datatype Outcome = Returned(response: Responses.Response) | NotAResponse | Raised(error: JsError)

  const NotFoundText := "404 not found"
  const PregenerateText :=
    "404 Route was hit on non-localhost but exports pregenerate=true. "
    + "Did you forget to run `mastro/generator --only-pregenerate` as a build step?"

  /** The routes as the shared first-match lookup sees them. */
  function AsPathRoutes(routes: seq<ServerRoute>): (r: seq<PathRoute>)
    ensures |r| == |routes|
    ensures forall i :: 0 <= i < |routes| ==> r[i].pathname == routes[i].pathname
  {
    seq(|routes|, i requires 0 <= i < |routes| => PathRoute(routes[i].name, routes[i].pathname))
  }

  /** `routes.find((r) => r.pattern.exec(req.url))`, as a position or -1. */
  function FindRoute(routes: seq<ServerRoute>, url: string, exec: Exec): int {
    FirstMatch(AsPathRoutes(routes), url, exec)
  }

  /**
   * The body of the `try` block: `staticFile` is what `serveStaticFile` gives for the
   * request, `loaded` what awaiting `getRoutes()` gives, and `invoke` calls a handler.
   */
  function Attempted(req: Request, userAgent: string, staticFile: Attempt<Option<Responses.Response>>,
                     loaded: Attempt<seq<ServerRoute>>, exec: Exec, invoke: Export -> Outcome): Attempt<Responses.Response>
  {
    var verb := ToUpper(req.verb);
    var isDev := IsDevServer(req.hostname);
    if verb == "GET" && userAgent != "Cloudflare-Workers" && staticFile.Threw? then Threw(staticFile.error)
    else if verb == "GET" && userAgent != "Cloudflare-Workers" && staticFile.value.Some? then
      Ok(staticFile.value.value)
    else if loaded.Threw? then Threw(loaded.error)
    else
      var routes := loaded.value;
      var i := FindRoute(routes, req.url, exec);
      if i < 0 then Ok(Responses.TextResponse(404, NotFoundText))
      else if routes[i].mod.Threw? then Threw(routes[i].mod.error)
      else
        var route := routes[i];
        var mod := route.mod.value;
        if !ExportsFunction(mod, verb) then
          Ok(Responses.TextResponse(405, "No function " + verb + " exported by " + route.name))
        else if Exports(mod, "pregenerate") && !isDev then
          Ok(Responses.TextResponse(404, PregenerateText))
        else
          match invoke(mod[verb])
          case Returned(res) => Ok(res)
          case NotAResponse => Threw(JsError("Error", "", "Error: " + verb + " must return a Response object"))
          case Raised(e) => Threw(e)
  }

  /** The `catch` block: `NotFound` and `ENOENT` become 404, anything else 500. */
  function ErrorResponse(e: JsError): (r: Responses.Response)
    ensures r.status == 404 <==> e.name == "NotFound" || e.code == "ENOENT"
    ensures r.status != 404 ==> r.status == 500
  {
    if e.name == "NotFound" || e.code == "ENOENT" then Responses.TextResponse(404, NotFoundText)
    else Responses.TextResponse(500, "500: " + (if e.name != "" then e.name else "Unknown error") + "\n\n" + e.text)
  }

  /** `fetch`. */
  function Fetch(req: Request, userAgent: string, staticFile: Attempt<Option<Responses.Response>>,
                 loaded: Attempt<seq<ServerRoute>>, exec: Exec, invoke: Export -> Outcome): Responses.Response
  {
    match Attempted(req, userAgent, staticFile, loaded, exec, invoke)
    case Ok(res) => res
    case Threw(e) => ErrorResponse(e)
  }

  /** Whether `fetch` asks `serveStaticFile` first: a GET outside Cloudflare Workers. */
  predicate TriesStatic(req: Request, userAgent: string) {
    ToUpper(req.verb) == "GET" && userAgent != "Cloudflare-Workers"
  }

  /** A static file found for a GET is returned before any route is looked up. */
  lemma StaticFileFirst(req: Request, userAgent: string, file: Responses.Response,
                        routes: seq<ServerRoute>, exec: Exec, invoke: Export -> Outcome)
    requires TriesStatic(req, userAgent)
    ensures Fetch(req, userAgent, Ok(Some(file)), Ok(routes), exec, invoke) == file
  {
  }

  /** Without a static file and without a matching route, the answer is 404 "404 not found". */
  lemma NoRouteIsNotFound(req: Request, userAgent: string, staticFile: Attempt<Option<Responses.Response>>,
                          routes: seq<ServerRoute>, exec: Exec, invoke: Export -> Outcome)
    requires TriesStatic(req, userAgent) ==> staticFile == Ok(None)
    requires forall i :: 0 <= i < |routes| ==> exec(routes[i].pathname, req.url).None?
    ensures Fetch(req, userAgent, staticFile, Ok(routes), exec, invoke) == Responses.TextResponse(404, NotFoundText)
  {
    assert FindRoute(routes, req.url, exec) == -1;
  }

  /**
   * A matching route whose module has no function for the upper-cased method gives
   * 405, whatever the handlers would do.
   */
  lemma MissingMethodIs405(req: Request, userAgent: string, staticFile: Attempt<Option<Responses.Response>>,
                           routes: seq<ServerRoute>, exec: Exec, invoke: Export -> Outcome)
    requires TriesStatic(req, userAgent) ==> staticFile == Ok(None)
    requires 0 <= FindRoute(routes, req.url, exec)
    requires var mod := routes[FindRoute(routes, req.url, exec)].mod;
      mod.Ok? && !ExportsFunction(mod.value, ToUpper(req.verb))
    ensures Fetch(req, userAgent, staticFile, Ok(routes), exec, invoke).status == 405
  {
  }

  /**
   * A route exporting `pregenerate` that is hit on a host other than `localhost` gives
   * 404, and its handler is not called: the answer is the same whatever it does.
   */
  lemma PregenerateNotServed(req: Request, userAgent: string, staticFile: Attempt<Option<Responses.Response>>,
                             routes: seq<ServerRoute>, exec: Exec, invoke1: Export -> Outcome, invoke2: Export -> Outcome)
    requires TriesStatic(req, userAgent) ==> staticFile == Ok(None)
    requires 0 <= FindRoute(routes, req.url, exec)
    requires var mod := routes[FindRoute(routes, req.url, exec)].mod;
      mod.Ok? && ExportsFunction(mod.value, ToUpper(req.verb)) && Exports(mod.value, "pregenerate")
    requires !IsDevServer(req.hostname)
    ensures Fetch(req, userAgent, staticFile, Ok(routes), exec, invoke1) == Responses.TextResponse(404, PregenerateText)
    ensures Fetch(req, userAgent, staticFile, Ok(routes), exec, invoke1) == Fetch(req, userAgent, staticFile, Ok(routes), exec, invoke2)
  {
  }

  /**
   * Otherwise the handler decides: its `Response` is returned, any other value is a
   * 500, and an error it throws is a 404 or a 500 by its name and code.
   */
  lemma HandlerDecides(req: Request, userAgent: string, staticFile: Attempt<Option<Responses.Response>>,
                       routes: seq<ServerRoute>, exec: Exec, invoke: Export -> Outcome)
    requires TriesStatic(req, userAgent) ==> staticFile == Ok(None)
    requires 0 <= FindRoute(routes, req.url, exec)
    requires var mod := routes[FindRoute(routes, req.url, exec)].mod;
      mod.Ok? && ExportsFunction(mod.value, ToUpper(req.verb))
      && !(Exports(mod.value, "pregenerate") && !IsDevServer(req.hostname))
    ensures var mod := routes[FindRoute(routes, req.url, exec)].mod.value;
      var outcome := invoke(mod[ToUpper(req.verb)]);
      var res := Fetch(req, userAgent, staticFile, Ok(routes), exec, invoke);
      (outcome.Returned? ==> res == outcome.response)
      && (outcome.NotAResponse? ==> res.status == 500)
      && (outcome.Raised? ==> res == ErrorResponse(outcome.error))
  {
  }

  /**
   * When loading fails — `getRoutes()` rejects, or the matched route's module import
   * does — the error is caught like any other: 404 for `NotFound`/`ENOENT`, else 500.
   */
  lemma LoadFailureCaught(req: Request, userAgent: string, staticFile: Attempt<Option<Responses.Response>>,
                          routes: seq<ServerRoute>, e: JsError, exec: Exec, invoke: Export -> Outcome)
    requires TriesStatic(req, userAgent) ==> staticFile == Ok(None)
    ensures Fetch(req, userAgent, staticFile, Threw(e), exec, invoke) == ErrorResponse(e)
    ensures 0 <= FindRoute(routes, req.url, exec) && routes[FindRoute(routes, req.url, exec)].mod.Threw? ==>
      Fetch(req, userAgent, staticFile, Ok(routes), exec, invoke)
      == ErrorResponse(routes[FindRoute(routes, req.url, exec)].mod.error)
  {
  }

  /**
   * A handler's result the `Response` constructor refused (a status outside 200..599, or
   * a body with a null-body status) reaches the `catch` block and is answered with 500.
   */
  lemma ConstructorErrorIs500(status: int)
    ensures ErrorResponse(Responses.StatusRangeError(status)).status == 500
    ensures ErrorResponse(Responses.NullBodyStatusError).status == 500
  {
  }
}
