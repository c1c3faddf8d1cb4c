/**
 * `src/generator.ts`: static site generation. Which URLs a route yields, where each
 * generated page is written, which route modules are generated at all, and how the
 * static files are carried over. The disk writes themselves are recorded as a list
 * of `Write` values instead of being performed.
 */
module Generator {
  import opened Common
  import opened Strings
  import Js
  import opened Routes
  import Responses
  import Server
  import FileRouter

  /** `Error(message)`, as `${e}` shows it. */
  function Err(message: string): JsError {
    JsError("Error", "", "Error: " + message)
  }

  const NoGetStaticPaths := " should export a function named getStaticPaths, returning an array of strings."
  const NotAnArray := "#getStaticPaths must return an array of strings"
  const NoLeadingSlash := "#getStaticPaths: paths must start with a slash (/)"
  const NoGet := " should export a function named GET"

  // ----- the URLs of one route -----

  /** The `TypeError` that reading `[0]` of `null` or `undefined` throws. */
  function ReadZeroError(v: Js.JsVal): JsError
    requires v.Null? || v.Undefined?
  {
    JsError("TypeError", "", "TypeError: Cannot read properties of " + Js.ToText(v) + " (reading '0')")
  }

  /**
   * `p[0]` on any value: the first character of a string, the first element of an
   * array, property `0` of an object, `undefined` for booleans, numbers and empty
   * strings or arrays, and a `TypeError` for `null` and `undefined`.
   */
  function IndexZero(v: Js.JsVal): (r: Attempt<Js.JsVal>)
    ensures r.Threw? <==> v.Null? || v.Undefined?
    ensures v.Str? && v.s != [] ==> r == Ok(Js.Str([v.s[0]]))
    ensures v.Arr? && v.items != [] ==> r == Ok(v.items[0])
    ensures v.Obj? ==> r == Ok(Js.Get(v, "0"))
    ensures v.Bool? || v.Num? || (v.Str? && v.s == []) || (v.Arr? && v.items == []) ==> r == Ok(Js.Undefined)
  {
    match v
    case Undefined => Threw(ReadZeroError(v))
    case Null => Threw(ReadZeroError(v))
    case Str(s) => if s == [] then Ok(Js.Undefined) else Ok(Js.Str([s[0]]))
    case Arr(items) => if items == [] then Ok(Js.Undefined) else Ok(items[0])
    case Obj(_) => Ok(Js.Get(v, "0"))
    case _ => Ok(Js.Undefined)
  }

  /** `p[0] !== "/"` is false for the path `p`: it passes the check. */
  predicate SlashFirst(v: Js.JsVal) {
    IndexZero(v) == Ok(Js.Str("/"))
  }

  /** The error the check throws for a path that does not pass it. */
  function PathError(filePath: string, v: Js.JsVal): JsError {
    if IndexZero(v).Threw? then IndexZero(v).error else Err(filePath + NoLeadingSlash)
  }

  /** The position of the first path that does not pass, or -1. */
  function FirstFailing(paths: seq<Js.JsVal>): (i: int)
    ensures -1 <= i < |paths|
    ensures i == -1 <==> forall j :: 0 <= j < |paths| ==> SlashFirst(paths[j])
    ensures 0 <= i ==> !SlashFirst(paths[i]) && forall j :: 0 <= j < i ==> SlashFirst(paths[j])
  {
    if paths == [] then -1
    else if !SlashFirst(paths[0]) then 0
    else
      var k := FirstFailing(paths[1..]);
      if k == -1 then -1 else k + 1
  }

  /**
   * `paths.map(p => …)`: each path is checked in turn, the first that does not pass
   * ending the map with its error; a passing path becomes the text `String(p)` that
   * `urlPrefix + p` appends.
   */
  function UrlTexts(filePath: string, paths: seq<Js.JsVal>): (r: Attempt<seq<string>>)
    ensures r.Ok? <==> FirstFailing(paths) == -1
    ensures r.Threw? ==> FirstFailing(paths) >= 0 && r.error == PathError(filePath, paths[FirstFailing(paths)])
    ensures r.Ok? ==> |r.value| == |paths| && forall i :: 0 <= i < |r.value| ==> r.value[i] == Js.ToText(paths[i])
  {
    if paths == [] then Ok([])
    else if !SlashFirst(paths[0]) then Threw(PathError(filePath, paths[0]))
    else
      match UrlTexts(filePath, paths[1..])
      case Threw(e) => Threw(e)
      case Ok(rest) => Ok([Js.ToText(paths[0])] + rest)
  }

  /** The array `getStaticPaths` returned is accepted: an array whose first element (if any) is a string. */
  predicate ArrayOfStrings(v: Js.JsVal) {
    v.Arr? && (v.items == [] || v.items[0].Str?)
  }

  /**
   * `getStaticUrls`: `getStaticPaths` is called (and awaited) through `call`, which may
   * throw or reject. The URL `new URL(urlPrefix + p)` built from each path `p` is
   * represented by `String(p)`, the text that follows the fixed `urlPrefix`; its
   * pathname is taken by `pathnameOf` where a page is generated. Only the first element
   * is type-checked; every later one is checked by `p[0]` alone.
   */
  function GetStaticUrls(filePath: string, getStaticPaths: Option<Export>, call: Export -> Attempt<Js.JsVal>): (r: Attempt<seq<string>>)
    ensures !(getStaticPaths.Some? && getStaticPaths.value.Function?) ==>
      r == Threw(Err(filePath + NoGetStaticPaths))
    ensures getStaticPaths.Some? && getStaticPaths.value.Function? && call(getStaticPaths.value).Threw? ==>
      r == Threw(call(getStaticPaths.value).error)
    ensures getStaticPaths.Some? && getStaticPaths.value.Function? && call(getStaticPaths.value).Ok? ==>
      var paths := call(getStaticPaths.value).value;
      (!ArrayOfStrings(paths) ==> r == Threw(Err(filePath + NotAnArray)))
      && (ArrayOfStrings(paths) ==>
            (r.Ok? <==> FirstFailing(paths.items) == -1)
            && (r.Threw? ==> r.error == PathError(filePath, paths.items[FirstFailing(paths.items)]))
            && (r.Ok? ==> (|r.value| == |paths.items|
                  && forall i :: 0 <= i < |r.value| ==> r.value[i] == Js.ToText(paths.items[i]))))
  {
    if !(getStaticPaths.Some? && getStaticPaths.value.Function?) then Threw(Err(filePath + NoGetStaticPaths))
    else
      match call(getStaticPaths.value)
      case Threw(e) => Threw(e)
      case Ok(paths) =>
        if !ArrayOfStrings(paths) then Threw(Err(filePath + NotAnArray))
        else UrlTexts(filePath, paths.items)
  }

  /** Paths that are all strings starting with `/` become their own URL texts. */
  lemma StringPathsKept(filePath: string, paths: seq<Js.JsVal>)
    requires forall i :: 0 <= i < |paths| ==> paths[i].Str? && paths[i].s != [] && paths[i].s[0] == '/'
    ensures var r := UrlTexts(filePath, paths);
      r.Ok? && |r.value| == |paths| && forall i :: 0 <= i < |paths| ==> r.value[i] == paths[i].s
  {
    assert FirstFailing(paths) == -1;
    var texts := UrlTexts(filePath, paths).value;
    assert forall i :: 0 <= i < |paths| ==> texts[i] == Js.ToText(paths[i]) == paths[i].s;
  }

  /** Only `p[0]` is checked after the first path: an array whose first element is `"/"` passes, as its text. */
  lemma ArrayPathPasses(filePath: string, first: string, rest: seq<Js.JsVal>)
    requires first != [] && first[0] == '/'
    ensures UrlTexts(filePath, [Js.Str(first), Js.Arr([Js.Str("/")] + rest)])
      == Ok([first, Js.ToText(Js.Arr([Js.Str("/")] + rest))])
  {
    var paths := [Js.Str(first), Js.Arr([Js.Str("/")] + rest)];
    assert SlashFirst(paths[0]);
    assert SlashFirst(paths[1]);
    assert FirstFailing(paths) == -1;
    var texts := UrlTexts(filePath, paths).value;
    assert texts[0] == Js.ToText(paths[0]) == first;
    assert texts == [texts[0], texts[1]];
  }

  /** A later `null` path makes `p[0]` throw its `TypeError` rather than the slash error. */
  lemma NullPathThrows(filePath: string, first: string)
    requires first != [] && first[0] == '/'
    ensures UrlTexts(filePath, [Js.Str(first), Js.Null]) == Threw(ReadZeroError(Js.Null))
  {
    var paths := [Js.Str(first), Js.Null];
    assert SlashFirst(paths[0]);
    assert FirstFailing(paths) == 1;
  }

  // ----- one page -----

  /** The output path of a page: a pathname ending in `/` is written as its `index.html`. */
  function OutFilePath(pathname: string): string {
    if EndsWith(pathname, "/") then pathname + "index.html" else pathname
  }

  /** The output path extends the pathname and never names a directory. */
  lemma OutFilePathIsFile(pathname: string)
    ensures StartsWith(OutFilePath(pathname), pathname)
    ensures OutFilePath(pathname) == pathname <==> !EndsWith(pathname, "/")
    ensures OutFilePath(pathname) == [] || OutFilePath(pathname)[|OutFilePath(pathname)| - 1] != '/'
  {
    StartsWithAppend(pathname, "index.html");
    if EndsWith(pathname, "/") {
      assert |OutFilePath(pathname)| > |pathname|;
    }
  }

  /** `/a/` and `/a/index.html` are written to the same file. */
  lemma DirectoryAndIndexShareFile(dir: string)
    ensures OutFilePath(dir + "/") == OutFilePath(dir + "/" + "index.html")
  {
    EndsWithAppend(dir, "/");
    var s := dir + "/" + "index.html";
    assert s[|s| - 1] == 'l';
  }

  datatype Page = Page(outFilePath: string, response: Responses.Response)

  /**
   * `generatePage`: `invoke` calls `GET` with a request for the URL `urlPrefix + url`,
   * and `pathnameOf(url)` is that URL's `pathname`, as the URL parser normalises it
   * (percent-encoding, query and fragment dropped, dot segments resolved). A handler
   * that throws or returns something other than a `Response` yields no page.
   */
  function GeneratePage(get: Export, url: string, pathnameOf: string -> string,
                        invoke: (Export, string) -> Server.Outcome): (r: Option<Page>)
    ensures r.Some? <==> invoke(get, url).Returned?
    ensures r.Some? ==> r.value.response == invoke(get, url).response
    ensures r.Some? ==>
      StartsWith(r.value.outFilePath, pathnameOf(url)) && r.value.outFilePath == OutFilePath(pathnameOf(url))
  {
    OutFilePathIsFile(pathnameOf(url));
    match invoke(get, url)
    case Returned(res) => Some(Page(OutFilePath(pathnameOf(url)), res))
    case _ => None
  }

  // ----- all pages of one route -----

  /**
   * `generatePagesForRoute`: `hasParams` is `hasRouteParams(name)` and `pathname` the
   * route pattern's pathname, which becomes the one URL of a route without parameters.
   */
  function GeneratePagesForRoute(name: string, pathname: string, mod: Module, hasParams: bool,
                                 call: Export -> Attempt<Js.JsVal>, pathnameOf: string -> string,
                                 invoke: (Export, string) -> Server.Outcome): (r: Attempt<seq<Option<Page>>>)
    ensures !ExportsFunction(mod, "GET") ==> r == Threw(Err(name + NoGet))
    ensures ExportsFunction(mod, "GET") && !hasParams ==> r == Ok([GeneratePage(mod["GET"], pathname, pathnameOf, invoke)])
    ensures ExportsFunction(mod, "GET") && hasParams ==>
      var urls := GetStaticUrls(name, Lookup(mod, "getStaticPaths"), call);
      (r.Ok? <==> urls.Ok?)
      && (r.Threw? ==> r.error == urls.error)
      && (r.Ok? ==> (|r.value| == |urls.value|
            && forall i :: 0 <= i < |r.value| ==>
                 r.value[i] == GeneratePage(mod["GET"], urls.value[i], pathnameOf, invoke)))
  {
    if !ExportsFunction(mod, "GET") then Threw(Err(name + NoGet))
    else if !hasParams then Ok([GeneratePage(mod["GET"], pathname, pathnameOf, invoke)])
    else
      match GetStaticUrls(name, Lookup(mod, "getStaticPaths"), call)
      case Threw(e) => Threw(e)
      case Ok(us) => Ok(seq(|us|, i requires 0 <= i < |us| => GeneratePage(mod["GET"], us[i], pathnameOf, invoke)))
  }

  // ----- `generate` -----

  datatype GenerateConfig = GenerateConfig(outFolder: Option<string>, onlyPregenerate: Option<bool>)

  /**
   * A route as `generate` sees it: `mod` is what awaiting its module gives (the module,
   * or the error its import rejects with), and `hasParams` is `hasRouteParams(name)`.
   */
  datatype GenRoute = GenRoute(name: string, pathname: string, mod: Attempt<Module>, hasParams: bool)

  /** One file `generate` writes: a page body, a transpiled client script, or a copy. */
  datatype Write =
    | WritePage(path: string, body: Responses.Body)
    | WriteJs(path: string, source: string)
    | CopyFile(path: string, source: string)

  /** What `generate` has written for its routes, and the error it logged if one stopped it. */
  datatype Plan = Plan(writes: seq<Write>, error: Option<JsError>)

  /** The output folder, `generated` unless configured. */
  function OutFolder(config: Option<GenerateConfig>): string {
    if config.Some? && config.value.outFolder.Some? then config.value.outFolder.value else "generated"
  }

  /** Whether only routes exporting `pregenerate` are generated; off unless configured. */
  predicate OnlyPregenerate(config: Option<GenerateConfig>) {
    config.Some? && config.value.onlyPregenerate == Some(true)
  }

  /** A route module is generated unless only pregenerated routes are asked for and it is not one. */
  predicate Selected(only: bool, mod: Module) {
    !only || Exports(mod, "pregenerate")
  }

  /** The writes for the pages of one route: pages that exist and have a body. */
  function PageWrites(outFolder: string, pages: seq<Option<Page>>): (r: seq<Write>)
    ensures |r| <= |pages|
    ensures forall w :: w in r ==> w.WritePage? && StartsWith(w.path, outFolder) && !w.body.NoBody?
  {
    if pages == [] then []
    else
      var rest := PageWrites(outFolder, pages[1..]);
      if pages[0].Some? && !pages[0].value.response.body.NoBody? then
        StartsWithAppend(outFolder, pages[0].value.outFilePath);
        [WritePage(outFolder + pages[0].value.outFilePath, pages[0].value.response.body)] + rest
      else rest
  }

  /** Every page that exists and has a body is written, at the output folder plus its output path. */
  lemma {:induction false} PageWritten(outFolder: string, pages: seq<Option<Page>>, i: nat)
    requires i < |pages| && pages[i].Some? && !pages[i].value.response.body.NoBody?
    ensures WritePage(outFolder + pages[i].value.outFilePath, pages[i].value.response.body) in PageWrites(outFolder, pages)
  {
    if i > 0 {
      PageWritten(outFolder, pages[1..], i - 1);
    }
  }

  /**
   * The route part of `generate`: routes in order, skipping unselected ones; the first
   * route whose module cannot be loaded, or whose pages cannot be generated, ends the
   * loop, its error being logged. A module is awaited before it is looked at, so a
   * failing import stops the loop even for a route that would not be selected.
   */
  function RouteWrites(outFolder: string, only: bool, routes: seq<GenRoute>,
                       call: Export -> Attempt<Js.JsVal>, pathnameOf: string -> string, invoke: (Export, string) -> Server.Outcome): Plan
  {
    if routes == [] then Plan([], None)
    else if routes[0].mod.Threw? then Plan([], Some(routes[0].mod.error))
    else if !Selected(only, routes[0].mod.value) then RouteWrites(outFolder, only, routes[1..], call, pathnameOf, invoke)
    else
      var route := routes[0];
      match GeneratePagesForRoute(route.name, route.pathname, route.mod.value, route.hasParams, call, pathnameOf, invoke)
      case Threw(e) => Plan([], Some(e))
      case Ok(pages) =>
        var rest := RouteWrites(outFolder, only, routes[1..], call, pathnameOf, invoke);
        Plan(PageWrites(outFolder, pages) + rest.writes, rest.error)
  }

  /**
   * A route whose module import rejects ends the loop with that error logged, whether or
   * not it would have been selected, and nothing after it is generated.
   */
  lemma ImportFailureLogged(outFolder: string, only: bool, route: GenRoute, rest: seq<GenRoute>,
                            call: Export -> Attempt<Js.JsVal>, pathnameOf: string -> string, invoke: (Export, string) -> Server.Outcome)
    requires route.mod.Threw?
    ensures RouteWrites(outFolder, only, [route] + rest, call, pathnameOf, invoke) == Plan([], Some(route.mod.error))
  {
    assert ([route] + rest)[0] == route;
  }

  /**
   * The whole route part of `generate`, `loaded` being what awaiting `getRoutes()` gives:
   * when it rejects, nothing is written for routes and its error is logged.
   */
  function RoutePlan(outFolder: string, only: bool, loaded: Attempt<seq<GenRoute>>,
                     call: Export -> Attempt<Js.JsVal>, pathnameOf: string -> string, invoke: (Export, string) -> Server.Outcome): Plan
  {
    if loaded.Threw? then Plan([], Some(loaded.error))
    else RouteWrites(outFolder, only, loaded.value, call, pathnameOf, invoke)
  }

  /** How one static file is carried over: `.client.ts` transpiled to `.js`, anything else copied. */
  function StaticWrite(outFolder: string, filePath: string): Write {
    if EndsWith(filePath, ".client.ts") then WriteJs(outFolder + filePath[..|filePath| - 3] + ".js", "routes" + filePath)
    else CopyFile(outFolder + filePath, "routes" + filePath)
  }

  /** A client script `X.client.ts` is written as `X.client.js`, from its source under `routes`. */
  lemma ClientScriptBecomesJs(outFolder: string, stem: string)
    ensures StaticWrite(outFolder, stem + ".client.ts") == WriteJs(outFolder + stem + ".client.js", "routes" + stem + ".client.ts")
  {
    var f := stem + ".client.ts";
    EndsWithAppend(stem, ".client.ts");
    assert f[..|f| - 3] == stem + ".client";
  }

  function StaticWrites(outFolder: string, paths: seq<string>): (r: seq<Write>)
    ensures |r| == |paths|
    ensures forall i :: 0 <= i < |paths| ==> r[i] == StaticWrite(outFolder, paths[i])
  {
    seq(|paths|, i requires 0 <= i < |paths| => StaticWrite(outFolder, paths[i]))
  }

  /**
   * `generate`: the route loop inside its `try`, then the static-file loop, which runs
   * whether or not the route loop was stopped. `staticPaths` is what
   * `getStaticFilePaths` gives.
   */
  method Generate(config: Option<GenerateConfig>, loaded: Attempt<seq<GenRoute>>, staticPaths: seq<string>,
                  call: Export -> Attempt<Js.JsVal>, pathnameOf: string -> string, invoke: (Export, string) -> Server.Outcome)
    returns (writes: seq<Write>, logged: Option<JsError>)
    ensures var plan := RoutePlan(OutFolder(config), OnlyPregenerate(config), loaded, call, pathnameOf, invoke);
      writes == plan.writes + StaticWrites(OutFolder(config), staticPaths) && logged == plan.error
    ensures loaded.Threw? ==> writes == StaticWrites(OutFolder(config), staticPaths) && logged == Some(loaded.error)
  {
    var outFolder := OutFolder(config);
    if loaded.Threw? {
      writes, logged := [], Some(loaded.error);
    } else {
      writes, logged := GenerateRoutes(outFolder, OnlyPregenerate(config), loaded.value, call, pathnameOf, invoke);
    }
    var statics := CarryOverStatic(outFolder, staticPaths);
    writes := writes + statics;
  }

  /** The route loop of `generate`, ended by the first route that throws. */
  method GenerateRoutes(outFolder: string, only: bool, routes: seq<GenRoute>,
                        call: Export -> Attempt<Js.JsVal>, pathnameOf: string -> string, invoke: (Export, string) -> Server.Outcome)
    returns (writes: seq<Write>, logged: Option<JsError>)
    ensures Plan(writes, logged) == RouteWrites(outFolder, only, routes, call, pathnameOf, invoke)
  {
    ghost var whole := RouteWrites(outFolder, only, routes, call, pathnameOf, invoke);
    writes := [];
    logged := None;
    var k := 0;
    while k < |routes|
      invariant 0 <= k <= |routes|
      invariant whole.writes == writes + RouteWrites(outFolder, only, routes[k..], call, pathnameOf, invoke).writes
      invariant whole.error == RouteWrites(outFolder, only, routes[k..], call, pathnameOf, invoke).error
    {
      var pageWrites, error := GenerateRoute(outFolder, only, routes, k, call, pathnameOf, invoke);
      writes := writes + pageWrites;
      if error.Some? {
        logged := error;
        return;
      }
      k := k + 1;
    }
    assert routes[|routes|..] == [];
  }

  /**
   * One pass of the route loop, for `routes[k]`: the error when its module cannot be
   * loaded or its pages cannot be generated (which ends the loop), nothing for an
   * unselected route, and otherwise the writes for its pages.
   */
  method GenerateRoute(outFolder: string, only: bool, routes: seq<GenRoute>, k: nat,
                       call: Export -> Attempt<Js.JsVal>, pathnameOf: string -> string, invoke: (Export, string) -> Server.Outcome)
    returns (pageWrites: seq<Write>, error: Option<JsError>)
    requires k < |routes|
    ensures var here := RouteWrites(outFolder, only, routes[k..], call, pathnameOf, invoke);
      var rest := RouteWrites(outFolder, only, routes[k + 1..], call, pathnameOf, invoke);
      if error.Some? then here == Plan(pageWrites, error)
      else here.writes == pageWrites + rest.writes && here.error == rest.error
  {
    var route := routes[k];
    ghost var here := RouteWrites(outFolder, only, routes[k..], call, pathnameOf, invoke);
    ghost var rest := RouteWrites(outFolder, only, routes[k + 1..], call, pathnameOf, invoke);
    RouteWritesStep(outFolder, only, routes, k, call, pathnameOf, invoke);
    pageWrites, error := [], None;
    if route.mod.Threw? {
      error := Some(route.mod.error);
    } else if Selected(only, route.mod.value) {
      var pages := GeneratePagesForRoute(route.name, route.pathname, route.mod.value, route.hasParams, call, pathnameOf, invoke);
      if pages.Threw? {
        assert here == Plan([], Some(pages.error));
        error := Some(pages.error);
      } else {
        assert here == Plan(PageWrites(outFolder, pages.value) + rest.writes, rest.error);
        pageWrites := PageWrites(outFolder, pages.value);
      }
    } else {
      assert here == rest;
    }
  }

  /** `RouteWrites` from position `k` on, unrolled by one route. */
  lemma RouteWritesStep(outFolder: string, only: bool, routes: seq<GenRoute>, k: nat,
                        call: Export -> Attempt<Js.JsVal>, pathnameOf: string -> string, invoke: (Export, string) -> Server.Outcome)
    requires k < |routes|
    ensures var here := RouteWrites(outFolder, only, routes[k..], call, pathnameOf, invoke);
      var rest := RouteWrites(outFolder, only, routes[k + 1..], call, pathnameOf, invoke);
      var route := routes[k];
      here == if route.mod.Threw? then Plan([], Some(route.mod.error))
              else if !Selected(only, route.mod.value) then rest
              else var pages := GeneratePagesForRoute(route.name, route.pathname, route.mod.value, route.hasParams, call, pathnameOf, invoke);
              if pages.Threw? then Plan([], Some(pages.error))
              else Plan(PageWrites(outFolder, pages.value) + rest.writes, rest.error)
  {
    assert routes[k..][0] == routes[k] && routes[k..][1..] == routes[k + 1..];
  }

  /** The static-file loop of `generate`. */
  method CarryOverStatic(outFolder: string, paths: seq<string>) returns (statics: seq<Write>)
    ensures statics == StaticWrites(outFolder, paths)
  {
    statics := [];
    for j := 0 to |paths|
      invariant statics == StaticWrites(outFolder, paths[..j])
    {
      assert paths[..j + 1] == paths[..j] + [paths[j]];
      statics := statics + [StaticWrite(outFolder, paths[j])];
    }
    assert paths[..|paths|] == paths;
  }

  /**
   * Whether a route survives the `onlyPregenerate` filter: it exports `pregenerate`, or
   * its module cannot be loaded (which ends the loop whatever the filter).
   */
  predicate KeptForPregenerate(route: GenRoute) {
    route.mod.Threw? || Exports(route.mod.value, "pregenerate")
  }

  /** The routes exporting `pregenerate` (and those failing to load), in order. */
  function Pregenerated(routes: seq<GenRoute>): (r: seq<GenRoute>)
    ensures forall i :: 0 <= i < |r| ==> KeptForPregenerate(r[i])
    ensures forall x :: x in r ==> x in routes
    ensures forall x :: x in routes && KeptForPregenerate(x) ==> x in r
  {
    if routes == [] then []
    else (if KeptForPregenerate(routes[0]) then [routes[0]] else []) + Pregenerated(routes[1..])
  }

  /** With `onlyPregenerate`, `generate` does for its routes what it does for the pregenerated ones alone. */
  lemma {:induction false} OnlyPregenerateFilters(outFolder: string, routes: seq<GenRoute>,
                                                  call: Export -> Attempt<Js.JsVal>, pathnameOf: string -> string, invoke: (Export, string) -> Server.Outcome)
    ensures RouteWrites(outFolder, true, routes, call, pathnameOf, invoke) == RouteWrites(outFolder, false, Pregenerated(routes), call, pathnameOf, invoke)
  {
    if routes != [] {
      OnlyPregenerateFilters(outFolder, routes[1..], call, pathnameOf, invoke);
      var p := Pregenerated(routes);
      if KeptForPregenerate(routes[0]) {
        assert p == [routes[0]] + Pregenerated(routes[1..]);
        assert p != [] && p[0] == routes[0] && p[1..] == Pregenerated(routes[1..]);
      } else {
        assert p == Pregenerated(routes[1..]);
      }
    }
  }

  // ----- `getStaticFilePaths` -----

  /** `isStaticFile`: every file that is not a server route module. */
  predicate IsStaticFile(p: string) {
    !FileRouter.IsServerFile(p)
  }

  /** `getStaticFilePaths`: the static files found, with the leading `/routes` (7 characters) cut. */
  function StaticFilePaths(found: seq<string>): (r: seq<string>)
    ensures |r| <= |found|
    ensures forall x :: x in r <==> exists p :: p in found && IsStaticFile(p) && SliceFrom(p, 7) == x
  {
    if found == [] then []
    else
      var rest := StaticFilePaths(found[1..]);
      assert forall p :: p in found <==> p == found[0] || p in found[1..];
      (if IsStaticFile(found[0]) then [SliceFrom(found[0], 7)] else []) + rest
  }
}
