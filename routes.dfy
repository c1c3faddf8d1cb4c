/**
 * What every router shares: the method list and the `Route` record of
 * `src/routers/common.ts`, the route-parameter file name pattern, and the
 * first-match lookup `matchRoute` / `getParams` that `src/core/router.ts` and
 * `src/router.ts` define identically over their route lists.
 */
module Routes {
  import opened Common
  import opened Strings
  import Js

  /** `httpMethods`, in the order routes are created for a module. */
  const HttpMethods: seq<string> := ["GET", "HEAD", "POST", "PUT", "DELETE", "OPTIONS", "PATCH"]

  /** A value a route module exports: a function (named by an identity) or any other value. */
  datatype Export = Function(id: nat) | Value(v: Js.JsVal)

  /** JavaScript truthiness of an export. */
  predicate Truthy(e: Export) {
    e.Function? || Js.Truthy(e.v)
  }

  /** A loaded route module: its exports by name. */
  type Module = map<string, Export>

  /** `mod[key]`, `undefined` when not exported. */
  function Lookup(mod: Module, key: string): Option<Export> {
    if key in mod then Some(mod[key]) else None
  }

  /** `mod[key]` is truthy. */
  predicate Exports(mod: Module, key: string) {
    key in mod && Truthy(mod[key])
  }

  /** `typeof mod[key] === "function"`. */
  predicate ExportsFunction(mod: Module, key: string) {
    key in mod && mod[key].Function?
  }

  /**
   * A `Route` (`verb` is its `method`): the `URLPattern` is represented by its `pathname` string, the
   * handler by the export it came from.
   */
  datatype Route = Route(
    name: string,
    handler: Export,
    verb: string,
    pathname: string,
    getStaticPaths: Option<Export>,
    pregenerate: Option<Export>)

  // ----- `paramRegex`: /^\[([a-zA-Z0-9\.]+)\]/ -----

  predicate IsParamChar(c: char) {
    'a' <= c <= 'z' || 'A' <= c <= 'Z' || '0' <= c <= '9' || c == '.'
  }

  /** Length of the longest prefix of `s` made of parameter characters. */
  function ParamRun(s: string): (n: nat)
    ensures n <= |s|
    ensures forall i :: 0 <= i < n ==> IsParamChar(s[i])
    ensures n < |s| ==> !IsParamChar(s[n])
  {
    if s != [] && IsParamChar(s[0]) then 1 + ParamRun(s[1..]) else 0
  }

  /** `part.match(paramRegex)?.[1]`: the name between a leading `[` and `]`. */
  function ParamName(part: string): (r: Option<string>)
    ensures r.Some? ==> r.value != [] && StartsWith(part, "[" + r.value + "]")
    ensures r.Some? ==> forall i :: 0 <= i < |r.value| ==> IsParamChar(r.value[i])
  {
    if part == [] || part[0] != '[' then None
    else
      var n := ParamRun(part[1..]);
      if n > 0 && n + 1 < |part| && part[n + 1] == ']' then
        assert part[..n + 2] == "[" + part[1..n + 1] + "]";
        Some(part[1..n + 1])
      else None
  }

  /** Every part that opens with `[name]` matches, with `name` as its capture. */
  lemma ParamNameOf(p: string, rest: string)
    requires p != [] && forall i :: 0 <= i < |p| ==> IsParamChar(p[i])
    ensures ParamName("[" + p + "]" + rest) == Some(p)
  {
    var part := "[" + p + "]" + rest;
    assert part[1..] == p + ("]" + rest);
    ParamRunOf(p, "]" + rest);
    assert part[1..|p| + 1] == p;
  }

  lemma {:induction false} ParamRunOf(p: string, rest: string)
    requires forall i :: 0 <= i < |p| ==> IsParamChar(p[i])
    requires rest != [] && !IsParamChar(rest[0])
    ensures ParamRun(p + rest) == |p|
  {
    if p != [] {
      assert (p + rest)[1..] == p[1..] + rest;
      ParamRunOf(p[1..], rest);
    } else {
      assert p + rest == rest;
    }
  }

  // ----- matchRoute and getParams -----

  /** A compiled route of the file-based routers: its file and its pattern's pathname. */
  datatype PathRoute = PathRoute(filePath: string, pathname: string)

  /** `pattern.exec(url)`'s captured pathname groups, or `None` when it does not match. */
  type Exec = (string, string) -> Option<map<string, string>>

  /** The position of the first route whose pattern matches `url`, or -1. */
  function FirstMatch(routes: seq<PathRoute>, url: string, exec: Exec): (i: int)
    ensures -1 <= i < |routes|
    ensures i == -1 <==> forall j :: 0 <= j < |routes| ==> exec(routes[j].pathname, url).None?
    ensures 0 <= i ==> exec(routes[i].pathname, url).Some?
    ensures 0 <= i ==> forall j :: 0 <= j < i ==> exec(routes[j].pathname, url).None?
  {
    if routes == [] then -1
    else if exec(routes[0].pathname, url).Some? then 0
    else
      var k := FirstMatch(routes[1..], url, exec);
      if k == -1 then -1 else k + 1
  }

  datatype Matched = Matched(filePath: string, params: map<string, string>)

  /** What the browser build throws when a TypeScript route file matches. */
  function TypeScriptRouteError(filePath: string): JsError {
    JsError("Error", "",
      "Error: TypeScript files are currently not supported in the  Mastro VSCode extension ("
      + filePath + ")")
  }

  /**
   * `matchRoute`: the first matching route with its captured groups; in the browser,
   * a match on a `.server.ts` file throws instead.
   */
  method MatchRoute(routes: seq<PathRoute>, urlPath: string, exec: Exec, inBrowser: bool)
    returns (r: Attempt<Option<Matched>>)
    ensures FirstMatch(routes, urlPath, exec) == -1 ==> r == Ok(None)
    ensures var i := FirstMatch(routes, urlPath, exec);
      0 <= i ==>
        if inBrowser && EndsWith(routes[i].filePath, ".server.ts") then
          r == Threw(TypeScriptRouteError(routes[i].filePath))
        else
          r == Ok(Some(Matched(routes[i].filePath, exec(routes[i].pathname, urlPath).value)))
  {
    var i := 0;
    while i < |routes|
      invariant 0 <= i <= |routes|
      invariant forall j :: 0 <= j < i ==> exec(routes[j].pathname, urlPath).None?
    {
      var m := exec(routes[i].pathname, urlPath);
      if m.Some? {
        assert FirstMatch(routes, urlPath, exec) == i;
        var filePath := routes[i].filePath;
        if inBrowser && EndsWith(filePath, ".server.ts") {
          return Threw(TypeScriptRouteError(filePath));
        }
        return Ok(Some(Matched(filePath, m.value)));
      }
      i := i + 1;
    }
    return Ok(None);
  }

  /** `getParams`: the matched route's parameters, `{}` when nothing matches. */
  method GetParams(routes: seq<PathRoute>, urlPath: string, exec: Exec, inBrowser: bool)
    returns (r: Attempt<map<string, string>>)
    ensures FirstMatch(routes, urlPath, exec) == -1 ==> r == Ok(map[])
    ensures var i := FirstMatch(routes, urlPath, exec);
      0 <= i && !(inBrowser && EndsWith(routes[i].filePath, ".server.ts")) ==>
        r == Ok(exec(routes[i].pathname, urlPath).value)
    ensures r.Threw? <==> var i := FirstMatch(routes, urlPath, exec);
      0 <= i && inBrowser && EndsWith(routes[i].filePath, ".server.ts")
  {
    var m := MatchRoute(routes, urlPath, exec, inBrowser);
    match m {
      case Threw(e) => return Threw(e);
      case Ok(found) =>
        return Ok(if found.Some? then found.value.params else map[]);
    }
  }
}
