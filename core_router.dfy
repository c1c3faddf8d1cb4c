/**
 * `src/core/router.ts`: the route list built once from the discovered route files,
 * newest discovery first, each compiled like `toPattern` in `src/routers/fileRouter.ts`.
 * `matchRoute` and `getParams` over this list are `Routes.MatchRoute` and `Routes.GetParams`.
 */
module CoreRouter {
  import opened Strings
  import opened Routes
  import FileRouter

  /** One entry of `pathSegments`: a file and its rewritten segments. */
  datatype Entry = Entry(filePath: string, segments: seq<string>)

  /** The compiled route of one file: `"/" + segments.join("/")`. */
  function Compile(filePath: string, sep: char): PathRoute {
    PathRoute(filePath, FileRouter.ToPattern(filePath, sep))
  }

  /**
   * The top-level discovery loop and the `routes` list: every file is put at the front
   * of `pathSegments` with no sort afterwards, so the routes come in reverse
   * discovery order.
   */
  method DiscoverRoutes(files: seq<string>, sep: char) returns (routes: seq<PathRoute>)
    ensures |routes| == |files|
    ensures forall i :: 0 <= i < |files| ==> routes[i] == Compile(files[|files| - 1 - i], sep)
  {
    var pathSegments: seq<Entry> := [];
    for k := 0 to |files|
      invariant |pathSegments| == k
      invariant forall i :: 0 <= i < k ==>
        pathSegments[i] == Entry(files[k - 1 - i], FileRouter.PatternParts(files[k - 1 - i], sep))
    {
      var filePath := files[k];
      var segments := FileRouter.PatternParts(filePath, sep);
      ghost var before := pathSegments;
      pathSegments := [Entry(filePath, segments)] + pathSegments;
      assert forall i :: 1 <= i <= k ==> pathSegments[i] == before[i - 1];
    }
    routes := seq(|pathSegments|, i requires 0 <= i < |pathSegments| =>
      PathRoute(pathSegments[i].filePath, "/" + Join(pathSegments[i].segments, "/")));
  }

  /**
   * `matchRoute` over the discovered routes picks the file discovered last among those
   * whose pattern matches.
   */
  lemma MatchPrefersLatest(files: seq<string>, sep: char, routes: seq<PathRoute>, url: string, exec: Exec)
    requires |routes| == |files|
    requires forall i {:trigger routes[i]} :: 0 <= i < |files| ==> routes[i] == Compile(files[|files| - 1 - i], sep)
    ensures FirstMatch(routes, url, exec) == -1 <==>
      forall f :: 0 <= f < |files| ==> exec(FileRouter.ToPattern(files[f], sep), url).None?
    ensures var i := FirstMatch(routes, url, exec);
      0 <= i ==>
        var f := |files| - 1 - i;
        routes[i].filePath == files[f]
        && exec(FileRouter.ToPattern(files[f], sep), url).Some?
        && forall g :: f < g < |files| ==> exec(FileRouter.ToPattern(files[g], sep), url).None?
  {
    NoRouteNoFile(files, sep, routes, url, exec);
    var i := FirstMatch(routes, url, exec);
    if 0 <= i {
      LatestFile(files, sep, routes, url, exec, i);
    }
  }

  lemma NoRouteNoFile(files: seq<string>, sep: char, routes: seq<PathRoute>, url: string, exec: Exec)
    requires |routes| == |files|
    requires forall i {:trigger routes[i]} :: 0 <= i < |files| ==> routes[i] == Compile(files[|files| - 1 - i], sep)
    ensures FirstMatch(routes, url, exec) == -1 <==>
      forall f :: 0 <= f < |files| ==> exec(FileRouter.ToPattern(files[f], sep), url).None?
  {
    forall f | 0 <= f < |files| ensures routes[|files| - 1 - f].pathname == FileRouter.ToPattern(files[f], sep) {
      PatternOfRoute(files, sep, routes, |files| - 1 - f);
    }
    forall j | 0 <= j < |routes| ensures routes[j].pathname == FileRouter.ToPattern(files[|files| - 1 - j], sep) {
      PatternOfRoute(files, sep, routes, j);
    }
  }

  lemma LatestFile(files: seq<string>, sep: char, routes: seq<PathRoute>, url: string, exec: Exec, i: int)
    requires |routes| == |files|
    requires forall i {:trigger routes[i]} :: 0 <= i < |files| ==> routes[i] == Compile(files[|files| - 1 - i], sep)
    requires i == FirstMatch(routes, url, exec) && 0 <= i
    ensures var f := |files| - 1 - i;
      routes[i].filePath == files[f]
      && exec(FileRouter.ToPattern(files[f], sep), url).Some?
      && forall g :: f < g < |files| ==> exec(FileRouter.ToPattern(files[g], sep), url).None?
  {
    PatternOfRoute(files, sep, routes, i);
    forall g | |files| - 1 - i < g < |files| ensures exec(FileRouter.ToPattern(files[g], sep), url).None? {
      var j := |files| - 1 - g;
      PatternOfFile(files, sep, routes, g);
      assert 0 <= j < i;
      assert exec(routes[j].pathname, url).None?;
    }
  }

  /** The route at position `j` is the file `j` places from the end, compiled. */
  lemma PatternOfRoute(files: seq<string>, sep: char, routes: seq<PathRoute>, j: int)
    requires |routes| == |files| && 0 <= j < |routes|
    requires forall i {:trigger routes[i]} :: 0 <= i < |files| ==> routes[i] == Compile(files[|files| - 1 - i], sep)
    ensures routes[j].filePath == files[|files| - 1 - j]
    ensures routes[j].pathname == FileRouter.ToPattern(files[|files| - 1 - j], sep)
  {
  }

  /** The file `f` is compiled into the route `f` places from the end. */
  lemma PatternOfFile(files: seq<string>, sep: char, routes: seq<PathRoute>, f: int)
    requires |routes| == |files| && 0 <= f < |files|
    requires forall i {:trigger routes[i]} :: 0 <= i < |files| ==> routes[i] == Compile(files[|files| - 1 - i], sep)
    ensures routes[|files| - 1 - f].pathname == FileRouter.ToPattern(files[f], sep)
  {
    assert |files| - 1 - (|files| - 1 - f) == f;
  }
}
