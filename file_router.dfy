/**
 * `src/routers/fileRouter.ts`: compiling route file paths to URL patterns,
 * ordering them, turning loaded modules into routes, and the route cache.
 */
module FileRouter {
  import opened Common
  import opened Strings
  import opened Routes

  // ----- toPattern -----

  /** A file name ending `.server.ts` or `.server.js`. */
  predicate IsServerFile(part: string) {
    EndsWith(part, ".server.ts") || EndsWith(part, ".server.js")
  }

  /**
   * The pattern segment for one part of a route file path, `folder` being the part
   * before it ("" for the first). Comparing the part with `index.server.ts`,
   * `index.server.js`, `(folder).server.ts` and `(folder).server.js` is done by
   * comparing the name before the 10-character suffix with `index` and `(folder)`.
   */
  function RewritePart(part: string, folder: string): string {
    var param := ParamName(part);
    if param.Some? then
      if StartsWith(param.value, "...") then ":" + param.value[3..] + "(.*)?" else ":" + param.value
    else if IsServerFile(part) then
      var stem := part[..|part| - 10];
      if stem == "index" || (folder != "" && stem == "(" + folder + ")") then "" else stem
    else part
  }

  /** `array.slice(2)`. */
  function DropTwo<T>(s: seq<T>): (r: seq<T>)
    ensures |s| >= 2 ==> r == s[2..]
    ensures |s| < 2 ==> r == []
  {
    if |s| >= 2 then s[2..] else []
  }

  /** The rewritten parts of a file path split at `sep`, the first two (`""`, `routes`) dropped. */
  function PatternParts(filePath: string, sep: char): (parts: seq<string>)
    ensures |parts| == |DropTwo(Split(filePath, sep))|
  {
    var pathParts := DropTwo(Split(filePath, sep));
    seq(|pathParts|, i requires 0 <= i < |pathParts| =>
      RewritePart(pathParts[i], if i > 0 then pathParts[i - 1] else ""))
  }

  /** `toPattern`: the pathname of the route's `URLPattern`. */
  function ToPattern(filePath: string, sep: char): (pattern: string)
    ensures pattern != [] && pattern[0] == '/'
  {
    "/" + Join(PatternParts(filePath, sep), "/")
  }

  /** A segment `[name]` becomes the named parameter `:name`. */
  lemma RewriteParam(p: string, rest: string, folder: string)
    requires p != [] && forall i :: 0 <= i < |p| ==> IsParamChar(p[i])
    requires !StartsWith(p, "...")
    ensures RewritePart("[" + p + "]" + rest, folder) == ":" + p
  {
    ParamNameOf(p, rest);
  }

  /** A segment `[...name]` becomes the catch-all `:name(.*)?`. */
  lemma RewriteCatchAll(name: string, rest: string, folder: string)
    requires name != [] && forall i :: 0 <= i < |name| ==> IsParamChar(name[i])
    ensures RewritePart("[..." + name + "]" + rest, folder) == ":" + name + "(.*)?"
  {
    var p := "..." + name;
    assert "[..." + name + "]" + rest == "[" + p + "]" + rest;
    ParamNameOf(p, rest);
    StartsWithAppend("...", name);
    assert p[3..] == name;
  }

  /** Splitting off the 10-character suffix of `name.server.ts` or `name.server.js`. */
  lemma ServerFileStem(name: string, ext: string)
    requires ext == ".server.ts" || ext == ".server.js"
    ensures IsServerFile(name + ext) && (name + ext)[..|name + ext| - 10] == name
  {
    EndsWithAppend(name, ext);
  }

  /** `index.server.ts` and `index.server.js` contribute an empty segment. */
  lemma RewriteIndex(ext: string, folder: string)
    requires ext == ".server.ts" || ext == ".server.js"
    ensures RewritePart("index" + ext, folder) == ""
  {
    ServerFileStem("index", ext);
  }

  /** `(folder).server.ts` inside `folder` contributes an empty segment, like an index file. */
  lemma RewriteFolderIndex(ext: string, folder: string)
    requires ext == ".server.ts" || ext == ".server.js"
    requires folder != ""
    ensures RewritePart("(" + folder + ")" + ext, folder) == ""
  {
    ServerFileStem("(" + folder + ")", ext);
  }

  /**
   * A route file `name.server.ts` or `name.server.js` that is neither a parameter,
   * nor `index`, nor named `(folder)` after its folder, is served at `name`.
   */
  lemma RewriteServerFile(name: string, ext: string, folder: string)
    requires ext == ".server.ts" || ext == ".server.js"
    requires name == [] || name[0] != '['
    requires name != "index"
    requires folder == "" || name != "(" + folder + ")"
    ensures RewritePart(name + ext, folder) == name
  {
    var part := name + ext;
    assert ParamName(part).None? by {
      if name == [] { assert part == ext; } else { assert part[0] == name[0]; }
    }
    ServerFileStem(name, ext);
  }

  /** A directory name that is not a parameter passes through unchanged. */
  lemma RewriteFolder(part: string, folder: string)
    requires part == [] || part[0] != '['
    requires !IsServerFile(part)
    ensures RewritePart(part, folder) == part
  {
  }

  /** No rewritten segment contains `/` when the part does not. */
  lemma RewriteNoSlash(part: string, folder: string)
    requires '/' !in part
    ensures '/' !in RewritePart(part, folder)
  {
    var param := ParamName(part);
    if param.Some? {
      var p := param.value;
      assert '/' !in p by {
        forall i | 0 <= i < |p| ensures p[i] != '/' { assert IsParamChar(p[i]); }
      }
      if StartsWith(p, "...") {
        assert '/' !in p[3..] by {
          forall i | 0 <= i < |p[3..]| ensures p[3..][i] != '/' { assert p[3..][i] == p[i + 3]; }
        }
      }
    } else if IsServerFile(part) {
      assert forall i :: 0 <= i < |part| - 10 ==> part[..|part| - 10][i] == part[i];
    }
  }

  /**
   * With `/` as the separator, the pattern has exactly one segment per part of the
   * file path after `routes`, each the rewrite of that part.
   */
  lemma PatternSegments(filePath: string)
    requires Count(filePath, '/') >= 2
    ensures Split(ToPattern(filePath, '/')[1..], '/') == PatternParts(filePath, '/')
    ensures |PatternParts(filePath, '/')| == Count(filePath, '/') - 1
  {
    SplitCount(filePath, '/');
    var pathParts := DropTwo(Split(filePath, '/'));
    var parts := PatternParts(filePath, '/');
    forall i | 0 <= i < |parts| ensures '/' !in parts[i] {
      RewriteNoSlash(pathParts[i], if i > 0 then pathParts[i - 1] else "");
    }
    SplitJoin(parts, '/');
    assert ToPattern(filePath, '/')[1..] == Join(parts, "/");
  }

  // ----- routePathPatterns: the descending order -----

  /** No element is less than a later one: the order `sort((a, b) => a < b ? 1 : -1)` yields. */
  predicate Descending(s: seq<string>) {
    forall i, j :: 0 <= i < j < |s| ==> !LexLess(s[i], s[j])
  }

  /** Each element strictly greater than every later one. */
  predicate StrictlyDescending(s: seq<string>) {
    forall i, j :: 0 <= i < j < |s| ==> LexLess(s[j], s[i])
  }

  lemma NotLessTransitive(a: string, b: string, c: string)
    requires !LexLess(a, b) && !LexLess(b, c)
    ensures !LexLess(a, c)
  {
    if a != b && b != c {
      LexLessTotal(a, b);
      LexLessTotal(b, c);
      LexLessTransitive(c, b, a);
      LexLessAsymmetric(c, a);
    }
  }

  /** Inserting `x` before the first element it is not less than. */
  function Insert(x: string, s: seq<string>): (r: seq<string>)
    requires Descending(s)
    ensures Descending(r)
    ensures multiset(r) == multiset(s) + multiset{x}
    ensures |r| == |s| + 1
    decreases |s|
  {
    if s == [] then [x]
    else if !LexLess(x, s[0]) then
      PrependGreatest(x, s);
      [x] + s
    else
      var rest := Insert(x, s[1..]);
      PrependBehind(x, s, rest);
      [s[0]] + rest
  }

  /** An element not less than any of a descending sequence can go in front of it. */
  lemma PrependAbove(h: string, s: seq<string>)
    requires Descending(s) && forall j :: 0 <= j < |s| ==> !LexLess(h, s[j])
    ensures Descending([h] + s)
  {
    assert ([h] + s)[1..] == s;
  }

  /** An element not less than the head of a descending sequence can go in front. */
  lemma PrependGreatest(x: string, s: seq<string>)
    requires Descending(s) && s != [] && !LexLess(x, s[0])
    ensures Descending([x] + s)
  {
    forall j | 0 <= j < |s| ensures !LexLess(x, s[j]) {
      if j > 0 { NotLessTransitive(x, s[0], s[j]); }
    }
    PrependAbove(x, s);
  }

  /** The head stays in front of the rest with `x` inserted, when `x` is less than it. */
  lemma PrependBehind(x: string, s: seq<string>, rest: seq<string>)
    requires Descending(s) && s != [] && LexLess(x, s[0])
    requires Descending(rest) && multiset(rest) == multiset(s[1..]) + multiset{x}
    ensures Descending([s[0]] + rest)
    ensures multiset([s[0]] + rest) == multiset(s) + multiset{x}
  {
    forall j | 0 <= j < |rest| ensures !LexLess(s[0], rest[j]) {
      HeadAbove(x, s, rest, j);
    }
    PrependAbove(s[0], rest);
    assert s == [s[0]] + s[1..];
  }

  lemma HeadAbove(x: string, s: seq<string>, rest: seq<string>, j: int)
    requires Descending(s) && s != [] && LexLess(x, s[0])
    requires multiset(rest) == multiset(s[1..]) + multiset{x}
    requires 0 <= j < |rest|
    ensures !LexLess(s[0], rest[j])
  {
    assert rest[j] in multiset(rest);
    if rest[j] == x {
      LexLessAsymmetric(x, s[0]);
    } else {
      assert rest[j] in s[1..];
    }
  }

  /** `routeFiles.sort((a, b) => a < b ? 1 : -1)`: the file names in descending order. */
  function SortDescending(s: seq<string>): (r: seq<string>)
    ensures Descending(r)
    ensures |r| == |s|
    ensures multiset(r) == multiset(s)
  {
    if s == [] then []
    else
      assert s == s[..|s| - 1] + [s[|s| - 1]];
      Insert(s[|s| - 1], SortDescending(s[..|s| - 1]))
  }

  /** Distinct names in descending order are strictly descending. */
  lemma DistinctDescending(s: seq<string>)
    requires Descending(s)
    requires forall i, j :: 0 <= i < j < |s| ==> s[i] != s[j]
    ensures StrictlyDescending(s)
  {
    forall i, j | 0 <= i < j < |s| ensures LexLess(s[j], s[i]) {
      LexLessTotal(s[i], s[j]);
    }
  }

  lemma TailStrictlyDescending(s: seq<string>)
    requires s != [] && StrictlyDescending(s)
    ensures StrictlyDescending(s[1..])
  {
    forall i, j | 0 <= i < j < |s| - 1 ensures LexLess(s[1..][j], s[1..][i]) {
      assert s[1..][j] == s[j + 1] && s[1..][i] == s[i + 1];
    }
  }

  /** Two strictly descending orderings of the same names start with the same name. */
  lemma SameHead(a: seq<string>, b: seq<string>)
    requires a != [] && StrictlyDescending(a) && StrictlyDescending(b)
    requires multiset(a) == multiset(b)
    ensures b != [] && a[0] == b[0]
  {
    assert a[0] in multiset(b) && b[0] in multiset(a) by { assert a[0] in a; }
    var k :| 0 <= k < |b| && b[k] == a[0];
    var m :| 0 <= m < |a| && a[m] == b[0];
    if k > 0 {
      assert LexLess(b[k], b[0]);
      if m == 0 {
        LexLessIrreflexive(b[0]);
      } else {
        assert LexLess(a[m], a[0]);
        LexLessAsymmetric(b[k], b[0]);
      }
      assert false;
    }
  }

  /**
   * Two strictly descending orderings of the same names are the same: the order of
   * distinct file names does not depend on the sorting algorithm.
   */
  lemma {:induction false} StrictlyDescendingUnique(a: seq<string>, b: seq<string>)
    requires StrictlyDescending(a) && StrictlyDescending(b)
    requires multiset(a) == multiset(b)
    ensures a == b
  {
    if a == [] {
      assert |multiset(b)| == 0;
    } else {
      SameHead(a, b);
      assert a == [a[0]] + a[1..] && b == [b[0]] + b[1..];
      assert multiset(a) == multiset{a[0]} + multiset(a[1..]);
      assert multiset(b) == multiset{b[0]} + multiset(b[1..]);
      assert multiset(a[1..]) == multiset(a) - multiset{a[0]};
      assert multiset(b[1..]) == multiset(b) - multiset{b[0]};
      TailStrictlyDescending(a);
      TailStrictlyDescending(b);
      StrictlyDescendingUnique(a[1..], b[1..]);
    }
  }

  /** Distinct file names have exactly one descending order, the one computed here. */
  lemma SortOrderIsDetermined(files: seq<string>, other: seq<string>)
    requires forall i, j :: 0 <= i < j < |files| ==> files[i] != files[j]
    requires StrictlyDescending(other) && multiset(other) == multiset(files)
    ensures SortDescending(files) == other
  {
    var r := SortDescending(files);
    forall i, j | 0 <= i < j < |r| ensures r[i] != r[j] {
      if r[i] == r[j] {
        TwoOccurrences(r, i, j);
        DistinctOnce(files, r[i]);
      }
    }
    DistinctDescending(r);
    StrictlyDescendingUnique(r, other);
  }

  /** An element found at two positions occurs at least twice. */
  lemma TwoOccurrences(s: seq<string>, i: nat, j: nat)
    requires i < j < |s| && s[i] == s[j]
    ensures multiset(s)[s[i]] >= 2
  {
    assert s == s[..j] + s[j..];
    assert s[i] == s[..j][i] && s[j] == s[j..][0];
    assert multiset(s) == multiset(s[..j]) + multiset(s[j..]);
  }

  /** In a sequence of distinct elements each occurs at most once. */
  lemma {:induction false} DistinctOnce(s: seq<string>, x: string)
    requires forall i, j :: 0 <= i < j < |s| ==> s[i] != s[j]
    ensures multiset(s)[x] <= 1
  {
    if s != [] {
      DistinctOnce(s[1..], x);
      assert s == [s[0]] + s[1..];
      if s[0] == x {
        assert x !in s[1..];
      }
    }
  }

  /**
   * A route file inside folder `stem` sorts before the route file `stem.server.ts`
   * beside that folder, because `/` comes after `.`: longer paths win over their prefixes.
   */
  lemma LongerPathFirst(files: seq<string>, stem: string, inner: string, ext: string, i: nat, j: nat)
    requires i < |SortDescending(files)| && j < |SortDescending(files)|
    requires SortDescending(files)[i] == stem + "/" + inner
    requires SortDescending(files)[j] == stem + "." + ext
    ensures i < j
  {
    DotBeforeSlash(stem, inner, ext);
    LessComesLater(SortDescending(files), i, j);
  }

  lemma DotBeforeSlash(stem: string, inner: string, ext: string)
    ensures LexLess(stem + "." + ext, stem + "/" + inner)
  {
    var a, b := "." + ext, "/" + inner;
    assert a[0] == '.' && b[0] == '/';
    LexLessAfterPrefix(stem, a, b);
    assert stem + a == stem + "." + ext;
    assert stem + b == stem + "/" + inner;
  }

  /** In a descending sequence, an element less than another comes after it. */
  lemma LessComesLater(r: seq<string>, i: nat, j: nat)
    requires Descending(r) && i < |r| && j < |r| && LexLess(r[j], r[i])
    ensures i < j
  {
    if j == i {
      LexLessIrreflexive(r[i]);
    }
  }

  /** After a common prefix, the first differing character decides the order. */
  lemma {:induction false} LexLessAfterPrefix(prefix: string, a: string, b: string)
    requires a != [] && b != [] && a[0] < b[0]
    ensures LexLess(prefix + a, prefix + b)
  {
    if prefix != [] {
      assert (prefix + a)[1..] == prefix[1..] + a;
      assert (prefix + b)[1..] == prefix[1..] + b;
      LexLessAfterPrefix(prefix[1..], a, b);
    } else {
      assert prefix + a == a && prefix + b == b;
    }
  }

  /**
   * After a common prefix, a lower-case name sorts before a `[` parameter, so
   * `[...slug]` loses out against routes that start with a lower-case letter.
   */
  lemma {:induction false} LowerCaseBeforeParam(prefix: string, lower: string, param: string)
    requires lower != [] && 'a' <= lower[0] <= 'z'
    requires param != [] && param[0] == '['
    ensures LexLess(prefix + param, prefix + lower)
  {
    if prefix != [] {
      assert (prefix + param)[1..] == prefix[1..] + param;
      assert (prefix + lower)[1..] == prefix[1..] + lower;
      LowerCaseBeforeParam(prefix[1..], lower, param);
    } else {
      assert prefix + param == param && prefix + lower == lower;
    }
  }

  // ----- getFileBasedRoutes -----

  /** The methods among `methods` that `mod` exports a truthy value for, in order. */
  function Declared(methods: seq<string>, mod: Module): (d: seq<string>)
    ensures |d| <= |methods|
    ensures forall m :: m in d <==> m in methods && Exports(mod, m)
  {
    if methods == [] then []
    else (if Exports(mod, methods[0]) then [methods[0]] else []) + Declared(methods[1..], mod)
  }

  /** The route made for one exported method of a module. */
  function MethodRoute(name: string, pattern: string, mod: Module, m: string): (r: Route)
    requires m in mod
    ensures r.name == name && r.pathname == pattern && r.handler == mod[m]
    ensures r.verb == if m == "ALL" then "all" else m
  {
    Route(name, mod[m], if m == "ALL" then "all" else m, pattern,
      Lookup(mod, "getStaticPaths"), Lookup(mod, "pregenerate"))
  }

  /** The export names a module's routes are looked up under. */
  function MethodsOf(mod: Module): seq<string> {
    if ExportsFunction(mod, "ALL") then ["ALL"] else HttpMethods
  }

  /** One route per declared method, in the order of `methods`. */
  function RoutesFor(name: string, pattern: string, mod: Module, methods: seq<string>): (r: seq<Route>)
    ensures |r| == |Declared(methods, mod)|
    ensures forall i :: 0 <= i < |r| ==>
      Declared(methods, mod)[i] in mod && r[i] == MethodRoute(name, pattern, mod, Declared(methods, mod)[i])
  {
    var d := Declared(methods, mod);
    assert forall i :: 0 <= i < |d| ==> d[i] in mod by {
      forall i | 0 <= i < |d| ensures d[i] in mod { assert d[i] in d; }
    }
    seq(|d|, i requires 0 <= i < |d| => MethodRoute(name, pattern, mod, d[i]))
  }

  /** The routes of one module: `["ALL"]` when it exports an `ALL` function, else every method. */
  function RoutesOf(name: string, pattern: string, mod: Module): (r: seq<Route>)
    ensures forall i :: 0 <= i < |r| ==> r[i].name == name && r[i].pathname == pattern
  {
    RoutesFor(name, pattern, mod, MethodsOf(mod))
  }

  /** A module with an `ALL` function gets exactly one route, matching any method. */
  lemma RoutesOfAll(name: string, pattern: string, mod: Module)
    requires ExportsFunction(mod, "ALL")
    ensures RoutesOf(name, pattern, mod)
      == [Route(name, mod["ALL"], "all", pattern, Lookup(mod, "getStaticPaths"), Lookup(mod, "pregenerate"))]
  {
    assert ["ALL"][1..] == [];
    assert Declared(["ALL"], mod) == ["ALL"];
    var r := RoutesOf(name, pattern, mod);
    assert |r| == 1 && r[0] == MethodRoute(name, pattern, mod, "ALL");
  }

  /**
   * Any other module gets one route per method it exports something truthy for,
   * named after the file, carrying that export as its handler.
   */
  lemma RoutesOfMethods(name: string, pattern: string, mod: Module, m: string)
    requires !ExportsFunction(mod, "ALL")
    ensures (exists i :: 0 <= i < |RoutesOf(name, pattern, mod)| && RoutesOf(name, pattern, mod)[i].verb == m)
      <==> m in HttpMethods && Exports(mod, m)
    ensures forall i :: 0 <= i < |RoutesOf(name, pattern, mod)| ==>
      var rt := RoutesOf(name, pattern, mod)[i];
      rt.verb in HttpMethods && rt.verb in mod && rt.handler == mod[rt.verb]
  {
    var d := Declared(HttpMethods, mod);
    var r := RoutesOf(name, pattern, mod);
    assert "ALL" !in HttpMethods;
    assert forall i :: 0 <= i < |d| ==> d[i] in HttpMethods by {
      forall i | 0 <= i < |d| ensures d[i] in HttpMethods { assert d[i] in d; }
    }
    assert forall i :: 0 <= i < |r| ==> r[i].verb == d[i];
    if m in HttpMethods && Exports(mod, m) {
      var i :| 0 <= i < |d| && d[i] == m;
      assert r[i].verb == m;
    }
  }

  /** `flatMap`: the lists one after the other. */
  function Flatten<T>(lists: seq<seq<T>>): (r: seq<T>)
    ensures lists == [] ==> r == []
  {
    if lists == [] then [] else Flatten(lists[..|lists| - 1]) + lists[|lists| - 1]
  }

  lemma {:induction false} FlattenAppend<T>(a: seq<seq<T>>, b: seq<seq<T>>)
    ensures Flatten(a + b) == Flatten(a) + Flatten(b)
    decreases |b|
  {
    if b != [] {
      assert (a + b)[..|a + b| - 1] == a + b[..|b| - 1];
      FlattenAppend(a, b[..|b| - 1]);
    } else {
      assert a + b == a;
    }
  }

  /**
   * `getFileBasedRoutes`: the route files in descending order, each loaded with
   * `loader` and turned into its routes.
   */
  function FileBasedRoutes(files: seq<string>, sep: char, loader: string -> Module): (r: seq<Route>)
  {
    Flatten(RouteLists(SortDescending(files), sep, loader))
  }

  /** Every route comes from one of the files, under that file's pattern. */
  lemma FileBasedRoutesFromFiles(files: seq<string>, sep: char, loader: string -> Module)
    ensures forall rt :: rt in FileBasedRoutes(files, sep, loader) ==>
      rt.name in files && rt.pathname == ToPattern(rt.name, sep)
  {
    var sorted := SortDescending(files);
    FlattenFrom(RouteLists(sorted, sep, loader), sorted, sep);
    forall x | x in sorted ensures x in files {
      assert x in multiset(sorted);
    }
  }

  lemma {:induction false} FlattenFrom(lists: seq<seq<Route>>, names: seq<string>, sep: char)
    requires |lists| == |names|
    requires forall i :: 0 <= i < |lists| ==> forall rt :: rt in lists[i] ==>
      rt.name == names[i] && rt.pathname == ToPattern(names[i], sep)
    ensures forall rt :: rt in Flatten(lists) ==> rt.name in names && rt.pathname == ToPattern(rt.name, sep)
    decreases |lists|
  {
    if lists != [] {
      var n := |lists| - 1;
      FlattenFrom(lists[..n], names[..n], sep);
      assert forall rt :: rt in lists[n] ==> rt.name == names[n];
    }
  }

  /** The routes of the files in descending order, one list per file. */
  function RouteLists(sorted: seq<string>, sep: char, loader: string -> Module): (lists: seq<seq<Route>>)
    ensures |lists| == |sorted|
    ensures forall i :: 0 <= i < |sorted| ==> lists[i] == RoutesOf(sorted[i], ToPattern(sorted[i], sep), loader(sorted[i]))
  {
    seq(|sorted|, i requires 0 <= i < |sorted| => RoutesOf(sorted[i], ToPattern(sorted[i], sep), loader(sorted[i])))
  }

  /** Every route a file's module declares is among the routes, under the file's name and pattern. */
  lemma FileBasedRoutesComplete(files: seq<string>, sep: char, loader: string -> Module, f: string, m: string)
    requires f in files && m in Declared(MethodsOf(loader(f)), loader(f))
    ensures m in loader(f)
    ensures MethodRoute(f, ToPattern(f, sep), loader(f), m) in FileBasedRoutes(files, sep, loader)
  {
    var sorted := SortDescending(files);
    assert f in multiset(files);
    assert f in sorted by { assert f in multiset(sorted); }
    var k :| 0 <= k < |sorted| && sorted[k] == f;
    var lists: seq<seq<Route>> := RouteLists(sorted, sep, loader);
    var d := Declared(MethodsOf(loader(f)), loader(f));
    var t :| 0 <= t < |d| && d[t] == m;
    assert lists[k][t] == MethodRoute(f, ToPattern(f, sep), loader(f), m);
    FlattenContains(lists, k, lists[k][t]);
  }

  /**
   * Every route is one that its file's module declares: the route `MethodRoute` makes
   * for a declared method, under the file's name and pattern.
   */
  lemma FileBasedRoutesSound(files: seq<string>, sep: char, loader: string -> Module)
    ensures forall rt :: rt in FileBasedRoutes(files, sep, loader) ==>
      rt.name in files
      && exists m :: m in Declared(MethodsOf(loader(rt.name)), loader(rt.name)) && m in loader(rt.name)
                     && rt == MethodRoute(rt.name, ToPattern(rt.name, sep), loader(rt.name), m)
  {
    var sorted := SortDescending(files);
    var lists: seq<seq<Route>> := RouteLists(sorted, sep, loader);
    assert FileBasedRoutes(files, sep, loader) == Flatten(lists);
    forall rt | rt in FileBasedRoutes(files, sep, loader)
      ensures rt.name in files
      ensures exists m :: m in Declared(MethodsOf(loader(rt.name)), loader(rt.name)) && m in loader(rt.name)
                          && rt == MethodRoute(rt.name, ToPattern(rt.name, sep), loader(rt.name), m)
    {
      var k := FlattenMember(lists, rt);
      var f := sorted[k];
      var mod := loader(f);
      var d := Declared(MethodsOf(mod), mod);
      assert lists[k] == RoutesFor(f, ToPattern(f, sep), mod, MethodsOf(mod));
      var i :| 0 <= i < |lists[k]| && lists[k][i] == rt;
      assert d[i] in mod && rt == MethodRoute(f, ToPattern(f, sep), mod, d[i]);
      assert d[i] in d;
      assert f in files by {
        assert f in multiset(sorted);
      }
    }
  }

  /** A member of the flattened lists is a member of one of them, at position `k`. */
  lemma {:induction false} FlattenMember<T>(lists: seq<seq<T>>, x: T) returns (k: nat)
    requires x in Flatten(lists)
    ensures k < |lists| && x in lists[k]
    decreases |lists|
  {
    var n := |lists| - 1;
    if x in lists[n] {
      k := n;
    } else {
      k := FlattenMember(lists[..n], x);
      assert lists[..n][k] == lists[k];
    }
  }

  lemma {:induction false} FlattenContains<T>(lists: seq<seq<T>>, k: nat, x: T)
    requires k < |lists| && x in lists[k]
    ensures x in Flatten(lists)
    decreases |lists|
  {
    var n := |lists| - 1;
    if k < n {
      assert lists[..n][k] == lists[k];
      FlattenContains(lists[..n], k, x);
    }
  }

  /**
   * The routes come in the files' descending order: a route's file name is never
   * less than that of a later route, so the routes of one file stay together.
   */
  lemma FileBasedRoutesOrdered(files: seq<string>, sep: char, loader: string -> Module)
    ensures NamesDescending(FileBasedRoutes(files, sep, loader))
  {
    var sorted := SortDescending(files);
    var lists: seq<seq<Route>> := RouteLists(sorted, sep, loader);
    FlattenDescending(lists, sorted);
    assert FileBasedRoutes(files, sep, loader) == Flatten(lists);
  }

  /** No route's name is less than that of a later route. */
  predicate NamesDescending(r: seq<Route>) {
    forall i, j :: 0 <= i < j < |r| ==> !LexLess(r[i].name, r[j].name)
  }

  lemma {:induction false} FlattenNames(lists: seq<seq<Route>>, names: seq<string>)
    requires |lists| == |names|
    requires forall k :: 0 <= k < |lists| ==> forall rt :: rt in lists[k] ==> rt.name == names[k]
    ensures forall rt :: rt in Flatten(lists) ==> rt.name in names
    decreases |lists|
  {
    if lists != [] {
      var n := |lists| - 1;
      FlattenNames(lists[..n], names[..n]);
    }
  }

  lemma {:induction false} FlattenDescending(lists: seq<seq<Route>>, names: seq<string>)
    requires |lists| == |names| && Descending(names)
    requires forall k :: 0 <= k < |lists| ==> forall rt :: rt in lists[k] ==> rt.name == names[k]
    ensures NamesDescending(Flatten(lists))
    decreases |lists|
  {
    if lists != [] {
      var n := |lists| - 1;
      var a := Flatten(lists[..n]);
      var r := Flatten(lists);
      assert r == a + lists[n];
      assert forall k :: 0 <= k < n ==> lists[..n][k] == lists[k] && names[..n][k] == names[k];
      FlattenDescending(lists[..n], names[..n]);
      FlattenNames(lists[..n], names[..n]);
      forall i, j | 0 <= i < j < |r| ensures !LexLess(r[i].name, r[j].name) {
        if j < |a| {
          assert r[i] == a[i] && r[j] == a[j];
          assert 0 <= i < j < |a|;
          assert !LexLess(a[i].name, a[j].name);
        } else if i >= |a| {
          assert r[i] == lists[n][i - |a|] && r[j] == lists[n][j - |a|];
          assert r[i] in lists[n] && r[j] in lists[n];
          assert r[i].name == names[n] && r[j].name == names[n];
          LexLessIrreflexive(names[n]);
          assert !LexLess(r[i].name, r[j].name);
        } else {
          assert r[i] == a[i] && r[j] in lists[n];
          assert a[i] in a;
          var k :| 0 <= k < n && names[..n][k] == a[i].name;
          assert names[k] == a[i].name;
          assert r[j] == lists[n][j - |a|];
          assert r[j] in lists[n];
          assert r[j].name == names[n];
          assert !LexLess(names[k], names[n]);
          assert !LexLess(r[i].name, r[j].name);
        }
      }
    }
  }

  /**
   * When every module declares exactly one method, route `i` comes from the `i`-th
   * file in descending order: the order of names the route precedence rests on.
   */
  lemma FileBasedRoutesOnePerFile(files: seq<string>, sep: char, loader: string -> Module)
    requires forall f :: f in files ==> |Declared(MethodsOf(loader(f)), loader(f))| == 1
    ensures var r := FileBasedRoutes(files, sep, loader);
      |r| == |files| && forall i :: 0 <= i < |r| ==> r[i].name == SortDescending(files)[i]
  {
    var sorted := SortDescending(files);
    var lists: seq<seq<Route>> := RouteLists(sorted, sep, loader);
    forall k | 0 <= k < |sorted| ensures |lists[k]| == 1 && lists[k][0].name == sorted[k] {
      assert sorted[k] in multiset(sorted);
      assert sorted[k] in files by { assert sorted[k] in multiset(files); }
    }
    FlattenSingletons(lists, sorted);
  }

  lemma {:induction false} FlattenSingletons(lists: seq<seq<Route>>, names: seq<string>)
    requires |lists| == |names|
    requires forall k :: 0 <= k < |lists| ==> |lists[k]| == 1 && lists[k][0].name == names[k]
    ensures |Flatten(lists)| == |lists|
    ensures forall i :: 0 <= i < |lists| ==> Flatten(lists)[i].name == names[i]
    decreases |lists|
  {
    if lists != [] {
      var n := |lists| - 1;
      FlattenSingletons(lists[..n], names[..n]);
      assert Flatten(lists) == Flatten(lists[..n]) + lists[n];
    }
  }

  // ----- getRoutes / setRoutes -----

  /** The module-level `routes` variable behind `getRoutes` and `setRoutes`. */
  class RouteCache {
    var routes: Option<seq<Route>>

    constructor()
      ensures routes == None
    {
      routes := None;
    }

    /**
     * `getRoutes`: loads the file-based routes (`discovered`) only while nothing is
     * cached, and otherwise returns the cached list.
     */
    method GetRoutes(discovered: seq<Route>) returns (r: seq<Route>)
      modifies this
      ensures old(routes).None? ==> routes == Some(discovered) && r == discovered
      ensures old(routes).Some? ==> routes == old(routes) && r == old(routes).value
    {
      if routes.None? {
        routes := Some(discovered);
      }
      r := routes.value;
    }

    /** `setRoutes`: replaces the cached list. */
    method SetRoutes(newRoutes: seq<Route>)
      modifies this
      ensures routes == Some(newRoutes)
    {
      routes := Some(newRoutes);
    }
  }

  /** After `setRoutes`, every `getRoutes` returns exactly the set list. */
  method SetThenGet(cache: RouteCache, given: seq<Route>, d1: seq<Route>, d2: seq<Route>)
    returns (first: seq<Route>, second: seq<Route>)
    modifies cache
    ensures first == given && second == given
  {
    cache.SetRoutes(given);
    first := cache.GetRoutes(d1);
    second := cache.GetRoutes(d2);
  }

  /** The first `getRoutes` fixes the list: a second call ignores what it would load. */
  method GetTwice(cache: RouteCache, d1: seq<Route>, d2: seq<Route>)
    returns (first: seq<Route>, second: seq<Route>)
    requires cache.routes.None?
    modifies cache
    ensures first == d1 && second == d1
  {
    first := cache.GetRoutes(d1);
    second := cache.GetRoutes(d2);
  }
}
