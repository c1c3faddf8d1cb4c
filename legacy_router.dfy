/**
 * `src/router.ts`, the older file router: optional parameters, index files and empty
 * segments filtered out, routes ordered by segment count (stably), and pathnames
 * ending in `/`. `matchRoute` and `getParams` over its list are the same as in
 * `src/core/router.ts` (`Routes.MatchRoute`, `Routes.GetParams`).
 */
module LegacyRouter {
  import opened Common
  import opened Strings
  import opened Routes
  import FileRouter

  /** The rewrite of one segment; `None` is the `undefined` an index file yields. */
  function Rewrite(segment: string): Option<string> {
    var param := ParamName(segment);
    if param.Some? then
      Some(if StartsWith(param.value, "...") then ":" + param.value[3..] + "(.*)?" else ":" + param.value + "?")
    else if FileRouter.IsServerFile(segment) then
      var stem := segment[..|segment| - 10];
      if stem == "index" then None else Some(stem)
    else Some(segment)
  }

  /** `.map(rewrite).filter((s) => s)`: only the truthy rewritten segments, in order. */
  function Kept(parts: seq<string>): (r: seq<string>)
    ensures |r| <= |parts|
    ensures forall i :: 0 <= i < |r| ==> r[i] != ""
  {
    if parts == [] then []
    else
      var head := Rewrite(parts[0]);
      (if head.Some? && head.value != "" then [head.value] else []) + Kept(parts[1..])
  }

  lemma {:induction false} KeptAppend(a: seq<string>, b: seq<string>)
    ensures Kept(a + b) == Kept(a) + Kept(b)
  {
    if a == [] {
      assert a + b == b;
    } else {
      assert (a + b)[0] == a[0] && (a + b)[1..] == a[1..] + b;
      KeptAppend(a[1..], b);
    }
  }

  /** An index file adds no segment: `/routes/a/index.server.ts` has the segments of `/routes/a`. */
  lemma IndexFileDropped(dirs: seq<string>, ext: string)
    requires ext == ".server.ts" || ext == ".server.js"
    ensures Kept(dirs + ["index" + ext]) == Kept(dirs)
  {
    KeptAppend(dirs, ["index" + ext]);
    FileRouter.ServerFileStem("index", ext);
    assert ["index" + ext][1..] == [];
  }

  /** A parameter segment `[name]` is optional, `:name?`. */
  lemma OptionalParam(p: string, rest: string)
    requires p != [] && forall i :: 0 <= i < |p| ==> IsParamChar(p[i])
    requires !StartsWith(p, "...")
    ensures Rewrite("[" + p + "]" + rest) == Some(":" + p + "?")
  {
    ParamNameOf(p, rest);
  }

  /** The segments of one route file: the parts after `/routes`, rewritten and filtered. */
  function Segments(filePath: string): seq<string> {
    Kept(FileRouter.DropTwo(Split(filePath, '/')))
  }

  /** `/${segments.join("/")}${segments.length === 0 ? '' : '/'}`. */
  function Pathname(segments: seq<string>): (p: string)
    ensures p != [] && p[0] == '/' && p[|p| - 1] == '/'
  {
    "/" + Join(segments, "/") + (if |segments| == 0 then "" else "/")
  }

  /** The pathname is the bare `/` exactly for a route with no segments. */
  lemma PathnameRoot(segments: seq<string>)
    requires forall i :: 0 <= i < |segments| ==> segments[i] != ""
    ensures Pathname(segments) == "/" <==> segments == []
  {
    if segments != [] {
      assert |Pathname(segments)| >= 2;
    }
  }

  // ----- the stable sort by segment count -----

  datatype Entry = Entry(filePath: string, segments: seq<string>)

  function Key(e: Entry): nat {
    |e.segments|
  }

  predicate SortedByLength(s: seq<Entry>) {
    forall i, j :: 0 <= i < j < |s| ==> Key(s[i]) <= Key(s[j])
  }

  /** The entries with `n` segments, in their order in `s`. */
  function WithLength(s: seq<Entry>, n: nat): seq<Entry> {
    if s == [] then []
    else WithLength(s[..|s| - 1], n) + (if Key(s[|s| - 1]) == n then [s[|s| - 1]] else [])
  }

  /** Inserting `x` after every entry with at most as many segments, counting from the end. */
  function InsertStable(x: Entry, s: seq<Entry>): seq<Entry> {
    if s == [] || Key(s[|s| - 1]) <= Key(x) then s + [x]
    else InsertStable(x, s[..|s| - 1]) + [s[|s| - 1]]
  }

  lemma {:induction false} InsertStablePermutes(x: Entry, s: seq<Entry>)
    ensures multiset(InsertStable(x, s)) == multiset(s) + multiset{x}
  {
    if !(s == [] || Key(s[|s| - 1]) <= Key(x)) {
      var init, last := s[..|s| - 1], s[|s| - 1];
      InsertStablePermutes(x, init);
      assert s == init + [last];
      assert multiset(s) == multiset(init) + multiset{last};
      assert multiset(InsertStable(x, init) + [last]) == multiset(InsertStable(x, init)) + multiset{last};
    }
  }

  /** Appending an entry with at least as many segments as every other keeps the order. */
  lemma AppendSorted(s: seq<Entry>, y: Entry)
    requires SortedByLength(s)
    requires forall i :: 0 <= i < |s| ==> Key(s[i]) <= Key(y)
    ensures SortedByLength(s + [y])
  {
  }

  lemma {:induction false} InsertStableSorted(x: Entry, s: seq<Entry>)
    requires SortedByLength(s)
    ensures SortedByLength(InsertStable(x, s))
  {
    if s == [] || Key(s[|s| - 1]) <= Key(x) {
      AppendSorted(s, x);
    } else {
      var init, last := s[..|s| - 1], s[|s| - 1];
      var front := InsertStable(x, init);
      InsertStableSorted(x, init);
      InsertStablePermutes(x, init);
      forall i | 0 <= i < |front| ensures Key(front[i]) <= Key(last) {
        assert front[i] in multiset(front);
        if front[i] != x {
          assert front[i] in multiset(init);
          var k :| 0 <= k < |init| && init[k] == front[i];
          assert s[k] == init[k];
        }
      }
      AppendSorted(front, last);
    }
  }

  /** Insertion keeps every group of equal length in order, `x` last in its group. */
  lemma {:induction false} InsertStableWithLength(x: Entry, s: seq<Entry>, n: nat)
    ensures WithLength(InsertStable(x, s), n) == WithLength(s, n) + (if Key(x) == n then [x] else [])
  {
    var xs := if Key(x) == n then [x] else [];
    if s == [] || Key(s[|s| - 1]) <= Key(x) {
      assert InsertStable(x, s) == s + [x];
      assert (s + [x])[..|s|] == s;
      assert WithLength(s + [x], n) == WithLength(s, n) + xs;
    } else {
      var init, last := s[..|s| - 1], s[|s| - 1];
      var front := InsertStable(x, init);
      var ls := if Key(last) == n then [last] else [];
      assert InsertStable(x, s) == front + [last];
      InsertStableWithLength(x, init, n);
      assert (front + [last])[..|front|] == front;
      assert WithLength(front + [last], n) == WithLength(front, n) + ls;
      assert WithLength(s, n) == WithLength(init, n) + ls;
      var w := WithLength(init, n);
      if Key(x) == n {
        assert ls == [];
        assert WithLength(front + [last], n) == w + xs + [];
      } else {
        assert xs == [];
        assert WithLength(front + [last], n) == w + [] + ls;
      }
    }
  }

  /** `pathSegments.sort((a, b) => a.segments.length - b.segments.length)`, a stable sort. */
  function StableSort(s: seq<Entry>): (r: seq<Entry>)
    ensures SortedByLength(r)
    ensures multiset(r) == multiset(s)
  {
    if s == [] then []
    else
      var init, last := s[..|s| - 1], s[|s| - 1];
      assert s == init + [last];
      var sorted := StableSort(init);
      InsertStableSorted(last, sorted);
      InsertStablePermutes(last, sorted);
      InsertStable(last, sorted)
  }

  /**
   * The sort is stable: the entries with any one segment count come out in the order
   * they were discovered.
   */
  lemma {:induction false} StableSortIsStable(s: seq<Entry>, n: nat)
    ensures WithLength(StableSort(s), n) == WithLength(s, n)
  {
    if s != [] {
      var init, last := s[..|s| - 1], s[|s| - 1];
      StableSortIsStable(init, n);
      InsertStableWithLength(last, StableSort(init), n);
    }
  }

  /**
   * The discovery loop and the `routes` list: entries pushed in discovery order, then
   * sorted by segment count, ties keeping discovery order.
   */
  method DiscoverRoutes(files: seq<string>) returns (routes: seq<PathRoute>)
    ensures var sorted := StableSort(seq(|files|, i requires 0 <= i < |files| => Entry(files[i], Segments(files[i]))));
      |routes| == |sorted|
      && forall i :: 0 <= i < |routes| ==>
        routes[i] == PathRoute(sorted[i].filePath, Pathname(sorted[i].segments))
  {
    var pathSegments: seq<Entry> := [];
    for k := 0 to |files|
      invariant pathSegments == seq(k, i requires 0 <= i < k => Entry(files[i], Segments(files[i])))
    {
      var filePath := files[k];
      var segments := Segments(filePath);
      pathSegments := pathSegments + [Entry(filePath, segments)];
    }
    var sorted := StableSort(pathSegments);
    routes := seq(|sorted|, i requires 0 <= i < |sorted| =>
      PathRoute(sorted[i].filePath, Pathname(sorted[i].segments)));
  }
}
