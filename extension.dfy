/**
 * `vscode-extension/src/extension.ts`: the preview panel's navigation history and
 * the stand-in for `vscode.workspace.findFiles` that the preview uses, run over a
 * workspace given as a map from directory paths to their listings. The editor API,
 * the webview and its messages are outside the model.
 */
module Extension {
  import Common
  import opened Strings
  import Generator

  // ----- the navigation history -----

  /** The history without its last entry; an empty history stays empty. */
  function Popped(entries: seq<string>): (r: seq<string>)
    ensures |r| == if entries == [] then 0 else |entries| - 1
    ensures forall i :: 0 <= i < |r| ==> r[i] == entries[i]
  {
    if entries == [] then [] else entries[..|entries| - 1]
  }

  /** Popping right after a push restores the history as it was. */
  lemma PopUndoesPush(entries: seq<string>, path: string)
    ensures Popped(entries + [path]) == entries
  {
    assert (entries + [path])[..|entries|] == entries;
  }

  /** The paths the preview has navigated to, updated by the `pushHistory` and `popHistory` messages. */
  class History {
    var entries: seq<string>

    constructor()
      ensures entries == []
    {
      entries := [];
    }

    /** `history.push(path)`. */
    method Push(path: string)
      modifies this
      ensures entries == old(entries) + [path]
    {
      entries := entries + [path];
    }

    /** `history.pop()`: the last entry, removed; nothing on an empty history. */
    method Pop() returns (top: string)
      modifies this
      ensures old(entries) != [] ==> top == old(entries)[|old(entries)| - 1]
      ensures entries == Popped(old(entries))
    {
      if entries == [] {
        top := "";
      } else {
        top := entries[|entries| - 1];
        entries := entries[..|entries| - 1];
      }
    }
  }

  // ----- the workspace -----

  datatype FileType = File | Directory | OtherType

  /**
   * The workspace: each readable directory's path, relative to the workspace root,
   * with its entries' names and types in listing order. A path that is not a key
   * cannot be read.
   */
  type Workspace = map<string, seq<(string, FileType)>>

  /** `readDir`: the entries' full paths and types; none when the directory cannot be read. */
  function ReadDir(ws: Workspace, path: string): (r: seq<(string, FileType)>)
    ensures path !in ws ==> r == []
    ensures path in ws ==> (|r| == |ws[path]|
      && forall i :: 0 <= i < |r| ==> r[i] == (path + "/" + ws[path][i].0, ws[path][i].1))
    ensures forall i :: 0 <= i < |r| ==> StartsWith(r[i].0, path + "/")
  {
    if path !in ws then []
    else
      var listing := ws[path];
      seq(|listing|, i requires 0 <= i < |listing| => Entry(path, listing[i].0, listing[i].1))
  }

  function Entry(path: string, name: string, t: FileType): (r: (string, FileType))
    ensures StartsWith(r.0, path + "/") && r == (path + "/" + name, t)
  {
    StartsWithAppend(path + "/", name);
    (path + "/" + name, t)
  }

  /** The readable directories at or below the length of `path`: what a traversal from `path` can still visit. */
  function Reachable(ws: Workspace, path: string): set<string> {
    set k | k in ws && |k| >= |path|
  }

  /** Entries whose paths lie strictly below `dirPath`, a readable directory unless there are none. */
  predicate ChildEntries(ws: Workspace, dirPath: string, entries: seq<(string, FileType)>) {
    (entries != [] ==> dirPath in ws)
    && forall i :: 0 <= i < |entries| ==> StartsWith(entries[i].0, dirPath + "/")
  }

  /** What `traverse(dirPath)` collects. */
  function Files(ws: Workspace, dirPath: string): seq<string>
    decreases Reachable(ws, dirPath), 1
  {
    Gather(ws, dirPath, ReadDir(ws, dirPath))
  }

  /**
   * The loop of `traverse`, entry by entry: a file adds its path, a directory the
   * files below it at its position, anything else nothing.
   */
  function Gather(ws: Workspace, dirPath: string, entries: seq<(string, FileType)>): seq<string>
    requires ChildEntries(ws, dirPath, entries)
    decreases Reachable(ws, dirPath), 0, |entries|
  {
    if entries == [] then []
    else
      var last := entries[|entries| - 1];
      Gather(ws, dirPath, entries[..|entries| - 1])
      + match last.1
        case File => [last.0]
        case Directory =>
          assert dirPath in Reachable(ws, dirPath) && dirPath !in Reachable(ws, last.0);
          Files(ws, last.0)
        case OtherType => []
  }

  /** `traverse`: depth first, in listing order. */
  method Traverse(ws: Workspace, dirPath: string) returns (paths: seq<string>)
    ensures paths == Files(ws, dirPath)
    decreases Reachable(ws, dirPath)
  {
    paths := [];
    var entries := ReadDir(ws, dirPath);
    for i := 0 to |entries|
      invariant paths == Gather(ws, dirPath, entries[..i])
    {
      var name := entries[i].0;
      assert entries[..i + 1][..i] == entries[..i];
      match entries[i].1 {
        case File =>
          paths := paths + [name];
        case Directory =>
          assert dirPath in Reachable(ws, dirPath) && dirPath !in Reachable(ws, name);
          var below := Traverse(ws, name);
          paths := paths + below;
        case OtherType =>
      }
    }
    assert entries[..|entries|] == entries;
  }

  /** A directory that cannot be read contributes nothing. */
  lemma UnreadableIsEmpty(ws: Workspace, dirPath: string)
    requires dirPath !in ws
    ensures Files(ws, dirPath) == []
  {
  }

  lemma StartsWithTransitive(s: string, t: string, u: string)
    requires StartsWith(s, t) && StartsWith(t, u)
    ensures StartsWith(s, u)
  {
    assert s[..|u|] == s[..|t|][..|u|];
  }

  /** Everything a traversal finds lies below the directory it started from. */
  lemma {:induction false} FilesBelow(ws: Workspace, dirPath: string)
    ensures forall x :: x in Files(ws, dirPath) ==> StartsWith(x, dirPath + "/")
    decreases Reachable(ws, dirPath), 1
  {
    GatherBelow(ws, dirPath, ReadDir(ws, dirPath));
  }

  lemma {:induction false} GatherBelow(ws: Workspace, dirPath: string, entries: seq<(string, FileType)>)
    requires ChildEntries(ws, dirPath, entries)
    ensures forall x :: x in Gather(ws, dirPath, entries) ==> StartsWith(x, dirPath + "/")
    decreases Reachable(ws, dirPath), 0, |entries|
  {
    if entries != [] {
      var last := entries[|entries| - 1];
      GatherBelow(ws, dirPath, entries[..|entries| - 1]);
      if last.1.Directory? {
        assert dirPath in Reachable(ws, dirPath) && dirPath !in Reachable(ws, last.0);
        FilesBelow(ws, last.0);
        StartsWithAppend(last.0, "/");
        forall x | x in Files(ws, last.0)
          ensures StartsWith(x, dirPath + "/")
        {
          StartsWithTransitive(x, last.0 + "/", last.0);
          StartsWithTransitive(x, last.0, dirPath + "/");
        }
      }
    }
  }

  /** Each listed file is found, and so is everything below each listed directory. */
  lemma {:induction false} GatherHolds(ws: Workspace, dirPath: string, entries: seq<(string, FileType)>, i: nat)
    requires ChildEntries(ws, dirPath, entries) && i < |entries|
    ensures entries[i].1.File? ==> entries[i].0 in Gather(ws, dirPath, entries)
    ensures entries[i].1.Directory? ==>
      forall x :: x in Files(ws, entries[i].0) ==> x in Gather(ws, dirPath, entries)
    decreases |entries|
  {
    if i < |entries| - 1 {
      GatherHolds(ws, dirPath, entries[..|entries| - 1], i);
    }
  }

  /** A file listed in the directory is found, and so is every file below a listed subdirectory. */
  lemma FilesIncludeListed(ws: Workspace, dirPath: string, name: string, t: FileType)
    requires dirPath in ws && (name, t) in ws[dirPath]
    ensures t.File? ==> dirPath + "/" + name in Files(ws, dirPath)
    ensures t.Directory? ==> forall x :: x in Files(ws, dirPath + "/" + name) ==> x in Files(ws, dirPath)
  {
    var i :| 0 <= i < |ws[dirPath]| && ws[dirPath][i] == (name, t);
    GatherHolds(ws, dirPath, ReadDir(ws, dirPath), i);
  }

  // ----- findFiles -----

  /** `makePredicate`: `*suffix` keeps the paths ending with `suffix`; any other pattern, the path equal to it. */
  predicate Keeps(fileNamePattern: string, path: string) {
    if fileNamePattern != [] && fileNamePattern[0] == '*' then EndsWith(path, fileNamePattern[1..])
    else path == fileNamePattern
  }

  /** `files.filter(makePredicate())`. */
  function Filter(fileNamePattern: string, files: seq<string>): (r: seq<string>)
    ensures |r| <= |files|
    ensures forall x :: x in r <==> x in files && Keeps(fileNamePattern, x)
  {
    if files == [] then []
    else
      var rest := Filter(fileNamePattern, files[1..]);
      assert forall x :: x in files <==> x == files[0] || x in files[1..];
      (if Keeps(fileNamePattern, files[0]) then [files[0]] else []) + rest
  }

  /** The pattern with a leading `/`. */
  function Rooted(pattern: string): (r: string)
    ensures StartsWith(r, "/")
  {
    if StartsWith(pattern, "/") then pattern
    else
      StartsWithAppend("/", pattern);
      "/" + pattern
  }

  /**
   * The paths `findFiles` answers: split at `/`, the last piece is the file-name
   * pattern; `**` before it means every file below, anything else one listing.
   */
  function Found(ws: Workspace, pattern: string): seq<string> {
    var segments := Split(Rooted(pattern), '/');
    var fileNamePattern := segments[|segments| - 1];
    if fileNamePattern == "" then []
    else
      var dirs := segments[..|segments| - 1];
      var files :=
        if dirs != [] && dirs[|dirs| - 1] == "**" then Files(ws, Join(dirs[..|dirs| - 1], "/"))
        else Common.Firsts(ReadDir(ws, Join(dirs, "/")));
      Filter(fileNamePattern, files)
  }

  /** `findFiles`: the paths found, each under the workspace's base path. */
  method FindFiles(ws: Workspace, basePath: string, pattern: string) returns (uris: seq<string>)
    ensures var found := Found(ws, pattern);
      |uris| == |found| && forall i :: 0 <= i < |uris| ==> uris[i] == basePath + found[i]
  {
    var segments := Split(Rooted(pattern), '/');
    var fileNamePattern := segments[|segments| - 1];
    if fileNamePattern == "" {
      return [];
    }
    var dirs := segments[..|segments| - 1];
    var files;
    if dirs != [] && dirs[|dirs| - 1] == "**" {
      files := Traverse(ws, Join(dirs[..|dirs| - 1], "/"));
    } else {
      files := Common.Firsts(ReadDir(ws, Join(dirs, "/")));
    }
    var kept := Filter(fileNamePattern, files);
    uris := seq(|kept|, i requires 0 <= i < |kept| => basePath + kept[i]);
  }

  /** A pattern without a leading `/` finds what it finds with one. */
  lemma SlashAdded(ws: Workspace, pattern: string)
    requires !StartsWith(pattern, "/")
    ensures Found(ws, pattern) == Found(ws, "/" + pattern)
  {
    StartsWithAppend("/", pattern);
  }

  /** The last piece of a text ending with the separator is empty. */
  lemma {:induction false} SplitEndsEmpty(x: string, c: char)
    ensures var parts := Split(x + [c], c); |parts| >= 2 && parts[|parts| - 1] == ""
  {
    if x != [] {
      assert (x + [c])[1..] == x[1..] + [c];
      SplitEndsEmpty(x[1..], c);
    } else {
      assert Split([c], c) == [""] + Split([], c);
    }
  }

  /** A pattern ending with `/` names no file and finds nothing. */
  lemma TrailingSlashFindsNothing(ws: Workspace, pattern: string)
    requires EndsWith(pattern, "/")
    ensures Found(ws, pattern) == []
  {
    var r := Rooted(pattern);
    assert r == r[..|r| - 1] + ['/'];
    SplitEndsEmpty(r[..|r| - 1], '/');
  }

  /** Splitting a rooted path built from pieces gives the pieces back. */
  lemma RootedPieces(pieces: seq<string>)
    requires |pieces| >= 2 && pieces[0] == ""
    requires forall i :: 0 <= i < |pieces| ==> '/' !in pieces[i]
    ensures Split(Rooted(Join(pieces, "/")), '/') == pieces
  {
    var p := Join(pieces, "/");
    assert p == "" + "/" + Join(pieces[1..], "/");
    assert StartsWith(p, "/");
    SplitJoin(pieces, '/');
  }

  // A pattern `dir`, `**`, `*suffix` (joined by slashes) keeps, from every file below
  // `dir`, those ending with `suffix`; all of them lie below `dir`.
  lemma RecursivePattern(ws: Workspace, dirs: seq<string>, suffix: string)
    requires forall i :: 0 <= i < |dirs| ==> '/' !in dirs[i]
    requires '/' !in suffix
    ensures var dir := Join([""] + dirs, "/");
      var found := Found(ws, Join([""] + dirs + ["**", "*" + suffix], "/"));
      found == Filter("*" + suffix, Files(ws, dir))
      && forall x :: x in found ==> EndsWith(x, suffix) && StartsWith(x, dir + "/")
  {
    var pieces := [""] + dirs + ["**", "*" + suffix];
    RootedPieces(pieces);
    assert pieces[..|pieces| - 1] == [""] + dirs + ["**"];
    assert ([""] + dirs + ["**"])[..|dirs| + 1] == [""] + dirs;
    assert ("*" + suffix)[1..] == suffix;
    FilesBelow(ws, Join([""] + dirs, "/"));
  }

  /**
   * `dir/name`, for a name that does not start with `*`: one listing of `dir`, filtered
   * by equality with the bare `name`. Every listed path is `dir + "/" + entry`, so it
   * holds a `/` that `name` does not: such a pattern finds nothing, at the workspace root
   * too.
   */
  lemma ExactPattern(ws: Workspace, dirs: seq<string>, name: string)
    requires forall i :: 0 <= i < |dirs| ==> '/' !in dirs[i]
    requires dirs == [] || dirs[|dirs| - 1] != "**"
    requires '/' !in name && name != "" && name[0] != '*'
    ensures var dir := Join([""] + dirs, "/");
      var found := Found(ws, Join([""] + dirs + [name], "/"));
      found == Filter(name, Common.Firsts(ReadDir(ws, dir))) && found == []
  {
    var pieces := [""] + dirs + [name];
    RootedPieces(pieces);
    assert pieces[..|pieces| - 1] == [""] + dirs;
    NoPathIsAName(ReadDir(ws, Join([""] + dirs, "/")), Join([""] + dirs, "/"), name);
  }

  /** A listed path holds a `/`, so it never equals a name without one. */
  lemma NoPathIsAName(entries: seq<(string, FileType)>, dir: string, name: string)
    requires forall i :: 0 <= i < |entries| ==> StartsWith(entries[i].0, dir + "/")
    requires '/' !in name && name != "" && name[0] != '*'
    ensures Filter(name, Common.Firsts(entries)) == []
  {
    var files := Common.Firsts(entries);
    forall j | 0 <= j < |files|
      ensures files[j] != name
    {
      assert StartsWith(entries[j].0, dir + "/");
      assert files[j][|dir|] == '/';
    }
    FilterNone(name, files);
  }

  /** A filter that keeps none of the files returns nothing. */
  lemma {:induction false} FilterNone(fileNamePattern: string, files: seq<string>)
    requires forall j :: 0 <= j < |files| ==> !Keeps(fileNamePattern, files[j])
    ensures Filter(fileNamePattern, files) == []
  {
    if files != [] {
      FilterNone(fileNamePattern, files[1..]);
    }
  }


  // ----- isStaticFile -----

  /** `isStaticFile`: every file that is not a server route module. */
  predicate IsStaticFile(p: string) {
    !EndsWith(p, ".server.ts") && !EndsWith(p, ".server.js")
  }

  /** The extension's `isStaticFile` agrees with the generator's. */
  lemma SameStaticFiles(p: string)
    ensures IsStaticFile(p) <==> Generator.IsStaticFile(p)
  {
  }
}
