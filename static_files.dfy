/**
 * `src/staticFiles.ts`: serving the static files of a site from the `generated` and
 * `routes` folders, with `.client.ts` scripts transpiled on the fly, and the
 * rewrite of `.ts` imports to `.js` that makes such a script loadable by a browser.
 */
module StaticFiles {
  import opened Common
  import opened Strings
  import Responses
  import Generator
  import Routes
  import Server

  // ----- `tsToJs` -----

  /** The characters at which `^` and `$` match in a multi-line regular expression. */
  predicate IsLineTerminator(c: char) {
    c == '\n' || c == '\r' || c == '\U{2028}' || c == '\U{2029}'
  }

  predicate NoTerminator(s: string) {
    forall i :: 0 <= i < |s| ==> !IsLineTerminator(s[i])
  }

  /** The length of the first line of `text`. */
  function LineEnd(text: string): (n: nat)
    ensures n <= |text| && NoTerminator(text[..n])
    ensures n < |text| ==> IsLineTerminator(text[n])
  {
    if text == [] || IsLineTerminator(text[0]) then 0
    else
      var n := LineEnd(text[1..]);
      assert text[..n + 1] == [text[0]] + text[1..][..n];
      n + 1
  }

  predicate IsQuote(c: char) {
    c == '"' || c == '\''
  }

  /** How many characters the rewrite replaces at the end: `.ts` and the quote, and the `;` if there is one. */
  function SuffixLength(line: string): nat {
    if line != [] && line[|line| - 1] == ';' then 5 else 4
  }

  /** The line matches `^import .*\.ts("|')(;)?$`. */
  predicate IsImportLine(line: string) {
    var k := SuffixLength(line);
    StartsWith(line, "import ") && |line| >= 7 + k
    && line[|line| - k..|line| - k + 3] == ".ts" && IsQuote(line[|line| - k + 3])
  }

  /** The replacement for one line: `.ts<quote>[;]` becomes `.js<quote>;`; other lines are kept. */
  function RewriteLine(line: string): (r: string)
    ensures !IsImportLine(line) ==> r == line
    ensures NoTerminator(line) ==> NoTerminator(r)
  {
    if IsImportLine(line) then
      var k := SuffixLength(line);
      line[..|line| - k] + ".js" + [line[|line| - k + 3]] + ";"
    else line
  }

  /** Every import of a `.ts` module, with or without `;`, ends up importing the `.js` file, with `;`. */
  lemma ImportRewritten(mid: string, q: char, semicolon: bool)
    requires IsQuote(q)
    ensures var line := "import " + mid + ".ts" + [q] + (if semicolon then ";" else "");
      RewriteLine(line) == "import " + mid + ".js" + [q] + ";"
  {
    var line := "import " + mid + ".ts" + [q] + (if semicolon then ";" else "");
    var k := if semicolon then 5 else 4;
    assert SuffixLength(line) == k;
    StartsWithAppend("import ", mid + ".ts" + [q] + (if semicolon then ";" else ""));
    assert line == "import " + (mid + ".ts" + [q] + (if semicolon then ";" else ""));
    assert line[|line| - k..|line| - k + 3] == ".ts";
    assert line[..|line| - k] == "import " + mid;
  }

  /** A rewritten line is not rewritten again. */
  lemma RewriteLineIdempotent(line: string)
    ensures RewriteLine(RewriteLine(line)) == RewriteLine(line)
  {
    if IsImportLine(line) {
      var r := RewriteLine(line);
      assert r[|r| - 1] == ';' && r[|r| - 5..|r| - 2] == ".js";
    }
  }

  /** `.replace(importRegex, …)` with the `g` and `m` flags: every line rewritten, terminators kept. */
  function RewriteImports(text: string): string
    decreases |text|
  {
    var n := LineEnd(text);
    if n == |text| then RewriteLine(text)
    else RewriteLine(text[..n]) + [text[n]] + RewriteImports(text[n + 1..])
  }

  /** `tsToJs`: `blank` stands for `tsBlankSpace`, which blanks out the type annotations. */
  function TsToJs(text: string, blank: string -> string): string {
    RewriteImports(blank(text))
  }

  /** The first line ends where the line without terminators ends. */
  lemma {:induction false} LineEndOf(line: string, rest: string)
    requires NoTerminator(line)
    requires rest == [] || IsLineTerminator(rest[0])
    ensures LineEnd(line + rest) == |line|
  {
    if line != [] {
      assert (line + rest)[1..] == line[1..] + rest;
      LineEndOf(line[1..], rest);
    } else {
      assert line + rest == rest;
    }
  }

  /** The text after one rewrite has only rewritten lines: a second rewrite changes nothing. */
  lemma {:induction false} RewriteImportsIdempotent(text: string)
    ensures RewriteImports(RewriteImports(text)) == RewriteImports(text)
    decreases |text|
  {
    var n := LineEnd(text);
    var line := RewriteLine(text[..n]);
    RewriteLineIdempotent(text[..n]);
    if n == |text| {
      assert text[..n] == text;
      LineEndOf(line, []);
      assert line + [] == line;
    } else {
      var rest := RewriteImports(text[n + 1..]);
      var once := line + [text[n]] + rest;
      LineEndOf(line, [text[n]] + rest);
      assert once == line + ([text[n]] + rest);
      assert once[..|line|] == line && once[|line|] == text[n] && once[|line| + 1..] == rest;
      RewriteImportsIdempotent(text[n + 1..]);
    }
  }

  // ----- serving -----

  /**
   * `serveFile` in this file: what the platform's `serveFile` answered for one path,
   * with 404 and 405 counting as "not served" and `Cache-Control` set when
   * `staticCacheControlVal` has a value.
   */
  function ServeFiltered(under: Attempt<Responses.Response>, cacheControl: Option<string>): (r: Attempt<Option<Responses.Response>>)
    ensures under.Threw? ==> r == Threw(under.error)
    ensures under.Ok? && (under.value.status == 404 || under.value.status == 405) ==> r == Ok(None)
    ensures under.Ok? && under.value.status != 404 && under.value.status != 405 ==>
      r.Ok? && r.value.Some?
      && r.value.value.status == under.value.status && r.value.value.body == under.value.body
      && (cacheControl.Some? && cacheControl.value != "" ==>
            r.value.value.headers == under.value.headers["Cache-Control" := cacheControl.value])
      && (!(cacheControl.Some? && cacheControl.value != "") ==> r.value.value.headers == under.value.headers)
  {
    match under
    case Threw(e) => Threw(e)
    case Ok(res) =>
      if res.status == 404 || res.status == 405 then Ok(None)
      else if cacheControl.Some? && cacheControl.value != "" then
        Ok(Some(res.(headers := res.headers["Cache-Control" := cacheControl.value])))
      else Ok(Some(res))
  }

  const ScriptType := "text/javascript; charset=utf-8"

  /**
   * The `.client.js` fallback response: the transpiled source (`null` when empty), with
   * the served status, or what the constructor throws for a script with a 304.
   */
  function Transpiled(res: Responses.Response, js: string): (r: Attempt<Responses.Response>)
    ensures r.Ok? <==> 200 <= res.status <= 599 && (js == "" || !Responses.NullBodyStatus(res.status))
    ensures 200 <= res.status <= 599 && Responses.NullBodyStatus(res.status) && js != "" ==>
      r == Threw(Responses.NullBodyStatusError)
    ensures r.Ok? ==> r.value.status == res.status
    ensures r.Ok? ==> r.value.headers == res.headers["Content-Type" := ScriptType]["Accept-Ranges" := "none"]
    ensures r.Ok? ==> r.value.body == if js == "" then Responses.NoBody else Responses.Text(js)
  {
    Responses.Construct(if js == "" then Responses.NoBody else Responses.Text(js), res.status,
      res.headers["Content-Type" := ScriptType]["Accept-Ranges" := "none"])
  }

  /**
   * `serveStaticFile`: `serve` is the platform's `serveFile` for this request, by
   * path; `readText` is `res.text()` and `blank` is `tsBlankSpace`.
   */
  function ServeStaticFile(pathname: string, isDev: bool, serve: string -> Attempt<Responses.Response>,
                           cacheControl: Option<string>, readText: Responses.Response -> string,
                           blank: string -> string): Attempt<Option<Responses.Response>>
  {
    var staticPath := Generator.OutFilePath(pathname);
    var pregenerated := if isDev then Ok(None) else ServeFiltered(serve("generated" + staticPath), cacheControl);
    if pregenerated.Threw? then pregenerated
    else if pregenerated.value.Some? then pregenerated
    else
      var fromRoutes := ServeFiltered(serve("routes" + staticPath), cacheControl);
      if fromRoutes.Threw? || fromRoutes.value.Some? then fromRoutes
      else if EndsWith(pathname, ".client.js") then
        var source := ServeFiltered(serve("routes" + Slice(pathname, 0, -3) + ".ts"), cacheControl);
        if source.Threw? then Threw(source.error)
        else if source.value.None? then Ok(None)
        else
          var res := source.value.value;
          match Transpiled(res, TsToJs(readText(res), blank))
          case Threw(e) => Threw(e)
          case Ok(script) => Ok(Some(script))
      else Ok(None)
  }

  /** Outside development, a file in `generated` wins over everything in `routes`. */
  lemma GeneratedFirst(pathname: string, serve: string -> Attempt<Responses.Response>, cacheControl: Option<string>,
                       readText: Responses.Response -> string, blank: string -> string)
    requires var under := serve("generated" + Generator.OutFilePath(pathname));
      under.Ok? && under.value.status != 404 && under.value.status != 405
    ensures ServeStaticFile(pathname, false, serve, cacheControl, readText, blank)
      == ServeFiltered(serve("generated" + Generator.OutFilePath(pathname)), cacheControl)
  {
  }

  /** In development, the `generated` folder is never looked at. */
  lemma DevIgnoresGenerated(pathname: string, serve1: string -> Attempt<Responses.Response>,
                            serve2: string -> Attempt<Responses.Response>, cacheControl: Option<string>,
                            readText: Responses.Response -> string, blank: string -> string)
    requires forall p :: !StartsWith(p, "generated") ==> serve1(p) == serve2(p)
    ensures ServeStaticFile(pathname, true, serve1, cacheControl, readText, blank)
      == ServeStaticFile(pathname, true, serve2, cacheControl, readText, blank)
  {
    RoutesNotGenerated(Generator.OutFilePath(pathname));
    RoutesNotGenerated(Slice(pathname, 0, -3) + ".ts");
    assert "routes" + Slice(pathname, 0, -3) + ".ts" == "routes" + (Slice(pathname, 0, -3) + ".ts");
  }

  lemma RoutesNotGenerated(path: string)
    ensures !StartsWith("routes" + path, "generated")
  {
    var s := "routes" + path;
    assert s[0] == 'r';
    if |s| >= 9 {
      assert s[..9][0] == 'r';
    }
  }

  /**
   * A request for `X.client.js` that no folder holds is answered from `routes/X.client.ts`,
   * transpiled, with that file's status and the script media type, unless the
   * `Response` constructor refuses that status with the script as body.
   */
  lemma ClientScriptFallback(stem: string, isDev: bool, serve: string -> Attempt<Responses.Response>,
                             cacheControl: Option<string>, readText: Responses.Response -> string,
                             blank: string -> string)
    requires var p := Generator.OutFilePath(stem + ".client.js");
      (isDev || ServeFiltered(serve("generated" + p), cacheControl) == Ok(None))
      && ServeFiltered(serve("routes" + p), cacheControl) == Ok(None)
    requires var source := serve("routes" + stem + ".client.ts");
      source.Ok? && source.value.status != 404 && source.value.status != 405
    ensures var r := ServeStaticFile(stem + ".client.js", isDev, serve, cacheControl, readText, blank);
      var served := serve("routes" + stem + ".client.ts").value;
      var filtered := ServeFiltered(serve("routes" + stem + ".client.ts"), cacheControl);
      filtered.Ok? && filtered.value.Some?
      && var script := Transpiled(filtered.value.value, TsToJs(readText(filtered.value.value), blank));
      (script.Ok? ==>
        r.Ok? && r.value.Some?
        && r.value.value.status == served.status
        && r.value.value.headers["Content-Type"] == ScriptType
        && r.value.value.headers["Accept-Ranges"] == "none")
      && (script.Threw? ==> r == Threw(script.error))
  {
    var pathname := stem + ".client.js";
    EndsWithAppend(stem, ".client.js");
    assert Slice(pathname, 0, -3) == stem + ".client";
    assert "routes" + Slice(pathname, 0, -3) + ".ts" == "routes" + stem + ".client.ts";
  }

  /**
   * A page generated for the URL `url` is written where the server looks first for a
   * request of that URL's pathname: with the default output folder, `generate`
   * writes it to `generated` plus its output path, `serveStaticFile` asks `serve`
   * for exactly that path outside development, and answers with what it finds there.
   */
  lemma ServesWhatGenerateWrote(pages: seq<Option<Generator.Page>>, i: nat, get: Routes.Export, url: string,
                                pathnameOf: string -> string, invoke: (Routes.Export, string) -> Server.Outcome,
                                serve: string -> Attempt<Responses.Response>, cacheControl: Option<string>,
                                readText: Responses.Response -> string, blank: string -> string)
    requires i < |pages| && pages[i] == Generator.GeneratePage(get, url, pathnameOf, invoke)
    requires pages[i].Some? && !pages[i].value.response.body.NoBody?
    ensures var path := "generated" + Generator.OutFilePath(pathnameOf(url));
      Generator.WritePage(path, pages[i].value.response.body) in Generator.PageWrites(Generator.OutFolder(None), pages)
      && (serve(path).Ok? && serve(path).value.status != 404 && serve(path).value.status != 405 ==>
            ServeStaticFile(pathnameOf(url), false, serve, cacheControl, readText, blank)
              == ServeFiltered(serve(path), cacheControl))
  {
    Generator.PageWritten(Generator.OutFolder(None), pages, i);
  }
}
