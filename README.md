# mastro, modelled in Dafny

mastro is a minimal web framework and static site generator for TypeScript. Its parts are:

- a file router, which turns `routes/**/*.server.ts` files into URL patterns;
- a programmatic router, the `Mastro` class;
- a server, whose `fetch` handler decides between a static file and a route's handler;
- a static site generator;
- an HTML template engine that escapes every interpolated value and renders to a stream;
- helpers for JSON APIs, Atom feeds, image routes and serving files under Node.

The repository also ships two more pieces that are modelled here:

- a VS Code extension, whose preview keeps a navigation history and lists the workspace's files;
- a todo-list example server.

This project models each of those source files as one Dafny module:

| module | source |
|---|---|
| `Html` | `src/core/html.ts` |
| `Responses` | `src/core/responses.ts` |
| `Routes` | `src/routers/common.ts` and the shared `matchRoute` / `getParams` |
| `CoreRouter` | `src/core/router.ts` |
| `LegacyRouter` | `src/router.ts` |
| `FileRouter` | `src/routers/fileRouter.ts` |
| `ProgrammaticRouter` | `src/routers/programmaticRouter.ts` |
| `Server` | `src/server.ts` |
| `Generator` | `src/generator.ts` |
| `StaticFiles` | `src/staticFiles.ts` |
| `ServeFile` | `src/node/serveFile.ts` |
| `NodeServe` | `src/node/serve.ts` |
| `Images` | `src/images.ts` |
| `Feed` | `src/feed.ts` |
| `Api` | `src/api.ts` |
| `ApiClient` | `src/api.client.ts` |
| `Extension` | `vscode-extension/src/extension.ts` |
| `Todo` | `examples/todo-list-server/models/todo.ts` and `routes/todo/index.server.ts` |

Four more modules hold what the others share:

- `Common` holds `Option`, `Attempt` and JavaScript errors.
- `Strings` holds the JavaScript string primitives.
- `Numerals` holds `Number.prototype.toString(radix)`.
- `Js` holds JSON values and plain objects.

Code that computes a value is written as functions and lemmas. Code that loops or mutates is written imperatively:

- these are methods with loop invariants: the template loop, route discovery and matching, the generator's route and static-file loops, the API parameter checks, the header list, the stream drain and the directory traversal;
- these are classes with `modifies` frames: the route cache, the `Mastro` router, the HTML response stream, the preview history and the todo store.

The route sorts (`Array.prototype.sort` in the file router and the legacy router) are recursive insertion-sort functions, proved to give ordered permutations.

Each method is proved against a specification function, and the properties the framework promises are lemmas about those functions.

What the source gets from the outside world comes in as parameters. That covers:

- `URLPattern` matching (an `exec` function);
- URL parsing;
- the file system listing and `stat`;
- the SHA-256 digest;
- `Date` parsing;
- the TypeScript blanking tool;
- the image transformer;
- `fetch`.

## Model

| member | source | states |
|---|---|---|
| Html.EscapeForAttributeIsSinglePass | src/core/html.ts:104-112 | The five chained `replaceAll` calls are the same as replacing each character once by its entity: `&` first, so no entity is escaped twice. |
| Html.UnescapeEscape | src/core/html.ts:104-112 | Escaping loses nothing: decoding the five entities gives back the original text. |
| Html.EscapedHasNoMarkup | src/core/html.ts:104-112 | Escaped text contains no `<`, `>`, `"` or `'`, so an interpolated string can neither open a tag nor leave a quoted attribute. |
| Html.Escape | src/core/html.ts:99-102 | Trusted `unsafeInnerHtml` text passes unchanged; `null`/`undefined` render as nothing; a string is escaped as an attribute value; a number renders as its decimal digits, with `-` exactly when it is negative, and reading them back gives the number. |
| Numerals.IntToString | src/core/html.ts:99-102 | `String(n)` for an integer: decimal digits after a `-` exactly when `n` is negative, which read back give `n`. |
| Html.Leaves | src/core/html.ts:76-89 | The leaves of a node that the stream visits are all primitive values. |
| Html.ChunksOfAppend | src/core/html.ts:76-89 | Streaming an array is streaming its parts one after the other. |
| Html.ChunksAreEscapedLeaves | src/core/html.ts:76-89 | `renderToStream` yields exactly one chunk per primitive leaf, in document order, and each chunk is that leaf escaped. |
| Html.RenderToString | src/core/html.ts:94-97 | `renderToString` is the concatenation of the chunks `renderToStream` yields. |
| Html.RenderPrimitives | src/core/html.ts:68-112 | An `unsafeInnerHtml` node renders to its text unescaped, a string renders escaped, and `null` renders as nothing. |
| Html.RenderSeqAppend | src/core/html.ts:76-97 | Rendering is a homomorphism from node arrays to strings: concatenating arrays concatenates their renderings. |
| Html.HtmlTemplate | src/core/html.ts:42-60 | The `html` tagged-template loop builds exactly the node list `Template` describes. |
| Html.RenderTemplate | src/core/html.ts:42-60 | The template renders to the literals interleaved with the parameters. Arrays are spliced in. A parameter after a literal ending in `=` inside a tag is wrapped in double quotes. |
| Html.RenderUnquoted | src/core/html.ts:42-60 | When no literal ends in `=`, the template renders to literals and rendered parameters alternating, with nothing added. |
| Html.RenderTwoLiterals | src/core/html.ts:42-60 | A template with one interpolation renders as its two steps. |
| Html.OneParameter | src/core/html.ts:42-60 | `` html`open${p}close` `` renders as `open`, then `p` rendered, then `close`. |
| Html.RenderQuoted | src/core/html.ts:52-54 | An attribute value is wrapped in a double quote on each side, with its rendering in between. |
| Responses.WithDefaultType | src/core/responses.ts:22-25 | The caller's headers are kept. `Content-Type` is added with the default only when the caller gave none. |
| Responses.Construct | src/core/responses.ts:18-27 | `new Response(body, init)` gives a response exactly for statuses 200 to 599, and a body only with a status that allows one. A status outside the range throws a `RangeError`. A body with 204, 205 or 304 throws a `TypeError`. A string body without a `Content-Type` gets `text/plain;charset=UTF-8`. |
| Responses.TextResponse | src/server.ts:38-40 | `new Response(text, { status })` with an accepted status is the constructor's answer: the status, the text, and the header `Content-Type: text/plain;charset=UTF-8`. |
| Responses.HtmlResponse | src/core/responses.ts:7-28 | The constructor accepts exactly statuses 200 to 599 other than 204, 205 and 304. Outside that range it throws a `RangeError`, and for those three it throws a `TypeError`. An accepted response keeps its status and headers, with `text/html` as the default type. A string body is sent whole and an async iterable is streamed. |
| Responses.HtmlToResponse | src/core/responses.ts:33-34 | The response has status 200 and the HTML type. Its streamed chunks concatenate to the node's rendering. |
| Responses.JsonResponse | src/core/responses.ts:39-50 | The constructor accepts exactly statuses 200 to 599 other than 204, 205 and 304, and throws a `RangeError` or a `TypeError` otherwise. An accepted response has the JSON value as its body, and its type defaults to `application/json`. |
| Responses.HtmlStream.constructor | src/core/responses.ts:52-58 | A new stream has everything still pending, nothing enqueued, and is not closed. |
| Responses.HtmlStream.Pull | src/core/responses.ts:59-77 | Each pull consumes one iterator step. A value is enqueued encoded. A failure enqueues ` ${e}` followed by a zero byte. When the iterator is done, the stream closes. |
| Responses.HtmlStream.Cancel | src/core/responses.ts:78-80 | Cancelling calls the iterator's `return` exactly once when it has one, and changes nothing else. |
| Responses.HtmlStream.Drain | src/core/responses.ts:59-77 | Pulling until closed enqueues exactly what the whole iteration produces. |
| Responses.StreamReadsAsChunks | src/core/responses.ts:59-66 | When the iterator does not fail, reading the stream gives the yielded chunks concatenated. |
| Responses.HtmlStreamReadsAsRendered | src/core/responses.ts:33-34 | The body of `htmlToResponse(node)` reads as `renderToString(node)`. |
| Responses.FailureLeavesZeroByte | src/core/responses.ts:67-76 | An iterator that fails anywhere leaves a zero byte in the body, so the response is malformed and not cached. |
| Responses.RepoName | src/core/responses.ts:113 | The repository name exists exactly when `GITHUB_REPOSITORY` holds a `/`. It holds no `/`: it is the text after the first `/`, up to the next `/` if there is one and to the end otherwise. |
| Responses.RepoNameOf | src/core/responses.ts:110-119 | For `GITHUB_REPOSITORY` = `owner/repo`, the repository name is `repo`; on a server, a non-empty `repo` not ending in `.github.io` gives the base path `/repo`. |
| Responses.GhPagesBasePath | src/core/responses.ts:110-119 | The base path is `/` followed by the repository name, on a server, when the name is non-empty and does not end in `.github.io`; otherwise it is empty. |
| Routes.ParamRun | src/core/router.ts:11 | The run of name characters (`[a-zA-Z0-9.]`) at the start of a string, maximal. |
| Routes.ParamName | src/core/router.ts:11 | A segment starting with `[name]` yields that non-empty name of allowed characters. |
| Routes.ParamNameOf | src/core/router.ts:11 | Every bracketed name of allowed characters is recognised, whatever follows it. |
| Routes.FirstMatch | src/core/router.ts:69-71 | The index of the first route whose pattern matches, or -1 exactly when none does. |
| Routes.MatchRoute | src/core/router.ts:66-85 | The loop returns the first matching route's file and captured groups, or nothing. In the browser, a match on a `.server.ts` file throws. |
| Routes.GetParams | src/core/router.ts:101-102 | The parameters of the first match, or `{}` when nothing matches. It throws exactly when `matchRoute` does. |
| CoreRouter.DiscoverRoutes | src/core/router.ts:15-59 | One route per discovered file, newest first (`unshift`). Each is compiled to `"/" +` its segments joined. |
| CoreRouter.MatchPrefersLatest | src/core/router.ts:35-71 | `matchRoute` picks the file discovered last among those whose pattern matches, and finds nothing exactly when no file's pattern matches. |
| CoreRouter.PatternOfFile | src/core/router.ts:35-59 | The route built for a file carries that file's compiled pattern. |
| FileRouter.ToPattern | src/routers/fileRouter.ts:76-95 | Every pattern is `/` followed by the rewritten parts of the path after `routes`. |
| FileRouter.PatternParts | src/routers/fileRouter.ts:77-93 | There is one rewritten part per path part after the first two. |
| FileRouter.RewriteParam | src/routers/fileRouter.ts:79-81 | A `[name]` part becomes the named parameter `:name`. |
| FileRouter.RewriteCatchAll | src/routers/fileRouter.ts:79-81 | A `[...name]` part becomes the optional catch-all `:name(.*)?`. |
| FileRouter.RewriteIndex | src/routers/fileRouter.ts:82-84 | An `index.server.ts`/`.js` part becomes the empty segment. |
| FileRouter.RewriteFolderIndex | src/routers/fileRouter.ts:85-87 | A `(folder).server.ts`/`.js` part inside `folder` becomes the empty segment. |
| FileRouter.RewriteServerFile | src/routers/fileRouter.ts:88-89 | Any other `name.server.ts`/`.js` part becomes `name`. |
| FileRouter.RewriteFolder | src/routers/fileRouter.ts:90-91 | A directory part is kept as it is. |
| FileRouter.RewriteNoSlash | src/routers/fileRouter.ts:78-93 | A rewritten part never contains `/`. |
| FileRouter.PatternSegments | src/routers/fileRouter.ts:76-95 | With `/` as the separator, splitting the pattern gives back exactly the rewritten parts, one per path part after `routes`. |
| FileRouter.Insert | src/routers/fileRouter.ts:73 | Inserting into a descending list keeps it descending and adds exactly that element. |
| FileRouter.SortDescending | src/routers/fileRouter.ts:73 | `sort((a, b) => a < b ? 1 : -1)` yields a descending permutation of the names. |
| FileRouter.StrictlyDescendingUnique | src/routers/fileRouter.ts:73 | Two strictly descending permutations of the same names are equal. |
| FileRouter.SortOrderIsDetermined | src/routers/fileRouter.ts:73 | For distinct file names, the sorted order is the only strictly descending arrangement, whatever order `findFiles` returned them in. |
| FileRouter.LongerPathFirst | src/routers/fileRouter.ts:69-73 | Longer paths win over their prefixes: after the sort, a file `stem/inner` comes before the file `stem.ext`. |
| FileRouter.DotBeforeSlash | src/routers/fileRouter.ts:69-73 | `stem.ext` is less than `stem/inner` in code-unit order, since `.` is less than `/`. |
| FileRouter.LessComesLater | src/routers/fileRouter.ts:73 | In a list sorted in descending order, a strictly smaller name sits at a later index. |
| FileRouter.LowerCaseBeforeParam | src/routers/fileRouter.ts:69-73 | A part starting with a lower-case letter comes before a `[...slug]` part under the same prefix. |
| FileRouter.Declared | src/routers/fileRouter.ts:49-59 | The methods a module exports something truthy for, and only those. |
| FileRouter.MethodRoute | src/routers/fileRouter.ts:51-58 | The route is named after the file, has that file's pattern and the module's export as its handler, and its method is `all` for `ALL`. |
| FileRouter.RoutesFor | src/routers/fileRouter.ts:49-60 | One route per declared method, in method-list order. |
| FileRouter.RoutesOf | src/routers/fileRouter.ts:48-61 | Every route of a module carries the file's name and pattern. |
| FileRouter.RoutesOfAll | src/routers/fileRouter.ts:49-58 | A module exporting an `ALL` function gets exactly one route, which matches any method. |
| FileRouter.RoutesOfMethods | src/routers/fileRouter.ts:49-60 | Any other module has a route for a method exactly when that method is in `httpMethods` and the module exports something truthy for it, with that export as the handler. |
| FileRouter.FlattenAppend | src/routers/fileRouter.ts:48 | `flatMap` over two lists is the two results one after the other. |
| FileRouter.FileBasedRoutesFromFiles | src/routers/fileRouter.ts:39-74 | Every route `getFileBasedRoutes` returns comes from one of the route files and carries that file's pattern. |
| FileRouter.FileBasedRoutesSound | src/routers/fileRouter.ts:39-74 | Every route returned is the route made for a method its file's module declares, under that file's name and pattern. This is the converse of `FileBasedRoutesComplete`. |
| FileRouter.FlattenMember | src/routers/fileRouter.ts:48 | A member of the `flatMap` result comes from one of the mapped lists. |
| FileRouter.FileBasedRoutesComplete | src/routers/fileRouter.ts:39-58 | Conversely, for every route file and every method its module declares, the route for that file, its pattern and that method is among those returned. |
| FileRouter.FileBasedRoutesOrdered | src/routers/fileRouter.ts:39-73 | The routes come in reverse code-unit order of their file names, as the precedence order in `src/routers/fileRouter.test.ts:28-35` expects. |
| FileRouter.FileBasedRoutesOnePerFile | src/routers/fileRouter.ts:39-73 | When each module declares one method, there is exactly one route per file, named after the files in reverse sorted order. |
| FileRouter.RouteCache.constructor | src/routers/fileRouter.ts:11 | The cache starts empty. |
| FileRouter.RouteCache.GetRoutes | src/routers/fileRouter.ts:18-25 | The first call stores and returns the loaded routes. Later calls return the stored list unchanged. |
| FileRouter.RouteCache.SetRoutes | src/routers/fileRouter.ts:30-32 | The stored list is replaced by the given one. |
| FileRouter.SetThenGet | src/routers/fileRouter.ts:18-32 | After `setRoutes`, every `getRoutes` returns exactly the list that was set. |
| FileRouter.GetTwice | src/routers/fileRouter.ts:18-25 | The first `getRoutes` fixes the list; a second call ignores what it would load. |
| LegacyRouter.Kept | src/router.ts:15-28 | Index files and empty segments are filtered out. |
| LegacyRouter.KeptAppend | src/router.ts:28 | The filter works segment by segment. |
| LegacyRouter.IndexFileDropped | src/router.ts:21-22 | An index file adds no segment to its directory's pattern. |
| LegacyRouter.OptionalParam | src/router.ts:16-20 | A `[name]` segment becomes the optional parameter `:name?`. |
| LegacyRouter.Pathname | src/router.ts:45 | Every pattern starts and ends with `/`. |
| LegacyRouter.PathnameRoot | src/router.ts:45 | The pattern is `/` exactly when no segment is left. |
| LegacyRouter.InsertStablePermutes | src/router.ts:33 | Inserting adds exactly that entry. |
| LegacyRouter.InsertStableSorted | src/router.ts:33 | Inserting keeps the list ordered by segment count. |
| LegacyRouter.StableSort | src/router.ts:33 | Sorting by segment count gives an ordered permutation. |
| LegacyRouter.StableSortIsStable | src/router.ts:33 | The sort is stable: the entries of each segment count keep their discovery order. |
| LegacyRouter.DiscoverRoutes | src/router.ts:12-52 | The routes are the discovered entries, stably sorted by segment count, each with its slash-terminated pattern. |
| ProgrammaticRouter.Normalize | src/routers/programmaticRouter.ts:22-25 | A bare handler becomes `{ handler }` with no static-generation options. A full options object is kept. |
| ProgrammaticRouter.Stored | src/routers/programmaticRouter.ts:26-33 | The stored route is named after its pathname, matches it, has the given method and handler, and copies the options. |
| ProgrammaticRouter.Options.constructor | src/routers/programmaticRouter.ts:61-63 | A new options object has no routes. |
| ProgrammaticRouter.Mastro.constructor | src/routers/programmaticRouter.ts:18 | A new router has no routes. |
| ProgrammaticRouter.Mastro.AddRoute | src/routers/programmaticRouter.ts:21-35 | Exactly one route is appended, and the router itself is returned for chaining. |
| ProgrammaticRouter.Mastro.Get | src/routers/programmaticRouter.ts:38-40 | Appends a `GET` route. |
| ProgrammaticRouter.Mastro.Post | src/routers/programmaticRouter.ts:43-45 | Appends a `POST` route. |
| ProgrammaticRouter.Mastro.Put | src/routers/programmaticRouter.ts:48-50 | Appends a `PUT` route. |
| ProgrammaticRouter.Mastro.Delete | src/routers/programmaticRouter.ts:53-55 | Appends a `DELETE` route. |
| ProgrammaticRouter.Mastro.WireOptions | src/routers/programmaticRouter.ts:58-72 | The given options object, or a fresh `{}`, is the one passed on; its `routes` refers to this router's routes, not a copy. |
| ProgrammaticRouter.AddedAfterWiringIsSeen | src/routers/programmaticRouter.ts:64-71 | A route added after the options were wired is seen through them, because the array is shared. |
| ProgrammaticRouter.Chained | src/routers/programmaticRouter.test.ts:6-10 | Chained calls all act on the same router, and the routes come out in call order. |
| Server.StaticCacheControlVal | src/server.ts:85-95 | On Deno Deploy the value is `s-maxage=604800`. Otherwise it is `max-age=0` exactly on a `localhost` host, and there is none anywhere else. |
| Server.AsPathRoutes | src/server.ts:30 | The server's routes are seen by their patterns, one for one. |
| Server.ErrorResponse | src/server.ts:61-70 | A thrown error gives 404 exactly when it is `NotFound` or `ENOENT`, and 500 otherwise. |
| Server.StaticFileFirst | src/server.ts:20-27 | A static file found for a GET outside Cloudflare Workers is returned before any route is looked up. |
| Server.NoRouteIsNotFound | src/server.ts:29-31 | Without a static file and without a matching route, the answer is 404 "404 not found". |
| Server.MissingMethodIs405 | src/server.ts:36-41 | A matching route whose module has no function for the upper-cased method gives 405, whatever the handlers would do. |
| Server.PregenerateNotServed | src/server.ts:42-48 | A `pregenerate` route hit on a host other than `localhost` gives the 404 reminder, and its handler is not called. |
| Server.HandlerDecides | src/server.ts:49-70 | When the matched route's module loads, the handler decides. Its `Response` is returned, any other value gives 500, and an error it throws gives 404 or 500 by its name and code. |
| Server.LoadFailureCaught | src/server.ts:29-70 | If `getRoutes()` rejects, or the matched route's module import rejects, the error is caught: 404 for `NotFound` or `ENOENT`, and 500 otherwise. |
| Server.ConstructorErrorIs500 | src/server.ts:61-70 | A handler whose `Response` the constructor refused (a `RangeError` or a `TypeError`) is answered with 500. |
| Generator.GetStaticUrls | src/generator.ts:125-142 | In order: `getStaticPaths` is not a function, or its call throws or rejects (that error is passed on); the result is not an array whose first element, if any, is a string; then the first path whose `p[0]` is not `"/"` gives its error. Otherwise there is one URL text `String(p)` per path, in order. |
| Generator.IndexZero | src/generator.ts:137 | `p[0]` on any value: a TypeError exactly for `null` and `undefined`; the first character of a string, the first element of an array, property `0` of an object, and `undefined` otherwise. |
| Generator.FirstFailing | src/generator.ts:136-141 | The first path that fails the check, -1 exactly when every path passes. |
| Generator.UrlTexts | src/generator.ts:136-141 | The map stops at the first failing path with its error (the TypeError of `p[0]`, or the slash error); otherwise one text `String(p)` per path. |
| Generator.StringPathsKept | src/generator.ts:136-141 | Paths that are all strings starting with `/` are their own URL texts. |
| Generator.ArrayPathPasses | src/generator.ts:133-141 | After a string first path, an array whose first element is `"/"` passes the check and becomes its joined text. |
| Generator.NullPathThrows | src/generator.ts:133-141 | After a string first path, a `null` path throws the TypeError of reading `[0]`, not the slash error. |
| Generator.OutFilePathIsFile | src/generator.ts:114-115 | The output path extends the pathname. It differs from it exactly when the pathname ends in `/`, and it never ends in `/`. |
| Generator.DirectoryAndIndexShareFile | src/generator.ts:114-115 | `/dir/` and `/dir/index.html` are written to the same file. |
| Generator.GeneratePage | src/generator.ts:110-123 | A page exists exactly when `GET` returned a `Response`. It holds that response, at the output path of the URL's parsed pathname, which that output path starts with. |
| Generator.PageWritten | src/generator.ts:55-63 | Every generated page with a body is written, at the output folder followed by its output path. |
| Generator.GeneratePagesForRoute | src/generator.ts:93-107 | A module without a `GET` function throws. A route without parameters gives one page, for its pattern. A route with parameters gives one page per static path, or `getStaticUrls`'s error. |
| Generator.PageWrites | src/generator.ts:55-63 | Only pages that exist and have a body are written, each under the output folder. |
| Generator.StaticWrites | src/generator.ts:71-81 | Every static file gets one write, in order. |
| Generator.ClientScriptBecomesJs | src/generator.ts:72-75 | A `.client.ts` file is written transpiled, as `.client.js`. |
| Generator.Generate | src/generator.ts:41-84 | If `getRoutes()` rejects, only the static files are written and its error is logged. Otherwise the page writes, up to the first route that throws, come first, followed by the static files. The static files are written even when a route failed, and that route's error is logged. |
| Generator.GenerateRoutes | src/generator.ts:51-69 | The route loop writes exactly the planned pages. It stops at the first module that fails to load or route that throws. |
| Generator.GenerateRoute | src/generator.ts:52-66 | One pass of the loop gives the error of a module that fails to load or of pages that cannot be generated, ending the loop. Otherwise it gives nothing for an unselected route, or the writes for its pages. This is `RouteWrites` unrolled by one route. |
| Generator.ImportFailureLogged | src/generator.ts:51-68 | A route whose module import rejects ends the loop with that error logged, even if it would not have been selected. Nothing after it is generated. |
| Generator.CarryOverStatic | src/generator.ts:71-81 | The static-file loop writes exactly one planned write per file. |
| Generator.Pregenerated | src/generator.ts:54 | The routes that export `pregenerate`, and the routes whose module fails to load, taken from the given routes. |
| Generator.OnlyPregenerateFilters | src/generator.ts:54 | `--only-pregenerate` writes exactly what a full run over the kept routes alone would write. The kept routes are the `pregenerate` routes and any route whose import fails, which ends both runs. |
| Generator.StaticFilePaths | src/generator.ts:148-151 | The non-route files under `routes/` and only those, each with the `routes/` prefix cut off. |
| StaticFiles.LineEnd | src/staticFiles.ts:4 | The first line ends at the first line terminator, where `$` matches in multi-line mode. |
| StaticFiles.RewriteLine | src/staticFiles.ts:4-19 | A line that is not a `.ts` import is kept. No line terminator is introduced. |
| StaticFiles.ImportRewritten | src/staticFiles.ts:17-19 | Every import of a `.ts` module, with or without `;`, ends up importing the `.js` file, with `;`. |
| StaticFiles.RewriteLineIdempotent | src/staticFiles.ts:4-19 | A rewritten line is not rewritten again. |
| StaticFiles.RewriteImportsIdempotent | src/staticFiles.ts:14-21 | Rewriting the imports of an already rewritten text changes nothing. |
| StaticFiles.ServeFiltered | src/staticFiles.ts:54-68 | A 404 or 405 counts as "not served". Anything else is returned with `Cache-Control` added when there is a value for it. Errors propagate. |
| StaticFiles.Transpiled | src/staticFiles.ts:42-49 | The transpiled script keeps the served status and headers, sets the script type and `Accept-Ranges: none`, and has no body when the script is empty. A non-empty script with a 304 makes the constructor throw a `TypeError`. |
| StaticFiles.GeneratedFirst | src/staticFiles.ts:32-39 | Outside development, a file in `generated` wins over everything in `routes`. |
| StaticFiles.DevIgnoresGenerated | src/staticFiles.ts:33-35 | In development, the `generated` folder is never looked at. |
| StaticFiles.ClientScriptFallback | src/staticFiles.ts:40-51 | A request for `X.client.js` that no folder holds is answered from `routes/X.client.ts`, transpiled, with that file's status and the script type. If the constructor refuses that status with the script as its body, its error is thrown instead. |
| StaticFiles.ServesWhatGenerateWrote | src/staticFiles.ts:30-35 | For a page `generate` produced for a URL: it was written to `generated` followed by the output path of the URL's pathname, and a request for that pathname in production is answered from exactly that file, when the file server finds it. |
| ServeFile.NewResponse | src/node/serveFile.ts:80-81 | The constructor's answer for the text `HTTP <status>`. It succeeds exactly for a status that accepts a body, and then has that status and the single header `Content-Type: text/plain;charset=UTF-8`. |
| ServeFile.ETag | src/node/serveFile.ts:84-91 | The tag is quoted. It starts with the file size in hexadecimal, which parses back to the size, followed by `-`. |
| ServeFile.StripWeak | src/node/serveFile.ts:102-105 | Removes the `W/` weakness marker when present, and nothing else. |
| ServeFile.Tags | src/node/serveFile.ts:94-105 | Splitting at commas gives one tag per comma plus one. |
| ServeFile.IfNoneMatch | src/node/serveFile.ts:93-107 | An absent or empty header or tag always sends the file. A `*` header never does. Otherwise the file is sent exactly when no listed tag weakly matches, as weak comparison is defined in section 8.8.3.2 of RFC 9110. |
| ServeFile.TagsOfList | src/node/serveFile.ts:94-105 | A comma-joined list of tags without surrounding white space splits back into that list. |
| ServeFile.IfNoneMatchOfList | src/node/serveFile.ts:95-107 | For a comma-separated list of tags, the file is sent exactly when none of them weakly matches its own tag. |
| ServeFile.WeakMatch | src/node/serveFile.ts:102-105 | A tag matches itself whether or not either side is marked weak. |
| ServeFile.SingleTag | src/node/serveFile.ts:95-107 | A header holding one tag sends the file exactly when that tag does not weakly match. |
| ServeFile.FileTag | src/node/serveFile.ts:41 | A file has an entity tag exactly when it has a modification time. |
| ServeFile.FileHeaders | src/node/serveFile.ts:36-49 | `Last-Modified` and `ETag` are present exactly when the modification time is known. `Content-Type` is present exactly when the media type is known. `Content-Length` is not set yet. |
| ServeFile.ServeFile | src/node/serveFile.ts:14-78 | Any method other than GET and HEAD gives 405. A missing file or a directory gives 404, and other `stat` errors propagate. HEAD gives 200 with `Content-Length` and no body. A GET gives 304 under the conditions of sections 13.1.2 and 13.1.3 of RFC 9110, and otherwise 200 with the file. |
| ServeFile.OwnTagIsNotModified | src/node/serveFile.ts:57-72 | Sending the file's own tag back, weak or not, gives 304 to a GET. |
| ServeFile.ModifiedSinceDecides | src/node/serveFile.ts:61-69 | Without `If-None-Match`, the answer is 304 exactly when the file was modified less than a second after the given date. |
| NodeServe.GetFirstValue | src/node/serve.ts:126-128 | There is a first value exactly when the header is present. It is the text before the first comma, or the whole value, trimmed, and it never contains a comma. |
| NodeServe.FirstOfMany | src/node/serve.ts:126-128 | For a header sent several times, the first value is the first occurrence, trimmed. |
| NodeServe.TrailingDigits | src/node/serve.ts:134 | The maximal run of ASCII digits at the end of a text. |
| NodeServe.EndsWithPortMeans | src/node/serve.ts:134 | The port test holds exactly when some colon is followed only by digits, at least one, up to the end, as `/:\d+$/` reads. |
| NodeServe.TrailingDigitsOfPort | src/node/serve.ts:134 | A colon followed by a non-empty run of digits ends in exactly that many trailing digits. |
| NodeServe.GetHostnamePort | src/node/serve.ts:130-136 | A single host name that already ends with a port is kept as it is. Anything else is interpolated as text, followed by `:port` when a port is given. |
| NodeServe.HostnamePortHasPort | src/node/serve.ts:130-136 | With a port in digits, the result always ends with a port: the host's own or the given one. |
| NodeServe.Header | src/node/serve.ts:102-114 | A header that is not listed is absent. |
| NodeServe.Protocol | src/node/serve.ts:102-106 | The first `x-forwarded-proto` value wins. Otherwise the protocol is `https` on an encrypted socket and `http` on a plain one. |
| NodeServe.Hostname | src/node/serve.ts:109-111 | The first `x-forwarded-host` value wins, then `host`, then `:authority`. |
| NodeServe.GetUrl | src/node/serve.ts:97-124 | The URL is built from the forwarded protocol, host and port and the request path. When that does not parse, it is built from the socket's protocol and the provided host alone. |
| NodeServe.NoProxyHeaders | src/node/serve.ts:97-118 | Without proxy headers, the URL is the socket's protocol, the `host` header and the path. |
| NodeServe.Pairs | src/node/serve.ts:144-147 | One header line per item of a repeated header, in order. |
| NodeServe.HeaderPairsHolds | src/node/serve.ts:138-153 | A name and value pair is in the header list exactly when an entry of that name is defined and has that value among its items. |
| NodeServe.MakeRequestHeaders | src/node/serve.ts:138-153 | The nested loops append exactly the header list `HeaderPairs` describes: `undefined` entries are skipped and arrays are spread in order. |
| NodeServe.CreateRequest | src/node/serve.ts:84-95 | The method defaults to GET when missing or empty. The incoming body is streamed into the request exactly when the method is neither GET nor HEAD. The URL is `getUrl`'s, and there is no request when that URL cannot be built. |
| Images.SplitAt | src/images.ts:108-111 | The two pieces are the text before and after the given position, which is dropped. A position of -1 gives an empty first piece and the whole text. |
| Images.FindPreset | src/images.ts:69 | A preset is found exactly when one is registered under the name, and it is a registered preset of that name. |
| Images.FormatOf | src/images.ts:77 | A preset's format, WebP unless one is set. |
| Images.ParseSlug | src/images.ts:59-67 | The slug splits into preset name, file path and suffix, and none of them is empty. |
| Images.SlugPieces | src/images.ts:63-64 | `<preset>/<path>.<suffix>` splits at the first `/` and the last `.` into exactly those three pieces. |
| Images.ParsedPieces | src/images.ts:63-67 | Non-empty pieces found by the two splits are what the slug yields. |
| Images.Serve | src/images.ts:69-93 | When the preset is missing or the upper-cased suffix does not name its format, the answer is 404. Otherwise the transformer's error is rethrown, or the answer is 200 with the transformed bytes as body and `Cache-Control` exactly when there is a value for it. |
| Images.Get | src/images.ts:58-94 | A missing slug, or one with an empty piece, gives a plain 404. Every answer is 200 or 404; an error is thrown only for an accepted preset and format, and it is the transformer's error on that file. |
| Images.UnknownPresetIs404 | src/images.ts:69-76 | An unknown preset gives 404 with the message that lists the known preset names. |
| Images.FindPresetAt | src/images.ts:69 | The first preset registered under a name is the one found. |
| Images.PresetPaths | src/images.ts:99-101 | One path per preset for an image, in preset order. |
| Images.StaticPaths | src/images.ts:96-103 | `getStaticPaths` lists one path per image and preset. |
| Images.StaticPathAt | src/images.ts:96-103 | The entry for image `i` and preset `j` sits at position `i * presets + j` and is `/_images/<preset>/<image path>.webp`. |
| Images.ListedPathServed | src/images.ts:58-103 | Every path listed for a WebP preset is served: `GET` on that path answers 200 with the image transformed to WebP when the transformer succeeds, and throws its error when it fails. |
| Feed.AtomResponse | src/feed.ts:59-77 | The response has status 200 and only the `application/atom+xml` type. Its streamed body concatenates to the written-out feed text. |
| Feed.AsAtom | src/feed.ts:75 | Only the media type is replaced; the status and body are kept. |
| Feed.StreamsFeedText | src/feed.ts:74 | The HTML response of the feed node streams exactly the feed text. |
| Feed.FeedRenders | src/feed.ts:60-73 | The `atomResponse` template renders to the feed text: title, optional subtitle, self and alternate links, updated, optional author, id, icon, logo and the entries, with every value escaped. |
| Feed.EntryNodes | src/feed.ts:71 | One entry node per entry, in order. |
| Feed.EntriesRender | src/feed.ts:88-103 | The entry list renders as the entries' texts one after the other. |
| Feed.EntryRenders | src/feed.ts:88-103 | An entry renders to its id, title and updated time, then each optional part when present. |
| Feed.AuthorRenders | src/feed.ts:79-86 | An author renders to its name, with its email and URI when present. |
| Feed.OptionalAuthorRenders | src/feed.ts:94 | A missing author renders as nothing. |
| Feed.ElementRenders | src/feed.ts:62-70 | A value between an opening and a closing tag is rendered in place, with nothing added. |
| Feed.AttributeRenders | src/feed.ts:95-97 | A URL after `href=` inside the open tag is escaped and wrapped in double quotes. |
| Feed.OptionalElementRenders | src/feed.ts:98 | An optional element renders escaped when its value is present, and as nothing otherwise. |
| Feed.OptionalLinkRenders | src/feed.ts:95-97 | An optional link renders as the tag with its quoted, escaped URL when present, and as nothing otherwise. |
| Feed.OptionalContentRenders | src/feed.ts:99-101 | Entry content is the content's rendered HTML, escaped once more, inside `<content type="html">`. |
| Feed.ContentDecodesToHtml | src/feed.ts:99-101 | A reader that decodes the entities once gets the content's own rendered HTML back. |
| Api.ErrorText | src/api.ts:111 | An `Error` is reported by its message. Any other value is reported by its text, and `undefined`/`null` give no text. |
| Api.JsonErr | src/api.ts:110-113 | It succeeds exactly for a status that accepts a body. The answer is then a JSON object whose `error` is the error text and whose `status` equals the response's own status. |
| Api.FirstMissingParam | src/api.ts:72-76 | The first declared path parameter that is missing or empty, and -1 exactly when every one is given. |
| Api.QueryOf | src/api.ts:78 | The query string is read, as an object in which the last value of a name wins, exactly when query parameters are declared. |
| Api.FirstMissingQuery | src/api.ts:79-83 | The first query parameter declared `'string'` that is missing or empty, and -1 exactly when there is none. |
| Api.SuccessStatus | src/api.ts:105-106 | A numeric `status` field of the result is the response status; otherwise the status is 200. |
| Api.Reply | src/api.ts:98-106 | A handler that throws gives a 500 `jsonErr`. A returned object with an acceptable status is sent as JSON with that status. A status outside 200 to 599 makes the constructor throw a `RangeError`, and 204, 205 or 304 a `TypeError`. A non-object result makes `in` throw a `TypeError`. |
| Api.JsonRoute | src/api.ts:67-107 | The checks run in order, and the first that fails decides: a missing path parameter gives 401, then a missing mandatory query parameter gives 401, then an unreadable or invalid body gives 400 with the failure text. Only a request that passes every check reaches the handler, with the validated body and the query. Its answer is then `Reply`'s, including the constructor's errors for a status it refuses. |
| Api.OptionalQueryPasses | src/api.ts:79-83 | A query parameter not declared as `'string'` never makes the route answer 401. |
| Api.UndeclaredQueryIgnored | src/api.ts:78-83 | Without declared query parameters, the query string is not read and never rejects a request. |
| ApiClient.BodyOf | src/api.client.ts:19-21 | There is no body exactly when there is no data. A `File` is sent as it is, and any other value as its JSON text. |
| ApiClient.FetchOptions | src/api.client.ts:16-29 | The method and body can be overridden by the rest of the options. The caller's headers are kept, and `Content-Type` defaults to the file's type or JSON. The abort fires after the timeout, 90000 ms by default. |
| ApiClient.CaughtText | src/api.client.ts:55 | A caught error's message, else its text, else `Unknown fetch error`; never empty. |
| ApiClient.FailureBase | src/api.client.ts:44-46 | On failure, the value is always an object: the parsed one if it was an object, `{}` otherwise. |
| ApiClient.Assign | src/api.client.ts:51-59 | Assigning a property sets that property of an object and leaves every other one unchanged. |
| ApiClient.MakeRequest | src/api.client.ts:10-65 | On success the parsed JSON comes back unchanged. On failure the result is an object whose `error` says what went wrong: a timeout; the caught error when the answer was 200; otherwise `Failed to <method> <url>` unless the server sent an `error` or the status is 204. In that last case `status` holds the response status. No other property changes. |
| ApiClient.ApiUrl | src/api.client.ts:74 | Without query parameters the URL is the path. With them it is the path, `?` and the encoded query. |
| ApiClient.QueryAfterFirstMark | src/api.client.ts:74 | For a path without `?`, the encoded query is exactly what follows the URL's first `?`. |
| ApiClient.FetchApi | src/api.client.ts:73-76 | `fetchApi` answers as `makeRequest` does for the built URL and the given options (or none), in every case: success, timeout, a caught error on status 200, and the other statuses with `Failed to <method> <url>` naming the built URL. |
| Extension.Popped | vscode-extension/src/extension.ts:39-42 | `pop` drops the last entry, if any, and keeps the others in order. |
| Extension.PopUndoesPush | vscode-extension/src/extension.ts:35-42 | Popping right after a push restores the history. |
| Extension.History.constructor | vscode-extension/src/extension.ts:27 | A new preview starts with an empty history. |
| Extension.History.Push | vscode-extension/src/extension.ts:35-38 | `pushHistory` appends the path. |
| Extension.History.Pop | vscode-extension/src/extension.ts:39-42 | `popHistory` removes the last entry, which was the most recent push; on an empty history it changes nothing. |
| Extension.ReadDir | vscode-extension/src/extension.ts:482-492 | An unreadable directory lists nothing. Otherwise there is one entry per item, and each path is the directory, `/` and the name. |
| Extension.Traverse | vscode-extension/src/extension.ts:499-509 | The recursive loop returns exactly the files `Files` describes: the directory's files, and its subdirectories' files in listing order. Other entry types are skipped. |
| Extension.UnreadableIsEmpty | vscode-extension/src/extension.ts:488-491 | Traversing an unreadable directory finds nothing. |
| Extension.FilesBelow | vscode-extension/src/extension.ts:499-509 | Every file found lies below the directory the traversal started from. |
| Extension.GatherHolds | vscode-extension/src/extension.ts:501-506 | A listed file is among the results, and so is every file below a listed subdirectory. |
| Extension.FilesIncludeListed | vscode-extension/src/extension.ts:499-509 | Every file in the directory, and everything found below each subdirectory, is found. |
| Extension.Filter | vscode-extension/src/extension.ts:515-525 | A path is kept exactly when the file-name pattern accepts it: `*suffix` by its ending, anything else by equality. |
| Common.Firsts | src/images.ts:71 | The keys of a list of entries, in order: the preset names for the 404 message, and a directory listing's paths in `vscode-extension/src/extension.ts:513`. |
| Extension.Rooted | vscode-extension/src/extension.ts:494 | The pattern always starts with `/`. |
| Extension.FindFiles | vscode-extension/src/extension.ts:468-526 | One URI per path found, in order, under the workspace's base path. |
| Extension.SlashAdded | vscode-extension/src/extension.ts:494 | A pattern without a leading `/` finds the same as with one. |
| Extension.TrailingSlashFindsNothing | vscode-extension/src/extension.ts:495-497 | A pattern ending in `/` has an empty file-name pattern and finds nothing. |
| Extension.RootedPieces | vscode-extension/src/extension.ts:494-495 | A rooted pattern splits back into its slash-free pieces. |
| Extension.RecursivePattern | vscode-extension/src/extension.ts:494-525 | `dir/**/*suffix` keeps, from every file below `dir`, exactly those ending with `suffix`, and all of them lie below `dir`. |
| Extension.ExactPattern | vscode-extension/src/extension.ts:511-525 | `dir/name` reads one listing filtered by equality with the bare `name`, and finds nothing. |
| Extension.NoPathIsAName | vscode-extension/src/extension.ts:487 | Every listed path is `dir/entry`, so none equals a name without `/`. |
| Extension.FilterNone | vscode-extension/src/extension.ts:524 | A filter that keeps none of the files returns nothing. |
| Extension.SameStaticFiles | vscode-extension/src/extension.ts:528-529 | The extension's static-file test is the generator's test, `src/generator.ts:151`. |
| Todo.Apply | examples/todo-list-server/models/todo.ts:17-22 | Each of `title` and `done` is replaced exactly when the update carries it; the `id` never changes. |
| Todo.ApplyIdempotent | examples/todo-list-server/models/todo.ts:17-22 | Applying the same update twice gives what applying it once gives. |
| Todo.ApplyNothing | examples/todo-list-server/models/todo.ts:17-22 | An update without fields leaves the todo as it was. |
| Todo.FirstWithId | examples/todo-list-server/models/todo.ts:15 | The position of the first todo with the id, and -1 exactly when there is none. |
| Todo.Updated | examples/todo-list-server/models/todo.ts:14-25 | Only the first todo with the id changes, by the update; ids and length are kept; an unknown id leaves the list unchanged. |
| Todo.UpdateAfterAdd | examples/todo-list-server/models/todo.ts:10-25 | Updating the id just added changes the new front todo and nothing behind it. |
| Todo.TodoStore.constructor | examples/todo-list-server/models/todo.ts:8 | The store starts empty. |
| Todo.TodoStore.AddTodo | examples/todo-list-server/models/todo.ts:10 | The todo is put in front of the others and the new length is returned. |
| Todo.TodoStore.FindTodos | examples/todo-list-server/models/todo.ts:12 | All todos, in stored order, with the store unchanged. |
| Todo.TodoStore.UpdateTodo | examples/todo-list-server/models/todo.ts:14-25 | The store becomes `Updated` of the old one; nothing is returned exactly when the id is unknown, otherwise the updated todo. |
| Todo.AsJson | examples/todo-list-server/routes/todo/index.server.ts:11-14 | The stored todo as a JSON object with exactly its three fields. |
| Todo.Post | examples/todo-list-server/routes/todo/index.server.ts:4-16 | A body that `req.json()` rejects throws that error with the store unchanged; a null body throws with the store unchanged; a missing or empty `id` or `title` gives 400 with the error text and the store unchanged; otherwise the todo goes in front and is echoed as JSON. |
| Todo.GetIgnoresOthers | examples/todo-list-server/routes/todo/index.server.ts:5 | Fields with other names added to the body do not change what is read for a field. |
| Todo.ExtraFieldsDropped | examples/todo-list-server/routes/todo/index.server.ts:5-11 | Fields other than `done`, `id` and `title` in the body do not reach the store. |
| Todo.EmptyTitleRefused | examples/todo-list-server/routes/todo/index.server.ts:6-10 | A body whose title is empty or missing fails the check that answers 400. |
| Numerals.ParseNatToString | src/node/serveFile.ts:90 | Reading back the digits `toString(radix)` writes gives the number again. |
| Numerals.Hex | src/node/serveFile.ts:90 | `size.toString(16)`: lower-case hexadecimal digits whose value is the size. |
| Js.KeyIndex | src/api.ts:73 | Where a property lives in an object, and -1 exactly when it is absent. |
| Js.SetProp | src/api.client.ts:51-59 | Setting a property changes that property and no other. |
| Js.FromEntriesLastWins | src/api.ts:78 | `Object.fromEntries`: every key present, and a key's value is its last entry's. |

## Left out

- Asynchrony: promises, `await` and streams are modelled as values that are already settled. A rejection is a thrown error (`Attempt`) where the model passes it on: `getRoutes()` and each route's module import (in `fetch` and in `generate`), `getStaticPaths`, `req.json()` in the todo route, route handlers, `fetch` and the image transformer. The order in which concurrent requests interleave is not modelled.
- I/O and the platform: `URLPattern` matching, directory listings, file stats and reads, SHA-256 digests, `Date` parsing, `tsBlankSpace`, `fetch`, `AbortController` and `setTimeout` are parameters of the functions that use them.
- URL parsing: the pathname `new URL(...)` yields is the parameter `pathnameOf` of the generator (percent-encoding, dropping a query or fragment and resolving dot segments happen inside it); `StaticFiles.ServeStaticFile` takes the request's pathname as already parsed, and the routers hand the whole URL to the `URLPattern` parameter.
- The image transformer (ImageMagick, through `@imagemagick/magick-wasm`, in `src/images.ts`) is the parameter `transform` of `Images.Serve` and `Images.Get`; its output is an opaque byte sequence, and a failure it throws is passed through.
- Html.Escape, Js.Truthy, Api.SuccessStatus: JavaScript numbers are modelled as integers, so fractional values, `NaN`, `Infinity`, `-Infinity` and `-0` (their string forms and their truthiness) are not modelled.
- Console output, `process.exit`, `ensureDir`, the command-line argument parsing of the generator and the writing of `.routes.json` are not modelled; `Generator.Generate` records the files it would write as a list instead of writing them.
- The Node adapter's writing of a `Response` to the socket and its `listen` call are not modelled; only the building of the `Request` is.
- Headers are a map with case-sensitive names; the case-insensitive lookup of the Fetch standard's `Headers` is not modelled.
- Strings are sequences of characters; JavaScript's UTF-16 code units and surrogate pairs are not distinguished.
- Property lookup on plain objects ignores inherited keys such as `toString` (an image preset or a path parameter with such a name is not modelled).
- Todo: objects are values, so `findTodos` returning the live array and callers mutating a todo through an alias are not modelled.
- Extension: the workspace is a finite map from folders to listings; the `vscode` API, the webview, the preview panel and its messaging are not modelled.
- Extension.ExactPattern: a pattern without a star compares the full path with the bare name at `vscode-extension/src/extension.ts:520`, so it finds nothing; the model keeps that behaviour as written.
- Images.ListedPathServed: stated only for presets whose format is WebP, and the answer depends on what the transformer returns for that file, because `getStaticPaths` lists every image with `.webp`, and a preset with another format answers 404 for the paths it lists.
- ApiClient.Assign: array values in the parsed JSON are not represented, and the abort `signal` that the caller's options could override is not modelled.
- ServeFile.ServeFile: cancelling the request body (`req.body?.cancel()`) on the 404 answers is not modelled.
- The message of a `TypeError` or `RangeError` thrown by the JavaScript engine (the `in` operator in `src/api.ts`, destructuring a null body in the todo route, the `Response` constructor refusing a status) is a fixed abbreviation, because its exact wording depends on the engine.
- Html: escaping is applied to every interpolated value in every position, as the code does; the code's behaviour is followed where prose descriptions of mastro differ.
- `src/markdown.ts`, the reactive client library, `src/fs.ts`, `src/init.ts`, `create-mastro` and the other example projects are not part of this model.
