/**
 * `src/node/serveFile.ts`: serving one file from disk for a GET or HEAD request,
 * with the conditional requests of RFC 9110: `If-None-Match` by weak comparison of
 * entity tags (sections 13.1.2 and 8.8.3.2) and `If-Modified-Since` (section 13.1.3).
 * The `stat` result, the SHA-256 digest, the media type table and date parsing
 * come in as parameters.
 */
module ServeFile {
  import opened Common
  import opened Strings
  import Numerals
  import Responses

  /** The parts of a request `serveFile` reads. */
  datatype Request = Request(verb: string, headers: map<string, string>)

  /** `req.headers.get(name)`, `null` being `None`. */
  function Header(req: Request, name: string): Option<string> {
    if name in req.headers then Some(req.headers[name]) else None
  }

  /** A modification time: milliseconds since the epoch, and what `toUTCString` and `toJSON` write for it. */
  datatype Mtime = Mtime(ms: int, utc: string, json: string)

  /** What `fs.stat` gives: an error, a directory, or a file with its size and modification time. */
  datatype Stat = Failed(error: JsError) | Directory | File(size: nat, mtime: Option<Mtime>)

  /**
   * `newResponse(status)`: the text `HTTP <status>` as a plain-text response, or what
   * the constructor throws for a status it does not accept with a body.
   */
  function NewResponse(status: int): (r: Attempt<Responses.Response>)
    ensures r.Ok? <==> Responses.AcceptsBody(status)
    ensures r.Ok? ==> r.value.status == status && r.value.headers == map["Content-Type" := Responses.TextPlainType]
    ensures r.Ok? ==> r.value.body == Responses.Text("HTTP " + Numerals.IntToString(status))
  {
    Responses.Construct(Responses.Text("HTTP " + Numerals.IntToString(status)), status, map[])
  }

  // ----- entity tags -----

  /**
   * `eTag`: the size in hexadecimal and the first 27 characters of the base64 text
   * of the SHA-256 digest of the modification time, `digest` standing for that text.
   */
  function ETag(size: nat, digest: string): (e: string)
    ensures |e| >= 3 && e[0] == '"' && e[|e| - 1] == '"'
    ensures var hex := Numerals.Hex(size);
      |e| >= |hex| + 3 && e[1..|hex| + 1] == hex && e[|hex| + 1] == '-' && Numerals.ParseNat(e[1..|hex| + 1], 16) == size
  {
    "\"" + Numerals.Hex(size) + "-" + Substring(digest, 0, 27) + "\""
  }

  /** A tag without its weakness indicator `W/`. */
  function StripWeak(tag: string): (r: string)
    ensures StartsWith(tag, "W/") ==> tag == "W/" + r
    ensures !StartsWith(tag, "W/") ==> r == tag
  {
    if StartsWith(tag, "W/") then tag[2..] else tag
  }

  /**
   * `value.split(/\s*,\s* /)`: split at the commas, white space around each comma
   * going with it (white space at the very start and end stays).
   */
  function Tags(value: string): (tags: seq<string>)
    ensures |tags| == Count(value, ',') + 1
  {
    var pieces := Split(value, ',');
    SplitCount(value, ',');
    seq(|pieces|, i requires 0 <= i < |pieces| =>
      var p := if i > 0 then TrimStart(pieces[i]) else pieces[i];
      if i < |pieces| - 1 then TrimEnd(p) else p)
  }

  /**
   * `ifNoneMatch`: whether the `If-None-Match` condition holds, i.e. the file
   * is to be sent. An absent or empty header or tag always lets it through, `*` never
   * does, and otherwise it is sent only when no listed tag weakly matches.
   */
  function IfNoneMatch(value: Option<string>, etag: Option<string>): (send: bool)
    ensures value.None? || value.value == "" || etag.None? || etag.value == "" ==> send
    ensures value.Some? && value.value != "" && etag.Some? && etag.value != "" ==>
      (Trim(value.value) == "*" ==> !send)
      && (Trim(value.value) != "*" ==>
            (send <==> forall t :: t in Tags(value.value) ==> StripWeak(t) != StripWeak(etag.value)))
  {
    if value.None? || value.value == "" || etag.None? || etag.value == "" then true
    else if Trim(value.value) == "*" then false
    else
      var tags := Tags(value.value);
      !(exists i :: 0 <= i < |tags| && StripWeak(tags[i]) == StripWeak(etag.value))
  }

  /** A string with no white space at either end is its own trimmed form. */
  lemma TrimmedAlready(s: string)
    requires s == [] || (!IsJsWhitespace(s[0]) && !IsJsWhitespace(s[|s| - 1]))
    ensures TrimStart(s) == s && TrimEnd(s) == s && Trim(s) == s
  {
  }

  /** Tags without commas and without white space at either end are listed back as they are. */
  lemma TagsOfList(tags: seq<string>)
    requires |tags| >= 1
    requires forall i :: 0 <= i < |tags| ==> ',' !in tags[i]
    requires forall i :: 0 <= i < |tags| ==>
      tags[i] == [] || (!IsJsWhitespace(tags[i][0]) && !IsJsWhitespace(tags[i][|tags[i]| - 1]))
    ensures Tags(Join(tags, ",")) == tags
  {
    SplitJoin(tags, ',');
    var t := Tags(Join(tags, ","));
    forall i | 0 <= i < |tags| ensures t[i] == tags[i] {
      TrimmedAlready(tags[i]);
    }
  }

  /**
   * A comma-separated list of entity tags: the file is sent only when none of them
   * weakly matches its own tag.
   */
  lemma IfNoneMatchOfList(tags: seq<string>, etag: string)
    requires |tags| >= 1 && etag != ""
    requires forall i :: 0 <= i < |tags| ==> ',' !in tags[i]
    requires forall i :: 0 <= i < |tags| ==>
      tags[i] == [] || (!IsJsWhitespace(tags[i][0]) && !IsJsWhitespace(tags[i][|tags[i]| - 1]))
    requires Join(tags, ",") != "" && Trim(Join(tags, ",")) != "*"
    ensures IfNoneMatch(Some(Join(tags, ",")), Some(etag)) <==> forall i :: 0 <= i < |tags| ==> StripWeak(tags[i]) != StripWeak(etag)
  {
    TagsOfList(tags);
  }

  /** Weak comparison: a tag matches itself whether or not either side is marked weak. */
  lemma WeakMatch(tag: string, weakHeader: bool, weakTag: bool)
    requires !StartsWith(tag, "W/")
    ensures StripWeak((if weakHeader then "W/" else "") + tag) == StripWeak((if weakTag then "W/" else "") + tag)
  {
    StartsWithAppend("W/", tag);
    assert ("W/" + tag)[2..] == tag;
  }

  // ----- serving -----

  /** `fileInfo.mtime && ifModifiedSince && mtime < new Date(ifModifiedSince) + 1000`; `parseDate` is `Date`'s parser. */
  predicate ModifiedBefore(mtime: Option<Mtime>, ifModifiedSince: Option<string>, parseDate: string -> Option<int>) {
    mtime.Some? && ifModifiedSince.Some? && ifModifiedSince.value != ""
    && parseDate(ifModifiedSince.value).Some?
    && mtime.value.ms < parseDate(ifModifiedSince.value).value + 1000
  }

  /** The condition for 304: a weakly matching tag, or no `If-None-Match` and a file not modified since. */
  predicate NotModified(req: Request, mtime: Option<Mtime>, etag: Option<string>, parseDate: string -> Option<int>) {
    !IfNoneMatch(Header(req, "If-None-Match"), etag)
    || (Header(req, "If-None-Match").None? && ModifiedBefore(mtime, Header(req, "If-Modified-Since"), parseDate))
  }

  /** The entity tag of a file, present when its modification time is. */
  function FileTag(size: nat, mtime: Option<Mtime>, digest: string -> string): (etag: Option<string>)
    ensures etag.Some? <==> mtime.Some?
  {
    if mtime.Some? then Some(ETag(size, digest(mtime.value.json))) else None
  }

  /** The headers set before the method decides: `Last-Modified`, `ETag` and `Content-Type`, each when known. */
  function FileHeaders(size: nat, mtime: Option<Mtime>, digest: string -> string, contentType: Option<string>): (h: Responses.Headers)
    ensures "Last-Modified" in h <==> mtime.Some?
    ensures "ETag" in h <==> mtime.Some?
    ensures "Content-Type" in h <==> contentType.Some? && contentType.value != ""
    ensures "Content-Length" !in h
  {
    var h1: Responses.Headers := if mtime.Some? then map["Last-Modified" := mtime.value.utc] else map[];
    var h2 := if mtime.Some? then h1["ETag" := FileTag(size, mtime, digest).value] else h1;
    if contentType.Some? && contentType.value != "" then h2["Content-Type" := contentType.value] else h2
  }

  /**
   * `serveFile`: 405 for anything but GET and HEAD, 404 for a missing file or a
   * directory, then the headers, then HEAD, 304 or the file itself.
   */
  method ServeFile(req: Request, filePath: string, stat: Stat, digest: string -> string,
                   contentType: Option<string>, parseDate: string -> Option<int>) returns (r: Attempt<Responses.Response>)
    ensures req.verb != "GET" && req.verb != "HEAD" ==> r == NewResponse(405)
    ensures (req.verb == "GET" || req.verb == "HEAD") && stat.Failed? ==>
      r == if stat.error.code == "ENOENT" then NewResponse(404) else Threw(stat.error)
    ensures (req.verb == "GET" || req.verb == "HEAD") && stat.Directory? ==> r == NewResponse(404)
    ensures (req.verb == "GET" || req.verb == "HEAD") && stat.File? ==>
      var headers := FileHeaders(stat.size, stat.mtime, digest, contentType);
      var length := Numerals.NatToString(stat.size, 10);
      var etag := FileTag(stat.size, stat.mtime, digest);
      if req.verb == "HEAD" then
        r == Ok(Responses.Response(200, headers["Content-Length" := length], Responses.NoBody))
      else if NotModified(req, stat.mtime, etag, parseDate) then
        r == Ok(Responses.Response(304, headers, Responses.NoBody))
      else
        r == Ok(Responses.Response(200, headers["Content-Length" := length], Responses.FileContents(filePath)))
  {
    if req.verb != "GET" && req.verb != "HEAD" {
      return NewResponse(405);
    }
    if stat.Failed? {
      if stat.error.code == "ENOENT" {
        return NewResponse(404);
      }
      return Threw(stat.error);
    }
    if stat.Directory? {
      return NewResponse(404);
    }
    var headers: Responses.Headers := map[];
    if stat.mtime.Some? {
      headers := headers["Last-Modified" := stat.mtime.value.utc];
    }
    var etag := if stat.mtime.Some? then Some(ETag(stat.size, digest(stat.mtime.value.json))) else None;
    if etag.Some? && etag.value != "" {
      headers := headers["ETag" := etag.value];
    }
    if contentType.Some? && contentType.value != "" {
      headers := headers["Content-Type" := contentType.value];
    }
    var fileSize := stat.size;
    if req.verb == "HEAD" {
      headers := headers["Content-Length" := Numerals.NatToString(fileSize, 10)];
      return Ok(Responses.Response(200, headers, Responses.NoBody));
    }
    if etag.Some? || stat.mtime.Some? {
      var ifNoneMatchValue := Header(req, "If-None-Match");
      var ifModifiedSinceValue := Header(req, "If-Modified-Since");
      if !IfNoneMatch(ifNoneMatchValue, etag)
         || (ifNoneMatchValue.None? && ModifiedBefore(stat.mtime, ifModifiedSinceValue, parseDate)) {
        return Ok(Responses.Response(304, headers, Responses.NoBody));
      }
    }
    headers := headers["Content-Length" := Numerals.NatToString(fileSize, 10)];
    r := Ok(Responses.Response(200, headers, Responses.FileContents(filePath)));
  }

  /** A header holding one tag, with no white space around it: the file is sent unless that tag weakly matches. */
  lemma SingleTag(v: string, etag: string)
    requires v != "" && v != "*" && etag != "" && ',' !in v
    requires !IsJsWhitespace(v[0]) && !IsJsWhitespace(v[|v| - 1])
    ensures IfNoneMatch(Some(v), Some(etag)) <==> StripWeak(v) != StripWeak(etag)
  {
    SplitWithout(v, ',');
    TrimmedAlready(v);
    assert Tags(v) == [v];
  }

  /** A quoted tag without commas, marked weak or not, is a one-tag header that weakly matches the tag. */
  lemma QuotedTagHeader(e: string, weak: bool)
    requires |e| >= 2 && e[0] == '"' && e[|e| - 1] == '"' && ',' !in e
    ensures var v := (if weak then "W/" else "") + e;
      ',' !in v && v != "" && v != "*" && StripWeak(v) == StripWeak(e)
      && !IsJsWhitespace(v[0]) && !IsJsWhitespace(v[|v| - 1])
  {
    var v := (if weak then "W/" else "") + e;
    assert v[|v| - 1] == '"';
    assert !StartsWith(e, "W/");
    if weak {
      assert v[0] == 'W' && v[1] == '/' && v[2..] == e;
    }
  }

  /** Sending the file's own tag back, weak or not, gives 304 to a GET. */
  lemma OwnTagIsNotModified(req: Request, size: nat, mtime: Mtime, digest: string -> string, parseDate: string -> Option<int>, weak: bool)
    requires ',' !in ETag(size, digest(mtime.json))
    requires Header(req, "If-None-Match") == Some((if weak then "W/" else "") + ETag(size, digest(mtime.json)))
    ensures NotModified(req, Some(mtime), FileTag(size, Some(mtime), digest), parseDate)
  {
    var e := ETag(size, digest(mtime.json));
    QuotedTagHeader(e, weak);
    SingleTag((if weak then "W/" else "") + e, e);
  }

  /** Without `If-None-Match`, a file modified less than a second after the given date gives 304, and only then. */
  lemma ModifiedSinceDecides(req: Request, mtime: Mtime, ims: string, etag: Option<string>, parseDate: string -> Option<int>)
    requires Header(req, "If-None-Match").None? && Header(req, "If-Modified-Since") == Some(ims)
    requires ims != "" && parseDate(ims).Some?
    ensures NotModified(req, Some(mtime), etag, parseDate) <==> mtime.ms < parseDate(ims).value + 1000
  {
  }
}
