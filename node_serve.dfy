/**
 * `src/node/serve.ts`: turning a `node:http` request into a web-standard `Request`:
 * the first value of a proxy header, the host with its port, the URL's protocol and
 * host by precedence, and the header list. Listening and writing the response to
 * the socket are outside the model, and so is URL parsing, which is a parameter.
 */
module NodeServe {
  import opened Common
  import opened Strings

  /** A header value as `node:http` gives it: one string, or one per occurrence. */
  datatype HeaderValue = One(s: string) | Many(items: seq<string>)

  /** `value.toString()`: an array's items joined by commas. */
  function Text(v: HeaderValue): string {
    match v
    case One(s) => s
    case Many(xs) => Join(xs, ",")
  }

  /** `${value}`: as `Text`, and `"undefined"` when absent. */
  function Interpolated(v: Option<HeaderValue>): string {
    if v.Some? then Text(v.value) else "undefined"
  }

  // ----- getFirstValue -----

  /**
   * `getFirstValue`: the text before the first comma, trimmed; `None` when the
   * header is absent.
   */
  function GetFirstValue(h: Option<HeaderValue>): (r: Option<string>)
    ensures r.None? <==> h.None?
    ensures h.Some? ==> var s := Text(h.value);
      r.value == Trim(if ',' in s then s[..IndexOf(s, ',')] else s)
    ensures r.Some? ==> ',' !in r.value
  {
    if h.None? then None
    else
      var s := Text(h.value);
      var first := Split(s, ',')[0];
      SplitHead(s, ',');
      TrimKeeps(first, ',');
      Some(Trim(first))
  }

  /** Trimming only removes characters. */
  lemma TrimKeeps(s: string, c: char)
    requires c !in s
    ensures c !in Trim(s)
  {
  }

  /** For a header sent several times, the first value is the first occurrence, trimmed. */
  lemma FirstOfMany(items: seq<string>)
    requires |items| >= 1 && ',' !in items[0]
    ensures GetFirstValue(Some(Many(items))) == Some(Trim(items[0]))
  {
    var s := Join(items, ",");
    if |items| == 1 {
      assert s == items[0];
    } else {
      assert s == items[0] + [','] + Join(items[1..], ",");
      assert s[..|items[0]|] == items[0];
      IndexOfAt(s, ',', |items[0]|);
    }
  }

  // ----- getHostnamePort -----

  /** The number of ASCII digits at the end of `s`. */
  function TrailingDigits(s: string): (n: nat)
    ensures n <= |s|
    ensures forall i :: |s| - n <= i < |s| ==> IsAsciiDigit(s[i])
    ensures n < |s| ==> !IsAsciiDigit(s[|s| - n - 1])
  {
    if s != [] && IsAsciiDigit(s[|s| - 1]) then TrailingDigits(s[..|s| - 1]) + 1 else 0
  }

  /** `/:\d+$/.test(s)`: the text ends with a colon and at least one digit. */
  predicate EndsWithPort(s: string) {
    var n := TrailingDigits(s);
    0 < n < |s| && s[|s| - n - 1] == ':'
  }

  /** The regular expression read directly: some colon is followed by digits only, up to the end. */
  lemma EndsWithPortMeans(s: string)
    ensures EndsWithPort(s) <==>
      exists i :: 0 <= i < |s| - 1 && s[i] == ':' && forall j :: i < j < |s| ==> IsAsciiDigit(s[j])
  {
    var n := TrailingDigits(s);
    if EndsWithPort(s) {
      var i := |s| - n - 1;
      assert s[i] == ':' && forall j :: i < j < |s| ==> IsAsciiDigit(s[j]);
    }
    if exists i :: 0 <= i < |s| - 1 && s[i] == ':' && forall j :: i < j < |s| ==> IsAsciiDigit(s[j]) {
      var i :| 0 <= i < |s| - 1 && s[i] == ':' && forall j :: i < j < |s| ==> IsAsciiDigit(s[j]);
      assert !IsAsciiDigit(s[i]);
      assert n == |s| - i - 1;
    }
  }

  /** A colon and a non-empty run of digits end in exactly that many trailing digits. */
  lemma {:induction false} TrailingDigitsOfPort(x: string, p: string)
    requires p != [] && forall j :: 0 <= j < |p| ==> IsAsciiDigit(p[j])
    ensures TrailingDigits(x + [':'] + p) == |p|
    decreases |p|
  {
    var s := x + [':'] + p;
    if |p| == 1 {
      assert s[..|s| - 1] == x + [':'];
    } else {
      assert s[..|s| - 1] == x + [':'] + p[..|p| - 1];
      TrailingDigitsOfPort(x, p[..|p| - 1]);
    }
  }

  /**
   * `getHostnamePort`: a host name that already ends with a port is kept; otherwise
   * `:port` is appended when a port is given.
   */
  function GetHostnamePort(hostname: Option<HeaderValue>, port: Option<string>): (r: string)
    ensures hostname.Some? && hostname.value.One? && EndsWithPort(hostname.value.s) ==> r == hostname.value.s
    ensures !(hostname.Some? && hostname.value.One? && EndsWithPort(hostname.value.s)) ==>
      r == Interpolated(hostname) + (if port.Some? && port.value != "" then ":" + port.value else "")
  {
    if hostname.Some? && hostname.value.One? && EndsWithPort(hostname.value.s) then hostname.value.s
    else Interpolated(hostname) + (if port.Some? && port.value != "" then ":" + port.value else "")
  }

  /** With a port in digits, the result always ends with a port, the host's own or the given one. */
  lemma HostnamePortHasPort(hostname: Option<HeaderValue>, port: string)
    requires port != "" && forall j :: 0 <= j < |port| ==> IsAsciiDigit(port[j])
    ensures EndsWithPort(GetHostnamePort(hostname, Some(port)))
  {
    if !(hostname.Some? && hostname.value.One? && EndsWithPort(hostname.value.s)) {
      var x := Interpolated(hostname);
      assert x + (":" + port) == x + [':'] + port;
      TrailingDigitsOfPort(x, port);
    }
  }

  // ----- getUrl -----

  /** The request's headers as `Object.entries(req.headers)` lists them, `None` for `undefined`. */
  type Entries = seq<(string, Option<HeaderValue>)>

  /** `req.headers[name]`: the value of the first entry by that name. */
  function Header(entries: Entries, name: string): (r: Option<HeaderValue>)
    ensures (forall i :: 0 <= i < |entries| ==> entries[i].0 != name) ==> r.None?
  {
    if entries == [] then None
    else if entries[0].0 == name then entries[0].1
    else Header(entries[1..], name)
  }

  /** `forwardedProtocol ?? providedProtocol`: the proxy's protocol wins over the socket's. */
  function Protocol(entries: Entries, encrypted: bool): (r: string)
    ensures Header(entries, "x-forwarded-proto").Some? ==>
      r == GetFirstValue(Header(entries, "x-forwarded-proto")).value
    ensures Header(entries, "x-forwarded-proto").None? ==> r == if encrypted then "https" else "http"
  {
    GetFirstValue(Header(entries, "x-forwarded-proto")).GetOr(if encrypted then "https" else "http")
  }

  /** `req.headers.host ?? req.headers[':authority']`. */
  function ProvidedHostname(entries: Entries): Option<HeaderValue> {
    if Header(entries, "host").Some? then Header(entries, "host") else Header(entries, ":authority")
  }

  /** `forwardedHostname ?? providedHostname`: the proxy's host, then `Host`, then `:authority`. */
  function Hostname(entries: Entries): (r: Option<HeaderValue>)
    ensures Header(entries, "x-forwarded-host").Some? ==>
      r == Some(One(GetFirstValue(Header(entries, "x-forwarded-host")).value))
    ensures Header(entries, "x-forwarded-host").None? && Header(entries, "host").Some? ==> r == Header(entries, "host")
    ensures Header(entries, "x-forwarded-host").None? && Header(entries, "host").None? ==> r == Header(entries, ":authority")
  {
    var forwarded := GetFirstValue(Header(entries, "x-forwarded-host"));
    if forwarded.Some? then Some(One(forwarded.value)) else ProvidedHostname(entries)
  }

  /** The text `getUrl` parses first. */
  function UrlText(entries: Entries, encrypted: bool, path: string): string {
    Protocol(entries, encrypted) + "://"
    + GetHostnamePort(Hostname(entries), GetFirstValue(Header(entries, "x-forwarded-port"))) + path
  }

  /** The text `getUrl` falls back to: the socket's protocol and the request's own host, no path. */
  function FallbackText(entries: Entries, encrypted: bool): string {
    (if encrypted then "https" else "http") + "://"
    + GetHostnamePort(ProvidedHostname(entries), GetFirstValue(Header(entries, "x-forwarded-port")))
  }

  /**
   * `getUrl`: `parse` stands for `new URL(text)`, `None` when it throws; a `None`
   * result is the fallback throwing too.
   */
  function GetUrl(entries: Entries, encrypted: bool, path: string, parse: string -> Option<string>): (r: Option<string>)
    ensures parse(UrlText(entries, encrypted, path)).Some? ==> r == parse(UrlText(entries, encrypted, path))
    ensures parse(UrlText(entries, encrypted, path)).None? ==> r == parse(FallbackText(entries, encrypted))
  {
    var url := parse(UrlText(entries, encrypted, path));
    if url.Some? then url else parse(FallbackText(entries, encrypted))
  }

  /** Without proxy headers the URL is built from the socket's protocol and the `Host` header. */
  lemma NoProxyHeaders(entries: Entries, encrypted: bool, path: string, host: string)
    requires forall i :: 0 <= i < |entries| ==>
      entries[i].0 != "x-forwarded-proto" && entries[i].0 != "x-forwarded-host" && entries[i].0 != "x-forwarded-port"
    requires Header(entries, "host") == Some(One(host))
    ensures UrlText(entries, encrypted, path) == (if encrypted then "https" else "http") + "://" + GetHostnamePort(Some(One(host)), None) + path
  {
  }

  // ----- makeRequestHeaders and createRequest -----

  /** The values one entry appends. */
  function Items(v: HeaderValue): seq<string> {
    match v
    case One(s) => [s]
    case Many(xs) => xs
  }

  /** `(name, item)` for each item. */
  function Pairs(name: string, items: seq<string>): (r: seq<(string, string)>)
    ensures |r| == |items| && forall j :: 0 <= j < |items| ==> r[j] == (name, items[j])
  {
    seq(|items|, j requires 0 <= j < |items| => (name, items[j]))
  }

  /** The appended headers, entry by entry: none for `undefined`, one per item for an array. */
  function HeaderPairs(entries: Entries): seq<(string, string)> {
    if entries == [] then []
    else
      var last := entries[|entries| - 1];
      HeaderPairs(entries[..|entries| - 1]) + (if last.1.Some? then Pairs(last.0, Items(last.1.value)) else [])
  }

  /** A pair is appended exactly when some entry of that name, not `undefined`, carries that item. */
  lemma {:induction false} HeaderPairsHolds(entries: Entries, name: string, item: string)
    ensures (name, item) in HeaderPairs(entries) <==>
      exists i :: 0 <= i < |entries| && entries[i].0 == name && entries[i].1.Some? && item in Items(entries[i].1.value)
  {
    if entries != [] {
      var init, last := entries[..|entries| - 1], entries[|entries| - 1];
      HeaderPairsHolds(init, name, item);
      if last.1.Some? {
        PairsHold(last.0, Items(last.1.value), name, item);
      }
      if exists i :: 0 <= i < |entries| && entries[i].0 == name && entries[i].1.Some? && item in Items(entries[i].1.value) {
        var i :| 0 <= i < |entries| && entries[i].0 == name && entries[i].1.Some? && item in Items(entries[i].1.value);
        if i < |init| {
          assert init[i] == entries[i];
        }
      }
    }
  }

  lemma PairsHold(n: string, items: seq<string>, name: string, item: string)
    ensures (name, item) in Pairs(n, items) <==> n == name && item in items
  {
    var ps := Pairs(n, items);
    if (name, item) in ps {
      var j :| 0 <= j < |ps| && ps[j] == (name, item);
      assert items[j] == item;
    }
    if n == name && item in items {
      var j :| 0 <= j < |items| && items[j] == item;
      assert ps[j] == (name, item);
    }
  }

  /** `makeRequestHeaders`: every value appended under its name, an array's items one by one, in order. */
  method MakeRequestHeaders(entries: Entries) returns (headers: seq<(string, string)>)
    ensures headers == HeaderPairs(entries)
  {
    headers := [];
    var i := 0;
    while i < |entries|
      invariant 0 <= i <= |entries|
      invariant headers == HeaderPairs(entries[..i])
    {
      var name := entries[i].0;
      var value := entries[i].1;
      assert entries[..i + 1][..i] == entries[..i];
      if value.Some? {
        match value.value {
          case Many(items) =>
            var k := 0;
            while k < |items|
              invariant 0 <= k <= |items|
              invariant headers == HeaderPairs(entries[..i]) + Pairs(name, items[..k])
            {
              assert Pairs(name, items[..k + 1]) == Pairs(name, items[..k]) + [(name, items[k])];
              headers := headers + [(name, items[k])];
              k := k + 1;
            }
            assert items[..k] == items;
          case One(s) =>
            headers := headers + [(name, s)];
        }
      }
      i := i + 1;
    }
    assert entries[..i] == entries;
  }

  /** The `Request` built: method, URL, headers, and whether the incoming body is streamed into it. */
  datatype Request = Request(verb: string, url: string, headers: seq<(string, string)>, streamsBody: bool)

  /**
   * `createRequest`: the method defaults to GET, and only a method other than GET
   * and HEAD gets the incoming body; `None` when building the URL throws.
   */
  method CreateRequest(verb: Option<string>, entries: Entries, encrypted: bool, path: string,
                       parse: string -> Option<string>) returns (r: Option<Request>)
    ensures r.None? <==> GetUrl(entries, encrypted, path, parse).None?
    ensures r.Some? ==>
      r.value.verb == (if verb.Some? && verb.value != "" then verb.value else "GET")
      && r.value.url == GetUrl(entries, encrypted, path, parse).value
      && r.value.headers == HeaderPairs(entries)
      && (r.value.streamsBody <==> r.value.verb != "HEAD" && r.value.verb != "GET")
  {
    var chosen := if verb.Some? && verb.value != "" then verb.value else "GET";
    var headers := MakeRequestHeaders(entries);
    var url := GetUrl(entries, encrypted, path, parse);
    if url.None? {
      return None;
    }
    r := Some(Request(chosen, url.value, headers, chosen != "HEAD" && chosen != "GET"));
  }
}
