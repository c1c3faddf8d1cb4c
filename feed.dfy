/**
 * `src/feed.ts`: an Atom feed (RFC 4287, sections 4.1.1 and 4.1.2) built with the
 * `html` template engine and sent as `application/atom+xml`. URLs appear as the
 * text `toString` gives and dates as the text `toISOString` gives.
 */
module Feed {
  import opened Common
  import opened Strings
  import opened Html
  import Responses

  datatype Author = Author(email: Option<string>, name: string, uri: Option<string>)

  datatype Entry = Entry(
    author: Option<Author>,
    content: Option<Html>,
    id: string,
    link: Option<string>,
    summary: Option<string>,
    title: string,
    updated: string)

  datatype AtomFeed = AtomFeed(
    author: Option<Author>,
    entries: seq<Entry>,
    linkSelf: Option<string>,
    linkWebsite: Option<string>,
    icon: Option<string>,
    id: string,
    logo: Option<string>,
    subtitle: Option<string>,
    title: string,
    updated: string)

  /** An optional string field is truthy when present and not empty. */
  predicate Given(s: Option<string>) {
    s.Some? && s.value != ""
  }

  /** An optional `Html` field is truthy: not an empty string, zero, `undefined` or `null`. */
  predicate GivenHtml(n: Option<Html>) {
    n.Some? && match n.value
      case Str(s) => s != ""
      case Num(k) => k != 0
      case Null => false
      case _ => true
  }

  /** `` html`…` ``: the template's node list as one node. */
  function Node(strings: seq<string>, params: seq<Html>): Html {
    Seq(Template(strings, params))
  }

  /** `cond ? node : ""`. */
  function Maybe(cond: bool, node: Html): Html {
    if cond then node else Str("")
  }

  // ----- the literal parts of the templates -----

  const F0 := "<?xml version=\"1.0\" encoding=\"utf-8\"?>\n    <feed xmlns=\"http://www.w3.org/2005/Atom\">\n      <title>"
  const F1 := "</title>\n      "
  const Gap := "\n      "
  const F4 := "\n      <updated>"
  const F5 := "</updated>\n      "
  const F6 := "\n      <id>"
  const F7 := "</id>\n      "
  const F10 := "\n    </feed>\n  "

  const A0 := "\n    <author>\n      <name>"
  const A1 := "</name>\n      "
  const A3 := "\n    </author>\n  "

  const E0 := "\n    <entry>\n      <id>"
  const E1 := "</id>\n      <title>"
  const E2 := "</title>\n      <updated>"
  const E7 := "\n    </entry>\n  "

  const LinkSelf := "<link rel=\"self\" href="
  const LinkAlternate := "<link rel=\"alternate\" href="
  const LinkEnd := " />"
  const ContentOpen := "<content type=\"html\">"

  const AuthorStrings := [A0, A1, Gap, A3]
  const EntryStrings := [E0, E1, E2, F5, Gap, Gap, Gap, E7]
  const FeedStrings := [F0, F1, Gap, Gap, F4, F5, F6, F7, Gap, Gap, F10]

  // ----- the templates -----

  /** `` value ? html`<open>${value}</close>` : "" ``: an element written only when its value is given. */
  function OptionalElement(given: bool, open: string, close: string, value: string): Html {
    Maybe(given, Node([open, close], [Str(value)]))
  }

  /** `` url ? html`<link rel=… href=${url.toString()} />` : "" ``. */
  function OptionalLink(given: bool, open: string, url: string): Html {
    Maybe(given, Node([open, LinkEnd], [Str(url)]))
  }

  function AuthorParams(a: Author): seq<Html> {
    [ Str(a.name),
      OptionalElement(Given(a.email), "<email>", "</email>", a.email.GetOr("")),
      OptionalElement(a.uri.Some?, "<uri>", "</uri>", a.uri.GetOr(""))]
  }

  /** `renderAuthor`. */
  function AuthorNode(a: Author): Html {
    Node(AuthorStrings, AuthorParams(a))
  }

  /** `author ? renderAuthor(author) : ""`. */
  function OptionalAuthor(author: Option<Author>): Html {
    if author.Some? then AuthorNode(author.value) else Str("")
  }

  /**
   * `` content ? html`<content type="html">${renderToString(content)}</content>` : "" ``:
   * the promise of the content's text is awaited in place, and that text is escaped.
   */
  function OptionalContent(content: Option<Html>): Html {
    Maybe(GivenHtml(content), Node([ContentOpen, "</content>"], [Deferred(Str(RenderToString(content.GetOr(Null))))]))
  }

  /** The `html` parameters of `renderEntry`. */
  function EntryParams(e: Entry): seq<Html> {
    [ Str(e.id),
      Str(e.title),
      Str(e.updated),
      OptionalAuthor(e.author),
      OptionalLink(e.link.Some?, LinkAlternate, e.link.GetOr("")),
      OptionalElement(Given(e.summary), "<summary>", "</summary>", e.summary.GetOr("")),
      OptionalContent(e.content)]
  }

  /** `renderEntry`. */
  function EntryNode(e: Entry): Html {
    Node(EntryStrings, EntryParams(e))
  }

  /** `feed.entries.map(renderEntry)`. */
  function EntryNodes(entries: seq<Entry>): (r: seq<Html>)
    ensures |r| == |entries| && forall i :: 0 <= i < |r| ==> r[i] == EntryNode(entries[i])
  {
    seq(|entries|, i requires 0 <= i < |entries| => EntryNode(entries[i]))
  }

  /** The `html` parameters of `atomResponse`. */
  function FeedParams(f: AtomFeed): seq<Html> {
    [ Str(f.title),
      OptionalElement(Given(f.subtitle), "<subtitle>", "</subtitle>", f.subtitle.GetOr("")),
      OptionalLink(f.linkSelf.Some?, LinkSelf, f.linkSelf.GetOr("")),
      OptionalLink(f.linkWebsite.Some?, LinkAlternate, f.linkWebsite.GetOr("")),
      Str(f.updated),
      OptionalAuthor(f.author),
      Str(f.id),
      OptionalElement(f.icon.Some?, "<icon>", "</icon>", f.icon.GetOr("")),
      OptionalElement(f.logo.Some?, "<logo>", "</logo>", f.logo.GetOr("")),
      Seq(EntryNodes(f.entries))]
  }

  function FeedNode(f: AtomFeed): Html {
    Node(FeedStrings, FeedParams(f))
  }

  /** `atomResponse`: the node's stream, with the media type replaced by Atom's. */
  function AtomResponse(f: AtomFeed): (r: Responses.Response)
    ensures r.status == 200 && r.headers == map["Content-Type" := "application/atom+xml"]
    ensures r.body.Streamed? && Concat(r.body.chunks) == FeedText(f)
  {
    var res := Responses.HtmlToResponse(FeedNode(f));
    StreamsFeedText(f, res);
    AtomHeaders(res.headers);
    AsAtom(res)
  }

  lemma AtomHeaders(h: Responses.Headers)
    requires h == map["Content-Type" := Responses.HtmlType]
    ensures h["Content-Type" := "application/atom+xml"] == map["Content-Type" := "application/atom+xml"]
  {
  }

  lemma StreamsFeedText(f: AtomFeed, res: Responses.Response)
    requires res == Responses.HtmlToResponse(FeedNode(f))
    ensures res.body.Streamed? && Concat(res.body.chunks) == FeedText(f)
  {
    FeedRenders(f);
  }

  /** The response with its media type replaced by Atom's, all else kept. */
  function AsAtom(res: Responses.Response): (r: Responses.Response)
    ensures r.status == res.status && r.body == res.body
    ensures r.headers == res.headers["Content-Type" := "application/atom+xml"]
  {
    res.(headers := res.headers["Content-Type" := "application/atom+xml"])
  }

  // ----- the text of a feed, written out -----

  function Esc(s: string): string {
    EscapeForAttribute(s)
  }

  /** The text of an optional part: nothing when absent. */
  function Optional(present: bool, text: string): string {
    if present then text else ""
  }

  function AuthorText(a: Author): string {
    A0 + Esc(a.name) + A1
    + Optional(Given(a.email), "<email>" + Esc(a.email.GetOr("")) + "</email>") + Gap
    + Optional(a.uri.Some?, "<uri>" + Esc(a.uri.GetOr("")) + "</uri>") + A3
  }

  function OptionalAuthorText(author: Option<Author>): string {
    Optional(author.Some?, AuthorText(author.GetOr(Author(None, "", None))))
  }

  function EntryText(e: Entry): string {
    E0 + Esc(e.id) + E1 + Esc(e.title) + E2 + Esc(e.updated) + F5
    + OptionalAuthorText(e.author) + Gap
    + Optional(e.link.Some?, LinkAlternate + "\"" + Esc(e.link.GetOr("")) + "\"" + LinkEnd) + Gap
    + Optional(Given(e.summary), "<summary>" + Esc(e.summary.GetOr("")) + "</summary>") + Gap
    + Optional(GivenHtml(e.content), ContentOpen + Esc(RenderToString(e.content.GetOr(Null))) + "</content>") + E7
  }

  function EntriesText(entries: seq<Entry>): string {
    if entries == [] then "" else EntryText(entries[0]) + EntriesText(entries[1..])
  }

  /**
   * The whole feed: the metadata, each optional element only when given, the
   * entries in order, all inside `<feed>`; every interpolated value escaped, link
   * targets quoted, and entry content escaped a second time.
   */
  function FeedText(f: AtomFeed): string {
    F0 + Esc(f.title) + F1
    + Optional(Given(f.subtitle), "<subtitle>" + Esc(f.subtitle.GetOr("")) + "</subtitle>") + Gap
    + Optional(f.linkSelf.Some?, LinkSelf + "\"" + Esc(f.linkSelf.GetOr("")) + "\"" + LinkEnd) + Gap
    + Optional(f.linkWebsite.Some?, LinkAlternate + "\"" + Esc(f.linkWebsite.GetOr("")) + "\"" + LinkEnd) + F4
    + Esc(f.updated) + F5
    + OptionalAuthorText(f.author) + F6
    + Esc(f.id) + F7
    + Optional(f.icon.Some?, "<icon>" + Esc(f.icon.GetOr("")) + "</icon>") + Gap
    + Optional(f.logo.Some?, "<logo>" + Esc(f.logo.GetOr("")) + "</logo>") + Gap
    + EntriesText(f.entries) + F10
  }

  // ----- the small templates render to their text -----

  /** `` html`<x>${p}</x>` `` renders as the two literals around the rendered parameter. */
  lemma ElementRenders(open: string, close: string, p: Html)
    requires !EndsWith(open, "=") && !EndsWith(close, "=")
    ensures RenderToString(Node([open, close], [p])) == open + RenderToString(p) + close
  {
    OneParameter(open, close, p);
  }

  /** A value after a literal that opens one tag and ends in `=` is quoted. */
  lemma AttributeRenders(open: string, close: string, u: string)
    requires Count(open, '<') == Count(open, '>') + 1 && EndsWith(open, "=")
    requires !EndsWith(close, "=")
    ensures RenderToString(Node([open, close], [Str(u)])) == open + "\"" + Esc(u) + "\"" + close
  {
    OneParameter(open, close, Str(u));
    RenderPrimitives(u);
    AppendAssoc(open, "\"" + Esc(u), "\"");
    AppendAssoc(open, "\"", Esc(u));
  }

  /** Both link literals open one tag: a `<` first, and no other `<` and no `>` after it. */
  lemma OpensOneTag(open: string)
    requires open == LinkSelf || open == LinkAlternate
    ensures Count(open, '<') == Count(open, '>') + 1 && EndsWith(open, "=")
  {
    CountToSkip(open, '<', 1, |open|);
    CountToSkip(open, '>', 0, |open|);
  }

  /** `Maybe` renders as the node when the condition holds and as nothing otherwise. */
  lemma MaybeRenders(cond: bool, node: Html)
    ensures RenderToString(Maybe(cond, node)) == Optional(cond, RenderToString(node))
  {
    RenderPrimitives("");
  }

  lemma OptionalElementRenders(given: bool, open: string, close: string, value: string)
    requires !EndsWith(open, "=") && !EndsWith(close, "=")
    ensures RenderToString(OptionalElement(given, open, close, value)) == Optional(given, open + Esc(value) + close)
  {
    ElementRenders(open, close, Str(value));
    RenderPrimitives(value);
    MaybeRenders(given, Node([open, close], [Str(value)]));
  }

  /** An optional link renders with its target escaped and between double quotes. */
  lemma OptionalLinkRenders(given: bool, open: string, url: string)
    requires open == LinkSelf || open == LinkAlternate
    ensures RenderToString(OptionalLink(given, open, url))
      == Optional(given, open + "\"" + Esc(url) + "\"" + LinkEnd)
  {
    OpensOneTag(open);
    AttributeRenders(open, LinkEnd, url);
    MaybeRenders(given, Node([open, LinkEnd], [Str(url)]));
  }

  /** Entry content appears as the escaped text of the rendered content. */
  lemma OptionalContentRenders(content: Option<Html>)
    ensures RenderToString(OptionalContent(content))
      == Optional(GivenHtml(content), ContentOpen + Esc(RenderToString(content.GetOr(Null))) + "</content>")
  {
    var text := RenderToString(content.GetOr(Null));
    ElementRenders(ContentOpen, "</content>", Deferred(Str(text)));
    RenderPrimitives(text);
    assert Chunks(Deferred(Str(text))) == [Esc(text)];
    assert Concat([Esc(text)]) == Esc(text) + Concat([]);
    MaybeRenders(GivenHtml(content), Node([ContentOpen, "</content>"], [Deferred(Str(text))]));
  }

  // ----- the three big templates render to their text -----

  /** The rendered text of the `i`th parameter. */
  function ParamText(ps: seq<Html>, i: nat): string {
    RenderToString(ParamAt(ps, i))
  }

  /** Three string parameters, each rendered escaped. */
  lemma StrTexts(ps: seq<Html>, i: nat, j: nat, k: nat, a: string, b: string, c: string)
    requires i < |ps| && j < |ps| && k < |ps|
    requires ps[i] == Str(a) && ps[j] == Str(b) && ps[k] == Str(c)
    ensures ParamText(ps, i) == Esc(a) && ParamText(ps, j) == Esc(b) && ParamText(ps, k) == Esc(c)
  {
    RenderPrimitives(a);
    RenderPrimitives(b);
    RenderPrimitives(c);
  }

  /** Four literals around three parameters, written out. */
  lemma PlainFour(lits: seq<string>, ps: seq<Html>)
    requires |lits| == 4 && |ps| == 3
    ensures PlainText(lits, ps, 4) ==
      lits[0] + ParamText(ps, 0) + lits[1] + ParamText(ps, 1) + lits[2] + ParamText(ps, 2) + lits[3]
  {
    RenderPrimitives("");
    assert PlainText(lits, ps, 1) == "" + lits[0] + ParamText(ps, 0);
    assert "" + lits[0] == lits[0];
    assert PlainText(lits, ps, 4) == PlainText(lits, ps, 3) + lits[3] + "";
  }

  /** Eight literals around seven parameters, written out. */
  lemma PlainEight(lits: seq<string>, ps: seq<Html>)
    requires |lits| == 8 && |ps| == 7
    ensures PlainText(lits, ps, 8) ==
      lits[0] + ParamText(ps, 0) + lits[1] + ParamText(ps, 1) + lits[2] + ParamText(ps, 2)
      + lits[3] + ParamText(ps, 3) + lits[4] + ParamText(ps, 4) + lits[5] + ParamText(ps, 5)
      + lits[6] + ParamText(ps, 6) + lits[7]
  {
    RenderPrimitives("");
    assert PlainText(lits, ps, 1) == "" + lits[0] + ParamText(ps, 0);
    assert "" + lits[0] == lits[0];
    assert PlainText(lits, ps, 3) == PlainText(lits, ps, 2) + lits[2] + ParamText(ps, 2);
    assert PlainText(lits, ps, 5) == PlainText(lits, ps, 4) + lits[4] + ParamText(ps, 4);
    assert PlainText(lits, ps, 7) == PlainText(lits, ps, 6) + lits[6] + ParamText(ps, 6);
    assert PlainText(lits, ps, 8) == PlainText(lits, ps, 7) + lits[7] + "";
  }

  /** Eleven literals around ten parameters, written out. */
  lemma PlainEleven(lits: seq<string>, ps: seq<Html>)
    requires |lits| == 11 && |ps| == 10
    ensures PlainText(lits, ps, 11) ==
      lits[0] + ParamText(ps, 0) + lits[1] + ParamText(ps, 1) + lits[2] + ParamText(ps, 2)
      + lits[3] + ParamText(ps, 3) + lits[4] + ParamText(ps, 4) + lits[5] + ParamText(ps, 5)
      + lits[6] + ParamText(ps, 6) + lits[7] + ParamText(ps, 7) + lits[8] + ParamText(ps, 8)
      + lits[9] + ParamText(ps, 9) + lits[10]
  {
    RenderPrimitives("");
    assert PlainText(lits, ps, 1) == "" + lits[0] + ParamText(ps, 0);
    assert "" + lits[0] == lits[0];
    assert PlainText(lits, ps, 3) == PlainText(lits, ps, 2) + lits[2] + ParamText(ps, 2);
    assert PlainText(lits, ps, 5) == PlainText(lits, ps, 4) + lits[4] + ParamText(ps, 4);
    assert PlainText(lits, ps, 7) == PlainText(lits, ps, 6) + lits[6] + ParamText(ps, 6);
    assert PlainText(lits, ps, 9) == PlainText(lits, ps, 8) + lits[8] + ParamText(ps, 8);
    assert PlainText(lits, ps, 11) == PlainText(lits, ps, 10) + lits[10] + "";
  }

  lemma AuthorLiterals()
    ensures forall i :: 0 <= i < |AuthorStrings| ==> !EndsWith(AuthorStrings[i], "=")
  {
  }

  lemma EntryLiterals()
    ensures forall i :: 0 <= i < |EntryStrings| ==> !EndsWith(EntryStrings[i], "=")
  {
  }

  lemma FeedLiterals()
    ensures forall i :: 0 <= i < |FeedStrings| ==> !EndsWith(FeedStrings[i], "=")
  {
  }

  /** `renderAuthor` gives the `<author>` element with its optional parts. */
  lemma AuthorRenders(a: Author)
    ensures RenderToString(AuthorNode(a)) == AuthorText(a)
  {
    var ps := AuthorParams(a);
    AuthorLiterals();
    RenderUnquoted(AuthorStrings, ps, 4);
    PlainFour(AuthorStrings, ps);
    RenderPrimitives(a.name);
    OptionalElementRenders(Given(a.email), "<email>", "</email>", a.email.GetOr(""));
    OptionalElementRenders(a.uri.Some?, "<uri>", "</uri>", a.uri.GetOr(""));
  }

  lemma OptionalAuthorRenders(author: Option<Author>)
    ensures RenderToString(OptionalAuthor(author)) == OptionalAuthorText(author)
  {
    if author.Some? {
      AuthorRenders(author.value);
    } else {
      RenderPrimitives("");
    }
  }

  // The parameters of `renderEntry`, one lemma each to keep every proof small.

  lemma EntryFieldTexts(e: Entry)
    ensures var ps := EntryParams(e);
      ParamText(ps, 0) == Esc(e.id) && ParamText(ps, 1) == Esc(e.title) && ParamText(ps, 2) == Esc(e.updated)
  {
    var ps := EntryParams(e);
    assert ps[0] == Str(e.id) && ps[1] == Str(e.title) && ps[2] == Str(e.updated);
    StrTexts(ps, 0, 1, 2, e.id, e.title, e.updated);
  }

  lemma EntryAuthorText(e: Entry)
    ensures ParamText(EntryParams(e), 3) == OptionalAuthorText(e.author)
  {
    assert ParamAt(EntryParams(e), 3) == OptionalAuthor(e.author);
    OptionalAuthorRenders(e.author);
  }

  lemma EntryLinkText(e: Entry)
    ensures ParamText(EntryParams(e), 4) == Optional(e.link.Some?, LinkAlternate + "\"" + Esc(e.link.GetOr("")) + "\"" + LinkEnd)
  {
    assert ParamAt(EntryParams(e), 4) == OptionalLink(e.link.Some?, LinkAlternate, e.link.GetOr(""));
    OptionalLinkRenders(e.link.Some?, LinkAlternate, e.link.GetOr(""));
  }

  lemma EntrySummaryText(e: Entry)
    ensures ParamText(EntryParams(e), 5) == Optional(Given(e.summary), "<summary>" + Esc(e.summary.GetOr("")) + "</summary>")
  {
    assert ParamAt(EntryParams(e), 5) == OptionalElement(Given(e.summary), "<summary>", "</summary>", e.summary.GetOr(""));
    OptionalElementRenders(Given(e.summary), "<summary>", "</summary>", e.summary.GetOr(""));
  }

  lemma EntryContentText(e: Entry)
    ensures ParamText(EntryParams(e), 6)
      == Optional(GivenHtml(e.content), ContentOpen + Esc(RenderToString(e.content.GetOr(Null))) + "</content>")
  {
    assert ParamAt(EntryParams(e), 6) == OptionalContent(e.content);
    OptionalContentRenders(e.content);
  }

  /** `renderEntry` gives the `<entry>` element with its optional parts. */
  lemma EntryRenders(e: Entry)
    ensures RenderToString(EntryNode(e)) == EntryText(e)
  {
    var ps := EntryParams(e);
    EntryLiterals();
    RenderUnquoted(EntryStrings, ps, 8);
    PlainEight(EntryStrings, ps);
    EntryFieldTexts(e);
    EntryAuthorText(e);
    EntryLinkText(e);
    EntrySummaryText(e);
    EntryContentText(e);
  }

  /** The entries render one after the other, in order. */
  lemma {:induction false} EntriesRender(entries: seq<Entry>)
    ensures RenderToString(Seq(EntryNodes(entries))) == EntriesText(entries)
  {
    if entries == [] {
      RenderEmpty();
    } else {
      var nodes := EntryNodes(entries);
      assert nodes == [nodes[0]] + EntryNodes(entries[1..]);
      RenderSeqAppend([nodes[0]], EntryNodes(entries[1..]));
      RenderSingleton(nodes[0]);
      EntryRenders(entries[0]);
      EntriesRender(entries[1..]);
    }
  }

  // The parameters of `atomResponse`, a few at a time.

  lemma FeedFieldTexts(f: AtomFeed)
    ensures var ps := FeedParams(f);
      ParamText(ps, 0) == Esc(f.title) && ParamText(ps, 4) == Esc(f.updated) && ParamText(ps, 6) == Esc(f.id)
  {
    var ps := FeedParams(f);
    assert ps[0] == Str(f.title) && ps[4] == Str(f.updated) && ps[6] == Str(f.id);
    StrTexts(ps, 0, 4, 6, f.title, f.updated, f.id);
  }

  lemma FeedSubtitleText(f: AtomFeed)
    ensures ParamText(FeedParams(f), 1) == Optional(Given(f.subtitle), "<subtitle>" + Esc(f.subtitle.GetOr("")) + "</subtitle>")
  {
    assert ParamAt(FeedParams(f), 1) == OptionalElement(Given(f.subtitle), "<subtitle>", "</subtitle>", f.subtitle.GetOr(""));
    OptionalElementRenders(Given(f.subtitle), "<subtitle>", "</subtitle>", f.subtitle.GetOr(""));
  }

  lemma FeedSelfText(f: AtomFeed)
    ensures ParamText(FeedParams(f), 2) == Optional(f.linkSelf.Some?, LinkSelf + "\"" + Esc(f.linkSelf.GetOr("")) + "\"" + LinkEnd)
  {
    assert ParamAt(FeedParams(f), 2) == OptionalLink(f.linkSelf.Some?, LinkSelf, f.linkSelf.GetOr(""));
    OptionalLinkRenders(f.linkSelf.Some?, LinkSelf, f.linkSelf.GetOr(""));
  }

  lemma FeedWebsiteText(f: AtomFeed)
    ensures ParamText(FeedParams(f), 3)
      == Optional(f.linkWebsite.Some?, LinkAlternate + "\"" + Esc(f.linkWebsite.GetOr("")) + "\"" + LinkEnd)
  {
    assert ParamAt(FeedParams(f), 3) == OptionalLink(f.linkWebsite.Some?, LinkAlternate, f.linkWebsite.GetOr(""));
    OptionalLinkRenders(f.linkWebsite.Some?, LinkAlternate, f.linkWebsite.GetOr(""));
  }

  lemma FeedAuthorText(f: AtomFeed)
    ensures ParamText(FeedParams(f), 5) == OptionalAuthorText(f.author)
  {
    assert ParamAt(FeedParams(f), 5) == OptionalAuthor(f.author);
    OptionalAuthorRenders(f.author);
  }

  lemma FeedIconText(f: AtomFeed)
    ensures ParamText(FeedParams(f), 7) == Optional(f.icon.Some?, "<icon>" + Esc(f.icon.GetOr("")) + "</icon>")
  {
    assert ParamAt(FeedParams(f), 7) == OptionalElement(f.icon.Some?, "<icon>", "</icon>", f.icon.GetOr(""));
    OptionalElementRenders(f.icon.Some?, "<icon>", "</icon>", f.icon.GetOr(""));
  }

  lemma FeedLogoText(f: AtomFeed)
    ensures ParamText(FeedParams(f), 8) == Optional(f.logo.Some?, "<logo>" + Esc(f.logo.GetOr("")) + "</logo>")
  {
    assert ParamAt(FeedParams(f), 8) == OptionalElement(f.logo.Some?, "<logo>", "</logo>", f.logo.GetOr(""));
    OptionalElementRenders(f.logo.Some?, "<logo>", "</logo>", f.logo.GetOr(""));
  }

  lemma FeedEntriesText(f: AtomFeed)
    ensures ParamText(FeedParams(f), 9) == EntriesText(f.entries)
  {
    assert ParamAt(FeedParams(f), 9) == Seq(EntryNodes(f.entries));
    EntriesRender(f.entries);
  }

  /** `atomResponse`'s template renders to the feed's text. */
  lemma FeedRenders(f: AtomFeed)
    ensures RenderToString(FeedNode(f)) == FeedText(f)
  {
    var ps := FeedParams(f);
    FeedLiterals();
    RenderUnquoted(FeedStrings, ps, 11);
    PlainEleven(FeedStrings, ps);
    FeedFieldTexts(f);
    FeedSubtitleText(f);
    FeedSelfText(f);
    FeedWebsiteText(f);
    FeedAuthorText(f);
    FeedIconText(f);
    FeedLogoText(f);
    FeedEntriesText(f);
  }

  /**
   * Entry content is escaped twice: a reader that decodes the entities once gets the
   * content's own rendered HTML back.
   */
  lemma ContentDecodesToHtml(content: Html)
    ensures Unescape(Esc(RenderToString(content))) == RenderToString(content)
  {
    UnescapeEscape(RenderToString(content));
  }
}
