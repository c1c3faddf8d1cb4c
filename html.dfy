/**
 * The HTML template engine of `src/core/html.ts`: `Html` nodes, the `html`
 * tagged template, escaping, and rendering to a stream of chunks or a string.
 * Promises and async iterables appear already resolved (`Deferred`, `Iter`).
 */
module Html {
  import opened Common
  import opened Strings
  import Numerals

  /** An `Html` node. */
  datatype Html =
    | Raw(text: string)        // a `String` object made by `unsafeInnerHtml`: already escaped
    | Str(s: string)           // a plain string: escaped when rendered
    | Num(n: int)              // a number
    | Null                     // `undefined` or `null`
    | Seq(items: seq<Html>)    // an array of nodes
    | Deferred(value: Html)    // a promise, with the node it resolves to
    | Iter(items: seq<Html>)   // an async iterable, with the nodes it yields

  /** `HtmlPrimitive`: the nodes that `escape` accepts. */
  predicate IsPrimitive(n: Html) {
    n.Raw? || n.Str? || n.Num? || n.Null?
  }

  // ----- escaping -----

  /** `escapeForHtml`: `&` first, then `<` and `>`. */
  function EscapeForHtml(st: string): string {
    ReplaceAll(ReplaceAll(ReplaceAll(st, '&', "&amp;"), '<', "&lt;"), '>', "&gt;")
  }

  /** `escapeForAttribute`: `escapeForHtml`, then `'` and `"`. */
  function EscapeForAttribute(str: string): string {
    ReplaceAll(ReplaceAll(EscapeForHtml(str), '\'', "&#39;"), '"', "&quot;")
  }

  /** The entity each of the five markup characters becomes; any other character stays. */
  function Entity(c: char): string {
    match c
    case '&' => "&amp;"
    case '<' => "&lt;"
    case '>' => "&gt;"
    case '\'' => "&#39;"
    case '"' => "&quot;"
    case _ => [c]
  }

  /** Reference definition: every character replaced by its entity in a single pass. */
  function EscapeChars(s: string): string {
    if s == [] then [] else Entity(s[0]) + EscapeChars(s[1..])
  }

  lemma ReplaceAllOne(c: char, d: char, rep: string)
    ensures ReplaceAll([c], d, rep) == if c == d then rep else [c]
  {
    assert [c][1..] == [];
  }

  lemma EscapeOneChar(c: char)
    ensures EscapeForAttribute([c]) == Entity(c)
  {
    ReplaceAllOne(c, '&', "&amp;");
    if c == '&' {
      assert '<' !in "&amp;" && '>' !in "&amp;" && '\'' !in "&amp;" && '"' !in "&amp;";
    } else {
      ReplaceAllOne(c, '<', "&lt;");
      if c == '<' {
        assert '>' !in "&lt;" && '\'' !in "&lt;" && '"' !in "&lt;";
      } else {
        ReplaceAllOne(c, '>', "&gt;");
        if c == '>' {
          assert '\'' !in "&gt;" && '"' !in "&gt;";
        } else {
          ReplaceAllOne(c, '\'', "&#39;");
          ReplaceAllOne(c, '"', "&quot;");
          if c == '\'' {
            assert '"' !in "&#39;";
          }
        }
      }
    }
  }

  /**
   * The chain of `replaceAll` calls equals escaping every character once: because
   * `&` is replaced first, the `&` of the later entities is not escaped again.
   */
  lemma {:induction false} EscapeForAttributeIsSinglePass(s: string)
    ensures EscapeForAttribute(s) == EscapeChars(s)
  {
    if s != [] {
      var a, b := [s[0]], s[1..];
      assert s == a + b;
      var r1a, r1b := ReplaceAll(a, '&', "&amp;"), ReplaceAll(b, '&', "&amp;");
      ReplaceAllAppend(a, b, '&', "&amp;");
      var r2a, r2b := ReplaceAll(r1a, '<', "&lt;"), ReplaceAll(r1b, '<', "&lt;");
      ReplaceAllAppend(r1a, r1b, '<', "&lt;");
      var r3a, r3b := ReplaceAll(r2a, '>', "&gt;"), ReplaceAll(r2b, '>', "&gt;");
      ReplaceAllAppend(r2a, r2b, '>', "&gt;");
      var r4a, r4b := ReplaceAll(r3a, '\'', "&#39;"), ReplaceAll(r3b, '\'', "&#39;");
      ReplaceAllAppend(r3a, r3b, '\'', "&#39;");
      ReplaceAllAppend(r4a, r4b, '"', "&quot;");
      assert EscapeForAttribute(s) == EscapeForAttribute(a) + EscapeForAttribute(b);
      EscapeOneChar(s[0]);
      EscapeForAttributeIsSinglePass(b);
    }
  }

  /** Decodes the five entities that escaping produces; the inverse of escaping. */
  function Unescape(s: string): string
    decreases |s|
  {
    if s == [] then []
    else if StartsWith(s, "&amp;") then "&" + Unescape(s[5..])
    else if StartsWith(s, "&lt;") then "<" + Unescape(s[4..])
    else if StartsWith(s, "&gt;") then ">" + Unescape(s[4..])
    else if StartsWith(s, "&#39;") then "'" + Unescape(s[5..])
    else if StartsWith(s, "&quot;") then "\"" + Unescape(s[6..])
    else [s[0]] + Unescape(s[1..])
  }

  lemma UnescapeEntity(c: char, rest: string)
    ensures Unescape(Entity(c) + rest) == [c] + Unescape(rest)
  {
    var e := Entity(c);
    var t := e + rest;
    assert t[..|e|] == e;
    assert t[|e|..] == rest;
    if c != '&' && c != '<' && c != '>' && c != '\'' && c != '"' {
      assert t[0] == c;
      assert !StartsWith(t, "&amp;") && !StartsWith(t, "&lt;") && !StartsWith(t, "&gt;");
      assert !StartsWith(t, "&#39;") && !StartsWith(t, "&quot;");
    } else if c == '<' || c == '>' {
      assert t[..4] == e && t[1] != 'a';
    } else if c == '\'' {
      assert t[..5] == e && t[1] != 'a' && t[1] != 'l' && t[1] != 'g';
    } else if c == '"' {
      assert t[..6] == e && t[1] != 'a' && t[1] != 'l' && t[1] != 'g' && t[1] != '#';
    }
  }

  /** Escaping loses nothing: decoding the entities gives the original text back. */
  lemma {:induction false} UnescapeEscape(s: string)
    ensures Unescape(EscapeForAttribute(s)) == s
  {
    EscapeForAttributeIsSinglePass(s);
    UnescapeEscapeChars(s);
  }

  lemma {:induction false} UnescapeEscapeChars(s: string)
    ensures Unescape(EscapeChars(s)) == s
  {
    if s != [] {
      UnescapeEntity(s[0], EscapeChars(s[1..]));
      UnescapeEscapeChars(s[1..]);
      assert s == [s[0]] + s[1..];
    }
  }

  /** Escaped text contains no character that could open a tag or end an attribute value. */
  lemma {:induction false} EscapedHasNoMarkup(s: string)
    ensures '<' !in EscapeForAttribute(s) && '>' !in EscapeForAttribute(s)
    ensures '"' !in EscapeForAttribute(s) && '\'' !in EscapeForAttribute(s)
  {
    EscapeForAttributeIsSinglePass(s);
    EscapeCharsHasNoMarkup(s);
  }

  lemma {:induction false} EscapeCharsHasNoMarkup(s: string)
    ensures '<' !in EscapeChars(s) && '>' !in EscapeChars(s)
    ensures '"' !in EscapeChars(s) && '\'' !in EscapeChars(s)
  {
    if s != [] {
      EscapeCharsHasNoMarkup(s[1..]);
      var e := Entity(s[0]);
      assert '<' !in e && '>' !in e && '"' !in e && '\'' !in e;
    }
  }

  /**
   * `escape`: a plain string is attribute-escaped (in every position), a
   * pre-escaped string is emitted verbatim, a number in decimal, and
   * `undefined`/`null` as the empty string.
   */
  function Escape(n: Html): (r: string)
    requires IsPrimitive(n)
    ensures n.Raw? ==> r == n.text
    ensures n.Null? ==> r == ""
    ensures n.Str? ==> r == EscapeForAttribute(n.s)
    ensures n.Num? ==> r == Numerals.IntToString(n.n) && Numerals.ParseInt(r) == n.n
    ensures n.Num? ==> r != [] && forall i :: 0 <= i < |r| ==> r[i] == '-' || '0' <= r[i] <= '9'
  {
    match n
    case Str(s) => EscapeForAttribute(s)
    case Raw(text) => text
    case Num(k) => Numerals.IntToString(k)
    case Null => ""
  }

  /** `unsafeInnerHtml`: marks a string as already escaped. */
  function UnsafeInnerHtml(str: string): Html {
    Raw(str)
  }

  // ----- rendering -----

  /**
   * `renderToStream`: one chunk per primitive leaf, depth first and left to right;
   * a promise is awaited in place and an async iterable drained before the next sibling.
   */
  function Chunks(node: Html): seq<string>
    decreases node
  {
    match node
    case Seq(items) => ChunksOf(items)
    case Deferred(value) => Chunks(value)
    case Iter(items) => ChunksOf(items)
    case _ => [Escape(node)]
  }

  function ChunksOf(items: seq<Html>): seq<string>
    decreases items
  {
    if items == [] then [] else Chunks(items[0]) + ChunksOf(items[1..])
  }

  lemma {:induction false} ChunksOfAppend(a: seq<Html>, b: seq<Html>)
    ensures ChunksOf(a + b) == ChunksOf(a) + ChunksOf(b)
  {
    if a == [] {
      assert a + b == b;
    } else {
      assert (a + b)[0] == a[0];
      assert (a + b)[1..] == a[1..] + b;
      ChunksOfAppend(a[1..], b);
    }
  }

  /** Reference definition: the primitive leaves of a node, in document order. */
  function Leaves(node: Html): (r: seq<Html>)
    ensures forall i :: 0 <= i < |r| ==> IsPrimitive(r[i])
    decreases node
  {
    match node
    case Seq(items) => LeavesOf(items)
    case Deferred(value) => Leaves(value)
    case Iter(items) => LeavesOf(items)
    case _ => [node]
  }

  function LeavesOf(items: seq<Html>): (r: seq<Html>)
    ensures forall i :: 0 <= i < |r| ==> IsPrimitive(r[i])
    decreases items
  {
    if items == [] then [] else Leaves(items[0]) + LeavesOf(items[1..])
  }

  /** The stream has exactly one chunk per leaf: the leaf, escaped. */
  lemma {:induction false} ChunksAreEscapedLeaves(node: Html)
    ensures |Chunks(node)| == |Leaves(node)|
    ensures forall i :: 0 <= i < |Chunks(node)| ==> Chunks(node)[i] == Escape(Leaves(node)[i])
    decreases node
  {
    match node
    case Seq(items) => ChunksOfAreEscapedLeaves(items);
    case Deferred(value) => ChunksAreEscapedLeaves(value);
    case Iter(items) => ChunksOfAreEscapedLeaves(items);
    case _ =>
  }

  lemma {:induction false} ChunksOfAreEscapedLeaves(items: seq<Html>)
    ensures |ChunksOf(items)| == |LeavesOf(items)|
    ensures forall i :: 0 <= i < |ChunksOf(items)| ==> ChunksOf(items)[i] == Escape(LeavesOf(items)[i])
    decreases items
  {
    if items != [] {
      ChunksAreEscapedLeaves(items[0]);
      ChunksOfAreEscapedLeaves(items[1..]);
    }
  }

  /**
   * `renderToString`: a primitive that is not `null` is escaped directly; anything
   * else is rendered through the stream and joined. Both give the same text.
   */
  function RenderToString(node: Html): (r: string)
    ensures r == Concat(Chunks(node))
  {
    if node.Raw? || node.Str? || node.Num? then
      assert Concat([Escape(node)]) == Escape(node) + Concat([]);
      Escape(node)
    else Concat(Chunks(node))
  }

  /** A pre-escaped string renders verbatim; a plain one renders escaped. */
  lemma RenderPrimitives(s: string)
    ensures RenderToString(UnsafeInnerHtml(s)) == s
    ensures RenderToString(Str(s)) == EscapeForAttribute(s)
    ensures RenderToString(Null) == ""
  {
    assert Concat([""]) == "" + Concat([]);
  }

  /** Rendering a list of nodes is rendering each node and concatenating. */
  lemma {:induction false} RenderSeqAppend(a: seq<Html>, b: seq<Html>)
    ensures RenderToString(Seq(a + b)) == RenderToString(Seq(a)) + RenderToString(Seq(b))
  {
    ChunksOfAppend(a, b);
    ConcatAppend(ChunksOf(a), ChunksOf(b));
  }

  lemma RenderEmpty()
    ensures RenderToString(Seq([])) == ""
  {
  }

  lemma RenderSingleton(n: Html)
    ensures RenderToString(Seq([n])) == RenderToString(n)
  {
    assert ChunksOf([n]) == Chunks(n) + ChunksOf([]);
    assert Chunks(n) + [] == Chunks(n);
  }

  // ----- the `html` tagged template -----

  /** `endsWithEq`: the node is a pre-escaped string ending in `=`. */
  predicate EndsWithEq(prev: Html) {
    prev.Raw? && EndsWith(prev.text, "=")
  }

  /** The "inside an open tag" flag after the first `k` literals. */
  function InsideAt(strings: seq<string>, k: nat): bool
    requires k <= |strings|
  {
    if k == 0 then false
    else (if InsideAt(strings, k - 1) then 1 else 0) + Count(strings[k - 1], '<') - Count(strings[k - 1], '>') == 1
  }

  /** The parameter after literal `i`: past the last parameter it is `undefined`. */
  function ParamAt(params: seq<Html>, i: nat): Html {
    if i < |params| then params[i] else Null
  }

  /** The nodes one literal and the parameter after it contribute. */
  function Emit(lit: string, insideTag: bool, p: Html): seq<Html> {
    [UnsafeInnerHtml(lit)]
    + (if p.Seq? then p.items
       else if insideTag && EndsWithEq(UnsafeInnerHtml(lit)) then [UnsafeInnerHtml("\""), p, UnsafeInnerHtml("\"")]
       else [p])
  }

  /** The output of `html` after the first `k` literals. */
  function TemplateUpTo(strings: seq<string>, params: seq<Html>, k: nat): seq<Html>
    requires k <= |strings|
  {
    if k == 0 then []
    else TemplateUpTo(strings, params, k - 1) + Emit(strings[k - 1], InsideAt(strings, k), ParamAt(params, k - 1))
  }

  function Template(strings: seq<string>, params: seq<Html>): seq<Html> {
    TemplateUpTo(strings, params, |strings|)
  }

  /** `html`: the tagged template, building its flat node list in one pass. */
  method HtmlTemplate(strings: seq<string>, params: seq<Html>) returns (output: seq<Html>)
    ensures output == Template(strings, params)
  {
    output := [];
    var insideTag := false;
    for i := 0 to |strings|
      invariant output == TemplateUpTo(strings, params, i)
      invariant insideTag == InsideAt(strings, i)
    {
      ghost var before := output;
      var str := strings[i];
      output := output + [UnsafeInnerHtml(str)];
      assert output[|output| - 1] == UnsafeInnerHtml(str);
      insideTag := (if insideTag then 1 else 0) + Count(str, '<') - Count(str, '>') == 1;
      var p := if i < |params| then params[i] else Null;
      if p.Seq? {
        output := output + p.items;
        assert output == before + ([UnsafeInnerHtml(str)] + p.items);
      } else if insideTag && EndsWithEq(output[|output| - 1]) {
        output := output + [UnsafeInnerHtml("\""), p, UnsafeInnerHtml("\"")];
        assert output == before + ([UnsafeInnerHtml(str)] + [UnsafeInnerHtml("\""), p, UnsafeInnerHtml("\"")]);
      } else {
        output := output + [p];
        assert output == before + ([UnsafeInnerHtml(str)] + [p]);
      }
      assert output == before + Emit(str, insideTag, p);
    }
  }

  /** Whether the parameter after `lit` is an attribute value that gets quotes. */
  predicate Quoted(lit: string, insideTag: bool, p: Html) {
    !p.Seq? && insideTag && EndsWith(lit, "=")
  }

  /**
   * What one step renders to: the literal verbatim, then the parameter, between
   * double quotes exactly when it is a non-array value after `=` inside an open tag.
   * An array is spliced, so it renders as its elements would, and is never quoted.
   */
  lemma RenderEmit(lit: string, insideTag: bool, p: Html)
    ensures RenderToString(Seq(Emit(lit, insideTag, p))) == StepText(lit, Quoted(lit, insideTag, p), RenderToString(p))
  {
    var head := [UnsafeInnerHtml(lit)];
    RenderSingleton(UnsafeInnerHtml(lit));
    if p.Seq? {
      RenderEmitSpliced(lit, head, p);
    } else if Quoted(lit, insideTag, p) {
      RenderEmitQuoted(lit, head, p);
    } else {
      RenderEmitPlain(lit, head, p);
    }
  }

  lemma RenderEmitSpliced(lit: string, head: seq<Html>, p: Html)
    requires p.Seq? && RenderToString(Seq(head)) == lit
    ensures RenderToString(Seq(head + p.items)) == lit + RenderToString(p)
  {
    RenderSeqAppend(head, p.items);
  }

  lemma RenderEmitPlain(lit: string, head: seq<Html>, p: Html)
    requires RenderToString(Seq(head)) == lit
    ensures RenderToString(Seq(head + [p])) == lit + RenderToString(p)
  {
    RenderSeqAppend(head, [p]);
    RenderSingleton(p);
  }

  lemma RenderEmitQuoted(lit: string, head: seq<Html>, p: Html)
    requires RenderToString(Seq(head)) == lit
    ensures RenderToString(Seq(head + [UnsafeInnerHtml("\""), p, UnsafeInnerHtml("\"")])) == lit + "\"" + RenderToString(p) + "\""
  {
    var q := UnsafeInnerHtml("\"");
    RenderSeqAppend(head, [q, p, q]);
    RenderQuoted(p);
  }

  lemma RenderQuoted(p: Html)
    ensures RenderToString(Seq([UnsafeInnerHtml("\""), p, UnsafeInnerHtml("\"")])) == "\"" + RenderToString(p) + "\""
  {
    var q := UnsafeInnerHtml("\"");
    assert [q, p, q] == [q] + [p] + [q];
    RenderSeqAppend([q] + [p], [q]);
    RenderSeqAppend([q], [p]);
    RenderSingleton(q);
    RenderSingleton(p);
  }

  /**
   * The text one step renders to: the literal verbatim, then the parameter, between
   * double quotes exactly in attribute-value position.
   */
  function StepText(lit: string, quoted: bool, param: string): string {
    lit + (if quoted then "\"" + param + "\"" else param)
  }

  function StepOf(strings: seq<string>, params: seq<Html>, k: nat): string
    requires 0 < k <= |strings|
  {
    var lit, p := strings[k - 1], ParamAt(params, k - 1);
    StepText(lit, Quoted(lit, InsideAt(strings, k), p), RenderToString(p))
  }

  /** The text of the first `k` steps of a template. */
  function TemplateText(strings: seq<string>, params: seq<Html>, k: nat): string
    requires k <= |strings|
  {
    if k == 0 then ""
    else TemplateText(strings, params, k - 1) + StepOf(strings, params, k)
  }

  /**
   * A template renders as its literals verbatim, in order, each followed by its
   * rendered parameter, quoted exactly in attribute-value position.
   */
  lemma {:induction false} RenderTemplate(strings: seq<string>, params: seq<Html>, k: nat)
    requires k <= |strings|
    ensures RenderToString(Seq(TemplateUpTo(strings, params, k))) == TemplateText(strings, params, k)
  {
    if k == 0 {
      RenderEmpty();
    } else {
      RenderTemplate(strings, params, k - 1);
      RenderStep(strings, params, k);
    }
  }

  lemma RenderStep(strings: seq<string>, params: seq<Html>, k: nat)
    requires 0 < k <= |strings|
    requires RenderToString(Seq(TemplateUpTo(strings, params, k - 1))) == TemplateText(strings, params, k - 1)
    ensures RenderToString(Seq(TemplateUpTo(strings, params, k))) == TemplateText(strings, params, k)
  {
    var lit, p, inside := strings[k - 1], ParamAt(params, k - 1), InsideAt(strings, k);
    RenderSeqAppend(TemplateUpTo(strings, params, k - 1), Emit(lit, inside, p));
    RenderEmit(lit, inside, p);
  }

  /** The text of the first `k` steps when no parameter gets quotes: literals and rendered parameters alternating. */
  function PlainText(strings: seq<string>, params: seq<Html>, k: nat): string
    requires k <= |strings|
  {
    if k == 0 then ""
    else PlainText(strings, params, k - 1) + strings[k - 1] + RenderToString(ParamAt(params, k - 1))
  }

  /** A template none of whose literals ends in `=` adds no quotes anywhere. */
  lemma {:induction false} RenderUnquoted(strings: seq<string>, params: seq<Html>, k: nat)
    requires k <= |strings|
    requires forall i :: 0 <= i < |strings| ==> !EndsWith(strings[i], "=")
    ensures RenderToString(Seq(TemplateUpTo(strings, params, k))) == PlainText(strings, params, k)
  {
    RenderTemplate(strings, params, k);
    TemplateTextPlain(strings, params, k);
  }

  lemma {:induction false} TemplateTextPlain(strings: seq<string>, params: seq<Html>, k: nat)
    requires k <= |strings|
    requires forall i :: 0 <= i < |strings| ==> !EndsWith(strings[i], "=")
    ensures TemplateText(strings, params, k) == PlainText(strings, params, k)
  {
    if k > 0 {
      TemplateTextPlain(strings, params, k - 1);
      UnquotedStep(strings, params, k);
      AppendAssoc(PlainText(strings, params, k - 1), strings[k - 1], RenderToString(ParamAt(params, k - 1)));
    }
  }

  /** A step whose literal does not end in `=` is the literal and the rendered parameter. */
  lemma UnquotedStep(strings: seq<string>, params: seq<Html>, k: nat)
    requires 0 < k <= |strings|
    requires !EndsWith(strings[k - 1], "=")
    ensures StepOf(strings, params, k) == strings[k - 1] + RenderToString(ParamAt(params, k - 1))
  {
  }

  lemma {:induction false} RenderTwoLiterals(strings: seq<string>, params: seq<Html>)
    requires |strings| == 2
    ensures RenderToString(Seq(Template(strings, params))) == StepOf(strings, params, 1) + StepOf(strings, params, 2)
  {
    RenderEmpty();
    RenderStep(strings, params, 1);
    RenderStep(strings, params, 2);
    assert TemplateText(strings, params, 1) == "" + StepOf(strings, params, 1);
  }

  /**
   * A template with one parameter, as in html`<div class=${v}></div>` or
   * html`<code>x=${7}</code>`: the parameter is quoted exactly when it is not an
   * array, the literal before it ends in `=`, and that literal leaves exactly one
   * tag open. The `undefined` after the last literal renders as nothing.
   */
  lemma OneParameter(open: string, close: string, p: Html)
    requires !EndsWith(close, "=")
    ensures RenderToString(Seq(Template([open, close], [p]))) ==
      open
      + (if !p.Seq? && Count(open, '<') == Count(open, '>') + 1 && EndsWith(open, "=")
         then "\"" + RenderToString(p) + "\"" else RenderToString(p))
      + close
  {
    var strings, params := [open, close], [p];
    var r, quoted := RenderToString(p), Quoted(open, InsideAt(strings, 1), p);
    RenderTwoLiterals(strings, params);
    RenderPrimitives("");
    assert StepOf(strings, params, 2) == close + "";
    assert InsideAt(strings, 1) == (Count(open, '<') == Count(open, '>') + 1);
    assert StepOf(strings, params, 1) == open + (if quoted then "\"" + r + "\"" else r);
  }
}
