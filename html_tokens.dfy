/**
 * The markup `formatJSON` emits, seen as a sequence of tokens: opening tags that
 * carry one `class` attribute, closing tags, and runs of text. `Tokens` gives the
 * token sequence of a value, `RenderAll` turns tokens back into the string that
 * `Format` produces, and `Tokenize` reads such a string back into its tokens.
 */
module HtmlTokens {
  import opened Wrappers
  import opened HtmlEscape
  import opened HtmlFormat

  datatype Token = Open(tag: string, cls: string) | Close(tag: string) | Text(text: string)

  function Render(t: Token): string
  {
    match t
    case Open(tag, cls) => OpenTag(tag, cls)
    case Close(tag) => CloseTag(tag)
    case Text(text) => text
  }

  function RenderAll(ts: seq<Token>): string
  {
    if ts == [] then "" else Render(ts[0]) + RenderAll(ts[1..])
  }

  lemma RenderOne(t: Token)
    ensures RenderAll([t]) == Render(t)
  {
    assert [t][1..] == [];
  }

  /** Rendering distributes over concatenation of token sequences. */
  lemma {:induction false} RenderAllAppend(a: seq<Token>, b: seq<Token>)
    ensures RenderAll(a + b) == RenderAll(a) + RenderAll(b)
    decreases |a|
  {
    if a != [] {
      assert (a + b)[0] == a[0];
      assert (a + b)[1..] == a[1..] + b;
      RenderAllAppend(a[1..], b);
      AppendTwo(Render(a[0]), RenderAll(a[1..]), RenderAll(b));
    } else {
      assert a + b == b;
    }
  }

  lemma RenderAllAppendThree(a: seq<Token>, b: seq<Token>, c: seq<Token>)
    ensures RenderAll(a + b + c) == RenderAll(a) + RenderAll(b) + RenderAll(c)
  {
    RenderAllAppend(a + b, c);
    RenderAllAppend(a, b);
  }

  lemma RenderAllAppendFour(a: seq<Token>, b: seq<Token>, c: seq<Token>, d: seq<Token>)
    ensures RenderAll(a + b + c + d) == RenderAll(a) + RenderAll(b) + RenderAll(c) + RenderAll(d)
  {
    RenderAllAppend(a + b + c, d);
    RenderAllAppendThree(a, b, c);
  }

  // The token sequences of the pieces `formatJSON` assembles.

  function SpanTokens(cls: string, body: string): seq<Token>
  {
    if body == [] then [Open("span", cls)] + [Close("span")]
    else [Open("span", cls)] + [Text(body)] + [Close("span")]
  }

  function BracketTokens(text: string): seq<Token>
  {
    SpanTokens("json-bracket", text)
  }

  function CollapsibleTokens(open: string): seq<Token>
  {
    [Open("span", "collapsible")] + SpanTokens("toggle", [Expanded]) + BracketTokens(open) + [Close("span")]
  }

  function HeaderTokens(open: string): seq<Token>
  {
    [Open("div", "json-line")] + CollapsibleTokens(open) + [Open("div", "json-content")]
  }

  function ClosingLineTokens(close: string): seq<Token>
  {
    [Open("div", "json-line")] + BracketTokens(close) + [Close("div")]
  }

  function FooterTokens(close: string): seq<Token>
  {
    [Close("div")] + ClosingLineTokens(close) + [Close("div")]
  }

  function SeparatorTokens(index: nat, count: nat): seq<Token>
  {
    if index < count - 1 then BracketTokens(",") else []
  }

  const ChildLineToken := Open("div", "json-line json-indent")

  /** The tokens of `formatJSON`'s output for `v`, children listed from the first on. */
  function Tokens(v: JsValue, numberText: real -> string): seq<Token>
    decreases v, 0, 0
  {
    match v
    case JNull => SpanTokens("json-null", "null")
    case JString(s) => SpanTokens("json-string", "\"" + EscapeHtml(s) + "\"")
    case JNumber(n) => SpanTokens("json-number", numberText(n))
    case JBool(b) => SpanTokens("json-boolean", if b then "true" else "false")
    case JArray(items) =>
      if |items| == 0 then BracketTokens("[]")
      else HeaderTokens("[") + ItemTokens(items, 0, numberText) + FooterTokens("]")
    case JObject(props) =>
      if |props| == 0 then BracketTokens("{}")
      else HeaderTokens("{") + PropertyTokens(props, 0, numberText) + FooterTokens("}")
  }

  function ItemLineTokens(items: seq<JsValue>, index: nat, numberText: real -> string): seq<Token>
    requires index < |items|
    decreases items, 0, 0
  {
    [ChildLineToken] + Tokens(items[index], numberText) + SeparatorTokens(index, |items|) + [Close("div")]
  }

  /** The tokens of the item lines from position `from` to the end. */
  function ItemTokens(items: seq<JsValue>, from: nat, numberText: real -> string): seq<Token>
    requires from <= |items|
    decreases items, 1, |items| - from
  {
    if from == |items| then []
    else ItemLineTokens(items, from, numberText) + ItemTokens(items, from + 1, numberText)
  }

  function KeyedLineStartTokens(key: string): seq<Token>
  {
    [ChildLineToken] + SpanTokens("json-key", "\"" + EscapeHtml(key) + "\"") + BracketTokens(": ")
  }

  function PropertyLineTokens(props: seq<Property>, index: nat, numberText: real -> string): seq<Token>
    requires index < |props|
    decreases props, 0, 0
  {
    KeyedLineStartTokens(props[index].key) + Tokens(props[index].value, numberText)
      + SeparatorTokens(index, |props|) + [Close("div")]
  }

  /** The tokens of the property lines from key position `from` to the end. */
  function PropertyTokens(props: seq<Property>, from: nat, numberText: real -> string): seq<Token>
    requires from <= |props|
    decreases props, 1, |props| - from
  {
    if from == |props| then []
    else PropertyLineTokens(props, from, numberText) + PropertyTokens(props, from + 1, numberText)
  }

  // Rendering the tokens of each piece gives the string of that piece.

  lemma RenderSpan(cls: string, body: string)
    ensures RenderAll(SpanTokens(cls, body)) == Span(cls, body)
  {
    RenderOne(Open("span", cls));
    RenderOne(Close("span"));
    if body == [] {
      RenderAllAppend([Open("span", cls)], [Close("span")]);
      assert OpenTag("span", cls) + body == OpenTag("span", cls);
    } else {
      RenderOne(Text(body));
      RenderAllAppendThree([Open("span", cls)], [Text(body)], [Close("span")]);
    }
  }

  lemma RenderHeader(open: string)
    ensures RenderAll(HeaderTokens(open)) == Header(open)
  {
    RenderOne(Open("span", "collapsible"));
    RenderOne(Close("span"));
    RenderSpan("toggle", [Expanded]);
    RenderSpan("json-bracket", open);
    RenderAllAppendFour([Open("span", "collapsible")], SpanTokens("toggle", [Expanded]), BracketTokens(open), [Close("span")]);
    RenderOne(Open("div", "json-line"));
    RenderOne(Open("div", "json-content"));
    RenderAllAppendThree([Open("div", "json-line")], CollapsibleTokens(open), [Open("div", "json-content")]);
  }

  lemma RenderFooter(close: string)
    ensures RenderAll(FooterTokens(close)) == Footer(close)
  {
    RenderOne(Open("div", "json-line"));
    RenderOne(Close("div"));
    RenderSpan("json-bracket", close);
    RenderAllAppendThree([Open("div", "json-line")], BracketTokens(close), [Close("div")]);
    RenderAllAppendThree([Close("div")], ClosingLineTokens(close), [Close("div")]);
  }

  lemma RenderSeparator(index: nat, count: nat)
    ensures RenderAll(SeparatorTokens(index, count)) == Separator(index, count)
  {
    if index < count - 1 {
      RenderSpan("json-bracket", ",");
    }
  }

  lemma RenderKeyedLineStart(key: string)
    ensures RenderAll(KeyedLineStartTokens(key)) == KeyedLineStart(key)
  {
    RenderOne(ChildLineToken);
    RenderSpan("json-key", "\"" + EscapeHtml(key) + "\"");
    RenderSpan("json-bracket", ": ");
    RenderAllAppendThree([ChildLineToken], SpanTokens("json-key", "\"" + EscapeHtml(key) + "\""), BracketTokens(": "));
  }

  /** The tokens of a value render to exactly what `formatJSON` returns for it. */
  lemma {:induction false} RenderTokens(v: JsValue, numberText: real -> string)
    ensures RenderAll(Tokens(v, numberText)) == Format(v, numberText)
    decreases v, 0, 0
  {
    match v
    case JNull => RenderSpan("json-null", "null");
    case JString(s) => RenderSpan("json-string", "\"" + EscapeHtml(s) + "\"");
    case JNumber(n) => RenderSpan("json-number", numberText(n));
    case JBool(b) => RenderSpan("json-boolean", if b then "true" else "false");
    case JArray(items) =>
      if |items| == 0 {
        RenderSpan("json-bracket", "[]");
      } else {
        RenderArray(items, numberText);
      }
    case JObject(props) =>
      if |props| == 0 {
        RenderSpan("json-bracket", "{}");
      } else {
        RenderObject(props, numberText);
      }
  }

  /** A header, child lines and footer render to the header, the lines' text and the footer. */
  lemma RenderComposite(open: string, close: string, lines: seq<Token>, text: string)
    requires RenderAll(lines) == text
    ensures RenderAll(HeaderTokens(open) + lines + FooterTokens(close)) == Header(open) + text + Footer(close)
  {
    RenderHeader(open);
    RenderFooter(close);
    RenderAllAppendThree(HeaderTokens(open), lines, FooterTokens(close));
  }

  lemma {:induction false} RenderArray(items: seq<JsValue>, numberText: real -> string)
    requires |items| > 0
    ensures RenderAll(HeaderTokens("[") + ItemTokens(items, 0, numberText) + FooterTokens("]"))
         == Header("[") + ArrayLines(items, |items|, numberText) + Footer("]")
    decreases items, 2, 0
  {
    RenderItems(items, 0, numberText);
    var text := ArrayLines(items, |items|, numberText);
    assert ArrayLines(items, 0, numberText) + RenderAll(ItemTokens(items, 0, numberText)) == text;
    assert RenderAll(ItemTokens(items, 0, numberText)) == text;
    RenderComposite("[", "]", ItemTokens(items, 0, numberText), text);
  }

  lemma {:induction false} RenderObject(props: seq<Property>, numberText: real -> string)
    requires |props| > 0
    ensures RenderAll(HeaderTokens("{") + PropertyTokens(props, 0, numberText) + FooterTokens("}"))
         == Header("{") + ObjectLines(props, |props|, numberText) + Footer("}")
    decreases props, 2, 0
  {
    RenderProperties(props, 0, numberText);
    var text := ObjectLines(props, |props|, numberText);
    assert ObjectLines(props, 0, numberText) + RenderAll(PropertyTokens(props, 0, numberText)) == text;
    assert RenderAll(PropertyTokens(props, 0, numberText)) == text;
    RenderComposite("{", "}", PropertyTokens(props, 0, numberText), text);
  }

  lemma {:induction false} RenderItemLine(items: seq<JsValue>, index: nat, numberText: real -> string)
    requires index < |items|
    ensures RenderAll(ItemLineTokens(items, index, numberText)) == ItemLine(items, index, numberText)
    decreases items, 0, 0
  {
    RenderOne(ChildLineToken);
    RenderOne(Close("div"));
    RenderTokens(items[index], numberText);
    RenderSeparator(index, |items|);
    RenderAllAppendFour([ChildLineToken], Tokens(items[index], numberText), SeparatorTokens(index, |items|), [Close("div")]);
  }

  /** One more rendered line moves from the tokens still to render onto the text already written. */
  lemma RenderLineStep(before: string, line: string, lineTokens: seq<Token>, later: seq<Token>, total: string)
    requires RenderAll(lineTokens) == line
    requires (before + line) + RenderAll(later) == total
    ensures before + RenderAll(lineTokens + later) == total
  {
    RenderAllAppend(lineTokens, later);
    AppendTwo(before, line, RenderAll(later));
  }

  /** The item lines before `from`, followed by the rendered tokens from `from` on, are all the item lines. */
  predicate RendersItemsFrom(items: seq<JsValue>, from: nat, numberText: real -> string)
    requires from <= |items|
  {
    ArrayLines(items, from, numberText) + RenderAll(ItemTokens(items, from, numberText))
      == ArrayLines(items, |items|, numberText)
  }

  lemma {:induction false} RenderItems(items: seq<JsValue>, from: nat, numberText: real -> string)
    requires from <= |items|
    ensures RendersItemsFrom(items, from, numberText)
    decreases items, 1, |items| - from
  {
    if from < |items| {
      RenderItems(items, from + 1, numberText);
      RenderItemsStep(items, from, numberText);
    } else {
      RenderItemsEnd(items, numberText);
    }
  }

  lemma RenderItemsEnd(items: seq<JsValue>, numberText: real -> string)
    ensures RendersItemsFrom(items, |items|, numberText)
  {
    var lines := ArrayLines(items, |items|, numberText);
    assert ItemTokens(items, |items|, numberText) == [];
    assert lines + "" == lines;
  }

  lemma RenderItemsStep(items: seq<JsValue>, from: nat, numberText: real -> string)
    requires from < |items|
    requires RendersItemsFrom(items, from + 1, numberText)
    ensures RendersItemsFrom(items, from, numberText)
    decreases items, 0, 1
  {
    RenderItemLine(items, from, numberText);
    RenderLineStep(ArrayLines(items, from, numberText), ItemLine(items, from, numberText),
                   ItemLineTokens(items, from, numberText), ItemTokens(items, from + 1, numberText),
                   ArrayLines(items, |items|, numberText));
  }

  lemma {:induction false} RenderPropertyLine(props: seq<Property>, index: nat, numberText: real -> string)
    requires index < |props|
    ensures RenderAll(PropertyLineTokens(props, index, numberText)) == PropertyLine(props, index, numberText)
    decreases props, 0, 0
  {
    RenderOne(Close("div"));
    RenderKeyedLineStart(props[index].key);
    RenderTokens(props[index].value, numberText);
    RenderSeparator(index, |props|);
    RenderAllAppendFour(KeyedLineStartTokens(props[index].key), Tokens(props[index].value, numberText),
                        SeparatorTokens(index, |props|), [Close("div")]);
  }

  /** The property lines before `from`, followed by the rendered tokens from `from` on, are all the property lines. */
  predicate RendersPropertiesFrom(props: seq<Property>, from: nat, numberText: real -> string)
    requires from <= |props|
  {
    ObjectLines(props, from, numberText) + RenderAll(PropertyTokens(props, from, numberText))
      == ObjectLines(props, |props|, numberText)
  }

  lemma {:induction false} RenderProperties(props: seq<Property>, from: nat, numberText: real -> string)
    requires from <= |props|
    ensures RendersPropertiesFrom(props, from, numberText)
    decreases props, 1, |props| - from
  {
    if from < |props| {
      RenderProperties(props, from + 1, numberText);
      RenderPropertiesStep(props, from, numberText);
    } else {
      RenderPropertiesEnd(props, numberText);
    }
  }

  lemma RenderPropertiesStep(props: seq<Property>, from: nat, numberText: real -> string)
    requires from < |props|
    requires RendersPropertiesFrom(props, from + 1, numberText)
    ensures RendersPropertiesFrom(props, from, numberText)
    decreases props, 0, 1
  {
    RenderPropertyLine(props, from, numberText);
    RenderLineStep(ObjectLines(props, from, numberText), PropertyLine(props, from, numberText),
                   PropertyLineTokens(props, from, numberText), PropertyTokens(props, from + 1, numberText),
                   ObjectLines(props, |props|, numberText));
  }

  lemma RenderPropertiesEnd(props: seq<Property>, numberText: real -> string)
    ensures RendersPropertiesFrom(props, |props|, numberText)
  {
    var lines := ObjectLines(props, |props|, numberText);
    assert PropertyTokens(props, |props|, numberText) == [];
    assert lines + "" == lines;
  }
}
