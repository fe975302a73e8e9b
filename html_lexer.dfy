/**
 * Reading the viewer's markup back into tokens. `Tokenize` splits a string into
 * opening tags of the form `<tag class="cls">`, closing tags `</tag>` and the text
 * between them, and fails on anything else. It undoes `RenderAll` on well-formed
 * token sequences, and every token sequence `formatJSON` produces is well formed,
 * so `Tokenize(Format(v))` recovers `Tokens(v)`.
 */
module HtmlLexer {
  import opened Wrappers
  import opened HtmlEscape
  import opened HtmlFormat
  import opened HtmlTokens

  /** The position of the first `c` in `s`, or `|s|` when `s` has none. */
  function IndexOf(s: string, c: char): (i: nat)
    ensures i <= |s|
    ensures i < |s| ==> s[i] == c
    ensures forall k | 0 <= k < i :: s[k] != c
  {
    if s == [] then 0
    else if s[0] == c then 0
    else 1 + IndexOf(s[1..], c)
  }

  lemma IndexOfBoundary(a: string, b: string, c: char)
    requires c !in a
    requires b == [] || b[0] == c
    ensures IndexOf(a + b, c) == |a|
  {
    assert forall k | 0 <= k < |a| :: (a + b)[k] == a[k];
    if b != [] {
      assert (a + b)[|a|] == c;
    }
  }

  function Prepend(t: Token, rest: Option<seq<Token>>): Option<seq<Token>>
  {
    match rest
    case Some(ts) => Some([t] + ts)
    case None => None
  }

  /** The opening tag at the start of `s`, which follows a `<`: a name up to the first space, then ` class="`, the class up to `"`, and `>`. */
  function ReadOpenTag(s: string): (r: Option<(Token, string)>)
    ensures r.Some? ==> |r.value.1| < |s|
  {
    var n := IndexOf(s, ' ');
    var attribute := s[n..];
    if !(" class=\"" <= attribute) then None
    else
      var value := attribute[8..];
      var m := IndexOf(value, '"');
      if m + 1 < |value| && value[m + 1] == '>' then Some((Open(s[..n], value[..m]), value[m + 2..]))
      else None
  }

  /** The closing tag at the start of `s`, which follows `</`: a name up to the first `>`. */
  function ReadCloseTag(s: string): (r: Option<(Token, string)>)
    ensures r.Some? ==> |r.value.1| < |s|
  {
    var n := IndexOf(s, '>');
    if n == |s| then None else Some((Close(s[..n]), s[n + 1..]))
  }

  /** The token at the start of non-empty `s`, and what follows it. */
  function NextToken(s: string): (r: Option<(Token, string)>)
    requires s != []
    ensures r.Some? ==> |r.value.1| < |s|
  {
    if s[0] != '<' then
      var n := IndexOf(s, '<');
      Some((Text(s[..n]), s[n..]))
    else if |s| > 1 && s[1] == '/' then ReadCloseTag(s[2..])
    else ReadOpenTag(s[1..])
  }

  /** Splits markup into tokens; `None` when some part is neither a tag of the expected form nor text. */
  function Tokenize(s: string): Option<seq<Token>>
    decreases |s|
  {
    if s == [] then Some([])
    else
      match NextToken(s)
      case None => None
      case Some((t, rest)) => Prepend(t, Tokenize(rest))
  }

  /** A token that renders unambiguously: tag names and class values stay inside their delimiters, text is non-empty and has no `<`. */
  predicate TokenOk(t: Token)
  {
    match t
    case Open(tag, cls) => ' ' !in tag && '/' !in tag && '"' !in cls
    case Close(tag) => '>' !in tag
    case Text(text) => text != [] && '<' !in text
  }

  /** Every token is unambiguous and no two runs of text are adjacent. */
  predicate WellFormed(ts: seq<Token>)
  {
    && (forall i | 0 <= i < |ts| :: TokenOk(ts[i]))
    && (forall i | 0 <= i < |ts| - 1 :: ts[i].Text? ==> !ts[i + 1].Text?)
  }

  lemma NextOpen(tag: string, cls: string, rest: string)
    requires TokenOk(Open(tag, cls))
    ensures NextToken(OpenTag(tag, cls) + rest) == Some((Open(tag, cls), rest))
  {
    var close := "\">" + rest;
    var value := cls + close;
    var attribute := " class=\"" + value;
    var afterOpen := tag + attribute;
    var s := OpenTag(tag, cls) + rest;
    assert s == "<" + afterOpen;
    assert s[1..] == afterOpen;
    if tag != [] {
      assert s[1] == tag[0];
    }
    OpenTagParts(tag, attribute, value, cls, close, rest);
  }

  lemma OpenTagParts(tag: string, attribute: string, value: string, cls: string, close: string, rest: string)
    requires ' ' !in tag && '"' !in cls
    requires attribute == " class=\"" + value && value == cls + close && close == "\">" + rest
    ensures ReadOpenTag(tag + attribute) == Some((Open(tag, cls), rest))
  {
    IndexOfBoundary(tag, attribute, ' ');
    assert (tag + attribute)[|tag|..] == attribute;
    assert (tag + attribute)[..|tag|] == tag;
    assert attribute[8..] == value;
    IndexOfBoundary(cls, close, '"');
    assert value[|cls| + 1] == '>';
    assert value[|cls| + 2..] == rest;
    assert value[..|cls|] == cls;
  }

  lemma NextClose(tag: string, rest: string)
    requires TokenOk(Close(tag))
    ensures NextToken(CloseTag(tag) + rest) == Some((Close(tag), rest))
  {
    var after := ">" + rest;
    var s := CloseTag(tag) + rest;
    assert s == "</" + (tag + after);
    assert s[2..] == tag + after;
    IndexOfBoundary(tag, after, '>');
    assert (tag + after)[..|tag|] == tag;
    assert (tag + after)[|tag| + 1..] == rest;
  }

  lemma NextText(text: string, rest: string)
    requires TokenOk(Text(text))
    requires rest == [] || rest[0] == '<'
    ensures NextToken(text + rest) == Some((Text(text), rest))
  {
    var s := text + rest;
    assert s[0] == text[0];
    IndexOfBoundary(text, rest, '<');
    assert s[..|text|] == text;
    assert s[|text|..] == rest;
  }

  /** A tag renders to markup that starts with `<`. */
  lemma TagStartsWithAngle(t: Token, rest: seq<Token>)
    requires !t.Text?
    ensures RenderAll([t] + rest) != [] && RenderAll([t] + rest)[0] == '<'
  {
    RenderAllAppend([t], rest);
    RenderOne(t);
  }

  /** The first token of the rendering of a token and what follows is that token. */
  lemma NextRender(t: Token, rest: string)
    requires TokenOk(t)
    requires t.Text? ==> rest == [] || rest[0] == '<'
    ensures Render(t) + rest != []
    ensures NextToken(Render(t) + rest) == Some((t, rest))
  {
    match t
    case Open(tag, cls) => NextOpen(tag, cls, rest);
    case Close(tag) => NextClose(tag, rest);
    case Text(text) => NextText(text, rest);
  }

  /** Tokenizing the rendering of well-formed tokens gives those tokens back. */
  lemma {:induction false} TokenizeRenderAll(ts: seq<Token>)
    requires WellFormed(ts)
    ensures Tokenize(RenderAll(ts)) == Some(ts)
    decreases |ts|
  {
    if ts != [] {
      var rest := ts[1..];
      assert forall i | 0 <= i < |rest| :: rest[i] == ts[i + 1];
      TokenizeRenderAll(rest);
      var tail := RenderAll(rest);
      if ts[0].Text? && rest != [] {
        assert [rest[0]] + rest[1..] == rest;
        TagStartsWithAngle(rest[0], rest[1..]);
      }
      NextRender(ts[0], tail);
      assert RenderAll(ts) == Render(ts[0]) + tail;
      assert Tokenize(RenderAll(ts)) == Prepend(ts[0], Tokenize(tail));
      assert [ts[0]] + rest == ts;
    }
  }

  /** Well formed, and starting and ending with a tag (or empty): such sequences can be joined freely. */
  predicate Framed(ts: seq<Token>)
  {
    WellFormed(ts) && (ts != [] ==> !ts[0].Text? && !ts[|ts| - 1].Text?)
  }

  lemma FramedAppend(a: seq<Token>, b: seq<Token>)
    requires Framed(a) && Framed(b)
    ensures Framed(a + b)
  {
    var ab := a + b;
    forall i | 0 <= i < |ab|
      ensures TokenOk(ab[i])
    {
      if i < |a| {
        assert ab[i] == a[i];
      } else {
        assert ab[i] == b[i - |a|];
      }
    }
    forall i | 0 <= i < |ab| - 1 && ab[i].Text?
      ensures !ab[i + 1].Text?
    {
      if i + 1 < |a| {
        assert ab[i] == a[i] && ab[i + 1] == a[i + 1];
      } else if i >= |a| {
        assert ab[i] == b[i - |a|] && ab[i + 1] == b[i + 1 - |a|];
      }
    }
    if ab != [] {
      if a != [] {
        assert ab[0] == a[0];
      } else {
        assert ab == b;
      }
      if b != [] {
        assert ab[|ab| - 1] == b[|b| - 1];
      } else {
        assert ab == a;
      }
    }
  }

  lemma FramedAppendThree(a: seq<Token>, b: seq<Token>, c: seq<Token>)
    requires Framed(a) && Framed(b) && Framed(c)
    ensures Framed(a + b + c)
  {
    FramedAppend(a, b);
    FramedAppend(a + b, c);
  }

  lemma FramedAppendFour(a: seq<Token>, b: seq<Token>, c: seq<Token>, d: seq<Token>)
    requires Framed(a) && Framed(b) && Framed(c) && Framed(d)
    ensures Framed(a + b + c + d)
  {
    FramedAppendThree(a, b, c);
    FramedAppend(a + b + c, d);
  }

  lemma FramedTag(t: Token)
    requires !t.Text? && TokenOk(t)
    ensures Framed([t])
  {
  }

  lemma FramedSpan(cls: string, body: string)
    requires '"' !in cls && '<' !in body
    ensures Framed(SpanTokens(cls, body))
  {
    var open, close := Open("span", cls), Close("span");
    assert TokenOk(open) && TokenOk(close);
    if body == [] {
      FramedAppend([open], [close]);
    } else {
      var ts := [open] + [Text(body)] + [close];
      assert ts == [open, Text(body), close];
    }
  }

  lemma FramedLineTag()
    ensures Framed([Open("div", "json-line")])
  {
    FramedTag(Open("div", "json-line"));
  }

  lemma FramedContentTag()
    ensures Framed([Open("div", "json-content")])
  {
    FramedTag(Open("div", "json-content"));
  }

  lemma FramedCollapsibleTag()
    ensures Framed([Open("span", "collapsible")])
  {
    FramedTag(Open("span", "collapsible"));
  }

  lemma FramedCloseTag(tag: string)
    requires '>' !in tag
    ensures Framed([Close(tag)])
  {
    FramedTag(Close(tag));
  }

  lemma FramedCollapsible(open: string)
    requires '<' !in open
    ensures Framed(CollapsibleTokens(open))
  {
    FramedCollapsibleTag();
    FramedCloseTag("span");
    FramedSpan("toggle", [Expanded]);
    FramedSpan("json-bracket", open);
    FramedAppendFour([Open("span", "collapsible")], SpanTokens("toggle", [Expanded]), BracketTokens(open), [Close("span")]);
  }

  lemma FramedHeader(open: string)
    requires '<' !in open
    ensures Framed(HeaderTokens(open))
  {
    FramedCollapsible(open);
    FramedLineTag();
    FramedContentTag();
    FramedAppendThree([Open("div", "json-line")], CollapsibleTokens(open), [Open("div", "json-content")]);
  }

  lemma FramedFooter(close: string)
    requires '<' !in close
    ensures Framed(FooterTokens(close))
  {
    FramedLineTag();
    FramedCloseTag("div");
    FramedSpan("json-bracket", close);
    FramedAppendThree([Open("div", "json-line")], BracketTokens(close), [Close("div")]);
    FramedAppendThree([Close("div")], ClosingLineTokens(close), [Close("div")]);
  }

  lemma FramedSeparator(index: nat, count: nat)
    ensures Framed(SeparatorTokens(index, count))
  {
    FramedSpan("json-bracket", ",");
  }

  /** The quoted, escaped form of a string has no `<`. */
  lemma QuotedEscapedIsPlain(s: string)
    ensures '<' !in "\"" + EscapeHtml(s) + "\""
  {
    EscapeHtmlIsInert(s);
    var q := "\"" + EscapeHtml(s) + "\"";
    forall i | 0 <= i < |q|
      ensures q[i] != '<'
    {
      if 0 < i < |q| - 1 {
        assert q[i] == EscapeHtml(s)[i - 1];
      }
    }
  }

  lemma FramedChildLine()
    ensures Framed([ChildLineToken])
  {
    FramedTag(ChildLineToken);
  }

  lemma FramedKeyedLineStart(key: string)
    ensures Framed(KeyedLineStartTokens(key))
  {
    FramedChildLine();
    QuotedEscapedIsPlain(key);
    FramedSpan("json-key", "\"" + EscapeHtml(key) + "\"");
    FramedSpan("json-bracket", ": ");
    FramedAppendThree([ChildLineToken], SpanTokens("json-key", "\"" + EscapeHtml(key) + "\""), BracketTokens(": "));
  }

  /** Number formatting never yields a `<`. */
  ghost predicate PlainNumbers(numberText: real -> string)
  {
    forall n :: '<' !in numberText(n)
  }

  lemma {:induction false} FramedTokens(v: JsValue, numberText: real -> string)
    requires PlainNumbers(numberText)
    ensures Framed(Tokens(v, numberText))
    decreases v, 0, 0
  {
    match v
    case JNull => FramedSpan("json-null", "null");
    case JString(s) =>
      QuotedEscapedIsPlain(s);
      FramedSpan("json-string", "\"" + EscapeHtml(s) + "\"");
    case JNumber(n) => FramedSpan("json-number", numberText(n));
    case JBool(b) => FramedSpan("json-boolean", if b then "true" else "false");
    case JArray(items) =>
      if |items| == 0 {
        FramedSpan("json-bracket", "[]");
      } else {
        FramedItems(items, 0, numberText);
        FramedComposite("[", "]", ItemTokens(items, 0, numberText));
      }
    case JObject(props) =>
      if |props| == 0 {
        FramedSpan("json-bracket", "{}");
      } else {
        FramedProperties(props, 0, numberText);
        FramedComposite("{", "}", PropertyTokens(props, 0, numberText));
      }
  }

  lemma FramedComposite(open: string, close: string, lines: seq<Token>)
    requires '<' !in open && '<' !in close && Framed(lines)
    ensures Framed(HeaderTokens(open) + lines + FooterTokens(close))
  {
    FramedHeader(open);
    FramedFooter(close);
    FramedAppendThree(HeaderTokens(open), lines, FooterTokens(close));
  }

  /** A child line: its start, the child's tokens, the separator and the closing div. */
  lemma FramedLine(start: seq<Token>, value: seq<Token>, separator: seq<Token>)
    requires Framed(start) && Framed(value) && Framed(separator)
    ensures Framed(start + value + separator + [Close("div")])
  {
    FramedCloseTag("div");
    FramedAppendFour(start, value, separator, [Close("div")]);
  }

  lemma FramedItemLine(items: seq<JsValue>, index: nat, numberText: real -> string)
    requires index < |items| && Framed(Tokens(items[index], numberText))
    ensures Framed(ItemLineTokens(items, index, numberText))
  {
    FramedChildLine();
    FramedSeparator(index, |items|);
    FramedLine([ChildLineToken], Tokens(items[index], numberText), SeparatorTokens(index, |items|));
  }

  lemma {:induction false} FramedItems(items: seq<JsValue>, from: nat, numberText: real -> string)
    requires PlainNumbers(numberText)
    requires from <= |items|
    ensures Framed(ItemTokens(items, from, numberText))
    decreases items, 1, |items| - from
  {
    if from < |items| {
      FramedTokens(items[from], numberText);
      FramedItemLine(items, from, numberText);
      FramedItems(items, from + 1, numberText);
      FramedAppend(ItemLineTokens(items, from, numberText), ItemTokens(items, from + 1, numberText));
    }
  }

  lemma FramedPropertyLine(props: seq<Property>, index: nat, numberText: real -> string)
    requires index < |props| && Framed(Tokens(props[index].value, numberText))
    ensures Framed(PropertyLineTokens(props, index, numberText))
  {
    FramedKeyedLineStart(props[index].key);
    FramedSeparator(index, |props|);
    FramedLine(KeyedLineStartTokens(props[index].key), Tokens(props[index].value, numberText), SeparatorTokens(index, |props|));
  }

  lemma {:induction false} FramedProperties(props: seq<Property>, from: nat, numberText: real -> string)
    requires PlainNumbers(numberText)
    requires from <= |props|
    ensures Framed(PropertyTokens(props, from, numberText))
    decreases props, 1, |props| - from
  {
    if from < |props| {
      FramedTokens(props[from].value, numberText);
      FramedPropertyLine(props, from, numberText);
      FramedProperties(props, from + 1, numberText);
      FramedAppend(PropertyLineTokens(props, from, numberText), PropertyTokens(props, from + 1, numberText));
    }
  }

  /**
   * The markup `formatJSON` produces splits back into exactly the tokens of the value,
   * whenever number formatting produces no `<` (which JavaScript's never does).
   */
  lemma TokenizeFormat(v: JsValue, numberText: real -> string)
    requires PlainNumbers(numberText)
    ensures Tokenize(Format(v, numberText)) == Some(Tokens(v, numberText))
  {
    FramedTokens(v, numberText);
    RenderTokens(v, numberText);
    TokenizeRenderAll(Tokens(v, numberText));
  }
}
