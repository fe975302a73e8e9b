/**
 * `formatJSON` of the embedded viewer: the recursive pretty-printer from a value
 * produced by `JSON.parse` to the HTML the viewer's container receives.
 * `Format` states the output as a function of the value; the method
 * `FormatJSON` builds it as the source does, appending to `result` while it
 * walks the elements of an array or the keys of an object.
 */
module HtmlFormat {
  import opened HtmlEscape

  /**
   * A value `JSON.parse` returns. An object is given by its own properties in
   * `Object.keys` order. A number is kept opaque: only its string conversion,
   * passed in as `numberText`, reaches the output.
   */
  datatype JsValue =
    | JNull
    | JString(s: string)
    | JNumber(n: real)
    | JBool(b: bool)
    | JArray(items: seq<JsValue>)
    | JObject(props: seq<Property>)

  datatype Property = Property(key: string, value: JsValue)

  /** The glyph of an expanded collapsible (U+25BC). */
  const Expanded: char := '\U{25BC}'
  /** The glyph of a collapsed collapsible (U+25B6). */
  const Collapsed: char := '\U{25B6}'

  function OpenTag(tag: string, cls: string): string
  {
    "<" + tag + " class=\"" + cls + "\">"
  }

  function CloseTag(tag: string): string
  {
    "</" + tag + ">"
  }

  function Span(cls: string, body: string): string
  {
    OpenTag("span", cls) + body + CloseTag("span")
  }

  function Bracket(text: string): string
  {
    Span("json-bracket", text)
  }

  /** The collapsible part of a header: the toggle glyph and the opening bracket. */
  function Collapsible(open: string): string
  {
    OpenTag("span", "collapsible") + Span("toggle", [Expanded]) + Bracket(open) + CloseTag("span")
  }

  /** The opening of a non-empty composite: its line, the collapsible, then the content div. */
  function Header(open: string): string
  {
    OpenTag("div", "json-line") + Collapsible(open) + OpenTag("div", "json-content")
  }

  /** The line holding only the closing bracket. */
  function ClosingLine(close: string): string
  {
    OpenTag("div", "json-line") + Bracket(close) + CloseTag("div")
  }

  /** Closes the content div, adds the closing-bracket line, and closes the composite's line. */
  function Footer(close: string): string
  {
    CloseTag("div") + ClosingLine(close) + CloseTag("div")
  }

  /** A comma after every child but the last. */
  function Separator(index: nat, count: nat): string
  {
    if index < count - 1 then Bracket(",") else ""
  }

  /** How many of the first `count` of `n` children are followed by a comma. */
  function CommaCount(n: nat, count: nat): nat
    requires count <= n
  {
    if count == 0 then 0
    else CommaCount(n, count - 1) + (if Separator(count - 1, n) == "" then 0 else 1)
  }

  lemma {:induction false} CommaCountPrefix(n: nat, count: nat)
    requires 0 < n && count <= n
    ensures CommaCount(n, count) == if count < n then count else n - 1
  {
    if count > 0 {
      CommaCountPrefix(n, count - 1);
      assert |Bracket(",")| > 0;
      assert Separator(count - 1, n) == "" <==> count == n;
    }
  }

  /** `n` children at one level are separated by exactly `n - 1` commas: every one but the last gets one. */
  lemma CommasBetweenChildren(n: nat)
    requires n > 0
    ensures CommaCount(n, n) == n - 1
    ensures forall i | 0 <= i < n :: Separator(i, n) == (if i == n - 1 then "" else Bracket(","))
  {
    CommaCountPrefix(n, n);
  }

  const ChildLine := OpenTag("div", "json-line json-indent")

  /**
   * What `formatJSON` returns for a value. It takes no indentation level: the source
   * threads `indent` through every call but never uses what it computes from it.
   */
  function Format(v: JsValue, numberText: real -> string): string
    decreases v, 0, 0
  {
    match v
    case JNull => Span("json-null", "null")
    case JString(s) => Span("json-string", "\"" + EscapeHtml(s) + "\"")
    case JNumber(n) => Span("json-number", numberText(n))
    case JBool(b) => Span("json-boolean", if b then "true" else "false")
    case JArray(items) =>
      if |items| == 0 then Bracket("[]")
      else Header("[") + ArrayLines(items, |items|, numberText) + Footer("]")
    case JObject(props) =>
      if |props| == 0 then Bracket("{}")
      else Header("{") + ObjectLines(props, |props|, numberText) + Footer("}")
  }

  /** The line of array item `index`: the item, then a comma unless it is the last. */
  function ItemLine(items: seq<JsValue>, index: nat, numberText: real -> string): string
    requires index < |items|
    decreases items, 0, 0
  {
    ChildLine + Format(items[index], numberText) + Separator(index, |items|) + CloseTag("div")
  }

  /** The lines of the first `count` items of an array, in order. */
  function ArrayLines(items: seq<JsValue>, count: nat, numberText: real -> string): string
    requires count <= |items|
    decreases items, 1, count
  {
    if count == 0 then ""
    else ArrayLines(items, count - 1, numberText) + ItemLine(items, count - 1, numberText)
  }

  /** The start of an object's child line: the line div, the escaped quoted key and the `: ` separator. */
  function KeyedLineStart(key: string): string
  {
    ChildLine + Span("json-key", "\"" + EscapeHtml(key) + "\"") + Bracket(": ")
  }

  /** The line of the property at key position `index`: key, value, then a comma unless it is the last. */
  function PropertyLine(props: seq<Property>, index: nat, numberText: real -> string): string
    requires index < |props|
    decreases props, 0, 0
  {
    KeyedLineStart(props[index].key) + Format(props[index].value, numberText)
      + Separator(index, |props|) + CloseTag("div")
  }

  /** The lines of the first `count` properties of an object, in key order. */
  function ObjectLines(props: seq<Property>, count: nat, numberText: real -> string): string
    requires count <= |props|
    decreases props, 1, count
  {
    if count == 0 then ""
    else ObjectLines(props, count - 1, numberText) + PropertyLine(props, count - 1, numberText)
  }

  /** `'  '.repeat(indent)`. */
  function Repeat(s: string, count: nat): string
  {
    if count == 0 then "" else s + Repeat(s, count - 1)
  }

  /** A string that opens with a tag and closes with one, whatever lies between. */
  predicate IsElement(r: string)
  {
    |r| > 0 && r[0] == '<' && r[|r| - 1] == '>'
  }

  lemma ElementConcat(a: string, mid: string, c: string)
    requires IsElement(a) && IsElement(c)
    ensures IsElement(a + mid + c)
  {
    var r := a + mid + c;
    assert r[0] == a[0];
    assert r[|r| - 1] == c[|c| - 1];
  }

  lemma SpanIsElement(cls: string, body: string)
    ensures IsElement(Span(cls, body))
  {
    var open := OpenTag("span", cls);
    var close := CloseTag("span");
    assert open[0] == '<';
    assert close[|close| - 1] == '>';
    ElementConcat(open, body, close);
  }

  lemma CompositeIsElement(open: string, lines: string, close: string)
    ensures IsElement(Header(open) + lines + Footer(close))
  {
    var line := OpenTag("div", "json-line");
    var end := CloseTag("div");
    assert line[0] == '<';
    assert end[|end| - 1] == '>';
    ElementConcat(line, Collapsible(open) + OpenTag("div", "json-content"), line);
    ElementConcat(end, ClosingLine(close), end);
    ElementConcat(Header(open), lines, Footer(close));
  }

  /** The markup of every value is one element: it opens with a tag and closes with one. */
  lemma FormatIsElement(v: JsValue, numberText: real -> string)
    ensures IsElement(Format(v, numberText))
  {
    match v
    case JNull => SpanIsElement("json-null", "null");
    case JString(s) => SpanIsElement("json-string", "\"" + EscapeHtml(s) + "\"");
    case JNumber(n) => SpanIsElement("json-number", numberText(n));
    case JBool(b) => SpanIsElement("json-boolean", if b then "true" else "false");
    case JArray(items) =>
      if |items| == 0 {
        SpanIsElement("json-bracket", "[]");
      } else {
        CompositeIsElement("[", ArrayLines(items, |items|, numberText), "]");
      }
    case JObject(props) =>
      if |props| == 0 {
        SpanIsElement("json-bracket", "{}");
      } else {
        CompositeIsElement("{", ObjectLines(props, |props|, numberText), "}");
      }
  }

  /** Appending two strings one after the other appends their concatenation. */
  lemma AppendTwo(before: string, a: string, b: string)
    ensures (before + a) + b == before + (a + b)
  {
  }

  /** Appending three strings one after the other appends their concatenation. */
  lemma AppendThree(before: string, a: string, b: string, c: string)
    ensures ((before + a) + b) + c == before + ((a + b) + c)
  {
  }

  /** `formatJSON(obj, indent)` as the source computes it, accumulating into `result`. */
  method FormatJSON(obj: JsValue, indent: nat, numberText: real -> string) returns (result: string)
    ensures result == Format(obj, numberText)
    decreases obj, 2
  {
    var indentStr := Repeat("  ", indent);  // computed and never used
    match obj {
      case JNull =>
        return Span("json-null", "null");
      case JString(s) =>
        return Span("json-string", "\"" + EscapeHtml(s) + "\"");
      case JNumber(n) =>
        return Span("json-number", numberText(n));
      case JBool(b) =>
        return Span("json-boolean", if b then "true" else "false");
      case JArray(items) =>
        if |items| == 0 {
          return Bracket("[]");
        }
        result := FormatArray(items, indent, numberText);
      case JObject(props) =>
        if |props| == 0 {
          return Bracket("{}");
        }
        result := FormatObject(props, indent, numberText);
    }
  }

  /** The non-empty array branch of `formatJSON`: `obj.forEach` appends one line per item. */
  method FormatArray(items: seq<JsValue>, indent: nat, numberText: real -> string) returns (result: string)
    requires |items| > 0
    ensures result == Format(JArray(items), numberText)
    decreases items, 2
  {
    result := OpenComposite("[");
    result := AppendItemLines(result, items, indent, numberText);
    result := CloseComposite(result, "]");
  }

  /** `obj.forEach`: appends the line of every item, in order. */
  method AppendItemLines(start: string, items: seq<JsValue>, indent: nat, numberText: real -> string)
    returns (result: string)
    ensures result == start + ArrayLines(items, |items|, numberText)
    decreases items, 1
  {
    result := start;
    var index := 0;
    while index < |items|
      invariant 0 <= index <= |items|
      invariant result == start + ArrayLines(items, index, numberText)
    {
      var extended := AppendItemLine(result, items, index, indent + 1, numberText);
      ArrayLinesStep(start, items, index, numberText, result, extended);
      result := extended;
      index := index + 1;
    }
  }

  /** The three appends that open a non-empty composite: its line, the collapsible, the content div. */
  method OpenComposite(open: string) returns (result: string)
    ensures result == Header(open)
  {
    result := OpenTag("div", "json-line");
    result := result + Collapsible(open);
    result := result + OpenTag("div", "json-content");
  }

  /** The three appends that close a non-empty composite: the content div, the closing-bracket line, the composite's line. */
  method CloseComposite(body: string, close: string) returns (result: string)
    ensures result == body + Footer(close)
  {
    result := body + CloseTag("div");
    result := result + ClosingLine(close);
    result := result + CloseTag("div");
    AppendThree(body, CloseTag("div"), ClosingLine(close), CloseTag("div"));
  }

  /** Appending the line of item `index` to the first `index` lines gives the first `index + 1`. */
  lemma ArrayLinesStep(start: string, items: seq<JsValue>, index: nat, numberText: real -> string, result: string, extended: string)
    requires index < |items|
    requires result == start + ArrayLines(items, index, numberText)
    requires extended == result + ItemLine(items, index, numberText)
    ensures extended == start + ArrayLines(items, index + 1, numberText)
  {
    AppendTwo(start, ArrayLines(items, index, numberText), ItemLine(items, index, numberText));
  }

  /** The `forEach` callback for array item `index`: appends the item's line to `result`. */
  method AppendItemLine(result: string, items: seq<JsValue>, index: nat, indent: nat, numberText: real -> string)
    returns (extended: string)
    requires index < |items|
    ensures extended == result + ItemLine(items, index, numberText)
    decreases items, 0
  {
    extended := result + ChildLine;
    var item := FormatJSON(items[index], indent, numberText);
    extended := extended + item;
    if index < |items| - 1 {
      extended := extended + Bracket(",");
    }
    var line := extended;
    assert line == result + ChildLine + item + Separator(index, |items|);
    extended := extended + CloseTag("div");
    AppendThree(result, ChildLine, item, Separator(index, |items|));
    AppendTwo(result, ChildLine + item + Separator(index, |items|), CloseTag("div"));
  }

  /** The non-empty object branch of `formatJSON`: `keys.forEach` appends one line per key. */
  method FormatObject(props: seq<Property>, indent: nat, numberText: real -> string) returns (result: string)
    requires |props| > 0
    ensures result == Format(JObject(props), numberText)
    decreases props, 2
  {
    result := OpenComposite("{");
    result := AppendPropertyLines(result, props, indent, numberText);
    result := CloseComposite(result, "}");
  }

  /** `Object.keys(obj).forEach`: appends the line of every key, in key order. */
  method AppendPropertyLines(start: string, props: seq<Property>, indent: nat, numberText: real -> string)
    returns (result: string)
    ensures result == start + ObjectLines(props, |props|, numberText)
    decreases props, 1
  {
    result := start;
    var index := 0;
    while index < |props|
      invariant 0 <= index <= |props|
      invariant result == start + ObjectLines(props, index, numberText)
    {
      var extended := AppendPropertyLine(result, props, index, indent + 1, numberText);
      ObjectLinesStep(start, props, index, numberText, result, extended);
      result := extended;
      index := index + 1;
    }
  }

  /** Appending the line of key `index` to the first `index` lines gives the first `index + 1`. */
  lemma ObjectLinesStep(start: string, props: seq<Property>, index: nat, numberText: real -> string, result: string, extended: string)
    requires index < |props|
    requires result == start + ObjectLines(props, index, numberText)
    requires extended == result + PropertyLine(props, index, numberText)
    ensures extended == start + ObjectLines(props, index + 1, numberText)
  {
    AppendTwo(start, ObjectLines(props, index, numberText), PropertyLine(props, index, numberText));
  }

  /** The `forEach` callback for key position `index`: appends that key's line to `result`. */
  method AppendPropertyLine(result: string, props: seq<Property>, index: nat, indent: nat, numberText: real -> string)
    returns (extended: string)
    requires index < |props|
    ensures extended == result + PropertyLine(props, index, numberText)
    decreases props, 0
  {
    var key := props[index].key;
    var keySpan := Span("json-key", "\"" + EscapeHtml(key) + "\"");
    extended := result + ChildLine;
    extended := extended + keySpan;
    extended := extended + Bracket(": ");
    AppendThree(result, ChildLine, keySpan, Bracket(": "));
    var start := extended;
    var value := FormatJSON(props[index].value, indent, numberText);
    extended := extended + value;
    if index < |props| - 1 {
      extended := extended + Bracket(",");
    }
    var line := extended;
    assert line == start + value + Separator(index, |props|);
    extended := extended + CloseTag("div");
    AppendThree(result, KeyedLineStart(key), value, Separator(index, |props|));
    AppendTwo(result, KeyedLineStart(key) + value + Separator(index, |props|), CloseTag("div"));
  }


  /** A span written out: the opening tag with its class, the body, the closing tag. */
  lemma SpanMarkup(cls: string, body: string)
    ensures Span(cls, body) == "<span class=\"" + cls + "\">" + body + "</span>"
  {
    assert "<" + "span" + " class=\"" == "<span class=\"";
  }

  /** `null` is one `json-null` span. */
  lemma NullMarkup(numberText: real -> string)
    ensures Format(JNull, numberText) == "<span class=\"" + "json-null" + "\">" + "null" + "</span>"
  {
    SpanMarkup("json-null", "null");
  }

  /** A boolean is one `json-boolean` span holding `true` or `false`. */
  lemma BoolMarkup(b: bool, numberText: real -> string)
    ensures Format(JBool(b), numberText)
         == "<span class=\"" + "json-boolean" + "\">" + (if b then "true" else "false") + "</span>"
  {
    SpanMarkup("json-boolean", if b then "true" else "false");
  }

  /** An empty array is a bare bracket pair, with no collapsible header. */
  lemma EmptyArrayMarkup(numberText: real -> string)
    ensures Format(JArray([]), numberText) == "<span class=\"" + "json-bracket" + "\">" + "[]" + "</span>"
  {
    SpanMarkup("json-bracket", "[]");
  }

  /** An empty object is a bare brace pair, with no collapsible header. */
  lemma EmptyObjectMarkup(numberText: real -> string)
    ensures Format(JObject([]), numberText) == "<span class=\"" + "json-bracket" + "\">" + "{}" + "</span>"
  {
    SpanMarkup("json-bracket", "{}");
  }
}
