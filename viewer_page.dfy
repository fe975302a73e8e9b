/**
 * The viewer page: `setJSON` fills the `json-viewer` container, and the click
 * listener that `addToggleListeners` attaches to every collapsible header shows or
 * hides that header's content. Collapsibles are numbered in document order, the
 * order in which `querySelectorAll('.collapsible')` returns them.
 */
module ViewerPage {
  import opened Wrappers
  import opened HtmlFormat
  import opened HtmlTokens
  import opened HtmlLexer

  // Collapsible headers in the markup

  /** The number of collapsible headers `formatJSON` writes for `v`: one per non-empty array or object in it. */
  function Collapsibles(v: JsValue): nat
    decreases v, 0, 0
  {
    match v
    case JArray(items) => if |items| == 0 then 0 else 1 + ItemCollapsibles(items, 0)
    case JObject(props) => if |props| == 0 then 0 else 1 + PropertyCollapsibles(props, 0)
    case _ => 0
  }

  function ItemCollapsibles(items: seq<JsValue>, from: nat): nat
    requires from <= |items|
    decreases items, 1, |items| - from
  {
    if from == |items| then 0 else Collapsibles(items[from]) + ItemCollapsibles(items, from + 1)
  }

  function PropertyCollapsibles(props: seq<Property>, from: nat): nat
    requires from <= |props|
    decreases props, 1, |props| - from
  {
    if from == |props| then 0 else Collapsibles(props[from].value) + PropertyCollapsibles(props, from + 1)
  }

  const CollapsibleToken := Open("span", "collapsible")

  /** How many times `t` occurs in `ts`. */
  function Occurrences(ts: seq<Token>, t: Token): nat
  {
    if ts == [] then 0 else (if ts[0] == t then 1 else 0) + Occurrences(ts[1..], t)
  }

  lemma {:induction false} OccurrencesAppend(a: seq<Token>, b: seq<Token>, t: Token)
    ensures Occurrences(a + b, t) == Occurrences(a, t) + Occurrences(b, t)
    decreases |a|
  {
    if a == [] {
      assert a + b == b;
    } else {
      assert (a + b)[0] == a[0];
      assert (a + b)[1..] == a[1..] + b;
      OccurrencesAppend(a[1..], b, t);
    }
  }

  lemma OccurrencesAppendThree(a: seq<Token>, b: seq<Token>, c: seq<Token>, t: Token)
    ensures Occurrences(a + b + c, t) == Occurrences(a, t) + Occurrences(b, t) + Occurrences(c, t)
  {
    OccurrencesAppend(a + b, c, t);
    OccurrencesAppend(a, b, t);
  }

  lemma OccurrencesAppendFour(a: seq<Token>, b: seq<Token>, c: seq<Token>, d: seq<Token>, t: Token)
    ensures Occurrences(a + b + c + d, t)
         == Occurrences(a, t) + Occurrences(b, t) + Occurrences(c, t) + Occurrences(d, t)
  {
    OccurrencesAppend(a + b + c, d, t);
    OccurrencesAppendThree(a, b, c, t);
  }

  lemma OccurrencesOne(u: Token, t: Token)
    ensures Occurrences([u], t) == if u == t then 1 else 0
  {
    assert [u][1..] == [];
  }

  lemma SpanHasNoCollapsible(cls: string, body: string)
    requires cls != "collapsible"
    ensures Occurrences(SpanTokens(cls, body), CollapsibleToken) == 0
  {
    OccurrencesOne(Open("span", cls), CollapsibleToken);
    OccurrencesOne(Close("span"), CollapsibleToken);
    if body == [] {
      OccurrencesAppend([Open("span", cls)], [Close("span")], CollapsibleToken);
    } else {
      OccurrencesOne(Text(body), CollapsibleToken);
      OccurrencesAppendThree([Open("span", cls)], [Text(body)], [Close("span")], CollapsibleToken);
    }
  }

  lemma HeaderHasOneCollapsible(open: string)
    ensures Occurrences(HeaderTokens(open), CollapsibleToken) == 1
  {
    var t := CollapsibleToken;
    OccurrencesOne(Open("span", "collapsible"), t);
    OccurrencesOne(Close("span"), t);
    SpanHasNoCollapsible("toggle", [Expanded]);
    SpanHasNoCollapsible("json-bracket", open);
    OccurrencesAppendFour([Open("span", "collapsible")], SpanTokens("toggle", [Expanded]), BracketTokens(open), [Close("span")], t);
    OccurrencesOne(Open("div", "json-line"), t);
    OccurrencesOne(Open("div", "json-content"), t);
    OccurrencesAppendThree([Open("div", "json-line")], CollapsibleTokens(open), [Open("div", "json-content")], t);
  }

  lemma FooterHasNoCollapsible(close: string)
    ensures Occurrences(FooterTokens(close), CollapsibleToken) == 0
  {
    var t := CollapsibleToken;
    OccurrencesOne(Open("div", "json-line"), t);
    OccurrencesOne(Close("div"), t);
    SpanHasNoCollapsible("json-bracket", close);
    OccurrencesAppendThree([Open("div", "json-line")], BracketTokens(close), [Close("div")], t);
    OccurrencesAppendThree([Close("div")], ClosingLineTokens(close), [Close("div")], t);
  }

  lemma SeparatorHasNoCollapsible(index: nat, count: nat)
    ensures Occurrences(SeparatorTokens(index, count), CollapsibleToken) == 0
  {
    SpanHasNoCollapsible("json-bracket", ",");
  }

  lemma KeyHasNoCollapsible(key: string)
    ensures Occurrences(KeyedLineStartTokens(key), CollapsibleToken) == 0
  {
    var t := CollapsibleToken;
    OccurrencesOne(ChildLineToken, t);
    SpanHasNoCollapsible("json-key", "\"" + HtmlEscape.EscapeHtml(key) + "\"");
    SpanHasNoCollapsible("json-bracket", ": ");
    OccurrencesAppendThree([ChildLineToken], SpanTokens("json-key", "\"" + HtmlEscape.EscapeHtml(key) + "\""), BracketTokens(": "), t);
  }

  lemma CompositeCollapsibles(open: string, close: string, lines: seq<Token>)
    ensures Occurrences(HeaderTokens(open) + lines + FooterTokens(close), CollapsibleToken)
         == 1 + Occurrences(lines, CollapsibleToken)
  {
    HeaderHasOneCollapsible(open);
    FooterHasNoCollapsible(close);
    OccurrencesAppendThree(HeaderTokens(open), lines, FooterTokens(close), CollapsibleToken);
  }

  /** The markup of `v` holds one collapsible header per non-empty array or object in `v`. */
  lemma {:induction false} CollapsiblesInTokens(v: JsValue, numberText: real -> string)
    ensures Occurrences(Tokens(v, numberText), CollapsibleToken) == Collapsibles(v)
    decreases v, 0, 0
  {
    match v
    case JNull => SpanHasNoCollapsible("json-null", "null");
    case JString(s) => SpanHasNoCollapsible("json-string", "\"" + HtmlEscape.EscapeHtml(s) + "\"");
    case JNumber(n) => SpanHasNoCollapsible("json-number", numberText(n));
    case JBool(b) => SpanHasNoCollapsible("json-boolean", if b then "true" else "false");
    case JArray(items) =>
      if |items| == 0 {
        SpanHasNoCollapsible("json-bracket", "[]");
      } else {
        ItemLinesCollapsibles(items, 0, numberText);
        CompositeCollapsibles("[", "]", ItemTokens(items, 0, numberText));
      }
    case JObject(props) =>
      if |props| == 0 {
        SpanHasNoCollapsible("json-bracket", "{}");
      } else {
        PropertyLinesCollapsibles(props, 0, numberText);
        CompositeCollapsibles("{", "}", PropertyTokens(props, 0, numberText));
      }
  }

  lemma {:induction false} ItemLinesCollapsibles(items: seq<JsValue>, from: nat, numberText: real -> string)
    requires from <= |items|
    ensures Occurrences(ItemTokens(items, from, numberText), CollapsibleToken) == ItemCollapsibles(items, from)
    decreases items, 1, |items| - from
  {
    if from < |items| {
      var t := CollapsibleToken;
      OccurrencesOne(ChildLineToken, t);
      OccurrencesOne(Close("div"), t);
      CollapsiblesInTokens(items[from], numberText);
      SeparatorHasNoCollapsible(from, |items|);
      OccurrencesAppendFour([ChildLineToken], Tokens(items[from], numberText), SeparatorTokens(from, |items|), [Close("div")], t);
      ItemLinesCollapsibles(items, from + 1, numberText);
      OccurrencesAppend(ItemLineTokens(items, from, numberText), ItemTokens(items, from + 1, numberText), t);
    }
  }

  lemma {:induction false} PropertyLinesCollapsibles(props: seq<Property>, from: nat, numberText: real -> string)
    requires from <= |props|
    ensures Occurrences(PropertyTokens(props, from, numberText), CollapsibleToken) == PropertyCollapsibles(props, from)
    decreases props, 1, |props| - from
  {
    if from < |props| {
      var t := CollapsibleToken;
      OccurrencesOne(Close("div"), t);
      KeyHasNoCollapsible(props[from].key);
      CollapsiblesInTokens(props[from].value, numberText);
      SeparatorHasNoCollapsible(from, |props|);
      OccurrencesAppendFour(KeyedLineStartTokens(props[from].key), Tokens(props[from].value, numberText),
                            SeparatorTokens(from, |props|), [Close("div")], t);
      PropertyLinesCollapsibles(props, from + 1, numberText);
      OccurrencesAppend(PropertyLineTokens(props, from, numberText), PropertyTokens(props, from + 1, numberText), t);
    }
  }

  /**
   * Read back as tokens, the markup `formatJSON` writes for `v` has exactly
   * `Collapsibles(v)` collapsible headers: the elements that receive a click listener.
   */
  lemma CollapsiblesInMarkup(v: JsValue, numberText: real -> string)
    requires PlainNumbers(numberText)
    ensures Tokenize(Format(v, numberText)).Some?
    ensures Occurrences(Tokenize(Format(v, numberText)).value, CollapsibleToken) == Collapsibles(v)
  {
    TokenizeFormat(v, numberText);
    CollapsiblesInTokens(v, numberText);
  }

  // The click handler

  /** `content.style.display` of a collapsible's content: `''` until first clicked, then `'none'` or `'block'`. */
  datatype Display = Unset | Hidden | Block

  /** What one click sets the content's display to. */
  function Toggled(d: Display): (r: Display)
    ensures r != Unset
    ensures r == Hidden <==> d != Hidden
  {
    if d == Hidden then Block else Hidden
  }

  /** The glyph shown in a collapsible's toggle for a given display of its content. */
  function GlyphFor(d: Display): char
  {
    if d == Hidden then Collapsed else Expanded
  }

  /** The displays of all collapsibles after clicking collapsible `i`. */
  function AfterClick(displays: seq<Display>, i: nat): (r: seq<Display>)
    requires i < |displays|
    ensures |r| == |displays|
    ensures forall j | 0 <= j < |r| && j != i :: r[j] == displays[j]
    ensures (r[i] == Hidden) == (displays[i] != Hidden)
  {
    displays[i := Toggled(displays[i])]
  }

  /** Two clicks on the same collapsible leave every collapsible exactly as visible as before. */
  lemma ClickTwice(displays: seq<Display>, i: nat)
    requires i < |displays|
    ensures var twice := AfterClick(AfterClick(displays, i), i);
      forall j | 0 <= j < |displays| :: (twice[j] == Hidden) == (displays[j] == Hidden)
  {
  }

  /** Once a collapsible has been clicked, two further clicks restore its display exactly. */
  lemma ToggledTwice(d: Display)
    requires d != Unset
    ensures Toggled(Toggled(d)) == d
  {
  }

  const Placeholder: string := "<div>\U{7B49}\U{5F85}JSON\U{6570}\U{636E}...</div>"

  /** The container's content when `JSON.parse` fails with `message`. */
  function ErrorMarkup(message: string): string
  {
    "<div style=\"color: #f44747;\">JSON\U{89E3}\U{6790}\U{9519}\U{8BEF}: " + message + "</div>"
  }

  /**
   * The container of the viewer page and the state of its collapsibles:
   * `display[i]` and `glyph[i]` belong to collapsible `i`, and `posted` lists
   * the `expanded` flags sent to the native `jsonClick` handler.
   */
  class Page {
    var html: string
    var display: seq<Display>
    var glyph: seq<char>
    var posted: seq<bool>

    /** Each toggle shows the glyph that matches its content's display. */
    predicate Valid()
      reads this
    {
      |glyph| == |display| && forall i | 0 <= i < |display| :: glyph[i] == GlyphFor(display[i])
    }

    /** The page as loaded, before any JSON arrives. */
    constructor()
      ensures Valid()
      ensures html == Placeholder && display == [] && glyph == [] && posted == []
    {
      html := Placeholder;
      display := [];
      glyph := [];
      posted := [];
    }

    /**
     * `setJSON`: the outcome of `JSON.parse` on the incoming text decides between
     * the formatted tree, whose collapsibles all start expanded, and an error message.
     */
    method SetJSON(parsed: Result<JsValue, string>, numberText: real -> string)
      modifies this
      ensures Valid()
      ensures parsed.Ok? ==> html == Format(parsed.value, numberText)
      ensures parsed.Ok? ==> |display| == Collapsibles(parsed.value)
      ensures parsed.Ok? ==> forall i | 0 <= i < |display| :: display[i] == Unset
      ensures parsed.Err? ==> html == ErrorMarkup(parsed.error) && display == []
      ensures posted == old(posted)
    {
      match parsed {
        case Ok(json) =>
          html := FormatJSON(json, 0, numberText);
          AddToggleListeners(Collapsibles(json));
        case Err(message) =>
          html := ErrorMarkup(message);
          display := [];
          glyph := [];
      }
    }

    /** Registers the listeners of `count` fresh collapsibles: none clicked yet, each showing the expanded glyph. */
    method AddToggleListeners(count: nat)
      modifies this
      ensures Valid()
      ensures |display| == count && forall i | 0 <= i < count :: display[i] == Unset
      ensures html == old(html) && posted == old(posted)
    {
      display := [];
      glyph := [];
      while |display| < count
        invariant |display| <= count
        invariant |glyph| == |display|
        invariant forall i | 0 <= i < |display| :: display[i] == Unset && glyph[i] == Expanded
        invariant html == old(html) && posted == old(posted)
      {
        display := display + [Unset];
        glyph := glyph + [Expanded];
      }
    }

    /** The click listener of collapsible `i`; `handlerPresent` says whether the native `jsonClick` handler exists. */
    method Click(i: nat, handlerPresent: bool)
      requires Valid() && i < |display|
      modifies this
      ensures Valid()
      ensures display == AfterClick(old(display), i)
      ensures glyph == old(glyph)[i := GlyphFor(display[i])]
      ensures html == old(html)
      ensures posted == if handlerPresent then old(posted) + [display[i] != Hidden] else old(posted)
    {
      if display[i] == Hidden {
        display := display[i := Block];
        glyph := glyph[i := Expanded];
      } else {
        display := display[i := Hidden];
        glyph := glyph[i := Collapsed];
      }
      if handlerPresent {
        posted := posted + [display[i] != Hidden];
      }
    }
  }
}
