/**
 * Reading the viewer's markup back into what it displays. `Read` tokenizes the
 * markup and recognises the spans, collapsible headers, child lines and closing
 * lines that `formatJSON` writes. The main result, `ReadFormat`, is that `Read`
 * recovers from `Format(v)` everything about `v` except how numbers were turned
 * into text: the formatter loses no structure, no key and no string content.
 */
module HtmlReader {
  import opened Wrappers
  import opened HtmlEscape
  import opened HtmlFormat
  import opened HtmlTokens
  import opened HtmlLexer

  /** A value as the page shows it: numbers by their text, everything else as it was parsed. */
  datatype Shown =
    | SNull
    | SString(s: string)
    | SNumber(text: string)
    | SBool(b: bool)
    | SArray(items: seq<Shown>)
    | SObject(entries: seq<ShownEntry>)

  datatype ShownEntry = ShownEntry(key: string, value: Shown)

  /** What the page shows for `v` when numbers are written with `numberText`. */
  function Erase(v: JsValue, numberText: real -> string): Shown
  {
    match v
    case JNull => SNull
    case JString(s) => SString(s)
    case JNumber(n) => SNumber(numberText(n))
    case JBool(b) => SBool(b)
    case JArray(items) => SArray(ErasedItems(items, 0, numberText))
    case JObject(props) => SObject(ErasedEntries(props, 0, numberText))
  }

  function ErasedItems(items: seq<JsValue>, from: nat, numberText: real -> string): seq<Shown>
    requires from <= |items|
    decreases items, |items| - from
  {
    if from == |items| then [] else [Erase(items[from], numberText)] + ErasedItems(items, from + 1, numberText)
  }

  function ErasedEntries(props: seq<Property>, from: nat, numberText: real -> string): seq<ShownEntry>
    requires from <= |props|
    decreases props, |props| - from
  {
    if from == |props| then []
    else [ShownEntry(props[from].key, Erase(props[from].value, numberText))] + ErasedEntries(props, from + 1, numberText)
  }

  /** A span: its class and its text, which is empty when the span has no text token. */
  function ReadSpan(ts: seq<Token>): (r: Option<(string, string, seq<Token>)>)
    ensures r.Some? ==> |r.value.2| < |ts|
  {
    if |ts| >= 2 && ts[0].Open? && ts[0].tag == "span" then
      if ts[1] == Close("span") then Some((ts[0].cls, "", ts[2..]))
      else if |ts| >= 3 && ts[1].Text? && ts[2] == Close("span") then Some((ts[0].cls, ts[1].text, ts[3..]))
      else None
    else None
  }

  /** The text between a pair of double quotes, with its entities decoded. */
  function Unquote(body: string): Option<string>
  {
    if |body| >= 2 && body[0] == '"' && body[|body| - 1] == '"' then Unescape(body[1..|body| - 1]) else None
  }

  /** The value a scalar or empty-composite span stands for. */
  function ReadScalar(cls: string, body: string): Option<Shown>
  {
    if cls == "json-null" && body == "null" then Some(SNull)
    else if cls == "json-string" then
      match Unquote(body)
      case Some(s) => Some(SString(s))
      case None => None
    else if cls == "json-number" then Some(SNumber(body))
    else if cls == "json-boolean" && body == "true" then Some(SBool(true))
    else if cls == "json-boolean" && body == "false" then Some(SBool(false))
    else if cls == "json-bracket" && body == "[]" then Some(SArray([]))
    else if cls == "json-bracket" && body == "{}" then Some(SObject([]))
    else None
  }

  /** The header of a non-empty composite; yields its opening bracket. */
  function ReadHeader(ts: seq<Token>): (r: Option<(string, seq<Token>)>)
    ensures r.Some? ==> |r.value.1| < |ts|
  {
    if |ts| >= 2 && ts[0] == Open("div", "json-line") && ts[1] == Open("span", "collapsible") then
      match ReadSpan(ts[2..])
      case Some((toggle, glyph, r1)) =>
        if toggle == "toggle" && glyph == [Expanded] then
          match ReadSpan(r1)
          case Some((bracket, open, r2)) =>
            if bracket == "json-bracket" && |r2| >= 2 && r2[0] == Close("span") && r2[1] == Open("div", "json-content")
            then Some((open, r2[2..]))
            else None
          case None => None
        else None
      case None => None
    else None
  }

  /** The end of a non-empty composite; yields its closing bracket. */
  function ReadFooter(ts: seq<Token>): (r: Option<(string, seq<Token>)>)
    ensures r.Some? ==> |r.value.1| < |ts|
  {
    if |ts| >= 2 && ts[0] == Close("div") && ts[1] == Open("div", "json-line") then
      match ReadSpan(ts[2..])
      case Some((bracket, close, r)) =>
        if bracket == "json-bracket" && |r| >= 2 && r[0] == Close("div") && r[1] == Close("div")
        then Some((close, r[2..]))
        else None
      case None => None
    else None
  }

  /** One value and the tokens after it. */
  function ReadValue(ts: seq<Token>): (r: Option<(Shown, seq<Token>)>)
    ensures r.Some? ==> |r.value.1| < |ts|
    decreases |ts|, 1
  {
    match ReadHeader(ts)
    case Some((open, r)) =>
      if open == "[" then
        match ReadItems(r)
        case Some((items, r2)) =>
          (match ReadFooter(r2)
           case Some((close, r3)) => if close == "]" then Some((SArray(items), r3)) else None
           case None => None)
        case None => None
      else if open == "{" then
        match ReadEntries(r)
        case Some((entries, r2)) =>
          (match ReadFooter(r2)
           case Some((close, r3)) => if close == "}" then Some((SObject(entries), r3)) else None
           case None => None)
        case None => None
      else None
    case None =>
      match ReadSpan(ts)
      case Some((cls, body, r)) =>
        (match ReadScalar(cls, body)
         case Some(x) => Some((x, r))
         case None => None)
      case None => None
  }

  /** After a child's value: `Some(true)` and the rest after a comma, `Some(false)` at the last line's end. */
  function ReadLineEnd(ts: seq<Token>): (r: Option<(bool, seq<Token>)>)
    ensures r.Some? ==> |r.value.1| < |ts|
  {
    if ts != [] && ts[0] == Close("div") then Some((false, ts[1..]))
    else
      match ReadSpan(ts)
      case Some((cls, body, r)) =>
        if cls == "json-bracket" && body == "," && r != [] && r[0] == Close("div") then Some((true, r[1..])) else None
      case None => None
  }

  /** One or more array item lines. */
  function ReadItems(ts: seq<Token>): (r: Option<(seq<Shown>, seq<Token>)>)
    ensures r.Some? ==> |r.value.1| < |ts|
    decreases |ts|, 0
  {
    if ts != [] && ts[0] == ChildLineToken then
      match ReadValue(ts[1..])
      case Some((x, r)) =>
        (match ReadLineEnd(r)
         case Some((more, r2)) =>
           if !more then Some(([x], r2))
           else
             (match ReadItems(r2)
              case Some((xs, r3)) => Some(([x] + xs, r3))
              case None => None)
         case None => None)
      case None => None
    else None
  }

  /** The key part of an object's child line. */
  function ReadKey(ts: seq<Token>): (r: Option<(string, seq<Token>)>)
    ensures r.Some? ==> |r.value.1| < |ts|
  {
    if ts != [] && ts[0] == ChildLineToken then
      match ReadSpan(ts[1..])
      case Some((cls, quoted, r)) =>
        (match Unquote(quoted)
         case Some(key) =>
           if cls == "json-key" then
             (match ReadSpan(r)
              case Some((bracket, colon, r2)) => if bracket == "json-bracket" && colon == ": " then Some((key, r2)) else None
              case None => None)
           else None
         case None => None)
      case None => None
    else None
  }

  /** One or more object property lines. */
  function ReadEntries(ts: seq<Token>): (r: Option<(seq<ShownEntry>, seq<Token>)>)
    ensures r.Some? ==> |r.value.1| < |ts|
    decreases |ts|, 0
  {
    match ReadKey(ts)
    case Some((key, r)) =>
      (match ReadValue(r)
       case Some((x, r1)) =>
         (match ReadLineEnd(r1)
          case Some((more, r2)) =>
            if !more then Some(([ShownEntry(key, x)], r2))
            else
              (match ReadEntries(r2)
               case Some((xs, r3)) => Some(([ShownEntry(key, x)] + xs, r3))
               case None => None)
          case None => None)
       case None => None)
    case None => None
  }

  /** What the page shows for the markup `html`, or `None` if it is not a single formatted value. */
  function Read(html: string): Option<Shown>
  {
    match Tokenize(html)
    case Some(ts) =>
      (match ReadValue(ts)
       case Some((x, rest)) => if rest == [] then Some(x) else None
       case None => None)
    case None => None
  }

  lemma Regroup(a: seq<Token>, b: seq<Token>, c: seq<Token>)
    ensures a + b + c == a + (b + c)
  {
  }

  lemma ReadSpanTokens(cls: string, body: string, rest: seq<Token>)
    ensures ReadSpan(SpanTokens(cls, body) + rest) == Some((cls, body, rest))
  {
    var ts := SpanTokens(cls, body) + rest;
    if body == [] {
      assert ts == [Open("span", cls), Close("span")] + rest;
      assert ts[2..] == rest;
    } else {
      assert ts == [Open("span", cls), Text(body), Close("span")] + rest;
      assert ts[3..] == rest;
    }
  }

  /** A string's quoted, escaped form reads back as the string. */
  lemma UnquoteQuoted(s: string)
    ensures Unquote("\"" + EscapeHtml(s) + "\"") == Some(s)
  {
    var body := "\"" + EscapeHtml(s) + "\"";
    assert body[1..|body| - 1] == EscapeHtml(s);
    UnescapeAfterEscape(s);
  }

  lemma ReadHeaderTokens(open: string, rest: seq<Token>)
    ensures ReadHeader(HeaderTokens(open) + rest) == Some((open, rest))
  {
    var r2 := [Close("span"), Open("div", "json-content")] + rest;
    var r1 := BracketTokens(open) + r2;
    var ts := [Open("div", "json-line"), Open("span", "collapsible")] + (SpanTokens("toggle", [Expanded]) + r1);
    assert HeaderTokens(open) + rest == ts;
    assert ts[2..] == SpanTokens("toggle", [Expanded]) + r1;
    ReadSpanTokens("toggle", [Expanded], r1);
    ReadSpanTokens("json-bracket", open, r2);
    assert r2[2..] == rest;
  }

  lemma ReadFooterTokens(close: string, rest: seq<Token>)
    ensures ReadFooter(FooterTokens(close) + rest) == Some((close, rest))
  {
    var r := [Close("div"), Close("div")] + rest;
    var ts := [Close("div"), Open("div", "json-line")] + (BracketTokens(close) + r);
    assert FooterTokens(close) + rest == ts;
    assert ts[2..] == BracketTokens(close) + r;
    ReadSpanTokens("json-bracket", close, r);
    assert r[2..] == rest;
  }

  lemma ReadLineEndLast(rest: seq<Token>)
    ensures ReadLineEnd([Close("div")] + rest) == Some((false, rest))
  {
    assert ([Close("div")] + rest)[1..] == rest;
  }

  lemma ReadLineEndComma(rest: seq<Token>)
    ensures ReadLineEnd(BracketTokens(",") + ([Close("div")] + rest)) == Some((true, rest))
  {
    ReadSpanTokens("json-bracket", ",", [Close("div")] + rest);
    assert ([Close("div")] + rest)[1..] == rest;
  }

  lemma ReadKeyTokens(key: string, rest: seq<Token>)
    ensures ReadKey(KeyedLineStartTokens(key) + rest) == Some((key, rest))
  {
    var quoted := "\"" + EscapeHtml(key) + "\"";
    var r := BracketTokens(": ") + rest;
    var ts := [ChildLineToken] + (SpanTokens("json-key", quoted) + r);
    assert KeyedLineStartTokens(key) + rest == ts;
    assert ts[1..] == SpanTokens("json-key", quoted) + r;
    ReadSpanTokens("json-key", quoted, r);
    UnquoteQuoted(key);
    ReadSpanTokens("json-bracket", ": ", rest);
  }

  /** Reading the tokens of any value, followed by anything, yields what the page shows for it and the rest. */
  lemma {:induction false} ReadValueTokens(v: JsValue, numberText: real -> string, rest: seq<Token>)
    ensures ReadValue(Tokens(v, numberText) + rest) == Some((Erase(v, numberText), rest))
    decreases v, 0, 0
  {
    match v
    case JArray(items) =>
      if |items| == 0 {
        ReadScalarTokens("json-bracket", "[]", SArray([]), rest);
      } else {
        ReadItemsTokens(items, 0, numberText, FooterTokens("]") + rest);
        ReadCompositeArray(ItemTokens(items, 0, numberText), ErasedItems(items, 0, numberText), rest);
      }
    case JObject(props) =>
      if |props| == 0 {
        ReadScalarTokens("json-bracket", "{}", SObject([]), rest);
      } else {
        ReadEntriesTokens(props, 0, numberText, FooterTokens("}") + rest);
        ReadCompositeObject(PropertyTokens(props, 0, numberText), ErasedEntries(props, 0, numberText), rest);
      }
    case JNull => ReadScalarTokens("json-null", "null", SNull, rest);
    case JString(s) =>
      UnquoteQuoted(s);
      ReadScalarTokens("json-string", "\"" + EscapeHtml(s) + "\"", SString(s), rest);
    case JNumber(n) => ReadScalarTokens("json-number", numberText(n), SNumber(numberText(n)), rest);
    case JBool(b) => ReadScalarTokens("json-boolean", if b then "true" else "false", SBool(b), rest);
  }

  /** A scalar span reads as the value `ReadScalar` assigns it. */
  lemma ReadScalarTokens(cls: string, body: string, x: Shown, rest: seq<Token>)
    requires ReadScalar(cls, body) == Some(x)
    ensures ReadValue(SpanTokens(cls, body) + rest) == Some((x, rest))
  {
    ReadSpanTokens(cls, body, rest);
    var ts := SpanTokens(cls, body) + rest;
    assert ts[0] == Open("span", cls);
  }

  /** A value whose header opens `[` reads as the items that follow, when a `]` footer closes them. */
  lemma ReadValueArray(ts: seq<Token>, after: seq<Token>, items: seq<Shown>, r: seq<Token>, rest: seq<Token>)
    requires ReadHeader(ts) == Some(("[", after))
    requires ReadItems(after) == Some((items, r))
    requires ReadFooter(r) == Some(("]", rest))
    ensures ReadValue(ts) == Some((SArray(items), rest))
  {
  }

  /** A value whose header opens `{` reads as the entries that follow, when a `}` footer closes them. */
  lemma ReadValueObject(ts: seq<Token>, after: seq<Token>, entries: seq<ShownEntry>, r: seq<Token>, rest: seq<Token>)
    requires ReadHeader(ts) == Some(("{", after))
    requires ReadEntries(after) == Some((entries, r))
    requires ReadFooter(r) == Some(("}", rest))
    ensures ReadValue(ts) == Some((SObject(entries), rest))
  {
    assert "{" != "[";
  }

  /** A composite's header and footer around its lines read back as its brackets. */
  lemma ReadCompositeParts(open: string, close: string, lines: seq<Token>, rest: seq<Token>)
    ensures ReadHeader(HeaderTokens(open) + lines + FooterTokens(close) + rest)
         == Some((open, lines + (FooterTokens(close) + rest)))
    ensures ReadFooter(FooterTokens(close) + rest) == Some((close, rest))
  {
    var after := lines + (FooterTokens(close) + rest);
    assert HeaderTokens(open) + lines + FooterTokens(close) + rest == HeaderTokens(open) + after;
    ReadHeaderTokens(open, after);
    ReadFooterTokens(close, rest);
  }

  lemma ReadCompositeArray(lines: seq<Token>, items: seq<Shown>, rest: seq<Token>)
    requires ReadItems(lines + (FooterTokens("]") + rest)) == Some((items, FooterTokens("]") + rest))
    ensures ReadValue(HeaderTokens("[") + lines + FooterTokens("]") + rest) == Some((SArray(items), rest))
  {
    ReadCompositeParts("[", "]", lines, rest);
    ReadValueArray(HeaderTokens("[") + lines + FooterTokens("]") + rest, lines + (FooterTokens("]") + rest),
                   items, FooterTokens("]") + rest, rest);
  }

  lemma ReadCompositeObject(lines: seq<Token>, entries: seq<ShownEntry>, rest: seq<Token>)
    requires ReadEntries(lines + (FooterTokens("}") + rest)) == Some((entries, FooterTokens("}") + rest))
    ensures ReadValue(HeaderTokens("{") + lines + FooterTokens("}") + rest) == Some((SObject(entries), rest))
  {
    ReadCompositeParts("{", "}", lines, rest);
    ReadValueObject(HeaderTokens("{") + lines + FooterTokens("}") + rest, lines + (FooterTokens("}") + rest),
                    entries, FooterTokens("}") + rest, rest);
  }

  /**
   * An item line whose value reads back: it ends the items when no comma follows
   * the value, and otherwise the items go on with the next line.
   */
  lemma ReadItemLine(value: seq<Token>, x: Shown, end: seq<Token>, more: bool, later: seq<Token>)
    requires ReadValue(value + end) == Some((x, end))
    requires ReadLineEnd(end) == Some((more, later))
    ensures ReadItems([ChildLineToken] + (value + end))
         == if !more then Some(([x], later))
            else match ReadItems(later)
                 case Some((xs, r)) => Some(([x] + xs, r))
                 case None => None
  {
    assert ([ChildLineToken] + (value + end))[1..] == value + end;
  }

  /** Four pieces of a line followed by what comes after it, grouped from the right. */
  lemma RegroupLine(a: seq<Token>, b: seq<Token>, c: seq<Token>, d: seq<Token>, later: seq<Token>)
    ensures a + b + c + d + later == a + (b + (c + (d + later)))
  {
  }

  /** After a child's value, the end of its line reads as "more lines follow" exactly when it is not the last child. */
  lemma ReadLineEndAfter(index: nat, count: nat, later: seq<Token>)
    requires index < count
    ensures ReadLineEnd(SeparatorTokens(index, count) + ([Close("div")] + later)) == Some((index < count - 1, later))
  {
    if index < count - 1 {
      ReadLineEndComma(later);
    } else {
      assert SeparatorTokens(index, count) + ([Close("div")] + later) == [Close("div")] + later;
      ReadLineEndLast(later);
    }
  }

  /** The item lines from `from` on read back as the shown items from `from` on. */
  lemma {:induction false} ReadItemsTokens(items: seq<JsValue>, from: nat, numberText: real -> string, rest: seq<Token>)
    requires from < |items|
    ensures ReadItems(ItemTokens(items, from, numberText) + rest) == Some((ErasedItems(items, from, numberText), rest))
    decreases items, 1, |items| - from
  {
    var value := Tokens(items[from], numberText);
    var separator := SeparatorTokens(from, |items|);
    var later := ItemTokens(items, from + 1, numberText) + rest;
    var end := separator + ([Close("div")] + later);
    var x := Erase(items[from], numberText);
    Regroup(ItemLineTokens(items, from, numberText), ItemTokens(items, from + 1, numberText), rest);
    RegroupLine([ChildLineToken], value, separator, [Close("div")], later);
    ReadValueTokens(items[from], numberText, end);
    ReadLineEndAfter(from, |items|, later);
    ReadItemLine(value, x, end, from < |items| - 1, later);
    if from < |items| - 1 {
      ReadItemsTokens(items, from + 1, numberText, rest);
    } else {
      assert later == rest;
      assert ErasedItems(items, from + 1, numberText) == [];
      assert [x] + [] == [x];
    }
  }

  /**
   * A property line whose key and value read back: it ends the entries when no comma
   * follows the value, and otherwise the entries go on with the next line.
   */
  lemma ReadPropertyLine(key: string, value: seq<Token>, x: Shown, end: seq<Token>, more: bool, later: seq<Token>)
    requires ReadValue(value + end) == Some((x, end))
    requires ReadLineEnd(end) == Some((more, later))
    ensures ReadEntries(KeyedLineStartTokens(key) + (value + end))
         == if !more then Some(([ShownEntry(key, x)], later))
            else match ReadEntries(later)
                 case Some((xs, r)) => Some(([ShownEntry(key, x)] + xs, r))
                 case None => None
  {
    ReadKeyTokens(key, value + end);
  }

  /** The property lines from `from` on read back as the shown entries from `from` on. */
  lemma {:induction false} ReadEntriesTokens(props: seq<Property>, from: nat, numberText: real -> string, rest: seq<Token>)
    requires from < |props|
    ensures ReadEntries(PropertyTokens(props, from, numberText) + rest) == Some((ErasedEntries(props, from, numberText), rest))
    decreases props, 1, |props| - from
  {
    var key := props[from].key;
    var value := Tokens(props[from].value, numberText);
    var separator := SeparatorTokens(from, |props|);
    var later := PropertyTokens(props, from + 1, numberText) + rest;
    var end := separator + ([Close("div")] + later);
    var x := Erase(props[from].value, numberText);
    Regroup(PropertyLineTokens(props, from, numberText), PropertyTokens(props, from + 1, numberText), rest);
    RegroupLine(KeyedLineStartTokens(key), value, separator, [Close("div")], later);
    ReadValueTokens(props[from].value, numberText, end);
    ReadLineEndAfter(from, |props|, later);
    ReadPropertyLine(key, value, x, end, from < |props| - 1, later);
    if from < |props| - 1 {
      ReadEntriesTokens(props, from + 1, numberText, rest);
    } else {
      assert later == rest;
      assert ErasedEntries(props, from + 1, numberText) == [];
      assert [ShownEntry(key, x)] + [] == [ShownEntry(key, x)];
    }
  }

  /**
   * Reading the markup `formatJSON` produces gives back the value, up to how numbers
   * were written: keys, key order, string contents, nesting and literals all survive.
   */
  lemma ReadFormat(v: JsValue, numberText: real -> string)
    requires PlainNumbers(numberText)
    ensures Read(Format(v, numberText)) == Some(Erase(v, numberText))
  {
    TokenizeFormat(v, numberText);
    ReadValueTokens(v, numberText, []);
    assert Tokens(v, numberText) + [] == Tokens(v, numberText);
  }

  /** The numbers that occur anywhere in `v`. */
  function Numbers(v: JsValue): set<real>
    decreases v, 1
  {
    match v
    case JNumber(n) => {n}
    case JArray(items) => ItemNumbers(items, 0)
    case JObject(props) => EntryNumbers(props, 0)
    case _ => {}
  }

  function ItemNumbers(items: seq<JsValue>, from: nat): set<real>
    requires from <= |items|
    decreases items, 0, |items| - from
  {
    if from == |items| then {} else Numbers(items[from]) + ItemNumbers(items, from + 1)
  }

  function EntryNumbers(props: seq<Property>, from: nat): set<real>
    requires from <= |props|
    decreases props, 0, |props| - from
  {
    if from == |props| then {} else Numbers(props[from].value) + EntryNumbers(props, from + 1)
  }

  /** Distinct numbers of `nums` are written differently. */
  predicate DistinctOn(nums: set<real>, numberText: real -> string)
  {
    forall a, b | a in nums && b in nums :: numberText(a) == numberText(b) ==> a == b
  }

  /**
   * When the numbers occurring in `v` and `w` are written distinctly, `v` and `w`
   * are shown alike only if they are equal.
   */
  lemma {:induction false} EraseInjective(v: JsValue, w: JsValue, numberText: real -> string)
    requires DistinctOn(Numbers(v) + Numbers(w), numberText)
    requires Erase(v, numberText) == Erase(w, numberText)
    ensures v == w
    decreases v
  {
    match v
    case JNumber(n) =>
      assert n in Numbers(v) && w.n in Numbers(w);
    case JArray(items) =>
      var others := w.items;
      ErasedItemsInjective(items, 0, others, 0, numberText);
      assert items[0..] == items && others[0..] == others;
    case JObject(props) =>
      var others := w.props;
      ErasedEntriesInjective(props, 0, others, 0, numberText);
      assert props[0..] == props && others[0..] == others;
    case _ =>
  }

  lemma {:induction false} ErasedItemsInjective(items: seq<JsValue>, i: nat, others: seq<JsValue>, j: nat, numberText: real -> string)
    requires i <= |items| && j <= |others|
    requires DistinctOn(ItemNumbers(items, i) + ItemNumbers(others, j), numberText)
    requires ErasedItems(items, i, numberText) == ErasedItems(others, j, numberText)
    ensures items[i..] == others[j..]
    decreases items, |items| - i
  {
    if i < |items| {
      var shown := ErasedItems(items, i, numberText);
      assert shown[0] == Erase(items[i], numberText);
      assert j < |others| && shown[0] == Erase(others[j], numberText);
      assert shown[1..] == ErasedItems(items, i + 1, numberText) == ErasedItems(others, j + 1, numberText);
      var all := ItemNumbers(items, i) + ItemNumbers(others, j);
      assert Numbers(items[i]) + Numbers(others[j]) <= all;
      assert ItemNumbers(items, i + 1) + ItemNumbers(others, j + 1) <= all;
      EraseInjective(items[i], others[j], numberText);
      ErasedItemsInjective(items, i + 1, others, j + 1, numberText);
      assert items[i..] == [items[i]] + items[i + 1..];
      assert others[j..] == [others[j]] + others[j + 1..];
    }
  }

  lemma {:induction false} ErasedEntriesInjective(props: seq<Property>, i: nat, others: seq<Property>, j: nat, numberText: real -> string)
    requires i <= |props| && j <= |others|
    requires DistinctOn(EntryNumbers(props, i) + EntryNumbers(others, j), numberText)
    requires ErasedEntries(props, i, numberText) == ErasedEntries(others, j, numberText)
    ensures props[i..] == others[j..]
    decreases props, |props| - i
  {
    if i < |props| {
      var shown := ErasedEntries(props, i, numberText);
      assert shown[0] == ShownEntry(props[i].key, Erase(props[i].value, numberText));
      assert j < |others| && shown[0] == ShownEntry(others[j].key, Erase(others[j].value, numberText));
      assert shown[1..] == ErasedEntries(props, i + 1, numberText) == ErasedEntries(others, j + 1, numberText);
      var all := EntryNumbers(props, i) + EntryNumbers(others, j);
      assert Numbers(props[i].value) + Numbers(others[j].value) <= all;
      assert EntryNumbers(props, i + 1) + EntryNumbers(others, j + 1) <= all;
      EraseInjective(props[i].value, others[j].value, numberText);
      ErasedEntriesInjective(props, i + 1, others, j + 1, numberText);
      assert props[i..] == [props[i]] + props[i + 1..];
      assert others[j..] == [others[j]] + others[j + 1..];
    }
  }

  /**
   * Equal markup means equal shown values, whatever `numberText` does; and when the
   * numbers occurring in the two values are written distinctly, equal markup means equal values.
   */
  lemma FormatInjective(v: JsValue, w: JsValue, numberText: real -> string)
    requires PlainNumbers(numberText)
    requires Format(v, numberText) == Format(w, numberText)
    ensures Erase(v, numberText) == Erase(w, numberText)
    ensures DistinctOn(Numbers(v) + Numbers(w), numberText) ==> v == w
  {
    ReadFormat(v, numberText);
    ReadFormat(w, numberText);
    if DistinctOn(Numbers(v) + Numbers(w), numberText) {
      EraseInjective(v, w, numberText);
    }
  }
}
