# JSONViewer, modelled in Dafny

JSONViewer is a macOS SwiftUI application for looking at JSON. It shows a JSON
document in two ways. The first is a native outline: `parseJSON` turns a decoded
value into a tree of `JSONNode`s, and `JSONRowView` draws one row per node. The
second is an embedded web page: the JavaScript `setJSON` passes the document
through `JSON.parse` and `formatJSON` into HTML with collapsible `▼` headers, and
a click listener on each header folds its content away or back. The window that
hosts the web views also has an address field, and `ContentView1.loadURL`
normalises it into a URL.

The model has one module per piece:

- `JsonNode` (`json_node.dfy`) covers the native tree: `JSONValue`, `JSONNode.children`,
  `parseJSON` and the text of each outline row.
- `HtmlEscape` (`html_escape.dfy`) covers `escapeHtml`. It serialises a text node by
  section 13.3 of the WHATWG HTML Living Standard. It is paired with its inverse,
  `Unescape`.
- `HtmlFormat` (`html_format.dfy`) covers `formatJSON`:
  - `Format` is a function giving the markup of each value;
  - the method `FormatJSON` builds that markup the way the source does, appending
    to `result` inside the `forEach` loops.
- `HtmlTokens`, `HtmlLexer` and `HtmlReader` (`html_tokens.dfy`, `html_lexer.dfy`,
  `html_reader.dfy`) are the partners of `formatJSON`:
  - a token view of the markup;
  - a tokenizer that reads the markup back into tokens;
  - a reader that recovers the displayed value from the tokens.
  
  Together they prove that the markup determines the value it was made from.
- `ViewerPage` (`viewer_page.dfy`) covers `setJSON` and the click listener
  installed by `addToggleListeners`. The page's state is the class `Page`.
- `LoadUrl` (`load_url.dfy`) covers `ContentView1.loadURL`. The view's state is the
  class `Browser`.

Library calls the model cannot see are taken as parameters:
- `URL(string:)` is the function `parse`;
- number-to-text conversion (in the row, the `Double` interpolated into a `Text` label, which SwiftUI formats with `%lf` so that `1.0` shows as `1.000000`; in the page, JavaScript `'' + n`) is the function `numberText`;
- the outcome of `JSON.parse` is a `Result`.

## Model

| member | source | states |
|---|---|---|
| JsonNode.JSONNode.Children | JSONViewer/JSONNode.swift:10-17 | children are present exactly for objects and arrays, and then are the wrapped node list |
| JsonNode.ParseJSON | JSONViewer/JSONNode.swift:73-92 | the node carries the given key (default "root"); a dictionary gives an object with one child per entry, keyed by the entry's key and holding the parse of its value; an array gives an array whose child i is keyed by the decimal text of i and holds the parse of element i; strings, doubles, booleans map to the matching case, an Int n to `number(Double(n))`, anything else to `null` |
| JsonNode.DecimalRoundTrip | JSONViewer/JSONNode.swift:80 | the decimal text used as an array key reads back as the index |
| JsonNode.DecimalStringInjective | JSONViewer/JSONNode.swift:80 | two array positions get the same key only if they are the same position |
| JsonNode.ArrayKeysDistinct | JSONViewer/JSONNode.swift:78-81 | the children of a parsed array have pairwise distinct keys |
| JsonNode.ObjectChildPerKey | JSONViewer/JSONNode.swift:74-77 | for a dictionary (distinct keys) the object's children have distinct keys, the same key set as the dictionary, and each child holds the parse of its entry's value |
| JsonNode.ValueIgnoresKey | JSONViewer/JSONNode.swift:73-92 | the key given to a node never changes the value built beneath it |
| JsonNode.UnparseAfterParse | JSONViewer/JSONNode.swift:73-92 | parsing loses nothing but the distinction between Int and Double: unparsing the tree gives back the input with integers converted |
| JsonNode.ParseIsIndexKeyed | JSONViewer/JSONNode.swift:78-81 | every tree built by parsing keys each array child by its index, at every depth |
| JsonNode.ParseAfterUnparse | JSONViewer/JSONNode.swift:73-92 | every index-keyed tree is rebuilt exactly by parsing the value it stands for, so parsing reaches all such trees |
| JsonNode.ValueLabel | JSONViewer/JSONNode.swift:54-67 | the value text per kind: a string in double quotes without escaping (green), a number through its text (orange), `true`/`false` (purple), `null` (gray), `{...}` for objects and `[...]` for arrays (secondary) |
| JsonNode.Row | JSONViewer/JSONNode.swift:47-68 | every row is the quoted key in blue, then `:`, then the value text |
| JsonNode.QuotedInjective | JSONViewer/JSONNode.swift:48 | quoting a key loses nothing |
| JsonNode.RowDeterminesNode | JSONViewer/JSONNode.swift:47-68 | two equal rows have the same key and the same kind of value, and the same value unless it is a number or a composite |
| HtmlEscape.EscapeChar | JSONViewer/EmbeddedJSONViewer.swift:291-295 | a character is kept as it is exactly when it is not `&`, U+00A0, `<` or `>`; each of those four becomes an entity, which starts with `&` and ends with `;` |
| HtmlEscape.EscapeHtml | JSONViewer/EmbeddedJSONViewer.swift:291-295 | the escaped text is never shorter than the text, and is empty exactly when the text is |
| HtmlEscape.EscapePlainText | JSONViewer/EmbeddedJSONViewer.swift:291-295 | text holding none of the four special characters comes back unchanged |
| HtmlEscape.UnescapeAfterEscape | JSONViewer/EmbeddedJSONViewer.swift:291-295 | escaping is lossless: decoding the escaped text gives the text back |
| HtmlEscape.EscapeHtmlIsInert | JSONViewer/EmbeddedJSONViewer.swift:291-295 | escaped text has no raw `<` or `>`, and each `&` in it begins `&amp;`, `&nbsp;`, `&lt;` or `&gt;` |
| HtmlEscape.DecodableIsInert | JSONViewer/EmbeddedJSONViewer.swift:291-295 | any text that decodes has no raw angle bracket and no stray `&` |
| HtmlFormat.FormatJSON | JSONViewer/EmbeddedJSONViewer.swift:218-289 | the markup built for a value is `Format` of it, for every `indent`: the indentation argument never reaches the output |
| HtmlFormat.FormatIsElement | JSONViewer/EmbeddedJSONViewer.swift:218-289 | `Format`, the value-level statement of what `formatJSON` returns, always yields one element: its markup starts with `<` and ends with `>` |
| HtmlFormat.FormatArray | JSONViewer/EmbeddedJSONViewer.swift:237-259 | for a non-empty array the accumulated markup is the collapsible `[` header, one indented line per item in order, then the content close and the `]` line |
| HtmlFormat.OpenComposite | JSONViewer/EmbeddedJSONViewer.swift:241-243 | the three opening appends build exactly the header: the line div, the collapsible with the `▼` toggle and the bracket, the content div |
| HtmlFormat.AppendItemLines | JSONViewer/EmbeddedJSONViewer.swift:245-252 | `obj.forEach` appends the lines of all items, in order, to what was there |
| HtmlFormat.CloseComposite | JSONViewer/EmbeddedJSONViewer.swift:254-256 | the three closing appends add exactly the footer: the content close, the closing-bracket line, the line close |
| HtmlFormat.AppendItemLine | JSONViewer/EmbeddedJSONViewer.swift:246-253 | each `forEach` step appends exactly the item's line: indented div, the item's markup, a comma unless it is the last, closing div |
| HtmlFormat.FormatObject | JSONViewer/EmbeddedJSONViewer.swift:261-286 | for a non-empty object the accumulated markup is the collapsible `{` header, one line per key in key order, then the `}` line |
| HtmlFormat.AppendPropertyLines | JSONViewer/EmbeddedJSONViewer.swift:270-280 | `keys.forEach` appends the lines of all keys, in key order, to what was there |
| HtmlFormat.AppendPropertyLine | JSONViewer/EmbeddedJSONViewer.swift:271-280 | each step appends the key's line: the escaped quoted key, `: `, the value's markup, a comma unless it is the last |
| HtmlFormat.CommasBetweenChildren | JSONViewer/EmbeddedJSONViewer.swift:249-251 | the separator written after child i of n is the `,` bracket span exactly when i is not the last, so n children carry n - 1 separators |
| HtmlFormat.NullMarkup | JSONViewer/EmbeddedJSONViewer.swift:221-223 | null is exactly `<span class="json-null">null</span>` |
| HtmlFormat.BoolMarkup | JSONViewer/EmbeddedJSONViewer.swift:233-235 | a boolean is a `json-boolean` span holding `true` or `false` |
| HtmlFormat.EmptyArrayMarkup | JSONViewer/EmbeddedJSONViewer.swift:238-240 | an empty array is the bare `[]` bracket span, with no collapsible |
| HtmlFormat.EmptyObjectMarkup | JSONViewer/EmbeddedJSONViewer.swift:263-265 | an empty object is the bare `{}` bracket span, with no collapsible |
| HtmlTokens.RenderTokens | JSONViewer/EmbeddedJSONViewer.swift:218-289 | the token sequence of a value renders to exactly the markup of that value |
| HtmlTokens.RenderAllAppend | JSONViewer/EmbeddedJSONViewer.swift:242-257 | rendering distributes over concatenation, as `result +=` does |
| HtmlLexer.TokenizeRenderAll | JSONViewer/EmbeddedJSONViewer.swift:218-289 | tokenizing the rendering of well-formed tokens gives the tokens back |
| HtmlLexer.FramedTokens | JSONViewer/EmbeddedJSONViewer.swift:218-289 | a value's tokens are well formed and start and end with a tag, as long as numbers are written without `<` |
| HtmlLexer.TokenizeFormat | JSONViewer/EmbeddedJSONViewer.swift:218-289 | the markup of any value splits back into exactly its tokens |
| HtmlReader.ReadValueTokens | JSONViewer/EmbeddedJSONViewer.swift:218-289 | reading a value's tokens, followed by anything, yields the displayed value and the rest |
| HtmlReader.ReadItemsTokens | JSONViewer/EmbeddedJSONViewer.swift:246-253 | the item lines read back as the items, in order |
| HtmlReader.ReadEntriesTokens | JSONViewer/EmbeddedJSONViewer.swift:271-280 | the property lines read back as the key/value pairs, in key order |
| HtmlReader.ReadFormat | JSONViewer/EmbeddedJSONViewer.swift:218-295 | the markup of a value reads back as that value with numbers shown as their text: nothing of the value is lost or reordered |
| HtmlReader.EraseInjective | JSONViewer/EmbeddedJSONViewer.swift:229-231 | when the numbers that occur in two values are written with distinct texts, the values are displayed alike only if they are equal |
| HtmlReader.FormatInjective | JSONViewer/EmbeddedJSONViewer.swift:218-295 | when numbers are written without `<`, two values with the same markup are displayed alike; if moreover the numbers occurring in them have distinct texts, they are equal |
| ViewerPage.CollapsiblesInTokens | JSONViewer/EmbeddedJSONViewer.swift:237-286 | the markup holds one `collapsible` header per non-empty array or object, and none for scalars or empty composites |
| ViewerPage.CollapsiblesInMarkup | JSONViewer/EmbeddedJSONViewer.swift:298 | read back from the markup, the elements that receive a click listener are exactly the non-empty composites |
| ViewerPage.Toggled | JSONViewer/EmbeddedJSONViewer.swift:304-310 | after a click the display is set (`none` or `block`), and it is hidden exactly when it was not hidden before |
| ViewerPage.AfterClick | JSONViewer/EmbeddedJSONViewer.swift:299-310 | a click flips the visibility of its own collapsible and leaves every other one unchanged |
| ViewerPage.ClickTwice | JSONViewer/EmbeddedJSONViewer.swift:304-310 | two clicks on the same collapsible restore the visibility of every collapsible |
| ViewerPage.ToggledTwice | JSONViewer/EmbeddedJSONViewer.swift:304-310 | once set, the display returns to its exact value after two clicks |
| ViewerPage.Page.constructor | JSONViewer/EmbeddedJSONViewer.swift:200-202 | the page starts with the placeholder and no collapsibles |
| ViewerPage.Page.SetJSON | JSONViewer/EmbeddedJSONViewer.swift:205-216 | on a successful parse the container holds `formatJSON(json, 0)` and one unclicked, expanded collapsible per non-empty composite; on failure it holds only the error div with the message and no collapsibles |
| ViewerPage.Page.AddToggleListeners | JSONViewer/EmbeddedJSONViewer.swift:297-298 | every collapsible starts unclicked with the `▼` glyph, and nothing else changes |
| ViewerPage.Page.Click | JSONViewer/EmbeddedJSONViewer.swift:299-319 | the clicked content flips between `none` and `block`, its glyph is `▶` exactly when hidden, other collapsibles and the string `setJSON` assigned stay as they were, and `expanded = not hidden` is posted only when the native handler exists |
| LoadUrl.SkipLeading | JSONViewer/WebView.swift:317 | from a position, finds where the run of whitespace there ends: everything skipped is whitespace and the character reached is not |
| LoadUrl.SkipTrailing | JSONViewer/WebView.swift:317 | from a position, finds where the run of whitespace before it starts: everything skipped is whitespace and the character before it is not |
| LoadUrl.Trim | JSONViewer/WebView.swift:317 | the trimmed text is a slice of the input with only whitespace cut at both ends, it neither starts nor ends with whitespace, and it is empty exactly when the input is all whitespace |
| LoadUrl.TrimIdempotent | JSONViewer/WebView.swift:317 | trimming twice is trimming once |
| LoadUrl.TrimOfInner | JSONViewer/WebView.swift:317 | text with no whitespace at either end is its own trim |
| LoadUrl.Target | JSONViewer/WebView.swift:317-329 | the text to load always starts with `http://` or `https://` |
| LoadUrl.TargetOfBlank | JSONViewer/WebView.swift:320-323 | an all-whitespace field loads `https://www.baidu.com` |
| LoadUrl.TargetKeepsScheme | JSONViewer/WebView.swift:326-329 | a trimmed field that already starts with either scheme is loaded as trimmed |
| LoadUrl.TargetAddsHttps | JSONViewer/WebView.swift:326-329 | any other non-empty trimmed field gets `https://` in front |
| LoadUrl.DefaultIsTrimmed | JSONViewer/WebView.swift:321 | the default address is already trimmed |
| LoadUrl.TargetIsTrimmed | JSONViewer/WebView.swift:317-329 | the text to load has no whitespace at either end |
| LoadUrl.TargetIdempotent | JSONViewer/WebView.swift:317-329 | normalising a normalised target changes nothing |
| LoadUrl.Browser.LoadURL | JSONViewer/WebView.swift:316-342 | the address field is rewritten only when a default or a scheme was supplied (otherwise it is kept untrimmed); the current URL changes only when parsing succeeds; a load request is sent only then and only if the web view exists |
| LoadUrl.FieldAfterLoad | JSONViewer/WebView.swift:316-329 | after a load the field trims to text with a scheme, and loading it again targets the same text |

## Left out

- `JSON.parse`, `JSONSerialization`, `URL(string:)` and number-to-text conversion are library code. Their results are inputs: a `Result` for the parse, the functions `parse` and `numberText`, and a value datatype for the decoded JSON.
- An object's properties are taken in `Object.keys` order. How `JSON.parse` orders integer-like keys and merges duplicate keys is part of the parse and is not modelled.
- A Swift dictionary is taken in the order its iteration happens to produce. Only the set of keys is stated for it, not an order.
- Which of Foundation's dynamic casts a bridged `NSNumber` satisfies is taken as given: the input to `ParseJSON` already says whether it is a dictionary, array, string, double, integer or boolean.
- JsonNode.IntToDouble: integer-to-`Double` conversion is exact in the model; rounding of integers above 2^53 is not modelled.
- The `UUID` identity of each `JSONNode` is left out. It is fresh on every parse and plays no part in the tree's shape.
- `formatJSON`'s final `return String(obj)` is left out. After `JSON.parse` every value is null, a string, a number, a boolean, an array or an object, so it is not reached.
- Numbers are opaque: `JNumber` carries a `real`, and only its text reaches the markup.
- `console.error`, `print`, SwiftUI/WebKit view plumbing, the CSS, and event registration and propagation (`stopPropagation`) are left out. The click listener is modelled per collapsible. A collapsible is identified by its position in document order, which is the order in which `querySelectorAll('.collapsible')` returns them.
- ViewerPage.Page.SetJSON: the error message from `JSON.parse` goes into the markup unescaped, as in the source. The model does not analyse what that message may contain.
- The whitespace around the placeholder `<div>` in the page's static HTML is not part of `Placeholder`.
- LoadUrl.Trim: Foundation's trimming works on Unicode scalars and `hasPrefix` on grapheme clusters. The model works on `char`s with a literal prefix test.
- LoadUrl.Target: `hasPrefix` also requires the prefix to end on a grapheme-cluster boundary, and the model's prefix test does not. The two agree unless a combining mark directly follows the scheme. For `http://` followed by U+0301, Swift sees no scheme and prepends `https://`, while `Target` keeps the text.
- ViewerPage.Page.Click: the page's `html` field is the string `setJSON` assigned. A click in the page also rewrites the content div's `style` attribute and the toggle's text, so the live `container.innerHTML` changes. The model keeps that state beside the string, in `display` and `glyph`.
- Collapsing hides the content with CSS `display: none`. The markup stays in the page, and the model follows this code. Strings are only HTML-escaped, not JSON-escaped, so a string holding a `"` is shown with a bare quote; the model follows the code.
