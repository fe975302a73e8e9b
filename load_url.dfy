/**
 * `ContentView1.loadURL` of the browser window: normalises the text of the
 * address field into a URL and asks the web view to load it.
 */
module LoadUrl {
  import opened Wrappers

  /** A character of Foundation's `whitespacesAndNewlines` set: tab, line breaks and the Unicode space separators. */
  predicate IsWhitespace(c: char)
  {
    ('\U{0009}' <= c <= '\U{000D}') || c == ' ' || c == '\U{0085}' || c == '\U{00A0}' || c == '\U{1680}'
    || ('\U{2000}' <= c <= '\U{200A}') || c == '\U{2028}' || c == '\U{2029}' || c == '\U{202F}'
    || c == '\U{205F}' || c == '\U{3000}'
  }

  /** Every character of `s` from position `lo` up to `hi` is whitespace. */
  predicate WhitespaceBetween(s: string, lo: nat, hi: nat)
    requires lo <= hi <= |s|
  {
    forall k | lo <= k < hi :: IsWhitespace(s[k])
  }

  predicate AllWhitespace(s: string)
  {
    WhitespaceBetween(s, 0, |s|)
  }

  /** The end of the run of whitespace that starts at position `i`. */
  function SkipLeading(s: string, i: nat): (n: nat)
    requires i <= |s|
    ensures i <= n <= |s|
    ensures WhitespaceBetween(s, i, n)
    ensures n < |s| ==> !IsWhitespace(s[n])
    decreases |s| - i
  {
    if i == |s| || !IsWhitespace(s[i]) then i else SkipLeading(s, i + 1)
  }

  /** The start of the run of whitespace that ends just before position `j`. */
  function SkipTrailing(s: string, j: nat): (n: nat)
    requires j <= |s|
    ensures n <= j
    ensures WhitespaceBetween(s, n, j)
    ensures 0 < n ==> !IsWhitespace(s[n - 1])
  {
    if j == 0 || !IsWhitespace(s[j - 1]) then j else SkipTrailing(s, j - 1)
  }

  /**
   * `trimmingCharacters(in: .whitespacesAndNewlines)`: the slice of `s` left after
   * dropping whitespace at both ends, which itself neither starts nor ends with any.
   */
  function Trim(s: string): (r: string)
    ensures exists i, j | 0 <= i <= j <= |s| :: r == s[i..j] && WhitespaceBetween(s, 0, i) && WhitespaceBetween(s, j, |s|)
    ensures r != [] ==> !IsWhitespace(r[0]) && !IsWhitespace(r[|r| - 1])
    ensures r == [] <==> AllWhitespace(s)
  {
    var i := SkipLeading(s, 0);
    if i == |s| then
      assert s[i..i] == [];
      ""
    else
      var j := SkipTrailing(s, |s|);
      var r := s[i..j];
      assert r[0] == s[i] && r[|r| - 1] == s[j - 1];
      r
  }

  /** Trimming a trimmed string changes nothing. */
  lemma TrimIdempotent(s: string)
    ensures Trim(Trim(s)) == Trim(s)
  {
    if Trim(s) != [] {
      TrimOfInner(Trim(s));
    }
  }

  const DefaultURL: string := "https://www.baidu.com"
  const HttpScheme: string := "http://"
  const HttpsScheme: string := "https://"

  predicate HasScheme(s: string)
  {
    HttpScheme <= s || HttpsScheme <= s
  }

  /** The text `loadURL` tries to turn into a URL, for the address field holding `field`. */
  function Target(field: string): (r: string)
    ensures HasScheme(r)
  {
    var trimmed := Trim(field);
    if trimmed == [] then DefaultURL
    else if HasScheme(trimmed) then trimmed
    else HttpsScheme + trimmed
  }

  /** An address that trims to nothing loads the default page. */
  lemma TargetOfBlank(field: string)
    requires AllWhitespace(field)
    ensures Target(field) == DefaultURL
  {
  }

  /** An address that already names `http://` or `https://` is loaded as typed, less surrounding whitespace. */
  lemma TargetKeepsScheme(field: string)
    requires HasScheme(Trim(field))
    ensures Target(field) == Trim(field)
  {
  }

  /** Any other address is loaded over `https://`. */
  lemma TargetAddsHttps(field: string)
    requires Trim(field) != [] && !HasScheme(Trim(field))
    ensures Target(field) == HttpsScheme + Trim(field)
  {
  }

  /** The default address has no whitespace at either end. */
  lemma DefaultIsTrimmed()
    ensures Trim(DefaultURL) == DefaultURL
  {
    var d := DefaultURL;
    assert d[0] == 'h' && d[|d| - 1] == 'm';
    TrimOfInner(d);
  }

  /** The target has no whitespace at either end. */
  lemma TargetIsTrimmed(field: string)
    ensures Trim(Target(field)) == Target(field)
  {
    var trimmed := Trim(field);
    if trimmed == [] {
      DefaultIsTrimmed();
    } else if !HasScheme(trimmed) {
      var r := HttpsScheme + trimmed;
      assert r[0] == 'h';
      assert r[|r| - 1] == trimmed[|trimmed| - 1];
      TrimOfInner(r);
    } else {
      TrimIdempotent(field);
    }
  }

  /** Loading what `loadURL` wrote back into the address field targets the same text again. */
  lemma TargetIdempotent(field: string)
    ensures Target(Target(field)) == Target(field)
  {
    TargetIsTrimmed(field);
  }

  /** A string that neither starts nor ends with whitespace is its own trim. */
  lemma TrimOfInner(s: string)
    requires s != [] && !IsWhitespace(s[0]) && !IsWhitespace(s[|s| - 1])
    ensures Trim(s) == s
  {
    assert SkipLeading(s, 0) == 0;
    assert SkipTrailing(s, |s|) == |s|;
    assert s[0..|s|] == s;
  }

  /**
   * The state `loadURL` reads and writes: the address field, the page last
   * loaded, whether the web view has been created, and the load requests sent to it.
   */
  class Browser<URL(==)> {
    var urlString: string
    var currentURL: Option<URL>
    var webViewExists: bool
    var requests: seq<URL>

    constructor(field: string, webView: bool)
      ensures urlString == field && currentURL == None && webViewExists == webView && requests == []
    {
      urlString := field;
      currentURL := None;
      webViewExists := webView;
      requests := [];
    }

    /**
     * `loadURL`. `parse` stands for `URL(string:)`. The address field is rewritten
     * only when a default or a scheme was supplied; the current page and the web
     * view change only when the target parses.
     */
    method LoadURL(parse: string -> Option<URL>)
      modifies this
      ensures var target := Target(old(urlString));
        && urlString == (if HasScheme(Trim(old(urlString))) then old(urlString) else target)
        && currentURL == (if parse(target).Some? then parse(target) else old(currentURL))
        && requests == (if parse(target).Some? && webViewExists then old(requests) + [parse(target).value] else old(requests))
      ensures webViewExists == old(webViewExists)
    {
      var urlToLoad := Trim(urlString);
      if urlToLoad == [] {
        urlToLoad := DefaultURL;
        urlString := urlToLoad;
      }
      if !(HttpScheme <= urlToLoad) && !(HttpsScheme <= urlToLoad) {
        urlToLoad := HttpsScheme + urlToLoad;
        urlString := urlToLoad;
      }
      var url := parse(urlToLoad);
      if url.Some? {
        currentURL := url;
        if webViewExists {
          requests := requests + [url.value];
        }
      }
    }
  }

  /** After `loadURL` the address field always names a scheme, and loading it again targets the same text. */
  lemma FieldAfterLoad(field: string)
    ensures var after := if HasScheme(Trim(field)) then field else Target(field);
      HasScheme(Trim(after)) && Target(after) == Target(field)
  {
    if !HasScheme(Trim(field)) {
      TargetIsTrimmed(field);
    }
  }
}
