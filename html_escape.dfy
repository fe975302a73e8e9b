/**
 * `escapeHtml` of the embedded viewer: it assigns the text to a fresh element's
 * `textContent` and reads back `innerHTML`, which serialises a text node the way
 * section 13.3 of the WHATWG HTML Living Standard ("escaping a string", not in
 * attribute mode) prescribes: `&`, U+00A0, `<` and `>` become entities, every
 * other character stays as it is.
 */
module HtmlEscape {
  import opened Wrappers

  const NoBreakSpace: char := '\U{00A0}'

  /** A character the serialisation replaces by an entity. */
  predicate IsSpecial(c: char)
  {
    c == '&' || c == NoBreakSpace || c == '<' || c == '>'
  }

  /**
   * The serialisation of one character of a text node: a special character becomes
   * an entity, which starts with `&` and ends with `;`; every other character
   * stands for itself.
   */
  function EscapeChar(c: char): (r: string)
    ensures !IsSpecial(c) <==> r == [c]
    ensures IsSpecial(c) ==> |r| >= 4 && r[0] == '&' && r[|r| - 1] == ';'
  {
    if c == '&' then "&amp;"
    else if c == NoBreakSpace then "&nbsp;"
    else if c == '<' then "&lt;"
    else if c == '>' then "&gt;"
    else [c]
  }

  /** `escapeHtml(text)`: never shorter than the text, and empty only for the empty text. */
  function EscapeHtml(text: string): (r: string)
    ensures |r| >= |text|
    ensures r == [] <==> text == []
  {
    if text == [] then [] else EscapeChar(text[0]) + EscapeHtml(text[1..])
  }

  /** Text without any of the four special characters is its own serialisation. */
  lemma {:induction false} EscapePlainText(text: string)
    requires forall i | 0 <= i < |text| :: !IsSpecial(text[i])
    ensures EscapeHtml(text) == text
    decreases |text|
  {
    if text != [] {
      EscapePlainText(text[1..]);
      assert [text[0]] + text[1..] == text;
    }
  }

  /** Prepends `c` to a decoded text, if there is one. */
  function Cons(c: char, rest: Option<string>): Option<string>
  {
    match rest
    case Some(s) => Some([c] + s)
    case None => None
  }

  /**
   * Reads serialised text back: the four entities decode to their characters and
   * any raw `<`, `>`, U+00A0 or stray `&` makes it fail. The inverse of `EscapeHtml`.
   */
  function Unescape(t: string): Option<string>
    decreases |t|
  {
    if t == [] then Some([])
    else if t[0] == '&' then
      if "&amp;" <= t then Cons('&', Unescape(t[5..]))
      else if "&nbsp;" <= t then Cons(NoBreakSpace, Unescape(t[6..]))
      else if "&lt;" <= t then Cons('<', Unescape(t[4..]))
      else if "&gt;" <= t then Cons('>', Unescape(t[4..]))
      else None
    else if t[0] == '<' || t[0] == '>' || t[0] == NoBreakSpace then None
    else Cons(t[0], Unescape(t[1..]))
  }

  lemma UnescapeEscapeChar(c: char, t: string)
    ensures Unescape(EscapeChar(c) + t) == Cons(c, Unescape(t))
  {
    var u := EscapeChar(c) + t;
    if c == '&' {
      assert "&amp;" <= u && u[5..] == t;
    } else if c == NoBreakSpace {
      assert u[1] == 'n';
      assert "&nbsp;" <= u && u[6..] == t;
    } else if c == '<' {
      assert u[1] == 'l';
      assert "&lt;" <= u && u[4..] == t;
    } else if c == '>' {
      assert u[1] == 'g';
      assert "&gt;" <= u && u[4..] == t;
    } else {
      assert u[0] == c && u[1..] == t;
    }
  }

  /** Escaping loses nothing: the text is recovered from its serialisation. */
  lemma {:induction false} UnescapeAfterEscape(text: string)
    ensures Unescape(EscapeHtml(text)) == Some(text)
    decreases |text|
  {
    if text != [] {
      UnescapeEscapeChar(text[0], EscapeHtml(text[1..]));
      UnescapeAfterEscape(text[1..]);
      assert [text[0]] + text[1..] == text;
    }
  }

  /** One of the four entities starts at position `i` of `t`. */
  predicate EntityAt(t: string, i: nat)
    requires i <= |t|
  {
    var u := t[i..];
    "&amp;" <= u || "&nbsp;" <= u || "&lt;" <= u || "&gt;" <= u
  }

  /** The length of the character or entity at the start of `t` that `Unescape` reads in one step. */
  function HeadLength(t: string): nat
    requires t != []
  {
    if t[0] != '&' then 1
    else if "&amp;" <= t then 5
    else if "&nbsp;" <= t then 6
    else 4
  }

  /** The first step of a successful `Unescape` reads no angle bracket, and an `&` there opens an entity. */
  lemma InertHead(t: string)
    requires t != [] && Unescape(t).Some?
    ensures HeadLength(t) <= |t| && Unescape(t[HeadLength(t)..]).Some?
    ensures t[0] == '&' ==> EntityAt(t, 0)
    ensures forall i | 0 <= i < HeadLength(t) :: t[i] != '<' && t[i] != '>' && (0 < i ==> t[i] != '&')
  {
    assert t[0..] == t;
    var n := HeadLength(t);
    if t[0] == '&' {
      assert "&amp;" <= t || "&nbsp;" <= t || "&lt;" <= t || "&gt;" <= t;
    }
    forall i | 0 <= i < n
      ensures t[i] != '<' && t[i] != '>' && (0 < i ==> t[i] != '&')
    {
      if 0 < i {
        var entity := if n == 5 then "&amp;" else if n == 6 then "&nbsp;" else if "&lt;" <= t then "&lt;" else "&gt;";
        assert entity <= t && |entity| == n;
        assert t[i] == entity[i];
      }
    }
  }

  /** Text that `Unescape` accepts has no raw angle bracket, and each `&` in it opens an entity. */
  lemma {:induction false} DecodableIsInert(t: string)
    requires Unescape(t).Some?
    ensures forall i | 0 <= i < |t| :: t[i] != '<' && t[i] != '>'
    ensures forall i | 0 <= i < |t| && t[i] == '&' :: EntityAt(t, i)
    decreases |t|
  {
    if t != [] {
      InertHead(t);
      var n := HeadLength(t);
      var rest := t[n..];
      DecodableIsInert(rest);
      forall i | n <= i < |t|
        ensures t[i] != '<' && t[i] != '>'
        ensures t[i] == '&' ==> EntityAt(t, i)
      {
        assert t[i] == rest[i - n];
        if t[i] == '&' {
          assert EntityAt(rest, i - n);
          assert t[i..] == rest[i - n..];
        }
      }
    }
  }

  /**
   * What `escapeHtml` returns can be placed between tags without adding markup:
   * no `<` or `>`, and every `&` begins one of the four entities.
   */
  lemma EscapeHtmlIsInert(text: string)
    ensures forall i | 0 <= i < |EscapeHtml(text)| :: EscapeHtml(text)[i] != '<' && EscapeHtml(text)[i] != '>'
    ensures forall i | 0 <= i < |EscapeHtml(text)| && EscapeHtml(text)[i] == '&' :: EntityAt(EscapeHtml(text), i)
  {
    UnescapeAfterEscape(text);
    DecodableIsInert(EscapeHtml(text));
  }
}
