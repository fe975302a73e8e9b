/**
 * The native tree of the JSON viewer: the six-way `JSONValue`, the key/value
 * `JSONNode` with its `children` accessor for the outline view, the conversion
 * `parseJSON` from an already decoded, loosely typed value, and the text each
 * row of the outline shows.
 */
module JsonNode {
  import opened Wrappers

  /** Swift's `Double`. The model never computes with it, so an exact real stands in for it. */
  type Double = real

  /**
   * The loosely typed value (Swift `Any`) that `parseJSON` receives, tagged with
   * the dynamic cast that succeeds on it. A dictionary is given by its entries in
   * the order Swift's dictionary happens to iterate them; `Other` is anything none
   * of the casts accepts (`NSNull`, for one).
   */
  datatype Any =
    | Dictionary(entries: seq<Entry>)
    | List(elements: seq<Any>)
    | Str(text: string)
    | Dbl(d: Double)
    | Int(i: int)
    | Boolean(b: bool)
    | Other

  datatype Entry = Entry(key: string, value: Any)

  /** The value held by a node; composites hold their children as nodes. */
  datatype JSONValue =
    | String(str: string)
    | Number(num: Double)
    | Bool(b: bool)
    | Null
    | Object(nodes: seq<JSONNode>)
    | Array(nodes: seq<JSONNode>)

  /** A key paired with its value (the node's `UUID` identity is not modelled). */
  datatype JSONNode = JSONNode(key: string, value: JSONValue) {

    /** The children the outline view expands: present exactly for composites. */
    function Children(): (c: Option<seq<JSONNode>>)
      ensures c.Some? <==> (value.Object? || value.Array?)
      ensures c.Some? ==> c.value == value.nodes
    {
      match value
      case Object(nodes) => Some(nodes)
      case Array(nodes) => Some(nodes)
      case _ => None
    }
  }

  /** Swift's `Double(n)` for an `Int`. */
  function IntToDouble(n: int): Double
  {
    n as real
  }

  /** The decimal digit character for `d`. */
  function Digit(d: nat): char
    requires d < 10
  {
    (48 + d) as char
  }

  /** Swift's string interpolation `"\(n)"` of a non-negative integer. */
  function DecimalString(n: nat): (s: string)
    ensures |s| >= 1
    ensures forall k | 0 <= k < |s| :: '0' <= s[k] <= '9'
  {
    if n < 10 then [Digit(n)] else DecimalString(n / 10) + [Digit(n % 10)]
  }

  /** The number a string of decimal digits denotes. */
  function DecimalValue(s: string): nat
  {
    if s == [] then 0
    else
      var d := s[|s| - 1] as int - 48;
      DecimalValue(s[..|s| - 1]) * 10 + (if 0 <= d < 10 then d else 0)
  }

  lemma {:induction false} DecimalRoundTrip(n: nat)
    ensures DecimalValue(DecimalString(n)) == n
  {
    if n >= 10 {
      var s := DecimalString(n);
      assert s[..|s| - 1] == DecimalString(n / 10);
      DecimalRoundTrip(n / 10);
    }
  }

  /** Distinct array positions get distinct keys. */
  lemma DecimalStringInjective(i: nat, j: nat)
    ensures DecimalString(i) == DecimalString(j) <==> i == j
  {
    DecimalRoundTrip(i);
    DecimalRoundTrip(j);
  }

  /**
   * `parseJSON(json, key:)`: a dictionary becomes an object with one child per
   * entry, keyed by the entry's key; an array becomes an array whose child i is
   * keyed by the decimal text of i; strings, doubles, integers (converted to
   * `Double`) and booleans become the matching scalar; anything else is `null`.
   * The key defaults to "root".
   */
  function ParseJSON(json: Any, key: string := "root"): (node: JSONNode)
    ensures node.key == key
    ensures json.Dictionary? ==>
      node.value.Object? && |node.value.nodes| == |json.entries| &&
      forall i | 0 <= i < |json.entries| ::
        node.value.nodes[i] == ParseJSON(json.entries[i].value, json.entries[i].key)
    ensures json.List? ==>
      node.value.Array? && |node.value.nodes| == |json.elements| &&
      forall i | 0 <= i < |json.elements| ::
        node.value.nodes[i] == ParseJSON(json.elements[i], DecimalString(i))
    ensures json.Str? ==> node.value == String(json.text)
    ensures json.Dbl? ==> node.value == Number(json.d)
    ensures json.Int? ==> node.value == Number(IntToDouble(json.i))
    ensures json.Boolean? ==> node.value == Bool(json.b)
    ensures json.Other? ==> node.value == Null
    decreases json
  {
    match json
    case Dictionary(entries) =>
      JSONNode(key, Object(seq(|entries|, i requires 0 <= i < |entries| =>
        var e := entries[i]; ParseJSON(e.value, e.key))))
    case List(elements) =>
      JSONNode(key, Array(seq(|elements|, i requires 0 <= i < |elements| =>
        ParseJSON(elements[i], DecimalString(i)))))
    case Str(text) => JSONNode(key, String(text))
    case Dbl(d) => JSONNode(key, Number(d))
    case Int(n) => JSONNode(key, Number(IntToDouble(n)))
    case Boolean(b) => JSONNode(key, Bool(b))
    case Other => JSONNode(key, Null)
  }

  /** Every array in the tree keys its child i by the decimal text of i. */
  predicate IndexKeyed(v: JSONValue)
  {
    match v
    case Array(nodes) =>
      forall i | 0 <= i < |nodes| :: nodes[i].key == DecimalString(i) && IndexKeyed(nodes[i].value)
    case Object(nodes) =>
      forall i | 0 <= i < |nodes| :: IndexKeyed(nodes[i].value)
    case _ => true
  }

  /** The loosely typed value a tree stands for: the inverse direction of `ParseJSON`. */
  function Unparse(v: JSONValue): Any
  {
    match v
    case Object(nodes) =>
      Dictionary(seq(|nodes|, i requires 0 <= i < |nodes| =>
        var n := nodes[i]; Entry(n.key, Unparse(n.value))))
    case Array(nodes) =>
      List(seq(|nodes|, i requires 0 <= i < |nodes| => var n := nodes[i]; Unparse(n.value)))
    case String(s) => Str(s)
    case Number(d) => Dbl(d)
    case Bool(b) => Boolean(b)
    case Null => Other
  }

  /** The input with every integer already converted to `Double`: what `ParseJSON` cannot tell apart. */
  function Canonical(json: Any): Any
  {
    match json
    case Dictionary(entries) =>
      Dictionary(seq(|entries|, i requires 0 <= i < |entries| =>
        var e := entries[i]; Entry(e.key, Canonical(e.value))))
    case List(elements) =>
      List(seq(|elements|, i requires 0 <= i < |elements| => Canonical(elements[i])))
    case Int(n) => Dbl(IntToDouble(n))
    case Other => Other
    case _ => json
  }

  /** Parsing loses nothing but the integer/double distinction. */
  lemma {:induction false} UnparseAfterParse(json: Any, key: string)
    ensures Unparse(ParseJSON(json, key).value) == Canonical(json)
    decreases json
  {
    match json
    case Dictionary(entries) =>
      forall i | 0 <= i < |entries| {
        UnparseAfterParse(entries[i].value, entries[i].key);
      }
    case List(elements) =>
      forall i | 0 <= i < |elements| {
        UnparseAfterParse(elements[i], DecimalString(i));
      }
    case _ =>
  }

  /** Every tree `ParseJSON` builds keys array children by their index. */
  lemma {:induction false} ParseIsIndexKeyed(json: Any, key: string)
    ensures IndexKeyed(ParseJSON(json, key).value)
    decreases json
  {
    match json
    case Dictionary(entries) =>
      forall i | 0 <= i < |entries| {
        ParseIsIndexKeyed(entries[i].value, entries[i].key);
      }
    case List(elements) =>
      forall i | 0 <= i < |elements| {
        ParseIsIndexKeyed(elements[i], DecimalString(i));
      }
    case _ =>
  }

  /** A tree whose arrays are keyed by index is rebuilt exactly from the value it stands for. */
  lemma {:induction false} ParseAfterUnparse(v: JSONValue, key: string)
    requires IndexKeyed(v)
    ensures ParseJSON(Unparse(v), key) == JSONNode(key, v)
    decreases v
  {
    match v
    case Object(nodes) =>
      var r := ParseJSON(Unparse(v), key);
      forall i | 0 <= i < |nodes|
        ensures r.value.nodes[i] == nodes[i]
      {
        var n := nodes[i];
        ParseAfterUnparse(n.value, n.key);
      }
    case Array(nodes) =>
      var r := ParseJSON(Unparse(v), key);
      forall i | 0 <= i < |nodes|
        ensures r.value.nodes[i] == nodes[i]
      {
        var n := nodes[i];
        ParseAfterUnparse(n.value, n.key);
      }
    case _ =>
  }

  /**
   * A genuine Swift dictionary has distinct keys; the object built from it then
   * has exactly one child per key, and that child holds the parse of the key's value.
   */
  lemma ObjectChildPerKey(entries: seq<Entry>, key: string)
    requires forall i, j | 0 <= i < j < |entries| :: entries[i].key != entries[j].key
    ensures var nodes := ParseJSON(Dictionary(entries), key).value.nodes;
      && (forall i, j | 0 <= i < j < |nodes| :: nodes[i].key != nodes[j].key)
      && (set n | n in nodes :: n.key) == (set e | e in entries :: e.key)
      && (forall i | 0 <= i < |entries| ::
            nodes[i].key == entries[i].key && nodes[i].value == ParseJSON(entries[i].value).value)
  {
    var nodes := ParseJSON(Dictionary(entries), key).value.nodes;
    forall i | 0 <= i < |entries|
      ensures nodes[i].key == entries[i].key && nodes[i].value == ParseJSON(entries[i].value).value
    {
      ValueIgnoresKey(entries[i].value, entries[i].key, "root");
    }
    var entryKeys := set e | e in entries :: e.key;
    forall k | k in entryKeys
      ensures k in (set n | n in nodes :: n.key)
    {
      var e :| e in entries && e.key == k;
      var i :| 0 <= i < |entries| && entries[i] == e;
      assert nodes[i] in nodes;
    }
  }

  /** The key a node is given never affects the value built beneath it. */
  lemma ValueIgnoresKey(json: Any, k1: string, k2: string)
    ensures ParseJSON(json, k1).value == ParseJSON(json, k2).value
  {
  }

  /** Array children are keyed by pairwise distinct index strings. */
  lemma ArrayKeysDistinct(elements: seq<Any>, key: string)
    ensures var nodes := ParseJSON(List(elements), key).value.nodes;
      forall i, j | 0 <= i < j < |nodes| :: nodes[i].key != nodes[j].key
  {
    var nodes := ParseJSON(List(elements), key).value.nodes;
    forall i, j | 0 <= i < j < |nodes|
      ensures nodes[i].key != nodes[j].key
    {
      DecimalStringInjective(i, j);
    }
  }

  // ---------------------------------------------------------------------------
  // The row the outline view draws for one node.

  /** The colours the row uses; they tag the kind of each piece of text. */
  datatype Color = Blue | Primary | Green | Orange | Purple | Gray | Secondary

  /** One `Text` of the row: its characters and its foreground colour. */
  datatype Label = Label(text: string, color: Color)

  function Quoted(s: string): string
  {
    "\"" + s + "\""
  }

  /**
   * The text shown for a value. A number goes through `numberText`, which stands for
   * SwiftUI's formatting of a `Double` interpolated into a `Text` label (`%lf`).
   */
  function ValueLabel(v: JSONValue, numberText: Double -> string): (l: Label)
    ensures v.String? ==> l == Label(Quoted(v.str), Green)
    ensures v.Number? ==> l == Label(numberText(v.num), Orange)
    ensures v.Bool? ==> l == Label(if v.b then "true" else "false", Purple)
    ensures v.Null? ==> l == Label("null", Gray)
    ensures v.Object? ==> l == Label("{...}", Secondary)
    ensures v.Array? ==> l == Label("[...]", Secondary)
  {
    match v
    case String(str) => Label(Quoted(str), Green)
    case Number(num) => Label(numberText(num), Orange)
    case Bool(b) => Label(if b then "true" else "false", Purple)
    case Null => Label("null", Gray)
    case Object(_) => Label("{...}", Secondary)
    case Array(_) => Label("[...]", Secondary)
  }

  /** `JSONRowView.body`: the quoted key, a colon, and the value's text. */
  function Row(node: JSONNode, numberText: Double -> string): (row: seq<Label>)
    ensures |row| == 3
    ensures row[0] == Label(Quoted(node.key), Blue) && row[1] == Label(":", Primary)
    ensures row[2] == ValueLabel(node.value, numberText)
  {
    [Label(Quoted(node.key), Blue), Label(":", Primary), ValueLabel(node.value, numberText)]
  }

  lemma QuotedInjective(a: string, b: string)
    requires Quoted(a) == Quoted(b)
    ensures a == b
  {
    assert a == Quoted(a)[1..|Quoted(a)| - 1];
    assert b == Quoted(b)[1..|Quoted(b)| - 1];
  }

  /**
   * Two rows that look the same show the same key and the same kind of value,
   * and, unless the value is a number or a composite, the same value.
   */
  lemma RowDeterminesNode(a: JSONNode, b: JSONNode, numberText: Double -> string)
    requires Row(a, numberText) == Row(b, numberText)
    ensures a.key == b.key
    ensures a.value.Number? == b.value.Number?
    ensures (a.value.Object? || a.value.Array?) ==> a.value.Object? == b.value.Object? && a.value.Array? == b.value.Array?
    ensures !(a.value.Number? || a.value.Object? || a.value.Array?) ==> a.value == b.value
  {
    var ra, rb := Row(a, numberText), Row(b, numberText);
    assert ra[0] == rb[0];
    QuotedInjective(a.key, b.key);
    assert ra[2] == rb[2];
    if a.value.String? && b.value.String? {
      QuotedInjective(a.value.str, b.value.str);
    }
  }
}
