/** The JSON text that the preview hash covers: Go's encoding/json on parameter values
    (strings per section 7 of RFC 8259, with Go's HTML-safe escapes and sorted keys), and
    what is needed to read it back. */
module Json {
  import opened Text
  import opened SortedStrings

  /** A decoded JSON parameter. Floating-point numbers are not part of this model. */
  datatype Value =
    | Null
    | Bool(b: bool)
    | Int(n: int)
    | Str(s: string)
    | Arr(items: seq<Value>)
    | Obj(fields: map<string, Value>)

  /** Parameters as they are sent: none at all (nil) or a list. */
  type Parameters = Option<seq<Value>>

  /** nil and empty parameters are the same to the driver and to the hash. */
  function ParameterList(parameters: Parameters): seq<Value> {
    match parameters
    case None => []
    case Some(values) => values
  }

  // ---------- strings ----------

  function HexDigit(n: nat): char
    requires n < 16
  {
    if n < 10 then '0' + n as char else 'a' + (n - 10) as char
  }

  function Hex4(n: nat): string {
    [HexDigit(n / 4096 % 16), HexDigit(n / 256 % 16), HexDigit(n / 16 % 16), HexDigit(n % 16)]
  }

  /** The letter of a two-character escape, if the character has one. */
  function ShortEscape(c: char): Option<char> {
    if c == '"' then Some('"')
    else if c == '\\' then Some('\\')
    else if c == '\n' then Some('n')
    else if c == '\r' then Some('r')
    else if c == '\t' then Some('t')
    else if c == '\U{08}' then Some('b')
    else if c == '\U{0C}' then Some('f')
    else None
  }

  /** Control characters, the HTML characters and the two line separators of JavaScript. */
  predicate NeedsHex(c: char) {
    c < ' ' || c == '<' || c == '>' || c == '&' || c == '\U{2028}' || c == '\U{2029}'
  }

  function Escape(c: char): string {
    match ShortEscape(c)
    case Some(letter) => ['\\', letter]
    case None => if NeedsHex(c) then "\\u" + Hex4(c as nat) else [c]
  }

  /** The characters of a string literal, up to and including its closing quote. */
  function Characters(s: string): string {
    if s == "" then "\"" else Escape(s[0]) + Characters(s[1..])
  }

  function Literal(s: string): string {
    "\"" + Characters(s)
  }

  lemma {:induction false} Nibbles(n: nat)
    requires n < 65536
    ensures n == 4096 * (n / 4096 % 16) + 256 * (n / 256 % 16) + 16 * (n / 16 % 16) + n % 16
  {
  }

  // ---------- numbers ----------

  function IntText(n: int): string {
    if n < 0 then "-" + Decimal(-n) else Decimal(n)
  }

  predicate NoDigit(x: string) {
    x == "" || !IsDigit(x[0])
  }

  lemma {:induction false} IntFirst(n: int, x: string)
    ensures var s := IntText(n) + x; s != "" && (n < 0 <==> s[0] == '-') && (n >= 0 <==> IsDigit(s[0]))
    ensures n < 0 ==> (IntText(n) + x)[1..] == Decimal(-n) + x
  {
    if n >= 0 { assert Decimal(n)[0] in Decimal(n); }
  }

  // ---------- values ----------

  function Encode(v: Value): string
    decreases v, 0
  {
    match v
    case Null => "null"
    case Bool(b) => if b then "true" else "false"
    case Int(n) => IntText(n)
    case Str(s) => Literal(s)
    case Arr(items) => "[" + Items(items)
    case Obj(fields) =>
      SortedSound(fields.Keys);
      "{" + Fields(v, Sorted(fields.Keys))
  }

  /** The items of an array, up to and including its closing bracket. */
  function Items(items: seq<Value>): string
    decreases items, 0
  {
    if items == [] then "]"
    else Encode(items[0]) + (if |items| == 1 then "]" else "," + Items(items[1..]))
  }

  /** The fields `keys` of an object, up to and including its closing brace. */
  function Fields(v: Value, keys: seq<string>): string
    requires v.Obj? && forall key <- keys :: key in v.fields
    decreases v, 0, |keys|
  {
    if keys == [] then "}"
    else
      Literal(keys[0]) + (":" + (Encode(v.fields[keys[0]]) + (if |keys| == 1 then "}" else "," + Fields(v, keys[1..]))))
  }

  lemma {:induction false} EncodeFirst(v: Value, x: string)
    ensures var s := Encode(v) + x; s != "" && s[0] != ']'
  {
    if v.Int? { IntFirst(v.n, x); }
  }

  function ItemsRest(items: seq<Value>): string
    requires items != []
  {
    if |items| == 1 then "]" else "," + Items(items[1..])
  }

  lemma {:induction false} ItemsShape(items: seq<Value>, x: string)
    ensures var s := Items(items) + x;
            s != "" && (items == [] <==> s[0] == ']')
    ensures items != [] ==>
              && Items(items) + x == Encode(items[0]) + (ItemsRest(items) + x)
              && NoDigit(ItemsRest(items) + x)
  {
    if items != [] {
      ConcatAssoc(Encode(items[0]), ItemsRest(items), x);
      EncodeFirst(items[0], ItemsRest(items) + x);
    }
  }

  /** The fields of a struct in their order, up to and including the closing brace. */
  function FieldList(fields: seq<(string, Value)>): string {
    if fields == [] then "}"
    else
      Literal(fields[0].0) +
      (":" + (Encode(fields[0].1) + (if |fields| == 1 then "}" else "," + FieldList(fields[1..]))))
  }

  function FieldRest(fields: seq<(string, Value)>): string
    requires fields != []
  {
    if |fields| == 1 then "}" else "," + FieldList(fields[1..])
  }

  lemma {:induction false} FieldListShape(fields: seq<(string, Value)>, x: string)
    ensures fields == [] ==> FieldList(fields) + x == "}" + x
    ensures fields != [] ==>
              && FieldList(fields) + x ==
                 Literal(fields[0].0) + (":" + (Encode(fields[0].1) + (FieldRest(fields) + x)))
              && NoDigit(FieldRest(fields) + x)
  {
    if fields != [] {
      var key, value, rest := Literal(fields[0].0), Encode(fields[0].1), FieldRest(fields);
      ConcatAssoc(value, rest, x);
      ConcatAssoc(":", value + rest, x);
      ConcatAssoc(key, ":" + (value + rest), x);
    }
  }

  /** The fields of an object under the given keys, in that order. */
  function FieldsOf(v: Value, keys: seq<string>): seq<(string, Value)>
    requires v.Obj? && forall key <- keys :: key in v.fields
  {
    seq(|keys|, i requires 0 <= i < |keys| => (keys[i], v.fields[keys[i]]))
  }

  lemma {:induction false} FieldsAreList(v: Value, keys: seq<string>)
    requires v.Obj? && forall key <- keys :: key in v.fields
    ensures Fields(v, keys) == FieldList(FieldsOf(v, keys))
  {
    if keys == [] {
    } else {
      FieldsAreList(v, keys[1..]);
      assert FieldsOf(v, keys)[1..] == FieldsOf(v, keys[1..]);
    }
  }
}
