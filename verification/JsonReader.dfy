/** A reader of JSON text (RFC 8259) for values without fractions or exponents, and the
    proof that it gives back every value the encoder prints: no two values share a text. */
module JsonReader {
  import opened Text
  import opened Json
  import opened SortedStrings

  // ---------- strings (section 7) ----------

  function HexValue(c: char): nat {
    if '0' <= c <= '9' then (c - '0') as nat
    else if 'a' <= c <= 'f' then 10 + (c - 'a') as nat
    else if 'A' <= c <= 'F' then 10 + (c - 'A') as nat
    else 0
  }

  /** The character of a code unit; a surrogate stands for nothing alone. */
  function UnitCharacter(n: nat): char {
    if n < 0xD800 || 0xE000 <= n < 0x10000 then n as char else '\U{FFFD}'
  }

  /** The character that an escape letter stands for. */
  function LetterCharacter(c: char): char {
    if c == 'b' then '\U{08}'
    else if c == 'f' then '\U{0C}'
    else if c == 'n' then '\U{0A}'
    else if c == 'r' then '\U{0D}'
    else if c == 't' then '\U{09}'
    else c
  }

  /** The first character of the inside of a string, and how long its text is. */
  function ReadCharacter(s: string): (r: (char, nat))
    requires s != ""
    ensures 0 < r.1 <= |s|
  {
    if s[0] != '\\' || |s| < 2 then (s[0], 1)
    else if s[1] != 'u' || |s| < 6 then (LetterCharacter(s[1]), 2)
    else
      (UnitCharacter(4096 * HexValue(s[2]) + 256 * HexValue(s[3]) + 16 * HexValue(s[4]) + HexValue(s[5])), 6)
  }

  /** After the opening quote: the text up to the closing one, and what follows. */
  function ReadCharacters(s: string): (r: (string, string))
    ensures |r.1| <= |s|
  {
    if s == "" then ("", "")
    else if s[0] == '"' then ("", s[1..])
    else
      var (c, n) := ReadCharacter(s);
      var (text, rest) := ReadCharacters(s[n..]);
      ([c] + text, rest)
  }

  lemma {:induction false} HexDigitIsRead(n: nat)
    requires n < 16
    ensures HexValue(HexDigit(n)) == n
  {
  }

  lemma {:induction false} Hex4IsRead(n: nat)
    requires n < 65536
    ensures var h := Hex4(n);
            4096 * HexValue(h[0]) + 256 * HexValue(h[1]) + 16 * HexValue(h[2]) + HexValue(h[3]) == n
  {
    HexDigitIsRead(n / 4096 % 16);
    HexDigitIsRead(n / 256 % 16);
    HexDigitIsRead(n / 16 % 16);
    HexDigitIsRead(n % 16);
    Nibbles(n);
  }

  lemma {:induction false} EscapeIsRead(c: char, x: string)
    ensures Escape(c) != "" && Escape(c)[0] != '"'
    ensures ReadCharacter(Escape(c) + x) == (c, |Escape(c)|)
  {
    var s := Escape(c) + x;
    if ShortEscape(c).None? && NeedsHex(c) {
      var h := Hex4(c as nat);
      Hex4IsRead(c as nat);
      assert s[2] == h[0] && s[3] == h[1] && s[4] == h[2] && s[5] == h[3];
    }
  }

  /** Hexadecimal escapes are written in lower case. */
  lemma {:induction false} HexIsLower(n: nat)
    requires n < 65536
    ensures |Hex4(n)| == 4 && forall c <- Hex4(n) :: 48 <= c as int <= 57 || 97 <= c as int <= 102
  {
  }

  /** A string literal is read back, whatever its characters and whatever follows. */
  lemma {:induction false} CharactersAreRead(s: string, x: string)
    ensures ReadCharacters(Characters(s) + x) == (s, x)
  {
    if s == "" {
      assert ("\"" + x)[1..] == x;
    } else {
      var rest := Characters(s[1..]) + x;
      CharactersAreRead(s[1..], x);
      EscapeIsRead(s[0], rest);
      ConcatAssoc(Escape(s[0]), Characters(s[1..]), x);
      assert (Escape(s[0]) + rest)[|Escape(s[0])|..] == rest;
      assert [s[0]] + s[1..] == s;
    }
  }

  /** Besides what RFC 8259 demands - quote, backslash and the characters below 32 - the
      encoder hides `<`, `>`, `&` and the two line separators; all else stands for itself. */
  lemma {:induction false} EscapedByCode(c: char)
    ensures Escape(c) == [c] <==>
            32 <= c as int && c as int !in {34, 92, 60, 62, 38, 0x2028, 0x2029}
  {
  }

  // ---------- numbers ----------

  /** Digits and the rest. */
  function ReadDigits(s: string): (r: (string, string))
    ensures |r.1| <= |s| && forall c <- r.0 :: IsDigit(c)
  {
    if s == "" || !IsDigit(s[0]) then ("", s)
    else
      var (digits, rest) := ReadDigits(s[1..]);
      ([s[0]] + digits, rest)
  }

  lemma {:induction false} DigitsAreRead(a: string, x: string)
    requires (forall c <- a :: IsDigit(c)) && NoDigit(x)
    ensures ReadDigits(a + x) == (a, x)
  {
    if a == "" {
      assert a + x == x;
    } else {
      DigitsAreRead(a[1..], x);
      assert a[0] in a && (a + x)[1..] == a[1..] + x && [a[0]] + a[1..] == a;
    }
  }

  /** A number and the rest. */
  function ReadInt(s: string): (r: (int, string))
    requires s != "" && (s[0] == '-' || IsDigit(s[0]))
    ensures |r.1| < |s|
  {
    if s[0] == '-' then
      var (digits, rest) := ReadDigits(s[1..]);
      var n: int := DecimalValue(digits);
      (-n, rest)
    else
      var (digits, rest) := ReadDigits(s[1..]);
      (DecimalValue([s[0]] + digits), rest)
  }

  lemma {:induction false} RestOfDigits(d: string, x: string)
    requires d != "" && (forall c <- d :: IsDigit(c)) && NoDigit(x)
    ensures (d + x)[0] == d[0] && IsDigit(d[0]) && ReadDigits((d + x)[1..]) == (d[1..], x)
  {
    assert d[0] in d && forall c <- d[1..] :: c in d;
    DigitsAreRead(d[1..], x);
    assert (d + x)[1..] == d[1..] + x;
  }

  lemma {:induction false} NatIsRead(n: nat, x: string)
    requires NoDigit(x)
    ensures var s := Decimal(n) + x; s != "" && IsDigit(s[0]) && ReadInt(s) == (n, x)
  {
    DecimalRoundTrip(n);
    RestOfDigits(Decimal(n), x);
    assert [Decimal(n)[0]] + Decimal(n)[1..] == Decimal(n);
  }

  lemma {:induction false} IntIsRead(n: int, x: string)
    requires NoDigit(x)
    ensures var s := IntText(n) + x; s != "" && (s[0] == '-' || IsDigit(s[0])) && ReadInt(s) == (n, x)
  {
    if n < 0 {
      IntFirst(n, x);
      DecimalRoundTrip(-n);
      DigitsAreRead(Decimal(-n), x);
    } else {
      NatIsRead(n, x);
    }
  }

  // ---------- values ----------

  /** Of fields with the same name the last one counts. */
  function MapOf(fields: seq<(string, Value)>): map<string, Value> {
    if fields == [] then map[] else map[fields[0].0 := fields[0].1] + MapOf(fields[1..])
  }

  /** A value at the front of a text, and the rest. */
  function ReadValue(s: string): (r: Option<(Value, string)>)
    ensures r.Some? ==> |r.value.1| < |s|
    decreases |s|, 0
  {
    if s == "" then None
    else if s[0] == '"' then
      var (text, rest) := ReadCharacters(s[1..]);
      Some((Str(text), rest))
    else if s[0] == '-' || IsDigit(s[0]) then
      var (n, rest) := ReadInt(s);
      Some((Int(n), rest))
    else if s[0] == '[' && |s| > 1 then
      if s[1] == ']' then Some((Arr([]), s[2..]))
      else
        match ReadItems(s[1..])
        case None => None
        case Some((items, rest)) => Some((Arr(items), rest))
    else if s[0] == '{' && |s| > 1 then
      if s[1] == '}' then Some((Obj(map[]), s[2..]))
      else
        match ReadFields(s[1..])
        case None => None
        case Some((fields, rest)) => Some((Obj(MapOf(fields)), rest))
    else if "null" <= s then Some((Null, s[4..]))
    else if "true" <= s then Some((Bool(true), s[4..]))
    else if "false" <= s then Some((Bool(false), s[5..]))
    else None
  }

  /** One or more values up to the closing bracket, and what follows it. */
  function ReadItems(s: string): (r: Option<(seq<Value>, string)>)
    ensures r.Some? ==> |r.value.1| < |s|
    decreases |s|, 1
  {
    match ReadValue(s)
    case None => None
    case Some((v, rest)) =>
      if rest == "" then None
      else if rest[0] == ']' then Some(([v], rest[1..]))
      else if rest[0] != ',' then None
      else
        match ReadItems(rest[1..])
        case None => None
        case Some((items, after)) => Some(([v] + items, after))
  }

  /** One or more fields up to the closing brace, as they stand, and what follows it. */
  function ReadFields(s: string): (r: Option<(seq<(string, Value)>, string)>)
    ensures r.Some? ==> |r.value.1| < |s|
    decreases |s|, 1
  {
    if s == "" || s[0] != '"' then None
    else
      var (key, colon) := ReadCharacters(s[1..]);
      if colon == "" || colon[0] != ':' then None
      else
        match ReadValue(colon[1..])
        case None => None
        case Some((v, rest)) =>
          if rest == "" then None
          else if rest[0] == '}' then Some(([(key, v)], rest[1..]))
          else if rest[0] != ',' then None
          else
            match ReadFields(rest[1..])
            case None => None
            case Some((fields, after)) => Some(([(key, v)] + fields, after))
  }

  // ---------- every value is read back ----------

  lemma {:induction false} DropFirst(c: char, x: string)
    ensures ([c] + x)[0] == c && ([c] + x)[1..] == x
  {
  }

  lemma {:induction false} WordsAreRead(x: string)
    ensures ReadValue("null" + x) == Some((Null, x))
    ensures ReadValue("true" + x) == Some((Bool(true), x))
    ensures ReadValue("false" + x) == Some((Bool(false), x))
  {
    assert ("null" + x)[4..] == x && ("true" + x)[4..] == x && ("false" + x)[5..] == x;
    assert ("null" + x)[0] == 'n' && ("true" + x)[0] == 't' && ("false" + x)[0] == 'f';
  }

  lemma {:induction false} StringIsRead(s: string, x: string)
    ensures ReadValue(Literal(s) + x) == Some((Str(s), x))
  {
    CharactersAreRead(s, x);
    ConcatAssoc("\"", Characters(s), x);
    DropFirst('"', Characters(s) + x);
  }

  lemma {:induction false} ReadArray(text: string, items: seq<Value>, x: string)
    requires text != "" && text[0] != ']' && ReadItems(text) == Some((items, x))
    ensures ReadValue("[" + text) == Some((Arr(items), x))
  {
    DropFirst('[', text);
  }

  lemma {:induction false} ReadObject(text: string, fields: seq<(string, Value)>, x: string)
    requires text != "" && text[0] != '}' && ReadFields(text) == Some((fields, x))
    ensures ReadValue("{" + text) == Some((Obj(MapOf(fields)), x))
  {
    DropFirst('{', text);
  }

  lemma {:induction false} ReadEmpty(x: string)
    ensures ReadValue("[" + ("]" + x)) == Some((Arr([]), x)) && ReadValue("{" + ("}" + x)) == Some((Obj(map[]), x))
  {
    DropFirst('[', "]" + x);
    DropFirst('{', "}" + x);
    assert ("[" + ("]" + x))[2..] == x && ("{" + ("}" + x))[2..] == x;
  }

  ghost predicate IsReadBack(v: Value) {
    forall x :: NoDigit(x) ==> ReadValue(Encode(v) + x) == Some((v, x))
  }

  /** One field at the front of a list, when its value can be read. */
  lemma {:induction false} ReadField(key: string, text: string, value: Value, rest: string)
    requires ReadValue(text) == Some((value, rest)) && rest != ""
    ensures var s := Literal(key) + (":" + text);
            && (rest[0] == '}' ==> ReadFields(s) == Some(([(key, value)], rest[1..])))
            && (rest[0] == ',' && ReadFields(rest[1..]).Some? ==>
                  var (fields, x) := ReadFields(rest[1..]).value;
                  ReadFields(s) == Some(([(key, value)] + fields, x)))
  {
    CharactersAreRead(key, ":" + text);
    ConcatAssoc("\"", Characters(key), ":" + text);
    DropFirst('"', Characters(key) + (":" + text));
    DropFirst(':', text);
  }

  lemma {:induction false} LastField(key: string, value: Value, x: string)
    requires IsReadBack(value)
    ensures ReadFields(Literal(key) + (":" + (Encode(value) + ("}" + x)))) == Some(([(key, value)], x))
  {
    DropFirst('}', x);
    ReadField(key, Encode(value) + ("}" + x), value, "}" + x);
  }

  lemma {:induction false} FieldBefore(key: string, value: Value, more: string, fields: seq<(string, Value)>, x: string)
    requires IsReadBack(value) && ReadFields(more) == Some((fields, x))
    ensures ReadFields(Literal(key) + (":" + (Encode(value) + ("," + more)))) == Some(([(key, value)] + fields, x))
  {
    DropFirst(',', more);
    ReadField(key, Encode(value) + ("," + more), value, "," + more);
  }

  /** A list of fields is read back in its order. */
  lemma {:induction false} FieldsAreRead(fields: seq<(string, Value)>, x: string)
    requires fields != [] && forall f <- fields :: IsReadBack(f.1)
    ensures ReadFields(FieldList(fields) + x) == Some((fields, x))
    decreases |fields|
  {
    var (key, value) := fields[0];
    FieldListShape(fields, x);
    assert fields[0] in fields && IsReadBack(value);
    if |fields| == 1 {
      LastField(key, value, x);
      assert fields == [(key, value)];
    } else {
      var others := fields[1..];
      FieldsAreRead(others, x);
      ConcatAssoc(",", FieldList(others), x);
      FieldBefore(key, value, FieldList(others) + x, others, x);
      assert fields == [(key, value)] + others;
    }
  }

  /** Reading an encoded value gives it back, whatever follows it but a digit. */
  lemma {:induction false} ValueIsRead(v: Value, x: string)
    requires NoDigit(x)
    ensures ReadValue(Encode(v) + x) == Some((v, x))
    decreases v, 1
  {
    match v
    case Null => WordsAreRead(x);
    case Bool(_) => WordsAreRead(x);
    case Int(n) => IntIsRead(n, x);
    case Str(s) => StringIsRead(s, x);
    case Arr(items) =>
      ConcatAssoc("[", Items(items), x);
      ItemsShape(items, x);
      if items == [] {
        ReadEmpty(x);
      } else {
        ItemsAreRead(items, x);
        ReadArray(Items(items) + x, items, x);
      }
    case Obj(fields) =>
      ObjectIsRead(v, x);
  }

  /** One item at the front of a list, when it can be read. */
  lemma {:induction false} ReadItem(text: string, value: Value, rest: string)
    requires ReadValue(text) == Some((value, rest)) && rest != ""
    ensures rest[0] == ']' ==> ReadItems(text) == Some(([value], rest[1..]))
    ensures rest[0] == ',' && ReadItems(rest[1..]).Some? ==>
              var (items, x) := ReadItems(rest[1..]).value;
              ReadItems(text) == Some(([value] + items, x))
  {
  }

  lemma {:induction false} ItemsAreRead(items: seq<Value>, x: string)
    requires items != []
    ensures ReadItems(Items(items) + x) == Some((items, x))
    decreases items, 0
  {
    var value, rest := items[0], ItemsRest(items) + x;
    ItemsShape(items, x);
    ValueIsRead(value, rest);
    ReadItem(Encode(value) + rest, value, rest);
    if |items| == 1 {
      DropFirst(']', x);
      assert items == [value];
    } else {
      ItemsAreRead(items[1..], x);
      ConcatAssoc(",", Items(items[1..]), x);
      DropFirst(',', Items(items[1..]) + x);
      assert items == [value] + items[1..];
    }
  }

  lemma {:induction false} MapOfFields(v: Value, keys: seq<string>)
    requires v.Obj? && forall key <- keys :: key in v.fields
    ensures MapOf(FieldsOf(v, keys)) == map key | key in keys :: v.fields[key]
  {
    if keys == [] {
    } else {
      MapOfFields(v, keys[1..]);
      assert FieldsOf(v, keys)[1..] == FieldsOf(v, keys[1..]);
      assert forall key :: key in keys <==> key == keys[0] || key in keys[1..];
    }
  }

  lemma {:induction false} AllFields(v: Value, keys: seq<string>)
    requires v.Obj? && Members(keys) == v.fields.Keys
    ensures (forall key <- keys :: key in v.fields) && MapOf(FieldsOf(v, keys)) == v.fields
    ensures keys == [] <==> v.fields == map[]
  {
    assert forall key :: key in keys <==> key in Members(keys);
    MapOfFields(v, keys);
    assert v.fields == map key | key in keys :: v.fields[key];
    assert keys == [] ==> v.fields.Keys == {};
  }

  lemma {:induction false} SortedFields(v: Value) returns (fields: seq<(string, Value)>)
    requires v.Obj?
    ensures Encode(v) == "{" + FieldList(fields)
    ensures MapOf(fields) == v.fields && (fields == [] <==> v.fields == map[]) && |fields| == |v.fields|
    ensures forall i, j :: 0 <= i < j < |fields| ==> Less(fields[i].0, fields[j].0)
  {
    var keys := Sorted(v.fields.Keys);
    SortedSound(v.fields.Keys);
    AllFields(v, keys);
    FieldsAreList(v, keys);
    fields := FieldsOf(v, keys);
  }

  lemma {:induction false} KeyedValuesAreRead(v: Value, keys: seq<string>, x: string)
    requires v.Obj? && Members(keys) == v.fields.Keys && forall key <- v.fields :: IsReadBack(v.fields[key])
    ensures (forall key <- keys :: key in v.fields) && ReadValue("{" + (Fields(v, keys) + x)) == Some((v, x))
  {
    AllFields(v, keys);
    FieldsAreList(v, keys);
    var fields := FieldsOf(v, keys);
    FieldListShape(fields, x);
    if fields == [] {
      ReadEmpty(x);
    } else {
      FieldsAreRead(fields, x);
      ReadObject(FieldList(fields) + x, fields, x);
    }
  }

  lemma {:induction false} ObjectIsRead(v: Value, x: string)
    requires v.Obj?
    ensures ReadValue(Encode(v) + x) == Some((v, x))
    decreases v, 0
  {
    forall key, y | key in v.fields && NoDigit(y)
      ensures ReadValue(Encode(v.fields[key]) + y) == Some((v.fields[key], y))
    {
      ValueIsRead(v.fields[key], y);
    }
    var keys := Sorted(v.fields.Keys);
    SortedSound(v.fields.Keys);
    KeyedValuesAreRead(v, keys, x);
    ConcatAssoc("{", Fields(v, keys), x);
  }

  lemma {:induction false} AllValuesAreRead(fields: seq<(string, Value)>)
    ensures forall f <- fields :: IsReadBack(f.1)
  {
    forall f, y | f in fields && NoDigit(y)
      ensures ReadValue(Encode(f.1) + y) == Some((f.1, y))
    {
      ValueIsRead(f.1, y);
    }
  }

  /** The fields of an encoded object stand in ascending order of their keys. */
  lemma {:induction false} FieldsAscend(v: Value)
    requires v.Obj? && v.fields != map[]
    ensures Encode(v) != "" && ReadFields(Encode(v)[1..]).Some?
    ensures var fields := ReadFields(Encode(v)[1..]).value.0;
            && |fields| == |v.fields|
            && forall i, j :: 0 <= i < j < |fields| ==> Less(fields[i].0, fields[j].0)
  {
    var fields := SortedFields(v);
    AllValuesAreRead(fields);
    FieldsAreRead(fields, "");
    DropFirst('{', FieldList(fields));
    assert FieldList(fields) + "" == FieldList(fields);
  }

  /** No two values share a text. */
  lemma {:induction false} EncodeInjective(a: Value, b: Value, x: string, y: string)
    requires NoDigit(x) && NoDigit(y) && Encode(a) + x == Encode(b) + y
    ensures a == b && x == y
  {
    ValueIsRead(a, x);
    ValueIsRead(b, y);
  }
}
