/** A reader of the printed SQL: it takes the statements of a request apart by their
    backticks and literal text, without the printers, and gives the request back. So the
    printers are unambiguous, and put everything in its place. */
module RequestReader {
  import opened Text
  import opened Identifier
  import opened Operation
  import opened OperationTheory

  // ---------- numbers, types and columns ----------

  function ReadNat(s: string): int {
    if forall c <- s :: IsDigit(c) then DecimalValue(s) else 0
  }

  function CommaAt(s: string): (k: nat)
    ensures k <= |s| && (k < |s| ==> s[k] == ',') && forall i :: 0 <= i < k ==> s[i] != ','
  {
    if s == "" || s[0] == ',' then 0 else 1 + CommaAt(s[1..])
  }

  /** Length, precision and scale of a type like `NAME(n)` or `NAME(p,s)`; zeros without. */
  function ReadSizes(kind: string, t: string): (int, int, int) {
    var open := if kind == "varchar" || kind == "decimal" then 7 else |t|;
    if |t| < open + 2 then (0, 0, 0)
    else
      var inside := t[open + 1..|t| - 1];
      var comma := CommaAt(inside);
      if kind == "varchar" then (ReadNat(inside), 0, 0)
      else if comma == |inside| then (0, 0, 0)
      else (0, ReadNat(inside[..comma]), ReadNat(inside[comma + 1..]))
  }

  function ReadKind(dialect: Dialect, t: string): string {
    match dialect
    case MySQL =>
      if t == "INT" then "int" else if t == "BIGINT" then "bigint" else if t == "TEXT" then "text"
      else if t == "BOOLEAN" then "boolean" else if t == "DATE" then "date" else if t == "DATETIME" then "datetime"
      else if t == "TIMESTAMP" then "timestamp" else if "VARCHAR(" <= t then "varchar"
      else if "DECIMAL(" <= t then "decimal" else ""
    case ClickHouse =>
      if t == "Int64" then "int64" else if t == "UInt64" then "uint64" else if t == "String" then "string"
      else if t == "Bool" then "bool" else if t == "Date" then "date" else if t == "DateTime" then "datetime"
      else if "Decimal(" <= t then "decimal" else ""
  }

  function EndsWith(s: string, suffix: string): bool {
    |suffix| <= |s| && s[|s| - |suffix|..] == suffix
  }

  /** The type in the text after a column name, and whether it takes NULL. */
  function ReadNullability(dialect: Dialect, text: string): (string, bool) {
    match dialect
    case MySQL =>
      if EndsWith(text, " NOT NULL") && |text| > 9 then (text[1..|text| - 9], false)
      else if |text| > 5 then (text[1..|text| - 5], true)
      else ("", true)
    case ClickHouse =>
      if " Nullable(" <= text && |text| > 10 then (text[10..|text| - 1], true)
      else if text != "" then (text[1..], false)
      else ("", false)
  }

  function ReadColumn(dialect: Dialect, name: string, text: string): ColumnSpec {
    var (t, nullable) := ReadNullability(dialect, text);
    var kind := ReadKind(dialect, t);
    var (length, precision, scale) := ReadSizes(kind, t);
    ColumnSpec(name, kind, length, precision, scale, nullable)
  }

  // ---------- what a type prints ----------

  lemma {:induction false} NatIsRead(n: nat)
    ensures ReadNat(Decimal(n)) == n
  {
    DecimalRoundTrip(n);
  }

  lemma {:induction false} CommaIsFound(a: string, b: string)
    requires forall c <- a :: IsDigit(c)
    ensures CommaAt(a + "," + b) == |a|
  {
    var s := a + "," + b;
    assert s[|a|] == ',';
    assert forall i :: 0 <= i < |a| ==> s[i] == a[i] && a[i] in a;
  }

  lemma {:induction false} DecimalIsRead(p: nat, s: nat, name: string)
    requires |name| == 7
    ensures ReadSizes("decimal", name + "(" + Decimal(p) + "," + Decimal(s) + ")") == (0, p, s)
  {
    var t := name + "(" + Decimal(p) + "," + Decimal(s) + ")";
    var inside := Decimal(p) + "," + Decimal(s);
    assert t == name + "(" + inside + ")";
    assert t[8..|t| - 1] == inside;
    CommaIsFound(Decimal(p), Decimal(s));
    assert inside[..|Decimal(p)|] == Decimal(p) && inside[|Decimal(p)| + 1..] == Decimal(s);
    NatIsRead(p);
    NatIsRead(s);
  }

  lemma {:induction false} VarcharIsRead(n: nat)
    ensures ReadSizes("varchar", "VARCHAR(" + Decimal(n) + ")") == (n, 0, 0)
  {
    var t := "VARCHAR(" + Decimal(n) + ")";
    assert t[8..|t| - 1] == Decimal(n);
    NatIsRead(n);
  }

  predicate HasNoSize(spec: ColumnSpec) {
    spec.length == 0 && spec.precision == 0 && spec.scale == 0
  }

  /** The column types that MySQL takes. */
  lemma {:induction false} MySQLTypeAccepted(spec: ColumnSpec)
    ensures TypeSQL(MySQL, spec).Success? <==>
            || (spec.kind in {"int", "bigint", "text", "boolean", "date", "datetime", "timestamp"} && HasNoSize(spec))
            || (spec.kind == "varchar" && 1 <= spec.length <= 65535 && spec.precision == 0 && spec.scale == 0)
            || (spec.kind == "decimal" && spec.length == 0 && 1 <= spec.precision <= 65 &&
                0 <= spec.scale <= spec.precision)
  {
  }

  /** The column types that ClickHouse takes. */
  lemma {:induction false} ClickHouseTypeAccepted(spec: ColumnSpec)
    ensures TypeSQL(ClickHouse, spec).Success? <==>
            || (spec.kind in {"int64", "uint64", "string", "bool", "date", "datetime"} && HasNoSize(spec))
            || (spec.kind == "decimal" && spec.length == 0 && 1 <= spec.precision <= 76 &&
                0 <= spec.scale <= spec.precision)
  {
  }

  /** Kind and sizes read off a printed type are those of the column. */
  predicate IsReadBack(dialect: Dialect, spec: ColumnSpec, t: string) {
    ReadKind(dialect, t) == spec.kind && ReadSizes(spec.kind, t) == (spec.length, spec.precision, spec.scale)
  }

  lemma {:induction false} MySQLNameIsRead(spec: ColumnSpec)
    requires TypeSQL(MySQL, spec).Success? && !HasSize(spec)
    ensures IsReadBack(MySQL, spec, TypeSQL(MySQL, spec).value)
  {
  }

  lemma {:induction false} ClickHouseNameIsRead(spec: ColumnSpec)
    requires TypeSQL(ClickHouse, spec).Success? && !HasSize(spec)
    ensures IsReadBack(ClickHouse, spec, TypeSQL(ClickHouse, spec).value)
  {
  }

  lemma {:induction false} VarcharKind(x: string)
    ensures ReadKind(MySQL, "VARCHAR(" + x) == "varchar"
  {
    var t := "VARCHAR(" + x;
    assert t[0] == 'V' && "VARCHAR(" <= t;
  }

  lemma {:induction false} MySQLDecimalKind(x: string)
    ensures ReadKind(MySQL, "DECIMAL(" + x) == "decimal"
  {
    var t := "DECIMAL(" + x;
    assert t[0] == 'D' && t[1] == 'E' && "DECIMAL(" <= t;
  }

  lemma {:induction false} ClickHouseDecimalKind(x: string)
    ensures ReadKind(ClickHouse, "Decimal(" + x) == "decimal"
  {
    var t := "Decimal(" + x;
    assert t[0] == 'D' && t[1] == 'e' && "Decimal(" <= t;
  }

  lemma {:induction false} SizeText(name: string, p: string, q: string)
    ensures name + "(" + p + "," + q + ")" == name + "(" + (p + "," + q + ")")
  {
  }

  lemma {:induction false} MySQLSizeIsRead(spec: ColumnSpec)
    requires TypeSQL(MySQL, spec).Success? && HasSize(spec)
    ensures IsReadBack(MySQL, spec, TypeSQL(MySQL, spec).value)
  {
    if spec.kind == "varchar" {
      VarcharIsRead(spec.length);
      VarcharKind(Decimal(spec.length) + ")");
      assert "VARCHAR(" + Decimal(spec.length) + ")" == "VARCHAR(" + (Decimal(spec.length) + ")");
    } else {
      var p, q := Decimal(spec.precision), Decimal(spec.scale);
      DecimalIsRead(spec.precision, spec.scale, "DECIMAL");
      SizeText("DECIMAL", p, q);
      MySQLDecimalKind(p + "," + q + ")");
      assert "DECIMAL" + "(" == "DECIMAL(";
    }
  }

  lemma {:induction false} ClickHouseSizeIsRead(spec: ColumnSpec)
    requires TypeSQL(ClickHouse, spec).Success? && HasSize(spec)
    ensures IsReadBack(ClickHouse, spec, TypeSQL(ClickHouse, spec).value)
  {
    var p, q := Decimal(spec.precision), Decimal(spec.scale);
    DecimalIsRead(spec.precision, spec.scale, "Decimal");
    SizeText("Decimal", p, q);
    ClickHouseDecimalKind(p + "," + q + ")");
    assert "Decimal" + "(" == "Decimal(";
  }

  lemma {:induction false} TypeIsRead(dialect: Dialect, spec: ColumnSpec)
    requires TypeSQL(dialect, spec).Success?
    ensures IsReadBack(dialect, spec, TypeSQL(dialect, spec).value)
  {
    match dialect
    case MySQL => if HasSize(spec) { MySQLSizeIsRead(spec); } else { MySQLNameIsRead(spec); }
    case ClickHouse => if HasSize(spec) { ClickHouseSizeIsRead(spec); } else { ClickHouseNameIsRead(spec); }
  }

  lemma {:induction false} MySQLNullabilityIsRead(t: string, nullable: bool)
    requires IsTypeText(t)
    ensures ReadNullability(MySQL, WithNullability(MySQL, t, nullable)) == (t, nullable)
  {
    var text := WithNullability(MySQL, t, nullable);
    assert ' ' !in t;
    if nullable {
      assert text == " " + t + " NULL" && text[1..|text| - 5] == t;
      if |text| > 9 {
        var k := |text| - 9;
        assert text[k..][0] == text[k] == t[k - 1] && t[k - 1] in t;
      }
    } else {
      assert text == " " + t + " NOT NULL" && text[1..|text| - 9] == t;
      assert text[|text| - 9..] == " NOT NULL";
    }
  }

  lemma {:induction false} ClickHouseNullabilityIsRead(t: string, nullable: bool)
    requires IsTypeText(t)
    ensures ReadNullability(ClickHouse, WithNullability(ClickHouse, t, nullable)) == (t, nullable)
  {
    var text := WithNullability(ClickHouse, t, nullable);
    if nullable {
      assert text == " Nullable(" + t + ")" && text[10..|text| - 1] == t;
    } else {
      assert text[1] == t[0] && text[1..] == t;
    }
  }

  /** A MySQL column says NOT NULL, and a ClickHouse column Nullable, exactly when it must. */
  lemma {:induction false} NullabilityShown(dialect: Dialect, spec: ColumnSpec)
    requires ColumnType(dialect, spec).Success?
    ensures var text := ColumnType(dialect, spec).value;
            match dialect
            case MySQL => EndsWith(text, " NOT NULL") <==> !spec.nullable
            case ClickHouse => " Nullable(" <= text <==> spec.nullable
  {
    var t := TypeSQL(dialect, spec).value;
    TypeText(dialect, spec);
    match dialect
    case MySQL => MySQLNullabilityIsRead(t, spec.nullable);
    case ClickHouse => ClickHouseNullabilityIsRead(t, spec.nullable);
  }

  /** The column is read back from the text after its name: kind, length, precision and
      scale, each in its place, and whether it takes NULL. */
  lemma {:induction false} ColumnIsRead(dialect: Dialect, spec: ColumnSpec)
    requires ColumnType(dialect, spec).Success?
    ensures ReadColumn(dialect, spec.name, ColumnType(dialect, spec).value) == spec
  {
    var t := TypeSQL(dialect, spec).value;
    TypeText(dialect, spec);
    TypeIsRead(dialect, spec);
    match dialect
    case MySQL => MySQLNullabilityIsRead(t, spec.nullable);
    case ClickHouse => ClickHouseNullabilityIsRead(t, spec.nullable);
  }

  /** The text after a column name determines every other field of the column. */
  lemma {:induction false} ColumnTypeInjective(dialect: Dialect, a: ColumnSpec, b: ColumnSpec)
    requires a.name == b.name
    requires ColumnType(dialect, a).Success? && ColumnType(dialect, a) == ColumnType(dialect, b)
    ensures a == b
  {
    ColumnIsRead(dialect, a);
    ColumnIsRead(dialect, b);
  }

  // ---------- statements ----------

  /** The text cut at its backticks. */
  function Pieces(s: string): (pieces: seq<string>)
    ensures pieces != []
  {
    if s == "" then [""]
    else
      var rest := Pieces(s[1..]);
      if s[0] == '`' then [""] + rest else [[s[0]] + rest[0]] + rest[1..]
  }

  function WithoutEnd(s: string, suffix: string): string {
    if EndsWith(s, suffix) then s[..|s| - |suffix|] else "?"
  }

  /** A list of names, each with the text up to the separator after it. */
  function ReadList(pieces: seq<string>, separator: string, final: string): seq<Item> {
    if |pieces| < 2 then []
    else if |pieces| == 2 then [Item(pieces[0], WithoutEnd(pieces[1], final))]
    else [Item(pieces[0], WithoutEnd(pieces[1], separator))] + ReadList(pieces[2..], separator, final)
  }

  function ReadColumns(dialect: Dialect, items: seq<Item>): seq<ColumnSpec> {
    seq(|items|, i requires 0 <= i < |items| => ReadColumn(dialect, items[i].name, items[i].text))
  }

  function ReadNames(items: seq<Item>): Option<seq<string>> {
    if forall i :: 0 <= i < |items| ==> items[i].text == "" then
      Some(seq(|items|, i requires 0 <= i < |items| => items[i].name))
    else None
  }

  function TableEnd(dialect: Dialect): string {
    match dialect
    case MySQL => ")"
    case ClickHouse => ") ENGINE = MergeTree ORDER BY tuple()"
  }

  function ReadAlter(dialect: Dialect, p: seq<string>): Option<Request>
    requires |p| > 2
  {
    if p[2] == " ADD COLUMN " then
      Some(AddColumns(p[1], ReadColumns(dialect, ReadList(p[3..], ", ADD COLUMN ", ""))))
    else if p[2] == " MODIFY COLUMN " then
      Some(ModifyColumns(p[1], ReadColumns(dialect, ReadList(p[3..], ", MODIFY COLUMN ", ""))))
    else if p[2] == " DROP COLUMN " then
      match ReadNames(ReadList(p[3..], ", DROP COLUMN ", ""))
      case Some(names) => Some(DropColumns(p[1], names))
      case None => None
    else None
  }

  function ReadPair(p: seq<string>): Option<Request>
    requires |p| > 4
  {
    if p[0] == "RENAME TABLE " && p[2] == " TO " then Some(RenameTable(p[1], p[3]))
    else if p[0] == "DROP INDEX " && p[2] == " ON " then Some(DropIndex(p[3], p[1]))
    else if p[0] in {"CREATE INDEX ", "CREATE UNIQUE INDEX "} && p[2] == " ON " && p[4] == " (" then
      match ReadNames(ReadList(p[5..], ", ", ")"))
      case Some(names) => Some(CreateIndex(p[3], p[1], names, p[0] == "CREATE UNIQUE INDEX "))
      case None => None
    else None
  }

  function ReadRequest(dialect: Dialect, statements: seq<string>): Option<Request>
    requires statements != []
  {
    var p := Pieces(statements[0]);
    if |p| < 3 then None
    else if p[0] == "DROP TABLE " then Some(DropTable(p[1]))
    else if p[0] == "ALTER TABLE " then ReadAlter(dialect, p)
    else if p[0] == "CREATE TABLE " && p[2] == " (" then
      Some(CreateTable(p[1], ReadColumns(dialect, ReadList(p[3..], ", ", TableEnd(dialect)))))
    else if |p| < 5 then None
    else if p[0] == "CREATE TABLE " && p[2] == " LIKE " then
      if |statements| == 1 then Some(CopyTable(p[3], p[1], false))
      else if Pieces(statements[1]) == ["INSERT INTO ", p[1], " SELECT * FROM ", p[3], ""] then
        Some(CopyTable(p[3], p[1], true))
      else None
    else ReadPair(p)
  }

  // ---------- every request is read back ----------

  lemma {:induction false} PlainPiece(a: string, s: string)
    requires '`' !in a
    ensures Pieces(a) == [a] && Pieces(a + ("`" + s)) == [a] + Pieces(s)
  {
    if a == "" {
      assert ("`" + s)[1..] == s && a + ("`" + s) == "`" + s;
    } else {
      assert a[0] in a && forall c <- a[1..] :: c in a;
      PlainPiece(a[1..], s);
      assert (a + ("`" + s))[1..] == a[1..] + ("`" + s);
      assert [a[0]] + a[1..] == a;
    }
  }

  /** The names and texts of slots in a row. */
  function Flat(slots: seq<Slot>): seq<string> {
    if slots == [] then [] else [slots[0].name, slots[0].text] + Flat(slots[1..])
  }

  lemma {:induction false} BenignHasNoMark(s: string)
    requires Benign(s)
    ensures '`' !in s
  {
  }

  lemma {:induction false} SlotText(head: string, slots: seq<Slot>)
    requires slots != []
    ensures head + Render(slots) ==
            head + ("`" + (slots[0].name + ("`" + (slots[0].text + Render(slots[1..])))))
  {
    var name, tail := slots[0].name, slots[0].text + Render(slots[1..]);
    ConcatAssoc("`", name, "`" + tail);
    ConcatAssoc("`", slots[0].text, Render(slots[1..]));
  }

  lemma {:induction false} PiecesOfSlots(head: string, slots: seq<Slot>)
    requires Benign(head) && BenignSlots(slots)
    ensures Pieces(head + Render(slots)) == [head] + Flat(slots)
    decreases |slots|
  {
    BenignHasNoMark(head);
    if slots == [] {
      PlainPiece(head, "");
      assert head + "" == head && [head] + [] == [head];
    } else {
      var slot, rest := slots[0], slots[1..];
      BenignHasNoMark(slot.name);
      PiecesOfSlots(slot.text, rest);
      PlainPiece(slot.name, slot.text + Render(rest));
      PlainPiece(head, slot.name + ("`" + (slot.text + Render(rest))));
      SlotText(head, slots);
      assert [slot.name] + ([slot.text] + Flat(rest)) == [slot.name, slot.text] + Flat(rest);
    }
  }

  lemma {:induction false} EndIsDropped(s: string, suffix: string)
    ensures WithoutEnd(s + suffix, suffix) == s
  {
    var t := s + suffix;
    assert t[|t| - |suffix|..] == suffix && t[..|t| - |suffix|] == s;
  }

  lemma {:induction false} FlatCons(slot: Slot, slots: seq<Slot>)
    ensures Flat([slot] + slots) == [slot.name, slot.text] + Flat(slots)
    ensures Flat([slot]) == [slot.name, slot.text]
  {
    assert ([slot] + slots)[1..] == slots && [slot][1..] == [];
  }

  lemma {:induction false} FlatLength(slots: seq<Slot>)
    ensures |Flat(slots)| == 2 * |slots|
  {
    if slots == [] {
    } else {
      FlatLength(slots[1..]);
    }
  }

  lemma {:induction false} ListIsRead(items: seq<Item>, separator: string, final: string)
    requires items != []
    ensures ReadList(Flat(ItemSlots(items, separator, final)), separator, final) == items
  {
    var slots := ItemSlots(items, separator, final);
    if |items| == 1 {
      FlatCons(slots[0], []);
      EndIsDropped(items[0].text, final);
      assert slots == [slots[0]];
    } else {
      var rest := ItemSlots(items[1..], separator, final);
      ListIsRead(items[1..], separator, final);
      FlatCons(slots[0], rest);
      FlatLength(rest);
      EndIsDropped(items[0].text, separator);
      assert slots == [slots[0]] + rest;
      assert Flat(slots)[2..] == Flat(rest);
      assert items == [items[0]] + items[1..];
    }
  }

  lemma {:induction false} ColumnsAreRead(dialect: Dialect, specs: seq<ColumnSpec>)
    requires Columns(dialect, specs).Success?
    ensures ReadColumns(dialect, ColumnItems(dialect, specs)) == specs
  {
    ColumnsAccepted(dialect, specs);
    forall i | 0 <= i < |specs|
      ensures ReadColumn(dialect, specs[i].name, ColumnItems(dialect, specs)[i].text) == specs[i]
    {
      ColumnIsRead(dialect, specs[i]);
    }
  }

  lemma {:induction false} NamesAreRead(names: seq<string>)
    ensures ReadNames(NameItems(names)) == Some(names)
  {
    var items := NameItems(names);
    assert seq(|items|, i requires 0 <= i < |items| => items[i].name) == names;
  }

  /** The pieces of a statement with a list: those before the list, then the list. */
  lemma {:induction false} ListPieces(head: string, slot: Slot, slots: seq<Slot>)
    ensures var p := [head] + Flat([slot] + slots);
            |p| > 2 && p[0] == head && p[1] == slot.name && p[2] == slot.text && p[3..] == Flat(slots)
  {
    FlatCons(slot, slots);
  }

  lemma {:induction false} FirstPieces(dialect: Dialect, request: Request)
    requires Build(dialect, request).Success?
    ensures var shape := ShapeOf(dialect, request);
            && Build(dialect, request).value != []
            && Pieces(Build(dialect, request).value[0]) == [shape.head] + Flat(shape.slots)
  {
    BuildPrintsShapes(dialect, request);
    var shape := ShapeOf(dialect, request);
    assert Shapes(dialect, request)[0] == shape;
    PiecesOfSlots(shape.head, shape.slots);
  }

  lemma {:induction false} CreateTableIsRead(dialect: Dialect, table: string, columns: seq<ColumnSpec>)
    requires Build(dialect, CreateTable(table, columns)).Success?
    ensures ReadRequest(dialect, Build(dialect, CreateTable(table, columns)).value) == Some(CreateTable(table, columns))
  {
    FirstPieces(dialect, CreateTable(table, columns));
    ColumnsAccepted(dialect, columns);
    var items := ColumnItems(dialect, columns);
    var slots := ItemSlots(items, ", ", TableClose(dialect));
    ListPieces("CREATE TABLE ", Slot(table, " ("), slots);
    ListIsRead(items, ", ", TableClose(dialect));
    ColumnsAreRead(dialect, columns);
  }

  lemma {:induction false} AlterPieces(table: string, prefix: string, before: string, separator: string,
                                       items: seq<Item>)
    requires items != [] && before == " " + prefix && separator == ", " + prefix
    ensures var shape := AlterShape(table, prefix, items);
            var p := [shape.head] + Flat(shape.slots);
            && |p| > 2 && p[0] == "ALTER TABLE " && p[1] == table && p[2] == before
            && ReadList(p[3..], separator, "") == items
  {
    ListPieces("ALTER TABLE ", Slot(table, before), ItemSlots(items, separator, ""));
    ListIsRead(items, separator, "");
  }

  lemma {:induction false} AlterIsRead(dialect: Dialect, statements: seq<string>)
    requires statements != [] && |Pieces(statements[0])| > 2 && Pieces(statements[0])[0] == "ALTER TABLE "
    ensures ReadRequest(dialect, statements) == ReadAlter(dialect, Pieces(statements[0]))
  {
  }

  lemma {:induction false} AddWords()
    ensures " ADD COLUMN " == " " + "ADD COLUMN " && ", ADD COLUMN " == ", " + "ADD COLUMN "
  {
  }

  lemma {:induction false} ModifyWords()
    ensures " MODIFY COLUMN " == " " + "MODIFY COLUMN " && ", MODIFY COLUMN " == ", " + "MODIFY COLUMN "
  {
  }

  lemma {:induction false} DropWords()
    ensures " DROP COLUMN " == " " + "DROP COLUMN " && ", DROP COLUMN " == ", " + "DROP COLUMN "
  {
  }

  lemma {:induction false} ReadAdd(dialect: Dialect, p: seq<string>, columns: seq<ColumnSpec>)
    requires |p| > 2 && p[2] == " ADD COLUMN "
    requires ReadColumns(dialect, ReadList(p[3..], ", ADD COLUMN ", "")) == columns
    ensures ReadAlter(dialect, p) == Some(AddColumns(p[1], columns))
  {
  }

  lemma {:induction false} ReadModify(dialect: Dialect, p: seq<string>, columns: seq<ColumnSpec>)
    requires |p| > 2 && p[2] == " MODIFY COLUMN "
    requires ReadColumns(dialect, ReadList(p[3..], ", MODIFY COLUMN ", "")) == columns
    ensures ReadAlter(dialect, p) == Some(ModifyColumns(p[1], columns))
  {
    assert |p[2]| == 15;
  }

  lemma {:induction false} ReadDrop(dialect: Dialect, p: seq<string>, names: seq<string>)
    requires |p| > 2 && p[2] == " DROP COLUMN "
    requires ReadNames(ReadList(p[3..], ", DROP COLUMN ", "")) == Some(names)
    ensures ReadAlter(dialect, p) == Some(DropColumns(p[1], names))
  {
    assert |p[2]| == 13;
  }

  lemma {:induction false} AddPieces(dialect: Dialect, table: string, columns: seq<ColumnSpec>)
    requires Columns(dialect, columns).Success?
    ensures columns != []
    ensures var shape := AlterShape(table, "ADD COLUMN ", ColumnItems(dialect, columns));
            var p := [shape.head] + Flat(shape.slots);
            && |p| > 2 && p[0] == "ALTER TABLE " && p[1] == table && p[2] == " ADD COLUMN "
            && ReadColumns(dialect, ReadList(p[3..], ", ADD COLUMN ", "")) == columns
  {
    AcceptedItems(dialect, columns);
    AddWords();
    AlterPieces(table, "ADD COLUMN ", " ADD COLUMN ", ", ADD COLUMN ", ColumnItems(dialect, columns));
    ColumnsAreRead(dialect, columns);
  }

  lemma {:induction false} ModifyPieces(dialect: Dialect, table: string, columns: seq<ColumnSpec>)
    requires Columns(dialect, columns).Success?
    ensures columns != []
    ensures var shape := AlterShape(table, "MODIFY COLUMN ", ColumnItems(dialect, columns));
            var p := [shape.head] + Flat(shape.slots);
            && |p| > 2 && p[0] == "ALTER TABLE " && p[1] == table && p[2] == " MODIFY COLUMN "
            && ReadColumns(dialect, ReadList(p[3..], ", MODIFY COLUMN ", "")) == columns
  {
    AcceptedItems(dialect, columns);
    ModifyWords();
    AlterPieces(table, "MODIFY COLUMN ", " MODIFY COLUMN ", ", MODIFY COLUMN ", ColumnItems(dialect, columns));
    ColumnsAreRead(dialect, columns);
  }

  lemma {:induction false} DropPieces(table: string, names: seq<string>)
    requires Names(names).Success?
    ensures names != []
    ensures var shape := AlterShape(table, "DROP COLUMN ", NameItems(names));
            var p := [shape.head] + Flat(shape.slots);
            && |p| > 2 && p[0] == "ALTER TABLE " && p[1] == table && p[2] == " DROP COLUMN "
            && ReadNames(ReadList(p[3..], ", DROP COLUMN ", "")) == Some(names)
  {
    NamesAccepted(names);
    DropWords();
    AlterPieces(table, "DROP COLUMN ", " DROP COLUMN ", ", DROP COLUMN ", NameItems(names));
    NamesAreRead(names);
  }

  lemma {:induction false} AlterRequestIsRead(dialect: Dialect, request: Request)
    requires request.AddColumns? || request.DropColumns? || request.ModifyColumns?
    requires Build(dialect, request).Success?
    ensures Build(dialect, request).value != []
    ensures ReadRequest(dialect, Build(dialect, request).value) == Some(request)
  {
    FirstPieces(dialect, request);
    var p := Pieces(Build(dialect, request).value[0]);
    match request
    case AddColumns(table, columns) =>
      AddPieces(dialect, table, columns);
      AlterIsRead(dialect, Build(dialect, request).value);
      ReadAdd(dialect, p, columns);
    case ModifyColumns(table, columns) =>
      ModifyPieces(dialect, table, columns);
      AlterIsRead(dialect, Build(dialect, request).value);
      ReadModify(dialect, p, columns);
    case DropColumns(table, names) =>
      DropPieces(table, names);
      AlterIsRead(dialect, Build(dialect, request).value);
      ReadDrop(dialect, p, names);
  }

  lemma {:induction false} TwoSlotPieces(head: string, first: Slot, second: Slot, slots: seq<Slot>)
    ensures var p := [head] + Flat([first] + ([second] + slots));
            && |p| == 5 + |Flat(slots)| && p[0] == head && p[1] == first.name && p[2] == first.text
            && p[3] == second.name && p[4] == second.text && p[5..] == Flat(slots)
  {
    FlatCons(first, [second] + slots);
    FlatCons(second, slots);
  }

  lemma {:induction false} IndexPieces(head: string, table: string, index: string, names: seq<string>)
    requires Names(names).Success?
    ensures names != []
    ensures var slots := [Slot(index, " ON ")] + ([Slot(table, " (")] + ItemSlots(NameItems(names), ", ", ")"));
            var p := [head] + Flat(slots);
            && |p| > 5 && p[0] == head && p[1] == index && p[2] == " ON " && p[3] == table && p[4] == " ("
            && ReadNames(ReadList(p[5..], ", ", ")")) == Some(names)
  {
    NamesAccepted(names);
    var slots := ItemSlots(NameItems(names), ", ", ")");
    TwoSlotPieces(head, Slot(index, " ON "), Slot(table, " ("), slots);
    FlatLength(slots);
    ListIsRead(NameItems(names), ", ", ")");
    NamesAreRead(names);
  }

  lemma {:induction false} ReadIndex(statements: seq<string>, names: seq<string>, unique: bool)
    requires statements != []
    requires var p := Pieces(statements[0]);
             && |p| > 5 && p[0] == (if unique then "CREATE UNIQUE INDEX " else "CREATE INDEX ")
             && p[2] == " ON " && p[4] == " (" && ReadNames(ReadList(p[5..], ", ", ")")) == Some(names)
    ensures var p := Pieces(statements[0]);
            ReadRequest(MySQL, statements) == Some(CreateIndex(p[3], p[1], names, unique))
  {
    var p := Pieces(statements[0]);
    assert |p[0]| == (if unique then 20 else 13);
    assert p[0][0] == 'C' && p[0][7] == (if unique then 'U' else 'I');
  }

  lemma {:induction false} CreateIndexIsRead(table: string, index: string, names: seq<string>, unique: bool)
    requires Build(MySQL, CreateIndex(table, index, names, unique)).Success?
    ensures Build(MySQL, CreateIndex(table, index, names, unique)).value != []
    ensures ReadRequest(MySQL, Build(MySQL, CreateIndex(table, index, names, unique)).value) ==
            Some(CreateIndex(table, index, names, unique))
  {
    FirstPieces(MySQL, CreateIndex(table, index, names, unique));
    IndexPieces(if unique then "CREATE UNIQUE INDEX " else "CREATE INDEX ", table, index, names);
    ReadIndex(Build(MySQL, CreateIndex(table, index, names, unique)).value, names, unique);
  }

  lemma {:induction false} PairPieces(head: string, name: string, text: string, last: string)
    ensures var shape := PairShape(head, name, text, last);
            [shape.head] + Flat(shape.slots) == [head, name, text, last, ""]
  {
    FlatCons(Slot(name, text), [Slot(last, "")]);
    FlatCons(Slot(last, ""), []);
    assert [Slot(name, text)] + [Slot(last, "")] == [Slot(name, text), Slot(last, "")];
  }

  lemma {:induction false} CopyTableIsRead(source: string, destination: string, withData: bool)
    requires Build(MySQL, CopyTable(source, destination, withData)).Success?
    ensures ReadRequest(MySQL, Build(MySQL, CopyTable(source, destination, withData)).value) ==
            Some(CopyTable(source, destination, withData))
  {
    var request := CopyTable(source, destination, withData);
    FirstPieces(MySQL, request);
    PairPieces("CREATE TABLE ", destination, " LIKE ", source);
    if withData {
      var second := CopyDataShape(source, destination);
      BuildPrintsShapes(MySQL, request);
      assert Shapes(MySQL, request)[1] == second;
      PiecesOfSlots(second.head, second.slots);
      PairPieces("INSERT INTO ", destination, " SELECT * FROM ", source);
    }
  }

  lemma {:induction false} ShortRequestIsRead(dialect: Dialect, request: Request)
    requires request.DropTable? || request.DropIndex? || request.RenameTable?
    requires Build(dialect, request).Success?
    ensures ReadRequest(dialect, Build(dialect, request).value) == Some(request)
  {
    FirstPieces(dialect, request);
    match request
    case DropTable(table) => FlatCons(Slot(table, ""), []);
    case DropIndex(table, index) => PairPieces("DROP INDEX ", index, " ON ", table);
    case RenameTable(from, to) => PairPieces("RENAME TABLE ", from, " TO ", to);
  }

  /** Reading the built statements gives the request back, in either dialect: operation,
      names, columns and flags, each from its own place in the text. */
  lemma {:induction false} RequestIsRead(dialect: Dialect, request: Request)
    requires Build(dialect, request).Success?
    ensures Build(dialect, request).value != []
    ensures ReadRequest(dialect, Build(dialect, request).value) == Some(request)
  {
    FirstPieces(dialect, request);
    match request
    case CreateTable(table, columns) => CreateTableIsRead(dialect, table, columns);
    case AddColumns(_, _) => AlterRequestIsRead(dialect, request);
    case DropColumns(_, _) => AlterRequestIsRead(dialect, request);
    case ModifyColumns(_, _) => AlterRequestIsRead(dialect, request);
    case CreateIndex(table, index, names, unique) => CreateIndexIsRead(table, index, names, unique);
    case CopyTable(source, destination, withData) => CopyTableIsRead(source, destination, withData);
    case _ => ShortRequestIsRead(dialect, request);
  }

  /** Two accepted requests that build the same SQL are the same request. */
  lemma {:induction false} BuildInjective(dialect: Dialect, a: Request, b: Request)
    requires Build(dialect, a).Success? && Build(dialect, a) == Build(dialect, b)
    ensures a == b
  {
    RequestIsRead(dialect, a);
    RequestIsRead(dialect, b);
  }

  // ---------- which requests are accepted ----------

  predicate AreNames(names: seq<string>) {
    && names != [] && (forall i :: 0 <= i < |names| ==> IsIdentifier(names[i]))
    && (forall i, j :: 0 <= i < j < |names| ==> names[i] != names[j])
  }

  predicate AreColumns(dialect: Dialect, columns: seq<ColumnSpec>) {
    && AreNames(seq(|columns|, i requires 0 <= i < |columns| => columns[i].name))
    && forall i :: 0 <= i < |columns| ==> TypeSQL(dialect, columns[i]).Success?
  }

  lemma {:induction false} ColumnsTaken(dialect: Dialect, columns: seq<ColumnSpec>)
    ensures Columns(dialect, columns).Success? <==> AreColumns(dialect, columns)
  {
    ColumnsAccepted(dialect, columns);
    assert SpecNames(columns) == seq(|columns|, i requires 0 <= i < |columns| => columns[i].name);
    assert forall i :: 0 <= i < |columns| ==> SpecNames(columns)[i] == columns[i].name;
  }

  lemma {:induction false} ColumnsNeedNoCapability(dialect: Dialect, specs: seq<ColumnSpec>, seen: set<string>)
    ensures ColumnsFrom(dialect, specs, seen) != Failure(UnsupportedCapability)
  {
    if specs == [] {
    } else {
      ColumnsNeedNoCapability(dialect, specs[1..], seen + {specs[0].name});
    }
  }

  lemma {:induction false} NamesNeedNoCapability(names: seq<string>, seen: set<string>)
    ensures NamesFrom(names, seen) != Failure(UnsupportedCapability)
  {
    if names == [] {
    } else {
      NamesNeedNoCapability(names[1..], seen + {names[0]});
    }
  }

  lemma {:induction false} UnsupportedExactly(dialect: Dialect, request: Request)
    ensures Build(dialect, request) == Failure(UnsupportedCapability) <==>
            dialect == ClickHouse && (request.CreateIndex? || request.DropIndex? || request.CopyTable?)
  {
    match request
    case CreateTable(_, columns) => ColumnsNeedNoCapability(dialect, columns, {});
    case AddColumns(_, columns) => ColumnsNeedNoCapability(dialect, columns, {});
    case ModifyColumns(_, columns) => ColumnsNeedNoCapability(dialect, columns, {});
    case DropColumns(_, names) => NamesNeedNoCapability(names, {});
    case CreateIndex(_, _, names, _) => NamesNeedNoCapability(names, {});
    case _ =>
  }

  /** Both dialects take the same operations on valid names and types, but ClickHouse takes
      no index and no copy; that, and nothing else, is an unsupported capability. */
  lemma {:induction false} RequestAccepted(dialect: Dialect, request: Request)
    ensures Build(dialect, request).Success? <==>
            match request
            case CreateTable(table, columns) => IsIdentifier(table) && AreColumns(dialect, columns)
            case DropTable(table) => IsIdentifier(table)
            case AddColumns(table, columns) => IsIdentifier(table) && AreColumns(dialect, columns)
            case DropColumns(table, names) => IsIdentifier(table) && AreNames(names)
            case ModifyColumns(table, columns) => IsIdentifier(table) && AreColumns(dialect, columns)
            case CreateIndex(table, index, names, _) =>
              dialect == MySQL && IsIdentifier(table) && IsIdentifier(index) && AreNames(names)
            case DropIndex(table, index) => dialect == MySQL && IsIdentifier(table) && IsIdentifier(index)
            case RenameTable(from, to) => IsIdentifier(from) && IsIdentifier(to)
            case CopyTable(source, destination, _) =>
              dialect == MySQL && IsIdentifier(source) && IsIdentifier(destination)
    ensures Build(dialect, request) == Failure(UnsupportedCapability) <==>
            dialect == ClickHouse && (request.CreateIndex? || request.DropIndex? || request.CopyTable?)
  {
    UnsupportedExactly(dialect, request);
    match request
    case CreateTable(_, columns) => ColumnsTaken(dialect, columns);
    case AddColumns(_, columns) => ColumnsTaken(dialect, columns);
    case ModifyColumns(_, columns) => ColumnsTaken(dialect, columns);
    case DropColumns(_, names) => NamesAccepted(names);
    case CreateIndex(_, _, names, _) => NamesAccepted(names);
    case _ =>
  }
}
