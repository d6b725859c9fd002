/** What the printers of `Operation` print: literal text without special characters,
    alternating with identifiers in backticks. */
module OperationTheory {
  import opened Text
  import opened Identifier
  import opened Operation
  import opened SqlLexer

  /** A quoted identifier and the literal text up to the next one. */
  datatype Slot = Slot(name: string, text: string)

  function Render(slots: seq<Slot>): string {
    if slots == [] then "" else "`" + slots[0].name + ("`" + slots[0].text + Render(slots[1..]))
  }

  /** A character that opens no literal or comment, escapes nothing and does not cut. */
  predicate IsBenign(c: char) {
    !IsQuote(c) && c != '#' && c != ';' && c != '-' && c != '/' && c != '\\'
  }

  predicate Benign(s: string) {
    forall i :: 0 <= i < |s| ==> IsBenign(s[i])
  }

  predicate BenignSlots(slots: seq<Slot>) {
    && (forall i :: 0 <= i < |slots| ==> Benign(slots[i].name) && Benign(slots[i].text))
    && (forall i :: 0 <= i < |slots| - 1 ==> slots[i].text != "")
  }

  // ---------- column types ----------

  predicate IsTypeCharacter(c: char) {
    IsIdentifierPart(c) || c == '(' || c == ')' || c == ','
  }

  /** A printed type has no space and no special character. */
  predicate IsTypeText(t: string) {
    t != "" && t[0] != 'N' && forall c <- t :: IsTypeCharacter(c)
  }

  predicate HasSize(spec: ColumnSpec) {
    spec.kind == "decimal" || spec.kind == "varchar"
  }

  lemma {:induction false} NameTypeText(dialect: Dialect, spec: ColumnSpec)
    requires TypeSQL(dialect, spec).Success? && !HasSize(spec)
    ensures IsTypeText(TypeSQL(dialect, spec).value)
  {
  }

  lemma {:induction false} SizeTypeText(dialect: Dialect, spec: ColumnSpec)
    requires TypeSQL(dialect, spec).Success? && HasSize(spec)
    ensures IsTypeText(TypeSQL(dialect, spec).value)
  {
  }

  lemma {:induction false} TypeText(dialect: Dialect, spec: ColumnSpec)
    requires TypeSQL(dialect, spec).Success?
    ensures IsTypeText(TypeSQL(dialect, spec).value)
  {
    if HasSize(spec) {
      SizeTypeText(dialect, spec);
    } else {
      NameTypeText(dialect, spec);
    }
  }

  lemma {:induction false} SuffixesBenign()
    ensures Benign("NULL") && Benign("NOT NULL") && Benign("Nullable(") && Benign(")")
  {
  }

  lemma {:induction false} TypeTextBenign(t: string)
    requires t != "" && forall c <- t :: IsTypeCharacter(c)
    ensures Benign(t) && !IsSpace(t[|t| - 1])
  {
    assert forall i :: 0 <= i < |t| ==> t[i] in t;
    assert IsTypeCharacter(t[|t| - 1]);
  }

  lemma {:induction false} NullabilityBenign(dialect: Dialect, t: string, nullable: bool)
    requires t != "" && forall c <- t :: IsTypeCharacter(c)
    ensures var text := WithNullability(dialect, t, nullable);
            text != "" && Benign(text) && !IsSpace(text[|text| - 1])
  {
    TypeTextBenign(t);
    SuffixesBenign();
  }

  lemma {:induction false} ColumnTypeBenign(dialect: Dialect, spec: ColumnSpec)
    requires ColumnType(dialect, spec).Success?
    ensures var text := ColumnType(dialect, spec).value;
            text != "" && Benign(text) && !IsSpace(text[|text| - 1])
  {
    TypeText(dialect, spec);
    NullabilityBenign(dialect, TypeSQL(dialect, spec).value, spec.nullable);
  }

  // ---------- the shape of a statement ----------

  /** A list item: a column name and the text printed after it. */
  datatype Item = Item(name: string, text: string)

  function PrintedItem(item: Item): string {
    "`" + item.name + "`" + item.text
  }

  function ItemTexts(items: seq<Item>): seq<string> {
    seq(|items|, i requires 0 <= i < |items| => PrintedItem(items[i]))
  }

  function ItemSlots(items: seq<Item>, separator: string, final: string): (slots: seq<Slot>)
    requires items != []
    ensures |slots| == |items|
  {
    if |items| == 1 then [Slot(items[0].name, items[0].text + final)]
    else [Slot(items[0].name, items[0].text + separator)] + ItemSlots(items[1..], separator, final)
  }

  lemma {:induction false} ListRenders(prefix: string, items: seq<Item>, final: string)
    requires items != []
    ensures List(Prefixed(prefix, ItemTexts(items))) + final == prefix + Render(ItemSlots(items, ", " + prefix, final))
  {
    var texts := Prefixed(prefix, ItemTexts(items));
    var slots := ItemSlots(items, ", " + prefix, final);
    if |items| == 1 {
      assert Render(slots[1..]) == "";
      assert List(texts) == texts[0] == prefix + ("`" + items[0].name + "`" + items[0].text);
    } else {
      ListRenders(prefix, items[1..], final);
      assert texts[1..] == Prefixed(prefix, ItemTexts(items[1..]));
      assert slots[1..] == ItemSlots(items[1..], ", " + prefix, final);
      var tail := List(texts[1..]) + final;
      assert List(texts) + final == texts[0] + ", " + tail;
      assert texts[0] == prefix + ("`" + items[0].name + "`" + items[0].text);
    }
  }

  predicate BenignItems(items: seq<Item>) {
    forall i :: 0 <= i < |items| ==> Benign(items[i].name) && Benign(items[i].text)
  }

  lemma {:induction false} ItemSlotsBenign(items: seq<Item>, separator: string, final: string)
    requires items != [] && BenignItems(items) && Benign(separator) && separator != "" && Benign(final)
    ensures BenignSlots(ItemSlots(items, separator, final))
    ensures var slots := ItemSlots(items, separator, final);
            slots[|slots| - 1].text == items[|items| - 1].text + final
  {
    var slots := ItemSlots(items, separator, final);
    if |items| > 1 {
      ItemSlotsBenign(items[1..], separator, final);
      assert slots == [slots[0]] + ItemSlots(items[1..], separator, final);
    }
  }

  // ---------- accepted column lists ----------

  function ColumnItem(dialect: Dialect, spec: ColumnSpec): Item {
    Item(spec.name, match ColumnType(dialect, spec) case Success(t) => t case Failure(_) => "")
  }

  function ColumnItems(dialect: Dialect, specs: seq<ColumnSpec>): seq<Item> {
    seq(|specs|, i requires 0 <= i < |specs| => ColumnItem(dialect, specs[i]))
  }

  function NameItems(names: seq<string>): seq<Item> {
    seq(|names|, i requires 0 <= i < |names| => Item(names[i], ""))
  }

  lemma {:induction false} IdentifierBenign(name: string)
    requires IsIdentifier(name)
    ensures Benign(name)
  {
    assert forall i :: 0 <= i < |name| ==> name[i] in name;
  }

  predicate AcceptableColumn(dialect: Dialect, spec: ColumnSpec) {
    IsIdentifier(spec.name) && ColumnType(dialect, spec).Success?
  }

  lemma {:induction false} ColumnPrints(dialect: Dialect, spec: ColumnSpec)
    ensures Column(dialect, spec).Success? <==> AcceptableColumn(dialect, spec)
    ensures Column(dialect, spec).Success? ==> Column(dialect, spec).value == PrintedItem(ColumnItem(dialect, spec))
  {
  }

  lemma {:induction false} ColumnsFromItems(dialect: Dialect, specs: seq<ColumnSpec>, seen: set<string>)
    requires ColumnsFrom(dialect, specs, seen).Success?
    ensures ColumnsFrom(dialect, specs, seen).value == ItemTexts(ColumnItems(dialect, specs))
  {
    if specs != [] {
      ColumnsFromItems(dialect, specs[1..], seen + {specs[0].name});
      ColumnPrints(dialect, specs[0]);
      assert ItemTexts(ColumnItems(dialect, specs)) ==
             [PrintedItem(ColumnItem(dialect, specs[0]))] + ItemTexts(ColumnItems(dialect, specs[1..]));
    } else {
      assert ItemTexts(ColumnItems(dialect, specs)) == [];
    }
  }

  lemma {:induction false} NamesFromItems(names: seq<string>, seen: set<string>)
    requires NamesFrom(names, seen).Success?
    ensures NamesFrom(names, seen).value == ItemTexts(NameItems(names))
  {
    if names != [] {
      NamesFromItems(names[1..], seen + {names[0]});
      assert "`" + names[0] + "`" + "" == "`" + names[0] + "`";
      assert ItemTexts(NameItems(names)) == [PrintedItem(Item(names[0], ""))] + ItemTexts(NameItems(names[1..]));
    } else {
      assert ItemTexts(NameItems(names)) == [];
    }
  }

  predicate Distinct(names: seq<string>, seen: set<string>) {
    && (forall i :: 0 <= i < |names| ==> names[i] !in seen)
    && (forall i, j :: 0 <= i < j < |names| ==> names[i] != names[j])
  }

  lemma {:induction false} DistinctCons(names: seq<string>, seen: set<string>)
    requires names != []
    ensures Distinct(names, seen) <==> names[0] !in seen && Distinct(names[1..], seen + {names[0]})
  {
    if names[0] !in seen && Distinct(names[1..], seen + {names[0]}) {
      forall i, j | 0 <= i < j < |names|
        ensures names[i] != names[j]
      {
        assert names[j] == names[1..][j - 1] && (i > 0 ==> names[i] == names[1..][i - 1]);
      }
      assert forall i :: 0 < i < |names| ==> names[i] == names[1..][i - 1];
    }
  }

  function SpecNames(specs: seq<ColumnSpec>): seq<string> {
    seq(|specs|, i requires 0 <= i < |specs| => specs[i].name)
  }

  lemma {:induction false} ColumnsFromAccepts(dialect: Dialect, specs: seq<ColumnSpec>, seen: set<string>)
    ensures ColumnsFrom(dialect, specs, seen).Success? <==>
            Distinct(SpecNames(specs), seen) && forall i :: 0 <= i < |specs| ==> AcceptableColumn(dialect, specs[i])
  {
    if specs == [] {
    } else {
      ColumnsFromAccepts(dialect, specs[1..], seen + {specs[0].name});
      DistinctCons(SpecNames(specs), seen);
      ColumnPrints(dialect, specs[0]);
      assert SpecNames(specs)[1..] == SpecNames(specs[1..]);
      assert forall i :: 0 < i < |specs| ==> specs[i] == specs[1..][i - 1];
    }
  }

  lemma {:induction false} NamesFromAccepts(names: seq<string>, seen: set<string>)
    ensures NamesFrom(names, seen).Success? <==>
            Distinct(names, seen) && forall i :: 0 <= i < |names| ==> IsIdentifier(names[i])
  {
    if names == [] {
    } else {
      NamesFromAccepts(names[1..], seen + {names[0]});
      DistinctCons(names, seen);
      assert forall i :: 0 < i < |names| ==> names[i] == names[1..][i - 1];
    }
  }

  lemma {:induction false} ColumnItemBenign(dialect: Dialect, spec: ColumnSpec)
    requires AcceptableColumn(dialect, spec)
    ensures var item := ColumnItem(dialect, spec);
            Benign(item.name) && Benign(item.text) && item.text != "" && !IsSpace(item.text[|item.text| - 1])
  {
    IdentifierBenign(spec.name);
    ColumnTypeBenign(dialect, spec);
  }

  lemma {:induction false} ColumnItemsBenign(dialect: Dialect, specs: seq<ColumnSpec>)
    requires specs != [] && forall i :: 0 <= i < |specs| ==> AcceptableColumn(dialect, specs[i])
    ensures BenignItems(ColumnItems(dialect, specs))
    ensures var text := ColumnItems(dialect, specs)[|specs| - 1].text; text != "" && !IsSpace(text[|text| - 1])
  {
    var items := ColumnItems(dialect, specs);
    forall i | 0 <= i < |items|
      ensures Benign(items[i].name) && Benign(items[i].text)
      ensures items[i].text != "" && !IsSpace(items[i].text[|items[i].text| - 1])
    {
      ColumnItemBenign(dialect, specs[i]);
    }
  }

  /** A column list is accepted exactly when it is a non-empty list of distinct, valid
      names with valid types; its items then print without special characters. */
  lemma {:induction false} ColumnsAccepted(dialect: Dialect, specs: seq<ColumnSpec>)
    ensures Columns(dialect, specs).Success? <==>
            && specs != [] && Distinct(SpecNames(specs), {})
            && forall i :: 0 <= i < |specs| ==> AcceptableColumn(dialect, specs[i])
    ensures Columns(dialect, specs).Success? ==>
              && Columns(dialect, specs).value == ItemTexts(ColumnItems(dialect, specs))
              && BenignItems(ColumnItems(dialect, specs))
              && var text := ColumnItems(dialect, specs)[|specs| - 1].text; text != "" && !IsSpace(text[|text| - 1])
  {
    ColumnsFromAccepts(dialect, specs, {});
    if Columns(dialect, specs).Success? {
      ColumnsFromItems(dialect, specs, {});
      ColumnItemsBenign(dialect, specs);
    }
  }

  /** The items of an accepted column list. */
  lemma {:induction false} AcceptedItems(dialect: Dialect, specs: seq<ColumnSpec>)
    requires Columns(dialect, specs).Success?
    ensures specs != [] && BenignItems(ColumnItems(dialect, specs))
    ensures Columns(dialect, specs).value == ItemTexts(ColumnItems(dialect, specs))
    ensures var text := ColumnItems(dialect, specs)[|specs| - 1].text; text != "" && !IsSpace(text[|text| - 1])
  {
    ColumnsAccepted(dialect, specs);
  }

  lemma {:induction false} NamesAccepted(names: seq<string>)
    ensures Names(names).Success? <==>
            names != [] && Distinct(names, {}) && forall i :: 0 <= i < |names| ==> IsIdentifier(names[i])
    ensures Names(names).Success? ==>
              Names(names).value == ItemTexts(NameItems(names)) && BenignItems(NameItems(names))
  {
    NamesFromAccepts(names, {});
    if Names(names).Success? {
      NamesFromItems(names, {});
      forall i | 0 <= i < |names|
        ensures Benign(names[i])
      {
        IdentifierBenign(names[i]);
      }
    }
  }

  // ---------- statements and their shapes ----------

  predicate EndsTight(slots: seq<Slot>) {
    slots != [] && var last := slots[|slots| - 1].text; last == "" || !IsSpace(last[|last| - 1])
  }

  datatype Shape = Shape(head: string, slots: seq<Slot>) {
    function Text(): string {
      head + Render(slots)
    }

    /** The text opens no literal but its identifiers, and has no white space at its ends. */
    predicate Clean() {
      && Benign(head) && head != "" && !IsSpace(head[0])
      && BenignSlots(slots) && EndsTight(slots)
    }
  }

  function AlterShape(table: string, prefix: string, items: seq<Item>): Shape
    requires items != []
  {
    Shape("ALTER TABLE ", [Slot(table, " " + prefix)] + ItemSlots(items, ", " + prefix, ""))
  }

  function CreateTableShape(dialect: Dialect, table: string, columns: seq<ColumnSpec>): Shape
    requires columns != []
  {
    Shape("CREATE TABLE ", [Slot(table, " (")] + ItemSlots(ColumnItems(dialect, columns), ", ", TableClose(dialect)))
  }

  function CreateIndexShape(table: string, index: string, names: seq<string>, unique: bool): Shape
    requires names != []
  {
    Shape(if unique then "CREATE UNIQUE INDEX " else "CREATE INDEX ",
          [Slot(index, " ON ")] + ([Slot(table, " (")] + ItemSlots(NameItems(names), ", ", ")")))
  }

  function PairShape(head: string, name: string, text: string, last: string): Shape {
    Shape(head, [Slot(name, text), Slot(last, "")])
  }

  /** The first statement of an accepted request. */
  function ShapeOf(dialect: Dialect, request: Request): Shape
    requires Build(dialect, request).Success?
  {
    match request
    case CreateTable(table, columns) => CreateTableShape(dialect, table, columns)
    case DropTable(table) => Shape("DROP TABLE ", [Slot(table, "")])
    case AddColumns(table, columns) => AlterShape(table, "ADD COLUMN ", ColumnItems(dialect, columns))
    case DropColumns(table, names) => AlterShape(table, "DROP COLUMN ", NameItems(names))
    case ModifyColumns(table, columns) => AlterShape(table, "MODIFY COLUMN ", ColumnItems(dialect, columns))
    case CreateIndex(table, index, names, unique) => CreateIndexShape(table, index, names, unique)
    case DropIndex(table, index) => PairShape("DROP INDEX ", index, " ON ", table)
    case RenameTable(from, to) => PairShape("RENAME TABLE ", from, " TO ", to)
    case CopyTable(source, destination, _) => PairShape("CREATE TABLE ", destination, " LIKE ", source)
  }

  /** The second statement of a table copy with data. */
  function CopyDataShape(source: string, destination: string): Shape {
    PairShape("INSERT INTO ", destination, " SELECT * FROM ", source)
  }

  function Shapes(dialect: Dialect, request: Request): seq<Shape>
    requires Build(dialect, request).Success?
  {
    [ShapeOf(dialect, request)] +
    (if request.CopyTable? && request.withData then [CopyDataShape(request.source, request.destination)] else [])
  }

  /** The statements are the texts of clean shapes. */
  predicate Prints(statements: seq<string>, shapes: seq<Shape>) {
    && |statements| == |shapes|
    && forall i :: 0 <= i < |shapes| ==> shapes[i].Clean() && statements[i] == shapes[i].Text()
  }

  lemma {:induction false} RenderCons(name: string, text: string, slots: seq<Slot>)
    ensures Render([Slot(name, text)] + slots) == ("`" + name + "`") + (text + Render(slots))
  {
    assert ([Slot(name, text)] + slots)[1..] == slots;
  }

  lemma {:induction false} RenderOne(name: string)
    ensures Render([Slot(name, "")]) == "`" + name + "`"
  {
    RenderCons(name, "", []);
    assert [Slot(name, "")] + [] == [Slot(name, "")];
  }

  lemma {:induction false} Regroup(a: string, b: string, c: string, d: string)
    ensures a + (b + (c + d)) == a + b + c + d
  {
  }

  lemma {:induction false} BenignSlotsCons(slot: Slot, slots: seq<Slot>)
    requires Benign(slot.name) && Benign(slot.text) && (slots != [] ==> slot.text != "") && BenignSlots(slots)
    ensures BenignSlots([slot] + slots)
  {
  }

  lemma {:induction false} CleanCons(head: string, slot: Slot, slots: seq<Slot>)
    requires Benign(head) && head != "" && !IsSpace(head[0])
    requires Benign(slot.name) && Benign(slot.text) && slot.text != ""
    requires BenignSlots(slots) && EndsTight(slots)
    ensures Shape(head, [slot] + slots).Clean()
  {
    BenignSlotsCons(slot, slots);
  }

  // ----- ALTER TABLE -----

  lemma {:induction false} BenignConcat(a: string, b: string)
    requires Benign(a) && Benign(b)
    ensures Benign(a + b)
  {
  }

  lemma {:induction false} AlterClean(table: string, prefix: string, items: seq<Item>)
    requires items != [] && BenignItems(items) && IsIdentifier(table) && Benign(prefix)
    requires var last := items[|items| - 1].text; last == "" || !IsSpace(last[|last| - 1])
    ensures AlterShape(table, prefix, items).Clean()
  {
    var separator, before := ", " + prefix, " " + prefix;
    BenignConcat(", ", prefix);
    BenignConcat(" ", prefix);
    var slots := ItemSlots(items, separator, "");
    ItemSlotsBenign(items, separator, "");
    IdentifierBenign(table);
    assert items[|items| - 1].text + "" == items[|items| - 1].text;
    CleanCons("ALTER TABLE ", Slot(table, before), slots);
  }

  lemma {:induction false} AlterText(table: string, prefix: string, items: seq<Item>)
    requires items != []
    ensures AlterShape(table, prefix, items).Text() ==
            "ALTER TABLE " + ("`" + table + "`") + " " + List(Prefixed(prefix, ItemTexts(items)))
  {
    var slots := ItemSlots(items, ", " + prefix, "");
    var list := List(Prefixed(prefix, ItemTexts(items)));
    ListRenders(prefix, items, "");
    RenderCons(table, " " + prefix, slots);
    assert list == prefix + Render(slots) by { assert list + "" == list; }
    Regroup("ALTER TABLE ", "`" + table + "`", " ", list);
    ConcatAssoc(" ", prefix, Render(slots));
  }

  lemma {:induction false} AlterPrints(table: string, prefix: string, items: seq<Item>, columns: Built<seq<string>>)
    requires items != [] && BenignItems(items) && Benign(prefix)
    requires var last := items[|items| - 1].text; last == "" || !IsSpace(last[|last| - 1])
    requires columns.Success? && columns.value == ItemTexts(items) && AlterTable(table, prefix, columns).Success?
    ensures Prints(AlterTable(table, prefix, columns).value, [AlterShape(table, prefix, items)])
  {
    AlterClean(table, prefix, items);
    AlterText(table, prefix, items);
  }

  lemma {:induction false} AlterColumnsPrints(dialect: Dialect, table: string, prefix: string, specs: seq<ColumnSpec>)
    requires Benign(prefix) && AlterTable(table, prefix, Columns(dialect, specs)).Success?
    ensures specs != []
    ensures Prints(AlterTable(table, prefix, Columns(dialect, specs)).value,
                   [AlterShape(table, prefix, ColumnItems(dialect, specs))])
  {
    AcceptedItems(dialect, specs);
    AlterPrints(table, prefix, ColumnItems(dialect, specs), Columns(dialect, specs));
  }

  lemma {:induction false} AlterNamesPrints(table: string, prefix: string, names: seq<string>)
    requires Benign(prefix) && AlterTable(table, prefix, Names(names)).Success?
    ensures names != []
    ensures Prints(AlterTable(table, prefix, Names(names)).value, [AlterShape(table, prefix, NameItems(names))])
  {
    NamesAccepted(names);
    AlterPrints(table, prefix, NameItems(names), Names(names));
  }

  // ----- CREATE TABLE and CREATE INDEX -----

  lemma {:induction false} PrefixedNothing(texts: seq<string>)
    ensures Prefixed("", texts) == texts
  {
    assert forall i :: 0 <= i < |texts| ==> "" + texts[i] == texts[i];
  }

  /** A parenthesised list after a first identifier. */
  lemma {:induction false} ListPrints(name: string, items: seq<Item>, final: string)
    requires IsIdentifier(name) && items != [] && BenignItems(items)
    requires Benign(final) && final != "" && !IsSpace(final[|final| - 1])
    ensures var slots := [Slot(name, " (")] + ItemSlots(items, ", ", final);
            && BenignSlots(slots) && EndsTight(slots)
            && Render(slots) == ("`" + name + "`") + (" (" + (List(ItemTexts(items)) + final))
  {
    var slots := ItemSlots(items, ", ", final);
    IdentifierBenign(name);
    ItemSlotsBenign(items, ", ", final);
    BenignSlotsCons(Slot(name, " ("), slots);
    RenderCons(name, " (", slots);
    ListRenders("", items, final);
    PrefixedNothing(ItemTexts(items));
    assert ", " + "" == ", " && "" + Render(slots) == Render(slots);
  }

  lemma {:induction false} TableCloseTight(dialect: Dialect)
    ensures var close := TableClose(dialect); close != "" && Benign(close) && close[|close| - 1] == ')'
  {
  }

  lemma {:induction false} CreateHeadsBenign()
    ensures Benign("CREATE TABLE ") && Benign("CREATE INDEX ") && Benign("CREATE UNIQUE INDEX ")
  {
  }

  /** The list shapes: a parenthesised list after `before` (possibly nothing) and a table. */
  lemma {:induction false} ListShapeClean(head: string, table: string, items: seq<Item>, final: string)
    requires Benign(head) && head != "" && !IsSpace(head[0])
    requires IsIdentifier(table) && items != [] && BenignItems(items)
    requires Benign(final) && final != "" && !IsSpace(final[|final| - 1])
    ensures Shape(head, [Slot(table, " (")] + ItemSlots(items, ", ", final)).Clean()
  {
    ListPrints(table, items, final);
  }

  lemma {:induction false} IndexShapeClean(head: string, index: string, table: string, items: seq<Item>)
    requires Benign(head) && head != "" && !IsSpace(head[0])
    requires IsIdentifier(index) && IsIdentifier(table) && items != [] && BenignItems(items)
    ensures Shape(head, [Slot(index, " ON ")] + ([Slot(table, " (")] + ItemSlots(items, ", ", ")"))).Clean()
  {
    ListPrints(table, items, ")");
    IdentifierBenign(index);
    CleanCons(head, Slot(index, " ON "), [Slot(table, " (")] + ItemSlots(items, ", ", ")"));
  }

  lemma {:induction false} CreateTableText(name: string, list: string, close: string)
    ensures "CREATE TABLE " + (name + (" (" + (list + close))) == "CREATE TABLE " + name + " (" + list + close
  {
  }

  lemma {:induction false} CreateTablePrints(dialect: Dialect, table: string, columns: seq<ColumnSpec>)
    requires CreateTableSQL(dialect, table, columns).Success?
    ensures columns != []
    ensures Prints(CreateTableSQL(dialect, table, columns).value, [CreateTableShape(dialect, table, columns)])
  {
    ColumnsAccepted(dialect, columns);
    var items, close := ColumnItems(dialect, columns), TableClose(dialect);
    TableCloseTight(dialect);
    CreateHeadsBenign();
    ListShapeClean("CREATE TABLE ", table, items, close);
    ListPrints(table, items, close);
    CreateTableText("`" + table + "`", List(ItemTexts(items)), close);
  }

  lemma {:induction false} CreateIndexText(head: string, index: string, table: string, list: string)
    ensures (head + " ") + (index + (" ON " + (table + (" (" + (list + ")"))))) ==
            head + " " + index + " ON " + table + " (" + list + ")"
  {
  }

  lemma {:induction false} IndexShapeText(head: string, index: string, table: string, items: seq<Item>)
    requires IsIdentifier(table) && items != [] && BenignItems(items)
    ensures head + " " + Render([Slot(index, " ON ")] + ([Slot(table, " (")] + ItemSlots(items, ", ", ")"))) ==
            head + " " + ("`" + index + "`") + " ON " + ("`" + table + "`") + " (" + List(ItemTexts(items)) + ")"
  {
    ListPrints(table, items, ")");
    RenderCons(index, " ON ", [Slot(table, " (")] + ItemSlots(items, ", ", ")"));
    CreateIndexText(head, "`" + index + "`", "`" + table + "`", List(ItemTexts(items)));
  }

  lemma {:induction false} CreateIndexPrints(table: string, index: string, names: seq<string>, unique: bool)
    requires CreateIndexSQL(table, index, names, unique).Success?
    ensures names != []
    ensures Prints(CreateIndexSQL(table, index, names, unique).value, [CreateIndexShape(table, index, names, unique)])
  {
    NamesAccepted(names);
    CreateHeadsBenign();
    var head := if unique then "CREATE UNIQUE INDEX" else "CREATE INDEX";
    assert head + " " == CreateIndexShape(table, index, names, unique).head;
    IndexShapeClean(head + " ", index, table, NameItems(names));
    IndexShapeText(head, index, table, NameItems(names));
  }

  // ----- statements with one or two identifiers -----

  lemma {:induction false} DropTablePrints(table: string)
    requires DropTableSQL(table).Success?
    ensures Prints(DropTableSQL(table).value, [Shape("DROP TABLE ", [Slot(table, "")])])
  {
    IdentifierBenign(table);
    RenderOne(table);
  }

  lemma {:induction false} PairPrints(head: string, name: string, text: string, last: string)
    requires Benign(head) && head != "" && !IsSpace(head[0]) && Benign(text) && text != ""
    requires IsIdentifier(name) && IsIdentifier(last)
    ensures PairShape(head, name, text, last).Clean()
    ensures PairShape(head, name, text, last).Text() == head + ("`" + name + "`") + text + ("`" + last + "`")
  {
    IdentifierBenign(name);
    IdentifierBenign(last);
    RenderOne(last);
    RenderCons(name, text, [Slot(last, "")]);
    assert [Slot(name, text)] + [Slot(last, "")] == [Slot(name, text), Slot(last, "")];
    Regroup(head, "`" + name + "`", text, "`" + last + "`");
  }

  lemma {:induction false} PairTextsBenign()
    ensures Benign("INSERT INTO ") && Benign(" SELECT * FROM ") && Benign(" LIKE ") && Benign("CREATE TABLE ")
  {
  }

  lemma {:induction false} DropIndexPrints(table: string, index: string)
    requires DropIndexSQL(table, index).Success?
    ensures Prints(DropIndexSQL(table, index).value, [PairShape("DROP INDEX ", index, " ON ", table)])
  {
    PairPrints("DROP INDEX ", index, " ON ", table);
  }

  lemma {:induction false} RenameTablePrints(from: string, to: string)
    requires RenameTableSQL(from, to).Success?
    ensures Prints(RenameTableSQL(from, to).value, [PairShape("RENAME TABLE ", from, " TO ", to)])
  {
    PairPrints("RENAME TABLE ", from, " TO ", to);
  }

  lemma {:induction false} CopyTablePrints(source: string, destination: string, withData: bool)
    requires CopyTableSQL(source, destination, withData).Success?
    ensures Prints(CopyTableSQL(source, destination, withData).value,
                   [PairShape("CREATE TABLE ", destination, " LIKE ", source)] +
                   (if withData then [CopyDataShape(source, destination)] else []))
  {
    PairTextsBenign();
    PairPrints("CREATE TABLE ", destination, " LIKE ", source);
    PairPrints("INSERT INTO ", destination, " SELECT * FROM ", source);
  }

  lemma {:induction false} AlterBuildPrints(dialect: Dialect, request: Request)
    requires request.AddColumns? || request.DropColumns? || request.ModifyColumns?
    requires Build(dialect, request).Success?
    ensures Prints(Build(dialect, request).value, [ShapeOf(dialect, request)])
  {
    match request
    case AddColumns(table, columns) => AlterColumnsPrints(dialect, table, "ADD COLUMN ", columns);
    case DropColumns(table, names) => AlterNamesPrints(table, "DROP COLUMN ", names);
    case ModifyColumns(table, columns) => AlterColumnsPrints(dialect, table, "MODIFY COLUMN ", columns);
  }

  /** Every accepted request prints the texts of its shapes, and they are clean. */
  lemma {:induction false} BuildPrintsShapes(dialect: Dialect, request: Request)
    requires Build(dialect, request).Success?
    ensures Prints(Build(dialect, request).value, Shapes(dialect, request))
  {
    if request.CopyTable? {
      CopyTablePrints(request.source, request.destination, request.withData);
    } else {
      assert Shapes(dialect, request) == [ShapeOf(dialect, request)];
      match request
      case CreateTable(table, columns) => CreateTablePrints(dialect, table, columns);
      case DropTable(table) => DropTablePrints(table);
      case CreateIndex(table, index, names, unique) => CreateIndexPrints(table, index, names, unique);
      case DropIndex(table, index) => DropIndexPrints(table, index);
      case RenameTable(from, to) => RenameTablePrints(from, to);
      case _ => AlterBuildPrints(dialect, request);
    }
  }
}
