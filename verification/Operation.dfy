/** internal/operation: typed schema requests printed as MySQL or ClickHouse SQL. */
module Operation {
  import opened Text
  import opened Identifier

  datatype Dialect = MySQL | ClickHouse

  datatype OperationError =
    | BadIdentifier
    | NoColumns
    | DuplicateColumn
    | BadDimensions
    | UnsupportedKind
    | UnsupportedCapability

  type Built<+T> = Result<T, OperationError>

  datatype ColumnSpec = ColumnSpec(name: string, kind: string, length: int, precision: int, scale: int, nullable: bool)

  datatype Request =
    | CreateTable(table: string, columns: seq<ColumnSpec>)
    | DropTable(table: string)
    | AddColumns(table: string, columns: seq<ColumnSpec>)
    | DropColumns(table: string, names: seq<string>)
    | ModifyColumns(table: string, columns: seq<ColumnSpec>)
    | CreateIndex(table: string, index: string, names: seq<string>, unique: bool)
    | DropIndex(table: string, index: string)
    | RenameTable(from: string, to: string)
    | CopyTable(source: string, destination: string, withData: bool)

  const MAX_MYSQL_VARCHAR_LENGTH := 65535
  const MAX_MYSQL_DECIMAL := 65
  const MAX_CLICKHOUSE_DECIMAL := 76

  // ---------- columns ----------

  function Quote(identifier: string): Built<string> {
    match QuoteIdentifier(identifier)
    case Success(quoted) => Success(quoted)
    case Failure(_) => Failure(BadIdentifier)
  }

  predicate NoDimensions(spec: ColumnSpec) {
    spec.length == 0 && spec.precision == 0 && spec.scale == 0
  }

  function FixedType(spec: ColumnSpec, typeSQL: string): Built<string> {
    if NoDimensions(spec) then Success(typeSQL) else Failure(BadDimensions)
  }

  function DecimalType(spec: ColumnSpec, maximum: int, name: string): Built<string> {
    if spec.length != 0 || spec.precision < 1 || spec.precision > maximum ||
       spec.scale < 0 || spec.scale > spec.precision then
      Failure(BadDimensions)
    else
      Success(name + "(" + Decimal(spec.precision) + "," + Decimal(spec.scale) + ")")
  }

  function MySQLType(spec: ColumnSpec): Built<string> {
    if spec.kind == "int" then FixedType(spec, "INT")
    else if spec.kind == "bigint" then FixedType(spec, "BIGINT")
    else if spec.kind == "varchar" then
      if spec.length < 1 || spec.length > MAX_MYSQL_VARCHAR_LENGTH || spec.precision != 0 || spec.scale != 0 then
        Failure(BadDimensions)
      else
        Success("VARCHAR(" + Decimal(spec.length) + ")")
    else if spec.kind == "text" then FixedType(spec, "TEXT")
    else if spec.kind == "decimal" then DecimalType(spec, MAX_MYSQL_DECIMAL, "DECIMAL")
    else if spec.kind == "boolean" then FixedType(spec, "BOOLEAN")
    else if spec.kind == "date" then FixedType(spec, "DATE")
    else if spec.kind == "datetime" then FixedType(spec, "DATETIME")
    else if spec.kind == "timestamp" then FixedType(spec, "TIMESTAMP")
    else Failure(UnsupportedKind)
  }

  function ClickHouseType(spec: ColumnSpec): Built<string> {
    if spec.kind == "int64" then FixedType(spec, "Int64")
    else if spec.kind == "uint64" then FixedType(spec, "UInt64")
    else if spec.kind == "string" then FixedType(spec, "String")
    else if spec.kind == "decimal" then DecimalType(spec, MAX_CLICKHOUSE_DECIMAL, "Decimal")
    else if spec.kind == "bool" then FixedType(spec, "Bool")
    else if spec.kind == "date" then FixedType(spec, "Date")
    else if spec.kind == "datetime" then FixedType(spec, "DateTime")
    else Failure(UnsupportedKind)
  }

  function TypeSQL(dialect: Dialect, spec: ColumnSpec): Built<string> {
    match dialect
    case MySQL => MySQLType(spec)
    case ClickHouse => ClickHouseType(spec)
  }

  function WithNullability(dialect: Dialect, typeSQL: string, nullable: bool): string {
    match dialect
    case MySQL => " " + typeSQL + " " + (if nullable then "NULL" else "NOT NULL")
    case ClickHouse => " " + (if nullable then "Nullable(" + typeSQL + ")" else typeSQL)
  }

  /** What follows the quoted name of a column, with its leading space. */
  function ColumnType(dialect: Dialect, spec: ColumnSpec): Built<string> {
    var typeSQL :- TypeSQL(dialect, spec);
    Success(WithNullability(dialect, typeSQL, spec.nullable))
  }

  function Column(dialect: Dialect, spec: ColumnSpec): Built<string> {
    var name :- Quote(spec.name);
    var columnType :- ColumnType(dialect, spec);
    Success(name + columnType)
  }

  /** The first problem in the list, or the printed columns. `seen` holds earlier names. */
  function ColumnsFrom(dialect: Dialect, specs: seq<ColumnSpec>, seen: set<string>): Built<seq<string>> {
    if specs == [] then Success([])
    else if specs[0].name in seen then Failure(DuplicateColumn)
    else
      var column :- Column(dialect, specs[0]);
      var columns :- ColumnsFrom(dialect, specs[1..], seen + {specs[0].name});
      Success([column] + columns)
  }

  function NamesFrom(names: seq<string>, seen: set<string>): Built<seq<string>> {
    if names == [] then Success([])
    else if names[0] in seen then Failure(DuplicateColumn)
    else
      var name :- Quote(names[0]);
      var quoted :- NamesFrom(names[1..], seen + {names[0]});
      Success([name] + quoted)
  }

  function Columns(dialect: Dialect, specs: seq<ColumnSpec>): Built<seq<string>> {
    if specs == [] then Failure(NoColumns) else ColumnsFrom(dialect, specs, {})
  }

  function Names(names: seq<string>): Built<seq<string>> {
    if names == [] then Failure(NoColumns) else NamesFrom(names, {})
  }

  function Prefixed(prefix: string, columns: seq<string>): seq<string> {
    seq(|columns|, i requires 0 <= i < |columns| => prefix + columns[i])
  }

  // ---------- statements ----------

  function List(columns: seq<string>): string {
    Join(columns, ", ")
  }

  function AlterTable(table: string, prefix: string, columns: Built<seq<string>>): Built<seq<string>> {
    var name :- Quote(table);
    var items :- columns;
    Success(["ALTER TABLE " + name + " " + List(Prefixed(prefix, items))])
  }

  function TableClose(dialect: Dialect): string {
    if dialect.ClickHouse? then ") ENGINE = MergeTree ORDER BY tuple()" else ")"
  }

  function CreateTableSQL(dialect: Dialect, table: string, columns: seq<ColumnSpec>): Built<seq<string>> {
    var name :- Quote(table);
    var items :- Columns(dialect, columns);
    Success(["CREATE TABLE " + name + " (" + List(items) + TableClose(dialect)])
  }

  function DropTableSQL(table: string): Built<seq<string>> {
    var name :- Quote(table);
    Success(["DROP TABLE " + name])
  }

  function CreateIndexSQL(table: string, index: string, names: seq<string>, unique: bool): Built<seq<string>> {
    var t :- Quote(table);
    var i :- Quote(index);
    var items :- Names(names);
    var create := if unique then "CREATE UNIQUE INDEX" else "CREATE INDEX";
    Success([create + " " + i + " ON " + t + " (" + List(items) + ")"])
  }

  function DropIndexSQL(table: string, index: string): Built<seq<string>> {
    var t :- Quote(table);
    var i :- Quote(index);
    Success(["DROP INDEX " + i + " ON " + t])
  }

  function RenameTableSQL(from: string, to: string): Built<seq<string>> {
    var f :- Quote(from);
    var t :- Quote(to);
    Success(["RENAME TABLE " + f + " TO " + t])
  }

  function CopyTableSQL(source: string, destination: string, withData: bool): Built<seq<string>> {
    var s :- Quote(source);
    var d :- Quote(destination);
    Success(["CREATE TABLE " + d + " LIKE " + s] +
            (if withData then ["INSERT INTO " + d + " SELECT * FROM " + s] else []))
  }

  function Build(dialect: Dialect, request: Request): Built<seq<string>> {
    match request
    case CreateTable(table, columns) => CreateTableSQL(dialect, table, columns)
    case DropTable(table) => DropTableSQL(table)
    case AddColumns(table, columns) => AlterTable(table, "ADD COLUMN ", Columns(dialect, columns))
    case DropColumns(table, names) => AlterTable(table, "DROP COLUMN ", Names(names))
    case ModifyColumns(table, columns) => AlterTable(table, "MODIFY COLUMN ", Columns(dialect, columns))
    case CreateIndex(table, index, names, unique) =>
      if dialect.ClickHouse? then Failure(UnsupportedCapability) else CreateIndexSQL(table, index, names, unique)
    case DropIndex(table, index) =>
      if dialect.ClickHouse? then Failure(UnsupportedCapability) else DropIndexSQL(table, index)
    case RenameTable(from, to) => RenameTableSQL(from, to)
    case CopyTable(source, destination, withData) =>
      if dialect.ClickHouse? then Failure(UnsupportedCapability) else CopyTableSQL(source, destination, withData)
  }

  // ---------- the loops of the source ----------

  function Prepend(done: seq<string>, rest: Built<seq<string>>): Built<seq<string>> {
    var items :- rest;
    Success(done + items)
  }

  lemma {:induction false} PrependNone(done: seq<string>, rest: Built<seq<string>>)
    ensures Prepend([], rest) == rest && Prepend(done, Success([])) == Success(done)
  {
    if rest.Success? { assert [] + rest.value == rest.value; }
    assert done + [] == done;
  }

  lemma {:induction false} PrependAssoc(done: seq<string>, item: string, rest: Built<seq<string>>)
    ensures Prepend(done, Prepend([item], rest)) == Prepend(done + [item], rest)
  {
    if rest.Success? {
      assert done + ([item] + rest.value) == done + [item] + rest.value;
    }
  }

  method QuotedColumns(columns: seq<string>) returns (r: Built<seq<string>>)
    ensures r == Names(columns)
  {
    if |columns| == 0 {
      return Failure(NoColumns);
    }
    var seen: set<string> := {};
    var quoted: seq<string> := [];
    assert columns[0..] == columns;
    PrependNone([], NamesFrom(columns, seen));
    for i := 0 to |columns|
      invariant Names(columns) == Prepend(quoted, NamesFrom(columns[i..], seen))
    {
      assert columns[i..][1..] == columns[i + 1..];
      if columns[i] in seen {
        return Failure(DuplicateColumn);
      }
      var name :- Quote(columns[i]);
      PrependAssoc(quoted, name, NamesFrom(columns[i + 1..], seen + {columns[i]}));
      seen := seen + {columns[i]};
      quoted := quoted + [name];
    }
    PrependNone(quoted, Success([]));
    return Success(quoted);
  }

  method BuildColumns(dialect: Dialect, specs: seq<ColumnSpec>) returns (r: Built<seq<string>>)
    ensures r == Columns(dialect, specs)
  {
    if |specs| == 0 {
      return Failure(NoColumns);
    }
    var seen: set<string> := {};
    var columns: seq<string> := [];
    assert specs[0..] == specs;
    PrependNone([], ColumnsFrom(dialect, specs, seen));
    for i := 0 to |specs|
      invariant Columns(dialect, specs) == Prepend(columns, ColumnsFrom(dialect, specs[i..], seen))
    {
      assert specs[i..][1..] == specs[i + 1..];
      if specs[i].name in seen {
        return Failure(DuplicateColumn);
      }
      var built :- Column(dialect, specs[i]);
      PrependAssoc(columns, built, ColumnsFrom(dialect, specs[i + 1..], seen + {specs[i].name}));
      seen := seen + {specs[i].name};
      columns := columns + [built];
    }
    PrependNone(columns, Success([]));
    return Success(columns);
  }

  /** The loops that put `ADD COLUMN `, `DROP COLUMN ` or `MODIFY COLUMN ` before each item in place. */
  method PrefixColumns(prefix: string, built: seq<string>) returns (columns: seq<string>)
    ensures columns == Prefixed(prefix, built)
  {
    columns := built;
    for i := 0 to |columns|
      invariant |columns| == |built|
      invariant forall k :: 0 <= k < i ==> columns[k] == prefix + built[k]
      invariant forall k :: i <= k < |columns| ==> columns[k] == built[k]
    {
      columns := columns[i := prefix + columns[i]];
    }
  }

  method BuildStatements(dialect: Dialect, request: Request) returns (r: Built<seq<string>>)
    ensures r == Build(dialect, request)
  {
    match request
    case CreateTable(table, columns) =>
      var name :- Quote(table);
      var items :- BuildColumns(dialect, columns);
      return Success(["CREATE TABLE " + name + " (" + List(items) + TableClose(dialect)]);
    case AddColumns(table, columns) =>
      var name :- Quote(table);
      var items :- BuildColumns(dialect, columns);
      items := PrefixColumns("ADD COLUMN ", items);
      return Success(["ALTER TABLE " + name + " " + List(items)]);
    case DropColumns(table, names) =>
      var name :- Quote(table);
      var items :- QuotedColumns(names);
      items := PrefixColumns("DROP COLUMN ", items);
      return Success(["ALTER TABLE " + name + " " + List(items)]);
    case ModifyColumns(table, columns) =>
      var name :- Quote(table);
      var items :- BuildColumns(dialect, columns);
      items := PrefixColumns("MODIFY COLUMN ", items);
      return Success(["ALTER TABLE " + name + " " + List(items)]);
    case CreateIndex(table, index, names, unique) =>
      if dialect.ClickHouse? { return Failure(UnsupportedCapability); }
      var t :- Quote(table);
      var i :- Quote(index);
      var items :- QuotedColumns(names);
      var prefix := "CREATE INDEX";
      if unique {
        prefix := "CREATE UNIQUE INDEX";
      }
      return Success([prefix + " " + i + " ON " + t + " (" + List(items) + ")"]);
    case CopyTable(source, destination, withData) =>
      if dialect.ClickHouse? { return Failure(UnsupportedCapability); }
      var s :- Quote(source);
      var d :- Quote(destination);
      var statements := ["CREATE TABLE " + d + " LIKE " + s];
      if withData {
        statements := statements + ["INSERT INTO " + d + " SELECT * FROM " + s];
      }
      assert !withData ==> statements == statements + [];
      return Success(statements);
    case _ =>
      return Build(dialect, request);
  }
}
