/** internal/database/mysql.go: rows of index metadata gathered into indexes through a
    map from names to positions in the growing result, against a plain group-by. */
module IndexGrouping {
  import opened Text

  /** One row of information_schema.statistics; absent values are SQL NULL. */
  datatype Row = Row(name: string, nonUnique: int, indexType: string, column: Option<string>,
                     expression: Option<string>)

  datatype Index = Index(name: string, indexType: string, columns: seq<string>, expression: string, unique: bool)

  // ---------- the group-by ----------

  predicate HasColumn(row: Row) {
    row.column.Some? && row.column.value != ""
  }

  predicate HasExpression(row: Row) {
    !HasColumn(row) && row.expression.Some? && row.expression.value != ""
  }

  /** The rows of one index, in order. */
  function RowsOf(rows: seq<Row>, name: string): seq<Row> {
    if rows == [] then []
    else RowsOf(rows[..|rows| - 1], name) + (if rows[|rows| - 1].name == name then [rows[|rows| - 1]] else [])
  }

  /** The index names, each once, in order of first appearance. */
  function Names(rows: seq<Row>): seq<string> {
    if rows == [] then []
    else
      var names := Names(rows[..|rows| - 1]);
      if rows[|rows| - 1].name in names then names else names + [rows[|rows| - 1].name]
  }

  /** The non-empty column names, in order. */
  function ColumnsOf(rows: seq<Row>): seq<string> {
    if rows == [] then []
    else ColumnsOf(rows[..|rows| - 1]) + (if HasColumn(rows[|rows| - 1]) then [rows[|rows| - 1].column.value] else [])
  }

  /** The last non-empty expression of a row without a column name. */
  function ExpressionOf(rows: seq<Row>): string {
    if rows == [] then ""
    else if HasExpression(rows[|rows| - 1]) then rows[|rows| - 1].expression.value
    else ExpressionOf(rows[..|rows| - 1])
  }

  /** The index of one group of rows: type and uniqueness come from its first row. */
  function IndexOf(name: string, group: seq<Row>): Index
    requires group != []
  {
    Index(name, group[0].indexType, ColumnsOf(group), ExpressionOf(group), group[0].nonUnique == 0)
  }

  lemma {:induction false} NamesHaveRows(rows: seq<Row>, name: string)
    ensures name in Names(rows) <==> RowsOf(rows, name) != []
  {
    if rows == [] {
    } else {
      NamesHaveRows(rows[..|rows| - 1], name);
    }
  }

  function GroupBy(rows: seq<Row>): seq<Index> {
    var names := Names(rows);
    seq(|names|, i requires 0 <= i < |names| =>
      NamesHaveRows(rows, names[i]);
      IndexOf(names[i], RowsOf(rows, names[i])))
  }

  // ---------- the loop ----------

  lemma {:induction false} NamesDistinct(rows: seq<Row>)
    ensures forall i, j :: 0 <= i < j < |Names(rows)| ==> Names(rows)[i] != Names(rows)[j]
  {
    if rows == [] {
    } else {
      NamesDistinct(rows[..|rows| - 1]);
    }
  }

  /** What one row adds to an index. */
  function WithRow(index: Index, row: Row): Index {
    if HasColumn(row) then index.(columns := index.columns + [row.column.value])
    else if HasExpression(row) then index.(expression := row.expression.value)
    else index
  }

  function NewIndex(row: Row): Index {
    Index(row.name, row.indexType, [], "", row.nonUnique == 0)
  }

  lemma {:induction false} RowsOfSnoc(rows: seq<Row>, row: Row, name: string)
    ensures RowsOf(rows + [row], name) == RowsOf(rows, name) + (if row.name == name then [row] else [])
    ensures Names(rows + [row]) == if row.name in Names(rows) then Names(rows) else Names(rows) + [row.name]
  {
    assert (rows + [row])[..|rows|] == rows;
  }

  lemma {:induction false} IndexOfSnoc(name: string, group: seq<Row>, row: Row)
    ensures group != [] ==> IndexOf(name, group + [row]) == WithRow(IndexOf(name, group), row)
    ensures row.name == name ==> IndexOf(name, [row]) == WithRow(NewIndex(row), row)
  {
    assert (group + [row])[..|group|] == group;
    assert [row][..0] == [] && [row][0] == row;
    assert ColumnsOf([]) == [] && ExpressionOf([]) == "";
  }

  lemma {:induction false} GroupAt(rows: seq<Row>, row: Row, i: nat)
    requires i < |Names(rows)|
    ensures i < |GroupBy(rows + [row])|
    ensures GroupBy(rows + [row])[i] ==
            if Names(rows)[i] == row.name then WithRow(GroupBy(rows)[i], row) else GroupBy(rows)[i]
  {
    var name := Names(rows)[i];
    RowsOfSnoc(rows, row, name);
    NamesHaveRows(rows, name);
    IndexOfSnoc(name, RowsOf(rows, name), row);
    assert RowsOf(rows, name) + [] == RowsOf(rows, name);
  }

  /** A row of a known index changes that index alone. */
  lemma {:induction false} KnownRow(rows: seq<Row>, row: Row, position: nat)
    requires position < |Names(rows)| && Names(rows)[position] == row.name
    ensures GroupBy(rows + [row]) == GroupBy(rows)[position := WithRow(GroupBy(rows)[position], row)]
  {
    NamesDistinct(rows);
    RowsOfSnoc(rows, row, row.name);
    forall i | 0 <= i < |Names(rows)|
      ensures GroupBy(rows + [row])[i] == GroupBy(rows)[position := WithRow(GroupBy(rows)[position], row)][i]
    {
      GroupAt(rows, row, i);
    }
  }

  /** A row of a new index adds one at the end. */
  lemma {:induction false} NewRow(rows: seq<Row>, row: Row)
    requires row.name !in Names(rows)
    ensures GroupBy(rows + [row]) == GroupBy(rows) + [WithRow(NewIndex(row), row)]
  {
    RowsOfSnoc(rows, row, row.name);
    NamesHaveRows(rows, row.name);
    IndexOfSnoc(row.name, [], row);
    assert [] + [row] == [row];
    forall i | 0 <= i < |Names(rows)|
      ensures GroupBy(rows + [row])[i] == GroupBy(rows)[i]
    {
      GroupAt(rows, row, i);
    }
  }

  /** The index map: exactly the names seen, each at its position. */
  ghost predicate IsPositionMap(byName: map<string, nat>, names: seq<string>) {
    && (forall name :: name in byName <==> name in names)
    && (forall name <- byName :: byName[name] < |names| && names[byName[name]] == name)
  }

  method PlaceRow(indexes: seq<Index>, position: nat, row: Row) returns (r: seq<Index>)
    requires position < |indexes|
    ensures r == indexes[position := WithRow(indexes[position], row)]
  {
    r := indexes;
    if row.column.Some? && row.column.value != "" {
      r := r[position := r[position].(columns := r[position].columns + [row.column.value])];
    } else if row.expression.Some? && row.expression.value != "" {
      r := r[position := r[position].(expression := row.expression.value)];
    }
  }

  /** One row of the loop: looks its index up, adds it when it is new, and updates it there. */
  method AddRow(ghost rows: seq<Row>, row: Row, byName: map<string, nat>, indexes: seq<Index>)
    returns (names: map<string, nat>, r: seq<Index>)
    requires IsPositionMap(byName, Names(rows)) && indexes == GroupBy(rows)
    ensures IsPositionMap(names, Names(rows + [row])) && r == GroupBy(rows + [row])
  {
    names, r := byName, indexes;
    RowsOfSnoc(rows, row, row.name);
    var position;
    if row.name in byName {
      position := byName[row.name];
      KnownRow(rows, row, position);
    } else {
      NewRow(rows, row);
      position := |indexes|;
      names := names[row.name := position];
      r := r + [Index(row.name, row.indexType, [], "", row.nonUnique == 0)];
    }
    r := PlaceRow(r, position, row);
  }

  method GroupRows(rows: seq<Row>) returns (indexes: seq<Index>)
    ensures indexes == GroupBy(rows)
  {
    var byName: map<string, nat> := map[];
    indexes := [];
    for i := 0 to |rows|
      invariant IsPositionMap(byName, Names(rows[..i]))
      invariant indexes == GroupBy(rows[..i])
    {
      assert rows[..i] + [rows[i]] == rows[..i + 1];
      byName, indexes := AddRow(rows[..i], rows[i], byName, indexes);
    }
    assert rows[..|rows|] == rows;
  }

  // ---------- what the group-by promises ----------

  function Total(indexes: seq<Index>): nat {
    if indexes == [] then 0 else Total(indexes[..|indexes| - 1]) + |indexes[|indexes| - 1].columns|
  }

  lemma {:induction false} TotalUpdate(indexes: seq<Index>, i: nat, index: Index)
    requires i < |indexes|
    ensures Total(indexes[i := index]) == Total(indexes) - |indexes[i].columns| + |index.columns|
  {
    var last := |indexes| - 1;
    if i < last {
      TotalUpdate(indexes[..last], i, index);
      assert indexes[i := index][..last] == indexes[..last][i := index];
    } else {
      assert indexes[i := index][..last] == indexes[..last];
    }
  }

  lemma {:induction false} TotalAppend(indexes: seq<Index>, index: Index)
    ensures Total(indexes + [index]) == Total(indexes) + |index.columns|
  {
    assert (indexes + [index])[..|indexes|] == indexes;
  }

  lemma {:induction false} WithRowColumns(index: Index, row: Row)
    ensures |WithRow(index, row).columns| == |index.columns| + (if HasColumn(row) then 1 else 0)
  {
  }

  /** One row adds its column, if it names one, and nothing else. */
  lemma {:induction false} RowTotal(rows: seq<Row>, row: Row)
    ensures Total(GroupBy(rows + [row])) == Total(GroupBy(rows)) + (if HasColumn(row) then 1 else 0)
  {
    var before := GroupBy(rows);
    if row.name in Names(rows) {
      var position :| 0 <= position < |Names(rows)| && Names(rows)[position] == row.name;
      KnownRow(rows, row, position);
      WithRowColumns(before[position], row);
      TotalUpdate(before, position, WithRow(before[position], row));
    } else {
      NewRow(rows, row);
      WithRowColumns(NewIndex(row), row);
      TotalAppend(before, WithRow(NewIndex(row), row));
    }
  }

  lemma {:induction false} ConservedSnoc(rows: seq<Row>, row: Row)
    requires Total(GroupBy(rows)) == |ColumnsOf(rows)|
    ensures Total(GroupBy(rows + [row])) == |ColumnsOf(rows + [row])|
  {
    RowTotal(rows, row);
    assert (rows + [row])[..|rows|] == rows;
  }

  /** No column is lost or counted twice: the indexes hold as many columns as rows name one. */
  lemma {:induction false} ColumnsConserved(rows: seq<Row>)
    ensures Total(GroupBy(rows)) == |ColumnsOf(rows)|
  {
    if rows == [] {
    } else {
      var last := |rows| - 1;
      ColumnsConserved(rows[..last]);
      ConservedSnoc(rows[..last], rows[last]);
      assert rows == rows[..last] + [rows[last]];
    }
  }

  /** `k` is the first row of that name. */
  predicate IsFirstOf(rows: seq<Row>, name: string, k: nat) {
    k < |rows| && rows[k].name == name && forall i :: 0 <= i < k ==> rows[i].name != name
  }

  lemma {:induction false} FirstOfGroup(rows: seq<Row>, name: string) returns (k: nat)
    ensures RowsOf(rows, name) != [] ==> IsFirstOf(rows, name, k) && rows[k] == RowsOf(rows, name)[0]
    ensures RowsOf(rows, name) == [] ==> forall i :: 0 <= i < |rows| ==> rows[i].name != name
  {
    k := 0;
    if rows != [] {
      var last := |rows| - 1;
      var before := rows[..last];
      k := FirstOfGroup(before, name);
      assert forall i :: 0 <= i < last ==> before[i] == rows[i];
      if RowsOf(before, name) == [] {
        k := last;
      }
    }
  }

  /** Type and uniqueness of an index are those of its first row. */
  lemma {:induction false} FromFirstRow(rows: seq<Row>, i: nat)
    requires i < |GroupBy(rows)|
    ensures var index := GroupBy(rows)[i];
            exists k: nat :: IsFirstOf(rows, index.name, k) && index.indexType == rows[k].indexType &&
                        (index.unique <==> rows[k].nonUnique == 0)
  {
    NamesHaveRows(rows, Names(rows)[i]);
    var k := FirstOfGroup(rows, Names(rows)[i]);
    assert IsFirstOf(rows, GroupBy(rows)[i].name, k);
  }

  /** What a further row adds to an index: its column, if it has a non-empty one; else its
      expression, if it has a non-empty one, in place of any before; else nothing. */
  lemma {:induction false} RowAdds(index: Index, row: Row)
    ensures match row.column
            case Some(column) =>
              column != "" ==>
                (WithRow(index, row) ==
                 Index(index.name, index.indexType, index.columns + [column], index.expression, index.unique))
            case None => true
    ensures row.column == None || row.column == Some("") ==>
              match row.expression
              case Some(expression) =>
                WithRow(index, row) ==
                (if expression == "" then index
                 else Index(index.name, index.indexType, index.columns, expression, index.unique))
              case None => WithRow(index, row) == index
  {
  }

  /** The index that one row alone makes. */
  lemma {:induction false} OneRow(row: Row)
    ensures GroupBy([]) == []
    ensures var columns := if row.column == None || row.column == Some("") then [] else [row.column.value];
            var expression := if columns == [] && row.expression != None then row.expression.value else "";
            GroupBy([row]) == [Index(row.name, row.indexType, columns, expression, row.nonUnique == 0)]
  {
    assert GroupBy([]) == [] && [] + [row] == [row];
    NewRow([], row);
    RowAdds(NewIndex(row), row);
    assert GroupBy([row]) == [WithRow(NewIndex(row), row)];
    if row.column != None && row.column != Some("") {
      assert [] + [row.column.value] == [row.column.value];
    }
  }

  lemma {:induction false} NameAppears(rows: seq<Row>, i: nat)
    requires i < |Names(rows)|
    ensures exists k :: 0 <= k < |rows| && rows[k].name == Names(rows)[i] && Names(rows[..k]) == Names(rows)[..i]
  {
    var last := |rows| - 1;
    var before := rows[..last];
    if i < |Names(before)| {
      NameAppears(before, i);
      var k :| 0 <= k < |before| && before[k].name == Names(before)[i] && Names(before[..k]) == Names(before)[..i];
      assert before[..k] == rows[..k] && rows[k].name == Names(rows)[i];
    } else {
      assert rows[last].name == Names(rows)[i] && Names(before) == Names(rows)[..i];
    }
  }

  /** Names come out distinct and in order of first appearance: the index at position `i`
      first appears in a row before which exactly the names of the earlier indexes occur. */
  lemma {:induction false} FirstAppearanceOrder(rows: seq<Row>, i: nat)
    requires i < |GroupBy(rows)|
    ensures exists k :: 0 <= k < |rows| && rows[k].name == GroupBy(rows)[i].name && Names(rows[..k]) == Names(rows)[..i]
    ensures forall j :: 0 <= j < i ==> GroupBy(rows)[j].name != GroupBy(rows)[i].name
  {
    NamesDistinct(rows);
    NameAppears(rows, i);
    assert GroupBy(rows)[i].name == Names(rows)[i];
  }
}
