/**
 * Identity keys: resolving declared index columns against the table (`findColumn`,
 * `findColumns`), projecting a row onto an index (`getColumnData`), rendering one key
 * (`genKeyList`) and one key per declared index (`genMultipleKeys`).
 */
module Keys {
  import opened Wrappers
  import opened Strings
  import opened Values
  import opened Schema

  // ---------------------------------------------------------------------------------------
  // Resolving index column names
  // ---------------------------------------------------------------------------------------

  /** The first column named `name`, or none. */
  function ColumnNamed(columns: seq<Column>, name: string): Option<Column>
  {
    if |columns| == 0 then None
    else if columns[0].name == name then Some(columns[0])
    else ColumnNamed(columns[1..], name)
  }

  /** `findColumn`: scans the table's columns for the first one with the given name. */
  method FindColumn(columns: seq<Column>, name: string) returns (r: Option<Column>)
    ensures r == ColumnNamed(columns, name)
    ensures r.None? <==> forall k :: 0 <= k < |columns| ==> columns[k].name != name
    ensures r.Some? ==> exists k :: 0 <= k < |columns| && columns[k] == r.value && r.value.name == name
                                    && forall j :: 0 <= j < k ==> columns[j].name != name
  {
    var i := 0;
    while i < |columns|
      invariant 0 <= i <= |columns|
      invariant forall j :: 0 <= j < i ==> columns[j].name != name
      invariant ColumnNamed(columns, name) == ColumnNamed(columns[i..], name)
    {
      if columns[i].name == name {
        return Some(columns[i]);
      }
      assert columns[i..][1..] == columns[i + 1..];
      i := i + 1;
    }
    return None;
  }

  /** One declared index as the schema names it: an index name and its column names. */
  datatype IndexDecl = IndexDecl(name: string, columnNames: seq<string>)

  /** The columns of the table named by `names`, in order; names with no column are dropped. */
  function Resolve(columns: seq<Column>, names: seq<string>): seq<Column>
  {
    if |names| == 0 then []
    else
      Resolve(columns, names[..|names| - 1]) +
      match ColumnNamed(columns, names[|names| - 1])
      case Some(c) => [c]
      case None => []
  }

  /** A resolved index lists only columns of the table, never more than were declared, and
      exactly as many when every declared name exists. */
  lemma {:induction false} ResolveSound(columns: seq<Column>, names: seq<string>)
    ensures |Resolve(columns, names)| <= |names|
    ensures forall j :: 0 <= j < |Resolve(columns, names)| ==> Resolve(columns, names)[j] in columns
    ensures |Resolve(columns, names)| == |names| <==>
              forall i :: 0 <= i < |names| ==> ColumnNamed(columns, names[i]).Some?
  {
    if |names| > 0 {
      var init := names[..|names| - 1];
      ResolveSound(columns, init);
      ColumnNamedIn(columns, names[|names| - 1]);
      assert forall i :: 0 <= i < |init| ==> init[i] == names[i];
    }
  }

  lemma {:induction false} ColumnNamedIn(columns: seq<Column>, name: string)
    ensures ColumnNamed(columns, name).Some? ==> ColumnNamed(columns, name).value in columns
    ensures ColumnNamed(columns, name).Some? ==> ColumnNamed(columns, name).value.name == name
  {
    if |columns| > 0 && columns[0].name != name {
      ColumnNamedIn(columns[1..], name);
    }
  }

  /** `findColumns`: resolves every declared index against the table's columns. */
  method FindColumns(columns: seq<Column>, declared: seq<IndexDecl>) returns (r: seq<Index>)
    ensures |r| == |declared|
    ensures forall k :: 0 <= k < |declared| ==>
              r[k] == Index(declared[k].name, Resolve(columns, declared[k].columnNames))
  {
    r := [];
    var k := 0;
    while k < |declared|
      invariant 0 <= k <= |declared|
      invariant |r| == k
      invariant forall i :: 0 <= i < k ==> r[i] == Index(declared[i].name, Resolve(columns, declared[i].columnNames))
    {
      var names := declared[k].columnNames;
      var cols := [];
      var j := 0;
      while j < |names|
        invariant 0 <= j <= |names|
        invariant cols == Resolve(columns, names[..j])
      {
        var column := FindColumn(columns, names[j]);
        assert names[..j + 1][..j] == names[..j];
        if column.Some? {
          cols := cols + [column.value];
        }
        j := j + 1;
      }
      assert names[..|names|] == names;
      r := r + [Index(declared[k].name, cols)];
      k := k + 1;
    }
  }

  /** Positions of a table's columns are their places in the catalogue. */
  predicate Positional(columns: seq<Column>)
  {
    forall i :: 0 <= i < |columns| ==> columns[i].idx == i
  }

  /** Indexes resolved against a positional catalogue only point inside rows of the table's
      width: the precondition every generator below relies on. */
  lemma {:induction false} ResolvedInRange(columns: seq<Column>, declared: seq<IndexDecl>, r: seq<Index>)
    requires Positional(columns)
    requires |r| == |declared|
    requires forall k :: 0 <= k < |declared| ==>
               r[k] == Index(declared[k].name, Resolve(columns, declared[k].columnNames))
    ensures IndexesInRange(r, |columns|)
  {
    forall k | 0 <= k < |r| ensures ColumnsIn(r[k].cols, |columns|) {
      ResolveSound(columns, declared[k].columnNames);
      forall j | 0 <= j < |r[k].cols| ensures r[k].cols[j].idx < |columns| {
        var c := r[k].cols[j];
        assert c in columns;
        var i :| 0 <= i < |columns| && columns[i] == c;
      }
    }
  }

  // ---------------------------------------------------------------------------------------
  // Projection and key rendering
  // ---------------------------------------------------------------------------------------

  /** The row's values at the given columns' positions. */
  function ColumnData(data: seq<Value>, cols: seq<Column>): seq<Value>
    requires ColumnsIn(cols, |data|)
  {
    seq(|cols|, k requires 0 <= k < |cols| => data[cols[k].idx])
  }

  /** `getColumnData`: the index's columns, and the row's value at each of them, in index order. */
  method GetColumnData(columns: seq<Column>, indexColumns: seq<Column>, data: seq<Value>)
    returns (cols: seq<Column>, values: seq<Value>)
    requires ColumnsIn(indexColumns, |data|)
    ensures cols == indexColumns
    ensures |values| == |indexColumns|
    ensures forall k :: 0 <= k < |indexColumns| ==> values[k] == data[indexColumns[k].idx]
    ensures values == ColumnData(data, indexColumns)
  {
    cols, values := [], [];
    var k := 0;
    while k < |indexColumns|
      invariant 0 <= k <= |indexColumns|
      invariant cols == indexColumns[..k]
      invariant |values| == k
      invariant forall i :: 0 <= i < k ==> values[i] == data[indexColumns[i].idx]
    {
      cols := cols + [indexColumns[k]];
      values := values + [data[indexColumns[k].idx]];
      k := k + 1;
    }
    assert indexColumns[..k] == indexColumns;
  }

  /** The canonical text of each value, rendered with its own column's flags. */
  function KeyParts(cols: seq<Column>, vals: seq<Value>): (parts: seq<string>)
    requires |vals| <= |cols|
  {
    seq(|vals|, i requires 0 <= i < |vals| => ColumnValue(vals[i], cols[i].unsigned, cols[i].tp))
  }

  /** One identity key: the parts joined by commas. */
  function KeyList(cols: seq<Column>, vals: seq<Value>): string
    requires |vals| <= |cols|
  {
    Join(KeyParts(cols, vals), ",")
  }

  /** `genKeyList`: renders each value and joins the texts with ",". */
  method GenKeyList(columns: seq<Column>, dataSeq: seq<Value>) returns (key: string)
    requires |dataSeq| <= |columns|
    ensures key == KeyList(columns, dataSeq)
  {
    var values: seq<string> := [];
    var i := 0;
    while i < |dataSeq|
      invariant 0 <= i <= |dataSeq|
      invariant values == KeyParts(columns, dataSeq[..i])
    {
      values := values + [ColumnValue(dataSeq[i], columns[i].unsigned, columns[i].tp)];
      i := i + 1;
    }
    assert dataSeq[..i] == dataSeq;
    key := Join(values, ",");
  }

  /** A key over integer columns decodes back to the unsigned-aware numbers, one per column:
      two rows get the same key exactly when those numbers agree. */
  lemma IntegerKeyDecodes(cols: seq<Column>, vals: seq<Value>)
    requires 0 < |vals| <= |cols|
    requires forall i :: 0 <= i < |vals| ==> IsIntegral(vals[i])
    ensures var pieces := Split(KeyList(cols, vals), ',');
            && |pieces| == |vals|
            && forall i :: 0 <= i < |vals| ==>
                 ParseInt(pieces[i]) == Some(UnsignedView(vals[i], cols[i].unsigned, cols[i].tp))
  {
    SplitJoin(KeyParts(cols, vals), ',');
  }

  /** The keys of a row under every index, in catalogue order. */
  function MultipleKeys(value: seq<Value>, indexes: seq<Index>): (keys: seq<string>)
    requires IndexesInRange(indexes, |value|)
  {
    seq(|indexes|, k requires 0 <= k < |indexes| =>
      KeyList(indexes[k].cols, ColumnData(value, indexes[k].cols)))
  }

  /** `genMultipleKeys`: one key per declared index, whichever index keys the statement. */
  method GenMultipleKeys(columns: seq<Column>, value: seq<Value>, indexes: seq<Index>)
    returns (keys: seq<string>)
    requires IndexesInRange(indexes, |value|)
    ensures |keys| == |indexes|
    ensures keys == MultipleKeys(value, indexes)
  {
    keys := [];
    var k := 0;
    while k < |indexes|
      invariant 0 <= k <= |indexes|
      invariant keys == MultipleKeys(value, indexes[..k])
    {
      assert ColumnsIn(indexes[k].cols, |value|);
      var cols, vals := GetColumnData(columns, indexes[k].cols, value);
      var key := GenKeyList(cols, vals);
      assert indexes[..k + 1][..k] == indexes[..k];
      keys := keys + [key];
      k := k + 1;
    }
    assert indexes[..k] == indexes;
  }

  /** The key of a row under an index depends only on the row's values at that index's
      columns: rows that agree there collide, whatever their other columns hold. */
  lemma KeysAgreeOnIndexColumns(a: seq<Value>, b: seq<Value>, indexes: seq<Index>, k: nat)
    requires IndexesInRange(indexes, |a|) && IndexesInRange(indexes, |b|)
    requires k < |indexes|
    requires forall j :: 0 <= j < |indexes[k].cols| ==> a[indexes[k].cols[j].idx] == b[indexes[k].cols[j].idx]
    ensures MultipleKeys(a, indexes)[k] == MultipleKeys(b, indexes)[k]
  {
    assert ColumnsIn(indexes[k].cols, |a|) && ColumnsIn(indexes[k].cols, |b|);
    assert ColumnData(a, indexes[k].cols) == ColumnData(b, indexes[k].cols);
  }
}
