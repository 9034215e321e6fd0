/**
 * The batch generators of the syncer's DML layer: `genInsertSQLs`, `genDeleteSQLs` (with
 * `genDeleteSQL`), `genUpdateSQLs` and the optional row rewrite `mappingDML`.
 *
 * Each generator turns a batch of captured row images into three aligned lists: statement
 * text, the identity keys of the rows each statement touches, and the values bound to its
 * placeholders. Delete and update carry one choice of keying index across the batch: the
 * schema-level choice, or, while that is empty, a per-row fallback that sticks once found.
 * Each loop is specified by a recursive function over the remaining rows (`DeleteRun`,
 * `UpdateRun`) which carries the index exactly as the loop does.
 */
module Dml {
  import opened Wrappers
  import opened Values
  import opened Schema
  import opened IndexFit
  import opened Keys
  import opened Clauses

  /** Why a batch is refused. The Go errors carry a formatted message; the model keeps the two
      lengths each message reports, in the order it reports them. */
  datatype Error =
    | ColumnDataMismatch(columns: nat, data: nat)
    | UpdatePairMismatch(oldLength: nat, changedLength: nat)

  /** The three outputs of a generator, aligned by position: statement text, the identity keys
      of the row(s) the statement touches, and the values bound to its placeholders. */
  datatype Batch = Batch(sqls: seq<string>, keys: seq<seq<string>>, values: seq<seq<Value>>)

  const NoStatements: Batch := Batch([], [], [])

  function Append(a: Batch, b: Batch): Batch
  {
    Batch(a.sqls + b.sqls, a.keys + b.keys, a.values + b.values)
  }

  /** The statements for the rows done so far followed by the outcome for the remaining rows:
      an error anywhere discards everything. */
  function Then(done: Batch, rest: Result<Batch, Error>): Result<Batch, Error>
  {
    match rest
    case Ok(b) => Ok(Append(done, b))
    case Err(e) => Err(e)
  }

  lemma ThenAppend(a: Batch, b: Batch, rest: Result<Batch, Error>)
    ensures Then(a, Then(b, rest)) == Then(Append(a, b), rest)
  {
    if rest.Ok? {
      var c := rest.value;
      assert a.sqls + (b.sqls + c.sqls) == (a.sqls + b.sqls) + c.sqls;
      assert a.keys + (b.keys + c.keys) == (a.keys + b.keys) + c.keys;
      assert a.values + (b.values + c.values) == (a.values + b.values) + c.values;
    }
  }

  lemma ThenNothing(done: Batch, rest: Result<Batch, Error>)
    ensures Then(NoStatements, rest) == rest
    ensures Then(done, Ok(NoStatements)) == Ok(done)
  {
    if rest.Ok? {
      assert Append(NoStatements, rest.value) == rest.value;
    }
    assert Append(done, NoStatements) == done;
  }

  /** Every row of the batch has `n` values. */
  predicate RowsMatch(rows: seq<seq<Value>>, n: nat)
  {
    forall k :: 0 <= k < |rows| ==> |rows[k]| == n
  }

  /** Position of the first row that does not have `n` values (`|rows|` when all do). */
  function FirstMismatch(rows: seq<seq<Value>>, n: nat): (j: nat)
    ensures j <= |rows|
    ensures j < |rows| ==> |rows[j]| != n
    ensures forall i :: 0 <= i < j ==> |rows[i]| == n
  {
    if |rows| == 0 || |rows[0]| != n then 0
    else
      var j := FirstMismatch(rows[1..], n);
      assert forall i :: 1 <= i < |rows| ==> rows[i] == rows[1..][i - 1];
      1 + j
  }

  // ---------------------------------------------------------------------------------------
  // Statement text
  // ---------------------------------------------------------------------------------------

  /** "`schema`.`table`". */
  function TableName(schema: string, table: string): string
  {
    Quote(schema) + "." + Quote(table)
  }

  /** The REPLACE statement of an insert (and of the new image of a safe-mode update). */
  function InsertSQL(schema: string, table: string, columns: seq<Column>): string
  {
    "REPLACE INTO " + TableName(schema, table) + " (" + ColumnList(columns) + ") VALUES (" +
    Placeholders(|columns|) + ");"
  }

  /** The columns a WHERE clause compares: the keying index's, or every column without one. */
  function WhereColumns(columns: seq<Column>, fit: seq<Column>): seq<Column>
  {
    if |fit| > 0 then fit else columns
  }

  /** The values a WHERE clause binds: the row at the keying index's columns, or the whole row. */
  function WhereValues(value: seq<Value>, fit: seq<Column>): seq<Value>
    requires ColumnsIn(fit, |value|)
  {
    if |fit| > 0 then ColumnData(value, fit) else value
  }

  /** The DELETE statement for one row keyed by `fit`. */
  function DeleteSQL(schema: string, table: string, value: seq<Value>, columns: seq<Column>, fit: seq<Column>): string
    requires |columns| <= |value| && ColumnsIn(fit, |value|)
  {
    "DELETE FROM " + TableName(schema, table) + " WHERE " +
    Where(WhereColumns(columns, fit), WhereValues(value, fit)) + " LIMIT 1;"
  }

  /** The UPDATE statement that sets every column and locates the old image by `fit`. */
  function UpdateSQL(schema: string, table: string, columns: seq<Column>, oldValues: seq<Value>, fit: seq<Column>): string
    requires |columns| <= |oldValues| && ColumnsIn(fit, |oldValues|)
  {
    "UPDATE " + TableName(schema, table) + " SET " + KVs(columns) + " WHERE " +
    Where(WhereColumns(columns, fit), WhereValues(oldValues, fit)) + " LIMIT 1;"
  }

  /** `genDeleteSQL`: the DELETE for one row and the values its WHERE clause binds. */
  method GenDeleteSQL(schema: string, table: string, value: seq<Value>, columns: seq<Column>, indexColumns: seq<Column>)
    returns (sql: string, whereValues: seq<Value>)
    requires |columns| <= |value| && ColumnsIn(indexColumns, |value|)
    ensures sql == DeleteSQL(schema, table, value, columns, indexColumns)
    ensures whereValues == WhereValues(value, indexColumns)
    ensures |indexColumns| > 0 ==>
              && |whereValues| == |indexColumns|
              && forall k :: 0 <= k < |indexColumns| ==> whereValues[k] == value[indexColumns[k].idx]
    ensures |indexColumns| == 0 ==> whereValues == value
  {
    var whereColumns, wv := columns, value;
    if |indexColumns| > 0 {
      whereColumns, wv := GetColumnData(columns, indexColumns, value);
    }
    var where := GenWhere(whereColumns, wv);
    sql := "DELETE FROM " + TableName(schema, table) + " WHERE " + where + " LIMIT 1;";
    whereValues := wv;
  }

  // ---------------------------------------------------------------------------------------
  // Casting a captured row
  // ---------------------------------------------------------------------------------------

  /** The row with every value cast by its own column's unsigned flag and type. */
  function CastRow(data: seq<Value>, columns: seq<Column>): seq<Value>
    requires |data| <= |columns|
  {
    seq(|data|, i requires 0 <= i < |data| => CastUnsigned(data[i], columns[i].unsigned, columns[i].tp))
  }

  /** The cast loop each generator runs over a row. */
  method CastValues(data: seq<Value>, columns: seq<Column>) returns (value: seq<Value>)
    requires |data| <= |columns|
    ensures |value| == |data|
    ensures forall i :: 0 <= i < |data| ==> value[i] == CastUnsigned(data[i], columns[i].unsigned, columns[i].tp)
    ensures value == CastRow(data, columns)
  {
    value := [];
    var i := 0;
    while i < |data|
      invariant 0 <= i <= |data|
      invariant value == CastRow(data[..i], columns)
    {
      value := value + [CastUnsigned(data[i], columns[i].unsigned, columns[i].tp)];
      i := i + 1;
    }
    assert data[..i] == data;
  }

  /** Every row of a well-formed batch, cast. */
  function CastRows(rows: seq<seq<Value>>, columns: seq<Column>): (cast: seq<seq<Value>>)
    requires RowsMatch(rows, |columns|)
    ensures |cast| == |rows| && RowsMatch(cast, |columns|)
  {
    seq(|rows|, k requires 0 <= k < |rows| => CastRow(rows[k], columns))
  }

  // ---------------------------------------------------------------------------------------
  // The keying index carried across a batch
  // ---------------------------------------------------------------------------------------

  /** The index carried to the next row: kept once non-empty, otherwise looked up again from
      this row's values. */
  function NextFit(fit: seq<Column>, indexes: seq<Index>, value: seq<Value>): seq<Column>
    requires IndexesInRange(indexes, |value|)
  {
    if |fit| == 0 then AvailableIndex(indexes, value) else fit
  }

  /** The keying index each row of a batch is given, starting from `fit`. */
  function FitTrace(indexes: seq<Index>, n: nat, rows: seq<seq<Value>>, fit: seq<Column>): (trace: seq<seq<Column>>)
    requires RowsMatch(rows, n) && IndexesInRange(indexes, n) && ColumnsIn(fit, n)
    ensures |trace| == |rows|
    ensures forall k :: 0 <= k < |trace| ==> ColumnsIn(trace[k], n)
    decreases |rows|
  {
    if |rows| == 0 then []
    else
      var next := NextFit(fit, indexes, rows[0]);
      [next] + FitTrace(indexes, n, rows[1..], next)
  }

  /** Position of the first row that has an index free of nil values (`|rows|` if none has). */
  function FirstAvailable(indexes: seq<Index>, n: nat, rows: seq<seq<Value>>): (j: nat)
    requires RowsMatch(rows, n) && IndexesInRange(indexes, n)
    ensures j <= |rows|
  {
    if |rows| == 0 || AvailableIndex(indexes, rows[0]) != [] then 0
    else 1 + FirstAvailable(indexes, n, rows[1..])
  }

  /** The row `FirstAvailable` finds has an available index, and no earlier row has one. */
  lemma {:induction false} FirstAvailableFirst(indexes: seq<Index>, n: nat, rows: seq<seq<Value>>, i: nat)
    requires RowsMatch(rows, n) && IndexesInRange(indexes, n)
    requires i < |rows|
    ensures i < FirstAvailable(indexes, n, rows) ==> AvailableIndex(indexes, rows[i]) == []
    ensures i == FirstAvailable(indexes, n, rows) ==> AvailableIndex(indexes, rows[i]) != []
  {
    if i > 0 && AvailableIndex(indexes, rows[0]) == [] {
      FirstAvailableFirst(indexes, n, rows[1..], i - 1);
      assert rows[1..][i - 1] == rows[i];
    }
  }

  /** Which index keys row `k`: the schema-level choice when there is one; otherwise the
      index found for the first row that had one free of nil values, and nothing for the rows
      before it. The later rows are not checked again: the found index is kept for them even
      when their own values at its columns are nil. */
  lemma {:induction false} FitTraceRow(indexes: seq<Index>, n: nat, rows: seq<seq<Value>>, fit: seq<Column>, k: nat)
    requires RowsMatch(rows, n) && IndexesInRange(indexes, n) && ColumnsIn(fit, n)
    requires k < |rows|
    ensures |fit| > 0 ==> FitTrace(indexes, n, rows, fit)[k] == fit
    ensures |fit| == 0 ==>
              var j := FirstAvailable(indexes, n, rows);
              FitTrace(indexes, n, rows, fit)[k] == if j <= k then AvailableIndex(indexes, rows[j]) else []
  {
    var next := NextFit(fit, indexes, rows[0]);
    var trace := FitTrace(indexes, n, rows, fit);
    assert trace == [next] + FitTrace(indexes, n, rows[1..], next);
    if k > 0 {
      assert RowsMatch(rows[1..], n);
      FitTraceRow(indexes, n, rows[1..], next, k - 1);
      assert trace[k] == FitTrace(indexes, n, rows[1..], next)[k - 1];
      if |fit| == 0 && next == [] {
        var j' := FirstAvailable(indexes, n, rows[1..]);
        assert FirstAvailable(indexes, n, rows) == 1 + j';
        if j' < |rows| - 1 {
          assert rows[1..][j'] == rows[1 + j'];
        }
      }
    }
  }

  // ---------------------------------------------------------------------------------------
  // Insert
  // ---------------------------------------------------------------------------------------

  /** `genInsertSQLs`: one REPLACE per row, binding the cast row and keyed by every index; a row
      of the wrong width refuses the whole batch. */
  method GenInsertSQLs(schema: string, table: string, dataSeq: seq<seq<Value>>, columns: seq<Column>, indexes: seq<Index>)
    returns (r: Result<Batch, Error>)
    requires IndexesInRange(indexes, |columns|)
    ensures r.Err? <==> !RowsMatch(dataSeq, |columns|)
    ensures r.Err? ==> r.error == ColumnDataMismatch(|columns|, |dataSeq[FirstMismatch(dataSeq, |columns|)]|)
    ensures r.Ok? ==> |r.value.sqls| == |dataSeq| && |r.value.keys| == |dataSeq| && |r.value.values| == |dataSeq|
    ensures r.Ok? ==> forall k :: 0 <= k < |dataSeq| ==>
              && r.value.sqls[k] == InsertSQL(schema, table, columns)
              && r.value.values[k] == CastRow(dataSeq[k], columns)
              && r.value.keys[k] == MultipleKeys(r.value.values[k], indexes)
  {
    var sqls: seq<string> := [];
    var keys: seq<seq<string>> := [];
    var values: seq<seq<Value>> := [];
    var columnList := GenColumnList(columns);
    var columnPlaceholders := GenColumnPlaceholders(|columns|);
    var i := 0;
    while i < |dataSeq|
      invariant 0 <= i <= |dataSeq|
      invariant forall k :: 0 <= k < i ==> |dataSeq[k]| == |columns|
      invariant |sqls| == i && |keys| == i && |values| == i
      invariant forall k :: 0 <= k < i ==>
                  && sqls[k] == InsertSQL(schema, table, columns)
                  && values[k] == CastRow(dataSeq[k], columns)
                  && keys[k] == MultipleKeys(values[k], indexes)
    {
      var data := dataSeq[i];
      if |data| != |columns| {
        assert FirstMismatch(dataSeq, |columns|) == i;
        return Err(ColumnDataMismatch(|columns|, |data|));
      }
      var value := CastValues(data, columns);
      var sql := "REPLACE INTO " + TableName(schema, table) + " (" + columnList + ") VALUES (" +
                 columnPlaceholders + ");";
      var ks := GenMultipleKeys(columns, value, indexes);
      sqls := sqls + [sql];
      values := values + [value];
      keys := keys + [ks];
      i := i + 1;
    }
    return Ok(Batch(sqls, keys, values));
  }

  // ---------------------------------------------------------------------------------------
  // Delete
  // ---------------------------------------------------------------------------------------

  /** The statements for the remaining rows of a delete batch, keyed from `fit` onwards. */
  function DeleteRun(schema: string, table: string, rows: seq<seq<Value>>, columns: seq<Column>,
                     indexes: seq<Index>, fit: seq<Column>): Result<Batch, Error>
    requires IndexesInRange(indexes, |columns|) && ColumnsIn(fit, |columns|)
    decreases |rows|, 1
  {
    if |rows| == 0 then Ok(NoStatements)
    else if |rows[0]| != |columns| then Err(ColumnDataMismatch(|columns|, |rows[0]|))
    else DeleteRowThenRun(schema, table, rows, columns, indexes, fit)
  }

  /** A delete run whose first row is well formed: its DELETE, keyed by the index carried to
      it, then the run over the remaining rows. */
  function DeleteRowThenRun(schema: string, table: string, rows: seq<seq<Value>>, columns: seq<Column>,
                            indexes: seq<Index>, fit: seq<Column>): Result<Batch, Error>
    requires |rows| > 0 && |rows[0]| == |columns|
    requires IndexesInRange(indexes, |columns|) && ColumnsIn(fit, |columns|)
    decreases |rows|, 0
  {
    var value := CastRow(rows[0], columns);
    var next := NextFit(fit, indexes, value);
    Then(Batch([DeleteSQL(schema, table, value, columns, next)],
               [MultipleKeys(value, indexes)],
               [WhereValues(value, next)]),
         DeleteRun(schema, table, rows[1..], columns, indexes, next))
  }

  /** A delete batch: the run started from the schema-level index choice. */
  function DeleteBatch(schema: string, table: string, rows: seq<seq<Value>>, columns: seq<Column>,
                       indexes: seq<Index>): Result<Batch, Error>
    requires IndexesInRange(indexes, |columns|)
  {
    FitIndexInRange(indexes, |columns|);
    DeleteRun(schema, table, rows, columns, indexes, FindFitIndex(indexes))
  }

  /** `genDeleteSQLs`: one DELETE per row, keyed by the carried index; a row of the wrong width
      refuses the whole batch. */
  method GenDeleteSQLs(schema: string, table: string, dataSeq: seq<seq<Value>>, columns: seq<Column>, indexes: seq<Index>)
    returns (r: Result<Batch, Error>)
    requires IndexesInRange(indexes, |columns|)
    ensures r == DeleteBatch(schema, table, dataSeq, columns, indexes)
  {
    var sqls: seq<string> := [];
    var keys: seq<seq<string>> := [];
    var values: seq<seq<Value>> := [];
    FitIndexInRange(indexes, |columns|);
    var fit0 := FindFitIndex(indexes);
    var defaultIndexColumns := fit0;
    var i := 0;
    assert dataSeq[i..] == dataSeq;
    ThenNothing(Batch(sqls, keys, values), DeleteRun(schema, table, dataSeq, columns, indexes, fit0));
    while i < |dataSeq|
      invariant 0 <= i <= |dataSeq|
      invariant ColumnsIn(defaultIndexColumns, |columns|)
      invariant Then(Batch(sqls, keys, values), DeleteRun(schema, table, dataSeq[i..], columns, indexes, defaultIndexColumns))
                == DeleteRun(schema, table, dataSeq, columns, indexes, fit0)
    {
      var data := dataSeq[i];
      if |data| != |columns| {
        return Err(ColumnDataMismatch(|columns|, |data|));
      }
      var value := CastValues(data, columns);
      if |defaultIndexColumns| == 0 {
        defaultIndexColumns := GetAvailableIndexColumn(indexes, value);
      }
      var ks := GenMultipleKeys(columns, value, indexes);
      var sql, whereValues := GenDeleteSQL(schema, table, value, columns, defaultIndexColumns);
      ghost var step := Batch([sql], [ks], [whereValues]);
      assert dataSeq[i..][1..] == dataSeq[i + 1..];
      ThenAppend(Batch(sqls, keys, values), step, DeleteRun(schema, table, dataSeq[i + 1..], columns, indexes, defaultIndexColumns));
      sqls := sqls + [sql];
      values := values + [whereValues];
      keys := keys + [ks];
      i := i + 1;
    }
    assert dataSeq[i..] == [];
    ThenNothing(Batch(sqls, keys, values), Ok(NoStatements));
    return Ok(Batch(sqls, keys, values));
  }

  /** A delete batch fails exactly when some row has the wrong width, and reports the first. */
  lemma {:induction false} DeleteRunFails(schema: string, table: string, rows: seq<seq<Value>>, columns: seq<Column>,
                                          indexes: seq<Index>, fit: seq<Column>)
    requires IndexesInRange(indexes, |columns|) && ColumnsIn(fit, |columns|)
    ensures DeleteRun(schema, table, rows, columns, indexes, fit).Err? <==> !RowsMatch(rows, |columns|)
    ensures DeleteRun(schema, table, rows, columns, indexes, fit).Err? ==>
              DeleteRun(schema, table, rows, columns, indexes, fit).error ==
              ColumnDataMismatch(|columns|, |rows[FirstMismatch(rows, |columns|)]|)
    decreases |rows|
  {
    if |rows| > 0 && |rows[0]| == |columns| {
      var next := NextFit(fit, indexes, CastRow(rows[0], columns));
      var rest := DeleteRun(schema, table, rows[1..], columns, indexes, next);
      assert DeleteRun(schema, table, rows, columns, indexes, fit)
             == DeleteRowThenRun(schema, table, rows, columns, indexes, fit);
      assert DeleteRun(schema, table, rows, columns, indexes, fit).Err? <==> rest.Err?;
      assert rest.Err? ==> DeleteRun(schema, table, rows, columns, indexes, fit).error == rest.error;
      DeleteRunFails(schema, table, rows[1..], columns, indexes, next);
      assert RowsMatch(rows, |columns|) <==> RowsMatch(rows[1..], |columns|) by {
        assert forall i :: 1 <= i < |rows| ==> rows[i] == rows[1..][i - 1];
      }
      if !RowsMatch(rows, |columns|) {
        assert FirstMismatch(rows, |columns|) == 1 + FirstMismatch(rows[1..], |columns|);
      }
    }
  }

  /** A well-formed delete batch has one statement, one key list and one value list per row. */
  lemma {:induction false} DeleteRunLength(schema: string, table: string, rows: seq<seq<Value>>, columns: seq<Column>,
                                           indexes: seq<Index>, fit: seq<Column>)
    requires IndexesInRange(indexes, |columns|) && ColumnsIn(fit, |columns|)
    requires RowsMatch(rows, |columns|)
    ensures DeleteRun(schema, table, rows, columns, indexes, fit).Ok?
    ensures var b := DeleteRun(schema, table, rows, columns, indexes, fit).value;
            |b.sqls| == |rows| && |b.keys| == |rows| && |b.values| == |rows|
    decreases |rows|
  {
    if |rows| > 0 {
      var next := NextFit(fit, indexes, CastRow(rows[0], columns));
      assert RowsMatch(rows[1..], |columns|);
      DeleteRunLength(schema, table, rows[1..], columns, indexes, next);
    }
  }

  /** Row `k` of a well-formed delete batch: a DELETE whose WHERE clause compares the index
      carried to that row (every column when there is none), bound to the row's values at
      those columns, and keyed by the cast row under every index. */
  lemma {:induction false} DeleteRunRow(schema: string, table: string, rows: seq<seq<Value>>, columns: seq<Column>,
                                        indexes: seq<Index>, fit: seq<Column>, k: nat)
    requires IndexesInRange(indexes, |columns|) && ColumnsIn(fit, |columns|)
    requires RowsMatch(rows, |columns|) && k < |rows|
    ensures DeleteRun(schema, table, rows, columns, indexes, fit).Ok?
    ensures var b := DeleteRun(schema, table, rows, columns, indexes, fit).value;
            var value := CastRow(rows[k], columns);
            var f := FitTrace(indexes, |columns|, CastRows(rows, columns), fit)[k];
            && |b.sqls| == |rows| && |b.keys| == |rows| && |b.values| == |rows|
            && b.sqls[k] == DeleteSQL(schema, table, value, columns, f)
            && b.values[k] == WhereValues(value, f)
            && b.keys[k] == MultipleKeys(value, indexes)
    decreases |rows|
  {
    DeleteRunLength(schema, table, rows, columns, indexes, fit);
    var value := CastRow(rows[0], columns);
    var next := NextFit(fit, indexes, value);
    var cast := CastRows(rows, columns);
    assert cast[0] == value;
    assert cast[1..] == CastRows(rows[1..], columns);
    assert FitTrace(indexes, |columns|, cast, fit) == [next] + FitTrace(indexes, |columns|, cast[1..], next);
    assert RowsMatch(rows[1..], |columns|);
    DeleteRunLength(schema, table, rows[1..], columns, indexes, next);
    if k > 0 {
      DeleteRunRow(schema, table, rows[1..], columns, indexes, next, k - 1);
      assert rows[1..][k - 1] == rows[k];
    }
  }

  // ---------------------------------------------------------------------------------------
  // Update
  // ---------------------------------------------------------------------------------------

  /** The statements for one (old, changed) pair once the keying index `fit` is known. In safe
      mode: a DELETE of the old image and a REPLACE of the new one. Otherwise a single UPDATE
      binding the new values followed by the WHERE values of the old image, skipped when there
      is no column to set. Every statement of the pair carries the keys of both images. */
  function UpdateStatements(schema: string, table: string, columns: seq<Column>, indexes: seq<Index>,
                            oldValues: seq<Value>, changedValues: seq<Value>, fit: seq<Column>,
                            safeMode: bool): Batch
    requires |oldValues| == |columns| && |changedValues| == |columns|
    requires IndexesInRange(indexes, |columns|) && ColumnsIn(fit, |columns|)
  {
    var ks := MultipleKeys(oldValues, indexes) + MultipleKeys(changedValues, indexes);
    if safeMode then
      Batch([DeleteSQL(schema, table, oldValues, columns, fit), InsertSQL(schema, table, columns)],
            [ks, ks],
            [WhereValues(oldValues, fit), changedValues])
    else if |columns| == 0 then NoStatements
    else
      Batch([UpdateSQL(schema, table, columns, oldValues, fit)],
            [ks],
            [changedValues + WhereValues(oldValues, fit)])
  }

  /** The statements for the remaining pairs of an update batch (old image at even positions,
      new image after it), keyed from `fit` onwards. */
  function UpdateRun(schema: string, table: string, data: seq<seq<Value>>, pairs: nat, columns: seq<Column>,
                     indexes: seq<Index>, safeMode: bool, fit: seq<Column>): Result<Batch, Error>
    requires |data| == 2 * pairs
    requires IndexesInRange(indexes, |columns|) && ColumnsIn(fit, |columns|)
    decreases pairs, 2
  {
    if pairs == 0 then Ok(NoStatements)
    else UpdatePairChecked(schema, table, data, pairs, columns, indexes, safeMode, fit)
  }

  /** The first pair's lengths are checked before anything is generated for it: the two images
      against each other, then the old image against the table. */
  function UpdatePairChecked(schema: string, table: string, data: seq<seq<Value>>, pairs: nat, columns: seq<Column>,
                             indexes: seq<Index>, safeMode: bool, fit: seq<Column>): Result<Batch, Error>
    requires |data| == 2 * pairs && pairs > 0
    requires IndexesInRange(indexes, |columns|) && ColumnsIn(fit, |columns|)
    decreases pairs, 1
  {
    if |data[0]| != |data[1]| then Err(UpdatePairMismatch(|data[0]|, |data[1]|))
    else if |data[0]| != |columns| then Err(ColumnDataMismatch(|columns|, |data[0]|))
    else UpdatePairThenRun(schema, table, data, pairs, columns, indexes, safeMode, fit)
  }

  /** An update run whose first pair is well formed: that pair's statements, keyed by the index
      carried to it, then the run over the remaining pairs. */
  function UpdatePairThenRun(schema: string, table: string, data: seq<seq<Value>>, pairs: nat, columns: seq<Column>,
                             indexes: seq<Index>, safeMode: bool, fit: seq<Column>): Result<Batch, Error>
    requires |data| == 2 * pairs && pairs > 0
    requires |data[0]| == |columns| && |data[1]| == |columns|
    requires IndexesInRange(indexes, |columns|) && ColumnsIn(fit, |columns|)
    decreases pairs, 0
  {
    var oldValues := CastRow(data[0], columns);
    var changedValues := CastRow(data[1], columns);
    var next := NextFit(fit, indexes, oldValues);
    Then(UpdateStatements(schema, table, columns, indexes, oldValues, changedValues, next, safeMode),
         UpdateRun(schema, table, data[2..], pairs - 1, columns, indexes, safeMode, next))
  }

  /** An update batch: the run started from the schema-level index choice. */
  function UpdateBatch(schema: string, table: string, data: seq<seq<Value>>, columns: seq<Column>,
                       indexes: seq<Index>, safeMode: bool): Result<Batch, Error>
    requires |data| % 2 == 0
    requires IndexesInRange(indexes, |columns|)
  {
    FitIndexInRange(indexes, |columns|);
    UpdateRun(schema, table, data, |data| / 2, columns, indexes, safeMode, FindFitIndex(indexes))
  }

  /** One step of an update run: once the first pair's statements are appended, the rest of
      the run is keyed from the index carried past that pair. */
  lemma UpdateRunStep(schema: string, table: string, data: seq<seq<Value>>, pairs: nat, columns: seq<Column>,
                      indexes: seq<Index>, safeMode: bool, fit: seq<Column>, done: Batch,
                      oldData: seq<Value>, changedData: seq<Value>, next: seq<Column>, b: Batch,
                      target: Result<Batch, Error>)
    requires |data| == 2 * pairs && pairs > 0 && data[0] == oldData && data[1] == changedData
    requires IndexesInRange(indexes, |columns|) && ColumnsIn(fit, |columns|) && ColumnsIn(next, |columns|)
    requires |oldData| == |columns| && |changedData| == |columns|
    requires next == NextFit(fit, indexes, CastRow(oldData, columns))
    requires b == Append(done, UpdateStatements(schema, table, columns, indexes, CastRow(oldData, columns),
                                                CastRow(changedData, columns), next, safeMode))
    requires Then(done, UpdateRun(schema, table, data, pairs, columns, indexes, safeMode, fit)) == target
    ensures Then(b, UpdateRun(schema, table, data[2..], pairs - 1, columns, indexes, safeMode, next)) == target
  {
    var step := UpdateStatements(schema, table, columns, indexes, CastRow(oldData, columns),
                                 CastRow(changedData, columns), next, safeMode);
    assert UpdateRun(schema, table, data, pairs, columns, indexes, safeMode, fit)
           == UpdatePairChecked(schema, table, data, pairs, columns, indexes, safeMode, fit)
           == UpdatePairThenRun(schema, table, data, pairs, columns, indexes, safeMode, fit)
           == Then(step, UpdateRun(schema, table, data[2..], pairs - 1, columns, indexes, safeMode, next));
    ThenAppend(done, step, UpdateRun(schema, table, data[2..], pairs - 1, columns, indexes, safeMode, next));
  }

  /** Position of the first (old, changed) pair in which an image does not have `n` values
      (`pairs` when every pair is well formed). */
  function FirstBadPair(data: seq<seq<Value>>, pairs: nat, n: nat): (p: nat)
    requires |data| == 2 * pairs
    ensures p <= pairs
    decreases pairs
  {
    if pairs == 0 || |data[0]| != n || |data[1]| != n then 0
    else 1 + FirstBadPair(data[2..], pairs - 1, n)
  }

  /** The pairs before `FirstBadPair` are well formed and the pair it names is not. */
  lemma {:induction false} FirstBadPairFirst(data: seq<seq<Value>>, pairs: nat, n: nat, q: nat)
    requires |data| == 2 * pairs && q < pairs
    ensures q < FirstBadPair(data, pairs, n) ==> |data[2 * q]| == n && |data[2 * q + 1]| == n
    ensures q == FirstBadPair(data, pairs, n) ==> |data[2 * q]| != n || |data[2 * q + 1]| != n
    decreases pairs
  {
    if q > 0 && |data[0]| == n && |data[1]| == n {
      FirstBadPairFirst(data[2..], pairs - 1, n, q - 1);
      assert data[2..][2 * (q - 1)] == data[2 * q] && data[2..][2 * (q - 1) + 1] == data[2 * q + 1];
    }
  }

  /** An update run whose first pair is well formed fails exactly when the run over the
      remaining pairs fails, with its error; otherwise it is that pair's statements followed by
      the rest. */
  lemma UpdateRunTail(schema: string, table: string, data: seq<seq<Value>>, pairs: nat, columns: seq<Column>,
                      indexes: seq<Index>, safeMode: bool, fit: seq<Column>)
    requires |data| == 2 * pairs && pairs > 0
    requires |data[0]| == |columns| && |data[1]| == |columns|
    requires IndexesInRange(indexes, |columns|) && ColumnsIn(fit, |columns|)
    ensures var next := NextFit(fit, indexes, CastRow(data[0], columns));
            var r := UpdateRun(schema, table, data, pairs, columns, indexes, safeMode, fit);
            var rest := UpdateRun(schema, table, data[2..], pairs - 1, columns, indexes, safeMode, next);
            && (r.Err? <==> rest.Err?)
            && (rest.Err? ==> r.error == rest.error)
            && (rest.Ok? ==> r.value == Append(UpdateStatements(schema, table, columns, indexes, CastRow(data[0], columns),
                                                                CastRow(data[1], columns), next, safeMode), rest.value))
  {
    assert UpdateRun(schema, table, data, pairs, columns, indexes, safeMode, fit)
           == UpdatePairChecked(schema, table, data, pairs, columns, indexes, safeMode, fit)
           == UpdatePairThenRun(schema, table, data, pairs, columns, indexes, safeMode, fit);
  }

  /** Dropping a well-formed first pair keeps every image the right width or not. */
  lemma RowsMatchPairTail(data: seq<seq<Value>>, n: nat)
    requires |data| >= 2 && |data[0]| == n && |data[1]| == n
    ensures RowsMatch(data, n) <==> RowsMatch(data[2..], n)
  {
    assert forall i :: 2 <= i < |data| ==> data[i] == data[2..][i - 2];
  }

  /** An update batch fails exactly when some image has the wrong width. */
  lemma {:induction false} UpdateRunFails(schema: string, table: string, data: seq<seq<Value>>, pairs: nat,
                                          columns: seq<Column>, indexes: seq<Index>, safeMode: bool, fit: seq<Column>)
    requires |data| == 2 * pairs
    requires IndexesInRange(indexes, |columns|) && ColumnsIn(fit, |columns|)
    ensures UpdateRun(schema, table, data, pairs, columns, indexes, safeMode, fit).Err? <==> !RowsMatch(data, |columns|)
    decreases pairs
  {
    if pairs == 0 {
      assert RowsMatch(data, |columns|);
    } else if |data[0]| != |columns| || |data[1]| != |columns| {
      assert !RowsMatch(data, |columns|);
    } else {
      var next := NextFit(fit, indexes, CastRow(data[0], columns));
      UpdateRunTail(schema, table, data, pairs, columns, indexes, safeMode, fit);
      UpdateRunFails(schema, table, data[2..], pairs - 1, columns, indexes, safeMode, next);
      RowsMatchPairTail(data, |columns|);
    }
  }

  /** The error of a failed update batch comes from its first bad pair: the two lengths when
      they differ, otherwise the table's width and the old image's. */
  lemma {:induction false} UpdateRunError(schema: string, table: string, data: seq<seq<Value>>, pairs: nat,
                                          columns: seq<Column>, indexes: seq<Index>, safeMode: bool, fit: seq<Column>)
    requires |data| == 2 * pairs
    requires IndexesInRange(indexes, |columns|) && ColumnsIn(fit, |columns|)
    ensures UpdateRun(schema, table, data, pairs, columns, indexes, safeMode, fit).Err? ==>
              var p := FirstBadPair(data, pairs, |columns|);
              && p < pairs
              && UpdateRun(schema, table, data, pairs, columns, indexes, safeMode, fit).error ==
                 if |data[2 * p]| != |data[2 * p + 1]| then UpdatePairMismatch(|data[2 * p]|, |data[2 * p + 1]|)
                 else ColumnDataMismatch(|columns|, |data[2 * p]|)
    decreases pairs
  {
    if pairs > 0 && |data[0]| == |columns| && |data[1]| == |columns| {
      var next := NextFit(fit, indexes, CastRow(data[0], columns));
      var rest := UpdateRun(schema, table, data[2..], pairs - 1, columns, indexes, safeMode, next);
      UpdateRunTail(schema, table, data, pairs, columns, indexes, safeMode, fit);
      UpdateRunError(schema, table, data[2..], pairs - 1, columns, indexes, safeMode, next);
      if rest.Err? {
        var p' := FirstBadPair(data[2..], pairs - 1, |columns|);
        assert FirstBadPair(data, pairs, |columns|) == p' + 1;
        PairShift(data, p');
      }
    }
  }

  /** Pair `q` of the remaining pairs is pair `q + 1` of the batch. */
  lemma PairShift(data: seq<seq<Value>>, q: nat)
    requires 2 * q + 3 < |data|
    ensures data[2..][2 * q] == data[2 * (q + 1)] && data[2..][2 * q + 1] == data[2 * (q + 1) + 1]
  {
  }

  /** A well-formed update batch: two statements per pair in safe mode; otherwise one per pair,
      or none at all when the table has no column. */
  lemma {:induction false} UpdateRunLength(schema: string, table: string, data: seq<seq<Value>>, pairs: nat,
                                           columns: seq<Column>, indexes: seq<Index>, safeMode: bool, fit: seq<Column>)
    requires |data| == 2 * pairs
    requires IndexesInRange(indexes, |columns|) && ColumnsIn(fit, |columns|)
    requires RowsMatch(data, |columns|)
    ensures UpdateRun(schema, table, data, pairs, columns, indexes, safeMode, fit).Ok?
    ensures var b := UpdateRun(schema, table, data, pairs, columns, indexes, safeMode, fit).value;
            && |b.keys| == |b.sqls| && |b.values| == |b.sqls|
            && |b.sqls| == (if safeMode then 2 * pairs else if |columns| == 0 then 0 else pairs)
    decreases pairs
  {
    if pairs > 0 {
      var next := NextFit(fit, indexes, CastRow(data[0], columns));
      UpdateRunTail(schema, table, data, pairs, columns, indexes, safeMode, fit);
      RowsMatchPairTail(data, |columns|);
      UpdateRunLength(schema, table, data[2..], pairs - 1, columns, indexes, safeMode, next);
    }
  }

  /** The old images of a well-formed update batch, cast: the rows the keying index is looked
      up from. */
  function OldImages(data: seq<seq<Value>>, pairs: nat, columns: seq<Column>): (images: seq<seq<Value>>)
    requires |data| == 2 * pairs && RowsMatch(data, |columns|)
    ensures |images| == pairs && RowsMatch(images, |columns|)
  {
    seq(pairs, p requires 0 <= p < pairs => CastRow(data[2 * p], columns))
  }

  lemma OldImagesTail(data: seq<seq<Value>>, pairs: nat, columns: seq<Column>)
    requires |data| == 2 * pairs && pairs > 0 && RowsMatch(data, |columns|)
    ensures RowsMatch(data[2..], |columns|)
    ensures OldImages(data, pairs, columns)[0] == CastRow(data[0], columns)
    ensures OldImages(data, pairs, columns)[1..] == OldImages(data[2..], pairs - 1, columns)
  {
    assert RowsMatch(data[2..], |columns|);
    var a := OldImages(data, pairs, columns)[1..];
    var b := OldImages(data[2..], pairs - 1, columns);
    forall q | 0 <= q < pairs - 1 ensures a[q] == b[q] {
      assert data[2..][2 * q] == data[2 * (q + 1)];
    }
  }

  /** Batches one after the other. */
  function Concat(bs: seq<Batch>): Batch
  {
    if |bs| == 0 then NoStatements else Append(bs[0], Concat(bs[1..]))
  }

  lemma MulSucc(m: nat, n: nat)
    ensures m * (n + 1) == m * n + m
  {
  }

  /** Concatenated batches of `m` statements each hold `m` statements per batch. */
  lemma {:induction false} ConcatLength(bs: seq<Batch>, m: nat)
    requires forall k :: 0 <= k < |bs| ==> |bs[k].sqls| == m && |bs[k].keys| == m && |bs[k].values| == m
    ensures |Concat(bs).sqls| == m * |bs| && |Concat(bs).keys| == m * |bs| && |Concat(bs).values| == m * |bs|
  {
    if |bs| > 0 {
      ConcatLength(bs[1..], m);
      MulSucc(m, |bs| - 1);
    }
  }

  /** ... and statement `j` of batch `p` sits at `m * p + j`. */
  lemma {:induction false} ConcatUniform(bs: seq<Batch>, m: nat, p: nat, j: nat, i: nat)
    requires forall k :: 0 <= k < |bs| ==> |bs[k].sqls| == m && |bs[k].keys| == m && |bs[k].values| == m
    requires p < |bs| && j < m && i == m * p + j
    ensures |Concat(bs).sqls| == m * |bs| && |Concat(bs).keys| == m * |bs| && |Concat(bs).values| == m * |bs|
    ensures i < |Concat(bs).sqls|
    ensures Concat(bs).sqls[i] == bs[p].sqls[j]
    ensures Concat(bs).keys[i] == bs[p].keys[j]
    ensures Concat(bs).values[i] == bs[p].values[j]
  {
    ConcatLength(bs, m);
    var rest := bs[1..];
    ConcatLength(rest, m);
    if p > 0 {
      MulSucc(m, p - 1);
      assert rest[p - 1] == bs[p];
      ConcatUniform(rest, m, p - 1, j, i - m);
    } else {
      assert i == j;
    }
  }

  /** The statements of pair `p` of a well-formed update batch, keyed by the index carried to
      its old image from `fit`. */
  function PairStatements(schema: string, table: string, data: seq<seq<Value>>, pairs: nat, columns: seq<Column>,
                          indexes: seq<Index>, safeMode: bool, fit: seq<Column>, p: nat): Batch
    requires |data| == 2 * pairs && RowsMatch(data, |columns|) && p < pairs
    requires IndexesInRange(indexes, |columns|) && ColumnsIn(fit, |columns|)
  {
    var images := OldImages(data, pairs, columns);
    UpdateStatements(schema, table, columns, indexes, images[p], CastRow(data[2 * p + 1], columns),
                     FitTrace(indexes, |columns|, images, fit)[p], safeMode)
  }

  /** The statements of one pair, by mode: DELETE then REPLACE in safe mode; otherwise one
      UPDATE, or nothing for a table with no column. */
  lemma PairStatementsShape(schema: string, table: string, data: seq<seq<Value>>, pairs: nat, columns: seq<Column>,
                            indexes: seq<Index>, safeMode: bool, fit: seq<Column>, p: nat)
    requires |data| == 2 * pairs && RowsMatch(data, |columns|) && p < pairs
    requires IndexesInRange(indexes, |columns|) && ColumnsIn(fit, |columns|)
    ensures var s := PairStatements(schema, table, data, pairs, columns, indexes, safeMode, fit, p);
            var oldValues := CastRow(data[2 * p], columns);
            var changedValues := CastRow(data[2 * p + 1], columns);
            var f := FitTrace(indexes, |columns|, OldImages(data, pairs, columns), fit)[p];
            var ks := MultipleKeys(oldValues, indexes) + MultipleKeys(changedValues, indexes);
            if safeMode then
              s == Batch([DeleteSQL(schema, table, oldValues, columns, f), InsertSQL(schema, table, columns)],
                         [ks, ks], [WhereValues(oldValues, f), changedValues])
            else if |columns| == 0 then s == NoStatements
            else s == Batch([UpdateSQL(schema, table, columns, oldValues, f)], [ks],
                            [changedValues + WhereValues(oldValues, f)])
  {
  }

  function AllPairStatements(schema: string, table: string, data: seq<seq<Value>>, pairs: nat, columns: seq<Column>,
                             indexes: seq<Index>, safeMode: bool, fit: seq<Column>): (bs: seq<Batch>)
    requires |data| == 2 * pairs && RowsMatch(data, |columns|)
    requires IndexesInRange(indexes, |columns|) && ColumnsIn(fit, |columns|)
    ensures |bs| == pairs
  {
    seq(pairs, p requires 0 <= p < pairs => PairStatements(schema, table, data, pairs, columns, indexes, safeMode, fit, p))
  }

  lemma AllPairStatementsTail(schema: string, table: string, data: seq<seq<Value>>, pairs: nat, columns: seq<Column>,
                              indexes: seq<Index>, safeMode: bool, fit: seq<Column>)
    requires |data| == 2 * pairs && RowsMatch(data, |columns|) && pairs > 0
    requires IndexesInRange(indexes, |columns|) && ColumnsIn(fit, |columns|)
    ensures RowsMatch(data[2..], |columns|)
    ensures var next := NextFit(fit, indexes, CastRow(data[0], columns));
            var bs := AllPairStatements(schema, table, data, pairs, columns, indexes, safeMode, fit);
            && bs[0] == UpdateStatements(schema, table, columns, indexes, CastRow(data[0], columns),
                                         CastRow(data[1], columns), next, safeMode)
            && bs[1..] == AllPairStatements(schema, table, data[2..], pairs - 1, columns, indexes, safeMode, next)
  {
    var next := NextFit(fit, indexes, CastRow(data[0], columns));
    OldImagesTail(data, pairs, columns);
    var images := OldImages(data, pairs, columns);
    var trace := FitTrace(indexes, |columns|, images, fit);
    var trace' := FitTrace(indexes, |columns|, images[1..], next);
    assert trace == [next] + trace';
    var a := AllPairStatements(schema, table, data, pairs, columns, indexes, safeMode, fit)[1..];
    var b := AllPairStatements(schema, table, data[2..], pairs - 1, columns, indexes, safeMode, next);
    forall q | 0 <= q < pairs - 1 ensures a[q] == b[q] {
      PairStatementsShift(schema, table, data, pairs, columns, indexes, safeMode, fit, q);
    }
  }

  /** Pair `q + 1` of a batch is pair `q` of the remaining pairs, keyed from the index carried
      past the first. */
  lemma PairStatementsShift(schema: string, table: string, data: seq<seq<Value>>, pairs: nat, columns: seq<Column>,
                            indexes: seq<Index>, safeMode: bool, fit: seq<Column>, q: nat)
    requires |data| == 2 * pairs && RowsMatch(data, |columns|) && q + 1 < pairs
    requires IndexesInRange(indexes, |columns|) && ColumnsIn(fit, |columns|)
    requires RowsMatch(data[2..], |columns|)
    ensures var next := NextFit(fit, indexes, CastRow(data[0], columns));
            PairStatements(schema, table, data, pairs, columns, indexes, safeMode, fit, q + 1)
            == PairStatements(schema, table, data[2..], pairs - 1, columns, indexes, safeMode, next, q)
  {
    var next := NextFit(fit, indexes, CastRow(data[0], columns));
    OldImagesTail(data, pairs, columns);
    var images := OldImages(data, pairs, columns);
    var images' := OldImages(data[2..], pairs - 1, columns);
    var trace := FitTrace(indexes, |columns|, images, fit);
    var trace' := FitTrace(indexes, |columns|, images', next);
    assert trace == [next] + trace';
    PairShift(data, q);
    assert images[q + 1] == images'[q] && trace[q + 1] == trace'[q];
  }

  /** Every pair contributes the same number of statements: two in safe mode, otherwise one,
      or none for a table with no column. */
  lemma AllPairStatementsWidth(schema: string, table: string, data: seq<seq<Value>>, pairs: nat, columns: seq<Column>,
                               indexes: seq<Index>, safeMode: bool, fit: seq<Column>)
    requires |data| == 2 * pairs && RowsMatch(data, |columns|)
    requires IndexesInRange(indexes, |columns|) && ColumnsIn(fit, |columns|)
    ensures var bs := AllPairStatements(schema, table, data, pairs, columns, indexes, safeMode, fit);
            var m := if safeMode then 2 else if |columns| == 0 then 0 else 1;
            forall k :: 0 <= k < |bs| ==> |bs[k].sqls| == m && |bs[k].keys| == m && |bs[k].values| == m
  {
    var bs := AllPairStatements(schema, table, data, pairs, columns, indexes, safeMode, fit);
    forall k | 0 <= k < |bs|
      ensures var m := if safeMode then 2 else if |columns| == 0 then 0 else 1;
              |bs[k].sqls| == m && |bs[k].keys| == m && |bs[k].values| == m
    {
      PairStatementsShape(schema, table, data, pairs, columns, indexes, safeMode, fit, k);
    }
  }

  /** A well-formed update batch is, pair by pair in order, the statements of each pair keyed
      by the index carried to it. */
  lemma {:induction false} UpdateRunConcat(schema: string, table: string, data: seq<seq<Value>>, pairs: nat,
                                           columns: seq<Column>, indexes: seq<Index>, safeMode: bool, fit: seq<Column>)
    requires |data| == 2 * pairs
    requires IndexesInRange(indexes, |columns|) && ColumnsIn(fit, |columns|)
    requires RowsMatch(data, |columns|)
    ensures UpdateRun(schema, table, data, pairs, columns, indexes, safeMode, fit)
            == Ok(Concat(AllPairStatements(schema, table, data, pairs, columns, indexes, safeMode, fit)))
    decreases pairs
  {
    if pairs > 0 {
      var next := NextFit(fit, indexes, CastRow(data[0], columns));
      UpdateRunTail(schema, table, data, pairs, columns, indexes, safeMode, fit);
      AllPairStatementsTail(schema, table, data, pairs, columns, indexes, safeMode, fit);
      UpdateRunConcat(schema, table, data[2..], pairs - 1, columns, indexes, safeMode, next);
    }
  }

  /** Pair `p` of a well-formed update batch in safe mode starts with a DELETE at `2p`: the
      old image located by the index carried to that pair, carrying the keys of the old and
      the new image under every index. */
  lemma UpdateRunSafeDelete(schema: string, table: string, data: seq<seq<Value>>, pairs: nat,
                            columns: seq<Column>, indexes: seq<Index>, fit: seq<Column>, p: nat)
    requires |data| == 2 * pairs
    requires IndexesInRange(indexes, |columns|) && ColumnsIn(fit, |columns|)
    requires RowsMatch(data, |columns|) && p < pairs
    ensures UpdateRun(schema, table, data, pairs, columns, indexes, true, fit).Ok?
    ensures var b := UpdateRun(schema, table, data, pairs, columns, indexes, true, fit).value;
            var oldValues := CastRow(data[2 * p], columns);
            var changedValues := CastRow(data[2 * p + 1], columns);
            var f := FitTrace(indexes, |columns|, OldImages(data, pairs, columns), fit)[p];
            && |b.sqls| == 2 * pairs && |b.keys| == 2 * pairs && |b.values| == 2 * pairs
            && b.sqls[2 * p] == DeleteSQL(schema, table, oldValues, columns, f)
            && b.values[2 * p] == WhereValues(oldValues, f)
            && b.keys[2 * p] == MultipleKeys(oldValues, indexes) + MultipleKeys(changedValues, indexes)
            && |b.keys[2 * p]| == 2 * |indexes|
  {
    UpdateRunConcat(schema, table, data, pairs, columns, indexes, true, fit);
    var bs := AllPairStatements(schema, table, data, pairs, columns, indexes, true, fit);
    AllPairStatementsWidth(schema, table, data, pairs, columns, indexes, true, fit);
    ConcatUniform(bs, 2, p, 0, 2 * p);
    var b := Concat(bs);
    assert b.sqls[2 * p] == bs[p].sqls[0] && b.keys[2 * p] == bs[p].keys[0] && b.values[2 * p] == bs[p].values[0];
    PairStatementsShape(schema, table, data, pairs, columns, indexes, true, fit, p);
  }

  /** ... followed at `2p + 1` by a REPLACE of the new image into every column, carrying the
      same keys. */
  lemma UpdateRunSafeReplace(schema: string, table: string, data: seq<seq<Value>>, pairs: nat,
                             columns: seq<Column>, indexes: seq<Index>, fit: seq<Column>, p: nat)
    requires |data| == 2 * pairs
    requires IndexesInRange(indexes, |columns|) && ColumnsIn(fit, |columns|)
    requires RowsMatch(data, |columns|) && p < pairs
    ensures UpdateRun(schema, table, data, pairs, columns, indexes, true, fit).Ok?
    ensures var b := UpdateRun(schema, table, data, pairs, columns, indexes, true, fit).value;
            var oldValues := CastRow(data[2 * p], columns);
            var changedValues := CastRow(data[2 * p + 1], columns);
            && |b.sqls| == 2 * pairs && |b.keys| == 2 * pairs && |b.values| == 2 * pairs
            && b.sqls[2 * p + 1] == InsertSQL(schema, table, columns)
            && b.values[2 * p + 1] == changedValues
            && b.keys[2 * p + 1] == MultipleKeys(oldValues, indexes) + MultipleKeys(changedValues, indexes)
  {
    UpdateRunConcat(schema, table, data, pairs, columns, indexes, true, fit);
    var bs := AllPairStatements(schema, table, data, pairs, columns, indexes, true, fit);
    AllPairStatementsWidth(schema, table, data, pairs, columns, indexes, true, fit);
    ConcatUniform(bs, 2, p, 1, 2 * p + 1);
    var b := Concat(bs);
    assert b.sqls[2 * p + 1] == bs[p].sqls[1] && b.keys[2 * p + 1] == bs[p].keys[1];
    assert b.values[2 * p + 1] == bs[p].values[1];
    PairStatementsShape(schema, table, data, pairs, columns, indexes, true, fit, p);
  }

  /** Pair `p` of a well-formed update batch outside safe mode, for a table with columns: one
      UPDATE that sets every column and locates the old image by the index carried to that
      pair, binding the new image followed by the old image's WHERE values, and carrying the
      keys of both images. */
  lemma UpdateRunPlainPair(schema: string, table: string, data: seq<seq<Value>>, pairs: nat,
                           columns: seq<Column>, indexes: seq<Index>, fit: seq<Column>, p: nat)
    requires |data| == 2 * pairs
    requires IndexesInRange(indexes, |columns|) && ColumnsIn(fit, |columns|)
    requires RowsMatch(data, |columns|) && p < pairs && |columns| > 0
    ensures UpdateRun(schema, table, data, pairs, columns, indexes, false, fit).Ok?
    ensures var b := UpdateRun(schema, table, data, pairs, columns, indexes, false, fit).value;
            var oldValues := CastRow(data[2 * p], columns);
            var changedValues := CastRow(data[2 * p + 1], columns);
            var f := FitTrace(indexes, |columns|, OldImages(data, pairs, columns), fit)[p];
            && |b.sqls| == pairs && |b.keys| == pairs && |b.values| == pairs
            && b.sqls[p] == UpdateSQL(schema, table, columns, oldValues, f)
            && b.values[p] == changedValues + WhereValues(oldValues, f)
            && b.keys[p] == MultipleKeys(oldValues, indexes) + MultipleKeys(changedValues, indexes)
            && |b.keys[p]| == 2 * |indexes|
  {
    UpdateRunConcat(schema, table, data, pairs, columns, indexes, false, fit);
    var bs := AllPairStatements(schema, table, data, pairs, columns, indexes, false, fit);
    AllPairStatementsWidth(schema, table, data, pairs, columns, indexes, false, fit);
    ConcatUniform(bs, 1, p, 0, p);
    var b := Concat(bs);
    assert b.sqls[p] == bs[p].sqls[0] && b.keys[p] == bs[p].keys[0] && b.values[p] == bs[p].values[0];
    PairStatementsShape(schema, table, data, pairs, columns, indexes, false, fit, p);
  }

  /** The body of `genUpdateSQLs` for one well-formed pair: casts both images, carries the
      keying index forward, and appends the pair's statements to the batch built so far. */
  method GenPairSQLs(schema: string, table: string, columns: seq<Column>, indexes: seq<Index>,
                     oldData: seq<Value>, changedData: seq<Value>, defaultIndexColumns: seq<Column>,
                     safeMode: bool, columnList: string, columnPlaceholders: string, done: Batch)
    returns (b: Batch, nextIndexColumns: seq<Column>)
    requires |oldData| == |columns| && |changedData| == |columns|
    requires IndexesInRange(indexes, |columns|) && ColumnsIn(defaultIndexColumns, |columns|)
    requires columnList == ColumnList(columns) && columnPlaceholders == Placeholders(|columns|)
    ensures nextIndexColumns == NextFit(defaultIndexColumns, indexes, CastRow(oldData, columns))
    ensures ColumnsIn(nextIndexColumns, |columns|)
    ensures b == Append(done, UpdateStatements(schema, table, columns, indexes, CastRow(oldData, columns),
                                               CastRow(changedData, columns), nextIndexColumns, safeMode))
  {
    var oldValues := CastValues(oldData, columns);
    var changedValues := CastValues(changedData, columns);
    nextIndexColumns := defaultIndexColumns;
    if |nextIndexColumns| == 0 {
      nextIndexColumns := GetAvailableIndexColumn(indexes, oldValues);
    }
    var ks := GenMultipleKeys(columns, oldValues, indexes);
    var changedKeys := GenMultipleKeys(columns, changedValues, indexes);
    ks := ks + changedKeys;
    if safeMode {
      b := GenSafeModePair(schema, table, columns, indexes, oldValues, changedValues, ks,
                           nextIndexColumns, columnList, columnPlaceholders, done);
    } else {
      b := GenUpdatePair(schema, table, columns, indexes, oldValues, changedValues, ks, nextIndexColumns, done);
    }
  }

  /** One turn of the `genUpdateSQLs` loop over a well-formed first pair: its statements are
      appended and the index carried past it is returned, so that what is left of the run,
      after the statements built so far, is still the whole batch's outcome. */
  method GenNextPair(schema: string, table: string, ghost rest: seq<seq<Value>>, ghost left: nat,
                     columns: seq<Column>, indexes: seq<Index>, safeMode: bool,
                     oldData: seq<Value>, changedData: seq<Value>, defaultIndexColumns: seq<Column>,
                     columnList: string, columnPlaceholders: string, done: Batch,
                     ghost target: Result<Batch, Error>)
    returns (b: Batch, nextIndexColumns: seq<Column>)
    requires |rest| == 2 * left && left > 0 && rest[0] == oldData && rest[1] == changedData
    requires |oldData| == |columns| && |changedData| == |columns|
    requires IndexesInRange(indexes, |columns|) && ColumnsIn(defaultIndexColumns, |columns|)
    requires columnList == ColumnList(columns) && columnPlaceholders == Placeholders(|columns|)
    requires Then(done, UpdateRun(schema, table, rest, left, columns, indexes, safeMode, defaultIndexColumns)) == target
    ensures ColumnsIn(nextIndexColumns, |columns|)
    ensures Then(b, UpdateRun(schema, table, rest[2..], left - 1, columns, indexes, safeMode, nextIndexColumns)) == target
  {
    b, nextIndexColumns := GenPairSQLs(schema, table, columns, indexes, oldData, changedData,
                                       defaultIndexColumns, safeMode, columnList, columnPlaceholders, done);
    UpdateRunStep(schema, table, rest, left, columns, indexes, safeMode, defaultIndexColumns, done,
                  oldData, changedData, nextIndexColumns, b, target);
  }

  /** Safe mode: a DELETE of the old image followed by a REPLACE of the new one. */
  method GenSafeModePair(schema: string, table: string, columns: seq<Column>, indexes: seq<Index>,
                         oldValues: seq<Value>, changedValues: seq<Value>, ks: seq<string>,
                         indexColumns: seq<Column>, columnList: string, columnPlaceholders: string, done: Batch)
    returns (b: Batch)
    requires |oldValues| == |columns| && |changedValues| == |columns|
    requires IndexesInRange(indexes, |columns|) && ColumnsIn(indexColumns, |columns|)
    requires ks == MultipleKeys(oldValues, indexes) + MultipleKeys(changedValues, indexes)
    requires columnList == ColumnList(columns) && columnPlaceholders == Placeholders(|columns|)
    ensures b == Append(done, UpdateStatements(schema, table, columns, indexes, oldValues, changedValues,
                                               indexColumns, true))
  {
    var sqls, keys, values := done.sqls, done.keys, done.values;
    var sql, value := GenDeleteSQL(schema, table, oldValues, columns, indexColumns);
    sqls := sqls + [sql];
    values := values + [value];
    keys := keys + [ks];
    sql := "REPLACE INTO " + TableName(schema, table) + " (" + columnList + ") VALUES (" +
           columnPlaceholders + ");";
    sqls := sqls + [sql];
    values := values + [changedValues];
    keys := keys + [ks];
    b := Batch(sqls, keys, values);
    assert sqls == done.sqls + [DeleteSQL(schema, table, oldValues, columns, indexColumns), InsertSQL(schema, table, columns)];
    assert keys == done.keys + [ks, ks];
    assert values == done.values + [WhereValues(oldValues, indexColumns), changedValues];
  }

  /** Outside safe mode: one UPDATE setting every column, located by the old image; nothing
      when the table has no column. */
  method GenUpdatePair(schema: string, table: string, columns: seq<Column>, indexes: seq<Index>,
                       oldValues: seq<Value>, changedValues: seq<Value>, ks: seq<string>,
                       indexColumns: seq<Column>, done: Batch)
    returns (b: Batch)
    requires |oldValues| == |columns| && |changedValues| == |columns|
    requires IndexesInRange(indexes, |columns|) && ColumnsIn(indexColumns, |columns|)
    requires ks == MultipleKeys(oldValues, indexes) + MultipleKeys(changedValues, indexes)
    ensures b == Append(done, UpdateStatements(schema, table, columns, indexes, oldValues, changedValues,
                                               indexColumns, false))
  {
    var updateColumns: seq<Column> := [];
    var updateValues: seq<Value> := [];
    var j := 0;
    while j < |oldValues|
      invariant 0 <= j <= |oldValues|
      invariant updateColumns == columns[..j] && updateValues == changedValues[..j]
    {
      updateColumns := updateColumns + [columns[j]];
      updateValues := updateValues + [changedValues[j]];
      j := j + 1;
    }
    assert updateColumns == columns && updateValues == changedValues;
    if |updateColumns| == 0 {
      assert Append(done, NoStatements) == done;
      return done;
    }
    var kvs := GenKVs(updateColumns);
    var value := updateValues;
    var whereColumns, whereValues := columns, oldValues;
    if |indexColumns| > 0 {
      whereColumns, whereValues := GetColumnData(columns, indexColumns, oldValues);
    }
    var where := GenWhere(whereColumns, whereValues);
    value := value + whereValues;
    var sql := "UPDATE " + TableName(schema, table) + " SET " + kvs + " WHERE " + where + " LIMIT 1;";
    b := Batch(done.sqls + [sql], done.keys + [ks], done.values + [value]);
  }

  /** `genUpdateSQLs`: walks the batch two images at a time, as specified by `UpdateRun`. */
  method GenUpdateSQLs(schema: string, table: string, data: seq<seq<Value>>, columns: seq<Column>,
                       indexes: seq<Index>, safeMode: bool)
    returns (r: Result<Batch, Error>)
    requires |data| % 2 == 0
    requires IndexesInRange(indexes, |columns|)
    ensures r == UpdateBatch(schema, table, data, columns, indexes, safeMode)
  {
    var columnList := GenColumnList(columns);
    var columnPlaceholders := GenColumnPlaceholders(|columns|);
    FitIndexInRange(indexes, |columns|);
    var defaultIndexColumns := FindFitIndex(indexes);
    r := GenUpdatePairs(schema, table, data, |data| / 2, columns, indexes, safeMode,
                        defaultIndexColumns, columnList, columnPlaceholders);
  }

  /** The loop of `genUpdateSQLs` over the `pairs` (old, changed) pairs of `data`, starting
      from the keying index `fit0`; `rest` holds the pairs not yet visited (the Go loop's
      `data[i:]`). */
  method GenUpdatePairs(schema: string, table: string, data: seq<seq<Value>>, pairs: nat, columns: seq<Column>,
                        indexes: seq<Index>, safeMode: bool, fit0: seq<Column>,
                        columnList: string, columnPlaceholders: string)
    returns (r: Result<Batch, Error>)
    requires |data| == 2 * pairs
    requires IndexesInRange(indexes, |columns|) && ColumnsIn(fit0, |columns|)
    requires columnList == ColumnList(columns) && columnPlaceholders == Placeholders(|columns|)
    ensures r == UpdateRun(schema, table, data, pairs, columns, indexes, safeMode, fit0)
  {
    var done := NoStatements;
    var defaultIndexColumns := fit0;
    var rest := data;
    ghost var left := pairs;
    ghost var target := UpdateRun(schema, table, data, pairs, columns, indexes, safeMode, fit0);
    ThenNothing(done, target);
    while |rest| > 0
      invariant |rest| == 2 * left
      invariant ColumnsIn(defaultIndexColumns, |columns|)
      invariant Then(done, UpdateRun(schema, table, rest, left, columns, indexes, safeMode, defaultIndexColumns)) == target
      decreases left
    {
      var oldData := rest[0];
      var changedData := rest[1];
      if |oldData| != |changedData| {
        return Err(UpdatePairMismatch(|oldData|, |changedData|));
      }
      if |oldData| != |columns| {
        return Err(ColumnDataMismatch(|columns|, |oldData|));
      }
      done, defaultIndexColumns := GenNextPair(schema, table, rest, left, columns, indexes, safeMode,
                                               oldData, changedData, defaultIndexColumns,
                                               columnList, columnPlaceholders, done, target);
      rest := rest[2..];
      left := left - 1;
    }
    ThenNothing(done, Ok(NoStatements));
    return Ok(done);
  }

  // ---------------------------------------------------------------------------------------
  // Column mapping
  // ---------------------------------------------------------------------------------------

  /** The configured column-mapping rule set, seen from here: it rewrites one row image of a
      table, or fails with a message. Its rules are not part of this model. */
  type RowMapper = (string, string, seq<string>, seq<Value>) -> Result<seq<Value>, string>

  /** `mappingDML`: without a mapping the rows pass through untouched; otherwise every row is
      rewritten in order, and the first row the mapping rejects aborts the batch with its error. */
  method MappingDML(schema: string, table: string, columns: seq<string>, data: seq<seq<Value>>,
                    columnMapping: Option<RowMapper>)
    returns (r: Result<seq<seq<Value>>, string>)
    ensures columnMapping.None? ==> r == Ok(data)
    ensures columnMapping.Some? ==>
              var f := columnMapping.value;
              && (r.Ok? <==> forall i :: 0 <= i < |data| ==> f(schema, table, columns, data[i]).Ok?)
              && (r.Ok? ==> |r.value| == |data| &&
                            forall i :: 0 <= i < |data| ==> r.value[i] == f(schema, table, columns, data[i]).value)
              && (r.Err? ==> exists k :: 0 <= k < |data| && f(schema, table, columns, data[k]) == Err(r.error)
                                         && forall i :: 0 <= i < k ==> f(schema, table, columns, data[i]).Ok?)
  {
    if columnMapping.None? {
      return Ok(data);
    }
    var f := columnMapping.value;
    var rows: seq<seq<Value>> := [];
    var i := 0;
    while i < |data|
      invariant 0 <= i <= |data| && |rows| == i
      invariant forall j :: 0 <= j < i ==> f(schema, table, columns, data[j]).Ok?
      invariant forall j :: 0 <= j < i ==> rows[j] == f(schema, table, columns, data[j]).value
    {
      var mapped := f(schema, table, columns, data[i]);
      if mapped.Err? {
        return Err(mapped.error);
      }
      rows := rows + [mapped.value];
      i := i + 1;
    }
    return Ok(rows);
  }
}
