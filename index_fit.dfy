/**
 * Choosing the index whose columns key an UPDATE or DELETE: `findFitIndex` (schema-level,
 * once per batch), `getAvailableIndexColumn` (row-level fallback) and the scan they share,
 * `getSpecifiedIndexColumn`.
 */
module IndexFit {
  import opened Values
  import opened Schema

  /** The closure handed to `getSpecifiedIndexColumn`, as data: it rejects a column that is
      nullable in the schema, or one whose value in the given row is nil. */
  datatype Disqualifier = NullableColumn | NullValueIn(row: seq<Value>)

  predicate Disqualifies(d: Disqualifier, c: Column)
  {
    match d
    case NullableColumn => !c.notNull
    case NullValueIn(row) => c.idx < |row| && row[c.idx] == Null
  }

  /** An index the scan accepts: it has columns and none of them is rejected. */
  predicate Usable(cols: seq<Column>, d: Disqualifier)
  {
    |cols| > 0 && forall j :: 0 <= j < |cols| ==> !Disqualifies(d, cols[j])
  }

  /** Position of the first usable index in catalogue order (`|indexes|` when there is none). */
  function FirstUsable(indexes: seq<Index>, d: Disqualifier): (k: nat)
    ensures k <= |indexes|
    ensures k < |indexes| ==> Usable(indexes[k].cols, d)
    ensures forall j :: 0 <= j < k ==> !Usable(indexes[j].cols, d)
  {
    if |indexes| == 0 then 0
    else if Usable(indexes[0].cols, d) then 0
    else
      var k := FirstUsable(indexes[1..], d);
      assert forall j :: 1 <= j < |indexes| ==> indexes[j] == indexes[1..][j - 1];
      1 + k
  }

  /** What `getSpecifiedIndexColumn` returns: the first usable index, or nil. */
  function SpecifiedIndex(indexes: seq<Index>, d: Disqualifier): seq<Column>
  {
    var k := FirstUsable(indexes, d);
    if k < |indexes| then indexes[k].cols else []
  }

  /** `getSpecifiedIndexColumn`: skips empty indexes, tests each column until one is rejected,
      and returns the first index whose columns all pass. */
  method GetSpecifiedIndexColumn(indexes: seq<Index>, d: Disqualifier) returns (cols: seq<Column>)
    ensures cols == SpecifiedIndex(indexes, d)
  {
    var k := 0;
    while k < |indexes|
      invariant 0 <= k <= |indexes|
      invariant forall j :: 0 <= j < k ==> !Usable(indexes[j].cols, d)
    {
      var indexCols := indexes[k].cols;
      if |indexCols| > 0 {
        var fit := true;
        var j := 0;
        while j < |indexCols|
          invariant 0 <= j <= |indexCols|
          invariant fit <==> forall m :: 0 <= m < j ==> !Disqualifies(d, indexCols[m])
        {
          if Disqualifies(d, indexCols[j]) {
            fit := false;
            break;
          }
          j := j + 1;
        }
        if fit {
          return indexCols;
        }
      }
      k := k + 1;
    }
    return [];
  }

  /** `findFitIndex`: the non-empty primary key if there is one, otherwise the first index
      whose columns are all declared NOT NULL, otherwise nil. */
  function FindFitIndex(indexes: seq<Index>): (r: seq<Column>)
    ensures var p := Lookup(indexes, Primary);
            p.Some? && |p.value| > 0 ==> r == p.value
    ensures var p := Lookup(indexes, Primary);
            !(p.Some? && |p.value| > 0) ==>
              && (r == [] <==> forall k :: 0 <= k < |indexes| ==> !SchemaFit(indexes[k].cols))
              && (r != [] ==> exists k :: 0 <= k < |indexes| && indexes[k].cols == r && SchemaFit(r))
  {
    match Lookup(indexes, Primary)
    case Some(cols) =>
      if |cols| > 0 then cols else SpecifiedIndex(indexes, NullableColumn)
    case None =>
      SpecifiedIndex(indexes, NullableColumn)
  }

  /** The schema-level choice is one of the table's indexes (or nil), so it points inside rows
      of the table's width. */
  lemma FitIndexInRange(indexes: seq<Index>, n: nat)
    requires IndexesInRange(indexes, n)
    ensures ColumnsIn(FindFitIndex(indexes), n)
  {
    var r := FindFitIndex(indexes);
    if r != [] {
      var k :| 0 <= k < |indexes| && indexes[k].cols == r;
      assert ColumnsIn(indexes[k].cols, n);
    }
  }

  /** An index that every row can be keyed by: non-empty, all columns NOT NULL. */
  predicate SchemaFit(cols: seq<Column>)
  {
    |cols| > 0 && forall j :: 0 <= j < |cols| ==> cols[j].notNull
  }

  /** An index this particular row can be keyed by: non-empty, no nil value in its columns. */
  predicate RowAvailable(cols: seq<Column>, row: seq<Value>)
  {
    |cols| > 0 && forall j :: 0 <= j < |cols| ==> cols[j].idx < |row| && row[cols[j].idx] != Null
  }

  /** What `getAvailableIndexColumn` returns for a row: the first index with no nil value in
      it, or nil when every index has one. */
  function AvailableIndex(indexes: seq<Index>, row: seq<Value>): (r: seq<Column>)
    requires IndexesInRange(indexes, |row|)
    ensures r == [] <==> forall k :: 0 <= k < |indexes| ==> !RowAvailable(indexes[k].cols, row)
    ensures r != [] ==> exists k :: 0 <= k < |indexes| && indexes[k].cols == r && RowAvailable(r, row)
    ensures ColumnsIn(r, |row|)
  {
    var k := FirstUsable(indexes, NullValueIn(row));
    if k < |indexes| then
      assert ColumnsIn(indexes[k].cols, |row|);
      indexes[k].cols
    else
      assert forall i :: 0 <= i < |indexes| ==> !RowAvailable(indexes[i].cols, row) by {
        forall i | 0 <= i < |indexes| ensures !RowAvailable(indexes[i].cols, row) {
          assert !Usable(indexes[i].cols, NullValueIn(row));
        }
      }
      []
  }

  /** `getAvailableIndexColumn`: the shared scan, rejecting columns whose value is nil. */
  method GetAvailableIndexColumn(indexes: seq<Index>, data: seq<Value>) returns (cols: seq<Column>)
    requires IndexesInRange(indexes, |data|)
    ensures cols == AvailableIndex(indexes, data)
  {
    cols := GetSpecifiedIndexColumn(indexes, NullValueIn(data));
  }
}
