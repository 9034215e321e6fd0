/**
 * The per-table schema snapshot the generator works against: column descriptors (the Go
 * `column` record) and the declared indexes (the Go `map[string][]*column`), both immutable.
 */
module Schema {
  import opened Wrappers

  /** One column of the table: its name, its position in a row image, its declared type
      name (for example "mediumint(8) unsigned"), and the unsigned and NOT NULL flags. */
  datatype Column = Column(name: string, idx: nat, tp: string, unsigned: bool, notNull: bool)

  /** One declared index: its name and the columns it covers, in order. A Go map has no
      stable iteration order; the model keeps the indexes in a sequence and fixes that order. */
  datatype Index = Index(name: string, cols: seq<Column>)

  /** The index name reserved for the primary key. */
  const Primary: string := "primary"

  /** Map lookup `indexColumns[name]`: the columns of the first index with that name. */
  function Lookup(indexes: seq<Index>, name: string): (r: Option<seq<Column>>)
    ensures r.None? <==> forall k :: 0 <= k < |indexes| ==> indexes[k].name != name
    ensures r.Some? ==> exists k :: 0 <= k < |indexes| && indexes[k].name == name && indexes[k].cols == r.value
  {
    if |indexes| == 0 then None
    else if indexes[0].name == name then Some(indexes[0].cols)
    else
      var r := Lookup(indexes[1..], name);
      assert forall k :: 1 <= k < |indexes| ==> indexes[k] == indexes[1..][k - 1];
      r
  }

  /** Every column of `cols` points inside a row image of length `n`. */
  predicate ColumnsIn(cols: seq<Column>, n: nat)
  {
    forall j :: 0 <= j < |cols| ==> cols[j].idx < n
  }

  /** Every column of every index points inside a row image of length `n`; the generator reads
      `data[c.idx]` for index columns and would fail on a position outside the row. */
  predicate IndexesInRange(indexes: seq<Index>, n: nat)
  {
    forall k :: 0 <= k < |indexes| ==> ColumnsIn(indexes[k].cols, n)
  }
}
