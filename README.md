# Row-change SQL generation of the DM syncer, in Dafny

This project models the statement generator of the DM data-migration syncer (`syncer/dml.go`).
The syncer replays row changes captured from a MySQL binlog against a downstream database. For
each batch of row images of one table it produces three aligned lists:

- parameterised statement text: `REPLACE INTO` for inserts, `UPDATE … LIMIT 1` for updates,
  `DELETE … LIMIT 1` for deletes;
- the values bound to the statement's placeholders;
- one identity-key string per declared index of the table, which the syncer uses to detect
  conflicting changes to the same row.

Modules, following the structure of the Go file:

- `Wrappers`: `Option` and `Result`, the model of a nil pointer and of Go's `(value, error)` pair.
- `Strings`: `strings.Join` (with `Split`, its inverse, used only in proofs), base-10 integer
  text and its parser, ASCII lower-casing and `strings.Contains`.
- `Schema`: the column descriptor and the declared indexes (a Go map, kept here as a sequence
  in a fixed order).
- `Values`: the closed set of captured value kinds, `castUnsigned` and `columnValue`.
- `IndexFit`: choosing the index that keys an UPDATE/DELETE (`findFitIndex`,
  `getAvailableIndexColumn`, and `getSpecifiedIndexColumn`, which both use).
- `Keys`: `findColumn`, `findColumns`, `getColumnData`, `genKeyList`, `genMultipleKeys`.
- `Clauses`: `genColumnList`, `genColumnPlaceholders`, `genWhere`, `genKVs`.
- `Dml`: the batch drivers `genInsertSQLs`, `genDeleteSQLs`, `genDeleteSQL`, `genUpdateSQLs`,
  plus `mappingDML`.

Each Go loop is a Dafny method with loop invariants. Each is proved against a specification
function:

- The buffer builders are specified by `Join`.
- The delete and update drivers are specified by recursive functions, `DeleteRun` and
  `UpdateRun`. These carry the keying index from row to row exactly as the loop does: the
  schema-level choice, or, while that is empty, the first index free of nil values in the
  current row, which then sticks for the rest of the batch.
- Lemmas then state what a whole batch is:
  - when it fails, and with which error;
  - how many statements it has;
  - what text, values and keys sit at each position, with the index each row is keyed by
    given by `FitTrace`.

Non-safe updates have a "no changed columns" skip. Every column is always put into the SET list,
so the skip can only fire for a table with no columns. `UpdateRunLength` states this.

## Model

| member | source | states |
|---|---|---|
| Strings.JoinedStep | syncer/dml.go:178-190 | writing one more part, and the separator unless it is the last, extends the buffer by one part; once every part is written, the buffer holds `strings.Join` of the parts |
| Strings.SplitJoin | syncer/dml.go:302-308 | splitting a `Join` on its one-character separator gives back the parts when no part contains it |
| Strings.FormatNat | syncer/dml.go:223 | `strconv.FormatUint` base-10 text is non-empty and all digits |
| Strings.ParseFormatNat | syncer/dml.go:253-259 | the base-10 text of a natural number parses back to that number |
| Strings.ParseFormatInt | syncer/dml.go:242-251 | the base-10 text of an integer (minus sign when negative) parses back to that integer |
| Strings.FormatIntNoComma | syncer/dml.go:302-308 | base-10 integer text never contains the "," that separates key parts |
| Strings.ContainsWindow | syncer/dml.go:213 | the left-to-right substring scan holds exactly when some window of the text equals the searched text |
| Schema.Lookup | syncer/dml.go:321 | the map lookup of an index name finds nothing exactly when no index has that name, and otherwise returns the columns of an index with that name |
| Values.LittleEndian32 | syncer/dml.go:217-218 | `PutUint32` writes four bytes, each below 256 |
| Values.LowThreeBytesMod | syncer/dml.go:217-219 | or-ing the low three little-endian bytes of a 32-bit word back together gives the word modulo 2^24 |
| Values.CastSigned | syncer/dml.go:205-224 | int, int8, int16 become uint, uint8, uint16 holding the value modulo 2^64, 2^8, 2^16; int32 becomes uint32 modulo 2^24 for a MEDIUMINT column and modulo 2^32 otherwise; int64 becomes the base-10 text of the value modulo 2^64 |
| Values.CastUnsigned | syncer/dml.go:200-227 | a value of a signed column, and any non-integer value, is returned unchanged; otherwise the width-specific modular reinterpretation above, always in range `[0, 2^w)` and congruent to the input |
| Values.MediumintExample | syncer/dml.go:213-221 | -4692783 in an unsigned MEDIUMINT column gives 12084433 (2^24 - 4692783); in a plain unsigned int column it gives 4290274513 (2^32 - 4692783) |
| Values.RenderCastIntegral | syncer/dml.go:229-259 | for an integer, the rendered cast is the base-10 text of the unsigned-aware number the column holds (`UnsignedView`, defined by modular arithmetic alone) |
| Values.ColumnValue | syncer/dml.go:229-273 | `columnValue` of an integer parses back to its unsigned-aware number and contains no comma; nil renders as "null" |
| Values.ColumnValueOfCast | syncer/dml.go:229-230 | casting is idempotent, so rendering an already cast value (as the key builders do) gives the same text as rendering the captured one |
| IndexFit.FirstUsable | syncer/dml.go:346-366 | the position found is the first index that is non-empty and has no rejected column; every earlier index is empty or has one |
| IndexFit.GetSpecifiedIndexColumn | syncer/dml.go:346-366 | the flag-and-break scan returns the first usable index in order, or nil when there is none |
| IndexFit.FindFitIndex | syncer/dml.go:320-336 | the non-empty `primary` index wins; otherwise the result is nil exactly when no non-empty index has all columns NOT NULL, and otherwise it is one such index |
| IndexFit.FitIndexInRange | syncer/dml.go:320-336 | the schema-level choice is one of the table's indexes, so its positions lie inside a row of the table's width |
| IndexFit.AvailableIndex | syncer/dml.go:338-344 | the row-level choice is nil exactly when every index is empty or has a nil value in this row; otherwise it is one index with none, and it points inside the row |
| IndexFit.GetAvailableIndexColumn | syncer/dml.go:338-344 | the scan with the nil-value test returns `AvailableIndex` |
| Keys.FindColumn | syncer/dml.go:275-283 | returns nil exactly when no column has the name, otherwise the first column that has it |
| Keys.ColumnNamedIn | syncer/dml.go:275-283 | a column found by name is a column of the table and carries that name |
| Keys.FindColumns | syncer/dml.go:285-300 | one resolved index per declared index, same name, columns resolved in declared order with unknown names dropped |
| Keys.ResolveSound | syncer/dml.go:285-300 | a resolved index lists only table columns; it never has more columns than were declared, and has exactly as many precisely when every declared name exists |
| Keys.ResolvedInRange | syncer/dml.go:285-300 | indexes resolved against a catalogue whose positions are the columns' places point inside rows of the table's width |
| Keys.GetColumnData | syncer/dml.go:368-377 | returns the index's columns and, at each position k, the row's value at the k-th index column's position |
| Keys.GenKeyList | syncer/dml.go:302-309 | the key is the rendered values joined by "," |
| Keys.IntegerKeyDecodes | syncer/dml.go:302-309 | a key over integer values splits back into one piece per value, and each piece parses to that value's unsigned-aware number |
| Keys.GenMultipleKeys | syncer/dml.go:311-318 | exactly one key per declared index, in catalogue order, whichever index keys the statement |
| Keys.KeysAgreeOnIndexColumns | syncer/dml.go:311-318 | two rows that agree on an index's columns get the same key under that index |
| Clauses.GenColumnList | syncer/dml.go:178-190 | the list is the backtick-quoted names joined by "," |
| Clauses.ColumnListSplits | syncer/dml.go:178-190 | when no name contains a comma, the list splits back into the quoted names |
| Clauses.GenColumnPlaceholders | syncer/dml.go:192-198 | the placeholder list is `length` "?" tokens joined by "," |
| Clauses.PlaceholdersShape | syncer/dml.go:192-198 | the list is empty for no columns, and otherwise splits into exactly `n` "?" tokens |
| Clauses.GenWhere | syncer/dml.go:379-395 | one "`name` OP ?" per column, joined by " AND ", with OP "IS" for a nil value and "=" otherwise |
| Clauses.WhereNullAware | syncer/dml.go:379-408 | a WHERE predicate equals the SET assignment for the same column exactly when the bound value is not nil; against nil it reads "`name` IS ?" |
| Clauses.WhereWithoutNulls | syncer/dml.go:379-408 | with no nil value, the WHERE predicates are exactly the SET assignments |
| Clauses.GenKVs | syncer/dml.go:397-408 | one "`name` = ?" per column, joined by ", " |
| Dml.FirstMismatch | syncer/dml.go:33-36 | the position of the first row whose length differs from the column count; every row before it matches |
| Dml.GenDeleteSQL | syncer/dml.go:166-176 | `DELETE FROM` the quoted table `WHERE` the conjunction over the index columns (all columns when the index is empty) `LIMIT 1`; the bound values are the row's values at those columns, or the whole row |
| Dml.CastValues | syncer/dml.go:38-41 | the cast row has one value per column, the i-th being `castUnsigned` of the i-th captured value with the i-th column's flags |
| Dml.CastRows | syncer/dml.go:147-150 | casting keeps the number of rows, and every cast row has the table's width |
| Dml.FitTrace | syncer/dml.go:152-154 | one keying index per row, each pointing inside the row |
| Dml.FirstAvailableFirst | syncer/dml.go:152-154 | before the first row with a nil-free index, every row has none; that row has one |
| Dml.FitTraceRow | syncer/dml.go:140-154 | with a schema-level index, every row is keyed by it; without one, rows before the first row with a nil-free index get none, and every later row gets that row's index |
| Dml.GenInsertSQLs | syncer/dml.go:27-51 | fails exactly when some row's length differs from the column count, reporting both lengths for the first such row; otherwise one REPLACE per row in input order, bound to the cast row and keyed under every index |
| Dml.GenDeleteSQLs | syncer/dml.go:136-164 | returns the delete batch started from `findFitIndex`, with the keying index carried from row to row |
| Dml.DeleteRunFails | syncer/dml.go:142-145 | a delete batch fails exactly when some row has the wrong length, and the error names the first such row |
| Dml.DeleteRunLength | syncer/dml.go:136-164 | a well-formed delete batch has one statement, one value list and one key list per row |
| Dml.DeleteRunRow | syncer/dml.go:140-164 | statement k deletes row k located by the index carried to it (every column when none), binds the row's values at that index, and carries the cast row's keys under every index |
| Dml.UpdateRunStep | syncer/dml.go:61-131 | after one pair's statements are appended, the rest of the run is keyed from the index carried past that pair |
| Dml.FirstBadPair | syncer/dml.go:61-71 | the position of the first bad pair is at most the number of pairs |
| Dml.FirstBadPairFirst | syncer/dml.go:61-71 | every pair before it has two images of the table's width; the pair it names does not |
| Dml.UpdateRunTail | syncer/dml.go:61-131 | a run whose first pair is well formed fails exactly when the rest fails, with the same error; otherwise it is that pair's statements followed by the rest |
| Dml.UpdateRunFails | syncer/dml.go:65-71 | an update batch fails exactly when some image's length differs from the column count |
| Dml.UpdateRunError | syncer/dml.go:65-71 | the error comes from the first bad pair: both image lengths when they differ, otherwise the column count and the old image's length |
| Dml.UpdateRunLength | syncer/dml.go:89-113 | a well-formed update batch has two statements per pair in safe mode; otherwise one per pair, or none at all for a table with no column |
| Dml.OldImages | syncer/dml.go:73-84 | one cast old image per pair, each of the table's width |
| Dml.PairStatementsShape | syncer/dml.go:86-130 | a pair gives DELETE then REPLACE in safe mode, otherwise one UPDATE (nothing when the table has no column), each carrying the old image's keys followed by the new image's |
| Dml.PairStatementsShift | syncer/dml.go:82-84 | pair q+1 of a batch is pair q of the rest, keyed from the index carried past the first pair |
| Dml.AllPairStatementsTail | syncer/dml.go:61-84 | the first pair's statements are keyed by the first carried index; the others are the rest's |
| Dml.AllPairStatementsWidth | syncer/dml.go:89-113 | every pair contributes the same number of statements for a given mode and table |
| Dml.UpdateRunConcat | syncer/dml.go:59-131 | a well-formed update batch is, pair by pair in input order, each pair's statements keyed by the index carried to its old image |
| Dml.UpdateRunSafeDelete | syncer/dml.go:86-94 | in safe mode, statement 2p deletes pair p's old image located by its carried index, binds its WHERE values, and carries 2 × (number of indexes) keys: old image's, then new image's |
| Dml.UpdateRunSafeReplace | syncer/dml.go:95-99 | in safe mode, statement 2p+1 is the REPLACE of every column bound to pair p's cast new image, with the same keys |
| Dml.UpdateRunPlainPair | syncer/dml.go:103-130 | otherwise, for a table with columns, statement p sets every column, locates the old image by its carried index, binds the new image followed by the WHERE values, and carries 2 × (number of indexes) keys |
| Dml.GenPairSQLs | syncer/dml.go:73-130 | for one pair: the carried index is kept, or chosen from the old image when empty; the pair's statements are appended to the batch |
| Dml.GenNextPair | syncer/dml.go:61-131 | one turn of the update loop keeps "built so far, then the run over the remaining pairs" equal to the whole batch's outcome |
| Dml.GenSafeModePair | syncer/dml.go:89-100 | appends the DELETE of the old image and the REPLACE of the new one |
| Dml.GenUpdatePair | syncer/dml.go:103-130 | appends one UPDATE of every column, or nothing when the table has no column |
| Dml.GenUpdateSQLs | syncer/dml.go:53-134 | returns the update batch started from `findFitIndex` |
| Dml.GenUpdatePairs | syncer/dml.go:61-133 | the loop over pairs returns the update run from the given index |
| Dml.MappingDML | syncer/dml.go:410-425 | without a mapping the rows pass through unchanged; with one, the result is Ok exactly when every row maps, row i being row i's image; otherwise the error is that of the first rejected row |

## Left out

- Error texts: `errors.Errorf` messages are reduced to the two lengths each reports. The mislabelled first update message (it prints the two image lengths as "columns" and "data") is not modelled. The `errors.Trace` wrapping in `mappingDML` is not modelled either.
- `log.Error` for an empty primary index (line 324): logging is I/O. The choice then falls through to the NOT NULL scan, as modelled.
- `strings.ToLower` is modelled for ASCII letters only. Type names are ASCII.
- Float rendering (`strconv.FormatFloat`) and the `%v` fallback are not computed: float and other values carry the text Go would print.
- Go map iteration order: the indexes are a sequence in a fixed order. "The first usable index" therefore stands for the one Go's iteration happens to meet first. The properties are also stated as "some qualifying index".
- Go's `int` is taken to be 64 bits wide (`uint(v)` keeps `v` modulo 2^64).
- Dml.GenUpdateSQLs: requires an even number of images. Go indexes `data[i+1]` and would panic on an odd count.
- Column positions outside the row are excluded by `IndexesInRange`. Go would panic on `data[c.idx]`.
- Dml.MappingDML: the column-mapping rule set (`HandleRowValue`) is not part of this model. It is an arbitrary function of schema, table, column names and row.
- The loader package (status reporting, checkpoint test) is not part of this model.
- The body of the Go update loop is split across `GenNextPair`, `GenPairSQLs`, `GenSafeModePair` and `GenUpdatePair`. They run the same steps in the same order.
