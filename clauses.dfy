/**
 * The pieces of statement text: the quoted column list, the placeholder list, the WHERE
 * conjunction (NULL-aware) and the SET assignment list. Each Go builder grows a buffer in a
 * loop; each is specified here by a function over `strings.Join`.
 */
module Clauses {
  import opened Strings
  import opened Values
  import opened Schema

  /** An identifier in backticks. */
  function Quote(name: string): string
  {
    "`" + name + "`"
  }

  function QuotedNames(columns: seq<Column>): (names: seq<string>)
  {
    seq(|columns|, i requires 0 <= i < |columns| => Quote(columns[i].name))
  }

  /** The column list of an INSERT/REPLACE: quoted names separated by "," with no spaces. */
  function ColumnList(columns: seq<Column>): string
  {
    Join(QuotedNames(columns), ",")
  }

  /** `genColumnList`: appends each quoted name, and a comma after every name but the last. */
  method GenColumnList(columns: seq<Column>) returns (list: string)
    ensures list == ColumnList(columns)
  {
    var names := QuotedNames(columns);
    var n := |columns|;
    list := "";
    var i := 0;
    while i < n
      invariant 0 <= i <= n
      invariant list == JoinedUpTo(names, ",", i)
    {
      var name := Quote(columns[i].name);
      JoinedStep(names, ",", i);
      list := list + name;
      if i != n - 1 {
        list := list + ",";
      }
      i := i + 1;
    }
    if n == 0 {
      assert list == Join(names, ",");
    } else {
      JoinedStep(names, ",", n - 1);
    }
  }

  /** A table's column list splits back into its quoted names when no name has a comma. */
  lemma ColumnListSplits(columns: seq<Column>)
    requires |columns| > 0
    requires forall i :: 0 <= i < |columns| ==> ',' !in columns[i].name
    ensures Split(ColumnList(columns), ',') == QuotedNames(columns)
  {
    var names := QuotedNames(columns);
    forall i | 0 <= i < |names| ensures ',' !in names[i] {
      assert names[i] == "`" + columns[i].name + "`";
    }
    SplitJoin(names, ',');
  }

  /** The VALUES list: one "?" per bound value, separated by ",". */
  function Placeholders(n: nat): string
  {
    Join(seq(n, _ => "?"), ",")
  }

  /** `genColumnPlaceholders`: fills a slice with "?" and joins it with ",". */
  method GenColumnPlaceholders(length: nat) returns (s: string)
    ensures s == Placeholders(length)
  {
    var values: seq<string> := [];
    var i := 0;
    while i < length
      invariant 0 <= i <= length
      invariant values == seq(i, _ => "?")
    {
      values := values + ["?"];
      i := i + 1;
    }
    s := Join(values, ",");
  }

  /** The placeholder list is exactly `n` "?" tokens joined by ",", and empty for no columns. */
  lemma PlaceholdersShape(n: nat)
    ensures n == 0 ==> Placeholders(n) == ""
    ensures n > 0 ==> Split(Placeholders(n), ',') == seq(n, _ => "?")
  {
    if n > 0 {
      SplitJoin(seq(n, _ => "?"), ',');
    }
  }

  /** The comparison for one WHERE predicate: "IS" against nil, "=" otherwise. */
  function CompareOp(v: Value): string
  {
    if v == Null then "IS" else "="
  }

  /** One predicate per column, comparing it with its bound value. */
  function WherePredicates(columns: seq<Column>, data: seq<Value>): seq<string>
    requires |columns| <= |data|
  {
    seq(|columns|, i requires 0 <= i < |columns| => Quote(columns[i].name) + " " + CompareOp(data[i]) + " ?")
  }

  /** The WHERE condition: the predicates joined by " AND ". */
  function Where(columns: seq<Column>, data: seq<Value>): string
    requires |columns| <= |data|
  {
    Join(WherePredicates(columns, data), " AND ")
  }

  /** `genWhere`: writes "`name` OP ?" per column, with " AND " after every one but the last. */
  method GenWhere(columns: seq<Column>, data: seq<Value>) returns (where: string)
    requires |columns| <= |data|
    ensures where == Where(columns, data)
  {
    var preds := WherePredicates(columns, data);
    var n := |columns|;
    where := "";
    var i := 0;
    while i < n
      invariant 0 <= i <= n
      invariant where == JoinedUpTo(preds, " AND ", i)
    {
      var kvSplit := "=";
      if data[i] == Null {
        kvSplit := "IS";
      }
      assert kvSplit == CompareOp(data[i]);
      var pred := Quote(columns[i].name) + " " + kvSplit + " ?";
      assert pred == preds[i];
      JoinedStep(preds, " AND ", i);
      if i == n - 1 {
        where := where + pred;
      } else {
        where := where + pred + " AND ";
      }
      i := i + 1;
    }
    if n == 0 {
      assert where == Join(preds, " AND ");
    } else {
      JoinedStep(preds, " AND ", n - 1);
    }
  }

  /** One assignment per column: "`name` = ?". */
  function Assignments(columns: seq<Column>): seq<string>
  {
    seq(|columns|, i requires 0 <= i < |columns| => Quote(columns[i].name) + " = ?")
  }

  /** The SET list of an UPDATE: the assignments joined by ", ". */
  function KVs(columns: seq<Column>): string
  {
    Join(Assignments(columns), ", ")
  }

  /** `genKVs`: writes "`name` = ?" per column, with ", " after every one but the last. */
  method GenKVs(columns: seq<Column>) returns (kvs: string)
    ensures kvs == KVs(columns)
  {
    var assigns := Assignments(columns);
    var n := |columns|;
    kvs := "";
    var i := 0;
    while i < n
      invariant 0 <= i <= n
      invariant kvs == JoinedUpTo(assigns, ", ", i)
    {
      var assign := Quote(columns[i].name) + " = ?";
      JoinedStep(assigns, ", ", i);
      if i == n - 1 {
        kvs := kvs + assign;
      } else {
        kvs := kvs + assign + ", ";
      }
      i := i + 1;
    }
    if n == 0 {
      assert kvs == Join(assigns, ", ");
    } else {
      JoinedStep(assigns, ", ", n - 1);
    }
  }

  /** A WHERE predicate reads like the SET assignment for the same column exactly when the
      bound value is not nil; against nil it uses "IS" instead of "=". */
  lemma {:induction false} WhereNullAware(columns: seq<Column>, data: seq<Value>, i: nat)
    requires |columns| <= |data| && i < |columns|
    ensures WherePredicates(columns, data)[i] == Assignments(columns)[i] <==> data[i] != Null
    ensures data[i] == Null ==> WherePredicates(columns, data)[i] == Quote(columns[i].name) + " IS ?"
  {
    var q := Quote(columns[i].name);
    if data[i] == Null {
      var p := WherePredicates(columns, data)[i];
      var a := Assignments(columns)[i];
      assert p[|q| + 1] == 'I' && a[|q| + 1] == '=';
    }
  }

  /** With no nil value to compare, the WHERE condition uses the same `name = ?` terms as
      the SET list. */
  lemma WhereWithoutNulls(columns: seq<Column>, data: seq<Value>)
    requires |columns| <= |data|
    requires forall i :: 0 <= i < |columns| ==> data[i] != Null
    ensures WherePredicates(columns, data) == Assignments(columns)
  {
    forall i | 0 <= i < |columns|
      ensures WherePredicates(columns, data)[i] == Assignments(columns)[i]
    {
      assert CompareOp(data[i]) == "=";
    }
  }
}
