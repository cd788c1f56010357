/**
 * data_to_tiles.py `filter_gdf`: a best-effort subset of a vector feature
 * table by one attribute field against a list of accepted values.
 *
 * A feature table is its column names and its rows; a row maps column
 * names to cell values.  Cells are integers, texts, or missing (`None`/NaN);
 * pandas' element-wise `==` is modelled by `CellEquals`.
 */
module AttributeFilter {
  import opened Common

  datatype Value = Int(i: int) | Text(s: string) | Null

  type Row = map<string, Value>

  datatype Frame = Frame(columns: set<string>, rows: seq<Row>)

  /** `cell == v` as pandas evaluates it for one element: numbers against
      numbers, texts against texts, and a missing cell equals nothing. */
  predicate CellEquals(cell: Value, v: Value) {
    match (cell, v)
    case (Int(a), Int(b)) => a == b
    case (Text(a), Text(b)) => a == b
    case _ => false
  }

  /** Python's `str(v)`. */
  function Str(v: Value): Value {
    match v
    case Int(i) => Text(IntText(i))
    case Text(s) => Text(s)
    case Null => Text("None")
  }

  function Cell(row: Row, field: string): Value {
    if field in row then row[field] else Null
  }

  /** The OR of the conditions `gdf[field] == v` and `gdf[field] == str(v)`
      over every accepted value `v`, for one row. */
  predicate Keep(row: Row, field: string, accepted: seq<Value>) {
    exists k :: 0 <= k < |accepted| &&
      (CellEquals(Cell(row, field), accepted[k]) || CellEquals(Cell(row, field), Str(accepted[k])))
  }

  /** The column `filter_gdf` reads: the field itself when it is a column,
      otherwise the text after its last `/`, when that is a column. */
  function ResolveField(field: string, columns: set<string>): (r: Option<string>)
    ensures r.Some? ==> r.value in columns
    ensures field in columns ==> r == Some(field)
    ensures field !in columns ==> r == (if LastSegment(field) in columns then Some(LastSegment(field)) else None)
  {
    if field in columns then Some(field)
    else if LastSegment(field) in columns then Some(LastSegment(field))
    else None
  }

  /** The rows that satisfy `Keep`, in their original order. */
  function FilterRows(rows: seq<Row>, field: string, accepted: seq<Value>): (r: seq<Row>)
    ensures |r| <= |rows|
    ensures forall k :: 0 <= k < |r| ==> Keep(r[k], field, accepted)
  {
    if rows == [] then []
    else
      var init := FilterRows(rows[..|rows| - 1], field, accepted);
      var last := rows[|rows| - 1];
      if Keep(last, field, accepted) then init + [last] else init
  }

  /** `filter_gdf(gdf, attr_field, attr_vals)`.  An empty field name or an
      empty list of values (Python's `None` behaves the same) asks for no
      filtering; a field that is not a column even after the `/` fallback is
      a KeyError the function logs before returning its input. */
  function FilterGdf(frame: Frame, field: string, accepted: seq<Value>): (r: Frame)
    ensures field == "" || accepted == [] ==> r == frame
    ensures ResolveField(field, frame.columns).None? ==> r == frame
    ensures r.columns == frame.columns
    ensures |r.rows| <= |frame.rows|
    ensures field != "" && accepted != [] && ResolveField(field, frame.columns).Some? ==>
      r.rows == FilterRows(frame.rows, ResolveField(field, frame.columns).value, accepted)
  {
    if field == "" || accepted == [] then frame
    else
      match ResolveField(field, frame.columns)
      case None => frame
      case Some(f) => Frame(frame.columns, FilterRows(frame.rows, f, accepted))
  }

  // ---------------------------------------------------------------------
  // What the filter keeps
  // ---------------------------------------------------------------------

  /** `a` is obtained from `b` by deleting elements. */
  predicate Subsequence<T(==)>(a: seq<T>, b: seq<T>)
    decreases |b|
  {
    if a == [] then true
    else if b == [] then false
    else (a[|a| - 1] == b[|b| - 1] && Subsequence(a[..|a| - 1], b[..|b| - 1]))
         || Subsequence(a, b[..|b| - 1])
  }

  /** The kept rows keep their input order: they form a subsequence. */
  lemma {:induction false} FilterRowsIsSubsequence(rows: seq<Row>, field: string, accepted: seq<Value>)
    ensures Subsequence(FilterRows(rows, field, accepted), rows)
  {
    if rows != [] {
      var init := rows[..|rows| - 1];
      var r := FilterRows(rows, field, accepted);
      FilterRowsIsSubsequence(init, field, accepted);
      if Keep(rows[|rows| - 1], field, accepted) {
        assert r[..|r| - 1] == FilterRows(init, field, accepted);
      } else {
        assert r == FilterRows(init, field, accepted);
        if r != [] {
          assert Subsequence(r, init);
        }
      }
    }
  }

  /** A row is kept exactly when it is an input row that matches an accepted
      value natively or through `str`. */
  lemma {:induction false} FilterRowsMembership(rows: seq<Row>, field: string, accepted: seq<Value>, x: Row)
    ensures x in FilterRows(rows, field, accepted) <==> x in rows && Keep(x, field, accepted)
  {
    if rows != [] {
      var init := rows[..|rows| - 1];
      FilterRowsMembership(init, field, accepted, x);
      assert rows == init + [rows[|rows| - 1]];
    }
  }

  /** With an accepted value given and a resolvable field, `filter_gdf`
      returns exactly the matching features, in input order. */
  lemma FilterGdfSelects(frame: Frame, field: string, accepted: seq<Value>)
    requires field != "" && accepted != [] && ResolveField(field, frame.columns).Some?
    ensures var f := ResolveField(field, frame.columns).value;
      var r := FilterGdf(frame, field, accepted);
      Subsequence(r.rows, frame.rows)
      && (forall x :: x in r.rows <==> x in frame.rows && Keep(x, f, accepted))
  {
    var f := ResolveField(field, frame.columns).value;
    FilterRowsIsSubsequence(frame.rows, f, accepted);
    forall x ensures x in FilterRows(frame.rows, f, accepted) <==> x in frame.rows && Keep(x, f, accepted) {
      FilterRowsMembership(frame.rows, f, accepted, x);
    }
  }

  // ---------------------------------------------------------------------
  // Mixed numeric and textual encodings
  // ---------------------------------------------------------------------

  /** With integer accepted values, a feature whose field holds the decimal
      text of an integer is kept exactly when a feature holding that integer
      as a number is kept. */
  lemma TextEncodedIntegerMatchesAlike(asNumber: Row, asText: Row, field: string, i: int, accepted: seq<Value>)
    requires Cell(asNumber, field) == Int(i) && Cell(asText, field) == Text(IntText(i))
    requires forall k :: 0 <= k < |accepted| ==> accepted[k].Int?
    ensures Keep(asText, field, accepted) <==> Keep(asNumber, field, accepted)
  {
    if Keep(asText, field, accepted) {
      var k :| 0 <= k < |accepted| && CellEquals(Text(IntText(i)), Str(accepted[k]));
      IntTextInjective(i, accepted[k].i);
      assert CellEquals(Int(i), accepted[k]);
    }
  }

  /** The normalisation is one-sided: a numeric cell never matches an
      accepted value given as text. */
  lemma NumericCellIgnoresTextValue(row: Row, field: string, i: int)
    requires Cell(row, field) == Int(i)
    ensures !Keep(row, field, [Text(IntText(i))])
  {
  }
}
