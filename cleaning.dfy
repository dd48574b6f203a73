/**
 * cleandata.py: the merged season table is cleaned in four steps — repeated
 * column names keep only their first column, rows with every cell missing
 * go, rows repeating an earlier fixture_id go, and every column outside the
 * identifier and text columns is coerced to numbers with the failures and
 * gaps filled with 0. The first three steps rebind `df` to a new frame; the
 * last rewrites the numeric columns of `df` in place.
 */
module Cleaning {
  import opened Wrappers
  import opened Frames

  // ---------------------------------------------------------------------
  // Step 2: `df.loc[:, ~df.columns.duplicated()]`
  // ---------------------------------------------------------------------

  /** `~columns.duplicated()`: true at the first occurrence of each name. */
  function FirstOccurrence(cols: seq<string>): (keep: seq<bool>)
    ensures |keep| == |cols|
    ensures forall i :: 0 <= i < |cols| ==> (keep[i] <==> cols[i] !in cols[..i])
  {
    seq(|cols|, i requires 0 <= i < |cols| => cols[i] !in cols[..i])
  }

  function DropDuplicateColumns(t: Table): (u: Table)
    requires Rectangular(t)
    ensures Rectangular(u) && |u.rows| == |t.rows|
  {
    Project(t, KeptIndices(FirstOccurrence(t.columns)))
  }

  /**
   * After the column dedup the names are unique, the same names remain, each
   * name keeps the cells of its first column, and the columns keep their
   * original order.
   */
  lemma DropDuplicateColumnsSpec(t: Table)
    requires Rectangular(t)
    ensures Distinct(DropDuplicateColumns(t).columns)
    ensures forall c :: c in DropDuplicateColumns(t).columns <==> c in t.columns
    ensures forall c :: c in t.columns ==> Column(DropDuplicateColumns(t), c) == Column(t, c)
    ensures forall i, j :: 0 <= i < j < |DropDuplicateColumns(t).columns| ==>
      IndexOf(t.columns, DropDuplicateColumns(t).columns[i]) < IndexOf(t.columns, DropDuplicateColumns(t).columns[j])
  {
    var keep := FirstOccurrence(t.columns);
    var idx := KeptIndices(keep);
    var u := DropDuplicateColumns(t);
    assert u == Project(t, idx);
    forall k | 0 <= k < |idx| ensures IndexOf(t.columns, u.columns[k]) == idx[k] {
      IndexOfUnique(t.columns, t.columns[idx[k]], idx[k]);
    }
    forall c | c in t.columns ensures c in u.columns {
      var i := IndexOf(t.columns, c);
      assert keep[i];
      var k :| 0 <= k < |idx| && idx[k] == i;
      assert u.columns[k] == c;
    }
    forall c | c in t.columns ensures Column(u, c) == Column(t, c) {
      var k := IndexOf(u.columns, c);
      assert IndexOf(t.columns, c) == idx[k];
    }
  }

  // ---------------------------------------------------------------------
  // Step 3: `df.dropna(how="all")`
  // ---------------------------------------------------------------------

  /** Every cell of the row is missing. */
  predicate AllMissing(row: seq<Cell>) {
    forall c :: c in row ==> c.None?
  }

  /**
   * The rows with at least one present cell, in order: each non-empty row
   * is kept as many times as it occurs, and no empty row is kept.
   */
  function NonEmptyRows(rows: seq<seq<Cell>>): (kept: seq<seq<Cell>>)
    ensures forall row :: row in kept ==> row in rows && !AllMissing(row)
    ensures forall row :: row in rows && !AllMissing(row) ==> row in kept
    ensures forall row :: multiset(kept)[row] == if AllMissing(row) then 0 else multiset(rows)[row]
    ensures IsSubsequence(kept, rows)
  {
    if rows == [] then []
    else
      var n := |rows| - 1;
      var prefix := NonEmptyRows(rows[..n]);
      assert rows == rows[..n] + [rows[n]];
      assert multiset(rows) == multiset(rows[..n]) + multiset{rows[n]};
      if AllMissing(rows[n]) then
        SubsequenceExtend(prefix, rows);
        prefix
      else
        SubsequenceAppend(prefix, rows[..n], rows[n]);
        prefix + [rows[n]]
  }

  function DropEmptyRows(t: Table): (u: Table)
    requires Rectangular(t)
    ensures Rectangular(u) && u.columns == t.columns && |u.rows| <= |t.rows|
  {
    var kept := NonEmptyRows(t.rows);
    SubsequenceLength(kept, t.rows);
    assert forall r :: 0 <= r < |kept| ==> kept[r] in kept;
    Table(t.columns, kept)
  }

  /** A subsequence is no longer than the sequence. */
  lemma {:induction false} SubsequenceLength<T>(a: seq<T>, b: seq<T>)
    requires IsSubsequence(a, b)
    ensures |a| <= |b|
    decreases |b|
  {
    if a != [] {
      if a[|a| - 1] == b[|b| - 1] {
        SubsequenceLength(a[..|a| - 1], b[..|b| - 1]);
      } else {
        SubsequenceLength(a, b[..|b| - 1]);
      }
    }
  }

  /** Every element of a subsequence is an element of the sequence. */
  lemma {:induction false} SubsequenceMembers<T>(a: seq<T>, b: seq<T>)
    requires IsSubsequence(a, b)
    ensures forall x :: x in a ==> x in b
    decreases |b|
  {
    if a != [] {
      if a[|a| - 1] == b[|b| - 1] {
        SubsequenceMembers(a[..|a| - 1], b[..|b| - 1]);
        assert a == a[..|a| - 1] + [a[|a| - 1]];
      } else {
        SubsequenceMembers(a, b[..|b| - 1]);
      }
    }
  }

  /** Dropping the empty rows a second time changes nothing. */
  lemma {:induction false} NonEmptyRowsIdempotent(rows: seq<seq<Cell>>)
    ensures NonEmptyRows(NonEmptyRows(rows)) == NonEmptyRows(rows)
  {
    NoEmptyRowsKept(NonEmptyRows(rows));
  }

  /** Rows none of which is empty are all kept. */
  lemma {:induction false} NoEmptyRowsKept(rows: seq<seq<Cell>>)
    requires forall row :: row in rows ==> !AllMissing(row)
    ensures NonEmptyRows(rows) == rows
  {
    if rows != [] {
      var n := |rows| - 1;
      assert rows == rows[..n] + [rows[n]];
      assert !AllMissing(rows[n]) by { assert rows[n] in rows; }
      NoEmptyRowsKept(rows[..n]);
      assert NonEmptyRows(rows) == NonEmptyRows(rows[..n]) + [rows[n]];
    }
  }

  // ---------------------------------------------------------------------
  // Step 4: `df.drop_duplicates(subset="fixture_id")`
  // ---------------------------------------------------------------------

  /** Every row has a cell at position `c`. */
  predicate HasCell(rows: seq<seq<Cell>>, c: nat) {
    forall r :: 0 <= r < |rows| ==> c < |rows[r]|
  }

  /** The key cells of the rows, in row order. */
  function Keys(rows: seq<seq<Cell>>, c: nat): (ks: seq<Cell>)
    requires HasCell(rows, c)
    ensures |ks| == |rows| && forall r :: 0 <= r < |rows| ==> ks[r] == rows[r][c]
  {
    seq(|rows|, r requires 0 <= r < |rows| => rows[r][c])
  }

  /** The first row of each key value, in order; a missing key counts as one value, as pandas compares NaN keys equal. */
  function FirstPerKey(rows: seq<seq<Cell>>, c: nat): (kept: seq<seq<Cell>>)
    requires HasCell(rows, c)
    ensures HasCell(kept, c) && |kept| <= |rows|
    ensures forall k :: k in Keys(kept, c) <==> k in Keys(rows, c)
  {
    if rows == [] then []
    else
      var n := |rows| - 1;
      var prefix := FirstPerKey(rows[..n], c);
      assert Keys(rows, c) == Keys(rows[..n], c) + [rows[n][c]];
      if rows[n][c] in Keys(prefix, c) then prefix
      else
        assert Keys(prefix + [rows[n]], c) == Keys(prefix, c) + [rows[n][c]];
        prefix + [rows[n]]
  }

  /** After the dedup no two rows share a key. */
  lemma {:induction false} FirstPerKeyDistinct(rows: seq<seq<Cell>>, c: nat)
    requires HasCell(rows, c)
    ensures Distinct(Keys(FirstPerKey(rows, c), c))
  {
    if rows != [] {
      var n := |rows| - 1;
      FirstPerKeyDistinct(rows[..n], c);
      var prefix := FirstPerKey(rows[..n], c);
      if rows[n][c] !in Keys(prefix, c) {
        assert Keys(prefix + [rows[n]], c) == Keys(prefix, c) + [rows[n][c]];
      }
    }
  }

  /** Each kept row is the first row of the input with its key. */
  lemma {:induction false} FirstPerKeyFirst(rows: seq<seq<Cell>>, c: nat)
    requires HasCell(rows, c)
    ensures forall row :: row in FirstPerKey(rows, c) ==>
      row[c] in Keys(rows, c) && row == rows[IndexOf(Keys(rows, c), row[c])]
  {
    if rows != [] {
      var n := |rows| - 1;
      FirstPerKeyFirst(rows[..n], c);
      var prefix := FirstPerKey(rows[..n], c);
      var ks := Keys(rows, c);
      assert ks[..n] == Keys(rows[..n], c);
      forall row | row in prefix ensures row[c] in ks && row == rows[IndexOf(ks, row[c])] {
        IndexOfPrefix(ks, n, row[c]);
      }
      if rows[n][c] !in Keys(prefix, c) {
        IndexOfUnique(ks, rows[n][c], n);
      }
    }
  }

  /** The kept rows keep their input order. */
  lemma {:induction false} FirstPerKeyOrder(rows: seq<seq<Cell>>, c: nat)
    requires HasCell(rows, c)
    ensures IsSubsequence(FirstPerKey(rows, c), rows)
  {
    if rows != [] {
      var n := |rows| - 1;
      FirstPerKeyOrder(rows[..n], c);
      var prefix := FirstPerKey(rows[..n], c);
      assert rows == rows[..n] + [rows[n]];
      if rows[n][c] in Keys(prefix, c) {
        SubsequenceExtend(prefix, rows);
      } else {
        SubsequenceAppend(prefix, rows[..n], rows[n]);
      }
    }
  }

  /** The first occurrence of an element of a prefix is found within that prefix. */
  lemma IndexOfPrefix<T>(s: seq<T>, n: nat, x: T)
    requires n <= |s| && x in s[..n]
    ensures x in s && IndexOf(s, x) == IndexOf(s[..n], x)
  {
    var i := IndexOf(s[..n], x);
    assert s[..n][..i] == s[..i];
    IndexOfUnique(s, x, i);
  }

  /** `drop_duplicates(subset="fixture_id")` when the frame has that column; otherwise the rows are untouched. */
  function DropDuplicateKeys(t: Table): (u: Table)
    requires Rectangular(t)
    ensures Rectangular(u) && u.columns == t.columns && |u.rows| <= |t.rows|
    ensures "fixture_id" !in t.columns ==> u == t
  {
    if "fixture_id" in t.columns then
      var c := IndexOf(t.columns, "fixture_id");
      var kept := FirstPerKey(t.rows, c);
      assert forall row :: row in kept ==> row in t.rows by {
        FirstPerKeyOrder(t.rows, c);
        SubsequenceMembers(kept, t.rows);
      }
      assert forall r :: 0 <= r < |kept| ==> kept[r] in kept;
      Table(t.columns, kept)
    else t
  }

  /** With the key column present, the fixture ids after the dedup are unique and are exactly the ids before it. */
  lemma DropDuplicateKeysSpec(t: Table)
    requires Rectangular(t) && "fixture_id" in t.columns
    ensures Distinct(Column(DropDuplicateKeys(t), "fixture_id"))
    ensures forall k :: k in Column(DropDuplicateKeys(t), "fixture_id") <==> k in Column(t, "fixture_id")
    ensures IsSubsequence(DropDuplicateKeys(t).rows, t.rows)
  {
    var c := IndexOf(t.columns, "fixture_id");
    FirstPerKeyDistinct(t.rows, c);
    FirstPerKeyOrder(t.rows, c);
    assert Column(DropDuplicateKeys(t), "fixture_id") == Keys(FirstPerKey(t.rows, c), c);
    assert Column(t, "fixture_id") == Keys(t.rows, c);
  }

  // ---------------------------------------------------------------------
  // Steps 5 and 6: `to_numeric(errors="coerce")` then `fillna(0)`
  // ---------------------------------------------------------------------

  /** `cols_excluir`: the identifier and text columns. */
  const Excluded: set<string> := {"fixture_id", "date", "league", "round", "home_team", "away_team"}

  /** `cols_numericas`: every column of the frame outside the excluded ones. */
  function NumericColumns(cols: seq<string>): (names: set<string>)
    ensures forall c :: c in names <==> c in cols && c !in Excluded
  {
    set c | c in cols && c !in Excluded
  }

  /**
   * One cell of a numeric column after coercion and filling: a number
   * stays, a string becomes its number, and a string that does not convert
   * or a missing cell becomes 0.
   */
  function Coerce(parse: FloatParser): (Cell -> Cell) {
    (cell: Cell) =>
      if cell.None? then Some(RealVal(0.0))
      else if !cell.value.StrVal? then cell
      else match parse(cell.value.s)
        case None => Some(RealVal(0.0))
        case Some(x) => Some(RealVal(x))
  }

  /**
   * Coercion never leaves a gap or a string: a missing cell becomes 0, a
   * string its number or 0 when it does not convert, a number stays, and a
   * second pass changes nothing.
   */
  lemma CoerceSpec(parse: FloatParser, cell: Cell)
    ensures Coerce(parse)(cell).Some? && !Coerce(parse)(cell).value.StrVal?
    ensures cell.None? ==> Coerce(parse)(cell) == Some(RealVal(0.0))
    ensures cell.Some? && cell.value.StrVal? && parse(cell.value.s).Some? ==>
      Coerce(parse)(cell) == Some(RealVal(parse(cell.value.s).value))
    ensures cell.Some? && cell.value.StrVal? && parse(cell.value.s).None? ==> Coerce(parse)(cell) == Some(RealVal(0.0))
    ensures cell.Some? && !cell.value.StrVal? ==> Coerce(parse)(cell) == cell
    ensures Coerce(parse)(Coerce(parse)(cell)) == Coerce(parse)(cell)
  {
  }

  /** The whole cleaning as one function of the loaded table. */
  function Cleaned(t: Table, parse: FloatParser): (u: Table)
    requires Rectangular(t)
    ensures Rectangular(u)
  {
    var v := DropDuplicateKeys(DropEmptyRows(DropDuplicateColumns(t)));
    var names := NumericColumns(v.columns);
    Table(v.columns, seq(|v.rows|, r requires 0 <= r < |v.rows| =>
      seq(|v.columns|, c requires 0 <= c < |v.columns| =>
        if v.columns[c] in names then Coerce(parse)(v.rows[r][c]) else v.rows[r][c])))
  }

  /** The frame after the first three steps, before coercion. */
  function Deduplicated(t: Table): (v: Table)
    requires Rectangular(t)
    ensures Rectangular(v)
  {
    DropDuplicateKeys(DropEmptyRows(DropDuplicateColumns(t)))
  }

  /**
   * The cleaned frame has unique column names, the names of the loaded
   * frame, no more rows than it, no gap and no string in a numeric column,
   * every numeric cell the coercion of the cell the first three steps left
   * at its place, the excluded columns as those steps left them, and unique
   * fixture ids when it has that column.
   */
  lemma CleanedSpec(t: Table, parse: FloatParser)
    requires Rectangular(t)
    ensures var u := Cleaned(t, parse);
      Distinct(u.columns) && (forall c :: c in u.columns <==> c in t.columns) && |u.rows| <= |t.rows|
    ensures var u := Cleaned(t, parse);
      forall r, c :: 0 <= r < |u.rows| && 0 <= c < |u.columns| && u.columns[c] !in Excluded ==>
        u.rows[r][c].Some? && !u.rows[r][c].value.StrVal?
    ensures Cleaned(t, parse).columns == Deduplicated(t).columns && |Cleaned(t, parse).rows| == |Deduplicated(t).rows|
    ensures forall c :: c in Excluded && c in t.columns ==> Column(Cleaned(t, parse), c) == Column(Deduplicated(t), c)
    ensures "fixture_id" in t.columns ==> Distinct(Column(Cleaned(t, parse), "fixture_id"))
    ensures var u, v := Cleaned(t, parse), Deduplicated(t);
      forall r, c :: 0 <= r < |u.rows| && 0 <= c < |u.columns| && u.columns[c] !in Excluded ==>
        u.rows[r][c] == Coerce(parse)(v.rows[r][c])
  {
    DropDuplicateColumnsSpec(t);
    CleanedFilled(t, parse);
    CleanedCells(t, parse);
    CleanedKeys(t, parse);
  }

  /** Each numeric cell of the cleaned frame is the coercion of the deduplicated cell at the same place; the others are that cell. */
  lemma CleanedCells(t: Table, parse: FloatParser)
    requires Rectangular(t)
    ensures var u, v := Cleaned(t, parse), Deduplicated(t);
      u.columns == v.columns && |u.rows| == |v.rows| &&
      forall r, c :: 0 <= r < |u.rows| && 0 <= c < |u.columns| ==>
        u.rows[r][c] == if u.columns[c] in Excluded then v.rows[r][c] else Coerce(parse)(v.rows[r][c])
  {
  }

  /** Every cell of a numeric column of the cleaned frame is a present number. */
  lemma CleanedFilled(t: Table, parse: FloatParser)
    requires Rectangular(t)
    ensures var u := Cleaned(t, parse);
      forall r, c :: 0 <= r < |u.rows| && 0 <= c < |u.columns| && u.columns[c] !in Excluded ==>
        u.rows[r][c].Some? && !u.rows[r][c].value.StrVal?
  {
    var v := Deduplicated(t);
    var u := Cleaned(t, parse);
    forall r, c | 0 <= r < |u.rows| && 0 <= c < |u.columns| && u.columns[c] !in Excluded
      ensures u.rows[r][c].Some? && !u.rows[r][c].value.StrVal?
    {
      CoerceSpec(parse, v.rows[r][c]);
    }
  }

  /** The excluded columns come through the coercion untouched, so the fixture ids stay unique. */
  lemma CleanedKeys(t: Table, parse: FloatParser)
    requires Rectangular(t)
    ensures Cleaned(t, parse).columns == Deduplicated(t).columns
    ensures forall c :: c in Deduplicated(t).columns <==> c in t.columns
    ensures forall c :: c in Excluded && c in t.columns ==> Column(Cleaned(t, parse), c) == Column(Deduplicated(t), c)
    ensures "fixture_id" in t.columns ==> Distinct(Column(Cleaned(t, parse), "fixture_id"))
  {
    var d := DropDuplicateColumns(t);
    DropDuplicateColumnsSpec(t);
    var v := Deduplicated(t);
    var u := Cleaned(t, parse);
    assert u.columns == v.columns == d.columns;
    forall name | name in Excluded && name in t.columns ensures Column(u, name) == Column(v, name) {
    }
    if "fixture_id" in t.columns {
      DropDuplicateKeysSpec(DropEmptyRows(d));
      assert Column(u, "fixture_id") == Column(v, "fixture_id");
    }
  }

  /** cleandata.py on a loaded table: three rebinding steps, then the numeric columns rewritten in place. */
  method CleanData(t: Table, parse: FloatParser) returns (df: DataFrame)
    requires Rectangular(t)
    ensures fresh(df) && df.Valid() && df.View() == Cleaned(t, parse)
  {
    var u := DropDuplicateColumns(t);
    DropDuplicateColumnsSpec(t);
    u := DropEmptyRows(u);
    u := DropDuplicateKeys(u);
    assert u == Deduplicated(t);
    df := new DataFrame(u);
    var names := NumericColumns(df.columns);
    df.MapColumns(names, Coerce(parse));
    ghost var w := Cleaned(t, parse);
    forall r | 0 <= r < |df.rows| ensures df.rows[r] == w.rows[r] {
    }
    assert df.View() == w;
  }
}
