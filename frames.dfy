/**
 * An abstract pandas data frame: named columns in order and rows of
 * positional cells, plus the handful of frame operations the scripts use
 * (column lookup, column projection, row selection, dropping columns,
 * assigning a column in place) and Python's list prefix slice.
 */
module Frames {
  import opened Wrappers

  /** A scalar as the scripts see it after reading a CSV or a JSON payload. */
  datatype Value = IntVal(i: int) | RealVal(r: real) | StrVal(s: string)

  /** A cell; `None` is a missing value (NaN or JSON null). */
  type Cell = Option<Value>

  /** The Python exceptions the scripts can raise. */
  datatype Exception =
    | KeyError(key: string)
    | TypeError(reason: string)
    | ValueError(reason: string)

  /** A field of a JSON object: absent, present as `null`, or present with a value. */
  datatype JsonField<+T> = Absent | Null | Present(value: T)

  /** Python's `float()` (or `pd.to_numeric`) on a string: the number, or `None` where it cannot convert. */
  type FloatParser = string -> Option<real>

  /** A frame: column names in order, and rows whose k-th cell belongs to the k-th column. */
  datatype Table = Table(columns: seq<string>, rows: seq<seq<Cell>>)

  /** Every row has one cell per column. */
  predicate Rectangular(t: Table) {
    forall r :: 0 <= r < |t.rows| ==> |t.rows[r]| == |t.columns|
  }

  predicate Distinct<T(==)>(s: seq<T>) {
    forall i, j :: 0 <= i < j < |s| ==> s[i] != s[j]
  }

  predicate Increasing(s: seq<nat>) {
    forall k, l :: 0 <= k < l < |s| ==> s[k] < s[l]
  }

  /** True when the cell holds a number or is missing, i.e. arithmetic on it does not raise. */
  predicate IsNumericCell(c: Cell) {
    c.None? || !c.value.StrVal?
  }

  function AsReal(v: Value): real
    requires !v.StrVal?
  {
    if v.IntVal? then v.i as real else v.r
  }

  /** Position of the first occurrence of `x` (how a label lookup resolves). */
  function IndexOf<T(==)>(s: seq<T>, x: T): (i: nat)
    requires x in s
    ensures i < |s| && s[i] == x && x !in s[..i]
  {
    if s[0] == x then 0
    else
      var j := IndexOf(s[1..], x);
      assert s[..j + 1] == [s[0]] + s[1..][..j];
      1 + j
  }

  /** `df[name]`: the cells of the column called `name`, one per row. */
  function Column(t: Table, name: string): (col: seq<Cell>)
    requires Rectangular(t) && name in t.columns
    ensures |col| == |t.rows|
  {
    var c := IndexOf(t.columns, name);
    seq(|t.rows|, r requires 0 <= r < |t.rows| => t.rows[r][c])
  }

  /** The positions `i` with `keep[i]`, in increasing order. */
  function KeptIndices(keep: seq<bool>): (idx: seq<nat>)
    ensures forall k :: 0 <= k < |idx| ==> idx[k] < |keep| && keep[idx[k]]
    ensures forall i :: 0 <= i < |keep| && keep[i] ==> i in idx
    ensures Increasing(idx)
  {
    if keep == [] then []
    else
      var prefix := KeptIndices(keep[..|keep| - 1]);
      if keep[|keep| - 1] then prefix + [|keep| - 1] else prefix
  }

  /** Every cell of the column is a string. */
  predicate AllStrings(col: seq<Cell>) {
    forall i :: 0 <= i < |col| ==> col[i].Some? && col[i].value.StrVal?
  }

  function Strings(col: seq<Cell>): (ss: seq<string>)
    requires AllStrings(col)
    ensures |ss| == |col|
  {
    seq(|col|, i requires 0 <= i < |col| => col[i].value.s)
  }

  /** The frame restricted to the columns at positions `idx`, in that order. */
  function Project(t: Table, idx: seq<nat>): (p: Table)
    requires Rectangular(t)
    requires forall k :: 0 <= k < |idx| ==> idx[k] < |t.columns|
    ensures Rectangular(p) && |p.rows| == |t.rows| && |p.columns| == |idx|
  {
    Table(seq(|idx|, k requires 0 <= k < |idx| => t.columns[idx[k]]),
          seq(|t.rows|, r requires 0 <= r < |t.rows| =>
            seq(|idx|, k requires 0 <= k < |idx| => t.rows[r][idx[k]])))
  }

  /** The frame restricted to the rows at positions `idx`, in that order. */
  function SelectRows(t: Table, idx: seq<nat>): (p: Table)
    requires Rectangular(t)
    requires forall k :: 0 <= k < |idx| ==> idx[k] < |t.rows|
    ensures Rectangular(p) && p.columns == t.columns && |p.rows| == |idx|
  {
    Table(t.columns, seq(|idx|, k requires 0 <= k < |idx| => t.rows[idx[k]]))
  }

  /** `df.drop(columns=drop, errors="ignore")`: every column whose name is in `drop` goes; absent names are ignored. */
  function DropColumns(t: Table, drop: set<string>): (p: Table)
    requires Rectangular(t)
    ensures Rectangular(p) && |p.rows| == |t.rows|
    ensures forall c :: c in p.columns <==> c in t.columns && c !in drop
  {
    var keep := seq(|t.columns|, i requires 0 <= i < |t.columns| => t.columns[i] !in drop);
    var idx := KeptIndices(keep);
    var p := Project(t, idx);
    assert forall c :: c in t.columns && c !in drop ==> c in p.columns by {
      forall c | c in t.columns && c !in drop ensures c in p.columns {
        var i := IndexOf(t.columns, c);
        assert keep[i];
        var k :| 0 <= k < |idx| && idx[k] == i;
        assert p.columns[k] == c;
      }
    }
    p
  }

  /** `df[name] = values`: overwrite the column if the frame has it, otherwise append it as the last column. */
  function WithColumn(t: Table, name: string, values: seq<Cell>): (u: Table)
    requires Rectangular(t) && |values| == |t.rows|
    ensures Rectangular(u) && |u.rows| == |t.rows|
    ensures u.columns == if name in t.columns then t.columns else t.columns + [name]
  {
    if name in t.columns then
      var c := IndexOf(t.columns, name);
      Table(t.columns, seq(|t.rows|, r requires 0 <= r < |t.rows| => t.rows[r][c := values[r]]))
    else
      Table(t.columns + [name], seq(|t.rows|, r requires 0 <= r < |t.rows| => t.rows[r] + [values[r]]))
  }

  /** After `df[name] = values`, `df[name]` reads `values` and every other column reads as before. */
  lemma WithColumnReads(t: Table, name: string, values: seq<Cell>)
    requires Rectangular(t) && |values| == |t.rows|
    ensures name in WithColumn(t, name, values).columns
    ensures Column(WithColumn(t, name, values), name) == values
    ensures forall other :: other in t.columns && other != name ==>
      Column(WithColumn(t, name, values), other) == Column(t, other)
  {
    var u := WithColumn(t, name, values);
    forall other | other in t.columns && other != name
      ensures Column(u, other) == Column(t, other)
    {
      var c := IndexOf(t.columns, other);
      assert u.columns[..c] == t.columns[..c];
      assert IndexOf(u.columns, other) == c by { IndexOfUnique(u.columns, other, c); }
    }
    if name !in t.columns {
      IndexOfUnique(u.columns, name, |t.columns|);
    }
  }

  /**
   * Dropping columns from a frame without repeated names keeps the surviving
   * columns distinct and in their original order.
   */
  lemma DropColumnsOrder(t: Table, drop: set<string>)
    requires Rectangular(t) && Distinct(t.columns)
    ensures Distinct(DropColumns(t, drop).columns)
    ensures forall i, j :: 0 <= i < j < |DropColumns(t, drop).columns| ==>
      IndexOf(t.columns, DropColumns(t, drop).columns[i]) < IndexOf(t.columns, DropColumns(t, drop).columns[j])
  {
    var p := DropColumns(t, drop);
    var keep := seq(|t.columns|, i requires 0 <= i < |t.columns| => t.columns[i] !in drop);
    var idx := KeptIndices(keep);
    assert p == Project(t, idx);
    forall k | 0 <= k < |idx| ensures IndexOf(t.columns, p.columns[k]) == idx[k] {
      IndexOfDistinct(t.columns, idx[k]);
    }
  }

  /** In a frame without repeated names, every surviving column keeps its cells. */
  lemma DropColumnsCells(t: Table, drop: set<string>)
    requires Rectangular(t) && Distinct(t.columns)
    ensures forall c :: c in DropColumns(t, drop).columns ==> Column(DropColumns(t, drop), c) == Column(t, c)
  {
    var p := DropColumns(t, drop);
    var keep := seq(|t.columns|, i requires 0 <= i < |t.columns| => t.columns[i] !in drop);
    var idx := KeptIndices(keep);
    assert p == Project(t, idx);
    forall c | c in p.columns ensures Column(p, c) == Column(t, c) {
      var k := IndexOf(p.columns, c);
      IndexOfDistinct(t.columns, idx[k]);
    }
  }

  /** Assigning a column never introduces a repeated name. */
  lemma WithColumnDistinct(t: Table, name: string, values: seq<Cell>)
    requires Rectangular(t) && |values| == |t.rows| && Distinct(t.columns)
    ensures Distinct(WithColumn(t, name, values).columns)
  {
  }

  /** The first occurrence is the only position that is not preceded by the same element. */
  lemma IndexOfUnique<T>(s: seq<T>, x: T, i: nat)
    requires i < |s| && s[i] == x && x !in s[..i]
    ensures IndexOf(s, x) == i
  {
  }

  /** In a frame without repeated names, each column is found at its own position. */
  lemma IndexOfDistinct<T>(s: seq<T>, i: nat)
    requires Distinct(s) && i < |s|
    ensures IndexOf(s, s[i]) == i
  {
    IndexOfUnique(s, s[i], i);
  }

  /**
   * Python's `s[:t]`: the first `t` elements when `t >= 0`, otherwise all
   * but the last `-t` (nothing when `-t >= |s|`).
   */
  function PyPrefix<T>(s: seq<T>, t: int): (p: seq<T>)
    ensures t >= 0 ==> |p| == if t < |s| then t else |s|
    ensures t < 0 ==> |p| == if |s| + t > 0 then |s| + t else 0
    ensures p == s[..|p|]
  {
    if t >= 0 then (if t < |s| then s[..t] else s)
    else if |s| + t > 0 then s[..|s| + t] else []
  }

  /** `a` is `b` with some elements left out, the rest in order. */
  predicate IsSubsequence<T(==)>(a: seq<T>, b: seq<T>)
    decreases |b|
  {
    if a == [] then true
    else if b == [] then false
    else if a[|a| - 1] == b[|b| - 1] then IsSubsequence(a[..|a| - 1], b[..|b| - 1])
    else IsSubsequence(a, b[..|b| - 1])
  }

  /** A subsequence of the shorter sequence is a subsequence after one more element. */
  lemma {:induction false} SubsequenceExtend<T>(a: seq<T>, b: seq<T>)
    requires |b| > 0 && IsSubsequence(a, b[..|b| - 1])
    ensures IsSubsequence(a, b)
    decreases |b|, 0
  {
    if a != [] && a[|a| - 1] == b[|b| - 1] {
      SubsequenceDropLast(a, b[..|b| - 1]);
    }
  }

  lemma {:induction false} SubsequenceDropLast<T>(a: seq<T>, b: seq<T>)
    requires a != [] && IsSubsequence(a, b)
    ensures IsSubsequence(a[..|a| - 1], b)
    decreases |b|, 1
  {
    if b != [] {
      if a[|a| - 1] == b[|b| - 1] {
        var a', b' := a[..|a| - 1], b[..|b| - 1];
        if a' != [] {
          SubsequenceDropLast(a', b');
          SubsequenceExtend(a'[..|a'| - 1], b);
        }
        SubsequenceExtend(a', b);
      } else {
        SubsequenceDropLast(a, b[..|b| - 1]);
        SubsequenceExtend(a[..|a| - 1], b);
      }
    }
  }

  /** Appending the same element to both keeps a subsequence. */
  lemma SubsequenceAppend<T>(a: seq<T>, b: seq<T>, x: T)
    requires IsSubsequence(a, b)
    ensures IsSubsequence(a + [x], b + [x])
  {
    assert (a + [x])[..|a|] == a && (b + [x])[..|b|] == b;
  }

  /** A DataFrame whose columns the scripts assign in place. */
  class DataFrame {
    var columns: seq<string>
    var rows: seq<seq<Cell>>

    function View(): Table
      reads this
    {
      Table(columns, rows)
    }

    /** Every row is as wide as the header and no two columns share a name. */
    ghost predicate Valid()
      reads this
    {
      Rectangular(View()) && Distinct(columns)
    }

    constructor (t: Table)
      requires Rectangular(t) && Distinct(t.columns)
      ensures Valid() && View() == t
    {
      columns := t.columns;
      rows := t.rows;
    }

    /** `df[name] = values`. */
    method SetColumn(name: string, values: seq<Cell>)
      requires Valid() && |values| == |rows|
      modifies this
      ensures Valid()
      ensures View() == WithColumn(old(View()), name, values)
    {
      var old_rows := rows;
      if name in columns {
        var c := IndexOf(columns, name);
        rows := seq(|old_rows|, r requires 0 <= r < |old_rows| => old_rows[r][c := values[r]]);
      } else {
        rows := seq(|old_rows|, r requires 0 <= r < |old_rows| => old_rows[r] + [values[r]]);
        columns := columns + [name];
      }
    }

    /** `df[names] = df[names].apply(f)`: rewrite every cell of the named columns with `f`, elsewhere nothing changes. */
    method MapColumns(names: set<string>, f: Cell -> Cell)
      requires Valid()
      modifies this
      ensures Valid() && columns == old(columns) && |rows| == |old(rows)|
      ensures forall r, c :: 0 <= r < |rows| && 0 <= c < |columns| ==>
        rows[r][c] == if columns[c] in names then f(old(rows[r][c])) else old(rows[r][c])
    {
      var cols, old_rows := columns, rows;
      rows := seq(|old_rows|, r requires 0 <= r < |old_rows| =>
        seq(|cols|, c requires 0 <= c < |cols| =>
          if cols[c] in names then f(old_rows[r][c]) else old_rows[r][c]));
    }
  }
}
