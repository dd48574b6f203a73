/**
 * merge_laliga_2022.py: `fixtures_df.merge(stats_df, on="fixture_id",
 * how="inner")`. One output row per pair of a fixtures row and a stats row
 * with equal fixture_id, in fixtures order and then stats order; the key
 * column appears once (where the fixtures frame has it), and any other name
 * both frames share is suffixed `_x` on the left and `_y` on the right.
 */
module Merge {
  import opened Wrappers
  import opened Frames

  const JoinKey: string := "fixture_id"

  /** A left column name in the joined frame. */
  function LeftName(l: string, rightColumns: seq<string>): string {
    if l != JoinKey && l in rightColumns then l + "_x" else l
  }

  /** A right column name in the joined frame. */
  function RightName(r: string, leftColumns: seq<string>): string {
    if r in leftColumns then r + "_y" else r
  }

  /** The sequence without its element at `i`. */
  function Without<T>(s: seq<T>, i: nat): (w: seq<T>)
    requires i < |s|
    ensures |w| == |s| - 1
  {
    s[..i] + s[i + 1..]
  }

  /** The left columns, then the right columns except the right key. */
  function JoinColumns(lc: seq<string>, rc: seq<string>, ri: nat): (cols: seq<string>)
    requires ri < |rc|
    ensures |cols| == |lc| + |rc| - 1
  {
    seq(|lc|, i requires 0 <= i < |lc| => LeftName(lc[i], rc)) +
    Without(seq(|rc|, j requires 0 <= j < |rc| => RightName(rc[j], lc)), ri)
  }

  /** The pairs `(i, j)` with `rk[j] == k`, in increasing `j`. */
  function RightMatches(i: nat, k: Cell, rk: seq<Cell>): (ps: seq<(nat, nat)>)
    ensures forall p :: p in ps <==> p.0 == i && p.1 < |rk| && rk[p.1] == k
    ensures forall a, b :: 0 <= a < b < |ps| ==> ps[a].1 < ps[b].1
  {
    if rk == [] then []
    else
      var n := |rk| - 1;
      var prefix := RightMatches(i, k, rk[..n]);
      if rk[n] == k then prefix + [(i, n)] else prefix
  }

  /** Every pair of a left and a right position with equal keys, in left order and then right order. */
  function MatchPairs(lk: seq<Cell>, rk: seq<Cell>): (ps: seq<(nat, nat)>)
    ensures forall p :: p in ps <==> p.0 < |lk| && p.1 < |rk| && lk[p.0] == rk[p.1]
  {
    if lk == [] then []
    else
      var n := |lk| - 1;
      MatchPairs(lk[..n], rk) + RightMatches(n, lk[n], rk)
  }

  /** The joined row: the left row, then the right row without its key cell. */
  function Combine(lrow: seq<Cell>, rrow: seq<Cell>, ri: nat): seq<Cell>
    requires ri < |rrow|
  {
    lrow + Without(rrow, ri)
  }

  /** The inner join on fixture_id; a frame without that column raises KeyError. */
  function InnerJoin(left: Table, right: Table): (r: Result<Table, Exception>)
    requires Rectangular(left) && Rectangular(right)
    ensures r.Failure? <==> JoinKey !in left.columns || JoinKey !in right.columns
    ensures r.Failure? ==> r.error == KeyError(JoinKey)
    ensures r.Success? ==> Rectangular(r.value) && |r.value.columns| == |left.columns| + |right.columns| - 1
  {
    if JoinKey !in left.columns || JoinKey !in right.columns then Failure(KeyError(JoinKey))
    else
      var li, ri := IndexOf(left.columns, JoinKey), IndexOf(right.columns, JoinKey);
      var ps := MatchPairs(Column(left, JoinKey), Column(right, JoinKey));
      assert forall k :: 0 <= k < |ps| ==> ps[k] in ps;
      Success(Table(JoinColumns(left.columns, right.columns, ri),
        seq(|ps|, k requires 0 <= k < |ps| => Combine(left.rows[ps[k].0], right.rows[ps[k].1], ri))))
  }

  /**
   * Each joined row is a fixtures row followed by a stats row (minus its
   * key) whose fixture_id is equal, and every such pair gives a joined row:
   * a fixture without stats, or stats without a fixture, gives none.
   */
  lemma InnerJoinRows(left: Table, right: Table)
    requires Rectangular(left) && Rectangular(right) && JoinKey in left.columns && JoinKey in right.columns
    ensures var out := InnerJoin(left, right).value;
      var lk, rk, ri := Column(left, JoinKey), Column(right, JoinKey), IndexOf(right.columns, JoinKey);
      forall k :: 0 <= k < |out.rows| ==>
        exists i, j :: 0 <= i < |left.rows| && 0 <= j < |right.rows| && lk[i] == rk[j] &&
          out.rows[k] == Combine(left.rows[i], right.rows[j], ri)
    ensures var out := InnerJoin(left, right).value;
      var lk, rk, ri := Column(left, JoinKey), Column(right, JoinKey), IndexOf(right.columns, JoinKey);
      forall i, j :: 0 <= i < |left.rows| && 0 <= j < |right.rows| && lk[i] == rk[j] ==>
        Combine(left.rows[i], right.rows[j], ri) in out.rows
  {
    var out := InnerJoin(left, right).value;
    var lk, rk, ri := Column(left, JoinKey), Column(right, JoinKey), IndexOf(right.columns, JoinKey);
    var ps := MatchPairs(lk, rk);
    forall k | 0 <= k < |out.rows|
      ensures exists i, j ::
        0 <= i < |left.rows| && 0 <= j < |right.rows| && lk[i] == rk[j] &&
        out.rows[k] == Combine(left.rows[i], right.rows[j], ri)
    {
      assert ps[k] in ps;
    }
    forall i, j | 0 <= i < |left.rows| && 0 <= j < |right.rows| && lk[i] == rk[j]
      ensures Combine(left.rows[i], right.rows[j], ri) in out.rows
    {
      assert (i, j) in ps;
      var k :| 0 <= k < |ps| && ps[k] == (i, j);
      assert out.rows[k] == Combine(left.rows[i], right.rows[j], ri);
    }
  }

  /**
   * The key column appears once in the joined frame, at the position the
   * fixtures frame has it, and every joined row's fixture_id occurs in both
   * frames.
   */
  lemma InnerJoinKey(left: Table, right: Table)
    requires Rectangular(left) && Rectangular(right) && JoinKey in left.columns && JoinKey in right.columns
    requires Distinct(left.columns)
    ensures var out := InnerJoin(left, right).value;
      JoinKey in out.columns && IndexOf(out.columns, JoinKey) == IndexOf(left.columns, JoinKey) &&
      (forall c :: 0 <= c < |out.columns| && c != IndexOf(left.columns, JoinKey) ==> out.columns[c] != JoinKey)
    ensures var out := InnerJoin(left, right).value;
      forall k :: 0 <= k < |out.rows| ==>
        Column(out, JoinKey)[k] in Column(left, JoinKey) && Column(out, JoinKey)[k] in Column(right, JoinKey)
  {
    var out := InnerJoin(left, right).value;
    var li, ri := IndexOf(left.columns, JoinKey), IndexOf(right.columns, JoinKey);
    var lc, rc := left.columns, right.columns;
    forall c | 0 <= c < |out.columns| && c != li ensures out.columns[c] != JoinKey {
      if c < |lc| {
        NotKeySuffix(lc[c], "_x");
        assert lc[c] != JoinKey;
      } else {
        var rest := Without(seq(|rc|, j requires 0 <= j < |rc| => RightName(rc[j], lc)), ri);
        assert out.columns[c] == rest[c - |lc|];
        var j := if c - |lc| < ri then c - |lc| else c - |lc| + 1;
        assert rest[c - |lc|] == RightName(rc[j], lc);
        NotKeySuffix(rc[j], "_y");
        assert j != ri;
        IndexOfUnique(rc, JoinKey, ri);
      }
    }
    assert out.columns[li] == JoinKey;
    assert JoinKey !in out.columns[..li];
    IndexOfUnique(out.columns, JoinKey, li);
    var lk, rk := Column(left, JoinKey), Column(right, JoinKey);
    var ps := MatchPairs(lk, rk);
    forall k | 0 <= k < |out.rows| ensures Column(out, JoinKey)[k] in lk && Column(out, JoinKey)[k] in rk {
      assert ps[k] in ps;
      assert Column(out, JoinKey)[k] == lk[ps[k].0];
    }
  }

  /** No name followed by a two-letter suffix is the key, whose last letters are "id". */
  lemma NotKeySuffix(name: string, suffix: string)
    requires |suffix| == 2 && suffix[1] != 'd'
    ensures name + suffix != JoinKey
  {
    var s := name + suffix;
    assert s[|s| - 1] == suffix[1] && JoinKey[|JoinKey| - 1] == 'd';
  }

  /** The distinct values of a key column. */
  function KeySet(ks: seq<Cell>): set<Cell> {
    set k | k in ks
  }

  /** With unique ids on both sides, the join has one row per id the two frames share. */
  lemma InnerJoinSize(left: Table, right: Table)
    requires Rectangular(left) && Rectangular(right) && JoinKey in left.columns && JoinKey in right.columns
    requires Distinct(Column(left, JoinKey)) && Distinct(Column(right, JoinKey))
    ensures |InnerJoin(left, right).value.rows| ==
      |KeySet(Column(left, JoinKey)) * KeySet(Column(right, JoinKey))|
  {
    MatchPairsSize(Column(left, JoinKey), Column(right, JoinKey));
  }

  lemma {:induction false} MatchPairsSize(lk: seq<Cell>, rk: seq<Cell>)
    requires Distinct(lk) && Distinct(rk)
    ensures |MatchPairs(lk, rk)| == |KeySet(lk) * KeySet(rk)|
  {
    if lk != [] {
      var n := |lk| - 1;
      MatchPairsSize(lk[..n], rk);
      RightMatchesSize(n, lk[n], rk);
      SharedKeysStep(lk, rk);
    } else {
      assert KeySet(lk) == {};
    }
  }

  /** Adding the last left key adds one shared key when the right side has it and none otherwise. */
  lemma SharedKeysStep(lk: seq<Cell>, rk: seq<Cell>)
    requires lk != [] && Distinct(lk)
    ensures var n := |lk| - 1;
      |KeySet(lk) * KeySet(rk)| == |KeySet(lk[..n]) * KeySet(rk)| + if lk[n] in rk then 1 else 0
  {
    var n := |lk| - 1;
    assert lk == lk[..n] + [lk[n]];
    assert KeySet(lk) == KeySet(lk[..n]) + {lk[n]};
    assert lk[n] !in KeySet(lk[..n]);
    if lk[n] in rk {
      assert KeySet(lk) * KeySet(rk) == KeySet(lk[..n]) * KeySet(rk) + {lk[n]};
    } else {
      assert KeySet(lk) * KeySet(rk) == KeySet(lk[..n]) * KeySet(rk);
    }
  }

  /** Against unique right keys, a left key matches once if the right side has it and never otherwise. */
  lemma {:induction false} RightMatchesSize(i: nat, k: Cell, rk: seq<Cell>)
    requires Distinct(rk)
    ensures |RightMatches(i, k, rk)| == if k in rk then 1 else 0
  {
    if rk != [] {
      var n := |rk| - 1;
      RightMatchesSize(i, k, rk[..n]);
      assert rk == rk[..n] + [rk[n]];
    }
  }
}
