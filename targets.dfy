/**
 * Match-outcome targets: `goal_diff = home_goals - away_goals` and the
 * three-way `result_label` chosen by the sign of `goal_diff`. The rule is
 * written once here; the three scripts differ only in how they guard the
 * goal columns (model_baseline.py raises, eda_laliga.py warns and skips,
 * model_hybrid_qnn_rf.py does not check), and those guards live with each
 * script's module.
 */
module Targets {
  import opened Wrappers
  import opened Frames

  datatype Label = HomeWin | AwayWin | Draw

  /** The text stored in the `result_label` column. */
  function Name(l: Label): string {
    match l
    case HomeWin => "home_win"
    case AwayWin => "away_win"
    case Draw => "draw"
  }

  /** `label_result`: the tests `goal_diff > 0` and `goal_diff < 0`, in that order, else a draw. */
  function LabelFor(positive: bool, negative: bool): Label {
    if positive then HomeWin else if negative then AwayWin else Draw
  }

  function LabelResult(goalDiff: int): Label {
    LabelFor(goalDiff > 0, goalDiff < 0)
  }

  /** The sign rule on goal counts: exactly one label holds, and each holds iff its goal comparison does. */
  lemma SignRule(homeGoals: int, awayGoals: int)
    ensures LabelResult(homeGoals - awayGoals) == HomeWin <==> homeGoals > awayGoals
    ensures LabelResult(homeGoals - awayGoals) == AwayWin <==> homeGoals < awayGoals
    ensures LabelResult(homeGoals - awayGoals) == Draw <==> homeGoals == awayGoals
  {
  }

  /** The three label names are different, so the label column determines the label. */
  lemma NamesDistinct(a: Label, b: Label)
    ensures Name(a) == Name(b) <==> a == b
  {
    if a != b {
      assert Name(a)[0] != Name(b)[0];
    }
  }

  /**
   * The pair of goal cells one row can subtract. A string operand makes
   * the vectorised subtraction raise TypeError; pandas then retries on the
   * rows where neither operand is missing, so only a string next to a
   * present cell keeps the error.
   */
  predicate Subtractable(h: Cell, a: Cell) {
    h.None? || a.None? || (IsNumericCell(h) && IsNumericCell(a))
  }

  /**
   * One cell of `df["home_goals"] - df["away_goals"]`: a missing operand
   * gives a missing difference (NaN), a string next to a present operand
   * raises TypeError, two integers give an integer, any other numeric pair
   * a real.
   */
  function SubCells(h: Cell, a: Cell): (d: Result<Cell, Exception>)
    ensures d.Success? <==> Subtractable(h, a)
    ensures d.Success? ==> IsNumericCell(d.value)
    ensures d.Success? && h.Some? && h.value.IntVal? && a.Some? && a.value.IntVal? ==>
      d.value == Some(IntVal(h.value.i - a.value.i))
    ensures d.Success? ==> (d.value.None? <==> h.None? || a.None?)
  {
    if h.None? || a.None? then Success(None)
    else if !IsNumericCell(h) || !IsNumericCell(a) then Failure(TypeError("unsupported operand type(s) for -"))
    else if h.value.IntVal? && a.value.IntVal? then Success(Some(IntVal(h.value.i - a.value.i)))
    else Success(Some(RealVal(AsReal(h.value) - AsReal(a.value))))
  }

  /** `label_result` applied to one goal_diff cell; a missing (NaN) difference fails both comparisons and labels a draw. */
  function LabelCell(d: Cell): Label
    requires IsNumericCell(d)
  {
    match d
    case None => LabelFor(false, false)
    case Some(v) =>
      if v.IntVal? then LabelResult(v.i) else LabelFor(v.r > 0.0, v.r < 0.0)
  }

  /** The whole `goal_diff` column: one difference per row, or the TypeError of the first row that pairs a string with a present goal. */
  function DiffColumn(hs: seq<Cell>, aways: seq<Cell>): (r: Result<seq<Cell>, Exception>)
    requires |hs| == |aways|
    ensures r.Success? <==> forall i :: 0 <= i < |hs| ==> SubCells(hs[i], aways[i]).Success?
    ensures r.Success? ==> |r.value| == |hs|
    ensures r.Success? ==> forall i :: 0 <= i < |hs| ==> SubCells(hs[i], aways[i]) == Success(r.value[i])
    ensures r.Failure? ==> r.error.TypeError?
  {
    if hs == [] then Success([])
    else match SubCells(hs[0], aways[0])
      case Failure(e) => Failure(e)
      case Success(d) =>
        match DiffColumn(hs[1..], aways[1..])
        case Failure(e) => Failure(e)
        case Success(ds) => Success([d] + ds)
  }

  /** The `result_label` column: the label name of each row's goal_diff. */
  function LabelColumn(ds: seq<Cell>): (labels: seq<Cell>)
    requires forall i :: 0 <= i < |ds| ==> IsNumericCell(ds[i])
    ensures |labels| == |ds|
  {
    seq(|ds|, i requires 0 <= i < |ds| => Some(StrVal(Name(LabelCell(ds[i])))))
  }

  /**
   * The unguarded derivation: `df["goal_diff"] = df["home_goals"] - df["away_goals"]`
   * then `df["result_label"] = df.apply(label_result, axis=1)`. Reading an absent
   * goal column raises KeyError (home_goals is read first).
   */
  function WithTargets(t: Table): Result<Table, Exception>
    requires Rectangular(t)
  {
    if "home_goals" !in t.columns then Failure(KeyError("home_goals"))
    else if "away_goals" !in t.columns then Failure(KeyError("away_goals"))
    else match DiffColumn(Column(t, "home_goals"), Column(t, "away_goals"))
      case Failure(e) => Failure(e)
      case Success(diffs) => Success(AssignTargets(t, diffs))
  }

  /** The two assignments: goal_diff, then result_label computed from the goal_diff just assigned. */
  function AssignTargets(t: Table, diffs: seq<Cell>): (u: Table)
    requires Rectangular(t) && |diffs| == |t.rows|
    requires forall i :: 0 <= i < |diffs| ==> IsNumericCell(diffs[i])
    ensures Rectangular(u) && |u.rows| == |t.rows|
  {
    var withDiff := WithColumn(t, "goal_diff", diffs);
    WithColumnReads(t, "goal_diff", diffs);
    WithColumn(withDiff, "result_label", LabelColumn(Column(withDiff, "goal_diff")))
  }

  /** The original columns keep their places; at most goal_diff and result_label are appended. */
  lemma AssignTargetsColumns(t: Table, diffs: seq<Cell>)
    requires Rectangular(t) && |diffs| == |t.rows|
    requires forall i :: 0 <= i < |diffs| ==> IsNumericCell(diffs[i])
    ensures var u := AssignTargets(t, diffs);
      |t.columns| <= |u.columns| && u.columns[..|t.columns|] == t.columns
    ensures var u := AssignTargets(t, diffs);
      forall c :: c in u.columns <==> c in t.columns || c == "goal_diff" || c == "result_label"
  {
    var withDiff := WithColumn(t, "goal_diff", diffs);
    assert withDiff.columns[..|t.columns|] == t.columns;
    var u := AssignTargets(t, diffs);
    assert u.columns[..|withDiff.columns|] == withDiff.columns;
  }

  /**
   * After the two assignments goal_diff reads the differences, result_label
   * reads their labels, and every other column reads as before.
   */
  lemma AssignTargetsReads(t: Table, diffs: seq<Cell>)
    requires Rectangular(t) && |diffs| == |t.rows|
    requires forall i :: 0 <= i < |diffs| ==> IsNumericCell(diffs[i])
    ensures var u := AssignTargets(t, diffs);
      "goal_diff" in u.columns && Column(u, "goal_diff") == diffs
    ensures var u := AssignTargets(t, diffs);
      "result_label" in u.columns && Column(u, "result_label") == LabelColumn(diffs)
    ensures var u := AssignTargets(t, diffs);
      forall c :: c in t.columns && c != "goal_diff" && c != "result_label" ==> Column(u, c) == Column(t, c)
  {
    var withDiff := WithColumn(t, "goal_diff", diffs);
    WithColumnReads(t, "goal_diff", diffs);
    var labels := LabelColumn(diffs);
    WithColumnReads(withDiff, "result_label", labels);
  }

  /** What the derivation needs: both goal columns present, and no string beside a present goal in the same row. */
  predicate TargetsDerivable(t: Table)
    requires Rectangular(t)
  {
    "home_goals" in t.columns && "away_goals" in t.columns &&
    forall r :: 0 <= r < |t.rows| ==> Subtractable(Column(t, "home_goals")[r], Column(t, "away_goals")[r])
  }

  /** The derivation succeeds exactly when the goal columns are there and every row can be subtracted. */
  lemma WithTargetsSucceeds(t: Table)
    requires Rectangular(t)
    ensures WithTargets(t).Success? <==> TargetsDerivable(t)
    ensures "home_goals" !in t.columns ==> WithTargets(t) == Failure(KeyError("home_goals"))
  {
    if "home_goals" in t.columns && "away_goals" in t.columns {
      var hs, aways := Column(t, "home_goals"), Column(t, "away_goals");
      assert DiffColumn(hs, aways).Success? <==> forall i :: 0 <= i < |hs| ==> SubCells(hs[i], aways[i]).Success?;
    }
  }

  /**
   * A successful derivation keeps every row and every existing column, adds
   * goal_diff and result_label (overwriting them if present) and leaves every
   * other column as it was.
   */
  lemma WithTargetsKeeps(t: Table)
    requires Rectangular(t) && WithTargets(t).Success?
    ensures Rectangular(WithTargets(t).value) && |WithTargets(t).value.rows| == |t.rows|
    ensures WithTargets(t).value.columns[..|t.columns|] == t.columns
    ensures forall c :: c in WithTargets(t).value.columns <==> c in t.columns || c == "goal_diff" || c == "result_label"
    ensures forall c :: c in t.columns && c != "goal_diff" && c != "result_label" ==>
      Column(WithTargets(t).value, c) == Column(t, c)
  {
    var diffs := DiffColumn(Column(t, "home_goals"), Column(t, "away_goals")).value;
    AssignTargetsColumns(t, diffs);
    AssignTargetsReads(t, diffs);
  }

  /** Deriving the targets keeps a column name other than the two targets exactly when the frame has it. */
  lemma TargetsKeepName(t: Table, name: string)
    requires Rectangular(t) && WithTargets(t).Success? && name != "goal_diff" && name != "result_label"
    ensures name in WithTargets(t).value.columns <==> name in t.columns
  {
    AssignTargetsColumns(t, DiffColumn(Column(t, "home_goals"), Column(t, "away_goals")).value);
  }

  /**
   * Row by row: with integer goals h and a, goal_diff is h - a and result_label
   * is the sign-rule label of h - a; with a missing goal, goal_diff is missing and
   * the label is draw.
   */
  lemma {:induction false} WithTargetsRow(t: Table, r: nat)
    requires Rectangular(t) && WithTargets(t).Success? && r < |t.rows|
    ensures "goal_diff" in WithTargets(t).value.columns && "result_label" in WithTargets(t).value.columns
    ensures
      var u := WithTargets(t).value;
      var h := Column(t, "home_goals")[r];
      var a := Column(t, "away_goals")[r];
      var d := Column(u, "goal_diff")[r];
      IsNumericCell(d) &&
      Column(u, "result_label")[r] == Some(StrVal(Name(LabelCell(d)))) &&
      (h.Some? && h.value.IntVal? && a.Some? && a.value.IntVal? ==>
        d == Some(IntVal(h.value.i - a.value.i)) &&
        Column(u, "result_label")[r] == Some(StrVal(Name(LabelResult(h.value.i - a.value.i))))) &&
      (h.None? || a.None? ==> d.None? && Column(u, "result_label")[r] == Some(StrVal(Name(Draw))))
  {
    var diffs := DiffColumn(Column(t, "home_goals"), Column(t, "away_goals")).value;
    AssignTargetsReads(t, diffs);
    assert SubCells(Column(t, "home_goals")[r], Column(t, "away_goals")[r]) == Success(diffs[r]);
  }

  /** Every cell of result_label is one of the three label names. */
  lemma {:induction false} LabelColumnNames(t: Table)
    requires Rectangular(t) && WithTargets(t).Success?
    ensures Rectangular(WithTargets(t).value) && |WithTargets(t).value.rows| == |t.rows|
    ensures "result_label" in WithTargets(t).value.columns
    ensures AllStrings(Column(WithTargets(t).value, "result_label"))
    ensures forall r :: 0 <= r < |t.rows| ==>
      Column(WithTargets(t).value, "result_label")[r] in {Some(StrVal("home_win")), Some(StrVal("away_win")), Some(StrVal("draw"))}
  {
    var diffs := DiffColumn(Column(t, "home_goals"), Column(t, "away_goals")).value;
    AssignTargetsReads(t, diffs);
    forall r | 0 <= r < |t.rows|
      ensures LabelColumn(diffs)[r] in {Some(StrVal("home_win")), Some(StrVal("away_win")), Some(StrVal("draw"))}
    {
      match LabelCell(diffs[r])
      case HomeWin =>
      case AwayWin =>
      case Draw =>
    }
  }

  /** The ten-match scenario: the label of each match. */
  lemma TenMatchScenario()
    ensures
      [LabelResult(2 - 0), LabelResult(0 - 2), LabelResult(1 - 1), LabelResult(3 - 1), LabelResult(0 - 0),
       LabelResult(1 - 0), LabelResult(0 - 1), LabelResult(2 - 2), LabelResult(4 - 0), LabelResult(0 - 3)] ==
      [HomeWin, AwayWin, Draw, HomeWin, Draw, HomeWin, AwayWin, Draw, HomeWin, AwayWin]
  {
  }

  /** The scenario's label column counts four home wins, three away wins and three draws. */
  lemma TenMatchCounts()
    ensures var labels := [HomeWin, AwayWin, Draw, HomeWin, Draw, HomeWin, AwayWin, Draw, HomeWin, AwayWin];
      multiset(labels)[HomeWin] == 4 && multiset(labels)[AwayWin] == 3 && multiset(labels)[Draw] == 3
  {
    var first, second := [HomeWin, AwayWin, Draw, HomeWin, Draw], [HomeWin, AwayWin, Draw, HomeWin, AwayWin];
    FirstHalfCounts();
    SecondHalfCounts();
    assert first + second == [HomeWin, AwayWin, Draw, HomeWin, Draw, HomeWin, AwayWin, Draw, HomeWin, AwayWin];
    assert multiset(first + second) == multiset(first) + multiset(second);
  }

  lemma FirstHalfCounts()
    ensures var m := multiset([HomeWin, AwayWin, Draw, HomeWin, Draw]);
      m[HomeWin] == 2 && m[AwayWin] == 1 && m[Draw] == 2
  {
  }

  lemma SecondHalfCounts()
    ensures var m := multiset([HomeWin, AwayWin, Draw, HomeWin, AwayWin]);
      m[HomeWin] == 2 && m[AwayWin] == 2 && m[Draw] == 1
  {
  }

  /**
   * The in-place derivation on a DataFrame: assigns goal_diff, then result_label.
   * On an exception nothing has been assigned.
   */
  method AddTargets(df: DataFrame) returns (o: Outcome<Exception>)
    requires df.Valid()
    modifies df
    ensures df.Valid()
    ensures o.Fail? ==> WithTargets(old(df.View())) == Failure(o.error) && df.View() == old(df.View())
    ensures o.Pass? ==> WithTargets(old(df.View())) == Success(df.View())
  {
    if "home_goals" !in df.columns { return Fail(KeyError("home_goals")); }
    if "away_goals" !in df.columns { return Fail(KeyError("away_goals")); }
    var diffs := DiffColumn(Column(df.View(), "home_goals"), Column(df.View(), "away_goals"));
    if diffs.Failure? { return Fail(diffs.error); }
    ghost var t := df.View();
    df.SetColumn("goal_diff", diffs.value);
    WithColumnReads(t, "goal_diff", diffs.value);
    var labels := LabelColumn(Column(df.View(), "goal_diff"));
    df.SetColumn("result_label", labels);
    o := Pass;
  }
}
