/**
 * model_baseline.py: derive the targets (raising when a goal column is
 * missing), drop the identifier, goal and target columns to get the
 * features, encode the labels, split 70/30 stratified, fit a random forest
 * on the training rows and report the confusion matrix and accuracy on
 * the test rows. The forest is a parameter: a predictor fitted on the
 * training features and codes, applied to one test row.
 */
module Baseline {
  import opened Wrappers
  import opened Frames
  import opened Targets
  import opened Evaluation

  /** `cols_to_drop`: identifiers, teams, goals and the target itself. */
  const ColsToDrop: set<string> :=
    {"fixture_id", "date", "league", "round", "home_team", "away_team", "home_goals", "away_goals", "result_label"}

  const MissingGoalsMessage: string := "El dataset no tiene columnas home_goals y away_goals"

  /** A fitted random forest applied to one row: training features, training codes, test row, predicted code. */
  type Predictor = (Table, seq<nat>, seq<Cell>) -> nat

  /** `X = df.drop(columns=cols_to_drop, errors="ignore")`. */
  function Features(u: Table): Table
    requires Rectangular(u)
  {
    DropColumns(u, ColsToDrop)
  }

  /**
   * The features are the frame's columns outside the drop set, in their
   * original order and with their cells; absent names cost nothing; and
   * goal_diff, not being in the drop set, stays a feature.
   */
  lemma FeatureSelection(u: Table)
    requires Rectangular(u) && Distinct(u.columns)
    ensures forall c :: c in Features(u).columns <==> c in u.columns && c !in ColsToDrop
    ensures "goal_diff" in u.columns ==> "goal_diff" in Features(u).columns
    ensures Distinct(Features(u).columns) && |Features(u).rows| == |u.rows|
    ensures forall i, j :: 0 <= i < j < |Features(u).columns| ==>
      IndexOf(u.columns, Features(u).columns[i]) < IndexOf(u.columns, Features(u).columns[j])
    ensures forall c :: c in Features(u).columns ==> Column(Features(u), c) == Column(u, c)
  {
    DropColumnsOrder(u, ColsToDrop);
    DropColumnsCells(u, ColsToDrop);
  }

  /** No cell of the frame is a string, so the forest can convert it to floats. */
  predicate NumericFeatures(x: Table) {
    forall r, c :: 0 <= r < |x.rows| && 0 <= c < |x.rows[r]| ==> IsNumericCell(x.rows[r][c])
  }

  /** `rf.fit(X_train, y_train)` then `rf.predict(X_test)`: one predicted code per test row. */
  function Predictions(predict: Predictor, xTrain: Table, yTrain: seq<nat>, xTest: Table): (yPred: seq<nat>)
    ensures |yPred| == |xTest.rows|
  {
    seq(|xTest.rows|, k requires 0 <= k < |xTest.rows| => predict(xTrain, yTrain, xTest.rows[k]))
  }

  /**
   * Steps 3 to 7 on the frame with targets: features, encoded labels, the
   * split, the forest (which rejects a string feature), the classification
   * report (which rejects test labels and predictions that miss a class),
   * the confusion matrix and the accuracy on the test rows.
   */
  function TrainAndEvaluate(u: Table, perm: seq<nat>, predict: Predictor): Result<Report, Exception>
    requires Rectangular(u) && "result_label" in u.columns && AllStrings(Column(u, "result_label"))
    requires IsPermutation(perm, |u.rows|)
  {
    var x := Features(u);
    var labels := Strings(Column(u, "result_label"));
    var codes := Encode(labels);
    match StratifiedSplit(codes, perm)
    case Failure(e) => Failure(e)
    case Success(s) =>
      SplitSizes(codes, perm);
      if !NumericFeatures(x) then Failure(ValueError("could not convert string to float"))
      else
        var xTrain, xTest := SelectRows(x, s.train), SelectRows(x, s.test);
        var yTrain, yTest := Take(codes, s.train), Take(codes, s.test);
        var yPred := Predictions(predict, xTrain, yTrain, xTest);
        Evaluate(Classes(labels), |s.train|, yTest, yPred)
  }

  /** The whole script on the loaded frame `t`. */
  function Baseline(t: Table, perm: seq<nat>, predict: Predictor): Result<Report, Exception>
    requires Rectangular(t) && IsPermutation(perm, |t.rows|)
  {
    if !("home_goals" in t.columns && "away_goals" in t.columns) then Failure(ValueError(MissingGoalsMessage))
    else match WithTargets(t)
      case Failure(e) => Failure(e)
      case Success(u) =>
        LabelColumnNames(t);
        TrainAndEvaluate(u, perm, predict)
  }

  /**
   * A missing goal column raises ValueError before any feature or model
   * step; a run gets as far as the model only when the targets can be
   * derived.
   */
  lemma BaselineGuard(t: Table, perm: seq<nat>, predict: Predictor)
    requires Rectangular(t) && IsPermutation(perm, |t.rows|)
    ensures "home_goals" !in t.columns || "away_goals" !in t.columns ==>
      Baseline(t, perm, predict) == Failure(ValueError(MissingGoalsMessage))
    ensures Baseline(t, perm, predict).Success? ==> TargetsDerivable(t)
  {
    if "home_goals" in t.columns && "away_goals" in t.columns {
      WithTargetsSucceeds(t);
    }
  }

  /**
   * What a successful training and evaluation reports: train and test sizes
   * that add up to the number of rows with ceil(0.3 n) test rows, the sorted
   * distinct labels as classes, a matrix with one row per class, and a
   * consistent matrix and accuracy.
   */
  lemma TrainAndEvaluateReport(u: Table, perm: seq<nat>, predict: Predictor)
    requires Rectangular(u) && "result_label" in u.columns && AllStrings(Column(u, "result_label"))
    requires IsPermutation(perm, |u.rows|) && TrainAndEvaluate(u, perm, predict).Success?
    ensures
      var r := TrainAndEvaluate(u, perm, predict).value;
      r.trainSize + r.testSize == |u.rows| && r.testSize == TestSize(|u.rows|) &&
      r.classes == Classes(Strings(Column(u, "result_label"))) && |r.confusion| == |r.classes| && Consistent(r)
  {
    var labels := Strings(Column(u, "result_label"));
    var codes := Encode(labels);
    var s := StratifiedSplit(codes, perm).value;
    SplitSizes(codes, perm);
    var x := Features(u);
    var xTrain, xTest := SelectRows(x, s.train), SelectRows(x, s.test);
    var yTrain, yTest := Take(codes, s.train), Take(codes, s.test);
    var yPred := Predictions(predict, xTrain, yTrain, xTest);
    assert TrainAndEvaluate(u, perm, predict) == Evaluate(Classes(labels), |s.train|, yTest, yPred);
  }

  /**
   * A successful run of the script reports the sizes, matrix and accuracy
   * above, one matrix row per class, and its classes are sorted and drawn
   * from the three label names.
   */
  lemma BaselineReport(t: Table, perm: seq<nat>, predict: Predictor)
    requires Rectangular(t) && IsPermutation(perm, |t.rows|) && Baseline(t, perm, predict).Success?
    ensures
      var r := Baseline(t, perm, predict).value;
      r.trainSize + r.testSize == |t.rows| && r.testSize == TestSize(|t.rows|) && Consistent(r) &&
      |r.confusion| == |r.classes| && StrictlySorted(r.classes) &&
      (forall c :: c in r.classes ==> c == "away_win" || c == "draw" || c == "home_win")
  {
    BaselineUnfold(t, perm, predict);
    var u := WithTargets(t).value;
    TrainAndEvaluateReport(u, perm, predict);
    OutcomeNamesClasses(Column(u, "result_label"));
  }

  /** A run past the guard is the target derivation followed by training and evaluation. */
  lemma BaselineUnfold(t: Table, perm: seq<nat>, predict: Predictor)
    requires Rectangular(t) && IsPermutation(perm, |t.rows|) && Baseline(t, perm, predict).Success?
    ensures WithTargets(t).Success?
    ensures
      var u := WithTargets(t).value;
      Rectangular(u) && |u.rows| == |t.rows| && "result_label" in u.columns &&
      (forall r :: 0 <= r < |u.rows| ==>
        Column(u, "result_label")[r] in {Some(StrVal("home_win")), Some(StrVal("away_win")), Some(StrVal("draw"))}) &&
      AllStrings(Column(u, "result_label")) &&
      Baseline(t, perm, predict) == TrainAndEvaluate(u, perm, predict)
  {
    LabelColumnNames(t);
  }

  /**
   * The script on a DataFrame: the guard, the in-place target columns,
   * then training and evaluation. The frame keeps the target columns.
   */
  method RunBaseline(df: DataFrame, perm: seq<nat>, predict: Predictor) returns (r: Result<Report, Exception>)
    requires df.Valid() && IsPermutation(perm, |df.rows|)
    modifies df
    ensures r == Baseline(old(df.View()), perm, predict)
    ensures r.Success? ==> df.View() == WithTargets(old(df.View())).value
    ensures WithTargets(old(df.View())).Success? ==> df.View() == WithTargets(old(df.View())).value
    ensures WithTargets(old(df.View())).Failure? ==> df.View() == old(df.View())
  {
    if !("home_goals" in df.columns && "away_goals" in df.columns) {
      return Failure(ValueError(MissingGoalsMessage));
    }
    ghost var t := df.View();
    var o := AddTargets(df);
    if o.Fail? {
      return Failure(o.error);
    }
    LabelColumnNames(t);
    r := TrainAndEvaluate(df.View(), perm, predict);
  }
}
