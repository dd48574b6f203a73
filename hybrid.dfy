/**
 * model_hybrid_qnn_rf.py: derive the targets with no presence check, take
 * four match statistics as features, scale each to [0, pi] over all rows,
 * encode and split as the baseline does, turn every row into the four
 * Pauli-Z expectations of a small variational circuit, and fit a random
 * forest on those. The circuit is modelled as its gate list; the
 * state-vector simulator and the forest are parameters.
 */
module Hybrid {
  import opened Wrappers
  import opened Frames
  import opened Targets
  import opened Evaluation

  /** `feat_cols`: home and away shots on goal, home and away ball possession. */
  const FeatCols: seq<string> :=
    ["home_Shots on Goal", "away_Shots on Goal", "home_Ball Possession", "away_Ball Possession"]

  /** `n_qubits`: one wire per feature. */
  const NQubits: nat := 4

  /** `np.pi` as the double the scaler uses. */
  const Pi: real := 3.141592653589793

  // ---------------------------------------------------------------------
  // Features and scaling
  // ---------------------------------------------------------------------

  /** The first name of `names` that is not a column, if any. */
  function FirstMissing(names: seq<string>, columns: seq<string>): (m: Option<string>)
    ensures m.None? <==> forall k :: 0 <= k < |names| ==> names[k] in columns
    ensures m.Some? ==> m.value in names && m.value !in columns
  {
    if names == [] then None
    else if names[0] !in columns then Some(names[0])
    else FirstMissing(names[1..], columns)
  }

  /**
   * `X_raw = df[feat_cols].copy()`: the four feature columns in that order,
   * or KeyError naming an absent one. pandas' message lists every absent
   * feature column; the model names the first.
   */
  function SelectFeatures(u: Table): (r: Result<Table, Exception>)
    requires Rectangular(u)
    ensures r.Failure? <==> exists k :: 0 <= k < |FeatCols| && FeatCols[k] !in u.columns
    ensures r.Failure? ==> r.error.KeyError? && r.error.key in FeatCols && r.error.key !in u.columns
    ensures r.Success? ==> Rectangular(r.value) && r.value.columns == FeatCols && |r.value.rows| == |u.rows|
    ensures r.Success? ==> forall i, j :: 0 <= i < |u.rows| && 0 <= j < |FeatCols| ==>
      r.value.rows[i][j] == Column(u, FeatCols[j])[i]
  {
    match FirstMissing(FeatCols, u.columns)
    case Some(name) => Failure(KeyError(name))
    case None =>
      var idx := seq(|FeatCols|, j requires 0 <= j < |FeatCols| => IndexOf(u.columns, FeatCols[j]));
      var p := Project(u, idx);
      assert p.columns == FeatCols;
      Success(p)
  }

  /** The cells as floats for the scaler: a string or a missing value is rejected. */
  function ToReals(x: Table): (r: Result<seq<seq<real>>, Exception>)
    requires Rectangular(x)
    ensures r.Success? <==> forall i, j :: 0 <= i < |x.rows| && 0 <= j < |x.columns| ==>
      x.rows[i][j].Some? && !x.rows[i][j].value.StrVal?
    ensures r.Success? ==> |r.value| == |x.rows|
    ensures r.Success? ==> forall i :: 0 <= i < |x.rows| ==> |r.value[i]| == |x.columns|
    ensures r.Success? ==> forall i, j :: 0 <= i < |x.rows| && 0 <= j < |x.columns| ==>
      x.rows[i][j].Some? && r.value[i][j] == AsReal(x.rows[i][j].value)
  {
    if exists i, j :: 0 <= i < |x.rows| && 0 <= j < |x.columns| && (x.rows[i][j].None? || x.rows[i][j].value.StrVal?) then
      Failure(ValueError("could not convert string to float"))
    else
      Success(seq(|x.rows|, i requires 0 <= i < |x.rows| =>
        seq(|x.columns|, j requires 0 <= j < |x.columns| => AsReal(x.rows[i][j].value))))
  }

  function MinOf(s: seq<real>): (m: real)
    requires |s| > 0
    ensures m in s && forall k :: 0 <= k < |s| ==> m <= s[k]
  {
    if |s| == 1 then s[0]
    else var rest := MinOf(s[1..]); if s[0] <= rest then s[0] else rest
  }

  function MaxOf(s: seq<real>): (m: real)
    requires |s| > 0
    ensures m in s && forall k :: 0 <= k < |s| ==> s[k] <= m
  {
    if |s| == 1 then s[0]
    else var rest := MaxOf(s[1..]); if s[0] >= rest then s[0] else rest
  }

  /** Column `j` of a matrix. */
  function Feature(xs: seq<seq<real>>, j: nat): (col: seq<real>)
    requires forall i :: 0 <= i < |xs| ==> j < |xs[i]|
    ensures |col| == |xs|
  {
    seq(|xs|, i requires 0 <= i < |xs| => xs[i][j])
  }

  /**
   * MinMaxScaler with `feature_range=(0, pi)` on one value of a column with
   * minimum `lo` and maximum `hi`; a constant column has its range taken
   * as 1.
   */
  function ScaleValue(x: real, lo: real, hi: real): real {
    var range := hi - lo;
    if range == 0.0 then (x - lo) * Pi else (x - lo) * (Pi / range)
  }

  /** A value within its column's range scales into [0, pi]; the minimum goes to 0 and, in a non-constant column, the maximum to pi. */
  lemma ScaleValueBounds(x: real, lo: real, hi: real)
    requires lo <= x <= hi
    ensures 0.0 <= ScaleValue(x, lo, hi) <= Pi
    ensures x == lo ==> ScaleValue(x, lo, hi) == 0.0
    ensures lo < hi && x == hi ==> ScaleValue(x, lo, hi) == Pi
  {
    var range := hi - lo;
    var v := ScaleValue(x, lo, hi);
    if range != 0.0 {
      var k := Pi / range;
      assert v == (x - lo) * k;
      assert k > 0.0;
      assert range * k == Pi;
      assert (hi - x) * k >= 0.0;
      assert (x - lo) * k >= 0.0;
      assert (x - lo) * k + (hi - x) * k == range * k;
      if x == lo {
        ZeroTimes(x - lo, k);
      }
    } else {
      ZeroTimes(x - lo, Pi);
    }
  }

  lemma ZeroTimes(a: real, b: real)
    requires a == 0.0
    ensures a * b == 0.0
  {
  }

  /** Scaling keeps the order of the values in a column. */
  lemma ScaleValueMonotone(x: real, y: real, lo: real, hi: real)
    requires lo <= hi && x <= y
    ensures ScaleValue(x, lo, hi) <= ScaleValue(y, lo, hi)
  {
    var range := hi - lo;
    if range != 0.0 {
      var k := Pi / range;
      assert k > 0.0;
      assert (y - x) * k >= 0.0;
      assert (y - lo) * k == (x - lo) * k + (y - x) * k;
    }
  }

  /** `scaler.fit_transform(X_raw)`: every value scaled with its column's minimum and maximum over all rows. */
  function ScaleMatrix(xs: seq<seq<real>>): (s: seq<seq<real>>)
    requires |xs| > 0 && forall i :: 0 <= i < |xs| ==> |xs[i]| == NQubits
    ensures |s| == |xs| && forall i :: 0 <= i < |s| ==> |s[i]| == NQubits
  {
    seq(|xs|, i requires 0 <= i < |xs| =>
      seq(NQubits, j requires 0 <= j < NQubits =>
        ScaleValue(xs[i][j], MinOf(Feature(xs, j)), MaxOf(Feature(xs, j)))))
  }

  /**
   * Every scaled value lies in [0, pi], each column's minimum becomes 0, its
   * maximum becomes pi when the column is not constant, and scaling keeps
   * the order of the values within a column.
   */
  lemma ScaleMatrixRange(xs: seq<seq<real>>)
    requires |xs| > 0 && forall i :: 0 <= i < |xs| ==> |xs[i]| == NQubits
    ensures forall i, j :: 0 <= i < |xs| && 0 <= j < NQubits ==> 0.0 <= ScaleMatrix(xs)[i][j] <= Pi
    ensures forall i, j :: 0 <= i < |xs| && 0 <= j < NQubits && xs[i][j] == MinOf(Feature(xs, j)) ==>
      ScaleMatrix(xs)[i][j] == 0.0
    ensures forall i, j :: 0 <= i < |xs| && 0 <= j < NQubits ==>
      (xs[i][j] == MaxOf(Feature(xs, j)) && MinOf(Feature(xs, j)) < MaxOf(Feature(xs, j)) ==> ScaleMatrix(xs)[i][j] == Pi)
    ensures forall i, k, j :: 0 <= i < |xs| && 0 <= k < |xs| && 0 <= j < NQubits && xs[i][j] <= xs[k][j] ==>
      ScaleMatrix(xs)[i][j] <= ScaleMatrix(xs)[k][j]
  {
    var s := ScaleMatrix(xs);
    forall i, j | 0 <= i < |xs| && 0 <= j < NQubits
      ensures 0.0 <= s[i][j] <= Pi
      ensures xs[i][j] == MinOf(Feature(xs, j)) ==> s[i][j] == 0.0
      ensures xs[i][j] == MaxOf(Feature(xs, j)) && MinOf(Feature(xs, j)) < MaxOf(Feature(xs, j)) ==> s[i][j] == Pi
    {
      var col := Feature(xs, j);
      assert col[i] == xs[i][j];
      ScaleValueBounds(xs[i][j], MinOf(col), MaxOf(col));
    }
    forall i, k, j | 0 <= i < |xs| && 0 <= k < |xs| && 0 <= j < NQubits && xs[i][j] <= xs[k][j]
      ensures s[i][j] <= s[k][j]
    {
      var col := Feature(xs, j);
      assert col[i] == xs[i][j];
      ScaleValueMonotone(xs[i][j], xs[k][j], MinOf(col), MaxOf(col));
    }
  }

  // ---------------------------------------------------------------------
  // The circuit
  // ---------------------------------------------------------------------

  /** The gates the circuit issues. */
  datatype Gate = RX(angle: real, wire: nat) | RY(angle: real, wire: nat) | CNOT(control: nat, target: nat)

  /** The tape of `qnn_circuit(x, weights)`: RX(x[i]) on each wire, then RY(weights[i]) on each wire, then CNOT(i, i+1) down the chain. */
  predicate IsQnnTape(tape: seq<Gate>, x: seq<real>, weights: seq<real>)
    requires |x| >= NQubits && |weights| >= NQubits
  {
    |tape| == 3 * NQubits - 1 &&
    (forall i :: 0 <= i < NQubits ==> tape[i] == RX(x[i], i)) &&
    (forall i :: NQubits <= i < 2 * NQubits ==> tape[i] == RY(weights[i - NQubits], i - NQubits)) &&
    (forall i :: 2 * NQubits <= i < 3 * NQubits - 1 ==> tape[i] == CNOT(i - 2 * NQubits, i - 2 * NQubits + 1))
  }

  /** The same tape written as one sequence, position by position. */
  function QnnTape(x: seq<real>, weights: seq<real>): seq<Gate>
    requires |x| >= NQubits && |weights| >= NQubits
  {
    seq(3 * NQubits - 1, i requires 0 <= i < 3 * NQubits - 1 =>
      if i < NQubits then RX(x[i], i)
      else if i < 2 * NQubits then RY(weights[i - NQubits], i - NQubits)
      else CNOT(i - 2 * NQubits, i - 2 * NQubits + 1))
  }

  /** The description of the tape determines it: exactly one tape fits. */
  lemma QnnTapeUnique(tape: seq<Gate>, x: seq<real>, weights: seq<real>)
    requires |x| >= NQubits && |weights| >= NQubits
    ensures IsQnnTape(tape, x, weights) <==> tape == QnnTape(x, weights)
  {
    if IsQnnTape(tape, x, weights) {
      forall i | 0 <= i < |tape| ensures tape[i] == QnnTape(x, weights)[i] {
        if i < NQubits {
        } else if i < 2 * NQubits {
        } else {
        }
      }
    }
  }

  /** `qnn_circuit`'s three loops, issuing the gates in order. */
  method QnnCircuit(x: seq<real>, weights: seq<real>) returns (tape: seq<Gate>)
    requires |x| >= NQubits && |weights| >= NQubits
    ensures IsQnnTape(tape, x, weights)
  {
    tape := [];
    for i := 0 to NQubits
      invariant |tape| == i
      invariant forall k :: 0 <= k < i ==> tape[k] == RX(x[k], k)
    {
      tape := tape + [RX(x[i], i)];
    }
    for i := 0 to NQubits
      invariant |tape| == NQubits + i
      invariant forall k :: 0 <= k < NQubits ==> tape[k] == RX(x[k], k)
      invariant forall k :: NQubits <= k < NQubits + i ==> tape[k] == RY(weights[k - NQubits], k - NQubits)
    {
      tape := tape + [RY(weights[i], i)];
    }
    for i := 0 to NQubits - 1
      invariant |tape| == 2 * NQubits + i
      invariant forall k :: 0 <= k < NQubits ==> tape[k] == RX(x[k], k)
      invariant forall k :: NQubits <= k < 2 * NQubits ==> tape[k] == RY(weights[k - NQubits], k - NQubits)
      invariant forall k :: 2 * NQubits <= k < 2 * NQubits + i ==> tape[k] == CNOT(k - 2 * NQubits, k - 2 * NQubits + 1)
    {
      tape := tape + [CNOT(i, i + 1)];
    }
  }

  /** The simulator: the expectation of Pauli-Z on a wire after running a tape from the all-zero state. */
  type Simulator = (seq<Gate>, nat) -> real

  /** `[qml.expval(qml.PauliZ(i)) for i in range(n_qubits)]`. */
  function Measure(expZ: Simulator, tape: seq<Gate>): (out: seq<real>)
    ensures |out| == NQubits
  {
    seq(NQubits, i requires 0 <= i < NQubits => expZ(tape, i))
  }

  // The CNOT chain on computational-basis states.

  /** A CNOT on a basis state flips the target bit when the control bit is set. */
  function ApplyCnot(b: seq<bool>, control: nat, target: nat): seq<bool>
    requires control < |b| && target < |b|
  {
    b[target := b[target] != b[control]]
  }

  /** A gate list made only of CNOTs on wires below `n`. */
  predicate CnotsOn(gates: seq<Gate>, n: nat) {
    forall k :: 0 <= k < |gates| ==> gates[k].CNOT? && gates[k].control < n && gates[k].target < n
  }

  /** Runs CNOT gates on a basis state, first gate first. */
  function RunCnots(gates: seq<Gate>, b: seq<bool>): (r: seq<bool>)
    requires CnotsOn(gates, |b|)
    ensures |r| == |b|
  {
    if gates == [] then b
    else
      var g := gates[|gates| - 1];
      ApplyCnot(RunCnots(gates[..|gates| - 1], b), g.control, g.target)
  }

  /** Exclusive or of all bits. */
  function Parity(s: seq<bool>): bool {
    if s == [] then false else Parity(s[..|s| - 1]) != s[|s| - 1]
  }

  /** The first `k` gates of the chain: CNOT(0, 1), ..., CNOT(k-1, k). */
  function Chain(k: nat): seq<Gate> {
    seq(k, i requires 0 <= i < k => CNOT(i, i + 1))
  }

  /** After CNOT(0,1) ... CNOT(k-1,k), bit i <= k holds the parity of bits 0..i and later bits are untouched. */
  lemma {:induction false} ChainPrefixParity(b: seq<bool>, k: nat)
    requires k < |b|
    ensures CnotsOn(Chain(k), |b|)
    ensures forall i :: 0 <= i <= k ==> RunCnots(Chain(k), b)[i] == Parity(b[..i + 1])
    ensures forall i :: k < i < |b| ==> RunCnots(Chain(k), b)[i] == b[i]
  {
    if k == 0 {
      assert b[..1] == [b[0]];
      assert Parity(b[..1]) == (Parity([]) != b[0]);
    } else {
      ChainPrefixParity(b, k - 1);
      assert Chain(k)[..k - 1] == Chain(k - 1);
      var before := RunCnots(Chain(k - 1), b);
      assert RunCnots(Chain(k), b) == ApplyCnot(before, k - 1, k);
      assert b[..k + 1][..k] == b[..k];
      assert Parity(b[..k + 1]) == (Parity(b[..k]) != b[k]);
    }
  }

  /** The chain on the tape's last gates: bit i becomes b[0] xor ... xor b[i], and the all-zero state is left as it is. */
  lemma CnotChainParity(tape: seq<Gate>, x: seq<real>, weights: seq<real>, b: seq<bool>)
    requires |x| >= NQubits && |weights| >= NQubits && IsQnnTape(tape, x, weights) && |b| == NQubits
    ensures CnotsOn(tape[2 * NQubits..], NQubits)
    ensures forall i :: 0 <= i < NQubits ==> RunCnots(tape[2 * NQubits..], b)[i] == Parity(b[..i + 1])
    ensures (forall i :: 0 <= i < NQubits ==> !b[i]) ==> RunCnots(tape[2 * NQubits..], b) == b
  {
    assert tape[2 * NQubits..] == Chain(NQubits - 1);
    ChainPrefixParity(b, NQubits - 1);
    if forall i :: 0 <= i < NQubits ==> !b[i] {
      forall i | 0 <= i < NQubits ensures RunCnots(tape[2 * NQubits..], b)[i] == b[i] {
        ZeroParity(b[..i + 1]);
      }
    }
  }

  lemma {:induction false} ZeroParity(s: seq<bool>)
    requires forall i :: 0 <= i < |s| ==> !s[i]
    ensures !Parity(s)
  {
    if s != [] {
      ZeroParity(s[..|s| - 1]);
    }
  }

  // ---------------------------------------------------------------------
  // The embedding
  // ---------------------------------------------------------------------

  /** What `quantum_embedding` computes: the circuit's outputs, one row per input row, in order. */
  function Embed(xs: seq<seq<real>>, weights: seq<real>, expZ: Simulator): (e: seq<seq<real>>)
    requires |weights| >= NQubits && forall i :: 0 <= i < |xs| ==> |xs[i]| >= NQubits
    ensures |e| == |xs| && forall i :: 0 <= i < |e| ==> |e[i]| == NQubits
  {
    seq(|xs|, i requires 0 <= i < |xs| => Measure(expZ, QnnTape(xs[i], weights)))
  }

  /** `quantum_embedding(X, weights)`: runs the circuit on each row and appends its output. */
  method QuantumEmbedding(xs: seq<seq<real>>, weights: seq<real>, expZ: Simulator) returns (embedded: seq<seq<real>>)
    requires |weights| >= NQubits && forall i :: 0 <= i < |xs| ==> |xs[i]| >= NQubits
    ensures |embedded| == |xs|
    ensures forall i :: 0 <= i < |xs| ==> |embedded[i]| == NQubits
    ensures forall i :: 0 <= i < |xs| ==> embedded[i] == Measure(expZ, QnnTape(xs[i], weights))
  {
    embedded := [];
    for i := 0 to |xs|
      invariant |embedded| == i
      invariant forall k :: 0 <= k < i ==> embedded[k] == Measure(expZ, QnnTape(xs[k], weights))
    {
      var tape := QnnCircuit(xs[i], weights);
      QnnTapeUnique(tape, xs[i], weights);
      var out := Measure(expZ, tape);
      embedded := embedded + [out];
    }
  }

  /**
   * One weight vector for both parts: embedding the training and test rows
   * separately gives the rows of the embedding of the whole matrix, taken
   * at the split's positions.
   */
  lemma EmbedSplit(xs: seq<seq<real>>, idx: seq<nat>, weights: seq<real>, expZ: Simulator)
    requires |weights| >= NQubits && forall i :: 0 <= i < |xs| ==> |xs[i]| >= NQubits
    requires forall k :: 0 <= k < |idx| ==> idx[k] < |xs|
    ensures Embed(Take(xs, idx), weights, expZ) == Take(Embed(xs, weights, expZ), idx)
  {
  }

  // ---------------------------------------------------------------------
  // The script
  // ---------------------------------------------------------------------

  /** A random forest fitted on the embedded training rows and their codes, applied to one embedded row. */
  type QPredictor = (seq<seq<real>>, seq<nat>, seq<real>) -> nat

  /** Steps 2 and 3: the four features as floats, scaled over all rows; an empty frame is rejected by the scaler. */
  function Prepare(u: Table): (r: Result<seq<seq<real>>, Exception>)
    requires Rectangular(u)
    ensures r.Success? ==> |r.value| == |u.rows| > 0
    ensures r.Success? ==> forall i :: 0 <= i < |r.value| ==> |r.value[i]| == NQubits
  {
    match SelectFeatures(u)
    case Failure(e) => Failure(e)
    case Success(raw) =>
      match ToReals(raw)
      case Failure(e) => Failure(e)
      case Success(xs) =>
        if |xs| == 0 then Failure(ValueError("Found array with 0 sample(s)"))
        else Success(ScaleMatrix(xs))
  }

  /** `rf.fit(X_train_q, y_train)` then `rf.predict(X_test_q)`: one predicted code per test row. */
  function Predictions(predict: QPredictor, trainQ: seq<seq<real>>, yTrain: seq<nat>, testQ: seq<seq<real>>): (yPred: seq<nat>)
    ensures |yPred| == |testQ|
  {
    seq(|testQ|, k requires 0 <= k < |testQ| => predict(trainQ, yTrain, testQ[k]))
  }

  /** Steps 4 to 7: encode, split, embed both parts with the same weights, fit, predict and score. */
  function FitAndScore(scaled: seq<seq<real>>, labels: seq<string>, perm: seq<nat>, weights: seq<real>,
                       expZ: Simulator, predict: QPredictor): Result<Report, Exception>
    requires |scaled| == |labels| && IsPermutation(perm, |labels|) && |weights| == NQubits
    requires forall i :: 0 <= i < |scaled| ==> |scaled[i]| == NQubits
  {
    var codes := Encode(labels);
    match StratifiedSplit(codes, perm)
    case Failure(e) => Failure(e)
    case Success(s) =>
      SplitSizes(codes, perm);
      ScoreSplit(scaled, codes, Classes(labels), s, weights, expZ, predict)
  }

  /**
   * One split scored: both parts embedded with the same weights, the forest
   * fitted on the training embedding, then the classification report, which
   * raises ValueError when the test labels and predictions miss a class, and
   * otherwise a report whose sizes are the parts' sizes, whose matrix has
   * one row per class, and whose matrix and accuracy agree.
   */
  function ScoreSplit(scaled: seq<seq<real>>, codes: seq<nat>, classes: seq<string>, s: Split, weights: seq<real>,
                      expZ: Simulator, predict: QPredictor): (r: Result<Report, Exception>)
    requires |scaled| == |codes| && |weights| == NQubits && 0 < |s.test|
    requires forall i :: 0 <= i < |scaled| ==> |scaled[i]| == NQubits
    requires forall k :: 0 <= k < |s.train| ==> s.train[k] < |codes|
    requires forall k :: 0 <= k < |s.test| ==> s.test[k] < |codes|
    ensures r.Failure? ==> r.error.ValueError?
    ensures r.Success? ==>
      r.value.classes == classes && r.value.trainSize == |s.train| && r.value.testSize == |s.test| &&
      |r.value.confusion| == |classes| && Consistent(r.value)
  {
    var trainQ := Embed(Take(scaled, s.train), weights, expZ);
    var testQ := Embed(Take(scaled, s.test), weights, expZ);
    var yTrain, yTest := Take(codes, s.train), Take(codes, s.test);
    var yPred := Predictions(predict, trainQ, yTrain, testQ);
    Evaluate(classes, |s.train|, yTest, yPred)
  }

  /** Steps 2 to 7 on the frame with targets. */
  function TrainAndEvaluate(u: Table, perm: seq<nat>, weights: seq<real>, expZ: Simulator, predict: QPredictor): Result<Report, Exception>
    requires Rectangular(u) && "result_label" in u.columns && AllStrings(Column(u, "result_label"))
    requires IsPermutation(perm, |u.rows|) && |weights| == NQubits
  {
    match Prepare(u)
    case Failure(e) => Failure(e)
    case Success(scaled) => FitAndScore(scaled, Strings(Column(u, "result_label")), perm, weights, expZ, predict)
  }

  /** The whole script on the loaded frame `t`; the targets are derived with no check on the goal columns. */
  function Hybrid(t: Table, perm: seq<nat>, weights: seq<real>, expZ: Simulator, predict: QPredictor): Result<Report, Exception>
    requires Rectangular(t) && IsPermutation(perm, |t.rows|) && |weights| == NQubits
  {
    match WithTargets(t)
    case Failure(e) => Failure(e)
    case Success(u) =>
      LabelColumnNames(t);
      OutcomeNamesClasses(Column(u, "result_label"));
      TrainAndEvaluate(u, perm, weights, expZ, predict)
  }

  /**
   * With no guard, a missing goal column surfaces as the KeyError of reading
   * it (home_goals first) rather than the baseline's ValueError; a run gets
   * as far as the model only when the targets can be derived and all four
   * features are present.
   */
  lemma HybridUnguarded(t: Table, perm: seq<nat>, weights: seq<real>, expZ: Simulator, predict: QPredictor)
    requires Rectangular(t) && IsPermutation(perm, |t.rows|) && |weights| == NQubits
    ensures "home_goals" !in t.columns ==> Hybrid(t, perm, weights, expZ, predict) == Failure(KeyError("home_goals"))
    ensures "home_goals" in t.columns && "away_goals" !in t.columns ==>
      Hybrid(t, perm, weights, expZ, predict) == Failure(KeyError("away_goals"))
    ensures Hybrid(t, perm, weights, expZ, predict).Success? ==>
      TargetsDerivable(t) && forall k :: 0 <= k < |FeatCols| ==> FeatCols[k] in WithTargets(t).value.columns
  {
    WithTargetsSucceeds(t);
    if WithTargets(t).Success? {
      var u := WithTargets(t).value;
      LabelColumnNames(t);
      OutcomeNamesClasses(Column(u, "result_label"));
      assert Hybrid(t, perm, weights, expZ, predict) == TrainAndEvaluate(u, perm, weights, expZ, predict);
    }
  }

  /** A successful run reports train and test sizes adding up to the number of matches, ceil(0.3 n) test rows, the sorted labels as classes, one matrix row per class, and a consistent matrix and accuracy. */
  lemma FitAndScoreReport(scaled: seq<seq<real>>, labels: seq<string>, perm: seq<nat>, weights: seq<real>,
                          expZ: Simulator, predict: QPredictor)
    requires |scaled| == |labels| && IsPermutation(perm, |labels|) && |weights| == NQubits
    requires forall i :: 0 <= i < |scaled| ==> |scaled[i]| == NQubits
    requires FitAndScore(scaled, labels, perm, weights, expZ, predict).Success?
    ensures
      var r := FitAndScore(scaled, labels, perm, weights, expZ, predict).value;
      r.trainSize + r.testSize == |labels| && r.testSize == TestSize(|labels|) &&
      r.classes == Classes(labels) && |r.confusion| == |r.classes| && Consistent(r)
  {
    SplitSizes(Encode(labels), perm);
  }

  /** Steps 4 to 7 as the script runs them, calling the embedding loop once per part with the same weights. */
  method RunFitAndScore(scaled: seq<seq<real>>, labels: seq<string>, perm: seq<nat>, weights: seq<real>,
                        expZ: Simulator, predict: QPredictor) returns (r: Result<Report, Exception>)
    requires |scaled| == |labels| && IsPermutation(perm, |labels|) && |weights| == NQubits
    requires forall i :: 0 <= i < |scaled| ==> |scaled[i]| == NQubits
    ensures r == FitAndScore(scaled, labels, perm, weights, expZ, predict)
  {
    var codes := Encode(labels);
    var split := StratifiedSplit(codes, perm);
    if split.Failure? {
      return Failure(split.error);
    }
    var s := split.value;
    SplitSizes(codes, perm);
    var trainQ := QuantumEmbedding(Take(scaled, s.train), weights, expZ);
    var testQ := QuantumEmbedding(Take(scaled, s.test), weights, expZ);
    assert trainQ == Embed(Take(scaled, s.train), weights, expZ);
    assert testQ == Embed(Take(scaled, s.test), weights, expZ);
    var yTrain, yTest := Take(codes, s.train), Take(codes, s.test);
    var yPred := Predictions(predict, trainQ, yTrain, testQ);
    r := Evaluate(Classes(labels), |s.train|, yTest, yPred);
  }

  /**
   * The script on a DataFrame: the in-place target columns, then features,
   * scaling, the split and both embeddings with the one weight vector.
   */
  method RunHybrid(df: DataFrame, perm: seq<nat>, weights: seq<real>, expZ: Simulator, predict: QPredictor)
    returns (r: Result<Report, Exception>)
    requires df.Valid() && IsPermutation(perm, |df.rows|) && |weights| == NQubits
    modifies df
    ensures r == Hybrid(old(df.View()), perm, weights, expZ, predict)
    ensures r.Success? ==> df.View() == WithTargets(old(df.View())).value
    ensures WithTargets(old(df.View())).Success? ==> df.View() == WithTargets(old(df.View())).value
    ensures WithTargets(old(df.View())).Failure? ==> df.View() == old(df.View())
  {
    ghost var t := df.View();
    var o := AddTargets(df);
    if o.Fail? {
      return Failure(o.error);
    }
    LabelColumnNames(t);
    var u := df.View();
    OutcomeNamesClasses(Column(u, "result_label"));
    var prepared := Prepare(u);
    if prepared.Failure? {
      return Failure(prepared.error);
    }
    r := RunFitAndScore(prepared.value, Strings(Column(u, "result_label")), perm, weights, expZ, predict);
  }
}
