/**
 * The library contracts both model scripts rely on, over integer codes:
 * scikit-learn's LabelEncoder (classes are the sorted distinct labels, a
 * label's code is its position among them), the stratified
 * `train_test_split(test_size=0.3)` as a partition of the row positions,
 * and `confusion_matrix` / `accuracy_score`.
 */
module Evaluation {
  import opened Wrappers
  import opened Frames

  // ---------------------------------------------------------------------
  // LabelEncoder
  // ---------------------------------------------------------------------

  /** Python's `<` on `str`: code-point lexicographic order. */
  predicate LexLess(a: string, b: string)
    decreases |a|
  {
    |b| > 0 && (|a| == 0 || a[0] < b[0] || (a[0] == b[0] && LexLess(a[1..], b[1..])))
  }

  lemma {:induction false} LexLessIrreflexive(a: string)
    ensures !LexLess(a, a)
    decreases |a|
  {
    if |a| > 0 {
      LexLessIrreflexive(a[1..]);
    }
  }

  lemma {:induction false} LexLessTransitive(a: string, b: string, c: string)
    requires LexLess(a, b) && LexLess(b, c)
    ensures LexLess(a, c)
    decreases |a|
  {
    if |a| > 0 && a[0] == b[0] && b[0] == c[0] {
      LexLessTransitive(a[1..], b[1..], c[1..]);
    }
  }

  lemma {:induction false} LexLessTotal(a: string, b: string)
    requires a != b
    ensures LexLess(a, b) || LexLess(b, a)
    decreases |a|
  {
    if |a| > 0 && |b| > 0 && a[0] == b[0] {
      assert a == [a[0]] + a[1..];
      assert b == [b[0]] + b[1..];
      LexLessTotal(a[1..], b[1..]);
    }
  }

  lemma LexLessAsymmetric(a: string, b: string)
    ensures LexLess(a, b) ==> !LexLess(b, a)
  {
    if LexLess(a, b) && LexLess(b, a) {
      LexLessTransitive(a, b, a);
      LexLessIrreflexive(a);
    }
  }

  predicate StrictlySorted(s: seq<string>) {
    forall i, j :: 0 <= i < j < |s| ==> LexLess(s[i], s[j])
  }

  /** Insertion of one label into a sorted list of distinct labels. */
  function Insert(s: seq<string>, x: string): seq<string> {
    if s == [] then [x]
    else if s[0] == x then s
    else if LexLess(x, s[0]) then [x] + s
    else [s[0]] + Insert(s[1..], x)
  }

  lemma {:induction false} InsertSorted(s: seq<string>, x: string)
    requires StrictlySorted(s)
    ensures StrictlySorted(Insert(s, x))
    ensures forall y :: y in Insert(s, x) <==> y in s || y == x
  {
    if s == [] {
    } else if s[0] == x {
    } else if LexLess(x, s[0]) {
      forall j | 0 < j < |s| ensures LexLess(x, s[j]) {
        LexLessTransitive(x, s[0], s[j]);
      }
    } else {
      InsertSorted(s[1..], x);
      LexLessTotal(x, s[0]);
      var r := Insert(s[1..], x);
      forall y | y in r ensures LexLess(s[0], y) {
        if y != x {
          var j :| 1 <= j < |s| && s[j] == y;
        }
      }
    }
  }

  /** `label_encoder.classes_`: the distinct labels of `y`, sorted. */
  function Classes(y: seq<string>): (cs: seq<string>)
    ensures StrictlySorted(cs)
    ensures forall x :: x in cs <==> x in y
  {
    if y == [] then []
    else
      var prefix := Classes(y[..|y| - 1]);
      InsertSorted(prefix, y[|y| - 1]);
      assert y == y[..|y| - 1] + [y[|y| - 1]];
      Insert(prefix, y[|y| - 1])
  }

  /** `label_encoder.fit_transform(y)`: each label's position in `Classes(y)`. */
  function Encode(y: seq<string>): (codes: seq<nat>)
    ensures |codes| == |y|
  {
    var cs := Classes(y);
    seq(|y|, i requires 0 <= i < |y| => IndexOf(cs, y[i]))
  }

  /** `label_encoder.inverse_transform(codes)`. */
  function Decode(classes: seq<string>, codes: seq<nat>): seq<string>
    requires forall i :: 0 <= i < |codes| ==> codes[i] < |classes|
  {
    seq(|codes|, i requires 0 <= i < |codes| => classes[codes[i]])
  }

  /**
   * The encoding: codes lie below the number of classes, decoding inverts
   * it, equal codes mean equal labels, code order is label order, and
   * every code below the number of classes is used.
   */
  lemma EncodeSpec(y: seq<string>)
    ensures forall i :: 0 <= i < |y| ==> Encode(y)[i] < |Classes(y)|
    ensures Decode(Classes(y), Encode(y)) == y
    ensures forall i, j :: 0 <= i < |y| && 0 <= j < |y| ==>
      (Encode(y)[i] == Encode(y)[j] <==> y[i] == y[j])
    ensures forall i, j :: 0 <= i < |y| && 0 <= j < |y| ==>
      (Encode(y)[i] < Encode(y)[j] <==> LexLess(y[i], y[j]))
    ensures forall k :: 0 <= k < |Classes(y)| ==> k in Encode(y)
  {
    var cs := Classes(y);
    var codes := Encode(y);
    assert forall i :: 0 <= i < |y| ==> codes[i] < |cs| && cs[codes[i]] == y[i];
    assert Decode(cs, codes) == y;
    forall i, j | 0 <= i < |y| && 0 <= j < |y|
      ensures codes[i] < codes[j] <==> LexLess(y[i], y[j])
    {
      LexLessAsymmetric(y[i], y[j]);
      LexLessIrreflexive(y[i]);
      if codes[j] < codes[i] {
        assert LexLess(cs[codes[j]], cs[codes[i]]);
      }
    }
    forall k | 0 <= k < |cs| ensures k in codes {
      assert cs[k] in y;
      var i :| 0 <= i < |y| && y[i] == cs[k];
      forall a | 0 <= a < k ensures cs[a] != cs[k] {
        LexLessIrreflexive(cs[a]);
      }
      IndexOfUnique(cs, cs[k], k);
      assert codes[i] == k;
    }
  }

  /** Two sorted lists of distinct labels with the same members are the same list. */
  lemma {:induction false} SortedUnique(s1: seq<string>, s2: seq<string>)
    requires StrictlySorted(s1) && StrictlySorted(s2)
    requires forall x :: x in s1 <==> x in s2
    ensures s1 == s2
  {
    if s1 == [] {
      assert forall k :: 0 <= k < |s2| ==> s2[k] !in s1;
    } else {
      assert s1[0] in s2;
      var a, b := s1[0], s2[0];
      assert b in s1;
      assert a == b || LexLess(a, b);
      assert a == b || LexLess(b, a);
      LexLessAsymmetric(a, b);
      LexLessIrreflexive(a);
      forall x | x in s1[1..] ensures x in s2[1..] {
        var j :| 1 <= j < |s1| && s1[j] == x;
        assert LexLess(s1[0], s1[j]);
        assert x in s2;
        var m :| 0 <= m < |s2| && s2[m] == x;
        assert s2[1..][m - 1] == x;
      }
      forall x | x in s2[1..] ensures x in s1[1..] {
        var j :| 1 <= j < |s2| && s2[j] == x;
        assert LexLess(s2[0], s2[j]);
        assert x in s1;
        var m :| 0 <= m < |s1| && s1[m] == x;
        assert s1[1..][m - 1] == x;
      }
      SortedUnique(s1[1..], s2[1..]);
      assert s1 == [a] + s1[1..];
      assert s2 == [b] + s2[1..];
    }
  }

  /** With all three outcomes present the classes are away_win, draw, home_win: codes 0, 1, 2. */
  lemma OutcomeClasses(y: seq<string>)
    requires forall x :: x in y <==> x == "away_win" || x == "draw" || x == "home_win"
    ensures Classes(y) == ["away_win", "draw", "home_win"]
  {
    var expected := ["away_win", "draw", "home_win"];
    assert LexLess("away_win", "draw");
    assert LexLess("draw", "home_win");
    assert LexLess("away_win", "home_win");
    SortedUnique(Classes(y), expected);
  }

  /** A label column holding only the three outcome names has only those names as classes. */
  lemma OutcomeNamesClasses(col: seq<Cell>)
    requires forall r :: 0 <= r < |col| ==>
      col[r] in {Some(StrVal("home_win")), Some(StrVal("away_win")), Some(StrVal("draw"))}
    ensures AllStrings(col)
    ensures forall c :: c in Classes(Strings(col)) ==> c == "away_win" || c == "draw" || c == "home_win"
  {
    var labels := Strings(col);
    forall c | c in Classes(labels) ensures c == "away_win" || c == "draw" || c == "home_win" {
      var i :| 0 <= i < |labels| && labels[i] == c;
      assert col[i] == Some(StrVal(c));
    }
  }

  // ---------------------------------------------------------------------
  // train_test_split(test_size=0.3, stratify=y)
  // ---------------------------------------------------------------------

  /** `ceil(0.3 * n)`, the number of test rows. */
  function TestSize(n: nat): (k: nat)
    ensures 3 * n <= 10 * k < 3 * n + 10
    ensures k <= n
  {
    (3 * n + 9) / 10
  }

  /** `perm` orders the row positions `0..n-1`, each exactly once. */
  predicate IsPermutation(perm: seq<nat>, n: nat) {
    |perm| == n && Distinct(perm) &&
    (forall k :: 0 <= k < n ==> perm[k] < n) &&
    (forall i :: 0 <= i < n ==> i in perm)
  }

  function Count(y: seq<nat>, c: nat): nat {
    multiset(y)[c]
  }

  function ClassesOf(y: seq<nat>): set<nat> {
    set x | x in y
  }

  datatype Split = Split(train: seq<nat>, test: seq<nat>)

  /**
   * The split as a partition of row positions. `perm` stands for the
   * shuffle scikit-learn draws with `random_state=42`; the first
   * `n - ceil(0.3 n)` positions it yields are the training rows. The
   * stratified splitter refuses an empty training set, a class with fewer
   * than two members, and a train or test part smaller than the number of
   * classes.
   */
  function StratifiedSplit(y: seq<nat>, perm: seq<nat>): Result<Split, Exception>
    requires IsPermutation(perm, |y|)
  {
    var n := |y|;
    var nTest := TestSize(n);
    var nTrain := n - nTest;
    var nClasses := |ClassesOf(y)|;
    if nTrain == 0 then Failure(ValueError("the resulting train set will be empty"))
    else if exists k :: 0 <= k < n && Count(y, y[k]) < 2 then
      Failure(ValueError("the least populated class in y has only 1 member"))
    else if nTrain < nClasses then Failure(ValueError("train_size should be greater or equal to the number of classes"))
    else if nTest < nClasses then Failure(ValueError("test_size should be greater or equal to the number of classes"))
    else Success(Split(perm[..nTrain], perm[nTrain..]))
  }

  /** `a[idx]`: the elements at positions `idx`, in that order. */
  function Take<T>(xs: seq<T>, idx: seq<nat>): (r: seq<T>)
    requires forall k :: 0 <= k < |idx| ==> idx[k] < |xs|
    ensures |r| == |idx|
  {
    seq(|idx|, k requires 0 <= k < |idx| => xs[idx[k]])
  }

  lemma TakeConcat<T>(xs: seq<T>, a: seq<nat>, b: seq<nat>)
    requires forall k :: 0 <= k < |a| ==> a[k] < |xs|
    requires forall k :: 0 <= k < |b| ==> b[k] < |xs|
    ensures Take(xs, a + b) == Take(xs, a) + Take(xs, b)
  {
  }

  /** Taking the position `n - 1` out of a permutation of `0..n-1` leaves a permutation of `0..n-2`. */
  lemma RemoveLast(perm: seq<nat>, n: nat, p: nat)
    requires n > 0 && IsPermutation(perm, n) && p < n && perm[p] == n - 1
    ensures IsPermutation(perm[..p] + perm[p + 1..], n - 1)
  {
    var last := n - 1;
    var rest := perm[..p] + perm[p + 1..];
    forall k | 0 <= k < |rest| ensures rest[k] < last {
      if k < p { assert rest[k] == perm[k]; } else { assert rest[k] == perm[k + 1]; }
    }
    forall i | 0 <= i < last ensures i in rest {
      assert i in perm;
      var q :| 0 <= q < n && perm[q] == i;
      if q < p { assert rest[q] == i; } else { assert rest[q - 1] == i; }
    }
    forall k, l | 0 <= k < l < |rest| ensures rest[k] != rest[l] {
      var k' := if k < p then k else k + 1;
      var l' := if l < p then l else l + 1;
      assert rest[k] == perm[k'] && rest[l] == perm[l'];
    }
  }

  lemma TakeRestrict<T>(xs: seq<T>, idx: seq<nat>, m: nat)
    requires m <= |xs| && forall k :: 0 <= k < |idx| ==> idx[k] < m
    ensures Take(xs[..m], idx) == Take(xs, idx)
  {
  }

  /** Taking at `perm` is taking before position `p`, then at `perm[p]`, then after it. */
  lemma TakeAround<T>(xs: seq<T>, perm: seq<nat>, p: nat)
    requires p < |perm| && forall k :: 0 <= k < |perm| ==> perm[k] < |xs|
    ensures Take(xs, perm) == Take(xs, perm[..p]) + [xs[perm[p]]] + Take(xs, perm[p + 1..])
    ensures Take(xs, perm[..p] + perm[p + 1..]) == Take(xs, perm[..p]) + Take(xs, perm[p + 1..])
  {
    assert perm == perm[..p] + ([perm[p]] + perm[p + 1..]);
    TakeConcat(xs, perm[..p], [perm[p]] + perm[p + 1..]);
    TakeConcat(xs, [perm[p]], perm[p + 1..]);
    TakeConcat(xs, perm[..p], perm[p + 1..]);
  }

  /** Reordering the rows by a permutation keeps every row exactly as often. */
  lemma {:induction false} TakePermutation<T>(xs: seq<T>, perm: seq<nat>)
    requires IsPermutation(perm, |xs|)
    ensures multiset(Take(xs, perm)) == multiset(xs)
    decreases |xs|
  {
    var n := |xs|;
    if n > 0 {
      var last := n - 1;
      assert last in perm;
      var p := IndexOf(perm, last);
      var rest := perm[..p] + perm[p + 1..];
      RemoveLast(perm, n, p);
      TakePermutation(xs[..last], rest);
      TakeRestrict(xs, rest, last);
      TakeAround(xs, perm, p);
      MultisetAround(Take(xs, perm[..p]), xs[last], Take(xs, perm[p + 1..]));
      LastSplit(xs);
    }
  }

  lemma MultisetAround<T>(front: seq<T>, x: T, back: seq<T>)
    ensures multiset(front + [x] + back) == multiset(front + back) + multiset{x}
  {
  }

  lemma LastSplit<T>(xs: seq<T>)
    requires |xs| > 0
    ensures multiset(xs) == multiset(xs[..|xs| - 1]) + multiset{xs[|xs| - 1]}
  {
    assert xs == xs[..|xs| - 1] + [xs[|xs| - 1]];
  }

  /**
   * A successful split is a partition: every row position lands in exactly
   * one part, the test part has ceil(0.3 n) rows, at least as many as there
   * are classes, and
   * the labels of both parts together are exactly the labels of the table.
   */
  lemma SplitPartition(y: seq<nat>, perm: seq<nat>)
    requires IsPermutation(perm, |y|) && StratifiedSplit(y, perm).Success?
    ensures
      var s := StratifiedSplit(y, perm).value;
      |s.test| == TestSize(|y|) && |s.train| + |s.test| == |y| &&
      (forall k :: 0 <= k < |s.train| ==> s.train[k] < |y|) &&
      (forall k :: 0 <= k < |s.test| ==> s.test[k] < |y|) &&
      (forall i :: 0 <= i < |y| ==> (i in s.train <==> i !in s.test)) &&
      0 < |ClassesOf(y)| <= |s.test| &&
      multiset(Take(y, s.train)) + multiset(Take(y, s.test)) == multiset(y)
  {
    var nTrain := |y| - TestSize(|y|);
    SplitSizes(y, perm);
    var s := StratifiedSplit(y, perm).value;
    assert s.train == perm[..nTrain] && s.test == perm[nTrain..];
    SplitDisjoint(perm, nTrain);
    assert multiset(Take(y, s.train)) + multiset(Take(y, s.test)) == multiset(y) by {
      assert perm == s.train + s.test;
      TakeConcat(y, s.train, s.test);
      TakePermutation(y, perm);
    }
  }

  /** Cutting a permutation of `0..n-1` in two puts every position in exactly one part. */
  lemma SplitDisjoint(perm: seq<nat>, nTrain: nat)
    requires nTrain <= |perm| && IsPermutation(perm, |perm|)
    ensures forall i :: 0 <= i < |perm| ==> (i in perm[..nTrain] <==> i !in perm[nTrain..])
  {
    var n := |perm|;
    forall i | 0 <= i < n ensures i in perm[..nTrain] <==> i !in perm[nTrain..] {
      assert i in perm;
      var q :| 0 <= q < n && perm[q] == i;
      if q < nTrain {
        assert perm[..nTrain][q] == i;
        forall r | 0 <= r < n - nTrain ensures perm[nTrain..][r] != i { assert perm[nTrain..][r] == perm[nTrain + r]; }
      } else {
        assert perm[nTrain..][q - nTrain] == i;
        forall r | 0 <= r < nTrain ensures perm[..nTrain][r] != i { assert perm[..nTrain][r] == perm[r]; }
      }
    }
  }

  /** The sizes of a successful split, and both parts index rows of `y`; the test part is never empty. */
  lemma SplitSizes(y: seq<nat>, perm: seq<nat>)
    requires IsPermutation(perm, |y|) && StratifiedSplit(y, perm).Success?
    ensures
      var s := StratifiedSplit(y, perm).value;
      |s.test| == TestSize(|y|) && |s.train| + |s.test| == |y| && 0 < |ClassesOf(y)| <= |s.test| &&
      (forall k :: 0 <= k < |s.train| ==> s.train[k] < |y|) &&
      (forall k :: 0 <= k < |s.test| ==> s.test[k] < |y|)
  {
    assert y[0] in ClassesOf(y);
  }

  // ---------------------------------------------------------------------
  // confusion_matrix and accuracy_score
  // ---------------------------------------------------------------------

  function Sum(s: seq<nat>): nat {
    if s == [] then 0 else Sum(s[..|s| - 1]) + s[|s| - 1]
  }

  /** A bound above every code in `s`. */
  function Bound(s: seq<nat>): (b: nat)
    ensures forall k :: 0 <= k < |s| ==> s[k] < b
  {
    if s == [] then 0 else var b := Bound(s[1..]); if s[0] + 1 > b then s[0] + 1 else b
  }

  /** The codes below `m` that occur in `s`, in increasing order. */
  function Below(s: seq<nat>, m: nat): (r: seq<nat>)
    ensures Increasing(r)
    ensures forall x :: x in r <==> x in s && x < m
  {
    if m == 0 then []
    else
      var r := Below(s, m - 1);
      assert forall k :: 0 <= k < |r| ==> r[k] < m - 1 by {
        forall k | 0 <= k < |r| ensures r[k] < m - 1 { assert r[k] in r; }
      }
      if m - 1 in s then r + [m - 1] else r
  }

  /** scikit-learn's `unique_labels(y_true, y_pred)`: the sorted codes that occur in either. */
  function MatrixLabels(yTrue: seq<nat>, yPred: seq<nat>): (labels: seq<nat>)
    ensures Increasing(labels)
    ensures forall x :: x in labels <==> x in yTrue || x in yPred
  {
    var all := yTrue + yPred;
    var b := Bound(all);
    assert forall x :: x in all ==> x < b by {
      forall x | x in all ensures x < b {
        var k :| 0 <= k < |all| && all[k] == x;
      }
    }
    assert forall x :: x in all <==> x in yTrue || x in yPred by {
      forall x | x in all ensures x in yTrue || x in yPred {
        var k :| 0 <= k < |all| && all[k] == x;
        if k >= |yTrue| { assert yPred[k - |yTrue|] == x; }
      }
      forall x | x in yTrue ensures x in all {
        var k :| 0 <= k < |yTrue| && yTrue[k] == x;
        assert all[k] == x;
      }
      forall x | x in yPred ensures x in all {
        var k :| 0 <= k < |yPred| && yPred[k] == x;
        assert all[|yTrue| + k] == x;
      }
    }
    Below(all, b)
  }

  /** Number of positions whose true code is `a` and predicted code is `b`. */
  function CountPairs(yTrue: seq<nat>, yPred: seq<nat>, a: nat, b: nat): nat
    requires |yTrue| == |yPred|
  {
    if yTrue == [] then 0
    else (if yTrue[0] == a && yPred[0] == b then 1 else 0) + CountPairs(yTrue[1..], yPred[1..], a, b)
  }

  /** Number of positions whose true code is `a`. */
  function CountTrue(yTrue: seq<nat>, a: nat): nat {
    if yTrue == [] then 0 else (if yTrue[0] == a then 1 else 0) + CountTrue(yTrue[1..], a)
  }

  /** Number of positions where the prediction is right. */
  function Matches(yTrue: seq<nat>, yPred: seq<nat>): nat
    requires |yTrue| == |yPred|
  {
    if yTrue == [] then 0
    else (if yTrue[0] == yPred[0] then 1 else 0) + Matches(yTrue[1..], yPred[1..])
  }

  /** `confusion_matrix(y_true, y_pred)`: entry (i, j) counts true label i predicted as label j. */
  function ConfusionMatrix(yTrue: seq<nat>, yPred: seq<nat>): (cm: seq<seq<nat>>)
    requires |yTrue| == |yPred|
    ensures |cm| == |MatrixLabels(yTrue, yPred)|
    ensures forall i :: 0 <= i < |cm| ==> |cm[i]| == |cm|
  {
    var labels := MatrixLabels(yTrue, yPred);
    seq(|labels|, i requires 0 <= i < |labels| =>
      seq(|labels|, j requires 0 <= j < |labels| => CountPairs(yTrue, yPred, labels[i], labels[j])))
  }

  function Trace(cm: seq<seq<nat>>): nat
    requires forall i :: 0 <= i < |cm| ==> |cm[i]| == |cm|
  {
    Sum(seq(|cm|, i requires 0 <= i < |cm| => cm[i][i]))
  }

  /** The sum of all entries of a matrix. */
  function Total(cm: seq<seq<nat>>): nat {
    Sum(seq(|cm|, i requires 0 <= i < |cm| => Sum(cm[i])))
  }

  /** `accuracy_score(y_true, y_pred)`: the fraction of right predictions. */
  function Accuracy(yTrue: seq<nat>, yPred: seq<nat>): real
    requires |yTrue| == |yPred| > 0
  {
    Matches(yTrue, yPred) as real / |yTrue| as real
  }

  // Counting helpers: how the three counts split over a list of labels.

  /** Positions whose true code is `a` and whose predicted code is in `labels`. */
  function CountTrueAmong(yTrue: seq<nat>, yPred: seq<nat>, a: nat, labels: seq<nat>): nat
    requires |yTrue| == |yPred|
  {
    if yTrue == [] then 0
    else (if yTrue[0] == a && yPred[0] in labels then 1 else 0) + CountTrueAmong(yTrue[1..], yPred[1..], a, labels)
  }

  /** Positions whose true code is in `labels`. */
  function CountIn(yTrue: seq<nat>, labels: seq<nat>): nat {
    if yTrue == [] then 0 else (if yTrue[0] in labels then 1 else 0) + CountIn(yTrue[1..], labels)
  }

  /** Right predictions whose true code is in `labels`. */
  function MatchesIn(yTrue: seq<nat>, yPred: seq<nat>, labels: seq<nat>): nat
    requires |yTrue| == |yPred|
  {
    if yTrue == [] then 0
    else (if yTrue[0] == yPred[0] && yTrue[0] in labels then 1 else 0) + MatchesIn(yTrue[1..], yPred[1..], labels)
  }

  lemma {:induction false} CountTrueAmongSnoc(yTrue: seq<nat>, yPred: seq<nat>, a: nat, labels: seq<nat>, b: nat)
    requires |yTrue| == |yPred| && b !in labels
    ensures CountTrueAmong(yTrue, yPred, a, labels + [b]) == CountTrueAmong(yTrue, yPred, a, labels) + CountPairs(yTrue, yPred, a, b)
  {
    if yTrue != [] {
      CountTrueAmongSnoc(yTrue[1..], yPred[1..], a, labels, b);
    }
  }

  lemma {:induction false} CountTrueAmongAll(yTrue: seq<nat>, yPred: seq<nat>, a: nat, labels: seq<nat>)
    requires |yTrue| == |yPred|
    requires forall k :: 0 <= k < |yPred| ==> yPred[k] in labels
    ensures CountTrueAmong(yTrue, yPred, a, labels) == CountTrue(yTrue, a)
  {
    if yTrue != [] {
      assert yPred[0] in labels;
      CountTrueAmongAll(yTrue[1..], yPred[1..], a, labels);
    }
  }

  lemma {:induction false} CountInSnoc(yTrue: seq<nat>, labels: seq<nat>, b: nat)
    requires b !in labels
    ensures CountIn(yTrue, labels + [b]) == CountIn(yTrue, labels) + CountTrue(yTrue, b)
  {
    if yTrue != [] {
      CountInSnoc(yTrue[1..], labels, b);
    }
  }

  lemma {:induction false} CountInAll(yTrue: seq<nat>, labels: seq<nat>)
    requires forall k :: 0 <= k < |yTrue| ==> yTrue[k] in labels
    ensures CountIn(yTrue, labels) == |yTrue|
  {
    if yTrue != [] {
      assert yTrue[0] in labels;
      CountInAll(yTrue[1..], labels);
    }
  }

  lemma {:induction false} MatchesInSnoc(yTrue: seq<nat>, yPred: seq<nat>, labels: seq<nat>, b: nat)
    requires |yTrue| == |yPred| && b !in labels
    ensures MatchesIn(yTrue, yPred, labels + [b]) == MatchesIn(yTrue, yPred, labels) + CountPairs(yTrue, yPred, b, b)
  {
    if yTrue != [] {
      MatchesInSnoc(yTrue[1..], yPred[1..], labels, b);
    }
  }

  lemma {:induction false} MatchesInAll(yTrue: seq<nat>, yPred: seq<nat>, labels: seq<nat>)
    requires |yTrue| == |yPred|
    requires forall k :: 0 <= k < |yTrue| ==> yTrue[k] in labels
    ensures MatchesIn(yTrue, yPred, labels) == Matches(yTrue, yPred)
  {
    if yTrue != [] {
      assert yTrue[0] in labels;
      MatchesInAll(yTrue[1..], yPred[1..], labels);
    }
  }

  lemma {:induction false} MatchesBound(yTrue: seq<nat>, yPred: seq<nat>)
    requires |yTrue| == |yPred|
    ensures Matches(yTrue, yPred) <= |yTrue|
  {
    if yTrue != [] {
      MatchesBound(yTrue[1..], yPred[1..]);
    }
  }

  /** The first `m` entries of row `a`, summed, count the rows labelled `a` predicted as one of the first `m` labels. */
  lemma {:induction false} RowPrefixSum(yTrue: seq<nat>, yPred: seq<nat>, a: nat, labels: seq<nat>, m: nat)
    requires |yTrue| == |yPred| && Distinct(labels) && m <= |labels|
    ensures Sum(seq(m, j requires 0 <= j < m => CountPairs(yTrue, yPred, a, labels[j])))
         == CountTrueAmong(yTrue, yPred, a, labels[..m])
  {
    var row := seq(m, j requires 0 <= j < m => CountPairs(yTrue, yPred, a, labels[j]));
    if m == 0 {
      ZeroWhenNoLabels(yTrue, yPred, a);
    } else {
      RowPrefixSum(yTrue, yPred, a, labels, m - 1);
      assert row[..m - 1] == seq(m - 1, j requires 0 <= j < m - 1 => CountPairs(yTrue, yPred, a, labels[j]));
      assert labels[..m] == labels[..m - 1] + [labels[m - 1]];
      CountTrueAmongSnoc(yTrue, yPred, a, labels[..m - 1], labels[m - 1]);
    }
  }

  lemma {:induction false} ZeroWhenNoLabels(yTrue: seq<nat>, yPred: seq<nat>, a: nat)
    requires |yTrue| == |yPred|
    ensures CountTrueAmong(yTrue, yPred, a, []) == 0
  {
    if yTrue != [] {
      ZeroWhenNoLabels(yTrue[1..], yPred[1..], a);
    }
  }

  lemma {:induction false} ColumnPrefixSum(yTrue: seq<nat>, labels: seq<nat>, m: nat)
    requires Distinct(labels) && m <= |labels|
    ensures Sum(seq(m, i requires 0 <= i < m => CountTrue(yTrue, labels[i]))) == CountIn(yTrue, labels[..m])
  {
    if m == 0 {
      CountInNone(yTrue);
    } else {
      ColumnPrefixSum(yTrue, labels, m - 1);
      var s := seq(m, i requires 0 <= i < m => CountTrue(yTrue, labels[i]));
      assert s[..m - 1] == seq(m - 1, i requires 0 <= i < m - 1 => CountTrue(yTrue, labels[i]));
      assert labels[..m] == labels[..m - 1] + [labels[m - 1]];
      CountInSnoc(yTrue, labels[..m - 1], labels[m - 1]);
    }
  }

  lemma {:induction false} CountInNone(yTrue: seq<nat>)
    ensures CountIn(yTrue, []) == 0
  {
    if yTrue != [] {
      CountInNone(yTrue[1..]);
    }
  }

  lemma {:induction false} DiagonalPrefixSum(yTrue: seq<nat>, yPred: seq<nat>, labels: seq<nat>, m: nat)
    requires |yTrue| == |yPred| && Distinct(labels) && m <= |labels|
    ensures Sum(seq(m, i requires 0 <= i < m => CountPairs(yTrue, yPred, labels[i], labels[i])))
         == MatchesIn(yTrue, yPred, labels[..m])
  {
    if m == 0 {
      MatchesInNone(yTrue, yPred);
    } else {
      DiagonalPrefixSum(yTrue, yPred, labels, m - 1);
      var s := seq(m, i requires 0 <= i < m => CountPairs(yTrue, yPred, labels[i], labels[i]));
      assert s[..m - 1] == seq(m - 1, i requires 0 <= i < m - 1 => CountPairs(yTrue, yPred, labels[i], labels[i]));
      assert labels[..m] == labels[..m - 1] + [labels[m - 1]];
      MatchesInSnoc(yTrue, yPred, labels[..m - 1], labels[m - 1]);
    }
  }

  lemma {:induction false} MatchesInNone(yTrue: seq<nat>, yPred: seq<nat>)
    requires |yTrue| == |yPred|
    ensures MatchesIn(yTrue, yPred, []) == 0
  {
    if yTrue != [] {
      MatchesInNone(yTrue[1..], yPred[1..]);
    }
  }

  /** Every true and every predicted code is one of the matrix labels. */
  lemma LabelsCover(yTrue: seq<nat>, yPred: seq<nat>)
    ensures forall k :: 0 <= k < |yTrue| ==> yTrue[k] in MatrixLabels(yTrue, yPred)
    ensures forall k :: 0 <= k < |yPred| ==> yPred[k] in MatrixLabels(yTrue, yPred)
  {
    forall k | 0 <= k < |yPred| ensures yPred[k] in yTrue + yPred {
      assert (yTrue + yPred)[|yTrue| + k] == yPred[k];
    }
    forall k | 0 <= k < |yTrue| ensures yTrue[k] in yTrue + yPred {
      assert (yTrue + yPred)[k] == yTrue[k];
    }
  }

  /** Row i of the confusion matrix sums to the number of rows whose true label is the i-th label. */
  lemma ConfusionRowSums(yTrue: seq<nat>, yPred: seq<nat>)
    requires |yTrue| == |yPred|
    ensures forall i :: 0 <= i < |ConfusionMatrix(yTrue, yPred)| ==>
      Sum(ConfusionMatrix(yTrue, yPred)[i]) == CountTrue(yTrue, MatrixLabels(yTrue, yPred)[i])
  {
    var labels := MatrixLabels(yTrue, yPred);
    var cm := ConfusionMatrix(yTrue, yPred);
    var n := |labels|;
    assert labels[..n] == labels;
    LabelsCover(yTrue, yPred);
    forall i | 0 <= i < n ensures Sum(cm[i]) == CountTrue(yTrue, labels[i]) {
      RowPrefixSum(yTrue, yPred, labels[i], labels, n);
      assert cm[i] == seq(n, j requires 0 <= j < n => CountPairs(yTrue, yPred, labels[i], labels[j]));
      CountTrueAmongAll(yTrue, yPred, labels[i], labels);
    }
  }

  /** All entries of the confusion matrix together count every row once. */
  lemma ConfusionTotal(yTrue: seq<nat>, yPred: seq<nat>)
    requires |yTrue| == |yPred|
    ensures Total(ConfusionMatrix(yTrue, yPred)) == |yTrue|
  {
    var labels := MatrixLabels(yTrue, yPred);
    var cm := ConfusionMatrix(yTrue, yPred);
    var n := |labels|;
    assert labels[..n] == labels;
    LabelsCover(yTrue, yPred);
    ConfusionRowSums(yTrue, yPred);
    assert seq(|cm|, i requires 0 <= i < |cm| => Sum(cm[i])) == seq(n, i requires 0 <= i < n => CountTrue(yTrue, labels[i]));
    ColumnPrefixSum(yTrue, labels, n);
    CountInAll(yTrue, labels);
  }

  /** The diagonal of the confusion matrix counts the right predictions. */
  lemma ConfusionTrace(yTrue: seq<nat>, yPred: seq<nat>)
    requires |yTrue| == |yPred|
    ensures Trace(ConfusionMatrix(yTrue, yPred)) == Matches(yTrue, yPred)
  {
    var labels := MatrixLabels(yTrue, yPred);
    var cm := ConfusionMatrix(yTrue, yPred);
    var n := |labels|;
    assert labels[..n] == labels;
    LabelsCover(yTrue, yPred);
    assert seq(|cm|, i requires 0 <= i < |cm| => cm[i][i]) == seq(n, i requires 0 <= i < n => CountPairs(yTrue, yPred, labels[i], labels[i]));
    DiagonalPrefixSum(yTrue, yPred, labels, n);
    MatchesInAll(yTrue, yPred, labels);
  }

  /** The accuracy is the trace of the confusion matrix over the number of rows, and lies in [0, 1]. */
  lemma AccuracyFromMatrix(yTrue: seq<nat>, yPred: seq<nat>)
    requires |yTrue| == |yPred| > 0
    ensures Accuracy(yTrue, yPred) == Trace(ConfusionMatrix(yTrue, yPred)) as real / |yTrue| as real
    ensures 0.0 <= Accuracy(yTrue, yPred) <= 1.0
  {
    ConfusionTrace(yTrue, yPred);
    MatchesBound(yTrue, yPred);
    FractionBounds(Matches(yTrue, yPred), |yTrue|);
  }

  lemma FractionBounds(a: nat, n: nat)
    requires 0 < n && a <= n
    ensures 0.0 <= a as real / n as real <= 1.0
  {
    assert a as real <= n as real;
  }

  /** What both scripts report: the class names, the part sizes, the matrix and the accuracy. */
  datatype Report = Report(classes: seq<string>, trainSize: nat, testSize: nat, confusion: seq<seq<nat>>, accuracy: real)

  /** The report for one run: the confusion matrix and accuracy of the test predictions. */
  function Score(classes: seq<string>, trainSize: nat, yTest: seq<nat>, yPred: seq<nat>): Report
    requires |yTest| == |yPred| > 0
  {
    Report(classes, trainSize, |yTest|, ConfusionMatrix(yTest, yPred), Accuracy(yTest, yPred))
  }

  /** `str(n)` for a natural number: its decimal digits, most significant first. */
  function DecimalString(n: nat): (s: string)
    ensures |s| > 0 && forall k :: 0 <= k < |s| ==> '0' <= s[k] <= '9'
  {
    if n < 10 then [(48 + n) as char] else DecimalString(n / 10) + [(48 + n % 10) as char]
  }

  /**
   * `classification_report(y_test, y_pred, target_names=classes_)`, then
   * the matrix and the accuracy. With target names and no explicit labels,
   * scikit-learn raises ValueError when the labels occurring in the true or
   * predicted codes are not as many as the names; otherwise the report only
   * prints, and the run goes on to its matrix and accuracy.
   */
  function Evaluate(classes: seq<string>, trainSize: nat, yTest: seq<nat>, yPred: seq<nat>): (r: Result<Report, Exception>)
    requires |yTest| == |yPred| > 0
    ensures r.Success? <==> |MatrixLabels(yTest, yPred)| == |classes|
    ensures r.Failure? ==> r.error.ValueError?
    ensures r.Success? ==>
      r.value.classes == classes && r.value.trainSize == trainSize && r.value.testSize == |yTest| &&
      |r.value.confusion| == |classes| && Consistent(r.value)
  {
    var k := |MatrixLabels(yTest, yPred)|;
    if k != |classes| then
      Failure(ValueError("Number of classes, " + DecimalString(k) + ", does not match size of target_names, " +
        DecimalString(|classes|) + ". Try specifying the labels parameter"))
    else
      ScoreConsistent(classes, trainSize, yTest, yPred);
      Success(Score(classes, trainSize, yTest, yPred))
  }

  /** A report's matrix is square, its entries add up to the test size, and its accuracy is the trace over the test size. */
  predicate Consistent(r: Report) {
    r.testSize > 0 &&
    (forall i :: 0 <= i < |r.confusion| ==> |r.confusion[i]| == |r.confusion|) &&
    Total(r.confusion) == r.testSize &&
    r.accuracy == Trace(r.confusion) as real / r.testSize as real &&
    0.0 <= r.accuracy <= 1.0
  }

  lemma ScoreConsistent(classes: seq<string>, trainSize: nat, yTest: seq<nat>, yPred: seq<nat>)
    requires |yTest| == |yPred| > 0
    ensures Consistent(Score(classes, trainSize, yTest, yPred))
  {
    var r := Score(classes, trainSize, yTest, yPred);
    ConfusionTotal(yTest, yPred);
    AccuracyFromMatrix(yTest, yPred);
    assert r.testSize > 0;
    assert forall i :: 0 <= i < |r.confusion| ==> |r.confusion[i]| == |r.confusion|;
    assert r.accuracy == Trace(r.confusion) as real / r.testSize as real;
    assert 0.0 <= r.accuracy <= 1.0;
  }
}
