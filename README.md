# LaLiga 2022 pipeline — a Dafny model

The repository is a set of data-pipeline scripts. Together they produce a
match-outcome predictor for the 2022 LaLiga season:

- `soccer_api.py` downloads the finished fixtures and flattens each nested
  JSON fixture into a nine-field record.
- `get_statistics.py` downloads each fixture's home and away statistics.
  It parses percentage strings and flattens the two teams' statistics into
  one record with `home_` and `away_` prefixes.
- `merge_laliga_2022.py` inner-joins fixtures and statistics on `fixture_id`.
- `cleandata.py` removes repeated columns, empty rows and repeated fixtures,
  then coerces the statistic columns to numbers.
- `eda_laliga.py` derives the targets `goal_diff` and `result_label` when the
  goal columns are present and runs some guarded insight sections.
- `model_baseline.py` trains a random forest on every non-identifier column.
- `model_hybrid_qnn_rf.py` scales four statistics to angles in [0, π]. It
  runs them through a four-qubit circuit (RX encoding, RY layer, CNOT chain)
  and trains a random forest on the circuit's outputs.

The model has one module per script. Shared modules hold the target rule and
the common evaluation:

| file | module | what it holds |
|---|---|---|
| `wrappers.dfy` | `Wrappers` | `Option`, `Result` and `Outcome` |
| `frames.dfy` | `Frames` | the abstract data frame (`Table`: column names plus rows of optional cells) and the frame operations the scripts use; a `DataFrame` class for the in-place column assignments; Python's `s[:t]`; the subsequence relation |
| `targets.dfy` | `Targets` | `goal_diff` and `label_result`, written once; the in-place `AddTargets` |
| `evaluation.dfy` | `Evaluation` | `LabelEncoder` over Python string order, the stratified 70/30 partition, `confusion_matrix`, `accuracy_score` |
| `baseline.dfy` | `Baseline` | model_baseline.py: the raising guard, `cols_to_drop`, training and scoring |
| `hybrid.dfy` | `Hybrid` | model_hybrid_qnn_rf.py: unguarded targets, `feat_cols`, min–max scaling, the circuit's gate list, the CNOT chain on basis states, the embedding loop |
| `statistics.dfy` | `Statistics` | get_statistics.py: `parse_stats`, the flat record, `get_match_statistics`, `download_all_stats` |
| `fixtures.dfy` | `Fixtures` | soccer_api.py: `get_laliga_fixtures` |
| `cleaning.dfy` | `Cleaning` | cleandata.py: the four cleaning steps and the in-place numeric rewrite |
| `merge.dfy` | `Merge` | merge_laliga_2022.py: the inner join |
| `eda.dfy` | `Eda` | eda_laliga.py: the guarded target step and the insight guards |

Several things outside the model become parameters of the operations that use
them:

- the HTTP requests (a function from fixture id or season to the decoded body);
- Python's `float()` and `pd.to_numeric` on a string (a function returning an
  optional number);
- the random forest (a predictor fitted on the training rows and applied to
  one test row);
- scikit-learn's seeded shuffle (a permutation of the row positions);
- the state-vector simulator (a function from a gate list and a wire to a
  Pauli-Z expectation);
- the randomly drawn circuit weights.

The scripts change things in three ways, and the model follows each:

- Where a script assigns columns of a frame in place, the model does the same
  on a `DataFrame` object, through `SetColumn` and `MapColumns`.
- Where a script builds a list in a loop, the model is a method with a loop.
  Each such method is proved equal to a function.
- Everything else is a function on values.

## Model

| member | source | states |
|---|---|---|
| Targets.SignRule | model_baseline.py:18-24 | the label is home_win iff home goals exceed away goals, away_win iff fewer, draw iff equal; exactly one holds |
| Targets.NamesDistinct | model_baseline.py:18-24 | the three label strings differ, so the stored text identifies the label |
| Targets.SubCells | model_baseline.py:16 | one cell of the goal difference: missing when an operand is missing (pandas retries the failed object subtraction on the rows where both are present), otherwise TypeError exactly when an operand is a string, the integer difference for integer goals |
| Targets.DiffColumn | model_baseline.py:16 | the goal_diff column succeeds iff every row's subtraction does, and then holds each row's difference; otherwise a TypeError |
| Targets.WithTargetsSucceeds | model_baseline.py:16-26 | deriving the targets succeeds exactly when both goal columns exist and no row pairs a string with a present goal; without home_goals it is KeyError("home_goals") |
| Targets.WithTargetsKeeps | model_baseline.py:16-26 | the derivation keeps every row and column, adds only goal_diff and result_label, and leaves every other column unchanged |
| Targets.WithTargetsRow | model_baseline.py:16-26 | row by row, goal_diff is home_goals - away_goals and result_label is the sign-rule label; a missing goal gives a missing difference and a draw |
| Targets.LabelColumnNames | model_baseline.py:18-26 | result_label is an all-string column, and every cell is one of home_win, away_win, draw |
| Targets.AssignTargetsColumns | model_baseline.py:16-26 | the two assignments keep the original columns in place and add only goal_diff and result_label |
| Targets.AssignTargetsReads | model_baseline.py:16-26 | after them goal_diff reads the differences, result_label their labels, and every other column as before |
| Targets.TargetsKeepName | model_baseline.py:16-26 | any other column name is in the derived frame iff it was in the loaded frame |
| Targets.TenMatchScenario | model_baseline.py:18-24 | the labels of a ten-match scenario, match by match |
| Targets.TenMatchCounts | model_baseline.py:18-24 | that scenario has four home wins, three away wins and three draws |
| Targets.AddTargets | model_baseline.py:16-26 | assigning goal_diff then result_label in place yields the derived frame; on an exception the frame is unchanged |
| Frames.IndexOf | model_baseline.py:47 | a column lookup finds the first position holding the name |
| Frames.DropColumns | model_baseline.py:46 | `drop(columns=…, errors="ignore")` keeps exactly the columns not in the set, and absent names cost nothing |
| Frames.DropColumnsOrder | model_baseline.py:46 | the kept columns are distinct and in their original order |
| Frames.DropColumnsCells | model_baseline.py:46 | every kept column keeps its cells |
| Frames.WithColumnReads | model_baseline.py:16 | after `df[name] = values` the column reads `values` and every other column reads as before |
| Frames.PyPrefix | get_statistics.py:71 | Python's `s[:t]` for non-negative and negative `t` |
| Frames.DataFrame.SetColumn | model_baseline.py:16 | `df[name] = values` on the object, as the pure column assignment |
| Frames.DataFrame.MapColumns | cleandata.py:29-34 | rewriting the named columns in place changes those cells with the function and nothing else |
| Baseline.BaselineGuard | model_baseline.py:15-28 | a missing goal column raises ValueError with the script's message before any feature or model step; a run gets further only when the targets can be derived |
| Baseline.FeatureSelection | model_baseline.py:34-46 | the features are the columns outside cols_to_drop, in order, with their cells; goal_diff stays a feature |
| Baseline.Predictions | model_baseline.py:72-75 | one prediction per test row |
| Baseline.TrainAndEvaluateReport | model_baseline.py:46-84 | the part sizes add up to the rows, ceil(0.3 n) of them test rows; the classes are the sorted labels; the matrix has one row per class, as a run past classification_report must; matrix and accuracy agree |
| Baseline.BaselineReport | model_baseline.py:15-84 | a successful run reports those sizes, a consistent matrix with one row per class, its accuracy, and sorted classes drawn from the three label names |
| Baseline.BaselineUnfold | model_baseline.py:15-28 | past the guard, a run is the target derivation followed by training and evaluation on a string label column |
| Baseline.RunBaseline | model_baseline.py:15-84 | the script on a frame object returns what the pure model does, the classification_report ValueError included; the frame ends with the target columns when they can be derived and is untouched otherwise, whatever the result |
| Evaluation.LexLessIrreflexive | model_baseline.py:54-55 | Python string order is irreflexive |
| Evaluation.LexLessTransitive | model_baseline.py:54-55 | Python string order is transitive |
| Evaluation.LexLessTotal | model_baseline.py:54-55 | any two different strings are ordered |
| Evaluation.LexLessAsymmetric | model_baseline.py:54-55 | Python string order is asymmetric |
| Evaluation.InsertSorted | model_baseline.py:54-55 | inserting into a sorted distinct list keeps it sorted and adds exactly the element |
| Evaluation.Classes | model_baseline.py:54-56 | `classes_` is strictly sorted and holds exactly the labels that occur |
| Evaluation.EncodeSpec | model_baseline.py:54-56 | codes are below the class count; decoding inverts encoding; equal codes iff equal labels; code order is label order; every code is used |
| Evaluation.SortedUnique | model_baseline.py:54-56 | a sorted distinct list is determined by its members |
| Evaluation.OutcomeClasses | model_baseline.py:54-56 | with all three outcomes present the classes are away_win, draw, home_win |
| Evaluation.OutcomeNamesClasses | model_baseline.py:54-56 | a label column of outcome names has only outcome names as classes |
| Evaluation.TestSize | model_baseline.py:59-61 | the test part has ceil(0.3 n) rows, at most n |
| Evaluation.TakePermutation | model_baseline.py:59-61 | the labels taken along a permutation of the rows are the labels of the table, as a multiset |
| Evaluation.SplitSizes | model_baseline.py:59-61 | a successful split has ceil(0.3 n) test rows, at least as many as there are classes, and the parts' sizes add up to n |
| Evaluation.SplitDisjoint | model_baseline.py:59-61 | cutting the shuffled positions in two puts each position in exactly one part |
| Evaluation.SplitPartition | model_baseline.py:59-61 | every row lands in exactly one part; the test part has ceil(0.3 n) rows, at least as many as there are classes; the parts' labels together are the table's labels |
| Evaluation.MatrixLabels | model_baseline.py:84 | the matrix labels are the sorted codes occurring in the true or the predicted codes |
| Evaluation.ConfusionMatrix | model_baseline.py:84 | the confusion matrix is square over those labels |
| Evaluation.ConfusionRowSums | model_baseline.py:84 | row i sums to the number of test rows whose true class is label i |
| Evaluation.ConfusionTotal | model_baseline.py:84 | all entries together equal the test size |
| Evaluation.ConfusionTrace | model_baseline.py:77-84 | the diagonal counts the right predictions |
| Evaluation.AccuracyFromMatrix | model_baseline.py:77-84 | accuracy equals trace divided by test size and lies in [0, 1] |
| Evaluation.ScoreConsistent | model_baseline.py:77-84 | the reported matrix is square and sums to the test size; the reported accuracy is its trace over the test size |
| Evaluation.Evaluate | model_baseline.py:77-84 | classification_report with target names raises ValueError exactly when the labels in the test codes and predictions are not as many as the classes; otherwise the report has the classes, the sizes, one matrix row per class and a consistent accuracy |
| Hybrid.HybridUnguarded | model_hybrid_qnn_rf.py:19-29 | with no guard, a missing home_goals or away_goals surfaces as the KeyError of reading it; success implies derivable targets and all four features present |
| Hybrid.FirstMissing | model_hybrid_qnn_rf.py:43 | the first absent name, or none when all are columns |
| Hybrid.SelectFeatures | model_hybrid_qnn_rf.py:36-43 | the feature matrix has exactly the four columns in order with their cells, or KeyError naming an absent one |
| Hybrid.ToReals | model_hybrid_qnn_rf.py:48 | the scaler accepts the matrix iff no cell is missing or a string, and then reads each number |
| Hybrid.MinOf | model_hybrid_qnn_rf.py:47-48 | the column minimum is an element no larger than any |
| Hybrid.MaxOf | model_hybrid_qnn_rf.py:47-48 | the column maximum is an element no smaller than any |
| Hybrid.ScaleValueBounds | model_hybrid_qnn_rf.py:47-48 | a value in its column's range scales into [0, π]; the minimum goes to 0 and the maximum of a non-constant column to π |
| Hybrid.ScaleValueMonotone | model_hybrid_qnn_rf.py:47-48 | scaling keeps the order of values within a column |
| Hybrid.ScaleMatrixRange | model_hybrid_qnn_rf.py:47-48 | fitted over all rows, every scaled value lies in [0, π], column minima become 0, maxima π, order is kept |
| Hybrid.QnnTapeUnique | model_hybrid_qnn_rf.py:65-79 | the gate description has exactly one tape: 3n-1 gates, RX(x[i], i), then RY(w[i], i), then CNOT(i, i+1) |
| Hybrid.QnnCircuit | model_hybrid_qnn_rf.py:61-79 | the three loops issue that tape with n = 4 |
| Hybrid.Measure | model_hybrid_qnn_rf.py:79 | one expectation per qubit |
| Hybrid.RunCnots | model_hybrid_qnn_rf.py:75-76 | running CNOT gates on a basis state keeps its length |
| Hybrid.ChainPrefixParity | model_hybrid_qnn_rf.py:75-76 | after the first k chain gates, bit i <= k is the xor of bits 0..i and later bits are untouched |
| Hybrid.CnotChainParity | model_hybrid_qnn_rf.py:75-76 | the tape's CNOT chain sets bit i to b[0] xor … xor b[i] and fixes the all-zero state |
| Hybrid.ZeroParity | model_hybrid_qnn_rf.py:75-76 | the xor of zero bits is zero |
| Hybrid.Embed | model_hybrid_qnn_rf.py:83-88 | the embedding has one row of n_qubits outputs per input row |
| Hybrid.QuantumEmbedding | model_hybrid_qnn_rf.py:83-88 | the loop returns, in input order, the circuit's outputs for each row |
| Hybrid.EmbedSplit | model_hybrid_qnn_rf.py:92-96 | with one weight vector, embedding each part equals taking the part of the whole embedding |
| Hybrid.Prepare | model_hybrid_qnn_rf.py:36-48 | a prepared matrix has one row of four angles per match and at least one row |
| Hybrid.Predictions | model_hybrid_qnn_rf.py:106-107 | one prediction per test row |
| Hybrid.ScoreSplit | model_hybrid_qnn_rf.py:95-117 | scoring one split raises only the classification_report ValueError, and otherwise reports the given classes and the part sizes, with one matrix row per class and a consistent matrix and accuracy |
| Hybrid.FitAndScoreReport | model_hybrid_qnn_rf.py:51-117 | part sizes add up, ceil(0.3 n) test rows, sorted labels as classes, one matrix row per class, consistent matrix and accuracy |
| Hybrid.RunFitAndScore | model_hybrid_qnn_rf.py:51-117 | encoding, splitting, two embedding loops with the same weights, fitting, the classification_report check and scoring return the pure result |
| Hybrid.RunHybrid | model_hybrid_qnn_rf.py:16-117 | the script on a frame object returns what the pure model does, the classification_report ValueError included; the frame ends with the target columns when they can be derived and is untouched otherwise, whatever the result |
| Statistics.RemoveAll | get_statistics.py:45 | `replace("%", "")` removes every "%" and nothing else |
| Statistics.ParseValueSpec | get_statistics.py:43-46 | a "%" string is parsed from its text without "%"; any other value is stored unchanged; a stored value parses to itself |
| Statistics.StatsMapKeys | get_statistics.py:38-47 | the dictionary's keys are exactly the statistic names, and every entry's value parsed |
| Statistics.StatsMapLastWins | get_statistics.py:40-46 | a name holds the value of its last entry: a later duplicate overwrites |
| Statistics.StatsMapFailurePersists | get_statistics.py:40-46 | a failed parse ends parse_stats with that error |
| Statistics.ParseStats | get_statistics.py:38-47 | the loop filling stats_dict computes the dictionary or the parse error |
| Statistics.Prefixed | get_statistics.py:54-57 | prefixing maps each key k to prefix+k with its value, and produces no other key |
| Statistics.Flat | get_statistics.py:53-57 | the record has fixture_id, "home_"+k for each home statistic and "away_"+k for each away statistic, with their values, and no other key |
| Statistics.FlatSize | get_statistics.py:53-57 | the keys never collide: the record has 1 + \|home\| + \|away\| keys |
| Statistics.PrefixedSize | get_statistics.py:54-57 | prefixing keeps the number of keys |
| Statistics.PrefixedDisjoint | get_statistics.py:53-57 | fixture_id, home_ keys and away_ keys are pairwise disjoint |
| Statistics.FlatUnique | get_statistics.py:53-57 | a record with exactly those entries is the flat record |
| Statistics.Flatten | get_statistics.py:53-57 | the two insertion loops build the flat record |
| Statistics.MatchStatisticsCases | get_statistics.py:21-35 | a record comes back iff there are no errors and at least two blocks parse; errors, a missing, null or empty response, or one block give None; blocks after the second are ignored |
| Statistics.GetMatchStatistics | get_statistics.py:10-59 | the function as written returns the modelled result for the fetched body |
| Statistics.VisitedIds | get_statistics.py:67-71 | the loop visits all ids for a falsy limit, else the first min(limit, n); Python's slice reading covers a negative limit |
| Statistics.CollectStatsBound | get_statistics.py:71-77 | at most one record per visited id, each carrying a visited fixture id |
| Statistics.CollectStatsOrder | get_statistics.py:71-77 | the records' fixture ids are a subsequence of the visited ids: order is kept |
| Statistics.CollectStatsComplete | get_statistics.py:71-77 | every visited fixture that yields a record has it collected; None results are dropped |
| Statistics.CollectStatsStep | get_statistics.py:71-77 | one more id adds nothing exactly when its statistics are None, and otherwise appends the record fetched for it |
| Statistics.CollectStatsSound | get_statistics.py:71-77 | every collected record is the record fetched for some visited id |
| Statistics.DownloadAllStats | get_statistics.py:62-81 | the download loop returns the collected records of ids[:total] |
| Fixtures.ToRecord | soccer_api.py:37-47 | every record has exactly the nine field names |
| Fixtures.RecordRoundTrip | soccer_api.py:37-47 | each field is copied from its nested source: reading the record back gives the fixture |
| Fixtures.ToRecordInjective | soccer_api.py:37-47 | two fixtures give equal records iff they are equal |
| Fixtures.GetLaligaFixtures | soccer_api.py:16-52 | errors give []; a missing response gives []; a null one the TypeError of `len(None)`; otherwise the records of response[:limit] in order |
| Fixtures.DefaultLimitBound | soccer_api.py:16-36 | a non-negative limit bounds the output; by default it is min(380, len(response)) |
| Fixtures.FixtureIdsOfResponse | get_statistics.py:88-89 | the ids handed to the statistics download are the response's fixture ids in order |
| Cleaning.FirstOccurrence | cleandata.py:9 | a column is kept iff its name does not occur before it |
| Cleaning.DropDuplicateColumnsSpec | cleandata.py:9 | names become unique, the same names remain, each keeps its first column's cells, in original order |
| Cleaning.NonEmptyRows | cleandata.py:13 | each row with a present cell is kept as often as it occurs and no empty row is kept (as multisets), in order |
| Cleaning.DropEmptyRows | cleandata.py:13 | the frame keeps its columns and no more rows |
| Cleaning.NonEmptyRowsIdempotent | cleandata.py:13 | dropping empty rows twice is dropping them once |
| Cleaning.NoEmptyRowsKept | cleandata.py:13 | rows none of which is empty are all kept |
| Cleaning.FirstPerKey | cleandata.py:20 | the dedup keeps a row per key value, with exactly the input's key values |
| Cleaning.FirstPerKeyDistinct | cleandata.py:20 | afterwards no two rows share a key |
| Cleaning.FirstPerKeyFirst | cleandata.py:20 | each kept row is the first input row with its key |
| Cleaning.FirstPerKeyOrder | cleandata.py:20 | the kept rows are in input order |
| Cleaning.DropDuplicateKeys | cleandata.py:17-21 | without a fixture_id column the frame is untouched |
| Cleaning.DropDuplicateKeysSpec | cleandata.py:17-21 | with the column, fixture ids become unique, are the same ids, and rows keep their order |
| Cleaning.NumericColumns | cleandata.py:25-27 | the numeric columns are exactly those not in the excluded six |
| Cleaning.CoerceSpec | cleandata.py:29-34 | a missing cell becomes 0, a string its parsed number or 0 when it does not convert, a number stays; no gap or string is left, and a second pass changes nothing |
| Cleaning.CleanedSpec | cleandata.py:9-34 | unique names, the loaded names, no more rows, no gap or string in a numeric column, each numeric cell the coercion of the deduplicated cell at its place, excluded columns unchanged by the numeric step, unique fixture ids |
| Cleaning.CleanedCells | cleandata.py:29-34 | every cell of the cleaned frame is the deduplicated cell at its place, coerced when its column is numeric |
| Cleaning.CleanData | cleandata.py:9-34 | the three rebinding steps and the in-place numeric rewrite produce the cleaned frame |
| Merge.InnerJoin | merge_laliga_2022.py:17 | KeyError exactly when a frame lacks fixture_id; otherwise a rectangular frame with the key column once |
| Merge.RightMatches | merge_laliga_2022.py:17 | the matches of one left key are exactly the right rows with that key, in right order |
| Merge.MatchPairs | merge_laliga_2022.py:17 | the joined pairs are exactly the left/right positions with equal fixture_id |
| Merge.InnerJoinRows | merge_laliga_2022.py:17 | each joined row is a fixtures row plus a stats row with equal fixture_id, and every such pair is joined; unmatched rows are dropped |
| Merge.InnerJoinKey | merge_laliga_2022.py:17 | the key column appears once, where the fixtures frame has it; each joined fixture_id occurs in both frames |
| Merge.InnerJoinSize | merge_laliga_2022.py:17 | with unique ids on both sides the join has one row per shared id |
| Merge.MatchPairsSize | merge_laliga_2022.py:17 | with unique keys the number of pairs is the size of the key intersection |
| Merge.RightMatchesSize | merge_laliga_2022.py:17 | against unique right keys a left key matches once or never |
| Eda.ExploreGuard | eda_laliga.py:28-51 | without both goal columns the run warns and continues with the frame unchanged; with both it fails only when the goal cells cannot be subtracted |
| Eda.GoalsInsightReadsGoalDiff | eda_laliga.py:117-120 | when the goals insight runs, the targets exist and goal_diff is home_goals - away_goals with the sign-rule label |
| Eda.InsightsOnLoadedFrame | eda_laliga.py:105-117 | the shots insight runs iff both Shots on Goal columns exist; possession iff home_Ball Possession exists; goals iff both goal columns exist |
| Eda.RunEda | eda_laliga.py:28-120 | the script on a frame object returns what the pure model does, with the frame as the model leaves it; the frame ends with the target columns when they can be derived and is untouched otherwise |

## Left out

- I/O is outside the model: HTTP, the API key and dotenv, CSV reading and
  writing, folder creation, console printing, plots and images. The HTTP
  responses arrive as decoded bodies through parameters.
- Python's `float()` and `pd.to_numeric` are abstract parsers returning an
  optional number. `pd.to_datetime` on the date column (cleandata.py:37-38)
  is not modelled, so dates stay as they are.
- The random forest is a predictor parameter. scikit-learn's stratified
  shuffle is a permutation parameter: which rows land in the test part is
  not modelled. The sizes are: ceil(0.3 n) test rows, and the splitter's
  refusals on too few samples per class or per part.
- Hybrid.QuantumEmbedding: the circuit's outputs are whatever the simulator
  parameter returns. Complex amplitudes and Pauli-Z expectations are
  floating point and are left out. Only the gate list and the CNOT chain's
  action on basis states are modelled.
- The random weight draw (model_hybrid_qnn_rf.py:92) is a parameter. Its
  range [0, 2π) is not checked.
- Hybrid.ScaleValue uses exact reals. Float rounding and scikit-learn's
  treatment of near-zero ranges are not modelled. A constant column has its
  range taken as 1.
- Evaluation.TestSize is ceil(0.3 n) in exact arithmetic. The float product
  `0.3 * n` is not modelled.
- `value_counts` only prints, so it is not modelled. Of
  `classification_report` only its ValueError on a class count that does not
  match the target names is modelled (Evaluation.Evaluate); the per-class
  precision, recall and F1 it prints are not.
- The EDA statistics (eda_laliga.py:17-20, 57-96, 106-120 values) are
  float statistics and are not modelled: `describe`, the correlations, the
  `< 0.9999` filter, the histograms and the means. Eda models which sections
  run and what the frame holds when they do.
- pandas dtypes are not modelled:
  - Hybrid.ToReals rejects a missing cell with ValueError. MinMaxScaler
    would instead ignore NaN when fitting and keep it when transforming,
    passing it on to the models. cleandata.py fills every gap in a numeric
    column with 0, so a cleaned frame has no missing feature.
  - A filled gap becomes the real 0.0 whatever the column's dtype.
  - to_numeric returns a real.
- Columns are not re-read from CSV between scripts. pandas' renaming of
  repeated CSV headers (`x.1`) is not modelled: cleaning receives the
  table with its names as they are.
- JSON bodies are typed. A fixture or statistics object missing a nested
  key, and a non-object body, are not modelled. The `errors` field is a
  list, empty when absent. `response` can be absent, null or present.
- Python dictionaries are modelled as maps, so key insertion order is not
  modelled. This affects the order of the statistic columns of
  `pd.DataFrame(stats_rows)` (get_statistics.py:77) and of the flat record.
- Fixtures.FixtureIds: the ids are cells, since a JSON id may be null,
  while Statistics.DownloadAllStats takes integers. The hand-off at
  get_statistics.py:88-89 is stated on the fixtures side only. A null or
  non-integer id is not carried into the download.
- Merge.InnerJoin: a suffixed name that collides with an existing column is
  not modelled. pandas would reject it.
