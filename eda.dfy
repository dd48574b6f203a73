/**
 * eda_laliga.py: the exploratory pass over the cleaned table. Targets are
 * derived only when both goal columns are there (otherwise a warning is
 * printed and the script goes on), and each insight section runs only when
 * the columns it reads are present. The statistics, plots and printed
 * figures themselves are not modelled; what is modelled is which sections
 * run and what the frame holds when they do.
 */
module Eda {
  import opened Wrappers
  import opened Frames
  import opened Targets

  /** Which insight sections run. */
  datatype Insights = Insights(shots: bool, possession: bool, goals: bool)

  /** The frame after the target step, whether targets were created or the warning printed, and the insights that run. */
  datatype EdaRun = EdaRun(frame: Table, targetsCreated: bool, warned: bool, insights: Insights)

  /** `{"home_goals", "away_goals"}.issubset(df.columns)`. */
  predicate HasGoals(cols: seq<string>) {
    "home_goals" in cols && "away_goals" in cols
  }

  /** The guards of the three insight sections, read on the frame as it stands after the target step. */
  function InsightsFor(cols: seq<string>): Insights {
    Insights("home_Shots on Goal" in cols && "away_Shots on Goal" in cols, "home_Ball Possession" in cols, HasGoals(cols))
  }

  /** The script on the loaded frame: the guarded target step, then the insight guards. */
  function Explore(t: Table): Result<EdaRun, Exception>
    requires Rectangular(t)
  {
    if !HasGoals(t.columns) then Success(EdaRun(t, false, true, InsightsFor(t.columns)))
    else match WithTargets(t)
      case Failure(e) => Failure(e)
      case Success(u) => Success(EdaRun(u, true, false, InsightsFor(u.columns)))
  }

  /**
   * Without both goal columns the run goes on: no exception, the warning,
   * no target column and the frame unchanged. With both, it raises only
   * when the goal cells cannot be subtracted.
   */
  lemma ExploreGuard(t: Table)
    requires Rectangular(t)
    ensures !HasGoals(t.columns) ==>
      Explore(t).Success? && Explore(t).value.warned && !Explore(t).value.targetsCreated &&
      Explore(t).value.frame == t
    ensures HasGoals(t.columns) ==> (Explore(t).Success? <==> TargetsDerivable(t))
    ensures Explore(t).Success? ==> (Explore(t).value.warned <==> !Explore(t).value.targetsCreated)
  {
    WithTargetsSucceeds(t);
  }

  /**
   * Whenever the goals insight runs, the frame has goal_diff, and row by row
   * it is home_goals - away_goals with the sign-rule label beside it: the
   * column the insight averages is always defined.
   */
  lemma GoalsInsightReadsGoalDiff(t: Table)
    requires Rectangular(t) && Explore(t).Success? && Explore(t).value.insights.goals
    ensures Explore(t).value.targetsCreated
    ensures "goal_diff" in Explore(t).value.frame.columns && "result_label" in Explore(t).value.frame.columns
    ensures var u := Explore(t).value.frame;
      forall r :: 0 <= r < |t.rows| ==>
        var h, a := Column(t, "home_goals")[r], Column(t, "away_goals")[r];
        h.Some? && h.value.IntVal? && a.Some? && a.value.IntVal? ==>
          Column(u, "goal_diff")[r] == Some(IntVal(h.value.i - a.value.i)) &&
          Column(u, "result_label")[r] == Some(StrVal(Name(LabelResult(h.value.i - a.value.i))))
  {
    WithTargetsKeeps(t);
    forall r | 0 <= r < |t.rows| {
      WithTargetsRow(t, r);
    }
  }

  /** Deriving the targets adds no statistics column, so the shots and possession guards read the same on the loaded frame. */
  lemma InsightsOnLoadedFrame(t: Table)
    requires Rectangular(t) && Explore(t).Success?
    ensures Explore(t).value.insights.shots <==> "home_Shots on Goal" in t.columns && "away_Shots on Goal" in t.columns
    ensures Explore(t).value.insights.possession <==> "home_Ball Possession" in t.columns
    ensures Explore(t).value.insights.goals <==> HasGoals(t.columns)
  {
    if HasGoals(t.columns) {
      TargetsKeepName(t, "home_Shots on Goal");
      TargetsKeepName(t, "away_Shots on Goal");
      TargetsKeepName(t, "home_Ball Possession");
      TargetsKeepName(t, "home_goals");
      TargetsKeepName(t, "away_goals");
    }
  }

  /** The script on a DataFrame: the guarded in-place target step, then the insight guards. */
  method RunEda(df: DataFrame) returns (r: Result<EdaRun, Exception>)
    requires df.Valid()
    modifies df
    ensures df.Valid()
    ensures r == Explore(old(df.View()))
    ensures r.Success? ==> df.View() == r.value.frame
    ensures WithTargets(old(df.View())).Success? ==> df.View() == WithTargets(old(df.View())).value
    ensures WithTargets(old(df.View())).Failure? ==> df.View() == old(df.View())
  {
    ghost var t := df.View();
    var created := false;
    var warned := false;
    if "home_goals" in df.columns && "away_goals" in df.columns {
      var o := AddTargets(df);
      if o.Fail? {
        return Failure(o.error);
      }
      created := true;
    } else {
      warned := true;
    }
    var insights := InsightsFor(df.columns);
    r := Success(EdaRun(df.View(), created, warned, insights));
  }
}
