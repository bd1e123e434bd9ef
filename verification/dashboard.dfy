/** The dashboard: today's three stat cards and the five most recent workouts. The
    current day is a parameter `today`, a day key like the logs' own. */
module Dashboard {
  import opened Common
  import opened Records
  import opened LogStats
  import Pr = Progress

  datatype TodayStats = TodayStats(totalSets: int, totalReps: int, uniqueExercises: int)

  /** Over today's logs: total sets, total reps (reps times sets), and distinct exercises. */
  function TodayStatsOf(logs: seq<WorkoutLog>, today: int): (s: TodayStats)
    ensures var d := DayLogs(logs, today);
      s.totalSets == SetsSum(d) && s.totalReps == RepsSum(d) && s.uniqueExercises == |DistinctIds(d)|
    ensures 0 <= s.uniqueExercises <= |DayLogs(logs, today)|
    ensures DayLogs(logs, today) == [] ==> s == TodayStats(0, 0, 0)
  {
    var d := DayLogs(logs, today);
    DistinctBound(d);
    TodayStats(SetsSum(d), RepsSum(d), |DistinctIds(d)|)
  }

  datatype StatCard = StatCard(title: string, value: int)

  const StatLabels: seq<string> := ["Total Sets", "Total Reps", "Exercises"]

  /** The three cards, in the page's order, each carrying its total. */
  function StatCards(s: TodayStats): (cards: seq<StatCard>)
    ensures |cards| == 3 && forall i :: 0 <= i < 3 ==> cards[i].title == StatLabels[i]
    ensures cards[0].value == s.totalSets && cards[1].value == s.totalReps
      && cards[2].value == s.uniqueExercises
  {
    [StatCard(StatLabels[0], s.totalSets), StatCard(StatLabels[1], s.totalReps),
     StatCard(StatLabels[2], s.uniqueExercises)]
  }

  /** The labels are the cards' keys: they are pairwise different. */
  lemma StatKeysDistinct(s: TodayStats)
    ensures forall i, j :: 0 <= i < j < |StatCards(s)| ==> StatCards(s)[i].title != StatCards(s)[j].title
  {
  }

  const RecentCount := 5

  /** The five newest logs, each with its exercise's name or "Unknown". */
  function RecentWorkouts(logs: seq<WorkoutLog>, exercises: seq<Exercise>): (r: seq<RecentEntry>)
    ensures |r| == Min(RecentCount, |logs|)
    ensures forall i :: 0 <= i < |r| ==>
      r[i].log == logs[i] && r[i].exerciseName == ExerciseName(exercises, logs[i].exerciseId)
  {
    Recent(logs, exercises, RecentCount)
  }

  /** With no logs every total is zero and the recent list is empty. */
  lemma EmptyDashboard(exercises: seq<Exercise>, today: int)
    ensures TodayStatsOf([], today) == TodayStats(0, 0, 0)
    ensures RecentWorkouts([], exercises) == []
  {
  }

  /** The dashboard's recent list is the start of the progress page's history. */
  lemma RecentIsHistoryPrefix(logs: seq<WorkoutLog>, exercises: seq<Exercise>)
    ensures RecentWorkouts(logs, exercises) == Pr.RecentLogs(logs, exercises)[..Min(RecentCount, |logs|)]
  {
    RecentPrefix(logs, exercises, RecentCount, Pr.HistoryLength);
  }

  /** Today's cards agree with the progress chart's bar for today, whichever weekday it is. */
  lemma TodayMatchesChart(logs: seq<WorkoutLog>, weekStart: int, today: int)
    requires weekStart <= today < weekStart + 7
    ensures var bar := Pr.WeeklyData(logs, weekStart)[today - weekStart];
      bar.sets == TodayStatsOf(logs, today).totalSets && bar.reps == TodayStatsOf(logs, today).totalReps
  {
  }
}
