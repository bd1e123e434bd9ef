/** The progress page: the week's bar chart of sets and reps per day, the achievement
    badges, and the workout history list. Calendar arithmetic is replaced by day keys:
    the week starts at the key `weekStart` (a Sunday) and runs for seven keys. */
module Progress {
  import opened Common
  import opened Records
  import opened LogStats

  const DayLabels: seq<string> := ["Sun", "Mon", "Tue", "Wed", "Thu", "Fri", "Sat"]

  // ---------------------------------------------------------------- weekly chart

  datatype DayBar = DayBar(day: string, sets: int, reps: int)

  /** The bar of the i-th day of the week: its label, its total sets and its total reps
      (reps times sets). */
  function Bar(logs: seq<WorkoutLog>, weekStart: int, i: nat): DayBar
    requires i < 7
  {
    var d := DayLogs(logs, weekStart + i);
    DayBar(DayLabels[i], SetsSum(d), RepsSum(d))
  }

  /** The bars of the first k days of the week. */
  function Bars(logs: seq<WorkoutLog>, weekStart: int, k: nat): (bars: seq<DayBar>)
    requires k <= 7
    ensures |bars| == k
  {
    if k == 0 then [] else Bars(logs, weekStart, k - 1) + [Bar(logs, weekStart, k - 1)]
  }

  /** The i-th of the first k bars is the bar of day i. */
  lemma {:induction false} BarsAt(logs: seq<WorkoutLog>, weekStart: int, k: nat)
    requires k <= 7
    ensures forall i {:trigger Bars(logs, weekStart, k)[i]} :: 0 <= i < k ==>
      Bars(logs, weekStart, k)[i] == Bar(logs, weekStart, i)
  {
    if k > 0 {
      BarsAt(logs, weekStart, k - 1);
    }
  }

  /** One bar per weekday, Sunday first: the day's total sets and total reps (reps times sets). */
  function WeeklyData(logs: seq<WorkoutLog>, weekStart: int): (bars: seq<DayBar>)
    ensures |bars| == 7
    ensures forall i :: 0 <= i < 7 ==>
      bars[i].day == DayLabels[i]
      && bars[i].sets == SetsSum(DayLogs(logs, weekStart + i))
      && bars[i].reps == RepsSum(DayLogs(logs, weekStart + i))
  {
    BarsAt(logs, weekStart, 7);
    Bars(logs, weekStart, 7)
  }

  function BarSets(bars: seq<DayBar>): int {
    if bars == [] then 0 else BarSets(bars[..|bars| - 1]) + bars[|bars| - 1].sets
  }

  function BarReps(bars: seq<DayBar>): int {
    if bars == [] then 0 else BarReps(bars[..|bars| - 1]) + bars[|bars| - 1].reps
  }

  /** The first k bars add up, day by day, to the first k days' totals. */
  lemma {:induction false} BarsTotals(logs: seq<WorkoutLog>, weekStart: int, k: nat)
    requires k <= 7
    ensures BarSets(Bars(logs, weekStart, k)) == DaysTotal(logs, weekStart, k, LogSets)
    ensures BarReps(Bars(logs, weekStart, k)) == DaysTotal(logs, weekStart, k, LogReps)
  {
    if k > 0 {
      var prev, b := Bars(logs, weekStart, k - 1), Bar(logs, weekStart, k - 1);
      assert (prev + [b])[..k - 1] == prev;
      BarsTotals(logs, weekStart, k - 1);
    }
  }

  /** The chart loses and duplicates nothing: its bars add up to the totals of the week's logs. */
  lemma WeekTotals(logs: seq<WorkoutLog>, weekStart: int)
    ensures BarSets(WeeklyData(logs, weekStart)) == SetsSum(Window(logs, weekStart, weekStart + 7))
    ensures BarReps(WeeklyData(logs, weekStart)) == RepsSum(Window(logs, weekStart, weekStart + 7))
  {
    BarsTotals(logs, weekStart, 7);
    DaysPartition(logs, weekStart, 7, LogSets);
    DaysPartition(logs, weekStart, 7, LogReps);
  }

  // ---------------------------------------------------------------- badges

  datatype Badge = FirstWorkout | TenWorkouts | FiftyWorkouts | HundredReps | FiveHundredReps | ExerciseMaster

  function BadgeName(b: Badge): string {
    match b
    case FirstWorkout => "First Workout"
    case TenWorkouts => "10 Workouts"
    case FiftyWorkouts => "50 Workouts"
    case HundredReps => "100 Reps"
    case FiveHundredReps => "500 Reps"
    case ExerciseMaster => "Exercise Master"
  }

  /** Position in the page's fixed badge order. */
  function Rank(b: Badge): nat {
    match b
    case FirstWorkout => 0
    case TenWorkouts => 1
    case FiftyWorkouts => 2
    case HundredReps => 3
    case FiveHundredReps => 4
    case ExerciseMaster => 5
  }

  /** Badge names are the list's keys: no two badges share one. */
  lemma BadgeNamesDistinct(a: Badge, b: Badge)
    ensures BadgeName(a) == BadgeName(b) ==> a == b
  {
  }

  /** The page's badge order. */
  const AllBadges: seq<Badge> := [FirstWorkout, TenWorkouts, FiftyWorkouts, HundredReps, FiveHundredReps, ExerciseMaster]

  /** Each badge's threshold: at least 1, 10 and 50 logs; at least 100 and 500 total reps; at least
      5 distinct exercises. */
  predicate Earned(b: Badge, workouts: int, reps: int, unique: int) {
    match b
    case FirstWorkout => workouts >= 1
    case TenWorkouts => workouts >= 10
    case FiftyWorkouts => workouts >= 50
    case HundredReps => reps >= 100
    case FiveHundredReps => reps >= 500
    case ExerciseMaster => unique >= 5
  }

  predicate RankSorted(bs: seq<Badge>) {
    forall i, j :: 0 <= i < j < |bs| ==> Rank(bs[i]) < Rank(bs[j])
  }

  /** The badges of `bs` that are earned, in their order. */
  function KeepEarned(bs: seq<Badge>, workouts: int, reps: int, unique: int): (r: seq<Badge>)
    ensures |r| <= |bs|
    ensures forall b :: b in r <==> b in bs && Earned(b, workouts, reps, unique)
  {
    if bs == [] then []
    else
      var rest := KeepEarned(bs[1..], workouts, reps, unique);
      assert forall b :: b in bs <==> b == bs[0] || b in bs[1..];
      (if Earned(bs[0], workouts, reps, unique) then [bs[0]] else []) + rest
  }

  /** Keeping only the earned badges keeps them in their order. */
  lemma {:induction false} KeepEarnedSorted(bs: seq<Badge>, workouts: int, reps: int, unique: int)
    requires RankSorted(bs)
    ensures RankSorted(KeepEarned(bs, workouts, reps, unique))
  {
    if bs != [] {
      var tail := bs[1..];
      assert RankSorted(tail) by {
        forall i, j | 0 <= i < j < |tail| ensures Rank(tail[i]) < Rank(tail[j]) {
          assert tail[i] == bs[i + 1] && tail[j] == bs[j + 1];
        }
      }
      KeepEarnedSorted(tail, workouts, reps, unique);
      var rest := KeepEarned(tail, workouts, reps, unique);
      var r := KeepEarned(bs, workouts, reps, unique);
      if Earned(bs[0], workouts, reps, unique) {
        assert r == [bs[0]] + rest;
        forall i, j | 0 <= i < j < |r| ensures Rank(r[i]) < Rank(r[j]) {
          assert r[j] == rest[j - 1];
          assert r[j] in tail;
          var k :| 0 <= k < |tail| && tail[k] == r[j];
          assert bs[k + 1] == r[j];
          if i > 0 {
            assert r[i] == rest[i - 1];
          }
        }
      } else {
        assert r == rest;
      }
    }
  }

  /** The earned badges, in the fixed order, each present exactly when its threshold is met. */
  function Badges(logs: seq<WorkoutLog>): (r: seq<Badge>)
    ensures |r| <= 6 && RankSorted(r)
    ensures forall b :: b in r <==> Earned(b, |logs|, RepsSum(logs), |DistinctIds(logs)|)
  {
    assert forall b :: b in AllBadges by {
      forall b ensures b in AllBadges {
        assert AllBadges[Rank(b)] == b;
      }
    }
    KeepEarnedSorted(AllBadges, |logs|, RepsSum(logs), |DistinctIds(logs)|);
    KeepEarned(AllBadges, |logs|, RepsSum(logs), |DistinctIds(logs)|)
  }

  /** Every threshold is one of "at least": more workouts, reps or exercises keep a badge earned. */
  lemma EarnedMonotone(b: Badge, w: int, r: int, u: int, w2: int, r2: int, u2: int)
    requires w <= w2 && r <= r2 && u <= u2
    ensures Earned(b, w, r, u) ==> Earned(b, w2, r2, u2)
  {
  }

  /** Adding a log never loses a distinct exercise. */
  lemma DistinctGrows(logs: seq<WorkoutLog>, l: WorkoutLog)
    ensures |DistinctIds(logs)| <= |DistinctIds([l] + logs)|
  {
    var more := [l] + logs;
    assert more[1..] == logs;
    var ids := DistinctIds(logs);
    assert DistinctIds(more) == {l.exerciseId} + ids;
    if l.exerciseId in ids {
      assert {l.exerciseId} + ids == ids;
    } else {
      assert {l.exerciseId} + ids == ids + {l.exerciseId};
    }
  }

  /** Logging another workout (with non-negative sets and reps) never takes a badge away. */
  lemma AddingLogKeepsBadges(logs: seq<WorkoutLog>, l: WorkoutLog)
    requires l.sets >= 0 && l.reps >= 0
    ensures forall b :: b in Badges(logs) ==> b in Badges([l] + logs)
  {
    var more := [l] + logs;
    assert more[1..] == logs;
    assert LogReps(l) >= 0;
    var r, r2 := RepsSum(logs), RepsSum(more);
    assert r2 == LogReps(l) + r;
    DistinctGrows(logs, l);
    var u, u2 := |DistinctIds(logs)|, |DistinctIds(more)|;
    forall b | b in Badges(logs) ensures b in Badges(more) {
      EarnedMonotone(b, |logs|, r, u, |more|, r2, u2);
    }
  }

  // ---------------------------------------------------------------- history

  const HistoryLength := 10

  /** The workout history: the ten newest logs, each with its exercise's name. */
  function RecentLogs(logs: seq<WorkoutLog>, exercises: seq<Exercise>): (r: seq<RecentEntry>)
    ensures |r| == Min(HistoryLength, |logs|)
    ensures forall i :: 0 <= i < |r| ==>
      r[i].log == logs[i] && r[i].exerciseName == ExerciseName(exercises, logs[i].exerciseId)
  {
    Recent(logs, exercises, HistoryLength)
  }
}
