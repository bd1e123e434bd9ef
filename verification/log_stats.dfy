/** The aggregations over workout logs shared by the dashboard and the progress page:
    totals of sets and of reps, the distinct exercises, the logs of a span of days,
    and the "recent" list joined with exercise names. */
module LogStats {
  import opened Common
  import opened Records

  // ---------------------------------------------------------------- totals

  /** `logs.reduce((sum, log) => sum + f(log), 0)`. */
  function Total(logs: seq<WorkoutLog>, f: WorkoutLog -> int): int {
    if logs == [] then 0 else f(logs[0]) + Total(logs[1..], f)
  }

  function LogSets(l: WorkoutLog): int {
    l.sets
  }

  /** The reps a log stands for: its reps once per set. */
  function LogReps(l: WorkoutLog): (n: int)
    ensures l.sets >= 0 && l.reps >= 0 ==> n >= 0
  {
    l.reps * l.sets
  }

  /** Total sets. */
  function SetsSum(logs: seq<WorkoutLog>): int {
    Total(logs, LogSets)
  }

  /** Total reps: `logs.reduce((sum, log) => sum + log.reps * log.sets, 0)`. */
  function RepsSum(logs: seq<WorkoutLog>): int {
    Total(logs, LogReps)
  }

  /** A total adds up over a split of the list. */
  lemma {:induction false} TotalAppend(a: seq<WorkoutLog>, b: seq<WorkoutLog>, f: WorkoutLog -> int)
    ensures Total(a + b, f) == Total(a, f) + Total(b, f)
  {
    if a == [] {
      assert a + b == b;
    } else {
      assert (a + b)[1..] == a[1..] + b;
      TotalAppend(a[1..], b, f);
    }
  }

  /** A total of values that are never negative is not negative. */
  lemma {:induction false} TotalNonNegative(logs: seq<WorkoutLog>, f: WorkoutLog -> int)
    requires forall i :: 0 <= i < |logs| ==> f(logs[i]) >= 0
    ensures Total(logs, f) >= 0
  {
    if logs != [] {
      TotalNonNegative(logs[1..], f);
    }
  }

  // ---------------------------------------------------------------- distinct exercises

  /** `new Set(logs.map(log => log.exercise_id))`. */
  function DistinctIds(logs: seq<WorkoutLog>): (ids: set<Id>)
    ensures forall i :: 0 <= i < |logs| ==> logs[i].exerciseId in ids
    ensures forall x :: x in ids ==> exists i :: 0 <= i < |logs| && logs[i].exerciseId == x
  {
    if logs == [] then {}
    else
      var rest := DistinctIds(logs[1..]);
      assert forall x :: x in rest ==> exists i :: 1 <= i < |logs| && logs[i].exerciseId == x by {
        forall x | x in rest ensures exists i :: 1 <= i < |logs| && logs[i].exerciseId == x {
          var j :| 0 <= j < |logs[1..]| && logs[1..][j].exerciseId == x;
          assert logs[j + 1].exerciseId == x;
        }
      }
      assert forall i :: 1 <= i < |logs| ==> logs[i].exerciseId in rest by {
        forall i | 1 <= i < |logs| ensures logs[i].exerciseId in rest {
          assert logs[1..][i - 1] == logs[i];
        }
      }
      {logs[0].exerciseId} + rest
  }

  /** There are never more distinct exercises than logs. */
  lemma {:induction false} DistinctBound(logs: seq<WorkoutLog>)
    ensures |DistinctIds(logs)| <= |logs|
  {
    if logs != [] {
      DistinctBound(logs[1..]);
    }
  }

  // ---------------------------------------------------------------- spans of days

  /** The logs whose day lies in [lo, hi), in their order. */
  function Window(logs: seq<WorkoutLog>, lo: int, hi: int): (r: seq<WorkoutLog>)
    ensures |r| <= |logs|
  {
    if logs == [] then []
    else (if lo <= logs[0].day < hi then [logs[0]] else []) + Window(logs[1..], lo, hi)
  }

  /** A span keeps exactly the logs whose day lies in it; an empty span keeps none. */
  lemma {:induction false} WindowMembers(logs: seq<WorkoutLog>, lo: int, hi: int)
    ensures forall l :: l in Window(logs, lo, hi) <==> l in logs && lo <= l.day < hi
    ensures hi <= lo ==> Window(logs, lo, hi) == []
  {
    if logs != [] {
      WindowMembers(logs[1..], lo, hi);
      assert forall l :: l in logs <==> l == logs[0] || l in logs[1..];
    }
  }

  /** The logs completed on one day. */
  function DayLogs(logs: seq<WorkoutLog>, day: int): (r: seq<WorkoutLog>)
    ensures |r| <= |logs|
  {
    Window(logs, day, day + 1)
  }

  /** A day's logs are exactly the logs of that day. */
  lemma DayLogsMembers(logs: seq<WorkoutLog>, day: int)
    ensures forall l :: l in DayLogs(logs, day) <==> l in logs && l.day == day
  {
    WindowMembers(logs, day, day + 1);
  }

  /** Splitting a span of days splits its total: no log is counted twice or lost. */
  lemma {:induction false} WindowSplit(logs: seq<WorkoutLog>, lo: int, mid: int, hi: int, f: WorkoutLog -> int)
    requires lo <= mid <= hi
    ensures Total(Window(logs, lo, hi), f) == Total(Window(logs, lo, mid), f) + Total(Window(logs, mid, hi), f)
  {
    if logs != [] {
      var l, rest := logs[0], logs[1..];
      WindowSplit(rest, lo, mid, hi, f);
      var one := [l];
      var none: seq<WorkoutLog> := [];
      TotalAppend(if lo <= l.day < hi then one else none, Window(rest, lo, hi), f);
      TotalAppend(if lo <= l.day < mid then one else none, Window(rest, lo, mid), f);
      TotalAppend(if mid <= l.day < hi then one else none, Window(rest, mid, hi), f);
    }
  }

  /** The sum over n consecutive days of each day's total. */
  function DaysTotal(logs: seq<WorkoutLog>, first: int, n: nat, f: WorkoutLog -> int): int {
    if n == 0 then 0 else DaysTotal(logs, first, n - 1, f) + Total(DayLogs(logs, first + n - 1), f)
  }

  /** Day by day, n consecutive days add up to the total of the logs in their span. */
  lemma {:induction false} DaysPartition(logs: seq<WorkoutLog>, first: int, n: nat, f: WorkoutLog -> int)
    ensures DaysTotal(logs, first, n, f) == Total(Window(logs, first, first + n), f)
  {
    if n == 0 {
      WindowMembers(logs, first, first);
    } else {
      var lo, mid, hi := first, first + n - 1, first + n;
      DaysPartition(logs, first, n - 1, f);
      assert DaysTotal(logs, first, n - 1, f) == Total(Window(logs, lo, mid), f);
      assert Total(DayLogs(logs, mid), f) == Total(Window(logs, mid, hi), f);
      WindowSplit(logs, lo, mid, hi, f);
    }
  }

  // ---------------------------------------------------------------- recent list

  const UnknownName := "Unknown"

  /** `exercise?.name || 'Unknown'` for the first exercise with the log's exercise id. */
  function ExerciseName(exercises: seq<Exercise>, id: Id): (name: string)
    ensures name != ""
    ensures FindExercise(exercises, id).None? ==> name == UnknownName
    ensures FindExercise(exercises, id).Some? && FindExercise(exercises, id).value.name != "" ==>
      name == FindExercise(exercises, id).value.name
    ensures FindExercise(exercises, id).Some? && FindExercise(exercises, id).value.name == "" ==>
      name == UnknownName
  {
    match FindExercise(exercises, id)
    case None => UnknownName
    case Some(e) => if e.name == "" then UnknownName else e.name
  }

  datatype RecentEntry = RecentEntry(log: WorkoutLog, exerciseName: string)

  /** `logs.slice(0, n).map(...)`: the first n logs, in order, each with its exercise's name. */
  function Recent(logs: seq<WorkoutLog>, exercises: seq<Exercise>, n: nat): (r: seq<RecentEntry>)
    ensures |r| == Min(n, |logs|)
    ensures forall i :: 0 <= i < |r| ==>
      r[i].log == logs[i] && r[i].exerciseName == ExerciseName(exercises, logs[i].exerciseId)
  {
    if n == 0 || logs == [] then []
    else [RecentEntry(logs[0], ExerciseName(exercises, logs[0].exerciseId))] + Recent(logs[1..], exercises, n - 1)
  }

  /** A shorter recent list is a prefix of a longer one over the same data. */
  lemma RecentPrefix(logs: seq<WorkoutLog>, exercises: seq<Exercise>, m: nat, n: nat)
    requires m <= n
    ensures Recent(logs, exercises, m) == Recent(logs, exercises, n)[..Min(m, |logs|)]
  {
  }
}
