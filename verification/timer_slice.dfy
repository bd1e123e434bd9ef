/** The single countdown timer of the app: armed by a start, ticked down once per
    second, paused and resumed, cleared by a reset. */
module TimerSlice {
  import opened Common

  datatype TimerState = TimerState(
    isRunning: bool,
    isPaused: bool,
    seconds: int,
    targetSeconds: int,
    exerciseId: Option<string>,
    setNumber: int)

  datatype TimerAction =
    | StartTimer(targetSeconds: int, exerciseId: string, setNumber: int)
    | PauseTimer
    | ResumeTimer
    | DecrementTimer
    | ResetTimer

  const Initial := TimerState(false, false, 0, 60, None, 0)

  /** The slice reducer. */
  function Reduce(t: TimerState, a: TimerAction): TimerState {
    match a
    case StartTimer(target, id, setNo) => TimerState(true, false, target, target, Some(id), setNo)
    case PauseTimer => t.(isPaused := true)
    case ResumeTimer => t.(isPaused := false)
    case DecrementTimer =>
      var secs := if t.seconds > 0 && !t.isPaused then t.seconds - 1 else t.seconds;
      t.(seconds := secs, isRunning := if secs == 0 then false else t.isRunning)
    case ResetTimer => Initial
  }

  function ReduceAll(t: TimerState, acts: seq<TimerAction>): TimerState {
    if acts == [] then t else Reduce(ReduceAll(t, acts[..|acts| - 1]), acts[|acts| - 1])
  }

  /** What remains lies between zero and the armed duration. */
  predicate InRange(t: TimerState) {
    0 <= t.seconds <= t.targetSeconds
  }

  predicate SaneAction(a: TimerAction) {
    a.StartTimer? ==> a.targetSeconds >= 0
  }

  // ---- one-step properties ----

  /** A start overwrites every field, whatever was running before: the last start wins. */
  lemma StartOverwrites(t: TimerState, u: TimerState, n: int, id: string, setNo: int)
    ensures Reduce(t, StartTimer(n, id, setNo)) == Reduce(u, StartTimer(n, id, setNo))
    ensures var r := Reduce(t, StartTimer(n, id, setNo));
      r.isRunning && !r.isPaused && r.seconds == n && r.targetSeconds == n
      && r.exerciseId == Some(id) && r.setNumber == setNo
  {
  }

  lemma PauseResumeKeepTime(t: TimerState)
    ensures Reduce(t, PauseTimer) == t.(isPaused := true)
    ensures Reduce(t, ResumeTimer) == t.(isPaused := false)
  {
  }

  /** A tick takes exactly one second off a running, unpaused timer and none otherwise; it never
      goes below zero from zero or above; reaching zero stops the timer; the armed duration,
      owner and set number are untouched. */
  lemma DecrementStep(t: TimerState)
    ensures var r := Reduce(t, DecrementTimer);
      && r.seconds == (if t.seconds > 0 && !t.isPaused then t.seconds - 1 else t.seconds)
      && (t.seconds >= 0 ==> r.seconds >= 0)
      && (r.seconds == 0 ==> !r.isRunning)
      && (r.seconds != 0 ==> r.isRunning == t.isRunning)
      && r.targetSeconds == t.targetSeconds && r.exerciseId == t.exerciseId
      && r.setNumber == t.setNumber && r.isPaused == t.isPaused
  {
  }

  lemma ResetIdle(t: TimerState)
    ensures Reduce(t, ResetTimer) == TimerState(false, false, 0, 60, None, 0)
    ensures Reduce(Reduce(t, ResetTimer), ResetTimer) == Reduce(t, ResetTimer)
  {
  }

  // ---- properties over runs ----

  /** Every action keeps the remaining time within [0, target], given non-negative durations. */
  lemma {:induction false} RunStaysInRange(t: TimerState, acts: seq<TimerAction>)
    requires InRange(t)
    requires forall i :: 0 <= i < |acts| ==> SaneAction(acts[i])
    ensures InRange(Initial)
    ensures InRange(ReduceAll(t, acts))
  {
    if acts != [] {
      RunStaysInRange(t, acts[..|acts| - 1]);
    }
  }

  function Ticks(k: nat): (r: seq<TimerAction>)
    ensures |r| == k && forall i :: 0 <= i < k ==> r[i] == DecrementTimer
  {
    if k == 0 then [] else Ticks(k - 1) + [DecrementTimer]
  }

  /** Arming n > 0 seconds and ticking k <= n times leaves n - k seconds; the timer keeps running
      until the n-th tick, which stops it. */
  lemma {:induction false} Countdown(n: int, id: string, setNo: int, k: nat)
    requires 0 < n && k <= n
    ensures var r := ReduceAll(Reduce(Initial, StartTimer(n, id, setNo)), Ticks(k));
      r.seconds == n - k && r.isRunning == (k < n) && !r.isPaused
      && r.targetSeconds == n && r.exerciseId == Some(id) && r.setNumber == setNo
  {
    if k > 0 {
      assert Ticks(k)[..k - 1] == Ticks(k - 1);
      Countdown(n, id, setNo, k - 1);
    }
  }

  /** While paused with time left, ticks change nothing at all. */
  lemma {:induction false} PausedFreezes(t: TimerState, k: nat)
    requires t.isPaused && t.seconds != 0
    ensures ReduceAll(t, Ticks(k)) == t
  {
    if k > 0 {
      assert Ticks(k)[..k - 1] == Ticks(k - 1);
      PausedFreezes(t, k - 1);
    }
  }

  /** The Redux store's timer slice, updated in place by its reducers. */
  class TimerStore {
    var isRunning: bool
    var isPaused: bool
    var seconds: int
    var targetSeconds: int
    var exerciseId: Option<string>
    var setNumber: int

    function Snapshot(): TimerState
      reads this
    {
      TimerState(isRunning, isPaused, seconds, targetSeconds, exerciseId, setNumber)
    }

    constructor ()
      ensures Snapshot() == Initial
    {
      isRunning := false;
      isPaused := false;
      seconds := 0;
      targetSeconds := 60;
      exerciseId := None;
      setNumber := 0;
    }

    method StartTimer(target: int, id: string, setNo: int)
      modifies this
      ensures Snapshot() == Reduce(old(Snapshot()), TimerAction.StartTimer(target, id, setNo))
    {
      isRunning := true;
      isPaused := false;
      seconds := target;
      targetSeconds := target;
      exerciseId := Some(id);
      setNumber := setNo;
    }

    method PauseTimer()
      modifies this
      ensures Snapshot() == Reduce(old(Snapshot()), TimerAction.PauseTimer)
      ensures Snapshot() == old(Snapshot()).(isPaused := true)
    {
      isPaused := true;
    }

    method ResumeTimer()
      modifies this
      ensures Snapshot() == Reduce(old(Snapshot()), TimerAction.ResumeTimer)
      ensures Snapshot() == old(Snapshot()).(isPaused := false)
    {
      isPaused := false;
    }

    method DecrementTimer()
      modifies this
      ensures Snapshot() == Reduce(old(Snapshot()), TimerAction.DecrementTimer)
      ensures old(InRange(Snapshot())) ==> InRange(Snapshot())
    {
      if seconds > 0 && !isPaused {
        seconds := seconds - 1;
      }
      if seconds == 0 {
        isRunning := false;
      }
    }

    method ResetTimer()
      modifies this
      ensures Snapshot() == Reduce(old(Snapshot()), TimerAction.ResetTimer)
      ensures Snapshot() == Initial
    {
      isRunning := false;
      isPaused := false;
      seconds := 0;
      targetSeconds := 60;
      exerciseId := None;
      setNumber := 0;
    }
  }
}
