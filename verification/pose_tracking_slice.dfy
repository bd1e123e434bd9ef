/** The workout session state machine of the pose-tracking page: exercise name,
    target and current reps and sets, and the feedback line shown to the user. */
module PoseTrackingSlice {
  import opened Common

  datatype Session = Session(
    isTracking: bool,
    exerciseName: Option<string>,
    currentReps: int,
    targetReps: int,
    currentSet: int,
    targetSets: int,
    feedback: string)

  datatype Action =
    | StartTracking(exerciseName: string, targetReps: int, targetSets: int)
    | StopTracking
    | IncrementRep
    | NextSet
    | SetFeedback(text: string)

  const Initial := Session(false, None, 0, 0, 0, 1, "")

  const GetIntoPosition := "Get into position..."

  function RepFeedback(n: int): string {
    "Rep " + IntToString(n) + " completed!"
  }

  function SetStartedFeedback(n: int): string {
    "Set " + IntToString(n) + " started!"
  }

  /** The slice reducer: the state after one dispatched action. */
  function Reduce(s: Session, a: Action): Session {
    match a
    case StartTracking(name, reps, sets) =>
      Session(true, Some(name), 0, reps, 0, sets, GetIntoPosition)
    case StopTracking => Initial
    case IncrementRep =>
      s.(currentReps := s.currentReps + 1, feedback := RepFeedback(s.currentReps + 1))
    case NextSet =>
      if s.currentSet < s.targetSets then
        s.(currentSet := s.currentSet + 1, currentReps := 0,
           feedback := SetStartedFeedback(s.currentSet + 1))
      else s
    case SetFeedback(text) => s.(feedback := text)
  }

  /** The state after dispatching `acts` in order. */
  function ReduceAll(s: Session, acts: seq<Action>): Session {
    if acts == [] then s else Reduce(ReduceAll(s, acts[..|acts| - 1]), acts[|acts| - 1])
  }

  /** The set counter never passes its target. */
  predicate SetBound(s: Session) {
    s.currentSet <= s.targetSets
  }

  /** A session start with a non-negative set target. */
  predicate SaneAction(a: Action) {
    a.StartTracking? ==> a.targetSets >= 0
  }

  predicate Restarts(a: Action) {
    a.StartTracking? || a.StopTracking?
  }

  // ---- one-step properties ----

  lemma StartTrackingResets(s: Session, name: string, reps: int, sets: int)
    ensures var r := Reduce(s, StartTracking(name, reps, sets));
      r.isTracking && r.exerciseName == Some(name) && r.targetReps == reps && r.targetSets == sets
      && r.currentReps == 0 && r.currentSet == 0 && r.feedback == "Get into position..."
  {
  }

  lemma StopTrackingIdle(s: Session)
    ensures Reduce(s, StopTracking) == Session(false, None, 0, 0, 0, 1, "")
    ensures Reduce(Reduce(s, StopTracking), StopTracking) == Reduce(s, StopTracking)
  {
  }

  lemma IncrementRepOnlyCounts(s: Session)
    ensures Reduce(s, IncrementRep) == s.(currentReps := s.currentReps + 1,
                                          feedback := "Rep " + IntToString(s.currentReps + 1) + " completed!")
  {
  }

  lemma NextSetGuard(s: Session)
    ensures s.currentSet < s.targetSets ==>
      Reduce(s, NextSet) == s.(currentSet := s.currentSet + 1, currentReps := 0,
                               feedback := "Set " + IntToString(s.currentSet + 1) + " started!")
    ensures s.currentSet >= s.targetSets ==> Reduce(s, NextSet) == s
  {
  }

  lemma SetFeedbackOnly(s: Session, text: string)
    ensures Reduce(s, SetFeedback(text)) == s.(feedback := text)
  {
  }

  /** The rep feedback line names the count exactly: two different counts never share a line. */
  lemma RepFeedbackInjective(a: int, b: int)
    requires RepFeedback(a) == RepFeedback(b)
    ensures a == b
  {
    var p, q := IntToString(a), IntToString(b);
    var x, y := RepFeedback(a), RepFeedback(b);
    assert p == x[4..|x| - 11];
    assert q == y[4..|y| - 11];
    IntToStringInjective(a, b);
  }

  // ---- properties over runs ----

  /** `currentSet <= targetSets` holds initially and every action keeps it. */
  lemma {:induction false} RunKeepsSetBound(s: Session, acts: seq<Action>)
    requires SetBound(s)
    requires forall i :: 0 <= i < |acts| ==> SaneAction(acts[i])
    ensures SetBound(Initial)
    ensures SetBound(ReduceAll(s, acts))
  {
    if acts != [] {
      RunKeepsSetBound(s, acts[..|acts| - 1]);
    }
  }

  /** Without a start or a stop, the set counter never goes down. */
  lemma {:induction false} RunNeverLowersSet(s: Session, acts: seq<Action>)
    requires forall i :: 0 <= i < |acts| ==> !Restarts(acts[i])
    ensures ReduceAll(s, acts).currentSet >= s.currentSet
    ensures ReduceAll(s, acts).targetSets == s.targetSets
    ensures ReduceAll(s, acts).targetReps == s.targetReps
    ensures ReduceAll(s, acts).exerciseName == s.exerciseName
  {
    if acts != [] {
      RunNeverLowersSet(s, acts[..|acts| - 1]);
    }
  }

  function Repeat(a: Action, k: nat): (r: seq<Action>)
    ensures |r| == k && forall i :: 0 <= i < k ==> r[i] == a
  {
    if k == 0 then [] else Repeat(a, k - 1) + [a]
  }

  /** k detected reps after a start leave the count at k and the feedback "Rep k completed!". */
  lemma {:induction false} RepsAfterStart(name: string, reps: int, sets: int, k: nat)
    ensures var r := ReduceAll(Reduce(Initial, StartTracking(name, reps, sets)), Repeat(IncrementRep, k));
      r.currentReps == k && r.currentSet == 0 && r.targetReps == reps && r.targetSets == sets
      && r.feedback == (if k == 0 then GetIntoPosition else RepFeedback(k))
  {
    if k > 0 {
      var acts := Repeat(IncrementRep, k);
      assert acts[..k - 1] == Repeat(IncrementRep, k - 1);
      RepsAfterStart(name, reps, sets, k - 1);
    }
  }

  /** k presses of Next Set advance the set counter by k, but never past the target. */
  lemma {:induction false} NextSetsSaturate(s: Session, k: nat)
    requires SetBound(s)
    ensures var r := ReduceAll(s, Repeat(NextSet, k));
      r.currentSet == Min(s.currentSet + k, s.targetSets)
      && r.targetSets == s.targetSets
      && (k > 0 && s.currentSet < s.targetSets ==> r.currentReps == 0)
  {
    if k > 0 {
      var acts := Repeat(NextSet, k);
      assert acts[..k - 1] == Repeat(NextSet, k - 1);
      NextSetsSaturate(s, k - 1);
    }
  }

  /** A run of rep and feedback actions raises the rep count by the number of reps in it and
      touches nothing but the count and the feedback. */
  function CountIncrements(acts: seq<Action>): (n: nat)
    ensures n <= |acts|
  {
    if acts == [] then 0
    else CountIncrements(acts[..|acts| - 1]) + (if acts[|acts| - 1].IncrementRep? then 1 else 0)
  }

  predicate RepOrFeedback(a: Action) {
    a.IncrementRep? || a.SetFeedback?
  }

  lemma {:induction false} RepRunCounts(s: Session, acts: seq<Action>)
    requires forall i :: 0 <= i < |acts| ==> RepOrFeedback(acts[i])
    ensures ReduceAll(s, acts).currentReps == s.currentReps + CountIncrements(acts)
    ensures ReduceAll(s, acts).(currentReps := s.currentReps, feedback := s.feedback) == s
  {
    if acts != [] {
      RepRunCounts(s, acts[..|acts| - 1]);
    }
  }

  lemma ReduceAllAppend(s: Session, acts: seq<Action>, a: Action)
    ensures ReduceAll(s, acts + [a]) == Reduce(ReduceAll(s, acts), a)
  {
    assert (acts + [a])[..|acts|] == acts;
  }

  /** The session after k more reps: the count rises by k and the feedback names the last rep. */
  function AfterReps(s: Session, k: nat): Session {
    s.(currentReps := s.currentReps + k,
       feedback := if k == 0 then s.feedback else RepFeedback(s.currentReps + k))
  }

  /** k detected reps from any state raise the count by k and touch nothing else but the
      feedback, which names the last rep. */
  lemma {:induction false} RepsFrom(s: Session, k: nat)
    ensures ReduceAll(s, Repeat(IncrementRep, k)) == AfterReps(s, k)
  {
    if k > 0 {
      var prev := Repeat(IncrementRep, k - 1);
      assert Repeat(IncrementRep, k) == prev + [IncrementRep];
      ReduceAllAppend(s, prev, IncrementRep);
      RepsFrom(s, k - 1);
      RepStep(s, k - 1);
    }
  }

  lemma RepStep(s: Session, j: nat)
    ensures Reduce(AfterReps(s, j), IncrementRep) == AfterReps(s, j + 1)
  {
  }

  lemma CountIncrementsAppend(acts: seq<Action>, more: seq<Action>)
    ensures CountIncrements(acts + more) == CountIncrements(acts) + CountIncrements(more)
  {
    if more != [] {
      assert (acts + more)[..|acts + more| - 1] == acts + more[..|more| - 1];
      CountIncrementsAppend(acts, more[..|more| - 1]);
    } else {
      assert acts + more == acts;
    }
  }

  /** The Redux store's poseTracking slice, updated in place by its reducers. */
  class PoseTrackingStore {
    var isTracking: bool
    var exerciseName: Option<string>
    var currentReps: int
    var targetReps: int
    var currentSet: int
    var targetSets: int
    var feedback: string

    function Snapshot(): Session
      reads this
    {
      Session(isTracking, exerciseName, currentReps, targetReps, currentSet, targetSets, feedback)
    }

    constructor ()
      ensures Snapshot() == Initial
    {
      isTracking := false;
      exerciseName := None;
      currentReps := 0;
      targetReps := 0;
      currentSet := 0;
      targetSets := 1;
      feedback := "";
    }

    method StartTracking(name: string, reps: int, sets: int)
      modifies this
      ensures Snapshot() == Reduce(old(Snapshot()), Action.StartTracking(name, reps, sets))
    {
      isTracking := true;
      exerciseName := Some(name);
      targetReps := reps;
      targetSets := sets;
      currentReps := 0;
      currentSet := 0;
      feedback := GetIntoPosition;
    }

    method StopTracking()
      modifies this
      ensures Snapshot() == Reduce(old(Snapshot()), Action.StopTracking)
      ensures Snapshot() == Initial
    {
      isTracking := false;
      exerciseName := None;
      currentReps := 0;
      targetReps := 0;
      currentSet := 0;
      targetSets := 1;
      feedback := "";
    }

    method IncrementRep()
      modifies this
      ensures Snapshot() == Reduce(old(Snapshot()), Action.IncrementRep)
      ensures currentReps == old(currentReps) + 1
    {
      var next := currentReps + 1;
      currentReps, feedback := next, RepFeedback(next);
    }

    method NextSet()
      modifies this
      ensures Snapshot() == Reduce(old(Snapshot()), Action.NextSet)
      ensures old(SetBound(Snapshot())) ==> SetBound(Snapshot())
    {
      if currentSet < targetSets {
        var next := currentSet + 1;
        currentSet, currentReps, feedback := next, 0, SetStartedFeedback(next);
      }
    }

    method SetFeedback(text: string)
      modifies this
      ensures Snapshot() == Reduce(old(Snapshot()), Action.SetFeedback(text))
      ensures Snapshot() == old(Snapshot()).(feedback := text)
    {
      feedback := text;
    }

    /** Routes an action to its reducer, as `dispatch` does. */
    method Dispatch(a: Action)
      modifies this
      ensures Snapshot() == Reduce(old(Snapshot()), a)
    {
      match a
      case StartTracking(name, reps, sets) => StartTracking(name, reps, sets);
      case StopTracking => StopTracking();
      case IncrementRep => IncrementRep();
      case NextSet => NextSet();
      case SetFeedback(text) => SetFeedback(text);
    }
  }
}
