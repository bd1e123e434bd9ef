/** The pose-tracking page: session parameters from navigation, the elbow-angle
    reflection, the two-threshold rep detector run once per camera frame, and
    which of the Next Set / Finish Workout buttons is offered. */
module PoseTrackingPage {
  import opened Common
  import S = PoseTrackingSlice

  // ---------------------------------------------------------------- navigation

  /** `location.state`: what the exercise card passed, each part possibly missing. */
  datatype NavState = NavState(exercise: Option<string>, sets: Option<int>, reps: Option<int>)

  datatype Params = Params(exerciseName: string, targetSets: int, targetReps: int)

  /** The session parameters read from the navigation state, with 'Exercise', 3 sets and 10 reps
      standing in for anything missing or falsy. */
  function ResolveNav(nav: Option<NavState>): (p: Params)
    ensures p.exerciseName != "" && p.targetSets != 0 && p.targetReps != 0
    ensures nav.None? ==> p == Params("Exercise", 3, 10)
    ensures nav.Some? ==>
      && (p.exerciseName == if nav.value.exercise in {None, Some("")} then "Exercise" else nav.value.exercise.value)
      && (p.targetSets == if nav.value.sets in {None, Some(0)} then 3 else nav.value.sets.value)
      && (p.targetReps == if nav.value.reps in {None, Some(0)} then 10 else nav.value.reps.value)
  {
    match nav
    case None => Params("Exercise", 3, 10)
    case Some(st) =>
      assert st.exercise in {None, Some("")} <==> !(st.exercise.Some? && st.exercise.value != "");
      assert st.sets in {None, Some(0)} <==> !(st.sets.Some? && st.sets.value != 0);
      assert st.reps in {None, Some(0)} <==> !(st.reps.Some? && st.reps.value != 0);
      Params(StringOr(st.exercise, "Exercise"), NumberOr(st.sets, 3), NumberOr(st.reps, 10))
  }

  /** What the mount effect dispatches. The resolved name is never empty, so the guard on it always
      passes and the effect always starts a session. */
  function MountActions(nav: Option<NavState>): (acts: seq<S.Action>)
    ensures |acts| == 1 && acts[0].StartTracking?
    ensures acts[0].exerciseName == ResolveNav(nav).exerciseName
    ensures acts[0].targetReps == ResolveNav(nav).targetReps
    ensures acts[0].targetSets == ResolveNav(nav).targetSets
  {
    var p := ResolveNav(nav);
    if p.exerciseName != "" then [S.StartTracking(p.exerciseName, p.targetReps, p.targetSets)] else []
  }

  /** The effect's lifecycle. Its cleanup (unmount, or a change of the parameters) leaves any
      session idle; a re-run, cleanup then mount, always opens a fresh session with the resolved
      name and targets, whatever the session was before. */
  lemma LeavingResetsSession(nav: Option<NavState>, s: S.Session)
    ensures S.ReduceAll(s, [S.StopTracking]) == S.Initial
    ensures var p := ResolveNav(nav);
      S.ReduceAll(s, [S.StopTracking] + MountActions(nav))
      == S.Session(true, Some(p.exerciseName), 0, p.targetReps, 0, p.targetSets, S.GetIntoPosition)
  {
    var acts := [S.StopTracking] + MountActions(nav);
    assert acts[..1] == [S.StopTracking];
    assert [S.StopTracking][..0] == [];
  }

  method Mount(store: S.PoseTrackingStore, nav: Option<NavState>)
    modifies store
    ensures store.Snapshot() == S.ReduceAll(old(store.Snapshot()), MountActions(nav))
  {
    var p := ResolveNav(nav);
    if p.exerciseName != "" {
      store.StartTracking(p.exerciseName, p.targetReps, p.targetSets);
    }
  }

  /** Unmount cleanup and the Finish Workout handler both dispatch `stopTracking`. */
  method Leave(store: S.PoseTrackingStore)
    modifies store
    ensures store.Snapshot() == S.Initial
  {
    store.StopTracking();
  }

  /** The Next Set handler. */
  method PressNextSet(store: S.PoseTrackingStore)
    modifies store
    ensures store.Snapshot() == S.Reduce(old(store.Snapshot()), S.NextSet)
  {
    store.NextSet();
  }

  // ---------------------------------------------------------------- buttons

  predicate ShowNextSet(s: S.Session) {
    s.currentReps >= s.targetReps && s.currentSet < s.targetSets
  }

  predicate ShowFinish(s: S.Session) {
    s.currentSet >= s.targetSets
  }

  /** The two buttons are never offered together; nextSet opens the next set with zero reps; and
      after exactly `targetSets` nextSet actions from a fresh start Finish is offered, never
      before. The reducer does not look at the rep count, so the actions here skip the reps;
      WorkoutRounds covers a workout that does the reps before each press. */
  lemma ButtonsFollowProgress(name: string, reps: int, sets: int, k: nat)
    requires sets >= 0
    ensures var s := S.ReduceAll(S.Reduce(S.Initial, S.StartTracking(name, reps, sets)), S.Repeat(S.NextSet, k));
      !(ShowNextSet(s) && ShowFinish(s))
      && (ShowFinish(s) <==> k >= sets)
      && (0 < k <= sets ==> s.currentReps == 0 && s.currentSet == k)
  {
    var s0 := S.Reduce(S.Initial, S.StartTracking(name, reps, sets));
    S.NextSetsSaturate(s0, k);
  }

  lemma NextSetWhenOffered(s: S.Session)
    requires ShowNextSet(s)
    ensures var r := S.Reduce(s, S.NextSet);
      r.currentSet == s.currentSet + 1 && r.currentReps == 0 && S.SetBound(r)
  {
  }

  /** The session once the set's target number of reps has been detected: the count rises by
      the target and the feedback names the last rep. */
  function RepsDone(s: S.Session): S.Session
    requires s.targetReps >= 0
  {
    S.AfterReps(s, s.targetReps)
  }

  /** RepsDone is what dispatching the set's reps one by one leaves. */
  lemma RepsDoneDispatches(s: S.Session)
    requires s.targetReps >= 0
    ensures RepsDone(s) == S.ReduceAll(s, S.Repeat(S.IncrementRep, s.targetReps))
  {
    S.RepsFrom(s, s.targetReps);
  }

  /** One round of a workout: the set's reps detected, then Next Set pressed. */
  function AfterRound(s: S.Session): S.Session
    requires s.targetReps >= 0
  {
    S.Reduce(RepsDone(s), S.NextSet)
  }

  /** One round from a state with a non-negative count: the reps bring Next Set on screen exactly
      while sets remain, and the press then opens the next set with zero reps. */
  lemma RoundStep(p: S.Session)
    requires p.targetReps >= 0 && p.currentReps >= 0
    ensures ShowNextSet(RepsDone(p)) <==> p.currentSet < p.targetSets
    ensures var r := AfterRound(p);
      && r.targetReps == p.targetReps && r.targetSets == p.targetSets && r.currentReps >= 0
      && (p.currentSet < p.targetSets ==> r.currentSet == p.currentSet + 1 && r.currentReps == 0)
      && (p.currentSet >= p.targetSets ==> r.currentSet == p.currentSet)
  {
  }

  /** The session after k rounds from `s`: the set counter climbs by one a round until it
      reaches the target, and each round that opens a set leaves it with zero reps. */
  function AfterRounds(s: S.Session, k: nat): (r: S.Session)
    requires s.targetReps >= 0 && s.currentReps >= 0 && s.currentSet <= s.targetSets
    ensures r.targetReps == s.targetReps && r.targetSets == s.targetSets && r.currentReps >= 0
    ensures r.currentSet == Min(s.currentSet + k, s.targetSets)
    ensures 0 < k && s.currentSet + k <= s.targetSets ==> r.currentReps == 0
  {
    if k == 0 then s
    else
      var prev := AfterRounds(s, k - 1);
      RoundStep(prev);
      AfterRound(prev)
  }

  /** A workout of k rounds after a start: Next Set is on screen when each of the first `sets`
      rounds ends, each such press opens the next set with zero reps, and Finish is offered
      exactly from round `sets` on. */
  lemma WorkoutRounds(name: string, reps: nat, sets: nat, k: nat)
    ensures var s := AfterRounds(S.Reduce(S.Initial, S.StartTracking(name, reps, sets)), k);
      && s.currentSet == Min(k, sets) && s.targetReps == reps && s.targetSets == sets
      && (k <= sets ==> s.currentReps == 0)
      && (ShowFinish(s) <==> k >= sets)
      && (k < sets ==> ShowNextSet(RepsDone(s)))
  {
    var s0 := S.Reduce(S.Initial, S.StartTracking(name, reps, sets));
    RoundStep(AfterRounds(s0, k));
  }

  // ---------------------------------------------------------------- angle

  /** The reflection step of calculateAngle: an absolute angle above 180 degrees is measured the
      other way round. The atan2 difference producing `raw` is not part of this model. */
  function Reflect(raw: real): (angle: real)
    ensures 0.0 <= raw <= 360.0 ==> 0.0 <= angle <= 180.0
    ensures raw <= 180.0 ==> angle == raw
    ensures raw > 180.0 ==> angle + raw == 360.0
  {
    if raw > 180.0 then 360.0 - raw else raw
  }

  /** Measuring a turn one way or the other gives the same reflected angle. */
  lemma ReflectSymmetric(raw: real)
    requires 0.0 <= raw <= 360.0
    ensures Reflect(360.0 - raw) == Reflect(raw)
  {
  }

  // ---------------------------------------------------------------- rep detector

  const ContractBelow: real := 90.0
  const ExtendAbove: real := 160.0

  /** One angle sample through the hysteresis: the new phase (true = contracted) and whether a rep
      is completed. */
  function Hysteresis(contracted: bool, angle: real): (bool, bool) {
    if angle < ContractBelow && !contracted then (true, false)
    else if angle > ExtendAbove && contracted then (false, true)
    else (contracted, false)
  }

  /** The phase after a run of samples. */
  function PhaseAfter(contracted: bool, angles: seq<real>): bool {
    if angles == [] then contracted
    else Hysteresis(PhaseAfter(contracted, angles[..|angles| - 1]), angles[|angles| - 1]).0
  }

  /** Whether sample j completes a rep, the detector having started extended. */
  predicate EmitsAt(angles: seq<real>, j: nat)
    requires j < |angles|
  {
    Hysteresis(PhaseAfter(false, angles[..j]), angles[j]).1
  }

  /** The number of reps a run of samples completes. */
  function Reps(contracted: bool, angles: seq<real>): nat {
    if angles == [] then 0
    else Reps(contracted, angles[..|angles| - 1])
         + (if Hysteresis(PhaseAfter(contracted, angles[..|angles| - 1]), angles[|angles| - 1]).1 then 1 else 0)
  }

  /** Sample i is a contraction not yet answered by an extension before position `end`. */
  ghost predicate OpenContraction(angles: seq<real>, i: nat, end: nat)
    requires i < end <= |angles|
  {
    angles[i] < ContractBelow && forall k :: i < k < end ==> angles[k] <= ExtendAbove
  }

  /** The detector is contracted exactly when the last sample outside [90, 160] was below 90. */
  lemma {:induction false} PhaseIsLastExtreme(angles: seq<real>)
    ensures PhaseAfter(false, angles) <==> exists i :: 0 <= i < |angles| && OpenContraction(angles, i, |angles|)
  {
    if angles != [] {
      var n := |angles|;
      var pre := angles[..n - 1];
      var last := angles[n - 1];
      PhaseIsLastExtreme(pre);
      if last < ContractBelow {
        assert OpenContraction(angles, n - 1, n);
      } else if last > ExtendAbove {
        forall i | 0 <= i < n ensures !OpenContraction(angles, i, n) {
          if i < n - 1 {
            assert angles[n - 1] > ExtendAbove;
          }
        }
      } else {
        assert PhaseAfter(false, angles) == PhaseAfter(false, pre);
        if PhaseAfter(false, pre) {
          var i :| 0 <= i < n - 1 && OpenContraction(pre, i, n - 1);
          assert OpenContraction(angles, i, n);
        }
        if exists i :: 0 <= i < n && OpenContraction(angles, i, n) {
          var i :| 0 <= i < n && OpenContraction(angles, i, n);
          assert i < n - 1;
          assert OpenContraction(pre, i, n - 1);
        }
      }
    }
  }

  /** Sample j completes a rep exactly when it is above 160 and some earlier sample below 90 has
      not yet been answered by a sample above 160. */
  lemma EmitsIff(angles: seq<real>, j: nat)
    requires j < |angles|
    ensures EmitsAt(angles, j) <==>
      angles[j] > ExtendAbove && exists i :: 0 <= i < j && OpenContraction(angles, i, j)
  {
    var pre := angles[..j];
    PhaseIsLastExtreme(pre);
    if exists i :: 0 <= i < j && OpenContraction(angles, i, j) {
      var i :| 0 <= i < j && OpenContraction(angles, i, j);
      assert OpenContraction(pre, i, j);
    }
    if exists i :: 0 <= i < j && OpenContraction(pre, i, j) {
      var i :| 0 <= i < j && OpenContraction(pre, i, j);
      assert OpenContraction(angles, i, j);
    }
  }

  /** Samples that stay within [90, 160] neither complete a rep nor move the phase. */
  lemma {:induction false} BandIsSilent(contracted: bool, angles: seq<real>)
    requires forall k :: 0 <= k < |angles| ==> ContractBelow <= angles[k] <= ExtendAbove
    ensures Reps(contracted, angles) == 0 && PhaseAfter(contracted, angles) == contracted
  {
    if angles != [] {
      BandIsSilent(contracted, angles[..|angles| - 1]);
    }
  }

  function CountAbove(angles: seq<real>, t: real): nat {
    if angles == [] then 0
    else CountAbove(angles[..|angles| - 1], t) + (if angles[|angles| - 1] > t then 1 else 0)
  }

  function CountBelow(angles: seq<real>, t: real): nat {
    if angles == [] then 0
    else CountBelow(angles[..|angles| - 1], t) + (if angles[|angles| - 1] < t then 1 else 0)
  }

  /** Every rep is paid for by its own sample above 160 and its own earlier sample below 90. */
  lemma {:induction false} RepsBounded(angles: seq<real>)
    ensures Reps(false, angles) <= CountAbove(angles, ExtendAbove)
    ensures Reps(false, angles) + (if PhaseAfter(false, angles) then 1 else 0) <= CountBelow(angles, ContractBelow)
  {
    if angles != [] {
      RepsBounded(angles[..|angles| - 1]);
    }
  }

  /** The worked example: 170, 150, 80, 40, 90, 165 completes one rep, on the last sample. */
  lemma OneCycleExample()
    ensures var a := [170.0, 150.0, 80.0, 40.0, 90.0, 165.0];
      Reps(false, a) == 1 && EmitsAt(a, 5) && forall j :: 0 <= j < 5 ==> !EmitsAt(a, j)
  {
    var a := [170.0, 150.0, 80.0, 40.0, 90.0, 165.0];
    assert a[..0] == [];
    assert a[..1] == [170.0];
    assert a[..2] == [170.0, 150.0];
    assert a[..3] == [170.0, 150.0, 80.0];
    assert a[..4] == [170.0, 150.0, 80.0, 40.0];
    assert a[..5] == [170.0, 150.0, 80.0, 40.0, 90.0];
    assert [170.0, 150.0, 80.0, 40.0, 90.0][..4] == a[..4];
    assert [170.0, 150.0, 80.0, 40.0][..3] == a[..3];
    assert [170.0, 150.0, 80.0][..2] == a[..2];
    assert [170.0, 150.0][..1] == a[..1];
    assert [170.0][..0] == a[..0];
  }

  // ---------------------------------------------------------------- frame pipeline

  datatype Landmark = Landmark(x: real, y: real)

  /** One animation-frame tick: either the video has no frame ready, or the detector answered with
      the landmark lists of the poses it found. */
  datatype Frame = NotReady | Detected(poses: seq<seq<Landmark>>)

  /** The un-reflected angle at b between b->a and b->c, in degrees (the atan2 part). */
  type RawAngle = (Landmark, Landmark, Landmark) -> real

  const NoPoseFeedback := "No pose detected. Move into frame."

  function CalculateAngle(a: Landmark, b: Landmark, c: Landmark, raw: RawAngle): real {
    Reflect(raw(a, b, c))
  }

  /** The elbow angle a frame yields, if the rep analysis runs on it: a pose must be present and
      its landmarks 11, 13 and 15 (left shoulder, elbow, wrist) must exist. */
  function FrameAngle(f: Frame, raw: RawAngle): Option<real> {
    if f.Detected? && |f.poses| > 0 && |f.poses[0]| > 15 then
      var lm := f.poses[0];
      Some(CalculateAngle(lm[11], lm[13], lm[15], raw))
    else None
  }

  /** One pass of detectPose: the new phase and the actions it dispatches. */
  function FrameStep(contracted: bool, f: Frame, raw: RawAngle): (bool, seq<S.Action>) {
    if f.Detected? && |f.poses| == 0 then (contracted, [S.SetFeedback(NoPoseFeedback)])
    else
      match FrameAngle(f, raw)
      case None => (contracted, [])
      case Some(angle) =>
        var (next, rep) := Hysteresis(contracted, angle);
        (next, if rep then [S.IncrementRep] else [])
  }

  /** A frame without a pose only reports it; a frame missing a needed landmark or not ready is
      ignored; neither moves the phase. */
  lemma FramesWithoutArm(contracted: bool, f: Frame, raw: RawAngle)
    requires FrameAngle(f, raw).None?
    ensures FrameStep(contracted, f, raw).0 == contracted
    ensures FrameStep(contracted, f, raw).1 ==
      if f.Detected? && |f.poses| == 0 then [S.SetFeedback("No pose detected. Move into frame.")] else []
  {
  }

  /** The run of detectPose passes over `frames`: the final phase and all dispatched actions. */
  function Pipeline(contracted: bool, frames: seq<Frame>, raw: RawAngle): (bool, seq<S.Action>) {
    if frames == [] then (contracted, [])
    else
      var (phase, acts) := Pipeline(contracted, frames[..|frames| - 1], raw);
      var (next, more) := FrameStep(phase, frames[|frames| - 1], raw);
      (next, acts + more)
  }

  /** The pipeline over one more frame is its run so far followed by that frame's step. */
  lemma PipelineExtends(contracted: bool, frames: seq<Frame>, i: nat, raw: RawAngle)
    requires i < |frames|
    ensures var run := Pipeline(contracted, frames[..i], raw);
      var step := FrameStep(run.0, frames[i], raw);
      Pipeline(contracted, frames[..i + 1], raw) == (step.0, run.1 + step.1)
  {
    assert frames[..i + 1][..i] == frames[..i];
    assert frames[..i + 1][i] == frames[i];
  }

  /** The angles the rep analysis saw, in frame order. */
  function Angles(frames: seq<Frame>, raw: RawAngle): seq<real> {
    if frames == [] then []
    else
      Angles(frames[..|frames| - 1], raw)
      + match FrameAngle(frames[|frames| - 1], raw) case None => [] case Some(a) => [a]
  }

  /** A frame's step is the detector's step on the frame's angle, if it has one. */
  lemma FrameStepIsDetector(contracted: bool, f: Frame, raw: RawAngle)
    ensures FrameAngle(f, raw).None? ==>
      FrameStep(contracted, f, raw).0 == contracted && S.CountIncrements(FrameStep(contracted, f, raw).1) == 0
    ensures FrameAngle(f, raw).Some? ==>
      FrameStep(contracted, f, raw).0 == Hysteresis(contracted, FrameAngle(f, raw).value).0
      && S.CountIncrements(FrameStep(contracted, f, raw).1)
         == if Hysteresis(contracted, FrameAngle(f, raw).value).1 then 1 else 0
    ensures forall i :: 0 <= i < |FrameStep(contracted, f, raw).1| ==> S.RepOrFeedback(FrameStep(contracted, f, raw).1[i])
  {
    var acts := FrameStep(contracted, f, raw).1;
    assert acts == [] || acts == [S.IncrementRep] || acts == [S.SetFeedback(NoPoseFeedback)];
    assert [S.IncrementRep][..0] == [];
    assert [S.SetFeedback(NoPoseFeedback)][..0] == [];
  }

  /** Everything the pipeline dispatches is a rep or a feedback line. */
  lemma {:induction false} PipelineActions(contracted: bool, frames: seq<Frame>, raw: RawAngle)
    ensures forall i :: 0 <= i < |Pipeline(contracted, frames, raw).1| ==>
      S.RepOrFeedback(Pipeline(contracted, frames, raw).1[i])
  {
    if frames != [] {
      var pre := frames[..|frames| - 1];
      PipelineActions(contracted, pre, raw);
      var run := Pipeline(contracted, pre, raw);
      var step := FrameStep(run.0, frames[|frames| - 1], raw);
      FrameStepIsDetector(run.0, frames[|frames| - 1], raw);
      var acts := run.1 + step.1;
      assert Pipeline(contracted, frames, raw).1 == acts;
      forall i | 0 <= i < |acts| ensures S.RepOrFeedback(acts[i]) {
        if i >= |run.1| {
          assert acts[i] == step.1[i - |run.1|];
        }
      }
    }
  }

  /** The pipeline is the rep detector over the frames' angles: same phase, and one `incrementRep`
      per completed rep; everything it dispatches is a rep or a feedback line. */
  lemma {:induction false} PipelineIsDetector(contracted: bool, frames: seq<Frame>, raw: RawAngle)
    ensures Pipeline(contracted, frames, raw).0 == PhaseAfter(contracted, Angles(frames, raw))
    ensures S.CountIncrements(Pipeline(contracted, frames, raw).1) == Reps(contracted, Angles(frames, raw))
    ensures forall i :: 0 <= i < |Pipeline(contracted, frames, raw).1| ==>
      S.RepOrFeedback(Pipeline(contracted, frames, raw).1[i])
  {
    PipelineActions(contracted, frames, raw);
    if frames != [] {
      var pre := frames[..|frames| - 1];
      var f := frames[|frames| - 1];
      PipelineIsDetector(contracted, pre, raw);
      var run := Pipeline(contracted, pre, raw);
      var step := FrameStep(run.0, f, raw);
      assert Pipeline(contracted, frames, raw) == (step.0, run.1 + step.1);
      FrameStepIsDetector(run.0, f, raw);
      S.CountIncrementsAppend(run.1, step.1);
      var a := Angles(pre, raw);
      if FrameAngle(f, raw).Some? {
        var x := FrameAngle(f, raw).value;
        assert Angles(frames, raw) == a + [x];
        assert (a + [x])[..|a|] == a;
      } else {
        assert Angles(frames, raw) == a;
      }
    }
  }

  /** Dispatching what the pipeline produces raises the rep count by the detector's reps and
      touches nothing but the count and the feedback. */
  lemma PipelineEffect(s: S.Session, frames: seq<Frame>, raw: RawAngle)
    ensures var r := S.ReduceAll(s, Pipeline(false, frames, raw).1);
      && r.currentReps == s.currentReps + Reps(false, Angles(frames, raw))
      && r.(currentReps := s.currentReps, feedback := s.feedback) == s
  {
    PipelineIsDetector(false, frames, raw);
    S.RepRunCounts(s, Pipeline(false, frames, raw).1);
  }

  /** The per-frame loop with its captured `lastRepState`, which starts out extended every time the
      effect starts. Each pass dispatches into the session store. */
  method DetectPose(store: S.PoseTrackingStore, frames: seq<Frame>, raw: RawAngle)
    modifies store
    ensures store.Snapshot() == S.ReduceAll(old(store.Snapshot()), Pipeline(false, frames, raw).1)
    ensures store.currentReps == old(store.currentReps) + Reps(false, Angles(frames, raw))
    ensures store.Snapshot().(currentReps := old(store.currentReps), feedback := old(store.feedback))
            == old(store.Snapshot())
  {
    var lastRepState := false;
    ghost var dispatched: seq<S.Action> := [];
    var i := 0;
    while i < |frames|
      invariant 0 <= i <= |frames|
      invariant (lastRepState, dispatched) == Pipeline(false, frames[..i], raw)
      invariant store.Snapshot() == S.ReduceAll(old(store.Snapshot()), dispatched)
    {
      var f := frames[i];
      ghost var step := FrameStep(lastRepState, f, raw);
      ghost var before := dispatched;
      if f.Detected? && |f.poses| > 0 {
        var lm := f.poses[0];
        if |lm| > 15 {
          var angle := CalculateAngle(lm[11], lm[13], lm[15], raw);
          if angle < ContractBelow && !lastRepState {
            lastRepState := true;
          } else if angle > ExtendAbove && lastRepState {
            lastRepState := false;
            store.IncrementRep();
            S.ReduceAllAppend(old(store.Snapshot()), dispatched, S.IncrementRep);
            dispatched := dispatched + [S.IncrementRep];
          }
        }
      } else if f.Detected? {
        store.SetFeedback(NoPoseFeedback);
        S.ReduceAllAppend(old(store.Snapshot()), dispatched, S.SetFeedback(NoPoseFeedback));
        dispatched := dispatched + [S.SetFeedback(NoPoseFeedback)];
      }
      assert lastRepState == step.0 && dispatched == before + step.1;
      PipelineExtends(false, frames, i, raw);
      i := i + 1;
    }
    assert frames[..i] == frames;
    PipelineEffect(old(store.Snapshot()), frames, raw);
  }
}
