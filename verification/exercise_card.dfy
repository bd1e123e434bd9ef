/** One exercise's card: three steppers (sets, reps, timer seconds) kept in component
    state, and the payloads its buttons build from them. Navigation after a press, the
    confetti and the tutorial modal are presentation and are not modelled. */
module ExerciseCardView {
  import opened Common
  import opened Records
  import T = TimerSlice
  import P = PoseTrackingPage
  import L = WorkoutLogsSlice
  import E = ExercisesSlice

  /** The three stepper values. */
  datatype Counters = Counters(sets: int, reps: int, timerSeconds: int)

  const Initial := Counters(3, 10, 60)

  /** The six stepper buttons. */
  datatype Press = LessSets | MoreSets | LessReps | MoreReps | LessTime | MoreTime

  /** What one button press does to the counters. */
  function Step(c: Counters, p: Press): Counters {
    match p
    case LessSets => c.(sets := Max(1, c.sets - 1))
    case MoreSets => c.(sets := c.sets + 1)
    case LessReps => c.(reps := Max(1, c.reps - 1))
    case MoreReps => c.(reps := c.reps + 1)
    case LessTime => c.(timerSeconds := Max(10, c.timerSeconds - 10))
    case MoreTime => c.(timerSeconds := c.timerSeconds + 10)
  }

  /** The counters after a sequence of presses on a fresh card. */
  function AfterPresses(ps: seq<Press>): Counters {
    if ps == [] then Initial else Step(AfterPresses(ps[..|ps| - 1]), ps[|ps| - 1])
  }

  /** Sets and reps are at least one; the timer is at least ten seconds and a multiple of ten. */
  predicate Valid(c: Counters) {
    c.sets >= 1 && c.reps >= 1 && c.timerSeconds >= 10 && c.timerSeconds % 10 == 0
  }

  lemma StepKeepsValid(c: Counters, p: Press)
    requires Valid(c)
    ensures Valid(Step(c, p))
  {
  }

  /** Whatever is pressed, the card's counters never leave their valid range. */
  lemma {:induction false} PressesStayValid(ps: seq<Press>)
    ensures Valid(AfterPresses(ps))
  {
    if ps != [] {
      PressesStayValid(ps[..|ps| - 1]);
      StepKeepsValid(AfterPresses(ps[..|ps| - 1]), ps[|ps| - 1]);
    }
  }

  /** A plus press is undone by a minus press; above the floor a minus press is undone by a plus.
      At the floor the minus press does nothing. */
  lemma StepsUndo(c: Counters)
    requires Valid(c)
    ensures Step(Step(c, MoreSets), LessSets) == c
    ensures Step(Step(c, MoreReps), LessReps) == c
    ensures Step(Step(c, MoreTime), LessTime) == c
    ensures c.sets > 1 ==> Step(Step(c, LessSets), MoreSets) == c
    ensures c.reps > 1 ==> Step(Step(c, LessReps), MoreReps) == c
    ensures c.timerSeconds > 10 ==> Step(Step(c, LessTime), MoreTime) == c
    ensures c.sets == 1 ==> Step(c, LessSets) == c
    ensures c.reps == 1 ==> Step(c, LessReps) == c
    ensures c.timerSeconds == 10 ==> Step(c, LessTime) == c
  {
  }

  /** The delete control is offered only for exercises the user added. */
  predicate ShowsDelete(e: Exercise) {
    !e.isPredefined
  }

  /** An exercise stored from the add form always gets the delete control. */
  lemma UserExercisesDeletable(id: Id, name: string, url: Option<string>)
    ensures var row := E.InsertRow(name, url);
      ShowsDelete(Exercise(id, row.name, row.youtubeUrl, row.isPredefined))
  {
  }

  class ExerciseCard {
    const exercise: Exercise
    var sets: int
    var reps: int
    var timerSeconds: int

    function Counts(): Counters
      reads this
    {
      Counters(sets, reps, timerSeconds)
    }

    constructor (exercise: Exercise)
      ensures this.exercise == exercise && Counts() == Initial
    {
      this.exercise := exercise;
      sets := 3;
      reps := 10;
      timerSeconds := 60;
    }

    method LessSets()
      modifies this
      ensures Counts() == Step(old(Counts()), Press.LessSets)
    {
      sets := Max(1, sets - 1);
    }

    method MoreSets()
      modifies this
      ensures Counts() == Step(old(Counts()), Press.MoreSets)
    {
      sets := sets + 1;
    }

    method LessReps()
      modifies this
      ensures Counts() == Step(old(Counts()), Press.LessReps)
    {
      reps := Max(1, reps - 1);
    }

    method MoreReps()
      modifies this
      ensures Counts() == Step(old(Counts()), Press.MoreReps)
    {
      reps := reps + 1;
    }

    method LessTime()
      modifies this
      ensures Counts() == Step(old(Counts()), Press.LessTime)
    {
      timerSeconds := Max(10, timerSeconds - 10);
    }

    method MoreTime()
      modifies this
      ensures Counts() == Step(old(Counts()), Press.MoreTime)
    {
      timerSeconds := timerSeconds + 10;
    }

    /** "Log It": the log sent to the database records the whole session's duration, the timer
        length once per set. */
    method LogWorkout() returns (p: L.NewLog)
      ensures p.exerciseId == exercise.id && p.sets == sets && p.reps == reps && p.notes == None
      ensures p.durationSeconds == Some(timerSeconds * sets)
      ensures Valid(Counts()) ==>
        p.durationSeconds.value >= 10 * p.sets && p.durationSeconds.value % 10 == 0
    {
      p := L.NewLog(exercise.id, sets, reps, Some(timerSeconds * sets), None);
      if Valid(Counts()) {
        var k := timerSeconds / 10;
        assert timerSeconds * sets == 10 * (k * sets);
      }
    }

    /** "Start Set": arms the shared timer with this card's duration, for set 1 of this exercise. */
    method StartSet(timer: T.TimerStore)
      modifies timer
      ensures timer.Snapshot() == T.Reduce(old(timer.Snapshot()), T.StartTimer(timerSeconds, exercise.id, 1))
      ensures Valid(Counts()) ==> T.InRange(timer.Snapshot()) && timer.isRunning && timer.seconds >= 10
    {
      timer.StartTimer(timerSeconds, exercise.id, 1);
    }

    /** "Track Pose": the navigation state carries the name and both counters, and the tracking
        page reads them back unchanged (a nameless exercise shows as "Exercise"). */
    method TrackPose() returns (nav: P.NavState)
      ensures nav == P.NavState(Some(exercise.name), Some(sets), Some(reps))
      ensures Valid(Counts()) ==>
        P.ResolveNav(Some(nav)) == P.Params(if exercise.name == "" then "Exercise" else exercise.name, sets, reps)
    {
      nav := P.NavState(Some(exercise.name), Some(sets), Some(reps));
    }

    /** The delete button: after the confirmation the exercise is removed from the store's list
        (the database call is taken to succeed); without it nothing changes. */
    method Delete(store: E.ExercisesStore, confirmed: bool)
      modifies store
      ensures store.exercises ==
        (if confirmed then WithoutId(old(store.exercises), ExerciseId, exercise.id) else old(store.exercises))
      ensures store.loading == old(store.loading) && store.error == old(store.error)
    {
      if confirmed {
        store.DeleteFulfilled(exercise.id);
      }
    }
  }
}
