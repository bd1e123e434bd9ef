# Workout session logic of the pose-tracker app, in Dafny

This project models the core of a React/Redux workout tracker:

- **The workout session** (`poseTrackingSlice.ts`). The exercise name, target and current reps and sets, and the feedback line.
- **The pose-tracking page** (`PoseTracking.tsx`).
  - The session parameters read from navigation.
  - The elbow-angle reflection.
  - The two-threshold rep detector, run once per camera frame.
  - The Next Set / Finish buttons.
- **The countdown timer** (`timerSlice.ts`) and its card (`Timer.tsx`). This covers the `m:ss` display, the once-a-second interval, the render guard and the "Set complete!" banner.
- **The exercise card** (`ExerciseCard.tsx`). Its sets/reps/timer steppers, and the payloads its buttons build.
- **The list and flag slices.** Exercises, workout logs and the colour theme.
- **The statistics pages** (`Progress.tsx`, `Dashboard.tsx`). Weekly chart, badges, today's cards and the recent lists.

Each Redux slice is a `class` whose fields its reducer methods update in place (`modifies this`). The session, timer and theme slices also have a value datatype and a pure `Reduce` function. Each reducer method ensures `Snapshot() == Reduce(old(Snapshot()), action)`, and lemmas about `Reduce` and `ReduceAll` state the slices' invariants over whole runs.

The per-frame `detectPose` loop and the timer interval are methods with loops. They are proved equal to pure step functions (`Pipeline`, `Elapse`), and those functions are proved equal to the rep detector and to the countdown.

The statistics pages are pure functions over `seq<WorkoutLog>`. The list slices keep their lists as `seq` fields that the methods reassign.

Modelling choices:

- **Integers.** JavaScript numbers are modelled as unbounded integers. Where the source relies on JavaScript semantics, those are written out:
  - `%` truncates toward zero (`JsRem`);
  - `x || d` falls back on a missing or falsy value (`StringOr`, `NumberOr`);
  - `${n}` renders decimal text (`IntToString`);
  - `padStart(2, '0')` pads to two characters (`PadStart2`).
- **Dates.** A log's completion time is abstracted to an integer day key. "Today" and "the week's Sunday" are parameters on the same scale.
- **Angles.** Angles are `real`. The `atan2` difference inside `calculateAngle` is a function parameter `raw`; only the reflection step is modelled.
- **Rep thresholds.** The detector's thresholds are the code's: contraction below **90** degrees and extension above 160 (`PoseTracking.tsx` lines 152 and 154).

## Model

| member | source | states |
|---|---|---|
| Common.IntToString | project/src/store/poseTrackingSlice.ts:54 | `${n}`: non-negatives are their shortest decimal digits; negatives are '-' followed by the digits of the absolute value |
| Common.ParseIntToString | project/src/store/poseTrackingSlice.ts:54 | reading the decimal text back gives the same integer (round trip) |
| Common.IntToStringInjective | project/src/store/poseTrackingSlice.ts:54 | two different integers never render to the same text |
| Common.StringOr | project/src/store/themeSlice.ts:10 | the or-default on a string: a present non-empty value passes through, a missing or empty one gives the default; with a non-empty default the result is never empty |
| Common.NumberOr | project/src/pages/PoseTracking.tsx:30 | the or-default on a number: a present non-zero value passes through, a missing or zero one gives the default; with a non-zero default the result is never zero |
| Records.WithoutId | project/src/store/workoutLogsSlice.ts:78 | filter by id: never longer than the list; keeps exactly the rows whose id differs |
| Records.WithoutIdAppend | project/src/store/workoutLogsSlice.ts:78 | filtering distributes over concatenation, so survivors keep their relative order |
| Records.WithoutAbsentId | project/src/store/workoutLogsSlice.ts:78 | deleting an id no row has leaves the list unchanged |
| Records.WithoutIdIdempotent | project/src/store/exercisesSlice.ts:70 | deleting the same id twice equals deleting it once |
| Records.FindExercise | project/src/components/Timer.tsx:15 | `find`: None iff no exercise has the id; otherwise the first exercise that has it |
| PoseTrackingSlice.PoseTrackingStore.constructor | project/src/store/poseTrackingSlice.ts:13-21 | the initial state: not tracking, no name, 0 reps of 0, set 0 of 1, empty feedback |
| PoseTrackingSlice.PoseTrackingStore.StartTracking | project/src/store/poseTrackingSlice.ts:35-41 | the new state is the reducer's `startTracking` step |
| PoseTrackingSlice.PoseTrackingStore.StopTracking | project/src/store/poseTrackingSlice.ts:43-51 | the new state is exactly the initial state |
| PoseTrackingSlice.PoseTrackingStore.IncrementRep | project/src/store/poseTrackingSlice.ts:52-55 | the new state is the reducer's `incrementRep` step; the count rises by exactly one |
| PoseTrackingSlice.PoseTrackingStore.NextSet | project/src/store/poseTrackingSlice.ts:56-61 | the new state is the reducer's `nextSet` step; it keeps `currentSet <= targetSets` |
| PoseTrackingSlice.PoseTrackingStore.SetFeedback | project/src/store/poseTrackingSlice.ts:63-65 | only the feedback changes |
| PoseTrackingSlice.PoseTrackingStore.Dispatch | project/src/store/poseTrackingSlice.ts:26-66 | every action routes to its reducer, and the result is `Reduce` |
| PoseTrackingSlice.StartTrackingResets | project/src/store/poseTrackingSlice.ts:35-41 | a start tracks, stores the name and both targets, zeroes reps and set, and says "Get into position..." |
| PoseTrackingSlice.StopTrackingIdle | project/src/store/poseTrackingSlice.ts:43-51 | a stop yields the initial state from any state, so stopping twice is the same as stopping once |
| PoseTrackingSlice.IncrementRepOnlyCounts | project/src/store/poseTrackingSlice.ts:52-55 | adds one rep with no cap, sets "Rep n completed!" with the new n, and changes nothing else |
| PoseTrackingSlice.NextSetGuard | project/src/store/poseTrackingSlice.ts:56-61 | below the target: the next set, zero reps and "Set n started!"; at or above it: the state is unchanged |
| PoseTrackingSlice.SetFeedbackOnly | project/src/store/poseTrackingSlice.ts:63-65 | only the feedback is replaced |
| PoseTrackingSlice.RepFeedbackInjective | project/src/store/poseTrackingSlice.ts:54 | different rep counts never share a feedback line |
| PoseTrackingSlice.RunKeepsSetBound | project/src/store/poseTrackingSlice.ts:13-65 | `currentSet <= targetSets` holds initially and after any run of actions whose starts have non-negative targets |
| PoseTrackingSlice.RunNeverLowersSet | project/src/store/poseTrackingSlice.ts:52-65 | without a start or a stop, the set never goes down and the targets and name stay put |
| PoseTrackingSlice.RepsAfterStart | project/src/store/poseTrackingSlice.ts:35-55 | after a start and k reps: the count is k, the set is 0, and the feedback names rep k |
| PoseTrackingSlice.RepsFrom | project/src/store/poseTrackingSlice.ts:52-55 | k reps from any state raise the count by k, set the feedback to the last rep's text (none for k = 0), and change nothing else |
| PoseTrackingSlice.NextSetsSaturate | project/src/store/poseTrackingSlice.ts:56-61 | k Next Set presses advance the set to min(set + k, target) and zero the reps |
| PoseTrackingSlice.CountIncrements | project/src/pages/PoseTracking.tsx:156 | the number of `incrementRep` actions in a run is at most the run's length |
| PoseTrackingSlice.RepRunCounts | project/src/store/poseTrackingSlice.ts:52-65 | a run of rep and feedback actions raises the count by its number of reps and changes nothing but count and feedback |
| PoseTrackingPage.ResolveNav | project/src/pages/PoseTracking.tsx:29-31 | missing or falsy name, sets and reps fall back to 'Exercise', 3 and 10; other values pass through |
| PoseTrackingPage.MountActions | project/src/pages/PoseTracking.tsx:33-37 | the mount effect always dispatches exactly one start, carrying the resolved name and targets |
| PoseTrackingPage.LeavingResetsSession | project/src/pages/PoseTracking.tsx:38-41 | the effect's cleanup leaves any session in the initial state, and a re-run of the effect (cleanup, then mount) opens a fresh session with the resolved name and targets, 0 reps at set 0 and the feedback 'Get into position...' |
| PoseTrackingPage.Mount | project/src/pages/PoseTracking.tsx:33-37 | the store ends in the state the mount actions produce |
| PoseTrackingPage.Leave | project/src/pages/PoseTracking.tsx:191-195 | Finish Workout (and unmount) leave the store in the initial state |
| PoseTrackingPage.PressNextSet | project/src/pages/PoseTracking.tsx:185-189 | the Next Set handler performs the reducer's `nextSet` step |
| PoseTrackingPage.ButtonsFollowProgress | project/src/pages/PoseTracking.tsx:301-312 | after a start and k `nextSet` actions (which the reducer takes whatever the rep count): the two buttons are never offered together; Finish is offered iff k >= target; each press before that opens the next set with zero reps |
| PoseTrackingPage.RepsDoneDispatches | project/src/pages/PoseTracking.tsx:156 | the session once a set's target reps are detected is what dispatching that many `incrementRep` actions leaves |
| PoseTrackingPage.RoundStep | project/src/pages/PoseTracking.tsx:301-305 | after a set's target reps, Next Set is on screen iff sets remain; pressing it then opens the next set with zero reps, else nothing changes |
| PoseTrackingPage.AfterRounds | project/src/pages/PoseTracking.tsx:185-189 | after k rounds of reps plus Next Set: the set is min(start + k, target), the targets are kept, and a round that opens a set leaves zero reps |
| PoseTrackingPage.WorkoutRounds | project/src/pages/PoseTracking.tsx:301-312 | a real workout after a start: Next Set is offered at the end of each of the first `sets` rounds, and Finish is offered iff at least `sets` rounds are done |
| PoseTrackingPage.NextSetWhenOffered | project/src/pages/PoseTracking.tsx:301-302 | pressing an offered Next Set advances the set by one, zeroes the reps and keeps the set bound |
| PoseTrackingPage.Reflect | project/src/pages/PoseTracking.tsx:178-182 | angles above 180 become 360 minus the angle, others are kept; any raw angle in [0,360] lands in [0,180] |
| PoseTrackingPage.ReflectSymmetric | project/src/pages/PoseTracking.tsx:178-182 | measuring a turn either way round gives the same angle |
| PoseTrackingPage.PhaseIsLastExtreme | project/src/pages/PoseTracking.tsx:152-157 | starting extended, the detector is contracted iff some sample below 90 has not yet been followed by one above 160 |
| PoseTrackingPage.EmitsIff | project/src/pages/PoseTracking.tsx:152-157 | sample j completes a rep iff it is above 160 and an earlier sample below 90 is still unanswered (both directions) |
| PoseTrackingPage.BandIsSilent | project/src/pages/PoseTracking.tsx:152-157 | samples confined to [90,160] count no rep and leave the phase as it was |
| PoseTrackingPage.RepsBounded | project/src/pages/PoseTracking.tsx:152-157 | reps are at most the samples above 160; reps plus an open contraction are at most the samples below 90 |
| PoseTrackingPage.OneCycleExample | project/src/pages/PoseTracking.tsx:152-157 | 170, 150, 80, 40, 90, 165 completes exactly one rep, on the last sample |
| PoseTrackingPage.FramesWithoutArm | project/src/pages/PoseTracking.tsx:130-161 | a frame without a pose only reports "No pose detected. Move into frame."; a frame without landmarks 11/13/15, or not ready, does nothing; neither moves the phase |
| PoseTrackingPage.FrameStepIsDetector | project/src/pages/PoseTracking.tsx:145-160 | one frame is the detector's step on its angle: same phase, one rep iff the detector completes one |
| PoseTrackingPage.PipelineActions | project/src/pages/PoseTracking.tsx:120-165 | everything the frame loop dispatches is an `incrementRep` or a feedback line |
| PoseTrackingPage.PipelineIsDetector | project/src/pages/PoseTracking.tsx:117-165 | over any frames, the loop's phase and its number of `incrementRep`s equal the detector's over the frames' angles |
| PoseTrackingPage.PipelineEffect | project/src/pages/PoseTracking.tsx:117-165 | dispatching the pipeline's actions raises the rep count by the detector's reps over the frames' angles and changes nothing but the count and the feedback |
| PoseTrackingPage.DetectPose | project/src/pages/PoseTracking.tsx:117-167 | the frame loop, starting extended, raises `currentReps` by the detector's rep count and changes nothing but reps and feedback |
| TimerSlice.TimerStore.constructor | project/src/store/timerSlice.ts:12-19 | the initial timer: stopped, unpaused, 0 of 60 seconds, no owner, set 0 |
| TimerSlice.TimerStore.StartTimer | project/src/store/timerSlice.ts:29-34 | the new state is the reducer's `startTimer` step |
| TimerSlice.TimerStore.PauseTimer | project/src/store/timerSlice.ts:36-38 | only `isPaused` changes, to true |
| TimerSlice.TimerStore.ResumeTimer | project/src/store/timerSlice.ts:39-41 | only `isPaused` changes, to false |
| TimerSlice.TimerStore.DecrementTimer | project/src/store/timerSlice.ts:42-49 | the new state is the reducer's tick; it keeps the remaining time within [0, target] |
| TimerSlice.TimerStore.ResetTimer | project/src/store/timerSlice.ts:50-57 | the new state is exactly the initial state |
| TimerSlice.StartOverwrites | project/src/store/timerSlice.ts:29-34 | a start sets every field from its payload, whatever ran before: the last start wins |
| TimerSlice.PauseResumeKeepTime | project/src/store/timerSlice.ts:36-41 | pause and resume change only the paused flag |
| TimerSlice.DecrementStep | project/src/store/timerSlice.ts:42-49 | takes one second off exactly when time is left and not paused; never below zero; reaching zero stops the timer; target, owner and set are untouched |
| TimerSlice.ResetIdle | project/src/store/timerSlice.ts:50-57 | a reset restores the initial state and is idempotent |
| TimerSlice.RunStaysInRange | project/src/store/timerSlice.ts:28-57 | every action keeps `0 <= seconds <= targetSeconds`, given non-negative start durations |
| TimerSlice.Countdown | project/src/store/timerSlice.ts:29-49 | start(n > 0) followed by k <= n ticks leaves n - k seconds; running until k = n, stopped then |
| TimerSlice.PausedFreezes | project/src/store/timerSlice.ts:43-45 | ticks on a paused timer with time left change nothing |
| TimerView.JsRem | project/src/components/Timer.tsx:37 | JavaScript `%`: the remainder lies in [0, b) for a non-negative dividend and in (-b, 0] for a negative one, and the dividend minus the remainder is a multiple of b |
| TimerView.PadStart2 | project/src/components/Timer.tsx:38 | `padStart(2, '0')`: the length becomes max(2, length); the text is kept at the end with only '0's before it |
| TimerView.FormatTimeShape | project/src/components/Timer.tsx:35-39 | for s >= 0: the minutes, a colon, then two digits of s mod 60, the first in 0..5 |
| TimerView.FormatTimeNonNegative | project/src/components/Timer.tsx:35-39 | for s >= 0 both fields are unsigned: the minutes and the padded seconds are the decimal digits of s div 60 and s mod 60 |
| TimerView.FormatTimeRoundTrip | project/src/components/Timer.tsx:35-39 | for s >= 0, minutes * 60 + seconds read back from the text gives s |
| TimerView.FormatTimeInjective | project/src/components/Timer.tsx:35-39 | different non-negative counts display differently |
| TimerView.DisplayedExercise | project/src/components/Timer.tsx:15 | the shown exercise has the timer's owner id and is in the list; it is shown whenever some exercise has that id; it is exactly the first exercise with that id, and nothing without an owner |
| TimerView.RunInterval | project/src/components/Timer.tsx:17-25 | k seconds of the interval leave the store in `Elapse(old, k)`: ticks only while running and unpaused |
| TimerView.ElapseFromStart | project/src/components/Timer.tsx:17-25 | after start(n > 0) and k seconds: max(n - k, 0) seconds left, running iff k < n, the other fields as started |
| TimerView.ElapseGated | project/src/components/Timer.tsx:17-25 | a paused or stopped timer gets no ticks: its state is frozen |
| TimerView.CompletionNeverShown | project/src/components/Timer.tsx:104 | as written, after a start the banner never shows, although the countdown does reach zero |
| TimerView.TickNeverShowsCompletion | project/src/components/Timer.tsx:43-45 | no tick ever leaves a rendered timer at zero |
| TimerView.CompletionShownFixed | project/src/components/Timer.tsx:104 | with the corrected render guard the banner shows iff the countdown has run out; a reset hides the card |
| ExerciseCardView.StepKeepsValid | project/src/components/ExerciseCard.tsx:80-138 | every stepper keeps sets >= 1, reps >= 1, timer >= 10 and a multiple of 10 |
| ExerciseCardView.PressesStayValid | project/src/components/ExerciseCard.tsx:18-20 | from 3 / 10 / 60, any sequence of presses keeps the counters valid |
| ExerciseCardView.StepsUndo | project/src/components/ExerciseCard.tsx:80-138 | plus then minus is the identity; minus then plus is too above the floor; at the floor minus does nothing |
| ExerciseCardView.UserExercisesDeletable | project/src/components/ExerciseCard.tsx:64 | an exercise stored from the add form is not predefined, so its card offers delete |
| ExerciseCardView.ExerciseCard.constructor | project/src/components/ExerciseCard.tsx:18-20 | a new card starts at 3 sets, 10 reps and 60 seconds |
| ExerciseCardView.ExerciseCard.LessSets | project/src/components/ExerciseCard.tsx:80 | sets become max(1, sets - 1) |
| ExerciseCardView.ExerciseCard.MoreSets | project/src/components/ExerciseCard.tsx:90 | sets rise by one |
| ExerciseCardView.ExerciseCard.LessReps | project/src/components/ExerciseCard.tsx:103 | reps become max(1, reps - 1) |
| ExerciseCardView.ExerciseCard.MoreReps | project/src/components/ExerciseCard.tsx:113 | reps rise by one |
| ExerciseCardView.ExerciseCard.LessTime | project/src/components/ExerciseCard.tsx:128 | the timer becomes max(10, timer - 10) |
| ExerciseCardView.ExerciseCard.MoreTime | project/src/components/ExerciseCard.tsx:138 | the timer rises by ten |
| ExerciseCardView.ExerciseCard.LogWorkout | project/src/components/ExerciseCard.tsx:35-43 | the log copies exercise, sets and reps, with duration timer * sets; for valid counters that is >= 10 per set and a multiple of 10 |
| ExerciseCardView.ExerciseCard.StartSet | project/src/components/ExerciseCard.tsx:24-31 | arms the timer with the card's seconds, its exercise and set 1; for valid counters it then runs in range with at least 10 seconds |
| ExerciseCardView.ExerciseCard.TrackPose | project/src/components/ExerciseCard.tsx:55-57 | passes name, sets and reps; for valid counters the tracking page resolves exactly them |
| ExerciseCardView.ExerciseCard.Delete | project/src/components/ExerciseCard.tsx:49-53 | after confirmation the exercise's id is gone from the store's list; without it nothing changes |
| ExercisesSlice.InsertRow | project/src/store/exercisesSlice.ts:32 | the inserted row keeps the user's fields and is never predefined |
| ExercisesSlice.ExercisesStore.constructor | project/src/store/exercisesSlice.ts:10-14 | empty list, not loading, no error |
| ExercisesSlice.ExercisesStore.FetchPending | project/src/store/exercisesSlice.ts:54-57 | loading, error cleared, list unchanged |
| ExercisesSlice.ExercisesStore.FetchFulfilled | project/src/store/exercisesSlice.ts:58-61 | not loading; the list is the payload |
| ExercisesSlice.ExercisesStore.FetchRejected | project/src/store/exercisesSlice.ts:62-65 | not loading; the error is the message or 'Failed to fetch exercises', never empty; list unchanged |
| ExercisesSlice.ExercisesStore.AddFulfilled | project/src/store/exercisesSlice.ts:66-68 | the exercise is appended; earlier entries are untouched |
| ExercisesSlice.ExercisesStore.DeleteFulfilled | project/src/store/exercisesSlice.ts:69-71 | every entry with the id is removed, the rest keep their order; deleting again changes nothing |
| WorkoutLogsSlice.DeleteUndoesAdd | project/src/store/workoutLogsSlice.ts:74-79 | adding a log with a new id, then deleting that id, restores the list |
| WorkoutLogsSlice.WorkoutLogsStore.constructor | project/src/store/workoutLogsSlice.ts:10-14 | empty logs, not loading, no error |
| WorkoutLogsSlice.WorkoutLogsStore.FetchPending | project/src/store/workoutLogsSlice.ts:62-65 | loading, error cleared, logs unchanged |
| WorkoutLogsSlice.WorkoutLogsStore.FetchFulfilled | project/src/store/workoutLogsSlice.ts:66-69 | not loading; the logs are the payload |
| WorkoutLogsSlice.WorkoutLogsStore.FetchRejected | project/src/store/workoutLogsSlice.ts:70-73 | not loading; the error is the message or 'Failed to fetch workout logs', never empty; logs unchanged |
| WorkoutLogsSlice.WorkoutLogsStore.AddFulfilled | project/src/store/workoutLogsSlice.ts:74-76 | the log goes first, the length grows by one, and the older logs follow in order |
| WorkoutLogsSlice.WorkoutLogsStore.DeleteFulfilled | project/src/store/workoutLogsSlice.ts:77-79 | every log with the id is removed, the rest keep their order; an absent id changes nothing |
| ThemeSlice.InitialState | project/src/store/themeSlice.ts:9-12 | a stored non-empty mode is used; a missing or empty one gives 'light'; the mode is never empty; not loading |
| ThemeSlice.FetchedMode | project/src/store/themeSlice.ts:21 | the row's mode when it is non-empty, 'light' when there is no row or its mode is empty |
| ThemeSlice.Toggled | project/src/store/themeSlice.ts:52 | the result is light or dark, and differs from a light or dark input |
| ThemeSlice.ToggleTwice | project/src/store/themeSlice.ts:51-55 | toggling twice restores a light or dark mode; a third toggle equals the first |
| ThemeSlice.SetThemeIdempotent | project/src/store/themeSlice.ts:56-60 | setting a mode makes it current, and setting it again changes nothing |
| ThemeSlice.FailedFetchStaysLoading | project/src/store/themeSlice.ts:62-76 | with no rejected case, a failed fetch leaves loading raised and the mode as it was |
| ThemeSlice.ThemeStore.constructor | project/src/store/themeSlice.ts:9-12 | the store starts in the initial state for the stored mode |
| ThemeSlice.ThemeStore.ToggleTheme | project/src/store/themeSlice.ts:51-55 | the new state is the reducer's toggle step |
| ThemeSlice.ThemeStore.SetTheme | project/src/store/themeSlice.ts:56-60 | the new state is the reducer's set step |
| ThemeSlice.ThemeStore.FetchPending | project/src/store/themeSlice.ts:64-66 | loading is raised, the mode is kept |
| ThemeSlice.ThemeStore.FetchFulfilled | project/src/store/themeSlice.ts:67-72 | not loading; the mode is the payload |
| ThemeSlice.ThemeStore.SaveFulfilled | project/src/store/themeSlice.ts:73-75 | the mode is the saved one |
| LogStats.LogReps | project/src/pages/Progress.tsx:40 | a log's reps (reps times sets) are non-negative when its sets and reps are |
| LogStats.TotalAppend | project/src/pages/Progress.tsx:39-40 | a sum over a list is the sum over its two halves |
| LogStats.TotalNonNegative | project/src/pages/Progress.tsx:39-40 | a sum of non-negative terms is non-negative |
| LogStats.DistinctIds | project/src/pages/Progress.tsx:51 | the set holds exactly the exercise ids occurring in the logs |
| LogStats.DistinctBound | project/src/pages/Dashboard.tsx:44 | there are never more distinct exercises than logs |
| LogStats.WindowMembers | project/src/pages/Progress.tsx:34-37 | a span keeps exactly the logs whose day lies in it; an empty span keeps none |
| LogStats.DayLogsMembers | project/src/pages/Dashboard.tsx:36-40 | a day's logs are exactly the logs of that day |
| LogStats.WindowSplit | project/src/pages/Progress.tsx:34-40 | splitting a span of days splits its total: no log is lost or counted twice |
| LogStats.DaysPartition | project/src/pages/Progress.tsx:26-43 | day-by-day totals over n consecutive days add up to the total of the whole span |
| LogStats.ExerciseName | project/src/pages/Progress.tsx:67-68 | the first matching exercise's name, or 'Unknown' when none matches or the name is empty; never empty |
| LogStats.Recent | project/src/pages/Progress.tsx:65-70 | the first min(n, number of logs) logs in order, each with its exercise's name |
| LogStats.RecentPrefix | project/src/pages/Progress.tsx:66 | a shorter recent list is a prefix of a longer one |
| Progress.Bars | project/src/pages/Progress.tsx:26-43 | the first k bars number k |
| Progress.WeeklyData | project/src/pages/Progress.tsx:19-46 | seven bars labelled Sun..Sat; each has its day's total sets and total reps times sets |
| Progress.BarsTotals | project/src/pages/Progress.tsx:34-40 | the first k bars sum to the day-by-day totals of the first k days |
| Progress.WeekTotals | project/src/pages/Progress.tsx:34-40 | the chart's bars sum to the total sets and reps of the week's logs: nothing is lost or duplicated |
| Progress.BadgeNamesDistinct | project/src/pages/Progress.tsx:55-60 | badge names are pairwise different |
| Progress.KeepEarned | project/src/pages/Progress.tsx:53-62 | keeps exactly the earned badges of the list |
| Progress.KeepEarnedSorted | project/src/pages/Progress.tsx:53-62 | filtering keeps the fixed badge order |
| Progress.Badges | project/src/pages/Progress.tsx:48-63 | at most six badges, in the fixed order, each present iff its threshold (1/10/50 workouts, 100/500 reps, 5 exercises) is met |
| Progress.AddingLogKeepsBadges | project/src/pages/Progress.tsx:49-60 | adding a log with non-negative sets and reps never removes a badge |
| Progress.RecentLogs | project/src/pages/Progress.tsx:65-70 | the history is the first min(10, number of logs) logs in order, each with the name of the first exercise with its id, or 'Unknown' when there is none or its name is empty |
| Dashboard.TodayStatsOf | project/src/pages/Dashboard.tsx:32-47 | over today's logs: total sets, total reps times sets, distinct exercises (at most today's log count); all zero without logs today |
| Dashboard.StatCards | project/src/pages/Dashboard.tsx:56-75 | three cards, Total Sets, Total Reps, Exercises, carrying the matching totals |
| Dashboard.StatKeysDistinct | project/src/pages/Dashboard.tsx:56-75 | the card labels, which are the list keys, are pairwise different |
| Dashboard.RecentWorkouts | project/src/pages/Dashboard.tsx:49-54 | the first min(5, number of logs) logs in order, each with the name of the first exercise with its id, or 'Unknown' when there is none or its name is empty |
| Dashboard.EmptyDashboard | project/src/pages/Dashboard.tsx:36-54 | with no logs every total is zero and the recent list is empty |
| Dashboard.RecentIsHistoryPrefix | project/src/pages/Dashboard.tsx:49-54 | the dashboard's recent list is the start of the progress page's history |
| Dashboard.TodayMatchesChart | project/src/pages/Dashboard.tsx:36-43 | today's total sets and reps equal this week's chart bar for today |

## Left out

- The Supabase database calls behind the fetch, add, delete and save thunks, and the client set-up in `lib/supabase.ts`. These are network I/O. Only the reducer cases they trigger are modelled, with their payloads as inputs.
- Camera acquisition and teardown, and MediaPipe model loading. These are device and foreign-library I/O. `detectForVideo` becomes the sequence of frames passed to `DetectPose`.
- `requestAnimationFrame`, `setInterval` and `setTimeout`. These are timing drivers: each animation frame is one pass of the `DetectPose` loop, and each interval second is one pass of `RunInterval`.
- The `atan2`/π arithmetic of `calculateAngle` and the progress-bar percentages. These are floating point; `raw` stands for the unreflected angle.
- `Date` arithmetic. Each log carries an integer day key; "today" and the week's Sunday are parameters.
- The 2-D canvas drawing, confetti, the tutorial video modal, page navigation, the Layout, QuoteCard and Exercises pages, routing and store wiring. These are presentation.
- The `localStorage` copy of the theme and the `dark` class on the page root. These are browser side effects; only `mode` and `loading` are modelled.
- ThemeSlice.ThemeStore: there is no method for a rejected preference fetch. The reducer has no case for it, so dispatching it changes nothing (`ThemeSlice.Reduce`, `FailedFetchStaysLoading`).
- ThemeSlice.Toggled: the mode is kept as a string. The source casts stored text to `'light' | 'dark'` without checking it, so other strings are possible.
- ExerciseCardView.ExerciseCard.Delete: the `confirm` dialog's answer is a parameter. The database delete is taken to succeed; a failed delete dispatches a rejection that no reducer handles.
- PoseTrackingPage.DetectPose: landmark presence is modelled as the landmark list being longer than 15. A present but falsy landmark object cannot occur in the model.
- JavaScript numbers are IEEE doubles; the model uses unbounded integers. Counts beyond 2^53 are not modelled.

## Findings

| source | as written | input that shows it | evidently intended | confidence | as-written member | corrected member |
|---|---|---|---|---|---|---|
| project/src/components/Timer.tsx:104 | the tick that brings `seconds` to 0 also clears `isRunning` (`timerSlice.ts` lines 46-48), and the card returns nothing while `!isRunning` (lines 43-45), so neither "Set complete!" nor the confetti effect at lines 28-33 can appear after a countdown | start a 1-second timer and let one tick pass: seconds 0, not running, nothing rendered | the banner (and confetti) appear when a started countdown reaches zero, until a reset | not executed | TimerView.CompletionNeverShown | TimerView.CompletionShownFixed |
