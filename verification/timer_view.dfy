/** The timer card: when it shows, what it shows, and the one-second interval that
    drives the countdown while the timer runs unpaused. */
module TimerView {
  import opened Common
  import opened Records
  import T = TimerSlice

  // ---------------------------------------------------------------- m:ss

  /** JavaScript's `%`: the remainder takes the sign of the dividend. */
  function JsRem(a: int, b: int): (r: int)
    requires b > 0
    ensures a >= 0 ==> 0 <= r < b
    ensures a < 0 ==> -b < r <= 0
    ensures exists q: int :: a == q * b + r
  {
    var q := if a >= 0 then a / b else -((-a) / b);
    var r := if a >= 0 then a % b else -((-a) % b);
    assert a == q * b + r;
    r
  }

  /** `s.padStart(2, '0')`. */
  function PadStart2(s: string): (r: string)
    ensures |r| == if |s| < 2 then 2 else |s|
    ensures r[|r| - |s|..] == s && forall i :: 0 <= i < |r| - |s| ==> r[i] == '0'
  {
    if |s| == 0 then "00" else if |s| == 1 then "0" + s else s
  }

  /** formatTime: whole minutes (rounded down), a colon, and the remaining seconds padded to two
      characters. */
  function FormatTime(secs: int): string {
    IntToString(secs / 60) + ":" + PadStart2(IntToString(JsRem(secs, 60)))
  }

  /** Reads an "m:ss" text back: minutes, colon, two digits. */
  function ParseClock(t: string): Option<nat> {
    var n := |t|;
    if n >= 4 && t[n - 3] == ':' && AllDigits(t[..n - 3]) && IsDigit(t[n - 2]) && IsDigit(t[n - 1]) then
      Some(ParseNat(t[..n - 3]) * 60 + 10 * DigitValue(t[n - 2]) + DigitValue(t[n - 1]))
    else None
  }

  /** A count of seconds below a minute pads to exactly its two decimal digits. */
  lemma PadsToTwoDigits(r: nat)
    requires r < 60
    ensures PadStart2(NatToString(r)) == [DigitChar(r / 10), DigitChar(r % 10)]
  {
    if r >= 10 {
      assert NatToString(r) == NatToString(r / 10) + [DigitChar(r % 10)];
    }
  }

  /** For a non-negative count the seconds field is always two digits from 00 to 59. */
  lemma FormatTimeShape(secs: int)
    requires secs >= 0
    ensures FormatTime(secs) ==
      NatToString(secs / 60) + ":" + [DigitChar(secs % 60 / 10), DigitChar(secs % 60 % 10)]
    ensures '0' <= FormatTime(secs)[|FormatTime(secs)| - 2] <= '5'
  {
    var q, r := secs / 60, secs % 60;
    FormatTimeNonNegative(secs);
    PadsToTwoDigits(r);
    var t := NatToString(q) + ":" + [DigitChar(r / 10), DigitChar(r % 10)];
    assert t[|t| - 2] == DigitChar(r / 10);
  }

  /** On a non-negative count both fields are spelled without a sign. */
  lemma FormatTimeNonNegative(secs: int)
    requires secs >= 0
    ensures FormatTime(secs) == NatToString(secs / 60) + ":" + PadStart2(NatToString(secs % 60))
  {
    assert JsRem(secs, 60) == secs % 60;
  }

  /** Any minutes field, a colon and two digits read back as minutes times 60 plus the digits. */
  lemma ParseClockOf(m: string, a: char, b: char)
    requires |m| >= 1 && AllDigits(m) && IsDigit(a) && IsDigit(b)
    ensures ParseClock(m + ":" + [a, b]).Some?
    ensures ParseClock(m + ":" + [a, b]).value == ParseNat(m) * 60 + 10 * DigitValue(a) + DigitValue(b)
  {
    var t := m + ":" + [a, b];
    assert |t| == |m| + 3;
    assert t[..|m|] == m;
    assert t[|m|] == ':' && t[|m| + 1] == a && t[|m| + 2] == b;
  }

  /** Minutes times 60 plus seconds recovers the count: the display loses nothing. */
  lemma FormatTimeRoundTrip(secs: int)
    requires secs >= 0
    ensures ParseClock(FormatTime(secs)).Some? && ParseClock(FormatTime(secs)).value == secs
  {
    var q, r := secs / 60, secs % 60;
    FormatTimeShape(secs);
    ParseClockOf(NatToString(q), DigitChar(r / 10), DigitChar(r % 10));
    ParseNatToString(q);
  }

  lemma FormatTimeInjective(a: int, b: int)
    requires a >= 0 && b >= 0 && FormatTime(a) == FormatTime(b)
    ensures a == b
  {
    FormatTimeRoundTrip(a);
    FormatTimeRoundTrip(b);
  }

  // ---------------------------------------------------------------- what is shown

  /** The interval effect is armed exactly while the timer runs and is not paused. */
  predicate TickScheduled(t: T.TimerState) {
    t.isRunning && !t.isPaused
  }

  /** The card renders nothing while the timer is not running. */
  predicate Rendered(t: T.TimerState) {
    t.isRunning
  }

  /** The "Set complete!" banner, and likewise the confetti effect, need a rendered card at zero. */
  predicate SetCompleteShown(t: T.TimerState) {
    Rendered(t) && t.seconds == 0
  }

  /** The exercise named on the card: the first one whose id is the timer's owner. */
  function DisplayedExercise(exercises: seq<Exercise>, owner: Option<Id>): (r: Option<Exercise>)
    ensures r.Some? ==> owner.Some? && r.value.id == owner.value && r.value in exercises
    ensures owner.Some? && (exists i :: 0 <= i < |exercises| && exercises[i].id == owner.value) ==> r.Some?
    ensures owner.None? ==> r.None?
    ensures owner.Some? ==> r == FindExercise(exercises, owner.value)
  {
    if owner.None? then None else FindExercise(exercises, owner.value)
  }

  // ---------------------------------------------------------------- the interval

  /** The timer after `k` seconds of the interval driver: each second ticks only while scheduled. */
  function Elapse(t: T.TimerState, k: nat): T.TimerState {
    if k == 0 then t
    else
      var u := Elapse(t, k - 1);
      if TickScheduled(u) then T.Reduce(u, T.DecrementTimer) else u
  }

  /** `setInterval(() => dispatch(decrementTimer()), 1000)` while the effect is armed; a closed gate
      clears the interval, so no tick reaches the store. */
  method RunInterval(timer: T.TimerStore, k: nat)
    modifies timer
    ensures timer.Snapshot() == Elapse(old(timer.Snapshot()), k)
  {
    var i := 0;
    while i < k
      invariant 0 <= i <= k
      invariant timer.Snapshot() == Elapse(old(timer.Snapshot()), i)
    {
      if timer.isRunning && !timer.isPaused {
        timer.DecrementTimer();
      }
      i := i + 1;
    }
  }

  /** Armed with n > 0 seconds and left alone, the timer counts down one per second, stops at zero
      after n seconds, and then stays put. */
  lemma {:induction false} ElapseFromStart(n: int, id: string, setNo: int, k: nat)
    requires n > 0
    ensures var t := Elapse(T.Reduce(T.Initial, T.StartTimer(n, id, setNo)), k);
      t.seconds == (if k <= n then n - k else 0) && t.isRunning == (k < n)
      && t.targetSeconds == n && t.exerciseId == Some(id) && t.setNumber == setNo && !t.isPaused
  {
    if k > 0 {
      ElapseFromStart(n, id, setNo, k - 1);
    }
  }

  /** A paused (or stopped) timer gets no ticks at all: its state is frozen until resumed. */
  lemma {:induction false} ElapseGated(t: T.TimerState, k: nat)
    requires !TickScheduled(t)
    ensures Elapse(t, k) == t
  {
    if k > 0 {
      ElapseGated(t, k - 1);
    }
  }

  /** The countdown as written never shows "Set complete!": the tick that reaches zero also stops the
      timer, and a stopped timer renders nothing. */
  lemma {:induction false} CompletionNeverShown(n: int, id: string, setNo: int, k: nat)
    requires n > 0
    ensures !SetCompleteShown(Elapse(T.Reduce(T.Initial, T.StartTimer(n, id, setNo)), k))
    ensures Elapse(T.Reduce(T.Initial, T.StartTimer(n, id, setNo)), n).seconds == 0
  {
    ElapseFromStart(n, id, setNo, k);
    ElapseFromStart(n, id, setNo, n);
  }

  /** No tick ever leaves a running timer at zero. */
  lemma TickNeverShowsCompletion(t: T.TimerState)
    ensures !SetCompleteShown(T.Reduce(t, T.DecrementTimer))
  {
  }

  // ---------------------------------------------------------------- corrected display

  /** A countdown that reached zero for an owner, and has not been reset. */
  predicate Completed(t: T.TimerState) {
    t.exerciseId.Some? && t.seconds == 0
  }

  /** The card keeps showing a completed countdown until it is reset. */
  predicate RenderedFixed(t: T.TimerState) {
    t.isRunning || Completed(t)
  }

  predicate SetCompleteShownFixed(t: T.TimerState) {
    RenderedFixed(t) && t.seconds == 0
  }

  /** With the corrected guard the banner appears exactly once the countdown has run out, stays
      until a reset, and a reset hides the card. */
  lemma CompletionShownFixed(n: int, id: string, setNo: int, k: nat)
    requires n > 0
    ensures SetCompleteShownFixed(Elapse(T.Reduce(T.Initial, T.StartTimer(n, id, setNo)), k)) <==> k >= n
    ensures !RenderedFixed(T.Reduce(Elapse(T.Reduce(T.Initial, T.StartTimer(n, id, setNo)), k), T.ResetTimer))
  {
    ElapseFromStart(n, id, setNo, k);
  }
}
