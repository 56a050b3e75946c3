/** Toggling a day of a habit, the 30-day completion rate, and the statistics
    over all habits. */
module HabitUtils {
  import opened Common
  import opened Entities
  import opened TrackingLog
  import opened StreakCalculator
  import opened DayWindow

  /** A habit whose log has one entry per date and whose streak fields are
      coherent: the current streak is at most the longest one and at most the
      number of completed entries. */
  predicate WellFormed(h: Habit) {
    && UniqueDates(h.trackingData)
    && h.currentStreak <= h.longestStreak
    && h.currentStreak <= CountCompleted(h.trackingData)
  }

  // ---------------------------------------------------------------------------
  // Toggle

  /** The log after toggling `date`: the first entry for `date` has its flag
      flipped in place, or a completed entry for `date` is appended. */
  function ToggleLog(log: seq<TrackingEntry>, date: Day): (r: seq<TrackingEntry>)
    ensures IndexOfDate(log, date).Some? ==>
      var i := IndexOfDate(log, date).value;
      && |r| == |log|
      && r[i] == TrackingEntry(date, !log[i].completed)
      && forall j :: 0 <= j < |log| && j != i ==> r[j] == log[j]
    ensures IndexOfDate(log, date).None? ==> r == log + [TrackingEntry(date, true)]
  {
    match IndexOfDate(log, date)
    case Some(i) => log[i := log[i].(completed := !log[i].completed)]
    case None => log + [TrackingEntry(date, true)]
  }

  /** Toggling flips whether the toggled day counts as completed and leaves
      every other day as it was. */
  lemma ToggleFlipsOnlyThatDay(log: seq<TrackingEntry>, date: Day)
    ensures CompletedOn(ToggleLog(log, date), date) == !CompletedOn(log, date)
    ensures forall d :: d != date ==> CompletedOn(ToggleLog(log, date), d) == CompletedOn(log, d)
  {
    var r := ToggleLog(log, date);
    match IndexOfDate(log, date)
    case Some(i) =>
      ReplaceFirstThenFind(log, log[i].(completed := !log[i].completed), DateIs(date));
      forall d | d != date ensures CompletedOn(r, d) == CompletedOn(log, d) {
        FirstIndexSamePattern(r, log, DateIs(d));
      }
    case None =>
      FirstIndexAppend(log, TrackingEntry(date, true), DateIs(date));
      forall d | d != date ensures CompletedOn(r, d) == CompletedOn(log, d) {
        FirstIndexAppend(log, TrackingEntry(date, true), DateIs(d));
      }
  }

  /** Toggling keeps one entry per date. */
  lemma ToggleKeepsUniqueDates(log: seq<TrackingEntry>, date: Day)
    ensures UniqueDates(log) ==> UniqueDates(ToggleLog(log, date))
  {
  }

  /** Toggling a day that has an entry twice gives back the original log. */
  lemma ToggleTwiceRestoresLog(log: seq<TrackingEntry>, date: Day)
    requires IndexOfDate(log, date).Some?
    ensures ToggleLog(ToggleLog(log, date), date) == log
  {
    var i := IndexOfDate(log, date).value;
    ReplaceFirstThenFind(log, log[i].(completed := !log[i].completed), DateIs(date));
  }

  /** Toggling a day without an entry twice leaves an incomplete entry for it:
      the first toggle always marks the day completed. */
  lemma ToggleTwiceFromAbsent(log: seq<TrackingEntry>, date: Day)
    requires IndexOfDate(log, date).None?
    ensures ToggleLog(ToggleLog(log, date), date) == log + [TrackingEntry(date, false)]
  {
    FirstIndexAppend(log, TrackingEntry(date, true), DateIs(date));
  }

  /** The day toggled: the given date, or today (`date || getTodayString()`). */
  function TargetDay(date: Option<Day>, today: Day): (d: Day)
    ensures date.Some? ==> d == date.value
    ensures date.None? ==> d == today
  {
    if date.Some? then date.value else today
  }

  /** `toggleHabitCompletion`: a new habit with the toggled log, the streak
      recomputed from it and the longest streak never lowered. */
  function ToggleHabitCompletion(h: Habit, date: Option<Day>, today: Day): (r: Habit)
    ensures r.trackingData == ToggleLog(h.trackingData, TargetDay(date, today))
    ensures r.currentStreak == Streak(r.trackingData, today)
    ensures r.longestStreak >= r.currentStreak && r.longestStreak >= h.longestStreak
    ensures r.longestStreak == r.currentStreak || r.longestStreak == h.longestStreak
    ensures r.(trackingData := h.trackingData, currentStreak := h.currentStreak,
               longestStreak := h.longestStreak) == h
    ensures UniqueDates(h.trackingData) ==> WellFormed(r)
  {
    var log := ToggleLog(h.trackingData, TargetDay(date, today));
    var current := Streak(log, today);
    ToggleKeepsUniqueDates(h.trackingData, TargetDay(date, today));
    h.(trackingData := log, currentStreak := current, longestStreak := Max(current, h.longestStreak))
  }

  /** Toggling the same day twice, when it already had an entry, gives back
      the original log and the streak that log has, with a longest streak at
      least the original one. */
  lemma ToggleHabitTwice(h: Habit, date: Option<Day>, today: Day)
    requires IndexOfDate(h.trackingData, TargetDay(date, today)).Some?
    ensures var r := ToggleHabitCompletion(ToggleHabitCompletion(h, date, today), date, today);
      && r.trackingData == h.trackingData
      && r.currentStreak == Streak(h.trackingData, today)
      && r.longestStreak >= h.longestStreak
  {
    ToggleTwiceRestoresLog(h.trackingData, TargetDay(date, today));
  }

  // ---------------------------------------------------------------------------
  // Completion rate

  /** Number of completed days in a window (`filter(day => day.completed).length`). */
  function CountDone(cells: seq<DayCell>): (n: nat)
    ensures n <= |cells|
    ensures n == |cells| <==> forall k :: 0 <= k < |cells| ==> cells[k].completed
    ensures n == 0 <==> forall k :: 0 <= k < |cells| ==> !cells[k].completed
  {
    if |cells| == 0 then 0
    else (if cells[0].completed then 1 else 0) + CountDone(cells[1..])
  }

  /** The window `calculateCompletionRate` looks at. */
  const RateWindowDays: nat := 30

  /** `calculateCompletionRate`: the percentage of the last 30 days that are
      completed, missing days counting as not completed and the divisor being
      30 whatever the habit's age. */
  function CompletionRate(log: seq<TrackingEntry>, today: Day): (rate: real)
    ensures 0.0 <= rate <= 100.0
  {
    (CountDone(Window(log, today, RateWindowDays)) as real / RateWindowDays as real) * 100.0
  }

  /** The rate is 100 exactly when each of the last 30 days is completed, and
      0 exactly when none of them is. */
  lemma CompletionRateExtremes(log: seq<TrackingEntry>, today: Day)
    ensures CompletionRate(log, today) == 100.0 <==>
      forall d :: today - 30 < d <= today ==> CompletedOn(log, d)
    ensures CompletionRate(log, today) == 0.0 <==>
      forall d :: today - 30 < d <= today ==> !CompletedOn(log, d)
  {
    var w := Window(log, today, RateWindowDays);
    if forall k :: 0 <= k < |w| ==> w[k].completed {
      forall d | today - 30 < d <= today ensures CompletedOn(log, d) {
        assert w[d - today + 29].completed;
      }
    }
    if forall k :: 0 <= k < |w| ==> !w[k].completed {
      forall d | today - 30 < d <= today ensures !CompletedOn(log, d) {
        assert !w[d - today + 29].completed;
      }
    }
  }

  // ---------------------------------------------------------------------------
  // Statistics

  /** `Math.max(...habits.map(h => h.currentStreak))`. */
  function MaxCurrentStreak(hs: seq<Habit>): (m: nat)
    requires |hs| > 0
    ensures forall i :: 0 <= i < |hs| ==> hs[i].currentStreak <= m
    ensures exists i :: 0 <= i < |hs| && hs[i].currentStreak == m
  {
    if |hs| == 1 then hs[0].currentStreak
    else
      var rest := MaxCurrentStreak(hs[1..]);
      assert exists i :: 0 <= i < |hs[1..]| && hs[1..][i].currentStreak == rest;
      if hs[0].currentStreak >= rest then hs[0].currentStreak else rest
  }

  /** Completed entries over all habits. */
  function TotalCompletions(hs: seq<Habit>): (t: nat)
    ensures t == 0 <==> forall i :: 0 <= i < |hs| ==> CountCompleted(hs[i].trackingData) == 0
  {
    if |hs| == 0 then 0
    else
      assert forall i :: 1 <= i < |hs| ==> hs[i] == hs[1..][i - 1];
      CountCompleted(hs[0].trackingData) + TotalCompletions(hs[1..])
  }

  /** Each habit's completed entries are part of the total. */
  lemma {:induction false} CompletionsWithinTotal(hs: seq<Habit>, i: nat)
    requires i < |hs|
    ensures CountCompleted(hs[i].trackingData) <= TotalCompletions(hs)
  {
    if i > 0 {
      CompletionsWithinTotal(hs[1..], i - 1);
    }
  }

  /** Sum of the per-habit completion rates. */
  function SumOfRates(hs: seq<Habit>, today: Day): (sum: real)
    ensures 0.0 <= sum <= 100.0 * |hs| as real
  {
    if |hs| == 0 then 0.0 else CompletionRate(hs[0].trackingData, today) + SumOfRates(hs[1..], today)
  }

  /** Mean of the per-habit completion rates. */
  function MeanCompletionRate(hs: seq<Habit>, today: Day): (mean: real)
    requires |hs| > 0
    ensures 0.0 <= mean <= 100.0
  {
    var sum := SumOfRates(hs, today);
    var n := |hs| as real;
    MeanBounds(sum, n);
    sum / n
  }

  /** A sum of `n` percentages divided by `n` is a percentage, and it is 100
      or 0 exactly when the sum is at its largest or smallest. */
  lemma MeanBounds(sum: real, n: real)
    requires n >= 1.0 && 0.0 <= sum <= 100.0 * n
    ensures 0.0 <= sum / n <= 100.0
    ensures sum / n == 100.0 <==> sum == 100.0 * n
    ensures sum / n == 0.0 <==> sum == 0.0
  {
  }

  /** The rates add up to their largest possible sum exactly when every rate
      is 100. */
  lemma {:induction false} SumOfRatesAtMost(hs: seq<Habit>, today: Day)
    ensures SumOfRates(hs, today) == 100.0 * |hs| as real <==>
      forall i :: 0 <= i < |hs| ==> CompletionRate(hs[i].trackingData, today) == 100.0
  {
    if |hs| > 0 {
      SumOfRatesAtMost(hs[1..], today);
      assert forall i :: 1 <= i < |hs| ==> hs[i] == hs[1..][i - 1];
    }
  }

  /** The rates add up to 0 exactly when every rate is 0. */
  lemma {:induction false} SumOfRatesAtLeast(hs: seq<Habit>, today: Day)
    ensures SumOfRates(hs, today) == 0.0 <==>
      forall i :: 0 <= i < |hs| ==> CompletionRate(hs[i].trackingData, today) == 0.0
  {
    if |hs| > 0 {
      SumOfRatesAtLeast(hs[1..], today);
      assert forall i :: 1 <= i < |hs| ==> hs[i] == hs[1..][i - 1];
    }
  }

  /** The mean rate is 100 exactly when every habit has rate 100, and 0
      exactly when every habit has rate 0. */
  lemma MeanRateExtremes(hs: seq<Habit>, today: Day)
    requires |hs| > 0
    ensures MeanCompletionRate(hs, today) == 100.0 <==>
      forall i :: 0 <= i < |hs| ==> CompletionRate(hs[i].trackingData, today) == 100.0
    ensures MeanCompletionRate(hs, today) == 0.0 <==>
      forall i :: 0 <= i < |hs| ==> CompletionRate(hs[i].trackingData, today) == 0.0
  {
    MeanBounds(SumOfRates(hs, today), |hs| as real);
    SumOfRatesAtMost(hs, today);
    SumOfRatesAtLeast(hs, today);
  }

  /** `generateHabitStats`: zeros for no habits; otherwise the count, the
      largest stored current streak, the mean completion rate and the number
      of completed entries. */
  function GenerateHabitStats(hs: seq<Habit>, today: Day): (s: HabitStats)
    ensures |hs| == 0 ==> s == HabitStats(0, 0, 0.0, 0)
    ensures s.totalHabits == |hs|
    ensures forall i :: 0 <= i < |hs| ==> hs[i].currentStreak <= s.activeStreak
    ensures |hs| > 0 ==> exists i :: 0 <= i < |hs| && hs[i].currentStreak == s.activeStreak
    ensures s.totalCompletions == TotalCompletions(hs)
    ensures 0.0 <= s.completionRate <= 100.0
    ensures |hs| > 0 ==> s.completionRate == MeanCompletionRate(hs, today)
  {
    if |hs| == 0 then HabitStats(0, 0, 0.0, 0)
    else HabitStats(|hs|, MaxCurrentStreak(hs), MeanCompletionRate(hs, today), TotalCompletions(hs))
  }

  /** When every habit's stored streak is at most its number of completed
      entries (as every recomputed streak is), the active streak is at most
      the total number of completions. */
  lemma ActiveStreakWithinCompletions(hs: seq<Habit>, today: Day)
    requires forall i :: 0 <= i < |hs| ==> hs[i].currentStreak <= CountCompleted(hs[i].trackingData)
    ensures GenerateHabitStats(hs, today).activeStreak <= GenerateHabitStats(hs, today).totalCompletions
  {
    if |hs| > 0 {
      var s := GenerateHabitStats(hs, today);
      var i :| 0 <= i < |hs| && hs[i].currentStreak == s.activeStreak;
      CompletionsWithinTotal(hs, i);
    }
  }
}
