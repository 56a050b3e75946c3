/** The habit service's own logic: the streak pair it reports for a habit and
    the record it builds for a new habit before handing it to the repository. */
module HabitService {
  import opened Common
  import opened Entities
  import opened TrackingLog
  import opened StreakCalculator
  import opened HabitUtils

  /** `{ currentStreak, longestStreak }`. */
  datatype StreakStats = StreakStats(currentStreak: nat, longestStreak: nat)

  /** `calculateStreakStats`: the streak recomputed from the log and the
      longest streak never below it nor below the stored one. The habit is a
      value, so it cannot be changed. */
  function CalculateStreakStats(h: Habit, today: Day): (r: StreakStats)
    ensures r.currentStreak == Streak(h.trackingData, today)
    ensures r.currentStreak <= CountCompleted(h.trackingData)
    ensures UniqueDates(h.trackingData) ==>
      IsRunLength(h.trackingData, StreakAnchor(h.trackingData, today), r.currentStreak)
    ensures r.longestStreak >= r.currentStreak && r.longestStreak >= h.longestStreak
    ensures r.longestStreak == r.currentStreak || r.longestStreak == h.longestStreak
  {
    var current := Streak(h.trackingData, today);
    StreakIsRunLength(h.trackingData, today);
    StreakStats(current, Max(current, h.longestStreak))
  }

  /** Right after a toggle, the stored streak fields are exactly the pair the
      service reports for the toggled habit. */
  lemma StatsAgreeAfterToggle(h: Habit, date: Option<Day>, today: Day)
    ensures var r := ToggleHabitCompletion(h, date, today);
      CalculateStreakStats(r, today) == StreakStats(r.currentStreak, r.longestStreak)
  {
  }

  /** `createHabit`: the given fields unchanged, both streaks 0 and an empty
      log. */
  function CreateHabit(details: HabitDetails): (d: HabitDraft)
    ensures d.details == details
    ensures d.currentStreak == 0 && d.longestStreak == 0
    ensures d.trackingData == []
  {
    HabitDraft(details, 0, 0, [])
  }

  /** Whatever id and creation time the repository gives it, a created habit
      is well formed and its stored streaks are the ones the service would
      report on any day. */
  lemma CreatedHabitIsConsistent(details: HabitDetails, id: string, createdAt: string, today: Day)
    ensures var d := CreateHabit(details);
      var h := Habit(id, d.details, d.currentStreak, d.longestStreak, createdAt, d.trackingData);
      && WellFormed(h)
      && CalculateStreakStats(h, today) == StreakStats(h.currentStreak, h.longestStreak)
  {
  }
}
