/** The habit repository that keeps its list as a whole: look up, append,
    replace by id, and toggle a day of a stored habit. The list is a field
    the methods reassign, standing for the saved storage. */
module HabitStore {
  import opened Common
  import opened Entities
  import opened TrackingLog
  import opened StreakCalculator
  import HabitUtils

  /** The list with every habit whose id is `u.id` replaced by `u`
      (`habits.map(habit => habit.id === u.id ? u : habit)`). */
  function ReplaceAll(hs: seq<Habit>, u: Habit): (r: seq<Habit>)
    ensures |r| == |hs|
    ensures forall i :: 0 <= i < |hs| ==> r[i] == if hs[i].id == u.id then u else hs[i]
  {
    seq(|hs|, i requires 0 <= i < |hs| => if hs[i].id == u.id then u else hs[i])
  }

  /** After a replacement that hit something, looking the id up gives the new
      habit. */
  lemma ReplaceAllThenFind(hs: seq<Habit>, u: Habit)
    requires Find(hs, HabitIdIs(u.id)).Some?
    ensures Find(ReplaceAll(hs, u), HabitIdIs(u.id)) == Some(u)
  {
    FirstIndexSamePattern(ReplaceAll(hs, u), hs, HabitIdIs(u.id));
  }

  /** Looking up any other id gives what it gave before the replacement. */
  lemma ReplaceAllKeepsOthers(hs: seq<Habit>, u: Habit, other: string)
    requires other != u.id
    ensures Find(ReplaceAll(hs, u), HabitIdIs(other)) == Find(hs, HabitIdIs(other))
  {
    FirstIndexSamePattern(ReplaceAll(hs, u), hs, HabitIdIs(other));
  }

  class LocalStorageHabitRepository {
    /** The saved habits. */
    var habits: seq<Habit>

    constructor(stored: seq<Habit>)
      ensures habits == stored
    {
      habits := stored;
    }

    /** `getHabitById`: the first habit with the id, or none. */
    method GetHabitById(id: string) returns (r: Option<Habit>)
      ensures r.Some? ==> r.value.id == id && r.value in habits
      ensures r.Some? ==> exists i :: 0 <= i < |habits| && habits[i] == r.value &&
                                      (forall j :: 0 <= j < i ==> habits[j].id != id)
      ensures r.None? <==> forall i :: 0 <= i < |habits| ==> habits[i].id != id
    {
      r := Find(habits, HabitIdIs(id));
      if r.Some? {
        var i := FirstIndex(habits, HabitIdIs(id)).value;
        assert habits[i] == r.value;
      }
    }

    /** `addHabit`: the habit goes at the end and is returned. */
    method AddHabit(h: Habit) returns (r: Habit)
      modifies this
      ensures habits == old(habits) + [h]
      ensures r == h
    {
      habits := habits + [h];
      r := h;
    }

    /** `updateHabit`: every habit with the id is replaced; the list keeps its
      length and its other habits. */
    method UpdateHabit(u: Habit) returns (r: Habit)
      modifies this
      ensures habits == ReplaceAll(old(habits), u)
      ensures r == u
    {
      habits := ReplaceAll(habits, u);
      r := u;
    }

    /** `toggleHabitCompletion`: not found, with nothing saved, or the first
      habit with the id toggled and stored over every habit with that id. */
    method ToggleHabitCompletion(habitId: string, date: Option<Day>, today: Day) returns (r: Result<Habit>)
      modifies this
      ensures Find(old(habits), HabitIdIs(habitId)).None? ==>
        r == Err(HabitNotFound(habitId)) && habits == old(habits)
      ensures Find(old(habits), HabitIdIs(habitId)).Some? ==>
        && r == Ok(HabitUtils.ToggleHabitCompletion(Find(old(habits), HabitIdIs(habitId)).value, date, today))
        && habits == ReplaceAll(old(habits), r.value)
      ensures r.Ok? ==> r.value.id == habitId && |habits| == |old(habits)|
      ensures r.Ok? ==> forall i :: 0 <= i < |habits| && old(habits)[i].id != habitId ==> habits[i] == old(habits)[i]
    {
      var found := Find(habits, HabitIdIs(habitId));
      if found.None? {
        return Err(HabitNotFound(habitId));
      }
      var updated := HabitUtils.ToggleHabitCompletion(found.value, date, today);
      var saved := UpdateHabit(updated);
      r := Ok(saved);
    }
  }

  /** The toggled habit is stored: looking its id up afterwards gives it, with
      the log of the first stored habit toggled and its longest streak not
      lowered. */
  lemma ToggleThenFind(hs: seq<Habit>, habitId: string, date: Option<Day>, today: Day)
    requires Find(hs, HabitIdIs(habitId)).Some?
    ensures var h := Find(hs, HabitIdIs(habitId)).value;
      var u := HabitUtils.ToggleHabitCompletion(h, date, today);
      && Find(ReplaceAll(hs, u), HabitIdIs(habitId)) == Some(u)
      && u.trackingData == HabitUtils.ToggleLog(h.trackingData, HabitUtils.TargetDay(date, today))
      && u.longestStreak >= h.longestStreak
  {
    var h := Find(hs, HabitIdIs(habitId)).value;
    var u := HabitUtils.ToggleHabitCompletion(h, date, today);
    ReplaceAllThenFind(hs, u);
  }
}
