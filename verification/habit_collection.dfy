/** The habit repository that edits the loaded list in place: filter by
    owner, look up, append, replace or delete by id, and toggle a day of a
    stored habit. The list is a field the methods reassign, standing for the
    saved storage. */
module HabitCollection {
  import opened Common
  import opened Entities
  import HabitUtils

  /** The predicate `habit => habit.userId === userId`. */
  function OwnedBy(userId: string): Habit -> bool {
    (h: Habit) => h.details.userId == Some(userId)
  }

  /** The predicate `h => h.id !== id`. */
  function IdIsNot(id: string): Habit -> bool {
    (h: Habit) => h.id != id
  }

  /** Deleting the id of a habit just created, when no other habit had it,
      gives back the list from before. */
  lemma DeleteUndoesCreate(hs: seq<Habit>, h: Habit)
    requires forall i :: 0 <= i < |hs| ==> hs[i].id != h.id
    ensures Filter(hs + [h], IdIsNot(h.id)) == hs
  {
    FilterUndoesAppend(hs, h, IdIsNot(h.id));
  }

  class LocalStorageHabitRepository {
    /** The saved habits. */
    var habits: seq<Habit>

    constructor(stored: seq<Habit>)
      ensures habits == stored
    {
      habits := stored;
    }

    /** `getAll`: with a non-empty user id, the habits owned by that user in
      stored order; with none, or the empty id, which is falsy, all of them. */
    method GetAll(userId: Option<string>) returns (r: seq<Habit>)
      ensures userId.None? || userId.value == "" ==> r == habits
      ensures userId.Some? && userId.value != "" ==>
        && r == Filter(habits, OwnedBy(userId.value))
        && (forall i :: 0 <= i < |r| ==> r[i] in habits && r[i].details.userId == userId)
        && (forall i :: 0 <= i < |habits| && habits[i].details.userId == userId ==> habits[i] in r)
    {
      if userId.Some? && userId.value != "" {
        r := Filter(habits, OwnedBy(userId.value));
      } else {
        r := habits;
      }
    }

    /** `getById`: the first habit with the id, or none. */
    method GetById(id: string) returns (r: Option<Habit>)
      ensures r.Some? ==> r.value.id == id && r.value in habits
      ensures r.Some? ==> exists i :: 0 <= i < |habits| && habits[i] == r.value &&
                                      (forall j :: 0 <= j < i ==> habits[j].id != id)
      ensures r.None? <==> forall i :: 0 <= i < |habits| ==> habits[i].id != id
    {
      r := Find(habits, HabitIdIs(id));
      if r.Some? {
        var i := FirstIndex(habits, HabitIdIs(id)).value;
        assert habits[i] == r.value;
      }
    }

    /** `create`: the draft with the given id and creation time, pushed at
      the end and returned. */
    method Create(draft: HabitDraft, id: string, createdAt: string) returns (h: Habit)
      modifies this
      ensures h == Habit(id, draft.details, draft.currentStreak, draft.longestStreak, createdAt, draft.trackingData)
      ensures habits == old(habits) + [h]
    {
      h := Habit(id, draft.details, draft.currentStreak, draft.longestStreak, createdAt, draft.trackingData);
      habits := habits + [h];
    }

    /** `update`: the first habit with the id is overwritten, or not found
      with nothing saved. */
    method Update(h: Habit) returns (r: Result<Habit>)
      modifies this
      ensures FirstIndex(old(habits), HabitIdIs(h.id)).None? ==>
        r == Err(HabitNotFound(h.id)) && habits == old(habits)
      ensures FirstIndex(old(habits), HabitIdIs(h.id)).Some? ==>
        r == Ok(h) && habits == old(habits)[FirstIndex(old(habits), HabitIdIs(h.id)).value := h]
      ensures r.Ok? ==> Find(habits, HabitIdIs(h.id)) == Some(h)
    {
      var index := FirstIndex(habits, HabitIdIs(h.id));
      if index.Some? {
        ReplaceFirstThenFind(habits, h, HabitIdIs(h.id));
        habits := habits[index.value := h];
        r := Ok(h);
      } else {
        r := Err(HabitNotFound(h.id));
      }
    }

    /** `delete`: every habit with the id is dropped; the answer says whether
      any was. */
    method Delete(id: string) returns (removed: bool)
      modifies this
      ensures habits == Filter(old(habits), IdIsNot(id))
      ensures removed <==> exists i :: 0 <= i < |old(habits)| && old(habits)[i].id == id
      ensures forall i :: 0 <= i < |habits| ==> habits[i].id != id
    {
      var filtered := Filter(habits, IdIsNot(id));
      if |filtered| != |habits| {
        habits := filtered;
        removed := true;
      } else {
        removed := false;
      }
    }

    /** `toggleCompletion`: not found, with nothing saved, or the first habit
      with the id replaced by its toggled version. */
    method ToggleCompletion(id: string, date: Option<Day>, today: Day) returns (r: Result<Habit>)
      modifies this
      ensures FirstIndex(old(habits), HabitIdIs(id)).None? ==>
        r == Err(HabitNotFound(id)) && habits == old(habits)
      ensures FirstIndex(old(habits), HabitIdIs(id)).Some? ==>
        var i := FirstIndex(old(habits), HabitIdIs(id)).value;
        && r == Ok(HabitUtils.ToggleHabitCompletion(old(habits)[i], date, today))
        && habits == old(habits)[i := r.value]
      ensures r.Ok? ==> Find(habits, HabitIdIs(id)) == Some(r.value)
    {
      var index := FirstIndex(habits, HabitIdIs(id));
      if index.None? {
        return Err(HabitNotFound(id));
      }
      var updated := HabitUtils.ToggleHabitCompletion(habits[index.value], date, today);
      ReplaceFirstThenFind(habits, updated, HabitIdIs(id));
      habits := habits[index.value := updated];
      r := Ok(updated);
    }
  }
}
