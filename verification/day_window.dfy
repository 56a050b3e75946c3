/** The trailing window of days ending today, as drawn under each habit and
    used for completion rates (`getLastNDays`). */
module DayWindow {
  import opened Common
  import opened Entities
  import opened TrackingLog

  /** One day of the window: `{ date, completed, isToday }`. */
  datatype DayCell = DayCell(date: Day, completed: bool, isToday: bool)

  /** The cell drawn for `date`. */
  function Cell(log: seq<TrackingEntry>, today: Day, date: Day): DayCell {
    DayCell(date, CompletedOn(log, date), date == today)
  }

  /** The `n` days ending today, oldest first (none when `n` is not positive). */
  function Window(log: seq<TrackingEntry>, today: Day, n: int): (w: seq<DayCell>)
    ensures |w| == if n > 0 then n else 0
    ensures forall k :: 0 <= k < |w| ==> w[k] == Cell(log, today, today - (n - 1) + k)
  {
    seq(if n > 0 then n else 0, k => Cell(log, today, today - (n - 1) + k))
  }

  /** `getLastNDays`: the counted loop from `days - 1` down to 0, pushing the
      cell for today minus the counter. */
  method LastNDays(log: seq<TrackingEntry>, today: Day, days: int) returns (result: seq<DayCell>)
    ensures |result| == if days > 0 then days else 0
    ensures forall k :: 0 <= k < |result| ==> result[k].date == today - (days - 1) + k
    ensures forall k :: 0 <= k < |result| ==> result[k].completed == CompletedOn(log, result[k].date)
    ensures forall k :: 0 <= k < |result| ==> (result[k].isToday <==> k == |result| - 1)
    ensures result == Window(log, today, days)
  {
    result := [];
    var i := days - 1;
    while i >= 0
      invariant i < days
      invariant days > 0 ==> -1 <= i && |result| == days - 1 - i
      invariant days <= 0 ==> result == []
      invariant forall k :: 0 <= k < |result| ==> result[k] == Cell(log, today, today - (days - 1) + k)
      decreases i
    {
      var date := today - i;
      var entry := Find(log, DateIs(date));
      var completed := if entry.Some? then entry.value.completed else false;
      result := result + [DayCell(date, completed, date == today)];
      i := i - 1;
    }
  }
}
