/** Reading a habit's tracking log: the first entry for a day, whether a day
    counts as completed, and how many entries are completed. */
module TrackingLog {
  import opened Common
  import opened Entities

  /** The predicate `d => d.date === date` of the source's `find` calls. */
  function DateIs(date: Day): TrackingEntry -> bool {
    (e: TrackingEntry) => e.date == date
  }

  /** Index of the first entry for `date`. */
  function IndexOfDate(log: seq<TrackingEntry>, date: Day): Option<nat> {
    FirstIndex(log, DateIs(date))
  }

  /** The flag of the first entry for `date`, false when there is none
      (`find(...)?.completed || false`). */
  function CompletedOn(log: seq<TrackingEntry>, date: Day): (done: bool)
    ensures done ==> TrackingEntry(date, true) in log
    ensures (forall i :: 0 <= i < |log| ==> log[i].date != date) ==> !done
  {
    match IndexOfDate(log, date)
    case None => false
    case Some(i) => log[i].completed
  }

  /** No two entries of the log share a date. */
  predicate UniqueDates(log: seq<TrackingEntry>) {
    forall i, j :: 0 <= i < j < |log| ==> log[i].date != log[j].date
  }

  /** The log holds a completed entry for `date`. */
  predicate DoneOn(log: seq<TrackingEntry>, date: Day) {
    TrackingEntry(date, true) in log
  }

  /** With one entry per date, the first-match reading and plain membership
      agree. */
  lemma CompletedOnIsDoneOn(log: seq<TrackingEntry>, date: Day)
    requires UniqueDates(log)
    ensures CompletedOn(log, date) <==> DoneOn(log, date)
  {
    if DoneOn(log, date) {
      var k :| 0 <= k < |log| && log[k] == TrackingEntry(date, true);
      var i := IndexOfDate(log, date).value;
      assert log[i].date == date;
      assert i == k;
    }
  }

  /** Number of completed entries (`trackingData.filter(d => d.completed).length`). */
  function CountCompleted(log: seq<TrackingEntry>): (n: nat)
    ensures n <= |log|
  {
    if |log| == 0 then 0
    else (if log[0].completed then 1 else 0) + CountCompleted(log[1..])
  }
}
