/** The current-streak calculator: sort the log newest first, start at today
    when today is completed and at yesterday otherwise, and walk back one day
    per completed entry, stopping at an incomplete entry or at a gap. */
module StreakCalculator {
  import opened Common
  import opened Entities
  import opened TrackingLog

  /** Dates never increase along `s`. */
  predicate NewestFirstOrder(s: seq<TrackingEntry>) {
    forall i, j :: 0 <= i < j < |s| ==> s[i].date >= s[j].date
  }

  /** Dates strictly decrease along `s`. */
  predicate StrictlyNewestFirst(s: seq<TrackingEntry>) {
    forall i, j :: 0 <= i < j < |s| ==> s[i].date > s[j].date
  }

  /** `x` placed just before the first entry that is not newer than it. Equal
      dates keep their original relative order, as the stable library sort
      with comparator `b.date - a.date` does. */
  function InsertNewestFirst(x: TrackingEntry, s: seq<TrackingEntry>): (r: seq<TrackingEntry>)
    requires NewestFirstOrder(s)
    ensures NewestFirstOrder(r)
    ensures multiset(r) == multiset(s) + multiset{x}
    ensures CountCompleted(r) == CountCompleted(s) + (if x.completed then 1 else 0)
    ensures r[0] == x || (|s| > 0 && r[0] == s[0])
  {
    if |s| == 0 || s[0].date <= x.date then
      assert ([x] + s)[1..] == s;
      [x] + s
    else
      var rest := InsertNewestFirst(x, s[1..]);
      assert ([s[0]] + rest)[1..] == rest;
      assert s == [s[0]] + s[1..];
      [s[0]] + rest
  }

  /** The log sorted newest first (`[...trackingData].sort(...)`): ordered, a
      permutation of the log, with the same number of completed entries. */
  function NewestFirst(log: seq<TrackingEntry>): (r: seq<TrackingEntry>)
    ensures NewestFirstOrder(r)
    ensures multiset(r) == multiset(log)
    ensures CountCompleted(r) == CountCompleted(log)
  {
    if |log| == 0 then []
    else
      assert log == [log[0]] + log[1..];
      InsertNewestFirst(log[0], NewestFirst(log[1..]))
  }

  /** A log with one entry per date holds each entry at most once. */
  lemma {:induction false} UniqueDatesMultiplicity(s: seq<TrackingEntry>)
    requires UniqueDates(s)
    ensures forall x :: multiset(s)[x] <= 1
  {
    if |s| > 0 {
      UniqueDatesMultiplicity(s[1..]);
      assert s == [s[0]] + s[1..];
      assert s[0] !in s[1..];
    }
  }

  /** Reordering a log keeps its dates unique. */
  lemma UniqueDatesSurvivePermutation(a: seq<TrackingEntry>, b: seq<TrackingEntry>)
    requires UniqueDates(a) && multiset(a) == multiset(b)
    ensures UniqueDates(b)
  {
    forall i, j | 0 <= i < j < |b| ensures b[i].date != b[j].date {
      if b[i] == b[j] {
        assert b == b[..j] + b[j..];
        assert b[i] in b[..j];
        assert b[j] in b[j..];
        assert multiset(b)[b[i]] == multiset(b[..j])[b[i]] + multiset(b[j..])[b[i]];
        UniqueDatesMultiplicity(a);
      } else {
        assert b[i] in multiset(a) && b[j] in multiset(a);
        var p :| 0 <= p < |a| && a[p] == b[i];
        var q :| 0 <= q < |a| && a[q] == b[j];
        assert p != q;
      }
    }
  }

  /** Two orderings of a log hold the same completed days. */
  lemma SameDoneDays(a: seq<TrackingEntry>, b: seq<TrackingEntry>)
    requires multiset(a) == multiset(b)
    ensures forall d :: DoneOn(a, d) <==> DoneOn(b, d)
  {
    forall d ensures DoneOn(a, d) <==> DoneOn(b, d) {
      assert TrackingEntry(d, true) in a <==> TrackingEntry(d, true) in multiset(a);
      assert TrackingEntry(d, true) in b <==> TrackingEntry(d, true) in multiset(b);
    }
  }

  /** Sorting a log with one entry per date orders it strictly. */
  lemma SortedStrictly(log: seq<TrackingEntry>)
    requires UniqueDates(log)
    ensures StrictlyNewestFirst(NewestFirst(log))
  {
    UniqueDatesSurvivePermutation(log, NewestFirst(log));
  }

  /** The walk of the source's loop over entries sorted newest first, with the
      cursor at day `cursor`: a completed entry on the cursor counts and moves
      the cursor back a day, an incomplete entry on the cursor or an entry
      older than the cursor stops the walk, a newer entry is passed over. */
  function Walk(s: seq<TrackingEntry>, cursor: Day): (k: nat)
    ensures k <= |s|
  {
    if |s| == 0 then 0
    else if s[0].date == cursor && s[0].completed then 1 + Walk(s[1..], cursor - 1)
    else if s[0].date == cursor || s[0].date < cursor then 0
    else Walk(s[1..], cursor)
  }

  /** Each step of the walk uses up a completed entry. */
  lemma {:induction false} WalkBound(s: seq<TrackingEntry>, cursor: Day)
    ensures Walk(s, cursor) <= CountCompleted(s)
  {
    if |s| > 0 {
      if s[0].date == cursor && s[0].completed {
        WalkBound(s[1..], cursor - 1);
      } else if s[0].date > cursor {
        WalkBound(s[1..], cursor);
      }
    }
  }

  /** The day the walk starts from, read off the sorted log as the source does:
      today if the first entry for today is completed, yesterday otherwise. */
  function Anchor(sorted: seq<TrackingEntry>, today: Day): (a: Day)
    ensures a == today || a == today - 1
    ensures a == today <==> CompletedOn(sorted, today)
  {
    if CompletedOn(sorted, today) then today else today - 1
  }

  /** `calculateStreak`, as a function of the log and of today. */
  function Streak(log: seq<TrackingEntry>, today: Day): (k: nat)
    ensures k <= CountCompleted(log)
  {
    var sorted := NewestFirst(log);
    WalkBound(sorted, Anchor(sorted, today));
    Walk(sorted, Anchor(sorted, today))
  }

  /** `k` is the length of the run of completed days ending at `anchor`: each
      of the `k` days up to `anchor` has a completed entry and the day before
      them has none. */
  ghost predicate IsRunLength(log: seq<TrackingEntry>, anchor: Day, k: nat) {
    && (forall d :: anchor - k < d <= anchor ==> DoneOn(log, d))
    && !DoneOn(log, anchor - k)
  }

  /** At most one length fits. */
  lemma RunLengthIsUnique(log: seq<TrackingEntry>, anchor: Day, k1: nat, k2: nat)
    requires IsRunLength(log, anchor, k1) && IsRunLength(log, anchor, k2)
    ensures k1 == k2
  {
  }

  /** On strictly newest-first entries, the walk measures the run of completed
      days ending at the cursor. */
  lemma {:induction false} WalkIsRunLength(s: seq<TrackingEntry>, cursor: Day)
    requires StrictlyNewestFirst(s)
    ensures IsRunLength(s, cursor, Walk(s, cursor))
  {
    if |s| == 0 {
      return;
    }
    assert s == [s[0]] + s[1..];
    assert StrictlyNewestFirst(s[1..]);
    var k := Walk(s, cursor);
    if s[0].date == cursor && s[0].completed {
      WalkIsRunLength(s[1..], cursor - 1);
      forall d | cursor - k < d <= cursor ensures DoneOn(s, d) {
        if d < cursor {
          assert DoneOn(s[1..], d);
        }
      }
      assert !DoneOn(s[1..], cursor - k);
    } else if s[0].date > cursor {
      WalkIsRunLength(s[1..], cursor);
      forall d | cursor - k < d <= cursor ensures DoneOn(s, d) {
        assert DoneOn(s[1..], d);
      }
      assert !DoneOn(s[1..], cursor - k);
    }
  }

  /** The day the streak is counted back from: today when the log holds a
      completed entry for today, yesterday otherwise (also when today's entry
      is incomplete). */
  ghost function StreakAnchor(log: seq<TrackingEntry>, today: Day): Day {
    if DoneOn(log, today) then today else today - 1
  }

  /** With one entry per date, the streak is the number of consecutive
      completed days ending at the anchor day. */
  lemma StreakIsRunLength(log: seq<TrackingEntry>, today: Day)
    ensures UniqueDates(log) ==> IsRunLength(log, StreakAnchor(log, today), Streak(log, today))
  {
    if UniqueDates(log) {
      var sorted := NewestFirst(log);
      SortedStrictly(log);
      SameDoneDays(sorted, log);
      UniqueDatesSurvivePermutation(log, sorted);
      CompletedOnIsDoneOn(sorted, today);
      WalkIsRunLength(sorted, Anchor(sorted, today));
    }
  }

  /** The streak does not depend on the order of the log. */
  lemma StreakIgnoresOrder(a: seq<TrackingEntry>, b: seq<TrackingEntry>, today: Day)
    requires UniqueDates(a) && multiset(a) == multiset(b)
    ensures Streak(a, today) == Streak(b, today)
  {
    UniqueDatesSurvivePermutation(a, b);
    StreakIsRunLength(a, today);
    StreakIsRunLength(b, today);
    SameDoneDays(a, b);
    var anchor := StreakAnchor(a, today);
    assert anchor == StreakAnchor(b, today);
    assert IsRunLength(a, anchor, Streak(b, today));
    RunLengthIsUnique(a, anchor, Streak(a, today), Streak(b, today));
  }

  /** An incomplete entry for today does not force the streak to zero: the
      count starts at yesterday and passes over today's entry. */
  lemma IncompleteTodayCountsFromYesterday(log: seq<TrackingEntry>, today: Day)
    requires UniqueDates(log)
    requires TrackingEntry(today, false) in log
    requires DoneOn(log, today - 1)
    ensures Streak(log, today) >= 1
  {
    StreakIsRunLength(log, today);
    assert !DoneOn(log, today);
  }

  /** Two completed days ending today give a streak of 2. */
  lemma TwoDaysEndingToday()
    ensures Streak([TrackingEntry(10, true), TrackingEntry(9, true)], 10) == 2
  {
    var log := [TrackingEntry(10, true), TrackingEntry(9, true)];
    assert NewestFirst(log) == log;
    assert Anchor(log, 10) == 10;
  }

  /** The same two days counted from the next day, whose entry is missing,
      still give 2. */
  lemma TwoDaysEndingYesterday()
    ensures Streak([TrackingEntry(10, true), TrackingEntry(9, true)], 11) == 2
  {
    var log := [TrackingEntry(10, true), TrackingEntry(9, true)];
    assert NewestFirst(log) == log;
    assert Anchor(log, 11) == 10;
  }

  /** A lone incomplete entry for today gives 0. */
  lemma IncompleteTodayAlone()
    ensures Streak([TrackingEntry(10, false)], 10) == 0
  {
    StreakIsRunLength([TrackingEntry(10, false)], 10);
  }

  /** With two entries for the same day the streak depends on their order:
      the stable sort keeps them as they are and the first one decides
      whether today counts. Here the incomplete entry comes first, so the
      count starts at yesterday and finds nothing ... */
  lemma RepeatedDateIncompleteFirst()
    ensures Streak([TrackingEntry(10, false), TrackingEntry(10, true)], 10) == 0
  {
    var a := [TrackingEntry(10, false), TrackingEntry(10, true)];
    assert a[1..] == [TrackingEntry(10, true)];
    assert NewestFirst(a[1..]) == a[1..];
    assert NewestFirst(a) == a;
    assert !CompletedOn(a, 10);
    assert Walk(a[1..], 9) == 0;
  }

  /** ... while with the same two entries swapped the completed one comes
      first and today counts: order independence needs one entry per date. */
  lemma RepeatedDateCompleteFirst()
    ensures Streak([TrackingEntry(10, true), TrackingEntry(10, false)], 10) == 1
  {
    var b := [TrackingEntry(10, true), TrackingEntry(10, false)];
    assert b[1..] == [TrackingEntry(10, false)];
    assert NewestFirst(b[1..]) == b[1..];
    assert NewestFirst(b) == b;
    assert CompletedOn(b, 10);
    assert Walk(b[1..], 9) == 0;
  }

  /** `calculateStreak`: the loop of the source over the sorted log, with its
      counter and its cursor. */
  method CalculateStreak(log: seq<TrackingEntry>, today: Day) returns (streak: nat)
    ensures streak == Streak(log, today)
    ensures streak <= CountCompleted(log)
    ensures |log| == 0 ==> streak == 0
    ensures UniqueDates(log) ==> IsRunLength(log, StreakAnchor(log, today), streak)
  {
    var sorted := NewestFirst(log);
    var cursor := Anchor(sorted, today);
    ghost var total := Walk(sorted, cursor);
    streak := 0;
    var i := 0;
    while i < |sorted|
      invariant 0 <= i <= |sorted|
      invariant streak + Walk(sorted[i..], cursor) == total
    {
      var entry := sorted[i];
      assert sorted[i..][1..] == sorted[i + 1..];
      if entry.date == cursor && entry.completed {
        streak := streak + 1;
        cursor := cursor - 1;
      } else if entry.date == cursor && !entry.completed {
        break;
      } else if entry.date < cursor {
        break;
      }
      i := i + 1;
    }
    StreakIsRunLength(log, today);
  }
}
