/** A participant's progress in a challenge: adding or removing a completed
    day, and the percentage of the challenge's days completed, rounded half
    up as `Math.round` does and capped at 100. */
module ChallengeProgress {
  import opened Common
  import opened Entities

  /** `completedDays` with `date` pushed unless it is already there. */
  function AddDay(days: seq<Day>, date: Day): (r: seq<Day>)
    ensures date in r
    ensures forall d :: d in r <==> d in days || d == date
    ensures date in days ==> r == days
    ensures date !in days ==> |r| == |days| + 1
    ensures Distinct(days) ==> Distinct(r)
  {
    if date in days then days else days + [date]
  }

  /** The predicate `d => d !== date`. */
  function DayIsNot(date: Day): Day -> bool {
    (d: Day) => d != date
  }

  /** `completedDays.filter(d => d !== date)`. */
  function RemoveDay(days: seq<Day>, date: Day): (r: seq<Day>)
    ensures date !in r
    ensures forall d :: d != date ==> (d in r <==> d in days)
    ensures date !in days ==> r == days
    ensures Distinct(days) ==> Distinct(r)
  {
    if Distinct(days) then
      FilterKeepsDistinct(days, DayIsNot(date));
      Filter(days, DayIsNot(date))
    else
      Filter(days, DayIsNot(date))
  }

  /** Marking a day done, or not done, a second time changes nothing. */
  lemma DayEditsIdempotent(days: seq<Day>, date: Day)
    ensures AddDay(AddDay(days, date), date) == AddDay(days, date)
    ensures RemoveDay(RemoveDay(days, date), date) == RemoveDay(days, date)
  {
  }

  /** Whole-number division rounds down: `a / b` is the largest `q` with
      `b * q <= a`. */
  lemma DivBounds(a: int, b: int)
    requires a >= 0 && b > 0
    ensures b * (a / b) <= a < b * (a / b) + b
  {
  }

  /** A positive factor can be cancelled from a strict inequality. */
  lemma CancelFactor(b: int, x: int, y: int)
    requires b > 0 && b * x < b * y
    ensures x < y
  {
  }

  /** A positive factor keeps an inequality. */
  lemma ScaleBy(b: int, x: int, y: int)
    requires b > 0 && x <= y
    ensures b * x <= b * y
  {
  }

  /** `Math.round(n / totalDays * 100)` on whole numbers: the nearest whole
      percentage, halves rounding up. */
  function RoundedPercent(n: nat, totalDays: int): (q: nat)
    requires totalDays >= 1
    ensures 2 * totalDays * q <= 200 * n + totalDays < 2 * totalDays * q + 2 * totalDays
  {
    DivBounds(200 * n + totalDays, 2 * totalDays);
    (200 * n + totalDays) / (2 * totalDays)
  }

  /** `Math.min(100, Math.round(n / totalDays * 100))`: the rounded
      percentage capped at 100. */
  function ProgressPercent(n: nat, totalDays: int): (r: nat)
    requires totalDays >= 1
    ensures r <= 100
    ensures r == 100 <==> 200 * n + totalDays >= 200 * totalDays
    ensures r < 100 ==> 2 * totalDays * r <= 200 * n + totalDays < 2 * totalDays * r + 2 * totalDays
  {
    var q := RoundedPercent(n, totalDays);
    if q < 100 then
      ScaleBy(2 * totalDays, q + 1, 100);
      q
    else
      ScaleBy(2 * totalDays, 100, q);
      100
  }

  /** Nothing done is 0%; every day done, or more, is 100%. */
  lemma ProgressEnds(n: nat, totalDays: int)
    requires totalDays >= 1
    ensures n == 0 ==> ProgressPercent(n, totalDays) == 0
    ensures n >= totalDays ==> ProgressPercent(n, totalDays) == 100
  {
  }

  /** More completed days never lower the percentage. */
  lemma ProgressMonotonic(n1: nat, n2: nat, totalDays: int)
    requires totalDays >= 1 && n1 <= n2
    ensures ProgressPercent(n1, totalDays) <= ProgressPercent(n2, totalDays)
  {
    var q1 := RoundedPercent(n1, totalDays);
    var q2 := RoundedPercent(n2, totalDays);
    CancelFactor(2 * totalDays, q1, q2 + 1);
  }

  /** Five of ten days is 50%; one of eight (12.5%) rounds up to 13; one of
      three is 33 and two of three 67. */
  lemma ProgressExamples()
    ensures ProgressPercent(5, 10) == 50
    ensures ProgressPercent(1, 8) == 13
    ensures ProgressPercent(1, 3) == 33
    ensures ProgressPercent(2, 3) == 67
  {
  }

  /** Number of days of a challenge, both ends included. */
  function TotalDays(c: Challenge): (n: int)
    ensures n >= 1 <==> c.startDate <= c.endDate
    ensures c.startDate <= c.endDate ==> c.startDate + (n - 1) == c.endDate
  {
    c.endDate - c.startDate + 1
  }

  /** The participant after `updateProgress`: the day added or removed and
      the progress recomputed from the new number of completed days. */
  function UpdatedParticipant(p: Participant, date: Day, completed: bool, totalDays: int): (q: Participant)
    requires totalDays >= 1
    ensures q.userId == p.userId && q.joinedAt == p.joinedAt
    ensures q.completedDays == if completed then AddDay(p.completedDays, date) else RemoveDay(p.completedDays, date)
    ensures date in q.completedDays <==> completed
    ensures forall d :: d != date ==> (d in q.completedDays <==> d in p.completedDays)
    ensures Distinct(p.completedDays) ==> Distinct(q.completedDays)
    ensures q.progress == ProgressPercent(|q.completedDays|, totalDays)
    ensures q.progress <= 100
  {
    var days := if completed then AddDay(p.completedDays, date) else RemoveDay(p.completedDays, date);
    p.(completedDays := days, progress := ProgressPercent(|days|, totalDays))
  }

  /** Repeating the same update changes nothing further. */
  lemma UpdateProgressIdempotent(p: Participant, date: Day, completed: bool, totalDays: int)
    requires totalDays >= 1
    ensures var q := UpdatedParticipant(p, date, completed, totalDays);
      UpdatedParticipant(q, date, completed, totalDays) == q
  {
    DayEditsIdempotent(p.completedDays, date);
  }
}
