/** Values shared by every part of the model: calendar days, optional values,
    the not-found errors the repositories raise, and the two list primitives
    the source leans on everywhere (`findIndex`/`find` and `filter`). */
module Common {

  /** A calendar date as a day number: the day after `d` is `d + 1`.
      Stands for an ISO `YYYY-MM-DD` string, whose lexical order is
      chronological order. */
  type Day = int

  datatype Option<+T> = None | Some(value: T)

  /** The exceptions the repositories throw, one per message in the source. */
  datatype Error =
    | HabitNotFound(habitId: string)
    | ChallengeNotFound(challengeId: string)
    | NotAParticipant(userId: string, challengeId: string)

  datatype Result<+T> = Ok(value: T) | Err(error: Error)

  function Max(a: int, b: int): (m: int)
    ensures m >= a && m >= b
    ensures m == a || m == b
  {
    if a >= b then a else b
  }

  /** Index of the first element satisfying `p`, as `Array.prototype.findIndex`
      (None standing for -1). */
  function FirstIndex<T>(s: seq<T>, p: T -> bool): (r: Option<nat>)
    ensures r.Some? ==> r.value < |s| && p(s[r.value])
    ensures r.Some? ==> forall j :: 0 <= j < r.value ==> !p(s[j])
    ensures r.None? <==> forall j :: 0 <= j < |s| ==> !p(s[j])
  {
    if |s| == 0 then None
    else if p(s[0]) then Some(0)
    else match FirstIndex(s[1..], p)
      case None => None
      case Some(i) => Some(i + 1)
  }

  /** The first element satisfying `p`, as `Array.prototype.find`. */
  function Find<T>(s: seq<T>, p: T -> bool): (r: Option<T>)
    ensures r.None? <==> forall j :: 0 <= j < |s| ==> !p(s[j])
    ensures r.Some? ==> r.value in s && p(r.value)
    ensures r.Some? <==> FirstIndex(s, p).Some?
    ensures r.Some? ==> r.value == s[FirstIndex(s, p).value]
  {
    match FirstIndex(s, p)
    case None => None
    case Some(i) => Some(s[i])
  }

  /** Appending an element moves no earlier match. */
  lemma FirstIndexAppend<T>(s: seq<T>, x: T, p: T -> bool)
    ensures FirstIndex(s + [x], p) ==
      if FirstIndex(s, p).Some? then FirstIndex(s, p)
      else if p(x) then Some(|s|)
      else None
  {
    var t := s + [x];
    assert forall j :: 0 <= j < |s| ==> t[j] == s[j];
    match FirstIndex(s, p)
    case Some(i) =>
      FirstIndexIsFirstMatch(t, p, i);
    case None =>
      if p(x) {
        FirstIndexIsFirstMatch(t, p, |s|);
      }
  }

  /** A match with no match before it is the first match. */
  lemma FirstIndexIsFirstMatch<T>(s: seq<T>, p: T -> bool, k: nat)
    requires k < |s| && p(s[k])
    requires forall j :: 0 <= j < k ==> !p(s[j])
    ensures FirstIndex(s, p) == Some(k)
  {
  }

  /** Only the pattern of matches decides the first match. */
  lemma FirstIndexSamePattern<T>(s: seq<T>, t: seq<T>, p: T -> bool)
    requires |s| == |t|
    requires forall k :: 0 <= k < |s| ==> p(s[k]) == p(t[k])
    ensures FirstIndex(s, p) == FirstIndex(t, p)
  {
  }

  /** The elements satisfying `p`, in order, as `Array.prototype.filter`. */
  function Filter<T>(s: seq<T>, p: T -> bool): (r: seq<T>)
    ensures |r| <= |s|
    ensures forall i :: 0 <= i < |r| ==> r[i] in s && p(r[i])
    ensures forall i :: 0 <= i < |s| && p(s[i]) ==> s[i] in r
    ensures |r| == |s| <==> forall i :: 0 <= i < |s| ==> p(s[i])
    ensures (forall i :: 0 <= i < |s| ==> p(s[i])) ==> r == s
  {
    if |s| == 0 then []
    else if p(s[0]) then [s[0]] + Filter(s[1..], p)
    else Filter(s[1..], p)
  }

  /** No element occurs twice. */
  predicate Distinct<T(==)>(s: seq<T>) {
    forall i, j :: 0 <= i < j < |s| ==> s[i] != s[j]
  }

  /** Filtering a list without repeats gives a list without repeats. */
  lemma {:induction false} FilterKeepsDistinct<T>(s: seq<T>, p: T -> bool)
    requires Distinct(s)
    ensures Distinct(Filter(s, p))
  {
    if |s| > 0 {
      assert Distinct(s[1..]);
      FilterKeepsDistinct(s[1..], p);
      if p(s[0]) {
        var r := Filter(s[1..], p);
        assert s[0] !in s[1..];
        assert Filter(s, p) == [s[0]] + r;
      }
    }
  }

  /** Filtering distributes over concatenation. */
  lemma {:induction false} FilterAppend<T>(a: seq<T>, b: seq<T>, p: T -> bool)
    ensures Filter(a + b, p) == Filter(a, p) + Filter(b, p)
  {
    if |a| > 0 {
      assert (a + b)[1..] == a[1..] + b;
      FilterAppend(a[1..], b, p);
    } else {
      assert a + b == b;
    }
  }

  /** Appending an element that the filter rejects, to a list it keeps whole,
      is undone by the filter: the shape of "add, then delete by key". */
  lemma FilterUndoesAppend<T>(s: seq<T>, x: T, p: T -> bool)
    requires forall i :: 0 <= i < |s| ==> p(s[i])
    requires !p(x)
    ensures Filter(s + [x], p) == s
  {
    FilterAppend(s, [x], p);
    assert Filter([x], p) == [];
  }

  /** Overwriting the first match with another matching value keeps it the
      first match: what is stored by "replace first by key" is what "find by
      key" returns next. */
  lemma {:induction false} ReplaceFirstThenFind<T>(s: seq<T>, x: T, p: T -> bool)
    requires FirstIndex(s, p).Some?
    requires p(x)
    ensures FirstIndex(s[FirstIndex(s, p).value := x], p) == FirstIndex(s, p)
    ensures Find(s[FirstIndex(s, p).value := x], p) == Some(x)
  {
    var i := FirstIndex(s, p).value;
    var t := s[i := x];
    if i == 0 {
    } else {
      assert t[1..] == s[1..][i - 1 := x];
      ReplaceFirstThenFind(s[1..], x, p);
    }
  }
}
