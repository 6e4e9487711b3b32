/**
 Streaks of the routine leaderboard. The fold over date-sorted check-ins is proved against a declarative notion:
 a block is a stretch of resolved check-ins that all continue the streak, with calendar gaps of at most one day.
*/
module Streaks {
  import opened Prelude

  datatype ItemStatus = Done | Partial | Failed

  datatype Checkin = Checkin(id: int, date: int, items: seq<Option<ItemStatus>>)

  predicate Kept(item: Option<ItemStatus>) {
    item.Some? && item.value != Failed
  }

  /** The item that ends the scan: the first one that is open or failed. */
  ghost predicate StopsAt(items: seq<Option<ItemStatus>>, i: int) {
    && 0 <= i < |items| && !Kept(items[i])
    && forall j :: 0 <= j < i ==> Kept(items[j])
  }

  ghost predicate Continues(items: seq<Option<ItemStatus>>) {
    items != [] && forall i :: 0 <= i < |items| ==> Kept(items[i])
  }

  ghost predicate Resolved(items: seq<Option<ItemStatus>>) {
    Continues(items) || exists i :: StopsAt(items, i) && items[i] == Some(Failed)
  }

  method StreakState(items: seq<Option<ItemStatus>>) returns (resolved: bool, continues: bool)
    ensures resolved <==> Resolved(items)
    ensures continues <==> Continues(items)
  {
    if |items| == 0 {
      return false, false;
    }
    for i := 0 to |items|
      invariant forall j :: 0 <= j < i ==> Kept(items[j])
    {
      match items[i] {
        case None =>
          assert StopsAt(items, i);
          return false, false;
        case Some(Failed) =>
          assert StopsAt(items, i);
          return true, false;
        case Some(_) =>
      }
    }
    return true, true;
  }

  /**
   The product contract calls every open check-in neutral. The scan agrees exactly when no item in front of the
   first open one has failed; otherwise the check-in already counts, and breaks the streak.
  */
  lemma OpenCheckinIsNeutral(items: seq<Option<ItemStatus>>, first: int)
    requires 0 <= first < |items| && items[first].None? && forall j :: 0 <= j < first ==> items[j].Some?
    ensures !Resolved(items) <==> forall j :: 0 <= j < first ==> items[j] != Some(Failed)
    ensures !Continues(items)
  {
    if j :| 0 <= j < first && items[j] == Some(Failed) {
      LeastStop(items, j);
      var i :| i <= j && StopsAt(items, i);
    } else {
      assert StopsAt(items, first);
      assert forall i :: StopsAt(items, i) ==> i == first;
    }
  }

  lemma {:induction false} LeastStop(items: seq<Option<ItemStatus>>, j: int)
    requires 0 <= j < |items| && !Kept(items[j])
    ensures exists i :: i <= j && StopsAt(items, i)
    decreases j
  {
    if k :| 0 <= k < j && !Kept(items[k]) {
      LeastStop(items, k);
    } else {
      assert StopsAt(items, j);
    }
  }

  // ----- Blocks -----

  /** The resolved check-ins in order. */
  ghost function ResolvedOf(s: seq<Checkin>): seq<Checkin> {
    if s == [] then []
    else
      var last := s[|s| - 1];
      ResolvedOf(s[..|s| - 1]) + (if Resolved(last.items) then [last] else [])
  }

  ghost predicate Block(r: seq<Checkin>, i: int, j: int) {
    && 0 <= i <= j <= |r|
    && (forall k :: i <= k < j ==> Continues(r[k].items))
    && (forall k :: i < k < j ==> r[k].date - r[k - 1].date <= 1)
  }

  /** n is the length of the longest block that reaches the end. */
  ghost predicate CurrentStreak(r: seq<Checkin>, n: int) {
    && Block(r, |r| - n, |r|)
    && forall i :: 0 <= i < |r| - n ==> !Block(r, i, |r|)
  }

  /** n is the length of the longest block anywhere. */
  ghost predicate MaxStreak(r: seq<Checkin>, n: int) {
    && (exists i, j :: Block(r, i, j) && j - i == n)
    && forall i, j :: Block(r, i, j) ==> j - i <= n
  }

  lemma BlockEndsBeforeLast(r: seq<Checkin>, c: Checkin, i: int, j: int)
    requires j <= |r|
    ensures Block(r + [c], i, j) <==> Block(r, i, j)
  {
    if 0 <= i <= j {
      assert forall k :: 0 <= k < |r| ==> (r + [c])[k] == r[k];
    }
  }

  /** A non-empty block up to a new last check-in is a block up to the old end, if the gap allows it. */
  lemma BlockReachesLast(r: seq<Checkin>, c: Checkin, i: int)
    requires 0 <= i < |r|
    ensures Block(r + [c], i, |r| + 1) <==> Block(r, i, |r|) && Continues(c.items) && c.date - r[|r| - 1].date <= 1
  {
    var s := r + [c];
    assert forall k :: 0 <= k < |r| ==> s[k] == r[k];
    assert s[|r|] == c;
  }

  lemma CurrentStep(r: seq<Checkin>, c: Checkin, n: int, m: int)
    requires CurrentStreak(r, n)
    requires m == if !Continues(c.items) then 0
                  else if r != [] && c.date - r[|r| - 1].date > 1 then 1 else n + 1
    ensures CurrentStreak(r + [c], m)
  {
    var s := r + [c];
    assert s[|r|] == c;
    forall i | 0 <= i < |r| ensures Block(s, i, |s|) <==> Block(r, i, |r|) && Continues(c.items) && c.date - r[|r| - 1].date <= 1 {
      BlockReachesLast(r, c, i);
    }
    if r != [] && m == n + 1 && n == 0 {
      assert Block(r, |r|, |r|);
    }
  }

  lemma MaxStep(r: seq<Checkin>, c: Checkin, max: int, m: int)
    requires MaxStreak(r, max) && CurrentStreak(r + [c], m)
    ensures MaxStreak(r + [c], if m > max then m else max)
  {
    var s := r + [c];
    forall i, j | Block(s, i, j) ensures j - i <= Max(m, max) {
      if j <= |r| {
        BlockEndsBeforeLast(r, c, i, j);
      } else {
        assert !(0 <= i < |s| - m);
      }
    }
    if m > max {
      assert Block(s, |s| - m, |s|);
    } else {
      var i, j :| Block(r, i, j) && j - i == max;
      BlockEndsBeforeLast(r, c, i, j);
    }
  }

  // ----- The fold -----

  ghost predicate SortedByDate(s: seq<Checkin>) {
    forall i, j :: 0 <= i < j < |s| ==> s[i].date <= s[j].date
  }

  method Swap(a: array<Checkin>, j: int)
    requires 0 < j < a.Length
    modifies a
    ensures a[j] == old(a[j - 1]) && a[j - 1] == old(a[j])
    ensures forall k :: 0 <= k < a.Length && k != j && k != j - 1 ==> a[k] == old(a[k])
    ensures multiset(a[..]) == multiset(old(a[..]))
  {
    a[j], a[j - 1] := a[j - 1], a[j];
  }

  ghost predicate SortedUpTo(a: array<Checkin>, n: int)
    requires 0 <= n <= a.Length
    reads a
  {
    forall i, j :: 0 <= i < j < n ==> a[i].date <= a[j].date
  }

  /** Moves the element at i down to its place among the sorted elements in front of it. */
  method Sink(a: array<Checkin>, i: int)
    requires 0 <= i < a.Length && SortedUpTo(a, i)
    modifies a
    ensures SortedUpTo(a, i + 1) && multiset(a[..]) == multiset(old(a[..]))
  {
    var j := i;
    while j > 0 && a[j].date < a[j - 1].date
      invariant 0 <= j <= i
      invariant forall p, q :: 0 <= p < q <= i && q != j ==> a[p].date <= a[q].date
      invariant multiset(a[..]) == multiset(old(a[..]))
    {
      Swap(a, j);
      j := j - 1;
    }
  }

  /** Stands for the library sort: any date-sorted permutation in place. */
  method SortByDate(a: array<Checkin>)
    modifies a
    ensures SortedByDate(a[..]) && multiset(a[..]) == multiset(old(a[..]))
  {
    for i := 0 to a.Length
      invariant SortedUpTo(a, i)
      invariant multiset(a[..]) == multiset(old(a[..]))
    {
      Sink(a, i);
    }
  }

  lemma ResolvedExtends(s: seq<Checkin>, i: int)
    requires 0 <= i < |s|
    ensures ResolvedOf(s[..i + 1]) == ResolvedOf(s[..i]) + (if Resolved(s[i].items) then [s[i]] else [])
  {
    assert s[..i + 1][..i] == s[..i];
  }

  method FoldStreaks(sorted: seq<Checkin>) returns (current: nat, max: nat)
    ensures CurrentStreak(ResolvedOf(sorted), current)
    ensures MaxStreak(ResolvedOf(sorted), max)
  {
    current, max := 0, 0;
    var previous: Option<int> := None;
    assert Block([], 0, 0);
    ghost var r := [];
    for i := 0 to |sorted|
      invariant r == ResolvedOf(sorted[..i])
      invariant CurrentStreak(r, current) && MaxStreak(r, max)
      invariant previous == if r == [] then None else Some(r[|r| - 1].date)
    {
      var checkin := sorted[i];
      ResolvedExtends(sorted, i);
      var resolved, continues := StreakState(checkin.items);
      if resolved {
        ghost var before := current;
        if previous.Some? && checkin.date - previous.value > 1 {
          current := 0;
        }
        if continues {
          current := current + 1;
        } else {
          current := 0;
        }
        CurrentStep(r, checkin, before, current);
        MaxStep(r, checkin, max, current);
        if current > max {
          max := current;
        }
        previous := Some(checkin.date);
        r := r + [checkin];
      }
    }
    assert sorted[..|sorted|] == sorted;
  }

  /**
   Sorts the check-ins and folds them. The result is the longest block reaching the latest resolved check-in and
   the longest block anywhere; open check-ins contribute nothing, and the check-ins themselves are only reordered.
  */
  method RoutineStreaks(checkins: array<Checkin>) returns (current: nat, max: nat)
    modifies checkins
    ensures SortedByDate(checkins[..]) && multiset(checkins[..]) == multiset(old(checkins[..]))
    ensures CurrentStreak(ResolvedOf(checkins[..]), current)
    ensures MaxStreak(ResolvedOf(checkins[..]), max)
  {
    SortByDate(checkins);
    current, max := FoldStreaks(checkins[..]);
  }

  /** The two streaks are determined by the resolved check-ins, and the current one never exceeds the longest. */
  lemma StreaksAreUnique(r: seq<Checkin>, c1: int, c2: int, m1: int, m2: int)
    requires CurrentStreak(r, c1) && CurrentStreak(r, c2) && MaxStreak(r, m1) && MaxStreak(r, m2)
    ensures c1 == c2 && m1 == m2 && c1 <= m1
  {
    var i, j :| Block(r, i, j) && j - i == m1;
    var k, l :| Block(r, k, l) && l - k == m2;
  }
}
