/**
 Looking for connections of other cars to the same access point at about the same time
 (`server_tools/analyzer/multi_carfi_LB.py`): a search that starts from where the last one ended
 instead of scanning the whole list, and the cumulative distribution of the counts.
 */
module Collision {
  import opened Sequences

  /** A connection: its start time and access point. */
  datatype Conn = Conn(time: real, bssid: string)

  ghost predicate Ordered(list: seq<Conn>) {
    forall i, j :: 0 <= i < j < |list| ==> list[i].time <= list[j].time
  }

  ghost predicate StrictlyOrdered(list: seq<Conn>) {
    forall i, j :: 0 <= i < j < |list| ==> list[i].time < list[j].time
  }

  /** Same access point, within the closed window around the target's start. */
  predicate Hit(target: Conn, c: Conn, range: real) {
    c.bssid == target.bssid && target.time - range <= c.time <= target.time + range
  }

  /** Where a search from `idx` looks: only forward from the window's lower end, only back from its upper end. */
  predicate Reached(target: Conn, list: seq<Conn>, idx: nat, range: real, k: nat)
    requires idx < |list|
  {
    (list[idx].time <= target.time - range ==> k >= idx) &&
    (list[idx].time > target.time - range && list[idx].time >= target.time + range ==> k <= idx)
  }

  ghost predicate Collides(target: Conn, list: seq<Conn>, range: real) {
    exists k :: 0 <= k < |list| && Hit(target, list[k], range)
  }

  /** Some hit is reached. */
  ghost predicate Finds(target: Conn, list: seq<Conn>, idx: nat, range: real)
    requires idx < |list|
  {
    exists k :: 0 <= k < |list| && Hit(target, list[k], range) && Reached(target, list, idx, range, k)
  }

  /** Cursor `c` is past everything from `idx` on that the window has not yet passed. */
  ghost predicate StopsAhead(target: Conn, list: seq<Conn>, idx: nat, range: real, c: int) {
    var l, h := target.time - range, target.time + range;
    idx <= c <= |list| && (forall k :: idx <= k < c ==> list[k].time < l || list[k].time <= h) &&
    (c < |list| ==> list[c].time >= l && list[c].time > h)
  }

  /** And the same going back. */
  ghost predicate StopsBehind(target: Conn, list: seq<Conn>, idx: nat, range: real, c: int)
    requires idx < |list|
  {
    var l, h := target.time - range, target.time + range;
    -1 <= c <= idx && (forall k :: c < k <= idx ==> list[k].time > h || list[k].time >= l) &&
    (c >= 0 ==> list[c].time <= h && list[c].time < l)
  }

  ghost predicate NoHit(target: Conn, list: seq<Conn>, from: int, to: int, range: real) {
    forall k :: 0 <= k < |list| && from <= k < to ==> !Hit(target, list[k], range)
  }

  /**
   Where a search leaves its cursor: at the hit nearest to where it began, back before forward, or
   past the window on the side where it looked last, kept within the list.
   */
  ghost predicate Leaves(target: Conn, list: seq<Conn>, idx: nat, range: real, found: bool, c: nat)
    requires idx < |list|
  {
    var l, h := target.time - range, target.time + range;
    c < |list| && (found ==> Hit(target, list[c], range)) &&
    if list[idx].time <= l then
      if found then c >= idx && NoHit(target, list, idx, c, range)
      else StopsAhead(target, list, idx, range, c) || (c == |list| - 1 && StopsAhead(target, list, idx, range, |list|))
    else if list[idx].time >= h then
      if found then c <= idx && NoHit(target, list, c + 1, idx + 1, range)
      else StopsBehind(target, list, idx, range, c) || (c == 0 && StopsBehind(target, list, idx, range, -1))
    else
      if found then
        (c <= idx && NoHit(target, list, c + 1, idx + 1, range)) ||
        (c > idx && NoHit(target, list, 0, idx + 1, range) && NoHit(target, list, idx, c, range))
      else StopsAhead(target, list, idx, range, c) || (c == |list| - 1 && StopsAhead(target, list, idx, range, |list|))
  }

  // ---- the loops ----

  /** Through the window, forward. */
  method ScanForward(target: Conn, list: seq<Conn>, from: nat, range: real) returns (found: bool, i: nat)
    requires Ordered(list) && from <= |list| && (from < |list| ==> list[from].time >= target.time - range)
    ensures from <= i <= |list| && (found ==> i < |list| && Hit(target, list[i], range))
    ensures NoHit(target, list, from, if found then i else |list|, range)
    ensures !found ==> (forall k :: from <= k < i ==> list[k].time <= target.time + range) &&
                       (i < |list| ==> list[i].time > target.time + range)
  {
    i := from;
    while i < |list| && list[i].time <= target.time + range
      invariant from <= i <= |list| && (i < |list| ==> list[i].time >= target.time - range)
      invariant forall k :: from <= k < i ==> !Hit(target, list[k], range) && list[k].time <= target.time + range
    {
      if target.bssid == list[i].bssid {
        return true, i;
      }
      i := i + 1;
    }
    return false, i;
  }

  /** Through the window, backward. */
  method ScanBack(target: Conn, list: seq<Conn>, from: int, range: real) returns (found: bool, i: int)
    requires Ordered(list) && -1 <= from < |list| && (from >= 0 ==> list[from].time <= target.time + range)
    ensures -1 <= i <= from && (found ==> i >= 0 && Hit(target, list[i], range))
    ensures NoHit(target, list, if found then i + 1 else 0, from + 1, range)
    ensures !found ==> (forall k :: i < k <= from ==> list[k].time >= target.time - range) &&
                       (i >= 0 ==> list[i].time < target.time - range)
  {
    i := from;
    while i >= 0 && list[i].time >= target.time - range
      invariant -1 <= i <= from && (i >= 0 ==> list[i].time <= target.time + range)
      invariant forall k :: i < k <= from ==> !Hit(target, list[k], range) && list[k].time >= target.time - range
    {
      if target.bssid == list[i].bssid {
        return true, i;
      }
      i := i - 1;
    }
    return false, i;
  }

  method SkipForward(target: Conn, list: seq<Conn>, from: nat, range: real) returns (i: nat)
    requires from < |list|
    ensures from <= i <= |list| && (i < |list| ==> list[i].time >= target.time - range)
    ensures forall k :: from <= k < i ==> list[k].time < target.time - range
  {
    i := from;
    while i < |list| && list[i].time < target.time - range
      invariant from <= i <= |list| && forall k :: from <= k < i ==> list[k].time < target.time - range
    {
      i := i + 1;
    }
  }

  method SkipBack(target: Conn, list: seq<Conn>, from: nat, range: real) returns (i: int)
    requires from < |list|
    ensures -1 <= i <= from && (i >= 0 ==> list[i].time <= target.time + range)
    ensures forall k :: i < k <= from ==> list[k].time > target.time + range
  {
    i := from;
    while i >= 0 && list[i].time > target.time + range
      invariant -1 <= i <= from && forall k :: i < k <= from ==> list[k].time > target.time + range
    {
      i := i - 1;
    }
  }

  /**
   `find_collision`: true exactly when some reached candidate is a hit, with a cursor at one;
   the cursor stays in range either way.
   */
  method FindCollision(target: Conn, list: seq<Conn>, idx: nat, range: real) returns (found: bool, cursor: nat)
    requires Ordered(list) && idx < |list|
    ensures Leaves(target, list, idx, range, found, cursor)
    ensures found <==> Finds(target, list, idx, range)
  {
    var i: int;
    if list[idx].time <= target.time - range {
      i := SkipForward(target, list, idx, range);
      found, i := ScanForward(target, list, i, range);
    } else if list[idx].time >= target.time + range {
      i := SkipBack(target, list, idx, range);
      found, i := ScanBack(target, list, i, range);
    } else {
      found, i := ScanBack(target, list, idx, range);
      if !found {
        found, i := ScanForward(target, list, idx, range);
      }
    }
    if !found && i == |list| {
      i := i - 1;
    }
    if !found && i == -1 {
      i := i + 1;
    }
    cursor := i;
  }

  // ---- when the search misses nothing ----

  /** A candidate strictly inside the window is always reached. */
  lemma {:induction false} InsideIsReached(target: Conn, list: seq<Conn>, idx: nat, range: real, k: nat)
    requires Ordered(list) && idx < |list| && k < |list|
    requires target.time - range < list[k].time < target.time + range
    ensures Reached(target, list, idx, range, k)
  {
  }

  /** Level with the cursor on an end of the window, on the side away from it. */
  predicate Level(target: Conn, list: seq<Conn>, idx: nat, range: real, k: nat)
    requires idx < |list| && k < |list|
  {
    list[k].time == list[idx].time &&
    ((k < idx && list[k].time == target.time - range) ||
     (k > idx && list[k].time == target.time + range && list[k].time > target.time - range))
  }

  /** What is not reached in the window is level with the cursor. */
  lemma {:induction false} MissedIff(target: Conn, list: seq<Conn>, idx: nat, range: real, k: nat)
    requires Ordered(list) && idx < |list| && k < |list| && Hit(target, list[k], range)
    ensures !Reached(target, list, idx, range, k) <==> Level(target, list, idx, range, k)
  {
  }

  /** There are hits, and all of them are level with the cursor. */
  ghost predicate Hides(target: Conn, list: seq<Conn>, idx: nat, range: real)
    requires idx < |list|
  {
    Collides(target, list, range) &&
    forall k :: 0 <= k < |list| && Hit(target, list[k], range) ==> Level(target, list, idx, range, k)
  }

  /** The search is the full scan exactly when the ties at its cursor do not hide all hits. */
  lemma {:induction false} SearchIff(target: Conn, list: seq<Conn>, idx: nat, range: real)
    requires Ordered(list) && idx < |list|
    ensures Finds(target, list, idx, range) ==> Collides(target, list, range)
    ensures (Finds(target, list, idx, range) <==> Collides(target, list, range)) <==> !Hides(target, list, idx, range)
  {
    forall k | 0 <= k < |list| && Hit(target, list[k], range)
      ensures Reached(target, list, idx, range, k) <==> !Level(target, list, idx, range, k)
    {
      MissedIff(target, list, idx, range, k);
    }
  }

  /** In a list without equal times the search is the full scan, whatever the cursor. */
  lemma {:induction false} StrictReachesAll(target: Conn, list: seq<Conn>, idx: nat, range: real)
    requires StrictlyOrdered(list) && idx < |list|
    ensures Finds(target, list, idx, range) <==> Collides(target, list, range)
    ensures !Hides(target, list, idx, range)
  {
    SearchIff(target, list, idx, range);
    if Collides(target, list, range) {
      var k :| 0 <= k < |list| && Hit(target, list[k], range);
      assert !Level(target, list, idx, range, k);
    }
  }

  /** With equal times it may miss a collision on the end of the window. */
  lemma {:induction false} MissesTie(target: Conn, other: string)
    requires other != target.bssid
    ensures var list := [Conn(target.time - 10.0, target.bssid), Conn(target.time - 10.0, other)];
            Ordered(list) && Collides(target, list, 10.0) && !Finds(target, list, 1, 10.0)
  {
    var list := [Conn(target.time - 10.0, target.bssid), Conn(target.time - 10.0, other)];
    assert Hit(target, list[0], 10.0);
  }

  // ---- all targets against all lists ----

  /** How many of the first `n` lists hold a collision. */
  ghost function Collisions(target: Conn, lists: seq<seq<Conn>>, range: real, n: nat): nat
    requires n <= |lists|
  {
    if n == 0 then 0
    else Collisions(target, lists, range, n - 1) + if Collides(target, lists[n - 1], range) then 1 else 0
  }

  /** Which of the first `n` lists hold a collision. */
  ghost function Colliding(target: Conn, lists: seq<seq<Conn>>, range: real, n: nat): set<nat>
    requires n <= |lists|
  {
    set k: nat | k < n && Collides(target, lists[k], range)
  }

  lemma {:induction false} CollisionsAre(target: Conn, lists: seq<seq<Conn>>, range: real, n: nat)
    requires n <= |lists|
    ensures Collisions(target, lists, range, n) == |Colliding(target, lists, range, n)|
  {
    if n == 0 {
      assert Colliding(target, lists, range, n) == {};
    } else {
      CollisionsAre(target, lists, range, n - 1);
      assert Colliding(target, lists, range, n) ==
             Colliding(target, lists, range, n - 1) + if Collides(target, lists[n - 1], range) then {n - 1} else {};
    }
  }

  ghost predicate AllOrdered(lists: seq<seq<Conn>>) {
    forall k :: 0 <= k < |lists| ==> Ordered(lists[k])
  }

  /** The cursors of the first `n` lists point into them. */
  predicate InRange(lists: seq<seq<Conn>>, cursors: seq<nat>, n: nat) {
    |cursors| == |lists| && n <= |lists| && forall k :: 0 <= k < n ==> cursors[k] < |lists[k]|
  }

  /** In how many of the first `n` lists a search from its cursor finds a collision. */
  ghost function Found(target: Conn, lists: seq<seq<Conn>>, cursors: seq<nat>, range: real, n: nat): nat
    requires InRange(lists, cursors, n)
  {
    if n == 0 then 0
    else Found(target, lists, cursors, range, n - 1) + if Finds(target, lists[n - 1], cursors[n - 1], range) then 1 else 0
  }

  /** The count is never too high, and exact exactly when no list hides its collisions from its cursor. */
  lemma {:induction false} FoundIff(target: Conn, lists: seq<seq<Conn>>, cursors: seq<nat>, range: real, n: nat)
    requires AllOrdered(lists) && InRange(lists, cursors, n)
    ensures Found(target, lists, cursors, range, n) <= Collisions(target, lists, range, n)
    ensures Found(target, lists, cursors, range, n) == Collisions(target, lists, range, n) <==>
            forall k :: 0 <= k < n ==> !Hides(target, lists[k], cursors[k], range)
  {
    if n > 0 {
      FoundIff(target, lists, cursors, range, n - 1);
      SearchIff(target, lists[n - 1], cursors[n - 1], range);
    }
  }

  /** The cursors that the searches of one target leave in the first `n` lists. */
  ghost predicate AllLeave(target: Conn, lists: seq<seq<Conn>>, before: seq<nat>, range: real, after: seq<nat>, n: nat)
  {
    InRange(lists, before, n) && |after| == |lists| && forall k :: 0 <= k < n ==>
      Leaves(target, lists[k], before[k], range, Finds(target, lists[k], before[k], range), after[k])
  }

  /** One target against every list; a cursor into an empty list is out of range. */
  method CountOne(target: Conn, lists: seq<seq<Conn>>, cursors: seq<nat>, range: real)
    returns (count: Outcome<nat>, after: seq<nat>)
    requires AllOrdered(lists) && |cursors| == |lists|
    requires forall k :: 0 <= k < |lists| && lists[k] != [] ==> cursors[k] < |lists[k]|
    ensures count.Raised? <==> [] in lists
    ensures count.Done? ==> InRange(lists, after, |lists|) && InRange(lists, cursors, |lists|) &&
                            count.value == Found(target, lists, cursors, range, |lists|) &&
                            AllLeave(target, lists, cursors, range, after, |lists|)
  {
    var n: nat, k := 0, 0;
    after := cursors;
    while k < |lists|
      invariant InRange(lists, cursors, k) && InRange(lists, after, k) && n == Found(target, lists, cursors, range, k)
      invariant forall j :: k <= j < |lists| ==> after[j] == cursors[j]
      invariant AllLeave(target, lists, cursors, range, after, k)
    {
      if lists[k] == [] {
        return Raised(IndexError), after;
      }
      var found, cursor := FindCollision(target, lists[k], after[k], range);
      after := after[k := cursor];
      if found {
        n := n + 1;
      }
      k := k + 1;
    }
    count := Done(n);
  }

  /** Target by target, the counts, and the cursors before each search and after the last. */
  ghost predicate Traced(targets: seq<Conn>, lists: seq<seq<Conn>>, range: real, counts: seq<nat>, trail: seq<seq<nat>>) {
    |counts| <= |targets| && |trail| == |counts| + 1 && trail[0] == seq(|lists|, _ => 0) &&
    forall i :: 0 <= i < |counts| ==>
      AllLeave(targets[i], lists, trail[i], range, trail[i + 1], |lists|) &&
      counts[i] == Found(targets[i], lists, trail[i], range, |lists|)
  }

  lemma {:induction false} TracedNext(targets: seq<Conn>, lists: seq<seq<Conn>>, range: real, counts: seq<nat>,
                                      trail: seq<seq<nat>>, count: nat, after: seq<nat>)
    requires Traced(targets, lists, range, counts, trail) && |counts| < |targets|
    requires AllLeave(targets[|counts|], lists, trail[|counts|], range, after, |lists|)
    requires count == Found(targets[|counts|], lists, trail[|counts|], range, |lists|)
    ensures Traced(targets, lists, range, counts + [count], trail + [after])
  {
    var n := |counts|;
    assert forall i :: 0 <= i <= n ==> (trail + [after])[i] == trail[i];
    assert forall i :: 0 <= i < n ==> (counts + [count])[i] == counts[i];
  }

  /**
   The loop of `cmp_carfis`: an empty list ends it at the first target; otherwise every count is what
   searches from the cursors that the targets before left find, the first ones from the start.
   */
  method CompareCars(targets: seq<Conn>, lists: seq<seq<Conn>>, range: real)
    returns (counts: Outcome<seq<nat>>, ghost trail: seq<seq<nat>>)
    requires AllOrdered(lists)
    ensures counts.Raised? <==> targets != [] && [] in lists
    ensures counts.Done? ==> |counts.value| == |targets| && Traced(targets, lists, range, counts.value, trail)
  {
    var cursors: seq<nat> := seq(|lists|, _ => 0);
    var all: seq<nat>, i := [], 0;
    trail := [cursors];
    while i < |targets|
      invariant 0 <= i <= |targets| && |all| == i && |cursors| == |lists| && (i > 0 ==> [] !in lists)
      invariant forall k :: 0 <= k < |lists| && lists[k] != [] ==> cursors[k] < |lists[k]|
      invariant Traced(targets, lists, range, all, trail) && trail[i] == cursors
    {
      var count, after := CountOne(targets[i], lists, cursors, range);
      if count.Raised? {
        return Raised(count.error), trail;
      }
      TracedNext(targets, lists, range, all, trail, count.value, after);
      trail := trail + [after];
      all := all + [count.value];
      cursors := after;
      i := i + 1;
    }
    counts := Done(all);
  }

  /** Lists without equal times: the counts do not depend on the cursors. */
  lemma {:induction false} StrictFindsAll(target: Conn, lists: seq<seq<Conn>>, cursors: seq<nat>, range: real)
    requires (forall k :: 0 <= k < |lists| ==> StrictlyOrdered(lists[k])) && InRange(lists, cursors, |lists|)
    ensures Found(target, lists, cursors, range, |lists|) == Collisions(target, lists, range, |lists|)
  {
    assert AllOrdered(lists) by {
      forall k | 0 <= k < |lists| ensures Ordered(lists[k]) { assert StrictlyOrdered(lists[k]); }
    }
    FoundIff(target, lists, cursors, range, |lists|);
    forall k | 0 <= k < |lists| ensures !Hides(target, lists[k], cursors[k], range) {
      StrictReachesAll(target, lists[k], cursors[k], range);
    }
  }

  // ---- the cumulative distribution ----

  function CountUpTo(arr: seq<int>, v: int): nat {
    if arr == [] then 0 else CountUpTo(arr[..|arr| - 1], v) + if arr[|arr| - 1] <= v then 1 else 0
  }

  ghost predicate SortedInts(arr: seq<int>) {
    forall i, j :: 0 <= i < j < |arr| ==> arr[i] <= arr[j]
  }

  ghost predicate Rising(x: seq<int>) {
    forall i, j :: 0 <= i < j < |x| ==> x[i] < x[j]
  }

  function Sum(counts: seq<nat>): nat {
    if counts == [] then 0 else Sum(counts[..|counts| - 1]) + counts[|counts| - 1]
  }

  lemma {:induction false} CountAll(arr: seq<int>, v: int)
    requires forall i :: 0 <= i < |arr| ==> arr[i] <= v
    ensures CountUpTo(arr, v) == |arr|
  {
    if arr != [] {
      CountAll(arr[..|arr| - 1], v);
    }
  }

  lemma {:induction false} CountSplits(a: seq<int>, b: seq<int>, v: int)
    ensures CountUpTo(a + b, v) == CountUpTo(a, v) + CountUpTo(b, v)
  {
    if b == [] {
      assert a + b == a;
    } else {
      assert (a + b)[..|a + b| - 1] == a + b[..|b| - 1];
      CountSplits(a, b[..|b| - 1], v);
    }
  }

  lemma {:induction false} CountWithout(b: seq<int>, k: nat, v: int)
    requires k < |b|
    ensures CountUpTo(b, v) == CountUpTo(Cut(b, k), v) + if b[k] <= v then 1 else 0
    ensures multiset(b) == multiset(Cut(b, k)) + multiset{b[k]}
  {
    assert b == b[..k] + [b[k]] + b[k + 1..];
    CountSplits(b[..k] + [b[k]], b[k + 1..], v);
    CountSplits(b[..k], [b[k]], v);
    CountSplits(b[..k], b[k + 1..], v);
    assert [b[k]][..0] == [];
  }

  /** Counting does not depend on the order. */
  lemma {:induction false} CountPermuted(a: seq<int>, b: seq<int>, v: int)
    requires multiset(a) == multiset(b)
    ensures CountUpTo(a, v) == CountUpTo(b, v)
  {
    if a == [] {
      assert |multiset(b)| == |b|;
    } else {
      var front, last := a[..|a| - 1], a[|a| - 1];
      assert a == front + [last];
      assert last in multiset(b);
      var k :| 0 <= k < |b| && b[k] == last;
      CountWithout(b, k, v);
      assert multiset(front) == multiset(a) - multiset{last};
      CountPermuted(front, Cut(b, k), v);
    }
  }

  /** Distinct values so far, and how often each occurred. */
  ghost predicate Grouped(seen: seq<int>, x: seq<int>, counts: seq<nat>) {
    |x| == |counts| && Rising(x) && Sum(counts) == |seen| && (forall v :: v in x <==> v in seen) &&
    forall k :: 0 <= k < |x| ==> Sum(counts[..k + 1]) == CountUpTo(seen, x[k])
  }

  lemma {:induction false} SumNext(counts: seq<nat>, c: nat)
    ensures Sum(counts + [c]) == Sum(counts) + c
  {
    assert (counts + [c])[..|counts|] == counts;
  }

  lemma {:induction false} CountNext(seen: seq<int>, elem: int, v: int)
    ensures CountUpTo(seen + [elem], v) == CountUpTo(seen, v) + if elem <= v then 1 else 0
  {
    assert (seen + [elem])[..|seen|] == seen;
  }

  /** One more in the last count. */
  lemma {:induction false} SumLast(counts: seq<nat>, k: nat)
    requires k <= |counts| && counts != []
    ensures var n := |counts| - 1;
            Sum(counts[n := counts[n] + 1][..k]) == Sum(counts[..k]) + if k == |counts| then 1 else 0
  {
    var n := |counts| - 1;
    var after := counts[n := counts[n] + 1];
    if k == |counts| {
      assert after[..k] == counts[..n] + [counts[n] + 1] && counts[..k] == counts[..n] + [counts[n]];
      SumNext(counts[..n], counts[n] + 1);
      SumNext(counts[..n], counts[n]);
    } else {
      assert after[..k] == counts[..k];
    }
  }

  lemma {:induction false} GroupAgain(seen: seq<int>, x: seq<int>, counts: seq<nat>, elem: int)
    requires Grouped(seen, x, counts) && x != [] && elem == x[|x| - 1]
    ensures Grouped(seen + [elem], x, counts[|counts| - 1 := counts[|counts| - 1] + 1])
  {
    var after := counts[|counts| - 1 := counts[|counts| - 1] + 1];
    forall k | 0 <= k < |x| ensures Sum(after[..k + 1]) == CountUpTo(seen + [elem], x[k]) {
      SumLast(counts, k + 1);
      CountNext(seen, elem, x[k]);
    }
    SumLast(counts, |counts|);
    assert after[..|counts|] == after && counts[..|counts|] == counts;
    assert elem in seen;
  }

  lemma {:induction false} GroupNew(seen: seq<int>, x: seq<int>, counts: seq<nat>, elem: int)
    requires Grouped(seen, x, counts) && (forall v :: v in seen ==> v < elem)
    ensures Grouped(seen + [elem], x + [elem], counts + [1])
  {
    var more, xs, after := seen + [elem], x + [elem], counts + [1];
    SumNext(counts, 1);
    forall k | 0 <= k < |xs| ensures Sum(after[..k + 1]) == CountUpTo(more, xs[k]) {
      if k < |x| {
        assert after[..k + 1] == counts[..k + 1];
        assert x[k] in seen;
        CountNext(seen, elem, x[k]);
      } else {
        assert after[..k + 1] == after;
        forall i | 0 <= i < |more| ensures more[i] <= elem { assert i < |seen| ==> seen[i] in seen; }
        CountAll(more, elem);
      }
    }
    forall k | 0 <= k < |x| ensures x[k] < elem { assert x[k] in seen; }
  }

  /** The loop that counts equal neighbours of the sorted list. */
  method Group(arr: seq<int>) returns (x: seq<int>, counts: seq<nat>)
    requires SortedInts(arr)
    ensures Grouped(arr, x, counts)
  {
    x, counts := [], [];
    var i := 0;
    while i < |arr|
      invariant 0 <= i <= |arr| && Grouped(arr[..i], x, counts)
    {
      var elem := arr[i];
      assert arr[..i] + [elem] == arr[..i + 1];
      if |counts| != 0 && elem == x[|x| - 1] {
        GroupAgain(arr[..i], x, counts, elem);
        counts := counts[|counts| - 1 := counts[|counts| - 1] + 1];
      } else {
        NewIsLarger(arr, i, x);
        GroupNew(arr[..i], x, counts, elem);
        counts := counts + [1];
        x := x + [elem];
      }
      i := i + 1;
    }
    assert arr[..i] == arr;
  }

  lemma {:induction false} NewIsLarger(arr: seq<int>, i: nat, x: seq<int>)
    requires SortedInts(arr) && i < |arr| && Rising(x) && (forall v :: v in x <==> v in arr[..i])
    requires x == [] || arr[i] != x[|x| - 1]
    ensures forall v :: v in arr[..i] ==> v < arr[i]
  {
    forall v | v in arr[..i] ensures v < arr[i] {
      assert v in x;
      var k :| 0 <= k < |x| && x[k] == v;
      var last := x[|x| - 1];
      assert last in arr[..i];
      assert v <= last;
    }
  }

  /**
   `__get_cdf` of a list that `sorted` ordered: the distinct values in increasing order, and for
   each the fraction of the list that is at most it.
   */
  method GetCdf(arr: seq<int>, ordered: seq<int>) returns (x: seq<int>, y: seq<real>)
    requires SortedInts(ordered) && multiset(ordered) == multiset(arr)
    ensures Rising(x) && |y| == |x| && forall v :: v in x <==> v in ordered
    ensures forall k :: 0 <= k < |x| ==> |arr| > 0 && y[k] == CountUpTo(arr, x[k]) as real / |arr| as real
  {
    var counts: seq<nat>;
    x, counts := Group(ordered);
    ghost var each := counts;
    assert |ordered| == |arr| by { assert |multiset(ordered)| == |multiset(arr)|; }
    y := [];
    var i := 0;
    while i < |counts|
      invariant 0 <= i <= |counts| == |each| && |y| == i && counts[i..] == each[i..]
      invariant i > 0 ==> counts[i - 1] == Sum(each[..i])
      invariant forall k :: 0 <= k < i ==> |arr| > 0 && y[k] == CountUpTo(arr, x[k]) as real / |arr| as real
    {
      assert counts[i] == each[i] && each[..i + 1] == each[..i] + [each[i]];
      SumNext(each[..i], each[i]);
      if i != 0 {
        counts := counts[i := counts[i] + counts[i - 1]];
      }
      assert x[i] in ordered;
      CountPermuted(ordered, arr, x[i]);
      y := y + [counts[i] as real / |ordered| as real];
      i := i + 1;
    }
  }
}
