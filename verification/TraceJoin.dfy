/**
 The linking loop of `server_tools/analyzer/parser.py` for one interface: associations are
 walked once, and four cursors move forward through the time-sorted lists of link samples,
 GPS points, DHCP records and TCP tests. It is proved to give each association what a fresh
 scan of the whole lists would.
 */
module TraceJoin {
  import opened Sequences

  datatype Stamped<T> = Stamped(time: real, data: T)

  /** The two fields of an association that drive the join. */
  datatype Assoc = Assoc(connS: Option<real>, connE: Option<real>)

  /** What the loop adds to an association; `speed` is in km/h. */
  datatype Joined<L, T> = Joined(
    signals: seq<real>, distance: Option<real>, speed: Option<real>,
    l3: Option<Stamped<L>>, tcp: Option<Stamped<T>>)

  datatype Cursors = Cursors(link: nat, gps: nat, l3: nat, tcp: nat)

  datatype Traces<!P, L, T> = Traces(
    link: seq<Stamped<real>>, gps: seq<Stamped<P>>, l3: seq<Stamped<L>>, tcp: seq<Stamped<T>>,
    dist: (P, P) -> real)

  // ---- the cursors ----

  /** First index from `i` on with a time not before `s`. */
  function Skip<T>(xs: seq<Stamped<T>>, i: nat, s: real): (r: nat)
    requires i <= |xs|
    ensures i <= r <= |xs|
    decreases |xs| - i
  {
    if i < |xs| && xs[i].time < s then Skip(xs, i + 1, s) else i
  }

  lemma {:induction false} SkipFinds<T>(xs: seq<Stamped<T>>, i: nat, s: real)
    requires i <= |xs|
    ensures var r := Skip(xs, i, s);
            (forall k :: i <= k < r ==> xs[k].time < s) && (r < |xs| ==> xs[r].time >= s)
    decreases |xs| - i
  {
    if i < |xs| && xs[i].time < s {
      SkipFinds(xs, i + 1, s);
    }
  }

  /** First index from `i` on with a time after `e`. */
  function Past<T>(xs: seq<Stamped<T>>, i: nat, e: real): (r: nat)
    requires i <= |xs|
    ensures i <= r <= |xs|
    decreases |xs| - i
  {
    if i < |xs| && xs[i].time <= e then Past(xs, i + 1, e) else i
  }

  lemma {:induction false} PastFinds<T>(xs: seq<Stamped<T>>, i: nat, e: real)
    requires i <= |xs|
    ensures var r := Past(xs, i, e);
            (forall k :: i <= k < r ==> xs[k].time <= e) && (r < |xs| ==> xs[r].time > e)
    decreases |xs| - i
  {
    if i < |xs| && xs[i].time <= e {
      PastFinds(xs, i + 1, e);
    }
  }

  function Datas<T>(xs: seq<Stamped<T>>): (r: seq<T>)
    ensures |r| == |xs| && forall i :: 0 <= i < |xs| ==> r[i] == xs[i].data
  {
    if xs == [] then [] else Datas(xs[..|xs| - 1]) + [xs[|xs| - 1].data]
  }

  /** Sum of the distances between consecutive points. */
  function PathLength<P>(points: seq<Stamped<P>>, dist: (P, P) -> real): real {
    if |points| < 2 then 0.0
    else PathLength(points[..|points| - 1], dist) + dist(points[|points| - 1].data, points[|points| - 2].data)
  }

  function Distance<P>(points: seq<Stamped<P>>, dist: (P, P) -> real): Option<real> {
    if |points| < 2 then None else Some(PathLength(points, dist))
  }

  /**
   Nothing happens for an unfinished association; otherwise all four cursors move. A comparison with
   an absent start, or a zero-length window with a distance, ends the whole parse.
   */
  function JoinOne<P, L, T>(x: Traces<P, L, T>, c: Cursors, a: Assoc): (r: Outcome<(Joined<L, T>, Cursors)>)
    requires c.link <= |x.link| && c.gps <= |x.gps| && c.l3 <= |x.l3| && c.tcp <= |x.tcp|
    ensures r.Done? ==> r.value.1.link <= |x.link| && r.value.1.gps <= |x.gps| &&
                        r.value.1.l3 <= |x.l3| && r.value.1.tcp <= |x.tcp|
  {
    if a.connE.None? then Done((Joined([], None, None, None, None), c))
    else if a.connS.None? then
      if c == Cursors(|x.link|, |x.gps|, |x.l3|, |x.tcp|) then Done((Joined([], None, None, None, None), c))
      else Raised(TypeError)
    else
      var s, e := a.connS.value, a.connE.value;
      var la := Skip(x.link, c.link, s);
      var lb := Past(x.link, la, e);
      var ga := Skip(x.gps, c.gps, s);
      var gb := Past(x.gps, ga, e);
      var d := Distance(x.gps[ga..gb], x.dist);
      if d.Some? && e == s then Raised(ZeroDivisionError)
      else
        var speed := if d.None? then None else Some(d.value / ((e - s) / 3600.0));
        var da := Skip(x.l3, c.l3, s);
        var hasL3 := da < |x.l3| && x.l3[da].time <= e;
        var ta := Skip(x.tcp, c.tcp, s);
        var hasTcp := ta < |x.tcp| && x.tcp[ta].time <= e;
        Done((Joined(Datas(x.link[la..lb]), d, speed,
                     if hasL3 then Some(x.l3[da]) else None, if hasTcp then Some(x.tcp[ta]) else None),
              Cursors(lb, gb, if hasL3 then da + 1 else da, if hasTcp then ta + 1 else ta)))
  }

  /** The loop over the first associations: what was linked, and where the cursors are. */
  function JoinAll<P, L, T>(x: Traces<P, L, T>, l2: seq<Assoc>): (r: Outcome<(seq<Joined<L, T>>, Cursors)>)
    ensures r.Done? ==> |r.value.0| == |l2|
    ensures r.Done? ==> r.value.1.link <= |x.link| && r.value.1.gps <= |x.gps| &&
                        r.value.1.l3 <= |x.l3| && r.value.1.tcp <= |x.tcp|
  {
    if l2 == [] then Done(([], Cursors(0, 0, 0, 0)))
    else match JoinAll(x, l2[..|l2| - 1])
      case Raised(error) => Raised(error)
      case Done((out, c)) =>
        match JoinOne(x, c, l2[|l2| - 1])
        case Raised(error) => Raised(error)
        case Done((j, c')) => Done((out + [j], c'))
  }

  // ---- the loops ----

  method SkipLoop<T>(xs: seq<Stamped<T>>, from: nat, s: real) returns (i: nat)
    requires from <= |xs|
    ensures i == Skip(xs, from, s)
  {
    i := from;
    while i < |xs| && xs[i].time < s
      invariant from <= i <= |xs| && Skip(xs, i, s) == Skip(xs, from, s)
    {
      i := i + 1;
    }
  }

  /** Samples from `from` up to the end of the window, and the cursor after them. */
  method CollectSignals(xs: seq<Stamped<real>>, from: nat, e: real) returns (signals: seq<real>, i: nat)
    requires from <= |xs|
    ensures i == Past(xs, from, e) && signals == Datas(xs[from..i])
  {
    i, signals := from, [];
    while i < |xs| && xs[i].time <= e
      invariant from <= i <= |xs| && Past(xs, i, e) == Past(xs, from, e)
      invariant signals == Datas(xs[from..i])
    {
      signals := signals + [xs[i].data];
      assert xs[from..i + 1][..i - from] == xs[from..i];
      i := i + 1;
    }
  }

  lemma {:induction false} DistanceNext<P>(xs: seq<Stamped<P>>, from: nat, i: nat, dist: (P, P) -> real)
    requires from <= i < |xs|
    ensures Distance(xs[from..i + 1], dist) ==
            if i == from then None
            else if i == from + 1 then Some(0.0 + dist(xs[i].data, xs[i - 1].data))
            else Some(Distance(xs[from..i], dist).value + dist(xs[i].data, xs[i - 1].data))
  {
    var seen := xs[from..i + 1];
    assert seen[..|seen| - 1] == xs[from..i] && seen[|seen| - 1] == xs[i];
    if i > from {
      assert seen[|seen| - 2] == xs[i - 1];
      assert PathLength(seen, dist) == PathLength(xs[from..i], dist) + dist(xs[i].data, xs[i - 1].data);
    }
  }

  /** The distance accumulates from the second point in the window on. */
  method MeasureDistance<P>(xs: seq<Stamped<P>>, from: nat, e: real, dist: (P, P) -> real)
    returns (distance: Option<real>, i: nat)
    requires from <= |xs|
    ensures i == Past(xs, from, e) && distance == Distance(xs[from..i], dist)
  {
    i, distance := from, None;
    var pts := 0;
    while i < |xs| && xs[i].time <= e
      invariant from <= i <= |xs| && Past(xs, i, e) == Past(xs, from, e)
      invariant pts == i - from && distance == Distance(xs[from..i], dist)
    {
      DistanceNext(xs, from, i, dist);
      pts := pts + 1;
      if pts == 2 {
        distance := Some(0.0);
      }
      if pts >= 2 {
        distance := Some(distance.value + dist(xs[i].data, xs[i - 1].data));
      }
      i := i + 1;
    }
  }

  /** The body of the loop over associations. */
  method LinkOne<P, L, T>(x: Traces<P, L, T>, c: Cursors, a: Assoc) returns (r: Outcome<(Joined<L, T>, Cursors)>)
    requires c.link <= |x.link| && c.gps <= |x.gps| && c.l3 <= |x.l3| && c.tcp <= |x.tcp|
    ensures r == JoinOne(x, c, a)
  {
    if a.connE.None? {
      return Done((Joined([], None, None, None, None), c));
    }
    if a.connS.None? {
      if c.link < |x.link| || c.gps < |x.gps| || c.l3 < |x.l3| || c.tcp < |x.tcp| {
        return Raised(TypeError);
      }
      return Done((Joined([], None, None, None, None), c));
    }
    var s, e := a.connS.value, a.connE.value;
    var link := SkipLoop(x.link, c.link, s);
    var signals;
    signals, link := CollectSignals(x.link, link, e);
    var gps := SkipLoop(x.gps, c.gps, s);
    var distance;
    distance, gps := MeasureDistance(x.gps, gps, e, x.dist);
    var speed := None;
    if distance.Some? {
      if e == s {
        return Raised(ZeroDivisionError);
      }
      speed := Some(distance.value / ((e - s) / 3600.0));
    }
    var l3 := SkipLoop(x.l3, c.l3, s);
    var dhcp := None;
    if l3 < |x.l3| && x.l3[l3].time <= e {
      dhcp := Some(x.l3[l3]);
      l3 := l3 + 1;
    }
    var tcp := SkipLoop(x.tcp, c.tcp, s);
    var test := None;
    if tcp < |x.tcp| && x.tcp[tcp].time <= e {
      test := Some(x.tcp[tcp]);
      tcp := tcp + 1;
    }
    return Done((Joined(signals, distance, speed, dhcp, test), Cursors(link, gps, l3, tcp)));
  }

  /** The loop over the associations of an interface. */
  method LinkAll<P, L, T>(x: Traces<P, L, T>, l2: seq<Assoc>) returns (r: Outcome<seq<Joined<L, T>>>)
    ensures r == match JoinAll(x, l2) case Raised(error) => Raised(error) case Done((out, _)) => Done(out)
  {
    var out: seq<Joined<L, T>>, c := [], Cursors(0, 0, 0, 0);
    var i := 0;
    while i < |l2|
      invariant 0 <= i <= |l2|
      invariant c.link <= |x.link| && c.gps <= |x.gps| && c.l3 <= |x.l3| && c.tcp <= |x.tcp|
      invariant JoinAll(x, l2[..i]) == Done((out, c))
    {
      assert l2[..i + 1][..i] == l2[..i];
      var one := LinkOne(x, c, l2[i]);
      if one.Raised? {
        RaisedStays(x, l2, i + 1);
        return Raised(one.error);
      }
      out, c := out + [one.value.0], one.value.1;
      i := i + 1;
    }
    assert l2[..i] == l2;
    return Done(out);
  }

  lemma {:induction false} RaisedStays<P, L, T>(x: Traces<P, L, T>, l2: seq<Assoc>, i: nat)
    requires i <= |l2| && JoinAll(x, l2[..i]).Raised?
    ensures JoinAll(x, l2) == JoinAll(x, l2[..i])
  {
    if i == |l2| {
      assert l2[..i] == l2;
    } else {
      var shorter := l2[..|l2| - 1];
      assert shorter[..i] == l2[..i];
      RaisedStays(x, shorter, i);
    }
  }

  /** Each step of the path is measured once, from the earlier point to the later one. */
  lemma {:induction false} PathTelescopes<P>(points: seq<Stamped<P>>, dist: (P, P) -> real, at: P -> real)
    requires forall i, j :: 0 <= i < |points| && 0 <= j < |points| ==>
               dist(points[j].data, points[i].data) == at(points[j].data) - at(points[i].data)
    ensures Distance(points, dist).Some? <==> |points| >= 2
    ensures |points| >= 2 ==>
              Distance(points, dist) == Some(at(points[|points| - 1].data) - at(points[0].data))
  {
    if |points| >= 2 {
      var front := points[..|points| - 1];
      assert forall i :: 0 <= i < |front| ==> front[i] == points[i];
      var last, before := points[|points| - 1].data, points[|points| - 2].data;
      assert dist(last, before) == at(last) - at(before);
      if |front| >= 2 {
        PathTelescopes(front, dist, at);
        assert PathLength(front, dist) == at(before) - at(points[0].data);
      }
      assert PathLength(points, dist) == PathLength(front, dist) + dist(last, before);
    }
  }

  // ---- what a fresh scan of the whole lists gives ----

  ghost predicate Sorted<T>(xs: seq<Stamped<T>>) {
    forall i, j :: 0 <= i < j < |xs| ==> xs[i].time <= xs[j].time
  }

  /** An association with a window. */
  predicate Complete(a: Assoc) {
    a.connS.Some? && a.connE.Some?
  }

  /** An association that ended has started. */
  predicate Started(a: Assoc) {
    a.connE.Some? ==> a.connS.Some?
  }

  /** In [s, e], and after the end of the previous window when there was one. */
  predicate InWindow(t: real, prev: Option<real>, s: real, e: real) {
    s <= t <= e && (prev.Some? ==> t > prev.value)
  }

  /** Every record of the window, in order. */
  function Within<T>(xs: seq<Stamped<T>>, prev: Option<real>, s: real, e: real): seq<Stamped<T>> {
    if xs == [] then []
    else
      var before := Within(xs[..|xs| - 1], prev, s, e);
      if InWindow(xs[|xs| - 1].time, prev, s, e) then before + [xs[|xs| - 1]] else before
  }

  /** Index of the first record of [s, e] from `from` on, or the length of the list. */
  function FirstWithin<T>(xs: seq<Stamped<T>>, from: nat, s: real, e: real): (k: nat)
    requires from <= |xs|
    ensures from <= k <= |xs| && (k < |xs| ==> s <= xs[k].time <= e)
    decreases |xs| - from
  {
    if from == |xs| || s <= xs[from].time <= e then from else FirstWithin(xs, from + 1, s, e)
  }

  lemma {:induction false} NoneBefore<T>(xs: seq<Stamped<T>>, from: nat, s: real, e: real)
    requires from <= |xs|
    ensures forall i :: from <= i < FirstWithin(xs, from, s, e) ==> !(s <= xs[i].time <= e)
    decreases |xs| - from
  {
    if from < |xs| && !(s <= xs[from].time <= e) {
      NoneBefore(xs, from + 1, s, e);
    }
  }

  /** The last window among the first associations. */
  function LastWindow(l2: seq<Assoc>): (r: Option<Assoc>)
    ensures r.Some? ==> Complete(r.value)
  {
    if l2 == [] then None
    else if Complete(l2[|l2| - 1]) then Some(l2[|l2| - 1]) else LastWindow(l2[..|l2| - 1])
  }

  function PrevEnd(l2: seq<Assoc>): Option<real> {
    if LastWindow(l2).None? then None else LastWindow(l2).value.connE
  }

  function PrevStart(l2: seq<Assoc>): Option<real> {
    if LastWindow(l2).None? then None else LastWindow(l2).value.connS
  }

  /** One past the last record that the first associations were given. */
  function Given<T>(xs: seq<Stamped<T>>, l2: seq<Assoc>): (r: nat)
    ensures r <= |xs|
  {
    if l2 == [] then 0
    else
      var given := Given(xs, l2[..|l2| - 1]);
      var a := l2[|l2| - 1];
      if !Complete(a) then given
      else
        var k := FirstWithin(xs, given, a.connS.value, a.connE.value);
        if k < |xs| then k + 1 else given
  }

  function Pick<T>(xs: seq<Stamped<T>>, from: nat, a: Assoc): Option<Stamped<T>>
    requires from <= |xs| && Complete(a)
  {
    var k := FirstWithin(xs, from, a.connS.value, a.connE.value);
    if k < |xs| then Some(xs[k]) else None
  }

  /** What association `a` is given, after the associations `before` it. */
  function Fresh<P, L, T>(x: Traces<P, L, T>, before: seq<Assoc>, a: Assoc): Joined<L, T> {
    if !Complete(a) then Joined([], None, None, None, None)
    else
      var s, e, prev := a.connS.value, a.connE.value, PrevEnd(before);
      var d := Distance(Within(x.gps, prev, s, e), x.dist);
      Joined(Datas(Within(x.link, prev, s, e)), d,
             if d.None? || e == s then None else Some(d.value / ((e - s) / 3600.0)),
             Pick(x.l3, Given(x.l3, before), a), Pick(x.tcp, Given(x.tcp, before), a))
  }

  /** Windows end after they start, and overlap at most at their ends. */
  ghost predicate InOrder(l2: seq<Assoc>) {
    (forall i :: 0 <= i < |l2| && Complete(l2[i]) ==> l2[i].connS.value <= l2[i].connE.value) &&
    (forall i, j :: 0 <= i < j < |l2| && Complete(l2[i]) && Complete(l2[j]) ==> l2[i].connE.value <= l2[j].connS.value)
  }

  ghost predicate AllSorted<P, L, T>(x: Traces<P, L, T>) {
    Sorted(x.link) && Sorted(x.gps) && Sorted(x.l3) && Sorted(x.tcp)
  }

  // ---- when the join raises ----

  /** A zero-length window with two GPS points or more. */
  predicate Degenerate<P, L, T>(x: Traces<P, L, T>, before: seq<Assoc>, a: Assoc) {
    Complete(a) && a.connS == a.connE && |Within(x.gps, PrevEnd(before), a.connS.value, a.connE.value)| >= 2
  }

  /** Some sample comes after the last window. */
  predicate SampleLeft<T>(xs: seq<Stamped<T>>, before: seq<Assoc>) {
    exists k :: 0 <= k < |xs| && (PrevEnd(before).Some? ==> xs[k].time > PrevEnd(before).value)
  }

  /** Some record after those given does not come before the last window. */
  predicate RecordLeft<T>(xs: seq<Stamped<T>>, before: seq<Assoc>) {
    exists k :: Given(xs, before) <= k < |xs| && (PrevStart(before).Some? ==> xs[k].time >= PrevStart(before).value)
  }

  /** An end without a start, while some list has a record left to compare with it. */
  predicate Unordered<P, L, T>(x: Traces<P, L, T>, before: seq<Assoc>, a: Assoc) {
    !Started(a) && (SampleLeft(x.link, before) || SampleLeft(x.gps, before) ||
                    RecordLeft(x.l3, before) || RecordLeft(x.tcp, before))
  }

  function Fault<P, L, T>(x: Traces<P, L, T>, before: seq<Assoc>, a: Assoc): Option<Exception> {
    if Degenerate(x, before, a) then Some(ZeroDivisionError)
    else if Unordered(x, before, a) then Some(TypeError)
    else None
  }

  /** The speed over the hours of the window is the distance. */
  lemma {:induction false} SpeedIs<P, L, T>(x: Traces<P, L, T>, before: seq<Assoc>, a: Assoc)
    requires Complete(a) && !Degenerate(x, before, a)
    ensures var j := Fresh(x, before, a);
            (j.speed.Some? <==> j.distance.Some?) &&
            (j.speed.Some? ==> j.speed.value * (a.connE.value - a.connS.value) == 3600.0 * j.distance.value)
  {
    var j, hours := Fresh(x, before, a), (a.connE.value - a.connS.value) / 3600.0;
    if j.speed.Some? {
      assert j.speed.value * hours == j.distance.value;
      assert a.connE.value - a.connS.value == 3600.0 * hours;
    }
  }

  // ---- the cursors find the windows ----

  lemma {:induction false} WithinNext<T>(xs: seq<Stamped<T>>, prev: Option<real>, s: real, e: real, n: nat)
    requires 0 < n <= |xs|
    ensures var before := Within(xs[..n - 1], prev, s, e);
            Within(xs[..n], prev, s, e) == if InWindow(xs[n - 1].time, prev, s, e) then before + [xs[n - 1]] else before
  {
    assert xs[..n][..n - 1] == xs[..n - 1];
  }

  /** Cutting the list at the window's two ends keeps exactly the window. */
  lemma {:induction false} SliceIsWithin<T>(xs: seq<Stamped<T>>, prev: Option<real>, s: real, e: real, a: nat, b: nat, n: nat)
    requires a <= b <= |xs| && n <= |xs|
    requires forall k :: 0 <= k < |xs| ==> (InWindow(xs[k].time, prev, s, e) <==> a <= k < b)
    ensures Within(xs[..n], prev, s, e) == if n <= a then [] else if n <= b then xs[a..n] else xs[a..b]
  {
    if n > 0 {
      SliceIsWithin(xs, prev, s, e, a, b, n - 1);
      WithinNext(xs, prev, s, e, n);
      if a < n <= b {
        assert xs[a..n] == xs[a..n - 1] + [xs[n - 1]];
      }
    }
  }

  /** Where a sample cursor is between two associations. */
  ghost predicate AtEnd<T>(xs: seq<Stamped<T>>, c: nat, prev: Option<real>) {
    c <= |xs| && if prev.None? then c == 0 else
      (forall k :: 0 <= k < c ==> xs[k].time <= prev.value) && (forall k :: c <= k < |xs| ==> xs[k].time > prev.value)
  }

  lemma {:induction false} EndsOfWindow<T>(xs: seq<Stamped<T>>, c: nat, prev: Option<real>, s: real, e: real, a: nat, b: nat)
    requires Sorted(xs) && AtEnd(xs, c, prev) && s <= e && (prev.Some? ==> prev.value <= s)
    requires a == Skip(xs, c, s) && b == Past(xs, a, e)
    ensures forall k :: 0 <= k < |xs| ==> (InWindow(xs[k].time, prev, s, e) <==> a <= k < b)
    ensures AtEnd(xs, b, Some(e))
  {
    SkipFinds(xs, c, s);
    PastFinds(xs, a, e);
    assert forall k :: a <= k < |xs| ==> xs[k].time >= s;
    assert forall k :: b <= k < |xs| ==> xs[k].time > e;
    assert forall k :: 0 <= k < a ==> xs[k].time <= e;
  }

  lemma {:induction false} SamplesOfWindow<T>(xs: seq<Stamped<T>>, c: nat, prev: Option<real>, s: real, e: real)
    requires Sorted(xs) && AtEnd(xs, c, prev) && s <= e && (prev.Some? ==> prev.value <= s)
    ensures var a := Skip(xs, c, s);
            var b := Past(xs, a, e);
            xs[a..b] == Within(xs, prev, s, e) && AtEnd(xs, b, Some(e))
  {
    var a := Skip(xs, c, s);
    var b := Past(xs, a, e);
    EndsOfWindow(xs, c, prev, s, e, a, b);
    SliceIsWithin(xs, prev, s, e, a, b, |xs|);
    assert xs[..|xs|] == xs;
  }

  /** Where a record cursor is: at the first record not given that does not come before the last window. */
  ghost predicate AtNext<T>(xs: seq<Stamped<T>>, c: nat, given: nat, start: Option<real>) {
    given <= c <= |xs| && if start.None? then c == 0 else
      (forall k :: given <= k < c ==> xs[k].time < start.value) && (c < |xs| ==> xs[c].time >= start.value)
  }

  lemma {:induction false} RecordOfWindow<T>(xs: seq<Stamped<T>>, c: nat, given: nat, start: Option<real>, s: real, e: real)
    requires Sorted(xs) && AtNext(xs, c, given, start) && s <= e && (start.Some? ==> start.value <= s)
    ensures var a := Skip(xs, c, s);
            var k := FirstWithin(xs, given, s, e);
            if a < |xs| && xs[a].time <= e then k == a && AtNext(xs, a + 1, k + 1, Some(s))
            else k == |xs| && AtNext(xs, a, given, Some(s))
  {
    var a := Skip(xs, c, s);
    var k := FirstWithin(xs, given, s, e);
    SkipFinds(xs, c, s);
    NoneBefore(xs, given, s, e);
    assert forall i :: given <= i < a ==> xs[i].time < s;
    assert k >= a;
    if k < |xs| && a < |xs| {
      assert xs[a].time <= xs[k].time;
    }
  }

  // ---- the theorem ----

  ghost predicate CursorsAt<P, L, T>(x: Traces<P, L, T>, c: Cursors, l2: seq<Assoc>) {
    AtEnd(x.link, c.link, PrevEnd(l2)) && AtEnd(x.gps, c.gps, PrevEnd(l2)) &&
    AtNext(x.l3, c.l3, Given(x.l3, l2), PrevStart(l2)) && AtNext(x.tcp, c.tcp, Given(x.tcp, l2), PrevStart(l2))
  }

  /** `s` does not come before the last window. */
  predicate AfterLast(l2: seq<Assoc>, s: real) {
    LastWindow(l2).Some? ==> PrevStart(l2).value <= PrevEnd(l2).value <= s
  }

  lemma {:induction false} LastWindowFrom(l2: seq<Assoc>, i: nat) returns (k: nat)
    requires i < |l2| && Complete(l2[i])
    ensures i <= k < |l2| && LastWindow(l2) == Some(l2[k]) && Complete(l2[k])
    decreases |l2|
  {
    if Complete(l2[|l2| - 1]) {
      k := |l2| - 1;
    } else {
      k := LastWindowFrom(l2[..|l2| - 1], i);
    }
  }

  lemma {:induction false} LastWindowAt(l2: seq<Assoc>) returns (i: nat)
    requires LastWindow(l2).Some?
    ensures i < |l2| && LastWindow(l2) == Some(l2[i])
  {
    if Complete(l2[|l2| - 1]) {
      i := |l2| - 1;
    } else {
      i := LastWindowAt(l2[..|l2| - 1]);
    }
  }

  lemma {:induction false} AfterLastInOrder(l2: seq<Assoc>, a: Assoc)
    requires InOrder(l2 + [a]) && Complete(a)
    ensures AfterLast(l2, a.connS.value)
  {
    if LastWindow(l2).Some? {
      var i := LastWindowAt(l2);
      assert (l2 + [a])[i] == l2[i] && (l2 + [a])[|l2|] == a;
    }
  }

  ghost predicate Ready<P, L, T>(x: Traces<P, L, T>, l2: seq<Assoc>, a: Assoc, c: Cursors) {
    AllSorted(x) && CursorsAt(x, c, l2) && Complete(a) && a.connS.value <= a.connE.value && AfterLast(l2, a.connS.value)
  }

  lemma {:induction false} StepRecord<P, L, T>(x: Traces<P, L, T>, l2: seq<Assoc>, a: Assoc, c: Cursors)
    requires Ready(x, l2, a, c)
    ensures if Degenerate(x, l2, a) then JoinOne(x, c, a) == Raised(ZeroDivisionError)
            else JoinOne(x, c, a).Done? && JoinOne(x, c, a).value.0 == Fresh(x, l2, a)
  {
    var s, e, prev, start := a.connS.value, a.connE.value, PrevEnd(l2), PrevStart(l2);
    var la, ga := Skip(x.link, c.link, s), Skip(x.gps, c.gps, s);
    var da, ta := Skip(x.l3, c.l3, s), Skip(x.tcp, c.tcp, s);
    assert x.link[la..Past(x.link, la, e)] == Within(x.link, prev, s, e) by { SamplesOfWindow(x.link, c.link, prev, s, e); }
    assert x.gps[ga..Past(x.gps, ga, e)] == Within(x.gps, prev, s, e) by { SamplesOfWindow(x.gps, c.gps, prev, s, e); }
    assert (if da < |x.l3| && x.l3[da].time <= e then Some(x.l3[da]) else None) == Pick(x.l3, Given(x.l3, l2), a) by {
      RecordOfWindow(x.l3, c.l3, Given(x.l3, l2), start, s, e);
    }
    assert (if ta < |x.tcp| && x.tcp[ta].time <= e then Some(x.tcp[ta]) else None) == Pick(x.tcp, Given(x.tcp, l2), a) by {
      RecordOfWindow(x.tcp, c.tcp, Given(x.tcp, l2), start, s, e);
    }
  }

  /** Where a window leaves a sample cursor. */
  function NextSample<T>(xs: seq<Stamped<T>>, c: nat, s: real, e: real): nat
    requires c <= |xs|
  {
    Past(xs, Skip(xs, c, s), e)
  }

  /** Where a window leaves a record cursor. */
  function NextRecord<T>(xs: seq<Stamped<T>>, c: nat, s: real, e: real): nat
    requires c <= |xs|
  {
    var k := Skip(xs, c, s);
    if k < |xs| && xs[k].time <= e then k + 1 else k
  }

  lemma {:induction false} StepSamples<T>(xs: seq<Stamped<T>>, c: nat, l2: seq<Assoc>, a: Assoc, s: real, e: real)
    requires Sorted(xs) && AtEnd(xs, c, PrevEnd(l2)) && a == Assoc(Some(s), Some(e)) && s <= e && AfterLast(l2, s)
    ensures AtEnd(xs, NextSample(xs, c, s, e), PrevEnd(l2 + [a]))
  {
    SamplesOfWindow(xs, c, PrevEnd(l2), s, e);
  }

  lemma {:induction false} StepGiven<T>(xs: seq<Stamped<T>>, c: nat, l2: seq<Assoc>, a: Assoc, s: real, e: real)
    requires Sorted(xs) && AtNext(xs, c, Given(xs, l2), PrevStart(l2))
    requires a == Assoc(Some(s), Some(e)) && s <= e && AfterLast(l2, s)
    ensures AtNext(xs, NextRecord(xs, c, s, e), Given(xs, l2 + [a]), PrevStart(l2 + [a]))
  {
    assert (l2 + [a])[..|l2|] == l2;
    RecordOfWindow(xs, c, Given(xs, l2), PrevStart(l2), s, e);
  }

  lemma {:induction false} JoinOneCursors<P, L, T>(x: Traces<P, L, T>, c: Cursors, a: Assoc)
    requires c.link <= |x.link| && c.gps <= |x.gps| && c.l3 <= |x.l3| && c.tcp <= |x.tcp|
    requires Complete(a) && JoinOne(x, c, a).Done?
    ensures var s, e := a.connS.value, a.connE.value;
            JoinOne(x, c, a).value.1 == Cursors(NextSample(x.link, c.link, s, e), NextSample(x.gps, c.gps, s, e),
                                                NextRecord(x.l3, c.l3, s, e), NextRecord(x.tcp, c.tcp, s, e))
  {
  }

  lemma {:induction false} CursorsFollow<P, L, T>(x: Traces<P, L, T>, l2: seq<Assoc>, a: Assoc, c: Cursors)
    requires Ready(x, l2, a, c)
    ensures var s, e := a.connS.value, a.connE.value;
            CursorsAt(x, Cursors(NextSample(x.link, c.link, s, e), NextSample(x.gps, c.gps, s, e),
                                 NextRecord(x.l3, c.l3, s, e), NextRecord(x.tcp, c.tcp, s, e)), l2 + [a])
  {
    var s, e := a.connS.value, a.connE.value;
    StepSamples(x.link, c.link, l2, a, s, e);
    StepSamples(x.gps, c.gps, l2, a, s, e);
    StepGiven(x.l3, c.l3, l2, a, s, e);
    StepGiven(x.tcp, c.tcp, l2, a, s, e);
  }

  lemma {:induction false} StepCursors<P, L, T>(x: Traces<P, L, T>, l2: seq<Assoc>, a: Assoc, c: Cursors)
    requires Ready(x, l2, a, c) && JoinOne(x, c, a).Done?
    ensures CursorsAt(x, JoinOne(x, c, a).value.1, l2 + [a])
  {
    JoinOneCursors(x, c, a);
    CursorsFollow(x, l2, a, c);
  }

  lemma {:induction false} SampleLeftIff<T>(xs: seq<Stamped<T>>, c: nat, l2: seq<Assoc>)
    requires AtEnd(xs, c, PrevEnd(l2))
    ensures SampleLeft(xs, l2) <==> c < |xs|
  {
    if c < |xs| {
      var next := xs[c];
      assert PrevEnd(l2).Some? ==> next.time > PrevEnd(l2).value;
    }
  }

  lemma {:induction false} RecordLeftIff<T>(xs: seq<Stamped<T>>, c: nat, l2: seq<Assoc>)
    requires AtNext(xs, c, Given(xs, l2), PrevStart(l2))
    ensures RecordLeft(xs, l2) <==> c < |xs|
  {
    if c < |xs| {
      var next := xs[c];
      assert PrevStart(l2).Some? ==> next.time >= PrevStart(l2).value;
    }
  }

  /** An association without a window is given nothing, and the join goes on unless something is left to compare. */
  lemma {:induction false} StepWindowless<P, L, T>(x: Traces<P, L, T>, l2: seq<Assoc>, a: Assoc, c: Cursors)
    requires CursorsAt(x, c, l2) && !Complete(a)
    ensures JoinOne(x, c, a) == if Unordered(x, l2, a) then Raised(TypeError) else Done((Fresh(x, l2, a), c))
    ensures CursorsAt(x, c, l2 + [a])
  {
    SampleLeftIff(x.link, c.link, l2);
    SampleLeftIff(x.gps, c.gps, l2);
    RecordLeftIff(x.l3, c.l3, l2);
    RecordLeftIff(x.tcp, c.tcp, l2);
    assert (l2 + [a])[..|l2|] == l2;
  }

  lemma {:induction false} InOrderPrefix(l2: seq<Assoc>, a: Assoc)
    requires InOrder(l2 + [a])
    ensures InOrder(l2) && (Complete(a) ==> a.connS.value <= a.connE.value)
  {
    assert forall i :: 0 <= i < |l2| ==> (l2 + [a])[i] == l2[i];
    assert (l2 + [a])[|l2|] == a;
  }

  function FirstFault<P, L, T>(x: Traces<P, L, T>, l2: seq<Assoc>): Option<Exception> {
    if l2 == [] then None
    else
      var before := FirstFault(x, l2[..|l2| - 1]);
      if before.Some? then before else Fault(x, l2[..|l2| - 1], l2[|l2| - 1])
  }

  function FreshAll<P, L, T>(x: Traces<P, L, T>, l2: seq<Assoc>): (r: seq<Joined<L, T>>)
    ensures |r| == |l2|
  {
    if l2 == [] then [] else FreshAll(x, l2[..|l2| - 1]) + [Fresh(x, l2[..|l2| - 1], l2[|l2| - 1])]
  }

  ghost predicate JoinMatches<P, L, T>(x: Traces<P, L, T>, l2: seq<Assoc>) {
    match JoinAll(x, l2)
    case Raised(error) => FirstFault(x, l2) == Some(error)
    case Done((out, c)) => FirstFault(x, l2).None? && CursorsAt(x, c, l2) && out == FreshAll(x, l2)
  }

  lemma {:induction false} JoinMatchesNext<P, L, T>(x: Traces<P, L, T>, l2: seq<Assoc>, a: Assoc)
    requires AllSorted(x) && InOrder(l2 + [a]) && JoinMatches(x, l2)
    ensures JoinMatches(x, l2 + [a])
  {
    assert (l2 + [a])[..|l2|] == l2;
    if JoinAll(x, l2).Done? {
      var c := JoinAll(x, l2).value.1;
      if Complete(a) {
        InOrderPrefix(l2, a);
        AfterLastInOrder(l2, a);
        StepRecord(x, l2, a, c);
        if JoinOne(x, c, a).Done? { StepCursors(x, l2, a, c); }
      } else {
        StepWindowless(x, l2, a, c);
      }
    }
  }

  lemma {:induction false} JoinIsFreshAll<P, L, T>(x: Traces<P, L, T>, l2: seq<Assoc>)
    requires AllSorted(x) && InOrder(l2)
    ensures JoinMatches(x, l2)
  {
    if l2 != [] {
      var before, a := l2[..|l2| - 1], l2[|l2| - 1];
      assert l2 == before + [a];
      InOrderPrefix(before, a);
      JoinIsFreshAll(x, before);
      JoinMatchesNext(x, before, a);
    }
  }

  lemma {:induction false} EachFresh<P, L, T>(x: Traces<P, L, T>, l2: seq<Assoc>, i: nat)
    requires i < |l2|
    ensures FreshAll(x, l2)[i] == Fresh(x, l2[..i], l2[i])
  {
    if i < |l2| - 1 {
      var before := l2[..|l2| - 1];
      EachFresh(x, before, i);
      assert before[..i] == l2[..i];
    }
  }

  lemma {:induction false} FirstFaultIff<P, L, T>(x: Traces<P, L, T>, l2: seq<Assoc>)
    ensures FirstFault(x, l2).None? <==> forall i :: 0 <= i < |l2| ==> Fault(x, l2[..i], l2[i]).None?
  {
    if l2 != [] {
      var before := l2[..|l2| - 1];
      FirstFaultIff(x, before);
      assert forall i :: 0 <= i < |before| ==> before[..i] == l2[..i] && before[i] == l2[i];
    }
  }

  /**
   The one-pass join raises exactly on a zero-length window with two GPS points, or on an end without
   a start while some list has a record left; otherwise it gives every association what a fresh scan
   of the whole lists gives it.
   */
  lemma {:induction false} JoinIsFresh<P, L, T>(x: Traces<P, L, T>, l2: seq<Assoc>)
    requires AllSorted(x) && InOrder(l2)
    ensures JoinAll(x, l2).Done? <==>
            forall i :: 0 <= i < |l2| ==> !Degenerate(x, l2[..i], l2[i]) && !Unordered(x, l2[..i], l2[i])
    ensures JoinAll(x, l2).Done? ==>
              forall i :: 0 <= i < |l2| ==> JoinAll(x, l2).value.0[i] == Fresh(x, l2[..i], l2[i])
  {
    JoinIsFreshAll(x, l2);
    FirstFaultIff(x, l2);
    assert forall i :: 0 <= i < |l2| ==>
      (Fault(x, l2[..i], l2[i]).None? <==> !Degenerate(x, l2[..i], l2[i]) && !Unordered(x, l2[..i], l2[i]));
    forall i | 0 <= i < |l2| ensures FreshAll(x, l2)[i] == Fresh(x, l2[..i], l2[i]) { EachFresh(x, l2, i); }
  }

  lemma {:induction false} FirstFaultAt<P, L, T>(x: Traces<P, L, T>, l2: seq<Assoc>) returns (i: nat)
    requires FirstFault(x, l2).Some?
    ensures i < |l2| && Fault(x, l2[..i], l2[i]) == FirstFault(x, l2) && FirstFault(x, l2[..i]).None?
  {
    var before := l2[..|l2| - 1];
    if FirstFault(x, before).Some? {
      i := FirstFaultAt(x, before);
      assert before[..i] == l2[..i];
    } else {
      i := |l2| - 1;
    }
  }

  /** The exception is that of the first association at fault; the ones before it join. */
  lemma {:induction false} JoinRaisesFirst<P, L, T>(x: Traces<P, L, T>, l2: seq<Assoc>) returns (i: nat)
    requires AllSorted(x) && InOrder(l2) && JoinAll(x, l2).Raised?
    ensures i < |l2| && Fault(x, l2[..i], l2[i]) == Some(JoinAll(x, l2).error) && JoinAll(x, l2[..i]).Done?
  {
    JoinIsFreshAll(x, l2);
    i := FirstFaultAt(x, l2);
    assert InOrder(l2[..i]);
    JoinIsFreshAll(x, l2[..i]);
  }

  /** Two GPS points at the only instant of a window. */
  lemma {:induction false} ZeroLengthRaises<P, L, T>(x: Traces<P, L, T>, t: real)
    requires |x.gps| == 2 && x.gps[0].time == t && x.gps[1].time == t
    ensures JoinAll(x, [Assoc(Some(t), Some(t))]) == Raised(ZeroDivisionError)
  {
    var l2 := [Assoc(Some(t), Some(t))];
    assert l2[..0] == [];
    assert Past(x.gps, 0, t) == 2;
    assert x.gps[0..2] == x.gps;
  }

  /** An end without a start, and one link sample. */
  lemma {:induction false} NoStartRaises<P, L, T>(x: Traces<P, L, T>, e: real)
    requires x.link != []
    ensures JoinAll(x, [Assoc(None, Some(e))]) == Raised(TypeError)
  {
    assert [Assoc(None, Some(e))][..0] == [];
  }

  // ---- what an association is given on its own ----

  /** Excluding what came up to the previous end matters exactly when a record sits on a shared end. */
  lemma {:induction false} WithinAloneIff<T>(xs: seq<Stamped<T>>, prev: Option<real>, s: real, e: real)
    requires s <= e && (prev.Some? ==> prev.value <= s)
    ensures Within(xs, prev, s, e) == Within(xs, None, s, e) <==>
            !(prev == Some(s) && exists k :: 0 <= k < |xs| && xs[k].time == s)
    ensures |Within(xs, prev, s, e)| <= |Within(xs, None, s, e)|
  {
    if xs != [] {
      var before, last := xs[..|xs| - 1], xs[|xs| - 1];
      WithinAloneIff(before, prev, s, e);
      var p, q := Within(before, prev, s, e), Within(before, None, s, e);
      if last.time == s && prev == Some(s) {
        assert |Within(xs, prev, s, e)| < |Within(xs, None, s, e)|;
      } else {
        assert InWindow(last.time, prev, s, e) <==> InWindow(last.time, None, s, e);
        assert (p + [last])[..|p|] == p && (q + [last])[..|q|] == q;
        assert (exists k :: 0 <= k < |xs| && xs[k].time == s && prev == Some(s)) <==>
               (exists k :: 0 <= k < |before| && before[k].time == s && prev == Some(s));
      }
    }
  }

  /** Records given so far lie at or before the end of the last window. */
  lemma {:induction false} GivenIsPast<T>(xs: seq<Stamped<T>>, l2: seq<Assoc>, k: nat)
    requires Sorted(xs) && InOrder(l2) && k < Given(xs, l2)
    ensures PrevEnd(l2).Some? && xs[k].time <= PrevEnd(l2).value
  {
    if l2 == [] {
      assert false;
    } else {
      var before, a := l2[..|l2| - 1], l2[|l2| - 1];
      assert l2 == before + [a];
      InOrderPrefix(before, a);
      if k < Given(xs, before) {
        GivenIsPast(xs, before, k);
        if Complete(a) { AfterLastInOrder(before, a); }
      } else {
        var f := FirstWithin(xs, Given(xs, before), a.connS.value, a.connE.value);
        assert f < |xs| && k <= f;
      }
    }
  }

  /** The last record given sits on the start of the window. */
  predicate TakenAt<T>(xs: seq<Stamped<T>>, l2: seq<Assoc>, s: real) {
    var given := Given(xs, l2);
    given > 0 && xs[given - 1].time == s
  }

  /** Leaving out the records given already matters exactly when the last of them sits on the shared end. */
  lemma {:induction false} FirstAloneIff<T>(xs: seq<Stamped<T>>, l2: seq<Assoc>, s: real, e: real)
    requires Sorted(xs) && InOrder(l2) && s <= e && AfterLast(l2, s)
    ensures FirstWithin(xs, Given(xs, l2), s, e) == FirstWithin(xs, 0, s, e) <==> !TakenAt(xs, l2, s)
  {
    var given := Given(xs, l2);
    var f, g := FirstWithin(xs, 0, s, e), FirstWithin(xs, given, s, e);
    NoneBefore(xs, 0, s, e);
    NoneBefore(xs, given, s, e);
    if given > 0 {
      GivenIsPast(xs, l2, given - 1);
      if TakenAt(xs, l2, s) {
        assert f <= given - 1 < g;
      } else {
        assert forall k :: 0 <= k < given ==> xs[k].time <= xs[given - 1].time;
        assert f >= given;
      }
    }
  }

  /** The first record not given yet is the first record of the window, unless one on its start was taken. */
  lemma {:induction false} PickAlone<T>(xs: seq<Stamped<T>>, l2: seq<Assoc>, a: Assoc)
    requires Sorted(xs) && InOrder(l2) && Complete(a) && AfterLast(l2, a.connS.value) && !TakenAt(xs, l2, a.connS.value)
    ensures Pick(xs, Given(xs, l2), a) == Pick(xs, 0, a)
  {
    if a.connS.value <= a.connE.value {
      FirstAloneIff(xs, l2, a.connS.value, a.connE.value);
    }
  }

  /** A sample sits on the end that `a` shares with the window before it. */
  predicate SampleShared<T>(xs: seq<Stamped<T>>, before: seq<Assoc>, a: Assoc) {
    PrevEnd(before).Some? && PrevEnd(before) == a.connS && exists k :: 0 <= k < |xs| && xs[k].time == a.connS.value
  }

  /** One of the four lists has a record on a shared end that an earlier window took. */
  predicate SharesRecord<P, L, T>(x: Traces<P, L, T>, before: seq<Assoc>, a: Assoc)
    requires Complete(a)
  {
    SampleShared(x.link, before, a) || SampleShared(x.gps, before, a) ||
    TakenAt(x.l3, before, a.connS.value) || TakenAt(x.tcp, before, a.connS.value)
  }

  /** `a` takes the same records of all four lists after `before` as on its own. */
  ghost predicate TakesSame<P, L, T>(x: Traces<P, L, T>, before: seq<Assoc>, a: Assoc)
    requires Complete(a)
  {
    var s, e, prev := a.connS.value, a.connE.value, PrevEnd(before);
    Within(x.link, prev, s, e) == Within(x.link, None, s, e) && Within(x.gps, prev, s, e) == Within(x.gps, None, s, e) &&
    FirstWithin(x.l3, Given(x.l3, before), s, e) == FirstWithin(x.l3, 0, s, e) &&
    FirstWithin(x.tcp, Given(x.tcp, before), s, e) == FirstWithin(x.tcp, 0, s, e)
  }

  lemma {:induction false} TakesSameIff<P, L, T>(x: Traces<P, L, T>, before: seq<Assoc>, a: Assoc)
    requires AllSorted(x) && InOrder(before) && Complete(a)
    requires a.connS.value <= a.connE.value && AfterLast(before, a.connS.value)
    ensures TakesSame(x, before, a) <==> !SharesRecord(x, before, a)
  {
    var s, e, prev := a.connS.value, a.connE.value, PrevEnd(before);
    WithinAloneIff(x.link, prev, s, e);
    WithinAloneIff(x.gps, prev, s, e);
    FirstAloneIff(x.l3, before, s, e);
    FirstAloneIff(x.tcp, before, s, e);
  }

  lemma {:induction false} SignalsAloneIff<P, L, T>(x: Traces<P, L, T>, before: seq<Assoc>, a: Assoc)
    requires Complete(a) && a.connS.value <= a.connE.value && AfterLast(before, a.connS.value)
    ensures Fresh(x, before, a).signals == Fresh(x, [], a).signals <==> !SampleShared(x.link, before, a)
  {
    var s, e, prev := a.connS.value, a.connE.value, PrevEnd(before);
    WithinAloneIff(x.link, prev, s, e);
    if SampleShared(x.link, before, a) {
      WithinShorter(x.link, s, e);
      assert |Datas(Within(x.link, prev, s, e))| < |Datas(Within(x.link, None, s, e))|;
    }
  }

  lemma {:induction false} WithinShorter<T>(xs: seq<Stamped<T>>, s: real, e: real)
    requires s <= e && exists k :: 0 <= k < |xs| && xs[k].time == s
    ensures |Within(xs, Some(s), s, e)| < |Within(xs, None, s, e)|
  {
    var before, last := xs[..|xs| - 1], xs[|xs| - 1];
    WithinAloneIff(before, Some(s), s, e);
    if last.time != s {
      var k :| 0 <= k < |xs| && xs[k].time == s;
      assert before[k].time == s;
      WithinShorter(before, s, e);
    }
  }

  /**
   A window takes the same records of all four lists as on its own exactly when none of them sits on
   an end that it shares and was taken there; then the association is joined as on its own.
   */
  lemma {:induction false} JoinIsAloneIff<P, L, T>(x: Traces<P, L, T>, l2: seq<Assoc>, i: nat)
    requires AllSorted(x) && InOrder(l2) && i < |l2| && JoinAll(x, l2).Done?
    ensures Complete(l2[i]) ==> (TakesSame(x, l2[..i], l2[i]) <==> !SharesRecord(x, l2[..i], l2[i]))
    ensures Complete(l2[i]) && TakesSame(x, l2[..i], l2[i]) ==> JoinAll(x, l2).value.0[i] == Fresh(x, [], l2[i])
    ensures Complete(l2[i]) ==>
              (JoinAll(x, l2).value.0[i].signals == Fresh(x, [], l2[i]).signals <==> !SampleShared(x.link, l2[..i], l2[i]))
  {
    if Complete(l2[i]) {
      assert JoinAll(x, l2).value.0[i] == Fresh(x, l2[..i], l2[i]) by { JoinIsFresh(x, l2); }
      var upTo := l2[..i + 1];
      assert l2[..i] + [l2[i]] == upTo && InOrder(upTo);
      InOrderPrefix(l2[..i], l2[i]);
      AfterLastInOrder(l2[..i], l2[i]);
      TakesSameIff(x, l2[..i], l2[i]);
      SignalsAloneIff(x, l2[..i], l2[i]);
    }
  }

  /** Windows that do not even share an end. */
  ghost predicate Disjoint(l2: seq<Assoc>) {
    InOrder(l2) &&
    forall i, j :: 0 <= i < j < |l2| && Complete(l2[i]) && Complete(l2[j]) ==> l2[i].connE.value < l2[j].connS.value
  }

  lemma {:induction false} PrevEndDisjoint(l2: seq<Assoc>, i: nat)
    requires Disjoint(l2) && i < |l2| && Complete(l2[i])
    ensures InOrder(l2[..i]) && (PrevEnd(l2[..i]).Some? ==> PrevEnd(l2[..i]).value < l2[i].connS.value)
  {
    if PrevEnd(l2[..i]).Some? {
      var j := LastWindowAt(l2[..i]);
      assert l2[..i][j] == l2[j];
    }
  }

  /** With disjoint windows every association is joined as on its own. */
  lemma {:induction false} JoinIsAlone<P, L, T>(x: Traces<P, L, T>, l2: seq<Assoc>, i: nat)
    requires AllSorted(x) && Disjoint(l2) && i < |l2| && JoinAll(x, l2).Done?
    ensures JoinAll(x, l2).value.0[i] == Fresh(x, [], l2[i])
  {
    if Complete(l2[i]) {
      var before := l2[..i];
      JoinIsAloneIff(x, l2, i);
      PrevEndDisjoint(l2, i);
      if Given(x.l3, before) > 0 { GivenIsPast(x.l3, before, Given(x.l3, before) - 1); }
      if Given(x.tcp, before) > 0 { GivenIsPast(x.tcp, before, Given(x.tcp, before) - 1); }
    } else {
      JoinIsFresh(x, l2);
    }
  }

  lemma {:induction false} GivenToFirst<T>(s: real, t: real, e: real, d: T)
    requires s < t < e
    ensures var xs := [Stamped(t, d)];
            FirstWithin(xs, 0, s, t) == 0 == FirstWithin(xs, 0, t, e) && FirstWithin(xs, 1, t, e) == 1 &&
            Given(xs, []) == 0 && Given(xs, [Assoc(Some(s), Some(t))]) == 1
  {
    assert [Assoc(Some(s), Some(t))][..0] == [];
  }

  /** A DHCP record on the end that two windows share goes to the first, though the second would have it alone. */
  lemma {:induction false} SharedEndGivesOnce<P, L, T>(x: Traces<P, L, T>, s: real, t: real, e: real, d: L)
    requires AllSorted(x) && s < t < e && x.l3 == [Stamped(t, d)]
    ensures var l2 := [Assoc(Some(s), Some(t)), Assoc(Some(t), Some(e))];
            InOrder(l2) && JoinAll(x, l2).Done? && Fresh(x, [], l2[1]).l3 == Some(x.l3[0]) &&
            JoinAll(x, l2).value.0[0].l3 == Some(x.l3[0]) && JoinAll(x, l2).value.0[1].l3 == None
  {
    var l2 := [Assoc(Some(s), Some(t)), Assoc(Some(t), Some(e))];
    assert l2[..0] == [] && l2[..1] == [l2[0]];
    GivenToFirst(s, t, e, d);
    JoinIsFresh(x, l2);
    assert Fresh(x, [], l2[0]).l3 == Some(x.l3[0]);
    assert Fresh(x, [l2[0]], l2[1]).l3 == None;
  }

  // ---- nothing is given twice ----

  lemma {:induction false} GivenGrows<T>(xs: seq<Stamped<T>>, l2: seq<Assoc>, i: nat)
    requires i <= |l2|
    ensures Given(xs, l2[..i]) <= Given(xs, l2)
    decreases |l2|
  {
    if i == |l2| {
      assert l2[..i] == l2;
    } else {
      assert l2[..|l2| - 1][..i] == l2[..i];
      GivenGrows(xs, l2[..|l2| - 1], i);
    }
  }

  /** A later association is given a later record of the list, or none. */
  lemma {:induction false} RecordsGivenOnce<T>(xs: seq<Stamped<T>>, l2: seq<Assoc>, i: nat, j: nat)
    requires i < j < |l2| && Complete(l2[i]) && Complete(l2[j])
    requires Pick(xs, Given(xs, l2[..i]), l2[i]).Some? && Pick(xs, Given(xs, l2[..j]), l2[j]).Some?
    ensures FirstWithin(xs, Given(xs, l2[..i]), l2[i].connS.value, l2[i].connE.value) <
            FirstWithin(xs, Given(xs, l2[..j]), l2[j].connS.value, l2[j].connE.value)
  {
    assert l2[..i + 1][..i] == l2[..i] && l2[..i + 1][i] == l2[i];
    assert l2[..j][..i + 1] == l2[..i + 1];
    GivenGrows(xs, l2[..j], i + 1);
  }

  lemma {:induction false} PrevEndGrows(l2: seq<Assoc>, i: nat)
    requires InOrder(l2) && i < |l2| && Complete(l2[i])
    ensures PrevEnd(l2).Some? && l2[i].connE.value <= PrevEnd(l2).value
  {
    var last := LastWindowFrom(l2, i);
    if last > i {
      assert l2[i].connE.value <= l2[last].connS.value <= l2[last].connE.value;
    }
  }

  /** No instant is in the windows of two associations. */
  lemma {:induction false} SamplesGivenOnce(l2: seq<Assoc>, i: nat, j: nat, t: real)
    requires InOrder(l2) && i < j < |l2| && Complete(l2[i]) && Complete(l2[j])
    requires InWindow(t, PrevEnd(l2[..i]), l2[i].connS.value, l2[i].connE.value)
    ensures !InWindow(t, PrevEnd(l2[..j]), l2[j].connS.value, l2[j].connE.value)
  {
    assert InOrder(l2[..j]);
    assert l2[..j][i] == l2[i];
    PrevEndGrows(l2[..j], i);
  }
}
