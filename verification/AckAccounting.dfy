/**
 The packet loop of `server_tools/analyzer/lib/tcpparser.py`: bytes acknowledged per direction of
 each flow, counted from 32-bit acknowledgment numbers that wrap and arrive out of order
 (section 3.4 of RFC 9293).
 */
module AckAccounting {
  import opened Sequences

  const WORD := 0x1_0000_0000
  const HALF := 0x8000_0000

  datatype Dir = Client | Server

  function Other(d: Dir): Dir {
    if d == Client then Server else Client
  }

  /** `_FlowStat`: what was acknowledged of the data that this side sent. */
  datatype Stat = Stat(acked: int, firstSeq: Option<int>, lastAck: Option<int>)

  datatype Flow = Flow(client: Stat, server: Stat)

  const NEW := Flow(Stat(0, None, None), Stat(0, None, None))

  function Of(f: Flow, d: Dir): Stat {
    if d == Client then f.client else f.server
  }

  function With(f: Flow, d: Dir, s: Stat): (r: Flow)
    ensures Of(r, d) == s && Of(r, Other(d)) == Of(f, Other(d))
  {
    if d == Client then f.(client := s) else f.(server := s)
  }

  /** The distance from one acknowledgment number forward to another, modulo 2^32. */
  function Gap(ack: int, last: int): int {
    (ack - last + WORD) % WORD
  }

  function Accept(s: Stat, ack: int): Stat
    requires s.lastAck.Some?
  {
    var gap := Gap(ack, s.lastAck.value);
    if gap != 0 && gap < HALF then s.(lastAck := Some(ack), acked := s.acked + gap) else s
  }

  /** Once a side was heard, what it acknowledges has a last value. */
  predicate Wired(f: Flow) {
    forall d :: Of(f, d).firstSeq.Some? ==> Of(f, Other(d)).lastAck.Some?
  }

  /** One packet that side `from` sent. */
  function Step(f: Flow, from: Dir, seqNo: int, ack: int): (r: Flow)
    requires Wired(f)
    ensures Wired(r)
  {
    var to := Other(from);
    if Of(f, from).firstSeq.None? then
      var g := With(f, from, Of(f, from).(firstSeq := Some(seqNo), acked := 0));
      With(g, to, Of(g, to).(lastAck := Some(ack)))
    else With(f, to, Accept(Of(f, to), ack))
  }

  // ---- true acknowledgments of one flow ----

  /** A packet with its acknowledgment as it would be without the 32-bit limit. */
  datatype Segment = Segment(from: Dir, seqNo: int, ack: int)

  function Fold(segs: seq<Segment>): (f: Flow)
    ensures Wired(f)
  {
    if segs == [] then NEW
    else
      var last := segs[|segs| - 1];
      Step(Fold(segs[..|segs| - 1]), last.from, last.seqNo, last.ack % WORD)
  }

  predicate Seen(segs: seq<Segment>, d: Dir) {
    segs != [] && (segs[|segs| - 1].from == d || Seen(segs[..|segs| - 1], d))
  }

  /** The highest acknowledgment of what side `d` sent. */
  function Peak(segs: seq<Segment>, d: Dir): Option<int> {
    if segs == [] then None
    else
      var before, last := Peak(segs[..|segs| - 1], d), segs[|segs| - 1];
      if last.from == d then before
      else if before.None? || last.ack > before.value then Some(last.ack)
      else before
  }

  predicate Both(segs: seq<Segment>) {
    Seen(segs, Client) && Seen(segs, Server)
  }

  /** How many packets it took to hear both sides. */
  function Met(segs: seq<Segment>): (n: nat)
    requires Both(segs)
    ensures n <= |segs| && Both(segs[..n])
    ensures n > 0 && !Both(segs[..n - 1])
  {
    if Both(segs[..|segs| - 1]) then
      var n := Met(segs[..|segs| - 1]);
      assert segs[..|segs| - 1][..n] == segs[..n] && segs[..|segs| - 1][..n - 1] == segs[..n - 1];
      n
    else
      assert segs[..|segs|] == segs;
      |segs|
  }

  /** The highest acknowledgment when both sides had been heard; the first one if they have not. */
  function Base(segs: seq<Segment>, d: Dir): Option<int> {
    if Both(segs) then Peak(segs[..Met(segs)], d) else FirstAck(segs, d)
  }

  function FirstAck(segs: seq<Segment>, d: Dir): Option<int> {
    if segs == [] then None
    else if FirstAck(segs[..|segs| - 1], d).Some? then FirstAck(segs[..|segs| - 1], d)
    else if segs[|segs| - 1].from == d then None
    else Some(segs[|segs| - 1].ack)
  }

  // ---- one acknowledgment ----

  lemma {:induction false} GapOf(ack: int, m: int)
    ensures Gap(ack % WORD, m % WORD) == (ack - m) % WORD
  {
    var a, b := ack / WORD, m / WORD;
    assert ack == a * WORD + ack % WORD && m == b * WORD + m % WORD;
    ModShift(ack % WORD - m % WORD, a - b);
    ModShift(ack % WORD - m % WORD, 1);
  }

  lemma {:induction false} ModShift(x: int, k: int)
    ensures (x + k * WORD) % WORD == x % WORD
  {
    var q, r := x / WORD, x % WORD;
    assert x + k * WORD == (q + k) * WORD + r;
    ModUnique(x + k * WORD, q + k, r);
  }

  lemma {:induction false} ModUnique(x: int, q: int, r: int)
    requires x == q * WORD + r && 0 <= r < WORD
    ensures x % WORD == r && x / WORD == q
  {
  }

  function Max(a: int, b: int): int {
    if a > b then a else b
  }

  /** When counting one acknowledgment `ack` against a highest of `m` is right. */
  predicate Countable(ack: int, m: int) {
    if ack > m then ack - m < 0x8000_0000
    else (ack - m) % 0x1_0000_0000 == 0 || (ack - m) % 0x1_0000_0000 >= 0x8000_0000
  }

  /** The new highest value, and the bytes it adds, exactly when the acknowledgment is countable. */
  lemma {:induction false} AcceptIff(s: Stat, ack: int, m: int)
    requires s.lastAck == Some(m % WORD)
    ensures Accept(s, ack % WORD) == s.(lastAck := Some(Max(m, ack) % WORD), acked := s.acked + Max(m, ack) - m) <==>
            Countable(ack, m)
  {
    GapOf(ack, m);
    var gap := (ack - m) % WORD;
    if ack > m && ack - m < WORD {
      ModUnique(ack - m, 0, ack - m);
    }
  }

  lemma {:induction false} ReachIsCountable(ack: int, m: int)
    requires m - 0x8000_0000 <= ack < m + 0x8000_0000
    ensures Countable(ack, m)
  {
    if ack < m {
      ModUnique(ack - m, -1, ack - m + WORD);
    }
  }

  // ---- a whole flow ----

  /** What the counters should read. */
  ghost predicate Counts(s: Stat, segs: seq<Segment>, d: Dir) {
    (s.firstSeq.Some? <==> Seen(segs, d)) &&
    (Peak(segs, d).Some? <==> Seen(segs, Other(d))) && (Base(segs, d).Some? <==> Seen(segs, Other(d))) &&
    s.lastAck == (if Peak(segs, d).Some? then Some(Peak(segs, d).value % WORD) else None) &&
    s.acked == (if Peak(segs, d).Some? then Peak(segs, d).value - Base(segs, d).value else 0)
  }

  lemma {:induction false} HeardAlike(segs: seq<Segment>, d: Dir)
    ensures Peak(segs, d).Some? <==> Seen(segs, Other(d))
    ensures FirstAck(segs, d).Some? <==> Seen(segs, Other(d))
  {
    if segs != [] {
      HeardAlike(segs[..|segs| - 1], d);
    }
  }

  /** A packet from a side heard before moves no base. */
  lemma {:induction false} BaseStays(segs: seq<Segment>, d: Dir)
    requires segs != [] && Seen(segs[..|segs| - 1], segs[|segs| - 1].from)
    ensures Base(segs, d) == Base(segs[..|segs| - 1], d)
  {
    var before := segs[..|segs| - 1];
    HeardAlike(before, d);
    if Both(before) {
      assert before[..Met(before)] == segs[..Met(before)];
    }
  }

  /** With the first packet from a side, counting starts at the highest value so far. */
  lemma {:induction false} BaseStarts(segs: seq<Segment>, d: Dir)
    requires segs != [] && !Seen(segs[..|segs| - 1], segs[|segs| - 1].from)
    ensures Base(segs, d) == if Both(segs) || segs[|segs| - 1].from != d then Peak(segs, d) else None
  {
    HeardAlike(segs[..|segs| - 1], d);
    HeardAlike(segs, d);
    assert segs[..|segs|] == segs;
  }

  lemma {:induction false} FirstCounts(f: Flow, segs: seq<Segment>, d: Dir)
    requires segs != [] && Wired(f) && !Seen(segs[..|segs| - 1], segs[|segs| - 1].from)
    requires Counts(Of(f, d), segs[..|segs| - 1], d) && Of(f, segs[|segs| - 1].from).firstSeq.None?
    ensures var last := segs[|segs| - 1]; Counts(Of(Step(f, last.from, last.seqNo, last.ack % WORD), d), segs, d)
  {
    BaseStarts(segs, d);
    HeardAlike(segs, d);
    HeardAlike(segs[..|segs| - 1], d);
  }

  lemma {:induction false} LaterCountsIff(f: Flow, segs: seq<Segment>, d: Dir)
    requires segs != [] && Wired(f) && Seen(segs[..|segs| - 1], segs[|segs| - 1].from)
    requires Counts(Of(f, d), segs[..|segs| - 1], d) && Of(f, segs[|segs| - 1].from).firstSeq.Some?
    ensures var last := segs[|segs| - 1];
            Counts(Of(Step(f, last.from, last.seqNo, last.ack % WORD), d), segs, d) <==>
            (last.from != d ==> Countable(last.ack, Peak(segs[..|segs| - 1], d).value))
  {
    var before, last := segs[..|segs| - 1], segs[|segs| - 1];
    BaseStays(segs, d);
    if last.from != d {
      AcceptIff(Of(f, d), last.ack, Peak(before, d).value);
    }
  }

  /** Packet `i` acknowledges nothing yet, or is countable against the highest value before it. */
  predicate CountableAt(segs: seq<Segment>, i: nat)
    requires i < |segs|
  {
    var peak := Peak(segs[..i], Other(segs[i].from));
    peak.Some? ==> Countable(segs[i].ack, peak.value)
  }

  ghost predicate AllCountable(segs: seq<Segment>) {
    forall i :: 0 <= i < |segs| ==> CountableAt(segs, i)
  }

  ghost predicate CountsBoth(segs: seq<Segment>) {
    Counts(Of(Fold(segs), Client), segs, Client) && Counts(Of(Fold(segs), Server), segs, Server)
  }

  lemma {:induction false} CountsNext(segs: seq<Segment>, n: nat)
    requires n < |segs| && CountsBoth(segs[..n])
    ensures CountsBoth(segs[..n + 1]) <==> CountableAt(segs, n)
  {
    var before, upTo, last := segs[..n], segs[..n + 1], segs[n];
    assert upTo[..|upTo| - 1] == before && upTo[|upTo| - 1] == last;
    HeardAlike(before, Other(last.from));
    if Seen(before, last.from) {
      LaterCountsIff(Fold(before), upTo, Client);
      LaterCountsIff(Fold(before), upTo, Server);
    } else {
      FirstCounts(Fold(before), upTo, Client);
      FirstCounts(Fold(before), upTo, Server);
    }
  }

  lemma {:induction false} CountsUpTo(segs: seq<Segment>, n: nat)
    requires n <= |segs| && forall i :: 0 <= i < n ==> CountableAt(segs, i)
    ensures CountsBoth(segs[..n])
  {
    if n > 0 {
      CountsUpTo(segs, n - 1);
      CountsNext(segs, n - 1);
    }
  }

  /**
   Over any reordering and any number of wraps, the last acknowledgment is the highest one modulo
   2^32, and the count is the highest one minus what it was when both sides had been heard: after
   every packet exactly when every packet is countable.
   */
  lemma {:induction false} FoldCountsIff(segs: seq<Segment>)
    ensures (forall n :: 0 <= n <= |segs| ==> CountsBoth(segs[..n])) <==> AllCountable(segs)
  {
    if AllCountable(segs) {
      forall n | 0 <= n <= |segs| ensures CountsBoth(segs[..n]) {
        CountsUpTo(segs, n);
      }
    } else {
      var i :| 0 <= i < |segs| && !CountableAt(segs, i);
      if CountsBoth(segs[..i]) {
        CountsNext(segs, i);
        assert !CountsBoth(segs[..i + 1]);
      }
    }
  }

  /** The sequence number of the first packet from the side. */
  function FirstSeq(segs: seq<Segment>, d: Dir): Option<int> {
    if segs == [] then None
    else if segs[0].from == d then Some(segs[0].seqNo) else FirstSeq(segs[1..], d)
  }

  lemma {:induction false} FirstSeqNext(segs: seq<Segment>, d: Dir)
    requires segs != []
    ensures var before, last := FirstSeq(segs[..|segs| - 1], d), segs[|segs| - 1];
            FirstSeq(segs, d) == if before.Some? then before else if last.from == d then Some(last.seqNo) else None
  {
    if |segs| > 1 {
      FirstSeqNext(segs[1..], d);
      assert segs[1..][..|segs| - 2] == segs[..|segs| - 1][1..];
    }
  }

  /** Whatever the acknowledgments, the first sequence number of each side is kept. */
  lemma {:induction false} FirstSeqKept(segs: seq<Segment>, d: Dir)
    ensures Of(Fold(segs), d).firstSeq == FirstSeq(segs, d)
  {
    if segs != [] {
      var before, last := segs[..|segs| - 1], segs[|segs| - 1];
      FirstSeqKept(before, d);
      FirstSeqKept(before, last.from);
      FirstSeqNext(segs, d);
    }
  }

  lemma {:induction false} FoldCounts(segs: seq<Segment>, d: Dir)
    requires AllCountable(segs)
    ensures Counts(Of(Fold(segs), d), segs, d)
  {
    CountsUpTo(segs, |segs|);
    assert segs[..|segs|] == segs;
  }

  /** Every acknowledgment is within half the number space of the highest before it. */
  ghost predicate InReach(segs: seq<Segment>) {
    forall i :: 0 <= i < |segs| ==>
      var m := Peak(segs[..i], Other(segs[i].from));
      m.Some? ==> m.value - 0x8000_0000 <= segs[i].ack < m.value + 0x8000_0000
  }

  lemma {:induction false} InReachCountable(segs: seq<Segment>)
    requires InReach(segs)
    ensures AllCountable(segs)
  {
    forall i | 0 <= i < |segs| ensures CountableAt(segs, i) {
      var m := Peak(segs[..i], Other(segs[i].from));
      if m.Some? {
        ReachIsCountable(segs[i].ack, m.value);
      }
    }
  }

  // ---- the loop over all packets ----

  /** `E` is an address and a port. */
  datatype Packet<E> = Packet(tcp: bool, ackSet: bool, src: E, dst: E, seqNo: int, ack: int)

  type Key<E> = (E, E)

  function Keys<E(==)>(order: seq<Key<E>>): set<Key<E>> {
    set key | key in order
  }

  /** The flow a packet belongs to, and the side that sent it; `None` if it is skipped. */
  function Route<E(==)>(keys: set<Key<E>>, p: Packet<E>): Option<(Key<E>, Dir)> {
    if !p.tcp || !p.ackSet then None
    else if (p.src, p.dst) in keys then Some(((p.src, p.dst), Client))
    else if (p.dst, p.src) in keys then Some(((p.dst, p.src), Server))
    else None
  }

  /** Which flow and side a packet belongs to, by its flags and endpoints. */
  lemma {:induction false} RouteIff<E>(keys: set<Key<E>>, p: Packet<E>, key: Key<E>)
    ensures Route(keys, p) == Some((key, Client)) <==> p.tcp && p.ackSet && key == (p.src, p.dst) && key in keys
    ensures Route(keys, p) == Some((key, Server)) <==>
            p.tcp && p.ackSet && key == (p.dst, p.src) && key in keys && (p.src, p.dst) !in keys
    ensures Route(keys, p) == None <==> !p.tcp || !p.ackSet || ((p.src, p.dst) !in keys && (p.dst, p.src) !in keys)
  {
  }

  /** The packets of one flow, on their own. */
  function FlowOf<E(==)>(keys: set<Key<E>>, pkts: seq<Packet<E>>, key: Key<E>): (f: Flow)
    ensures Wired(f)
  {
    if pkts == [] then NEW
    else
      var before, last := FlowOf(keys, pkts[..|pkts| - 1], key), pkts[|pkts| - 1];
      var to := Route(keys, last);
      if to.Some? && to.value.0 == key then Step(before, to.value.1, last.seqNo, last.ack) else before
  }

  class FlowStats {
    var client: Stat
    var server: Stat

    function View(): Flow
      reads this
    {
      Flow(client, server)
    }

    constructor ()
      ensures View() == NEW
    {
      client, server := Stat(0, None, None), Stat(0, None, None);
    }

    method Put(d: Dir, s: Stat)
      modifies this
      ensures View() == With(old(View()), d, s)
    {
      if d == Client {
        client := s;
      } else {
        server := s;
      }
    }

    /** The body of the packet loop, for a packet of this flow. */
    method Feed(from: Dir, seqNo: int, ack: int)
      requires Wired(View())
      modifies this
      ensures View() == Step(old(View()), from, seqNo, ack)
    {
      var to := Other(from);
      if Of(View(), from).firstSeq.None? {
        Put(from, Of(View(), from).(firstSeq := Some(seqNo), acked := 0));
        Put(to, Of(View(), to).(lastAck := Some(ack)));
      } else {
        var gap := (ack - Of(View(), to).lastAck.value + WORD) % WORD;
        if gap != 0 {
          if gap < HALF {
            Put(to, Of(View(), to).(lastAck := Some(ack), acked := Of(View(), to).acked + gap));
          }
        }
      }
    }
  }

  /** Sum over the flows of what was acknowledged in one direction. */
  function Total<E(==)>(order: seq<Key<E>>, keys: set<Key<E>>, pkts: seq<Packet<E>>, d: Dir): int {
    if order == [] then 0
    else Total(order[..|order| - 1], keys, pkts, d) + Of(FlowOf(keys, pkts, order[|order| - 1]), d).acked
  }

  lemma {:induction false} NextPacket<E>(keys: set<Key<E>>, pkts: seq<Packet<E>>, i: nat, key: Key<E>)
    requires i < |pkts|
    ensures var to := Route(keys, pkts[i]);
            FlowOf(keys, pkts[..i + 1], key) ==
            if to.Some? && to.value.0 == key
            then Step(FlowOf(keys, pkts[..i], key), to.value.1, pkts[i].seqNo, pkts[i].ack)
            else FlowOf(keys, pkts[..i], key)
  {
    assert pkts[..i + 1][..i] == pkts[..i];
  }

  /** Each flow's counters depend on its own packets only, in whatever order the flows interleave. */
  method Count<E(==, !new)>(pkts: seq<Packet<E>>, order: seq<Key<E>>, selector: Dir) returns (total: int)
    ensures total == Total(order, Keys(order), pkts, selector)
    ensures forall truth :: Truthful(order, Keys(order), pkts, truth) ==>
              total == TrueTotal(order, Keys(order), pkts, truth, selector)
  {
    ghost var keys := Keys(order);
    var flows := NewFlows(order);
    var i := 0;
    while i < |pkts|
      invariant 0 <= i <= |pkts|
      invariant forall key :: key in flows ==> flows[key].View() == FlowOf(keys, pkts[..i], key)
    {
      var p := pkts[i];
      forall key | key in flows { NextPacket(keys, pkts, i, key); }
      if p.tcp && p.ackSet {
        if (p.src, p.dst) in flows {
          var f := flows[(p.src, p.dst)];
          f.Feed(Client, p.seqNo, p.ack);
        } else if (p.dst, p.src) in flows {
          var f := flows[(p.dst, p.src)];
          f.Feed(Server, p.seqNo, p.ack);
        }
      }
      i := i + 1;
    }
    assert pkts[..i] == pkts;
    total := SumUp(flows, order, keys, pkts, selector);
    forall truth | Truthful(order, keys, pkts, truth) ensures total == TrueTotal(order, keys, pkts, truth, selector) {
      TotalIsTrue(order, keys, pkts, truth, selector);
    }
  }

  method SumUp<E(==)>(flows: map<Key<E>, FlowStats>, order: seq<Key<E>>, ghost keys: set<Key<E>>,
                      ghost pkts: seq<Packet<E>>, selector: Dir) returns (total: int)
    requires forall key :: key in order ==> key in flows && flows[key].View() == FlowOf(keys, pkts, key)
    ensures total == Total(order, keys, pkts, selector)
  {
    total := 0;
    var i := 0;
    while i < |order|
      invariant 0 <= i <= |order| && total == Total(order[..i], keys, pkts, selector)
    {
      assert order[..i + 1][..i] == order[..i];
      assert order[i] in order;
      total := total + Of(flows[order[i]].View(), selector).acked;
      i := i + 1;
    }
    assert order[..i] == order;
  }

  method NewFlows<E(==)>(order: seq<Key<E>>) returns (flows: map<Key<E>, FlowStats>)
    ensures forall key :: key in flows <==> key in order
    ensures forall a, b :: a in flows && b in flows && a != b ==> flows[a] != flows[b]
    ensures forall key :: key in flows ==> fresh(flows[key]) && flows[key].View() == NEW
  {
    flows := map[];
    var i := 0;
    while i < |order|
      invariant 0 <= i <= |order|
      invariant forall key :: key in flows <==> key in order[..i]
      invariant forall a, b :: a in flows && b in flows && a != b ==> flows[a] != flows[b]
      invariant forall key :: key in flows ==> fresh(flows[key]) && flows[key].View() == NEW
    {
      var f := new FlowStats();
      flows := flows[order[i] := f];
      i := i + 1;
    }
    assert order[..i] == order;
  }

  // ---- all flows against their true acknowledgments ----

  /** What a packet says on a flow: from its client to its server, or back unless that is a flow of its own. */
  function Said<E(==)>(keys: set<Key<E>>, p: Packet<E>, truth: int, key: Key<E>): seq<Segment> {
    if !(p.tcp && p.ackSet) || key !in keys then []
    else if p.src == key.0 && p.dst == key.1 then [Segment(Client, p.seqNo, truth)]
    else if p.src == key.1 && p.dst == key.0 && (p.src, p.dst) !in keys then [Segment(Server, p.seqNo, truth)]
    else []
  }

  /** The segments of one flow, with the true values behind their acknowledgments. */
  function SegmentsOf<E(==)>(keys: set<Key<E>>, pkts: seq<Packet<E>>, truth: seq<int>, key: Key<E>): seq<Segment>
    requires |truth| == |pkts|
  {
    if pkts == [] then []
    else
      var n := |pkts| - 1;
      SegmentsOf(keys, pkts[..n], truth[..n], key) + Said(keys, pkts[n], truth[n], key)
  }

  /** With no flow the other way round, a side is told by the endpoints alone. */
  lemma {:induction false} SaidIs<E>(keys: set<Key<E>>, p: Packet<E>, truth: int, key: Key<E>)
    requires key in keys && key.0 != key.1 && (key.1, key.0) !in keys
    ensures Said(keys, p, truth, key) == [Segment(Client, p.seqNo, truth)] <==>
            p.tcp && p.ackSet && (p.src, p.dst) == key
    ensures Said(keys, p, truth, key) == [Segment(Server, p.seqNo, truth)] <==>
            p.tcp && p.ackSet && (p.dst, p.src) == key
  {
    assert Said(keys, p, truth, key) != [] ==> Said(keys, p, truth, key)[0].from in {Client, Server};
  }

  lemma {:induction false} FlowIsFold<E>(keys: set<Key<E>>, pkts: seq<Packet<E>>, truth: seq<int>, key: Key<E>)
    requires |truth| == |pkts| && forall i :: 0 <= i < |pkts| ==> pkts[i].ack == truth[i] % WORD
    ensures FlowOf(keys, pkts, key) == Fold(SegmentsOf(keys, pkts, truth, key))
  {
    if pkts != [] {
      var n := |pkts| - 1;
      FlowIsFold(keys, pkts[..n], truth[..n], key);
      RouteIff(keys, pkts[n], key);
      var before, said := SegmentsOf(keys, pkts[..n], truth[..n], key), Said(keys, pkts[n], truth[n], key);
      if said == [] {
        assert before + said == before;
      } else {
        assert (before + said)[..|before|] == before;
      }
    }
  }

  /** Bytes of side `d` acknowledged since both sides had been heard, by the true values. */
  function TrueBytes(segs: seq<Segment>, d: Dir): int {
    if Peak(segs, d).Some? && Base(segs, d).Some? then Peak(segs, d).value - Base(segs, d).value else 0
  }

  function TrueTotal<E(==)>(order: seq<Key<E>>, keys: set<Key<E>>, pkts: seq<Packet<E>>, truth: seq<int>, d: Dir): int
    requires |truth| == |pkts|
  {
    if order == [] then 0
    else TrueTotal(order[..|order| - 1], keys, pkts, truth, d) +
         TrueBytes(SegmentsOf(keys, pkts, truth, order[|order| - 1]), d)
  }

  lemma {:induction false} FlowBytes<E>(keys: set<Key<E>>, pkts: seq<Packet<E>>, truth: seq<int>, key: Key<E>, d: Dir)
    requires |truth| == |pkts| && forall i :: 0 <= i < |pkts| ==> pkts[i].ack == truth[i] % WORD
    requires AllCountable(SegmentsOf(keys, pkts, truth, key))
    ensures Of(FlowOf(keys, pkts, key), d).acked == TrueBytes(SegmentsOf(keys, pkts, truth, key), d)
  {
    FlowIsFold(keys, pkts, truth, key);
    FoldCounts(SegmentsOf(keys, pkts, truth, key), d);
  }

  /** `truth` holds the values behind the 32-bit acknowledgments, and every flow can be counted. */
  ghost predicate Truthful<E(!new)>(order: seq<Key<E>>, keys: set<Key<E>>, pkts: seq<Packet<E>>, truth: seq<int>) {
    |truth| == |pkts| && (forall i :: 0 <= i < |pkts| ==> pkts[i].ack == truth[i] % WORD) &&
    forall k :: 0 <= k < |order| ==> AllCountable(SegmentsOf(keys, pkts, truth, order[k]))
  }

  /** The total over all flows, when every flow's acknowledgments are countable. */
  lemma {:induction false} TotalIsTrue<E(!new)>(order: seq<Key<E>>, keys: set<Key<E>>, pkts: seq<Packet<E>>, truth: seq<int>, d: Dir)
    requires Truthful(order, keys, pkts, truth)
    ensures Total(order, keys, pkts, d) == TrueTotal(order, keys, pkts, truth, d)
  {
    if order != [] {
      TotalIsTrue(order[..|order| - 1], keys, pkts, truth, d);
      FlowBytes(keys, pkts, truth, order[|order| - 1], d);
    }
  }
}
