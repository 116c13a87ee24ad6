/**
 Cursors that go round a list and stop at the next wanted item: the frequency probe of
 `bgscan_learn.c` and the triplet database of `hlr_auc_gw.c`. `w[i]` says whether item `i` is wanted.
 */
module Rotation {
  import opened Sequences

  /** First wanted item from `i` on and before `n`, or `n`. */
  function From(w: seq<bool>, i: nat, n: nat): (r: nat)
    requires i <= n <= |w|
    ensures i <= r <= n && (r < n ==> w[r])
    decreases n - i
  {
    if i == n || w[i] then i else From(w, i + 1, n)
  }

  lemma {:induction false} FromIs(w: seq<bool>, i: nat, n: nat, r: nat)
    requires i <= r <= n <= |w| && (forall k :: i <= k < r ==> !w[k]) && (r < n ==> w[r])
    ensures From(w, i, n) == r
    decreases r - i
  {
    if i < r {
      FromIs(w, i + 1, n, r);
    }
  }

  lemma {:induction false} FromSkips(w: seq<bool>, i: nat, n: nat)
    requires i <= n <= |w|
    ensures forall k :: i <= k < From(w, i, n) ==> !w[k]
    decreases n - i
  {
    if i < n && !w[i] {
      FromSkips(w, i + 1, n);
    }
  }

  /** First wanted item from the cursor to the end, then from the beginning to the cursor. */
  function Seek(w: seq<bool>, c: nat): (r: Option<nat>)
    requires c <= |w|
    ensures r.Some? ==> r.value < |w| && w[r.value]
  {
    var a := From(w, c, |w|);
    if a < |w| then Some(a)
    else
      var b := From(w, 0, c);
      if b < c then Some(b) else None
  }

  /** The wanted items before `n`, in order. */
  function Hits(w: seq<bool>, n: nat): seq<nat>
    requires n <= |w|
  {
    if n == 0 then [] else if w[n - 1] then Hits(w, n - 1) + [n - 1] else Hits(w, n - 1)
  }

  lemma {:induction false} HitsAreWanted(w: seq<bool>, n: nat, i: nat)
    requires n <= |w| && i < |Hits(w, n)|
    ensures Hits(w, n)[i] < n && w[Hits(w, n)[i]]
  {
    if i < |Hits(w, n - 1)| {
      HitsAreWanted(w, n - 1, i);
    }
  }

  lemma {:induction false} HitsIncrease(w: seq<bool>, n: nat, i: nat, j: nat)
    requires n <= |w| && i < j < |Hits(w, n)|
    ensures Hits(w, n)[i] < Hits(w, n)[j]
  {
    if j < |Hits(w, n - 1)| {
      HitsIncrease(w, n - 1, i, j);
    } else {
      HitsAreWanted(w, n - 1, i);
    }
  }

  lemma {:induction false} HitsGrow(w: seq<bool>, m: nat, n: nat)
    requires m <= n <= |w|
    ensures Hits(w, m) <= Hits(w, n)
  {
    if m < n {
      HitsGrow(w, m, n - 1);
    }
  }

  lemma {:induction false} HitsSame(w: seq<bool>, m: nat, n: nat)
    requires m <= n <= |w| && forall k :: m <= k < n ==> !w[k]
    ensures Hits(w, m) == Hits(w, n)
  {
    if m < n {
      HitsSame(w, m, n - 1);
    }
  }

  /** A wanted item is as many hits in as there are wanted ones before it. */
  lemma {:induction false} HitAt(w: seq<bool>, h: nat)
    requires h < |w| && w[h]
    ensures |Hits(w, h)| < |Hits(w, |w|)| && Hits(w, |w|)[|Hits(w, h)|] == h
    ensures |Hits(w, h + 1)| == |Hits(w, h)| + 1
  {
    HitsGrow(w, h + 1, |w|);
  }

  /** Hit number `j` has `j` hits before it. */
  lemma {:induction false} HitNumber(w: seq<bool>, j: nat)
    requires j < |Hits(w, |w|)|
    ensures var h := Hits(w, |w|)[j]; h < |w| && w[h] && |Hits(w, h)| == j
  {
    HitsAreWanted(w, |w|, j);
    var h := Hits(w, |w|)[j];
    HitAt(w, h);
    var r := |Hits(w, h)|;
    if r < j { HitsIncrease(w, |w|, r, j); }
    if j < r { HitsIncrease(w, |w|, j, r); }
  }

  /** `a` modulo `k`. */
  function Wrap(a: nat, k: nat): (r: nat)
    requires k > 0
    ensures r < k
  {
    if a < k then a else Wrap(a - k, k)
  }

  lemma {:induction false} WrapNext(a: nat, k: nat)
    requires k > 0
    ensures Wrap(Wrap(a, k) + 1, k) == Wrap(a + 1, k)
  {
    if a >= k {
      WrapNext(a - k, k);
    }
  }

  lemma {:induction false} WrapDiffers(a: nat, b: nat, k: nat)
    requires a < b < a + k
    ensures Wrap(a, k) != Wrap(b, k)
  {
    if a >= k {
      WrapDiffers(a - k, b - k, k);
    } else if b >= k {
      assert Wrap(b, k) == b - k;
    }
  }

  /** Seeking finds the next hit in cyclic order. */
  lemma {:induction false} SeekIsHit(w: seq<bool>, c: nat)
    requires c <= |w| && Hits(w, |w|) != []
    ensures var hits := Hits(w, |w|);
            |Hits(w, c)| <= |hits| && Seek(w, c) == Some(hits[Wrap(|Hits(w, c)|, |hits|)])
  {
    var hits := Hits(w, |w|);
    HitsGrow(w, c, |w|);
    FromSkips(w, c, |w|);
    FromSkips(w, 0, c);
    var a, b := From(w, c, |w|), From(w, 0, c);
    if a < |w| {
      HitsSame(w, c, a);
      HitAt(w, a);
    } else {
      HitsSame(w, c, |w|);
      if b == c { HitsSame(w, 0, c); }
      HitsSame(w, 0, b);
      HitAt(w, b);
      assert Wrap(|hits|, |hits|) == 0;
    }
  }

  // ---- repeated calls ----

  /** Where the cursor goes after item `h`: past it, and back to the start if `wraps` and the list ends there. */
  function Advance(n: nat, h: nat, wraps: bool): (c: nat)
    requires h < n
    ensures c <= n
  {
    if wraps && h + 1 == n then 0 else h + 1
  }

  /** The cursor after one call; it stays where it is if nothing is wanted. */
  function Moved(w: seq<bool>, c: nat, wraps: bool): (r: nat)
    requires c <= |w|
    ensures r <= |w|
  {
    var h := Seek(w, c);
    if h.Some? then Advance(|w|, h.value, wraps) else c
  }

  /** The cursor after `i` calls. */
  function Cursor(w: seq<bool>, c: nat, wraps: bool, i: nat): (r: nat)
    requires c <= |w|
    ensures r <= |w|
  {
    if i == 0 then c else Moved(w, Cursor(w, c, wraps, i - 1), wraps)
  }

  /** What call number `i` finds, counting from 0. */
  function Turn(w: seq<bool>, c: nat, wraps: bool, i: nat): Option<nat>
    requires c <= |w|
  {
    Seek(w, Cursor(w, c, wraps, i))
  }

  /** `found` is what the first calls find. */
  ghost predicate TurnsFind(w: seq<bool>, c: nat, wraps: bool, found: seq<nat>)
    requires c <= |w|
  {
    forall i :: 0 <= i < |found| ==> Turn(w, c, wraps, i) == Some(found[i])
  }

  lemma {:induction false} TurnsFindNext(w: seq<bool>, c: nat, wraps: bool, found: seq<nat>, h: nat)
    requires c <= |w| && TurnsFind(w, c, wraps, found) && Seek(w, Cursor(w, c, wraps, |found|)) == Some(h)
    ensures TurnsFind(w, c, wraps, found + [h])
  {
    assert forall i :: 0 <= i < |found| ==> (found + [h])[i] == found[i];
  }

  /** The cursor past hit number `j` stands before hit number `j` + 1. */
  lemma {:induction false} AdvanceRank(w: seq<bool>, h: nat, wraps: bool)
    requires h < |w| && w[h]
    ensures var k := |Hits(w, |w|)|;
            k > 0 && Wrap(|Hits(w, Advance(|w|, h, wraps))|, k) == Wrap(|Hits(w, h)| + 1, k)
  {
    HitAt(w, h);
    if wraps && h + 1 == |w| {
      assert Wrap(|Hits(w, |w|)|, |Hits(w, |w|)|) == 0;
    }
  }

  /** Which hit comes next at a cursor. */
  function Rank(w: seq<bool>, c: nat): nat
    requires c <= |w| && Hits(w, |w|) != []
  {
    Wrap(|Hits(w, c)|, |Hits(w, |w|)|)
  }

  lemma {:induction false} StepRank(w: seq<bool>, c: nat, wraps: bool)
    requires c <= |w| && Hits(w, |w|) != []
    ensures Rank(w, Moved(w, c, wraps)) == Wrap(Rank(w, c) + 1, |Hits(w, |w|)|)
  {
    SeekIsHit(w, c);
    HitNumber(w, Wrap(|Hits(w, c)|, |Hits(w, |w|)|));
    AdvanceRank(w, Seek(w, c).value, wraps);
  }

  lemma {:induction false} CursorRank(w: seq<bool>, c: nat, wraps: bool, i: nat)
    requires c <= |w| && Hits(w, |w|) != []
    ensures Rank(w, Cursor(w, c, wraps, i)) == Wrap(|Hits(w, c)| + i, |Hits(w, |w|)|)
  {
    if i > 0 {
      CursorRank(w, c, wraps, i - 1);
      StepRank(w, Cursor(w, c, wraps, i - 1), wraps);
      WrapNext(|Hits(w, c)| + i - 1, |Hits(w, |w|)|);
    }
  }

  /** Call number `i` finds the hit that is `i` places on in cyclic order. */
  lemma {:induction false} TurnIsHit(w: seq<bool>, c: nat, wraps: bool, i: nat, j: nat)
    requires c <= |w| && Hits(w, |w|) != [] && j == Wrap(|Hits(w, c)| + i, |Hits(w, |w|)|)
    ensures Turn(w, c, wraps, i) == Some(Hits(w, |w|)[j])
  {
    CursorRank(w, c, wraps, i);
    SeekIsHit(w, Cursor(w, c, wraps, i));
  }

  /** Any round of as many calls as there are wanted items finds no item twice. */
  lemma {:induction false} TurnsDiffer(w: seq<bool>, c: nat, wraps: bool, i: nat, j: nat)
    requires c <= |w| && i < j < i + |Hits(w, |w|)|
    ensures Turn(w, c, wraps, i) != Turn(w, c, wraps, j)
  {
    var k := |Hits(w, |w|)|;
    var a, b := Wrap(|Hits(w, c)| + i, k), Wrap(|Hits(w, c)| + j, k);
    TurnIsHit(w, c, wraps, i, a);
    TurnIsHit(w, c, wraps, j, b);
    WrapDiffers(|Hits(w, c)| + i, |Hits(w, c)| + j, k);
    if a < b {
      HitsIncrease(w, |w|, a, b);
    } else {
      HitsIncrease(w, |w|, b, a);
    }
  }

  /** And finds every wanted item. */
  lemma {:induction false} TurnsCover(w: seq<bool>, c: nat, wraps: bool, p: nat) returns (i: nat)
    requires c <= |w| && p < |w| && w[p]
    ensures i < |Hits(w, |w|)| && Turn(w, c, wraps, i) == Some(p)
  {
    HitAt(w, p);
    HitsGrow(w, c, |w|);
    var k, r, j := |Hits(w, |w|)|, |Hits(w, c)|, |Hits(w, p)|;
    i := if r <= j then j - r else j + k - r;
    TurnIsHit(w, c, wraps, i, j);
  }

  lemma {:induction false} WrapRound(a: nat, k: nat)
    requires k > 0
    ensures Wrap(a + k, k) == Wrap(a, k)
  {
  }

  /** The next round repeats the same order. */
  lemma {:induction false} TurnsRepeat(w: seq<bool>, c: nat, wraps: bool, i: nat)
    requires c <= |w| && Hits(w, |w|) != []
    ensures Turn(w, c, wraps, i + |Hits(w, |w|)|) == Turn(w, c, wraps, i)
  {
    var k := |Hits(w, |w|)|;
    var j := Wrap(|Hits(w, c)| + i, k);
    WrapRound(|Hits(w, c)| + i, k);
    TurnIsHit(w, c, wraps, i, j);
    TurnIsHit(w, c, wraps, i + k, j);
  }
}

/** The frequency probe of `bgscan_learn.c`: frequencies already known, plus one that is not, in turn. */
module FreqProbe {
  import opened Sequences
  import opened Rotation

  /** `in_array`: among the entries before the first zero. */
  predicate InArray(a: seq<int>, v: int) {
    a != [] && a[0] != 0 && (a[0] == v || InArray(a[1..], v))
  }

  lemma {:induction false} InArrayIff(a: seq<int>, v: int)
    ensures InArray(a, v) <==> exists i :: 0 <= i < |a| && a[i] == v && forall j :: 0 <= j <= i ==> a[j] != 0
  {
    if a != [] {
      InArrayIff(a[1..], v);
      assert forall i :: 0 <= i < |a[1..]| ==> a[1..][i] == a[i + 1];
      if i :| 0 <= i < |a| && a[i] == v && forall j :: 0 <= j <= i ==> a[j] != 0 {
        if i > 0 {
          assert a[1..][i - 1] == v && a[0] != 0;
          assert forall j :: 0 <= j <= i - 1 ==> a[1..][j] != 0;
        }
      }
      if InArray(a[1..], v) && a[0] != 0 {
        var i :| 0 <= i < |a[1..]| && a[1..][i] == v && forall j :: 0 <= j <= i ==> a[1..][j] != 0;
        assert a[i + 1] == v && forall j :: 0 <= j <= i + 1 ==> a[j] == if j == 0 then a[0] else a[1..][j - 1];
      }
    }
  }

  method InArrayLoop(a: seq<int>, v: int) returns (found: bool)
    ensures found == InArray(a, v)
  {
    var i := 0;
    while i < |a| && a[i] != 0
      invariant 0 <= i <= |a| && InArray(a, v) == InArray(a[i..], v)
    {
      TailOfTail(a, i);
      if a[i] == v {
        return true;
      }
      i := i + 1;
    }
    return false;
  }

  ghost predicate NoZero(a: seq<int>) {
    forall i :: 0 <= i < |a| ==> a[i] != 0
  }

  lemma {:induction false} InArrayIsIn(a: seq<int>, v: int)
    requires NoZero(a)
    ensures InArray(a, v) <==> v in a
  {
    if a != [] {
      InArrayIsIn(a[1..], v);
      assert a == [a[0]] + a[1..];
    }
  }

  /** Entries appended unless they are there already. */
  function Dedup(values: seq<int>): seq<int> {
    if values == [] then []
    else
      var before, last := Dedup(values[..|values| - 1]), values[|values| - 1];
      if InArray(before, last) then before else before + [last]
  }

  /** Without zeros, that is every value once. */
  lemma {:induction false} DedupIsSet(values: seq<int>)
    requires NoZero(values)
    ensures NoZero(Dedup(values)) && Distinct(Dedup(values)) && forall v :: v in Dedup(values) <==> v in values
  {
    if values != [] {
      var front, last := values[..|values| - 1], values[|values| - 1];
      DedupIsSet(front);
      InArrayIsIn(Dedup(front), last);
      assert values == front + [last];
    }
  }

  datatype Channel = Channel(freq: int, disabled: bool)

  /** The frequencies of the enabled channels of all modes. */
  function Enabled(channels: seq<Channel>): seq<int> {
    if channels == [] then []
    else
      var before, last := Enabled(channels[..|channels| - 1]), channels[|channels| - 1];
      if last.disabled then before else before + [last.freq]
  }

  function AllChannels(modes: seq<seq<Channel>>): seq<Channel> {
    if modes == [] then [] else AllChannels(modes[..|modes| - 1]) + modes[|modes| - 1]
  }

  /** The frequencies of the enabled channels of any mode, and no others. */
  lemma {:induction false} EnabledIff(channels: seq<Channel>, v: int)
    ensures v in Enabled(channels) <==> exists c :: c in channels && !c.disabled && c.freq == v
  {
    if channels != [] {
      var front, last := channels[..|channels| - 1], channels[|channels| - 1];
      EnabledIff(front, v);
      assert channels == front + [last];
    }
  }

  lemma {:induction false} SupportedIff(modes: seq<seq<Channel>>, v: int)
    ensures v in Enabled(AllChannels(modes)) <==>
            exists m, c :: m in modes && c in m && !c.disabled && c.freq == v
  {
    EnabledIff(AllChannels(modes), v);
    forall c ensures c in AllChannels(modes) <==> exists m :: m in modes && c in m {
      InAllChannels(modes, c);
    }
  }

  lemma {:induction false} InAllChannels(modes: seq<seq<Channel>>, c: Channel)
    ensures c in AllChannels(modes) <==> exists m :: m in modes && c in m
  {
    if modes != [] {
      var front, last := modes[..|modes| - 1], modes[|modes| - 1];
      InAllChannels(front, c);
      assert modes == front + [last];
    }
  }

  lemma {:induction false} EnabledNext(channels: seq<Channel>, c: Channel)
    ensures Enabled(channels + [c]) == if c.disabled then Enabled(channels) else Enabled(channels) + [c.freq]
    ensures Dedup(Enabled(channels) + [c.freq]) ==
            if InArray(Dedup(Enabled(channels)), c.freq) then Dedup(Enabled(channels))
            else Dedup(Enabled(channels)) + [c.freq]
  {
    assert (channels + [c])[..|channels|] == channels;
    assert (Enabled(channels) + [c.freq])[..|Enabled(channels)|] == Enabled(channels);
  }

  lemma {:induction false} ChannelNext(sofar: seq<Channel>, channels: seq<Channel>, j: nat)
    requires j < |channels|
    ensures var known, c := Dedup(Enabled(sofar + channels[..j])), channels[j];
            Dedup(Enabled(sofar + channels[..j + 1])) ==
            if c.disabled || InArray(known, c.freq) then known else known + [c.freq]
  {
    EnabledNext(sofar + channels[..j], channels[j]);
    assert sofar + channels[..j] + [channels[j]] == sofar + channels[..j + 1];
  }

  /** The loop over the channels of one mode. */
  method AddChannels(known: seq<int>, channels: seq<Channel>, ghost sofar: seq<Channel>) returns (freqs: seq<int>)
    requires known == Dedup(Enabled(sofar))
    ensures freqs == Dedup(Enabled(sofar + channels))
  {
    freqs := known;
    var j := 0;
    assert sofar + channels[..0] == sofar;
    while j < |channels|
      invariant 0 <= j <= |channels| && freqs == Dedup(Enabled(sofar + channels[..j]))
    {
      ChannelNext(sofar, channels, j);
      if !channels[j].disabled {
        var seen := InArrayLoop(freqs, channels[j].freq);
        if !seen {
          freqs := freqs + [channels[j].freq];
        }
      }
      j := j + 1;
    }
    assert channels[..j] == channels;
  }

  /** `bgscan_learn_get_supp_freqs`: the enabled frequencies, each once. */
  method GetSuppFreqs(modes: seq<seq<Channel>>) returns (freqs: seq<int>)
    ensures freqs == Dedup(Enabled(AllChannels(modes)))
    ensures (forall m, c :: m in modes && c in m && !c.disabled ==> c.freq != 0) ==>
              Distinct(freqs) && forall v :: v in freqs <==> exists m, c :: m in modes && c in m && !c.disabled && c.freq == v
  {
    freqs := [];
    var i := 0;
    while i < |modes|
      invariant 0 <= i <= |modes| && freqs == Dedup(Enabled(AllChannels(modes[..i])))
    {
      assert modes[..i + 1][..i] == modes[..i];
      freqs := AddChannels(freqs, modes[i], AllChannels(modes[..i]));
      i := i + 1;
    }
    assert modes[..i] == modes;
    if forall m, c :: m in modes && c in m && !c.disabled ==> c.freq != 0 {
      ghost var enabled := Enabled(AllChannels(modes));
      forall v ensures v in enabled <==> exists m, c :: m in modes && c in m && !c.disabled && c.freq == v {
        SupportedIff(modes, v);
      }
      assert forall i :: 0 <= i < |enabled| ==> enabled[i] in enabled;
      DedupIsSet(enabled);
    }
  }

  /** `bgscan_learn_get_freqs`: the frequencies of the learned entries, each once. */
  method GetFreqs(learned: seq<int>) returns (freqs: seq<int>)
    ensures freqs == Dedup(learned)
  {
    freqs := [];
    var i := 0;
    while i < |learned|
      invariant 0 <= i <= |learned| && freqs == Dedup(learned[..i])
    {
      assert learned[..i + 1][..i] == learned[..i];
      var known := InArrayLoop(freqs, learned[i]);
      if !known {
        freqs := freqs + [learned[i]];
      }
      i := i + 1;
    }
    assert learned[..i] == learned;
  }

  /** Which supported frequencies are not known yet. */
  function Missing(supported: seq<int>, freqs: seq<int>): (w: seq<bool>)
    ensures |w| == |supported| && forall i :: 0 <= i < |w| ==> w[i] == !InArray(freqs, supported[i])
  {
    seq(|supported|, i requires 0 <= i < |supported| => !InArray(freqs, supported[i]))
  }

  /** The frequency at a position that a search may have found. */
  function Found(supported: seq<int>, h: Option<nat>): (r: seq<int>)
    ensures |r| <= 1
  {
    if h.Some? && h.value < |supported| then [supported[h.value]] else []
  }

  /** `probed` is what the first calls probe, at cursor `c` and with `w` missing. */
  ghost predicate TurnsProbe(supported: seq<int>, w: seq<bool>, c: nat, probed: seq<int>)
    requires c <= |w|
  {
    forall i :: 0 <= i < |probed| ==> Found(supported, Turn(w, c, true, i)) == [probed[i]]
  }

  lemma {:induction false} TurnsProbeNext(supported: seq<int>, w: seq<bool>, c: nat, probed: seq<int>, v: int)
    requires c <= |w| && TurnsProbe(supported, w, c, probed)
    requires Found(supported, Seek(w, Cursor(w, c, true, |probed|))) == [v]
    ensures TurnsProbe(supported, w, c, probed + [v])
  {
    assert forall i :: 0 <= i < |probed| ==> (probed + [v])[i] == probed[i];
  }

  class Probe {
    const supported: seq<int>
    var idx: nat

    ghost predicate Valid()
      reads this
    {
      NoZero(supported) && (supported != [] ==> idx < |supported|)
    }

    constructor (supported: seq<int>)
      requires NoZero(supported)
      ensures Valid() && this.supported == supported && idx == 0
    {
      this.supported, idx := supported, 0;
    }

    /**
     `bgscan_learn_get_probe_freq`: one more frequency exactly when a supported one is missing,
     namely the next missing one from the cursor on.
     */
    method GetProbeFreq(freqs: seq<int>) returns (out: seq<int>)
      requires Valid()
      modifies this
      ensures Valid()
      ensures supported == [] ==> out == freqs && idx == old(idx)
      ensures supported != [] ==>
                out == freqs + Found(supported, Seek(Missing(supported, freqs), old(idx))) &&
                idx == Moved(Missing(supported, freqs), old(idx), true)
    {
      out := freqs;
      if supported == [] {
        return;
      }
      ghost var w := Missing(supported, freqs);
      var i := idx;
      var first := true;
      while first || i != idx
        invariant 0 <= i < |supported| && idx == old(idx) && out == freqs
        invariant first ==> i == idx
        invariant i >= idx ==> forall k :: idx <= k < i ==> !w[k]
        invariant !first && i <= idx ==> (forall k :: idx <= k < |w| ==> !w[k]) && (forall k :: 0 <= k < i ==> !w[k])
        decreases first, if i > idx || first then |supported| - i + idx else idx - i
      {
        var known := InArrayLoop(freqs, supported[i]);
        if !known {
          if i >= idx {
            FromIs(w, idx, |w|, i);
          } else {
            FromIs(w, idx, |w|, |w|);
            FromIs(w, 0, idx, i);
          }
          out := freqs + [supported[i]];
          idx := if i + 1 == |supported| then 0 else i + 1;
          return;
        }
        first := false;
        i := if i + 1 == |supported| then 0 else i + 1;
      }
      FromIs(w, idx, |w|, |w|);
      FromIs(w, 0, idx, idx);
    }

    /** A call when something is missing: the frequency that it adds. */
    method ProbeOnce(freqs: seq<int>) returns (v: int)
      requires Valid() && supported != [] && Hits(Missing(supported, freqs), |supported|) != []
      modifies this
      ensures Valid() && Found(supported, Seek(Missing(supported, freqs), old(idx))) == [v]
      ensures idx == Moved(Missing(supported, freqs), old(idx), true)
    {
      assert Seek(Missing(supported, freqs), idx).Some? by { SeekIsHit(Missing(supported, freqs), idx); }
      var out := GetProbeFreq(freqs);
      v := out[|freqs|];
    }

    /** Calls in a row with the same known frequencies: call number `i` probes turn number `i`. */
    method ProbeTimes(freqs: seq<int>, m: nat) returns (probed: seq<int>)
      requires Valid() && supported != [] && Hits(Missing(supported, freqs), |supported|) != []
      modifies this
      ensures Valid() && |probed| == m && idx == Cursor(Missing(supported, freqs), old(idx), true, m)
      ensures TurnsProbe(supported, Missing(supported, freqs), old(idx), probed)
    {
      probed := [];
      ghost var w := Missing(supported, freqs);
      var i := 0;
      while i < m
        invariant 0 <= i <= m && |probed| == i && Valid() && idx == Cursor(w, old(idx), true, i)
        invariant TurnsProbe(supported, w, old(idx), probed)
      {
        var v := ProbeOnce(freqs);
        TurnsProbeNext(supported, w, old(idx), probed, v);
        assert idx == Cursor(w, old(idx), true, i + 1);
        probed := probed + [v];
        i := i + 1;
      }
    }
  }

  /** As many calls as frequencies are missing probe each missing one, and none twice. */
  lemma {:induction false} RoundProbesAll(supported: seq<int>, freqs: seq<int>, c: nat, probed: seq<int>)
    requires Distinct(supported) && c <= |supported| && |probed| == |Hits(Missing(supported, freqs), |supported|)|
    requires TurnsProbe(supported, Missing(supported, freqs), c, probed)
    ensures Distinct(probed) && forall v :: v in probed <==> v in supported && !InArray(freqs, v)
  {
    var w := Missing(supported, freqs);
    forall i, j | 0 <= i < j < |probed| ensures probed[i] != probed[j] {
      TurnsDiffer(w, c, true, i, j);
    }
    forall v | v in supported && !InArray(freqs, v) ensures v in probed {
      var p :| 0 <= p < |supported| && supported[p] == v;
      var i := TurnsCover(w, c, true, p);
      assert probed[i] == v;
    }
  }
}
