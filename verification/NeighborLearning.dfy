/**
 What `bgscan_learn.c` learns from scan results: the access points of the network, their
 frequencies, and which of them were seen together. The entry list is newest first.
 */
module NeighborLearning {
  import opened Sequences
  import opened Text

  datatype Bss = Bss(bssid: Addr, freq: int, neigh: seq<Addr>)

  /** A scan result; `ssid` is its SSID element, if it has one. */
  datatype Res = Res(bssid: Addr, freq: int, ssid: Option<seq<byte>>)

  const MAX_BSS := 50

  // ---- entries ----

  function AddNeighbor(b: Bss, a: Addr): Bss {
    if b.bssid == a || a in b.neigh then b else b.(neigh := b.neigh + [a])
  }

  function AddAll(b: Bss, addrs: seq<Addr>): (r: Bss)
    ensures r.bssid == b.bssid && r.freq == b.freq
  {
    if addrs == [] then b else AddNeighbor(AddAll(b, addrs[..|addrs| - 1]), addrs[|addrs| - 1])
  }

  lemma {:induction false} AddAllFirst(b: Bss, addrs: seq<Addr>)
    requires addrs != []
    ensures AddAll(b, addrs) == AddAll(AddNeighbor(b, addrs[0]), addrs[1..])
  {
    if |addrs| > 1 {
      var front := addrs[..|addrs| - 1];
      AddAllFirst(b, front);
      assert addrs[1..][..|addrs| - 2] == front[1..];
    }
  }

  /** Index of the first entry for the address, or the length of the list. */
  function Find(list: seq<Bss>, a: Addr): (i: nat)
    ensures i <= |list| && (i < |list| ==> list[i].bssid == a)
    ensures forall k :: 0 <= k < i ==> list[k].bssid != a
  {
    if list == [] || list[0].bssid == a then 0 else 1 + Find(list[1..], a)
  }

  function Neighbours(list: seq<Bss>, a: Addr): seq<Addr> {
    var i := Find(list, a);
    if i < |list| then list[i].neigh else []
  }

  function FreqOf(list: seq<Bss>, a: Addr): Option<int> {
    var i := Find(list, a);
    if i < |list| then Some(list[i].freq) else None
  }

  // ---- one scan ----

  /** One matching result: its entry is brought up to date or put in front. */
  function Visit(list: seq<Bss>, res: Res, first: seq<Addr>): seq<Bss> {
    var i := Find(list, res.bssid);
    if i < |list| then list[i := AddAll(list[i].(freq := res.freq), first)]
    else [AddAll(Bss(res.bssid, res.freq, []), first)] + list
  }

  function Matching(ssid: seq<byte>, results: seq<Res>): seq<Res> {
    if results == [] then []
    else
      var before, last := Matching(ssid, results[..|results| - 1]), results[|results| - 1];
      if last.ssid == Some(ssid) then before + [last] else before
  }

  function Addrs(results: seq<Res>): (r: seq<Addr>)
    ensures |r| == |results| && forall i :: 0 <= i < |r| ==> r[i] == results[i].bssid
  {
    if results == [] then [] else Addrs(results[..|results| - 1]) + [results[|results| - 1].bssid]
  }

  /** The addresses that become neighbours: those of the first fifty matching results. */
  function First(matching: seq<Res>): seq<Addr> {
    Addrs(if |matching| <= MAX_BSS then matching else matching[..MAX_BSS])
  }

  function VisitAll(list: seq<Bss>, matching: seq<Res>, first: seq<Addr>): seq<Bss> {
    if matching == [] then list
    else Visit(VisitAll(list, matching[..|matching| - 1], first), matching[|matching| - 1], first)
  }

  /** `bgscan_learn_notify_scan` */
  function Notify(list: seq<Bss>, ssid: seq<byte>, results: seq<Res>): seq<Bss> {
    VisitAll(list, Matching(ssid, results), First(Matching(ssid, results)))
  }

  // ---- what a scan teaches ----

  lemma {:induction false} AddAllNeighbours(b: Bss, addrs: seq<Addr>, x: Addr)
    ensures x in AddAll(b, addrs).neigh <==> x in b.neigh || (x in addrs && x != b.bssid)
  {
    if addrs != [] {
      AddAllNeighbours(b, addrs[..|addrs| - 1], x);
      assert addrs == addrs[..|addrs| - 1] + [addrs[|addrs| - 1]];
    }
  }

  lemma {:induction false} FindSame(list: seq<Bss>, i: nat, b: Bss, a: Addr)
    requires i < |list| && b.bssid == list[i].bssid
    ensures Find(list[i := b], a) == Find(list, a)
  {
    var j, k := Find(list, a), Find(list[i := b], a);
    assert forall n :: 0 <= n < |list| ==> list[i := b][n].bssid == list[n].bssid;
  }

  lemma {:induction false} FindShifts(list: seq<Bss>, b: Bss, a: Addr)
    ensures Find([b] + list, a) == if b.bssid == a then 0 else 1 + Find(list, a)
  {
    assert ([b] + list)[1..] == list;
  }

  lemma {:induction false} VisitNeighbours(list: seq<Bss>, res: Res, first: seq<Addr>, a: Addr, x: Addr)
    ensures x in Neighbours(Visit(list, res, first), a) <==>
            x in Neighbours(list, a) || (a == res.bssid && x in first && x != a)
  {
    var i := Find(list, res.bssid);
    if i < |list| {
      FindSame(list, i, AddAll(list[i].(freq := res.freq), first), a);
      AddAllNeighbours(list[i].(freq := res.freq), first, x);
    } else {
      FindShifts(list, AddAll(Bss(res.bssid, res.freq, []), first), a);
      AddAllNeighbours(Bss(res.bssid, res.freq, []), first, x);
    }
  }

  lemma {:induction false} VisitAllNeighbours(list: seq<Bss>, matching: seq<Res>, first: seq<Addr>, a: Addr, x: Addr)
    ensures x in Neighbours(VisitAll(list, matching, first), a) <==>
            x in Neighbours(list, a) || (a in Addrs(matching) && x in first && x != a)
  {
    if matching != [] {
      var front, last := matching[..|matching| - 1], matching[|matching| - 1];
      VisitAllNeighbours(list, front, first, a, x);
      VisitNeighbours(VisitAll(list, front, first), last, first, a, x);
      assert Addrs(matching) == Addrs(front) + [last.bssid];
    }
  }

  ghost predicate Symmetric(list: seq<Bss>) {
    forall a: Addr, x: Addr :: x in Neighbours(list, a) ==> a in Neighbours(list, x)
  }

  /** Every matching address past the first fifty was a neighbour of each of those already. */
  ghost predicate RestKnown(list: seq<Bss>, matching: seq<Res>) {
    forall a: Addr, x: Addr :: a in Addrs(matching) && a !in First(matching) && x in First(matching) ==>
                                 a in Neighbours(list, x)
  }

  lemma {:induction false} FirstMatches(matching: seq<Res>, x: Addr)
    requires x in First(matching)
    ensures x in Addrs(matching)
  {
    var i :| 0 <= i < |First(matching)| && First(matching)[i] == x;
    assert Addrs(matching)[i] == x;
  }

  lemma {:induction false} KeptBothWays(list: seq<Bss>, matching: seq<Res>, a: Addr, x: Addr)
    requires Symmetric(list) && RestKnown(list, matching)
    requires x in Neighbours(VisitAll(list, matching, First(matching)), a)
    ensures a in Neighbours(VisitAll(list, matching, First(matching)), x)
  {
    var first := First(matching);
    VisitAllNeighbours(list, matching, first, a, x);
    VisitAllNeighbours(list, matching, first, x, a);
    if x !in Neighbours(list, a) {
      FirstMatches(matching, x);
    }
  }

  lemma {:induction false} KnownBefore(list: seq<Bss>, matching: seq<Res>, a: Addr, x: Addr)
    requires Symmetric(VisitAll(list, matching, First(matching)))
    requires a in Addrs(matching) && a !in First(matching) && x in First(matching)
    ensures a in Neighbours(list, x)
  {
    VisitAllNeighbours(list, matching, First(matching), a, x);
    VisitAllNeighbours(list, matching, First(matching), x, a);
  }

  /** A scan keeps the relation symmetric exactly when the cut at fifty loses nothing new. */
  lemma {:induction false} SymmetricIff(list: seq<Bss>, ssid: seq<byte>, results: seq<Res>)
    requires Symmetric(list)
    ensures Symmetric(Notify(list, ssid, results)) <==> RestKnown(list, Matching(ssid, results))
  {
    var matching := Matching(ssid, results);
    var after := Notify(list, ssid, results);
    if RestKnown(list, matching) {
      forall a: Addr, x: Addr | x in Neighbours(after, a) ensures a in Neighbours(after, x) {
        KeptBothWays(list, matching, a, x);
      }
    }
    if Symmetric(after) {
      forall a: Addr, x: Addr | a in Addrs(matching) && a !in First(matching) && x in First(matching)
        ensures a in Neighbours(list, x)
      {
        KnownBefore(list, matching, a, x);
      }
    }
  }

  lemma {:induction false} FewMatchesKnown(list: seq<Bss>, matching: seq<Res>)
    requires |matching| <= 50
    ensures RestKnown(list, matching)
  {
  }

  /** Results of the network from as many access points. */
  function Crowd(ssid: seq<byte>, n: nat): (r: seq<Res>)
    requires n <= 256
    ensures |r| == n && forall i :: 0 <= i < n ==> r[i] == Res([0, 0, 0, 0, 0, i], 2412, Some(ssid))
  {
    seq(n, i requires 0 <= i < n => Res([0, 0, 0, 0, 0, i], 2412, Some(ssid)))
  }

  lemma {:induction false} AllMatch(ssid: seq<byte>, results: seq<Res>)
    requires forall i :: 0 <= i < |results| ==> results[i].ssid == Some(ssid)
    ensures Matching(ssid, results) == results
  {
    if results != [] {
      AllMatch(ssid, results[..|results| - 1]);
    }
  }

  /** One scan with fifty-one matches makes the relation asymmetric. */
  lemma {:induction false} FiftyOneAsymmetric(ssid: seq<byte>)
    ensures !Symmetric(Notify([], ssid, Crowd(ssid, 51)))
  {
    var results := Crowd(ssid, 51);
    AllMatch(ssid, results);
    var a, x := results[50].bssid, results[0].bssid;
    assert Addrs(results)[50] == a && First(results)[0] == x;
    assert forall i :: 0 <= i < 50 ==> First(results)[i][5] == i;
    if Symmetric(Notify([], ssid, results)) {
      KnownBefore([], results, a, x);
    }
  }

  // ---- one entry per address, no duplicates ----

  ghost predicate TidyEntry(b: Bss) {
    Distinct(b.neigh) && b.bssid !in b.neigh
  }

  ghost predicate Tidy(list: seq<Bss>) {
    (forall i, j :: 0 <= i < j < |list| ==> list[i].bssid != list[j].bssid) &&
    (forall i :: 0 <= i < |list| ==> TidyEntry(list[i]))
  }

  lemma {:induction false} AddAllTidy(b: Bss, addrs: seq<Addr>)
    requires TidyEntry(b)
    ensures TidyEntry(AddAll(b, addrs))
  {
    if addrs != [] {
      AddAllTidy(b, addrs[..|addrs| - 1]);
    }
  }

  lemma {:induction false} VisitTidy(list: seq<Bss>, res: Res, first: seq<Addr>)
    requires Tidy(list)
    ensures Tidy(Visit(list, res, first))
  {
    var i := Find(list, res.bssid);
    if i < |list| {
      assert TidyEntry(list[i]);
      AddAllTidy(list[i].(freq := res.freq), first);
    } else {
      AddAllTidy(Bss(res.bssid, res.freq, []), first);
    }
  }

  lemma {:induction false} VisitAllTidy(list: seq<Bss>, matching: seq<Res>, first: seq<Addr>)
    requires Tidy(list)
    ensures Tidy(VisitAll(list, matching, first))
  {
    if matching != [] {
      VisitAllTidy(list, matching[..|matching| - 1], first);
      VisitTidy(VisitAll(list, matching[..|matching| - 1], first), matching[|matching| - 1], first);
    }
  }

  // ---- frequencies ----

  /** The frequency of the last matching result for the address, if any. */
  function LastFreq(matching: seq<Res>, a: Addr): Option<int> {
    if matching == [] then None
    else if matching[|matching| - 1].bssid == a then Some(matching[|matching| - 1].freq)
    else LastFreq(matching[..|matching| - 1], a)
  }

  /** After a scan an address has the frequency it was last heard on. */
  lemma {:induction false} VisitAllFreq(list: seq<Bss>, matching: seq<Res>, first: seq<Addr>, a: Addr)
    ensures FreqOf(VisitAll(list, matching, first), a) ==
            if LastFreq(matching, a).Some? then LastFreq(matching, a) else FreqOf(list, a)
  {
    if matching != [] {
      var front, last := matching[..|matching| - 1], matching[|matching| - 1];
      VisitAllFreq(list, front, first, a);
      VisitFreq(VisitAll(list, front, first), last, first, a);
    }
  }

  lemma {:induction false} VisitFreq(list: seq<Bss>, res: Res, first: seq<Addr>, a: Addr)
    ensures FreqOf(Visit(list, res, first), a) == if res.bssid == a then Some(res.freq) else FreqOf(list, a)
  {
    var i := Find(list, res.bssid);
    if i < |list| {
      FindSame(list, i, AddAll(list[i].(freq := res.freq), first), a);
    } else {
      FindShifts(list, AddAll(Bss(res.bssid, res.freq, []), first), a);
    }
  }

  // ---- a scan by its results alone ----

  /** Some result of the scan comes from the address and has the own SSID. */
  ghost predicate Heard(ssid: seq<byte>, results: seq<Res>, a: Addr) {
    exists i :: 0 <= i < |results| && results[i].bssid == a && results[i].ssid == Some(ssid)
  }

  /** The results that have the own SSID. */
  ghost function OwnResults(ssid: seq<byte>, results: seq<Res>): set<nat> {
    set i: nat | i < |results| && results[i].ssid == Some(ssid)
  }

  ghost predicate HasEntry(list: seq<Bss>, a: Addr) {
    exists i :: 0 <= i < |list| && list[i].bssid == a
  }

  lemma {:induction false} MatchingHeard(ssid: seq<byte>, results: seq<Res>, a: Addr)
    ensures a in Addrs(Matching(ssid, results)) <==> Heard(ssid, results, a)
  {
    if results != [] {
      var front, last := results[..|results| - 1], results[|results| - 1];
      MatchingHeard(ssid, front, a);
      assert Heard(ssid, results, a) <==> Heard(ssid, front, a) || (last.bssid == a && last.ssid == Some(ssid)) by {
        if Heard(ssid, front, a) {
          var i :| 0 <= i < |front| && front[i].bssid == a && front[i].ssid == Some(ssid);
          assert results[i] == front[i];
        }
      }
    }
  }

  lemma {:induction false} MatchingSize(ssid: seq<byte>, results: seq<Res>)
    ensures |Matching(ssid, results)| == |OwnResults(ssid, results)|
  {
    if results != [] {
      var front, n := results[..|results| - 1], |results| - 1;
      MatchingSize(ssid, front);
      assert OwnResults(ssid, results) == OwnResults(ssid, front) + if results[n].ssid == Some(ssid) then {n} else {};
    } else {
      assert OwnResults(ssid, results) == {};
    }
  }

  lemma {:induction false} VisitAllEntries(list: seq<Bss>, matching: seq<Res>, first: seq<Addr>, a: Addr)
    ensures HasEntry(VisitAll(list, matching, first), a) <==> HasEntry(list, a) || a in Addrs(matching)
  {
    if matching != [] {
      var front, last := matching[..|matching| - 1], matching[|matching| - 1];
      VisitAllEntries(list, front, first, a);
      VisitEntries(VisitAll(list, front, first), last, first, a);
      assert Addrs(matching) == Addrs(front) + [last.bssid];
    }
  }

  lemma {:induction false} VisitEntries(list: seq<Bss>, res: Res, first: seq<Addr>, a: Addr)
    ensures HasEntry(Visit(list, res, first), a) <==> HasEntry(list, a) || a == res.bssid
  {
    var i, after := Find(list, res.bssid), Visit(list, res, first);
    if i < |list| {
      assert forall k :: 0 <= k < |list| ==> after[k].bssid == list[k].bssid;
    } else {
      assert after[0].bssid == res.bssid && forall k :: 0 <= k < |list| ==> after[k + 1] == list[k];
    }
  }

  /** An address has an entry after a scan exactly when it had one or was heard. */
  lemma {:induction false} NotifyEntries(list: seq<Bss>, ssid: seq<byte>, results: seq<Res>, a: Addr)
    ensures HasEntry(Notify(list, ssid, results), a) <==> HasEntry(list, a) || Heard(ssid, results, a)
  {
    var matching := Matching(ssid, results);
    VisitAllEntries(list, matching, First(matching), a);
    MatchingHeard(ssid, results, a);
  }

  /** The addresses are those heard. */
  ghost predicate AreHeard(addrs: seq<Addr>, ssid: seq<byte>, results: seq<Res>) {
    forall a: Addr :: a in addrs <==> Heard(ssid, results, a)
  }

  lemma {:induction false} FirstAreHeard(ssid: seq<byte>, results: seq<Res>)
    ensures |OwnResults(ssid, results)| <= 50 ==> AreHeard(First(Matching(ssid, results)), ssid, results)
  {
    MatchingSize(ssid, results);
    forall a: Addr ensures a in Addrs(Matching(ssid, results)) <==> Heard(ssid, results, a) {
      MatchingHeard(ssid, results, a);
    }
  }

  /** The entries are those there were and those heard. */
  ghost predicate Learned(before: seq<Bss>, after: seq<Bss>, ssid: seq<byte>, results: seq<Res>) {
    forall a: Addr :: HasEntry(after, a) <==> HasEntry(before, a) || Heard(ssid, results, a)
  }

  lemma {:induction false} NotifyLearns(list: seq<Bss>, ssid: seq<byte>, results: seq<Res>)
    ensures Learned(list, Notify(list, ssid, results), ssid, results)
  {
    forall a: Addr ensures HasEntry(Notify(list, ssid, results), a) <==> HasEntry(list, a) || Heard(ssid, results, a) {
      NotifyEntries(list, ssid, results, a);
    }
  }

  /** With at most fifty own results, the addresses that were heard become neighbours of each other. */
  lemma {:induction false} NotifyNeighbours(list: seq<Bss>, ssid: seq<byte>, results: seq<Res>, a: Addr, x: Addr)
    requires |OwnResults(ssid, results)| <= 50
    ensures x in Neighbours(Notify(list, ssid, results), a) <==>
            x in Neighbours(list, a) || (Heard(ssid, results, a) && Heard(ssid, results, x) && x != a)
  {
    var matching := Matching(ssid, results);
    MatchingSize(ssid, results);
    VisitAllNeighbours(list, matching, First(matching), a, x);
    MatchingHeard(ssid, results, a);
    MatchingHeard(ssid, results, x);
  }

  /** Result `i` is the last one of the address with the own SSID. */
  ghost predicate LastHeardAt(ssid: seq<byte>, results: seq<Res>, a: Addr, i: nat) {
    i < |results| && results[i].bssid == a && results[i].ssid == Some(ssid) &&
    forall j :: i < j < |results| ==> results[j].bssid != a || results[j].ssid != Some(ssid)
  }

  lemma {:induction false} LastFreqIs(ssid: seq<byte>, results: seq<Res>, a: Addr, i: nat)
    requires LastHeardAt(ssid, results, a, i)
    ensures LastFreq(Matching(ssid, results), a) == Some(results[i].freq)
  {
    if i < |results| - 1 {
      LastFreqIs(ssid, results[..|results| - 1], a, i);
    }
  }

  lemma {:induction false} LastFreqNone(ssid: seq<byte>, results: seq<Res>, a: Addr)
    requires !Heard(ssid, results, a)
    ensures LastFreq(Matching(ssid, results), a) == None
  {
    if results != [] {
      var front := results[..|results| - 1];
      assert forall i :: 0 <= i < |front| ==> front[i] == results[i];
      LastFreqNone(ssid, front, a);
    }
  }

  /** An address that was heard has the frequency of its last own result; any other keeps its own. */
  lemma {:induction false} NotifyFreq(list: seq<Bss>, ssid: seq<byte>, results: seq<Res>, a: Addr)
    ensures forall i: nat :: LastHeardAt(ssid, results, a, i) ==>
              FreqOf(Notify(list, ssid, results), a) == Some(results[i].freq)
    ensures !Heard(ssid, results, a) ==> FreqOf(Notify(list, ssid, results), a) == FreqOf(list, a)
  {
    var matching := Matching(ssid, results);
    VisitAllFreq(list, matching, First(matching), a);
    forall i: nat | LastHeardAt(ssid, results, a, i)
      ensures LastFreq(matching, a) == Some(results[i].freq)
    {
      LastFreqIs(ssid, results, a, i);
    }
    if !Heard(ssid, results, a) {
      LastFreqNone(ssid, results, a);
    }
  }
}
