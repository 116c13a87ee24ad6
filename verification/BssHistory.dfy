/**
 Whole runs of the table of access points, described by the events of the run alone:
 when an entry was last matched, which finished rounds missed it, and how the stored
 counters, the recency order and the evictions follow from that.
 */
module BssHistory {
  import opened Sequences
  import opened Reltimes
  import opened BssTable
  import opened BssInvariant
  import opened BssEffects
  import Elements

  datatype Setup = Setup(cfg: Settings, maxCount: nat, env: Env)

  ghost function After(s: Setup, run: seq<Event>): Table {
    Run(s.cfg, Empty(s.maxCount, s.env), run)
  }

  /** The entry an event matches or creates. */
  ghost function Touched(cfg: Settings, t: Table, ev: Event): Option<nat> {
    if !ev.ScanResult? || TooOld(cfg, ev.res, ev.fetch, ev.trigger) || ResultSsid(ev.res).None? then None
    else
      var k := Lookup(cfg, t, ev.res.bssid, ResultSsid(ev.res).value);
      Some(if k < |t.entries| then t.entries[k].id else t.nextId)
  }

  /** Index of the last event that matched or created entry `id`, or -1. */
  ghost function LastTouch(s: Setup, run: seq<Event>, id: nat): (r: int)
    ensures -1 <= r < |run|
  {
    if run == [] then -1
    else
      var before := run[..|run| - 1];
      if Touched(s.cfg, After(s, before), run[|run| - 1]) == Some(id) then |run| - 1 else LastTouch(s, before, id)
  }

  /** Event `j` of the run matched or created entry `id`. */
  ghost predicate TouchedAt(s: Setup, run: seq<Event>, j: nat, id: nat)
    requires j < |run|
  {
    Touched(s.cfg, After(s, run[..j]), run[j]) == Some(id)
  }

  lemma {:induction false} TouchedAlike(s: Setup, run: seq<Event>, j: nat, id: nat)
    requires j < |run| - 1
    ensures TouchedAt(s, run, j, id) <==> TouchedAt(s, run[..|run| - 1], j, id)
  {
    assert run[..|run| - 1][..j] == run[..j];
  }

  lemma {:induction false} LastTouchIsLast(s: Setup, run: seq<Event>, id: nat)
    ensures LastTouch(s, run, id) >= 0 ==> TouchedAt(s, run, LastTouch(s, run, id), id)
    ensures forall j :: LastTouch(s, run, id) < j < |run| ==> !TouchedAt(s, run, j, id)
  {
    if run != [] && !TouchedAt(s, run, |run| - 1, id) {
      var before := run[..|run| - 1];
      LastTouchIsLast(s, before, id);
      forall j: nat | j < |before| ensures TouchedAt(s, run, j, id) <==> TouchedAt(s, before, j, id) {
        TouchedAlike(s, run, j, id);
      }
    }
  }

  /** Index of the last start of a round, or -1. */
  ghost function LastStart(run: seq<Event>): (r: int)
    ensures -1 <= r < |run|
  {
    if run == [] then -1 else if run[|run| - 1].StartRound? then |run| - 1 else LastStart(run[..|run| - 1])
  }

  /**
   Event `j` ended a new-scan round that began after entry `id` was last matched, while the
   entry was live, not in use, and covered by the scan.
   */
  ghost predicate MissedAt(s: Setup, run: seq<Event>, j: nat, id: nat)
    requires j < |run|
  {
    run[j].EndRound? && run[j].newScan &&
    LastTouch(s, run[..j], id) < LastStart(run[..j]) &&
    exists e :: e in After(s, run[..j]).entries && e.id == id &&
                !InUse(After(s, run[..j]).env, e) && Covered(run[j].info, e.freq, e.ssid)
  }

  ghost function Misses(s: Setup, run: seq<Event>, id: nat): set<nat> {
    set j: nat | j < |run| && LastTouch(s, run, id) < j && MissedAt(s, run, j, id)
  }

  // ---- one step ----

  /** What a step does to entries it does not match. */
  ghost function Aged(t: Table, ev: Event, e: Entry): Entry {
    if ev.EndRound? && ev.newScan then Counted(t.env, t.updateIdx, ev.info, e) else e
  }

  ghost predicate FromStep(cfg: Settings, t: Table, ev: Event, e: Entry) {
    if Touched(cfg, t, ev) == Some(e.id)
    then e == Written(e.id, t.updateIdx, ResultSsid(ev.res).value, ev.res, ev.fetch)
    else exists prior :: prior in t.entries && prior.id == e.id && e == Aged(t, ev, prior)
  }

  lemma {:induction false} ResultEntries(cfg: Settings, t: Table, res: ScanRes, fetch: Reltime, trigger: Reltime, e: Entry)
    requires Inv(t) && e in Result(cfg, t, res, fetch, trigger).entries
    ensures FromStep(cfg, t, ScanResult(res, fetch, trigger), e)
  {
    if Touched(cfg, t, ScanResult(res, fetch, trigger)).Some? {
      var ssid := ResultSsid(res).value;
      var k := Lookup(cfg, t, res.bssid, ssid);
      if k < |t.entries| {
        OthersAt(t.entries, k);
        assert e == Refreshed(t, t.entries[k], res, fetch) || e in Cut(t.entries, k);
      } else {
        var u := t.(nextId := t.nextId + 1);
        MakeRoomKeeps(u);
        assert e == NewEntry(t, ssid, res, fetch) || e in MakeRoom(u).entries;
      }
    }
  }

  lemma {:induction false} StepEntries(cfg: Settings, t: Table, ev: Event, e: Entry)
    requires Inv(t) && e in Step(cfg, t, ev).entries
    ensures FromStep(cfg, t, ev, e)
  {
    match ev
    case Change(env) =>
    case StartRound =>
    case ScanResult(res, fetch, trigger) =>
      ResultEntries(cfg, t, res, fetch, trigger, e);
    case EndRound(info, newScan) =>
      if newScan {
        var c := CountAll(t.env, t.updateIdx, info, t.entries);
        DropEntriesMembers(c, Expired(cfg, t.env, t.updateIdx, info, t.entries));
        var i :| 0 <= i < |c| && c[i] == e;
        assert t.entries[i] in t.entries && e == Aged(t, ev, t.entries[i]);
      }
    case FlushAge(limit) =>
      DropEntriesMembers(t.entries, StaleIds(t.env, limit, t.entries[..FlushStop(t.env, limit, t.entries)]));
      assert e in t.entries && e == Aged(t, ev, e);
    case FlushUnused =>
      DropEntriesMembers(t.entries, Unused(t.env, t.entries));
      assert e in t.entries && e == Aged(t, ev, e);
  }

  lemma {:induction false} Origin(s: Setup, run: seq<Event>, e: Entry)
    requires run != [] && e in After(s, run).entries
    ensures FromStep(s.cfg, After(s, run[..|run| - 1]), run[|run| - 1], e)
  {
    RunKeeps(s.cfg, s.maxCount, s.env, run[..|run| - 1]);
    StepEntries(s.cfg, After(s, run[..|run| - 1]), run[|run| - 1], e);
  }

  lemma {:induction false} MarkNotAhead(s: Setup, run: seq<Event>, e: Entry)
    requires e in After(s, run).entries
    ensures e.updateIdx <= After(s, run).updateIdx
  {
    RunKeeps(s.cfg, s.maxCount, s.env, run);
  }

  // ---- rounds missed ----

  /** Entries of a reachable table have been matched, and their round mark dates their last match. */
  lemma {:induction false} MarksDateMatches(s: Setup, run: seq<Event>, e: Entry)
    requires e in After(s, run).entries
    ensures LastTouch(s, run, e.id) >= 0
    ensures e.updateIdx < After(s, run).updateIdx <==> LastTouch(s, run, e.id) < LastStart(run)
  {
    if run == [] {
      assert false;
    } else {
      var before, ev := run[..|run| - 1], run[|run| - 1];
      var t := After(s, before);
      Origin(s, run, e);
      MarkNotAhead(s, run, e);
      if Touched(s.cfg, t, ev) != Some(e.id) {
        var prior :| prior in t.entries && prior.id == e.id && e == Aged(t, ev, prior);
        MarksDateMatches(s, before, prior);
        MarkNotAhead(s, before, prior);
      }
    }
  }

  lemma {:induction false} MissesOneMore(s: Setup, run: seq<Event>, ev: Event, id: nat)
    requires Touched(s.cfg, After(s, run), ev) != Some(id)
    ensures Misses(s, run + [ev], id) ==
            Misses(s, run, id) + if MissedAt(s, run + [ev], |run|, id) then {|run|} else {}
  {
    var longer := run + [ev];
    assert longer[..|longer| - 1] == run && longer[|longer| - 1] == ev;
    assert LastTouch(s, longer, id) == LastTouch(s, run, id);
    forall j: nat | j < |run| ensures MissedAt(s, longer, j, id) <==> MissedAt(s, run, j, id) {
      assert longer[..j] == run[..j];
    }
  }

  /** The stored counter is the number of finished rounds that missed the entry since its last match. */
  lemma {:induction false} MissCountIsMisses(s: Setup, run: seq<Event>, e: Entry)
    requires e in After(s, run).entries
    ensures e.missCount == |Misses(s, run, e.id)|
  {
    if run == [] {
      assert false;
    } else {
      var before, ev := run[..|run| - 1], run[|run| - 1];
      var t := After(s, before);
      Origin(s, run, e);
      assert run == before + [ev];
      if Touched(s.cfg, t, ev) == Some(e.id) {
        assert Misses(s, run, e.id) == {};
      } else {
        var prior :| prior in t.entries && prior.id == e.id && e == Aged(t, ev, prior);
        MissCountIsMisses(s, before, prior);
        MissesOneMore(s, before, ev, e.id);
        MissedNow(s, before, ev, prior);
        assert |before| !in Misses(s, before, e.id);
      }
    }
  }

  lemma {:induction false} MissedNow(s: Setup, run: seq<Event>, ev: Event, e: Entry)
    requires e in After(s, run).entries
    ensures MissedAt(s, run + [ev], |run|, e.id) <==>
            Aged(After(s, run), ev, e).missCount == e.missCount + 1
  {
    var t := After(s, run);
    RunKeeps(s.cfg, s.maxCount, s.env, run);
    MarksDateMatches(s, run, e);
    assert (run + [ev])[..|run|] == run;
    if MissedAt(s, run + [ev], |run|, e.id) {
      var x :| x in t.entries && x.id == e.id && !InUse(t.env, x) && Covered(ev.info, x.freq, x.ssid);
      IdIsUnique(t.entries, x, e);
    }
  }

  /**
   A new-scan round end removes an entry exactly when it is unused, covered, and the rounds
   that missed it, this one included, have reached the limit.
   */
  lemma {:induction false} RoundEndRemovesIff(s: Setup, run: seq<Event>, info: Option<ScanInfo>, e: Entry)
    requires e in After(s, run).entries
    ensures var longer := run + [EndRound(info, true)];
            e.id !in Ids(After(s, longer).entries) <==>
            !InUse(After(s, run).env, e) && Covered(info, e.freq, e.ssid) &&
            |Misses(s, longer, e.id)| >= s.cfg.expireCount
  {
    var ev := EndRound(info, true);
    var longer := run + [ev];
    var t := After(s, run);
    assert longer[..|longer| - 1] == run && longer[|longer| - 1] == ev;
    RunKeeps(s.cfg, s.maxCount, s.env, run);
    EndRemovesExactly(s.cfg, t, info, e);
    MissCountIsMisses(s, run, e);
    MissesOneMore(s, run, ev, e.id);
    MissedNow(s, run, ev, e);
    assert |run| !in Misses(s, run, e.id);
    assert |Misses(s, longer, e.id)| == Counted(t.env, t.updateIdx, info, e).missCount;
  }

  // ---- recency ----

  ghost predicate InTouchOrder(s: Setup, run: seq<Event>, es: seq<Entry>) {
    forall i, j :: 0 <= i < j < |es| ==> LastTouch(s, run, es[i].id) < LastTouch(s, run, es[j].id)
  }

  lemma {:induction false} DropInOrder(s: Setup, run: seq<Event>, es: seq<Entry>, gone: set<nat>)
    requires InTouchOrder(s, run, es)
    ensures InTouchOrder(s, run, DropEntries(es, gone))
  {
    var r := DropEntries(es, gone);
    forall i, j | 0 <= i < j < |r| ensures LastTouch(s, run, r[i].id) < LastTouch(s, run, r[j].id) {
      var a, b := KeptPair(es, gone, i, j);
    }
  }

  /** The entries of a step that the step does not match stay in the order they were in. */
  lemma {:induction false} StepInOrder(s: Setup, run: seq<Event>, ev: Event)
    requires Inv(After(s, run)) && InTouchOrder(s, run, After(s, run).entries)
    ensures var es := Step(s.cfg, After(s, run), ev).entries;
            var id := Touched(s.cfg, After(s, run), ev);
            if id.Some? then es != [] && es[|es| - 1].id == id.value && InTouchOrder(s, run, es[..|es| - 1])
            else InTouchOrder(s, run, es)
  {
    var t := After(s, run);
    match ev
    case Change(env) =>
    case StartRound =>
    case ScanResult(res, fetch, trigger) =>
      if Touched(s.cfg, t, ev).Some? {
        var ssid := ResultSsid(res).value;
        var k := Lookup(s.cfg, t, res.bssid, ssid);
        if k < |t.entries| {
          RefreshInOrder(s, run, k, res, fetch);
        } else {
          AddInOrder(s, run, ssid, res, fetch);
        }
      }
    case EndRound(info, newScan) =>
      if newScan {
        DropInOrder(s, run, CountAll(t.env, t.updateIdx, info, t.entries), Expired(s.cfg, t.env, t.updateIdx, info, t.entries));
      }
    case FlushAge(limit) =>
      var seen := t.entries[..FlushStop(t.env, limit, t.entries)];
      DropInOrder(s, run, t.entries, StaleIds(t.env, limit, seen));
    case FlushUnused =>
      DropInOrder(s, run, t.entries, Unused(t.env, t.entries));
  }

  lemma {:induction false} RefreshInOrder(s: Setup, run: seq<Event>, k: nat, res: ScanRes, fetch: Reltime)
    requires InTouchOrder(s, run, After(s, run).entries) && k < |After(s, run).entries|
    ensures var es := Refresh(After(s, run), k, res, fetch).entries;
            es != [] && es[|es| - 1].id == After(s, run).entries[k].id && InTouchOrder(s, run, es[..|es| - 1])
  {
    var was := After(s, run).entries;
    var es := Refresh(After(s, run), k, res, fetch).entries;
    var others := Cut(was, k);
    assert es[..|es| - 1] == others;
    assert forall i :: 0 <= i < |others| ==> others[i] == if i < k then was[i] else was[i + 1];
  }

  lemma {:induction false} AddInOrder(s: Setup, run: seq<Event>, ssid: seq<byte>, res: ScanRes, fetch: Reltime)
    requires InTouchOrder(s, run, After(s, run).entries)
    ensures var es := Add(After(s, run), ssid, res, fetch).entries;
            es != [] && es[|es| - 1].id == After(s, run).nextId && InTouchOrder(s, run, es[..|es| - 1])
  {
    var u := After(s, run).(nextId := After(s, run).nextId + 1);
    if |u.entries| + 1 > u.maxCount && Victim(u).Some? {
      DropInOrder(s, run, u.entries, {Victim(u).value.id});
    }
    var es := Add(After(s, run), ssid, res, fetch).entries;
    assert es[..|es| - 1] == MakeRoom(u).entries;
  }

  /** After every run the recency list is in the order in which its entries were last matched. */
  lemma {:induction false} RunInTouchOrder(s: Setup, run: seq<Event>)
    ensures InTouchOrder(s, run, After(s, run).entries)
  {
    if run != [] {
      var before, ev, es := run[..|run| - 1], run[|run| - 1], After(s, run).entries;
      RunInTouchOrder(s, before);
      assert Inv(After(s, before)) by { RunKeeps(s.cfg, s.maxCount, s.env, before); }
      assert DistinctIds(es) by { RunKeeps(s.cfg, s.maxCount, s.env, run); }
      StepInOrder(s, before, ev);
      forall i, j | 0 <= i < j < |es| ensures LastTouch(s, run, es[i].id) < LastTouch(s, run, es[j].id) {
        PairInOrder(s, run, es, i, j);
      }
    }
  }

  /** Entries that the last event does not match stay in order, and the one that it matches comes last. */
  lemma {:induction false} PairInOrder(s: Setup, run: seq<Event>, es: seq<Entry>, i: nat, j: nat)
    requires run != [] && i < j < |es| && DistinctIds(es)
    requires var id := Touched(s.cfg, After(s, run[..|run| - 1]), run[|run| - 1]);
             if id.Some? then es[|es| - 1].id == id.value && InTouchOrder(s, run[..|run| - 1], es[..|es| - 1])
             else InTouchOrder(s, run[..|run| - 1], es)
    ensures LastTouch(s, run, es[i].id) < LastTouch(s, run, es[j].id)
  {
    var before, id := run[..|run| - 1], Touched(s.cfg, After(s, run[..|run| - 1]), run[|run| - 1]);
    if id.Some? && j < |es| - 1 {
      var front := es[..|es| - 1];
      assert front[i] == es[i] && front[j] == es[j];
      assert LastTouch(s, before, front[i].id) < LastTouch(s, before, front[j].id);
    }
  }

  /** An entry holds every field of the result that last matched it; only its round mark and count are its own. */
  lemma {:induction false} LastResultIs(s: Setup, run: seq<Event>, e: Entry)
    requires e in After(s, run).entries
    ensures var j := LastTouch(s, run, e.id);
            j >= 0 && run[j].ScanResult? && ResultSsid(run[j].res).Some? &&
            e == Written(e.id, e.updateIdx, ResultSsid(run[j].res).value, run[j].res, run[j].fetch)
                 .(missCount := e.missCount)
  {
    Origin(s, run, e);
    var before, ev := run[..|run| - 1], run[|run| - 1];
    if Touched(s.cfg, After(s, before), ev) != Some(e.id) {
      var prior :| prior in After(s, before).entries && prior.id == e.id && e == Aged(After(s, before), ev, prior);
      LastResultIs(s, before, prior);
    }
  }

  lemma {:induction false} LastUpdateIs(s: Setup, run: seq<Event>, e: Entry)
    requires e in After(s, run).entries
    ensures var j := LastTouch(s, run, e.id);
            j >= 0 && run[j].ScanResult? && e.lastUpdate == UpdateTime(run[j].fetch, run[j].res.ageMs)
  {
    LastResultIs(s, run, e);
  }

  /** The update times of matched results never decrease along the run. */
  ghost predicate Timely(s: Setup, run: seq<Event>) {
    forall i, j, a, b :: 0 <= i < j < |run| && TouchedAt(s, run, i, a) && TouchedAt(s, run, j, b) ==>
      !Before(UpdateTime(run[j].fetch, run[j].res.ageMs), UpdateTime(run[i].fetch, run[i].res.ageMs))
  }

  lemma {:induction false} TimelyInOrder(s: Setup, run: seq<Event>, i: nat, j: nat)
    requires Timely(s, run) && i < j < |After(s, run).entries|
    ensures !Before(After(s, run).entries[j].lastUpdate, After(s, run).entries[i].lastUpdate)
  {
    var a, b := After(s, run).entries[i], After(s, run).entries[j];
    RunInTouchOrder(s, run);
    LastUpdateIs(s, run, a);
    LastUpdateIs(s, run, b);
    LastTouchIsLast(s, run, a.id);
    LastTouchIsLast(s, run, b.id);
  }

  /** After a run whose results arrive in the order of their update times, the age flush is the documented one. */
  lemma {:induction false} TimelyFlush(s: Setup, run: seq<Event>, limit: Reltime)
    requires Timely(s, run)
    ensures FlushByAge(After(s, run), limit) == FlushOlder(After(s, run), limit)
  {
    var t := After(s, run);
    assert DistinctIds(t.entries) by { RunKeeps(s.cfg, s.maxCount, s.env, run); }
    forall i, j | 0 <= i < j < |t.entries| ensures !Before(t.entries[j].lastUpdate, t.entries[i].lastUpdate) {
      TimelyInOrder(s, run, i, j);
    }
    FlushByAgeAlwaysIff(t);
  }

  lemma {:induction false} EarlierIsOlder(s: Setup, run: seq<Event>, i: nat, j: nat)
    requires i <= j < |After(s, run).entries|
    ensures LastTouch(s, run, After(s, run).entries[i].id) <= LastTouch(s, run, After(s, run).entries[j].id)
  {
    RunInTouchOrder(s, run);
  }

  lemma {:induction false} EvictsUnknown(s: Setup, run: seq<Event>, j: nat)
    requires var t := After(s, run); j < |t.entries| && !Known(t.env, t.entries[j].ssid)
    ensures var t := After(s, run);
            Victim(t).Some? && !Known(t.env, Victim(t).value.ssid) &&
            LastTouch(s, run, Victim(t).value.id) <= LastTouch(s, run, t.entries[j].id)
  {
    var t := After(s, run);
    EarlierIsOlder(s, run, FirstUnknown(t.env, t.entries), j);
  }

  lemma {:induction false} EvictsUnused(s: Setup, run: seq<Event>, j: nat)
    requires var t := After(s, run);
             j < |t.entries| && FirstUnknown(t.env, t.entries) == |t.entries| && !InUse(t.env, t.entries[j])
    ensures var t := After(s, run);
            Victim(t).Some? && !InUse(t.env, Victim(t).value) &&
            LastTouch(s, run, Victim(t).value.id) <= LastTouch(s, run, t.entries[j].id)
  {
    var t := After(s, run);
    EarlierIsOlder(s, run, FirstUnused(t.env, t.entries), j);
  }

  /** Making room evicts the least recently matched unconfigured entry, else the least recently matched unused one. */
  lemma {:induction false} EvictsLeastRecent(s: Setup, run: seq<Event>, e: Entry)
    requires Victim(After(s, run)).Some? && e in After(s, run).entries
    ensures var t := After(s, run);
            var v := Victim(t).value;
            if exists x :: x in t.entries && !Known(t.env, x.ssid)
            then !Known(t.env, v.ssid) && (!Known(t.env, e.ssid) ==> LastTouch(s, run, v.id) <= LastTouch(s, run, e.id))
            else !InUse(t.env, v) && (!InUse(t.env, e) ==> LastTouch(s, run, v.id) <= LastTouch(s, run, e.id))
  {
    var t := After(s, run);
    var j :| 0 <= j < |t.entries| && t.entries[j] == e;
    if FirstUnknown(t.env, t.entries) < |t.entries| {
      assert t.entries[FirstUnknown(t.env, t.entries)] in t.entries;
      if !Known(t.env, e.ssid) { EvictsUnknown(s, run, j); }
    } else {
      assert forall x :: x in t.entries ==> Known(t.env, x.ssid);
      if !InUse(t.env, e) { EvictsUnused(s, run, j); }
    }
  }

  /** What a scan result removes from a table: nothing unless it is full, and then the one evictable entry. */
  lemma {:induction false} ResultRemoves(cfg: Settings, t: Table, ev: Event, e: Entry) returns (k: nat)
    requires Inv(t) && ev.ScanResult? && e in t.entries && e.id !in Ids(Step(cfg, t, ev).entries)
    ensures Evictable(t, k) && t.entries[k] == e && |t.entries| == t.maxCount == Step(cfg, t, ev).maxCount
    ensures forall x :: x in t.entries && x.id != e.id ==> x in Step(cfg, t, ev).entries
  {
    var after := Step(cfg, t, ev).entries;
    ResultCases(cfg, t, ev);
    var ssid :| Accepted(cfg, ev, ssid);
    if m: nat :| MatchesAt(cfg, t, ev, ssid, m) {
      MatchedStays(t, m, Written(t.entries[m].id, t.updateIdx, ssid, ev.res, ev.fetch), e);
      MatchedResult(cfg, t, ev, ssid, m);
    } else if |t.entries| < t.maxCount {
      AppendStays(t.entries, Written(t.nextId, t.updateIdx, ssid, ev.res, ev.fetch), e);
      NewBelowLimit(cfg, t, ev, ssid);
    } else if AllProtected(t) {
      AppendStays(t.entries, Written(t.nextId, t.updateIdx, ssid, ev.res, ev.fetch), e);
      NewAmongProtected(cfg, t, ev, ssid);
    } else {
      k := SomeEvictable(t);
      NewAtLimit(cfg, t, ev, ssid, k);
      OthersAt(t.entries, k);
      assert forall x :: x in Cut(t.entries, k) ==> x in after;
      IdIsUnique(t.entries, e, t.entries[k]);
    }
  }

  lemma {:induction false} AppendStays(es: seq<Entry>, n: Entry, e: Entry)
    requires e in es
    ensures e.id in Ids(es + [n])
  {
    assert e in es + [n];
  }

  lemma {:induction false} MatchedStays(t: Table, m: nat, n: Entry, e: Entry)
    requires Inv(t) && m < |t.entries| && n.id == t.entries[m].id && e in t.entries
    ensures e.id in Ids(Cut(t.entries, m) + [n])
  {
    var after := Cut(t.entries, m) + [n];
    OthersAt(t.entries, m);
    if e.id == n.id {
      assert after[|after| - 1] == n;
    } else {
      assert e in Cut(t.entries, m);
    }
  }

  /**
   Over whole runs a scan result removes at most one entry, only from a full table: the least recently
   matched of the unconfigured ones if there are any, else the least recently matched of those not in use.
   */
  lemma {:induction false} EvictionIsLeastRecent(s: Setup, run: seq<Event>, ev: Event, e: Entry, x: Entry)
    requires ev.ScanResult? && e in After(s, run).entries && e.id !in Ids(After(s, run + [ev]).entries)
    requires x in After(s, run).entries
    ensures var t := After(s, run);
            |t.entries| == t.maxCount == After(s, run + [ev]).maxCount &&
            (x.id != e.id ==> x in After(s, run + [ev]).entries) &&
            if exists y :: y in t.entries && Unconfigured(t, y)
            then Unconfigured(t, e) && (Unconfigured(t, x) ==> LastTouch(s, run, e.id) <= LastTouch(s, run, x.id))
            else !Held(t, e) && (!Held(t, x) ==> LastTouch(s, run, e.id) <= LastTouch(s, run, x.id))
  {
    var t := After(s, run);
    RunKeeps(s.cfg, s.maxCount, s.env, run);
    RunOne(s.cfg, Empty(s.maxCount, s.env), run, ev);
    var k := ResultRemoves(s.cfg, t, ev, e);
    var j :| 0 <= j < |t.entries| && t.entries[j] == x;
    if k <= j { EarlierIsOlder(s, run, k, j); }
    if y :| y in t.entries && Unconfigured(t, y) {
      var i :| 0 <= i < |t.entries| && t.entries[i] == y;
    } else {
      assert forall i :: 0 <= i < |t.entries| ==> t.entries[i] in t.entries;
    }
  }

  // ---- where the documented behaviour stops ----

  ghost function Beacon(bssid: Mac, ageMs: nat): ScanRes {
    ScanRes(bssid, 2412, ageMs, [0, 1, 65], [])
  }

  lemma {:induction false} BeaconSsid(bssid: Mac, ageMs: nat)
    ensures ResultSsid(Beacon(bssid, ageMs)) == Some([65])
  {
    var b: seq<byte> := [0, 1, 65];
    var e := Elements.Element(0, [65]);
    assert b[2..3] == [65] && b[3..] == [];
    assert Elements.Parse(b[3..]) == [];
    assert Elements.Parse(b) == [e];
    assert [e][1..] == [];
    assert Elements.First(Elements.ById(EID_SSID), [e]) == Some(e);
    assert Elements.First(Elements.ById(EID_MESH_ID), [e]) == None;
    assert Elements.First(Elements.ByVendor(P2P_IE_VENDOR_TYPE), [e]) == None;
  }

  /** Two results that match nothing, in an empty table with room for both. */
  lemma {:induction false} TwoNewEntries(s: Setup, a: Event, b: Event, ssid: seq<byte>)
    requires a.ScanResult? && b.ScanResult? && !s.cfg.ignoreOld && s.maxCount >= 2
    requires ResultSsid(a.res) == Some(ssid) && ResultSsid(b.res) == Some(ssid)
    requires !Passes(s.cfg, b.res.bssid) || b.res.bssid != a.res.bssid
    ensures var es := After(s, [a, b]).entries;
            |es| == 2 && es[0].bssid == a.res.bssid && es[1].bssid == b.res.bssid && es[0].ssid == es[1].ssid == ssid &&
            es[0].lastUpdate == UpdateTime(a.fetch, a.res.ageMs) && es[1].lastUpdate == UpdateTime(b.fetch, b.res.ageMs) &&
            After(s, [a, b]).env == s.env
  {
    var t0 := Empty(s.maxCount, s.env);
    var t1 := Add(t0, ssid, a.res, a.fetch);
    assert t1.entries == [NewEntry(t0, ssid, a.res, a.fetch)];
    assert After(s, [a]) == t1 by {
      RunOne(s.cfg, t0, [], a);
      assert [] + [a] == [a];
    }
    assert After(s, [a, b]) == Add(t1, ssid, b.res, b.fetch) by {
      RunOne(s.cfg, t0, [a], b);
      assert [a] + [b] == [a, b];
    }
  }

  /** A result outside the BSSID filter is entered again each time it is reported. */
  lemma {:induction false} DuplicatesOutsideFilter() returns (s: Setup, run: seq<Event>)
    ensures !DistinctKeys(After(s, run).entries)
  {
    s := Setup(Settings(Some({}), 2, false), 200, Env(None, 0, 0, []));
    var ev := ScanResult(Beacon(1, 0), Reltime(10, 0), Reltime(0, 0));
    run := [ev, ev];
    BeaconSsid(1, 0);
    TwoNewEntries(s, ev, ev, [65]);
  }

  /** A result that the driver reports late leaves an old entry behind a recent one. */
  lemma {:induction false} FlushByAgeLeavesOld() returns (s: Setup, run: seq<Event>, limit: Reltime)
    ensures FlushByAge(After(s, run), limit) != FlushOlder(After(s, run), limit)
  {
    s := Setup(Settings(None, 2, false), 200, Env(None, 0, 0, []));
    limit := Reltime(8, 0);
    var fetch := Reltime(10, 0);
    var first := ScanResult(Beacon(1, 0), fetch, Reltime(0, 0));
    var late := ScanResult(Beacon(2, 5000), fetch, Reltime(0, 0));
    run := [first, late];
    BeaconSsid(1, 0);
    BeaconSsid(2, 5000);
    TwoNewEntries(s, first, late, [65]);
    assert DistinctIds(After(s, run).entries) by {
      RunKeeps(s.cfg, s.maxCount, s.env, run);
    }
    FlushByAgeMisses(After(s, run), limit, 0, 1);
  }
}
