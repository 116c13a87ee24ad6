/** What every operation on the table of access points keeps, and what it may remove. */
module BssInvariant {
  import opened Sequences
  import opened Reltimes
  import opened BssTable

  // ---- removing entries ----

  lemma {:induction false} DropEntriesDistinct(es: seq<Entry>, gone: set<nat>)
    requires DistinctIds(es)
    ensures DistinctIds(DropEntries(es, gone))
  {
    var r := DropEntries(es, gone);
    forall i, j | 0 <= i < j < |r| ensures r[i].id != r[j].id {
      var a, b := KeptPair(es, gone, i, j);
    }
  }

  lemma {:induction false} DropEntriesShrinks(es: seq<Entry>, gone: set<nat>)
    ensures |DropEntries(es, gone)| <= |es|
    ensures (exists e :: e in es && e.id in gone) ==> |DropEntries(es, gone)| < |es|
  {
    if es != [] {
      DropEntriesShrinks(es[1..], gone);
      assert forall e :: e in es <==> e == es[0] || e in es[1..];
    }
  }

  lemma {:induction false} DropIdsDistinct(ids: seq<nat>, gone: set<nat>)
    requires Distinct(ids)
    ensures Distinct(DropIds(ids, gone))
  {
    if ids != [] {
      DropIdsDistinct(ids[1..], gone);
      DropIdsMembers(ids[1..], gone);
      var r := DropIds(ids[1..], gone);
      assert ids[0] !in ids[1..];
      assert forall i :: 0 <= i < |r| ==> r[i] in r;
    }
  }

  lemma {:induction false} IdIsUnique(es: seq<Entry>, a: Entry, b: Entry)
    requires DistinctIds(es) && a in es && b in es && a.id == b.id
    ensures a == b
  {
    var i :| 0 <= i < |es| && es[i] == a;
    var j :| 0 <= j < |es| && es[j] == b;
    assert i == j;
  }

  lemma {:induction false} PurgeIdentified(t: Table, gone: set<nat>)
    requires Identified(t)
    ensures Identified(Purge(t, gone))
  {
    DropEntriesDistinct(t.entries, gone);
    DropEntriesMembers(t.entries, gone);
    DropIdsDistinct(t.scanRes, gone);
  }

  lemma {:induction false} PurgeKeeps(t: Table, gone: set<nat>)
    requires Inv(t)
    ensures Inv(Purge(t, gone))
    ensures forall e :: e in Purge(t, gone).entries <==> e in t.entries && e.id !in gone
  {
    var p := Purge(t, gone);
    DropEntriesDistinct(t.entries, gone);
    DropEntriesMembers(t.entries, gone);
    DropEntriesShrinks(t.entries, gone);
    DropIdsDistinct(t.scanRes, gone);
    DropIdsMembers(t.scanRes, gone);
    forall x | x in p.scanRes
      ensures x in Ids(p.entries)
    {
      assert x in Ids(t.entries);
      var e :| e in t.entries && e.id == x;
      assert e in p.entries;
    }
  }

  // ---- adding and refreshing ----

  /** Room is made: below the limit afterwards, at most one entry gone. */
  lemma {:induction false} MakeRoomKeeps(t: Table)
    requires Inv(t)
    ensures Inv(MakeRoom(t)) && |MakeRoom(t).entries| + 1 <= MakeRoom(t).maxCount
    ensures MakeRoom(t).nextId == t.nextId && MakeRoom(t).updateIdx == t.updateIdx
    ensures forall e :: e in MakeRoom(t).entries ==> e in t.entries
  {
    if |t.entries| + 1 > t.maxCount && Victim(t).Some? {
      PurgeKeeps(t, {Victim(t).value.id});
      DropEntriesShrinks(t.entries, {Victim(t).value.id});
    }
  }

  lemma {:induction false} MakeRoomShrinks(t: Table)
    ensures forall e :: e in MakeRoom(t).entries ==> e in t.entries
    ensures MakeRoom(t).nextId == t.nextId && MakeRoom(t).updateIdx == t.updateIdx && MakeRoom(t).env == t.env
  {
    if Victim(t).Some? {
      DropEntriesMembers(t.entries, {Victim(t).value.id});
    }
  }

  lemma {:induction false} AppendKeeps(r: Table, n: Entry)
    requires Inv(r) && |r.entries| + 1 <= r.maxCount
    requires n.id < r.nextId && n.updateIdx == r.updateIdx && forall e :: e in r.entries ==> e.id != n.id
    ensures Inv(r.(entries := r.entries + [n], scanRes := r.scanRes + [n.id]))
  {
    var es := r.entries + [n];
    assert forall e :: e in es <==> e in r.entries || e == n;
    assert n.id !in Ids(r.entries);
    assert n.id !in r.scanRes;
    assert DistinctIds(es);
    assert forall x :: x in Ids(es) <==> x in Ids(r.entries) || x == n.id by {
      assert n in es;
    }
  }

  lemma {:induction false} AddKeeps(t: Table, ssid: seq<byte>, res: ScanRes, fetch: Reltime)
    requires Inv(t)
    ensures Inv(Add(t, ssid, res, fetch))
  {
    var u := t.(nextId := t.nextId + 1);
    assert Inv(u);
    var r := MakeRoom(u);
    assert Inv(r) && |r.entries| + 1 <= r.maxCount && forall e :: e in r.entries ==> e.id < t.nextId by {
      MakeRoomKeeps(u);
    }
    AppendKeeps(r, NewEntry(t, ssid, res, fetch));
  }

  lemma {:induction false} RefreshKeeps(t: Table, k: nat, res: ScanRes, fetch: Reltime)
    requires Inv(t) && k < |t.entries|
    ensures Inv(Refresh(t, k, res, fetch))
  {
    var r := Refresh(t, k, res, fetch);
    var e := t.entries[k];
    var n := Refreshed(t, e, res, fetch);
    var others := Cut(t.entries, k);
    OthersAt(t.entries, k);
    assert forall x :: x in r.entries <==> x in others || x == n;
    assert DistinctIds(r.entries);
    forall x | x in r.scanRes ensures x in Ids(r.entries) {
      if x == e.id {
        assert n in r.entries;
      } else {
        assert x in Ids(t.entries);
        var y :| y in t.entries && y.id == x;
        assert y in r.entries;
      }
    }
    forall x | x in r.entries ensures x.id in r.scanRes <==> x.updateIdx == r.updateIdx {
      if x != n { assert x in others && x in t.entries && x.id != e.id; }
    }
  }

  lemma {:induction false} OthersAt(es: seq<Entry>, k: nat)
    requires DistinctIds(es) && k < |es|
    ensures DistinctIds(Cut(es, k))
    ensures forall x :: x in Cut(es, k) <==> x in es && x.id != es[k].id
  {
    var others := Cut(es, k);
    assert forall i :: 0 <= i < |others| ==> others[i] == if i < k then es[i] else es[i + 1];
    forall x | x in es && x.id != es[k].id ensures x in others {
      var i :| 0 <= i < |es| && es[i] == x;
      assert others[if i < k then i else i - 1] == x;
    }
    forall x | x in others ensures x in es && x.id != es[k].id {
      var i :| 0 <= i < |others| && others[i] == x;
      if i < k { assert es[i].id != es[k].id; } else { assert es[k].id != es[i + 1].id; }
    }
  }

  lemma {:induction false} ResultKeeps(cfg: Settings, t: Table, res: ScanRes, fetch: Reltime, trigger: Reltime)
    requires Inv(t)
    ensures Inv(Result(cfg, t, res, fetch, trigger))
  {
    if !TooOld(cfg, res, fetch, trigger) && ResultSsid(res).Some? {
      var ssid := ResultSsid(res).value;
      var k := Lookup(cfg, t, res.bssid, ssid);
      if k < |t.entries| {
        RefreshKeeps(t, k, res, fetch);
      } else {
        AddKeeps(t, ssid, res, fetch);
      }
    }
  }

  // ---- ending a round ----

  /** Entries may be rewritten in place as long as ids and round marks stay. */
  ghost predicate SameMarks(a: seq<Entry>, b: seq<Entry>) {
    |a| == |b| && forall i :: 0 <= i < |a| ==> a[i].id == b[i].id && a[i].updateIdx == b[i].updateIdx
  }

  lemma {:induction false} SameIds(a: seq<Entry>, b: seq<Entry>)
    requires SameMarks(a, b)
    ensures Ids(a) == Ids(b)
  {
    forall x ensures x in Ids(a) <==> x in Ids(b) {
      if x in Ids(a) {
        var i :| 0 <= i < |a| && a[i].id == x;
        assert b[i] in b;
      }
      if x in Ids(b) {
        var i :| 0 <= i < |b| && b[i].id == x;
        assert a[i] in a;
      }
    }
  }

  lemma {:induction false} RewriteKeeps(t: Table, es: seq<Entry>)
    requires Inv(t) && SameMarks(t.entries, es)
    ensures Inv(t.(entries := es))
  {
    SameIds(t.entries, es);
    forall e | e in es
      ensures e.id < t.nextId && e.updateIdx <= t.updateIdx
      ensures e.id in t.scanRes <==> e.updateIdx == t.updateIdx
    {
      var i :| 0 <= i < |es| && es[i] == e;
      assert t.entries[i] in t.entries;
    }
  }

  /** Every step keeps the invariant: it holds after every run from an empty table. */
  lemma {:induction false} StepKeeps(cfg: Settings, t: Table, ev: Event)
    requires Inv(t)
    ensures Inv(Step(cfg, t, ev))
  {
    match ev
    case Change(env) =>
    case StartRound =>
      assert forall e :: e in t.entries ==> e.updateIdx < t.updateIdx + 1;
    case ScanResult(res, fetch, trigger) =>
      ResultKeeps(cfg, t, res, fetch, trigger);
    case EndRound(info, newScan) =>
      if newScan {
        RewriteKeeps(t, CountAll(t.env, t.updateIdx, info, t.entries));
        PurgeKeeps(t.(entries := CountAll(t.env, t.updateIdx, info, t.entries)), Expired(cfg, t.env, t.updateIdx, info, t.entries));
      }
    case FlushAge(limit) =>
      var seen := t.entries[..FlushStop(t.env, limit, t.entries)];
      PurgeKeeps(t, StaleIds(t.env, limit, seen));
    case FlushUnused =>
      PurgeKeeps(t, Unused(t.env, t.entries));
  }

  lemma {:induction false} RunOne(cfg: Settings, t: Table, run: seq<Event>, ev: Event)
    ensures Run(cfg, t, run + [ev]) == Step(cfg, Run(cfg, t, run), ev)
  {
    assert (run + [ev])[..|run|] == run;
  }

  lemma {:induction false} RunKeepsFrom(cfg: Settings, t: Table, run: seq<Event>)
    requires Inv(t)
    ensures Inv(Run(cfg, t, run))
  {
    if run != [] {
      RunKeepsFrom(cfg, t, run[..|run| - 1]);
      StepKeeps(cfg, Run(cfg, t, run[..|run| - 1]), run[|run| - 1]);
    }
  }

  lemma {:induction false} RunKeeps(cfg: Settings, maxCount: nat, env: Env, run: seq<Event>)
    ensures Inv(Run(cfg, Empty(maxCount, env), run))
  {
    RunKeepsFrom(cfg, Empty(maxCount, env), run);
  }

  // ---- what is removed, and what never is ----

  lemma {:induction false} ExpiredIff(cfg: Settings, t: Table, info: Option<ScanInfo>, e: Entry)
    requires DistinctIds(t.entries) && e in t.entries
    ensures e.id in Expired(cfg, t.env, t.updateIdx, info, t.entries) <==> Expires(cfg, t.env, t.updateIdx, info, e)
  {
    if e.id in Expired(cfg, t.env, t.updateIdx, info, t.entries) {
      var x :| x in t.entries && Expires(cfg, t.env, t.updateIdx, info, x) && x.id == e.id;
      IdIsUnique(t.entries, x, e);
    }
  }

  lemma {:induction false} CountedIn(t: Table, info: Option<ScanInfo>, e: Entry)
    requires e in t.entries
    ensures Counted(t.env, t.updateIdx, info, e) in CountAll(t.env, t.updateIdx, info, t.entries)
  {
    var i :| 0 <= i < |t.entries| && t.entries[i] == e;
    assert CountAll(t.env, t.updateIdx, info, t.entries)[i] == Counted(t.env, t.updateIdx, info, e);
  }

  /** A new-scan round end removes exactly the audited entries whose count has reached the limit. */
  lemma {:induction false} EndRemovesExactly(cfg: Settings, t: Table, info: Option<ScanInfo>, e: Entry)
    requires Inv(t) && e in t.entries
    ensures e.id in Ids(End(cfg, t, info, true).entries) <==>
            InUse(t.env, e) || !Covered(info, e.freq, e.ssid) || Counted(t.env, t.updateIdx, info, e).missCount < cfg.expireCount
    ensures e.id in Ids(End(cfg, t, info, true).entries) ==> Counted(t.env, t.updateIdx, info, e) in End(cfg, t, info, true).entries
  {
    DropEntriesMembers(CountAll(t.env, t.updateIdx, info, t.entries), Expired(cfg, t.env, t.updateIdx, info, t.entries));
    CountedIn(t, info, e);
    ExpiredIff(cfg, t, info, e);
  }

  /** Which entry makes room: the oldest unconfigured one, else the oldest unused one, else none. */
  lemma {:induction false} VictimIsOldest(t: Table)
    ensures Victim(t).None? <==> forall e :: e in t.entries ==> Known(t.env, e.ssid) && InUse(t.env, e)
    ensures Victim(t).Some? ==>
      exists k :: 0 <= k < |t.entries| && t.entries[k] == Victim(t).value &&
        if exists e :: e in t.entries && !Known(t.env, e.ssid)
        then !Known(t.env, t.entries[k].ssid) && forall i :: 0 <= i < k ==> Known(t.env, t.entries[i].ssid)
        else !InUse(t.env, t.entries[k]) && forall i :: 0 <= i < k ==> InUse(t.env, t.entries[i])
  {
    var u := FirstUnknown(t.env, t.entries);
    var f := FirstUnused(t.env, t.entries);
    if u < |t.entries| {
      assert t.entries[u] in t.entries;
    } else if f < |t.entries| {
      assert t.entries[f] in t.entries;
      assert forall e :: e in t.entries ==> Known(t.env, e.ssid);
    } else {
      assert forall e :: e in t.entries ==> Known(t.env, e.ssid) && InUse(t.env, e);
    }
  }

  /** No step removes an entry that is both configured and in use. */
  lemma {:induction false} ProtectedStays(cfg: Settings, t: Table, ev: Event, e: Entry)
    requires Inv(t) && e in t.entries && Known(t.env, e.ssid) && InUse(t.env, e)
    ensures e.id in Ids(Step(cfg, t, ev).entries)
  {
    match ev
    case Change(env) =>
    case StartRound =>
    case ScanResult(res, fetch, trigger) =>
      ProtectedStaysResult(cfg, t, res, fetch, trigger, e);
    case EndRound(info, newScan) =>
      if newScan { EndRemovesExactly(cfg, t, info, e); }
    case FlushAge(limit) =>
      var seen := t.entries[..FlushStop(t.env, limit, t.entries)];
      KeptWhenInUse(t, StaleIds(t.env, limit, seen), e);
    case FlushUnused =>
      KeptWhenInUse(t, Unused(t.env, t.entries), e);
  }

  lemma {:induction false} ProtectedStaysResult(cfg: Settings, t: Table, res: ScanRes, fetch: Reltime, trigger: Reltime, e: Entry)
    requires Inv(t) && e in t.entries && Known(t.env, e.ssid) && InUse(t.env, e)
    ensures e.id in Ids(Result(cfg, t, res, fetch, trigger).entries)
  {
    if !TooOld(cfg, res, fetch, trigger) && ResultSsid(res).Some? {
      var ssid := ResultSsid(res).value;
      var k := Lookup(cfg, t, res.bssid, ssid);
      if k < |t.entries| {
        OthersAt(t.entries, k);
        var r := Refresh(t, k, res, fetch);
        assert Refreshed(t, t.entries[k], res, fetch) in r.entries;
        if e.id != t.entries[k].id { assert e in r.entries; }
      } else {
        SurvivesEviction(t.(nextId := t.nextId + 1), e);
        assert e in Add(t, ssid, res, fetch).entries;
      }
    }
  }

  lemma {:induction false} SurvivesEviction(t: Table, e: Entry)
    requires Inv(t) && e in t.entries && Known(t.env, e.ssid) && InUse(t.env, e)
    ensures e in MakeRoom(t).entries
  {
    VictimIsOldest(t);
    if |t.entries| + 1 > t.maxCount && Victim(t).Some? {
      var v := Victim(t).value;
      if v.id == e.id { IdIsUnique(t.entries, v, e); }
      PurgeKeeps(t, {v.id});
    }
  }

  lemma {:induction false} KeptWhenInUse(t: Table, gone: set<nat>, e: Entry)
    requires Inv(t) && e in t.entries && InUse(t.env, e)
    requires forall x :: x in gone ==> exists y :: y in t.entries && y.id == x && !InUse(t.env, y)
    ensures e in Purge(t, gone).entries
  {
    if e.id in gone {
      var y :| y in t.entries && y.id == e.id && !InUse(t.env, y);
      IdIsUnique(t.entries, y, e);
    }
    PurgeKeeps(t, gone);
  }

  // ---- one entry per (BSSID, SSID) ----

  lemma {:induction false} DropEntriesKeys(es: seq<Entry>, gone: set<nat>)
    requires DistinctKeys(es)
    ensures DistinctKeys(DropEntries(es, gone))
  {
    var r := DropEntries(es, gone);
    forall i, j | 0 <= i < j < |r| ensures !HasKey(r[i], r[j].bssid, r[j].ssid) {
      var a, b := KeptPair(es, gone, i, j);
    }
  }

  lemma {:induction false} MakeRoomKeys(t: Table)
    requires DistinctKeys(t.entries)
    ensures DistinctKeys(MakeRoom(t).entries)
  {
    if |t.entries| + 1 > t.maxCount && Victim(t).Some? {
      DropEntriesKeys(t.entries, {Victim(t).value.id});
    }
  }

  /**
   A result keeps keys unique exactly when its BSSID passes the filter or no entry left
   after making room has its key: outside the filter the lookup misses and duplicates.
   */
  lemma {:induction false} ResultKeysIff(cfg: Settings, t: Table, res: ScanRes, fetch: Reltime, trigger: Reltime)
    requires Inv(t) && DistinctKeys(t.entries)
    requires !TooOld(cfg, res, fetch, trigger) && ResultSsid(res).Some?
    ensures DistinctKeys(Result(cfg, t, res, fetch, trigger).entries) <==>
            Passes(cfg, res.bssid) ||
            forall e :: e in MakeRoom(t).entries ==> !HasKey(e, res.bssid, ResultSsid(res).value)
  {
    var ssid := ResultSsid(res).value;
    var k := Lookup(cfg, t, res.bssid, ssid);
    if k < |t.entries| {
      RefreshKeys(t, k, res, fetch);
    } else {
      MakeRoomKeys(t);
      MakeRoomKeeps(t);
      var u := t.(nextId := t.nextId + 1);
      assert MakeRoom(u).entries == MakeRoom(t).entries;
      var es := MakeRoom(t).entries;
      var n := NewEntry(t, ssid, res, fetch);
      AppendKeys(es, n);
      assert Add(t, ssid, res, fetch).entries == es + [n];
      if Passes(cfg, res.bssid) {
        assert forall e :: e in t.entries ==> !HasKey(e, res.bssid, ssid);
      }
    }
  }

  lemma {:induction false} AppendKeys(es: seq<Entry>, n: Entry)
    requires DistinctKeys(es)
    ensures DistinctKeys(es + [n]) <==> forall e :: e in es ==> !HasKey(e, n.bssid, n.ssid)
  {
    var a := es + [n];
    if DistinctKeys(a) {
      forall e | e in es ensures !HasKey(e, n.bssid, n.ssid) {
        var i :| 0 <= i < |es| && es[i] == e;
        assert a[i] == e && a[|es|] == n;
      }
    }
  }

  lemma {:induction false} RefreshKeys(t: Table, k: nat, res: ScanRes, fetch: Reltime)
    requires DistinctKeys(t.entries) && k < |t.entries| && t.entries[k].bssid == res.bssid
    ensures DistinctKeys(Refresh(t, k, res, fetch).entries)
  {
    var es := t.entries;
    var others := Cut(es, k);
    assert forall i :: 0 <= i < |others| ==> others[i] == if i < k then es[i] else es[i + 1];
    var n := Refreshed(t, es[k], res, fetch);
    forall e | e in others ensures !HasKey(e, n.bssid, n.ssid) {
      var i :| 0 <= i < |others| && others[i] == e;
      if i < k { assert !HasKey(es[i], es[k].bssid, es[k].ssid); } else { assert !HasKey(es[k], es[i + 1].bssid, es[i + 1].ssid); }
    }
    assert DistinctKeys(others);
    AppendKeys(others, n);
  }

  /** Over whole runs of filtered results no two entries share (BSSID, SSID). */
  lemma {:induction false} RunKeys(cfg: Settings, maxCount: nat, env: Env, run: seq<Event>)
    requires forall i :: 0 <= i < |run| && run[i].ScanResult? ==> Passes(cfg, run[i].res.bssid)
    ensures DistinctKeys(Run(cfg, Empty(maxCount, env), run).entries)
  {
    if run != [] {
      var before := run[..|run| - 1];
      RunKeys(cfg, maxCount, env, before);
      RunKeeps(cfg, maxCount, env, before);
      StepKeys(cfg, Run(cfg, Empty(maxCount, env), before), run[|run| - 1]);
    }
  }

  lemma {:induction false} StepKeys(cfg: Settings, t: Table, ev: Event)
    requires Inv(t) && DistinctKeys(t.entries)
    requires ev.ScanResult? ==> Passes(cfg, ev.res.bssid)
    ensures DistinctKeys(Step(cfg, t, ev).entries)
  {
    match ev
    case Change(env) =>
    case StartRound =>
    case ScanResult(res, fetch, trigger) =>
      if !TooOld(cfg, res, fetch, trigger) && ResultSsid(res).Some? {
        ResultKeysIff(cfg, t, res, fetch, trigger);
      }
    case EndRound(info, newScan) =>
      if newScan {
        var c := CountAll(t.env, t.updateIdx, info, t.entries);
        assert forall i :: 0 <= i < |c| ==> c[i].bssid == t.entries[i].bssid && c[i].ssid == t.entries[i].ssid;
        DropEntriesKeys(c, Expired(cfg, t.env, t.updateIdx, info, t.entries));
      }
    case FlushAge(limit) =>
      var seen := t.entries[..FlushStop(t.env, limit, t.entries)];
      DropEntriesKeys(t.entries, StaleIds(t.env, limit, seen));
    case FlushUnused =>
      DropEntriesKeys(t.entries, Unused(t.env, t.entries));
  }

  // ---- flushing by age ----

  ghost predicate UnusedInUpdateOrder(t: Table) {
    forall i, j :: 0 <= i < j < |t.entries| && !InUse(t.env, t.entries[i]) && !InUse(t.env, t.entries[j]) ==>
      !Before(t.entries[j].lastUpdate, t.entries[i].lastUpdate)
  }

  /** After the first recent unused entry, no unused entry is stale. */
  ghost predicate NoStaleAfterRecent(t: Table, limit: Reltime) {
    forall i, j :: 0 <= i < j < |t.entries| && !InUse(t.env, t.entries[i]) ==>
      Stale(t.env, limit, t.entries[i]) || !Stale(t.env, limit, t.entries[j])
  }

  lemma {:induction false} FlushByAgeComplete(t: Table, limit: Reltime)
    requires NoStaleAfterRecent(t, limit)
    ensures FlushByAge(t, limit) == FlushOlder(t, limit)
  {
    var k := FlushStop(t.env, limit, t.entries);
    var seen := t.entries[..k];
    forall e | e in t.entries && Stale(t.env, limit, e) ensures e in seen {
      var j :| 0 <= j < |t.entries| && t.entries[j] == e;
      assert j < k;
      assert seen[j] == e;
    }
    assert StaleIds(t.env, limit, seen) == StaleIds(t.env, limit, t.entries);
  }

  lemma {:induction false} FlushByAgeMisses(t: Table, limit: Reltime, i: nat, j: nat)
    requires DistinctIds(t.entries) && i < j < |t.entries|
    requires !InUse(t.env, t.entries[i]) && !Stale(t.env, limit, t.entries[i]) && Stale(t.env, limit, t.entries[j])
    ensures t.entries[j] in FlushByAge(t, limit).entries && t.entries[j] !in FlushOlder(t, limit).entries
  {
    var k := FlushStop(t.env, limit, t.entries);
    var seen := t.entries[..k];
    var gone := StaleIds(t.env, limit, seen);
    assert k <= i;
    assert forall m :: 0 <= m < k ==> seen[m].id != t.entries[j].id;
    assert t.entries[j].id !in gone;
    assert t.entries[j] in t.entries;
    DropEntriesMembers(t.entries, gone);
    DropEntriesMembers(t.entries, StaleIds(t.env, limit, t.entries));
  }

  /** The early exit loses nothing, for one limit, exactly when no stale entry hides behind a recent one. */
  lemma {:induction false} FlushByAgeIff(t: Table, limit: Reltime)
    requires DistinctIds(t.entries)
    ensures FlushByAge(t, limit) == FlushOlder(t, limit) <==> NoStaleAfterRecent(t, limit)
  {
    if NoStaleAfterRecent(t, limit) {
      FlushByAgeComplete(t, limit);
    } else {
      var i, j :| 0 <= i < j < |t.entries| && !InUse(t.env, t.entries[i]) &&
                  !Stale(t.env, limit, t.entries[i]) && Stale(t.env, limit, t.entries[j]);
      FlushByAgeMisses(t, limit, i, j);
    }
  }

  /** For every limit, exactly when the unused entries are listed in order of their last update. */
  lemma {:induction false} FlushByAgeAlwaysIff(t: Table)
    requires DistinctIds(t.entries)
    ensures (forall limit :: FlushByAge(t, limit) == FlushOlder(t, limit)) <==> UnusedInUpdateOrder(t)
  {
    if UnusedInUpdateOrder(t) {
      forall limit ensures FlushByAge(t, limit) == FlushOlder(t, limit) {
        FlushByAgeIff(t, limit);
      }
    } else {
      var i, j :| 0 <= i < j < |t.entries| && !InUse(t.env, t.entries[i]) && !InUse(t.env, t.entries[j]) &&
                  Before(t.entries[j].lastUpdate, t.entries[i].lastUpdate);
      var limit := t.entries[i].lastUpdate;
      FlushByAgeIff(t, limit);
      assert !NoStaleAfterRecent(t, limit);
    }
  }
}
