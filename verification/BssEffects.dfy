/**
 What each event leaves in the table of access points, read off the event, the configuration and the
 association state alone.
 */
module BssEffects {
  import opened Sequences
  import opened Reltimes
  import opened BssTable
  import opened BssInvariant
  import Elements

  /** The entry that a result writes, under an id and in a round. */
  function Written(id: nat, round: nat, ssid: seq<byte>, res: ScanRes, fetch: Reltime): Entry {
    Entry(id, res.bssid, ssid, res.freq, UpdateTime(fetch, res.ageMs), round, 0, res.ies, res.beaconIes)
  }

  /** The result is recent enough, and has a name to file it under. */
  predicate Accepted(cfg: Settings, ev: Event, ssid: seq<byte>) {
    ev.ScanResult? && !(cfg.ignoreOld && Before(UpdateTime(ev.fetch, ev.res.ageMs), ev.trigger)) &&
    ResultSsid(ev.res) == Some(ssid)
  }

  /** Entry `k` is the first one of the result's access point and name, and the filter lets it be found. */
  predicate MatchesAt(cfg: Settings, t: Table, ev: Event, ssid: seq<byte>, k: nat) {
    Accepted(cfg, ev, ssid) && (cfg.filter.Some? ==> ev.res.bssid in cfg.filter.value) && k < |t.entries| &&
    t.entries[k].bssid == ev.res.bssid && t.entries[k].ssid == ssid &&
    forall i :: 0 <= i < k ==> t.entries[i].bssid != ev.res.bssid || t.entries[i].ssid != ssid
  }

  /** No entry is found for the result. */
  predicate MatchesNone(cfg: Settings, t: Table, ev: Event, ssid: seq<byte>) {
    Accepted(cfg, ev, ssid) &&
    ((cfg.filter.Some? && ev.res.bssid !in cfg.filter.value) ||
     forall i :: 0 <= i < |t.entries| ==> t.entries[i].bssid != ev.res.bssid || t.entries[i].ssid != ssid)
  }

  /** The current entry, or one of the access point in use or being joined. */
  predicate Held(t: Table, e: Entry) {
    t.env.current == Some(e.id) || (e.bssid != 0 && (e.bssid == t.env.own || e.bssid == t.env.pending))
  }

  // ---- scan results ----

  /** An ignored result changes nothing; any other is found at one place or at none. */
  lemma {:induction false} ResultCases(cfg: Settings, t: Table, ev: Event)
    requires ev.ScanResult?
    ensures (forall ssid :: !Accepted(cfg, ev, ssid)) ==> Step(cfg, t, ev) == t
    ensures forall ssid :: Accepted(cfg, ev, ssid) ==>
              ((exists k :: MatchesAt(cfg, t, ev, ssid, k)) <==> !MatchesNone(cfg, t, ev, ssid))
  {
    if ResultSsid(ev.res).Some? && !TooOld(cfg, ev.res, ev.fetch, ev.trigger) {
      var ssid := ResultSsid(ev.res).value;
      assert Accepted(cfg, ev, ssid);
      var k := FirstKey(t.entries, ev.res.bssid, ssid);
      if !MatchesNone(cfg, t, ev, ssid) {
        assert MatchesAt(cfg, t, ev, ssid, k);
      }
    }
  }

  /** A matched entry takes every field of the result, keeps its id, and moves to the tail. */
  lemma {:induction false} MatchedResult(cfg: Settings, t: Table, ev: Event, ssid: seq<byte>, k: nat)
    requires MatchesAt(cfg, t, ev, ssid, k)
    ensures Step(cfg, t, ev).entries ==
            Cut(t.entries, k) + [Written(t.entries[k].id, t.updateIdx, ssid, ev.res, ev.fetch)]
    ensures Step(cfg, t, ev).maxCount == t.maxCount && Step(cfg, t, ev).nextId == t.nextId
  {
    var found := FirstKey(t.entries, ev.res.bssid, ssid);
    assert found == k;
  }

  /** Below the limit a new entry goes to the tail and nothing leaves. */
  lemma {:induction false} NewBelowLimit(cfg: Settings, t: Table, ev: Event, ssid: seq<byte>)
    requires MatchesNone(cfg, t, ev, ssid) && |t.entries| < t.maxCount
    ensures Step(cfg, t, ev).entries == t.entries + [Written(t.nextId, t.updateIdx, ssid, ev.res, ev.fetch)]
    ensures Step(cfg, t, ev).maxCount == t.maxCount && Step(cfg, t, ev).nextId == t.nextId + 1
  {
    NewIsAdded(cfg, t, ev, ssid);
  }

  lemma {:induction false} NewIsAdded(cfg: Settings, t: Table, ev: Event, ssid: seq<byte>)
    requires MatchesNone(cfg, t, ev, ssid)
    ensures Step(cfg, t, ev) == Add(t, ssid, ev.res, ev.fetch)
  {
    var k := FirstKey(t.entries, ev.res.bssid, ssid);
    assert Lookup(cfg, t, ev.res.bssid, ssid) == |t.entries|;
  }

  /** Entry `k` is the one to evict: the first unconfigured, or else the first that is not in use. */
  predicate Evictable(t: Table, k: nat) {
    k < |t.entries| &&
    if exists i :: 0 <= i < |t.entries| && Unconfigured(t, t.entries[i])
    then Unconfigured(t, t.entries[k]) && forall i :: 0 <= i < k ==> !Unconfigured(t, t.entries[i])
    else !Held(t, t.entries[k]) && forall i :: 0 <= i < k ==> Held(t, t.entries[i])
  }

  /** No configured network has the entry's name. */
  predicate Unconfigured(t: Table, e: Entry) {
    e.ssid == [] || e.ssid !in t.env.networks
  }

  lemma {:induction false} EvictableIsVictim(t: Table, k: nat)
    requires Evictable(t, k)
    ensures Victim(t) == Some(t.entries[k])
  {
    var u, f := FirstUnknown(t.env, t.entries), FirstUnused(t.env, t.entries);
    if u < |t.entries| {
      assert Unconfigured(t, t.entries[u]);
      assert u == k;
    } else {
      assert forall i :: 0 <= i < |t.entries| ==> Known(t.env, t.entries[i].ssid);
      assert f == k;
    }
  }

  lemma {:induction false} DropNone(es: seq<Entry>, gone: set<nat>)
    requires forall i :: 0 <= i < |es| ==> es[i].id !in gone
    ensures DropEntries(es, gone) == es
  {
    if es != [] {
      assert forall i :: 0 <= i < |es[1..]| ==> es[1..][i] == es[i + 1];
      DropNone(es[1..], gone);
    }
  }

  lemma {:induction false} DropOne(es: seq<Entry>, k: nat)
    requires DistinctIds(es) && k < |es|
    ensures DropEntries(es, {es[k].id}) == Cut(es, k)
  {
    if k == 0 {
      assert forall i :: 0 <= i < |es[1..]| ==> es[1..][i] == es[i + 1];
      DropNone(es[1..], {es[0].id});
      assert Cut(es, 0) == es[1..];
    } else {
      DropOne(es[1..], k - 1);
      CutRest(es, k);
    }
  }

  /** At the limit exactly the evictable entry leaves, and the limit stays. */
  lemma {:induction false} NewAtLimit(cfg: Settings, t: Table, ev: Event, ssid: seq<byte>, k: nat)
    requires Inv(t) && MatchesNone(cfg, t, ev, ssid) && |t.entries| == t.maxCount && Evictable(t, k)
    ensures Step(cfg, t, ev).entries == Cut(t.entries, k) + [Written(t.nextId, t.updateIdx, ssid, ev.res, ev.fetch)]
    ensures Step(cfg, t, ev).maxCount == t.maxCount && Step(cfg, t, ev).nextId == t.nextId + 1
  {
    NewIsAdded(cfg, t, ev, ssid);
    EvictableIsVictim(t, k);
    DropOne(t.entries, k);
    var u := t.(nextId := t.nextId + 1);
    assert Victim(u) == Victim(t);
  }

  predicate AllProtected(t: Table) {
    forall i :: 0 <= i < |t.entries| ==> !Unconfigured(t, t.entries[i]) && Held(t, t.entries[i])
  }

  /** Unless every entry is configured and in use, there is one to evict. */
  lemma {:induction false} SomeEvictable(t: Table) returns (k: nat)
    requires !AllProtected(t)
    ensures Evictable(t, k)
  {
    var u, f := FirstUnknown(t.env, t.entries), FirstUnused(t.env, t.entries);
    if u < |t.entries| {
      assert Unconfigured(t, t.entries[u]);
      k := u;
    } else {
      assert forall i :: 0 <= i < |t.entries| ==> !Unconfigured(t, t.entries[i]);
      k := f;
    }
  }

  /** Making room by itself: nothing below the limit, the evictable entry at it, a higher limit if there is none. */
  lemma {:induction false} RoomMade(t: Table)
    requires DistinctIds(t.entries)
    ensures |t.entries| < t.maxCount ==> MakeRoom(t) == t
    ensures |t.entries| >= t.maxCount && AllProtected(t) ==> MakeRoom(t) == t.(maxCount := |t.entries| + 1)
    ensures |t.entries| >= t.maxCount && !AllProtected(t) ==>
              MakeRoom(t).maxCount == t.maxCount && exists k :: Evictable(t, k) && MakeRoom(t).entries == Cut(t.entries, k)
  {
    if |t.entries| >= t.maxCount {
      if AllProtected(t) {
        VictimIsOldest(t);
        forall e | e in t.entries ensures Known(t.env, e.ssid) && InUse(t.env, e) {
          var i :| 0 <= i < |t.entries| && t.entries[i] == e;
          assert !Unconfigured(t, t.entries[i]);
        }
      } else {
        var k := SomeEvictable(t);
        EvictableIsVictim(t, k);
        DropOne(t.entries, k);
      }
    }
  }

  /** When nothing may go, the limit is raised to the size and one. */
  lemma {:induction false} NewAmongProtected(cfg: Settings, t: Table, ev: Event, ssid: seq<byte>)
    requires Inv(t) && MatchesNone(cfg, t, ev, ssid) && |t.entries| == t.maxCount && AllProtected(t)
    ensures Step(cfg, t, ev).entries == t.entries + [Written(t.nextId, t.updateIdx, ssid, ev.res, ev.fetch)]
    ensures Step(cfg, t, ev).maxCount == |t.entries| + 1 && Step(cfg, t, ev).nextId == t.nextId + 1
  {
    NewIsAdded(cfg, t, ev, ssid);
    var u := t.(nextId := t.nextId + 1);
    VictimIsOldest(u);
    forall e | e in u.entries ensures Known(u.env, e.ssid) && InUse(u.env, e) {
      var i :| 0 <= i < |t.entries| && t.entries[i] == e;
      assert !Unconfigured(t, t.entries[i]);
    }
  }

  /** The limit changes exactly when a new entry comes to a full table whose entries are all configured and in use. */
  lemma {:induction false} LimitRaisedIff(cfg: Settings, t: Table, ev: Event)
    requires Inv(t)
    ensures Step(cfg, t, ev).maxCount != t.maxCount <==>
            (exists ssid :: MatchesNone(cfg, t, ev, ssid)) && |t.entries| == t.maxCount && AllProtected(t)
  {
    if ev.ScanResult? {
      ResultCases(cfg, t, ev);
      if ssid :| MatchesNone(cfg, t, ev, ssid) {
        if |t.entries| < t.maxCount {
          NewBelowLimit(cfg, t, ev, ssid);
        } else if AllProtected(t) {
          NewAmongProtected(cfg, t, ev, ssid);
        } else {
          var k := SomeEvictable(t);
          NewAtLimit(cfg, t, ev, ssid, k);
        }
      } else if ssid :| Accepted(cfg, ev, ssid) {
        var k :| MatchesAt(cfg, t, ev, ssid, k);
        MatchedResult(cfg, t, ev, ssid, k);
      }
    }
  }

  /** With normal times a result is too old exactly when its age reaches back before the trigger. */
  lemma {:induction false} TooOldIff(cfg: Settings, ev: Event)
    requires ev.ScanResult? && Normal(ev.fetch) && Normal(ev.trigger) && ResultSsid(ev.res).Some?
    ensures (forall ssid :: !Accepted(cfg, ev, ssid)) <==>
            cfg.ignoreOld && Micros(ev.fetch) - 1000 * ev.res.ageMs < Micros(ev.trigger)
  {
    BeforeIsEarlier(UpdateTime(ev.fetch, ev.res.ageMs), ev.trigger);
    if !TooOld(cfg, ev.res, ev.fetch, ev.trigger) {
      assert Accepted(cfg, ev, ResultSsid(ev.res).value);
    }
  }

  /** A mesh ID of at most 32 octets takes the place of the SSID. */
  lemma {:induction false} FiledUnder(res: ScanRes)
    requires ResultSsid(res).Some?
    ensures var es := Elements.Parse(res.ies);
            var ssid, mesh := Elements.First(Elements.ById(EID_SSID), es), Elements.First(Elements.ById(EID_MESH_ID), es);
            ResultSsid(res) ==
            if mesh.Some? && |mesh.value.payload| <= 32 then Some(mesh.value.payload)
            else if ssid.Some? then Some(ssid.value.payload) else None
  {
  }

  // ---- round ends and flushes ----

  /** The flush leaves exactly the entries in use. */
  lemma {:induction false} FlushLeaves(cfg: Settings, t: Table, e: Entry)
    requires Inv(t)
    ensures e in Step(cfg, t, FlushUnused).entries <==> e in t.entries && Held(t, e)
  {
    DropEntriesMembers(t.entries, Unused(t.env, t.entries));
    if e in t.entries && Held(t, e) && e.id in Unused(t.env, t.entries) {
      var x :| x in t.entries && !InUse(t.env, x) && x.id == e.id;
      IdIsUnique(t.entries, x, e);
    }
  }

  /** A round starts under the next number, with nothing recorded. */
  lemma {:induction false} StartIs(cfg: Settings, t: Table)
    ensures Step(cfg, t, StartRound) ==
            Table(t.entries, [], t.nextId, t.updateIdx + 1, t.maxCount, t.env)
  {
  }

  /** A round end without new results changes nothing. */
  lemma {:induction false} IdleEnd(cfg: Settings, t: Table, info: Option<ScanInfo>)
    ensures Step(cfg, t, EndRound(info, false)) == t
  {
  }

  /** The scan looked on the entry's frequency and asked for its name or for any. */
  predicate Asked(info: Option<ScanInfo>, e: Entry) {
    info == None ||
    ((|info.value.freqs| > 0 ==> e.freq in info.value.freqs) &&
     (|info.value.ssids| > 0 && [] !in info.value.ssids ==> e.ssid in info.value.ssids))
  }

  /** A round end counts a missed entry that was asked for, and removes it when the count reaches the limit. */
  lemma {:induction false} EndLeaves(cfg: Settings, t: Table, info: Option<ScanInfo>, e: Entry)
    requires Inv(t) && e in t.entries
    ensures var missed := e.missCount + if e.updateIdx < t.updateIdx then 1 else 0;
            var after := Step(cfg, t, EndRound(info, true)).entries;
            if Held(t, e) || !Asked(info, e) then e in after
            else if missed < cfg.expireCount then e.(missCount := missed) in after
            else e.id !in Ids(after)
  {
    EndRemovesExactly(cfg, t, info, e);
    if Held(t, e) || !Asked(info, e) || e.updateIdx >= t.updateIdx {
      assert Counted(t.env, t.updateIdx, info, e) == e;
    }
    if e.updateIdx >= t.updateIdx {
      assert e.(missCount := e.missCount) == e;
    }
  }
}
