/**
 The table of known access points, as a value: what `wpa_supplicant/bss.c` keeps
 once its pointers are read as entry ids. The pointer-level class that refines it
 is in `BssStore.dfy`; whole runs are in `BssHistory.dfy`.
 */
module Reltimes {

  /** `struct os_reltime`. */
  datatype Reltime = Reltime(sec: int, usec: int)

  predicate Normal(t: Reltime) {
    0 <= t.usec < 1_000_000
  }

  function Micros(t: Reltime): int {
    1_000_000 * t.sec + t.usec
  }

  /** `os_reltime_before`. */
  predicate Before(a: Reltime, b: Reltime) {
    a.sec < b.sec || (a.sec == b.sec && a.usec < b.usec)
  }

  /** `calculate_update_time`: subtract an age in milliseconds, borrowing a second when needed. */
  function UpdateTime(fetch: Reltime, ageMs: nat): (r: Reltime)
    ensures Micros(r) == Micros(fetch) - 1000 * ageMs
    ensures Normal(fetch) ==> Normal(r)
  {
    var sec := fetch.sec - ageMs / 1000;
    var usec := (ageMs % 1000) * 1000;
    assert 1_000_000 * (ageMs / 1000) + usec == 1000 * ageMs;
    if fetch.usec < usec then Reltime(sec - 1, fetch.usec + 1_000_000 - usec)
    else Reltime(sec, fetch.usec - usec)
  }

  lemma {:induction false} BeforeIsEarlier(a: Reltime, b: Reltime)
    requires Normal(a) && Normal(b)
    ensures Before(a, b) <==> Micros(a) < Micros(b)
  {
  }
}

module BssTable {
  import opened Sequences
  import opened Reltimes
  import Elements

  /** A MAC address as a number; 0 is the all-zero address. */
  type Mac = nat

  datatype Entry = Entry(
    id: nat, bssid: Mac, ssid: seq<byte>, freq: int, lastUpdate: Reltime,
    updateIdx: nat, missCount: nat, ies: seq<byte>, beaconIes: seq<byte>)

  datatype ScanRes = ScanRes(
    bssid: Mac, freq: int, ageMs: nat, ies: seq<byte>, beaconIes: seq<byte>)

  /** `struct scan_info`: an empty list restricts nothing, an empty SSID is the wildcard. */
  datatype ScanInfo = ScanInfo(freqs: seq<int>, ssids: seq<seq<byte>>)

  /** What the table reads from the rest of the supplicant. */
  datatype Env = Env(
    current: Option<nat>, own: Mac, pending: Mac, networks: seq<seq<byte>>)

  /** Settings that stay fixed through a run. */
  datatype Settings = Settings(
    filter: Option<set<Mac>>, expireCount: nat, ignoreOld: bool)

  datatype Table = Table(
    entries: seq<Entry>,   // least recently updated first
    scanRes: seq<nat>,     // ids recorded in the current round
    nextId: nat, updateIdx: nat, maxCount: nat, env: Env)

  const EID_SSID: byte := 0
  const EID_MESH_ID: byte := 114
  const SSID_MAX_LEN := 32
  const P2P_IE_VENDOR_TYPE := 0x506f9a09
  const P2P_WILDCARD_SSID: seq<byte> := [68, 73, 82, 69, 67, 84, 45]

  // ---- reading the table ----

  function Ids(es: seq<Entry>): (r: set<nat>) {
    set e | e in es :: e.id
  }

  predicate Known(env: Env, ssid: seq<byte>) {
    ssid != [] && ssid in env.networks
  }

  predicate InUse(env: Env, e: Entry) {
    env.current == Some(e.id) || (e.bssid != 0 && (e.bssid == env.own || e.bssid == env.pending))
  }

  predicate Passes(cfg: Settings, bssid: Mac) {
    cfg.filter.None? || bssid in cfg.filter.value
  }

  predicate HasKey(e: Entry, bssid: Mac, ssid: seq<byte>) {
    e.bssid == bssid && e.ssid == ssid
  }

  /** `wpa_bss_included_in_scan`. */
  predicate Covered(info: Option<ScanInfo>, freq: int, ssid: seq<byte>) {
    info.None? ||
    ((info.value.freqs == [] || freq in info.value.freqs) &&
     (info.value.ssids == [] || [] in info.value.ssids || ssid in info.value.ssids))
  }

  /** The SSID a scan result is filed under, or `None` when the result is ignored. */
  function ResultSsid(res: ScanRes): (r: Option<seq<byte>>)
    ensures r.Some? ==> |r.value| <= SSID_MAX_LEN
  {
    match Elements.Find(res.ies, EID_SSID)
    case None => None
    case Some(ssid) =>
      if |ssid| > SSID_MAX_LEN then None
      else if Elements.FindVendor(res.ies, P2P_IE_VENDOR_TYPE).Some? && ssid == P2P_WILDCARD_SSID then None
      else match Elements.Find(res.ies, EID_MESH_ID)
        case Some(mesh) => if |mesh| <= SSID_MAX_LEN then Some(mesh) else Some(ssid)
        case None => Some(ssid)
  }

  /**
   A result is ignored exactly when it has no SSID element, the first one is too long, or it is the
   P2P wildcard of a result with a P2P element; otherwise it is filed under an SSID or a mesh ID of
   its elements.
   */
  lemma {:induction false} IgnoredIff(res: ScanRes)
    ensures ResultSsid(res).None? <==>
            (forall e :: e in Elements.Parse(res.ies) ==> e.id != EID_SSID) ||
            (exists e :: Elements.First(Elements.ById(EID_SSID), Elements.Parse(res.ies)) == Some(e) &&
              (|e.payload| > SSID_MAX_LEN ||
               (e.payload == P2P_WILDCARD_SSID &&
                exists v :: v in Elements.Parse(res.ies) && Elements.Matches(Elements.ByVendor(P2P_IE_VENDOR_TYPE), v))))
    ensures ResultSsid(res).Some? ==> exists e :: e in Elements.Parse(res.ies) && (e.id == EID_SSID || e.id == EID_MESH_ID) &&
                                                  e.payload == ResultSsid(res).value && |e.payload| <= SSID_MAX_LEN
  {
    Elements.FirstIff(Elements.ById(EID_SSID), Elements.Parse(res.ies));
    Elements.FirstIff(Elements.ById(EID_MESH_ID), Elements.Parse(res.ies));
    Elements.FirstIff(Elements.ByVendor(P2P_IE_VENDOR_TYPE), Elements.Parse(res.ies));
  }

  // ---- operations ----

  function DropEntries(es: seq<Entry>, gone: set<nat>): seq<Entry> {
    if es == [] then []
    else if es[0].id in gone then DropEntries(es[1..], gone)
    else [es[0]] + DropEntries(es[1..], gone)
  }

  lemma {:induction false} DropEntriesMembers(es: seq<Entry>, gone: set<nat>)
    ensures forall e :: e in DropEntries(es, gone) <==> e in es && e.id !in gone
  {
    if es != [] {
      DropEntriesMembers(es[1..], gone);
      assert forall e :: e in es <==> e == es[0] || e in es[1..];
    }
  }

  /** Where a kept entry comes from. */
  lemma {:induction false} KeptFrom(es: seq<Entry>, gone: set<nat>, i: nat) returns (a: nat)
    requires i < |DropEntries(es, gone)|
    ensures a < |es| && es[a] == DropEntries(es, gone)[i] && es[a].id !in gone
  {
    if es[0].id in gone {
      a := KeptFrom(es[1..], gone, i);
      a := a + 1;
    } else if i == 0 {
      a := 0;
    } else {
      a := KeptFrom(es[1..], gone, i - 1);
      a := a + 1;
    }
  }

  /** Kept entries keep their order. */
  lemma {:induction false} KeptPair(es: seq<Entry>, gone: set<nat>, i: nat, j: nat) returns (a: nat, b: nat)
    requires i < j < |DropEntries(es, gone)|
    ensures a < b < |es| && es[a] == DropEntries(es, gone)[i] && es[b] == DropEntries(es, gone)[j]
  {
    if es[0].id in gone {
      a, b := KeptPair(es[1..], gone, i, j);
      a, b := a + 1, b + 1;
    } else if i == 0 {
      a := 0;
      b := KeptFrom(es[1..], gone, j - 1);
      b := b + 1;
    } else {
      a, b := KeptPair(es[1..], gone, i - 1, j - 1);
      a, b := a + 1, b + 1;
    }
  }

  function DropIds(ids: seq<nat>, gone: set<nat>): seq<nat> {
    if ids == [] then []
    else if ids[0] in gone then DropIds(ids[1..], gone)
    else [ids[0]] + DropIds(ids[1..], gone)
  }

  lemma {:induction false} DropIdsMembers(ids: seq<nat>, gone: set<nat>)
    ensures forall x :: x in DropIds(ids, gone) <==> x in ids && x !in gone
  {
    if ids != [] {
      DropIdsMembers(ids[1..], gone);
      assert forall x :: x in ids <==> x == ids[0] || x in ids[1..];
    }
  }

  /** Removing entries: they leave the table and the index of the current round. */
  function Purge(t: Table, gone: set<nat>): Table {
    t.(entries := DropEntries(t.entries, gone), scanRes := DropIds(t.scanRes, gone))
  }

  /** Position of the first entry satisfying a test, or the number of entries. */
  function FirstKey(es: seq<Entry>, bssid: Mac, ssid: seq<byte>): (k: nat)
    ensures k <= |es|
    ensures forall i :: 0 <= i < k ==> !HasKey(es[i], bssid, ssid)
    ensures k < |es| ==> HasKey(es[k], bssid, ssid)
  {
    if es == [] || HasKey(es[0], bssid, ssid) then 0 else 1 + FirstKey(es[1..], bssid, ssid)
  }

  function FirstUnknown(env: Env, es: seq<Entry>): (k: nat)
    ensures k <= |es|
    ensures forall i :: 0 <= i < k ==> Known(env, es[i].ssid)
    ensures k < |es| ==> !Known(env, es[k].ssid)
  {
    if es == [] || !Known(env, es[0].ssid) then 0 else 1 + FirstUnknown(env, es[1..])
  }

  function FirstUnused(env: Env, es: seq<Entry>): (k: nat)
    ensures k <= |es|
    ensures forall i :: 0 <= i < k ==> InUse(env, es[i])
    ensures k < |es| ==> !InUse(env, es[k])
  {
    if es == [] || !InUse(env, es[0]) then 0 else 1 + FirstUnused(env, es[1..])
  }

  /** `wpa_bss_remove_oldest`: which entry makes room. */
  function Victim(t: Table): (r: Option<Entry>)
    ensures r.Some? ==> r.value in t.entries
  {
    var u := FirstUnknown(t.env, t.entries);
    var f := FirstUnused(t.env, t.entries);
    if u < |t.entries| then Some(t.entries[u])
    else if f < |t.entries| then Some(t.entries[f])
    else None
  }

  /** Making room for one more entry, or raising the limit when nothing may go. */
  function MakeRoom(t: Table): Table {
    if |t.entries| + 1 <= t.maxCount then t
    else match Victim(t)
      case Some(e) => Purge(t, {e.id})
      case None => t.(maxCount := |t.entries| + 1)
  }

  function NewEntry(t: Table, ssid: seq<byte>, res: ScanRes, fetch: Reltime): Entry {
    Entry(t.nextId, res.bssid, ssid, res.freq, UpdateTime(fetch, res.ageMs), t.updateIdx, 0, res.ies, res.beaconIes)
  }

  function Refreshed(t: Table, e: Entry, res: ScanRes, fetch: Reltime): Entry {
    e.(bssid := res.bssid, freq := res.freq, lastUpdate := UpdateTime(fetch, res.ageMs),
       updateIdx := t.updateIdx, missCount := 0, ies := res.ies, beaconIes := res.beaconIes)
  }

  /** `wpa_bss_add`. */
  function Enter(t: Table, ssid: seq<byte>, res: ScanRes, fetch: Reltime): Table {
    var r := MakeRoom(t.(nextId := t.nextId + 1));
    r.(entries := r.entries + [NewEntry(t, ssid, res, fetch)])
  }

  /** A new entry, recorded in the index of the round. */
  function Add(t: Table, ssid: seq<byte>, res: ScanRes, fetch: Reltime): Table {
    var r := Enter(t, ssid, res, fetch);
    r.(scanRes := r.scanRes + [t.nextId])
  }

  /** `wpa_bss_update` of the entry at `k`: rewritten and moved to the tail. */
  function Touch(t: Table, k: nat, res: ScanRes, fetch: Reltime): Table
    requires k < |t.entries|
  {
    t.(entries := Cut(t.entries, k) + [Refreshed(t, t.entries[k], res, fetch)])
  }

  /** A matched entry, recorded in the index of the round once. */
  function Refresh(t: Table, k: nat, res: ScanRes, fetch: Reltime): Table
    requires k < |t.entries|
  {
    var id := t.entries[k].id;
    Touch(t, k, res, fetch).(scanRes := if id in t.scanRes then t.scanRes else t.scanRes + [id])
  }

  predicate TooOld(cfg: Settings, res: ScanRes, fetch: Reltime, trigger: Reltime) {
    cfg.ignoreOld && Before(UpdateTime(fetch, res.ageMs), trigger)
  }

  /** Position of the entry a result matches: `wpa_bss_get`, which finds nothing outside the filter. */
  function Lookup(cfg: Settings, t: Table, bssid: Mac, ssid: seq<byte>): nat {
    if Passes(cfg, bssid) then FirstKey(t.entries, bssid, ssid) else |t.entries|
  }

  /** `wpa_bss_update_scan_res`. */
  function Result(cfg: Settings, t: Table, res: ScanRes, fetch: Reltime, trigger: Reltime): Table {
    if TooOld(cfg, res, fetch, trigger) then t
    else match ResultSsid(res)
      case None => t
      case Some(ssid) =>
        var k := Lookup(cfg, t, res.bssid, ssid);
        if k < |t.entries| then Refresh(t, k, res, fetch) else Add(t, ssid, res, fetch)
  }

  function Start(t: Table): Table {
    t.(updateIdx := t.updateIdx + 1, scanRes := [])
  }

  /** Entries that the end of a new-scan round looks at. */
  predicate Audited(env: Env, info: Option<ScanInfo>, e: Entry) {
    !InUse(env, e) && Covered(info, e.freq, e.ssid)
  }

  /** The entry after the end of new-scan round `round`. */
  function Counted(env: Env, round: nat, info: Option<ScanInfo>, e: Entry): (r: Entry)
    ensures r.id == e.id
  {
    if Audited(env, info, e) && e.updateIdx < round then e.(missCount := e.missCount + 1) else e
  }

  function CountAll(env: Env, round: nat, info: Option<ScanInfo>, es: seq<Entry>): (r: seq<Entry>)
    ensures |r| == |es| && forall i :: 0 <= i < |es| ==> r[i] == Counted(env, round, info, es[i])
  {
    if es == [] then [] else [Counted(env, round, info, es[0])] + CountAll(env, round, info, es[1..])
  }

  predicate Expires(cfg: Settings, env: Env, round: nat, info: Option<ScanInfo>, e: Entry) {
    Audited(env, info, e) && Counted(env, round, info, e).missCount >= cfg.expireCount
  }

  /** Ids, among `es`, removed at the end of a new-scan round. */
  function Expired(cfg: Settings, env: Env, round: nat, info: Option<ScanInfo>, es: seq<Entry>): set<nat> {
    set e | e in es && Expires(cfg, env, round, info, e) :: e.id
  }

  /** `wpa_bss_update_end`. */
  function End(cfg: Settings, t: Table, info: Option<ScanInfo>, newScan: bool): Table {
    if newScan
    then Purge(t.(entries := CountAll(t.env, t.updateIdx, info, t.entries)),
               Expired(cfg, t.env, t.updateIdx, info, t.entries))
    else t
  }

  function Unused(env: Env, es: seq<Entry>): set<nat> {
    set e | e in es && !InUse(env, e) :: e.id
  }

  /** `wpa_bss_flush`. */
  function Flush(t: Table): Table {
    Purge(t, Unused(t.env, t.entries))
  }

  predicate Stale(env: Env, limit: Reltime, e: Entry) {
    !InUse(env, e) && Before(e.lastUpdate, limit)
  }

  function StaleIds(env: Env, limit: Reltime, es: seq<Entry>): set<nat> {
    set e | e in es && Stale(env, limit, e) :: e.id
  }

  /** The documented flush: every unused entry last updated before `limit` goes. */
  function FlushOlder(t: Table, limit: Reltime): Table {
    Purge(t, StaleIds(t.env, limit, t.entries))
  }

  /** Where `wpa_bss_flush_by_age` leaves its loop: the first unused entry that is recent enough. */
  function FlushStop(env: Env, limit: Reltime, es: seq<Entry>): (k: nat)
    ensures k <= |es|
    ensures forall i :: 0 <= i < k ==> InUse(env, es[i]) || Stale(env, limit, es[i])
    ensures k < |es| ==> !InUse(env, es[k]) && !Stale(env, limit, es[k])
  {
    if es == [] || !(InUse(env, es[0]) || Stale(env, limit, es[0])) then 0
    else 1 + FlushStop(env, limit, es[1..])
  }

  /** `wpa_bss_flush_by_age`. */
  function FlushByAge(t: Table, limit: Reltime): Table {
    var seen := t.entries[..FlushStop(t.env, limit, t.entries)];
    Purge(t, StaleIds(t.env, limit, seen))
  }

  datatype Event =
    | Change(env: Env)
    | StartRound
    | ScanResult(res: ScanRes, fetch: Reltime, trigger: Reltime)
    | EndRound(info: Option<ScanInfo>, newScan: bool)
    | FlushAge(limit: Reltime)
    | FlushUnused

  function Step(cfg: Settings, t: Table, ev: Event): Table {
    match ev
    case Change(env) => t.(env := env)
    case StartRound => Start(t)
    case ScanResult(res, fetch, trigger) => Result(cfg, t, res, fetch, trigger)
    case EndRound(info, newScan) => End(cfg, t, info, newScan)
    case FlushAge(limit) => FlushByAge(t, limit)
    case FlushUnused => Flush(t)
  }

  function Empty(maxCount: nat, env: Env): Table {
    Table([], [], 0, 0, maxCount, env)
  }

  /** The table after a run. */
  function Run(cfg: Settings, t: Table, run: seq<Event>): Table {
    if run == [] then t else Step(cfg, Run(cfg, t, run[..|run| - 1]), run[|run| - 1])
  }

  // ---- what every operation keeps ----

  ghost predicate DistinctIds(es: seq<Entry>) {
    forall i, j :: 0 <= i < j < |es| ==> es[i].id != es[j].id
  }

  ghost predicate DistinctKeys(es: seq<Entry>) {
    forall i, j :: 0 <= i < j < |es| ==> !HasKey(es[i], es[j].bssid, es[j].ssid)
  }

  /** The index of the round holds, once each, exactly the live entries matched in this round. */
  ghost predicate IndexAgrees(t: Table) {
    (forall e :: e in t.entries ==> (e.id in t.scanRes <==> e.updateIdx == t.updateIdx)) &&
    (forall x :: x in t.scanRes ==> x in Ids(t.entries))
  }

  /** Ids name entries: distinct, handed out already, and recorded once in the round. */
  ghost predicate Identified(t: Table) {
    DistinctIds(t.entries) && (forall e :: e in t.entries ==> e.id < t.nextId) && Distinct(t.scanRes)
  }

  ghost predicate Inv(t: Table) {
    Identified(t) && (forall e :: e in t.entries ==> e.updateIdx <= t.updateIdx) &&
    IndexAgrees(t) &&
    |t.entries| <= t.maxCount
  }
}
