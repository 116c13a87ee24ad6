/**
 The table of access points as `wpa_supplicant/bss.c` stores it: entries are allocations
 reached from two lists, from the growable index of the current round and from the
 current association. A pointer is an address into the map of live allocations; freeing
 takes the address out of the map, and addresses are not handed out twice. Every method
 is proved against the table of ids in `BssTable.dfy`.
 */
module BssLinks {
  import opened Sequences
  import opened Reltimes
  import opened BssTable
  import opened BssInvariant

  type Ptr = nat

  // ---- how pointers stand for the table ----

  /** The recency list points, in order, at the entries of the table, and at nothing else that is live. */
  ghost predicate Recency(heap: map<Ptr, Entry>, list: seq<Ptr>, es: seq<Entry>) {
    |list| == |es| == |heap| &&
    forall i :: 0 <= i < |list| ==> list[i] in heap && heap[list[i]] == es[i]
  }

  /** The id list points at exactly the live entries, in increasing id order. */
  ghost predicate ById(heap: map<Ptr, Entry>, listId: seq<Ptr>) {
    |listId| == |heap| && (forall i :: 0 <= i < |listId| ==> listId[i] in heap) &&
    forall i, j :: 0 <= i < j < |listId| ==> heap[listId[i]].id < heap[listId[j]].id
  }

  /** The used slots of the round's index point at live entries, those the table names. */
  ghost predicate Index(heap: map<Ptr, Entry>, refs: seq<Ptr>, used: nat, ids: seq<nat>) {
    used <= |refs| && used == |ids| &&
    forall i :: 0 <= i < used ==> refs[i] in heap && heap[refs[i]].id == ids[i]
  }

  /** The current association is an entry's address, or the address of an entry that is gone. */
  ghost predicate Points(heap: map<Ptr, Entry>, current: Option<Ptr>, id: Option<nat>) {
    if current.None? then id.None?
    else if current.value in heap then id == Some(heap[current.value].id)
    else id.Some? && forall p :: p in heap ==> heap[p].id != id.value
  }

  lemma {:induction false} RecencyDistinct(heap: map<Ptr, Entry>, list: seq<Ptr>, es: seq<Entry>)
    requires Recency(heap, list, es) && DistinctIds(es)
    ensures Distinct(list)
  {
    forall i, j | 0 <= i < j < |list| ensures list[i] != list[j] {
      assert es[i].id != es[j].id;
    }
  }

  /** Every live entry is on the recency list, at one place. */
  lemma {:induction false} Placed(heap: map<Ptr, Entry>, list: seq<Ptr>, es: seq<Entry>, p: Ptr) returns (k: nat)
    requires Recency(heap, list, es) && DistinctIds(es) && p in heap
    ensures k < |list| && list[k] == p && es[k] == heap[p]
  {
    RecencyDistinct(heap, list, es);
    assert |heap.Keys| == |heap|;
    Covers(list, heap.Keys);
    assert p in heap.Keys;
    k :| 0 <= k < |list| && list[k] == p;
  }

  lemma {:induction false} PtrIsUnique(heap: map<Ptr, Entry>, list: seq<Ptr>, es: seq<Entry>, p: Ptr, q: Ptr)
    requires Recency(heap, list, es) && DistinctIds(es) && p in heap && q in heap && heap[p].id == heap[q].id
    ensures p == q
  {
    var i := Placed(heap, list, es, p);
    var j := Placed(heap, list, es, q);
    assert i == j;
  }

  lemma {:induction false} ByIdDistinct(heap: map<Ptr, Entry>, listId: seq<Ptr>)
    requires ById(heap, listId)
    ensures Distinct(listId) && forall p :: p in heap ==> p in listId
  {
    forall i, j | 0 <= i < j < |listId| ensures listId[i] != listId[j] {
      assert heap[listId[i]].id < heap[listId[j]].id;
    }
    assert |heap.Keys| == |heap|;
    Covers(listId, heap.Keys);
  }

  lemma {:induction false} ForgetSize(heap: map<Ptr, Entry>, p: Ptr)
    requires p in heap
    ensures |heap - {p}| == |heap| - 1
  {
    assert (heap - {p}).Keys == heap.Keys - {p};
    assert |heap.Keys| == |heap| && |(heap - {p}).Keys| == |heap - {p}|;
  }

  lemma {:induction false} GrowSize(heap: map<Ptr, Entry>, p: Ptr, e: Entry)
    ensures |heap[p := e]| == if p in heap then |heap| else |heap| + 1
  {
    assert heap[p := e].Keys == heap.Keys + {p};
    assert |heap.Keys| == |heap| && |heap[p := e].Keys| == |heap[p := e]|;
  }

  // ---- removing an entry ----

  lemma {:induction false} DropNothing(es: seq<Entry>, gone: set<nat>)
    requires forall e :: e in es ==> e.id !in gone
    ensures DropEntries(es, gone) == es
  {
    if es != [] {
      DropNothing(es[1..], gone);
    }
  }

  lemma {:induction false} DropOneEntry(es: seq<Entry>, k: nat)
    requires DistinctIds(es) && k < |es|
    ensures DropEntries(es, {es[k].id}) == Cut(es, k)
  {
    var rest := es[1..];
    if k == 0 {
      DropNothing(rest, {es[0].id});
    } else {
      assert DistinctIds(rest) && rest[k - 1] == es[k] && es[0].id != es[k].id;
      assert DropEntries(rest, {es[k].id}) == Cut(rest, k - 1) by { DropOneEntry(rest, k - 1); }
      CutRest(es, k);
    }
  }

  lemma {:induction false} DropNoId(ids: seq<nat>, gone: set<nat>)
    requires forall x :: x in ids ==> x !in gone
    ensures DropIds(ids, gone) == ids
  {
    if ids != [] {
      DropNoId(ids[1..], gone);
    }
  }

  lemma {:induction false} DropOneId(ids: seq<nat>, k: nat)
    requires Distinct(ids) && k < |ids|
    ensures DropIds(ids, {ids[k]}) == Cut(ids, k)
  {
    var rest := ids[1..];
    if k == 0 {
      DropNoId(rest, {ids[0]});
    } else {
      assert Distinct(rest) && rest[k - 1] == ids[k] && ids[0] != ids[k];
      assert DropIds(rest, {ids[k]}) == Cut(rest, k - 1) by { DropOneId(rest, k - 1); }
      CutRest(ids, k);
    }
  }

  lemma {:induction false} RecencyRemove(heap: map<Ptr, Entry>, list: seq<Ptr>, es: seq<Entry>, k: nat)
    requires Recency(heap, list, es) && DistinctIds(es) && k < |list|
    ensures Recency(heap - {list[k]}, Cut(list, k), DropEntries(es, {es[k].id}))
    ensures DistinctIds(DropEntries(es, {es[k].id}))
  {
    RecencyDistinct(heap, list, es);
    DropOneEntry(es, k);
    CutMembers(list, k);
    OthersAt(es, k);
    ForgetSize(heap, list[k]);
    assert forall i :: 0 <= i < |Cut(list, k)| ==> Cut(list, k)[i] in Cut(list, k);
  }

  lemma {:induction false} ByIdRemove(heap: map<Ptr, Entry>, listId: seq<Ptr>, m: nat)
    requires ById(heap, listId) && m < |listId|
    ensures ById(heap - {listId[m]}, Cut(listId, m))
  {
    ForgetSize(heap, listId[m]);
    var r := Cut(listId, m);
    forall i | 0 <= i < |r| ensures r[i] in heap - {listId[m]} {
      var x := if i < m then i else i + 1;
      assert r[i] == listId[x];
      assert heap[listId[x]].id != heap[listId[m]].id;
    }
  }

  lemma {:induction false} PointsRemove(heap: map<Ptr, Entry>, list: seq<Ptr>, es: seq<Entry>, current: Option<Ptr>, id: Option<nat>, p: Ptr)
    requires Recency(heap, list, es) && DistinctIds(es) && p in heap && Points(heap, current, id)
    ensures Points(heap - {p}, current, id)
  {
    if current == Some(p) {
      forall q | q in heap - {p} ensures heap[q].id != heap[p].id {
        if heap[q].id == heap[p].id { PtrIsUnique(heap, list, es, p, q); }
      }
    }
  }

  /** `os_memmove` over the index of the round. */
  method Compact(refs: seq<Ptr>, used: nat, p: Ptr) returns (r: seq<Ptr>, count: nat)
    requires used <= |refs| && Distinct(refs[..used])
    ensures |r| == |refs| && count <= |r|
    ensures r[..count] == if p in refs[..used] then Cut(refs[..used], IndexOf(refs[..used], p)) else refs[..used]
  {
    var i := 0;
    while i < used && refs[i] != p
      invariant 0 <= i <= used
      invariant p !in refs[..i]
    {
      i := i + 1;
    }
    r, count := refs, used;
    if i < used {
      assert refs[..used][i] == p;
      assert i == IndexOf(refs[..used], p);
      r := refs[..i] + refs[i + 1..used] + refs[used - 1..];
      count := used - 1;
      assert r[..count] == refs[..i] + refs[i + 1..used];
    }
  }

  lemma {:induction false} IndexRemove(heap: map<Ptr, Entry>, list: seq<Ptr>, es: seq<Entry>, refs: seq<Ptr>, used: nat, ids: seq<nat>, p: Ptr, r: seq<Ptr>, count: nat)
    requires Recency(heap, list, es) && DistinctIds(es) && p in heap
    requires Index(heap, refs, used, ids) && Distinct(ids) && count <= |r|
    requires r[..count] == if p in refs[..used] then Cut(refs[..used], IndexOf(refs[..used], p)) else refs[..used]
    ensures Index(heap - {p}, r, count, DropIds(ids, {heap[p].id}))
  {
    var live := refs[..used];
    if p in live {
      var i := IndexOf(live, p);
      assert ids[i] == heap[p].id;
      DropOneId(ids, i);
      forall j | 0 <= j < count ensures r[j] in heap - {p} && heap[r[j]].id == Cut(ids, i)[j] {
        var m := if j < i then j else j + 1;
        assert r[..count][j] == live[m] == refs[m] && ids[m] != ids[i];
      }
    } else {
      assert count == |r[..count]| == used;
      forall j | 0 <= j < count ensures r[j] == refs[j] && r[j] in heap - {p} && ids[j] != heap[p].id {
        assert r[..count][j] == live[j] == refs[j];
        if ids[j] == heap[p].id { PtrIsUnique(heap, list, es, refs[j], p); }
      }
      DropNoId(ids, {heap[p].id});
    }
  }

  // ---- rewriting an entry, possibly at a new address ----

  /** The entry at `p` is rewritten as `n` and lives at `q` from now on. */
  ghost function Moved(heap: map<Ptr, Entry>, p: Ptr, q: Ptr, n: Entry): map<Ptr, Entry> {
    (heap - {p})[q := n]
  }

  lemma {:induction false} RecencyMove(heap: map<Ptr, Entry>, list: seq<Ptr>, es: seq<Entry>, k: nat, q: Ptr, n: Entry)
    requires Recency(heap, list, es) && DistinctIds(es) && k < |list| && (q == list[k] || q !in heap)
    ensures Recency(Moved(heap, list[k], q, n), Cut(list, k) + [q], Cut(es, k) + [n])
  {
    RecencyDistinct(heap, list, es);
    CutMembers(list, k);
    var h := Moved(heap, list[k], q, n);
    var l := Cut(list, k) + [q];
    ForgetSize(heap, list[k]);
    GrowSize(heap - {list[k]}, q, n);
    forall i | 0 <= i < |l| ensures l[i] in h && h[l[i]] == (Cut(es, k) + [n])[i] {
      if i < |l| - 1 { assert l[i] in Cut(list, k); }
    }
  }

  lemma {:induction false} ByIdMove(heap: map<Ptr, Entry>, listId: seq<Ptr>, m: nat, q: Ptr, n: Entry)
    requires ById(heap, listId) && m < |listId| && (q == listId[m] || q !in heap) && n.id == heap[listId[m]].id
    ensures ById(Moved(heap, listId[m], q, n), listId[m := q])
  {
    var h, l := Moved(heap, listId[m], q, n), listId[m := q];
    ByIdDistinct(heap, listId);
    ForgetSize(heap, listId[m]);
    GrowSize(heap - {listId[m]}, q, n);
    forall i | 0 <= i < |l| ensures l[i] in h && h[l[i]].id == heap[listId[i]].id {
    }
  }

  /** Replacing the pointer in the index of the round. */
  method Repoint(refs: seq<Ptr>, used: nat, p: Ptr, q: Ptr) returns (r: seq<Ptr>)
    requires used <= |refs| && Distinct(refs[..used])
    ensures |r| == |refs| && forall i :: 0 <= i < used ==> r[i] == if refs[i] == p then q else refs[i]
  {
    r := refs;
    var i := 0;
    while i < used
      invariant 0 <= i <= used && r == refs
      invariant forall j :: 0 <= j < i ==> refs[j] != p
    {
      if refs[i] == p {
        r := refs[i := q];
        assert forall j :: i < j < used ==> refs[..used][j] != refs[..used][i];
        return;
      }
      i := i + 1;
    }
  }

  lemma {:induction false} IndexMove(heap: map<Ptr, Entry>, refs: seq<Ptr>, used: nat, ids: seq<nat>, p: Ptr, q: Ptr, n: Entry, r: seq<Ptr>)
    requires Index(heap, refs, used, ids) && p in heap && (q == p || q !in heap) && n.id == heap[p].id
    requires |r| == |refs| && forall i :: 0 <= i < used ==> r[i] == if refs[i] == p then q else refs[i]
    ensures Index(Moved(heap, p, q, n), r, used, ids)
  {
  }

  lemma {:induction false} PointsMove(heap: map<Ptr, Entry>, current: Option<Ptr>, id: Option<nat>, p: Ptr, q: Ptr, n: Entry)
    requires Points(heap, current, id) && p in heap && (q == p || q !in heap) && n.id == heap[p].id
    requires current.Some? && current.value !in heap ==> current.value != q
    ensures Points(Moved(heap, p, q, n), if current == Some(p) then Some(q) else current, id)
  {
  }

  // ---- a new entry ----

  lemma {:induction false} RecencyEnter(heap: map<Ptr, Entry>, list: seq<Ptr>, es: seq<Entry>, q: Ptr, n: Entry)
    requires Recency(heap, list, es) && q !in heap
    ensures Recency(heap[q := n], list + [q], es + [n])
  {
    GrowSize(heap, q, n);
  }

  lemma {:induction false} ByIdEnter(heap: map<Ptr, Entry>, listId: seq<Ptr>, q: Ptr, n: Entry)
    requires ById(heap, listId) && q !in heap && forall p :: p in heap ==> heap[p].id < n.id
    ensures ById(heap[q := n], listId + [q])
  {
    var l := listId + [q];
    GrowSize(heap, q, n);
    assert forall i :: 0 <= i < |listId| ==> l[i] == listId[i] && l[i] in heap;
  }

  // ---- counting a missed round ----

  lemma {:induction false} RecencySet(heap: map<Ptr, Entry>, list: seq<Ptr>, es: seq<Entry>, k: nat, n: Entry)
    requires Recency(heap, list, es) && DistinctIds(es) && k < |list|
    ensures Recency(heap[list[k] := n], list, es[k := n])
  {
    RecencyDistinct(heap, list, es);
    GrowSize(heap, list[k], n);
  }

  lemma {:induction false} DropEntriesTwice(es: seq<Entry>, a: set<nat>, b: set<nat>)
    ensures DropEntries(DropEntries(es, a), b) == DropEntries(es, a + b)
  {
    if es != [] {
      DropEntriesTwice(es[1..], a, b);
      var r := DropEntries(es[1..], a);
      if es[0].id !in a {
        assert DropEntries(es, a) == [es[0]] + r;
        assert ([es[0]] + r)[0] == es[0] && ([es[0]] + r)[1..] == r;
      }
    }
  }

  lemma {:induction false} DropIdsTwice(ids: seq<nat>, a: set<nat>, b: set<nat>)
    ensures DropIds(DropIds(ids, a), b) == DropIds(ids, a + b)
  {
    if ids != [] {
      DropIdsTwice(ids[1..], a, b);
      var r := DropIds(ids[1..], a);
      if ids[0] !in a {
        assert DropIds(ids, a) == [ids[0]] + r;
        assert ([ids[0]] + r)[0] == ids[0] && ([ids[0]] + r)[1..] == r;
      }
    }
  }

  /** Removals add up. */
  lemma {:induction false} PurgeTwice(t: Table, a: set<nat>, b: set<nat>)
    ensures Purge(Purge(t, a), b) == Purge(t, a + b)
  {
    DropEntriesTwice(t.entries, a, b);
    DropIdsTwice(t.scanRes, a, b);
  }

  // ---- sweeps: loops that walk the recency list and may remove the entry they are at ----

  lemma {:induction false} PurgeNothing(t: Table)
    ensures Purge(t, {}) == t
  {
    DropNothing(t.entries, {});
    DropNoId(t.scanRes, {});
  }

  lemma {:induction false} PurgeAt(t: Table, k: nat)
    requires DistinctIds(t.entries) && k < |t.entries|
    ensures Purge(t, {t.entries[k].id}).entries == Cut(t.entries, k)
    ensures Cut(t.entries, k)[k..] == t.entries[k + 1..] && DistinctIds(Cut(t.entries, k))
  {
    DropOneEntry(t.entries, k);
    OthersAt(t.entries, k);
  }

  /** The rest of the loop of `wpa_bss_flush`, at position `pos`. */
  ghost function FlushFrom(t: Table, pos: nat): Table
    requires DistinctIds(t.entries) && pos <= |t.entries|
    decreases |t.entries| - pos
  {
    if pos == |t.entries| then t
    else if InUse(t.env, t.entries[pos]) then FlushFrom(t, pos + 1)
    else PurgeAt(t, pos); FlushFrom(Purge(t, {t.entries[pos].id}), pos)
  }

  lemma {:induction false} FlushFromIs(t: Table, pos: nat)
    requires DistinctIds(t.entries) && pos <= |t.entries|
    ensures FlushFrom(t, pos) == Purge(t, Unused(t.env, t.entries[pos..]))
    decreases |t.entries| - pos
  {
    if pos == |t.entries| {
      PurgeNothing(t);
      assert Unused(t.env, t.entries[pos..]) == {};
    } else {
      var e, rest := t.entries[pos], t.entries[pos + 1..];
      assert t.entries[pos..] == [e] + rest;
      if InUse(t.env, e) {
        FlushFromIs(t, pos + 1);
        assert Unused(t.env, [e] + rest) == Unused(t.env, rest);
      } else {
        PurgeAt(t, pos);
        FlushFromIs(Purge(t, {e.id}), pos);
        PurgeTwice(t, {e.id}, Unused(t.env, rest));
        assert Unused(t.env, [e] + rest) == {e.id} + Unused(t.env, rest);
      }
    }
  }

  /** The rest of the loop of `wpa_bss_flush_by_age`. */
  ghost function FlushAgeFrom(t: Table, limit: Reltime, pos: nat): Table
    requires DistinctIds(t.entries) && pos <= |t.entries|
    decreases |t.entries| - pos
  {
    if pos == |t.entries| then t
    else if InUse(t.env, t.entries[pos]) then FlushAgeFrom(t, limit, pos + 1)
    else if Before(t.entries[pos].lastUpdate, limit)
    then PurgeAt(t, pos); FlushAgeFrom(Purge(t, {t.entries[pos].id}), limit, pos)
    else t
  }

  /** The ids that the flush of a list removes. */
  ghost function Flushed(env: Env, limit: Reltime, es: seq<Entry>): set<nat> {
    StaleIds(env, limit, es[..FlushStop(env, limit, es)])
  }

  lemma {:induction false} FlushedFirst(env: Env, limit: Reltime, e: Entry, rest: seq<Entry>)
    ensures Flushed(env, limit, [e] + rest) ==
            if InUse(env, e) then Flushed(env, limit, rest)
            else if Stale(env, limit, e) then {e.id} + Flushed(env, limit, rest)
            else {}
  {
    var es, seen := [e] + rest, rest[..FlushStop(env, limit, rest)];
    assert es[1..] == rest;
    if InUse(env, e) || Stale(env, limit, e) {
      assert es[..FlushStop(env, limit, es)] == [e] + seen;
      assert forall x :: x in [e] + seen <==> x == e || x in seen;
    } else {
      assert es[..FlushStop(env, limit, es)] == [];
    }
  }

  lemma {:induction false} FlushAgeFromIs(t: Table, limit: Reltime, pos: nat)
    requires DistinctIds(t.entries) && pos <= |t.entries|
    ensures FlushAgeFrom(t, limit, pos) == Purge(t, Flushed(t.env, limit, t.entries[pos..]))
    decreases |t.entries| - pos
  {
    if pos == |t.entries| {
      PurgeNothing(t);
      assert Flushed(t.env, limit, t.entries[pos..]) == {};
    } else {
      var e, rest := t.entries[pos], t.entries[pos + 1..];
      assert t.entries[pos..] == [e] + rest;
      FlushedFirst(t.env, limit, e, rest);
      if InUse(t.env, e) {
        FlushAgeFromIs(t, limit, pos + 1);
      } else if Stale(t.env, limit, e) {
        FlushAgeStale(t, limit, pos);
      } else {
        PurgeNothing(t);
      }
    }
  }

  lemma {:induction false} FlushAgeStale(t: Table, limit: Reltime, pos: nat)
    requires DistinctIds(t.entries) && pos < |t.entries| && Stale(t.env, limit, t.entries[pos]) && !InUse(t.env, t.entries[pos])
    ensures FlushAgeFrom(t, limit, pos) ==
            Purge(t, {t.entries[pos].id} + Flushed(t.env, limit, t.entries[pos + 1..]))
    decreases |t.entries| - pos, 0
  {
    var id := t.entries[pos].id;
    PurgeAt(t, pos);
    FlushAgeFromIs(Purge(t, {id}), limit, pos);
    PurgeTwice(t, {id}, Flushed(t.env, limit, t.entries[pos + 1..]));
  }

  /** The rest of the loop of `wpa_bss_update_end`. */
  ghost function EndFrom(cfg: Settings, t: Table, info: Option<ScanInfo>, pos: nat): Table
    requires DistinctIds(t.entries) && pos <= |t.entries|
    decreases |t.entries| - pos
  {
    if pos == |t.entries| then t
    else
      var e := t.entries[pos];
      var c := t.(entries := t.entries[pos := Counted(t.env, t.updateIdx, info, e)]);
      if Expires(cfg, t.env, t.updateIdx, info, e) then PurgeAt(c, pos); EndFrom(cfg, Purge(c, {e.id}), info, pos)
      else EndFrom(cfg, c, info, pos + 1)
  }

  /** Counting and expiring the entries from `pos` on, all at once. */
  ghost function EndRest(cfg: Settings, t: Table, info: Option<ScanInfo>, pos: nat): Table
    requires pos <= |t.entries|
  {
    Purge(t.(entries := t.entries[..pos] + CountAll(t.env, t.updateIdx, info, t.entries[pos..])),
          Expired(cfg, t.env, t.updateIdx, info, t.entries[pos..]))
  }

  lemma {:induction false} ExpiredFirst(cfg: Settings, env: Env, round: nat, info: Option<ScanInfo>, e: Entry, rest: seq<Entry>)
    ensures Expired(cfg, env, round, info, [e] + rest) ==
            if Expires(cfg, env, round, info, e) then {e.id} + Expired(cfg, env, round, info, rest)
            else Expired(cfg, env, round, info, rest)
  {
    assert forall x :: x in [e] + rest <==> x == e || x in rest;
  }

  lemma {:induction false} CountStep(env: Env, round: nat, info: Option<ScanInfo>, es: seq<Entry>, pos: nat)
    requires pos < |es|
    ensures es[pos := Counted(env, round, info, es[pos])][..pos + 1] + CountAll(env, round, info, es[pos + 1..]) ==
            es[..pos] + CountAll(env, round, info, es[pos..])
  {
    var n := Counted(env, round, info, es[pos]);
    TailOfTail(es, pos);
    assert es[pos := n][..pos + 1] == es[..pos] + [n];
    Assoc(es[..pos], [n], CountAll(env, round, info, es[pos + 1..]));
  }

  lemma {:induction false} EndRestKeep(cfg: Settings, t: Table, info: Option<ScanInfo>, pos: nat, c: Table)
    requires pos < |t.entries| && !Expires(cfg, t.env, t.updateIdx, info, t.entries[pos])
    requires c == t.(entries := t.entries[pos := Counted(t.env, t.updateIdx, info, t.entries[pos])])
    ensures EndRest(cfg, c, info, pos + 1) == EndRest(cfg, t, info, pos)
  {
    var e, rest := t.entries[pos], t.entries[pos + 1..];
    assert t.entries[pos..] == [e] + rest && c.entries[pos + 1..] == rest;
    ExpiredFirst(cfg, t.env, t.updateIdx, info, e, rest);
    CountStep(t.env, t.updateIdx, info, t.entries, pos);
  }

  lemma {:induction false} CutCounted(es: seq<Entry>, env: Env, round: nat, info: Option<ScanInfo>, pos: nat)
    requires DistinctIds(es) && pos < |es|
    ensures var whole := es[..pos] + CountAll(env, round, info, es[pos..]);
            DistinctIds(whole) && whole[pos].id == es[pos].id &&
            Cut(whole, pos) == es[..pos] + CountAll(env, round, info, es[pos + 1..])
  {
    var whole := es[..pos] + CountAll(env, round, info, es[pos..]);
    assert forall i :: 0 <= i < |whole| ==> whole[i].id == es[i].id;
    assert es[pos..][1..] == es[pos + 1..];
  }

  lemma {:induction false} EndRestDrop(cfg: Settings, t: Table, info: Option<ScanInfo>, pos: nat, d: Table)
    requires DistinctIds(t.entries) && pos < |t.entries| && Expires(cfg, t.env, t.updateIdx, info, t.entries[pos])
    requires d == t.(entries := Cut(t.entries, pos), scanRes := DropIds(t.scanRes, {t.entries[pos].id}))
    ensures EndRest(cfg, d, info, pos) == EndRest(cfg, t, info, pos)
  {
    var e, rest := t.entries[pos], t.entries[pos + 1..];
    var gone := Expired(cfg, t.env, t.updateIdx, info, rest);
    assert t.entries[pos..] == [e] + rest;
    assert d.entries[..pos] == t.entries[..pos] && d.entries[pos..] == rest;
    ExpiredFirst(cfg, t.env, t.updateIdx, info, e, rest);
    CutCounted(t.entries, t.env, t.updateIdx, info, pos);
    var whole := t.(entries := t.entries[..pos] + CountAll(t.env, t.updateIdx, info, t.entries[pos..]));
    DropOneEntry(whole.entries, pos);
    PurgeTwice(whole, {e.id}, gone);
  }

  lemma {:induction false} EndRestNothing(cfg: Settings, t: Table, info: Option<ScanInfo>)
    ensures EndRest(cfg, t, info, |t.entries|) == t
  {
    PurgeNothing(t);
    var rest := t.entries[|t.entries|..];
    assert Expired(cfg, t.env, t.updateIdx, info, rest) == {};
    assert t.entries[..|t.entries|] + CountAll(t.env, t.updateIdx, info, rest) == t.entries;
  }

  lemma {:induction false} DropCounted(t: Table, pos: nat, n: Entry)
    requires DistinctIds(t.entries) && pos < |t.entries| && n.id == t.entries[pos].id
    ensures Purge(t.(entries := t.entries[pos := n]), {n.id}) ==
            t.(entries := Cut(t.entries, pos), scanRes := DropIds(t.scanRes, {n.id}))
    ensures DistinctIds(Cut(t.entries, pos))
  {
    var es := t.entries[pos := n];
    DropOneEntry(es, pos);
    OthersAt(t.entries, pos);
    assert Cut(es, pos) == Cut(t.entries, pos);
  }

  lemma {:induction false} EndFromIs(cfg: Settings, t: Table, info: Option<ScanInfo>, pos: nat)
    requires DistinctIds(t.entries) && pos <= |t.entries|
    ensures EndFrom(cfg, t, info, pos) == EndRest(cfg, t, info, pos)
    decreases |t.entries| - pos
  {
    if pos == |t.entries| {
      EndRestNothing(cfg, t, info);
    } else {
      var n := Counted(t.env, t.updateIdx, info, t.entries[pos]);
      var c := t.(entries := t.entries[pos := n]);
      var d := Purge(c, {n.id});
      assert DistinctIds(c.entries);
      if Expires(cfg, t.env, t.updateIdx, info, t.entries[pos]) {
        assert EndFrom(cfg, t, info, pos) == EndFrom(cfg, d, info, pos) && DistinctIds(d.entries) && |d.entries| == |t.entries| - 1 by {
          PurgeAt(c, pos);
        }
        assert EndFrom(cfg, d, info, pos) == EndRest(cfg, d, info, pos) by {
          EndFromIs(cfg, d, info, pos);
        }
        assert EndRest(cfg, d, info, pos) == EndRest(cfg, t, info, pos) by {
          DropCounted(t, pos, n);
          EndRestDrop(cfg, t, info, pos, d);
        }
      } else {
        assert EndFrom(cfg, c, info, pos + 1) == EndRest(cfg, c, info, pos + 1) by {
          EndFromIs(cfg, c, info, pos + 1);
        }
        EndRestKeep(cfg, t, info, pos, c);
      }
    }
  }

  /** The loop of `wpa_bss_update_end`, one entry at a time, is counting everything, then expiring. */
  lemma {:induction false} EndSweeps(cfg: Settings, t: Table, info: Option<ScanInfo>)
    requires DistinctIds(t.entries)
    ensures EndFrom(cfg, t, info, 0) == End(cfg, t, info, true)
  {
    EndFromIs(cfg, t, info, 0);
    assert t.entries[0..] == t.entries;
    assert t.entries[..0] + CountAll(t.env, t.updateIdx, info, t.entries) == CountAll(t.env, t.updateIdx, info, t.entries);
  }

  // ---- all the links together ----

  /** Everything in `struct wpa_supplicant` that holds or counts addresses of entries. */
  datatype Links = Links(
    heap: map<Ptr, Entry>,   // live allocations
    nextPtr: Ptr,            // addresses from here on were never handed out
    list: seq<Ptr>,          // wpa_s->bss: recency order
    listId: seq<Ptr>,        // wpa_s->bss_id: id order
    refs: seq<Ptr>,          // wpa_s->last_scan_res, every allocated slot
    used: nat,               // wpa_s->last_scan_res_used
    current: Option<Ptr>)    // wpa_s->current_bss

  ghost predicate Allocated(l: Links, t: Table) {
    (forall p :: p in l.heap ==> p < l.nextPtr) &&
    (l.current.Some? ==> l.current.value < l.nextPtr) &&
    (t.env.current.Some? ==> t.env.current.value < t.nextId)
  }

  ghost predicate Good(l: Links, t: Table) {
    Recency(l.heap, l.list, t.entries) && ById(l.heap, l.listId) &&
    Index(l.heap, l.refs, l.used, t.scanRes) && Points(l.heap, l.current, t.env.current) &&
    Allocated(l, t) && Identified(t)
  }

  lemma {:induction false} RefsDistinct(l: Links, t: Table)
    requires Good(l, t)
    ensures Distinct(l.refs[..l.used])
  {
    forall i, j | 0 <= i < j < l.used ensures l.refs[..l.used][i] != l.refs[..l.used][j] {
      assert t.scanRes[i] != t.scanRes[j];
    }
  }

  lemma {:induction false} InListId(l: Links, t: Table, p: Ptr)
    requires Good(l, t) && p in l.heap
    ensures p in l.listId
  {
    ByIdDistinct(l.heap, l.listId);
  }

  lemma {:induction false} RemoveGood(l: Links, t: Table, k: nat, m: nat, r: seq<Ptr>, count: nat)
    requires Good(l, t) && k < |l.list| && m < |l.listId| && l.listId[m] == l.list[k] && count <= |r|
    requires r[..count] == if l.list[k] in l.refs[..l.used]
                           then Cut(l.refs[..l.used], IndexOf(l.refs[..l.used], l.list[k])) else l.refs[..l.used]
    ensures Good(Links(l.heap - {l.list[k]}, l.nextPtr, Cut(l.list, k), Cut(l.listId, m), r, count, l.current),
                 Purge(t, {t.entries[k].id}))
    ensures Purge(t, {t.entries[k].id}).entries == Cut(t.entries, k)
  {
    DropOneEntry(t.entries, k);
    RecencyRemove(l.heap, l.list, t.entries, k);
    ByIdRemove(l.heap, l.listId, m);
    IndexRemove(l.heap, l.list, t.entries, l.refs, l.used, t.scanRes, l.list[k], r, count);
    PointsRemove(l.heap, l.list, t.entries, l.current, t.env.current, l.list[k]);
    PurgeIdentified(t, {t.entries[k].id});
  }

  lemma {:induction false} MoveGood(l: Links, t: Table, k: nat, m: nat, q: Ptr, nextPtr: Ptr, r: seq<Ptr>, n: Entry)
    requires Good(l, t) && k < |l.list| && m < |l.listId| && l.listId[m] == l.list[k] && n.id == t.entries[k].id
    requires (q == l.list[k] && nextPtr == l.nextPtr) || (q == l.nextPtr && nextPtr == q + 1)
    requires |r| == |l.refs| && forall i :: 0 <= i < l.used ==> r[i] == if l.refs[i] == l.list[k] then q else l.refs[i]
    ensures Good(Links((l.heap - {l.list[k]})[q := n], nextPtr, Cut(l.list, k) + [q], l.listId[m := q], r, l.used,
                       if l.current == Some(l.list[k]) then Some(q) else l.current),
                 t.(entries := Cut(t.entries, k) + [n]))
  {
    RecencyMove(l.heap, l.list, t.entries, k, q, n);
    ByIdMove(l.heap, l.listId, m, q, n);
    IndexMove(l.heap, l.refs, l.used, t.scanRes, l.list[k], q, n, r);
    PointsMove(l.heap, l.current, t.env.current, l.list[k], q, n);
    TailIdentified(t, k, n);
  }

  lemma {:induction false} TailIdentified(t: Table, k: nat, n: Entry)
    requires Identified(t) && k < |t.entries| && n.id == t.entries[k].id
    ensures Identified(t.(entries := Cut(t.entries, k) + [n]))
  {
    OthersAt(t.entries, k);
    var es := Cut(t.entries, k) + [n];
    forall i, j | 0 <= i < j < |es| ensures es[i].id != es[j].id {
      assert es[i] in Cut(t.entries, k);
    }
    assert forall e :: e in es ==> e in Cut(t.entries, k) || e == n;
  }

  lemma {:induction false} EnterGood(l: Links, t: Table, n: Entry)
    requires Good(l, t) && t.nextId > 0 && n.id == t.nextId - 1
    requires forall e :: e in t.entries ==> e.id < n.id
    requires t.env.current != Some(n.id)
    ensures Good(l.(heap := l.heap[l.nextPtr := n], nextPtr := l.nextPtr + 1, list := l.list + [l.nextPtr],
                    listId := l.listId + [l.nextPtr]),
                 t.(entries := t.entries + [n]))
    ensures n.id !in t.scanRes
  {
    forall p | p in l.heap ensures l.heap[p].id < n.id {
      var k := Placed(l.heap, l.list, t.entries, p);
      assert t.entries[k] in t.entries;
    }
    assert forall i :: 0 <= i < |t.scanRes| ==> t.scanRes[i] == l.heap[l.refs[i]].id;
    RecencyEnter(l.heap, l.list, t.entries, l.nextPtr, n);
    ByIdEnter(l.heap, l.listId, l.nextPtr, n);
    var es := t.entries + [n];
    forall i, j | 0 <= i < j < |es| ensures es[i].id != es[j].id {
      assert es[i] in t.entries;
    }
  }

  /** Recording an entry in the index of the round. */
  lemma {:induction false} RecordGood(l: Links, t: Table, p: Ptr, r: seq<Ptr>)
    requires Good(l, t) && p in l.heap && l.heap[p].id !in t.scanRes
    requires |r| > l.used && r[l.used] == p && forall i :: 0 <= i < l.used ==> r[i] == l.refs[i]
    ensures Good(l.(refs := r, used := l.used + 1), t.(scanRes := t.scanRes + [l.heap[p].id]))
  {
  }

  /** An entry is in the index of the round exactly when its address is among the used slots. */
  lemma {:induction false} RecordedIff(l: Links, t: Table, p: Ptr)
    requires Good(l, t) && p in l.heap
    ensures l.heap[p].id in t.scanRes <==> p in l.refs[..l.used]
  {
    if l.heap[p].id in t.scanRes {
      var i :| 0 <= i < |t.scanRes| && t.scanRes[i] == l.heap[p].id;
      PtrIsUnique(l.heap, l.list, t.entries, l.refs[i], p);
      assert l.refs[..l.used][i] == p;
    }
    if p in l.refs[..l.used] {
      var i :| 0 <= i < l.used && l.refs[i] == p;
      assert t.scanRes[i] == l.heap[p].id;
    }
  }

  /** Counting a missed round for one entry. */
  lemma {:induction false} CountGood(l: Links, t: Table, k: nat, n: Entry)
    requires Good(l, t) && k < |l.list| && n.id == t.entries[k].id
    ensures Good(l.(heap := l.heap[l.list[k] := n]), t.(entries := t.entries[k := n]))
  {
    var es := t.entries[k := n];
    RecencySet(l.heap, l.list, t.entries, k, n);
    GrowSize(l.heap, l.list[k], n);
    assert forall e :: e in es ==> e == n || e in t.entries;
  }
}

module BssStore {
  import opened Sequences
  import opened Reltimes
  import opened BssTable
  import opened BssInvariant
  import opened BssEffects
  import opened BssLinks

  class Store {
    const cfg: Settings
    var links: Links
    var numBss: int
    var nextId: nat
    var updateIdx: nat
    var maxCount: nat
    var own: Mac
    var pending: Mac
    var networks: seq<seq<byte>>
    ghost var table: Table     // the table these links stand for

    ghost predicate Valid()
      reads this
    {
      Good(links, table) &&
      numBss == |links.list| && nextId == table.nextId && updateIdx == table.updateIdx && maxCount == table.maxCount &&
      own == table.env.own && pending == table.env.pending && networks == table.env.networks
    }

    constructor (cfg: Settings, maxCount: nat, own: Mac, pending: Mac, networks: seq<seq<byte>>)
      ensures Valid() && this.cfg == cfg
      ensures table == Empty(maxCount, Env(None, own, pending, networks))
    {
      this.cfg := cfg;
      links := Links(map[], 0, [], [], [], 0, None);
      numBss, nextId, updateIdx, this.maxCount := 0, 0, 0, maxCount;
      this.own, this.pending, this.networks := own, pending, networks;
      table := Empty(maxCount, Env(None, own, pending, networks));
    }

    // ---- reading ----

    /** `wpa_bss_in_use`. */
    predicate InUseNow(p: Ptr)
      reads this
      requires p in links.heap
    {
      var bssid := links.heap[p].bssid;
      links.current == Some(p) || (bssid != 0 && (bssid == own || bssid == pending))
    }

    lemma {:induction false} InUseAgrees(p: Ptr)
      requires Valid() && p in links.heap
      ensures InUseNow(p) <==> InUse(table.env, links.heap[p])
    {
      var l := links;
      if l.current.Some? && l.current.value in l.heap && l.heap[l.current.value].id == l.heap[p].id {
        PtrIsUnique(l.heap, l.list, table.entries, l.current.value, p);
      }
    }

    /** `wpa_bss_known`. */
    method KnownNow(ssid: seq<byte>) returns (r: bool)
      requires Valid()
      ensures r <==> Known(table.env, ssid)
    {
      var i := 0;
      while i < |networks|
        invariant 0 <= i <= |networks|
        invariant ssid == [] || ssid !in networks[..i]
      {
        if networks[i] != [] && networks[i] == ssid {
          return true;
        }
        i := i + 1;
      }
      return false;
    }

    /** `wpa_bss_get`: the position of the match in the recency list, or the length of the list. */
    method Get(bssid: Mac, ssid: seq<byte>) returns (k: nat)
      requires Valid()
      ensures k == Lookup(cfg, table, bssid, ssid)
    {
      if cfg.filter.Some? && bssid !in cfg.filter.value {
        return |links.list|;
      }
      k := 0;
      while k < |links.list|
        invariant 0 <= k <= |links.list|
        invariant forall j :: 0 <= j < k ==> !HasKey(table.entries[j], bssid, ssid)
      {
        var e := links.heap[links.list[k]];
        if e.bssid == bssid && e.ssid == ssid {
          return;
        }
        k := k + 1;
      }
    }

    /** `wpa_bss_get_id_range`: the entry with the smallest id in the range, if there is one. */
    method GetIdRange(idf: nat, idl: nat) returns (r: Option<Ptr>)
      requires Valid()
      ensures r.None? ==> forall e :: e in table.entries ==> !(idf <= e.id <= idl)
      ensures r.Some? ==> r.value in links.heap && links.heap[r.value] in table.entries &&
                          idf <= links.heap[r.value].id <= idl &&
                          forall e :: e in table.entries && idf <= e.id <= idl ==> links.heap[r.value].id <= e.id
    {
      var l := links;
      ByIdDistinct(l.heap, l.listId);
      assert forall e :: e in table.entries ==> exists p :: p in l.heap && l.heap[p] == e;
      var i := 0;
      while i < |l.listId|
        invariant 0 <= i <= |l.listId|
        invariant forall j :: 0 <= j < i ==> !(idf <= l.heap[l.listId[j]].id <= idl)
      {
        if idf <= l.heap[l.listId[i]].id <= idl {
          ghost var at := Placed(l.heap, l.list, table.entries, l.listId[i]);
          return Some(l.listId[i]);
        }
        i := i + 1;
      }
      return None;
    }

    // ---- removing ----

    /** `wpa_bss_remove` of the entry at position `k` of the recency list. */
    method Remove(k: nat)
      requires Valid() && k < |links.list|
      modifies this`links, this`numBss, this`table
      ensures Valid() && table == Purge(old(table), {old(table).entries[k].id})
      ensures links.list == Cut(old(links.list), k) && table.entries == Cut(old(table).entries, k)
    {
      var l := links;
      var p := l.list[k];
      InListId(l, table, p);
      RefsDistinct(l, table);
      var m := IndexOf(l.listId, p);
      var r, count := Compact(l.refs, l.used, p);
      RemoveGood(l, table, k, m, r, count);
      links := Links(l.heap - {p}, l.nextPtr, Cut(l.list, k), Cut(l.listId, m), r, count, l.current);
      numBss := numBss - 1;
      table := Purge(table, {table.entries[k].id});
    }

    /** The loop of `wpa_bss_remove_oldest_unknown`. */
    method OldestUnknown() returns (k: nat)
      requires Valid()
      ensures k == FirstUnknown(table.env, table.entries)
    {
      k := 0;
      while k < |links.list|
        invariant 0 <= k <= |links.list|
        invariant forall i :: 0 <= i < k ==> Known(table.env, table.entries[i].ssid)
      {
        var known := KnownNow(links.heap[links.list[k]].ssid);
        if !known {
          return;
        }
        k := k + 1;
      }
    }

    /** The second loop of `wpa_bss_remove_oldest`. */
    method OldestUnused() returns (k: nat)
      requires Valid()
      ensures k == FirstUnused(table.env, table.entries)
    {
      k := 0;
      while k < |links.list|
        invariant 0 <= k <= |links.list|
        invariant forall i :: 0 <= i < k ==> InUse(table.env, table.entries[i])
      {
        InUseAgrees(links.list[k]);
        if !InUseNow(links.list[k]) {
          return;
        }
        k := k + 1;
      }
    }

    /** `wpa_bss_remove_oldest`: whether an entry was removed. */
    method RemoveOldest() returns (removed: bool)
      requires Valid()
      modifies this`links, this`numBss, this`table
      ensures Valid() && removed == Victim(old(table)).Some?
      ensures table == if removed then Purge(old(table), {Victim(old(table)).value.id}) else old(table)
    {
      var k := OldestUnknown();
      if k < |links.list| {
        Remove(k);
        return true;
      }
      k := OldestUnused();
      if k < |links.list| {
        Remove(k);
        return true;
      }
      return false;
    }

    // ---- scan results ----

    /** Eviction at capacity, or a higher limit when nothing may go. */
    method EnsureRoom()
      requires Valid()
      modifies this`links, this`numBss, this`table, this`maxCount
      ensures Valid() && table == MakeRoom(old(table))
      ensures var t := old(table);
              if |t.entries| < t.maxCount then table == t
              else if AllProtected(t) then table == t.(maxCount := |t.entries| + 1)
              else table.maxCount == t.maxCount && exists k :: Evictable(t, k) && table.entries == Cut(t.entries, k)
    {
      RoomMade(table);
      if numBss + 1 > maxCount {
        var removed := RemoveOldest();
        if !removed {
          maxCount := numBss + 1;
          table := table.(maxCount := |table.entries| + 1);
        }
      }
    }

    /** Linking a new allocation at the tail of both lists. */
    method LinkNew(e: Entry) returns (p: Ptr)
      requires Valid() && nextId > 0 && e.id == nextId - 1 && table.env.current != Some(e.id)
      requires forall x :: x in table.entries ==> x.id < e.id
      modifies this`links, this`numBss, this`table
      ensures Valid() && table == old(table).(entries := old(table).entries + [e])
      ensures p in links.heap && links.heap[p] == e && e.id !in table.scanRes
    {
      EnterGood(links, table, e);
      p := links.nextPtr;
      var l := links;
      links := l.(heap := l.heap[l.nextPtr := e], nextPtr := l.nextPtr + 1, list := l.list + [l.nextPtr],
                  listId := l.listId + [l.nextPtr]);
      numBss := numBss + 1;
      table := table.(entries := table.entries + [e]);
    }

    /** `wpa_bss_add`: the address of the new entry. */
    method AddEntry(ssid: seq<byte>, res: ScanRes, fetch: Reltime) returns (p: Ptr)
      requires Valid()
      modifies this`links, this`numBss, this`table, this`nextId, this`maxCount
      ensures Valid() && table == Enter(old(table), ssid, res, fetch)
      ensures p in links.heap && links.heap[p].id == old(table).nextId && old(table).nextId !in table.scanRes
    {
      var e := Entry(nextId, res.bssid, ssid, res.freq, UpdateTime(fetch, res.ageMs), updateIdx, 0, res.ies, res.beaconIes);
      nextId := nextId + 1;
      table := table.(nextId := table.nextId + 1);
      MakeRoomShrinks(table);
      EnsureRoom();
      p := LinkNew(e);
    }

    /** Growing the index by doubling from 32 slots, then recording the address. */
    method Record(p: Ptr)
      requires Valid() && p in links.heap && links.heap[p].id !in table.scanRes
      modifies this`links, this`table
      ensures Valid() && table == old(table).(scanRes := old(table).scanRes + [old(links).heap[p].id])
      ensures var size := |old(links).refs|;
              |links.refs| == if old(links).used < size then size else if size == 0 then 32 else 2 * size
    {
      var l := links;
      var slots := l.refs;
      if l.used >= |slots| {
        var size := if |slots| == 0 then 32 else 2 * |slots|;
        slots := slots + seq(size - |slots|, i => 0);
      }
      slots := slots[l.used := p];
      RecordGood(l, table, p, slots);
      links := l.(refs := slots, used := l.used + 1);
      table := table.(scanRes := table.scanRes + [l.heap[p].id]);
    }

    /**
     `wpa_bss_update` of the entry at position `k`: rewritten, moved to the tail of the recency
     list, and reallocated when its elements outgrow it. `moves` is the allocator's choice.
     */
    method UpdateEntry(k: nat, res: ScanRes, fetch: Reltime, moves: bool) returns (p: Ptr)
      requires Valid() && k < |links.list|
      modifies this`links, this`table
      ensures Valid() && table == Touch(old(table), k, res, fetch)
      ensures var t := old(table);
              table.entries == Cut(t.entries, k) + [Written(t.entries[k].id, t.updateIdx, t.entries[k].ssid, res, fetch)]
      ensures p in links.heap && links.heap[p].id == old(table).entries[k].id
    {
      var l := links;
      var was := l.list[k];
      var e := l.heap[was];
      var n := e.(bssid := res.bssid, freq := res.freq, lastUpdate := UpdateTime(fetch, res.ageMs),
                  updateIdx := updateIdx, missCount := 0, ies := res.ies, beaconIes := res.beaconIes);
      InListId(l, table, was);
      RefsDistinct(l, table);
      var m := IndexOf(l.listId, was);
      p := was;
      var nextPtr, slots, current := l.nextPtr, l.refs, l.current;
      if |e.ies| + |e.beaconIes| < |res.ies| + |res.beaconIes| && moves {
        p, nextPtr := l.nextPtr, l.nextPtr + 1;
        slots := Repoint(l.refs, l.used, was, p);
        current := if current == Some(was) then Some(p) else current;
      }
      MoveGood(l, table, k, m, p, nextPtr, slots, n);
      links := Links((l.heap - {was})[p := n], nextPtr, Cut(l.list, k) + [p], l.listId[m := p], slots, l.used,
                     if l.current == Some(was) then Some(p) else l.current);
      assert links.current == current;
      table := Touch(table, k, res, fetch);
    }

    /** `wpa_bss_update_scan_res`. */
    method UpdateScanRes(res: ScanRes, fetch: Reltime, trigger: Reltime, moves: bool)
      requires Valid()
      modifies this`links, this`numBss, this`table, this`nextId, this`maxCount
      ensures Valid() && table == Result(cfg, old(table), res, fetch, trigger)
    {
      if cfg.ignoreOld && Before(UpdateTime(fetch, res.ageMs), trigger) {
        return;
      }
      var ssid := ResultSsid(res);
      if ssid.None? {
        return;
      }
      var k := Get(res.bssid, ssid.value);
      var p;
      if k == |links.list| {
        p := AddEntry(ssid.value, res, fetch);
      } else {
        p := UpdateEntry(k, res, fetch, moves);
        RecordedIff(links, table, p);
        if p in links.refs[..links.used] {
          return;
        }
      }
      Record(p);
    }

    // ---- rounds and flushes ----

    /** `wpa_bss_update_start`. */
    method UpdateStart()
      requires Valid()
      modifies this`links, this`table, this`updateIdx
      ensures Valid() && table == Start(old(table))
    {
      updateIdx := updateIdx + 1;
      links := links.(used := 0);
      table := Start(table);
    }

    /** The association state changes; the current entry, if any, is a live one. */
    method Associate(current: Option<Ptr>, own: Mac, pending: Mac, networks: seq<seq<byte>>)
      requires Valid() && (current.Some? ==> current.value in links.heap)
      modifies this`links, this`table, this`own, this`pending, this`networks
      ensures Valid()
      ensures table == old(table).(env := Env(if current.None? then None else Some(old(links).heap[current.value].id),
                                              own, pending, networks))
    {
      if current.Some? {
        ghost var k := Placed(links.heap, links.list, table.entries, current.value);
        assert table.entries[k] in table.entries;
      }
      links := links.(current := current);
      this.own, this.pending, this.networks := own, pending, networks;
      table := table.(env := Env(if current.None? then None else Some(links.heap[current.value].id), own, pending, networks));
    }

    /** `wpa_bss_flush`. */
    method FlushUnusedNow()
      requires Valid()
      modifies this`links, this`table, this`numBss
      ensures Valid() && table == Flush(old(table))
    {
      var pos := 0;
      FlushFromIs(table, 0);
      assert table.entries[0..] == table.entries;
      while pos < |links.list|
        invariant Valid() && pos <= |links.list| && FlushFrom(table, pos) == Flush(old(table))
        decreases |links.list| - pos
      {
        InUseAgrees(links.list[pos]);
        if InUseNow(links.list[pos]) {
          pos := pos + 1;
        } else {
          Remove(pos);
        }
      }
    }

    /** `wpa_bss_flush_by_age`; `limit` is the time now less the age. */
    method FlushByAgeNow(limit: Reltime)
      requires Valid()
      modifies this`links, this`table, this`numBss
      ensures Valid() && table == FlushByAge(old(table), limit)
    {
      var pos := 0;
      FlushAgeFromIs(table, limit, 0);
      assert table.entries[0..] == table.entries;
      while pos < |links.list|
        invariant Valid() && pos <= |links.list| && FlushAgeFrom(table, limit, pos) == FlushByAge(old(table), limit)
        decreases |links.list| - pos
      {
        InUseAgrees(links.list[pos]);
        if InUseNow(links.list[pos]) {
          pos := pos + 1;
        } else if Before(links.heap[links.list[pos]].lastUpdate, limit) {
          Remove(pos);
        } else {
          break;
        }
      }
    }

    /** `wpa_bss_included_in_scan`. */
    method IncludedInScan(e: Entry, info: Option<ScanInfo>) returns (r: bool)
      ensures r == Covered(info, e.freq, e.ssid)
    {
      if info.None? {
        return true;
      }
      var freqs, ssids := info.value.freqs, info.value.ssids;
      if |freqs| > 0 && e.freq !in freqs {
        return false;
      }
      var i, found := 0, |ssids| == 0;
      while i < |ssids| && !found
        invariant 0 <= i <= |ssids|
        invariant ssids == [] ==> found
        invariant found ==> ssids == [] || [] in ssids || e.ssid in ssids
        invariant !found ==> [] !in ssids[..i] && e.ssid !in ssids[..i]
      {
        found := ssids[i] == [] || ssids[i] == e.ssid;
        i := i + 1;
      }
      assert !found ==> ssids[..i] == ssids;
      return found;
    }

    /** `wpa_bss_update_end`. */
    method UpdateEnd(info: Option<ScanInfo>, newScan: bool)
      requires Valid()
      modifies this`links, this`table, this`numBss
      ensures Valid() && table == End(cfg, old(table), info, newScan)
    {
      if !newScan {
        return;
      }
      var pos := 0;
      EndSweeps(cfg, table, info);
      while pos < |links.list|
        invariant Valid() && pos <= |links.list| && EndFrom(cfg, table, info, pos) == End(cfg, old(table), info, true)
        decreases |links.list| - pos
      {
        var removed := CountOrExpire(pos, info);
        if !removed {
          pos := pos + 1;
        }
      }
    }

    /** One more missed scan for the entry at `pos`. */
    method CountMiss(pos: nat) returns (count: nat)
      requires Valid() && pos < |links.list|
      modifies this`links, this`table
      ensures Valid() && links.list == old(links.list)
      ensures var e := old(table).entries[pos];
              count == e.missCount + 1 &&
              table == old(table).(entries := old(table).entries[pos := e.(missCount := e.missCount + 1)])
    {
      var l := links;
      var p := l.list[pos];
      var n := l.heap[p].(missCount := l.heap[p].missCount + 1);
      CountGood(l, table, pos, n);
      links := l.(heap := l.heap[p := n]);
      table := table.(entries := table.entries[pos := n]);
      count := n.missCount;
    }

    /** The body of the loop of `wpa_bss_update_end`. */
    method CountOrExpire(pos: nat, info: Option<ScanInfo>) returns (removed: bool)
      requires Valid() && pos < |links.list|
      modifies this`links, this`table, this`numBss
      ensures Valid()
      ensures var t := old(table);
              var e := t.entries[pos];
              var counted := t.(entries := t.entries[pos := Counted(t.env, t.updateIdx, info, e)]);
              removed == Expires(cfg, t.env, t.updateIdx, info, e) &&
              table == (if removed then Purge(counted, {e.id}) else counted) &&
              |links.list| == |t.entries| - if removed then 1 else 0
    {
      var p := links.list[pos];
      var e := links.heap[p];
      InUseAgrees(p);
      assert table.entries[pos := e] == table.entries;
      if InUseNow(p) {
        return false;
      }
      var included := IncludedInScan(e, info);
      if !included {
        return false;
      }
      var count := e.missCount;
      if e.updateIdx < updateIdx {
        count := CountMiss(pos);
      }
      removed := count >= cfg.expireCount;
      if removed {
        Remove(pos);
      }
    }

    /** A whole update round, as `wpa_supplicant_get_scan_results` drives it. */
    method Round(results: seq<ScanRes>, moves: seq<bool>, fetch: Reltime, trigger: Reltime, info: Option<ScanInfo>, newScan: bool)
      requires Valid() && |moves| == |results|
      modifies this`links, this`table, this`numBss, this`nextId, this`maxCount, this`updateIdx
      ensures Valid() && table == Run(cfg, old(table), RoundEvents(results, fetch, trigger) + [EndRound(info, newScan)])
    {
      UpdateStart();
      ghost var t := old(table);
      assert table == Run(cfg, t, RoundEvents([], fetch, trigger));
      var i := 0;
      while i < |results|
        invariant 0 <= i <= |results| && Valid()
        invariant table == Run(cfg, t, RoundEvents(results[..i], fetch, trigger))
      {
        UpdateScanRes(results[i], fetch, trigger, moves[i]);
        RoundNext(results, i, fetch, trigger);
        RunOne(cfg, t, RoundEvents(results[..i], fetch, trigger), ScanResult(results[i], fetch, trigger));
        i := i + 1;
      }
      assert results[..i] == results;
      RunOne(cfg, t, RoundEvents(results, fetch, trigger), EndRound(info, newScan));
      UpdateEnd(info, newScan);
    }
  }

  lemma {:induction false} RoundNext(results: seq<ScanRes>, i: nat, fetch: Reltime, trigger: Reltime)
    requires i < |results|
    ensures RoundEvents(results[..i + 1], fetch, trigger) ==
            RoundEvents(results[..i], fetch, trigger) + [ScanResult(results[i], fetch, trigger)]
  {
    assert results[..i + 1][..i] == results[..i];
  }

  /** The events of a round up to its last result. */
  ghost function RoundEvents(results: seq<ScanRes>, fetch: Reltime, trigger: Reltime): (r: seq<Event>)
    ensures |r| == |results| + 1
  {
    if results == [] then [StartRound]
    else RoundEvents(results[..|results| - 1], fetch, trigger) + [ScanResult(results[|results| - 1], fetch, trigger)]
  }
}
