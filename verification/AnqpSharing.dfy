/**
 ANQP data that several BSS entries of `bss.c` may share, with a count of its users. Entries and
 allocations are numbers; what an entry sees never depends on what other entries do.
 */
module AnqpSharing {
  import opened Sequences

  datatype Block<D> = Block(users: int, data: D)

  /** The entries that point to an allocation. */
  ghost function Holders(held: map<nat, nat>, p: nat): set<nat> {
    set e | e in held && held[e] == p
  }

  ghost predicate Counted<D>(held: map<nat, nat>, blocks: map<nat, Block<D>>) {
    (forall e :: e in held ==> held[e] in blocks) &&
    (forall p :: p in blocks ==> blocks[p].users == |Holders(held, p)| && blocks[p].users > 0)
  }

  /** What an entry sees. */
  ghost function Seen<D>(held: map<nat, nat>, blocks: map<nat, Block<D>>, e: nat): Option<D>
    requires Counted(held, blocks)
  {
    if e in held then Some(blocks[held[e]].data) else None
  }

  lemma {:induction false} HoldersGain(held: map<nat, nat>, e: nat, p: nat, q: nat)
    requires e !in held
    ensures |Holders(held[e := p], q)| == |Holders(held, q)| + if q == p then 1 else 0
  {
    if q == p {
      assert Holders(held[e := p], q) == Holders(held, q) + {e};
    } else {
      assert Holders(held[e := p], q) == Holders(held, q);
    }
  }

  lemma {:induction false} HoldersLose(held: map<nat, nat>, e: nat, q: nat)
    requires e in held
    ensures |Holders(held - {e}, q)| == |Holders(held, q)| - if q == held[e] then 1 else 0
  {
    if q == held[e] {
      assert Holders(held - {e}, q) == Holders(held, q) - {e};
    } else {
      assert Holders(held - {e}, q) == Holders(held, q);
    }
  }

  lemma {:induction false} OthersHold(held: map<nat, nat>, e: nat)
    requires e in held
    ensures |Holders(held - {e}, held[e])| > 0 <==> exists f :: f != e && f in held && held[f] == held[e]
  {
    var s := Holders(held - {e}, held[e]);
    if s != {} {
      var f :| f in s;
      assert f != e && f in held && held[f] == held[e];
    }
    if f :| f != e && f in held && held[f] == held[e] {
      assert f in s;
    }
  }

  lemma {:induction false} OnlyHolder<D>(held: map<nat, nat>, blocks: map<nat, Block<D>>, e: nat, f: nat)
    requires Counted(held, blocks) && e in held && f in held && held[e] == held[f] && blocks[held[e]].users == 1
    ensures e == f
  {
    var s := Holders(held, held[e]);
    assert e in s && f in s;
    if e != f {
      assert {e, f} <= s;
      CardinalityAtLeast(s, e, f);
    }
  }

  lemma {:induction false} CardinalityAtLeast(s: set<nat>, e: nat, f: nat)
    requires e in s && f in s && e != f
    ensures |s| >= 2
  {
    assert f in s - {e};
    assert |s - {e}| >= 1;
  }

  class Sharing<D> {
    var held: map<nat, nat>
    var blocks: map<nat, Block<D>>
    var next: nat

    /** Every pointer is to a live allocation, and every count is the number of pointers. */
    ghost predicate Valid()
      reads this
    {
      Counted(held, blocks) && forall p :: p in blocks ==> p < next
    }

    ghost function See(e: nat): Option<D>
      requires Valid()
      reads this
    {
      Seen(held, blocks, e)
    }

    constructor ()
      ensures Valid() && forall e :: See(e) == None
    {
      held, blocks, next := map[], map[], 0;
    }

    /** `wpa_bss_anqp_alloc` for an entry without data. */
    method Alloc(e: nat, empty: D)
      requires Valid() && e !in held
      modifies this
      ensures Valid() && See(e) == Some(empty) && blocks[held[e]].users == 1
      ensures forall f :: f != e ==> See(f) == old(See(f))
    {
      forall q { HoldersGain(held, e, next, q); }
      assert Holders(held, next) == {};
      blocks := blocks[next := Block(1, empty)];
      held := held[e := next];
      next := next + 1;
    }

    /** `wpa_bss_anqp_free` when an entry goes away; the allocation goes with its last user. */
    method Free(e: nat)
      requires Valid()
      modifies this
      ensures Valid() && See(e) == None
      ensures forall f :: f != e ==> See(f) == old(See(f))
      ensures e in old(held) ==> (old(held)[e] in blocks <==> exists f :: f != e && f in old(held) && old(held)[f] == old(held)[e])
    {
      if e !in held {
        return;
      }
      var p := held[e];
      forall q { HoldersLose(held, e, q); }
      OthersHold(held, e);
      var users := blocks[p].users - 1;
      if users > 0 {
        blocks := blocks[p := blocks[p].(users := users)];
      } else {
        blocks := blocks - {p};
      }
      held := held - {e};
    }

    /** Another entry's data is shared by an entry without any. */
    method Share(e: nat, other: nat)
      requires Valid() && e !in held && other in held
      modifies this
      ensures Valid() && See(e) == old(See(other)) && e in held && held[e] == old(held)[other]
      ensures forall f :: f != e ==> See(f) == old(See(f))
    {
      var p := held[other];
      forall q { HoldersGain(held, e, p, q); }
      blocks := blocks[p := blocks[p].(users := blocks[p].users + 1)];
      held := held[e := p];
    }

    /** `wpa_bss_anqp_unshare_alloc`: the entry has data of its own, the same as before. */
    method UnshareAlloc(e: nat, empty: D)
      requires Valid()
      modifies this
      ensures Valid() && e in held && blocks[held[e]].users == 1
      ensures See(e) == if old(See(e)).Some? then old(See(e)) else Some(empty)
      ensures forall f :: f != e ==> See(f) == old(See(f))
    {
      if e in held && blocks[held[e]].users > 1 {
        var copy := blocks[held[e]].data;
        Free(e);
        Alloc(e, copy);
        return;
      }
      if e in held {
        return;
      }
      Alloc(e, empty);
    }

    /** Data fetched for an entry that does not share: no other entry sees it. */
    method Store(e: nat, data: D)
      requires Valid() && e in held && blocks[held[e]].users == 1
      modifies this
      ensures Valid() && See(e) == Some(data)
      ensures forall f :: f != e ==> See(f) == old(See(f))
    {
      forall f | f in held && held[f] == held[e] ensures f == e { OnlyHolder(held, blocks, e, f); }
      blocks := blocks[held[e] := blocks[held[e]].(data := data)];
    }
  }
}
