/**
 The two log parsers and the join put together, for one interface: what the parsers guarantee is
 what the join needs.
 */
module Pipeline {
  import opened Sequences
  import opened LogRows
  import opened TraceJoin
  import WpaLog
  import RoamLog

  /** The associations that the join walks. */
  function Assocs(blocks: seq<WpaLog.Block>): (r: seq<Assoc>)
    ensures |r| == |blocks|
    ensures forall i :: 0 <= i < |blocks| ==> r[i] == Assoc(blocks[i].connS, blocks[i].connE)
  {
    if blocks == [] then []
    else
      var last := blocks[|blocks| - 1];
      Assocs(blocks[..|blocks| - 1]) + [Assoc(last.connS, last.connE)]
  }

  /** The DHCP records, each at the time its acquisition began. */
  function Leases(records: seq<RoamLog.Record>): (r: seq<Stamped<RoamLog.Record>>)
    ensures |r| == |records|
    ensures forall i :: 0 <= i < |records| ==> r[i] == Stamped(records[i].dhcpS, records[i])
  {
    if records == [] then []
    else
      var last := records[|records| - 1];
      Leases(records[..|records| - 1]) + [Stamped(last.dhcpS, last)]
  }

  /** Records arrive in the order the join's cursor needs. */
  lemma {:induction false} LeasesSorted<Nic>(rows: seq<RoamLog.LogRow<Nic>>, nic: Nic)
    requires Nondecreasing(rows) && RoamLog.ParseOne(RowsOf(rows, nic)).Done?
    ensures Sorted(Leases(RoamLog.ParseOne(RowsOf(rows, nic)).value.records))
  {
    RowsOfNondecreasing(rows, nic);
    RoamLog.ParsedInOrder(RowsOf(rows, nic));
    var records := RoamLog.ParseOne(RowsOf(rows, nic)).value.records;
    forall i, j | 0 <= i < j < |records| ensures records[i].dhcpS <= records[j].dhcpS {
      assert RoamLog.RecordOrdered(records[i]);
      assert records[i].ipE <= records[j].dhcpS;
    }
  }

  lemma {:induction false} WindowOrdered<Nic>(rows: seq<WpaLog.LogRow<Nic>>, i: nat)
    requires Nondecreasing(rows) && WpaLog.ParseOne(rows).Done? && i < |WpaLog.ParseOne(rows).value.blocks|
    requires var b := WpaLog.ParseOne(rows).value.blocks[i]; b.connS.Some? && b.connE.Some?
    ensures var b := WpaLog.ParseOne(rows).value.blocks[i]; b.connS.value <= b.connE.value
  {
    WpaLog.ConnectionEndsLast(rows, i, WpaLog.ParseOne(rows).value.blocks[i].connS.value);
  }

  lemma {:induction false} WindowsApart<Nic>(rows: seq<WpaLog.LogRow<Nic>>, i: nat, j: nat)
    requires Nondecreasing(rows) && WpaLog.ParseOne(rows).Done? && i < j < |WpaLog.ParseOne(rows).value.blocks|
    requires var blocks := WpaLog.ParseOne(rows).value.blocks; blocks[i].connE.Some? && blocks[j].connS.Some?
    ensures var blocks := WpaLog.ParseOne(rows).value.blocks; blocks[i].connE.value <= blocks[j].connS.value
  {
    var blocks := WpaLog.ParseOne(rows).value.blocks;
    WpaLog.BlocksInOrder(rows, i, j, blocks[i].connE.value, blocks[j].connS.value);
  }

  /** The parser's windows meet the join's precondition. */
  lemma {:induction false} AssocsInOrder<Nic>(rows: seq<WpaLog.LogRow<Nic>>, nic: Nic)
    requires Nondecreasing(rows) && WpaLog.ParseOne(RowsOf(rows, nic)).Done?
    ensures InOrder(Assocs(WpaLog.ParseOne(RowsOf(rows, nic)).value.blocks))
  {
    var mine := RowsOf(rows, nic);
    var l2 := Assocs(WpaLog.ParseOne(mine).value.blocks);
    RowsOfNondecreasing(rows, nic);
    forall i | 0 <= i < |l2| && Complete(l2[i]) ensures l2[i].connS.value <= l2[i].connE.value {
      WindowOrdered(mine, i);
    }
    forall i, j | 0 <= i < j < |l2| && Complete(l2[i]) && Complete(l2[j]) ensures l2[i].connE.value <= l2[j].connS.value {
      WindowsApart(mine, i, j);
    }
  }

  /**
   Every association that ended has a start exactly when no kept block of the interface begins with
   the row that completes its connection.
   */
  lemma {:induction false} StartedIff<Nic>(rows: seq<WpaLog.LogRow<Nic>>)
    requires WpaLog.ParseOne(rows).Done?
    ensures (forall a :: a in Assocs(WpaLog.ParseOne(rows).value.blocks) ==> Started(a)) <==>
            !exists s: nat, e: nat :: WpaLog.CompletesFirst(rows, s, e)
  {
    var blocks := WpaLog.ParseOne(rows).value.blocks;
    var l2 := Assocs(blocks);
    WpaLog.SomeHeadlessIff(rows);
    if exists b :: b in blocks && WpaLog.Headless(b) {
      var b :| b in blocks && WpaLog.Headless(b);
      var i :| 0 <= i < |blocks| && blocks[i] == b;
      assert l2[i] in l2 && !Started(l2[i]);
    } else {
      forall i | 0 <= i < |l2| ensures Started(l2[i]) {
        assert blocks[i] in blocks && !WpaLog.Headless(blocks[i]);
      }
    }
  }

  /** What the two parsers hand to the join of one interface. */
  ghost predicate Parsed<Nic(!new), P(!new), T(!new)>(
    wpa: seq<WpaLog.LogRow<Nic>>, roam: seq<RoamLog.LogRow<Nic>>, nic: Nic,
    x: Traces<P, RoamLog.Record, T>, l2: seq<Assoc>)
  {
    Nondecreasing(wpa) && Nondecreasing(roam) && Sorted(x.link) && Sorted(x.gps) && Sorted(x.tcp) &&
    WpaLog.ParseOne(RowsOf(wpa, nic)).Done? && l2 == Assocs(WpaLog.ParseOne(RowsOf(wpa, nic)).value.blocks) &&
    RoamLog.ParseOne(RowsOf(roam, nic)).Done? && x.l3 == Leases(RoamLog.ParseOne(RowsOf(roam, nic)).value.records)
  }

  /**
   From the logs to the linked associations: the join of parsed lists completes exactly when no
   window is degenerate and no end without a start finds a record left; then each association gets
   what a fresh scan of the lists gives it.
   */
  lemma {:induction false} LinkedIsFresh<Nic(!new), P(!new), T(!new)>(
    wpa: seq<WpaLog.LogRow<Nic>>, roam: seq<RoamLog.LogRow<Nic>>, nic: Nic,
    x: Traces<P, RoamLog.Record, T>, l2: seq<Assoc>)
    requires Parsed(wpa, roam, nic, x, l2)
    ensures JoinAll(x, l2).Done? <==>
            forall i :: 0 <= i < |l2| ==> !Degenerate(x, l2[..i], l2[i]) && !Unordered(x, l2[..i], l2[i])
    ensures JoinAll(x, l2).Done? ==>
              forall i :: 0 <= i < |l2| ==> JoinAll(x, l2).value.0[i] == Fresh(x, l2[..i], l2[i])
  {
    assert InOrder(l2) by { AssocsInOrder(wpa, nic); }
    assert Sorted(x.l3) by { LeasesSorted(roam, nic); }
    JoinIsFresh(x, l2);
  }

  /** Without a block that begins with its completion, only a degenerate window ends the join. */
  lemma {:induction false} LinkedUnlessDegenerate<Nic(!new), P(!new), T(!new)>(
    wpa: seq<WpaLog.LogRow<Nic>>, roam: seq<RoamLog.LogRow<Nic>>, nic: Nic,
    x: Traces<P, RoamLog.Record, T>, l2: seq<Assoc>)
    requires Parsed(wpa, roam, nic, x, l2)
    requires !exists s: nat, e: nat :: WpaLog.CompletesFirst(RowsOf(wpa, nic), s, e)
    ensures JoinAll(x, l2).Done? <==> forall i :: 0 <= i < |l2| ==> !Degenerate(x, l2[..i], l2[i])
  {
    assert JoinAll(x, l2).Done? <==>
           forall i :: 0 <= i < |l2| ==> !Degenerate(x, l2[..i], l2[i]) && !Unordered(x, l2[..i], l2[i]) by {
      LinkedIsFresh(wpa, roam, nic, x, l2);
    }
    forall i | 0 <= i < |l2| ensures !Unordered(x, l2[..i], l2[i]) {
      StartedIff(RowsOf(wpa, nic));
      assert l2[i] in l2;
    }
  }
}
