/** Log rows of several interfaces in one file, and the rows of one interface among them. */
module LogRows {
  datatype Row<Nic, E> = Row(nic: Nic, ts: real, event: E)

  function RowsOf<Nic(==), E>(rows: seq<Row<Nic, E>>, nic: Nic): seq<Row<Nic, E>> {
    if rows == [] then []
    else
      var before := RowsOf(rows[..|rows| - 1], nic);
      if rows[|rows| - 1].nic == nic then before + [rows[|rows| - 1]] else before
  }

  ghost predicate Nondecreasing<Nic, E>(rows: seq<Row<Nic, E>>) {
    forall i, j :: 0 <= i < j < |rows| ==> rows[i].ts <= rows[j].ts
  }

  lemma {:induction false} RowAdds<Nic, E>(rows: seq<Row<Nic, E>>, i: nat, nic: Nic)
    requires i < |rows|
    ensures RowsOf(rows[..i + 1], nic) ==
            if rows[i].nic == nic then RowsOf(rows[..i], nic) + [rows[i]] else RowsOf(rows[..i], nic)
  {
    assert rows[..i + 1][..i] == rows[..i];
  }

  lemma {:induction false} RowsOfPrefix<Nic, E>(rows: seq<Row<Nic, E>>, nic: Nic, i: nat)
    requires i <= |rows|
    ensures |RowsOf(rows[..i], nic)| <= |RowsOf(rows, nic)|
    ensures RowsOf(rows, nic)[..|RowsOf(rows[..i], nic)|] == RowsOf(rows[..i], nic)
  {
    if i == |rows| {
      assert rows[..i] == rows;
    } else {
      assert rows[..|rows| - 1][..i] == rows[..i];
      RowsOfPrefix(rows[..|rows| - 1], nic, i);
    }
  }

  lemma {:induction false} RowsOfAre<Nic, E>(rows: seq<Row<Nic, E>>, nic: Nic, k: nat) returns (i: nat)
    requires k < |RowsOf(rows, nic)|
    ensures i < |rows| && RowsOf(rows, nic)[k] == rows[i]
  {
    var before := RowsOf(rows[..|rows| - 1], nic);
    if k < |before| {
      i := RowsOfAre(rows[..|rows| - 1], nic, k);
    } else {
      i := |rows| - 1;
    }
  }

  /** An interface's rows keep the order of the whole log. */
  lemma {:induction false} RowsOfNondecreasing<Nic, E>(rows: seq<Row<Nic, E>>, nic: Nic)
    requires Nondecreasing(rows)
    ensures Nondecreasing(RowsOf(rows, nic))
  {
    if rows != [] {
      var front := rows[..|rows| - 1];
      RowsOfNondecreasing(front, nic);
      forall k | 0 <= k < |RowsOf(front, nic)| ensures RowsOf(front, nic)[k].ts <= rows[|rows| - 1].ts {
        var i := RowsOfAre(front, nic, k);
        assert rows[i].ts <= rows[|rows| - 1].ts;
      }
    }
  }
}
