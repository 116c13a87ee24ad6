/**
 `WPAParser.parse` of `server_tools/analyzer/lib/wpa_supplicant.py`: one state machine per
 interface cuts the interleaved supplicant log into association blocks with timestamps.
 A row arrives already matched against the parser's regular expressions.
 */
module WpaLog {
  import opened Sequences
  import opened LogRows

  datatype WpaState =
    | Disconnected | Scanning | Authenticating | Associating | Associated
    | FourWayHandshake | GroupHandshake | Completed

  /** A "State: a -> b" row; a name outside the enumeration raises. */
  datatype Transition = Change(pre: WpaState, post: WpaState) | Unknown

  /** `sme` says whether the row is the authentication attempt that names the access point. */
  datatype Line = Line(change: Option<Transition>, sme: bool)

  type LogRow<Nic> = Row<Nic, Line>

  datatype Block = Block(
    authS: real, authE: Option<real>, assocS: Option<real>, assocE: Option<real>,
    hsS: Option<real>, hsE: Option<real>, connS: Option<real>, connE: Option<real>)

  /** The `idx_*` fields: where in the block under way each phase starts and ends. */
  datatype Marks = Marks(
    authS: Option<nat>, authE: Option<nat>, assocS: Option<nat>, assocE: Option<nat>,
    hsS: Option<nat>, hsE: Option<nat>, connS: Option<nat>, connE: Option<nat>)

  const NO_MARKS := Marks(None, None, None, None, None, None, None, None)

  /** `_ParsingState`; the marks point into `blk`. */
  datatype Parsing<Nic> = Parsing(
    state: WpaState, blk: seq<LogRow<Nic>>, blocks: seq<Block>, completed: bool, marks: Marks)

  function Initial<Nic>(): Parsing<Nic> {
    Parsing(Disconnected, [], [], false, NO_MARKS)
  }

  /** Index 0 counts as unset: the code tests `if idx:`. */
  predicate Truthy(i: Option<nat>) {
    i.Some? && i.value != 0
  }

  function Stamp<Nic>(blk: seq<LogRow<Nic>>, i: Option<nat>): Option<real>
    requires i.Some? ==> i.value < |blk|
  {
    if Truthy(i) then Some(blk[i.value].ts) else None
  }

  predicate Points(i: Option<nat>, n: nat) {
    i.Some? ==> i.value < n
  }

  predicate AllPoint(m: Marks, n: nat) {
    Points(m.authS, n) && Points(m.authE, n) && Points(m.assocS, n) && Points(m.assocE, n) &&
    Points(m.hsS, n) && Points(m.hsE, n) && Points(m.connS, n) && Points(m.connE, n)
  }

  predicate Indexed<Nic>(p: Parsing<Nic>) {
    AllPoint(p.marks, |p.blk|)
  }

  /** The timestamps of `_InfoBlk._parse`. */
  function MakeBlock<Nic>(blk: seq<LogRow<Nic>>, m: Marks): Block
    requires AllPoint(m, |blk|) && m.authS.Some?
  {
    Block(blk[m.authS.value].ts, Stamp(blk, m.authE), Stamp(blk, m.assocS), Stamp(blk, m.assocE),
          Stamp(blk, m.hsS), Stamp(blk, m.hsE), Stamp(blk, m.connS), Stamp(blk, m.connE))
  }

  /** The block under way with one more row. */
  function Extend<Nic>(p: Parsing<Nic>, row: LogRow<Nic>): (q: Parsing<Nic>)
    requires Indexed(p)
    ensures Indexed(q)
  {
    p.(blk := p.blk + [row])
  }

  /** A row that ends a block: `q` is the state with that row appended. */
  function Close<Nic>(q: Parsing<Nic>): Parsing<Nic>
    requires Indexed(q) && q.blk != []
  {
    var m := if q.completed then q.marks.(connE := Some(|q.blk| - 1)) else q.marks;
    var blocks :=
      if Truthy(m.authS) && q.blk[m.authS.value - 1].event.sme then q.blocks + [MakeBlock(q.blk, m)] else q.blocks;
    Parsing(Disconnected, [], blocks, false, NO_MARKS)
  }

  /** What a state change into `post` at row `n` of the block marks. */
  function Mark(m: Marks, post: WpaState, completed: bool, n: nat): (r: Marks)
    requires AllPoint(m, n)
    ensures AllPoint(r, n + 1)
  {
    match post
    case Completed => if completed then m else m.(hsE := Some(n), connS := Some(n))
    case Authenticating => m.(authS := Some(n))
    case Associating => m.(authE := Some(n), assocS := Some(n))
    case Associated => m.(assocE := Some(n), hsS := Some(n))
    case _ => m
  }

  /** A state change that does not end the block. */
  function Enter<Nic>(p: Parsing<Nic>, row: LogRow<Nic>, post: WpaState): (q: Parsing<Nic>)
    requires Indexed(p)
    ensures Indexed(q)
  {
    Parsing(post, p.blk + [row], p.blocks, p.completed || post == Completed,
            Mark(p.marks, post, p.completed, |p.blk|))
  }

  /** One row of the interface. */
  function Step<Nic>(p: Parsing<Nic>, row: LogRow<Nic>): (r: Outcome<Parsing<Nic>>)
    requires Indexed(p)
    ensures r.Done? ==> Indexed(r.value)
  {
    match row.event.change
    case None => Done(Extend(p, row))
    case Some(Unknown) => Raised(ValueError)
    case Some(Change(pre, post)) =>
      if pre != p.state then Raised(AssertionError)
      else if post == Disconnected then Done(Close(Extend(p, row)))
      else Done(Enter(p, row, post))
  }

  /** The rows of one interface, in a run of their own. */
  function ParseOne<Nic>(rows: seq<LogRow<Nic>>): (r: Outcome<Parsing<Nic>>)
    ensures r.Done? ==> Indexed(r.value)
  {
    if rows == [] then Done(Initial())
    else match ParseOne(rows[..|rows| - 1])
      case Raised(error) => Raised(error)
      case Done(p) => Step(p, rows[|rows| - 1])
  }

  // ---- the parser ----

  class ParsingState<Nic> {
    var state: WpaState
    var blk: seq<LogRow<Nic>>
    var blocks: seq<Block>
    var completed: bool
    var marks: Marks

    function View(): Parsing<Nic>
      reads this
    {
      Parsing(state, blk, blocks, completed, marks)
    }

    constructor ()
      ensures View() == Initial()
    {
      state, blk, blocks, completed, marks := Disconnected, [], [], false, NO_MARKS;
    }

    /** A row whose state change ends the block; the row is appended already. */
    method CloseBlock()
      requires Indexed(View()) && blk != [] && state == Disconnected
      modifies this
      ensures View() == Close(old(View()))
    {
      if marks.authS.Some? && marks.authS.value != 0 {
        if completed {
          marks := marks.(connE := Some(|blk| - 1));
        }
        if blk[marks.authS.value - 1].event.sme {
          blocks := blocks + [MakeBlock(blk, marks)];
        }
      }
      completed := false;
      blk := [];
      marks := NO_MARKS;
    }

    /** The body of the row loop. */
    method Feed(row: LogRow<Nic>) returns (failed: Option<Exception>)
      requires Indexed(View())
      modifies this
      ensures Step(old(View()), row) == if failed.None? then Done(View()) else Raised(failed.value)
    {
      blk := blk + [row];
      if row.event.change.None? {
        return None;
      }
      if row.event.change.value.Unknown? {
        return Some(ValueError);
      }
      if row.event.change.value.pre != state {
        return Some(AssertionError);
      }
      var n := |blk| - 1;
      state := row.event.change.value.post;
      match state {
        case Disconnected =>
          CloseBlock();
        case Completed =>
          if !completed {
            marks := marks.(hsE := Some(n), connS := Some(n));
            completed := true;
          }
        case Authenticating =>
          marks := marks.(authS := Some(n));
        case Associating =>
          marks := marks.(authE := Some(n), assocS := Some(n));
        case Associated =>
          marks := marks.(assocE := Some(n), hsS := Some(n));
        case _ =>
      }
      return None;
    }
  }

  lemma {:induction false} RaisedStays<Nic>(rows: seq<LogRow<Nic>>, i: nat)
    requires i <= |rows| && ParseOne(rows[..i]).Raised?
    ensures ParseOne(rows) == ParseOne(rows[..i])
  {
    if i == |rows| {
      assert rows[..i] == rows;
    } else {
      assert rows[..|rows| - 1][..i] == rows[..i];
      RaisedStays(rows[..|rows| - 1], i);
    }
  }

  /** A row moves on the parse of its own interface and no other. */
  lemma {:induction false} ParseNext<Nic>(rows: seq<LogRow<Nic>>, i: nat, nic: Nic)
    requires i < |rows| && ParseOne(RowsOf(rows[..i], nic)).Done?
    ensures ParseOne(RowsOf(rows[..i + 1], nic)) ==
            if rows[i].nic == nic then Step(ParseOne(RowsOf(rows[..i], nic)).value, rows[i])
            else ParseOne(RowsOf(rows[..i], nic))
  {
    RowAdds(rows, i, nic);
    var mine := RowsOf(rows[..i + 1], nic);
    if rows[i].nic == nic {
      assert mine[..|mine| - 1] == RowsOf(rows[..i], nic);
    }
  }

  lemma {:induction false} RowFails<Nic>(rows: seq<LogRow<Nic>>, i: nat)
    requires i < |rows| && ParseOne(RowsOf(rows[..i], rows[i].nic)).Done?
    requires Step(ParseOne(RowsOf(rows[..i], rows[i].nic)).value, rows[i]).Raised?
    ensures ParseOne(RowsOf(rows, rows[i].nic)) == Raised(Step(ParseOne(RowsOf(rows[..i], rows[i].nic)).value, rows[i]).error)
  {
    var nic := rows[i].nic;
    ParseNext(rows, i, nic);
    RowsOfPrefix(rows, nic, i + 1);
    RaisedStays(RowsOf(rows, nic), |RowsOf(rows[..i + 1], nic)|);
  }

  /**
   The interleaved log: parsing completes exactly when each interface's rows parse on their own,
   and then each interface's blocks are those of its own rows.
   */
  method Parse<Nic(==)>(rows: seq<LogRow<Nic>>, nics: seq<Nic>) returns (r: Outcome<map<Nic, seq<Block>>>)
    ensures r.Done? <==> forall nic :: nic in nics ==> ParseOne(RowsOf(rows, nic)).Done?
    ensures r.Raised? ==> exists nic :: nic in nics && ParseOne(RowsOf(rows, nic)) == Raised(r.error)
    ensures r.Done? ==> forall nic :: nic in r.value <==> nic in nics
    ensures r.Done? ==> forall nic :: nic in nics ==> r.value[nic] == ParseOne(RowsOf(rows, nic)).value.blocks
  {
    var states := NewStates(nics);
    var i := 0;
    while i < |rows|
      invariant 0 <= i <= |rows|
      invariant forall nic :: nic in states ==> ParseOne(RowsOf(rows[..i], nic)) == Done(states[nic].View())
    {
      var row := rows[i];
      forall nic | nic in states { ParseNext(rows, i, nic); }
      if row.nic in states {
        var st := states[row.nic];
        var failed := st.Feed(row);
        if failed.Some? {
          RowFails(rows, i);
          assert row.nic in nics && ParseOne(RowsOf(rows, row.nic)) == Raised(failed.value);
          return Raised(failed.value);
        }
      }
      i := i + 1;
    }
    assert rows[..i] == rows;
    r := Done(map nic | nic in states :: states[nic].blocks);
  }

  /** One parsing state per interface. */
  method NewStates<Nic(==)>(nics: seq<Nic>) returns (states: map<Nic, ParsingState<Nic>>)
    ensures forall nic :: nic in states <==> nic in nics
    ensures forall a, b :: a in states && b in states && a != b ==> states[a] != states[b]
    ensures forall nic :: nic in states ==> fresh(states[nic]) && states[nic].View() == Initial()
  {
    states := map[];
    var i := 0;
    while i < |nics|
      invariant 0 <= i <= |nics|
      invariant forall nic :: nic in states <==> nic in nics[..i]
      invariant forall a, b :: a in states && b in states && a != b ==> states[a] != states[b]
      invariant forall nic :: nic in states ==> fresh(states[nic]) && states[nic].View() == Initial()
    {
      var s := new ParsingState<Nic>();
      states := states[nics[i] := s];
      i := i + 1;
    }
    assert nics[..i] == nics;
  }

  // ---- what the blocks are, read off the rows ----

  predicate Into<Nic>(row: LogRow<Nic>, s: WpaState) {
    row.event.change.Some? && row.event.change.value.Change? && row.event.change.value.post == s
  }

  function FirstInto<Nic>(rows: seq<LogRow<Nic>>, s: WpaState): (r: Option<nat>)
    ensures r.Some? ==> r.value < |rows| && Into(rows[r.value], s)
  {
    if rows == [] then None
    else
      var before := FirstInto(rows[..|rows| - 1], s);
      if before.None? && Into(rows[|rows| - 1], s) then Some(|rows| - 1) else before
  }

  function LastInto<Nic>(rows: seq<LogRow<Nic>>, s: WpaState): (r: Option<nat>)
    ensures r.Some? ==> r.value < |rows| && Into(rows[r.value], s)
  {
    if rows == [] then None
    else if Into(rows[|rows| - 1], s) then Some(|rows| - 1)
    else LastInto(rows[..|rows| - 1], s)
  }

  /** Where the rows since the last disconnection before row `e` begin. */
  function Start<Nic>(rows: seq<LogRow<Nic>>, e: nat): (r: nat)
    requires e <= |rows|
    ensures r <= e && (r == 0 || Into(rows[r - 1], Disconnected))
    ensures forall i :: r <= i < e ==> !Into(rows[i], Disconnected)
  {
    if e == 0 || Into(rows[e - 1], Disconnected) then e else Start(rows, e - 1)
  }

  /** The state before row `e`: the last one entered. */
  function StateBefore<Nic>(rows: seq<LogRow<Nic>>, e: nat): WpaState
    requires e <= |rows|
  {
    if e == 0 then Disconnected
    else if rows[e - 1].event.change.Some? && rows[e - 1].event.change.value.Change? then rows[e - 1].event.change.value.post
    else StateBefore(rows, e - 1)
  }

  /** A state change at row `i` is a known one that leaves the state before it. */
  predicate Follows<Nic>(rows: seq<LogRow<Nic>>, i: nat)
    requires i < |rows|
  {
    var change := rows[i].event.change;
    change.Some? ==> change.value.Change? && change.value.pre == StateBefore(rows, i)
  }

  ghost predicate Chained<Nic>(rows: seq<LogRow<Nic>>) {
    forall i :: 0 <= i < |rows| ==> Follows(rows, i)
  }

  /** The last attempt to authenticate is not the first row, and the row before it names the access point. */
  predicate Names<Nic>(seg: seq<LogRow<Nic>>) {
    var a := LastInto(seg, Authenticating);
    Truthy(a) && seg[a.value - 1].event.sme
  }

  /** When a row of the block happened; a first row counts as none. */
  function TimeOf<Nic>(seg: seq<LogRow<Nic>>, i: Option<nat>): Option<real>
    requires i.Some? ==> i.value < |seg|
  {
    match i
    case None => None
    case Some(k) => if k > 0 then Some(seg[k].ts) else None
  }

  /** The timestamps of the rows of one block, the disconnection last. */
  function BlockOf<Nic>(seg: seq<LogRow<Nic>>): Block
    requires seg != [] && Names(seg)
  {
    var done := FirstInto(seg, Completed);
    Block(seg[LastInto(seg, Authenticating).value].ts,
          TimeOf(seg, LastInto(seg, Associating)), TimeOf(seg, LastInto(seg, Associating)),
          TimeOf(seg, LastInto(seg, Associated)), TimeOf(seg, LastInto(seg, Associated)),
          TimeOf(seg, done), TimeOf(seg, done),
          if done.Some? then Some(seg[|seg| - 1].ts) else None)
  }

  /** The rows of the block that row `e` ends. */
  function Segment<Nic>(rows: seq<LogRow<Nic>>, e: nat): (seg: seq<LogRow<Nic>>)
    requires e < |rows|
    ensures seg != []
  {
    rows[Start(rows, e)..e + 1]
  }

  /** Row `e` ends rows which name an access point. */
  predicate Keeps<Nic>(rows: seq<LogRow<Nic>>, e: nat)
    requires e < |rows|
  {
    Into(rows[e], Disconnected) && Names(Segment(rows, e))
  }

  /** One block for every disconnection that keeps one. */
  function BlocksOf<Nic>(rows: seq<LogRow<Nic>>, n: nat): seq<Block>
    requires n <= |rows|
  {
    if n == 0 then []
    else if Keeps(rows, n - 1) then BlocksOf(rows, n - 1) + [BlockOf(Segment(rows, n - 1))]
    else BlocksOf(rows, n - 1)
  }

  // ---- the parser finds them ----

  function MarksOf<Nic>(blk: seq<LogRow<Nic>>): Marks {
    Marks(LastInto(blk, Authenticating), LastInto(blk, Associating), LastInto(blk, Associating),
          LastInto(blk, Associated), LastInto(blk, Associated),
          FirstInto(blk, Completed), FirstInto(blk, Completed), None)
  }

  /** What the parser's fields hold after the first `n` rows. */
  ghost predicate At<Nic>(rows: seq<LogRow<Nic>>, n: nat, p: Parsing<Nic>) {
    n <= |rows| && p.state == StateBefore(rows, n) && p.blk == rows[Start(rows, n)..n] &&
    p.completed == FirstInto(p.blk, Completed).Some? && p.marks == MarksOf(p.blk) && p.blocks == BlocksOf(rows, n)
  }

  lemma {:induction false} LastIntoNext<Nic>(blk: seq<LogRow<Nic>>, row: LogRow<Nic>, s: WpaState)
    ensures LastInto(blk + [row], s) == if Into(row, s) then Some(|blk|) else LastInto(blk, s)
  {
    assert (blk + [row])[..|blk|] == blk;
  }

  lemma {:induction false} FirstIntoNext<Nic>(blk: seq<LogRow<Nic>>, row: LogRow<Nic>, s: WpaState)
    ensures FirstInto(blk + [row], s) ==
            if FirstInto(blk, s).None? && Into(row, s) then Some(|blk|) else FirstInto(blk, s)
  {
    assert (blk + [row])[..|blk|] == blk;
  }

  lemma {:induction false} MarkIsMarksOf<Nic>(blk: seq<LogRow<Nic>>, row: LogRow<Nic>)
    requires row.event.change.Some? ==> row.event.change.value.Change?
    ensures MarksOf(blk + [row]) ==
            if row.event.change.None? then MarksOf(blk)
            else Mark(MarksOf(blk), row.event.change.value.post, FirstInto(blk, Completed).Some?, |blk|)
    ensures FirstInto(blk + [row], Completed).Some? <==> FirstInto(blk, Completed).Some? || Into(row, Completed)
  {
    LastIntoNext(blk, row, Authenticating);
    LastIntoNext(blk, row, Associating);
    LastIntoNext(blk, row, Associated);
    FirstIntoNext(blk, row, Completed);
    assert (blk + [row])[|blk|] == row;
  }

  lemma {:induction false} CloseIsBlockOf<Nic>(q: Parsing<Nic>)
    requires Indexed(q) && q.blk != [] && q.marks == MarksOf(q.blk) && q.completed == FirstInto(q.blk, Completed).Some?
    ensures Close(q).blocks == if Names(q.blk) then q.blocks + [BlockOf(q.blk)] else q.blocks
  {
    if q.completed {
      var done := FirstInto(q.blk, Completed);
      assert Names(q.blk) ==> |q.blk| > 1;
    }
  }

  lemma {:induction false} CloseAt<Nic>(rows: seq<LogRow<Nic>>, n: nat, p: Parsing<Nic>)
    requires n < |rows| && At(rows, n, p) && Indexed(p) && Into(rows[n], Disconnected)
    ensures At(rows, n + 1, Close(Extend(p, rows[n])))
  {
    var row := rows[n];
    MarkIsMarksOf(p.blk, row);
    assert Segment(rows, n) == p.blk + [row];
    CloseIsBlockOf(Extend(p, row));
    assert rows[n + 1..n + 1] == [];
  }

  lemma {:induction false} OpenAt<Nic>(rows: seq<LogRow<Nic>>, n: nat, p: Parsing<Nic>)
    requires n < |rows| && At(rows, n, p) && Indexed(p) && !Into(rows[n], Disconnected)
    requires var change := rows[n].event.change; change.Some? ==> change.value.Change?
    ensures var change := rows[n].event.change;
            At(rows, n + 1, if change.None? then Extend(p, rows[n]) else Enter(p, rows[n], change.value.post))
  {
    MarkIsMarksOf(p.blk, rows[n]);
    assert rows[Start(rows, n)..n + 1] == p.blk + [rows[n]];
  }

  lemma {:induction false} StepAt<Nic>(rows: seq<LogRow<Nic>>, n: nat, p: Parsing<Nic>)
    requires n < |rows| && At(rows, n, p) && Indexed(p)
    ensures Step(p, rows[n]).Done? <==> Follows(rows, n)
    ensures Step(p, rows[n]).Done? ==> At(rows, n + 1, Step(p, rows[n]).value)
  {
    if Step(p, rows[n]).Done? {
      if Into(rows[n], Disconnected) {
        CloseAt(rows, n, p);
      } else {
        OpenAt(rows, n, p);
      }
    }
  }

  lemma {:induction false} PrefixState<Nic>(rows: seq<LogRow<Nic>>, m: nat, n: nat)
    requires n <= m <= |rows|
    ensures StateBefore(rows[..m], n) == StateBefore(rows, n) && Start(rows[..m], n) == Start(rows, n)
  {
    if n > 0 {
      PrefixState(rows, m, n - 1);
    }
  }

  lemma {:induction false} PrefixSegment<Nic>(rows: seq<LogRow<Nic>>, m: nat, e: nat)
    requires e < m <= |rows|
    ensures Segment(rows[..m], e) == Segment(rows, e)
  {
    PrefixState(rows, m, e);
    SliceOfPrefix(rows, m, Start(rows, e), e + 1);
  }

  lemma {:induction false} PrefixBlocks<Nic>(rows: seq<LogRow<Nic>>, m: nat, n: nat)
    requires n <= m <= |rows|
    ensures BlocksOf(rows[..m], n) == BlocksOf(rows, n)
  {
    if n > 0 {
      PrefixBlocks(rows, m, n - 1);
      PrefixSegment(rows, m, n - 1);
      assert rows[..m][n - 1] == rows[n - 1];
    }
  }

  lemma {:induction false} PrefixAt<Nic>(rows: seq<LogRow<Nic>>, n: nat, p: Parsing<Nic>)
    requires n <= |rows| && At(rows[..n], n, p)
    ensures At(rows, n, p)
  {
    PrefixState(rows, n, n);
    PrefixBlocks(rows, n, n);
    assert rows[..n][Start(rows, n)..n] == rows[Start(rows, n)..n];
  }

  lemma {:induction false} ChainedStep<Nic>(rows: seq<LogRow<Nic>>)
    requires rows != []
    ensures Chained(rows) <==> Chained(rows[..|rows| - 1]) && Follows(rows, |rows| - 1)
  {
    var n := |rows| - 1;
    forall i | 0 <= i < n ensures Follows(rows[..n], i) == Follows(rows, i) {
      PrefixState(rows, n, i);
    }
    assert Chained(rows[..n]) ==> forall i :: 0 <= i < n ==> Follows(rows[..n], i);
    assert Chained(rows) ==> forall i :: 0 <= i < n ==> Follows(rows, i);
  }

  /**
   The parser of one interface against the reading of its rows: it completes exactly when the
   state changes chain up, and gives one block per disconnection of a named attempt.
   */
  lemma {:induction false} ParseIsBlocks<Nic>(rows: seq<LogRow<Nic>>)
    ensures ParseOne(rows).Done? <==> Chained(rows)
    ensures ParseOne(rows).Done? ==> At(rows, |rows|, ParseOne(rows).value)
    ensures ParseOne(rows).Done? ==> ParseOne(rows).value.blocks == BlocksOf(rows, |rows|)
  {
    if rows != [] {
      var n := |rows| - 1;
      ParseIsBlocks(rows[..n]);
      ChainedStep(rows);
      if ParseOne(rows[..n]).Done? {
        var p := ParseOne(rows[..n]).value;
        PrefixAt(rows, n, p);
        StepAt(rows, n, p);
      }
    }
  }

  // ---- order in time ----

  predicate Holds(b: Block, t: real) {
    t == b.authS || Some(t) == b.authE || Some(t) == b.assocS || Some(t) == b.assocE ||
    Some(t) == b.hsS || Some(t) == b.hsE || Some(t) == b.connS || Some(t) == b.connE
  }

  /** Every timestamp of a block is that of one of its rows, none later than its last. */
  lemma {:induction false} StampsAreRows<Nic>(seg: seq<LogRow<Nic>>, t: real) returns (k: nat)
    requires seg != [] && Names(seg) && Holds(BlockOf(seg), t)
    ensures k < |seg| && seg[k].ts == t
  {
    var b := BlockOf(seg);
    k := if t == b.authS then LastInto(seg, Authenticating).value
         else if Some(t) == b.authE then LastInto(seg, Associating).value
         else if Some(t) == b.assocE then LastInto(seg, Associated).value
         else if Some(t) == b.hsE then FirstInto(seg, Completed).value
         else |seg| - 1;
  }

  /** The row that ended block `k`. */
  lemma {:induction false} EndOf<Nic>(rows: seq<LogRow<Nic>>, n: nat, k: nat) returns (e: nat)
    requires n <= |rows| && k < |BlocksOf(rows, n)|
    ensures e < n && Keeps(rows, e)
    ensures k == |BlocksOf(rows, e)| && BlocksOf(rows, n)[k] == BlockOf(Segment(rows, e))
  {
    if k < |BlocksOf(rows, n - 1)| {
      e := EndOf(rows, n - 1, k);
    } else {
      e := n - 1;
    }
  }

  lemma {:induction false} BlocksGrow<Nic>(rows: seq<LogRow<Nic>>, m: nat, n: nat)
    requires m <= n <= |rows|
    ensures |BlocksOf(rows, m)| <= |BlocksOf(rows, n)|
  {
    if m < n {
      BlocksGrow(rows, m, n - 1);
    }
  }

  lemma {:induction false} StartAfter<Nic>(rows: seq<LogRow<Nic>>, d: nat, e: nat)
    requires d < e <= |rows| && Into(rows[d], Disconnected)
    ensures Start(rows, e) > d
  {
    if d < e - 1 && !Into(rows[e - 1], Disconnected) {
      StartAfter(rows, d, e - 1);
    }
  }

  lemma {:induction false} EndsInOrder<Nic>(rows: seq<LogRow<Nic>>, n: nat, i: nat, j: nat, d: nat, e: nat)
    requires n <= |rows| && d < n && e < n && i < j && i == |BlocksOf(rows, d)| && j == |BlocksOf(rows, e)|
    ensures d < e
  {
    if e < d {
      BlocksGrow(rows, e, d);
    }
  }

  lemma {:induction false} StampAt<Nic>(rows: seq<LogRow<Nic>>, e: nat, t: real) returns (k: nat)
    requires e < |rows| && Keeps(rows, e) && Holds(BlockOf(Segment(rows, e)), t)
    ensures Start(rows, e) <= k <= e && rows[k].ts == t
  {
    k := StampsAreRows(Segment(rows, e), t);
    k := k + Start(rows, e);
  }

  lemma {:induction false} SegmentsInOrder<Nic>(rows: seq<LogRow<Nic>>, i: nat, j: nat, t: real, u: real)
    requires Nondecreasing(rows) && i < j < |BlocksOf(rows, |rows|)|
    requires Holds(BlocksOf(rows, |rows|)[i], t) && Holds(BlocksOf(rows, |rows|)[j], u)
    ensures t <= u
  {
    var d := EndOf(rows, |rows|, i);
    var e := EndOf(rows, |rows|, j);
    EndsInOrder(rows, |rows|, i, j, d, e);
    StartAfter(rows, d, e);
    var k := StampAt(rows, d, t);
    var l := StampAt(rows, e, u);
    assert k < l;
  }

  lemma {:induction false} EndIsLast<Nic>(seg: seq<LogRow<Nic>>, t: real)
    requires seg != [] && Names(seg) && Nondecreasing(seg) && Holds(BlockOf(seg), t) && BlockOf(seg).connE.Some?
    ensures t <= BlockOf(seg).connE.value
  {
    var k := StampsAreRows(seg, t);
    assert seg[k].ts <= seg[|seg| - 1].ts;
  }

  lemma {:induction false} SegmentEndsLast<Nic>(rows: seq<LogRow<Nic>>, i: nat, t: real)
    requires Nondecreasing(rows) && i < |BlocksOf(rows, |rows|)|
    requires BlocksOf(rows, |rows|)[i].connE.Some? && Holds(BlocksOf(rows, |rows|)[i], t)
    ensures t <= BlocksOf(rows, |rows|)[i].connE.value
  {
    var e := EndOf(rows, |rows|, i);
    EndIsLast(Segment(rows, e), t);
  }

  /** With times that never go back, a connection ends at the last timestamp of its block. */
  lemma {:induction false} ConnectionEndsLast<Nic>(rows: seq<LogRow<Nic>>, i: nat, t: real)
    requires Nondecreasing(rows) && ParseOne(rows).Done? && i < |ParseOne(rows).value.blocks|
    requires ParseOne(rows).value.blocks[i].connE.Some? && Holds(ParseOne(rows).value.blocks[i], t)
    ensures t <= ParseOne(rows).value.blocks[i].connE.value
  {
    assert ParseOne(rows).value.blocks == BlocksOf(rows, |rows|) by { ParseIsBlocks(rows); }
    SegmentEndsLast(rows, i, t);
  }

  /** And every timestamp of a block is at most every one of a later block. */
  lemma {:induction false} BlocksInOrder<Nic>(rows: seq<LogRow<Nic>>, i: nat, j: nat, t: real, u: real)
    requires Nondecreasing(rows) && ParseOne(rows).Done? && i < j < |ParseOne(rows).value.blocks|
    requires Holds(ParseOne(rows).value.blocks[i], t) && Holds(ParseOne(rows).value.blocks[j], u)
    ensures t <= u
  {
    assert ParseOne(rows).value.blocks == BlocksOf(rows, |rows|) by { ParseIsBlocks(rows); }
    SegmentsInOrder(rows, i, j, t, u);
  }

  // ---- a connection that ends without having started ----

  /** A completed block whose connection has an end and no start. */
  predicate Headless(b: Block) {
    b.connE.Some? && b.connS.None?
  }

  /** Row `s` begins a block and completes the connection, and the block that ends at row `e` is kept. */
  ghost predicate CompletesFirst<Nic>(rows: seq<LogRow<Nic>>, s: nat, e: nat) {
    s < e < |rows| && Into(rows[s], Completed) && Keeps(rows, e) && s == Start(rows, e)
  }

  lemma {:induction false} FirstIntoZero<Nic>(rows: seq<LogRow<Nic>>, s: WpaState)
    requires rows != []
    ensures FirstInto(rows, s) == Some(0) <==> Into(rows[0], s)
  {
    if |rows| > 1 {
      FirstIntoZero(rows[..|rows| - 1], s);
    }
  }

  lemma {:induction false} HeadlessIff<Nic>(seg: seq<LogRow<Nic>>)
    requires seg != [] && Names(seg)
    ensures Headless(BlockOf(seg)) <==> Into(seg[0], Completed)
  {
    FirstIntoZero(seg, Completed);
  }

  lemma {:induction false} BlockAt<Nic>(rows: seq<LogRow<Nic>>, n: nat, e: nat)
    requires e < n <= |rows| && Keeps(rows, e)
    ensures BlockOf(Segment(rows, e)) in BlocksOf(rows, n)
  {
    if e < n - 1 {
      BlockAt(rows, n - 1, e);
    }
  }

  lemma {:induction false} HeadlessAt<Nic>(rows: seq<LogRow<Nic>>, k: nat) returns (e: nat)
    requires k < |BlocksOf(rows, |rows|)| && Headless(BlocksOf(rows, |rows|)[k])
    ensures e < |rows| && CompletesFirst(rows, Start(rows, e), e)
  {
    e := EndOf(rows, |rows|, k);
    HeadlessIff(Segment(rows, e));
  }

  /** A block ends up headless exactly when its first row is the one that completes the connection. */
  lemma {:induction false} SomeHeadlessIff<Nic>(rows: seq<LogRow<Nic>>)
    requires ParseOne(rows).Done?
    ensures (exists b :: b in ParseOne(rows).value.blocks && Headless(b)) <==>
            exists s: nat, e: nat :: CompletesFirst(rows, s, e)
  {
    ParseIsBlocks(rows);
    var blocks := BlocksOf(rows, |rows|);
    if b :| b in blocks && Headless(b) {
      var k :| 0 <= k < |blocks| && blocks[k] == b;
      var e := HeadlessAt(rows, k);
    }
    if s: nat, e: nat :| CompletesFirst(rows, s, e) {
      BlockAt(rows, |rows|, e);
      HeadlessIff(Segment(rows, e));
    }
  }

  /** Such a log: the interface completes at once, then retries and disconnects. */
  lemma {:induction false} HeadlessExample<Nic>(nic: Nic)
    ensures
      var rows := [Row(nic, 1.0, Line(Some(Change(Disconnected, Completed)), false)), Row(nic, 2.0, Line(None, true)),
                   Row(nic, 3.0, Line(Some(Change(Completed, Authenticating)), false)),
                   Row(nic, 4.0, Line(Some(Change(Authenticating, Disconnected)), false))];
      ParseOne(rows).Done? && exists b :: b in ParseOne(rows).value.blocks && Headless(b)
  {
    var r0 := Row(nic, 1.0, Line(Some(Change(Disconnected, Completed)), false));
    var r1 := Row(nic, 2.0, Line(None, true));
    var r2 := Row(nic, 3.0, Line(Some(Change(Completed, Authenticating)), false));
    var r3 := Row(nic, 4.0, Line(Some(Change(Authenticating, Disconnected)), false));
    var rows := [r0, r1, r2, r3];
    assert ParseOne(rows).Done? by {
      assert StateBefore(rows, 3) == Authenticating;
      assert StateBefore(rows, 2) == StateBefore(rows, 1) == Completed;
      ParseIsBlocks(rows);
    }
    assert Start(rows, 3) == Start(rows, 2) == Start(rows, 1) == Start(rows, 0) == 0;
    assert Names(Segment(rows, 3)) by {
      assert Segment(rows, 3) == rows == [r0, r1, r2] + [r3] && [r0, r1, r2][..3] == [r0, r1, r2];
      LastIntoNext([r0, r1, r2], r3, Authenticating);
    }
    assert CompletesFirst(rows, 0, 3);
    SomeHeadlessIff(rows);
  }
}
