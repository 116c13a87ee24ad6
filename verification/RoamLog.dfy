/**
 `RMParser.parse` of `server_tools/analyzer/lib/roamingd.py`: the DHCP records of each interface
 out of the interleaved roaming log. A row arrives already matched against the regular expressions.
 */
module RoamLog {
  import opened Sequences
  import opened LogRows

  datatype Lease = Lease(ip: string, prefix: string, gateway: string)

  datatype Event = Acquire | Address(lease: Lease) | Lost | Server(ip: string) | Dns(ip: string) | Other

  type LogRow<Nic> = Row<Nic, Event>

  datatype RoamState = GainedCarrier | GetIp | LostCarrier

  /** The dictionary under way: `None` for a missing key. */
  datatype Partial = Partial(
    dhcpS: Option<real>, dhcpE: Option<real>, ipS: Option<real>, lease: Option<Lease>,
    server: Option<string>, dns: Option<seq<string>>)

  datatype Record = Record(
    dhcpS: real, dhcpE: Option<real>, ipS: Option<real>, ipE: real, lease: Option<Lease>,
    server: Option<string>, dns: Option<seq<string>>)

  datatype Parsing = Parsing(state: RoamState, blk: Partial, records: seq<Record>)

  const EMPTY := Partial(None, None, None, None, None, None)

  const INITIAL := Parsing(LostCarrier, EMPTY, [])

  /** One row of the interface; a record without the time of its acquisition cannot be built. */
  function Step<Nic>(p: Parsing, row: LogRow<Nic>): Outcome<Parsing> {
    match row.event
    case Acquire =>
      if p.state != LostCarrier then Raised(AssertionError)
      else Done(p.(state := GainedCarrier, blk := p.blk.(dhcpS := Some(row.ts))))
    case Address(lease) =>
      if p.state != GainedCarrier then Raised(AssertionError)
      else Done(p.(state := GetIp, blk := p.blk.(dhcpE := Some(row.ts), ipS := Some(row.ts), lease := Some(lease))))
    case Lost =>
      if p.blk.dhcpS.None? then Raised(TypeError)
      else
        var b := if p.state != GetIp then p.blk.(dhcpE := None, ipS := None, lease := None) else p.blk;
        Done(Parsing(LostCarrier, EMPTY,
                     p.records + [Record(b.dhcpS.value, b.dhcpE, b.ipS, row.ts, b.lease, b.server, b.dns)]))
    case Server(ip) => Done(p.(blk := p.blk.(server := Some(ip))))
    case Dns(ip) =>
      Done(p.(blk := p.blk.(dns := Some(if p.blk.dns.Some? then p.blk.dns.value + [ip] else [ip]))))
    case Other => Done(p)
  }

  function ParseOne<Nic>(rows: seq<LogRow<Nic>>): Outcome<Parsing> {
    if rows == [] then Done(INITIAL)
    else match ParseOne(rows[..|rows| - 1])
      case Raised(error) => Raised(error)
      case Done(p) => Step(p, rows[|rows| - 1])
  }

  // ---- the parser ----

  class IntfResult<Nic> {
    var state: RoamState
    var blk: Partial
    var records: seq<Record>

    function View(): Parsing
      reads this
    {
      Parsing(state, blk, records)
    }

    constructor ()
      ensures View() == INITIAL
    {
      state, blk, records := LostCarrier, EMPTY, [];
    }

    /** The body of the row loop. */
    method Feed(row: LogRow<Nic>) returns (failed: Option<Exception>)
      modifies this
      ensures Step(old(View()), row) == if failed.None? then Done(View()) else Raised(failed.value)
    {
      match row.event {
        case Acquire =>
          if state != LostCarrier {
            return Some(AssertionError);
          }
          state := GainedCarrier;
          blk := blk.(dhcpS := Some(row.ts));
        case Address(lease) =>
          if state != GainedCarrier {
            return Some(AssertionError);
          }
          state := GetIp;
          blk := blk.(dhcpE := Some(row.ts), ipS := Some(row.ts), lease := Some(lease));
        case Lost =>
          if state != GetIp {
            blk := blk.(dhcpE := None, ipS := None, lease := None);
          }
          if blk.dhcpS.None? {
            return Some(TypeError);
          }
          records := records +
            [Record(blk.dhcpS.value, blk.dhcpE, blk.ipS, row.ts, blk.lease, blk.server, blk.dns)];
          blk := EMPTY;
          state := LostCarrier;
        case Server(ip) =>
          blk := blk.(server := Some(ip));
        case Dns(ip) =>
          if blk.dns.Some? {
            blk := blk.(dns := Some(blk.dns.value + [ip]));
          } else {
            blk := blk.(dns := Some([ip]));
          }
        case Other =>
      }
      return None;
    }
  }

  lemma {:induction false} RaisedStays<Nic>(rows: seq<LogRow<Nic>>, i: nat)
    requires i <= |rows| && ParseOne(rows[..i]).Raised?
    ensures ParseOne(rows) == ParseOne(rows[..i])
  {
    if i == |rows| {
      assert rows[..i] == rows;
    } else {
      assert rows[..|rows| - 1][..i] == rows[..i];
      RaisedStays(rows[..|rows| - 1], i);
    }
  }

  /** A row moves on the parse of its own interface and no other. */
  lemma {:induction false} ParseNext<Nic>(rows: seq<LogRow<Nic>>, i: nat, nic: Nic)
    requires i < |rows| && ParseOne(RowsOf(rows[..i], nic)).Done?
    ensures ParseOne(RowsOf(rows[..i + 1], nic)) ==
            if rows[i].nic == nic then Step(ParseOne(RowsOf(rows[..i], nic)).value, rows[i])
            else ParseOne(RowsOf(rows[..i], nic))
  {
    RowAdds(rows, i, nic);
    var mine := RowsOf(rows[..i + 1], nic);
    if rows[i].nic == nic {
      assert mine[..|mine| - 1] == RowsOf(rows[..i], nic);
    }
  }

  lemma {:induction false} RowFails<Nic>(rows: seq<LogRow<Nic>>, i: nat)
    requires i < |rows| && ParseOne(RowsOf(rows[..i], rows[i].nic)).Done?
    requires Step(ParseOne(RowsOf(rows[..i], rows[i].nic)).value, rows[i]).Raised?
    ensures ParseOne(RowsOf(rows, rows[i].nic)) == Raised(Step(ParseOne(RowsOf(rows[..i], rows[i].nic)).value, rows[i]).error)
  {
    var nic := rows[i].nic;
    ParseNext(rows, i, nic);
    RowsOfPrefix(rows, nic, i + 1);
    RaisedStays(RowsOf(rows, nic), |RowsOf(rows[..i + 1], nic)|);
  }

  /**
   The interleaved log: parsing completes exactly when each interface's rows parse on their own,
   and then each interface's records are those of its own rows.
   */
  method Parse<Nic(==)>(rows: seq<LogRow<Nic>>, nics: seq<Nic>) returns (r: Outcome<map<Nic, seq<Record>>>)
    ensures r.Done? <==> forall nic :: nic in nics ==> ParseOne(RowsOf(rows, nic)).Done?
    ensures r.Raised? ==> exists nic :: nic in nics && ParseOne(RowsOf(rows, nic)) == Raised(r.error)
    ensures r.Done? ==> forall nic :: nic in r.value <==> nic in nics
    ensures r.Done? ==> forall nic :: nic in nics ==> r.value[nic] == ParseOne(RowsOf(rows, nic)).value.records
  {
    var results := NewResults(nics);
    var i := 0;
    while i < |rows|
      invariant 0 <= i <= |rows|
      invariant forall nic :: nic in results ==> ParseOne(RowsOf(rows[..i], nic)) == Done(results[nic].View())
    {
      var row := rows[i];
      forall nic | nic in results { ParseNext(rows, i, nic); }
      if row.nic in results {
        var result := results[row.nic];
        var failed := result.Feed(row);
        if failed.Some? {
          RowFails(rows, i);
          assert row.nic in nics && ParseOne(RowsOf(rows, row.nic)) == Raised(failed.value);
          return Raised(failed.value);
        }
      }
      i := i + 1;
    }
    assert rows[..i] == rows;
    r := Done(map nic | nic in results :: results[nic].records);
  }

  /** One result under way per interface. */
  method NewResults<Nic(==)>(nics: seq<Nic>) returns (results: map<Nic, IntfResult<Nic>>)
    ensures forall nic :: nic in results <==> nic in nics
    ensures forall a, b :: a in results && b in results && a != b ==> results[a] != results[b]
    ensures forall nic :: nic in results ==> fresh(results[nic]) && results[nic].View() == INITIAL
  {
    results := map[];
    var i := 0;
    while i < |nics|
      invariant 0 <= i <= |nics|
      invariant forall nic :: nic in results <==> nic in nics[..i]
      invariant forall a, b :: a in results && b in results && a != b ==> results[a] != results[b]
      invariant forall nic :: nic in results ==> fresh(results[nic]) && results[nic].View() == INITIAL
    {
      var result := new IntfResult<Nic>();
      results := results[nics[i] := result];
      i := i + 1;
    }
    assert nics[..i] == nics;
  }

  // ---- which logs parse ----

  /** A carrier event: acquisition, address, loss. */
  datatype Letter = A | D | L

  function LettersOf(event: Event): seq<Letter> {
    match event
    case Acquire => [A]
    case Address(_) => [D]
    case Lost => [L]
    case _ => []
  }

  function Carrier<Nic>(rows: seq<LogRow<Nic>>): seq<Letter> {
    if rows == [] then [] else Carrier(rows[..|rows| - 1]) + LettersOf(rows[|rows| - 1].event)
  }

  /** One whole connection, with or without an address. */
  function Connection(got: bool): seq<Letter> {
    if got then [A, D, L] else [A, L]
  }

  function Connections(gots: seq<bool>): seq<Letter> {
    if gots == [] then [] else Connections(gots[..|gots| - 1]) + Connection(gots[|gots| - 1])
  }

  /** A prefix of (A D? L)*. */
  ghost predicate WellShaped(w: seq<Letter>) {
    exists gots: seq<bool> :: w <= Connections(gots)
  }

  function Next(state: RoamState, c: Letter): Option<RoamState> {
    match (state, c)
    case (LostCarrier, A) => Some(GainedCarrier)
    case (GainedCarrier, D) => Some(GetIp)
    case (GainedCarrier, L) => Some(LostCarrier)
    case (GetIp, L) => Some(LostCarrier)
    case _ => None
  }

  /** The state after a word, if it can be read at all. */
  function After(w: seq<Letter>): Option<RoamState> {
    if w == [] then Some(LostCarrier)
    else match After(w[..|w| - 1])
      case None => None
      case Some(state) => Next(state, w[|w| - 1])
  }

  lemma {:induction false} AfterNext(w: seq<Letter>, c: Letter)
    ensures After(w + [c]) == match After(w) case None => None case Some(state) => Next(state, c)
  {
    assert (w + [c])[..|w|] == w;
  }

  lemma {:induction false} AfterPrefix(w: seq<Letter>, n: nat)
    requires n <= |w| && After(w).Some?
    ensures After(w[..n]).Some?
  {
    if n == |w| {
      assert w[..n] == w;
    } else {
      assert w[..|w| - 1][..n] == w[..n];
      AfterPrefix(w[..|w| - 1], n);
    }
  }

  lemma {:induction false} AfterConnections(gots: seq<bool>)
    ensures After(Connections(gots)) == Some(LostCarrier)
  {
    if gots != [] {
      var front, w := gots[..|gots| - 1], Connections(gots[..|gots| - 1]);
      AfterConnections(front);
      AfterNext(w, A);
      if gots[|gots| - 1] {
        AfterNext(w + [A], D);
        AfterNext(w + [A] + [D], L);
        assert Connections(gots) == w + [A] + [D] + [L];
      } else {
        AfterNext(w + [A], L);
        assert Connections(gots) == w + [A] + [L];
      }
    }
  }

  /** What is left of the connection under way. */
  function Tail(state: RoamState): seq<Letter> {
    match state
    case LostCarrier => []
    case GainedCarrier => [A]
    case GetIp => [A, D]
  }

  lemma {:induction false} ConnectionsNext(gots: seq<bool>, got: bool)
    ensures Connections(gots + [got]) == Connections(gots) + Connection(got)
  {
    assert (gots + [got])[..|gots|] == gots;
  }

  lemma {:induction false} TailNext(state: RoamState, c: Letter)
    requires Next(state, c).Some?
    ensures if c == L then Tail(state) + [c] == Connection(state == GetIp) && Next(state, c).value == LostCarrier
            else Tail(state) + [c] == Tail(Next(state, c).value)
  {
  }

  lemma {:induction false} ReadableIsConnections(w: seq<Letter>) returns (gots: seq<bool>)
    requires After(w).Some?
    ensures w == Connections(gots) + Tail(After(w).value)
  {
    if w == [] {
      return [];
    }
    var front, c := w[..|w| - 1], w[|w| - 1];
    var state := After(front).value;
    gots := ReadableIsConnections(front);
    SplitLast(w);
    Assoc(Connections(gots), Tail(state), [c]);
    TailNext(state, c);
    if c == L {
      ConnectionsNext(gots, state == GetIp);
      gots := gots + [state == GetIp];
    }
  }

  /** The words that can be read are the prefixes of (A D? L)*. */
  lemma {:induction false} ReadableIff(w: seq<Letter>)
    ensures After(w).Some? <==> WellShaped(w)
  {
    if After(w).Some? {
      var gots := ReadableIsConnections(w);
      var got := After(w).value == GetIp;
      ConnectionsNext(gots, got);
      assert w <= Connections(gots + [got]);
    }
    if gots: seq<bool> :| w <= Connections(gots) {
      AfterConnections(gots);
      AfterPrefix(Connections(gots), |w|);
      assert Connections(gots)[..|w|] == w;
    }
  }

  // ---- what the records are, read off the rows ----

  datatype Kind = Acquisition | Addressing | Serving

  predicate Is(event: Event, kind: Kind) {
    match kind
    case Acquisition => event.Acquire?
    case Addressing => event.Address?
    case Serving => event.Server?
  }

  function LastOf<Nic>(rows: seq<LogRow<Nic>>, kind: Kind): (r: Option<nat>)
    ensures r.Some? ==> r.value < |rows| && Is(rows[r.value].event, kind)
  {
    if rows == [] then None
    else if Is(rows[|rows| - 1].event, kind) then Some(|rows| - 1)
    else LastOf(rows[..|rows| - 1], kind)
  }

  function NamesOf<Nic>(rows: seq<LogRow<Nic>>): seq<string> {
    if rows == [] then []
    else
      var before := NamesOf(rows[..|rows| - 1]);
      if rows[|rows| - 1].event.Dns? then before + [rows[|rows| - 1].event.ip] else before
  }

  /** Where the rows since the last loss before row `e` begin. */
  function Start<Nic>(rows: seq<LogRow<Nic>>, e: nat): (r: nat)
    requires e <= |rows|
    ensures r <= e && (r == 0 || rows[r - 1].event.Lost?)
  {
    if e == 0 || rows[e - 1].event.Lost? then e else Start(rows, e - 1)
  }

  function Since<Nic>(rows: seq<LogRow<Nic>>, e: nat): seq<LogRow<Nic>>
    requires e <= |rows|
  {
    rows[Start(rows, e)..e]
  }

  /** The record of the rows between two losses, `end` being the time of the second. */
  function RecordOf<Nic>(seg: seq<LogRow<Nic>>, end: real): Record
    requires LastOf(seg, Acquisition).Some?
  {
    var address, server := LastOf(seg, Addressing), LastOf(seg, Serving);
    var at := if address.Some? then Some(seg[address.value].ts) else None;
    Record(seg[LastOf(seg, Acquisition).value].ts, at, at, end,
           if address.Some? then Some(seg[address.value].event.lease) else None,
           if server.Some? then Some(seg[server.value].event.ip) else None,
           if NamesOf(seg) == [] then None else Some(NamesOf(seg)))
  }

  /** One record for every loss after an acquisition. */
  function RecordsOf<Nic>(rows: seq<LogRow<Nic>>, n: nat): seq<Record>
    requires n <= |rows|
  {
    if n == 0 then []
    else
      var seg := Since(rows, n - 1);
      if rows[n - 1].event.Lost? && LastOf(seg, Acquisition).Some?
      then RecordsOf(rows, n - 1) + [RecordOf(seg, rows[n - 1].ts)]
      else RecordsOf(rows, n - 1)
  }

  // ---- the parser finds them ----

  function PartialOf<Nic>(seg: seq<LogRow<Nic>>): Partial {
    var acquired, address, server := LastOf(seg, Acquisition), LastOf(seg, Addressing), LastOf(seg, Serving);
    var at := if address.Some? then Some(seg[address.value].ts) else None;
    Partial(if acquired.Some? then Some(seg[acquired.value].ts) else None, at, at,
            if address.Some? then Some(seg[address.value].event.lease) else None,
            if server.Some? then Some(seg[server.value].event.ip) else None,
            if NamesOf(seg) == [] then None else Some(NamesOf(seg)))
  }

  /** The state follows from the rows since the last loss. */
  predicate Phase<Nic>(seg: seq<LogRow<Nic>>, state: RoamState) {
    var acquired, address := LastOf(seg, Acquisition), LastOf(seg, Addressing);
    match state
    case LostCarrier => acquired.None? && address.None?
    case GainedCarrier => acquired.Some? && address.None?
    case GetIp => acquired.Some? && address.Some? && acquired.value < address.value
  }

  ghost predicate At<Nic>(rows: seq<LogRow<Nic>>, n: nat, p: Parsing) {
    n <= |rows| && After(Carrier(rows[..n])) == Some(p.state) && Phase(Since(rows, n), p.state) &&
    p.blk == PartialOf(Since(rows, n)) && p.records == RecordsOf(rows, n)
  }

  lemma {:induction false} LastOfNext<Nic>(seg: seq<LogRow<Nic>>, row: LogRow<Nic>, kind: Kind)
    ensures LastOf(seg + [row], kind) == if Is(row.event, kind) then Some(|seg|) else LastOf(seg, kind)
  {
    assert (seg + [row])[..|seg|] == seg;
  }

  lemma {:induction false} NamesOfNext<Nic>(seg: seq<LogRow<Nic>>, row: LogRow<Nic>)
    ensures NamesOf(seg + [row]) == if row.event.Dns? then NamesOf(seg) + [row.event.ip] else NamesOf(seg)
  {
    assert (seg + [row])[..|seg|] == seg;
  }

  lemma {:induction false} PartialNext<Nic>(seg: seq<LogRow<Nic>>, row: LogRow<Nic>)
    ensures row.event.Acquire? ==> PartialOf(seg + [row]) == PartialOf(seg).(dhcpS := Some(row.ts))
    ensures row.event.Address? ==>
              PartialOf(seg + [row]) ==
              PartialOf(seg).(dhcpE := Some(row.ts), ipS := Some(row.ts), lease := Some(row.event.lease))
    ensures row.event.Server? ==> PartialOf(seg + [row]) == PartialOf(seg).(server := Some(row.event.ip))
    ensures row.event.Dns? ==> PartialOf(seg + [row]) == PartialOf(seg).(dns := Some(NamesOf(seg) + [row.event.ip]))
    ensures row.event.Other? ==> PartialOf(seg + [row]) == PartialOf(seg)
  {
    LastOfNext(seg, row, Acquisition);
    LastOfNext(seg, row, Addressing);
    LastOfNext(seg, row, Serving);
    NamesOfNext(seg, row);
  }

  lemma {:induction false} PhaseNext<Nic>(seg: seq<LogRow<Nic>>, p: Parsing, row: LogRow<Nic>)
    requires Phase(seg, p.state) && !row.event.Lost? && Step(p, row).Done?
    ensures Phase(seg + [row], Step(p, row).value.state)
  {
    LastOfNext(seg, row, Acquisition);
    LastOfNext(seg, row, Addressing);
  }

  lemma {:induction false} OpenNext<Nic>(seg: seq<LogRow<Nic>>, p: Parsing, row: LogRow<Nic>)
    requires p.blk == PartialOf(seg) && !row.event.Lost? && Step(p, row).Done?
    ensures Step(p, row).value.blk == PartialOf(seg + [row]) && Step(p, row).value.records == p.records
  {
    PartialNext(seg, row);
    if row.event.Dns? && NamesOf(seg) == [] {
      assert NamesOf(seg) + [row.event.ip] == [row.event.ip];
    }
  }

  lemma {:induction false} CarrierNext<Nic>(rows: seq<LogRow<Nic>>, n: nat)
    requires n < |rows|
    ensures Carrier(rows[..n + 1]) == Carrier(rows[..n]) + LettersOf(rows[n].event)
  {
    assert rows[..n + 1][..n] == rows[..n];
  }

  lemma {:induction false} StepMoves<Nic>(p: Parsing, row: LogRow<Nic>, c: Letter)
    requires LettersOf(row.event) == [c] && (p.blk.dhcpS.Some? <==> p.state != LostCarrier)
    ensures Step(p, row).Done? <==> Next(p.state, c).Some?
    ensures Step(p, row).Done? ==> Next(p.state, c) == Some(Step(p, row).value.state)
  {
    assert LettersOf(row.event)[0] == c;
  }

  /** A step fails exactly when the carrier events can no longer be read. */
  lemma {:induction false} StepReads<Nic>(p: Parsing, w: seq<Letter>, row: LogRow<Nic>)
    requires After(w) == Some(p.state) && (p.blk.dhcpS.Some? <==> p.state != LostCarrier)
    ensures Step(p, row).Done? <==> After(w + LettersOf(row.event)).Some?
    ensures Step(p, row).Done? ==> After(w + LettersOf(row.event)) == Some(Step(p, row).value.state)
  {
    if LettersOf(row.event) == [] {
      assert w + [] == w;
    } else {
      var c := LettersOf(row.event)[0];
      StepMoves(p, row, c);
      AfterNext(w, c);
    }
  }

  lemma {:induction false} LostAt<Nic>(rows: seq<LogRow<Nic>>, n: nat, p: Parsing)
    requires n < |rows| && At(rows, n, p) && Step(p, rows[n]).Done? && rows[n].event.Lost?
    ensures Step(p, rows[n]).value == Parsing(LostCarrier, EMPTY, RecordsOf(rows, n + 1))
  {
  }

  lemma {:induction false} SinceNext<Nic>(rows: seq<LogRow<Nic>>, n: nat)
    requires n < |rows|
    ensures Since(rows, n + 1) == if rows[n].event.Lost? then [] else Since(rows, n) + [rows[n]]
  {
  }

  lemma {:induction false} OpenAt<Nic>(rows: seq<LogRow<Nic>>, n: nat, p: Parsing)
    requires n < |rows| && At(rows, n, p) && Step(p, rows[n]).Done? && !rows[n].event.Lost?
    ensures Phase(Since(rows, n + 1), Step(p, rows[n]).value.state)
    ensures Step(p, rows[n]).value.blk == PartialOf(Since(rows, n + 1))
    ensures Step(p, rows[n]).value.records == RecordsOf(rows, n + 1)
  {
    SinceNext(rows, n);
    OpenNext(Since(rows, n), p, rows[n]);
    PhaseNext(Since(rows, n), p, rows[n]);
  }

  lemma {:induction false} StepAt<Nic>(rows: seq<LogRow<Nic>>, n: nat, p: Parsing)
    requires n < |rows| && At(rows, n, p)
    ensures Step(p, rows[n]).Done? <==> After(Carrier(rows[..n + 1])).Some?
    ensures Step(p, rows[n]).Done? ==> At(rows, n + 1, Step(p, rows[n]).value)
  {
    assert Carrier(rows[..n + 1]) == Carrier(rows[..n]) + LettersOf(rows[n].event) by { CarrierNext(rows, n); }
    StepReads(p, Carrier(rows[..n]), rows[n]);
    if Step(p, rows[n]).Done? {
      if rows[n].event.Lost? {
        LostAt(rows, n, p);
        SinceNext(rows, n);
      } else {
        OpenAt(rows, n, p);
      }
    }
  }

  lemma {:induction false} PrefixAlike<Nic>(rows: seq<LogRow<Nic>>, m: nat, n: nat)
    requires n <= m <= |rows|
    ensures Start(rows[..m], n) == Start(rows, n) && RecordsOf(rows[..m], n) == RecordsOf(rows, n)
  {
    if n > 0 {
      PrefixAlike(rows, m, n - 1);
      SliceOfPrefix(rows, m, Start(rows, n - 1), n - 1);
    }
  }

  lemma {:induction false} PrefixAt<Nic>(rows: seq<LogRow<Nic>>, n: nat, p: Parsing)
    requires n <= |rows| && At(rows[..n], n, p)
    ensures At(rows, n, p)
  {
    PrefixAlike(rows, n, n);
    assert rows[..n][..n] == rows[..n];
    assert Since(rows[..n], n) == Since(rows, n);
  }

  /**
   The parser of one interface completes exactly when its carrier events are a prefix of
   (A D? L)*, and then its records are one per loss, as read off the rows.
   */
  lemma {:induction false} ParseIsRecords<Nic>(rows: seq<LogRow<Nic>>)
    ensures ParseOne(rows).Done? <==> WellShaped(Carrier(rows))
    ensures ParseOne(rows).Done? ==> At(rows, |rows|, ParseOne(rows).value)
    ensures ParseOne(rows).Done? ==> ParseOne(rows).value.records == RecordsOf(rows, |rows|)
  {
    ReadableIff(Carrier(rows));
    if rows != [] {
      var n := |rows| - 1;
      ParseIsRecords(rows[..n]);
      assert rows[..n + 1] == rows;
      if ParseOne(rows[..n]).Done? {
        PrefixAt(rows, n, ParseOne(rows[..n]).value);
        StepAt(rows, n, ParseOne(rows[..n]).value);
      } else {
        PrefixUnreadable(rows, n);
      }
    }
  }

  lemma {:induction false} PrefixUnreadable<Nic>(rows: seq<LogRow<Nic>>, n: nat)
    requires n < |rows| && !WellShaped(Carrier(rows[..n]))
    ensures !WellShaped(Carrier(rows[..n + 1]))
  {
    var v, w := Carrier(rows[..n]), Carrier(rows[..n + 1]);
    CarrierNext(rows, n);
    assert w[..|v|] == v;
    ReadableIff(v);
    ReadableIff(w);
    if After(w).Some? { AfterPrefix(w, |v|); }
  }

  function Losses<Nic>(rows: seq<LogRow<Nic>>): nat {
    if rows == [] then 0
    else Losses(rows[..|rows| - 1]) + (if rows[|rows| - 1].event.Lost? then 1 else 0)
  }

  lemma {:induction false} RecordPerLoss<Nic>(rows: seq<LogRow<Nic>>)
    requires ParseOne(rows).Done?
    ensures |ParseOne(rows).value.records| == Losses(rows)
  {
    if rows != [] {
      RecordPerLoss(rows[..|rows| - 1]);
    }
  }

  // ---- order in time ----

  /** The loss that ended record `k`. */
  lemma {:induction false} EndOf<Nic>(rows: seq<LogRow<Nic>>, n: nat, k: nat) returns (e: nat)
    requires n <= |rows| && k < |RecordsOf(rows, n)|
    ensures e < n && rows[e].event.Lost? && LastOf(Since(rows, e), Acquisition).Some?
    ensures k == |RecordsOf(rows, e)| && RecordsOf(rows, n)[k] == RecordOf(Since(rows, e), rows[e].ts)
  {
    if k < |RecordsOf(rows, n - 1)| {
      e := EndOf(rows, n - 1, k);
    } else {
      e := n - 1;
    }
  }

  lemma {:induction false} RecordsGrow<Nic>(rows: seq<LogRow<Nic>>, m: nat, n: nat)
    requires m <= n <= |rows|
    ensures |RecordsOf(rows, m)| <= |RecordsOf(rows, n)|
  {
    if m < n {
      RecordsGrow(rows, m, n - 1);
    }
  }

  lemma {:induction false} StartAfter<Nic>(rows: seq<LogRow<Nic>>, d: nat, e: nat)
    requires d < e <= |rows| && rows[d].event.Lost?
    ensures Start(rows, e) > d
  {
    if d < e - 1 && !rows[e - 1].event.Lost? {
      StartAfter(rows, d, e - 1);
    }
  }

  lemma {:induction false} PhaseAt<Nic>(rows: seq<LogRow<Nic>>, e: nat) returns (state: RoamState)
    requires ParseOne(rows).Done? && e <= |rows|
    ensures Phase(Since(rows, e), state)
  {
    if ParseOne(rows[..e]).Raised? {
      RaisedStays(rows, e);
      assert false;
    } else {
      ParseIsRecords(rows[..e]);
      state := ParseOne(rows[..e]).value.state;
      PrefixAt(rows, e, ParseOne(rows[..e]).value);
    }
  }

  /** T_dhcp_s <= T_dhcp_e = T_ip_s <= T_ip_e, when an address was obtained. */
  predicate RecordOrdered(r: Record) {
    r.dhcpS <= r.ipE && r.dhcpE == r.ipS && (r.lease.Some? <==> r.ipS.Some?) &&
    (r.ipS.Some? ==> r.dhcpS <= r.ipS.value <= r.ipE)
  }

  lemma {:induction false} PhaseOrdered<Nic>(rows: seq<LogRow<Nic>>, e: nat, state: RoamState)
    requires Nondecreasing(rows) && e < |rows| && Phase(Since(rows, e), state)
    requires LastOf(Since(rows, e), Acquisition).Some?
    ensures RecordOrdered(RecordOf(Since(rows, e), rows[e].ts))
  {
    var seg, s := Since(rows, e), Start(rows, e);
    var acquired, address := LastOf(seg, Acquisition), LastOf(seg, Addressing);
    assert seg[acquired.value] == rows[s + acquired.value];
    if address.Some? {
      assert seg[address.value] == rows[s + address.value];
    }
  }

  lemma {:induction false} SegmentOrdered<Nic>(rows: seq<LogRow<Nic>>, e: nat)
    requires Nondecreasing(rows) && ParseOne(rows).Done? && e < |rows|
    requires LastOf(Since(rows, e), Acquisition).Some?
    ensures RecordOrdered(RecordOf(Since(rows, e), rows[e].ts))
  {
    var state := PhaseAt(rows, e);
    PhaseOrdered(rows, e, state);
  }

  lemma {:induction false} EndsInOrder<Nic>(rows: seq<LogRow<Nic>>, i: nat, j: nat, d: nat, e: nat)
    requires d < |rows| && e < |rows| && i < j && i == |RecordsOf(rows, d)| && j == |RecordsOf(rows, e)|
    ensures d < e
  {
    if e < d {
      RecordsGrow(rows, e, d);
    }
  }

  lemma {:induction false} AcquiredAfter<Nic>(rows: seq<LogRow<Nic>>, d: nat, e: nat)
    requires Nondecreasing(rows) && d < e < |rows| && rows[d].event.Lost?
    requires LastOf(Since(rows, e), Acquisition).Some?
    ensures rows[d].ts <= RecordOf(Since(rows, e), rows[e].ts).dhcpS
  {
    StartAfter(rows, d, e);
    var acquired := LastOf(Since(rows, e), Acquisition).value;
    assert Since(rows, e)[acquired] == rows[Start(rows, e) + acquired];
  }

  lemma {:induction false} SegmentsInOrder<Nic>(rows: seq<LogRow<Nic>>, i: nat, j: nat)
    requires Nondecreasing(rows) && i < j < |RecordsOf(rows, |rows|)|
    ensures RecordsOf(rows, |rows|)[i].ipE <= RecordsOf(rows, |rows|)[j].dhcpS
  {
    var d := EndOf(rows, |rows|, i);
    var e := EndOf(rows, |rows|, j);
    EndsInOrder(rows, i, j, d, e);
    AcquiredAfter(rows, d, e);
  }

  /**
   With times that never go back, every record is ordered, and a connection is acquired no
   earlier than the one before it was lost: the records are in T_dhcp_s order.
   */
  lemma {:induction false} ParsedInOrder<Nic>(rows: seq<LogRow<Nic>>)
    requires Nondecreasing(rows) && ParseOne(rows).Done?
    ensures var records := ParseOne(rows).value.records;
            forall i :: 0 <= i < |records| ==> RecordOrdered(records[i])
    ensures var records := ParseOne(rows).value.records;
            forall i, j :: 0 <= i < j < |records| ==> records[i].ipE <= records[j].dhcpS
  {
    var records := RecordsOf(rows, |rows|);
    assert ParseOne(rows).value.records == records by { ParseIsRecords(rows); }
    forall i | 0 <= i < |records| ensures RecordOrdered(records[i]) {
      var e := EndOf(rows, |rows|, i);
      SegmentOrdered(rows, e);
    }
    forall i, j | 0 <= i < j < |records| ensures records[i].ipE <= records[j].dhcpS {
      SegmentsInOrder(rows, i, j);
    }
  }
}
