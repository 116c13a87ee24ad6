/**
 The file in which `bgscan_learn.c` keeps what it learned: saving writes it as text, loading reads
 it back line by line.
 */
module NeighborFile {
  import opened Sequences
  import opened Text
  import opened NeighborLearning

  const HEADER := "wpa_supplicant-bgscan-learn\n"

  /** The longest text that one `fgets` into the 128-byte buffer takes. */
  const LINE_MAX := 127

  // ---- saving ----

  function BssLine(b: Bss): string {
    "BSS " + PrintAddr(b.bssid) + " " + Print(b.freq) + "\n"
  }

  function NeighborLine(a: Addr, x: Addr): string {
    "NEIGHBOR " + PrintAddr(a) + " " + PrintAddr(x) + "\n"
  }

  function BssText(list: seq<Bss>): string {
    if list == [] then "" else BssLine(list[0]) + BssText(list[1..])
  }

  function NeighborsText(a: Addr, neigh: seq<Addr>): string {
    if neigh == [] then "" else NeighborLine(a, neigh[0]) + NeighborsText(a, neigh[1..])
  }

  function NeighborText(list: seq<Bss>): string {
    if list == [] then "" else NeighborsText(list[0].bssid, list[0].neigh) + NeighborText(list[1..])
  }

  function Save(list: seq<Bss>): string {
    HEADER + (BssText(list) + NeighborText(list))
  }

  // ---- loading ----

  /** How much `fgets` takes when it may take `n` characters. */
  function LineLength(text: string, n: nat): (k: nat)
    ensures k <= |text| && (text != [] && n > 0 ==> k > 0)
  {
    if text == [] || n == 0 then 0
    else if text[0] == '\n' then 1
    else 1 + LineLength(text[1..], n - 1)
  }

  function Rest(line: string, k: nat): string {
    if k <= |line| then line[k..] else ""
  }

  function LoadBss(list: seq<Bss>, line: string): seq<Bss> {
    var a := ParseAddr(Rest(line, 4));
    if a.None? then list else [Bss(a.value, Atoi(Rest(line, 22)), [])] + list
  }

  function LoadNeighbor(list: seq<Bss>, line: string): seq<Bss> {
    var a := ParseAddr(Rest(line, 9));
    if a.None? then list
    else
      var i, x := Find(list, a.value), ParseAddr(Rest(line, 27));
      if i == |list| || x.None? then list else list[i := AddNeighbor(list[i], x.value)]
  }

  function LoadLine(list: seq<Bss>, line: string): seq<Bss> {
    if "BSS " <= line then LoadBss(list, line)
    else if "NEIGHBOR " <= line then LoadNeighbor(list, line)
    else list
  }

  function LoadLines(list: seq<Bss>, text: string): seq<Bss>
    decreases |text|
  {
    if text == [] then list
    else
      var k := LineLength(text, LINE_MAX);
      LoadLines(LoadLine(list, text[..k]), text[k..])
  }

  /** `None` for a file without the header. */
  function Load(text: string): Option<seq<Bss>> {
    var k := LineLength(text, LINE_MAX);
    if k == 0 || !(HEADER <= text[..k]) then None else Some(LoadLines([], text[k..]))
  }

  // ---- lines come back whole ----

  predicate IsLine(line: string) {
    0 < |line| <= LINE_MAX && line[|line| - 1] == '\n' && forall i :: 0 <= i < |line| - 1 ==> line[i] != '\n'
  }

  lemma {:induction false} LineComesBack(line: string, rest: string, n: nat)
    requires 0 < |line| <= n && line[|line| - 1] == '\n' && forall i :: 0 <= i < |line| - 1 ==> line[i] != '\n'
    ensures LineLength(line + rest, n) == |line|
  {
    if |line| > 1 {
      assert (line + rest)[1..] == line[1..] + rest;
      LineComesBack(line[1..], rest, n - 1);
    }
  }

  lemma {:induction false} LoadOne(list: seq<Bss>, line: string, rest: string)
    requires IsLine(line)
    ensures LoadLines(list, line + rest) == LoadLines(LoadLine(list, line), rest)
  {
    LineComesBack(line, rest, LINE_MAX);
    assert (line + rest)[..|line|] == line && (line + rest)[|line|..] == rest;
  }

  lemma {:induction false} OctetsNoNewline(a: seq<byte>)
    requires a != []
    ensures '\n' !in Octets(a)
  {
    if |a| > 1 {
      OctetsNoNewline(a[1..]);
    }
  }

  predicate Int32(n: int) {
    -0x8000_0000 <= n < 0x8000_0000
  }

  lemma {:induction false} PrintShort(n: int)
    requires Int32(n)
    ensures |Print(n)| <= 11 && '\n' !in Print(n)
  {
    var m := if n < 0 then -n else n;
    DigitCount(m, 10);
    assert Pow10(10) == 10000000000 by {
      assert Pow10(2) == 100 && Pow10(4) == 10000;
      assert Pow10(6) == 1000000;
      assert Pow10(8) == 100000000;
    }
    assert forall i :: 0 <= i < |Digits(m)| ==> IsDigit(Digits(m)[i]);
  }

  lemma {:induction false} BssLineIsLine(b: Bss)
    requires Int32(b.freq)
    ensures IsLine(BssLine(b))
  {
    PrintShort(b.freq);
    OctetsNoNewline(b.bssid);
    var line := BssLine(b);
    forall i | 0 <= i < |line| - 1 ensures line[i] != '\n' {
      assert line[i] in "BSS " + PrintAddr(b.bssid) + " " + Print(b.freq);
    }
  }

  lemma {:induction false} NeighborLineIsLine(a: Addr, x: Addr)
    ensures IsLine(NeighborLine(a, x))
  {
    OctetsNoNewline(a);
    OctetsNoNewline(x);
    var line := NeighborLine(a, x);
    forall i | 0 <= i < |line| - 1 ensures line[i] != '\n' {
      assert line[i] in "NEIGHBOR " + PrintAddr(a) + " " + PrintAddr(x);
    }
  }

  lemma {:induction false} BssLineLoads(list: seq<Bss>, b: Bss)
    ensures LoadLine(list, BssLine(b)) == [b.(neigh := [])] + list
  {
    var line := BssLine(b);
    assert line[4..] == PrintAddr(b.bssid) + (" " + Print(b.freq) + "\n");
    ParsePrintAddr(b.bssid, " " + Print(b.freq) + "\n");
    assert line[22..] == Print(b.freq) + "\n";
    AtoiPrint(b.freq, "\n");
  }

  lemma {:induction false} NeighborLineShape(a: Addr, x: Addr)
    ensures var line := NeighborLine(a, x);
            line[0] == 'N' && "NEIGHBOR " <= line && |line| == 45 &&
            line[9..] == PrintAddr(a) + (" " + PrintAddr(x) + "\n") && line[27..] == PrintAddr(x) + "\n"
  {
  }

  lemma {:induction false} NeighborLineParts(a: Addr, x: Addr)
    ensures var line := NeighborLine(a, x);
            ParseAddr(Rest(line, 9)) == Some(a) && ParseAddr(Rest(line, 27)) == Some(x)
  {
    NeighborLineShape(a, x);
    ParsePrintAddr(a, " " + PrintAddr(x) + "\n");
    ParsePrintAddr(x, "\n");
  }

  lemma {:induction false} NeighborLineLoads(list: seq<Bss>, a: Addr, x: Addr)
    requires Find(list, a) < |list|
    ensures LoadLine(list, NeighborLine(a, x)) == list[Find(list, a) := AddNeighbor(list[Find(list, a)], x)]
  {
    NeighborLineShape(a, x);
    NeighborLineParts(a, x);
  }

  /** A file loads exactly when it begins with the header. */
  lemma {:induction false} LoadsIff(text: string)
    ensures Load(text).Some? <==> HEADER <= text
  {
    if HEADER <= text {
      LineComesBack(HEADER, text[|HEADER|..], LINE_MAX);
      assert text == HEADER + text[|HEADER|..];
    }
  }

  /** A line is passed over when it names no entry with an address, and no neighbour of a known one. */
  lemma {:induction false} StrayLine(list: seq<Bss>, line: string, rest: string)
    requires IsLine(line)
    requires "BSS " <= line ==> ParseAddr(line[4..]).None?
    requires "NEIGHBOR " <= line ==>
               var a := ParseAddr(line[9..]);
               a.None? || Find(list, a.value) == |list| || |line| < 27 || ParseAddr(line[27..]).None?
    ensures LoadLines(list, line + rest) == LoadLines(list, rest)
  {
    LoadOne(list, line, rest);
  }

  lemma {:induction false} NoNewline(text: string, n: nat)
    requires |text| >= n && forall i :: 0 <= i < n ==> text[i] != '\n'
    ensures LineLength(text, n) == n
  {
    if n > 0 {
      NoNewline(text[1..], n - 1);
    }
  }

  /** A line that is too long for the buffer is read in parts of 127 characters. */
  lemma {:induction false} LongLine(list: seq<Bss>, text: string)
    requires |text| >= 127 && forall i :: 0 <= i < 127 ==> text[i] != '\n'
    ensures LoadLines(list, text) == LoadLines(LoadLine(list, text[..127]), text[127..])
  {
    NoNewline(text, LINE_MAX);
  }

  /** One entry and its neighbour as they stand in the file. */
  lemma {:induction false} SavedText(a: Addr, x: Addr)
    requires a == [0, 1, 42, 179, 255, 16] && x == [2, 0, 0, 0, 0, 10]
    ensures Save([Bss(a, 2412, [x])]) ==
            "wpa_supplicant-bgscan-learn\n" + ("BSS 00:01:2a:b3:ff:10 2412\n" +
            "NEIGHBOR 00:01:2a:b3:ff:10 02:00:00:00:00:0a\n")
  {
    AddrText(a, x);
    OneEntry(Bss(a, 2412, [x]), x);
    EntryLine(Bss(a, 2412, [x]));
    PairLine(a, x);
  }

  lemma {:induction false} AddrText(a: Addr, x: Addr)
    requires a == [0, 1, 42, 179, 255, 16] && x == [2, 0, 0, 0, 0, 10]
    ensures PrintAddr(a) == "00:01:2a:b3:ff:10" && PrintAddr(x) == "02:00:00:00:00:0a"
  {
    SixOctets(a);
    SixOctets(x);
  }

  lemma {:induction false} PairLine(a: Addr, x: Addr)
    requires PrintAddr(a) == "00:01:2a:b3:ff:10" && PrintAddr(x) == "02:00:00:00:00:0a"
    ensures NeighborLine(a, x) == "NEIGHBOR 00:01:2a:b3:ff:10 02:00:00:00:00:0a\n"
  {
  }

  lemma {:induction false} EntryLine(b: Bss)
    requires PrintAddr(b.bssid) == "00:01:2a:b3:ff:10" && b.freq == 2412
    ensures BssLine(b) == "BSS 00:01:2a:b3:ff:10 2412\n"
  {
    assert Digits(24) == Digits(2) + "4" && Digits(241) == Digits(24) + "1" && Digits(2412) == Digits(241) + "2";
    assert Digits(2412) == "2412";
  }

  lemma {:induction false} OneEntry(b: Bss, x: Addr)
    requires b.neigh == [x]
    ensures Save([b]) == HEADER + (BssLine(b) + NeighborLine(b.bssid, x))
  {
    var neigh: seq<Addr> := [x];
    assert [b][1..] == [] && neigh[1..] == [];
    assert BssText([b]) == BssLine(b) + "" == BssLine(b);
    assert NeighborsText(b.bssid, neigh) == NeighborLine(b.bssid, x) + "" == NeighborLine(b.bssid, x);
    assert NeighborText([b]) == NeighborsText(b.bssid, neigh) + "" == NeighborLine(b.bssid, x);
  }

  // ---- the file restores the list ----

  function Bare(b: Bss): Bss {
    b.(neigh := [])
  }

  /** The loaded list when the neighbours of the first `k` saved entries are in. */
  function Restored(list: seq<Bss>, k: nat): (r: seq<Bss>)
    ensures |r| == |list|
    ensures forall j :: 0 <= j < |list| ==>
              r[j] == if |list| - 1 - j < k then list[|list| - 1 - j] else Bare(list[|list| - 1 - j])
  {
    seq(|list|, j requires 0 <= j < |list| => var n := |list| - 1 - j; if n < k then list[n] else Bare(list[n]))
  }

  function Reversed(list: seq<Bss>): (r: seq<Bss>)
    ensures |r| == |list| && forall j :: 0 <= j < |list| ==> r[j] == list[|list| - 1 - j]
  {
    seq(|list|, j requires 0 <= j < |list| => list[|list| - 1 - j])
  }

  ghost predicate Savable(list: seq<Bss>) {
    Tidy(list) && forall i :: 0 <= i < |list| ==> Int32(list[i].freq)
  }

  /** The entry lines turn the list over. */
  lemma {:induction false} BssTextLoads(list: seq<Bss>, loaded: seq<Bss>, rest: string)
    requires forall i :: 0 <= i < |list| ==> Int32(list[i].freq)
    ensures LoadLines(loaded, BssText(list) + rest) == LoadLines(Restored(list, 0) + loaded, rest)
  {
    if list == [] {
      assert BssText(list) + rest == rest && Restored(list, 0) + loaded == loaded;
    } else {
      var more := BssText(list[1..]);
      assert BssText(list) + rest == BssLine(list[0]) + (more + rest);
      LoadOneBss(loaded, list[0], more + rest);
      BssTextLoads(list[1..], [Bare(list[0])] + loaded, rest);
      RestoredNext(list, loaded);
    }
  }

  lemma {:induction false} LoadOneBss(loaded: seq<Bss>, b: Bss, rest: string)
    requires Int32(b.freq)
    ensures LoadLines(loaded, BssLine(b) + rest) == LoadLines([Bare(b)] + loaded, rest)
  {
    BssLineIsLine(b);
    LoadOne(loaded, BssLine(b), rest);
    BssLineLoads(loaded, b);
  }

  lemma {:induction false} RestoredNext(list: seq<Bss>, loaded: seq<Bss>)
    requires list != []
    ensures Restored(list, 0) + loaded == Restored(list[1..], 0) + ([Bare(list[0])] + loaded)
  {
    assert Restored(list, 0) == Restored(list[1..], 0) + [Bare(list[0])];
  }

  /** The neighbour lines of one entry add its neighbours to it. */
  lemma {:induction false} NeighborsLoad(a: Addr, neigh: seq<Addr>, loaded: seq<Bss>, rest: string)
    requires Find(loaded, a) < |loaded|
    ensures var i := Find(loaded, a);
            LoadLines(loaded, NeighborsText(a, neigh) + rest) ==
            LoadLines(loaded[i := AddAll(loaded[i], neigh)], rest)
  {
    var i := Find(loaded, a);
    if neigh == [] {
      assert NeighborsText(a, neigh) + rest == rest && loaded[i := loaded[i]] == loaded;
    } else {
      var line, more := NeighborLine(a, neigh[0]), NeighborsText(a, neigh[1..]);
      assert NeighborsText(a, neigh) + rest == line + (more + rest);
      NeighborLineIsLine(a, neigh[0]);
      LoadOne(loaded, line, more + rest);
      NeighborLineLoads(loaded, a, neigh[0]);
      var next := loaded[i := AddNeighbor(loaded[i], neigh[0])];
      FindSame(loaded, i, AddNeighbor(loaded[i], neigh[0]), a);
      NeighborsLoad(a, neigh[1..], next, rest);
      AddAllFirst(loaded[i], neigh);
      assert next[i := AddAll(next[i], neigh[1..])] == loaded[i := AddAll(loaded[i], neigh)];
    }
  }

  /** Neighbours that are new and distinct are appended as they are. */
  lemma {:induction false} AddAllAppends(b: Bss, neigh: seq<Addr>)
    requires TidyEntry(b.(neigh := b.neigh + neigh))
    ensures AddAll(b, neigh) == b.(neigh := b.neigh + neigh)
  {
    if neigh == [] {
      assert b.neigh + neigh == b.neigh;
    } else {
      var front, last, all := neigh[..|neigh| - 1], neigh[|neigh| - 1], b.neigh + neigh;
      assert all[..|all| - 1] == b.neigh + front && all[|all| - 1] == last;
      AddAllAppends(b, front);
    }
  }

  lemma {:induction false} FindRestored(list: seq<Bss>, k: nat)
    requires Tidy(list) && k < |list|
    ensures Find(Restored(list, k), list[k].bssid) == |list| - 1 - k
  {
    var i := Find(Restored(list, k), list[k].bssid);
    assert Restored(list, k)[|list| - 1 - k].bssid == list[k].bssid;
    assert i < |list|;
    assert list[|list| - 1 - i].bssid == list[k].bssid;
  }

  lemma {:induction false} RestoredStep(list: seq<Bss>, k: nat)
    requires Tidy(list) && k < |list|
    ensures var i := |list| - 1 - k;
            Restored(list, k)[i := AddAll(Restored(list, k)[i], list[k].neigh)] == Restored(list, k + 1)
  {
    var i, r := |list| - 1 - k, Restored(list, k);
    assert AddAll(r[i], list[k].neigh) == list[k] by {
      assert TidyEntry(list[k]);
      assert Bare(list[k]).neigh + list[k].neigh == list[k].neigh;
      AddAllAppends(Bare(list[k]), list[k].neigh);
    }
    assert forall j :: 0 <= j < |list| ==> Restored(list, k + 1)[j] == if j == i then list[k] else r[j];
  }

  lemma {:induction false} NeighborTextLoads(list: seq<Bss>, k: nat)
    requires Tidy(list) && k <= |list|
    ensures LoadLines(Restored(list, k), NeighborText(list[k..])) == Reversed(list)
    decreases |list| - k
  {
    if k == |list| {
      assert Restored(list, k) == Reversed(list);
    } else {
      TailOfTail(list, k);
      assert Find(Restored(list, k), list[k].bssid) == |list| - 1 - k by { FindRestored(list, k); }
      NeighborsLoad(list[k].bssid, list[k].neigh, Restored(list, k), NeighborText(list[k + 1..]));
      RestoredStep(list, k);
      NeighborTextLoads(list, k + 1);
    }
  }

  lemma {:induction false} AfterHeader(body: string)
    ensures Load(HEADER + body) == Some(LoadLines([], body))
  {
    assert IsLine(HEADER);
    LineComesBack(HEADER, body, LINE_MAX);
    assert (HEADER + body)[..28] == HEADER && (HEADER + body)[28..] == body;
  }

  /** Loading what was saved gives the same entries, neighbours included, in reverse order. */
  lemma {:induction false} LoadSave(list: seq<Bss>)
    requires Savable(list)
    ensures Load(Save(list)) == Some(Reversed(list))
  {
    var body := BssText(list) + NeighborText(list);
    AfterHeader(body);
    BssTextLoads(list, [], NeighborText(list));
    assert Restored(list, 0) + [] == Restored(list, 0);
    assert list[0..] == list;
    NeighborTextLoads(list, 0);
  }

  // ---- scans and restarts ----

  lemma {:induction false} FindReversed(list: seq<Bss>, a: Addr)
    requires Tidy(list)
    ensures Find(list, a) < |list| ==> Find(Reversed(list), a) == |list| - 1 - Find(list, a)
    ensures Find(list, a) == |list| ==> Find(Reversed(list), a) == |list|
  {
    var i, j := Find(list, a), Find(Reversed(list), a);
    if i < |list| {
      assert Reversed(list)[|list| - 1 - i].bssid == a;
      assert j < |list| && list[|list| - 1 - j].bssid == a;
    }
  }

  /** The map from addresses to frequencies and the neighbour lists survive a save and a load. */
  lemma {:induction false} SameKnowledge(list: seq<Bss>, a: Addr)
    requires Savable(list)
    ensures Load(Save(list)).Some?
    ensures Neighbours(Load(Save(list)).value, a) == Neighbours(list, a)
    ensures FreqOf(Load(Save(list)).value, a) == FreqOf(list, a)
  {
    LoadSave(list);
    FindReversed(list, a);
  }

  datatype Event = Scan(results: seq<Res>) | Restart

  function After(ssid: seq<byte>, events: seq<Event>): seq<Bss> {
    if events == [] then []
    else
      var before := After(ssid, events[..|events| - 1]);
      match events[|events| - 1]
      case Scan(results) => Notify(before, ssid, results)
      case Restart => var loaded := Load(Save(before)); if loaded.Some? then loaded.value else []
  }

  ghost predicate AllInt32(results: seq<Res>) {
    forall i :: 0 <= i < |results| ==> Int32(results[i].freq)
  }

  lemma {:induction false} MatchingInt32(ssid: seq<byte>, results: seq<Res>)
    requires AllInt32(results)
    ensures AllInt32(Matching(ssid, results))
  {
    if results != [] {
      MatchingInt32(ssid, results[..|results| - 1]);
    }
  }

  lemma {:induction false} VisitAllSavable(list: seq<Bss>, matching: seq<Res>, first: seq<Addr>)
    requires Savable(list) && AllInt32(matching)
    ensures Savable(VisitAll(list, matching, first))
  {
    VisitAllTidy(list, matching, first);
    if matching != [] {
      VisitAllSavable(list, matching[..|matching| - 1], first);
    }
  }

  lemma {:induction false} NeighboursReversed(list: seq<Bss>, a: Addr)
    requires Tidy(list)
    ensures Neighbours(Reversed(list), a) == Neighbours(list, a)
  {
    FindReversed(list, a);
  }

  lemma {:induction false} ReversedSymmetric(list: seq<Bss>)
    requires Tidy(list) && Symmetric(list)
    ensures Symmetric(Reversed(list))
  {
    forall a: Addr, x: Addr | x in Neighbours(Reversed(list), a) ensures a in Neighbours(Reversed(list), x) {
      NeighboursReversed(list, a);
      NeighboursReversed(list, x);
    }
  }

  /** The frequencies that a scan reports are C integers. */
  ghost predicate FreqsFit(events: seq<Event>) {
    forall i :: 0 <= i < |events| && events[i].Scan? ==> AllInt32(events[i].results)
  }

  /** After any run of scans and restarts: one entry per address, no duplicates, never its own neighbour. */
  lemma {:induction false} RunKeeps(ssid: seq<byte>, events: seq<Event>)
    requires FreqsFit(events)
    ensures Savable(After(ssid, events))
  {
    if events != [] {
      var front, event := events[..|events| - 1], events[|events| - 1];
      RunKeeps(ssid, front);
      var before := After(ssid, front);
      match event {
        case Scan(results) =>
          var matching := Matching(ssid, results);
          MatchingInt32(ssid, results);
          VisitAllSavable(before, matching, First(matching));
        case Restart =>
          LoadSave(before);
      }
    }
  }

  /** Event `n` loses no new neighbour to the cut at fifty. */
  ghost predicate Uncut(ssid: seq<byte>, events: seq<Event>, n: nat)
    requires n < |events|
  {
    events[n].Scan? ==> RestKnown(After(ssid, events[..n]), Matching(ssid, events[n].results))
  }

  lemma {:induction false} SymmetricNext(ssid: seq<byte>, events: seq<Event>, n: nat)
    requires FreqsFit(events) && n < |events| && Symmetric(After(ssid, events[..n]))
    ensures events[n].Scan? ==> (Symmetric(After(ssid, events[..n + 1])) <==> Uncut(ssid, events, n))
    ensures events[n].Restart? ==> Symmetric(After(ssid, events[..n + 1]))
  {
    var before := After(ssid, events[..n]);
    assert events[..n + 1][..n] == events[..n];
    match events[n] {
      case Scan(results) =>
        SymmetricIff(before, ssid, results);
      case Restart =>
        RunKeeps(ssid, events[..n]);
        LoadSave(before);
        ReversedSymmetric(before);
    }
  }

  lemma {:induction false} UncutSymmetric(ssid: seq<byte>, events: seq<Event>, n: nat)
    requires FreqsFit(events) && n <= |events| && forall i :: 0 <= i < n ==> Uncut(ssid, events, i)
    ensures Symmetric(After(ssid, events[..n]))
  {
    if n > 0 {
      UncutSymmetric(ssid, events, n - 1);
      SymmetricNext(ssid, events, n - 1);
    }
  }

  /** The relation stays symmetric throughout a run exactly when no scan of it loses anything to the cut. */
  lemma {:induction false} RunSymmetricIff(ssid: seq<byte>, events: seq<Event>)
    requires FreqsFit(events)
    ensures (forall n :: 0 <= n <= |events| ==> Symmetric(After(ssid, events[..n]))) <==>
            (forall n :: 0 <= n < |events| ==> Uncut(ssid, events, n))
  {
    if forall n :: 0 <= n < |events| ==> Uncut(ssid, events, n) {
      forall n | 0 <= n <= |events| ensures Symmetric(After(ssid, events[..n])) {
        UncutSymmetric(ssid, events, n);
      }
    } else {
      var n :| 0 <= n < |events| && !Uncut(ssid, events, n);
      if Symmetric(After(ssid, events[..n])) {
        SymmetricNext(ssid, events, n);
        assert !Symmetric(After(ssid, events[..n + 1]));
      }
    }
  }

  /** In particular when no scan has more than fifty matches. */
  lemma {:induction false} RunSymmetric(ssid: seq<byte>, events: seq<Event>)
    requires FreqsFit(events)
    requires forall i :: 0 <= i < |events| && events[i].Scan? ==> |Matching(ssid, events[i].results)| <= 50
    ensures Symmetric(After(ssid, events))
  {
    forall i | 0 <= i < |events| ensures Uncut(ssid, events, i) {
      if events[i].Scan? { FewMatchesKnown(After(ssid, events[..i]), Matching(ssid, events[i].results)); }
    }
    UncutSymmetric(ssid, events, |events|);
    assert events[..|events|] == events;
  }

  // ---- runs by their scans alone ----

  /** Scan `k` of the run heard the address. */
  ghost predicate HeardAt(ssid: seq<byte>, events: seq<Event>, k: nat, a: Addr) {
    k < |events| && events[k].Scan? && Heard(ssid, events[k].results, a)
  }

  lemma {:induction false} RestartKeeps(list: seq<Bss>, a: Addr)
    requires Savable(list)
    ensures var loaded := Load(Save(list));
            loaded.Some? && (HasEntry(loaded.value, a) <==> HasEntry(list, a)) &&
            Neighbours(loaded.value, a) == Neighbours(list, a) && FreqOf(loaded.value, a) == FreqOf(list, a)
  {
    LoadSave(list);
    SameKnowledge(list, a);
    assert forall i :: 0 <= i < |list| ==> Reversed(list)[|list| - 1 - i] == list[i];
  }

  lemma {:induction false} EventEntries(ssid: seq<byte>, events: seq<Event>, n: nat, a: Addr)
    requires FreqsFit(events) && n < |events|
    ensures HasEntry(After(ssid, events[..n + 1]), a) <==>
            HasEntry(After(ssid, events[..n]), a) || HeardAt(ssid, events, n, a)
  {
    assert events[..n + 1][..n] == events[..n];
    match events[n] {
      case Scan(results) =>
        NotifyEntries(After(ssid, events[..n]), ssid, results, a);
      case Restart =>
        RunKeeps(ssid, events[..n]);
        RestartKeeps(After(ssid, events[..n]), a);
    }
  }

  /** One of the first `n` events is a scan that heard both addresses. */
  ghost predicate HeardBefore(ssid: seq<byte>, events: seq<Event>, n: nat, a: Addr, x: Addr) {
    exists k: nat :: k < n && HeardAt(ssid, events, k, a) && HeardAt(ssid, events, k, x)
  }

  lemma {:induction false} HeardBeforeNext(ssid: seq<byte>, events: seq<Event>, n: nat, a: Addr, x: Addr)
    ensures HeardBefore(ssid, events, n + 1, a, x) <==>
            HeardBefore(ssid, events, n, a, x) || (HeardAt(ssid, events, n, a) && HeardAt(ssid, events, n, x))
  {
  }

  lemma {:induction false} EntriesUpTo(ssid: seq<byte>, events: seq<Event>, n: nat, a: Addr)
    requires FreqsFit(events) && n <= |events|
    ensures HasEntry(After(ssid, events[..n]), a) <==> HeardBefore(ssid, events, n, a, a)
  {
    if n > 0 {
      EntriesUpTo(ssid, events, n - 1, a);
      EventEntries(ssid, events, n - 1, a);
      HeardBeforeNext(ssid, events, n - 1, a, a);
    }
  }

  /** After a run an address has an entry exactly when some scan of it heard the address. */
  lemma {:induction false} RunEntries(ssid: seq<byte>, events: seq<Event>, a: Addr)
    requires FreqsFit(events)
    ensures HasEntry(After(ssid, events), a) <==> exists k: nat :: HeardAt(ssid, events, k, a)
  {
    EntriesUpTo(ssid, events, |events|, a);
    assert events[..|events|] == events;
  }

  lemma {:induction false} EventNeighbours(ssid: seq<byte>, events: seq<Event>, n: nat, a: Addr, x: Addr)
    requires FreqsFit(events) && n < |events| && (events[n].Scan? ==> |OwnResults(ssid, events[n].results)| <= 50)
    ensures x in Neighbours(After(ssid, events[..n + 1]), a) <==>
            x in Neighbours(After(ssid, events[..n]), a) ||
            (a != x && HeardAt(ssid, events, n, a) && HeardAt(ssid, events, n, x))
  {
    assert events[..n + 1][..n] == events[..n];
    match events[n] {
      case Scan(results) =>
        NotifyNeighbours(After(ssid, events[..n]), ssid, results, a, x);
      case Restart =>
        RunKeeps(ssid, events[..n]);
        RestartKeeps(After(ssid, events[..n]), a);
    }
  }

  /** At most fifty results of every scan have the own SSID. */
  ghost predicate Sparse(ssid: seq<byte>, events: seq<Event>) {
    forall k :: 0 <= k < |events| && events[k].Scan? ==> |OwnResults(ssid, events[k].results)| <= 50
  }

  lemma {:induction false} NeighboursUpTo(ssid: seq<byte>, events: seq<Event>, n: nat, a: Addr, x: Addr)
    requires FreqsFit(events) && Sparse(ssid, events) && n <= |events|
    ensures x in Neighbours(After(ssid, events[..n]), a) <==>
            a != x && HeardBefore(ssid, events, n, a, x)
  {
    if n > 0 {
      NeighboursUpTo(ssid, events, n - 1, a, x);
      EventNeighbours(ssid, events, n - 1, a, x);
      HeardBeforeNext(ssid, events, n - 1, a, x);
    }
  }

  /** With at most fifty own results a scan, two addresses are neighbours exactly when one scan heard both. */
  lemma {:induction false} RunNeighbours(ssid: seq<byte>, events: seq<Event>, a: Addr, x: Addr)
    requires FreqsFit(events) && Sparse(ssid, events)
    ensures x in Neighbours(After(ssid, events), a) <==>
            a != x && exists k: nat :: HeardAt(ssid, events, k, a) && HeardAt(ssid, events, k, x)
  {
    NeighboursUpTo(ssid, events, |events|, a, x);
    assert events[..|events|] == events;
  }

  /** Its frequency is that of its last own result in the last scan that heard it. */
  lemma {:induction false} RunFreq(ssid: seq<byte>, events: seq<Event>, a: Addr, k: nat, i: nat)
    requires FreqsFit(events) && k < |events| && events[k].Scan? && LastHeardAt(ssid, events[k].results, a, i)
    requires forall m :: k < m < |events| ==> !HeardAt(ssid, events, m, a)
    ensures FreqOf(After(ssid, events), a) == Some(events[k].results[i].freq)
  {
    var front, n := events[..|events| - 1], |events| - 1;
    if k == n {
      NotifyFreq(After(ssid, front), ssid, events[n].results, a);
    } else {
      assert forall m: nat :: m < n ==> (HeardAt(ssid, events, m, a) <==> HeardAt(ssid, front, m, a));
      RunFreq(ssid, front, a, k, i);
      match events[n] {
        case Scan(results) =>
          assert !HeardAt(ssid, events, n, a);
          NotifyFreq(After(ssid, front), ssid, results, a);
        case Restart =>
          RunKeeps(ssid, front);
          RestartKeeps(After(ssid, front), a);
      }
    }
  }

  // ---- the module's state ----

  class Learner {
    const ssid: seq<byte>
    var bss: seq<Bss>

    constructor (ssid: seq<byte>)
      ensures this.ssid == ssid && bss == []
    {
      this.ssid, bss := ssid, [];
    }

    /** `bgscan_learn_get_bss`; the length of the list when there is none. */
    method GetBss(a: Addr) returns (i: nat)
      ensures i == Find(bss, a)
    {
      i := 0;
      while i < |bss| && bss[i].bssid != a
        invariant i <= |bss| && forall k :: 0 <= k < i ==> bss[k].bssid != a
      {
        i := i + 1;
      }
    }

    method AddNeighborAt(i: nat, a: Addr)
      requires i < |bss|
      modifies this
      ensures bss == old(bss)[i := AddNeighbor(old(bss)[i], a)]
    {
      if bss[i].bssid == a {
        return;
      }
      if a in bss[i].neigh {
        return;
      }
      bss := bss[i := bss[i].(neigh := bss[i].neigh + [a])];
    }

    /** The inner loop over the collected addresses. */
    method AddNeighborsAt(i: nat, addrs: seq<Addr>)
      requires i < |bss|
      modifies this
      ensures bss == old(bss)[i := AddAll(old(bss)[i], addrs)]
    {
      var j := 0;
      while j < |addrs|
        invariant 0 <= j <= |addrs| && |bss| == |old(bss)|
        invariant bss == old(bss)[i := AddAll(old(bss)[i], addrs[..j])]
      {
        assert addrs[..j + 1][..j] == addrs[..j];
        AddNeighborAt(i, addrs[j]);
        j := j + 1;
      }
      assert addrs[..j] == addrs;
    }

    /** The first loop: the addresses of the first fifty matching results. */
    method CollectAddrs(results: seq<Res>) returns (addrs: seq<Addr>)
      ensures addrs == First(Matching(ssid, results))
      ensures |OwnResults(ssid, results)| <= 50 ==> AreHeard(addrs, ssid, results)
    {
      addrs := [];
      var i := 0;
      while i < |results|
        invariant 0 <= i <= |results| && addrs == First(Matching(ssid, results[..i]))
      {
        MatchingNext(ssid, results, i);
        if results[i].ssid == Some(ssid) {
          CollectNext(Matching(ssid, results[..i]), results[i]);
          if |addrs| < MAX_BSS {
            addrs := addrs + [results[i].bssid];
          }
        }
        i := i + 1;
      }
      assert results[..i] == results;
      FirstAreHeard(ssid, results);
    }

    method NotifyScan(results: seq<Res>)
      modifies this
      ensures bss == Notify(old(bss), ssid, results)
      ensures Learned(old(bss), bss, ssid, results)
    {
      var addrs := CollectAddrs(results);
      NotifyLearns(bss, ssid, results);
      VisitScan(results, addrs);
    }

    /** The second loop: every matching result is visited. */
    method VisitScan(results: seq<Res>, addrs: seq<Addr>)
      modifies this
      ensures bss == VisitAll(old(bss), Matching(ssid, results), addrs)
    {
      var i := 0;
      while i < |results|
        invariant 0 <= i <= |results| && bss == VisitAll(old(bss), Matching(ssid, results[..i]), addrs)
      {
        MatchingNext(ssid, results, i);
        if results[i].ssid == Some(ssid) {
          VisitNext(old(bss), Matching(ssid, results[..i]), results[i], addrs);
          VisitOne(results[i], addrs);
        }
        i := i + 1;
      }
      assert results[..i] == results;
    }

    method VisitOne(res: Res, addrs: seq<Addr>)
      modifies this
      ensures bss == Visit(old(bss), res, addrs)
    {
      var i := GetBss(res.bssid);
      if i < |bss| {
        if bss[i].freq != res.freq {
          bss := bss[i := bss[i].(freq := res.freq)];
        }
      } else {
        bss := [Bss(res.bssid, res.freq, [])] + bss;
        i := 0;
      }
      AddNeighborsAt(i, addrs);
    }

    /** `bgscan_learn_save`: all entries, then all neighbours. */
    method SaveFile() returns (text: string)
      ensures text == Save(bss)
    {
      var entries := WriteEntries();
      var neighbors := WriteAllNeighbors();
      text := HEADER + (entries + neighbors);
    }

    method WriteAllNeighbors() returns (text: string)
      ensures text == NeighborText(bss)
    {
      text := "";
      var i := 0;
      while i < |bss|
        invariant 0 <= i <= |bss| && text + NeighborText(bss[i..]) == NeighborText(bss)
      {
        var lines := WriteNeighbors(bss[i]);
        ghost var more := NeighborText(bss[i + 1..]);
        TailOfTail(bss, i);
        Assoc(text, lines, more);
        text := text + lines;
        i := i + 1;
      }
      assert text + "" == text;
    }

    method WriteEntries() returns (text: string)
      ensures text == BssText(bss)
    {
      text := "";
      var i := 0;
      while i < |bss|
        invariant 0 <= i <= |bss| && text + BssText(bss[i..]) == BssText(bss)
      {
        var line := BssLine(bss[i]);
        ghost var more := BssText(bss[i + 1..]);
        TailOfTail(bss, i);
        Assoc(text, line, more);
        text := text + line;
        i := i + 1;
      }
      assert text + "" == text;
    }

    static method WriteNeighbors(b: Bss) returns (text: string)
      ensures text == NeighborsText(b.bssid, b.neigh)
    {
      text := "";
      var j := 0;
      while j < |b.neigh|
        invariant 0 <= j <= |b.neigh|
        invariant text + NeighborsText(b.bssid, b.neigh[j..]) == NeighborsText(b.bssid, b.neigh)
      {
        var line := NeighborLine(b.bssid, b.neigh[j]);
        ghost var more := NeighborsText(b.bssid, b.neigh[j + 1..]);
        TailOfTail(b.neigh, j);
        Assoc(text, line, more);
        text := text + line;
        j := j + 1;
      }
      assert text + "" == text;
    }

    /** The loop that reads a saved file. */
    method LoadFile(text: string) returns (ok: bool)
      requires bss == []
      modifies this
      ensures Load(text) == if ok then Some(bss) else None
      ensures !ok ==> bss == []
    {
      var k := LineLength(text, LINE_MAX);
      if k == 0 || !(HEADER <= text[..k]) {
        return false;
      }
      var rest := text[k..];
      while rest != []
        invariant LoadLines(bss, rest) == LoadLines([], text[k..])
        decreases |rest|
      {
        var n := LineLength(rest, LINE_MAX);
        bss := LoadLine(bss, rest[..n]);
        rest := rest[n..];
      }
      return true;
    }
  }

  lemma {:induction false} MatchingNext(ssid: seq<byte>, results: seq<Res>, i: nat)
    requires i < |results|
    ensures var before := Matching(ssid, results[..i]);
            Matching(ssid, results[..i + 1]) == if results[i].ssid == Some(ssid) then before + [results[i]] else before
  {
    assert results[..i + 1][..i] == results[..i];
  }

  lemma {:induction false} CollectNext(matching: seq<Res>, res: Res)
    ensures First(matching + [res]) ==
            if |First(matching)| < MAX_BSS then First(matching) + [res.bssid] else First(matching)
  {
    assert (matching + [res])[..|matching|] == matching;
    if |matching| >= MAX_BSS {
      assert (matching + [res])[..MAX_BSS] == matching[..MAX_BSS];
    }
  }

  lemma {:induction false} VisitNext(list: seq<Bss>, matching: seq<Res>, res: Res, addrs: seq<Addr>)
    ensures VisitAll(list, matching + [res], addrs) == Visit(VisitAll(list, matching, addrs), res, addrs)
  {
    assert (matching + [res])[..|matching|] == matching;
  }
}
