/**
 Lists of numbers in the configuration file (`wpa_supplicant/config.c`): parsing into a growing
 zero-terminated array, and printing into a buffer of ten characters per number.
 */
module IntList {
  import opened Sequences
  import opened Text

  // ---- what a text holds ----

  function SkipSpaces(s: string): (r: string)
    ensures |r| <= |s| && r == s[|s| - |r|..] && (r != [] ==> r[0] != ' ')
  {
    if s != [] && s[0] == ' ' then SkipSpaces(s[1..]) else s
  }

  /** From the first space after the first character on. */
  function FromSpace(s: string): (r: Option<string>)
    ensures r.Some? ==> 0 < |r.value| < |s| && r.value == s[|s| - |r.value|..] && r.value[0] == ' '
  {
    if |s| < 2 then None
    else if s[1] == ' ' then Some(s[1..])
    else FromSpace(s[1..])
  }

  /** Numbers up to the first that reads as zero. */
  function Parse(s: string): seq<int> {
    ParseAt(SkipSpaces(s))
  }

  /** The same, from a character that is not a space. */
  function ParseAt(t: string): seq<int>
    decreases |t|
  {
    var v := Atoi(t);
    if v == 0 then []
    else
      var more := FromSpace(t);
      if more.None? then [v] else [v] + ParseAt(SkipSpaces(more.value))
  }

  lemma {:induction false} SkipsSpacesOnly(s: string)
    ensures forall i :: 0 <= i < |s| - |SkipSpaces(s)| ==> s[i] == ' '
  {
    if s != [] && s[0] == ' ' {
      SkipsSpacesOnly(s[1..]);
      assert forall i :: 0 <= i < |s[1..]| ==> s[1..][i] == s[i + 1];
    }
  }

  lemma {:induction false} FromSpaceFirst(s: string)
    ensures var end := if FromSpace(s).Some? then |s| - |FromSpace(s).value| else |s|;
            forall i :: 1 <= i < end ==> s[i] != ' '
  {
    if |s| >= 2 && s[1] != ' ' {
      FromSpaceFirst(s[1..]);
      assert forall i :: 0 <= i < |s[1..]| ==> s[1..][i] == s[i + 1];
    }
  }

  // ---- parsing ----

  /** `os_realloc_array` to twice the size, the new slots zeroed. */
  method Grow(freqs: array<int>, len: nat) returns (n: array<int>)
    requires freqs.Length == len + 1
    ensures fresh(n) && n.Length == 2 * len + 1
    ensures n[..len] == freqs[..len]
    ensures forall i :: len <= i < n.Length ==> n[i] == 0
  {
    n := new int[2 * len + 1];
    forall i | 0 <= i < len { n[i] := freqs[i]; }
    var i := len;
    while i <= 2 * len
      invariant len <= i <= 2 * len + 1
      invariant forall k :: 0 <= k < len ==> n[k] == freqs[k]
      invariant forall k :: len <= k < i ==> n[k] == 0
    {
      n[i] := 0;
      i := i + 1;
    }
  }

  /** The array holds `out`, and zeros in every slot after it. */
  ghost predicate Filled(freqs: array<int>, out: seq<int>)
    reads freqs
  {
    |out| < freqs.Length && freqs[..|out|] == out && forall i :: |out| <= i < freqs.Length ==> freqs[i] == 0
  }

  /** The next slot gets `v`, after doubling a full array. */
  method Store(freqs: array<int>, len: nat, used: nat, v: int, ghost out: seq<int>) returns (n: array<int>, newLen: nat)
    requires used == |out| <= len && freqs.Length == len + 1 && len > 0 && Filled(freqs, out)
    modifies freqs
    ensures (n == freqs || fresh(n)) && n.Length == newLen + 1 && used < newLen
    ensures Filled(n, if v == 0 then out else out + [v])
  {
    n, newLen := freqs, len;
    if used == len {
      n := Grow(freqs, len);
      newLen := 2 * len;
    }
    n[used] := v;
    assert n[..used] == out;
    assert v != 0 ==> n[..used + 1] == out + [v];
  }

  function Remaining(pos: Option<string>): seq<int> {
    if pos.Some? then Parse(pos.value) else []
  }

  lemma {:induction false} RemainingNext(s: string, out: seq<int>)
    ensures var t := SkipSpaces(s);
            if Atoi(t) == 0 then Remaining(Some(s)) == []
            else out + Remaining(Some(s)) == out + [Atoi(t)] + Remaining(FromSpace(t))
  {
    var t := SkipSpaces(s);
    assert Parse(s) == ParseAt(t);
    Assoc(out, [Atoi(t)], Remaining(FromSpace(t)));
  }

  /** `wpa_config_parse_int_array`: the numbers, and zeros in every slot after them. */
  method ParseIntArray(value: string) returns (freqs: array<int>, used: nat)
    ensures fresh(freqs) && used == |Parse(value)| && Filled(freqs, Parse(value))
  {
    var len: nat := 10;
    freqs := new int[11](_ => 0);
    used := 0;
    var pos := Some(value);
    ghost var out: seq<int> := [];
    while pos.Some?
      invariant used == |out| <= len && freqs.Length == len + 1 && fresh(freqs) && len > 0
      invariant Filled(freqs, out) && out + Remaining(pos) == Parse(value)
      decreases if pos.Some? then |pos.value| + 1 else 0
    {
      RemainingNext(pos.value, out);
      var t := SkipSpaces(pos.value);
      var v := Atoi(t);
      freqs, len := Store(freqs, len, used, v, out);
      if v == 0 {
        break;
      }
      out := out + [v];
      used := used + 1;
      pos := FromSpace(t);
    }
  }

  // ---- printing ----

  /** "%u" of an `int`. */
  function Unsigned(v: int): (u: nat)
    requires -0x8000_0000 <= v
    ensures v >= 0 ==> u == v
    ensures v < 0 ==> 0 < u < 0x1_0000_0000 && (u - v) % 0x1_0000_0000 == 0
  {
    if v < 0 then v + 0x1_0000_0000 else v
  }

  ghost predicate Printable(list: seq<int>) {
    forall i :: 0 <= i < |list| ==> list[i] >= -0x8000_0000
  }

  /** The numbers with single spaces between them. */
  function Join(list: seq<int>): string
    requires Printable(list)
  {
    if list == [] then ""
    else Join(list[..|list| - 1]) + (if |list| == 1 then "" else " ") + Digits(Unsigned(list[|list| - 1]))
  }

  function Upto(s: string, n: nat): (r: string)
    ensures r <= s && |r| == if |s| < n then |s| else n
  {
    if |s| <= n then s else s[..n]
  }

  lemma {:induction false} JoinGrows(list: seq<int>, n: nat)
    requires Printable(list) && n <= |list|
    ensures Join(list[..n]) <= Join(list)
  {
    if n == |list| {
      assert list[..n] == list;
    } else {
      assert list[..|list| - 1][..n] == list[..n];
      JoinGrows(list[..|list| - 1], n);
    }
  }

  /** The numbers before the terminating zero. */
  function Listed(freqs: seq<int>): (r: seq<int>)
    requires 0 in freqs
    ensures |r| < |freqs| && r == freqs[..|r|] && freqs[|r|] == 0 && forall i :: 0 <= i < |r| ==> freqs[i] != 0
  {
    if freqs[0] == 0 then []
    else
      assert freqs[1..] + [] == freqs[1..] && 0 in freqs[1..];
      [freqs[0]] + Listed(freqs[1..])
  }

  method CountFreqs(freqs: array<int>) returns (count: nat)
    requires 0 in freqs[..]
    ensures count == |Listed(freqs[..])|
  {
    count := 0;
    while freqs[count] != 0
      invariant count <= |Listed(freqs[..])|
      decreases |Listed(freqs[..])| - count
    {
      count := count + 1;
    }
  }

  lemma {:induction false} JoinNext(list: seq<int>, i: nat)
    requires Printable(list) && i < |list|
    ensures Join(list[..i + 1]) == Join(list[..i]) + ((if i == 0 then "" else " ") + Digits(Unsigned(list[i])))
  {
    assert list[..i + 1][..i] == list[..i];
    Assoc(Join(list[..i]), if i == 0 then "" else " ", Digits(Unsigned(list[i])));
  }

  lemma {:induction false} CutJoin(list: seq<int>, i: nat, n: nat)
    requires Printable(list) && i <= |list| && |Join(list[..i])| > n
    ensures Join(list[..i])[..n] == Upto(Join(list), n)
  {
    JoinGrows(list, i);
  }

  /** `wpa_config_write_freqs`: the whole text, cut at ten characters per number. */
  method WriteFreqs(freqs: array<int>) returns (text: string)
    requires 0 in freqs[..] && Printable(freqs[..])
    ensures text == Upto(Join(Listed(freqs[..])), 10 * |Listed(freqs[..])|)
  {
    ghost var list := Listed(freqs[..]);
    var count := CountFreqs(freqs);
    text := "";
    var i := 0;
    while freqs[i] != 0
      invariant 0 <= i <= |list| && text == Join(list[..i]) && |text| <= 10 * count
      decreases |list| - i
    {
      JoinNext(list, i);
      text := text + ((if i == 0 then "" else " ") + Digits(Unsigned(freqs[i])));
      i := i + 1;
      if |text| > 10 * count {
        CutJoin(list, i, 10 * count);
        return text[..10 * count];
      }
    }
    assert list[..i] == list;
  }

  // ---- printing, then parsing ----

  lemma {:induction false} JoinOne(v: int)
    requires v >= -0x8000_0000
    ensures Join([v]) == Digits(Unsigned(v))
  {
    var list := [v];
    assert list[..0] == [] && "" + "" + Digits(Unsigned(v)) == Digits(Unsigned(v));
  }

  lemma {:induction false} Regroup(a: string, b: string, c: string, d: string, e: string)
    ensures a + (b + c) + d + e == a + (b + (c + d + e))
  {
  }

  /** The same text, read from the front. */
  lemma {:induction false} JoinFirst(list: seq<int>)
    requires Printable(list) && |list| > 1
    ensures Join(list) == Digits(Unsigned(list[0])) + (" " + Join(list[1..]))
  {
    var front, last := list[..|list| - 1], list[|list| - 1];
    if |list| == 2 {
      assert front == [list[0]] && list[1..] == [last];
      JoinOne(list[0]);
      JoinOne(last);
      Assoc(Digits(Unsigned(list[0])), " ", Digits(Unsigned(last)));
    } else {
      JoinFirst(front);
      assert list[1..][..|list| - 2] == front[1..];
      Regroup(Digits(Unsigned(list[0])), " ", Join(front[1..]), " ", Digits(Unsigned(last)));
    }
  }

  lemma {:induction false} SpaceAfterDigits(d: string, rest: string)
    requires d != [] && (forall i :: 0 <= i < |d| ==> IsDigit(d[i])) && (rest == [] || rest[0] == ' ')
    ensures FromSpace(d + rest) == if rest == [] then None else Some(rest)
  {
    if |d| == 1 {
      assert rest != [] ==> (d + rest)[1..] == rest;
    } else {
      assert (d + rest)[1..] == d[1..] + rest;
      SpaceAfterDigits(d[1..], rest);
    }
  }

  lemma {:induction false} ParseNumber(v: nat, rest: string)
    requires v > 0 && (rest == [] || rest[0] == ' ')
    ensures Parse(Digits(v) + rest) == [v] + if rest == [] then [] else Parse(rest)
  {
    var s := Digits(v) + rest;
    assert s[0] == Digits(v)[0];
    AtoiDigits(v, rest);
    SpaceAfterDigits(Digits(v), rest);
  }

  lemma {:induction false} RoundOne(v: nat)
    requires v > 0
    ensures Parse(Join([v])) == [v]
  {
    JoinOne(v);
    assert Digits(v) + "" == Digits(v);
    ParseNumber(v, "");
  }

  lemma {:induction false} SkipOne(s: string)
    ensures SkipSpaces(" " + s) == SkipSpaces(s)
  {
    assert (" " + s)[1..] == s;
  }

  /** Spaces before a number do not matter, and nothing after a zero is read. */
  lemma {:induction false} ParseStops(s: string, rest: string)
    requires rest == [] || rest[0] == ' '
    ensures Parse(" " + s) == Parse(s) && Parse("0" + rest) == []
  {
    SkipOne(s);
    var t := "0" + rest;
    assert Digits(0) + rest == t;
    AtoiDigits(0, rest);
  }

  lemma {:induction false} ParseAll(list: seq<int>, text: string, more: string)
    requires |list| > 1 && list[0] > 0 && text == Digits(list[0]) + (" " + more) && Parse(more) == list[1..]
    ensures Parse(text) == list
  {
    SkipOne(more);
    ParseNumber(list[0], " " + more);
    assert list == [list[0]] + list[1..];
  }

  ghost predicate AllPositive(list: seq<int>) {
    forall i :: 0 <= i < |list| ==> list[i] > 0
  }

  lemma {:induction false} JoinPositive(list: seq<int>)
    requires AllPositive(list) && |list| > 1
    ensures Join(list) == Digits(list[0]) + (" " + Join(list[1..]))
  {
    JoinFirst(list);
  }

  /** Lists of positive numbers are read back as they were printed. */
  lemma {:induction false} RoundTrip(list: seq<int>)
    requires AllPositive(list)
    ensures Parse(Join(list)) == list
  {
    if |list| == 1 {
      RoundOne(list[0]);
      assert list == [list[0]];
    } else if |list| > 1 {
      RoundTrip(list[1..]);
      JoinPositive(list);
      ParseAll(list, Join(list), Join(list[1..]));
    }
  }

  lemma {:induction false} PowNine()
    ensures Pow10(9) == 1000000000
  {
    assert Pow10(3) == 1000 && Pow10(5) == 100000;
    assert Pow10(7) == 10000000;
  }

  /** Ten characters per number are enough for numbers of nine digits. */
  lemma {:induction false} NineDigitsFit(list: seq<int>)
    requires forall i :: 0 <= i < |list| ==> 0 < list[i] < 1000000000
    ensures |Join(list)| <= 10 * |list|
  {
    if list != [] {
      NineDigitsFit(list[..|list| - 1]);
      DigitCount(list[|list| - 1], 9);
      PowNine();
    }
  }

  function DigitsTotal(list: seq<int>): nat
    requires Printable(list)
  {
    if list == [] then 0 else DigitsTotal(list[..|list| - 1]) + |Digits(Unsigned(list[|list| - 1]))|
  }

  /** The buffer cuts the text exactly when the digits alone are more than nine per number and one. */
  lemma {:induction false} CutIff(list: seq<int>)
    requires Printable(list)
    ensures list != [] ==> |Join(list)| == DigitsTotal(list) + |list| - 1
    ensures Upto(Join(list), 10 * |list|) == Join(list) <==> list == [] || DigitsTotal(list) <= 9 * |list| + 1
  {
    if list != [] {
      CutIff(list[..|list| - 1]);
    }
  }

  /** Two numbers of ten digits lose their last digit. */
  lemma {:induction false} TenDigitsCut()
    ensures var list := [1000000000, 1000000000]; Printable(list) && Upto(Join(list), 20) != Join(list)
  {
    var n := 1000000000;
    DigitCount(n, 9);
    PowNine();
    assert [n, n][..1] == [n] && [n][..0] == [];
    assert DigitsTotal([n]) >= 10 && DigitsTotal([n, n]) >= 20;
    CutIff([n, n]);
  }

  /** A printed list comes back whole: same numbers, zero-terminated, nothing cut off. */
  method WriteThenParse(freqs: array<int>) returns (back: array<int>, used: nat)
    requires 0 in freqs[..] && forall i :: 0 <= i < freqs.Length ==> 0 <= freqs[i] < 1000000000
    ensures used == |Listed(freqs[..])| && Filled(back, Listed(freqs[..]))
  {
    ghost var list := Listed(freqs[..]);
    forall i | 0 <= i < |list| ensures 0 < list[i] < 1000000000 {
      assert list[i] == freqs[..][i];
    }
    NineDigitsFit(list);
    RoundTrip(list);
    var text := WriteFreqs(freqs);
    back, used := ParseIntArray(text);
  }
}
