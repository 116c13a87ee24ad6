/**
 Numbers and hardware addresses as text: the C library's `atoi` and decimal printing, and
 `hwaddr_aton` of `src/utils/common.c` with its `MACSTR` format.
 */
module Text {
  import opened Sequences

  // ---- decimal numbers ----

  predicate IsDigit(c: char) {
    '0' <= c <= '9'
  }

  predicate IsSpace(c: char) {
    c == ' ' || '\t' <= c <= '\r'
  }

  function DigitOf(c: char): (d: nat)
    requires IsDigit(c)
    ensures d < 10
  {
    c as int - '0' as int
  }

  function CharOf(d: nat): (c: char)
    requires d < 10
    ensures IsDigit(c) && DigitOf(c) == d
  {
    ('0' as int + d) as char
  }

  /** Decimal digits without leading zeros. */
  function Digits(n: nat): (r: string)
    ensures |r| > 0 && forall i :: 0 <= i < |r| ==> IsDigit(r[i])
  {
    if n < 10 then [CharOf(n)] else Digits(n / 10) + [CharOf(n % 10)]
  }

  /** "%d" */
  function Print(n: int): string {
    if n < 0 then "-" + Digits(-n) else Digits(n)
  }

  /** The number that the leading digits of `s` append to `acc`. */
  function Leading(s: string, acc: nat): nat {
    if s == [] || !IsDigit(s[0]) then acc else Leading(s[1..], 10 * acc + DigitOf(s[0]))
  }

  /** `atoi`: white space, a sign, digits; 0 where there are none. */
  function Atoi(s: string): int {
    if s == [] then 0
    else if IsSpace(s[0]) then Atoi(s[1..])
    else if s[0] == '-' then -(Leading(s[1..], 0) as int)
    else if s[0] == '+' then Leading(s[1..], 0)
    else Leading(s, 0)
  }

  predicate Ends(rest: string) {
    rest == [] || !IsDigit(rest[0])
  }

  /** `acc` with the digits `s` after it. */
  function Append(acc: nat, s: string): nat
    requires forall i :: 0 <= i < |s| ==> IsDigit(s[i])
  {
    if s == [] then acc else 10 * Append(acc, s[..|s| - 1]) + DigitOf(s[|s| - 1])
  }

  lemma {:induction false} AppendFirst(acc: nat, s: string)
    requires s != [] && forall i :: 0 <= i < |s| ==> IsDigit(s[i])
    ensures Append(acc, s) == Append(10 * acc + DigitOf(s[0]), s[1..])
  {
    if |s| > 1 {
      AppendFirst(acc, s[..|s| - 1]);
      assert s[1..][..|s| - 2] == s[..|s| - 1][1..];
    }
  }

  lemma {:induction false} LeadingIsAppend(s: string, rest: string, acc: nat)
    requires (forall i :: 0 <= i < |s| ==> IsDigit(s[i])) && Ends(rest)
    ensures Leading(s + rest, acc) == Append(acc, s)
  {
    if s == [] {
      assert s + rest == rest;
    } else {
      assert (s + rest)[1..] == s[1..] + rest;
      LeadingIsAppend(s[1..], rest, 10 * acc + DigitOf(s[0]));
      AppendFirst(acc, s);
    }
  }

  lemma {:induction false} AppendDigits(n: nat)
    ensures Append(0, Digits(n)) == n
  {
    if n >= 10 {
      AppendDigits(n / 10);
      assert Digits(n)[..|Digits(n)| - 1] == Digits(n / 10);
    }
  }

  lemma {:induction false} LeadingDigits(n: nat, rest: string)
    requires Ends(rest)
    ensures Leading(Digits(n) + rest, 0) == n
  {
    LeadingIsAppend(Digits(n), rest, 0);
    AppendDigits(n);
  }

  lemma {:induction false} AtoiDigits(n: nat, rest: string)
    requires Ends(rest)
    ensures Atoi(Digits(n) + rest) == n
  {
    assert (Digits(n) + rest)[0] == Digits(n)[0];
    LeadingDigits(n, rest);
  }

  /** Reading back a printed number that no digit follows. */
  lemma {:induction false} AtoiPrint(n: int, rest: string)
    requires Ends(rest)
    ensures Atoi(Print(n) + rest) == n
  {
    if n < 0 {
      assert (Print(n) + rest)[1..] == Digits(-n) + rest;
      LeadingDigits(-n, rest);
    } else {
      AtoiDigits(n, rest);
    }
  }

  /** White space and a plus sign before a number do not matter; what is no number reads as 0. */
  lemma {:induction false} AtoiForms(n: nat, c: char, rest: string)
    requires Ends(rest)
    ensures Atoi("+" + (Digits(n) + rest)) == n && Atoi(" " + (Digits(n) + rest)) == n
    ensures !IsDigit(c) && !IsSpace(c) && c != '-' && c != '+' ==> Atoi([c] + rest) == 0
  {
    assert ("+" + (Digits(n) + rest))[1..] == Digits(n) + rest == (" " + (Digits(n) + rest))[1..];
    LeadingDigits(n, rest);
    AtoiDigits(n, rest);
  }

  function Pow10(k: nat): (r: nat)
    ensures r >= 1
  {
    if k == 0 then 1 else 10 * Pow10(k - 1)
  }

  /** How long a number prints: at most `k` digits exactly below 10^k. */
  lemma {:induction false} DigitCount(n: nat, k: nat)
    requires k > 0
    ensures |Digits(n)| <= k <==> n < Pow10(k)
  {
    if n < 10 {
      assert Pow10(k) >= 10;
    } else if k == 1 {
      assert |Digits(n)| == |Digits(n / 10)| + 1;
    } else {
      DigitCount(n / 10, k - 1);
    }
  }

  // ---- hardware addresses ----

  type Addr = a: seq<byte> | |a| == 6 witness [0, 0, 0, 0, 0, 0]

  function HexDigit(d: nat): char
    requires d < 16
  {
    if d < 10 then ('0' as int + d) as char else ('a' as int + d - 10) as char
  }

  /** `hex2num`; -1 for anything else. */
  function HexValue(c: char): (v: int)
    ensures -1 <= v < 16
  {
    if '0' <= c <= '9' then c as int - '0' as int
    else if 'a' <= c <= 'f' then c as int - 'a' as int + 10
    else if 'A' <= c <= 'F' then c as int - 'A' as int + 10
    else -1
  }

  function HexByte(b: byte): (r: string)
    ensures |r| == 2
  {
    [HexDigit(b / 16), HexDigit(b % 16)]
  }

  /** `hex2byte`; a string that ends too soon has no hexadecimal digit there. */
  function ParseByte(s: string): Option<byte> {
    if |s| < 2 then None
    else
      var a, b := HexValue(s[0]), HexValue(s[1]);
      if a < 0 || b < 0 then None else Some(16 * a + b)
  }

  /** The last `|a|` octets of an address, separated by colons. */
  function Octets(a: seq<byte>): (r: string)
    requires a != []
    ensures |r| == 3 * |a| - 1
  {
    if |a| == 1 then HexByte(a[0]) else HexByte(a[0]) + ":" + Octets(a[1..])
  }

  /** MACSTR */
  function PrintAddr(a: Addr): (r: string)
    ensures |r| == 17
  {
    Octets(a)
  }

  /** The loop of `hwaddr_parse` with `n` octets to go. */
  function ParseOctets(s: string, n: nat): (r: Option<seq<byte>>)
    ensures r.Some? ==> |r.value| == n
  {
    if n == 0 then Some([])
    else
      var b := ParseByte(s);
      if b.None? then None
      else if n == 1 then Some([b.value])
      else if |s| < 3 || s[2] != ':' then None
      else
        var more := ParseOctets(s[3..], n - 1);
        if more.None? then None else Some([b.value] + more.value)
  }

  function ParseAddr(s: string): Option<Addr> {
    var r := ParseOctets(s, 6);
    if r.None? then None else Some(r.value)
  }

  lemma {:induction false} ParsePrintByte(b: byte, rest: string)
    ensures ParseByte(HexByte(b) + rest) == Some(b)
  {
    var s := HexByte(b) + rest;
    assert s[0] == HexDigit(b / 16) && s[1] == HexDigit(b % 16);
    assert HexValue(s[0]) == b / 16 && HexValue(s[1]) == b % 16;
  }

  lemma {:induction false} ParseStep(s: string, b: byte, more: seq<byte>)
    requires |s| >= 3 && ParseByte(s) == Some(b) && s[2] == ':' && more != []
    requires ParseOctets(s[3..], |more|) == Some(more)
    ensures ParseOctets(s, |more| + 1) == Some([b] + more)
  {
  }

  lemma {:induction false} ColonShape(x: string, y: string, rest: string)
    requires |x| == 2
    ensures var s := x + ":" + y + rest; s == x + (":" + y + rest) && s[2] == ':' && s[3..] == y + rest
  {
  }

  lemma {:induction false} ParsePrintOctets(a: seq<byte>, rest: string)
    requires a != []
    ensures ParseOctets(Octets(a) + rest, |a|) == Some(a)
  {
    if |a| == 1 {
      ParsePrintByte(a[0], rest);
      assert a == [a[0]];
    } else {
      ColonShape(HexByte(a[0]), Octets(a[1..]), rest);
      ParsePrintByte(a[0], ":" + Octets(a[1..]) + rest);
      ParsePrintOctets(a[1..], rest);
      ParseStep(Octets(a) + rest, a[0], a[1..]);
      assert [a[0]] + a[1..] == a;
    }
  }

  lemma {:induction false} ParsePrintAddr(a: Addr, rest: string)
    ensures ParseAddr(PrintAddr(a) + rest) == Some(a)
  {
    ParsePrintOctets(a, rest);
  }

  /** Six octets, high digit first, with colons between them. */
  lemma {:induction false} SixOctets(a: Addr)
    ensures PrintAddr(a) == HexByte(a[0]) + ":" + HexByte(a[1]) + ":" + HexByte(a[2]) + ":" + HexByte(a[3]) + ":" +
                            HexByte(a[4]) + ":" + HexByte(a[5])
  {
    assert Octets(a[5..]) == HexByte(a[5]);
    assert Octets(a[4..]) == HexByte(a[4]) + ":" + Octets(a[5..]) by { TailOfTail(a, 4); }
    assert Octets(a[3..]) == HexByte(a[3]) + ":" + Octets(a[4..]) by { TailOfTail(a, 3); }
    assert Octets(a[2..]) == HexByte(a[2]) + ":" + Octets(a[3..]) by { TailOfTail(a, 2); }
    assert Octets(a[1..]) == HexByte(a[1]) + ":" + Octets(a[2..]) by { TailOfTail(a, 1); }
  }

  /** Capital digits read like small ones. */
  lemma {:induction false} HexCase(d: nat)
    requires 10 <= d < 16
    ensures HexValue(HexDigit(d)) == d == HexValue(('A' as int + d - 10) as char)
  {
  }
}
