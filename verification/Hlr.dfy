/**
 Two pieces of `hostapd/hlr_auc_gw.c`: handing out the GSM triplets of a subscriber in turn, and the
 48-bit sequence number that follows the scheme of 3GPP TS 33.102 Annex C.3.2.
 */
module Hlr {
  import opened Sequences
  import opened Rotation

  // ---- triplets ----

  datatype Triplet = Triplet(imsi: string, kc: string, sres: string, rand: string)

  /** Which triplets are the subscriber's. */
  function Matches(db: seq<Triplet>, imsi: string): (w: seq<bool>)
    ensures |w| == |db| && forall i :: 0 <= i < |w| ==> w[i] == (db[i].imsi == imsi)
  {
    seq(|db|, i requires 0 <= i < |db| => db[i].imsi == imsi)
  }

  class Database {
    const db: seq<Triplet>
    var pos: nat

    ghost predicate Valid()
      reads this
    {
      pos <= |db|
    }

    /** The cursor starts past the end: the null pointer. */
    constructor (db: seq<Triplet>)
      ensures Valid() && this.db == db && pos == |db|
    {
      this.db, pos := db, |db|;
    }

    /** `get_gsm_triplet`: the next match from the cursor, going round once; the cursor stays if there is none. */
    method GetTriplet(imsi: string) returns (g: Option<nat>)
      requires Valid()
      modifies this
      ensures Valid() && g == Seek(Matches(db, imsi), old(pos))
      ensures pos == Moved(Matches(db, imsi), old(pos), false)
    {
      ghost var w := Matches(db, imsi);
      var i := pos;
      while i < |db|
        invariant pos == old(pos) && pos <= i <= |db| && forall k :: pos <= k < i ==> !w[k]
      {
        if db[i].imsi == imsi {
          FromIs(w, pos, |w|, i);
          pos := i + 1;
          return Some(i);
        }
        i := i + 1;
      }
      FromIs(w, pos, |w|, |w|);
      i := 0;
      while i < |db| && i != pos
        invariant pos == old(pos) && 0 <= i <= pos && forall k :: 0 <= k < i ==> !w[k]
      {
        if db[i].imsi == imsi {
          FromIs(w, 0, pos, i);
          pos := i + 1;
          return Some(i);
        }
        i := i + 1;
      }
      FromIs(w, 0, pos, pos);
      return None;
    }

    /** Calls in a row for one subscriber. */
    method GetTimes(imsi: string, m: nat) returns (given: seq<nat>)
      requires Valid() && Hits(Matches(db, imsi), |db|) != []
      modifies this
      ensures Valid() && |given| == m && pos == Cursor(Matches(db, imsi), old(pos), false, m)
      ensures TurnsFind(Matches(db, imsi), old(pos), false, given)
    {
      given := [];
      ghost var w := Matches(db, imsi);
      var i := 0;
      while i < m
        invariant 0 <= i <= m && |given| == i && Valid() && pos == Cursor(w, old(pos), false, i)
        invariant TurnsFind(w, old(pos), false, given)
      {
        assert Seek(w, pos).Some? by { SeekIsHit(w, pos); }
        var g := GetTriplet(imsi);
        TurnsFindNext(w, old(pos), false, given, g.value);
        given := given + [g.value];
        i := i + 1;
      }
    }
  }

  /** As many calls as the subscriber has triplets give each of them once. */
  lemma {:induction false} RoundGivesAll(db: seq<Triplet>, imsi: string, c: nat, given: seq<nat>)
    requires c <= |db| && |given| == |Hits(Matches(db, imsi), |db|)|
    requires TurnsFind(Matches(db, imsi), c, false, given)
    ensures Distinct(given) && forall p: nat :: p in given <==> p < |db| && db[p].imsi == imsi
  {
    var w := Matches(db, imsi);
    forall i, j | 0 <= i < j < |given| ensures given[i] != given[j] {
      TurnsDiffer(w, c, false, i, j);
    }
    forall p: nat | p < |db| && db[p].imsi == imsi ensures p in given {
      var i := TurnsCover(w, c, false, p);
      assert given[i] == p;
    }
  }

  // ---- sequence numbers ----

  const WORD48 := 0x1_0000_0000_0000

  function Pow2(n: nat): (r: nat)
    ensures r >= 1
  {
    if n == 0 then 1 else 2 * Pow2(n - 1)
  }

  /** The number in six bytes, most significant first. */
  function Value(b: seq<byte>): (v: nat)
    requires |b| == 6
    ensures v < WORD48
  {
    ((((b[0] as int * 256 + b[1] as int) * 256 + b[2] as int) * 256 + b[3] as int) * 256 + b[4] as int) * 256 + b[5] as int
  }

  /** The first byte counts most. */
  lemma {:induction false} ValueIs(b: seq<byte>)
    requires |b| == 6
    ensures Value(b) == 0x100_0000_0000 * b[0] as int + 0x1_0000_0000 * b[1] as int + 0x100_0000 * b[2] as int +
                        0x1_0000 * b[3] as int + 0x100 * b[4] as int + b[5] as int
  {
  }

  lemma {:induction false} MulMono(k: nat, a: int, b: int)
    ensures a <= b ==> k * a <= k * b
  {
  }

  lemma {:induction false} QuotientNatural(v: nat, p: nat)
    requires p > 0
    ensures v / p >= 0
  {
    assert v == p * (v / p) + v % p;
    MulMono(p, v / p, -1);
  }

  function SeqOf(v: nat, indLen: nat): nat {
    QuotientNatural(v, Pow2(indLen));
    v / Pow2(indLen)
  }

  function IndOf(v: nat, indLen: nat): nat {
    v % Pow2(indLen)
  }

  lemma {:induction false} PowSplits(m: nat, n: nat)
    ensures Pow2(m + n) == Pow2(m) * Pow2(n)
  {
    if m > 0 {
      PowSplits(m - 1, n);
      assert Pow2(m + n) == 2 * (Pow2(m - 1) * Pow2(n)) == (2 * Pow2(m - 1)) * Pow2(n);
    }
  }

  lemma {:induction false} DivModIs(x: nat, k: nat, q: nat, r: nat)
    requires k > 0 && x == k * q + r && r < k
    ensures x / k == q && x % k == r
  {
    assert x == k * (x / k) + x % k;
    MulMono(k, x / k + 1, q);
    MulMono(k, q + 1, x / k);
  }

  /** One more in both parts, before the result is cut to 48 bits. */
  function Raised(v: nat, indLen: nat): nat {
    (SeqOf(v, indLen) + 1) * Pow2(indLen) + (v + 1) % Pow2(indLen)
  }

  lemma {:induction false} IndNext(v: nat, p: nat)
    requires p > 0
    ensures (v + 1) % p == if v % p + 1 == p then 0 else v % p + 1
  {
    var q, r := v / p, v % p;
    assert v == p * q + r;
    if r + 1 == p {
      assert v + 1 == p * (q + 1) + 0;
      DivModIs(v + 1, p, q + 1, 0);
    } else {
      DivModIs(v + 1, p, q, r + 1);
    }
  }

  /** Cutting a pair of parts at the product of their sizes. */
  lemma {:induction false} CutPair(x: nat, p: nat, q: nat, s: nat, i: nat)
    requires p > 0 && s < q && i < p && x == p * (s + 1) + i && p * q > 0
    ensures var w := x % (p * q); w / p == (if s + 1 == q then 0 else s + 1) && w % p == i
  {
    if s + 1 == q {
      MulMono(p, 1, q);
      DivModIs(x, p * q, 1, i);
      DivModIs(i, p, 0, i);
    } else {
      MulMono(p, s + 2, q);
      assert p * (s + 2) == p * (s + 1) + p;
      DivModIs(x, p * q, 0, x);
      DivModIs(x, p, s + 1, i);
    }
  }

  lemma {:induction false} RaisedPair(v: nat, p: nat, q: nat, s: nat, x: nat)
    requires p > 0 && s < q && x == (s + 1) * p + (v + 1) % p && p * q > 0
    ensures var w := x % (p * q);
            w / p == (if s + 1 == q then 0 else s + 1) && w % p == if v % p + 1 == p then 0 else v % p + 1
  {
    IndNext(v, p);
    CutPair(x, p, q, s, (v + 1) % p);
  }

  /** Both parts go up by one, each modulo its own size. */
  lemma {:induction false} RaisedParts(v: nat, indLen: nat)
    requires indLen <= 48 && v < WORD48
    ensures var w, p, q := Raised(v, indLen) % WORD48, Pow2(indLen), Pow2(48 - indLen);
            SeqOf(w, indLen) == (if SeqOf(v, indLen) + 1 == q then 0 else SeqOf(v, indLen) + 1) &&
            IndOf(w, indLen) == (if IndOf(v, indLen) + 1 == p then 0 else IndOf(v, indLen) + 1)
  {
    var p, q := Pow2(indLen), Pow2(48 - indLen);
    assert p * q == WORD48 by {
      PowSplits(indLen, 48 - indLen);
      Pow48();
    }
    assert SeqOf(v, indLen) < q by { SeqBelow(v, indLen); }
    RaisedPair(v, p, q, SeqOf(v, indLen), Raised(v, indLen));
  }

  lemma {:induction false} Pow48()
    ensures Pow2(48) == WORD48
  {
    assert Pow2(12) == 4096 by { assert Pow2(6) == 64; PowSplits(6, 6); }
    PowSplits(12, 12);
    PowSplits(24, 24);
  }

  /** The six bytes of a number below 2^48. */
  function Bytes(v: nat): (b: seq<byte>)
    requires v < WORD48
    ensures |b| == 6 && Value(b) == v
  {
    var v1 := v / 256;
    var v2 := v1 / 256;
    var v3 := v2 / 256;
    var v4 := v3 / 256;
    var v5 := v4 / 256;
    [v5, v4 % 256, v3 % 256, v2 % 256, v1 % 256, v % 256]
  }

  /**
   `inc_sqn`, in place. The option parser takes index lengths up to 32; from 31 on the mask shifts a
   32-bit one out of its range, which C leaves undefined.
   */
  method IncSqn(sqn: array<byte>, indLen: nat) returns (defined: bool)
    requires sqn.Length == 6 && indLen <= 32
    modifies sqn
    ensures defined <==> indLen <= 30
    ensures defined ==> Value(sqn[..]) == Raised(Value(old(sqn[..])), indLen) % WORD48
  {
    if indLen > 30 {
      return false;
    }
    var val := Value(sqn[..]);
    var seqNo := val / Pow2(indLen) + 1;
    var ind := (val + 1) % Pow2(indLen);
    val := (seqNo * Pow2(indLen) + ind) % WORD48;
    var b := Bytes(val);
    forall i | 0 <= i < 6 { sqn[i] := b[i]; }
    assert sqn[..] == b;
    return true;
  }

  function IncTimes(v: nat, indLen: nat, m: nat): (r: nat)
    requires v < WORD48
    ensures r < WORD48
  {
    if m == 0 then v else Raised(IncTimes(v, indLen, m - 1), indLen) % WORD48
  }

  /** After any number of steps both parts have advanced by it, modulo their sizes. */
  lemma {:induction false} IncTimesParts(v: nat, indLen: nat, m: nat)
    requires v < WORD48 && indLen <= 48
    ensures SeqOf(v, indLen) < Pow2(48 - indLen)
    ensures SeqOf(IncTimes(v, indLen, m), indLen) == Wrap(SeqOf(v, indLen) + m, Pow2(48 - indLen))
    ensures IndOf(IncTimes(v, indLen, m), indLen) == Wrap(IndOf(v, indLen) + m, Pow2(indLen))
  {
    if m == 0 {
      SeqBelow(v, indLen);
    } else {
      IncTimesParts(v, indLen, m - 1);
      RaisedParts(IncTimes(v, indLen, m - 1), indLen);
      WrapNext(SeqOf(v, indLen) + m - 1, Pow2(48 - indLen));
      WrapNext(IndOf(v, indLen) + m - 1, Pow2(indLen));
    }
  }

  lemma {:induction false} QuotientBelow(v: nat, p: nat, q: nat)
    requires p > 0 && v < p * q
    ensures v / p < q
  {
    assert v == p * (v / p) + v % p;
    MulMono(p, q, v / p);
  }

  lemma {:induction false} SeqBelow(v: nat, indLen: nat)
    requires v < WORD48 && indLen <= 48
    ensures SeqOf(v, indLen) < Pow2(48 - indLen)
  {
    var p, q := Pow2(indLen), Pow2(48 - indLen);
    assert p * q == WORD48 by {
      PowSplits(indLen, 48 - indLen);
      Pow48();
    }
    QuotientBelow(v, p, q);
  }

  /** No sequence part is used twice within its whole range. */
  lemma {:induction false} SeqFresh(v: nat, indLen: nat, i: nat, j: nat)
    requires v < WORD48 && indLen <= 48 && i < j < i + Pow2(48 - indLen)
    ensures SeqOf(IncTimes(v, indLen, i), indLen) != SeqOf(IncTimes(v, indLen, j), indLen)
  {
    IncTimesParts(v, indLen, i);
    IncTimesParts(v, indLen, j);
    WrapDiffers(SeqOf(v, indLen) + i, SeqOf(v, indLen) + j, Pow2(48 - indLen));
  }
}
