/** Small vocabulary on finite sequences shared by the modules of this project. */
module Sequences {

  datatype Option<+T> = None | Some(value: T)

  /** The Python exceptions that the modelled code can end with. */
  datatype Exception = AssertionError | ValueError | TypeError | ZeroDivisionError | IndexError | StructError

  datatype Outcome<+R> = Done(value: R) | Raised(error: Exception)

  type byte = b: int | 0 <= b < 256

  ghost predicate Distinct<T>(s: seq<T>) {
    forall i, j :: 0 <= i < j < |s| ==> s[i] != s[j]
  }

  /** `s` without its element at `k`. */
  function Cut<T>(s: seq<T>, k: nat): (r: seq<T>)
    requires k < |s|
    ensures |r| == |s| - 1 && forall i :: 0 <= i < |r| ==> r[i] == s[if i < k then i else i + 1]
  {
    s[..k] + s[k + 1..]
  }

  lemma {:induction false} CutRest<T>(s: seq<T>, k: nat)
    requires 0 < k < |s|
    ensures Cut(s, k) == [s[0]] + Cut(s[1..], k - 1)
  {
  }

  /** `s` with `x` put in at `k`. */
  function Insert<T>(s: seq<T>, k: nat, x: T): (r: seq<T>)
    requires k <= |s|
    ensures |r| == |s| + 1 && forall i :: 0 <= i < |r| ==> r[i] == if i < k then s[i] else if i == k then x else s[i - 1]
  {
    s[..k] + [x] + s[k..]
  }

  lemma {:induction false} CutMembers<T>(s: seq<T>, k: nat)
    requires k < |s| && Distinct(s)
    ensures Distinct(Cut(s, k))
    ensures forall x :: x in Cut(s, k) <==> x in s && x != s[k]
  {
    var r := Cut(s, k);
    forall x | x in s && x != s[k] ensures x in r {
      var i :| 0 <= i < |s| && s[i] == x;
      assert r[if i < k then i else i - 1] == x;
    }
    forall x | x in r ensures x in s && x != s[k] {
      var i :| 0 <= i < |r| && r[i] == x;
      assert s[if i < k then i else i + 1] == x;
    }
  }

  lemma {:induction false} Assoc<T>(a: seq<T>, b: seq<T>, c: seq<T>)
    ensures a + b + c == a + (b + c)
  {
  }

  lemma {:induction false} TailOfTail<T>(s: seq<T>, i: nat)
    requires i < |s|
    ensures s[i..] != [] && s[i..][0] == s[i] && s[i..][1..] == s[i + 1..]
  {
  }

  lemma {:induction false} SliceOfPrefix<T>(s: seq<T>, m: nat, a: nat, b: nat)
    requires a <= b <= m <= |s|
    ensures s[..m][a..b] == s[a..b]
  {
  }

  lemma {:induction false} SliceOfSuffix<T>(s: seq<T>, p: nat, a: nat, b: nat)
    requires p <= |s| && a <= b <= |s| - p
    ensures s[p..][a..b] == s[p + a..p + b] && s[p..][b..] == s[p + b..]
  {
  }

  lemma {:induction false} SplitLast<T>(s: seq<T>)
    requires s != []
    ensures s == s[..|s| - 1] + [s[|s| - 1]]
  {
  }

  function IndexOf<T(==)>(s: seq<T>, x: T): (k: nat)
    requires x in s
    ensures k < |s| && s[k] == x && x !in s[..k]
  {
    if s[0] == x then 0
    else
      var k := IndexOf(s[1..], x);
      assert s[..k + 1] == [s[0]] + s[1..][..k];
      k + 1
  }

  /** A list of distinct members of `domain`, as long as `domain` is large, holds all of it. */
  lemma {:induction false} Covers<T>(s: seq<T>, domain: set<T>)
    requires Distinct(s) && (forall i :: 0 <= i < |s| ==> s[i] in domain) && |s| == |domain|
    ensures forall x :: x in domain ==> x in s
  {
    if s != [] {
      assert s[0] !in s[1..];
      Covers(s[1..], domain - {s[0]});
      assert forall x :: x in domain ==> x == s[0] || x in domain - {s[0]};
      assert forall x :: x in s[1..] ==> x in s;
    }
  }
}
