/**
 Information elements (IEEE Std 802.11-2012, section 8.4.2.1) as the walkers of
 `wpa_supplicant/bss.c` read them: an id octet, a length octet, the payload.
 The walkers move a position through raw bytes; they are proved against the
 longest sequence of elements that the buffer starts with.
 */
module Elements {
  import opened Sequences

  datatype Element = Element(id: byte, payload: seq<byte>)

  const EID_VENDOR_SPECIFIC: byte := 221

  predicate Fits(e: Element) {
    |e.payload| < 256
  }

  function Header(e: Element): (h: seq<byte>)
    ensures |h| == 2
  {
    [e.id, |e.payload| % 256]
  }

  /** The octets of a sequence of elements; a length octet holds the length of a payload that fits. */
  function Encode(es: seq<Element>): seq<byte> {
    if es == [] then [] else Header(es[0]) + es[0].payload + Encode(es[1..])
  }

  /** The walker's loop condition: two header octets and the whole payload are there. */
  predicate StartsElement(buf: seq<byte>) {
    |buf| >= 2 && 2 + buf[1] <= |buf|
  }

  function Parse(buf: seq<byte>): seq<Element>
    decreases |buf|
  {
    if !StartsElement(buf) then []
    else [Element(buf[0], buf[2..2 + buf[1]])] + Parse(buf[2 + buf[1]..])
  }

  lemma {:induction false} ParseFits(buf: seq<byte>, i: nat)
    requires i < |Parse(buf)|
    ensures Fits(Parse(buf)[i])
    decreases |buf|
  {
    if i > 0 {
      ParseFits(buf[2 + buf[1]..], i - 1);
    }
  }

  /** `buf` is the elements found, followed by octets that start no element. */
  lemma {:induction false} ParseIsWellFormedPrefix(buf: seq<byte>)
    ensures Encode(Parse(buf)) <= buf
    ensures !StartsElement(buf[|Encode(Parse(buf))|..])
    decreases |buf|
  {
    if StartsElement(buf) {
      var rest := buf[2 + buf[1]..];
      var head := buf[..2 + buf[1]];
      ParseIsWellFormedPrefix(rest);
      assert buf == head + rest;
      assert [buf[0], buf[1]] + buf[2..2 + buf[1]] == head;
      assert Parse(buf)[1..] == Parse(rest);
      assert Encode(Parse(buf)) == head + Encode(Parse(rest));
      assert buf[|Encode(Parse(buf))|..] == rest[|Encode(Parse(rest))|..];
    }
  }

  lemma {:induction false} HeadIs(buf: seq<byte>, e: Element, rest: seq<byte>)
    requires Fits(e) && Header(e) + e.payload + rest <= buf
    ensures StartsElement(buf) && buf[0] == e.id && buf[1] == |e.payload|
    ensures buf[2..2 + buf[1]] == e.payload && rest <= buf[2 + buf[1]..]
  {
    var all, n := Header(e) + e.payload + rest, 2 + |e.payload|;
    assert all[..n] == buf[..n] && all[n..] == rest;
    assert buf[0] == all[0] == e.id && buf[1] == all[1];
    assert buf[2..n] == all[2..n] == e.payload;
  }

  /** ... and no longer sequence of elements is a prefix of `buf`. */
  lemma {:induction false} ParseIsLongest(buf: seq<byte>, es: seq<Element>)
    requires (forall e :: e in es ==> Fits(e)) && Encode(es) <= buf
    ensures es <= Parse(buf)
    decreases |es|
  {
    if es != [] {
      assert Fits(es[0]);
      HeadIs(buf, es[0], Encode(es[1..]));
      ParseIsLongest(buf[2 + buf[1]..], es[1..]);
      assert es == [es[0]] + es[1..];
    }
  }

  /** What a walker looks for: an element id, or a vendor type in the first four payload octets. */
  datatype Query = ById(id: byte) | ByVendor(vendorType: int)

  function BE32(p: seq<byte>): int
    requires |p| >= 4
  {
    0x100_0000 * p[0] as int + 0x1_0000 * p[1] as int + 0x100 * p[2] as int + p[3] as int
  }

  predicate Matches(q: Query, e: Element) {
    match q
    case ById(id) => e.id == id
    case ByVendor(t) => e.id == EID_VENDOR_SPECIFIC && |e.payload| >= 4 && BE32(e.payload) == t
  }

  /** The first element a query matches. */
  function First(q: Query, es: seq<Element>): Option<Element> {
    if es == [] then None
    else if Matches(q, es[0]) then Some(es[0])
    else First(q, es[1..])
  }

  lemma {:induction false} FirstIff(q: Query, es: seq<Element>)
    ensures First(q, es).None? <==> forall e :: e in es ==> !Matches(q, e)
    ensures First(q, es).Some? ==> First(q, es).value in es && Matches(q, First(q, es).value)
  {
    if es != [] {
      FirstIff(q, es[1..]);
      assert forall e :: e in es <==> e == es[0] || e in es[1..];
    }
  }

  function Find(buf: seq<byte>, id: byte): Option<seq<byte>> {
    match First(ById(id), Parse(buf)) case None => None case Some(e) => Some(e.payload)
  }

  function FindVendor(buf: seq<byte>, vendorType: int): Option<seq<byte>> {
    match First(ByVendor(vendorType), Parse(buf)) case None => None case Some(e) => Some(e.payload)
  }

  /** The payloads, without their vendor type, of every matching vendor element. */
  function Collect(vendorType: int, es: seq<Element>): (r: seq<byte>)
  {
    if es == [] then []
    else (if Matches(ByVendor(vendorType), es[0]) then es[0].payload[4..] else []) + Collect(vendorType, es[1..])
  }

  lemma {:induction false} EncodeAppend(es: seq<Element>, e: Element)
    ensures |Encode(es + [e])| == |Encode(es)| + 2 + |e.payload|
  {
    if es == [] {
      assert [e][1..] == [];
    } else {
      EncodeAppend(es[1..], e);
      assert (es + [e])[1..] == es[1..] + [e];
    }
  }

  /** The test a walker makes on raw octets at `pos`. */
  predicate MatchesAt(q: Query, buf: seq<byte>, pos: nat)
    requires pos <= |buf| && StartsElement(buf[pos..])
  {
    match q
    case ById(id) => buf[pos] == id
    case ByVendor(t) =>
      buf[pos] == EID_VENDOR_SPECIFIC && buf[pos + 1] >= 4 && BE32(buf[pos + 2..pos + 6]) == t
  }

  function ElementAt(buf: seq<byte>, pos: nat): Element
    requires pos <= |buf| && StartsElement(buf[pos..])
  {
    Element(buf[pos], buf[pos + 2..pos + 2 + buf[pos + 1]])
  }

  lemma {:induction false} MatchesAlike(q: Query, buf: seq<byte>, pos: nat)
    requires pos <= |buf| && StartsElement(buf[pos..])
    ensures MatchesAt(q, buf, pos) <==> Matches(q, ElementAt(buf, pos))
  {
    if buf[pos + 1] >= 4 {
      assert BE32(buf[pos + 2..pos + 6]) == BE32(ElementAt(buf, pos).payload);
    }
  }

  lemma {:induction false} UnfoldAt(buf: seq<byte>, pos: nat)
    requires pos <= |buf| && StartsElement(buf[pos..])
    ensures Parse(buf[pos..]) == [ElementAt(buf, pos)] + Parse(buf[pos + 2 + buf[pos + 1]..])
  {
    var tail := buf[pos..];
    assert tail[0] == buf[pos] && tail[1] == buf[pos + 1];
    SliceOfSuffix(buf, pos, 2, 2 + buf[pos + 1] as int);
    assert Parse(tail) == [Element(tail[0], tail[2..2 + tail[1]])] + Parse(tail[2 + tail[1]..]);
  }

  /** `buf` holds, at `pos`, the element `e` that comes after `before`, none of which matches. */
  ghost predicate FirstAt(q: Query, buf: seq<byte>, pos: nat, before: seq<Element>, e: Element)
  {
    before + [e] <= Parse(buf) && Matches(q, e) && (forall x :: x in before ==> !Matches(q, x)) &&
    pos == |Encode(before)| && pos + 2 + |e.payload| <= |buf| &&
    buf[pos] == e.id && buf[pos + 1] == |e.payload| && buf[pos + 2..pos + 2 + |e.payload|] == e.payload
  }

  lemma {:induction false} FirstAfter(q: Query, before: seq<Element>, rest: seq<Element>)
    requires forall x :: x in before ==> !Matches(q, x)
    ensures First(q, before + rest) == First(q, rest)
  {
    if before == [] {
      assert before + rest == rest;
    } else {
      FirstAfter(q, before[1..], rest);
      assert (before + rest)[1..] == before[1..] + rest;
    }
  }

  lemma {:induction false} FirstIs(q: Query, before: seq<Element>, e: Element, rest: seq<Element>)
    requires Matches(q, e) && forall x :: x in before ==> !Matches(q, x)
    ensures First(q, before + [e] + rest) == Some(e) && before + [e] <= before + [e] + rest
  {
    Assoc(before, [e], rest);
    FirstAfter(q, before, [e] + rest);
  }

  /** The walk has come to `pos` over the elements `before`. */
  ghost predicate At(buf: seq<byte>, pos: nat, before: seq<Element>) {
    pos <= |buf| && pos == |Encode(before)| && Parse(buf) == before + Parse(buf[pos..])
  }

  lemma {:induction false} AtNext(buf: seq<byte>, pos: nat, before: seq<Element>)
    requires At(buf, pos, before) && StartsElement(buf[pos..])
    ensures At(buf, pos + 2 + buf[pos + 1], before + [ElementAt(buf, pos)])
  {
    var e := ElementAt(buf, pos);
    UnfoldAt(buf, pos);
    EncodeAppend(before, e);
    Assoc(before, [e], Parse(buf[pos + 2 + buf[pos + 1]..]));
  }

  lemma {:induction false} AtEnd(buf: seq<byte>, pos: nat, before: seq<Element>)
    requires At(buf, pos, before) && !StartsElement(buf[pos..])
    ensures Parse(buf) == before
  {
    assert before + [] == before;
  }

  ghost predicate NoneMatches(q: Query, es: seq<Element>) {
    forall x :: x in es ==> !Matches(q, x)
  }

  lemma {:induction false} FoundHere(q: Query, buf: seq<byte>, pos: nat, before: seq<Element>)
    requires At(buf, pos, before) && StartsElement(buf[pos..]) && MatchesAt(q, buf, pos) && NoneMatches(q, before)
    ensures First(q, Parse(buf)).Some? && FirstAt(q, buf, pos, before, First(q, Parse(buf)).value)
  {
    var e, next := ElementAt(buf, pos), pos + 2 + buf[pos + 1];
    MatchesAlike(q, buf, pos);
    AtNext(buf, pos, before);
    FirstIs(q, before, e, Parse(buf[next..]));
  }

  lemma {:induction false} PassedHere(q: Query, buf: seq<byte>, pos: nat, before: seq<Element>)
    requires pos <= |buf| && StartsElement(buf[pos..]) && !MatchesAt(q, buf, pos) && NoneMatches(q, before)
    ensures NoneMatches(q, before + [ElementAt(buf, pos)])
  {
    MatchesAlike(q, buf, pos);
  }

  /**
   `wpa_bss_get_ie`, `wpa_bss_get_vendor_ie` and its beacon variant: the offset of the
   first matching element of the longest well-formed sequence, or -1.
   */
  method Walk(buf: seq<byte>, q: Query) returns (pos: int)
    ensures pos < 0 ==> First(q, Parse(buf)) == None
    ensures pos >= 0 ==> First(q, Parse(buf)).Some? &&
                         exists before :: FirstAt(q, buf, pos, before, First(q, Parse(buf)).value)
  {
    pos := 0;
    ghost var before: seq<Element> := [];
    while pos + 1 < |buf|
      invariant 0 <= pos && At(buf, pos, before) && NoneMatches(q, before)
    {
      if pos + 2 + buf[pos + 1] > |buf| {
        break;
      }
      if MatchesAt(q, buf, pos) {
        FoundHere(q, buf, pos, before);
        return;
      }
      AtNext(buf, pos, before);
      PassedHere(q, buf, pos, before);
      before := before + [ElementAt(buf, pos)];
      pos := pos + 2 + buf[pos + 1];
    }
    AtEnd(buf, pos, before);
    FirstIff(q, before);
    pos := -1;
  }

  /** Collecting is independent of how matching elements are spread over other elements. */
  lemma {:induction false} CollectSplits(vendorType: int, a: seq<Element>, b: seq<Element>)
    ensures Collect(vendorType, a + b) == Collect(vendorType, a) + Collect(vendorType, b)
  {
    if a == [] {
      assert a + b == b;
    } else {
      var head := if Matches(ByVendor(vendorType), a[0]) then a[0].payload[4..] else [];
      CollectSplits(vendorType, a[1..], b);
      assert (a + b)[1..] == a[1..] + b;
      assert head + (Collect(vendorType, a[1..]) + Collect(vendorType, b))
          == head + Collect(vendorType, a[1..]) + Collect(vendorType, b);
    }
  }

  lemma {:induction false} CollectOne(vendorType: int, es: seq<Element>, e: Element)
    ensures Collect(vendorType, es + [e]) ==
            Collect(vendorType, es) + if Matches(ByVendor(vendorType), e) then e.payload[4..] else []
  {
    CollectSplits(vendorType, es, [e]);
    assert [e][1..] == [];
  }

  lemma {:induction false} CollectHere(vendorType: int, buf: seq<byte>, pos: nat, passed: seq<Element>)
    requires pos <= |buf| && StartsElement(buf[pos..])
    ensures Collect(vendorType, passed + [ElementAt(buf, pos)]) ==
            Collect(vendorType, passed) +
            if MatchesAt(ByVendor(vendorType), buf, pos) then buf[pos + 6..pos + 2 + buf[pos + 1]] else []
  {
    MatchesAlike(ByVendor(vendorType), buf, pos);
    CollectOne(vendorType, passed, ElementAt(buf, pos));
  }

  /** `wpa_bss_get_vendor_ie_multi` (and its beacon variant); the output buffer has `|buf|` octets. */
  method CollectVendor(buf: seq<byte>, vendorType: int) returns (r: Option<seq<byte>>)
    ensures r == if Collect(vendorType, Parse(buf)) == [] then None else Some(Collect(vendorType, Parse(buf)))
    ensures r.Some? ==> |r.value| <= |buf|
  {
    var out: seq<byte> := [];
    var pos := 0;
    ghost var passed: seq<Element> := [];
    while pos + 1 < |buf|
      invariant 0 <= pos && |out| <= pos && At(buf, pos, passed) && out == Collect(vendorType, passed)
    {
      if pos + 2 + buf[pos + 1] > |buf| {
        break;
      }
      AtNext(buf, pos, passed);
      CollectHere(vendorType, buf, pos, passed);
      if MatchesAt(ByVendor(vendorType), buf, pos) {
        assert |out| + buf[pos + 1] as int - 4 <= |buf|;  // wpabuf_put_data never overruns its buffer
        out := out + buf[pos + 6..pos + 2 + buf[pos + 1]];
      }
      passed := passed + [ElementAt(buf, pos)];
      pos := pos + 2 + buf[pos + 1];
    }
    AtEnd(buf, pos, passed);
    r := if out == [] then None else Some(out);
  }

  /** A vendor type is read with its first octet counting most. */
  lemma {:induction false} VendorTypeOf(p: seq<byte>)
    requires |p| >= 4
    ensures BE32(p) == ((p[0] as int * 256 + p[1] as int) * 256 + p[2] as int) * 256 + p[3] as int
  {
  }

  /** What a vendor element gives is what follows its four octets of type; others give nothing. */
  lemma {:induction false} CollectIs(vendorType: int, es: seq<Element>, head: seq<byte>, data: seq<byte>, e: Element)
    requires |head| == 4 && BE32(head) == vendorType && e == Element(EID_VENDOR_SPECIFIC, head + data)
    ensures Collect(vendorType, es + [e]) == Collect(vendorType, es) + data
  {
    CollectOne(vendorType, es, e);
    assert (head + data)[4..] == data && BE32(head + data) == BE32(head);
  }

  lemma {:induction false} CollectSkips(vendorType: int, es: seq<Element>, e: Element)
    requires e.id != EID_VENDOR_SPECIFIC || |e.payload| < 4 || BE32(e.payload) != vendorType
    ensures Collect(vendorType, es + [e]) == Collect(vendorType, es)
  {
    CollectOne(vendorType, es, e);
  }
}
