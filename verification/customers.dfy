/**
 * The customer population of the order generator: a draw in [700, 800]
 * written into a fixed UUID template (CassandraDDL.placeOrders).
 */
module Customers {

  import opened Wrappers
  import opened Decimal

  /** Bounds of the drawn customer number, inclusive. */
  const PoolLow: int := 700
  const PoolHigh: int := 800

  /** The groups of the fixed id template "a4a70900-24e1-11df-8924-001ff3591". */
  const TimeLow: string := "a4a70900"
  const TimeMid: string := "24e1"
  const TimeHigh: string := "11df"
  const ClockSeq: string := "8924"
  const NodeHead: string := "001ff3591"

  predicate IsLowerHex(c: char) {
    '0' <= c <= '9' || 'a' <= c <= 'f'
  }

  predicate AllLowerHex(s: string) {
    s == [] || (IsLowerHex(s[0]) && AllLowerHex(s[1..]))
  }

  /** Five groups of hex digits joined by hyphens. */
  function UuidText(g1: string, g2: string, g3: string, g4: string, g5: string): string {
    g1 + "-" + g2 + "-" + g3 + "-" + g4 + "-" + g5
  }

  /** The fixed first 33 characters of every customer id. */
  const IdPrefix: string := UuidText(TimeLow, TimeMid, TimeHigh, ClockSeq, NodeHead)

  /**
   * The canonical text of a UUID: five groups of 8, 4, 4, 4 and 12 lower-case
   * hex digits joined by hyphens. `UUID.fromString` accepts such a text and
   * the UUID's own rendering gives it back unchanged.
   */
  predicate IsCanonicalUuid(s: string) {
    |s| == 36 && s[8] == '-' && s[13] == '-' && s[18] == '-' && s[23] == '-'
    && AllLowerHex(s[..8]) && AllLowerHex(s[9..13]) && AllLowerHex(s[14..18])
    && AllLowerHex(s[19..23]) && AllLowerHex(s[24..])
  }

  lemma {:induction false} AllLowerHexConcat(a: string, b: string)
    requires AllLowerHex(a) && AllLowerHex(b)
    ensures AllLowerHex(a + b)
    decreases |a|
  {
    if a == [] {
      assert a + b == b;
    } else {
      assert (a + b)[1..] == a[1..] + b;
      AllLowerHexConcat(a[1..], b);
    }
  }

  lemma {:induction false} DigitsAreHex(s: string)
    requires AllDigits(s)
    ensures AllLowerHex(s)
    decreases |s|
  {
    if s != [] {
      DigitsAreHex(s[1..]);
    }
  }

  lemma UuidTextCanonical(g1: string, g2: string, g3: string, g4: string, g5: string)
    requires |g1| == 8 && |g2| == 4 && |g3| == 4 && |g4| == 4 && |g5| == 12
    requires AllLowerHex(g1) && AllLowerHex(g2) && AllLowerHex(g3) && AllLowerHex(g4)
    requires AllLowerHex(g5)
    ensures IsCanonicalUuid(UuidText(g1, g2, g3, g4, g5))
  {
    var a1 := g1 + "-";
    var a2 := a1 + g2;
    var a3 := a2 + "-";
    var a4 := a3 + g3;
    var a5 := a4 + "-";
    var a6 := a5 + g4;
    var a7 := a6 + "-";
    var s := a7 + g5;
    assert s == UuidText(g1, g2, g3, g4, g5);
    assert |a7| == 24 && s[..24] == a7 && s[24..] == g5;
    assert a7[..23] == a6 && a7[23] == '-';
    assert a6[..19] == a5 && a6[19..] == g4;
    assert a5[..18] == a4 && a5[18] == '-';
    assert a4[..14] == a3 && a4[14..] == g3;
    assert a3[..13] == a2 && a3[13] == '-';
    assert a2[..9] == a1 && a2[9..] == g2;
    assert a1[..8] == g1 && a1[8] == '-';
    assert s[..8] == g1;
    assert s[9..13] == g2;
    assert s[14..18] == g3;
    assert s[19..23] == g4;
  }

  lemma UuidTextAppend(g1: string, g2: string, g3: string, g4: string, g5: string, d: string)
    ensures UuidText(g1, g2, g3, g4, g5 + d) == UuidText(g1, g2, g3, g4, g5) + d
  {
  }

  lemma TemplateGroups()
    ensures |TimeLow| == 8 && |TimeMid| == 4 && |TimeHigh| == 4 && |ClockSeq| == 4
    ensures |NodeHead| == 9 && |IdPrefix| == 33
    ensures AllLowerHex(TimeLow) && AllLowerHex(TimeMid) && AllLowerHex(TimeHigh)
    ensures AllLowerHex(ClockSeq) && AllLowerHex(NodeHead)
  {
    TemplateShortGroupsHex();
    TemplateLongGroupsHex();
  }

  lemma TemplateShortGroupsHex()
    ensures AllLowerHex(TimeMid) && AllLowerHex(TimeHigh) && AllLowerHex(ClockSeq)
  {
  }

  lemma TemplateLongGroupsHex()
    ensures AllLowerHex(TimeLow) && AllLowerHex(NodeHead)
  {
  }

  /** `rand.nextInt((800 - 700) + 1) + 700`, given the value `nextInt` returned. */
  function CustomerFromDraw(draw: int): (c: int)
    requires 0 <= draw < PoolHigh - PoolLow + 1
    ensures PoolLow <= c <= PoolHigh
  {
    draw + PoolLow
  }

  /** The customer id: the prefix followed by the decimal text of the customer number. */
  function EncodeCustomer(c: int): (id: string)
    requires PoolLow <= c <= PoolHigh
    ensures |id| == 36 && IsCanonicalUuid(id)
  {
    ThreeDigits(c);
    TemplateGroups();
    DigitsAreHex(JavaToString(c));
    AllLowerHexConcat(NodeHead, JavaToString(c));
    UuidTextCanonical(TimeLow, TimeMid, TimeHigh, ClockSeq, NodeHead + JavaToString(c));
    UuidTextAppend(TimeLow, TimeMid, TimeHigh, ClockSeq, NodeHead, JavaToString(c));
    IdPrefix + JavaToString(c)
  }

  /**
   * An id is 36 characters: the 33-character prefix, then the three digits of
   * the customer number, laid out as a canonical UUID text (8-4-4-4-12).
   */
  lemma EncodedLayout(c: int)
    requires PoolLow <= c <= PoolHigh
    ensures var id := EncodeCustomer(c);
      |id| == 36 && id[..33] == IdPrefix && id[33..] == Digits(c) && IsCanonicalUuid(id)
  {
    ThreeDigits(c);
    TemplateGroups();
  }

  /** Recovers the customer number from an id, for ids of the pool only. */
  function DecodeCustomer(id: string): (r: Option<int>)
    ensures r.Some? ==> PoolLow <= r.value <= PoolHigh
  {
    if |id| == 36 && id[..33] == IdPrefix && AllDigits(id[33..])
       && PoolLow <= ParseDigits(id[33..]) <= PoolHigh
    then Some(ParseDigits(id[33..]))
    else None
  }

  /** The ids the generator can produce. */
  ghost function CustomerIds(): set<string> {
    set c | PoolLow <= c <= PoolHigh :: EncodeCustomer(c)
  }

  /** Decoding an encoded id gives the customer number back. */
  lemma DecodeEncode(c: int)
    requires PoolLow <= c <= PoolHigh
    ensures DecodeCustomer(EncodeCustomer(c)) == Some(c)
  {
    EncodedLayout(c);
    ParseDigitsOfDigits(c);
  }

  /** Every id that decodes is the encoding of what it decodes to. */
  lemma EncodeDecode(id: string)
    requires DecodeCustomer(id).Some?
    ensures EncodeCustomer(DecodeCustomer(id).value) == id
  {
    var s := id[33..];
    assert ParseDigits(s) >= 100;
    ThreeDigitsOfParse(s);
    assert id == id[..33] + s;
    TemplateGroups();
  }

  /** Equal draws give equal ids and distinct draws give distinct ids. */
  lemma EncodeInjective(c1: int, c2: int)
    requires PoolLow <= c1 <= PoolHigh && PoolLow <= c2 <= PoolHigh
    ensures EncodeCustomer(c1) == EncodeCustomer(c2) <==> c1 == c2
  {
    DecodeEncode(c1);
    DecodeEncode(c2);
  }

  /** An injective function maps the integers lo..hi to hi - lo + 1 distinct values. */
  lemma {:induction false} InjectiveImageSize(f: int -> string, lo: int, hi: int)
    requires lo <= hi + 1
    requires forall a, b :: lo <= a <= hi && lo <= b <= hi && f(a) == f(b) ==> a == b
    ensures |set c | lo <= c <= hi :: f(c)| == hi - lo + 1
    decreases hi - lo
  {
    var all := set c | lo <= c <= hi :: f(c);
    if lo <= hi {
      var smaller := set c | lo <= c <= hi - 1 :: f(c);
      assert all == smaller + {f(hi)};
      InjectiveImageSize(f, lo, hi - 1);
    } else {
      assert all == {};
    }
  }

  /** The customer ids are the image of the pool under any function that agrees with the encoding there. */
  lemma CustomerIdsImage(f: int -> string)
    requires forall c :: PoolLow <= c <= PoolHigh ==> f(c) == EncodeCustomer(c)
    ensures CustomerIds() == set c | PoolLow <= c <= PoolHigh :: f(c)
  {
    var image := set c | PoolLow <= c <= PoolHigh :: f(c);
    forall x | x in CustomerIds() ensures x in image {
      var c :| PoolLow <= c <= PoolHigh && EncodeCustomer(c) == x;
      assert f(c) == x;
    }
    forall x | x in image ensures x in CustomerIds() {
      var c :| PoolLow <= c <= PoolHigh && f(c) == x;
      assert EncodeCustomer(c) == x;
    }
  }

  /** The pool holds 101 distinct customer ids (700 through 800), not 100. */
  lemma PoolSize()
    ensures |CustomerIds()| == PoolHigh - PoolLow + 1 == 101
  {
    var f := (c: int) => if PoolLow <= c <= PoolHigh then EncodeCustomer(c) else "";
    forall a, b | PoolLow <= a <= PoolHigh && PoolLow <= b <= PoolHigh && f(a) == f(b)
      ensures a == b
    {
      EncodeInjective(a, b);
    }
    InjectiveImageSize(f, PoolLow, PoolHigh);
    CustomerIdsImage(f);
  }
}
