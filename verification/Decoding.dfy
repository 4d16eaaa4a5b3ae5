/** deserialize as a function on octets, and its round trip with the layouts that serialize writes
    (stream_types.cxx). */
module Decoding {
  import opened Common
  import opened Cdr
  import opened CdrLists
  import opened StreamTypes

  /** Assignment to a fixed_string<n> from a C string. */
  function AssignFixed(s: Bytes, n: nat): (r: Bytes)
    ensures |r| <= n
  {
    var c := CStr(s);
    if |c| <= n then c else c[..n]
  }

  /** As many octets as fit n, up to the first NUL. */
  lemma AssignFixedIsPrefix(s: Bytes, n: nat)
    ensures var r := AssignFixed(s, n);
            r == s[..|r|] && |r| <= n && 0 !in r && (|r| < |s| && |r| < n ==> s[|r|] == 0)
  {
    CStrEndsAtFirstNul(s);
  }

  function StringReader(body: Body, e: Endianness): nat -> Decoded<Bytes> { (q: nat) => DecodeString(body, q, e) }

  function DecodeProperty(body: Body, pos: nat, e: Endianness): Decoded<Property> {
    match DecodeList(StringReader(body, e), pos, 3)
    case NotEnoughMemory => NotEnoughMemory
    case Decoded(s, end) => Decoded(Property(AssignFixed(s[0], 256), AssignFixed(s[1], 64), s[2]), end)
  }

  function PropertyReader(body: Body, e: Endianness): nat -> Decoded<Property> {
    (q: nat) => DecodeProperty(body, q, e)
  }

  function DecodeStreamType(body: Body, pos: nat, e: Endianness): Decoded<StreamType> {
    match DecodeString(body, pos, e)
    case NotEnoughMemory => NotEnoughMemory
    case Decoded(metatype, p1) =>
      match DecodeULong(body, p1, e)
      case NotEnoughMemory => NotEnoughMemory
      case Decoded(n, p2) =>
        match DecodeList(PropertyReader(body, e), p2, n)
        case NotEnoughMemory => NotEnoughMemory
        case Decoded(ps, p3) => Decoded(StreamType(metatype, ps), p3)
  }

  function DecodeBusData(body: Body, pos: nat, e: Endianness): Decoded<Bytes> {
    match DecodeULong(body, pos, e)
    case NotEnoughMemory => NotEnoughMemory
    case Decoded(n, q) => if q + n <= |body| then Decoded(body[q..q + n], q + n) else NotEnoughMemory
  }

  // ----- round trips, whatever the padding octets hold -----

  lemma StringRoundTrip(body: Body, s: Bytes, e: Endianness)
    requires |s| + 1 < ULONG
    ensures IsReadAs(body, StringEncoder(e), StringReader(body, e), s, s)
  {
    forall q: nat | Matches(body, q, StringEncoder(e)(q, s))
      ensures StringReader(body, e)(q) == Decoded(s, q + |StringEncoder(e)(q, s)|)
    {
      DecodeStringOfLayout(body, q, s, e);
    }
  }

  lemma ThreeStringsRoundTrip(body: Body, pos: nat, s: seq<Bytes>, e: Endianness)
    requires |s| == 3 && (forall i :: 0 <= i < 3 ==> |s[i]| + 1 < ULONG)
    requires Matches(body, pos, ListLayout(StringEncoder(e), pos, s, 3))
    ensures DecodeList(StringReader(body, e), pos, 3) == Decoded(s, pos + |ListLayout(StringEncoder(e), pos, s, 3)|)
  {
    forall i | 0 <= i < 3 ensures IsReadAs(body, StringEncoder(e), StringReader(body, e), s[i], s[i]) {
      StringRoundTrip(body, s[i], e);
    }
    ListRoundTrip(body, StringEncoder(e), StringReader(body, e), pos, s, s, 3);
    assert s[..3] == s;
  }

  lemma PropertyRoundTrip(body: Body, pos: nat, p: Property, e: Endianness)
    requires p.Valid() && Matches(body, pos, PropertyLayout(pos, p, e))
    ensures DecodeProperty(body, pos, e) == Decoded(p.Written(), pos + |PropertyLayout(pos, p, e)|)
  {
    ThreeStringsRoundTrip(body, pos, CStrings(p), e);
    CStrFacts(p.name);
    CStrFacts(p.ptype);
  }

  lemma PropertyIsReadAsWritten(body: Body, p: Property, e: Endianness)
    requires p.Valid()
    ensures IsReadAs(body, PropertyEncoder(e), PropertyReader(body, e), p, p.Written())
  {
    forall q: nat | Matches(body, q, PropertyEncoder(e)(q, p))
      ensures PropertyReader(body, e)(q) == Decoded(p.Written(), q + |PropertyEncoder(e)(q, p)|)
    {
      PropertyRoundTrip(body, q, p, e);
    }
  }

  lemma PropertiesRoundTrip(body: Body, pos: nat, ps: seq<Property>, n: nat, e: Endianness)
    requires n <= |ps| && (forall i :: 0 <= i < n ==> ps[i].Valid())
    requires Matches(body, pos, PropertiesLayout(pos, ps, n, e))
    ensures DecodeList(PropertyReader(body, e), pos, n)
         == Decoded(WrittenAll(ps, n), pos + |PropertiesLayout(pos, ps, n, e)|)
  {
    var images := WrittenAll(ps, n);
    forall i | 0 <= i < n ensures IsReadAs(body, PropertyEncoder(e), PropertyReader(body, e), ps[i], images[i]) {
      PropertyIsReadAsWritten(body, ps[i], e);
      WrittenAllAt(ps, n, i);
    }
    ListRoundTrip(body, PropertyEncoder(e), PropertyReader(body, e), pos, ps, images, n);
    assert images[..n] == images;
  }

  lemma HeadRoundTrip(body: Body, pos: nat, st: StreamType, e: Endianness)
    requires st.Valid() && Matches(body, pos, HeadLayout(pos, st, e))
    ensures var s := DecodeString(body, pos, e);
            && s.Decoded? && s.value == CStr(st.metatype)
            && DecodeULong(body, s.end, e) == Decoded(|st.properties|, pos + |HeadLayout(pos, st, e)|)
  {
    var p1 := pos + |StringLayout(pos, CStr(st.metatype), e)|;
    MatchesConcat(body, pos, StringLayout(pos, CStr(st.metatype), e), ULongLayout(p1, |st.properties|, e));
    DecodeStringOfLayout(body, pos, CStr(st.metatype), e);
    DecodeULongOfLayout(body, p1, |st.properties|, e);
  }

  lemma StreamTypeStep(body: Body, pos: nat, e: Endianness, metatype: Bytes, p1: nat, n: nat, p2: nat,
                       ps: seq<Property>, p3: nat)
    requires DecodeString(body, pos, e) == Decoded(metatype, p1) && DecodeULong(body, p1, e) == Decoded(n, p2)
    requires DecodeList(PropertyReader(body, e), p2, n) == Decoded(ps, p3)
    ensures DecodeStreamType(body, pos, e) == Decoded(StreamType(metatype, ps), p3)
  {
  }

  /** Reading what was written gives every string up to its first NUL and consumes exactly the octets
      written; so it gives back an equal value if and only if no string holds a NUL. */
  lemma StreamTypeRoundTrip(body: Body, pos: nat, st: StreamType, e: Endianness)
    requires st.Valid() && Matches(body, pos, StreamTypeLayout(pos, st, e))
    ensures DecodeStreamType(body, pos, e) == Decoded(st.Written(), StreamTypeEnd(pos, st, ByCStr))
    ensures DecodeStreamType(body, pos, e) == Decoded(st, StreamTypeEnd(pos, st, ByCStr)) <==> st.NoNul()
  {
    var head := HeadLayout(pos, st, e);
    var q, n := pos + |head|, |st.properties|;
    var l := PropertiesLayout(q, st.properties, n, e);
    MatchesConcat(body, pos, head, l);
    HeadRoundTrip(body, pos, st, e);
    PropertiesRoundTrip(body, q, st.properties, n, e);
    StreamTypeStep(body, pos, e, CStr(st.metatype), DecodeString(body, pos, e).end, n, q,
                   WrittenAll(st.properties, n), q + |l|);
    StreamTypeLength(pos, st, e);
    WrittenIsIdentityIff(st);
  }

  lemma BusDataRoundTrip(body: Body, pos: nat, data: Bytes, e: Endianness)
    requires |data| < ULONG && Matches(body, pos, BusDataLayout(pos, data, e))
    ensures DecodeBusData(body, pos, e) == Decoded(data, BusDataEnd(pos, data))
  {
    var head := ULongLayout(pos, |data|, e);
    MatchesConcat(body, pos, head, Solid(data));
    DecodeULongOfLayout(body, pos, |data|, e);
    MatchesSolid(body, pos + |head|, data);
  }

  // ----- truncated input -----

  lemma PropertyPrefix(prefix: Body, body: Body, pos: nat, e: Endianness)
    requires prefix <= body && DecodeProperty(prefix, pos, e).Decoded?
    ensures DecodeProperty(body, pos, e) == DecodeProperty(prefix, pos, e)
    ensures DecodeProperty(body, pos, e).end <= |prefix|
  {
    forall q: nat | StringReader(prefix, e)(q).Decoded?
      ensures StringReader(body, e)(q) == StringReader(prefix, e)(q) && StringReader(prefix, e)(q).end <= |prefix|
    {
      DecodeStringPrefix(prefix, body, q, e);
    }
    ListPrefix(StringReader(prefix, e), StringReader(body, e), |prefix|, pos, 3);
  }

  lemma PropertiesPrefix(prefix: Body, body: Body, pos: nat, n: nat, e: Endianness)
    requires prefix <= body && pos <= |prefix| && DecodeList(PropertyReader(prefix, e), pos, n).Decoded?
    ensures DecodeList(PropertyReader(body, e), pos, n) == DecodeList(PropertyReader(prefix, e), pos, n)
    ensures DecodeList(PropertyReader(body, e), pos, n).end <= |prefix|
  {
    forall q: nat | PropertyReader(prefix, e)(q).Decoded?
      ensures PropertyReader(body, e)(q) == PropertyReader(prefix, e)(q) && PropertyReader(prefix, e)(q).end <= |prefix|
    {
      PropertyPrefix(prefix, body, q, e);
    }
    ListPrefix(PropertyReader(prefix, e), PropertyReader(body, e), |prefix|, pos, n);
  }

  /** Octets cut off before the end of what deserialize needs are never taken for a value: reading them
      fails, or it gives the very value that the whole octets give. */
  lemma StreamTypePrefix(prefix: Body, body: Body, pos: nat, e: Endianness)
    requires prefix <= body && DecodeStreamType(prefix, pos, e).Decoded?
    ensures DecodeStreamType(body, pos, e) == DecodeStreamType(prefix, pos, e)
    ensures DecodeStreamType(body, pos, e).end <= |prefix|
  {
    DecodeStringPrefix(prefix, body, pos, e);
    var s := DecodeString(prefix, pos, e);
    DecodeULongPrefix(prefix, body, s.end, e);
    var count := DecodeULong(prefix, s.end, e);
    var ps := DecodeList(PropertyReader(prefix, e), count.end, count.value);
    PropertiesPrefix(prefix, body, count.end, count.value, e);
    StreamTypeStep(body, pos, e, s.value, s.end, count.value, count.end, ps.value, ps.end);
  }

  /** Every proper prefix of an encoding is rejected. */
  lemma TruncatedEncodingIsRejected(prefix: Body, body: Body, pos: nat, st: StreamType, e: Endianness)
    requires st.Valid() && Matches(body, pos, StreamTypeLayout(pos, st, e))
    requires prefix <= body && |prefix| < StreamTypeEnd(pos, st, ByCStr)
    ensures DecodeStreamType(prefix, pos, e) == NotEnoughMemory
  {
    StreamTypeRoundTrip(body, pos, st, e);
    if DecodeStreamType(prefix, pos, e).Decoded? {
      StreamTypePrefix(prefix, body, pos, e);
      assert false;
    }
  }
}
