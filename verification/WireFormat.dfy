/** Where each part of an encoding stands, octet by octet, stated on the octets themselves
    (stream_types.cxx; CORBA 3.0.3, sections 15.3.1.1, 15.3.2.5 and 15.3.2.7). */
module WireFormat {
  import opened Common
  import opened Cdr
  import opened CdrLists
  import opened StreamTypes
  import opened Decoding

  /** The four octets at q are the number n. */
  predicate ULongAt(body: Bytes, q: nat, n: nat, e: Endianness) {
    && q + 4 <= |body|
    && n == match e
            case BigEndian => 0x100_0000 * body[q] as nat + 0x1_0000 * body[q + 1] as nat
                              + 0x100 * body[q + 2] as nat + body[q + 3] as nat
            case LittleEndian => body[q] as nat + 0x100 * body[q + 1] as nat
                                 + 0x1_0000 * body[q + 2] as nat + 0x100_0000 * body[q + 3] as nat
  }

  /** Behind the padding: the length with the NUL, the octets, the NUL. */
  predicate StringAt(body: Bytes, pos: nat, s: Bytes, e: Endianness) {
    var q := AlignUp(pos);
    && ULongAt(body, q, |s| + 1, e)
    && q + 4 + |s| + 1 <= |body|
    && body[q + 4..q + 4 + |s|] == s && body[q + 4 + |s|] == 0
  }

  /** Three strings, each where the one before it ends. */
  predicate ThreeStringsAt(body: Bytes, pos: nat, a: Bytes, b: Bytes, c: Bytes, e: Endianness) {
    var p1 := StringEnd(pos, |a|);
    StringAt(body, pos, a, e) && StringAt(body, p1, b, e) && StringAt(body, StringEnd(p1, |b|), c, e)
  }

  /** The name, the type, the value. */
  predicate PropertyAt(body: Bytes, pos: nat, p: Property, e: Endianness) {
    ThreeStringsAt(body, pos, CStr(p.name), CStr(p.ptype), CStr(p.value), e)
  }

  function EndOfProperty(pos: nat, p: Property): nat {
    StringEnd(StringEnd(StringEnd(pos, |CStr(p.name)|), |CStr(p.ptype)|), |CStr(p.value)|)
  }

  function PropertyPlace(body: Bytes, e: Endianness): (nat, Property) -> bool {
    (pos: nat, p: Property) => PropertyAt(body, pos, p, e)
  }

  /** The properties from the first one on, each where the one before it ends. */
  predicate PropertiesAt(body: Bytes, pos: nat, ps: seq<Property>, e: Endianness) {
    ListAt(PropertyPlace(body, e), EndOfProperty, |body|, pos, ps)
  }

  /** The meta type, the number of properties. */
  predicate HeadAt(body: Bytes, pos: nat, metatype: Bytes, n: nat, e: Endianness) {
    StringAt(body, pos, metatype, e) && ULongAt(body, AlignUp(StringEnd(pos, |metatype|)), n, e)
  }

  function EndOfHead(pos: nat, metatype: Bytes): nat { AlignUp(StringEnd(pos, |metatype|)) + 4 }

  /** The meta type, the number of properties, the properties. */
  predicate StreamTypeAt(body: Bytes, pos: nat, st: StreamType, e: Endianness) {
    && HeadAt(body, pos, CStr(st.metatype), |st.properties|, e)
    && PropertiesAt(body, EndOfHead(pos, CStr(st.metatype)), st.properties, e)
  }

  /** The number of octets, the octets. */
  predicate BusDataAt(body: Bytes, pos: nat, data: Bytes, e: Endianness) {
    var q := AlignUp(pos);
    ULongAt(body, q, |data|, e) && q + 4 + |data| <= |body| && body[q + 4..q + 4 + |data|] == data
  }

  // ----- the layouts stand exactly so -----

  lemma DigitsAreOctets(n: nat, o0: byte, o1: byte, o2: byte, o3: byte)
    requires n == o0 as nat + 0x100 * o1 as nat + 0x1_0000 * o2 as nat + 0x100_0000 * o3 as nat
    ensures Octet(n, 0) == o0 && Octet(n, 1) == o1 && Octet(n, 2) == o2 && Octet(n, 3) == o3
  {
    var b1 := o1 as nat + 0x100 * o2 as nat + 0x1_0000 * o3 as nat;
    var b2 := o2 as nat + 0x100 * o3 as nat;
    assert n / 256 == b1 && b1 / 256 == b2 && b2 / 256 == o3 as nat;
    assert Octet(n, 1) == Octet(b1, 0);
    assert Octet(n, 2) == Octet(b1, 1) == Octet(b2, 0);
    assert Octet(n, 3) == Octet(b1, 2) == Octet(b2, 1) == Octet(o3 as nat, 0);
  }

  lemma ULongPlaces(pos: nat, n: nat, e: Endianness, j: nat)
    requires j < Pad(pos) + 4
    ensures var l, k := ULongLayout(pos, n, e), j - Pad(pos);
            l[j] == if k < 0 then None else Some(ULongOctet(n, k, e))
  {
  }

  lemma ULongStands(body: Bytes, pos: nat, n: nat, e: Endianness)
    requires Matches(body, pos, ULongLayout(pos, n, e))
    ensures AlignUp(pos) + 4 <= |body| && forall k :: 0 <= k < 4 ==> body[AlignUp(pos) + k] == ULongOctet(n, k, e)
  {
    var l, pad := ULongLayout(pos, n, e), Pad(pos);
    MatchesIff(body, pos, l);
    forall k | 0 <= k < 4 ensures body[AlignUp(pos) + k] == ULongOctet(n, k, e) {
      ULongPlaces(pos, n, e, pad + k);
      assert body[pos + (pad + k)] == l[pad + k].value;
    }
  }

  lemma ULongMatches(body: Bytes, pos: nat, n: nat, e: Endianness)
    requires AlignUp(pos) + 4 <= |body| && forall k :: 0 <= k < 4 ==> body[AlignUp(pos) + k] == ULongOctet(n, k, e)
    ensures Matches(body, pos, ULongLayout(pos, n, e))
  {
    var l, pad := ULongLayout(pos, n, e), Pad(pos);
    MatchesIff(body, pos, l);
    forall j | 0 <= j < |l| && l[j].Some? ensures body[pos + j] == l[j].value {
      ULongPlaces(pos, n, e, j);
      ULongOctetStands(body, pos, n, e, j - pad, pos + j);
    }
  }

  lemma ULongOctetStands(body: Bytes, pos: nat, n: nat, e: Endianness, k: nat, at: nat)
    requires AlignUp(pos) + 4 <= |body| && forall k :: 0 <= k < 4 ==> body[AlignUp(pos) + k] == ULongOctet(n, k, e)
    requires k < 4 && at == AlignUp(pos) + k
    ensures body[at] == ULongOctet(n, k, e)
  {
  }

  lemma ULongAtIff(body: Bytes, pos: nat, n: nat, e: Endianness)
    requires n < ULONG
    ensures Matches(body, pos, ULongLayout(pos, n, e)) <==> ULongAt(body, AlignUp(pos), n, e)
  {
    if AlignUp(pos) + 4 <= |body| {
      OctetsAreULong(body, AlignUp(pos), n, e);
    }
    if Matches(body, pos, ULongLayout(pos, n, e)) {
      ULongStands(body, pos, n, e);
    } else if ULongAt(body, AlignUp(pos), n, e) {
      ULongMatches(body, pos, n, e);
    }
  }

  lemma OctetsAreULong(body: Bytes, q: nat, n: nat, e: Endianness)
    requires n < ULONG && q + 4 <= |body|
    ensures (forall k :: 0 <= k < 4 ==> body[q + k] == ULongOctet(n, k, e)) <==> ULongAt(body, q, n, e)
  {
    ULongOctetsArePositional(n);
    if forall k :: 0 <= k < 4 ==> body[q + k] == ULongOctet(n, k, e) {
      assert body[q + 0] == ULongOctet(n, 0, e) && body[q + 1] == ULongOctet(n, 1, e);
      assert body[q + 2] == ULongOctet(n, 2, e) && body[q + 3] == ULongOctet(n, 3, e);
    }
    if ULongAt(body, q, n, e) {
      if e.BigEndian? {
        DigitsAreOctets(n, body[q + 3], body[q + 2], body[q + 1], body[q]);
      } else {
        DigitsAreOctets(n, body[q], body[q + 1], body[q + 2], body[q + 3]);
      }
    }
  }

  lemma SolidAtIff(body: Bytes, pos: nat, b: Bytes)
    ensures Matches(body, pos, Solid(b)) <==> pos + |b| <= |body| && body[pos..pos + |b|] == b
  {
    if pos + |b| <= |body| {
      MatchesIff(body, pos, Solid(b));
      if body[pos..pos + |b|] == b {
        forall j | 0 <= j < |b| ensures body[pos + j] == Solid(b)[j].value {
          assert body[pos..pos + |b|][j] == b[j];
        }
      }
      if Matches(body, pos, Solid(b)) {
        MatchesSolid(body, pos, b);
      }
    }
  }

  lemma SnocIff(a: Bytes, x: byte, b: Bytes, y: byte)
    ensures a + [x] == b + [y] <==> a == b && x == y
  {
    if a + [x] == b + [y] {
      assert a == (a + [x])[..|a|] == (b + [y])[..|b|] == b;
      assert x == (a + [x])[|a|] == (b + [y])[|b|] == y;
    }
  }

  lemma StringAtIff(body: Bytes, pos: nat, s: Bytes, e: Endianness)
    requires |s| + 1 < ULONG
    ensures Matches(body, pos, StringLayout(pos, s, e)) <==> StringAt(body, pos, s, e)
  {
    var q := AlignUp(pos) + 4;
    StringLayoutSplit(pos, s, e);
    MatchesConcatIff(body, pos, ULongLayout(pos, |s| + 1, e), Solid(s + [0]));
    ULongAtIff(body, pos, |s| + 1, e);
    SolidAtIff(body, q, s + [0]);
    if q + |s| + 1 <= |body| {
      assert body[q..q + |s| + 1] == body[q..q + |s|] + [body[q + |s|]];
      SnocIff(body[q..q + |s|], body[q + |s|], s, 0);
    }
  }

  lemma StringLayoutLength(pos: nat, s: Bytes, e: Endianness)
    ensures pos + |StringLayout(pos, s, e)| == StringEnd(pos, |s|)
  {
  }

  lemma ThreeStringsAtIff(body: Bytes, pos: nat, s: seq<Bytes>, e: Endianness)
    requires |s| == 3 && forall i :: 0 <= i < 3 ==> |s[i]| + 1 < ULONG
    ensures Matches(body, pos, ListLayout(StringEncoder(e), pos, s, 3))
       <==> ThreeStringsAt(body, pos, s[0], s[1], s[2], e)
    ensures pos + |ListLayout(StringEncoder(e), pos, s, 3)|
         == StringEnd(StringEnd(StringEnd(pos, |s[0]|), |s[1]|), |s[2]|)
  {
    var p1 := StringEnd(pos, |s[0]|);
    var p2 := StringEnd(p1, |s[1]|);
    StringAtIff(body, pos, s[0], e);
    StringAtIff(body, p1, s[1], e);
    StringAtIff(body, p2, s[2], e);
    ThreeElements(body, StringEncoder(e), pos, s, p1, p2);
  }

  /** The octets that serialize fixes of a property are those of its name, its type and its value, in this
      order. */
  lemma PropertyAtIff(body: Bytes, pos: nat, p: Property, e: Endianness)
    requires p.Valid()
    ensures Matches(body, pos, PropertyLayout(pos, p, e)) <==> PropertyAt(body, pos, p, e)
    ensures pos + |PropertyLayout(pos, p, e)| == EndOfProperty(pos, p)
  {
    ThreeStringsAtIff(body, pos, CStrings(p), e);
  }

  lemma PropertiesAtIff(body: Bytes, pos: nat, ps: seq<Property>, e: Endianness)
    requires forall i :: 0 <= i < |ps| ==> ps[i].Valid()
    ensures Matches(body, pos, PropertiesLayout(pos, ps, |ps|, e)) <==> PropertiesAt(body, pos, ps, e)
  {
    forall i | 0 <= i < |ps|
      ensures StandsAs(body, PropertyEncoder(e), PropertyPlace(body, e), EndOfProperty, ps[i])
    {
      forall q: nat
        ensures Matches(body, q, PropertyEncoder(e)(q, ps[i])) <==> PropertyPlace(body, e)(q, ps[i])
        ensures q + |PropertyEncoder(e)(q, ps[i])| == EndOfProperty(q, ps[i])
      {
        PropertyAtIff(body, q, ps[i], e);
      }
    }
    ListAtIff(body, PropertyEncoder(e), PropertyPlace(body, e), EndOfProperty, pos, ps);
  }

  lemma HeadAtIff(body: Bytes, pos: nat, metatype: Bytes, n: nat, e: Endianness)
    requires |metatype| + 1 < ULONG && n < ULONG
    ensures var a := StringLayout(pos, metatype, e);
            var head := a + ULongLayout(pos + |a|, n, e);
            && (Matches(body, pos, head) <==> HeadAt(body, pos, metatype, n, e))
            && pos + |head| == EndOfHead(pos, metatype)
  {
    var p1 := StringEnd(pos, |metatype|);
    StringLayoutLength(pos, metatype, e);
    MatchesConcatIff(body, pos, StringLayout(pos, metatype, e), ULongLayout(p1, n, e));
    StringAtIff(body, pos, metatype, e);
    ULongAtIff(body, p1, n, e);
  }

  lemma HeadThenProperties(body: Bytes, pos: nat, head: Layout, stands: bool, q: nat, ps: seq<Property>, e: Endianness)
    requires (stands <==> Matches(body, pos, head)) && q == pos + |head|
    requires forall i :: 0 <= i < |ps| ==> ps[i].Valid()
    ensures Matches(body, pos, head + PropertiesLayout(q, ps, |ps|, e)) <==> stands && PropertiesAt(body, q, ps, e)
  {
    MatchesConcatIff(body, pos, head, PropertiesLayout(q, ps, |ps|, e));
    PropertiesAtIff(body, q, ps, e);
  }

  /** The octets that serialize fixes of a stream type are those of its meta type, the number of its
      properties and its properties from the first one on. */
  lemma StreamTypeAtIff(body: Bytes, pos: nat, st: StreamType, e: Endianness)
    requires st.Valid()
    ensures Matches(body, pos, StreamTypeLayout(pos, st, e)) <==> StreamTypeAt(body, pos, st, e)
  {
    var metatype, n := CStr(st.metatype), |st.properties|;
    HeadAtIff(body, pos, metatype, n, e);
    HeadThenProperties(body, pos, HeadLayout(pos, st, e), HeadAt(body, pos, metatype, n, e), EndOfHead(pos, metatype),
                       st.properties, e);
  }

  lemma BusDataAtIff(body: Bytes, pos: nat, data: Bytes, e: Endianness)
    requires |data| < ULONG
    ensures Matches(body, pos, BusDataLayout(pos, data, e)) <==> BusDataAt(body, pos, data, e)
  {
    MatchesConcatIff(body, pos, ULongLayout(pos, |data|, e), Solid(data));
    ULongAtIff(body, pos, |data|, e);
    SolidAtIff(body, AlignUp(pos) + 4, data);
  }

  // ----- what serialize leaves in the octets -----

  lemma PropertyWritten(before: Bytes, pos: nat, p: Property, e: Endianness, after: Bytes)
    requires p.Valid() && Overlaid(before, pos, PropertyLayout(pos, p, e), after)
    ensures PropertyAt(after, pos, p, e)
  {
    OverlaidMatches(before, pos, PropertyLayout(pos, p, e), after);
    PropertyAtIff(after, pos, p, e);
  }

  lemma StreamTypeWritten(before: Bytes, pos: nat, st: StreamType, e: Endianness, after: Bytes)
    requires st.Valid() && Overlaid(before, pos, StreamTypeLayout(pos, st, e), after)
    ensures StreamTypeAt(after, pos, st, e)
  {
    OverlaidMatches(before, pos, StreamTypeLayout(pos, st, e), after);
    StreamTypeAtIff(after, pos, st, e);
  }

  lemma BusDataWritten(before: Bytes, pos: nat, data: Bytes, e: Endianness, after: Bytes)
    requires |data| < ULONG && Overlaid(before, pos, BusDataLayout(pos, data, e), after)
    ensures BusDataAt(after, pos, data, e)
  {
    OverlaidMatches(before, pos, BusDataLayout(pos, data, e), after);
    BusDataAtIff(after, pos, data, e);
  }

  // ----- what deserialize makes of the octets -----

  /** Three strings that stand one behind the other are read as the name, cut for 256 octets, the type, cut
      for 64, and the value. */
  lemma ThreeStringsAreProperty(body: Body, pos: nat, a: Bytes, b: Bytes, c: Bytes, e: Endianness)
    requires ThreeStringsAt(body, pos, a, b, c, e)
    ensures DecodeProperty(body, pos, e)
         == Decoded(Property(AssignFixed(a, 256), AssignFixed(b, 64), c),
                    StringEnd(StringEnd(StringEnd(pos, |a|), |b|), |c|))
  {
    ThreeStringsAtIff(body, pos, [a, b, c], e);
    ThreeStringsRoundTrip(body, pos, [a, b, c], e);
  }

  /** A meta type, a number of properties and so many properties are read as that stream type. */
  lemma StreamTypeIsRead(body: Body, pos: nat, st: StreamType, e: Endianness)
    requires st.Valid() && StreamTypeAt(body, pos, st, e)
    ensures DecodeStreamType(body, pos, e) == Decoded(st.Written(), StreamTypeEnd(pos, st, ByCStr))
  {
    StreamTypeAtIff(body, pos, st, e);
    StreamTypeRoundTrip(body, pos, st, e);
  }

  lemma BusDataIsRead(body: Body, pos: nat, data: Bytes, e: Endianness)
    requires BusDataAt(body, pos, data, e)
    ensures DecodeBusData(body, pos, e) == Decoded(data, AlignUp(pos) + 4 + |data|)
  {
    BusDataAtIff(body, pos, data, e);
    BusDataRoundTrip(body, pos, data, e);
  }

  lemma ULongIsRead(body: Bytes, pos: nat, n: nat, e: Endianness)
    requires n < ULONG && ULongAt(body, AlignUp(pos), n, e)
    ensures DecodeULong(body, pos, e) == Decoded(n, AlignUp(pos) + 4)
  {
    ULongAtIff(body, pos, n, e);
    DecodeULongOfLayout(body, pos, n, e);
  }

  /** A string whose announced octets do not end in a NUL is read with all of them. */
  lemma UnterminatedStringIsRead(body: Body, pos: nat, s: Bytes, e: Endianness)
    requires s != [] && s[|s| - 1] != 0 && ULongAt(body, AlignUp(pos), |s|, e)
    requires AlignUp(pos) + 4 + |s| <= |body| && body[AlignUp(pos) + 4..AlignUp(pos) + 4 + |s|] == s
    ensures DecodeString(body, pos, e) == Decoded(s, AlignUp(pos) + 4 + |s|)
  {
    ULongIsRead(body, pos, |s|, e);
    AllOctetsAreRead(body, pos, s, AlignUp(pos) + 4, e);
  }

  lemma AllOctetsAreRead(body: Body, pos: nat, s: Bytes, q: nat, e: Endianness)
    requires s != [] && s[|s| - 1] != 0 && DecodeULong(body, pos, e) == Decoded(|s|, q)
    requires q + |s| <= |body| && body[q..q + |s|] == s
    ensures DecodeString(body, pos, e) == Decoded(s, q + |s|)
  {
    assert body[q + |s| - 1] == body[q..q + |s|][|s| - 1];
  }
}
