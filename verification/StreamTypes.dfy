/** The generated bus types: their sizes, their serialization and their deserialization
    (stream_types.cxx). */
module StreamTypes {
  import opened Common
  import opened Cdr
  import opened CdrLists

  /** std::string::c_str() as seen by a reader of C strings: the octets before the first NUL. */
  function CStr(s: Bytes): (r: Bytes)
    ensures |r| <= |s|
  {
    if s == [] || s[0] == 0 then [] else [s[0]] + CStr(s[1..])
  }

  /** It ends at the first NUL, or it is the whole string. */
  lemma {:induction false} CStrEndsAtFirstNul(s: Bytes)
    ensures CStr(s) == s[..|CStr(s)|] && 0 !in CStr(s) && (|CStr(s)| < |s| ==> s[|CStr(s)|] == 0)
  {
    if s != [] && s[0] != 0 {
      CStrEndsAtFirstNul(s[1..]);
      assert CStr(s) == [s[0]] + CStr(s[1..]);
    }
  }

  lemma {:induction false} CStrFacts(s: Bytes)
    ensures 0 !in CStr(s) && CStr(CStr(s)) == CStr(s)
    ensures CStr(s) == s <==> 0 !in s
    ensures |CStr(s)| == |s| ==> CStr(s) == s
  {
    if s != [] && s[0] != 0 {
      CStrFacts(s[1..]);
      assert s == [s[0]] + s[1..];
      assert CStr(s)[1..] == CStr(s[1..]);
    }
  }

  /** Name and type are fixed_string<256> and fixed_string<64>; every length, with the NUL, fits the
      32-bit length field of the encoding. */
  datatype Property = Property(name: Bytes, ptype: Bytes, value: Bytes) {
    predicate Valid() { |name| <= 256 && |ptype| <= 64 && |value| + 1 < ULONG }

    function Written(): Property { Property(CStr(name), CStr(ptype), CStr(value)) }

    predicate NoNul() { 0 !in name && 0 !in ptype && 0 !in value }
  }

  datatype StreamType = StreamType(metatype: Bytes, properties: seq<Property>) {
    predicate Valid() {
      |metatype| + 1 < ULONG && |properties| < ULONG && forall i :: 0 <= i < |properties| ==> properties[i].Valid()
    }

    /** What serialize actually writes: every string only up to its first NUL. */
    function Written(): StreamType { StreamType(CStr(metatype), WrittenAll(properties, |properties|)) }

    predicate NoNul() {
      0 !in metatype && forall i :: 0 <= i < |properties| ==> properties[i].NoNul()
    }
  }

  /** The first n properties as serialize writes them. */
  function WrittenAll(ps: seq<Property>, n: nat): (r: seq<Property>)
    requires n <= |ps|
    ensures |r| == n
  {
    if n == 0 then [] else WrittenAll(ps, n - 1) + [ps[n - 1].Written()]
  }

  lemma {:induction false} WrittenAllIsIdentityIff(ps: seq<Property>, n: nat)
    requires n <= |ps|
    ensures WrittenAll(ps, n) == ps[..n] <==> forall i :: 0 <= i < n ==> ps[i].NoNul()
  {
    if n > 0 {
      WrittenAllIsIdentityIff(ps, n - 1);
      var last := ps[n - 1];
      CStrFacts(last.name);
      CStrFacts(last.ptype);
      CStrFacts(last.value);
      assert ps[..n] == ps[..n - 1] + [last];
      assert WrittenAll(ps, n)[..n - 1] == WrittenAll(ps, n - 1);
    }
  }

  lemma {:induction false} WrittenAllAt(ps: seq<Property>, n: nat, i: nat)
    requires i < n <= |ps|
    ensures WrittenAll(ps, n)[i] == ps[i].Written()
    decreases n
  {
    if i < n - 1 {
      WrittenAllAt(ps, n - 1, i);
    }
  }

  lemma WrittenIsIdentityIff(st: StreamType)
    ensures st.Written() == st <==> st.NoNul()
  {
    CStrFacts(st.metatype);
    WrittenAllIsIdentityIff(st.properties, |st.properties|);
    assert st.properties[..|st.properties|] == st.properties;
  }

  // ----- sizes: end positions -----

  /** The length that counts: size() in getCdrSerializedSize, the C string in serialize. */
  datatype Measure = BySize | ByCStr

  function Length(s: Bytes, m: Measure): nat { if m.BySize? then |s| else |CStr(s)| }

  function StringEnd(pos: nat, length: nat): nat { AlignUp(pos) + 4 + length + 1 }

  function Lengths(p: Property, m: Measure): (l: seq<nat>)
    ensures |l| == 3
  {
    [Length(p.name, m), Length(p.ptype, m), Length(p.value, m)]
  }

  function StringEnder(): (nat, nat) -> nat { (pos: nat, length: nat) => StringEnd(pos, length) }

  function PropertyEnd(pos: nat, p: Property, m: Measure): nat { ListEnd(StringEnder(), pos, Lengths(p, m), 3) }

  function PropertyEnder(m: Measure): (nat, Property) -> nat { (pos: nat, p: Property) => PropertyEnd(pos, p, m) }

  /** The end of the first n properties. */
  function PropertiesEnd(pos: nat, ps: seq<Property>, n: nat, m: Measure): nat
    requires n <= |ps|
  {
    ListEnd(PropertyEnder(m), pos, ps, n)
  }

  /** The end of the meta type and the number of properties. */
  function HeadEnd(pos: nat, st: StreamType, m: Measure): nat {
    AlignUp(StringEnd(pos, Length(st.metatype, m))) + 4
  }

  function StreamTypeEnd(pos: nat, st: StreamType, m: Measure): nat {
    PropertiesEnd(HeadEnd(pos, st, m), st.properties, |st.properties|, m)
  }

  function BusDataEnd(pos: nat, data: Bytes): nat { AlignUp(pos) + 4 + |data| }

  // ----- layouts -----

  function CStrings(p: Property): (s: seq<Bytes>)
    ensures |s| == 3
  {
    [CStr(p.name), CStr(p.ptype), CStr(p.value)]
  }

  function StringEncoder(e: Endianness): (nat, Bytes) -> Layout { (pos: nat, s: Bytes) => StringLayout(pos, s, e) }

  function PropertyLayout(pos: nat, p: Property, e: Endianness): Layout {
    ListLayout(StringEncoder(e), pos, CStrings(p), |CStrings(p)|)
  }

  function PropertyEncoder(e: Endianness): (nat, Property) -> Layout {
    (pos: nat, p: Property) => PropertyLayout(pos, p, e)
  }

  function PropertiesLayout(pos: nat, ps: seq<Property>, n: nat, e: Endianness): Layout
    requires n <= |ps|
  {
    ListLayout(PropertyEncoder(e), pos, ps, n)
  }

  function HeadLayout(pos: nat, st: StreamType, e: Endianness): Layout {
    var a := StringLayout(pos, CStr(st.metatype), e);
    a + ULongLayout(pos + |a|, |st.properties|, e)
  }

  function StreamTypeLayout(pos: nat, st: StreamType, e: Endianness): Layout {
    var head := HeadLayout(pos, st, e);
    head + PropertiesLayout(pos + |head|, st.properties, |st.properties|, e)
  }

  function BusDataLayout(pos: nat, data: Bytes, e: Endianness): Layout {
    ULongLayout(pos, |data|, e) + Solid(data)
  }

  // ----- the size formulas give the lengths of the layouts -----

  lemma PropertyLength(pos: nat, p: Property, e: Endianness)
    ensures pos + |PropertyLayout(pos, p, e)| == PropertyEnd(pos, p, ByCStr)
  {
    ListLength(StringEncoder(e), StringEnder(), pos, CStrings(p), Lengths(p, ByCStr), 3);
  }

  lemma PropertiesLength(pos: nat, ps: seq<Property>, n: nat, e: Endianness)
    requires n <= |ps|
    ensures pos + |PropertiesLayout(pos, ps, n, e)| == PropertiesEnd(pos, ps, n, ByCStr)
  {
    forall q: nat, i | 0 <= i < n ensures q + |PropertyEncoder(e)(q, ps[i])| == PropertyEnder(ByCStr)(q, ps[i]) {
      PropertyLength(q, ps[i], e);
    }
    ListLength(PropertyEncoder(e), PropertyEnder(ByCStr), pos, ps, ps, n);
  }

  lemma StreamTypeLength(pos: nat, st: StreamType, e: Endianness)
    ensures pos + |StreamTypeLayout(pos, st, e)| == StreamTypeEnd(pos, st, ByCStr)
  {
    var head := HeadLayout(pos, st, e);
    assert pos + |head| == HeadEnd(pos, st, ByCStr);
    PropertiesLength(pos + |head|, st.properties, |st.properties|, e);
  }

  lemma BusDataLength(pos: nat, data: Bytes, e: Endianness)
    ensures pos + |BusDataLayout(pos, data, e)| == BusDataEnd(pos, data)
  {
  }
}
