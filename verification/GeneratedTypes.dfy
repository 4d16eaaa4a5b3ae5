/** The generated serialize, deserialize and getCdrSerializedSize, statement by statement
    (stream_types.cxx). */
module GeneratedTypes {
  import opened Common
  import opened Cdr
  import opened CdrLists
  import opened CdrStreams
  import opened StreamTypes
  import opened Sizes
  import opened Decoding
  import opened WireFormat

  // ----- getCdrSerializedSize -----

  method GetPropertySize(data: Property, currentAlignment: nat) returns (size: nat)
    ensures currentAlignment + size == PropertyEnd(currentAlignment, data, BySize)
  {
    var current := currentAlignment;
    current := current + 4 + Pad(current) + |data.name| + 1;
    current := current + 4 + Pad(current) + |data.ptype| + 1;
    current := current + 4 + Pad(current) + |data.value| + 1;
    PropertyEndUnfolded(currentAlignment, data);
    size := current - currentAlignment;
  }

  lemma PropertyEndUnfolded(pos: nat, p: Property)
    ensures PropertyEnd(pos, p, BySize) == StringEnd(StringEnd(StringEnd(pos, |p.name|), |p.ptype|), |p.value|)
  {
    var l := Lengths(p, BySize);
    assert ListEnd(StringEnder(), pos, l, 1) == StringEnd(pos, l[0]) by {
      assert ListEnd(StringEnder(), pos, l, 0) == pos;
    }
    assert ListEnd(StringEnder(), pos, l, 2) == StringEnd(StringEnd(pos, l[0]), l[1]);
  }

  /** The size is never less than what serialize writes at the same offset, is exactly that if and only
      if the value is tight, and stays within the hard-coded maximum for values within the limits. */
  method GetStreamTypeSize(data: StreamType, currentAlignment: nat) returns (size: nat)
    ensures currentAlignment + size == StreamTypeEnd(currentAlignment, data, BySize)
    ensures forall e :: |StreamTypeLayout(currentAlignment, data, e)| <= size
    ensures forall e :: |StreamTypeLayout(currentAlignment, data, e)| == size <==> Tight(data)
    ensures Small(data) ==> size <= Pad(currentAlignment) + STREAM_TYPE_MAX
  {
    var current := currentAlignment;
    current := current + 4 + Pad(current) + |data.metatype| + 1;
    current := current + 4 + Pad(current);
    var a := 0;
    while a < |data.properties|
      invariant 0 <= a <= |data.properties|
      invariant current == PropertiesEnd(HeadEnd(currentAlignment, data, BySize), data.properties, a, BySize)
    {
      var propertySize := GetPropertySize(data.properties[a], current);
      current := current + propertySize;
      a := a + 1;
    }
    SizePromises(currentAlignment, data);
    size := current - currentAlignment;
  }

  lemma SizePromises(pos: nat, data: StreamType)
    ensures var size := StreamTypeEnd(pos, data, BySize) - pos;
            && 0 <= size
            && (forall e :: |StreamTypeLayout(pos, data, e)| <= size)
            && (forall e :: |StreamTypeLayout(pos, data, e)| == size <==> Tight(data))
            && (Small(data) ==> size <= Pad(pos) + STREAM_TYPE_MAX)
  {
    SizeNeverUnderestimates(pos, data);
    forall e ensures pos + |StreamTypeLayout(pos, data, e)| == StreamTypeEnd(pos, data, ByCStr) {
      StreamTypeLength(pos, data, e);
    }
    StreamTypeLength(pos, data, BigEndian);
    if Small(data) {
      StreamTypeMaximum(pos, data);
    }
  }

  method GetBusDataSize(data: Bytes, currentAlignment: nat) returns (size: nat)
    ensures forall e :: size == |BusDataLayout(currentAlignment, data, e)|
    ensures |data| <= 100 ==> size <= Pad(currentAlignment) + BUS_DATA_MAX
  {
    var current := currentAlignment;
    current := current + 4 + Pad(current);
    if |data| > 0 {
      current := current + |data|;
    }
    size := current - currentAlignment;
    forall e ensures currentAlignment + |BusDataLayout(currentAlignment, data, e)| == currentAlignment + size {
      BusDataLength(currentAlignment, data, e);
    }
  }

  // ----- serialize -----

  /** So far `layout` has been written into `body` at `pos`. */
  ghost predicate Progress(scdr: CdrStream, body: Body, pos: nat, layout: Layout)
    requires scdr.Valid()
    reads scdr, scdr.buffer
  {
    scdr.Pos() == pos + |layout| && Overlaid(body, pos, layout, scdr.Body())
  }

  /** `<<` of the i-th of some C strings. */
  method AppendString(s: seq<Bytes>, i: nat, scdr: CdrStream, ghost body: Body, ghost pos: nat,
                      ghost stages: seq<Layout>)
    returns (ok: bool)
    requires i < |s| && |stages| == |s| + 1
    requires scdr.Valid() && Stages(stages, StringEncoder(scdr.endianness), pos, s, |s|)
    requires Progress(scdr, body, pos, stages[i])
    modifies scdr`position, scdr.buffer
    ensures scdr.Valid() && scdr.origin == old(scdr.origin) && scdr.endianness == old(scdr.endianness)
    ensures scdr.buffer[..scdr.origin] == old(scdr.buffer[..scdr.origin])
    ensures |stages[i + 1]| <= |stages[|s|]|
    ensures (ok <==> pos + |stages[i + 1]| <= |body|) && (ok ==> Progress(scdr, body, pos, stages[i + 1]))
  {
    ghost var between, e := scdr.Body(), scdr.endianness;
    StageAt(stages, StringEncoder(e), pos, s, |s|, i);
    ok := scdr.WriteString(s[i]);
    if ok {
      OverlaidConcat(body, pos, stages[i], between, StringLayout(pos + |stages[i]|, s[i], e), scdr.Body());
    }
  }

  method SerializeThreeStrings(s: seq<Bytes>, scdr: CdrStream, ghost stages: seq<Layout>) returns (ok: bool)
    requires scdr.Valid() && |s| == 3 && |stages| == 4 && stages[0] == []
    requires Stages(stages, StringEncoder(scdr.endianness), scdr.Pos(), s, |s|)
    modifies scdr`position, scdr.buffer
    ensures scdr.Valid() && scdr.Wrote(stages[3], ok)
  {
    ghost var body, pos := scdr.Body(), scdr.Pos();
    OverlaidIff(body, pos, [], body, |body|);
    ok := AppendString(s, 0, scdr, body, pos, stages);
    if !ok { return; }
    ok := AppendString(s, 1, scdr, body, pos, stages);
    if !ok { return; }
    ok := AppendString(s, 2, scdr, body, pos, stages);
  }

  lemma PropertyStages(pos: nat, p: Property, e: Endianness) returns (stages: seq<Layout>)
    ensures |stages| == 4 && stages[0] == [] && stages[3] == PropertyLayout(pos, p, e)
    ensures Stages(stages, StringEncoder(e), pos, CStrings(p), 3)
  {
    stages := StagesOfLayout([], StringEncoder(e), pos, CStrings(p), 3);
    assert [] + PropertyLayout(pos, p, e) == PropertyLayout(pos, p, e);
  }

  method SerializeProperty(p: Property, scdr: CdrStream) returns (ok: bool)
    requires scdr.Valid() && p.Valid()
    modifies scdr`position, scdr.buffer
    ensures scdr.Valid() && scdr.Wrote(PropertyLayout(old(scdr.Pos()), p, scdr.endianness), ok)
    ensures ok ==> PropertyAt(scdr.Body(), old(scdr.Pos()), p, scdr.endianness)
  {
    ghost var body, pos := scdr.Body(), scdr.Pos();
    ghost var stages := PropertyStages(pos, p, scdr.endianness);
    ok := SerializeThreeStrings(CStrings(p), scdr, stages);
    if ok {
      PropertyWritten(body, pos, p, scdr.endianness, scdr.Body());
    }
  }

  /** `scdr << p`. */
  method WriteProperty(p: Property, scdr: CdrStream) returns (ok: bool)
    requires scdr.Valid() && p.Valid()
    modifies scdr`position, scdr.buffer
    ensures scdr.Valid() && scdr.Wrote(PropertyLayout(old(scdr.Pos()), p, scdr.endianness), ok)
  {
    ok := SerializeProperty(p, scdr);
  }

  lemma PropertyStageAt(stages: seq<Layout>, pos: nat, ps: seq<Property>, e: Endianness, i: nat)
    requires i < |ps| < |stages| && Stages(stages, PropertyEncoder(e), pos, ps, |ps|)
    ensures stages[i + 1] == stages[i] + PropertyLayout(pos + |stages[i]|, ps[i], e)
    ensures |stages[i + 1]| <= |stages[|ps|]|
  {
    StageAt(stages, PropertyEncoder(e), pos, ps, |ps|, i);
  }

  /** One element of `scdr << m_properties`. */
  method AppendProperty(ps: seq<Property>, i: nat, scdr: CdrStream, ghost body: Body, ghost pos: nat,
                        ghost stages: seq<Layout>)
    returns (ok: bool)
    requires i < |ps| && ps[i].Valid() && |stages| == |ps| + 1
    requires scdr.Valid() && Stages(stages, PropertyEncoder(scdr.endianness), pos, ps, |ps|)
    requires Progress(scdr, body, pos, stages[i])
    modifies scdr`position, scdr.buffer
    ensures scdr.Valid() && scdr.origin == old(scdr.origin) && scdr.endianness == old(scdr.endianness)
    ensures scdr.buffer[..scdr.origin] == old(scdr.buffer[..scdr.origin])
    ensures |stages[i + 1]| <= |stages[|ps|]|
    ensures (ok <==> pos + |stages[i + 1]| <= |body|) && (ok ==> Progress(scdr, body, pos, stages[i + 1]))
  {
    ghost var between, e := scdr.Body(), scdr.endianness;
    PropertyStageAt(stages, pos, ps, e, i);
    ok := WriteProperty(ps[i], scdr);
    if ok {
      OverlaidConcat(body, pos, stages[i], between, PropertyLayout(pos + |stages[i]|, ps[i], e), scdr.Body());
    }
  }

  /** The elements of `scdr << m_properties`. */
  method AppendProperties(ps: seq<Property>, scdr: CdrStream, ghost body: Body, ghost pos: nat,
                          ghost stages: seq<Layout>)
    returns (ok: bool)
    requires |stages| == |ps| + 1 && forall i :: 0 <= i < |ps| ==> ps[i].Valid()
    requires scdr.Valid() && Stages(stages, PropertyEncoder(scdr.endianness), pos, ps, |ps|)
    requires Progress(scdr, body, pos, stages[0])
    modifies scdr`position, scdr.buffer
    ensures scdr.Valid() && scdr.origin == old(scdr.origin) && scdr.endianness == old(scdr.endianness)
    ensures scdr.buffer[..scdr.origin] == old(scdr.buffer[..scdr.origin])
    ensures (ok <==> pos + |stages[|ps|]| <= |body|) && (ok ==> Progress(scdr, body, pos, stages[|ps|]))
  {
    ghost var origin, header, e := scdr.origin, scdr.buffer[..scdr.origin], scdr.endianness;
    for i := 0 to |ps|
      invariant scdr.Valid() && scdr.origin == origin && scdr.endianness == e && scdr.buffer[..origin] == header
      invariant Progress(scdr, body, pos, stages[i])
    {
      ok := AppendProperty(ps, i, scdr, body, pos, stages);
      if !ok { return; }
    }
    ok := true;
  }

  lemma StreamTypeLayoutUnfolded(pos: nat, st: StreamType, e: Endianness)
    ensures var head := HeadLayout(pos, st, e);
            StreamTypeLayout(pos, st, e)
            == head + ListLayout(PropertyEncoder(e), pos + |head|, st.properties, |st.properties|)
  {
  }

  lemma StreamTypeStages(pos: nat, st: StreamType, e: Endianness) returns (stages: seq<Layout>)
    ensures |stages| == |st.properties| + 1
    ensures stages[0] == HeadLayout(pos, st, e) && stages[|st.properties|] == StreamTypeLayout(pos, st, e)
    ensures Stages(stages, PropertyEncoder(e), pos, st.properties, |st.properties|)
  {
    StreamTypeLayoutUnfolded(pos, st, e);
    stages := StagesOfLayout(HeadLayout(pos, st, e), PropertyEncoder(e), pos, st.properties, |st.properties|);
  }

  // ----- the StreamType object -----

  class StreamTypeObject {
    var metatype: Bytes
    var properties: seq<Property>

    function Value(): StreamType
      reads this
    {
      StreamType(metatype, properties)
    }

    constructor ()
      ensures Value() == StreamType([], [])
    {
      metatype, properties := [], [];
    }

    /** The meta type and the number of properties. */
    method SerializeHead(scdr: CdrStream) returns (ok: bool)
      requires scdr.Valid() && Value().Valid()
      modifies scdr`position, scdr.buffer
      ensures scdr.Valid() && scdr.Wrote(HeadLayout(old(scdr.Pos()), Value(), scdr.endianness), ok)
    {
      ghost var body, pos, e := scdr.Body(), scdr.Pos(), scdr.endianness;
      ghost var a := StringLayout(pos, CStr(metatype), e);
      ok := scdr.WriteString(CStr(metatype));
      if !ok { return; }
      ghost var between := scdr.Body();
      ok := scdr.WriteULong(|properties|);
      if ok {
        OverlaidConcat(body, pos, a, between, ULongLayout(pos + |a|, |properties|, e), scdr.Body());
      }
    }

    method Serialize(scdr: CdrStream) returns (ok: bool)
      requires scdr.Valid() && Value().Valid()
      modifies scdr`position, scdr.buffer
      ensures scdr.Valid() && scdr.Wrote(StreamTypeLayout(old(scdr.Pos()), Value(), scdr.endianness), ok)
      ensures ok ==> StreamTypeAt(scdr.Body(), old(scdr.Pos()), Value(), scdr.endianness)
    {
      ghost var body, pos := scdr.Body(), scdr.Pos();
      ghost var stages := StreamTypeStages(pos, Value(), scdr.endianness);
      ok := SerializeHead(scdr);
      if !ok { return; }
      ok := AppendProperties(properties, scdr, body, pos, stages);
      if ok {
        StreamTypeWritten(body, pos, Value(), scdr.endianness, scdr.Body());
      }
    }

    /** On success the object holds the decoded value; on failure it may be partly overwritten. */
    method Deserialize(dcdr: CdrStream) returns (ok: bool)
      requires dcdr.Valid()
      modifies this, dcdr`position
      ensures dcdr.Valid() && dcdr.origin == old(dcdr.origin) && dcdr.endianness == old(dcdr.endianness)
      ensures var d := DecodeStreamType(dcdr.Body(), old(dcdr.Pos()), dcdr.endianness);
              (ok <==> d.Decoded?) && (ok ==> d == Decoded(Value(), dcdr.Pos()))
    {
      ghost var body, pos, e := dcdr.Body(), dcdr.Pos(), dcdr.endianness;
      var s := dcdr.ReadString();
      if s.None? { return false; }
      metatype := s.value;
      ghost var p1 := dcdr.Pos();
      var n := dcdr.ReadULong();
      if n.None? { return false; }
      ghost var p2 := dcdr.Pos();
      var ps: seq<Property>;
      ok, ps := DeserializeProperties(n.value, dcdr);
      properties := ps;
      if ok {
        StreamTypeStep(body, pos, e, metatype, p1, n.value, p2, ps, dcdr.Pos());
      }
    }
  }

  /** One more string of a property. */
  method NextString(dcdr: CdrStream, done: seq<Bytes>, ghost read: nat -> Decoded<Bytes>, ghost pos: nat)
    returns (all: Option<seq<Bytes>>)
    requires dcdr.Valid() && read == StringReader(dcdr.Body(), dcdr.endianness) && |done| < 3
    requires DecodeList(read, pos, |done|) == Decoded(done, dcdr.Pos())
    modifies dcdr`position
    ensures dcdr.Valid() && dcdr.origin == old(dcdr.origin) && dcdr.endianness == old(dcdr.endianness)
    ensures all.None? ==> DecodeList(read, pos, 3) == NotEnoughMemory
    ensures all.Some? ==> |all.value| == |done| + 1
    ensures all.Some? ==> DecodeList(read, pos, |done| + 1) == Decoded(all.value, dcdr.Pos())
  {
    ghost var q := dcdr.Pos();
    var s := dcdr.ReadString();
    if s.None? {
      ListFails(read, pos, |done|, done, q, 3);
      return None;
    }
    ListStep(read, pos, |done|, done, q, s.value, dcdr.Pos());
    all := Some(done + [s.value]);
  }

  method ReadThreeStrings(dcdr: CdrStream) returns (s: Option<seq<Bytes>>)
    requires dcdr.Valid()
    modifies dcdr`position
    ensures dcdr.Valid() && dcdr.origin == old(dcdr.origin) && dcdr.endianness == old(dcdr.endianness)
    ensures var d := DecodeList(StringReader(dcdr.Body(), dcdr.endianness), old(dcdr.Pos()), 3);
            match s case None => d == NotEnoughMemory case Some(v) => d == Decoded(v, dcdr.Pos())
  {
    ghost var read, pos := StringReader(dcdr.Body(), dcdr.endianness), dcdr.Pos();
    s := NextString(dcdr, [], read, pos);
    if s.None? { return; }
    s := NextString(dcdr, s.value, read, pos);
    if s.None? { return; }
    s := NextString(dcdr, s.value, read, pos);
  }

  method DeserializeProperty(dcdr: CdrStream) returns (p: Option<Property>)
    requires dcdr.Valid()
    modifies dcdr`position
    ensures dcdr.Valid() && dcdr.origin == old(dcdr.origin) && dcdr.endianness == old(dcdr.endianness)
    ensures var d := DecodeProperty(dcdr.Body(), old(dcdr.Pos()), dcdr.endianness);
            match p case None => d == NotEnoughMemory case Some(v) => d == Decoded(v, dcdr.Pos())
  {
    var s := ReadThreeStrings(dcdr);
    if s.None? { return None; }
    p := Some(Property(AssignFixed(s.value[0], 256), AssignFixed(s.value[1], 64), s.value[2]));
  }

  /** One more property of `n`. */
  method NextProperty(dcdr: CdrStream, done: seq<Property>, ghost read: nat -> Decoded<Property>, ghost pos: nat,
                      n: nat)
    returns (all: Option<seq<Property>>)
    requires dcdr.Valid() && read == PropertyReader(dcdr.Body(), dcdr.endianness) && |done| < n
    requires DecodeList(read, pos, |done|) == Decoded(done, dcdr.Pos())
    modifies dcdr`position
    ensures dcdr.Valid() && dcdr.origin == old(dcdr.origin) && dcdr.endianness == old(dcdr.endianness)
    ensures all.None? ==> DecodeList(read, pos, n) == NotEnoughMemory
    ensures all.Some? ==> |all.value| == |done| + 1
    ensures all.Some? ==> DecodeList(read, pos, |done| + 1) == Decoded(all.value, dcdr.Pos())
  {
    ghost var q := dcdr.Pos();
    var p := DeserializeProperty(dcdr);
    if p.None? {
      ListFails(read, pos, |done|, done, q, n);
      return None;
    }
    ListStep(read, pos, |done|, done, q, p.value, dcdr.Pos());
    all := Some(done + [p.value]);
  }

  method DeserializeProperties(n: nat, dcdr: CdrStream) returns (ok: bool, ps: seq<Property>)
    requires dcdr.Valid()
    modifies dcdr`position
    ensures dcdr.Valid() && dcdr.origin == old(dcdr.origin) && dcdr.endianness == old(dcdr.endianness)
    ensures var d := DecodeList(PropertyReader(dcdr.Body(), dcdr.endianness), old(dcdr.Pos()), n);
            (ok <==> d.Decoded?) && (ok ==> d == Decoded(ps, dcdr.Pos()))
  {
    ghost var body, pos, e := dcdr.Body(), dcdr.Pos(), dcdr.endianness;
    ghost var read := PropertyReader(body, e);
    ps := [];
    while |ps| < n
      invariant |ps| <= n && dcdr.Valid() && dcdr.origin == old(dcdr.origin) && dcdr.endianness == e
      invariant dcdr.Body() == body
      invariant DecodeList(read, pos, |ps|) == Decoded(ps, dcdr.Pos())
    {
      var next := NextProperty(dcdr, ps, read, pos, n);
      if next.None? { return false, ps; }
      ps := next.value;
    }
    ok := true;
  }

  method SerializeBusData(data: Bytes, scdr: CdrStream) returns (ok: bool)
    requires scdr.Valid() && |data| < ULONG
    modifies scdr`position, scdr.buffer
    ensures scdr.Valid() && scdr.Wrote(BusDataLayout(old(scdr.Pos()), data, scdr.endianness), ok)
    ensures ok ==> BusDataAt(scdr.Body(), old(scdr.Pos()), data, scdr.endianness)
  {
    ghost var body, pos := scdr.Body(), scdr.Pos();
    ghost var head := ULongLayout(pos, |data|, scdr.endianness);
    ok := scdr.WriteULong(|data|);
    if !ok { return; }
    ghost var between := scdr.Body();
    ok := scdr.WriteOctets(data);
    if ok {
      OverlaidConcat(body, pos, head, between, Solid(data), scdr.Body());
      BusDataWritten(body, pos, data, scdr.endianness, scdr.Body());
    }
  }

  method DeserializeBusData(dcdr: CdrStream) returns (data: Option<Bytes>)
    requires dcdr.Valid()
    modifies dcdr`position
    ensures dcdr.Valid() && dcdr.origin == old(dcdr.origin) && dcdr.endianness == old(dcdr.endianness)
    ensures var d := DecodeBusData(dcdr.Body(), old(dcdr.Pos()), dcdr.endianness);
            match data case None => d == NotEnoughMemory case Some(v) => d == Decoded(v, dcdr.Pos())
  {
    var n := dcdr.ReadULong();
    if n.None? { return None; }
    data := dcdr.ReadOctets(n.value);
  }
}
