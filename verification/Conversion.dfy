/** From the FEP stream type to the DDS type and back (stream_item_writer.cpp,
    reader_item_queue.cpp). */
module Conversion {
  import opened Common
  import opened Cdr
  import opened StreamTypes
  import opened Decoding
  import opened StreamItemTopics

  type Dds = StreamTypes.StreamType
  type Fep = FepStreamType

  /** getPropertyNames: every property name once, in any order. */
  ghost predicate Enumerates(names: seq<Bytes>, t: Fep) {
    && (forall i, j :: 0 <= i < j < |names| ==> names[i] != names[j])
    && (forall i :: 0 <= i < |names| ==> names[i] in t.properties)
    && (forall k :: k in t.properties ==> k in names)
  }

  // ----- the two conversions -----

  function DdsProperty(t: Fep, name: Bytes): Property
    requires name in t.properties
  {
    Property(AssignFixed(name, 256), AssignFixed(t.properties[name].ptype, 64), t.properties[name].value)
  }

  function ToDds(t: Fep, names: seq<Bytes>): Dds
    requires forall i :: 0 <= i < |names| ==> names[i] in t.properties
  {
    StreamType(t.metatype, seq(|names|, i requires 0 <= i < |names| => DdsProperty(t, names[i])))
  }

  /** The properties after n calls of setProperty; a later call for the same name wins. */
  function SetProperties(ps: seq<Property>, n: nat): map<Bytes, FepProperty>
    requires n <= |ps|
  {
    if n == 0 then map[]
    else SetProperties(ps, n - 1)[CStr(ps[n - 1].name) := FepProperty(ps[n - 1].value, CStr(ps[n - 1].ptype))]
  }

  function FromDds(st: Dds): Fep { FepStreamType(st.metatype, SetProperties(st.properties, |st.properties|)) }

  lemma {:induction false} SetPropertiesKeys(ps: seq<Property>, n: nat, name: Bytes)
    requires n <= |ps|
    ensures name in SetProperties(ps, n) <==> exists i :: 0 <= i < n && CStr(ps[i].name) == name
  {
    if n > 0 {
      SetPropertiesKeys(ps, n - 1, name);
    }
  }

  /** In the result of createStreamType a name has the value and the type of the last property that is
      called so. */
  lemma {:induction false} LastPropertyWins(ps: seq<Property>, n: nat, i: nat)
    requires i < n <= |ps| && forall j :: i < j < n ==> CStr(ps[j].name) != CStr(ps[i].name)
    ensures var m, name := SetProperties(ps, n), CStr(ps[i].name);
            name in m && m[name] == FepProperty(ps[i].value, CStr(ps[i].ptype))
    decreases n
  {
    if i < n - 1 {
      LastPropertyWins(ps, n - 1, i);
    }
  }

  /** Each enumerated name becomes a property with its own value and type, in the order of the names; names
      and types are cut where fixed strings of 256 and 64 octets end. */
  lemma DdsPropertiesAre(t: Fep, names: seq<Bytes>, i: nat)
    requires i < |names| && forall k :: 0 <= k < |names| ==> names[k] in t.properties
    ensures var dds := ToDds(t, names);
            && dds.metatype == t.metatype && |dds.properties| == |names|
            && dds.properties[i].value == t.properties[names[i]].value
            && |dds.properties[i].name| <= 256 && |dds.properties[i].ptype| <= 64
            && (FitsFixed(names[i], 256) ==> dds.properties[i].name == names[i])
            && (FitsFixed(t.properties[names[i]].ptype, 64) ==> dds.properties[i].ptype == t.properties[names[i]].ptype)
  {
    AssignFixedFacts(names[i], 256);
    AssignFixedFacts(t.properties[names[i]].ptype, 64);
  }

  // ----- when nothing is lost -----

  /** A fixed string of n octets can hold it. */
  predicate FitsFixed(s: Bytes, n: nat) { |s| <= n && 0 !in s }

  lemma AssignFixedFacts(s: Bytes, n: nat)
    ensures AssignFixed(s, n) == s <==> FitsFixed(s, n)
    ensures FitsFixed(AssignFixed(s, n), n)
    ensures CStr(AssignFixed(s, n)) == AssignFixed(s, n)
  {
    CStrFacts(s);
    CStrFacts(AssignFixed(s, n));
  }

  ghost predicate NamesFit(t: Fep) { forall k :: k in t.properties ==> FitsFixed(k, 256) }

  ghost predicate TypesFit(t: Fep) { forall k :: k in t.properties ==> FitsFixed(t.properties[k].ptype, 64) }

  /** What setProperty receives for the property called `name`. */
  function Returned(t: Fep, name: Bytes): FepProperty
    requires name in t.properties
  {
    FepProperty(t.properties[name].value, AssignFixed(t.properties[name].ptype, 64))
  }

  lemma {:induction false} ReturnedProperties(t: Fep, names: seq<Bytes>, n: nat)
    requires n <= |names| && forall i :: 0 <= i < |names| ==> names[i] in t.properties
    requires forall i, j :: 0 <= i < j < |names| ==> names[i] != names[j]
    ensures var m := SetProperties(ToDds(t, names).properties, n);
            && (forall k :: k in m ==> FitsFixed(k, 256))
            && (NamesFit(t) ==> forall k :: k in m <==> k in names[..n])
            && (NamesFit(t) ==> forall i :: 0 <= i < n ==> names[i] in m && m[names[i]] == Returned(t, names[i]))
  {
    if n > 0 {
      ReturnedProperties(t, names, n - 1);
      var name := names[n - 1];
      AssignFixedFacts(name, 256);
      AssignFixedFacts(t.properties[name].ptype, 64);
      assert names[..n] == names[..n - 1] + [name];
    }
  }

  lemma ConvertedBack(t: Fep, names: seq<Bytes>)
    requires Enumerates(names, t)
    ensures var r := FromDds(ToDds(t, names));
            && r.metatype == t.metatype
            && (forall k :: k in r.properties ==> FitsFixed(k, 256))
            && (NamesFit(t) ==> r.properties.Keys == t.properties.Keys)
            && (NamesFit(t) ==>
                  forall k :: k in t.properties ==> k in r.properties && r.properties[k] == Returned(t, k))
  {
    var r := FromDds(ToDds(t, names));
    ReturnedProperties(t, names, |names|);
    assert names[..|names|] == names;
    if NamesFit(t) {
      forall k | k in t.properties ensures k in r.properties && r.properties[k] == Returned(t, k) {
        var i :| 0 <= i < |names| && names[i] == k;
      }
    }
  }

  /** The conversion to the DDS form and back is the identity if and only if every name fits 256 and
      every type 64 octets without a NUL, whatever the order in which the names are enumerated. */
  lemma ConversionRoundTripIff(t: Fep, names: seq<Bytes>)
    requires Enumerates(names, t)
    ensures FromDds(ToDds(t, names)) == t <==> NamesFit(t) && TypesFit(t)
  {
    var r := FromDds(ToDds(t, names));
    ConvertedBack(t, names);
    forall k | k in t.properties ensures Returned(t, k) == t.properties[k] <==> FitsFixed(t.properties[k].ptype, 64) {
      AssignFixedFacts(t.properties[k].ptype, 64);
    }
    if NamesFit(t) && TypesFit(t) {
      assert r.properties == t.properties;
    }
  }

  // ----- with the wire in between -----

  /** The stream type with its value strings cut at the first NUL, as serialize writes them. */
  function Cut(t: Fep): Fep {
    FepStreamType(CStr(t.metatype),
                  map k | k in t.properties :: FepProperty(CStr(t.properties[k].value), t.properties[k].ptype))
  }

  lemma WrittenProperty(t: Fep, name: Bytes)
    requires name in t.properties
    ensures DdsProperty(t, name).Written() == DdsProperty(Cut(t), name)
  {
    AssignFixedFacts(name, 256);
    AssignFixedFacts(t.properties[name].ptype, 64);
  }

  lemma {:induction false} WrittenProperties(t: Fep, names: seq<Bytes>, n: nat)
    requires n <= |names| && forall i :: 0 <= i < |names| ==> names[i] in t.properties
    ensures WrittenAll(ToDds(t, names).properties, n) == ToDds(Cut(t), names).properties[..n]
  {
    if n > 0 {
      WrittenProperties(t, names, n - 1);
      WrittenProperty(t, names[n - 1]);
      var ps := ToDds(Cut(t), names).properties;
      assert ps[..n] == ps[..n - 1] + [ps[n - 1]];
    }
  }

  ghost predicate ValuesWithoutNul(t: Fep) {
    0 !in t.metatype && forall k :: k in t.properties ==> 0 !in t.properties[k].value
  }

  lemma CutIsIdentityIff(t: Fep)
    ensures Cut(t) == t <==> ValuesWithoutNul(t)
  {
    CStrFacts(t.metatype);
    forall k | k in t.properties ensures Cut(t).properties[k] == t.properties[k] <==> 0 !in t.properties[k].value {
      CStrFacts(t.properties[k].value);
    }
    if ValuesWithoutNul(t) {
      assert Cut(t).properties == t.properties;
    }
  }

  lemma WrittenIsCut(t: Fep, names: seq<Bytes>)
    requires forall i :: 0 <= i < |names| ==> names[i] in t.properties
    ensures ToDds(t, names).Written() == ToDds(Cut(t), names)
  {
    WrittenProperties(t, names, |names|);
    var ps := ToDds(Cut(t), names).properties;
    assert ps[..|names|] == ps;
  }

  /** Converted, serialized, deserialized at any offset and converted back, a FEP stream type comes out
      unchanged if and only if its names and types fit and no string that travels as a C string holds a
      NUL. */
  lemma WireRoundTripIff(t: Fep, names: seq<Bytes>, body: Body, pos: nat, e: Endianness)
    requires Enumerates(names, t) && ToDds(t, names).Valid()
    requires Matches(body, pos, StreamTypeLayout(pos, ToDds(t, names), e))
    ensures DecodeStreamType(body, pos, e).Decoded?
    ensures FromDds(DecodeStreamType(body, pos, e).value) == t <==> NamesFit(t) && TypesFit(t) && ValuesWithoutNul(t)
  {
    StreamTypeRoundTrip(body, pos, ToDds(t, names), e);
    WrittenIsCut(t, names);
    CutIsIdentityIff(t);
    ConvertedBack(Cut(t), names);
    ConversionRoundTripIff(t, names);
    var r := FromDds(ToDds(Cut(t), names));
    if r == t {
      CutKept(t, r);
    }
  }

  lemma CutKept(t: Fep, r: Fep)
    requires r == t && r.metatype == Cut(t).metatype
    requires forall k :: k in r.properties ==> FitsFixed(k, 256)
    requires NamesFit(Cut(t)) ==>
               forall k :: k in Cut(t).properties ==> k in r.properties && r.properties[k] == Returned(Cut(t), k)
    ensures Cut(t) == t
  {
    assert NamesFit(Cut(t));
    forall k | k in t.properties ensures Cut(t).properties[k].value == t.properties[k].value {
      assert k in Cut(t).properties;
    }
    assert Cut(t).properties == t.properties;
  }

  // ----- the code -----

  /** createStreamType. */
  method CreateStreamType(dds: Dds) returns (t: Fep)
    ensures t == FromDds(dds)
  {
    var properties: map<Bytes, FepProperty> := map[];
    for i := 0 to |dds.properties|
      invariant properties == SetProperties(dds.properties, i)
    {
      var p := dds.properties[i];
      properties := properties[CStr(p.name) := FepProperty(p.value, CStr(p.ptype))];
    }
    t := FepStreamType(dds.metatype, properties);
  }

  class StreamItemDataWriter {
    const topic: StreamItemTopic
    /** How often the DDS sample writer has been created. */
    var writersCreated: nat

    constructor (topic: StreamItemTopic)
      ensures this.topic == topic && writersCreated == 1
    {
      this.topic, writersCreated := topic, 1;
    }

    /** write(const IStreamType&): builds the DDS value, updates the topic and recreates the sample
        writer exactly when that switched the profile. The DDS value is not published by the source. */
    method Write(t: StreamItemTopics.StreamType, names: seq<Bytes>) returns (dds: Dds)
      requires Enumerates(names, t)
      modifies this, topic
      ensures dds == ToDds(t, names)
      ensures FromDds(dds) == t <==> NamesFit(t) && TypesFit(t)
      ensures topic.State() == old(topic.State()).Updated(t)
      ensures writersCreated == old(writersCreated) + if old(topic.State()).Switches(t) then 1 else 0
    {
      var properties: seq<Property> := [];
      for i := 0 to |names|
        invariant properties == ToDds(t, names).properties[..i]
      {
        var name := names[i];
        var prop := Property(AssignFixed(name, 256), AssignFixed(t.properties[name].ptype, 64), GetProperty(t, name));
        properties := properties + [prop];
      }
      dds := StreamTypes.StreamType(t.metatype, properties);
      ConversionRoundTripIff(t, names);
      var switched := topic.UpdateStreamType(t);
      if switched {
        writersCreated := writersCreated + 1;
      }
    }
  }
}
