/** getCdrSerializedSize against what serialize writes, and against the hard-coded maxima
    (stream_types.cxx). */
module Sizes {
  import opened Common
  import opened Cdr
  import opened CdrLists
  import opened StreamTypes

  const PROPERTY_MAX := 596
  const STREAM_TYPE_MAX := 59864
  const BUS_DATA_MAX := 104

  // ----- aligned ends are sums -----

  /** The octets of a string up to the next aligned position, from an aligned position on. */
  function Rounded(length: nat): nat { 4 + AlignUp(length + 1) }

  lemma AlignedStringEnd(pos: nat, length: nat)
    ensures AlignUp(StringEnd(pos, length)) == AlignUp(pos) + Rounded(length)
    ensures StringEnd(pos, length) == AlignUp(pos) + 4 + length + 1
  {
  }

  function Total(p: Property, m: Measure): nat {
    Rounded(Length(p.name, m)) + Rounded(Length(p.ptype, m)) + Rounded(Length(p.value, m))
  }

  function TotalOf(ps: seq<Property>, n: nat, m: Measure): nat
    requires n <= |ps|
  {
    if n == 0 then 0 else TotalOf(ps, n - 1, m) + Total(ps[n - 1], m)
  }

  lemma PropertyEndIsSum(pos: nat, p: Property, m: Measure)
    ensures AlignUp(PropertyEnd(pos, p, m)) == AlignUp(pos) + Total(p, m)
    ensures PropertyEnd(pos, p, m)
         == AlignUp(pos) + Rounded(Length(p.name, m)) + Rounded(Length(p.ptype, m)) + 4 + Length(p.value, m) + 1
  {
    var l := Lengths(p, m);
    var first := StringEnd(pos, l[0]);
    assert ListEnd(StringEnder(), pos, l, 1) == first by { assert ListEnd(StringEnder(), pos, l, 0) == pos; }
    assert ListEnd(StringEnder(), pos, l, 2) == StringEnd(first, l[1]);
    AlignedStringEnd(pos, l[0]);
    AlignedStringEnd(first, l[1]);
    AlignedStringEnd(StringEnd(first, l[1]), l[2]);
  }

  lemma LastPropertyEnd(pos: nat, ps: seq<Property>, n: nat, m: Measure)
    requires 0 < n <= |ps|
    ensures AlignUp(PropertiesEnd(pos, ps, n, m)) == AlignUp(PropertiesEnd(pos, ps, n - 1, m)) + Total(ps[n - 1], m)
  {
    PropertyEndIsSum(PropertiesEnd(pos, ps, n - 1, m), ps[n - 1], m);
  }

  lemma {:induction false} PropertiesEndIsSum(pos: nat, ps: seq<Property>, n: nat, m: Measure)
    requires n <= |ps|
    ensures AlignUp(PropertiesEnd(pos, ps, n, m)) == AlignUp(pos) + TotalOf(ps, n, m)
  {
    if n > 0 {
      PropertiesEndIsSum(pos, ps, n - 1, m);
      LastPropertyEnd(pos, ps, n, m);
    }
  }

  lemma HeadEndIsSum(pos: nat, st: StreamType, m: Measure)
    ensures HeadEnd(pos, st, m) == AlignUp(pos) + Rounded(Length(st.metatype, m)) + 4 == AlignUp(HeadEnd(pos, st, m))
  {
    AlignedStringEnd(pos, Length(st.metatype, m));
  }

  // ----- the size never underestimates -----

  lemma RoundedMonotone(s: Bytes)
    ensures Rounded(Length(s, ByCStr)) <= Rounded(Length(s, BySize))
  {
  }

  lemma TotalMonotone(p: Property)
    ensures Total(p, ByCStr) <= Total(p, BySize)
  {
    RoundedMonotone(p.name);
    RoundedMonotone(p.ptype);
    RoundedMonotone(p.value);
  }

  /** A NUL inside the string does not change its size up to the next aligned position. */
  predicate Snug(s: Bytes) { Rounded(|CStr(s)|) == Rounded(|s|) }

  predicate SnugUpTo(ps: seq<Property>, n: nat)
    requires n <= |ps|
  {
    forall i :: 0 <= i < n ==> AllSnug(ps[i])
  }

  predicate AllSnug(p: Property) { Snug(p.name) && Snug(p.ptype) && Snug(p.value) }

  /** Every string but the last is snug, and the last one written has no NUL. */
  predicate Tight(st: StreamType) {
    var n := |st.properties|;
    && Snug(st.metatype)
    && (n > 0 ==> SnugUpTo(st.properties, n - 1) && SnugLast(st.properties[n - 1]))
  }

  predicate SnugLast(p: Property) { Snug(p.name) && Snug(p.ptype) && 0 !in p.value }

  lemma TotalsEqualIff(p: Property)
    ensures Total(p, ByCStr) == Total(p, BySize) <==> AllSnug(p)
  {
    RoundedMonotone(p.name);
    RoundedMonotone(p.ptype);
    RoundedMonotone(p.value);
  }

  lemma {:induction false} TotalOfEqualIff(ps: seq<Property>, n: nat)
    requires n <= |ps|
    ensures TotalOf(ps, n, ByCStr) <= TotalOf(ps, n, BySize)
    ensures TotalOf(ps, n, ByCStr) == TotalOf(ps, n, BySize) <==> SnugUpTo(ps, n)
  {
    if n > 0 {
      var p := ps[n - 1];
      TotalMonotone(p);
      TotalOfEqualIff(ps, n - 1);
      TotalsEqualIff(p);
      assert SnugUpTo(ps, n) <==> SnugUpTo(ps, n - 1) && AllSnug(p);
    }
  }

  lemma PropertySizes(p: nat, q: nat, prop: Property)
    requires AlignUp(p) <= AlignUp(q)
    ensures PropertyEnd(p, prop, ByCStr) <= PropertyEnd(q, prop, BySize)
    ensures PropertyEnd(p, prop, ByCStr) == PropertyEnd(q, prop, BySize)
       <==> AlignUp(p) == AlignUp(q) && SnugLast(prop)
  {
    PropertyEndIsSum(p, prop, ByCStr);
    PropertyEndIsSum(q, prop, BySize);
    RoundedMonotone(prop.name);
    RoundedMonotone(prop.ptype);
    CStrFacts(prop.value);
  }

  lemma PropertiesSizes(h: nat, k: nat, ps: seq<Property>)
    requires AlignUp(h) <= AlignUp(k) && ps != []
    ensures var n := |ps|;
            && PropertiesEnd(h, ps, n, ByCStr) <= PropertiesEnd(k, ps, n, BySize)
            && (PropertiesEnd(h, ps, n, ByCStr) == PropertiesEnd(k, ps, n, BySize)
                <==> AlignUp(h) == AlignUp(k) && SnugUpTo(ps, n - 1) && SnugLast(ps[n - 1]))
  {
    var n := |ps| - 1;
    PropertiesEndIsSum(h, ps, n, ByCStr);
    PropertiesEndIsSum(k, ps, n, BySize);
    TotalOfEqualIff(ps, n);
    PropertySizes(PropertiesEnd(h, ps, n, ByCStr), PropertiesEnd(k, ps, n, BySize), ps[n]);
  }

  /** For every value and every starting offset the computed size is at least what serialize writes,
      and it is exact if and only if the value is tight: strings are measured by size() but written up
      to their first NUL, and only padding can hide the difference. */
  lemma SizeNeverUnderestimates(pos: nat, st: StreamType)
    ensures StreamTypeEnd(pos, st, ByCStr) <= StreamTypeEnd(pos, st, BySize)
    ensures StreamTypeEnd(pos, st, ByCStr) == StreamTypeEnd(pos, st, BySize) <==> Tight(st)
  {
    HeadEndIsSum(pos, st, ByCStr);
    HeadEndIsSum(pos, st, BySize);
    RoundedMonotone(st.metatype);
    if st.properties != [] {
      PropertiesSizes(HeadEnd(pos, st, ByCStr), HeadEnd(pos, st, BySize), st.properties);
    }
  }

  lemma NoNulIsTight(st: StreamType)
    requires st.NoNul()
    ensures Tight(st)
  {
    CStrFacts(st.metatype);
    forall i | 0 <= i < |st.properties| ensures AllSnug(st.properties[i]) {
      CStrFacts(st.properties[i].name);
      CStrFacts(st.properties[i].ptype);
      CStrFacts(st.properties[i].value);
    }
  }

  // ----- the hard-coded maxima -----

  predicate SmallProperty(p: Property) { |p.name| <= 256 && |p.ptype| <= 64 && |p.value| <= 255 }

  predicate FullProperty(p: Property) { |p.name| == 256 && |p.ptype| == 64 && |p.value| == 255 }

  predicate Small(st: StreamType) {
    && |st.metatype| <= 255 && |st.properties| <= 100
    && forall i :: 0 <= i < |st.properties| ==> SmallProperty(st.properties[i])
  }

  predicate Full(st: StreamType) {
    && |st.metatype| == 255 && |st.properties| == 100
    && forall i :: 0 <= i < |st.properties| ==> FullProperty(st.properties[i])
  }

  lemma SmallTotal(p: Property)
    requires SmallProperty(p)
    ensures Total(p, BySize) <= PROPERTY_MAX
    ensures FullProperty(p) ==> Total(p, BySize) == PROPERTY_MAX
  {
    AlignUpFacts(|p.name| + 1, 257);
    AlignUpFacts(|p.ptype| + 1, 65);
    AlignUpFacts(|p.value| + 1, 256);
  }

  lemma {:induction false} SmallTotalOf(ps: seq<Property>, n: nat)
    requires n <= |ps| && forall i :: 0 <= i < n ==> SmallProperty(ps[i])
    ensures TotalOf(ps, n, BySize) <= PROPERTY_MAX * n
    ensures (forall i :: 0 <= i < n ==> FullProperty(ps[i])) ==> TotalOf(ps, n, BySize) == PROPERTY_MAX * n
  {
    if n > 0 {
      SmallTotalOf(ps, n - 1);
      SmallTotal(ps[n - 1]);
    }
  }

  /** One property within the limits needs at most 596 octets after the padding in front of it, and
      full strings need exactly these. */
  lemma PropertyMaximum(pos: nat, p: Property)
    requires SmallProperty(p)
    ensures PropertyEnd(pos, p, BySize) <= AlignUp(pos) + PROPERTY_MAX
    ensures FullProperty(p) ==> PropertyEnd(pos, p, BySize) == AlignUp(pos) + PROPERTY_MAX
  {
    PropertyEndIsSum(pos, p, BySize);
    AlignUpFacts(|p.name| + 1, 257);
    AlignUpFacts(|p.ptype| + 1, 65);
  }

  /** So 596 bounds the size of every property within the limits exactly at aligned offsets. */
  lemma PropertyMaximumHoldsIff(pos: nat)
    ensures (forall p: Property :: SmallProperty(p) ==> PropertyEnd(pos, p, BySize) - pos <= PROPERTY_MAX)
       <==> pos % 4 == 0
  {
    forall p: Property | SmallProperty(p) ensures PropertyEnd(pos, p, BySize) <= AlignUp(pos) + PROPERTY_MAX {
      PropertyMaximum(pos, p);
    }
    var full := Property(seq(256, i => 65), seq(64, i => 65), seq(255, i => 65));
    PropertyMaximum(pos, full);
  }

  lemma PropertiesMaximum(pos: nat, ps: seq<Property>)
    requires ps != [] && forall i :: 0 <= i < |ps| ==> SmallProperty(ps[i])
    ensures PropertiesEnd(pos, ps, |ps|, BySize) <= AlignUp(pos) + PROPERTY_MAX * |ps|
    ensures (forall i :: 0 <= i < |ps| ==> FullProperty(ps[i])) ==>
              PropertiesEnd(pos, ps, |ps|, BySize) == AlignUp(pos) + PROPERTY_MAX * |ps|
  {
    var n := |ps| - 1;
    PropertiesEndIsSum(pos, ps, n, BySize);
    SmallTotalOf(ps, n);
    PropertyMaximum(PropertiesEnd(pos, ps, n, BySize), ps[n]);
  }

  /** A stream type within the limits needs at most 59864 octets after the padding in front of it, and
      the bound is attained by full strings and one hundred full properties. */
  lemma StreamTypeMaximum(pos: nat, st: StreamType)
    requires Small(st)
    ensures StreamTypeEnd(pos, st, BySize) <= AlignUp(pos) + STREAM_TYPE_MAX
    ensures Full(st) ==> StreamTypeEnd(pos, st, BySize) == AlignUp(pos) + STREAM_TYPE_MAX
  {
    HeadEndIsSum(pos, st, BySize);
    AlignUpFacts(|st.metatype| + 1, 256);
    if st.properties != [] {
      PropertiesMaximum(HeadEnd(pos, st, BySize), st.properties);
    }
  }

  /** The octets of a stream type, with all padding, up to the next aligned position. */
  function StreamTypeTotal(st: StreamType, m: Measure): nat {
    Rounded(Length(st.metatype, m)) + 4 + TotalOf(st.properties, |st.properties|, m)
  }

  /** Within limits or not, a stream type keeps to the maximum at any offset if and only if its rounded
      lengths add up to at most that. */
  lemma StreamTypeMaximumIff(pos: nat, st: StreamType, m: Measure)
    ensures StreamTypeEnd(pos, st, m) <= AlignUp(pos) + STREAM_TYPE_MAX <==> StreamTypeTotal(st, m) <= STREAM_TYPE_MAX
  {
    HeadEndIsSum(pos, st, m);
    PropertiesEndIsSum(HeadEnd(pos, st, m), st.properties, |st.properties|, m);
    assert AlignUp(StreamTypeEnd(pos, st, m)) == AlignUp(pos) + StreamTypeTotal(st, m);
    AlignUpFacts(StreamTypeEnd(pos, st, m), AlignUp(pos) + STREAM_TYPE_MAX);
    AlignUpFacts(pos, pos);
  }

  /** The bound is no bound on the type: one long value exceeds it. */
  lemma MaximumIsNoBoundForLongStrings(value: Bytes)
    requires |value| > STREAM_TYPE_MAX
    ensures StreamTypeEnd(0, StreamType([], [Property([], [], value)]), BySize) > STREAM_TYPE_MAX
  {
    var st := StreamType([], [Property([], [], value)]);
    var q := PropertiesEnd(HeadEnd(0, st, BySize), st.properties, 0, BySize);
    PropertyEndIsSum(q, st.properties[0], BySize);
  }

  lemma BusDataMaximum(pos: nat, data: Bytes)
    ensures |data| <= 100 <==> BusDataEnd(pos, data) <= AlignUp(pos) + BUS_DATA_MAX
    ensures |data| == 100 ==> BusDataEnd(pos, data) == AlignUp(pos) + BUS_DATA_MAX
  {
  }
}
