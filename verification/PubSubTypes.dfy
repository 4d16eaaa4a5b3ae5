/** StreamTypePubSubType: payloads with the encapsulation header (stream_typesPubSubTypes.cxx). */
module PubSubTypes {
  import opened Common
  import opened Cdr
  import opened CdrStreams
  import opened StreamTypes
  import opened Sizes
  import opened Decoding
  import opened WireFormat
  import opened GeneratedTypes

  /** How a call ends: it returns a bool, or an exception that it does not catch leaves it. */
  datatype Outcome = Returned(ok: bool) | Threw

  const HEADER_SIZE := 4

  /** The representation identifier CDR_BE or CDR_LE, and two option octets. */
  function Header(e: Endianness): (h: Bytes)
    ensures |h| == HEADER_SIZE
  {
    [0, if e.LittleEndian? then 1 else 0, 0, 0]
  }

  ghost predicate IsPayload(payload: Bytes, l: Layout, e: Endianness) {
    |payload| == HEADER_SIZE + |l| && payload[..HEADER_SIZE] == Header(e) && Matches(payload[HEADER_SIZE..], 0, l)
  }

  ghost predicate IsPayloadOf(payload: Bytes, st: StreamType, e: Endianness) {
    IsPayload(payload, StreamTypeLayout(0, st, e), e)
  }

  /** The identifier 0, 1 of CDR_LE or 0, 0 of CDR_BE, and two zero options (DDSI-RTPS, section 10). */
  predicate StartsWithHeader(payload: Bytes, e: Endianness) {
    && |payload| >= 4 && payload[0] == 0 && payload[2] == 0 && payload[3] == 0
    && match e case LittleEndian => payload[1] == 1 case BigEndian => payload[1] == 0
  }

  lemma PayloadStartsWithHeader(payload: Bytes, l: Layout, e: Endianness)
    requires IsPayload(payload, l, e)
    ensures StartsWithHeader(payload, e)
  {
    assert forall i :: 0 <= i < HEADER_SIZE ==> payload[i] == payload[..HEADER_SIZE][i] == Header(e)[i];
  }

  /** Octet by octet: the header, then the stream type, aligned from behind the header on. */
  lemma PayloadOctets(payload: Bytes, st: StreamType, e: Endianness)
    requires st.Valid() && IsPayloadOf(payload, st, e)
    ensures StartsWithHeader(payload, e) && StreamTypeAt(payload[4..], 0, st, e)
  {
    PayloadStartsWithHeader(payload, StreamTypeLayout(0, st, e), e);
    StreamTypeAtIff(payload[HEADER_SIZE..], 0, st, e);
  }

  /** What deserialize makes of a payload: the type and the octets consumed, too few octets, or a
      header that is not CDR. */
  datatype PayloadContent = Content(value: StreamType, consumed: nat) | TooShort | NotCdr

  function EndiannessOf(kind: byte): Endianness { if kind % 2 == 1 then LittleEndian else BigEndian }

  function ReadPayload(payload: Bytes): PayloadContent
    requires |payload| < ULONG
  {
    if |payload| > 0 && payload[0] != 0 then NotCdr
    else if |payload| < HEADER_SIZE then TooShort
    else
      match DecodeStreamType(payload[HEADER_SIZE..], 0, EndiannessOf(payload[1]))
      case NotEnoughMemory => TooShort
      case Decoded(st, end) => Content(st, HEADER_SIZE + end)
  }

  // ----- the payload theorems -----

  /** A payload read back, on a machine of either endianness, gives every string up to its first NUL and
      is consumed to the last octet. */
  lemma PayloadRoundTrip(payload: Bytes, st: StreamType, e: Endianness)
    requires |payload| < ULONG && st.Valid() && IsPayloadOf(payload, st, e)
    ensures ReadPayload(payload) == Content(st.Written(), |payload|)
    ensures ReadPayload(payload) == Content(st, |payload|) <==> st.NoNul()
  {
    assert payload[0] == Header(e)[0] && payload[1] == Header(e)[1];
    assert EndiannessOf(payload[1]) == e;
    StreamTypeRoundTrip(payload[HEADER_SIZE..], 0, st, e);
    StreamTypeLength(0, st, e);
  }

  /** The payload of a sample is read back exactly, whatever octets it holds. */
  lemma BusDataPayloadRoundTrip(payload: Bytes, data: Bytes, e: Endianness)
    requires |payload| < ULONG && |data| < ULONG && IsPayload(payload, BusDataLayout(0, data, e), e)
    ensures StartsWithHeader(payload, e) && BusDataAt(payload[4..], 0, data, e)
    ensures EndiannessOf(payload[1]) == e
    ensures DecodeBusData(payload[HEADER_SIZE..], 0, e) == Decoded(data, |payload| - HEADER_SIZE)
  {
    PayloadStartsWithHeader(payload, BusDataLayout(0, data, e), e);
    BusDataAtIff(payload[HEADER_SIZE..], 0, data, e);
    BusDataRoundTrip(payload[HEADER_SIZE..], 0, data, e);
    BusDataLength(0, data, e);
  }

  /** No proper prefix of a payload is taken for a value. */
  lemma TruncatedPayloadIsRejected(payload: Bytes, n: nat, st: StreamType, e: Endianness)
    requires |payload| < ULONG && st.Valid() && IsPayloadOf(payload, st, e) && n < |payload|
    ensures ReadPayload(payload[..n]) == TooShort
  {
    assert payload[0] == Header(e)[0] && payload[1] == Header(e)[1];
    if n >= HEADER_SIZE {
      assert EndiannessOf(payload[1]) == e;
      var prefix, body := payload[..n][HEADER_SIZE..], payload[HEADER_SIZE..];
      assert prefix <= body;
      StreamTypeLength(0, st, e);
      TruncatedEncodingIsRejected(prefix, body, 0, st, e);
    }
  }

  // ----- buffer sizes -----

  /** getSerializedSizeProvider, with its 32-bit arithmetic on the computed size. */
  function Provider(size: nat): nat { (size % ULONG + HEADER_SIZE) % ULONG }

  function ProviderSize(st: StreamType): nat { Provider(StreamTypeEnd(0, st, BySize)) }

  lemma ProviderArithmetic(size: nat)
    ensures Provider(size) >= size + HEADER_SIZE <==> size + HEADER_SIZE < ULONG
    ensures size + HEADER_SIZE < ULONG ==> Provider(size) == size + HEADER_SIZE
    ensures Provider(size) == (size % 0x1_0000_0000 + 4) % 0x1_0000_0000
  {
  }

  /** m_typeSize of a type with the given maximum. */
  function TypeSize(max: nat): nat { max + Pad(max) + HEADER_SIZE }

  /** A buffer of the provider's size suffices whenever the provider's sum does not overflow, and for
      values without NULs only then. */
  lemma ProviderSuffices(st: StreamType, e: Endianness)
    ensures StreamTypeEnd(0, st, BySize) + HEADER_SIZE < ULONG ==>
              HEADER_SIZE + |StreamTypeLayout(0, st, e)| <= ProviderSize(st)
    ensures st.NoNul() ==>
              (HEADER_SIZE + |StreamTypeLayout(0, st, e)| <= ProviderSize(st)
               <==> StreamTypeEnd(0, st, BySize) + HEADER_SIZE < ULONG)
  {
    ProviderArithmetic(StreamTypeEnd(0, st, BySize));
    SizeNeverUnderestimates(0, st);
    StreamTypeLength(0, st, e);
    if st.NoNul() {
      NoNulIsTight(st);
    }
  }

  /** A buffer of m_typeSize octets suffices for every value within the limits, and full values fill it
      to the last octet. */
  lemma TypeSizeSuffices(st: StreamType, e: Endianness)
    requires Small(st)
    ensures HEADER_SIZE + |StreamTypeLayout(0, st, e)| <= TypeSize(STREAM_TYPE_MAX)
    ensures Full(st) && st.NoNul() ==> HEADER_SIZE + |StreamTypeLayout(0, st, e)| == TypeSize(STREAM_TYPE_MAX)
  {
    SizeNeverUnderestimates(0, st);
    StreamTypeLength(0, st, e);
    StreamTypeMaximum(0, st);
    if st.NoNul() {
      NoNulIsTight(st);
    }
  }

  /** For any value a buffer of m_typeSize octets suffices if and only if the rounded lengths of what is
      written add up to at most the maximum. */
  lemma TypeSizeSufficesIff(st: StreamType, e: Endianness)
    ensures HEADER_SIZE + |StreamTypeLayout(0, st, e)| <= TypeSize(STREAM_TYPE_MAX)
       <==> StreamTypeTotal(st, ByCStr) <= STREAM_TYPE_MAX
  {
    StreamTypeLength(0, st, e);
    StreamTypeMaximumIff(0, st, ByCStr);
  }

  /** A buffer of m_typeSize octets suffices for a sample if and only if it has at most 100 octets. */
  lemma BusDataTypeSizeSufficesIff(data: Bytes, e: Endianness)
    ensures HEADER_SIZE + |BusDataLayout(0, data, e)| <= TypeSize(BUS_DATA_MAX) <==> |data| <= 100
  {
    BusDataLength(0, data, e);
    BusDataMaximum(0, data);
  }

  // ----- the code -----

  class SerializedPayload {
    const data: array<byte>
    var length: nat
    var encapsulation: Endianness

    constructor (maxSize: nat)
      ensures fresh(data) && data.Length == maxSize && length == 0
    {
      data := new byte[maxSize](_ => 0);
      length, encapsulation := 0, BigEndian;
    }

    ghost function Content(): Bytes
      requires length <= data.Length
      reads this, data
    {
      data[..length]
    }
  }

  method WriteHeader(ser: CdrStream) returns (ok: bool)
    requires ser.Valid() && ser.origin == ser.position == 0
    modifies ser, ser.buffer
    ensures ser.Valid() && ser.endianness == old(ser.endianness)
    ensures ok <==> ser.size >= HEADER_SIZE
    ensures ok ==> ser.origin == ser.position == HEADER_SIZE && ser.buffer[..HEADER_SIZE] == Header(ser.endianness)
  {
    var header := Header(ser.endianness);
    ok := ser.WriteOctets(header);
    if ok {
      OverlaidMatches(old(ser.Body()), 0, Solid(header), ser.Body());
      MatchesSolid(ser.Body(), 0, header);
      assert ser.buffer[..HEADER_SIZE] == ser.Body()[..HEADER_SIZE];
      ser.ResetAlignment();
    }
  }

  method Serialize(data: StreamTypeObject, payload: SerializedPayload, host: Endianness) returns (r: Outcome)
    requires data.Value().Valid() && payload.data.Length < ULONG
    modifies payload, payload.data
    ensures r == if payload.data.Length < HEADER_SIZE then Threw
                 else Returned(HEADER_SIZE + |StreamTypeLayout(0, data.Value(), host)| <= payload.data.Length)
    ensures r == Returned(true) ==>
              payload.length <= payload.data.Length && IsPayloadOf(payload.Content(), data.Value(), host)
    ensures r == Returned(true) ==> StartsWithHeader(payload.Content(), host)
    ensures r == Returned(true) ==> StreamTypeAt(payload.Content()[4..], 0, data.Value(), host)
    ensures r != Returned(true) ==> payload.length == old(payload.length)
    ensures payload.encapsulation == host
  {
    var ser := new CdrStream(payload.data, payload.data.Length, host);
    payload.encapsulation := ser.endianness;
    var ok := WriteHeader(ser);
    if !ok { return Threw; }
    ghost var body, st := ser.Body(), data.Value();
    assert ser.buffer[..ser.origin] == Header(host);
    ok := data.Serialize(ser);
    if !ok { return Returned(false); }
    payload.length := ser.position;
    PayloadWritten(payload, ser, body, st);
    PayloadOctets(payload.Content(), st, host);
    return Returned(true);
  }

  lemma PayloadWritten(payload: SerializedPayload, ser: CdrStream, before: Bytes, st: StreamType)
    requires ser.Valid() && ser.buffer == payload.data && ser.origin == HEADER_SIZE
    requires ser.buffer[..ser.origin] == Header(ser.endianness)
    requires payload.length == ser.position == HEADER_SIZE + |StreamTypeLayout(0, st, ser.endianness)|
    requires Overlaid(before, 0, StreamTypeLayout(0, st, ser.endianness), ser.Body())
    ensures IsPayloadOf(payload.Content(), st, ser.endianness)
  {
    var l, content := StreamTypeLayout(0, st, ser.endianness), payload.Content();
    OverlaidMatches(before, 0, l, ser.Body());
    MatchesPrefix(ser.Body(), l);
    ser.BodySlice(0, |l|);
    assert content[HEADER_SIZE..] == ser.buffer[HEADER_SIZE..HEADER_SIZE + |l|];
    assert content[..HEADER_SIZE] == ser.buffer[..HEADER_SIZE];
  }

  method Deserialize(payload: SerializedPayload, data: StreamTypeObject, host: Endianness) returns (r: Outcome)
    requires payload.length <= payload.data.Length && payload.length < ULONG
    modifies payload`encapsulation, data
    ensures match ReadPayload(payload.Content())
            case NotCdr => r == Threw
            case TooShort => r == Returned(false)
            case Content(st, _) => r == Returned(true) && data.Value() == st
    ensures var octets := payload.Content();
            payload.encapsulation == if |octets| < 4 || octets[0] != 0 then old(payload.encapsulation)
                                     else if octets[1] % 2 == 1 then LittleEndian else BigEndian
    ensures payload.length == old(payload.length)
  {
    var octets := payload.data[..payload.length];
    if |octets| > 0 && octets[0] != 0 { return Threw; }
    if |octets| < HEADER_SIZE { return Returned(false); }
    var deser := new CdrStream(payload.data, payload.length, host);
    deser.position := HEADER_SIZE;
    deser.endianness := EndiannessOf(octets[1]);
    deser.ResetAlignment();
    payload.encapsulation := deser.endianness;
    assert deser.Body() == octets[HEADER_SIZE..];
    var ok := data.Deserialize(deser);
    return Returned(ok);
  }

  /** Provider, serialize and deserialize put together. */
  method SendAndReceive(data: StreamTypeObject, sender: Endianness, receiver: Endianness)
    returns (received: StreamTypeObject)
    requires data.Value().Valid() && StreamTypeEnd(0, data.Value(), BySize) + HEADER_SIZE < ULONG
    ensures fresh(received) && received.Value() == data.Value().Written()
    ensures received.Value() == data.Value() <==> data.Value().NoNul()
  {
    var size := GetStreamTypeSize(data.Value(), 0);
    ProviderSuffices(data.Value(), sender);
    var payload := new SerializedPayload(size + HEADER_SIZE);
    var sent := Serialize(data, payload, sender);
    assert sent == Returned(true);
    received := new StreamTypeObject();
    PayloadRoundTrip(payload.Content(), data.Value(), sender);
    var read := Deserialize(payload, received, receiver);
    WrittenIsIdentityIff(data.Value());
  }
}
