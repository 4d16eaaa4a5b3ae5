/** The FEP stream type and the choice of the QoS profile of a topic (stream_item_topic.cpp). */
module StreamItemTopics {
  import opened Common

  datatype FepProperty = FepProperty(value: Bytes, ptype: Bytes)

  /** An IStreamType: its meta type name and its properties by name. */
  datatype FepStreamType = FepStreamType(metatype: Bytes, properties: map<Bytes, FepProperty>)

  function Ascii(s: string): (b: Bytes)
    requires forall i :: 0 <= i < |s| ==> s[i] < 128 as char
    ensures |b| == |s| && forall i :: 0 <= i < |s| ==> b[i] as int == s[i] as int
  {
    seq(|s|, i requires 0 <= i < |s| => s[i] as int as byte)
  }

  const MAX_BYTE_SIZE := Ascii("max_byte_size")
  const MAX_ARRAY_SIZE := Ascii("max_array_size")
  const PLAIN_ARRAY := Ascii("plain-array")
  const TRANSPORT_LAYER_MAX_MESSAGE_SIZE := 64000

  datatype Profile = SmallData | LargeData

  predicate StartsWithDigit(s: Bytes) { s != [] && 48 <= s[0] <= 57 }

  /** The decimal number n continued by the digits at the front of s. */
  function Number(s: Bytes, n: nat): nat {
    if StartsWithDigit(s) then Number(s[1..], 10 * n + s[0] as nat - 48) else n
  }

  /** std::stoi without its range check: blanks, a sign, digits, and then anything; it throws without a
      digit. */
  function Stoi(s: Bytes): Option<int> {
    if s != [] && (s[0] == 32 || 9 <= s[0] <= 13) then Stoi(s[1..])
    else
      var digits := if s != [] && (s[0] == 43 || s[0] == 45) then s[1..] else s;
      var sign := if s != [] && s[0] == 45 then -1 else 1;
      if StartsWithDigit(digits) then Some(sign * Number(digits, 0)) else None
  }

  /** IStreamType::getProperty: the empty string stands for a missing property. */
  function GetProperty(t: FepStreamType, name: Bytes): Bytes {
    if name in t.properties then t.properties[name].value else []
  }

  predicate FitsInt(s: Bytes, factor: int) {
    s == [] || (Stoi(s).Some? && -0x8000_0000 <= Stoi(s).value * factor < 0x8000_0000)
  }

  predicate HugeBytes(t: FepStreamType)
    requires FitsInt(GetProperty(t, MAX_BYTE_SIZE), 1)
  {
    var maxByteSize := GetProperty(t, MAX_BYTE_SIZE);
    maxByteSize != [] && Stoi(maxByteSize).value >= TRANSPORT_LAYER_MAX_MESSAGE_SIZE
  }

  /** The size properties that the source looks at are absent, or stoi reads them, and they and their
      product fit 32 bits. */
  predicate SizesParse(t: FepStreamType) {
    && FitsInt(GetProperty(t, MAX_BYTE_SIZE), 1)
    && (HugeBytes(t) || t.metatype != PLAIN_ARRAY || FitsInt(GetProperty(t, MAX_ARRAY_SIZE), 8))
  }

  type StreamType = t: FepStreamType | SizesParse(t) witness FepStreamType([], map[])

  predicate IsBigStreamType(t: StreamType) {
    if HugeBytes(t) then true
    else
      var maxArraySize := GetProperty(t, MAX_ARRAY_SIZE);
      t.metatype == PLAIN_ARRAY && maxArraySize != [] &&
      Stoi(maxArraySize).value * 8 >= TRANSPORT_LAYER_MAX_MESSAGE_SIZE
  }

  /** containsProfile answers true for every name, so the default profile is never chosen. */
  function FindQosProfile(t: StreamType): Profile {
    if IsBigStreamType(t) then LargeData else SmallData
  }

  /** The part of a topic that stream types change: `base` is the constructor's stream type,
      which is stored once and never replaced. */
  datatype Topic = Topic(base: StreamType, profile: Profile) {
    predicate Switches(t: StreamType) {
      t != base && FindQosProfile(t) != profile
    }

    function Updated(t: StreamType): Topic {
      if Switches(t) then this.(profile := FindQosProfile(t)) else this
    }
  }

  function NewTopic(base: StreamType): Topic { Topic(base, FindQosProfile(base)) }

  /** The topic after a whole history of stream types. */
  function After(topic: Topic, history: seq<StreamType>): Topic
    decreases |history|
  {
    if history == [] then topic
    else After(topic.Updated(history[0]), history[1..])
  }

  /** How many steps of a history change the profile. */
  function SwitchCount(topic: Topic, history: seq<StreamType>): nat
    decreases |history|
  {
    if history == [] then 0
    else (if topic.Switches(history[0]) then 1 else 0)
         + SwitchCount(topic.Updated(history[0]), history[1..])
  }

  /** The latest type of the history that is not the constructor's type, else the constructor's type. */
  function Governing(base: StreamType, history: seq<StreamType>): (t: StreamType) {
    if history == [] then base
    else if history[|history| - 1] != base then history[|history| - 1]
    else Governing(base, history[..|history| - 1])
  }

  lemma {:induction false} AfterSnoc(topic: Topic, history: seq<StreamType>, t: StreamType)
    ensures After(topic, history + [t]) == After(topic, history).Updated(t)
    decreases |history|
  {
    if history == [] {
      assert After(topic, [] + [t]) == After(topic.Updated(t), []);
    } else {
      AfterSnoc(topic.Updated(history[0]), history[1..], t);
      assert (history + [t])[1..] == history[1..] + [t];
    }
  }

  lemma {:induction false} AfterOfConcat(topic: Topic, a: seq<StreamType>, b: seq<StreamType>)
    ensures After(topic, a + b) == After(After(topic, a), b)
    decreases |a|
  {
    if a == [] {
      assert a + b == b;
    } else {
      AfterOfConcat(topic.Updated(a[0]), a[1..], b);
      assert (a + b)[1..] == a[1..] + b && (a + b)[0] == a[0];
    }
  }

  lemma {:induction false} SwitchCountOfConcat(topic: Topic, a: seq<StreamType>, b: seq<StreamType>)
    ensures SwitchCount(topic, a + b) == SwitchCount(topic, a) + SwitchCount(After(topic, a), b)
    decreases |a|
  {
    if a == [] {
      assert a + b == b;
    } else {
      SwitchCountOfConcat(topic.Updated(a[0]), a[1..], b);
      assert (a + b)[1..] == a[1..] + b && (a + b)[0] == a[0];
    }
  }

  lemma AfterConcat(topic: Topic, a: seq<StreamType>, b: seq<StreamType>)
    ensures After(topic, a + b) == After(After(topic, a), b)
    ensures SwitchCount(topic, a + b) == SwitchCount(topic, a) + SwitchCount(After(topic, a), b)
  {
    AfterOfConcat(topic, a, b);
    SwitchCountOfConcat(topic, a, b);
  }

  /** After any history the profile is that of the governing type. */
  lemma {:induction false} ProfileFollowsGoverningType(base: StreamType, history: seq<StreamType>)
    ensures After(NewTopic(base), history) == Topic(base, FindQosProfile(Governing(base, history)))
    decreases |history|
  {
    if history != [] {
      var init := history[..|history| - 1];
      ProfileFollowsGoverningType(base, init);
      AfterSnoc(NewTopic(base), init, history[|history| - 1]);
      assert init + [history[|history| - 1]] == history;
    }
  }

  /** The update reports a change exactly on the steps that change the profile. */
  lemma ReportsExactlyTheChanges(base: StreamType, history: seq<StreamType>, t: StreamType)
    ensures After(NewTopic(base), history).Switches(t)
       <==> After(NewTopic(base), history + [t]).profile != After(NewTopic(base), history).profile
  {
    AfterSnoc(NewTopic(base), history, t);
  }

  /** One would expect the profile to be that of the latest type. That fails exactly when the latest
      type is the constructor's own and an earlier type had left the other profile behind. */
  lemma ProfileOfLatestTypeIff(base: StreamType, history: seq<StreamType>, t: StreamType)
    ensures After(NewTopic(base), history + [t]).profile == FindQosProfile(t)
       <==> (t != base || FindQosProfile(Governing(base, history)) == FindQosProfile(base))
  {
    ProfileFollowsGoverningType(base, history + [t]);
    assert (history + [t])[..|history|] == history;
  }

  const SEVENTY_THOUSAND: Bytes := [55, 48, 48, 48, 48]

  lemma NumberOfZeros(s: Bytes, n: nat)
    requires s == [48, 48, 48, 48]
    ensures Number(s, n) == 10000 * n
  {
    assert s[1..][1..][1..][1..] == [];
    assert Number(s[1..][1..][1..], 1000 * n) == 10000 * n;
    assert Number(s[1..][1..], 100 * n) == 10000 * n;
    assert Number(s[1..], 10 * n) == 10000 * n;
  }

  lemma SeventyThousand()
    ensures Stoi(SEVENTY_THOUSAND) == Some(70000)
  {
    NumberOfZeros(SEVENTY_THOUSAND[1..], 7);
  }

  lemma LargeStreamType() returns (large: StreamType)
    ensures IsBigStreamType(large)
  {
    var raw := FepStreamType([], map[MAX_BYTE_SIZE := FepProperty(SEVENTY_THOUSAND, [])]);
    SeventyThousand();
    assert GetProperty(raw, MAX_BYTE_SIZE) == SEVENTY_THOUSAND && HugeBytes(raw);
    large := raw;
  }

  /** A concrete run in which the topic keeps the large profile for a small stream type. */
  lemma ReturnToFirstTypeKeepsLargeProfile()
    ensures exists small: StreamType, large: StreamType ::
              After(NewTopic(small), [large, small]).profile != FindQosProfile(small)
  {
    var small: StreamType := FepStreamType([], map[]);
    var large := LargeStreamType();
    assert !IsBigStreamType(small);
    ProfileOfLatestTypeIff(small, [large], small);
    assert [large] + [small] == [large, small];
    assert After(NewTopic(small), [large, small]).profile != FindQosProfile(small);
  }

  // ----- which stream types get the large profile -----

  /** The property is present, and `factor` times the number that stoi reads from it is at least n. */
  predicate ReadsAtLeast(t: FepStreamType, name: string, factor: int, n: int)
    requires forall i :: 0 <= i < |name| ==> name[i] < 128 as char
  {
    Ascii(name) in t.properties &&
    match Stoi(t.properties[Ascii(name)].value) case None => false case Some(m) => factor * m >= n
  }

  /** A topic gets the large profile if and only if its stream type announces 64000 bytes or more, or is a
      plain array of so many elements that 8 bytes each make 64000 or more; so does a topic that is updated
      with a stream type other than the first one. */
  lemma LargeProfileIff(t: StreamType, topic: Topic)
    ensures var large := ReadsAtLeast(t, "max_byte_size", 1, 64000)
                         || (t.metatype == Ascii("plain-array") && ReadsAtLeast(t, "max_array_size", 8, 64000));
            && NewTopic(t).profile == (if large then LargeData else SmallData)
            && (t != topic.base ==> topic.Updated(t).profile == if large then LargeData else SmallData)
  {
  }

  predicate AllBlank(s: Bytes) { forall i :: 0 <= i < |s| ==> s[i] == 32 || 9 <= s[i] <= 13 }

  predicate AllDigits(s: Bytes) { forall i :: 0 <= i < |s| ==> 48 <= s[i] <= 57 }

  /** The value of a decimal numeral: ten times that of all digits but the last, plus the last. */
  function Decimal(digits: Bytes): nat
    requires AllDigits(digits)
  {
    if digits == [] then 0 else 10 * Decimal(digits[..|digits| - 1]) + digits[|digits| - 1] as nat - 48
  }

  lemma {:induction false} NumberSnoc(digits: Bytes, last: byte, tail: Bytes, n: nat)
    requires AllDigits(digits) && 48 <= last <= 57 && !StartsWithDigit(tail)
    ensures Number(digits + [last] + tail, n) == 10 * Number(digits, n) + last as nat - 48
    decreases |digits|
  {
    var s := digits + [last] + tail;
    if digits == [] {
      assert s[1..] == tail;
      assert Number(tail, 10 * n + last as nat - 48) == 10 * n + last as nat - 48;
    } else {
      assert s[1..] == digits[1..] + [last] + tail;
      NumberSnoc(digits[1..], last, tail, 10 * n + digits[0] as nat - 48);
    }
  }

  lemma {:induction false} NumberIsDecimal(digits: Bytes, tail: Bytes)
    requires AllDigits(digits) && !StartsWithDigit(tail)
    ensures Number(digits + tail, 0) == Decimal(digits)
    decreases |digits|
  {
    if digits == [] {
      assert digits + tail == tail;
    } else {
      var init, last := digits[..|digits| - 1], digits[|digits| - 1];
      NumberIsDecimal(init, []);
      assert init + [] == init;
      NumberSnoc(init, last, tail, 0);
      assert init + [last] + tail == digits + tail;
    }
  }

  lemma {:induction false} StoiSkipsBlanks(blanks: Bytes, s: Bytes)
    requires AllBlank(blanks)
    ensures Stoi(blanks + s) == Stoi(s)
    decreases |blanks|
  {
    if blanks == [] {
      assert blanks + s == s;
    } else {
      StoiSkipsBlanks(blanks[1..], s);
      assert (blanks + s)[1..] == blanks[1..] + s;
    }
  }

  lemma StoiOfSigned(sign: Bytes, rest: Bytes)
    requires sign == [] || sign == [43] || sign == [45]
    requires sign == [] ==> rest == [] || !(rest[0] == 32 || 9 <= rest[0] <= 13 || rest[0] == 43 || rest[0] == 45)
    ensures Stoi(sign + rest)
         == if StartsWithDigit(rest) then Some((if sign == [45] then -1 else 1) * Number(rest, 0)) else None
  {
    if sign == [] {
      assert sign + rest == rest;
    } else {
      assert (sign + rest)[1..] == rest;
    }
  }

  /** Blanks, a sign and digits, whatever follows them, are read as the signed decimal number; without a
      digit nothing is read. */
  lemma StoiReadsDecimal(blanks: Bytes, sign: Bytes, digits: Bytes, tail: Bytes)
    requires AllBlank(blanks) && (sign == [] || sign == [43] || sign == [45])
    requires AllDigits(digits) && !StartsWithDigit(tail)
    requires sign == [] && digits == [] ==>
               tail == [] || !(tail[0] == 32 || 9 <= tail[0] <= 13 || tail[0] == 43 || tail[0] == 45)
    ensures Stoi(blanks + (sign + (digits + tail)))
         == if digits == [] then None
            else Some((if sign == [45] then -1 else 1) * Decimal(digits))
  {
    StoiSkipsBlanks(blanks, sign + (digits + tail));
    StoiOfSigned(sign, digits + tail);
    NumberIsDecimal(digits, tail);
    if digits == [] {
      assert digits + tail == tail;
    }
  }

  /** The StreamItemTopic object. */
  class StreamItemTopic {
    const streamType: StreamType
    var qosProfile: Profile

    ghost function State(): Topic
      reads this
    {
      Topic(streamType, qosProfile)
    }

    constructor (t: StreamType)
      ensures State() == NewTopic(t)
    {
      streamType := t;
      qosProfile := FindQosProfile(t);
    }

    method UpdateStreamType(t: StreamType) returns (changed: bool)
      modifies this
      ensures State() == old(State()).Updated(t)
      ensures changed <==> qosProfile != old(qosProfile)
      ensures t == streamType ==> !changed
    {
      if t != streamType {
        var profile := FindQosProfile(t);
        if profile != qosProfile {
          qosProfile := profile;
          return true;
        }
      }
      return false;
    }
  }
}
