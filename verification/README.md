# FEP3 Fast DDS bridge: a verified model

The plugin connects the FEP3 simulation bus to Fast DDS. This project models the stateful logic around the DDS library
and proves what it keeps, loses and guarantees. `dafny verify dfyconfig.toml` checks all of it.

## What is modelled

**Receiving** (`Drain`, `DrainTheorems`, `TypeCut`, `Delivery`, `ReaderItemQueue`, `StreamItemTopic`, `WakeUp`). `popFrom` takes one
sample and one stream type; a stream type that switches the QoS profile starts a nested drain, which calls `popFrom`
again, and then replaces the sample reader. A reader is the queue of the batches that its takes will yield, so every
batch size and every mix of invalid and non-alive items is covered. The recursive code is proved equal to one flat loop
with a depth counter. From that follow closed forms of what is delivered, what stays behind and what a replaced reader
still held, each for all inputs and read off the queues before the drain: samples are delivered up to the first round
with nothing good (the first dead round), and stream types up to the type cut, the least number of types behind that
round at which the bad ones have ended every drain that QoS switches had begun. Three expectations turn out to be false,
and for each there is a failing input and the exact condition: a QoS switch can lose good samples
(`SwitchCanLoseAGoodSample`, `SwitchLosesNothingIff`), a good stream type can stay behind (`BadTypeHidesGoodType`,
`AllTypesDeliveredIff`), and the output of a wake-up can depend on how many conditions fired
(`OutputCanDependOnConditions`, `OutputIndependentOfConditionsIff`). All three hold in the regular case of good items and
one item per take, where a drain is the alternating merge of what is pending.

**Encoding** (`Cdr`, `CdrLists`, `CdrStream`, `StreamTypes`, `Sizes`, `Decoding`, `WireFormat`, `GeneratedTypes`, `PubSubTypes`,
`Conversion`). The `Cdr` stream follows sections 15.3.1.1, 15.3.2.5 and 15.3.2.7 of CORBA 3.0.3 and section 10 of
DDSI-RTPS; alignment restarts behind the encapsulation header. A layout says which octets an encoding fixes and leaves
padding octets open. The generated methods work on a raw buffer and are proved against layouts and a decoding function;
the theorems relate sizes, layouts and decoding, and `WireFormat` says on the octets
themselves where each field stands. Sizes are measured with `size()` while writing uses `c_str()`, so
strings may hold NUL octets everywhere in the model, and the results say exactly when that matters.

**Components** (`Lifecycle`, `ComponentRegistry`). Components are arbitrary user code: what a call does is an arbitrary
function of all calls before it, and a call may throw. Transitions are proved to make the promised calls in the promised
order for all components, to be all-or-nothing for well-behaved ones, and to keep all components at one level over every
run. The registry's two containers are compared with the history of commands.

**Start and stop** (`Reception`). `startBlockingReception` and any number of `stopBlockingReception` calls as programs
that interleave statement by statement; all results are about every interleaving.

**Bounded queues** (`DataItemQueue`, `InternalTopic`). A ring buffer over an array against a sequence, and a queue shared
by writers and by readers whose size check and pop are separate steps.

## Model

| member | source | states |
|---|---|---|
| Drains.DrainIsFlat | src/fast_dds/simulation_bus/reader_item_queue.cpp:121-226 | For every pending state the mutually recursive drain equals one flat loop with a depth counter: same events, same final state, same replaced readers |
| Drains.Pop | src/fast_dds/simulation_bus/reader_item_queue.cpp:121-226 | popFrom never makes more data pending, and strictly less whenever it reads something, at every nesting depth: why the mutual recursion and its loops end |
| Delivery.DeliveryIsInterleaving | src/fast_dds/simulation_bus/reader_item_queue.cpp:183-226 | For every mix of items and batch sizes the delivered events are the round-by-round interleaving of the samples before the first dead round with the types before the type cut; the types behind the cut stay pending; the topic has seen exactly the delivered types |
| DrainTheorems.FirstDeadIsLeast | src/fast_dds/simulation_bus/reader_item_queue.cpp:183-226 | The round at which delivery of samples stops is the least one with no good first item in either reader |
| TypeCuts.TypeCutIsLeast | src/fast_dds/simulation_bus/reader_item_queue.cpp:201-224 | Behind the first dead round the number of types taken is the least one at which the bad types minus the QoS switches among them reach the number of switches before that round, or all; without such a switch it is none |
| DrainTheorems.OneRecreationPerSwitch | src/fast_dds/simulation_bus/reader_item_queue.cpp:213-220 | The number of replaced readers is the number of QoS switches among the delivered types |
| DrainTheorems.SwitchLosesNothingIff | src/fast_dds/simulation_bus/reader_item_queue.cpp:213-220 | Every replaced reader is empty if and only if no switch came before the first dead round or that round left no samples behind; otherwise the first replaced reader held all of these |
| Delivery.DeliveredSamplesAndTypes | src/fast_dds/simulation_bus/reader_item_queue.cpp:183-226 | Exactly the good first items of the batches before the first dead round are delivered as samples, in order, and exactly the good first items of the batches before the type cut as types |
| Delivery.InOrderAtMostOnce | src/fast_dds/simulation_bus/reader_item_queue.cpp:190-212 | For every mix of valid, invalid and non-alive items and every batch size, delivered samples and delivered types are each a subsequence of what arrived: in order and at most once |
| Delivery.SampleIsDeliveredIff | src/fast_dds/simulation_bus/reader_item_queue.cpp:190-197 | A sample is delivered if and only if the reader is enabled and it is the payload of the first item of a batch before the first dead round, with valid data and an instance that is alive |
| Delivery.TypeIsDeliveredIff | src/fast_dds/simulation_bus/reader_item_queue.cpp:201-212 | The same for stream types, up to the type cut |
| Delivery.AllSamplesDeliveredIff | src/fast_dds/simulation_bus/reader_item_queue.cpp:190-212 | All good samples that takes can reach are delivered if and only if no take yields a good item behind its first one and no good sample sits behind the first dead round |
| Delivery.LeftTypesOfDrain | src/fast_dds/simulation_bus/reader_item_queue.cpp:201-224 | The types left are those behind the type cut: at most those behind the first dead round, and exactly these if no QoS switch came before it |
| Delivery.AllTypesDeliveredIff | src/fast_dds/simulation_bus/reader_item_queue.cpp:201-224 | All good types that takes can reach are delivered if and only if no take yields a good type behind its first one and no good type sits behind the type cut |
| Delivery.BadTypeHidesGoodType | src/fast_dds/simulation_bus/reader_item_queue.cpp:201-224 | Counterexample for types: for every topic, a bad type in front of a good one leaves the good one undelivered and pending |
| Delivery.SwitchCanLoseAGoodSample | src/fast_dds/simulation_bus/reader_item_queue.cpp:213-220 | Counterexample to loss-freedom: with one item per take, for every switching type, one bad sample makes a good one vanish with the old reader |
| Delivery.RegularDrainIsTheMerge | src/fast_dds/simulation_bus/reader_item_queue.cpp:183-226 | With good items and one item per take, a drain delivers the alternating merge s1, t1, s2, t2, ... and the leftovers, whatever switches occur; both readers end empty, every replaced reader was empty, the topic has seen all types |
| Delivery.MergeByIndex | src/fast_dds/simulation_bus/reader_item_queue.cpp:183-226 | The merge by position: sample k at 2k, type k at 2k + 1 while both last, then the leftovers of the longer one in order |
| ReaderItemQueues.DataReader.TakeNextInstance | src/fast_dds/simulation_bus/reader_item_queue.cpp:190-199 | A take removes one batch from the front, or yields nothing |
| ReaderItemQueues.ReaderItemQueue.constructor | src/fast_dds/simulation_bus/reader_item_queue.cpp:33-48 | Two fresh, empty, enabled readers |
| ReaderItemQueues.ReaderItemQueue.CreateReader | src/fast_dds/simulation_bus/reader_item_queue.cpp:58-81 | The sample reader is replaced by a fresh empty one; what the old one held is recorded as closed, all else is unchanged |
| ReaderItemQueues.ReaderItemQueue.GetFrontTime | src/fast_dds/simulation_bus/reader_item_queue.cpp:228-239 | The time of the first pending sample, else of the first pending type; no time exactly if nothing is pending, that is, for enabled readers, if a round would change nothing |
| ReaderItemQueues.ReaderItemQueue.ForwardSample | src/fast_dds/simulation_bus/reader_item_queue.cpp:186-200 | One take if the reader is enabled; it reads, and the receiver gets the payload, exactly if a batch is pending whose first item has valid data and an instance that is alive |
| ReaderItemQueues.ReaderItemQueue.ForwardType | src/fast_dds/simulation_bus/reader_item_queue.cpp:201-213 | The same for stream types, by the same two flags; the topic is updated and a switch is reported exactly if the delivered type changes the profile |
| ReaderItemQueues.ReaderItemQueue.PopFrom | src/fast_dds/simulation_bus/reader_item_queue.cpp:183-226 | State, receiver and replaced readers change as the specification of popFrom says, including the nested drain and the recreation; it reports a read exactly if one of the two first items is reachable, valid and alive |
| ReaderItemQueues.ReaderItemQueue.PopAll | src/fast_dds/simulation_bus/reader_item_queue.cpp:214-216 | The draining loop computes the drain to which all theorems above apply |
| WakeUps.OutputIndependentOfConditionsIff | src/fast_dds/simulation_bus/fep_fast_dds_simulation_bus.cpp:203-221 | What a wake-up delivers is the same for every list of fired conditions with at least one read condition, if and only if, queue by queue and with shared topics handed on, no queue holds anything good behind its first dead round and its type cut; decided before the wake-up |
| WakeUps.OutputCanDependOnConditions | src/fast_dds/simulation_bus/fep_fast_dds_simulation_bus.cpp:206-219 | A bus for which one fired condition delivers nothing and two deliver a sample |
| WakeUps.SpentAfterPassIff | src/fast_dds/simulation_bus/fep_fast_dds_simulation_bus.cpp:207-219 | One pass leaves every queue spent if and only if the condition read off the accesses and topics before it holds, over any number of queues that share topics |
| WakeUps.SpentAfterDrainIff | src/fast_dds/simulation_bus/fep_fast_dds_simulation_bus.cpp:212-217 | A queue has nothing deliverable left after its drain if and only if, before it, no good type sits behind the type cut and no good sample behind the first dead round, unless a switch throws these samples away |
| WakeUps.RegularWakeUp | src/fast_dds/simulation_bus/fep_fast_dds_simulation_bus.cpp:203-221 | With good items and one per take, a wake-up with a read condition delivers the merges of all queues in collection order and empties them; the guard condition alone delivers nothing |
| WakeUps.PassByQueue | src/fast_dds/simulation_bus/fep_fast_dds_simulation_bus.cpp:207-219 | In one pass the receiver of queue j gets, in order, exactly what the drain of queue j delivers when its turn comes, and no other receiver gets anything |
| WakeUps.PassFromInOrder | src/fast_dds/simulation_bus/fep_fast_dds_simulation_bus.cpp:207-219 | The events of a pass come queue by queue in collection order, from queues of the collection only |
| WakeUps.RegularWakeUpByQueue | src/fast_dds/simulation_bus/fep_fast_dds_simulation_bus.cpp:203-221 | In the regular case the receiver of queue j gets the merge of what queue j held, if a read condition fired, and else nothing |
| WakeUps.SpentBusIsSilent | src/fast_dds/simulation_bus/fep_fast_dds_simulation_bus.cpp:206-219 | Once every queue is spent, any further conditions deliver nothing |
| WakeUps.SimulationBus.DrainQueue | src/fast_dds/simulation_bus/fep_fast_dds_simulation_bus.cpp:212-217 | Popping until nothing is read drains queue i, and every event goes to the receiver of queue i; other queues change only through a shared topic |
| WakeUps.SimulationBus.Serve | src/fast_dds/simulation_bus/fep_fast_dds_simulation_bus.cpp:207-219 | One condition: the guard does nothing, any other drains all queues in collection order |
| WakeUps.SimulationBus.Dispatch | src/fast_dds/simulation_bus/fep_fast_dds_simulation_bus.cpp:206-220 | The nested loops over conditions and queues compute the wake-up of the theorems |
| StreamItemTopics.ProfileFollowsGoverningType | src/fast_dds/simulation_bus/stream_item_topic/stream_item_topic.cpp:37-118 | After any history the profile is that of the latest type that differs from the constructor's, or of the constructor's if there is none |
| StreamItemTopics.ReportsExactlyTheChanges | src/fast_dds/simulation_bus/stream_item_topic/stream_item_topic.cpp:37-54 | An update reports a change exactly on the steps that change the profile |
| StreamItemTopics.ProfileOfLatestTypeIff | src/fast_dds/simulation_bus/stream_item_topic/stream_item_topic.cpp:37-54 | The profile is that of the latest type if and only if this is not the constructor's type or no earlier type left the other profile behind |
| StreamItemTopics.ReturnToFirstTypeKeepsLargeProfile | src/fast_dds/simulation_bus/stream_item_topic/stream_item_topic.cpp:37-54 | A concrete history in which a topic keeps the large profile for a small stream type |
| StreamItemTopics.LargeProfileIff | src/fast_dds/simulation_bus/stream_item_topic/stream_item_topic.cpp:56-118 | A topic is created with, or updated to, the large profile if and only if max_byte_size reads as at least 64000, or the meta type is plain-array and 8 times max_array_size is at least 64000; else it has the small one |
| StreamItemTopics.StoiReadsDecimal | src/fast_dds/simulation_bus/stream_item_topic/stream_item_topic.cpp:59-78 | Blanks, a sign and digits, whatever follows, are read as the signed decimal number; without a digit nothing is read |
| StreamItemTopics.StreamItemTopic.constructor | src/fast_dds/simulation_bus/stream_item_topic/stream_item_topic.cpp:10-30 | The first profile is that of the constructor's stream type |
| StreamItemTopics.StreamItemTopic.UpdateStreamType | src/fast_dds/simulation_bus/stream_item_topic/stream_item_topic.cpp:37-54 | The new state is the updated topic, and true is returned exactly if the profile changed |
| Cdr.PadIsAlignment | src/fast_dds/types/stream_types.cxx:128-132 | The padding is the distance to the next multiple of four, as `Cdr::alignment` computes it |
| Cdr.ULongOctetsArePositional | src/fast_dds/types/stream_types.cxx:386-393 | The four octets of a length are its base-256 digits, most significant first in big endian and least significant first in little endian |
| Cdr.ULongRoundTrip | src/fast_dds/types/stream_types.cxx:386-401 | Four octets written in either endianness are read as the same number |
| Cdr.DecodeStringOfLayout | src/fast_dds/types/stream_types.cxx:138-163 | Where the layout of a string stands, at any offset and over any padding octets, exactly that string is read and exactly its octets are consumed |
| Cdr.OverlaidConcat | src/fast_dds/types/stream_types.cxx:138-146 | Writing two layouts one behind the other is writing their concatenation; nothing else is touched |
| WireFormat.StringAtIff | src/fast_dds/types/stream_types.cxx:142-144 | The octets that writing a string fixes are, behind the padding, the length with the NUL, the octets and the NUL |
| WireFormat.PropertyAtIff | src/fast_dds/types/stream_types.cxx:138-146 | The octets that writing a property fixes are those of its name, its type and its value, in this order, each where the one before it ends |
| WireFormat.StreamTypeAtIff | src/fast_dds/types/stream_types.cxx:386-393 | The octets that writing a stream type fixes are those of its meta type, the number of its properties and the properties from the first one on |
| WireFormat.BusDataAtIff | src/fast_dds/types/stream_types.cxx:578-583 | The octets that writing a sample fixes are the number of its octets and these |
| WireFormat.ThreeStringsAreProperty | src/fast_dds/types/stream_types.cxx:148-163 | Any three strings that stand one behind the other are read as the name, cut for 256 octets, the type, cut for 64, and the value |
| WireFormat.StreamTypeIsRead | src/fast_dds/types/stream_types.cxx:395-401 | A meta type, a number of properties and so many properties that stand one behind the other are read as that stream type |
| WireFormat.UnterminatedStringIsRead | src/fast_dds/types/stream_types.cxx:154-162 | A string whose announced octets do not end in a NUL is read with all of them |
| Decoding.AssignFixedIsPrefix | src/fast_dds/types/stream_types.cxx:152-160 | A fixed string takes as many octets as fit, up to the first NUL |
| StreamTypes.CStrEndsAtFirstNul | src/fast_dds/types/stream_types.cxx:142-144 | A C string ends at the first NUL, or is the whole string |
| CdrStreams.CdrStream.WriteString | src/fast_dds/types/stream_types.cxx:142-144 | The layout is put at the position if it fits and fails if it does not; octets before the origin and behind the layout are untouched |
| CdrStreams.CdrStream.ReadString | src/fast_dds/types/stream_types.cxx:154-162 | Gives the decoded string and moves behind it, or fails and leaves the position alone |
| Sizes.SizeNeverUnderestimates | src/fast_dds/types/stream_types.cxx:120-146 | For every value and offset the computed size is at least what serialize writes, and equal if and only if strings with a NUL are hidden by padding and the last string has none |
| Sizes.NoNulIsTight | src/fast_dds/types/stream_types.cxx:365-393 | In particular the size is exact when no string holds a NUL |
| Sizes.PropertyMaximum | src/fast_dds/types/stream_types.cxx:37-39 | A property within the limits ends at most 596 octets after the next aligned offset, and full strings attain the bound |
| Sizes.PropertyMaximumHoldsIff | src/fast_dds/types/stream_types.cxx:37-39 | 596 bounds the size of every property within the limits if and only if the offset is aligned |
| Sizes.StreamTypeMaximum | src/fast_dds/types/stream_types.cxx:362-384 | A stream type within the limits ends at most 59864 octets after the next aligned offset, and the bound is attained |
| Sizes.StreamTypeMaximumIff | src/fast_dds/types/stream_types.cxx:362-384 | Within limits or not, a stream type keeps to the maximum at any offset if and only if its rounded lengths add up to at most 59864 |
| Sizes.MaximumIsNoBoundForLongStrings | src/fast_dds/types/stream_types.cxx:38 | The maximum is no bound on the type itself: one long value exceeds it |
| Sizes.BusDataMaximum | src/fast_dds/types/stream_types.cxx:558-576 | 104 bounds the end if and only if there are at most 100 octets, and is attained |
| GeneratedTypes.GetPropertySize | src/fast_dds/types/stream_types.cxx:120-136 | The size is the distance to the end position of the property measured by size() |
| GeneratedTypes.GetStreamTypeSize | src/fast_dds/types/stream_types.cxx:365-384 | Never less than the length of the layout that serialize writes at that offset, equal to it if and only if the value is tight, and within the maximum for values within the limits |
| GeneratedTypes.GetBusDataSize | src/fast_dds/types/stream_types.cxx:558-576 | Equals the length of the layout that serialize writes, in either endianness |
| GeneratedTypes.SerializeProperty | src/fast_dds/types/stream_types.cxx:138-146 | Fails exactly if the property does not fit; on success its name, its type and its value stand in the octets in this order, and everything else is untouched |
| GeneratedTypes.AppendProperties | src/fast_dds/types/stream_types.cxx:391 | The property loop writes the layout of all properties behind the head, and fails exactly if the whole does not fit |
| GeneratedTypes.StreamTypeObject.Serialize | src/fast_dds/types/stream_types.cxx:386-393 | Succeeds exactly if the layout fits; then the meta type, the number of properties and the properties stand in the octets, and everything else is untouched |
| GeneratedTypes.StreamTypeObject.Deserialize | src/fast_dds/types/stream_types.cxx:395-401 | Succeeds exactly if the octets decode, and then the object is the decoded value and the position is behind it |
| GeneratedTypes.DeserializeProperty | src/fast_dds/types/stream_types.cxx:148-163 | Three strings, of which two are cut to fixed strings; fails exactly if one is missing |
| GeneratedTypes.DeserializeProperties | src/fast_dds/types/stream_types.cxx:400 | As many properties as announced, or failure exactly if one does not decode |
| GeneratedTypes.SerializeBusData | src/fast_dds/types/stream_types.cxx:578-583 | Fails exactly if the sample does not fit; on success the number of octets and the octets stand there |
| GeneratedTypes.DeserializeBusData | src/fast_dds/types/stream_types.cxx:585-589 | Gives the decoded octets and moves behind them, or fails exactly if they are missing |
| StreamTypes.WrittenIsIdentityIff | src/fast_dds/types/stream_types.cxx:386-393 | What serialize writes is the whole value if and only if no string holds a NUL |
| StreamTypes.StreamTypeLength | src/fast_dds/types/stream_types.cxx:386-393 | The octets written at any offset reach exactly to the end position computed from the C strings |
| Decoding.StreamTypeRoundTrip | src/fast_dds/types/stream_types.cxx:386-401 | Reading what was written, at any offset and whatever the padding holds, gives every string up to its first NUL and consumes exactly the octets written; it gives the equal value if and only if no string holds a NUL |
| Decoding.PropertyRoundTrip | src/fast_dds/types/stream_types.cxx:138-163 | The same for one property, through the fixed strings |
| Decoding.BusDataRoundTrip | src/fast_dds/types/stream_types.cxx:578-589 | Octets written are read back exactly |
| Decoding.StreamTypePrefix | src/fast_dds/types/stream_types.cxx:395-401 | If a prefix decodes, all octets decode to the same value at the same end, and that end lies within the prefix |
| Decoding.TruncatedEncodingIsRejected | src/fast_dds/types/stream_types.cxx:395-401 | Every proper prefix of an encoding is rejected |
| PubSubTypes.PayloadRoundTrip | src/fast_dds/types/stream_typesPubSubTypes.cxx:194-251 | A payload of either endianness is read back as the written value and consumed to the last octet; equal to the original if and only if no string holds a NUL |
| PubSubTypes.TruncatedPayloadIsRejected | src/fast_dds/types/stream_typesPubSubTypes.cxx:223-251 | No proper prefix of a payload is taken for a value |
| PubSubTypes.PayloadOctets | src/fast_dds/types/stream_typesPubSubTypes.cxx:203-219 | A payload is the identifier 0, 1 (little endian) or 0, 0 (big endian), two zero options, and then the stream type, aligned from behind the header on |
| PubSubTypes.ProviderSuffices | src/fast_dds/types/stream_typesPubSubTypes.cxx:253-261 | A buffer of the provider's size suffices whenever its 32-bit sum does not overflow, and for values without NULs only then |
| PubSubTypes.TypeSizeSuffices | src/fast_dds/types/stream_typesPubSubTypes.cxx:173-178 | A buffer of m_typeSize octets suffices for every value within the limits, and full values fill it exactly |
| PubSubTypes.TypeSizeSufficesIff | src/fast_dds/types/stream_typesPubSubTypes.cxx:173-178 | For any value, a buffer of m_typeSize octets suffices if and only if the rounded lengths of what is written add up to at most 59864 |
| PubSubTypes.BusDataPayloadRoundTrip | src/fast_dds/types/stream_types.cxx:578-589 | The payload of a sample starts with the same header, then holds the number of octets and the octets, and is read back exactly |
| PubSubTypes.BusDataTypeSizeSufficesIff | src/fast_dds/types/stream_types.cxx:37 | A buffer of m_typeSize octets suffices for a sample if and only if it has at most 100 octets |
| PubSubTypes.Serialize | src/fast_dds/types/stream_typesPubSubTypes.cxx:194-221 | True exactly if header and layout fit; then the payload starts 0, 1 or 0, 0 by the byte order of the host and 0, 0, followed by the stream type; the length is unchanged otherwise; an exception exactly if not even the header fits |
| PubSubTypes.Deserialize | src/fast_dds/types/stream_typesPubSubTypes.cxx:223-251 | True with the decoded value, false, or an exception, exactly as the octets of the payload say; the byte order is taken from the lowest bit of the identifier |
| PubSubTypes.SendAndReceive | src/fast_dds/types/stream_typesPubSubTypes.cxx:194-261 | Provider, serialize and deserialize composed, on machines of any endianness, deliver the written value, equal to the original if and only if it holds no NUL |
| Conversion.ConversionRoundTripIff | src/fast_dds/simulation_bus/stream_item_topic/stream_item_writer.cpp:120-131 | Converting to the DDS form and back is the identity if and only if every name fits 256 and every type 64 octets without NUL, for every order of enumerating the names |
| Conversion.WireRoundTripIff | src/fast_dds/simulation_bus/stream_item_topic/stream_item_writer.cpp:120-131 | The same with serialize and deserialize in between: unchanged if and only if names and types fit and no meta type or value holds a NUL |
| Conversion.DdsPropertiesAre | src/fast_dds/simulation_bus/stream_item_topic/stream_item_writer.cpp:120-131 | Property i of the DDS value has the i-th enumerated name, its type and its value, and names and types within 256 and 64 octets are kept |
| Conversion.CreateStreamType | src/fast_dds/simulation_bus/reader_item_queue.cpp:12-21 | The loop of setProperty calls gives the conversion back, in which a later property of the same name wins |
| Conversion.LastPropertyWins | src/fast_dds/simulation_bus/reader_item_queue.cpp:16-19 | For any list of properties the result has, at each name, the value and the type of the last property of that name |
| Conversion.StreamItemDataWriter.Write | src/fast_dds/simulation_bus/stream_item_topic/stream_item_writer.cpp:116-144 | Builds the DDS value, which converts back to the argument exactly if names and types fit; updates the topic; recreates the writer exactly if the profile switched |
| Lifecycles.RaiseCalls | test/fep3/components/base/component_registry.cpp:125-172 | A raise that fails at component i calls raise on 0..i in order and then the fallback on exactly i-1..0 even if fallbacks fail or throw; a successful one calls raise on all and no fallback |
| Lifecycles.LowerCalls | test/fep3/components/base/component_registry.cpp:190-209 | A downward transition visits every component exactly once in reverse order whatever fails or throws, and succeeds if and only if every component did |
| Lifecycles.RaiseCallAt | test/fep3/components/base/component_registry.cpp:125-172 | The k-th call of a raise by index: component k is raised up to the failing one i, and then component 2i - k is taken back |
| Lifecycles.LowerCallAt | test/fep3/components/base/component_registry.cpp:190-209 | The k-th call of a downward transition goes to the k-th component from the back |
| Lifecycles.OrderOfTransitions | test/fep3/components/base/component_registry.cpp:174-295 | create, initialize, tense and start lead from level 0 to 4, and destroy, deinitialize, relax and stop take them back |
| Lifecycles.RaiseIsAtomic | test/fep3/components/base/component_registry.cpp:174-188 | For well-behaved components at one level a raise is all-or-nothing and succeeds only from its source level; an object registered twice makes it fail and be undone |
| Lifecycles.LowerIsAtomic | test/fep3/components/base/component_registry.cpp:239-281 | For distinct well-behaved components at one level a downward transition is all-or-nothing, and succeeds if and only if that is its source level |
| Lifecycles.OneLevelOverRuns | test/fep3/components/base/component_registry.cpp:174-318 | Over every run of lifecycle calls, in any order, distinct well-behaved components sit at one common level, the target of the last transition that succeeded |
| Lifecycles.OneLevelOverOrderlyRuns | test/fep3/components/base/component_registry.cpp:174-318 | The same for components of which only the reverse steps are known to succeed, over every run that asks for each transition at its source level |
| Lifecycles.FailedRaiseIsUndoneIff | test/fep3/components/base/component_registry.cpp:150-169 | For arbitrary distinct components a failed raise is undone if and only if every fallback call succeeds |
| Lifecycles.StrictComponentsAreWellBehaved | test/fep3/components/base/component_registry.cpp:174-318 | Well-behaved components exist: those that accept a step exactly from its source level |
| ComponentRegistries.RegistryFollowsHistory | test/fep3/components/base/component_registry.cpp:46-123 | After any run of register, unregister and clear, ids are pairwise distinct and are the version map's keys, each entry is the registration in force, and the surviving registration order is kept |
| ComponentRegistries.FindAgreesWithHistory | test/fep3/components/base/component_registry.cpp:85-95 | The linear search finds exactly the component of the registration in force, and the map its version |
| ComponentRegistries.ComponentRegistry.FindComponent | test/fep3/components/base/component_registry.cpp:85-95 | The component of the first entry with the id, or none |
| ComponentRegistries.ComponentRegistry.FindComponentByPtr | test/fep3/components/base/component_registry.cpp:97-107 | Found exactly if some entry holds the object |
| ComponentRegistries.ComponentRegistry.RegisterComponent | test/fep3/components/base/component_registry.cpp:46-61 | Both containers change together, or nothing changes and the error says why |
| ComponentRegistries.ComponentRegistry.UnregisterComponent | test/fep3/components/base/component_registry.cpp:109-123 | The entry and the version of that id go together, or nothing changes and an error is returned |
| ComponentRegistries.ComponentRegistry.GetComponentVersion | test/fep3/components/base/component_registry.cpp:63-83 | The version in the map; present exactly for registered ids while the containers are in step |
| ComponentRegistries.ComponentRegistry.Clear | test/fep3/components/base/component_registry.cpp:327-337 | Both containers end empty |
| ComponentRegistries.ComponentRegistry.RaiseInOrder | test/fep3/components/base/component_registry.cpp:130-149 | The components remembered for the fallback are exactly those before the first that did not succeed |
| ComponentRegistries.ComponentRegistry.LowerInReverse | test/fep3/components/base/component_registry.cpp:150-167 | Every component of the list is called from the back whatever it answers; success exactly if all succeed |
| ComponentRegistries.ComponentRegistry.RaiseWithFallback | test/fep3/components/base/component_registry.cpp:125-172 | The loops make exactly the calls of the raise that the lifecycle theorems are about |
| ComponentRegistries.ComponentRegistry.LowerAll | test/fep3/components/base/component_registry.cpp:239-259 | The loop makes exactly the calls of the downward transition that the lifecycle theorems are about |
| Receptions.CallbackRunsExactlyOnce | src/fast_dds/simulation_bus/fep_fast_dds_simulation_bus.cpp:145-237 | In every interleaving the preparation callback never runs twice, has run while the start waits, and has run exactly once when the start has ended on any way out |
| Receptions.GuardIffStopAfterReset | src/fast_dds/simulation_bus/fep_fast_dds_simulation_bus.cpp:190-243 | After the reset the guard is set if and only if some stop has executed its second statement since |
| Receptions.StopIsNeverErased | src/fast_dds/simulation_bus/fep_fast_dds_simulation_bus.cpp:190-243 | Once set after the reset, the guard stays set for the rest of every run |
| Receptions.StopEndsTheStart | src/fast_dds/simulation_bus/fep_fast_dds_simulation_bus.cpp:198-243 | With the guard set after the reset, the start ends within three steps of its own and begins no further delivery |
| Receptions.EarlyStopIsSeenIff | src/fast_dds/simulation_bus/fep_fast_dds_simulation_bus.cpp:166-167 | The start ends at its first test if and only if a stop has cleared the flag since the start set it |
| Receptions.StopBeforeResetIsLost | src/fast_dds/simulation_bus/fep_fast_dds_simulation_bus.cpp:167-194 | A run from the very beginning, for any flags, in which a stop that completes between the test and the reset is lost |
| Receptions.StopsHonouredIff | src/fast_dds/simulation_bus/fep_fast_dds_simulation_bus.cpp:145-243 | After every run from the beginning the start will end if and only if there is no collection, an exception occurred, or a stop executed its first statement while the start stood at the test or its second one after the reset; all other stops are lost |
| Receptions.WillEndIff | src/fast_dds/simulation_bus/fep_fast_dds_simulation_bus.cpp:166-234 | Left alone, the start is done after three steps or never, and a condition on its state decides which |
| DataItemQueues.HoldsNewestOfUnbounded | test/fep3/base/queue/data_item_queue.cpp:55-98 | Under any mix of pushes and pops at both ends what the queue holds is the newest part of what an unbounded queue holds |
| DataItemQueues.PushesKeepTheNewest | test/fep3/base/queue/data_item_queue.cpp:55-70 | Pushes alone leave exactly the newest items that fit, in order |
| DataItemQueues.EveryItemIsAccountedFor | test/fep3/base/queue/data_item_queue.cpp:55-98 | Under any mix of operations every pushed item is held, was taken by a pop, or was dropped by a full queue: none twice, none lost |
| DataItemQueues.BoundedIsUnboundedIff | test/fep3/base/queue/data_item_queue.cpp:55-98 | The bounded queue agrees with the unbounded one after every operation if and only if the latter never exceeds the capacity, and if and only if nothing is dropped |
| DataItemQueues.FifoLosesNothingIff | test/fep3/base/queue/data_item_queue.cpp:55-125 | Used as a FIFO, what came out followed by what is held is everything pushed, in order, if and only if nothing was dropped |
| DataItemQueues.FifoRun | test/fep3/base/queue/data_item_queue.cpp:101-125 | Used as a FIFO it holds a contiguous run of the newest pushes, and what came out is an in-order selection of the older ones, none twice |
| DataItemQueues.DataItemQueue.constructor | test/fep3/base/queue/data_item_queue.cpp:36-40 | Empty, with capacity 1 in place of 0 |
| DataItemQueues.DataItemQueue.PushBack | test/fep3/base/queue/data_item_queue.cpp:55-70 | The ring buffer appends and drops the oldest item if it is full; with capacity 0 nothing is kept |
| DataItemQueues.DataItemQueue.NextTime | test/fep3/base/queue/data_item_queue.cpp:72-85 | The time of the first sample in queue order, skipping stream types, or none |
| DataItemQueues.DataItemQueue.Pop | test/fep3/base/queue/data_item_queue.cpp:87-98 | The last item is dropped; true exactly if there was one |
| DataItemQueues.DataItemQueue.PopFrontTo | test/fep3/base/queue/data_item_queue.cpp:100-125 | The receiver gets the first item, the rest stays; true exactly if there was one |
| DataItemQueues.DataItemQueue.PopBackTo | test/fep3/base/queue/data_item_queue.cpp:158-183 | The receiver gets the last item, the rest stays; true exactly if there was one |
| DataItemQueues.DataItemQueue.Read | test/fep3/base/queue/data_item_queue.cpp:213-236 | The item at the index in queue order, or nothing |
| DataItemQueues.DataItemQueue.ReadBack | test/fep3/base/queue/data_item_queue.cpp:263-287 | The last item, or nothing |
| DataItemQueues.DataItemQueue.SetCapacity | test/fep3/base/queue/data_item_queue.cpp:326-334 | The queue is emptied and has exactly the requested capacity, also 0 |
| DataItemQueues.DataItemQueue.Iteration | test/fep3/base/queue/data_item_queue.cpp:345-352 | Visits the items in order up to and including the first that the callback refuses |
| DataItemQueues.DataItemQueue.ReverseIteration | test/fep3/base/queue/data_item_queue.cpp:336-343 | Visits the reversed items up to and including the first that the callback refuses |
| InternalTopics.AlwaysContiguous | src/fast_dds/simulation_bus/internal_topic/internal_topic.cpp:35-78 | In every interleaving of writers and readers the queue is a contiguous run of the newest writes, at most eleven, and what was delivered is an in-order selection of the older ones, each at most once |
| InternalTopics.NoWriteIsLostIff | src/fast_dds/simulation_bus/internal_topic/internal_topic.cpp:35-78 | In every interleaving, what was delivered followed by what is queued is everything written, in order, if and only if no write met more than ten entries |
| InternalTopics.WritesAloneKeepEleven | src/fast_dds/simulation_bus/internal_topic/internal_topic.cpp:35-43 | Without readers the queue grows with each write up to eleven entries, and stays there |
| InternalTopics.NeverPopsEmptyIff | src/fast_dds/simulation_bus/internal_topic/internal_topic.cpp:50-78 | No interleaving pops an empty queue if and only if there is at most one reader, for any number of writers |
| InternalTopics.OneReaderNeverPopsEmpty | src/fast_dds/simulation_bus/internal_topic/internal_topic.cpp:62-78 | With one reader the queue is still non-empty between the unlocked check and the pop, whatever the writers do |
| InternalTopics.TwoReadersBreak | src/fast_dds/simulation_bus/internal_topic/internal_topic.cpp:62-78 | An interleaving of two readers in which an empty queue is popped |
| InternalTopics.InternalTopic.Write | src/fast_dds/simulation_bus/internal_topic/internal_topic.cpp:35-43 | The loop leaves the newest ten entries and the new one |
| InternalTopics.InternalTopic.Pop | src/fast_dds/simulation_bus/internal_topic/internal_topic.cpp:62-78 | The oldest entry comes out, or nothing if the queue is empty |

## Left out

- Fast DDS entities, discovery, QoS profiles in XML, files and directories: library behaviour or I/O. Fast DDS and fast-cdr are not part of this model; readers are queues, and the `Cdr` stream follows the standards named above.
- Arrivals during a drain: a reader created by a QoS switch starts empty and stays empty until the drain ends.
- The two overloads of `popFrom` differ only in `begin_access` and `end_access` and in how they name the receiver; they are modelled once, without these calls and without returning loans.
- Exceptions from receivers, from the preparation callback and out of `pop`: not modelled.
- StreamItemTopics.StreamItemTopic.UpdateStreamType: covers the stream types whose size properties are absent or read by `stoi` as numbers that, with their product, fit 32 bits; the exception that `stoi` throws without digits or out of range, and the overflow of the product, are not modelled.
- The strings "max_byte_size", "max_array_size" and "plain-array" come from the FEP SDK, which is not part of this model.
- The default QoS profile is never chosen, because `containsProfile` always answers true.
- Rebuilding the wait set after a QoS switch, and readers registered later: the source never gets back to that code, so nothing is claimed about later wake-ups.
- WakeUps.SimulationBus.PopFrom: works on queue values with the function that `ReaderItemQueue.PopFrom` is proved to compute, not on queue objects; that two entries could share one queue object is not captured, that they share a topic is.
- ReaderItemQueues.ReaderItemQueue.GetFrontTime: asks the readers whether they are enabled as little as the source does; that the library may refuse to look into a disabled reader is not modelled.
- Receptions.StopEndsTheStart: counts the start's own steps; that the start is scheduled at all, and how long one wait or one delivery takes, is not modelled.
- CdrStreams.CdrStream.ReadString: a string length that would wrap the position around in 32 bits cannot occur, as buffers are shorter than that.
- GeneratedTypes.StreamTypeObject.Serialize: excludes strings of 2^32 - 1 octets or more and as many properties, whose 32-bit length field would wrap around.
- Decoding.StreamTypeRoundTrip: excludes the same values.
- Conversion.WireRoundTripIff: excludes the same values.
- PubSubTypes.SendAndReceive: only for values for which the provider's 32-bit sum does not overflow; PubSubTypes.ProviderSuffices says that this is necessary as well.
- Sizes beyond 64 bits: `size_t` is modelled as a natural number.
- GeneratedTypes.StreamTypeObject.Deserialize: says nothing about the object after a failure, which the source leaves partly overwritten.
- PropertyPubSubType and BusDataPubSubType repeat the statements of StreamTypePubSubType; only the methods of the latter are modelled, with the payload results for BusData as lemmas.
- Keys: no type defines one, so `getKey` returns at once.
- `write(const IStreamType&)` never publishes the value it builds; the results are about the conversion, not about delivery.
- `createSample`, `convertTimestamp`, writing samples, JSON in `BusInfo`, logging, generated getters and setters: easy members.
- Lifecycles.OneLevelOverRuns: a component is an address and an oracle for its answers; a call that does not succeed leaves the component's level alone.
- The four downward loops differ only in the call they make and are modelled once; `pause` always fails.
- The text of error results: only success, failure and its kind are kept.
- DataItemQueues.DataItemQueue.SetCapacity: follows the code, not the comment above it, which promises a capacity of 1 for a size of 0.
- Locks of the bounded queues: each locked region is one step. `readFront` is `read(0)`, and the `popFront` and `popBack` that return tuples do what those with receivers do.
- InternalReader's `capacity` and the fields of the sample it builds: easy members.
