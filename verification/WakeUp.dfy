/** One wake-up of the reception loop: every fired condition that is not the guard condition drains
    every registered queue in collection order (fep_fast_dds_simulation_bus.cpp). */
module WakeUps {
  import opened Common
  import opened StreamItemTopics
  import opened Drains
  import opened DrainTheorems
  import opened TypeCuts
  import opened Delivery

  /** One entry of the data access collection; readers of one topic share the topic object. */
  datatype Access = Access(samples: seq<Batch<Bytes>>, types: seq<Batch<StreamType>>,
                           sampleOn: bool, typeOn: bool, topic: nat) {
    function On(state: Topic): Pending { Pending(samples, types, state, sampleOn, typeOn) }
  }

  datatype Bus = Bus(accesses: seq<Access>, topics: seq<Topic>) {
    ghost predicate Valid() { forall i :: 0 <= i < |accesses| ==> accesses[i].topic < |topics| }

    function Queue(i: nat): Pending
      requires Valid() && i < |accesses|
    {
      accesses[i].On(topics[accesses[i].topic])
    }

    function Store(i: nat, st: Pending): (bus: Bus)
      requires Valid() && i < |accesses|
      ensures bus.Valid() && |bus.accesses| == |accesses|
    {
      var a := accesses[i];
      Bus(accesses[i := Access(st.samples, st.types, st.sampleOn, st.typeOn, a.topic)],
          topics[a.topic := st.topic])
    }
  }

  datatype Delivered = Delivered(queue: nat, event: Event)

  function Tag(queue: nat, out: seq<Event>): (d: seq<Delivered>)
    ensures |d| == |out|
  {
    seq(|out|, k requires 0 <= k < |out| => Delivered(queue, out[k]))
  }

  datatype Served = Served(bus: Bus, out: seq<Delivered>)

  /** Drains the queues from `i` on, in order. */
  function PassFrom(bus: Bus, i: nat): (s: Served)
    requires bus.Valid() && i <= |bus.accesses|
    ensures s.bus.Valid() && |s.bus.accesses| == |bus.accesses|
    decreases |bus.accesses| - i
  {
    if i == |bus.accesses| then Served(bus, [])
    else
      var run := Drain(bus.Queue(i));
      var next := PassFrom(bus.Store(i, run.end), i + 1);
      Served(next.bus, Tag(i, run.out) + next.out)
  }

  function Pass(bus: Bus): (s: Served)
    requires bus.Valid()
    ensures s.bus.Valid() && |s.bus.accesses| == |bus.accesses|
  {
    PassFrom(bus, 0)
  }

  /** The dispatch loop over the fired conditions; true marks the guard condition. */
  function WakeUp(bus: Bus, isGuard: seq<bool>): (s: Served)
    requires bus.Valid()
    ensures s.bus.Valid() && |s.bus.accesses| == |bus.accesses|
    decreases |isGuard|
  {
    if isGuard == [] then Served(bus, [])
    else
      var first := if isGuard[0] then Served(bus, []) else Pass(bus);
      var rest := WakeUp(first.bus, isGuard[1..]);
      Served(rest.bus, first.out + rest.out)
  }

  // ----- queues in which nothing can be delivered any more -----

  ghost predicate Spent(st: Pending) {
    GoodHeads(Reachable(st)) == [] && GoodHeads(ReachableTypes(st)) == []
  }

  ghost predicate AllSpent(bus: Bus)
    requires bus.Valid()
  {
    forall i :: 0 <= i < |bus.accesses| ==> Spent(bus.Queue(i))
  }

  lemma QuietDrain(st: Pending)
    ensures Drain(st).out == [] <==> Round(st).out == []
    ensures Round(st).out == [] ==> Drain(st).end == Round(st).rest
  {
  }

  /** A spent queue drains silently and stays spent; a silent drain leaves an unspent queue unspent
      and shorter, and leaves the topic alone. */
  lemma SpentDrain(st: Pending)
    ensures Spent(st) ==> Drain(st).out == []
    ensures Drain(st).out == [] ==> (Spent(Drain(st).end) <==> Spent(st)) && Drain(st).end.topic == st.topic
    ensures Drain(st).out == [] && !Spent(st) ==> Drain(st).end.Load() < st.Load()
  {
    QuietDrain(st);
    var s, t := Reachable(st), ReachableTypes(st);
    assert Spent(st) ==> !GoodHead(s) && !GoodHead(t);
    if Round(st).out == [] {
      assert GoodHeads(s) == GoodHeads(Tail(s)) && GoodHeads(t) == GoodHeads(Tail(t));
    }
  }

  /** The queues from `i` on have been drained without delivering anything; nothing else changed. */
  ghost predicate Silenced(bus: Bus, i: nat, after: Bus)
    requires bus.Valid() && after.Valid() && |bus.accesses| == |after.accesses|
  {
    && after.topics == bus.topics
    && (forall j :: 0 <= j < i && j < |bus.accesses| ==> after.Queue(j) == bus.Queue(j))
    && (forall j :: i <= j < |bus.accesses| ==>
          Drain(bus.Queue(j)).out == [] && after.Queue(j) == Drain(bus.Queue(j)).end)
  }

  lemma StoreFrame(bus: Bus, i: nat, st: Pending)
    requires bus.Valid() && i < |bus.accesses| && st.topic == bus.Queue(i).topic
    ensures bus.Store(i, st).topics == bus.topics && bus.Store(i, st).Queue(i) == st
    ensures forall j :: 0 <= j < |bus.accesses| && j != i ==> bus.Store(i, st).Queue(j) == bus.Queue(j)
  {
  }

  lemma SilencedStep(bus: Bus, i: nat, after: Bus)
    requires bus.Valid() && after.Valid() && |bus.accesses| == |after.accesses| && i < |bus.accesses|
    requires Drain(bus.Queue(i)).out == [] && Drain(bus.Queue(i)).end.topic == bus.Queue(i).topic
    requires Silenced(bus.Store(i, Drain(bus.Queue(i)).end), i + 1, after)
    ensures Silenced(bus, i, after)
  {
    StoreFrame(bus, i, Drain(bus.Queue(i)).end);
  }

  lemma {:induction false} SilentPass(bus: Bus, i: nat, s: Served)
    requires bus.Valid() && i <= |bus.accesses|
    requires s == PassFrom(bus, i) && s.out == []
    ensures Silenced(bus, i, s.bus)
    decreases |bus.accesses| - i
  {
    if i < |bus.accesses| {
      var run := Drain(bus.Queue(i));
      var bus' := bus.Store(i, run.end);
      assert |Tag(i, run.out)| <= |s.out|;
      SpentDrain(bus.Queue(i));
      SilentPass(bus', i + 1, PassFrom(bus', i + 1));
      SilencedStep(bus, i, s.bus);
    }
  }

  ghost predicate SpentFrom(bus: Bus, i: nat)
    requires bus.Valid()
  {
    forall j :: i <= j < |bus.accesses| ==> Spent(bus.Queue(j))
  }

  lemma SpentFromNext(bus: Bus, i: nat, end: Pending)
    requires bus.Valid() && i < |bus.accesses| && SpentFrom(bus, i) && end.topic == bus.Queue(i).topic
    ensures SpentFrom(bus.Store(i, end), i + 1)
  {
    StoreFrame(bus, i, end);
  }

  lemma {:induction false} SpentPass(bus: Bus, i: nat, s: Served)
    requires bus.Valid() && i <= |bus.accesses|
    requires s == PassFrom(bus, i) && SpentFrom(bus, i)
    ensures s.out == []
    decreases |bus.accesses| - i
  {
    if i < |bus.accesses| {
      var end := Drain(bus.Queue(i)).end;
      SpentDrain(bus.Queue(i));
      SpentFromNext(bus, i, end);
      SpentPass(bus.Store(i, end), i + 1, PassFrom(bus.Store(i, end), i + 1));
      assert Tag(i, []) + [] == [];
    }
  }

  /** Any list of conditions delivers nothing from a bus in which every queue is spent. */
  lemma {:induction false} SpentBusIsSilent(bus: Bus, isGuard: seq<bool>)
    requires bus.Valid() && AllSpent(bus)
    ensures WakeUp(bus, isGuard).out == []
    decreases |isGuard|
  {
    if isGuard != [] {
      if !isGuard[0] {
        SpentPass(bus, 0, Pass(bus));
        SilentPass(bus, 0, Pass(bus));
        forall j | 0 <= j < |bus.accesses| ensures Spent(Pass(bus).bus.Queue(j)) {
          SpentDrain(bus.Queue(j));
        }
        SpentBusIsSilent(Pass(bus).bus, isGuard[1..]);
      } else {
        SpentBusIsSilent(bus, isGuard[1..]);
      }
    }
  }

  /** As long as queue `i` is not spent, enough fired conditions deliver something. */
  lemma {:induction false} UnspentBusDelivers(bus: Bus, i: nat) returns (isGuard: seq<bool>)
    requires bus.Valid() && i < |bus.accesses| && !Spent(bus.Queue(i))
    ensures WakeUp(bus, isGuard).out != []
    decreases bus.Queue(i).Load()
  {
    var s := Pass(bus);
    if s.out != [] {
      isGuard := [false];
    } else {
      SilentPass(bus, 0, s);
      SpentDrain(bus.Queue(i));
      var more := UnspentBusDelivers(s.bus, i);
      isGuard := [false] + more;
      assert isGuard[1..] == more;
    }
  }

  predicate SomeReadCondition(isGuard: seq<bool>) { exists k :: 0 <= k < |isGuard| && !isGuard[k] }

  lemma {:induction false} FirstReadCondition(bus: Bus, isGuard: seq<bool>) returns (rest: seq<bool>)
    requires bus.Valid()
    ensures SomeReadCondition(isGuard) ==>
              WakeUp(bus, isGuard).out == Pass(bus).out + WakeUp(Pass(bus).bus, rest).out
    ensures !SomeReadCondition(isGuard) ==> WakeUp(bus, isGuard).out == []
    decreases |isGuard|
  {
    if isGuard == [] {
      rest := [];
    } else if isGuard[0] {
      rest := FirstReadCondition(bus, isGuard[1..]);
      assert SomeReadCondition(isGuard) ==> SomeReadCondition(isGuard[1..]) by {
        assert forall k :: 1 <= k < |isGuard| ==> isGuard[k] == isGuard[1..][k - 1];
      }
    } else {
      rest := isGuard[1..];
    }
  }

  lemma SpentAfterOnePass(bus: Bus, isGuard: seq<bool>)
    requires bus.Valid() && AllSpent(Pass(bus).bus) && SomeReadCondition(isGuard)
    ensures WakeUp(bus, isGuard).out == Pass(bus).out
  {
    var rest := FirstReadCondition(bus, isGuard);
    SpentBusIsSilent(Pass(bus).bus, rest);
  }

  lemma UnspentAfterOnePass(bus: Bus) returns (isGuard: seq<bool>)
    requires bus.Valid() && !AllSpent(Pass(bus).bus)
    ensures SomeReadCondition(isGuard) && WakeUp(bus, isGuard).out != Pass(bus).out
  {
    var after := Pass(bus).bus;
    var i :| 0 <= i < |after.accesses| && !Spent(after.Queue(i));
    var more := UnspentBusDelivers(after, i);
    isGuard := [false] + more;
    assert isGuard[1..] == more && !isGuard[0];
  }

  lemma IndependentIffSpentAfterOnePass(bus: Bus)
    requires bus.Valid()
    ensures AllSpent(Pass(bus).bus)
       <==> forall isGuard: seq<bool> :: SomeReadCondition(isGuard) ==> WakeUp(bus, isGuard).out == Pass(bus).out
  {
    if AllSpent(Pass(bus).bus) {
      forall isGuard: seq<bool> | SomeReadCondition(isGuard) ensures WakeUp(bus, isGuard).out == Pass(bus).out {
        SpentAfterOnePass(bus, isGuard);
      }
    } else {
      var isGuard := UnspentAfterOnePass(bus);
    }
  }

  // ----- the same, read off the bus before the wake-up -----

  /** No good sample behind the first dead round that no switch throws away, and no good type behind the
      type cut. */
  predicate LeavesNothing(st: Pending) {
    && (!st.sampleOn || EarlySwitches(st) > 0 || GoodHeads(LeftSamples(st)) == [])
    && GoodHeads(Drop(ReachableTypes(st), TypeCut(st))) == []
  }

  /** LeavesNothing of each queue in turn, where the types taken from one are seen by the topic it shares
      with later ones. */
  predicate AllLeaveNothing(accesses: seq<Access>, topics: seq<Topic>)
    requires forall i :: 0 <= i < |accesses| ==> accesses[i].topic < |topics|
    decreases |accesses|
  {
    accesses == [] ||
    var k := accesses[0].topic;
    var st := accesses[0].On(topics[k]);
    var taken := GoodHeads(Take(ReachableTypes(st), TypeCut(st)));
    LeavesNothing(st) && AllLeaveNothing(accesses[1..], topics[k := After(topics[k], taken)])
  }

  /** The condition for one queue. */
  lemma SpentAfterDrainIff(st: Pending)
    ensures Spent(Drain(st).end) <==> LeavesNothing(st)
  {
    SwitchLosesNothingIff(st);
    DeliveryIsInterleaving(st);
    DrainIsFlat(st);
    FlagsStay(st, 0, Flat(st, 0));
  }

  lemma TopicAfterDrain(st: Pending)
    ensures Drain(st).end.topic == After(st.topic, GoodHeads(Take(ReachableTypes(st), TypeCut(st))))
  {
    DeliveryIsInterleaving(st);
    DeliveredSamplesAndTypes(st);
  }

  lemma {:induction false} PassKeepsEarlier(bus: Bus, i: nat, s: Served)
    requires bus.Valid() && i <= |bus.accesses| && s == PassFrom(bus, i)
    ensures forall j :: 0 <= j < i ==> s.bus.accesses[j] == bus.accesses[j]
    decreases |bus.accesses| - i
  {
    if i < |bus.accesses| {
      var next := bus.Store(i, Drain(bus.Queue(i)).end);
      PassKeepsEarlier(next, i + 1, PassFrom(next, i + 1));
    }
  }

  /** Whether queue i is spent does not depend on the topics that later drains update. */
  lemma SpentFromStep(bus: Bus, i: nat, st: Pending, after: Bus)
    requires bus.Valid() && after.Valid() && i < |bus.accesses| == |after.accesses|
    requires after.accesses[i] == bus.Store(i, st).accesses[i]
    ensures SpentFrom(after, i) <==> Spent(st) && SpentFrom(after, i + 1)
  {
    assert Spent(after.Queue(i)) <==> Spent(st);
  }

  lemma {:induction false} SpentAfterPassIff(bus: Bus, i: nat, s: Served)
    requires bus.Valid() && i <= |bus.accesses| && s == PassFrom(bus, i)
    ensures SpentFrom(s.bus, i) <==> AllLeaveNothing(bus.accesses[i..], bus.topics)
    decreases |bus.accesses| - i
  {
    if i < |bus.accesses| {
      var st := bus.Queue(i);
      var next := bus.Store(i, Drain(st).end);
      SpentAfterDrainIff(st);
      TopicAfterDrain(st);
      PassKeepsEarlier(next, i + 1, PassFrom(next, i + 1));
      SpentFromStep(bus, i, Drain(st).end, s.bus);
      SpentAfterPassIff(next, i + 1, PassFrom(next, i + 1));
      assert bus.accesses[i..][1..] == next.accesses[i + 1..];
    }
  }

  /** What a wake-up delivers is independent of how many read conditions fired if and only if no queue
      holds, before the wake-up, anything good behind what its drain can reach. */
  lemma OutputIndependentOfConditionsIff(bus: Bus)
    requires bus.Valid()
    ensures AllLeaveNothing(bus.accesses, bus.topics)
       <==> forall isGuard: seq<bool> :: SomeReadCondition(isGuard) ==> WakeUp(bus, isGuard).out == Pass(bus).out
  {
    IndependentIffSpentAfterOnePass(bus);
    SpentAfterPassIff(bus, 0, Pass(bus));
    assert bus.accesses[0..] == bus.accesses;
    assert SpentFrom(Pass(bus).bus, 0) <==> AllSpent(Pass(bus).bus);
  }

  /** A bus on which it does: a bad sample ends the drain for the first condition, and the good one behind
      it is delivered only if a second condition has fired. */
  lemma OutputCanDependOnConditions(topic: Topic, bad: Item<Bytes>, good: Item<Bytes>)
    requires !bad.Good() && good.Good()
    ensures var bus := OneQueue([Batch(bad, []), Batch(good, [])], topic);
            && WakeUp(bus, [false]).out == []
            && WakeUp(bus, [false, false]).out == [Delivered(0, SampleEvent(good.payload))]
  {
    var one, two := OneQueue([Batch(good, [])], topic), OneQueue([Batch(bad, []), Batch(good, [])], topic);
    BadHeadPass([Batch(bad, []), Batch(good, [])], topic);
    GoodSamplePass(good, topic);
    assert [false][1..] == [] && [false, false][1..] == [false];
    assert WakeUp(one, [false]).out == Pass(one).out;
  }

  function OneQueue(samples: seq<Batch<Bytes>>, topic: Topic): Bus {
    Bus([Access(samples, [], true, true, 0)], [topic])
  }

  lemma BadHeadPass(samples: seq<Batch<Bytes>>, topic: Topic)
    requires samples != [] && !samples[0].first.Good()
    ensures Pass(OneQueue(samples, topic)) == Served(OneQueue(samples[1..], topic), [])
  {
    var bus, next := OneQueue(samples, topic), OneQueue(samples[1..], topic);
    assert Drain(bus.Queue(0)) == Run(next.Queue(0), [], []);
    OneQueuePass(bus);
    assert bus.Store(0, next.Queue(0)) == next;
  }

  lemma GoodSamplePass(good: Item<Bytes>, topic: Topic)
    requires good.Good()
    ensures Pass(OneQueue([Batch(good, [])], topic)).out == [Delivered(0, SampleEvent(good.payload))]
  {
    var bus, empty := OneQueue([Batch(good, [])], topic), OneQueue([], topic);
    assert Round(bus.Queue(0)).rest == empty.Queue(0);
    assert Drain(empty.Queue(0)).out == [];
    OneQueuePass(bus);
  }

  lemma OneQueuePass(bus: Bus)
    requires bus.Valid() && |bus.accesses| == 1
    ensures var run := Drain(bus.Queue(0)); Pass(bus) == Served(bus.Store(0, run.end), Tag(0, run.out))
  {
    var run := Drain(bus.Queue(0));
    assert PassFrom(bus.Store(0, run.end), 1) == Served(bus.Store(0, run.end), []);
    assert Tag(0, run.out) + [] == Tag(0, run.out);
  }

  lemma {:induction false} FlagsStay(st: Pending, depth: nat, run: Run)
    requires run == Flat(st, depth)
    ensures run.end.typeOn == st.typeOn && (st.sampleOn ==> run.end.sampleOn)
    ensures run.closed == [] ==> run.end.sampleOn == st.sampleOn
    decreases st.Load(), depth
  {
    var t := Round(st);
    if t.out != [] {
      var d := if t.switched then depth + 1 else depth;
      FlagsStay(t.rest, d, Flat(t.rest, d));
    } else if depth > 0 {
      FlagsStay(t.rest.Recreated(), depth - 1, Flat(t.rest.Recreated(), depth - 1));
    }
  }

  // ----- the regular case -----

  ghost predicate Regular(st: Pending) {
    st.Enabled() && OneGoodEach(st.samples) && OneGoodEach(st.types)
  }

  function Merges(bus: Bus, i: nat): seq<Delivered>
    requires bus.Valid() && i <= |bus.accesses|
    decreases |bus.accesses| - i
  {
    if i == |bus.accesses| then []
    else Tag(i, Merge(Payloads(bus.accesses[i].samples), Payloads(bus.accesses[i].types))) + Merges(bus, i + 1)
  }

  lemma {:induction false} MergesCongruence(a: Bus, b: Bus, i: nat)
    requires a.Valid() && b.Valid() && i <= |a.accesses| == |b.accesses|
    requires a.accesses[i..] == b.accesses[i..]
    ensures Merges(a, i) == Merges(b, i)
    decreases |a.accesses| - i
  {
    if i < |a.accesses| {
      assert a.accesses[i] == a.accesses[i..][0] == b.accesses[i..][0] == b.accesses[i];
      assert a.accesses[i + 1..] == a.accesses[i..][1..] == b.accesses[i..][1..] == b.accesses[i + 1..];
      MergesCongruence(a, b, i + 1);
    }
  }

  lemma RegularStore(bus: Bus, i: nat, st: Pending)
    requires bus.Valid() && i < |bus.accesses|
    requires forall j :: i <= j < |bus.accesses| ==> Regular(bus.Queue(j))
    ensures var bus' := bus.Store(i, st);
            && (forall j :: i < j < |bus.accesses| ==> Regular(bus'.Queue(j)))
            && (forall j :: 0 <= j < |bus.accesses| && j != i ==> bus'.accesses[j] == bus.accesses[j])
            && bus'.accesses[i].samples == st.samples && bus'.accesses[i].types == st.types
            && Merges(bus', i + 1) == Merges(bus, i + 1)
  {
    var bus' := bus.Store(i, st);
    assert bus'.accesses[i + 1..] == bus.accesses[i + 1..];
    MergesCongruence(bus, bus', i + 1);
    forall j | i < j < |bus.accesses| ensures Regular(bus'.Queue(j)) {
      assert Regular(bus.Queue(j));
    }
  }

  lemma {:induction false} RegularPass(bus: Bus, i: nat, s: Served)
    requires bus.Valid() && i <= |bus.accesses| && s == PassFrom(bus, i)
    requires forall j :: i <= j < |bus.accesses| ==> Regular(bus.Queue(j))
    ensures s.out == Merges(bus, i)
    ensures forall j :: 0 <= j < i ==> s.bus.accesses[j] == bus.accesses[j]
    ensures forall j :: i <= j < |bus.accesses| ==> s.bus.accesses[j].samples == [] && s.bus.accesses[j].types == []
    decreases |bus.accesses| - i
  {
    if i < |bus.accesses| {
      var run := Drain(bus.Queue(i));
      RegularDrainIsTheMerge(bus.Queue(i));
      RegularStore(bus, i, run.end);
      RegularPass(bus.Store(i, run.end), i + 1, PassFrom(bus.Store(i, run.end), i + 1));
    }
  }

  /** With good items and one item per take: any wake-up with a read condition delivers, queue by queue
      in collection order, the alternating merge of what each queue held, and empties all of them;
      a wake-up by the guard condition alone delivers nothing. */
  lemma RegularWakeUp(bus: Bus, isGuard: seq<bool>)
    requires bus.Valid() && forall j :: 0 <= j < |bus.accesses| ==> Regular(bus.Queue(j))
    ensures WakeUp(bus, isGuard).out == if SomeReadCondition(isGuard) then Merges(bus, 0) else []
    ensures AllSpent(Pass(bus).bus)
  {
    RegularPass(bus, 0, Pass(bus));
    var rest := FirstReadCondition(bus, isGuard);
    if SomeReadCondition(isGuard) {
      SpentAfterOnePass(bus, isGuard);
    }
  }

  // ----- which queue's receiver gets what -----

  /** What the receiver of queue j gets, in order. */
  function OfQueue(d: seq<Delivered>, j: nat): seq<Event> {
    if d == [] then [] else (if d[0].queue == j then [d[0].event] else []) + OfQueue(d[1..], j)
  }

  lemma {:induction false} OfQueueConcat(a: seq<Delivered>, b: seq<Delivered>, j: nat)
    ensures OfQueue(a + b, j) == OfQueue(a, j) + OfQueue(b, j)
    decreases |a|
  {
    if a == [] {
      assert a + b == b;
    } else {
      OfQueueConcat(a[1..], b, j);
      assert (a + b)[0] == a[0] && (a + b)[1..] == a[1..] + b;
      ConcatAssociates(if a[0].queue == j then [a[0].event] else [], OfQueue(a[1..], j), OfQueue(b, j));
    }
  }

  lemma {:induction false} OfQueueTagged(i: nat, out: seq<Event>, j: nat)
    ensures OfQueue(Tag(i, out), j) == if i == j then out else []
    decreases |out|
  {
    if out != [] {
      OfQueueTagged(i, out[1..], j);
      assert Tag(i, out)[1..] == Tag(i, out[1..]);
      assert Tag(i, out)[0] == Delivered(i, out[0]);
    }
  }

  /** The bus when, in one pass, it is the turn of queue j. */
  function Turn(bus: Bus, j: nat): (t: Bus)
    requires bus.Valid() && j <= |bus.accesses|
    ensures t.Valid() && |t.accesses| == |bus.accesses|
  {
    if j == 0 then bus
    else
      var before := Turn(bus, j - 1);
      before.Store(j - 1, Drain(before.Queue(j - 1)).end)
  }

  lemma {:induction false} PassFromByQueue(bus: Bus, i: nat, now: Bus, s: Served, j: nat)
    requires bus.Valid() && i <= |bus.accesses| && now == Turn(bus, i) && s == PassFrom(now, i)
    ensures OfQueue(s.out, j) == if i <= j < |bus.accesses| then Drain(Turn(bus, j).Queue(j)).out else []
    decreases |bus.accesses| - i
  {
    if i < |bus.accesses| {
      var run := Drain(now.Queue(i));
      var next := now.Store(i, run.end);
      PassFromByQueue(bus, i + 1, next, PassFrom(next, i + 1), j);
      OfQueueConcat(Tag(i, run.out), PassFrom(next, i + 1).out, j);
      OfQueueTagged(i, run.out, j);
    }
  }

  /** In one pass the receiver of queue j gets, in order, exactly what the drain of queue j delivers when it
      is its turn, and there are no other receivers. */
  lemma PassByQueue(bus: Bus, j: nat)
    requires bus.Valid()
    ensures OfQueue(Pass(bus).out, j) == if j < |bus.accesses| then Drain(Turn(bus, j).Queue(j)).out else []
  {
    PassFromByQueue(bus, 0, bus, Pass(bus), j);
  }

  /** The queues are served in collection order. */
  lemma {:induction false} PassFromInOrder(bus: Bus, i: nat, s: Served)
    requires bus.Valid() && i <= |bus.accesses| && s == PassFrom(bus, i)
    ensures forall k :: 0 <= k < |s.out| ==> i <= s.out[k].queue < |bus.accesses|
    ensures forall k, l :: 0 <= k < l < |s.out| ==> s.out[k].queue <= s.out[l].queue
    decreases |bus.accesses| - i
  {
    if i < |bus.accesses| {
      var run := Drain(bus.Queue(i));
      var next := bus.Store(i, run.end);
      PassFromInOrder(next, i + 1, PassFrom(next, i + 1));
      assert forall k :: 0 <= k < |run.out| ==> Tag(i, run.out)[k].queue == i;
    }
  }

  lemma {:induction false} MergesByQueue(bus: Bus, i: nat, j: nat)
    requires bus.Valid() && i <= |bus.accesses|
    ensures OfQueue(Merges(bus, i), j)
         == if i <= j < |bus.accesses| then Merge(Payloads(bus.accesses[j].samples), Payloads(bus.accesses[j].types))
            else []
    decreases |bus.accesses| - i
  {
    if i < |bus.accesses| {
      var merge := Merge(Payloads(bus.accesses[i].samples), Payloads(bus.accesses[i].types));
      MergesByQueue(bus, i + 1, j);
      OfQueueConcat(Tag(i, merge), Merges(bus, i + 1), j);
      OfQueueTagged(i, merge, j);
    }
  }

  /** In the regular case the receiver of queue j gets the merge of what queue j held before the wake-up. */
  lemma RegularWakeUpByQueue(bus: Bus, isGuard: seq<bool>, j: nat)
    requires bus.Valid() && forall i :: 0 <= i < |bus.accesses| ==> Regular(bus.Queue(i))
    ensures OfQueue(WakeUp(bus, isGuard).out, j)
         == if j < |bus.accesses| && SomeReadCondition(isGuard)
            then Merge(Payloads(bus.accesses[j].samples), Payloads(bus.accesses[j].types)) else []
  {
    RegularWakeUp(bus, isGuard);
    MergesByQueue(bus, 0, j);
  }

  // ----- the dispatch loops -----

  lemma StoreTwice(bus: Bus, i: nat, a: Pending, b: Pending)
    requires bus.Valid() && i < |bus.accesses|
    ensures bus.Store(i, a).Queue(i) == a && bus.Store(i, a).Store(i, b) == bus.Store(i, b)
  {
    var topic := bus.accesses[i].topic;
    assert bus.topics[topic := a.topic][topic := b.topic] == bus.topics[topic := b.topic];
  }

  /** `cur` is what queue i holds, and `rest` is what is left of its drain `goal`. */
  ghost predicate Draining(bus0: Bus, i: nat, goal: Run, bus: Bus, cur: Pending, rest: Run,
                           out0: seq<Delivered>, out: seq<Delivered>)
    requires bus0.Valid() && i < |bus0.accesses|
  {
    && bus == bus0.Store(i, cur) && rest.end == goal.end
    && out0 + Tag(i, goal.out) == out + Tag(i, rest.out)
  }

  lemma DrainingStep(bus0: Bus, i: nat, goal: Run, cur: Pending, p: Run, next: Run,
                     out0: seq<Delivered>, out: seq<Delivered>)
    requires bus0.Valid() && i < |bus0.accesses|
    requires Draining(bus0, i, goal, bus0.Store(i, cur), cur, p.Then(next), out0, out)
    ensures Draining(bus0, i, goal, bus0.Store(i, cur).Store(i, p.end), p.end, next, out0, out + Tag(i, p.out))
  {
    StoreTwice(bus0, i, cur, p.end);
    assert Tag(i, p.out + next.out) == Tag(i, p.out) + Tag(i, next.out);
    assert out + (Tag(i, p.out) + Tag(i, next.out)) == (out + Tag(i, p.out)) + Tag(i, next.out);
  }

  lemma DrainingStarts(bus: Bus, i: nat, out: seq<Delivered>)
    requires bus.Valid() && i < |bus.accesses|
    ensures Draining(bus, i, Drain(bus.Queue(i)), bus, bus.Queue(i), Drain(bus.Queue(i)), out, out)
  {
    var topic := bus.accesses[i].topic;
    assert bus.topics[topic := bus.topics[topic]] == bus.topics;
    assert bus.accesses[i := bus.accesses[i]] == bus.accesses;
  }

  /** What one condition still does from queue `i` on. */
  ghost function StillServed(bus: Bus, i: nat, isGuard: bool): (s: Served)
    requires bus.Valid() && i <= |bus.accesses|
  {
    if isGuard then Served(bus, []) else PassFrom(bus, i)
  }

  /** The bus as the reception loop sees it. */
  class SimulationBus {
    var bus: Bus
    var delivered: seq<Delivered>

    /** popFrom on one queue. */
    method PopFrom(i: nat) returns (read: bool)
      requires bus.Valid() && i < |bus.accesses|
      modifies this
      ensures bus == old(bus).Store(i, Pop(old(bus).Queue(i)).end)
      ensures delivered == old(delivered) + Tag(i, Pop(old(bus).Queue(i)).out)
      ensures read <==> Pop(old(bus).Queue(i)).out != []
    {
      var run := Pop(bus.Queue(i));
      bus := bus.Store(i, run.end);
      delivered := delivered + Tag(i, run.out);
      return run.out != [];
    }

    /** popFrom until it reads nothing. */
    method DrainQueue(i: nat)
      requires bus.Valid() && i < |bus.accesses|
      modifies this
      ensures bus == old(bus).Store(i, Drain(old(bus).Queue(i)).end)
      ensures delivered == old(delivered) + Tag(i, Drain(old(bus).Queue(i)).out)
      ensures forall k :: |old(delivered)| <= k < |delivered| ==> delivered[k].queue == i
    {
      ghost var bus0, out0, goal, cur := bus, delivered, Drain(bus.Queue(i)), bus.Queue(i);
      ghost var rest := goal;
      DrainingStarts(bus, i, delivered);
      var more := true;
      while more
        invariant rest == if more then Drain(cur) else Run(cur, [], [])
        invariant Draining(bus0, i, goal, bus, cur, rest, out0, delivered)
        decreases cur.Load(), more
      {
        ghost var p := Pop(cur);
        ghost var next := if p.out != [] then Drain(p.end) else Run(p.end, [], []);
        assert rest == p.Then(next);
        StoreTwice(bus0, i, cur, cur);
        DrainingStep(bus0, i, goal, cur, p, next, out0, delivered);
        rest, cur := next, p.end;
        more := PopFrom(i);
      }
    }

    /** The loop over the data access collection for one condition. */
    method Serve(isGuard: bool)
      requires bus.Valid()
      modifies this
      ensures var s := if isGuard then Served(old(bus), []) else Pass(old(bus));
              bus == s.bus && delivered == old(delivered) + s.out
    {
      ghost var goal, out0 := StillServed(bus, 0, isGuard), delivered;
      ghost var rest := goal;
      for i := 0 to |bus.accesses|
        invariant bus.Valid() && |bus.accesses| == |old(bus).accesses|
        invariant rest == StillServed(bus, i, isGuard)
        invariant rest.bus == goal.bus && delivered + rest.out == out0 + goal.out
      {
        if !isGuard {
          ServeStep(bus, i, delivered);
          DrainQueue(i);
        }
        rest := StillServed(bus, i + 1, isGuard);
      }
    }

    /** The loop over the fired conditions. */
    method Dispatch(isGuard: seq<bool>)
      requires bus.Valid()
      modifies this
      ensures var s := WakeUp(old(bus), isGuard); bus == s.bus && delivered == old(delivered) + s.out
    {
      ghost var goal, out0 := WakeUp(bus, isGuard), delivered;
      assert isGuard[0..] == isGuard;
      for k := 0 to |isGuard|
        invariant bus.Valid() && WakeUp(bus, isGuard[k..]).bus == goal.bus
        invariant delivered + WakeUp(bus, isGuard[k..]).out == out0 + goal.out
      {
        ghost var first := if isGuard[k] then Served(bus, []) else Pass(bus);
        assert isGuard[k..][1..] == isGuard[k + 1..];
        DispatchStep(bus, isGuard[k..], first, delivered);
        Serve(isGuard[k]);
      }
    }
  }

  lemma ServeStep(bus: Bus, i: nat, out: seq<Delivered>)
    requires bus.Valid() && i < |bus.accesses|
    ensures var run := Drain(bus.Queue(i));
            var next := PassFrom(bus.Store(i, run.end), i + 1);
            && PassFrom(bus, i).bus == next.bus
            && out + PassFrom(bus, i).out == (out + Tag(i, run.out)) + next.out
  {
    var run := Drain(bus.Queue(i));
    ConcatAssociates(out, Tag(i, run.out), PassFrom(bus.Store(i, run.end), i + 1).out);
  }

  lemma DispatchStep(bus: Bus, isGuard: seq<bool>, first: Served, out: seq<Delivered>)
    requires bus.Valid() && isGuard != [] && first == if isGuard[0] then Served(bus, []) else Pass(bus)
    ensures WakeUp(bus, isGuard).bus == WakeUp(first.bus, isGuard[1..]).bus
    ensures out + WakeUp(bus, isGuard).out == (out + first.out) + WakeUp(first.bus, isGuard[1..]).out
  {
  }
}
