/** What a drain delivers of everything that arrived: exactness, loss and order. */
module Delivery {
  import opened Common
  import opened StreamItemTopics
  import opened Drains
  import opened DrainTheorems
  import opened TypeCuts

  /** For every mix of good and bad items and every sequence of batch sizes, the delivered events are
      the interleaving of the samples before the first dead round with the types before the type cut;
      the topic has seen exactly the delivered types; the types behind the cut stay pending. */
  lemma DeliveryIsInterleaving(st: Pending)
    ensures var run := Drain(st);
            && run.out == Interleave(Take(Reachable(st), Dead(st)), Take(ReachableTypes(st), TypeCut(st)))
            && run.end.types == (if st.typeOn then Drop(st.types, TypeCut(st)) else st.types)
            && run.end.topic == After(st.topic, Types(run.out))
  {
    DrainIsFlat(st);
    FlatAccounts(st, 0, Drain(st));
    TypesLeft(st, Drain(st));
    OrderUpTo(st, Drain(st), TypeCut(st));
  }

  // ----- the samples and the types among the delivered events -----

  lemma EventsOfRound(s: seq<Batch<Bytes>>, t: seq<Batch<StreamType>>)
    ensures Samples(SampleEvents(s) + TypeEvents(t)) == if GoodHead(s) then HeadOf(s[0]) else []
    ensures Types(SampleEvents(s) + TypeEvents(t)) == if GoodHead(t) then HeadOf(t[0]) else []
  {
    SamplesConcat(SampleEvents(s), TypeEvents(t));
    TypesConcat(SampleEvents(s), TypeEvents(t));
  }

  lemma {:induction false} SamplesOfInterleave(s: seq<Batch<Bytes>>, t: seq<Batch<StreamType>>)
    ensures Samples(Interleave(s, t)) == GoodHeads(s)
    decreases |s| + |t|
  {
    if s != [] || t != [] {
      SamplesOfInterleave(Tail(s), Tail(t));
      SamplesConcat(SampleEvents(s) + TypeEvents(t), Interleave(Tail(s), Tail(t)));
      EventsOfRound(s, t);
    }
  }

  lemma {:induction false} TypesOfInterleave(s: seq<Batch<Bytes>>, t: seq<Batch<StreamType>>)
    ensures Types(Interleave(s, t)) == GoodHeads(t)
    decreases |s| + |t|
  {
    if s != [] || t != [] {
      TypesOfInterleave(Tail(s), Tail(t));
      TypesConcat(SampleEvents(s) + TypeEvents(t), Interleave(Tail(s), Tail(t)));
      EventsOfRound(s, t);
    }
  }

  lemma BatchSubsequence<T>(head: seq<T>, rest: seq<T>, heads: seq<T>, items: seq<T>)
    requires |head| <= 1 && Subsequence(heads, items)
    ensures Subsequence(head + heads, head + rest + items)
  {
    SubsequenceSkip(heads, rest, items);
    if head == [] {
      assert head + heads == heads && head + rest + items == rest + items;
    } else {
      SubsequenceCons(heads, rest + items, head[0]);
      assert head + heads == [head[0]] + heads && head + rest + items == [head[0]] + (rest + items);
    }
  }

  lemma {:induction false} GoodHeadsAmongItems<T>(q: seq<Batch<T>>)
    ensures Subsequence(GoodHeads(q), GoodItems(q))
  {
    if q != [] {
      GoodHeadsAmongItems(q[1..]);
      BatchSubsequence(HeadOf(q[0]), GoodOf(q[0].rest), GoodHeads(q[1..]), GoodItems(q[1..]));
    }
  }

  lemma GoodItemsOfFirst<T>(q: seq<Batch<T>>, batch: Batch<T>, more: seq<Batch<T>>)
    requires q != [] && q[0] == batch && q[1..] == more
    ensures GoodItems(q) == (HeadOf(batch) + GoodOf(batch.rest)) + GoodItems(more)
  {
  }

  lemma {:induction false} GoodItemsConcat<T>(a: seq<Batch<T>>, b: seq<Batch<T>>)
    ensures GoodItems(a + b) == GoodItems(a) + GoodItems(b)
    decreases |a|
  {
    if a == [] {
      assert a + b == b;
    } else {
      GoodItemsConcat(a[1..], b);
      assert (a + b)[0] == a[0] && (a + b)[1..] == a[1..] + b;
      GoodItemsOfFirst(a + b, a[0], a[1..] + b);
      ConcatAssociates(HeadOf(a[0]) + GoodOf(a[0].rest), GoodItems(a[1..]), GoodItems(b));
    }
  }

  lemma PrefixHeadsAmongItems<T>(a: seq<Batch<T>>, b: seq<Batch<T>>)
    ensures Subsequence(GoodHeads(a), GoodItems(a + b))
  {
    GoodHeadsAmongItems(a);
    GoodItemsConcat(a, b);
    SubsequenceAppend(GoodHeads(a), GoodItems(a), GoodItems(b));
  }

  lemma TakenHeadsAmongItems<T>(q: seq<Batch<T>>, n: nat)
    ensures Subsequence(GoodHeads(Take(q, n)), GoodItems(q))
  {
    PrefixHeadsAmongItems(Take(q, n), Drop(q, n));
    assert q == Take(q, n) + Drop(q, n);
  }

  /** For every mix of items and batch sizes: exactly the forwardable samples of the rounds before the
      first dead one are delivered, in order, and exactly the forwardable types before the type cut. */
  lemma DeliveredSamplesAndTypes(st: Pending)
    ensures var run := Drain(st);
            && Samples(run.out) == GoodHeads(Take(Reachable(st), Dead(st)))
            && Types(run.out) == GoodHeads(Take(ReachableTypes(st), TypeCut(st)))
  {
    DeliveryIsInterleaving(st);
    SamplesOfInterleave(Take(Reachable(st), Dead(st)), Take(ReachableTypes(st), TypeCut(st)));
    TypesOfInterleave(Take(Reachable(st), Dead(st)), Take(ReachableTypes(st), TypeCut(st)));
  }

  /** Delivery is in order and at most once, for every mix of items and batch sizes. */
  lemma InOrderAtMostOnce(st: Pending)
    ensures Subsequence(Samples(Drain(st).out), GoodItems(st.samples))
    ensures Subsequence(Types(Drain(st).out), GoodItems(st.types))
  {
    DeliveredSamplesAndTypes(st);
    TakenHeadsAmongItems(st.samples, Dead(st));
    TakenHeadsAmongItems(st.types, TypeCut(st));
    assert Take<Batch<Bytes>>([], Dead(st)) == [];
    assert Take<Batch<StreamType>>([], TypeCut(st)) == [];
  }

  // ----- only valid and alive first items, and all of them up to the cut -----

  lemma {:induction false} GoodHeadsAre<T(!new)>(q: seq<Batch<T>>)
    ensures forall x :: x in GoodHeads(q)
              <==> exists i :: 0 <= i < |q| && q[i].first.valid && q[i].first.alive && q[i].first.payload == x
  {
    if q != [] {
      GoodHeadsAre(q[1..]);
      forall x ensures x in GoodHeads(q)
                  <==> exists i :: 0 <= i < |q| && q[i].first.valid && q[i].first.alive && q[i].first.payload == x
      {
        if i :| 0 <= i < |q| && q[i].first.valid && q[i].first.alive && q[i].first.payload == x {
          assert i > 0 ==> q[1..][i - 1] == q[i];
        }
        if x in GoodHeads(q[1..]) {
          var j :| 0 <= j < |q| - 1 && q[1..][j].first.valid && q[1..][j].first.alive && q[1..][j].first.payload == x;
          assert q[j + 1] == q[1..][j];
        }
      }
    }
  }

  lemma TakenHeadsAre<T(!new)>(q: seq<Batch<T>>, n: nat)
    ensures forall x :: x in GoodHeads(Take(q, n))
              <==> exists i :: 0 <= i < |q| && i < n && q[i].first.valid && q[i].first.alive && q[i].first.payload == x
  {
    var taken := Take(q, n);
    GoodHeadsAre(taken);
    assert forall i :: 0 <= i < |taken| ==> taken[i] == q[i];
  }

  /** A sample is delivered if and only if it is the payload of the first item of a batch before the first
      dead round, and that item is valid and alive. */
  lemma SampleIsDeliveredIff(st: Pending, x: Bytes)
    ensures x in Samples(Drain(st).out)
       <==> st.sampleOn && exists i :: 0 <= i < |st.samples| && i < Dead(st) && st.samples[i].first.valid
                                       && st.samples[i].first.alive && st.samples[i].first.payload == x
  {
    DeliveredSamplesAndTypes(st);
    TakenHeadsAre(Reachable(st), Dead(st));
  }

  lemma TypeIsDeliveredIff(st: Pending, x: StreamType)
    ensures x in Types(Drain(st).out)
       <==> st.typeOn && exists i :: 0 <= i < |st.types| && i < TypeCut(st) && st.types[i].first.valid
                                     && st.types[i].first.alive && st.types[i].first.payload == x
  {
    DeliveredSamplesAndTypes(st);
    TakenHeadsAre(ReachableTypes(st), TypeCut(st));
  }

  // ----- when no good sample is lost -----

  /** How many good items sit behind the first item of their batch. */
  function Shadowed<T>(q: seq<Batch<T>>): nat {
    if q == [] then 0 else |GoodOf(q[0].rest)| + Shadowed(q[1..])
  }

  lemma {:induction false} ItemsAreHeadsAndShadowed<T>(q: seq<Batch<T>>)
    ensures |GoodItems(q)| == |GoodHeads(q)| + Shadowed(q)
    ensures Shadowed(q) == 0 ==> GoodItems(q) == GoodHeads(q)
  {
    if q != [] {
      ItemsAreHeadsAndShadowed(q[1..]);
    }
  }

  lemma HeadsAreItemsIff<T>(q: seq<Batch<T>>, n: nat)
    ensures GoodHeads(Take(q, n)) == GoodItems(q) <==> Shadowed(q) == 0 && GoodHeads(Drop(q, n)) == []
  {
    ItemsAreHeadsAndShadowed(q);
    assert q == Take(q, n) + Drop(q, n);
    GoodHeadsConcat(Take(q, n), Drop(q, n));
  }

  /** Every good sample that takes can reach is delivered if and only if no take yields a good item behind
      its first one and no good sample sits behind the first dead round. */
  lemma AllSamplesDeliveredIff(st: Pending)
    ensures Samples(Drain(st).out) == GoodItems(Reachable(st))
       <==> Shadowed(Reachable(st)) == 0 && GoodHeads(Drop(Reachable(st), Dead(st))) == []
  {
    DeliveredSamplesAndTypes(st);
    HeadsAreItemsIff(Reachable(st), Dead(st));
  }

  /** Every good type that takes can reach is delivered if and only if no take yields a good type behind
      its first one and no good type sits behind the type cut. */
  lemma AllTypesDeliveredIff(st: Pending)
    ensures Types(Drain(st).out) == GoodItems(ReachableTypes(st))
       <==> Shadowed(ReachableTypes(st)) == 0 && GoodHeads(Drop(ReachableTypes(st), TypeCut(st))) == []
  {
    DeliveredSamplesAndTypes(st);
    HeadsAreItemsIff(ReachableTypes(st), TypeCut(st));
  }

  lemma FurtherDrop<T>(q: seq<T>, n: nat, m: nat)
    requires n <= m
    ensures Suffix(Drop(q, m), Drop(q, n))
  {
  }

  /** The types left behind are those behind the type cut: at most those behind the first dead round, and
      exactly these if no switch came before it. */
  lemma LeftTypesOfDrain(st: Pending)
    requires st.typeOn
    ensures Drain(st).end.types == Drop(st.types, TypeCut(st))
    ensures Suffix(Drain(st).end.types, Drop(st.types, Dead(st) + 1))
    ensures EarlySwitches(st) == 0 ==> Drain(st).end.types == Drop(st.types, Dead(st) + 1)
  {
    DeliveryIsInterleaving(st);
    FurtherDrop(st.types, Dead(st) + 1, TypeCut(st));
    if EarlySwitches(st) == 0 {
      TypeCutWithoutEarlySwitch(st);
    }
  }

  /** A bad type can hide a good one: the drain ends at the bad one, and the good one stays pending,
      whatever the topic. */
  lemma BadTypeHidesGoodType(topic: Topic, bad: Item<StreamType>, good: Item<StreamType>)
    requires !bad.Good() && good.Good()
    ensures var st := Pending([], [Batch(bad, []), Batch(good, [])], topic, true, true);
            && Types(Drain(st).out) == [] != GoodItems(st.types) == [good.payload]
            && Drain(st).end.types == [Batch(good, [])]
  {
    var st := Pending([], [Batch(bad, []), Batch(good, [])], topic, true, true);
    assert Tail(st.types) == [Batch(good, [])];
    assert GoodItems(Tail(st.types)) == [good.payload];
    assert Round(st).out == [];
  }

  /** A QoS switch can lose a good sample: a bad sample stops the nested drain, and the sample behind
      it is closed away with the old reader. Here with one item per take, for any switching type. */
  lemma SwitchCanLoseAGoodSample(topic: Topic, t: StreamType, bad: Item<Bytes>, good: Item<Bytes>)
    requires topic.Switches(t) && !bad.Good() && good.Good()
    ensures var st := Pending([Batch(good, []), Batch(bad, []), Batch(good, [])],
                              [Batch(Item(t, true, true, 0), [])], topic, true, true);
            Drain(st).closed == [[Batch(good, [])]] && Drain(st).end.samples == []
  {
    var first, second, third := Batch(good, []), Batch(bad, []), Batch(good, []);
    var st := Pending([first, second, third], [Batch(Item(t, true, true, 0), [])], topic, true, true);
    assert Tail(st.samples) == [second, third] && Tail(st.types) == [];
    assert FirstDead(Tail(st.samples), Tail(st.types)) == 0;
    assert Dead(st) == 1;
    assert Take(st.types, 1) == st.types;
    assert GoodHeads(st.types) == [t];
    assert EarlySwitches(st) == 1 by { assert SwitchCount(topic.Updated(t), []) == 0; }
    assert LeftSamples(st) == [third];
    SwitchLosesNothingIff(st);
    DeliveredSamplesAndTypes(st);
    OneRecreationPerSwitch(st);
  }

  // ----- the regular case -----

  lemma {:induction false} NeverDead(s: seq<Batch<Bytes>>, t: seq<Batch<StreamType>>)
    requires OneGoodEach(s) && OneGoodEach(t)
    ensures FirstDead(s, t) == if |s| < |t| then |t| else |s|
    decreases |s| + |t|
  {
    if s != [] || t != [] {
      NeverDead(Tail(s), Tail(t));
    }
  }

  lemma {:induction false} RegularInterleave(s: seq<Batch<Bytes>>, t: seq<Batch<StreamType>>)
    requires OneGoodEach(s) && OneGoodEach(t)
    ensures Interleave(s, t) == Merge(Payloads(s), Payloads(t))
    decreases |s| + |t|
  {
    if s != [] || t != [] {
      RegularInterleave(Tail(s), Tail(t));
      assert Payloads(Tail(s)) == Tail(Payloads(s)) && Payloads(Tail(t)) == Tail(Payloads(t));
      MergeStep(Payloads(s), Payloads(t));
    }
  }

  lemma MergeStep(s: seq<Bytes>, t: seq<StreamType>)
    requires s != [] || t != []
    ensures Merge(s, t) == (if s == [] then [] else [SampleEvent(s[0])])
                           + (if t == [] then [] else [TypeEvent(t[0])]) + Merge(Tail(s), Tail(t))
  {
    if s == [] {
      assert [] + [TypeEvent(t[0])] == [TypeEvent(t[0])];
    } else if t == [] {
      assert [SampleEvent(s[0])] + [] == [SampleEvent(s[0])];
    } else {
      assert [SampleEvent(s[0])] + [TypeEvent(t[0])] == [SampleEvent(s[0]), TypeEvent(t[0])];
    }
  }

  lemma {:induction false} HeadsArePayloads<T>(q: seq<Batch<T>>)
    requires OneGoodEach(q)
    ensures GoodHeads(q) == Payloads(q) == GoodItems(q)
  {
    if q != [] {
      HeadsArePayloads(q[1..]);
    }
  }

  lemma RegularDrainTakesAll(st: Pending)
    requires st.Enabled() && OneGoodEach(st.samples) && OneGoodEach(st.types)
    ensures Take(Reachable(st), Dead(st)) == st.samples && LeftSamples(st) == []
    ensures Take(ReachableTypes(st), TypeCut(st)) == st.types && Drop(st.types, TypeCut(st)) == []
  {
    NeverDead(st.samples, st.types);
  }

  /** With good items and one item per take, a drain delivers exactly the alternating merge of what is
      pending, whatever QoS switches it meets at whatever depth; both readers end up empty, every
      replaced reader was empty, and the topic has seen all types. */
  lemma RegularDrainIsTheMerge(st: Pending)
    requires st.Enabled() && OneGoodEach(st.samples) && OneGoodEach(st.types)
    ensures var run := Drain(st);
            && run.out == Merge(Payloads(st.samples), Payloads(st.types))
            && run.end.samples == [] && run.end.types == []
            && (forall i :: 0 <= i < |run.closed| ==> run.closed[i] == [])
            && |run.closed| == SwitchCount(st.topic, Payloads(st.types))
            && run.end.topic == After(st.topic, Payloads(st.types))
  {
    var run := Drain(st);
    RegularDrainTakesAll(st);
    DeliveryIsInterleaving(st);
    RegularInterleave(st.samples, st.types);
    TypesOfInterleave(st.samples, st.types);
    HeadsArePayloads(st.types);
    OneRecreationPerSwitch(st);
    SwitchLosesNothingIff(st);
  }

  lemma {:induction false} MergeLength(s: seq<Bytes>, t: seq<StreamType>)
    ensures |Merge(s, t)| == |s| + |t|
    decreases |s| + |t|
  {
    if s != [] || t != [] {
      MergeLength(Tail(s), Tail(t));
      MergeStep(s, t);
    }
  }

  /** s1, t1, s2, t2, ... at the positions 0, 1, 2, 3, ... and then the leftovers in order. */
  lemma {:induction false} MergeByIndex(s: seq<Bytes>, t: seq<StreamType>, k: nat)
    ensures var m := Merge(s, t);
            && |m| == |s| + |t|
            && (k < |s| && k < |t| ==> m[2 * k] == SampleEvent(s[k]) && m[2 * k + 1] == TypeEvent(t[k]))
            && (|t| <= k < |s| ==> m[|t| + k] == SampleEvent(s[k]))
            && (|s| <= k < |t| ==> m[|s| + k] == TypeEvent(t[k]))
    decreases k
  {
    MergeLength(s, t);
    if k > 0 && (s != [] || t != []) {
      MergeByIndex(Tail(s), Tail(t), k - 1);
      MergeStep(s, t);
    }
  }
}
