/** Closed forms of what a drain delivers, leaves pending and throws away. */
module DrainTheorems {
  import opened Common
  import opened StreamItemTopics
  import opened Drains

  // ----- vocabulary: queues of batches and delivered events -----

  function Take<T>(q: seq<T>, n: nat): seq<T> { if n <= |q| then q[..n] else q }
  function Drop<T>(q: seq<T>, n: nat): seq<T> { if n <= |q| then q[n..] else [] }

  /** The payloads that the takes of `q` can forward: the first item of each batch, if it is good. */
  function GoodHeads<T>(q: seq<Batch<T>>): seq<T> {
    if q == [] then []
    else HeadOf(q[0]) + GoodHeads(q[1..])
  }

  function HeadOf<T>(b: Batch<T>): seq<T> { if b.first.Good() then [b.first.payload] else [] }

  function GoodOf<T>(items: seq<Item<T>>): seq<T> {
    if items == [] then []
    else (if items[0].Good() then [items[0].payload] else []) + GoodOf(items[1..])
  }

  /** The payloads of all good items that arrived, wherever in a batch they are. */
  function GoodItems<T>(q: seq<Batch<T>>): seq<T> {
    if q == [] then [] else HeadOf(q[0]) + GoodOf(q[0].rest) + GoodItems(q[1..])
  }

  /** Every item is good and every take yields one item. */
  predicate OneGoodEach<T>(q: seq<Batch<T>>) {
    forall i :: 0 <= i < |q| ==> q[i].first.Good() && |q[i].rest| == 0
  }

  function Payloads<T>(q: seq<Batch<T>>): seq<T> {
    if q == [] then [] else [q[0].first.payload] + Payloads(q[1..])
  }

  function Samples(out: seq<Event>): seq<Bytes> {
    if out == [] then []
    else (if out[0].SampleEvent? then [out[0].sample] else []) + Samples(out[1..])
  }

  function Types(out: seq<Event>): seq<StreamType> {
    if out == [] then []
    else (if out[0].TypeEvent? then [out[0].streamType] else []) + Types(out[1..])
  }

  /** The first round in which neither reader has something to forward. */
  function FirstDead(s: seq<Batch<Bytes>>, t: seq<Batch<StreamType>>): nat
    decreases |s| + |t|
  {
    if GoodHead(s) || GoodHead(t) then 1 + FirstDead(Tail(s), Tail(t)) else 0
  }

  function Dead(st: Pending): nat { FirstDead(Reachable(st), ReachableTypes(st)) }

  /** What is left in the sample reader after the first dead round. */
  function LeftSamples(st: Pending): seq<Batch<Bytes>> {
    if st.sampleOn then Drop(st.samples, Dead(st) + 1) else st.samples
  }

  /** The QoS switches that the rounds before the first dead one cause. */
  function EarlySwitches(st: Pending): nat {
    SwitchCount(st.topic, GoodHeads(Take(ReachableTypes(st), Dead(st))))
  }

  /** Sample, type, sample, type, ... round by round, each only where it is good. */
  function Interleave(s: seq<Batch<Bytes>>, t: seq<Batch<StreamType>>): seq<Event>
    decreases |s| + |t|
  {
    if s == [] && t == [] then []
    else SampleEvents(s) + TypeEvents(t) + Interleave(Tail(s), Tail(t))
  }

  /** s1, t1, s2, t2, ... and then the leftovers of the longer sequence. */
  function Merge(s: seq<Bytes>, t: seq<StreamType>): seq<Event>
    decreases |s| + |t|
  {
    if s == [] then (if t == [] then [] else [TypeEvent(t[0])] + Merge([], t[1..]))
    else if t == [] then [SampleEvent(s[0])] + Merge(s[1..], [])
    else [SampleEvent(s[0]), TypeEvent(t[0])] + Merge(s[1..], t[1..])
  }

  // ----- small facts -----

  lemma {:induction false} SamplesConcat(a: seq<Event>, b: seq<Event>)
    ensures Samples(a + b) == Samples(a) + Samples(b)
    decreases |a|
  {
    if a == [] {
      assert a + b == b;
    } else {
      SamplesConcat(a[1..], b);
      assert (a + b)[1..] == a[1..] + b;
    }
  }

  lemma {:induction false} TypesConcat(a: seq<Event>, b: seq<Event>)
    ensures Types(a + b) == Types(a) + Types(b)
    decreases |a|
  {
    if a == [] {
      assert a + b == b;
    } else {
      TypesConcat(a[1..], b);
      assert (a + b)[1..] == a[1..] + b;
    }
  }

  lemma {:induction false} GoodHeadsConcat<T>(a: seq<Batch<T>>, b: seq<Batch<T>>)
    ensures GoodHeads(a + b) == GoodHeads(a) + GoodHeads(b)
    decreases |a|
  {
    if a == [] {
      assert a + b == b;
    } else {
      GoodHeadsConcat(a[1..], b);
      assert (a + b)[0] == a[0] && (a + b)[1..] == a[1..] + b;
      assert HeadOf(a[0]) + (GoodHeads(a[1..]) + GoodHeads(b)) == HeadOf(a[0]) + GoodHeads(a[1..]) + GoodHeads(b);
    }
  }

  /** The first dead round is the least round with nothing good. */
  lemma {:induction false} FirstDeadIsLeast(s: seq<Batch<Bytes>>, t: seq<Batch<StreamType>>, r: nat)
    ensures r < FirstDead(s, t) ==> GoodHead(Drop(s, r)) || GoodHead(Drop(t, r))
    ensures r == FirstDead(s, t) ==> !GoodHead(Drop(s, r)) && !GoodHead(Drop(t, r))
    decreases r
  {
    if r > 0 {
      FirstDeadIsLeast(Tail(s), Tail(t), r - 1);
      assert Drop(Tail(s), r - 1) == Drop(s, r);
      assert Drop(Tail(t), r - 1) == Drop(t, r);
    } else {
      assert Drop(s, 0) == s && Drop(t, 0) == t;
    }
  }

  lemma RoundTopic(st: Pending)
    ensures var t := Round(st);
            && Types(t.out) == GoodHeads(Take(ReachableTypes(st), 1))
            && t.rest.topic == After(st.topic, Types(t.out))
            && SwitchCount(st.topic, Types(t.out)) == if t.switched then 1 else 0
  {
    var t := Round(st);
    var q := ReachableTypes(st);
    TypesConcat(SampleEvents(Reachable(st)), TypeEvents(q));
    if GoodHead(q) {
      assert Types(t.out) == [q[0].first.payload];
      assert t.rest.topic == After(st.topic.Updated(q[0].first.payload), []);
    }
    if q != [] {
      assert q[..1] == [q[0]];
      assert GoodHeads([q[0]]) == GoodHeads(Take(q, 1));
    }
  }

  // ----- order of delivery -----

  function TakenTypes(st: Pending, end: Pending): int { |st.types| - |end.types| }

  lemma InterleaveStep(s: seq<Batch<Bytes>>, t: seq<Batch<StreamType>>, n: nat, m: nat)
    ensures Interleave(Take(s, n + 1), Take(t, m + 1))
         == SampleEvents(s) + TypeEvents(t) + Interleave(Take(Tail(s), n), Take(Tail(t), m))
  {
    assert Tail(Take(s, n + 1)) == Take(Tail(s), n);
    assert Tail(Take(t, m + 1)) == Take(Tail(t), m);
    assert SampleEvents(Take(s, n + 1)) == SampleEvents(s);
    assert TypeEvents(Take(t, m + 1)) == TypeEvents(t);
  }

  /** `out` is the interleaving of all rounds before the first dead one, followed by the further
      types taken on the way to `end`. */
  ghost predicate InOrder(st: Pending, end: Pending, out: seq<Event>) {
    && 0 <= TakenTypes(st, end)
    && out == Interleave(Take(Reachable(st), Dead(st)), Take(ReachableTypes(st), TakenTypes(st, end)))
  }

  lemma ReadOrder(st: Pending, end: Pending, more: seq<Event>)
    requires Round(st).out != [] && InOrder(Round(st).rest, end, more)
    ensures InOrder(st, end, Round(st).out + more)
  {
    var rest := Round(st).rest;
    var q, j' := ReachableTypes(st), TakenTypes(rest, end);
    InterleaveStep(Reachable(st), q, Dead(rest), j');
    assert Take(q, TakenTypes(st, end)) == Take(q, j' + 1);
  }

  lemma QuietOrder(st: Pending, end: Pending, out: seq<Event>)
    requires Round(st).out == [] && InOrder(Round(st).rest.Recreated(), end, out)
    ensures InOrder(st, end, out)
  {
    var next := Round(st).rest.Recreated();
    var q, j' := ReachableTypes(st), TakenTypes(next, end);
    assert Take(Reachable(next), Dead(next)) == [] == Take(Reachable(st), Dead(st));
    InterleaveStep([], q, 0, j');
    assert Take(q, TakenTypes(st, end)) == Take(q, j' + 1);
  }

  lemma LastOrder(st: Pending)
    requires Round(st).out == []
    ensures InOrder(st, Round(st).rest, [])
  {
    var q := ReachableTypes(st);
    InterleaveStep([], q, 0, 0);
    assert Take(q, TakenTypes(st, Round(st).rest)) == Take(q, 1);
    assert Take(Tail(q), 0) == [];
  }

  lemma {:induction false} FlatOrder(st: Pending, depth: nat, run: Run)
    requires run == Flat(st, depth)
    ensures InOrder(st, run.end, run.out)
    decreases st.Load(), depth
  {
    var t := Round(st);
    if t.out != [] {
      var d := if t.switched then depth + 1 else depth;
      var more := Flat(t.rest, d);
      FlatOrder(t.rest, d, more);
      ReadOrder(st, more.end, more.out);
    } else if depth > 0 {
      var more := Flat(t.rest.Recreated(), depth - 1);
      FlatOrder(t.rest.Recreated(), depth - 1, more);
      QuietOrder(st, more.end, more.out);
      assert run.out == [] + more.out == more.out;
    } else {
      LastOrder(st);
    }
  }

  // ----- topic and recreations -----

  /** The topic has seen the delivered types, and each of their switches has cost one recreation. */
  ghost predicate Accounts(st: Pending, depth: nat, run: Run) {
    && run.end.topic == After(st.topic, Types(run.out))
    && |run.closed| == depth + SwitchCount(st.topic, Types(run.out))
  }

  lemma ReadAccounts(st: Pending, depth: nat, more: Run)
    requires Accounts(Round(st).rest, if Round(st).switched then depth + 1 else depth, more)
    ensures Accounts(st, depth, Run(Round(st).rest, Round(st).out, []).Then(more))
  {
    RoundTopic(st);
    TypesConcat(Round(st).out, more.out);
    AfterConcat(st.topic, Types(Round(st).out), Types(more.out));
  }

  lemma {:induction false} FlatAccounts(st: Pending, depth: nat, run: Run)
    requires run == Flat(st, depth)
    ensures Accounts(st, depth, run)
    decreases st.Load(), depth
  {
    var t := Round(st);
    if t.out != [] {
      var d := if t.switched then depth + 1 else depth;
      FlatAccounts(t.rest, d, Flat(t.rest, d));
      ReadAccounts(st, depth, Flat(t.rest, d));
    } else if depth > 0 {
      var more := Flat(t.rest.Recreated(), depth - 1);
      FlatAccounts(t.rest.Recreated(), depth - 1, more);
      assert run.out == [] + more.out == more.out;
    }
  }

  // ----- what a replaced reader still held -----

  /** The first replaced reader holds everything that the first dead round left behind, every later
      one holds nothing; without a replacement that remainder stays pending. */
  ghost predicate Losses(st: Pending, depth: nat, end: Pending, closed: seq<seq<Batch<Bytes>>>) {
    if depth + EarlySwitches(st) > 0 then
      && end.samples == []
      && |closed| > 0 && closed[0] == LeftSamples(st)
      && forall i :: 1 <= i < |closed| ==> closed[i] == []
    else
      end.samples == LeftSamples(st) && closed == []
  }

  lemma EarlySwitchesStep(st: Pending)
    requires Round(st).out != []
    ensures EarlySwitches(st) == (if Round(st).switched then 1 else 0) + EarlySwitches(Round(st).rest)
  {
    var rest, q, n := Round(st).rest, ReachableTypes(st), Dead(Round(st).rest);
    assert Dead(st) == n + 1;
    RoundTopic(st);
    TakeSplit(q, n);
    GoodHeadsConcat(Take(q, 1), Take(Tail(q), n));
    AfterConcat(st.topic, GoodHeads(Take(q, 1)), GoodHeads(Take(Tail(q), n)));
  }

  lemma TakeSplit<T>(q: seq<T>, n: nat)
    ensures Take(q, n + 1) == Take(q, 1) + Take(Tail(q), n)
  {
  }

  lemma ReadLosses(st: Pending, depth: nat, end: Pending, closed: seq<seq<Batch<Bytes>>>)
    requires Round(st).out != []
    requires Losses(Round(st).rest, if Round(st).switched then depth + 1 else depth, end, closed)
    ensures Losses(st, depth, end, closed)
  {
    EarlySwitchesStep(st);
    assert Dead(st) == Dead(Round(st).rest) + 1;
    assert LeftSamples(st) == LeftSamples(Round(st).rest);
  }

  lemma QuietLeft(st: Pending)
    requires Round(st).out == []
    ensures LeftSamples(st) == Round(st).rest.samples
    ensures LeftSamples(Round(st).rest.Recreated()) == []
  {
    assert Dead(st) == 0;
  }

  lemma QuietLosses(st: Pending, depth: nat, end: Pending, closed: seq<seq<Batch<Bytes>>>)
    requires Round(st).out == [] && depth > 0
    requires Losses(Round(st).rest.Recreated(), depth - 1, end, closed)
    ensures Losses(st, depth, end, [Round(st).rest.samples] + closed)
  {
    QuietLeft(st);
    var all := [Round(st).rest.samples] + closed;
    forall i | 1 <= i < |all| ensures all[i] == [] {
      assert all[i] == closed[i - 1];
    }
  }

  lemma LastLosses(st: Pending)
    requires Round(st).out == []
    ensures Losses(st, 0, Round(st).rest, [])
  {
    assert Take(ReachableTypes(st), 0) == [];
  }

  lemma {:induction false} FlatLosses(st: Pending, depth: nat, run: Run)
    requires run == Flat(st, depth)
    ensures Losses(st, depth, run.end, run.closed)
    decreases st.Load(), depth
  {
    var t := Round(st);
    if t.out != [] {
      var d := if t.switched then depth + 1 else depth;
      var more := Flat(t.rest, d);
      FlatLosses(t.rest, d, more);
      ReadLosses(st, depth, more.end, more.closed);
      assert run.closed == [] + more.closed == more.closed;
    } else if depth > 0 {
      var more := Flat(t.rest.Recreated(), depth - 1);
      FlatLosses(t.rest.Recreated(), depth - 1, more);
      QuietLosses(st, depth, more.end, more.closed);
    } else {
      LastLosses(st);
    }
  }

  // ----- the theorems about a drain -----

  /** Every QoS switch among the delivered types replaces the sample reader exactly once. */
  lemma OneRecreationPerSwitch(st: Pending)
    ensures |Drain(st).closed| == SwitchCount(st.topic, Types(Drain(st).out))
  {
    DrainIsFlat(st);
    FlatAccounts(st, 0, Drain(st));
  }

  /** A QoS switch throws pending samples away exactly when it happened before a dead round that left
      samples behind; then it loses all of these. Otherwise every replaced reader was empty. */
  lemma SwitchLosesNothingIff(st: Pending)
    ensures var run := Drain(st);
            && ((forall i :: 0 <= i < |run.closed| ==> run.closed[i] == [])
                <==> EarlySwitches(st) == 0 || LeftSamples(st) == [])
            && run.end.samples == (if EarlySwitches(st) > 0 then [] else LeftSamples(st))
            && (if EarlySwitches(st) > 0 then run.closed != [] && run.closed[0] == LeftSamples(st)
                else run.closed == [])
  {
    DrainIsFlat(st);
    FlatLosses(st, 0, Drain(st));
  }
}
