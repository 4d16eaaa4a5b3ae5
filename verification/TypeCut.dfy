/** Which stream types a drain takes. Bad types end drains and QoS switches begin them, so the number of
    types taken behind the first dead round is decided by counting both. */
module TypeCuts {
  import opened Common
  import opened StreamItemTopics
  import opened Drains
  import opened DrainTheorems

  function BadHeads<T>(q: seq<Batch<T>>): nat {
    if q == [] then 0 else (if q[0].first.Good() then 0 else 1) + BadHeads(q[1..])
  }

  /** Bad types end drains and QoS switches begin them: how many more have been ended than begun. */
  function Balance(topic: Topic, q: seq<Batch<StreamType>>): int { BadHeads(q) - SwitchCount(topic, GoodHeads(q)) }

  /** The least number of types, from n on, at which the balance reaches `open`, or all of them. */
  function Cut(topic: Topic, q: seq<Batch<StreamType>>, open: nat, n: nat := 0): (m: nat)
    requires n <= |q|
    ensures n <= m <= |q|
    decreases |q| - n
  {
    if n == |q| || Balance(topic, q[..n]) >= open then n else Cut(topic, q, open, n + 1)
  }

  /** The topic at the first dead round. */
  function TopicAtDead(st: Pending): Topic { After(st.topic, GoodHeads(Take(ReachableTypes(st), Dead(st)))) }

  /** The types before this position are taken: those up to the first dead round, and after it as many as
      the switches before it, whose drains are still open, let through. */
  function TypeCut(st: Pending): nat {
    Dead(st) + 1 + Cut(TopicAtDead(st), Drop(ReachableTypes(st), Dead(st) + 1), EarlySwitches(st))
  }

  // ----- the cut as a least number -----

  /** m is the least number of types, from n on, at which the balance reaches `open`, or all of them. */
  ghost predicate IsCut(topic: Topic, q: seq<Batch<StreamType>>, open: nat, n: nat, m: nat) {
    && n <= m <= |q|
    && (forall k :: n <= k < m ==> Balance(topic, q[..k]) < open)
    && (m < |q| ==> Balance(topic, q[..m]) >= open)
  }

  lemma {:induction false} CutIsLeast(topic: Topic, q: seq<Batch<StreamType>>, open: nat, n: nat := 0)
    requires n <= |q|
    ensures IsCut(topic, q, open, n, Cut(topic, q, open, n))
    decreases |q| - n
  {
    if n < |q| && Balance(topic, q[..n]) < open {
      CutIsLeast(topic, q, open, n + 1);
    }
  }

  lemma CutIs(topic: Topic, q: seq<Batch<StreamType>>, open: nat, m: nat)
    requires IsCut(topic, q, open, 0, m)
    ensures Cut(topic, q, open) == m
  {
    CutIsLeast(topic, q, open);
  }

  lemma BalanceOfFirst(topic: Topic, q: seq<Batch<StreamType>>)
    requires q != []
    ensures Balance(topic, q)
         == Balance(TopicAfter(topic, q), q[1..])
            + (if !GoodHead(q) then 1 else if topic.Switches(q[0].first.payload) then -1 else 0)
  {
    var rest := GoodHeads(q[1..]);
    if GoodHead(q) {
      assert ([q[0].first.payload] + rest)[1..] == rest;
    } else {
      assert [] + rest == rest;
    }
  }

  lemma BalanceStep(topic: Topic, q: seq<Batch<StreamType>>, n: nat)
    requires n < |q|
    ensures Balance(topic, q[..n + 1])
         == Balance(TopicAfter(topic, q), q[1..][..n])
            + (if !GoodHead(q) then 1 else if topic.Switches(q[0].first.payload) then -1 else 0)
  {
    BalanceOfFirst(topic, q[..n + 1]);
    assert q[..n + 1][1..] == q[1..][..n];
  }

  /** What is open after the first type: a bad one ends a drain, a switching one opens one. */
  function OpenAfter(topic: Topic, q: seq<Batch<StreamType>>, open: nat): nat
    requires q != [] && open > 0
  {
    if !GoodHead(q) then open - 1 else if topic.Switches(q[0].first.payload) then open + 1 else open
  }

  lemma CutStep(topic: Topic, q: seq<Batch<StreamType>>, open: nat)
    ensures open == 0 ==> Cut(topic, q, open) == 0
    ensures q != [] && open > 0 ==>
              Cut(topic, q, open) == 1 + Cut(TopicAfter(topic, q), q[1..], OpenAfter(topic, q, open))
  {
    assert Balance(topic, q[..0]) == 0;
    if q != [] && open > 0 {
      var m := Cut(TopicAfter(topic, q), q[1..], OpenAfter(topic, q, open));
      CutIsLeast(TopicAfter(topic, q), q[1..], OpenAfter(topic, q, open));
      forall k | 0 <= k < m + 1 ensures Balance(topic, q[..k]) < open {
        if k > 0 {
          BalanceStep(topic, q, k - 1);
        }
      }
      if m + 1 < |q| {
        BalanceStep(topic, q, m);
      }
      CutIs(topic, q, open, m + 1);
    }
  }

  /** The types that `open` drains leave of q when there are no samples. */
  function Behind(topic: Topic, q: seq<Batch<StreamType>>, open: nat): seq<Batch<StreamType>> {
    Drop(q, Cut(topic, q, open))
  }

  lemma BehindStep(topic: Topic, q: seq<Batch<StreamType>>, open: nat)
    ensures q == [] || open == 0 ==> Behind(topic, q, open) == q
    ensures q != [] && open > 0 ==>
              Behind(topic, q, open) == Behind(TopicAfter(topic, q), q[1..], OpenAfter(topic, q, open))
  {
    CutStep(topic, q, open);
  }

  lemma RoundWithoutSamples(st: Pending, open: nat, next: nat, left: seq<Batch<StreamType>>)
    requires st.samples == [] && st.typeOn && open > 0 && left == Behind(st.topic, st.types, open)
    requires next == if Round(st).out == [] then open - 1 else if Round(st).switched then open + 1 else open
    ensures Round(st).rest.samples == [] && left == Behind(Round(st).rest.topic, Round(st).rest.types, next)
  {
    BehindStep(st.topic, st.types, open);
    if st.types == [] {
      BehindStep(st.topic, [], open - 1);
    }
  }

  /** Drains nested `depth` deep are `depth + 1` open drains. */
  lemma {:induction false} TypesWithoutSamples(st: Pending, depth: nat, run: Run, open: nat,
                                               left: seq<Batch<StreamType>>)
    requires run == Flat(st, depth) && st.samples == [] && st.typeOn
    requires open == depth + 1 && left == Behind(st.topic, st.types, open)
    ensures run.end.types == left
    decreases st.Load(), depth
  {
    var t := Round(st);
    var next := if t.out == [] then open - 1 else if t.switched then open + 1 else open;
    RoundWithoutSamples(st, open, next, left);
    if t.out != [] {
      var d := if t.switched then depth + 1 else depth;
      TypesWithoutSamples(t.rest, d, Flat(t.rest, d), next, left);
    } else if depth > 0 {
      TypesWithoutSamples(t.rest.Recreated(), depth - 1, Flat(t.rest.Recreated(), depth - 1), next, left);
    } else {
      BehindStep(st.topic, t.rest.types, 0);
    }
  }

  /** The topic and the types at the end of the first dead round, and the drains that are open then if
      `depth` were open before. */
  ghost predicate AtDead(st: Pending, depth: nat, topic: Topic, q: seq<Batch<StreamType>>, open: nat) {
    topic == TopicAtDead(st) && q == Drop(ReachableTypes(st), Dead(st) + 1) && open == depth + EarlySwitches(st)
  }

  lemma AfterTakeStep(topic: Topic, q: seq<Batch<StreamType>>, n: nat)
    ensures After(topic, GoodHeads(Take(q, n + 1)))
         == After(After(topic, GoodHeads(Take(q, 1))), GoodHeads(Take(Tail(q), n)))
  {
    TakeSplit(q, n);
    GoodHeadsConcat(Take(q, 1), Take(Tail(q), n));
    AfterConcat(topic, GoodHeads(Take(q, 1)), GoodHeads(Take(Tail(q), n)));
  }

  lemma TopicAtDeadStep(st: Pending)
    requires Round(st).out != []
    ensures TopicAtDead(st) == TopicAtDead(Round(st).rest)
  {
    var rest := Round(st).rest;
    RoundTopic(st);
    assert Dead(st) == Dead(rest) + 1;
    AfterTakeStep(st.topic, ReachableTypes(st), Dead(rest));
  }

  lemma DropTail<T>(q: seq<T>, n: nat)
    ensures Drop(Tail(q), n) == Drop(q, n + 1)
  {
  }

  lemma AtDeadStep(st: Pending, depth: nat, topic: Topic, q: seq<Batch<StreamType>>, open: nat)
    requires Round(st).out != [] && AtDead(st, depth, topic, q, open)
    ensures AtDead(Round(st).rest, if Round(st).switched then depth + 1 else depth, topic, q, open)
  {
    EarlySwitchesStep(st);
    TopicAtDeadStep(st);
    DropTail(ReachableTypes(st), Dead(Round(st).rest) + 1);
  }

  lemma AtDeadNow(st: Pending, depth: nat, topic: Topic, q: seq<Batch<StreamType>>, open: nat)
    requires Round(st).out == [] && AtDead(st, depth, topic, q, open)
    ensures topic == st.topic && q == Tail(ReachableTypes(st)) && open == depth
  {
    assert Dead(st) == 0 && Take(ReachableTypes(st), 0) == [];
  }

  lemma TypesAfterQuiet(st: Pending, depth: nat, more: Run)
    requires st.typeOn && Round(st).out == [] && depth > 0
    requires more == Flat(Round(st).rest.Recreated(), depth - 1)
    ensures more.end.types == Behind(st.topic, Tail(st.types), depth)
  {
    var next := Round(st).rest.Recreated();
    assert next.samples == [] && next.typeOn && next.topic == st.topic;
    TypesWithoutSamples(next, depth - 1, more, depth, Behind(st.topic, next.types, depth));
  }

  lemma {:induction false} FlatLeftTypes(st: Pending, depth: nat, run: Run, topic: Topic, q: seq<Batch<StreamType>>,
                                         open: nat)
    requires run == Flat(st, depth) && st.typeOn && AtDead(st, depth, topic, q, open)
    ensures run.end.types == Behind(topic, q, open)
    decreases st.Load(), depth
  {
    var t := Round(st);
    if t.out != [] {
      var d := if t.switched then depth + 1 else depth;
      AtDeadStep(st, depth, topic, q, open);
      FlatLeftTypes(t.rest, d, Flat(t.rest, d), topic, q, open);
    } else {
      AtDeadNow(st, depth, topic, q, open);
      BehindStep(topic, q, 0);
      if depth > 0 {
        TypesAfterQuiet(st, depth, Flat(t.rest.Recreated(), depth - 1));
      }
    }
  }

  lemma {:induction false} TypesUnread(st: Pending, depth: nat, run: Run)
    requires run == Flat(st, depth) && !st.typeOn
    ensures run.end.types == st.types
    decreases st.Load(), depth
  {
    var t := Round(st);
    if t.out != [] {
      TypesUnread(t.rest, depth, Flat(t.rest, depth));
    } else if depth > 0 {
      TypesUnread(t.rest.Recreated(), depth - 1, Flat(t.rest.Recreated(), depth - 1));
    }
  }

  lemma DropDrop<T>(q: seq<T>, n: nat, m: nat)
    ensures Drop(Drop(q, n), m) == Drop(q, n + m)
  {
  }

  lemma TypeCutAtDead(st: Pending, topic: Topic, q: seq<Batch<StreamType>>, open: nat)
    requires AtDead(st, 0, topic, q, open)
    ensures Behind(topic, q, open) == Drop(ReachableTypes(st), TypeCut(st))
  {
    var cut := Cut(topic, q, open);
    DropDrop(ReachableTypes(st), Dead(st) + 1, cut);
  }

  lemma TypeCutWithoutEarlySwitch(st: Pending)
    requires EarlySwitches(st) == 0
    ensures TypeCut(st) == Dead(st) + 1
  {
    CutStep(TopicAtDead(st), Drop(ReachableTypes(st), Dead(st) + 1), 0);
  }

  /** The types behind the type cut are left, and nothing of a reader that is not enabled is taken. */
  lemma TypesLeft(st: Pending, run: Run)
    requires run == Flat(st, 0)
    ensures run.end.types == if st.typeOn then Drop(st.types, TypeCut(st)) else st.types
  {
    if st.typeOn {
      var topic, q, open := TopicAtDead(st), Drop(ReachableTypes(st), Dead(st) + 1), EarlySwitches(st);
      TypeCutAtDead(st, topic, q, open);
      FlatLeftTypes(st, 0, run, topic, q, open);
    } else {
      TypesUnread(st, 0, run);
    }
  }

  lemma TakeUpTo<T>(q: seq<T>, n: nat)
    ensures |Drop(q, n)| <= |q| && Take(q, |q| - |Drop(q, n)|) == Take(q, n)
  {
  }

  lemma TakenUpToCut(st: Pending, end: Pending, cut: nat)
    requires end.types == if st.typeOn then Drop(st.types, cut) else st.types
    ensures 0 <= TakenTypes(st, end) && Take(ReachableTypes(st), TakenTypes(st, end)) == Take(ReachableTypes(st), cut)
  {
    TakeUpTo(st.types, cut);
  }

  lemma OrderUpTo(st: Pending, run: Run, cut: nat)
    requires run == Flat(st, 0) && run.end.types == if st.typeOn then Drop(st.types, cut) else st.types
    ensures run.out == Interleave(Take(Reachable(st), Dead(st)), Take(ReachableTypes(st), cut))
  {
    FlatOrder(st, 0, run);
    TakenUpToCut(st, run.end, cut);
  }

  lemma {:induction false} BalanceGrowsByOne(topic: Topic, q: seq<Batch<StreamType>>, n: nat)
    requires n < |q|
    ensures Balance(topic, q[..n + 1]) <= Balance(topic, q[..n]) + 1
    decreases n
  {
    if n > 0 {
      BalanceGrowsByOne(TopicAfter(topic, q), q[1..], n - 1);
      BalanceStep(topic, q, n - 1);
    }
    BalanceStep(topic, q, n);
  }

  /** Behind the first dead round the number of types taken is the least one at which the bad types have
      ended all drains that were open, where every switch on the way opens one more; or all are taken. */
  lemma TypeCutIsLeast(st: Pending)
    ensures var t, d := ReachableTypes(st), Dead(st);
            var topic, q, m := TopicAtDead(st), Drop(t, d + 1), TypeCut(st) - (d + 1);
            && 0 <= m <= |q|
            && (forall k :: 0 <= k < m ==> Balance(topic, q[..k]) < EarlySwitches(st))
            && (m < |q| ==> Balance(topic, q[..m]) == EarlySwitches(st))
            && (EarlySwitches(st) == 0 ==> m == 0)
  {
    var t, d := ReachableTypes(st), Dead(st);
    var topic, q, m := TopicAtDead(st), Drop(t, d + 1), TypeCut(st) - (d + 1);
    CutIsLeast(topic, q, EarlySwitches(st));
    assert Balance(topic, q[..0]) == 0;
    if 0 < m < |q| {
      BalanceGrowsByOne(topic, q, m - 1);
    }
  }
}
