/** What ReaderItemQueue::popFrom and its nested drains deliver, as functions on the pending data
    (reader_item_queue.cpp). A reader is the queue of the batches that its next takes will yield, so
    every possible sequence of batch sizes is covered; nothing arrives during a drain. */
module Drains {
  import opened Common
  import opened StreamItemTopics

  datatype Item<T> = Item(payload: T, valid: bool, alive: bool, time: int) {
    predicate Good() { valid && alive }
  }

  /** The non-empty result of one take_next_instance. */
  datatype Batch<T> = Batch(first: Item<T>, rest: seq<Item<T>>)

  datatype Event = SampleEvent(sample: Bytes) | TypeEvent(streamType: StreamType)

  datatype Pending = Pending(samples: seq<Batch<Bytes>>, types: seq<Batch<StreamType>>, topic: Topic,
                             sampleOn: bool, typeOn: bool) {
    function Load(): nat { |samples| + |types| }

    /** createReader: the old sample reader is closed with all it still holds. */
    function Recreated(): Pending { this.(samples := [], sampleOn := true) }

    predicate Enabled() { sampleOn && typeOn }
  }

  /** `out` is what the receiver got; `closed` lists what each replaced sample reader still held. */
  datatype Run = Run(end: Pending, out: seq<Event>, closed: seq<seq<Batch<Bytes>>>) {
    function Then(next: Run): Run { Run(next.end, out + next.out, closed + next.closed) }
  }

  predicate GoodHead<T>(q: seq<Batch<T>>) { q != [] && q[0].first.Good() }

  /** The batches that takes can reach: none when the reader is not enabled. */
  function Reachable(st: Pending): seq<Batch<Bytes>> { if st.sampleOn then st.samples else [] }
  function ReachableTypes(st: Pending): seq<Batch<StreamType>> { if st.typeOn then st.types else [] }

  function SampleEvents(q: seq<Batch<Bytes>>): seq<Event> {
    if GoodHead(q) then [SampleEvent(q[0].first.payload)] else []
  }

  function TypeEvents(q: seq<Batch<StreamType>>): seq<Event> {
    if GoodHead(q) then [TypeEvent(q[0].first.payload)] else []
  }

  function TopicAfter(topic: Topic, q: seq<Batch<StreamType>>): Topic {
    if GoodHead(q) then topic.Updated(q[0].first.payload) else topic
  }

  // ----- the recursive code -----

  /** One popFrom up to the point where a QoS switch would start the nested drain: one take of each
      enabled reader, of which only the first item is looked at. */
  datatype Taken = Taken(rest: Pending, out: seq<Event>, switched: bool)

  function Round(st: Pending): Taken {
    var t := ReachableTypes(st);
    Taken(Pending(if st.sampleOn then Tail(st.samples) else st.samples,
                  if st.typeOn then Tail(st.types) else st.types,
                  TopicAfter(st.topic, t), st.sampleOn, st.typeOn),
          SampleEvents(Reachable(st)) + TypeEvents(t),
          GoodHead(t) && st.topic.Switches(t[0].first.payload))
  }

  /** popFrom and pop; both report that something was read exactly when `out` is not empty. */
  function Pop(st: Pending): (run: Run)
    ensures run.end.Load() <= st.Load()
    ensures run.out != [] ==> run.end.Load() < st.Load()
    decreases st.Load(), 0
  {
    var t := Round(st);
    if t.switched then
      var inner := Drain(t.rest);
      Run(inner.end.Recreated(), t.out + inner.out, inner.closed + [inner.end.samples])
    else Run(t.rest, t.out, [])
  }

  /** The loop that pops until nothing is read. */
  function Drain(st: Pending): (run: Run)
    ensures run.end.Load() <= st.Load()
    decreases st.Load(), 1
  {
    var p := Pop(st);
    if p.out == [] then p else p.Then(Drain(p.end))
  }

  // ----- the flat form -----

  /** The same work as one loop without recursion: `depth` counts the drains still to be left. A round
      that reads nothing leaves one drain, and leaving a nested one replaces the sample reader. */
  function Flat(st: Pending, depth: nat): (run: Run)
    decreases st.Load(), depth
  {
    var t := Round(st);
    var here := Run(t.rest, t.out, []);
    if t.out != [] then here.Then(Flat(t.rest, if t.switched then depth + 1 else depth))
    else if depth == 0 then here
    else Run(t.rest, [], [t.rest.samples]).Then(Flat(t.rest.Recreated(), depth - 1))
  }

  /** What the flat loop still does after a drain at `depth` has ended with `run`. */
  function Continue(run: Run, depth: nat): Run {
    if depth == 0 then run
    else run.Then(Run(run.end.Recreated(), [], [run.end.samples]).Then(Flat(run.end.Recreated(), depth - 1)))
  }

  lemma ThenAssociates(a: Run, b: Run, c: Run)
    ensures a.Then(b).Then(c) == a.Then(b.Then(c))
  {
    assert (a.out + b.out) + c.out == a.out + (b.out + c.out);
    assert (a.closed + b.closed) + c.closed == a.closed + (b.closed + c.closed);
  }

  lemma ContinueThen(a: Run, b: Run, depth: nat)
    ensures Continue(a.Then(b), depth) == a.Then(Continue(b, depth))
  {
    if depth != 0 {
      ThenAssociates(a, b, Run(b.end.Recreated(), [], [b.end.samples]).Then(Flat(b.end.Recreated(), depth - 1)));
    }
  }

  /** A nested drain followed by the recreation is one popFrom. */
  lemma NestedRun(here: Run, inner: Run, again: Run)
    requires here.closed == []
    ensures here.Then(inner.Then(Run(inner.end.Recreated(), [], [inner.end.samples]).Then(again)))
         == Run(inner.end.Recreated(), here.out + inner.out, inner.closed + [inner.end.samples]).Then(again)
  {
    var mid := Run(inner.end.Recreated(), [], [inner.end.samples]);
    ThenAssociates(inner, mid, again);
    ThenAssociates(here, inner.Then(mid), again);
    assert inner.out + [] == inner.out;
    assert [] + (inner.closed + [inner.end.samples]) == inner.closed + [inner.end.samples];
  }

  lemma SwitchCase(st: Pending, depth: nat, inner: Run, again: Pending)
    requires Round(st).switched && inner == Drain(Round(st).rest) && again == inner.end.Recreated()
    requires Flat(Round(st).rest, depth + 1) == Continue(inner, depth + 1)
    requires Flat(again, depth) == Continue(Drain(again), depth)
    ensures Flat(st, depth) == Continue(Drain(st), depth)
  {
    var t := Round(st);
    var here := Run(t.rest, t.out, []);
    calc {
      Flat(st, depth);
      here.Then(Flat(t.rest, depth + 1));
      here.Then(Continue(inner, depth + 1));
      { NestedRun(here, inner, Flat(again, depth)); }
      Pop(st).Then(Flat(again, depth));
      { ContinueThen(Pop(st), Drain(again), depth); }
      Continue(Pop(st).Then(Drain(again)), depth);
      Continue(Drain(st), depth);
    }
  }

  lemma ReadCase(st: Pending, depth: nat)
    requires !Round(st).switched && Round(st).out != []
    requires Flat(Round(st).rest, depth) == Continue(Drain(Round(st).rest), depth)
    ensures Flat(st, depth) == Continue(Drain(st), depth)
  {
    ContinueThen(Pop(st), Drain(Round(st).rest), depth);
  }

  lemma QuietCase(st: Pending, depth: nat)
    requires Round(st).out == []
    ensures Flat(st, depth) == Continue(Drain(st), depth)
  {
    var run := Drain(st);
    assert run == Pop(st) == Run(Round(st).rest, [], []);
    if depth != 0 {
      var last := Run(run.end.Recreated(), [], [run.end.samples]);
      ThenAssociates(run, last, Flat(run.end.Recreated(), depth - 1));
      assert run.Then(last) == Run(run.end.Recreated(), [], [run.end.samples]);
    }
  }

  lemma {:induction false} FlatIsDrainThenContinue(st: Pending, depth: nat)
    ensures Flat(st, depth) == Continue(Drain(st), depth)
    decreases st.Load()
  {
    var t := Round(st);
    if t.switched {
      var inner := Drain(t.rest);
      FlatIsDrainThenContinue(t.rest, depth + 1);
      FlatIsDrainThenContinue(inner.end.Recreated(), depth);
      SwitchCase(st, depth, inner, inner.end.Recreated());
    } else if t.out != [] {
      FlatIsDrainThenContinue(t.rest, depth);
      ReadCase(st, depth);
    } else {
      QuietCase(st, depth);
    }
  }

  /** The recursive drain refines the flat loop, whatever is pending. */
  lemma DrainIsFlat(st: Pending)
    ensures Drain(st) == Flat(st, 0)
  {
    FlatIsDrainThenContinue(st, 0);
  }
}
