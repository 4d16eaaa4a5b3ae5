/** The internal topic: writers push under a lock, readers check the size under one lock and pop under
    another (internal_topic.cpp). */
module InternalTopics {
  import opened Common

  type Data = string

  const MAX_QUEUE := 11

  /** The end of the queue after the loop that pops while more than ten entries are there. */
  function Written(queue: seq<Data>, data: Data): (r: seq<Data>)
    ensures 1 <= |r| <= MAX_QUEUE
  {
    (if |queue| > 10 then queue[|queue| - 10..] else queue) + [data]
  }

  // ----- the object, used from one thread -----

  class InternalTopic {
    var queue: seq<Data>

    constructor ()
      ensures queue == []
    {
      queue := [];
    }

    method Write(data: Data)
      modifies this
      ensures queue == Written(old(queue), data)
    {
      while |queue| > 10
        invariant |queue| <= |old(queue)| && queue == old(queue)[|old(queue)| - |queue|..]
        invariant |old(queue)| <= 10 ==> queue == old(queue)
        invariant |old(queue)| > 10 ==> |queue| >= 10
        decreases |queue|
      {
        queue := queue[1..];
      }
      queue := queue + [data];
    }

    method Size() returns (size: nat)
      ensures size == |queue|
    {
      size := |queue|;
    }

    method Pop() returns (data: Option<Data>)
      modifies this
      ensures data == if old(queue) == [] then None else Some(old(queue)[0])
      ensures queue == if old(queue) == [] then [] else old(queue)[1..]
    {
      var size := Size();
      if size > 0 {
        data := Some(queue[0]);
        queue := queue[1..];
      } else {
        data := None;
      }
    }
  }

  // ----- readers and writers on many threads -----

  /** `checked[i]`: reader i has seen a non-empty queue and will pop. `popped` counts the entries that
      pops have removed; `broken`: an empty queue was popped, which is undefined behaviour. */
  datatype State = State(queue: seq<Data>, written: seq<Data>, delivered: seq<Data>, checked: seq<bool>, broken: bool)

  datatype Step = Write(data: Data) | Check(reader: nat) | Pop(reader: nat)

  function Initial(readers: nat): State { State([], [], [], seq(readers, i => false), false) }

  function Next(s: State, step: Step): (r: State)
    ensures |r.checked| == |s.checked|
  {
    match step
    case Write(data) => s.(queue := Written(s.queue, data), written := s.written + [data])
    case Check(i) => if i < |s.checked| then s.(checked := s.checked[i := s.queue != []]) else s
    case Pop(i) =>
      if i >= |s.checked| || !s.checked[i] then s
      else if s.queue == [] then s.(checked := s.checked[i := false], broken := true)
      else s.(checked := s.checked[i := false], queue := s.queue[1..], delivered := s.delivered + [s.queue[0]])
  }

  function After(readers: nat, steps: seq<Step>): (s: State)
    ensures |s.checked| == readers
  {
    if steps == [] then Initial(readers) else Next(After(readers, steps[..|steps| - 1]), steps[|steps| - 1])
  }

  /** The queue is a contiguous run of the newest writes, at most eleven of them, and what was delivered
      is an in-order selection of the older ones, each at most once. */
  ghost predicate Contiguous(s: State) {
    && |s.queue| <= MAX_QUEUE && |s.queue| <= |s.written|
    && s.queue == s.written[|s.written| - |s.queue|..]
    && Subsequence(s.delivered, s.written[..|s.written| - |s.queue|])
  }

  lemma SplitAt(s: seq<Data>, i: nat, j: nat)
    requires i <= j <= |s|
    ensures s[..j] == s[..i] + s[i..j]
  {
  }

  lemma ContiguousWrite(s: State, data: Data)
    requires Contiguous(s)
    ensures Contiguous(Next(s, Write(data)))
  {
    var s' := Next(s, Write(data));
    var k, k' := |s.written| - |s.queue|, |s'.written| - |s'.queue|;
    assert s'.written[..k'] == s.written[..k'];
    SplitAt(s.written, k, k');
    SubsequenceAppend(s.delivered, s.written[..k], s.written[k..k']);
  }

  lemma ContiguousPop(s: State, i: nat)
    requires Contiguous(s)
    ensures Contiguous(Next(s, Pop(i)))
  {
    if i < |s.checked| && s.checked[i] && s.queue != [] {
      var k := |s.written| - |s.queue|;
      assert s.written[..k + 1] == s.written[..k] + [s.queue[0]];
      SubsequenceSnoc(s.delivered, s.written[..k], s.queue[0]);
    }
  }

  /** In every interleaving of any number of writers and readers. */
  lemma {:induction false} AlwaysContiguous(readers: nat, steps: seq<Step>)
    ensures Contiguous(After(readers, steps))
  {
    if steps != [] {
      var init := steps[..|steps| - 1];
      AlwaysContiguous(readers, init);
      match steps[|steps| - 1] {
        case Write(data) => ContiguousWrite(After(readers, init), data);
        case Check(i) =>
        case Pop(i) => ContiguousPop(After(readers, init), i);
      }
    }
  }

  /** How many of the steps are writes that meet more than ten entries; each drops the oldest one. */
  function Overflows(readers: nat, steps: seq<Step>): nat {
    if steps == [] then 0
    else
      var init, last := steps[..|steps| - 1], steps[|steps| - 1];
      Overflows(readers, init) + (if last.Write? && |After(readers, init).queue| > 10 then 1 else 0)
  }

  lemma {:induction false} EveryWriteIsAccountedFor(readers: nat, steps: seq<Step>)
    ensures var s := After(readers, steps); |s.written| == |s.delivered| + |s.queue| + Overflows(readers, steps)
  {
    if steps != [] {
      var init := steps[..|steps| - 1];
      EveryWriteIsAccountedFor(readers, init);
      AlwaysContiguous(readers, init);
    }
  }

  /** What was delivered and what is queued are together all that was written, in order, if and only if no
      write met more than ten entries. */
  lemma NoWriteIsLostIff(readers: nat, steps: seq<Step>)
    ensures var s := After(readers, steps); s.delivered + s.queue == s.written <==> Overflows(readers, steps) == 0
  {
    var s := After(readers, steps);
    EveryWriteIsAccountedFor(readers, steps);
    AlwaysContiguous(readers, steps);
    SubsequenceLength(s.delivered, s.written[..|s.written| - |s.queue|]);
  }

  /** Without readers, writes fill the queue up to eleven entries, and it stays so. */
  lemma {:induction false} WritesAloneKeepEleven(readers: nat, steps: seq<Step>)
    requires forall k :: 0 <= k < |steps| ==> steps[k].Write?
    ensures |After(readers, steps).queue| == if |steps| <= 11 then |steps| else 11
  {
    if steps != [] {
      WritesAloneKeepEleven(readers, steps[..|steps| - 1]);
    }
  }

  lemma {:induction false} OneReaderNeverPopsEmpty(readers: nat, steps: seq<Step>)
    requires readers <= 1
    ensures var s := After(readers, steps);
            !s.broken && (readers == 1 && s.checked[0] ==> s.queue != [])
  {
    if steps != [] {
      OneReaderNeverPopsEmpty(readers, steps[..|steps| - 1]);
    }
  }

  /** The unlocked size check is safe if and only if there is at most one reader: writers never empty the
      queue between the check and the pop, but a second reader can. */
  lemma NeverPopsEmptyIff(readers: nat)
    ensures (forall steps: seq<Step> :: !After(readers, steps).broken) <==> readers <= 1
  {
    if readers <= 1 {
      forall steps: seq<Step> ensures !After(readers, steps).broken {
        OneReaderNeverPopsEmpty(readers, steps);
      }
    } else {
      var steps := TwoReadersBreak(readers);
    }
  }

  lemma AfterSnoc(readers: nat, steps: seq<Step>, step: Step)
    ensures After(readers, steps + [step]) == Next(After(readers, steps), step)
  {
    assert (steps + [step])[..|steps|] == steps;
  }

  /** Two readers see the same single entry, and both pop. */
  lemma TwoReadersBreak(readers: nat) returns (steps: seq<Step>)
    requires readers >= 2
    ensures After(readers, steps).broken
  {
    var both := Initial(readers).checked[0 := true][1 := true];
    steps := [];
    AfterSnoc(readers, steps, Write("x"));
    steps := steps + [Write("x")];
    AfterSnoc(readers, steps, Check(0));
    steps := steps + [Check(0)];
    AfterSnoc(readers, steps, Check(1));
    steps := steps + [Check(1)];
    assert After(readers, steps) == State(["x"], ["x"], [], both, false);
    AfterSnoc(readers, steps, Pop(0));
    steps := steps + [Pop(0)];
    AfterSnoc(readers, steps, Pop(1));
    steps := steps + [Pop(1)];
  }
}
