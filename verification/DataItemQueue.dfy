/** The bounded queue of samples and stream types over a ring buffer (data_item_queue.cpp). */
module DataItemQueues {
  import opened Common
  import opened StreamItemTopics

  datatype DataItem = NoItem | SampleItem(sampleTime: int, data: Bytes, received: int)
                    | TypeItem(streamType: FepStreamType, received: int)

  // ----- the queue as a sequence -----

  function Pushed<T>(s: seq<T>, x: T, capacity: nat): (r: seq<T>)
    requires |s| <= capacity
    ensures |r| <= capacity
  {
    if capacity == 0 then s else if |s| == capacity then s[1..] + [x] else s + [x]
  }

  function Init<T>(s: seq<T>): seq<T> { if s == [] then [] else s[..|s| - 1] }

  datatype QueueOp<T> = Push(x: T) | PopFront | PopBack

  function Bounded<T>(s: seq<T>, op: QueueOp<T>, capacity: nat): (r: seq<T>)
    requires |s| <= capacity
    ensures |r| <= capacity
  {
    match op case Push(x) => Pushed(s, x, capacity) case PopFront => Tail(s) case PopBack => Init(s)
  }

  function Unbounded<T>(s: seq<T>, op: QueueOp<T>): seq<T> {
    match op case Push(x) => s + [x] case PopFront => Tail(s) case PopBack => Init(s)
  }

  function BoundedRun<T>(ops: seq<QueueOp<T>>, n: nat, capacity: nat): (r: seq<T>)
    requires n <= |ops|
    ensures |r| <= capacity
  {
    if n == 0 then [] else Bounded(BoundedRun(ops, n - 1, capacity), ops[n - 1], capacity)
  }

  function UnboundedRun<T>(ops: seq<QueueOp<T>>, n: nat): seq<T>
    requires n <= |ops|
  {
    if n == 0 then [] else Unbounded(UnboundedRun(ops, n - 1), ops[n - 1])
  }

  lemma SuffixStep<T>(a: seq<T>, b: seq<T>, op: QueueOp<T>, capacity: nat)
    requires Suffix(a, b) && |a| <= capacity
    ensures Suffix(Bounded(a, op, capacity), Unbounded(b, op))
  {
  }

  /** Under any mix of pushes and pops at both ends the queue holds the newest items of what an unbounded
      queue would hold. */
  lemma {:induction false} HoldsNewestOfUnbounded<T>(ops: seq<QueueOp<T>>, n: nat, capacity: nat)
    requires n <= |ops|
    ensures Suffix(BoundedRun(ops, n, capacity), UnboundedRun(ops, n))
  {
    if n > 0 {
      HoldsNewestOfUnbounded(ops, n - 1, capacity);
      SuffixStep(BoundedRun(ops, n - 1, capacity), UnboundedRun(ops, n - 1), ops[n - 1], capacity);
    }
  }

  /** Pushes alone keep exactly the newest items that fit. */
  lemma {:induction false} PushesKeepTheNewest<T>(ops: seq<QueueOp<T>>, n: nat, capacity: nat)
    requires n <= |ops| && forall i :: 0 <= i < n ==> ops[i].Push?
    ensures var held := BoundedRun(ops, n, capacity);
            && |held| == (if n <= capacity then n else capacity)
            && forall i :: 0 <= i < |held| ==> held[i] == ops[n - |held| + i].x
  {
    if n > 0 {
      PushesKeepTheNewest(ops, n - 1, capacity);
    }
  }

  // ----- what becomes of the pushed items -----

  /** What the first n operations have pushed, what their pops have taken, and what full queues have
      dropped. */
  function PushedItems<T>(ops: seq<QueueOp<T>>, n: nat): seq<T>
    requires n <= |ops|
  {
    if n == 0 then []
    else PushedItems(ops, n - 1) + Added(ops[n - 1])
  }

  function Added<T>(op: QueueOp<T>): seq<T> { if op.Push? then [op.x] else [] }

  function Taken<T>(s: seq<T>, op: QueueOp<T>): seq<T> {
    if s == [] || op.Push? then [] else if op.PopFront? then [s[0]] else [s[|s| - 1]]
  }

  function Popped<T>(ops: seq<QueueOp<T>>, n: nat, capacity: nat): seq<T>
    requires n <= |ops|
  {
    if n == 0 then []
    else Popped(ops, n - 1, capacity) + Taken(BoundedRun(ops, n - 1, capacity), ops[n - 1])
  }

  function Overflow<T>(s: seq<T>, op: QueueOp<T>, capacity: nat): seq<T>
    requires |s| <= capacity
  {
    if !op.Push? || |s| < capacity then [] else if s == [] then [op.x] else [s[0]]
  }

  function Dropped<T>(ops: seq<QueueOp<T>>, n: nat, capacity: nat): seq<T>
    requires n <= |ops|
  {
    if n == 0 then []
    else Dropped(ops, n - 1, capacity) + Overflow(BoundedRun(ops, n - 1, capacity), ops[n - 1], capacity)
  }

  /** What was pushed, and where it is now. */
  datatype Ledger<T> = Ledger(pushed: seq<T>, held: seq<T>, popped: seq<T>, dropped: seq<T>) {
    ghost predicate Balanced() { multiset(pushed) == multiset(held) + multiset(popped) + multiset(dropped) }

    function Then(op: QueueOp<T>, capacity: nat): Ledger<T>
      requires |held| <= capacity
    {
      Ledger(pushed + Added(op), Bounded(held, op, capacity),
             popped + Taken(held, op), dropped + Overflow(held, op, capacity))
    }
  }

  function LedgerAfter<T>(ops: seq<QueueOp<T>>, n: nat, capacity: nat): Ledger<T>
    requires n <= |ops|
  {
    Ledger(PushedItems(ops, n), BoundedRun(ops, n, capacity), Popped(ops, n, capacity), Dropped(ops, n, capacity))
  }

  lemma EndsOf<T>(s: seq<T>)
    requires s != []
    ensures multiset(s) == multiset([s[0]]) + multiset(s[1..])
    ensures multiset(s) == multiset(s[..|s| - 1]) + multiset([s[|s| - 1]])
  {
    assert s == [s[0]] + s[1..];
    assert s == s[..|s| - 1] + [s[|s| - 1]];
  }

  lemma OneOperationBalances<T>(s: seq<T>, op: QueueOp<T>, capacity: nat)
    requires |s| <= capacity
    ensures Ledger(s + Added(op), Bounded(s, op, capacity), Taken(s, op), Overflow(s, op, capacity)).Balanced()
  {
    if s != [] {
      EndsOf(s);
    }
  }

  lemma ThenBalances<T>(l: Ledger<T>, op: QueueOp<T>, capacity: nat)
    requires l.Balanced() && |l.held| <= capacity
    ensures l.Then(op, capacity).Balanced()
  {
    var s := l.held;
    OneOperationBalances(s, op, capacity);
    SumsMatch(multiset(l.pushed), multiset(s), multiset(l.popped), multiset(l.dropped), multiset(Added(op)),
              multiset(Bounded(s, op, capacity)), multiset(Taken(s, op)), multiset(Overflow(s, op, capacity)));
  }

  lemma SumsMatch<T>(pushed: multiset<T>, held: multiset<T>, popped: multiset<T>, dropped: multiset<T>,
                     more: multiset<T>, held': multiset<T>, taken: multiset<T>, over: multiset<T>)
    requires pushed == held + popped + dropped && held + more == held' + taken + over
    ensures pushed + more == held' + (popped + taken) + (dropped + over)
  {
    assert pushed + more == (held + more) + popped + dropped;
  }

  lemma LedgerStep<T>(ops: seq<QueueOp<T>>, n: nat, capacity: nat)
    requires n < |ops|
    ensures LedgerAfter(ops, n + 1, capacity) == LedgerAfter(ops, n, capacity).Then(ops[n], capacity)
  {
  }

  lemma EmptyLedgerBalances<T>(ops: seq<QueueOp<T>>, capacity: nat)
    ensures LedgerAfter(ops, 0, capacity).Balanced()
  {
  }

  lemma {:induction false} LedgerBalances<T>(ops: seq<QueueOp<T>>, n: nat, capacity: nat, l: Ledger<T>)
    requires n <= |ops| && l == LedgerAfter(ops, n, capacity)
    ensures l.Balanced()
    decreases n
  {
    if n == 0 {
      EmptyLedgerBalances(ops, capacity);
    } else {
      var before := LedgerAfter(ops, n - 1, capacity);
      LedgerBalances(ops, n - 1, capacity, before);
      LedgerStep(ops, n - 1, capacity);
      ThenBalances(before, ops[n - 1], capacity);
    }
  }

  /** Every pushed item is held, has been taken by a pop, or has been dropped: none twice, none lost. */
  lemma EveryItemIsAccountedFor<T>(ops: seq<QueueOp<T>>, n: nat, capacity: nat)
    requires n <= |ops|
    ensures multiset(PushedItems(ops, n))
         == multiset(BoundedRun(ops, n, capacity))
            + multiset(Popped(ops, n, capacity)) + multiset(Dropped(ops, n, capacity))
  {
    LedgerBalances(ops, n, capacity, LedgerAfter(ops, n, capacity));
  }

  lemma BalancedLengths<T>(l: Ledger<T>)
    requires l.Balanced()
    ensures |l.pushed| == |l.held| + |l.popped| + |l.dropped|
  {
    assert |multiset(l.pushed)| == |multiset(l.held) + multiset(l.popped) + multiset(l.dropped)|;
  }

  /** Up to the n-th operation the unbounded queue stays within the capacity. */
  ghost predicate Fits<T>(ops: seq<QueueOp<T>>, n: nat, capacity: nat)
    requires n <= |ops|
  {
    forall k :: 0 <= k <= n ==> |UnboundedRun(ops, k)| <= capacity
  }

  lemma OverflowIff<T>(s: seq<T>, op: QueueOp<T>, capacity: nat)
    requires |s| <= capacity
    ensures Overflow(s, op, capacity) == [] <==> |Unbounded(s, op)| <= capacity
    ensures Overflow(s, op, capacity) == [] ==> Bounded(s, op, capacity) == Unbounded(s, op)
  {
  }

  lemma {:induction false} NothingDroppedIffFits<T>(ops: seq<QueueOp<T>>, n: nat, capacity: nat)
    requires n <= |ops|
    ensures Dropped(ops, n, capacity) == [] <==> Fits(ops, n, capacity)
    ensures Fits(ops, n, capacity) ==> BoundedRun(ops, n, capacity) == UnboundedRun(ops, n)
  {
    if n > 0 {
      NothingDroppedIffFits(ops, n - 1, capacity);
      FitsStep(ops, n, capacity);
      if Fits(ops, n - 1, capacity) {
        OverflowIff(UnboundedRun(ops, n - 1), ops[n - 1], capacity);
      }
    }
  }

  lemma FitsStep<T>(ops: seq<QueueOp<T>>, n: nat, capacity: nat)
    requires 0 < n <= |ops|
    ensures Fits(ops, n, capacity) <==> Fits(ops, n - 1, capacity) && |UnboundedRun(ops, n)| <= capacity
  {
  }

  /** After each of the first n operations the bounded queue is the unbounded one. */
  ghost predicate Agrees<T>(ops: seq<QueueOp<T>>, n: nat, capacity: nat)
    requires n <= |ops|
  {
    forall k :: 0 <= k <= n ==> BoundedRun(ops, k, capacity) == UnboundedRun(ops, k)
  }

  /** They agree if and only if the unbounded queue never exceeds the capacity, and if and only if nothing
      is dropped. */
  lemma BoundedIsUnboundedIff<T>(ops: seq<QueueOp<T>>, n: nat, capacity: nat)
    requires n <= |ops|
    ensures Agrees(ops, n, capacity) <==> Fits(ops, n, capacity)
    ensures Fits(ops, n, capacity) <==> Dropped(ops, n, capacity) == []
  {
    NothingDroppedIffFits(ops, n, capacity);
    if Fits(ops, n, capacity) {
      forall k | 0 <= k <= n ensures BoundedRun(ops, k, capacity) == UnboundedRun(ops, k) {
        NothingDroppedIffFits(ops, k, capacity);
      }
    }
    if Agrees(ops, n, capacity) {
      forall k | 0 <= k <= n ensures |UnboundedRun(ops, k)| <= capacity {
        assert |BoundedRun(ops, k, capacity)| <= capacity;
      }
    }
  }

  /** Used as a FIFO, the queue holds a contiguous run of the newest pushes, and what came out before is
      an in-order selection of the older ones: nothing comes out twice or out of order. */
  ghost predicate Fifo<T>(contents: seq<T>, popped: seq<T>, pushed: seq<T>) {
    && Suffix(contents, pushed)
    && Subsequence(popped, pushed[..|pushed| - |contents|])
  }

  lemma FifoPush<T>(s: seq<T>, popped: seq<T>, pushed: seq<T>, x: T, capacity: nat)
    requires Fifo(s, popped, pushed) && |s| <= capacity
    ensures Fifo(Pushed(s, x, capacity), popped, pushed + [x])
  {
    var k := |pushed| - |s|;
    var k' := |pushed| + 1 - |Pushed(s, x, capacity)|;
    SubsequenceAppend(popped, pushed[..k], (pushed + [x])[k..k']);
    assert (pushed + [x])[..k'] == pushed[..k] + (pushed + [x])[k..k'];
  }

  lemma FifoPop<T>(s: seq<T>, popped: seq<T>, pushed: seq<T>)
    requires Fifo(s, popped, pushed) && s != []
    ensures Fifo(s[1..], popped + [s[0]], pushed)
  {
    var k := |pushed| - |s|;
    assert pushed[..k + 1] == pushed[..k] + [s[0]];
    SubsequenceSnoc(popped, pushed[..k], s[0]);
  }

  lemma {:induction false} FifoRun<T>(ops: seq<QueueOp<T>>, n: nat, capacity: nat)
    requires n <= |ops| && forall i :: 0 <= i < n ==> !ops[i].PopBack?
    ensures Fifo(BoundedRun(ops, n, capacity), Popped(ops, n, capacity), PushedItems(ops, n))
  {
    if n > 0 {
      FifoRun(ops, n - 1, capacity);
      var s, popped, pushed := BoundedRun(ops, n - 1, capacity), Popped(ops, n - 1, capacity), PushedItems(ops, n - 1);
      assert popped + [] == popped && pushed + [] == pushed;
      match ops[n - 1] {
        case Push(x) => FifoPush(s, popped, pushed, x, capacity);
        case PopFront => if s != [] { FifoPop(s, popped, pushed); }
      }
    }
  }

  /** What came out and what is held are together all that was pushed, in order, if and only if nothing was
      dropped. */
  lemma FifoLosesNothingIff<T>(ops: seq<QueueOp<T>>, n: nat, capacity: nat)
    requires n <= |ops| && forall i :: 0 <= i < n ==> !ops[i].PopBack?
    ensures Popped(ops, n, capacity) + BoundedRun(ops, n, capacity) == PushedItems(ops, n)
       <==> Dropped(ops, n, capacity) == []
  {
    var s, popped, pushed := BoundedRun(ops, n, capacity), Popped(ops, n, capacity), PushedItems(ops, n);
    LedgerBalances(ops, n, capacity, LedgerAfter(ops, n, capacity));
    BalancedLengths(LedgerAfter(ops, n, capacity));
    FifoRun(ops, n, capacity);
    FifoIsCompleteIff(s, popped, pushed, |Dropped(ops, n, capacity)|);
  }

  lemma FifoIsCompleteIff<T>(s: seq<T>, popped: seq<T>, pushed: seq<T>, missing: nat)
    requires Fifo(s, popped, pushed) && |pushed| == |s| + |popped| + missing
    ensures popped + s == pushed <==> missing == 0
  {
    SubsequenceLength(popped, pushed[..|pushed| - |s|]);
    if missing == 0 {
      assert pushed == pushed[..|pushed| - |s|] + s;
    }
  }

  // ----- iteration -----

  /** How many items an iteration visits: up to and including the first that the callback refuses. */
  function Visits(s: seq<DataItem>, callback: DataItem -> bool, i: nat): (n: nat)
    requires i <= |s|
    ensures i <= n <= |s|
    ensures forall j :: i <= j < n - 1 ==> callback(s[j])
    ensures n < |s| ==> n > i && !callback(s[n - 1])
    decreases |s| - i
  {
    if i == |s| then i else if callback(s[i]) then Visits(s, callback, i + 1) else i + 1
  }

  function Reversed<T>(s: seq<T>): (r: seq<T>)
    ensures |r| == |s| && forall i :: 0 <= i < |s| ==> r[i] == s[|s| - 1 - i]
  {
    seq(|s|, i requires 0 <= i < |s| => s[|s| - 1 - i])
  }

  /** The time of the first sample, if there is one. */
  function FirstSampleTime(s: seq<DataItem>): (t: Option<int>)
    ensures t.None? <==> forall i :: 0 <= i < |s| ==> !s[i].SampleItem?
  {
    if s == [] then None
    else if s[0].SampleItem? then Some(s[0].sampleTime)
    else FirstSampleTime(s[1..])
  }

  lemma {:induction false} FirstSampleAt(s: seq<DataItem>, i: nat)
    requires i < |s| && s[i].SampleItem? && forall j :: 0 <= j < i ==> !s[j].SampleItem?
    ensures FirstSampleTime(s) == Some(s[i].sampleTime)
    decreases i
  {
    if i > 0 {
      FirstSampleAt(s[1..], i - 1);
    }
  }

  /** The receiver of popFront and popBack: it remembers what it was called with. */
  class ItemReceiver {
    var received: seq<DataItem>

    method OnReceive(item: DataItem)
      modifies this
      ensures received == old(received) + [item]
    {
      received := received + [item];
    }
  }

  // ----- the object -----

  class DataItemQueue {
    var items: array<DataItem>
    var head: nat
    var count: nat

    ghost predicate Valid()
      reads this
    {
      count <= items.Length && (head < items.Length || head == items.Length == 0)
    }

    /** The slot of the i-th item. */
    function Slot(i: nat): nat
      reads this
    {
      if head + i < items.Length then head + i else head + i - items.Length
    }

    ghost function Contents(): (s: seq<DataItem>)
      requires Valid()
      reads this, items
      ensures |s| == count
    {
      seq(count, i requires Valid() && 0 <= i < count reads this, items => items[Slot(i)])
    }

    lemma At(i: nat)
      requires Valid() && i < count
      ensures Slot(i) < items.Length && Contents()[i] == items[Slot(i)]
    {
    }

    constructor (capacity: nat)
      ensures Valid() && fresh(items) && Contents() == []
      ensures items.Length == if capacity == 0 then 1 else capacity
    {
      items := new DataItem[if capacity == 0 then 1 else capacity](_ => NoItem);
      head, count := 0, 0;
    }

    /** A full buffer overwrites its oldest item. */
    method Overwrite(x: DataItem)
      requires Valid() && count == items.Length > 0
      modifies this`head, items
      ensures Valid() && Contents() == old(Contents())[1..] + [x]
    {
      ghost var s, first := Contents(), head;
      items[head] := x;
      head := if head + 1 == items.Length then 0 else head + 1;
      assert Slot(count - 1) == first;
      forall i | 0 <= i < count - 1 ensures Contents()[i] == s[i + 1] {
        var next := first + i + 1;
        assert Slot(i) == (if next < items.Length then next else next - items.Length) != first;
      }
    }

    /** pushSample and pushType. */
    method PushBack(x: DataItem)
      requires Valid()
      modifies this`head, this`count, items
      ensures Valid() && Contents() == Pushed(old(Contents()), x, items.Length)
    {
      if items.Length == 0 { return; }
      if count == items.Length {
        Overwrite(x);
      } else {
        items[Slot(count)] := x;
        count := count + 1;
      }
    }

    method NextTime() returns (time: Option<int>)
      requires Valid()
      ensures time == FirstSampleTime(Contents())
    {
      for i := 0 to count
        invariant forall j :: 0 <= j < i ==> !Contents()[j].SampleItem?
      {
        At(i);
        if items[Slot(i)].SampleItem? {
          FirstSampleAt(Contents(), i);
          return Some(items[Slot(i)].sampleTime);
        }
      }
      return None;
    }

    method Pop() returns (ok: bool)
      requires Valid()
      modifies this`count
      ensures Valid() && Contents() == Init(old(Contents())) && (ok <==> old(Contents()) != [])
    {
      if count > 0 {
        count := count - 1;
        return true;
      }
      return false;
    }

    /** popFront(receiver). The slot is cleared before it is given up. */
    method PopFrontTo(receiver: ItemReceiver) returns (ok: bool)
      requires Valid()
      modifies this`head, this`count, items, receiver
      ensures Valid() && Contents() == Tail(old(Contents())) && (ok <==> old(Contents()) != [])
      ensures receiver.received == old(receiver.received) + old(Contents())[..if ok then 1 else 0]
    {
      if count > 0 {
        At(0);
        receiver.OnReceive(items[head]);
        items[head] := NoItem;
        head := if head + 1 == items.Length then 0 else head + 1;
        count := count - 1;
        return true;
      }
      return false;
    }

    /** popBack(receiver). */
    method PopBackTo(receiver: ItemReceiver) returns (ok: bool)
      requires Valid()
      modifies this`count, items, receiver
      ensures Valid() && Contents() == Init(old(Contents())) && (ok <==> old(Contents()) != [])
      ensures receiver.received == old(receiver.received) + (if ok then [old(Contents())[old(count) - 1]] else [])
    {
      if count > 0 {
        At(count - 1);
        receiver.OnReceive(items[Slot(count - 1)]);
        items[Slot(count - 1)] := NoItem;
        count := count - 1;
        return true;
      }
      return false;
    }

    method Read(index: nat) returns (item: Option<DataItem>)
      requires Valid()
      ensures item == if index < |Contents()| then Some(Contents()[index]) else None
    {
      if index < count {
        At(index);
        return Some(items[Slot(index)]);
      }
      return None;
    }

    method ReadBack() returns (item: Option<DataItem>)
      requires Valid()
      ensures item == if Contents() == [] then None else Some(Contents()[|Contents()| - 1])
    {
      if count > 0 {
        At(count - 1);
        return Some(items[Slot(count - 1)]);
      }
      return None;
    }

    /** As written: a size of 0 leaves a queue that never holds anything. */
    method SetCapacity(size: nat) returns (capacity: nat)
      requires Valid()
      modifies this
      ensures Valid() && fresh(items) && items.Length == capacity == size && Contents() == []
    {
      items := new DataItem[size](_ => NoItem);
      head, count := 0, 0;
      return size;
    }

    method Iteration(callback: DataItem -> bool) returns (visited: seq<DataItem>)
      requires Valid()
      ensures visited == Contents()[..Visits(Contents(), callback, 0)]
    {
      ghost var s := Contents();
      visited := [];
      for i := 0 to count
        invariant visited == s[..i] && Visits(s, callback, 0) == Visits(s, callback, i)
      {
        var item := items[Slot(i)];
        assert item == s[i] && s[..i + 1] == s[..i] + [item];
        visited := visited + [item];
        if !callback(item) { return; }
      }
    }

    method ReverseIteration(callback: DataItem -> bool) returns (visited: seq<DataItem>)
      requires Valid()
      ensures visited == Reversed(Contents())[..Visits(Reversed(Contents()), callback, 0)]
    {
      ghost var reversed := Reversed(Contents());
      visited := [];
      var i: nat := count;
      while i > 0
        invariant i <= count && visited == reversed[..count - i]
        invariant Visits(reversed, callback, 0) == Visits(reversed, callback, count - i)
      {
        i := i - 1;
        var item := items[Slot(i)];
        ghost var k := count - 1 - i;
        assert item == reversed[k] && reversed[..k + 1] == reversed[..k] + [item];
        visited := visited + [item];
        if !callback(item) { return; }
      }
    }
  }
}
