/** The ReaderItemQueue object and its readers, updated in place (reader_item_queue.cpp). */
module ReaderItemQueues {
  import opened Common
  import opened StreamItemTopics
  import opened Drains

  /** A DDS data reader: what its next takes will yield. */
  class DataReader<T> {
    var pending: seq<Batch<T>>
    var enabled: bool

    constructor ()
      ensures pending == [] && enabled
    {
      pending, enabled := [], true;
    }

    method TakeNextInstance() returns (taken: Option<Batch<T>>)
      modifies this`pending
      ensures taken == if old(pending) == [] then None else Some(old(pending)[0])
      ensures pending == Tail(old(pending))
    {
      if |pending| == 0 { return None; }
      taken := Some(pending[0]);
      pending := pending[1..];
    }
  }

  /** The user's IDataReceiver: it remembers what it was called with. */
  class DataReceiver {
    var received: seq<Event>

    method Receive(e: Event)
      modifies this
      ensures received == old(received) + [e]
    {
      received := received + [e];
    }
  }

  /** The reader is enabled, and the first item of its next take is valid and alive. */
  predicate FirstIsDelivered<T>(enabled: bool, pending: seq<Batch<T>>) {
    enabled && pending != [] && pending[0].first.valid && pending[0].first.alive
  }

  class ReaderItemQueue {
    const topic: StreamItemTopic
    var sampleReader: DataReader<Bytes>
    const streamTypeReader: DataReader<StreamType>
    /** What each replaced sample reader still held. */
    ghost var closed: seq<seq<Batch<Bytes>>>

    ghost function State(): Pending
      reads this, topic, sampleReader, streamTypeReader
    {
      Pending(sampleReader.pending, streamTypeReader.pending, topic.State(),
              sampleReader.enabled, streamTypeReader.enabled)
    }

    constructor (topic: StreamItemTopic)
      ensures this.topic == topic && fresh(sampleReader) && fresh(streamTypeReader) && closed == []
      ensures State() == Pending([], [], topic.State(), true, true)
      ensures sampleReader as object != streamTypeReader
    {
      this.topic := topic;
      sampleReader := new DataReader();
      streamTypeReader := new DataReader();
      closed := [];
    }

    method CreateReader()
      modifies this
      ensures fresh(sampleReader) && State() == old(State()).Recreated()
      ensures closed == old(closed) + [old(sampleReader.pending)]
    {
      closed := closed + [sampleReader.pending];
      sampleReader := new DataReader();
    }

    /** The time of the item that the next take looks at first; samples go before stream types. */
    method GetFrontTime() returns (time: Option<int>)
      ensures State().samples != [] ==> time == Some(State().samples[0].first.time)
      ensures State().samples == [] && State().types != [] ==> time == Some(State().types[0].first.time)
      ensures time.None? <==> State().Load() == 0
      ensures State().Enabled() ==> (time.None? <==> Round(State()).rest == State())
    {
      if |sampleReader.pending| > 0 {
        return Some(sampleReader.pending[0].first.time);
      }
      if |streamTypeReader.pending| > 0 {
        return Some(streamTypeReader.pending[0].first.time);
      }
      return None;
    }

    /** The sample part of popFrom. */
    method ForwardSample(receiver: DataReceiver) returns (read: bool)
      modifies sampleReader, receiver
      ensures sampleReader.pending == if sampleReader.enabled then Tail(old(sampleReader.pending))
                                      else old(sampleReader.pending)
      ensures sampleReader.enabled == old(sampleReader.enabled)
      ensures receiver.received == old(receiver.received) + SampleEvents(Reachable(old(State())))
      ensures read <==> GoodHead(Reachable(old(State())))
      ensures var q := old(sampleReader.pending);
              read <==> old(sampleReader.enabled) && q != [] && q[0].first.valid && q[0].first.alive
      ensures receiver.received == old(receiver.received)
                                   + if read then [SampleEvent(old(sampleReader.pending)[0].first.payload)] else []
    {
      if sampleReader.enabled {
        var taken := sampleReader.TakeNextInstance();
        if taken.Some? {
          var info := taken.value.first;
          if info.valid && info.alive {
            receiver.Receive(SampleEvent(info.payload));
            return true;
          }
        }
      }
      return false;
    }

    /** The stream type part of popFrom, with the update of the topic. */
    method ForwardType(receiver: DataReceiver) returns (read: bool, switched: bool)
      modifies streamTypeReader, topic, receiver
      ensures streamTypeReader.pending == if streamTypeReader.enabled then Tail(old(streamTypeReader.pending))
                                          else old(streamTypeReader.pending)
      ensures streamTypeReader.enabled == old(streamTypeReader.enabled)
      ensures receiver.received == old(receiver.received) + TypeEvents(ReachableTypes(old(State())))
      ensures topic.State() == TopicAfter(old(topic.State()), ReachableTypes(old(State())))
      ensures read <==> GoodHead(ReachableTypes(old(State())))
      ensures var q := old(streamTypeReader.pending);
              read <==> old(streamTypeReader.enabled) && q != [] && q[0].first.valid && q[0].first.alive
      ensures receiver.received == old(receiver.received)
                                   + if read then [TypeEvent(old(streamTypeReader.pending)[0].first.payload)] else []
      ensures switched <==> read && old(topic.State()).Switches(ReachableTypes(old(State()))[0].first.payload)
    {
      if streamTypeReader.enabled {
        var taken := streamTypeReader.TakeNextInstance();
        if taken.Some? {
          var info := taken.value.first;
          if info.valid && info.alive {
            receiver.Receive(TypeEvent(info.payload));
            switched := topic.UpdateStreamType(info.payload);
            return true, switched;
          }
        }
      }
      return false, false;
    }

    /** popFrom up to the point where a QoS switch starts the nested drain. */
    method Forward(receiver: DataReceiver) returns (read: bool, switched: bool)
      requires sampleReader as object != streamTypeReader
      modifies topic, sampleReader, streamTypeReader, receiver
      ensures State() == Round(old(State())).rest
      ensures receiver.received == old(receiver.received) + Round(old(State())).out
      ensures read <==> Round(old(State())).out != []
      ensures switched <==> Round(old(State())).switched
    {
      var readSample := ForwardSample(receiver);
      read, switched := ForwardType(receiver);
      read := readSample || read;
    }

    /** popFrom, and pop around it. */
    method PopFrom(receiver: DataReceiver) returns (readSomething: bool)
      requires sampleReader as object != streamTypeReader
      modifies this, topic, sampleReader, streamTypeReader, receiver
      ensures State() == Pop(old(State())).end
      ensures receiver.received == old(receiver.received) + Pop(old(State())).out
      ensures closed == old(closed) + Pop(old(State())).closed
      ensures readSomething <==> Pop(old(State())).out != []
      ensures readSomething <==> FirstIsDelivered(old(sampleReader.enabled), old(sampleReader.pending))
                                 || FirstIsDelivered(old(streamTypeReader.enabled), old(streamTypeReader.pending))
      ensures sampleReader == old(sampleReader) || fresh(sampleReader)
      decreases State().Load(), 0
    {
      ghost var received0, round := receiver.received, Round(State());
      var switched;
      readSomething, switched := Forward(receiver);
      if switched {
        ghost var inner := Drain(State());
        DrainAndReplace(receiver);
        ConcatAssociates(received0, round.out, inner.out);
      }
    }

    /** The end of popFrom after a QoS switch. */
    method DrainAndReplace(receiver: DataReceiver)
      requires sampleReader as object != streamTypeReader
      modifies this, topic, sampleReader, streamTypeReader, receiver
      ensures State() == Drain(old(State())).end.Recreated() && fresh(sampleReader)
      ensures receiver.received == old(receiver.received) + Drain(old(State())).out
      ensures closed == old(closed) + (Drain(old(State())).closed + [Drain(old(State())).end.samples])
      decreases State().Load(), 2
    {
      PopAll(receiver);
      CreateReader();
    }

    /** The loop that pops until nothing is read; it stands in popFrom and in the dispatch loop of
        startBlockingReception. */
    method PopAll(receiver: DataReceiver)
      requires sampleReader as object != streamTypeReader
      modifies this, topic, sampleReader, streamTypeReader, receiver
      ensures State() == Drain(old(State())).end
      ensures receiver.received == old(receiver.received) + Drain(old(State())).out
      ensures closed == old(closed) + Drain(old(State())).closed
      ensures sampleReader == old(sampleReader) || fresh(sampleReader)
      decreases State().Load(), 1
    {
      ghost var goal, load0, received0, closed0 := Drain(State()), State().Load(), receiver.received, closed;
      ghost var rest := goal;
      var more := true;
      while more
        invariant sampleReader == old(sampleReader) || fresh(sampleReader)
        invariant sampleReader as object != streamTypeReader
        invariant State().Load() <= load0
        invariant rest == if more then Drain(State()) else Run(State(), [], [])
        invariant Drained(goal, rest, receiver.received, received0, closed, closed0)
        decreases State().Load(), more
      {
        ghost var p := Pop(State());
        ghost var next := if p.out != [] then Drain(p.end) else Run(p.end, [], []);
        assert rest == p.Then(next);
        DrainedStep(goal, p, next, receiver.received, received0, closed, closed0);
        rest := next;
        more := PopFrom(receiver);
      }
    }
  }

  /** So far `received` and `closed` have grown by all of the run `goal` but its last part `rest`. */
  ghost predicate Drained(goal: Run, rest: Run, received: seq<Event>, received0: seq<Event>,
                          closed: seq<seq<Batch<Bytes>>>, closed0: seq<seq<Batch<Bytes>>>)
  {
    && goal.end == rest.end
    && received0 + goal.out == received + rest.out
    && closed0 + goal.closed == closed + rest.closed
  }

  lemma DrainedStep(goal: Run, p: Run, next: Run, received: seq<Event>, received0: seq<Event>,
                    closed: seq<seq<Batch<Bytes>>>, closed0: seq<seq<Batch<Bytes>>>)
    requires Drained(goal, p.Then(next), received, received0, closed, closed0)
    ensures Drained(goal, next, received + p.out, received0, closed + p.closed, closed0)
  {
    assert received + (p.out + next.out) == (received + p.out) + next.out;
    assert closed + (p.closed + next.closed) == (closed + p.closed) + next.closed;
  }
}
