/** The component registry: its two containers, and its transitions statement by statement
    (component_registry.cpp). */
module ComponentRegistries {
  import opened Common
  import opened Lifecycles

  type Iid = string

  type Version = string

  datatype Entry = Entry(iid: Iid, component: Component)

  /** `components` keeps the registration order, `versions` is a map beside it. */
  datatype Registry = Registry(components: seq<Entry>, versions: map<Iid, Version>) {
    ghost predicate InStep() {
      && (forall i, j :: 0 <= i < j < |components| ==> components[i].iid != components[j].iid)
      && (forall k :: k in versions <==> exists i :: 0 <= i < |components| && components[i].iid == k)
    }
  }

  datatype Result = Ok | InvalidType | InvalidArg

  /** The position of the first entry with the given id. */
  function Find(es: seq<Entry>, iid: Iid): (at: Option<nat>)
    ensures at.Some? ==> at.value < |es| && es[at.value].iid == iid
    ensures at.None? ==> forall i :: 0 <= i < |es| ==> es[i].iid != iid
  {
    if es == [] then None
    else if es[0].iid == iid then Some(0)
    else match Find(es[1..], iid) case None => None case Some(i) => Some(i + 1)
  }

  datatype Command =
    | Register(iid: Iid, component: Component, version: Version, supported: bool)
    | Unregister(iid: Iid)
    | Clear

  function Apply(r: Registry, c: Command): Registry {
    match c
    case Register(iid, component, version, supported) =>
      if !supported || Find(r.components, iid).Some? then r
      else Registry(r.components + [Entry(iid, component)], r.versions[iid := version])
    case Unregister(iid) =>
      (match Find(r.components, iid)
       case None => r
       case Some(i) => Registry(r.components[..i] + r.components[i + 1..], r.versions - {iid}))
    case Clear => Registry([], map[])
  }

  function After(history: seq<Command>): Registry {
    if history == [] then Registry([], map[])
    else Apply(After(history[..|history| - 1]), history[|history| - 1])
  }

  /** When the registration that is in force for an id was made, read off the history alone. */
  function RegisteredAt(history: seq<Command>, iid: Iid): (at: Option<nat>)
    ensures at.Some? ==> at.value < |history| && history[at.value].Register?
  {
    if history == [] then None
    else
      var n := |history| - 1;
      var earlier := RegisteredAt(history[..n], iid);
      match history[n]
      case Clear => None
      case Unregister(id) => if id == iid then None else earlier
      case Register(id, _, _, supported) => if id == iid && supported && earlier.None? then Some(n) else earlier
  }

  /** Entry e stands for the registration that is in force for its id. */
  ghost predicate Current(e: Entry, versions: map<Iid, Version>, history: seq<Command>) {
    var at := RegisteredAt(history, e.iid);
    at.Some? && e.iid in versions && history[at.value] == Register(e.iid, e.component, versions[e.iid], true)
  }

  ghost predicate AllCurrent(r: Registry, history: seq<Command>) {
    && (forall i :: 0 <= i < |r.components| ==> Current(r.components[i], r.versions, history))
    && (forall iid :: Find(r.components, iid).None? ==> RegisteredAt(history, iid).None?)
  }

  ghost predicate Ordered(es: seq<Entry>, history: seq<Command>) {
    && (forall i :: 0 <= i < |es| ==> RegisteredAt(history, es[i].iid).Some?)
    && (forall i, j :: 0 <= i < j < |es| ==>
          RegisteredAt(history, es[i].iid).value < RegisteredAt(history, es[j].iid).value)
  }

  /** The registry holds exactly the registrations in force, in the order in which they were made, and
      for each id its component and version. */
  ghost predicate Follows(r: Registry, history: seq<Command>) {
    r.InStep() && AllCurrent(r, history) && Ordered(r.components, history)
  }

  lemma RegisteredAtSnoc(history: seq<Command>, c: Command, iid: Iid)
    ensures RegisteredAt(history + [c], iid)
         == match c
            case Clear => None
            case Unregister(id) => if id == iid then None else RegisteredAt(history, iid)
            case Register(id, _, _, supported) =>
              if id == iid && supported && RegisteredAt(history, iid).None? then Some(|history|)
              else RegisteredAt(history, iid)
  {
    assert (history + [c])[..|history|] == history;
  }

  lemma RejectedFollows(r: Registry, history: seq<Command>, c: Command)
    requires Follows(r, history) && forall iid :: RegisteredAt(history + [c], iid) == RegisteredAt(history, iid)
    ensures Follows(r, history + [c])
  {
  }

  lemma AddedInStep(r: Registry, e: Entry, v: Version)
    requires r.InStep() && Find(r.components, e.iid).None?
    ensures Registry(r.components + [e], r.versions[e.iid := v]).InStep()
  {
    var es, versions := r.components + [e], r.versions[e.iid := v];
    forall k ensures k in versions <==> exists i :: 0 <= i < |es| && es[i].iid == k {
      if k == e.iid {
        assert es[|es| - 1].iid == k;
      } else if k in r.versions {
        var i :| 0 <= i < |r.components| && r.components[i].iid == k;
        assert es[i].iid == k;
      }
    }
  }

  /** What the registration `c` does to the registration times. */
  ghost predicate Adds(history: seq<Command>, c: Command)
    requires c.Register?
  {
    forall iid :: RegisteredAt(history + [c], iid)
               == if c.iid == iid then Some(|history|) else RegisteredAt(history, iid)
  }

  lemma AddedCurrent(r: Registry, history: seq<Command>, c: Command)
    requires c.Register? && c.supported && AllCurrent(r, history) && Find(r.components, c.iid).None? && Adds(history, c)
    ensures AllCurrent(Apply(r, c), history + [c])
  {
    var es, n := r.components + [Entry(c.iid, c.component)], |r.components|;
    forall i | 0 <= i <= n ensures Current(es[i], r.versions[c.iid := c.version], history + [c]) {
      if i < n {
        assert Current(r.components[i], r.versions, history);
      }
    }
    forall iid | Find(es, iid).None? ensures RegisteredAt(history + [c], iid).None? {
      assert Find(r.components, iid).None? by {
        assert forall i :: 0 <= i < n ==> es[i] == r.components[i];
      }
      assert es[n].iid == c.iid;
    }
  }

  lemma AddedOrdered(es: seq<Entry>, e: Entry, history: seq<Command>, c: Command)
    requires c.Register? && e.iid == c.iid && Ordered(es, history) && Find(es, c.iid).None? && Adds(history, c)
    ensures Ordered(es + [e], history + [c])
  {
    assert forall i :: 0 <= i < |es| ==> (es + [e])[i] == es[i];
  }

  lemma AddedFollows(r: Registry, history: seq<Command>, c: Command)
    requires c.Register? && c.supported && Follows(r, history) && Find(r.components, c.iid).None? && Adds(history, c)
    ensures Follows(Apply(r, c), history + [c])
  {
    var e := Entry(c.iid, c.component);
    AddedInStep(r, e, c.version);
    AddedCurrent(r, history, c);
    AddedOrdered(r.components, e, history, c);
  }

  lemma RegisterFollows(r: Registry, history: seq<Command>, c: Command)
    requires c.Register? && Follows(r, history)
    ensures Follows(Apply(r, c), history + [c])
  {
    var found := Find(r.components, c.iid);
    if found.Some? {
      assert Current(r.components[found.value], r.versions, history);
    }
    forall iid ensures RegisteredAt(history + [c], iid)
                    == if c.iid == iid && c.supported && found.None? then Some(|history|)
                       else RegisteredAt(history, iid)
    {
      RegisteredAtSnoc(history, c, iid);
    }
    if c.supported && found.None? {
      AddedFollows(r, history, c);
    } else {
      RejectedFollows(r, history, c);
    }
  }

  lemma RemovedInStep(r: Registry, n: nat)
    requires r.InStep() && n < |r.components|
    ensures Registry(r.components[..n] + r.components[n + 1..], r.versions - {r.components[n].iid}).InStep()
  {
    var es, iid := r.components[..n] + r.components[n + 1..], r.components[n].iid;
    assert forall i :: 0 <= i < |es| ==> es[i] == r.components[if i < n then i else i + 1];
    forall k ensures k in r.versions - {iid} <==> exists i :: 0 <= i < |es| && es[i].iid == k {
      if k in r.versions && k != iid {
        var i :| 0 <= i < |r.components| && r.components[i].iid == k;
        assert es[if i < n then i else i - 1].iid == k;
      }
    }
  }

  ghost predicate Removes(history: seq<Command>, iid: Iid) {
    forall k :: RegisteredAt(history + [Unregister(iid)], k) == if k == iid then None else RegisteredAt(history, k)
  }

  function Without(es: seq<Entry>, n: nat): (r: seq<Entry>)
    requires n < |es|
    ensures |r| == |es| - 1 && forall i :: 0 <= i < |r| ==> r[i] == es[if i < n then i else i + 1]
  {
    es[..n] + es[n + 1..]
  }

  lemma FindWithout(es: seq<Entry>, n: nat, k: Iid)
    requires n < |es| && Find(Without(es, n), k).None? && es[n].iid != k
    ensures Find(es, k).None?
  {
    forall i | 0 <= i < |es| ensures es[i].iid != k {
      if i != n {
        assert Without(es, n)[if i < n then i else i - 1] == es[i];
      }
    }
  }

  lemma RemovedCurrent(r: Registry, history: seq<Command>, iid: Iid, n: nat)
    requires r.InStep() && AllCurrent(r, history) && Find(r.components, iid) == Some(n) && Removes(history, iid)
    ensures AllCurrent(Registry(Without(r.components, n), r.versions - {iid}), history + [Unregister(iid)])
  {
    var es := Without(r.components, n);
    forall i | 0 <= i < |es| ensures Current(es[i], r.versions - {iid}, history + [Unregister(iid)]) {
      assert Current(r.components[if i < n then i else i + 1], r.versions, history);
    }
    forall k | Find(es, k).None? ensures RegisteredAt(history + [Unregister(iid)], k).None? {
      if k != iid {
        FindWithout(r.components, n, k);
      }
    }
  }

  lemma RemovedOrdered(es: seq<Entry>, history: seq<Command>, iid: Iid, n: nat)
    requires n < |es| && es[n].iid == iid && forall i, j :: 0 <= i < j < |es| ==> es[i].iid != es[j].iid
    requires Ordered(es, history) && Removes(history, iid)
    ensures Ordered(Without(es, n), history + [Unregister(iid)])
  {
  }

  lemma RemovedFollows(r: Registry, history: seq<Command>, iid: Iid, n: nat)
    requires Follows(r, history) && Find(r.components, iid) == Some(n) && Removes(history, iid)
    ensures Follows(Apply(r, Unregister(iid)), history + [Unregister(iid)])
  {
    RemovedInStep(r, n);
    RemovedCurrent(r, history, iid, n);
    RemovedOrdered(r.components, history, iid, n);
  }

  lemma UnregisterFollows(r: Registry, history: seq<Command>, c: Command)
    requires c.Unregister? && Follows(r, history)
    ensures Follows(Apply(r, c), history + [c])
  {
    forall iid ensures RegisteredAt(history + [c], iid) == if c.iid == iid then None else RegisteredAt(history, iid) {
      RegisteredAtSnoc(history, c, iid);
    }
    match Find(r.components, c.iid)
    case Some(n) => RemovedFollows(r, history, c.iid, n);
    case None => RejectedFollows(r, history, c);
  }

  lemma ClearFollows(r: Registry, history: seq<Command>)
    ensures Follows(Apply(r, Clear), history + [Clear])
  {
    forall iid ensures RegisteredAt(history + [Clear], iid) == None {
      RegisteredAtSnoc(history, Clear, iid);
    }
  }

  /** After any run of register, unregister and clear, ids are pairwise distinct and are the keys of the
      version map, lookups agree with the history, and the surviving registration order is kept. */
  lemma {:induction false} RegistryFollowsHistory(history: seq<Command>)
    ensures Follows(After(history), history)
  {
    if history != [] {
      var init, c := history[..|history| - 1], history[|history| - 1];
      RegistryFollowsHistory(init);
      assert init + [c] == history;
      match c {
        case Register(_, _, _, _) => RegisterFollows(After(init), init, c);
        case Unregister(_) => UnregisterFollows(After(init), init, c);
        case Clear => ClearFollows(After(init), init);
      }
    }
  }

  /** So the linear search finds the component of the registration in force, and nothing else. */
  lemma FindAgreesWithHistory(history: seq<Command>, iid: Iid)
    ensures var r, at, found := After(history), RegisteredAt(history, iid), Find(After(history).components, iid);
            match at
            case None => found.None? && iid !in r.versions
            case Some(t) => found.Some? && iid in r.versions
                            && history[t] == Register(iid, r.components[found.value].component, r.versions[iid], true)
  {
    RegistryFollowsHistory(history);
    var r, found := After(history), Find(After(history).components, iid);
    if found.Some? {
      assert Current(r.components[found.value], r.versions, history);
    }
  }

  // ----- the object -----

  function Addresses(es: seq<Entry>): (cs: seq<Component>)
    ensures |cs| == |es|
  {
    seq(|es|, i requires 0 <= i < |es| => es[i].component)
  }

  class ComponentRegistry {
    var components: seq<Entry>
    var versions: map<Iid, Version>
    /** The calls made so far into the registered components, and how these answer. */
    var log: Log
    const behaviour: Behaviour

    ghost function State(): Registry
      reads this
    {
      Registry(components, versions)
    }

    constructor (behaviour: Behaviour)
      ensures State() == After([]) && log == [] && this.behaviour == behaviour
    {
      components, versions := [], map[];
      log := [];
      this.behaviour := behaviour;
    }

    method FindComponent(iid: Iid) returns (component: Option<Component>)
      ensures var at := Find(components, iid);
              component == if at.None? then None else Some(components[at.value].component)
    {
      for i := 0 to |components|
        invariant forall j :: 0 <= j < i ==> components[j].iid != iid
      {
        if components[i].iid == iid {
          FirstIsFound(components, iid, i);
          return Some(components[i].component);
        }
      }
      return None;
    }

    method FindComponentByPtr(component: Component) returns (found: bool)
      ensures found <==> exists i :: 0 <= i < |components| && components[i].component == component
    {
      for i := 0 to |components|
        invariant forall j :: 0 <= j < i ==> components[j].component != component
      {
        if components[i].component == component { return true; }
      }
      return false;
    }

    method RegisterComponent(iid: Iid, component: Component, version: Version, supported: bool) returns (r: Result)
      modifies this`components, this`versions
      ensures State() == Apply(old(State()), Register(iid, component, version, supported))
      ensures r == if !supported then InvalidType else if Find(old(components), iid).Some? then InvalidArg else Ok
      ensures r == Ok ==> components == old(components) + [Entry(iid, component)]
      ensures r == Ok ==> versions == old(versions)[iid := version]
      ensures r != Ok ==> components == old(components) && versions == old(versions)
    {
      if !supported { return InvalidType; }
      var found := FindComponent(iid);
      if found.None? {
        components := components + [Entry(iid, component)];
        versions := versions[iid := version];
        return Ok;
      }
      return InvalidArg;
    }

    method UnregisterComponent(iid: Iid) returns (r: Result)
      modifies this`components, this`versions
      ensures State() == Apply(old(State()), Unregister(iid))
      ensures r == if Find(old(components), iid).Some? then Ok else InvalidArg
      ensures r == Ok ==> |components| == |old(components)| - 1 && versions == old(versions) - {iid}
      ensures r != Ok ==> components == old(components) && versions == old(versions)
    {
      var i := 0;
      while i < |components|
        invariant i <= |components| && components == old(components) && versions == old(versions)
        invariant forall j :: 0 <= j < i ==> components[j].iid != iid
      {
        if components[i].iid == iid {
          FirstIsFound(components, iid, i);
          components := components[..i] + components[i + 1..];
          versions := versions - {iid};
          return Ok;
        }
        i := i + 1;
      }
      return InvalidArg;
    }

    method GetComponentVersion(iid: Iid) returns (version: Option<Version>)
      ensures version == if iid in versions then Some(versions[iid]) else None
      ensures State().InStep() ==> (version.Some? <==> Find(components, iid).Some?)
    {
      if iid in versions {
        version := Some(versions[iid]);
      } else {
        version := None;
      }
      ghost var at := Find(components, iid);
      assert at.Some? ==> components[at.value].iid == iid;
    }

    /** Erases from the back. */
    method Clear()
      modifies this`components, this`versions
      ensures State() == Apply(old(State()), Command.Clear)
      ensures components == [] && versions == map[]
    {
      while |components| > 0
        decreases |components|
      {
        components := components[..|components| - 1];
      }
      versions := map[];
    }

    /** A call into user code; an exception it throws is caught by the caller. */
    method CallComponent(c: Component, op: Op) returns (outcome: Outcome)
      modifies this`log
      ensures outcome == behaviour(old(log), c, op) && log == old(log) + [Made(behaviour, old(log), c, op)]
    {
      outcome := behaviour(log, c, op);
      log := log + [Call(c, op, outcome)];
    }

    /** The loop over the components that have been raised or are to be lowered, from the back; it goes on
        after failures and exceptions. */
    method LowerInReverse(list: seq<Component>, down: Op) returns (ok: bool)
      modifies this`log
      ensures var calls := LowerFrom(behaviour, old(log), list, |list|, down);
              log == old(log) + calls && (ok <==> AllSucceeded(calls))
    {
      ghost var log0, goal, calls: Log := log, LowerFrom(behaviour, log, list, |list|, down), [];
      ok := true;
      var n: nat := |list|;
      while n > 0
        invariant n <= |list| && log == log0 + calls
        invariant goal == calls + LowerFrom(behaviour, log, list, n, down)
        invariant ok <==> AllSucceeded(calls)
      {
        ghost var call := Made(behaviour, log, list[n - 1], down);
        LowerStep(behaviour, log, list, n, down, goal, calls);
        n := n - 1;
        var outcome := CallComponent(list[n], down);
        calls := calls + [call];
        ok := ok && outcome == Succeeded;
      }
      assert goal == calls;
    }

    /** The upward loop: `succeeded` are the components before the first one that does not succeed. */
    method RaiseInOrder(up: Op) returns (succeeded: seq<Component>)
      modifies this`log
      ensures var r := RaiseFrom(behaviour, old(log), Addresses(components), 0, up);
              log == old(log) + r.calls && succeeded == Addresses(components)[..r.at]
    {
      ghost var log0, cs := log, Addresses(components);
      ghost var goal, calls: Log := RaiseFrom(behaviour, log, cs, 0, up), [];
      succeeded := [];
      for i := 0 to |components|
        invariant succeeded == cs[..i] && log == log0 + calls
        invariant Remaining(goal, calls, RaiseFrom(behaviour, log, cs, i, up))
      {
        ghost var call := Made(behaviour, log, cs[i], up);
        RemainingStep(behaviour, log, cs, i, up, goal, calls);
        var outcome := CallComponent(components[i].component, up);
        calls := calls + [call];
        if outcome != Succeeded { return; }
        succeeded := succeeded + [components[i].component];
      }
      assert calls + [] == calls;
    }

    /** raiseWithFallback, as create, initialize, tense and start call it. */
    method RaiseWithFallback(up: Op) returns (ok: bool)
      requires up.IsRaise()
      modifies this`log
      ensures var t := Raise(behaviour, old(log), Addresses(components), up); ok == t.ok && log == old(log) + t.calls
    {
      ghost var log0, cs := log, Addresses(components);
      var succeeded := RaiseInOrder(up);
      if |succeeded| == |components| { return true; }
      ghost var calls := RaiseFrom(behaviour, log0, cs, 0, up).calls;
      var _ := LowerInReverse(succeeded, up.Reverse());
      LowerFromPrefix(behaviour, log0 + calls, succeeded, cs, |succeeded|, up.Reverse());
      assert log0 + (calls + LowerFrom(behaviour, log0 + calls, cs, |succeeded|, up.Reverse())) == log;
      return false;
    }

    /** destroy, deinitialize, relax and stop. */
    method LowerAll(down: Op) returns (ok: bool)
      requires !down.IsRaise()
      modifies this`log
      ensures var t := Lower(behaviour, old(log), Addresses(components), down); ok == t.ok && log == old(log) + t.calls
    {
      ok := LowerInReverse(Addresses(components), down);
    }
  }

  lemma LowerStep(b: Behaviour, log: Log, list: seq<Component>, n: nat, down: Op, goal: Log, calls: Log)
    requires 0 < n <= |list| && goal == calls + LowerFrom(b, log, list, n, down)
    ensures var call := Made(b, log, list[n - 1], down);
            && goal == calls + [call] + LowerFrom(b, log + [call], list, n - 1, down)
            && (AllSucceeded(calls + [call]) <==> AllSucceeded(calls) && call.outcome == Succeeded)
  {
    var call := Made(b, log, list[n - 1], down);
    var rest := LowerFrom(b, log + [call], list, n - 1, down);
    assert calls + ([call] + rest) == calls + [call] + rest;
    assert forall i :: 0 <= i < |calls| ==> (calls + [call])[i] == calls[i];
    assert (calls + [call])[|calls|] == call;
  }

  ghost predicate Remaining(goal: Raised, calls: Log, rest: Raised) {
    goal == Raised(calls + rest.calls, rest.at)
  }

  lemma RemainingStep(b: Behaviour, log: Log, cs: seq<Component>, i: nat, up: Op, goal: Raised, calls: Log)
    requires i < |cs| && Remaining(goal, calls, RaiseFrom(b, log, cs, i, up))
    ensures var call := Made(b, log, cs[i], up);
            if call.outcome == Succeeded then Remaining(goal, calls + [call], RaiseFrom(b, log + [call], cs, i + 1, up))
            else goal == Raised(calls + [call], i)
  {
    var call := Made(b, log, cs[i], up);
    if call.outcome == Succeeded {
      var rest := RaiseFrom(b, log + [call], cs, i + 1, up);
      assert calls + ([call] + rest.calls) == calls + [call] + rest.calls;
    }
  }

  lemma {:induction false} LowerFromPrefix(b: Behaviour, log: Log, a: seq<Component>, c: seq<Component>, n: nat,
                                           down: Op)
    requires n <= |a| && n <= |c| && a[..n] == c[..n]
    ensures LowerFrom(b, log, a, n, down) == LowerFrom(b, log, c, n, down)
    decreases n
  {
    if n > 0 {
      assert a[n - 1] == a[..n][n - 1] == c[..n][n - 1] == c[n - 1];
      assert a[..n - 1] == a[..n][..n - 1] == c[..n][..n - 1] == c[..n - 1];
      LowerFromPrefix(b, log + [Made(b, log, a[n - 1], down)], a, c, n - 1, down);
    }
  }

  lemma {:induction false} FirstIsFound(es: seq<Entry>, iid: Iid, i: nat)
    requires i < |es| && es[i].iid == iid && forall j :: 0 <= j < i ==> es[j].iid != iid
    ensures Find(es, iid) == Some(i)
    decreases i
  {
    if i > 0 {
      FirstIsFound(es[1..], iid, i - 1);
    }
  }
}
