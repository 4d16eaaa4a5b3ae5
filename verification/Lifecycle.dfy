/** The lifecycle transitions of the component registry as functions on the log of component calls
    (component_registry.cpp). Components are user code: what a call does is an arbitrary function of
    everything that was called before. */
module Lifecycles {
  /** A component is known by its address. */
  type Component = nat

  datatype Op = Create | Initialize | Tense | Start | Stop | Relax | Deinitialize | Destroy {
    predicate IsRaise() { Create? || Initialize? || Tense? || Start? }

    /** The lifecycle level a component must have, and the one it reaches. */
    function Source(): nat {
      match this
      case Create => 0 case Initialize => 1 case Tense => 2 case Start => 3
      case Stop => 4 case Relax => 3 case Deinitialize => 2 case Destroy => 1
    }

    function Target(): nat { if IsRaise() then Source() + 1 else Source() - 1 }

    /** The transition that takes a raise back. */
    function Reverse(): (r: Op)
      requires IsRaise()
      ensures !r.IsRaise() && r.Source() == Target() && r.Target() == Source()
    {
      match this
      case Create => Destroy case Initialize => Deinitialize case Tense => Relax case Start => Stop
    }
  }

  /** The levels a component passes on the way up, and what takes each step back. */
  lemma OrderOfTransitions()
    ensures Create.Source() == 0 && Create.Target() == Initialize.Source() == 1
    ensures Initialize.Target() == Tense.Source() == 2 && Tense.Target() == Start.Source() == 3 && Start.Target() == 4
    ensures Create.Reverse() == Destroy && Initialize.Reverse() == Deinitialize
    ensures Tense.Reverse() == Relax && Start.Reverse() == Stop
  {
  }

  datatype Outcome = Succeeded | Failed | Threw

  datatype Call = Call(component: Component, op: Op, outcome: Outcome)

  type Log = seq<Call>

  type Behaviour = (Log, Component, Op) -> Outcome

  function Made(b: Behaviour, log: Log, c: Component, op: Op): Call { Call(c, op, b(log, c, op)) }

  // ----- the transitions: the calls they add to the log -----

  /** Raises the components from `i` on until one does not succeed; `at` is that one, or the end. */
  datatype Raised = Raised(calls: Log, at: nat)

  function RaiseFrom(b: Behaviour, log: Log, cs: seq<Component>, i: nat, up: Op): (r: Raised)
    requires i <= |cs|
    ensures i <= r.at <= |cs|
    decreases |cs| - i
  {
    if i == |cs| then Raised([], i)
    else
      var call := Made(b, log, cs[i], up);
      if call.outcome == Succeeded then
        var rest := RaiseFrom(b, log + [call], cs, i + 1, up);
        Raised([call] + rest.calls, rest.at)
      else Raised([call], i)
  }

  /** Lowers components n-1, ..., 0, whatever they answer. */
  function LowerFrom(b: Behaviour, log: Log, cs: seq<Component>, n: nat, down: Op): Log
    requires n <= |cs|
    decreases n
  {
    if n == 0 then []
    else
      var call := Made(b, log, cs[n - 1], down);
      [call] + LowerFrom(b, log + [call], cs, n - 1, down)
  }

  datatype Transition = Transition(calls: Log, ok: bool)

  function Raise(b: Behaviour, log: Log, cs: seq<Component>, up: Op): Transition
    requires up.IsRaise()
  {
    var r := RaiseFrom(b, log, cs, 0, up);
    if r.at == |cs| then Transition(r.calls, true)
    else Transition(r.calls + LowerFrom(b, log + r.calls, cs, r.at, up.Reverse()), false)
  }

  predicate AllSucceeded(calls: Log) { forall i :: 0 <= i < |calls| ==> calls[i].outcome == Succeeded }

  function Lower(b: Behaviour, log: Log, cs: seq<Component>, down: Op): Transition {
    var calls := LowerFrom(b, log, cs, |cs|, down);
    Transition(calls, AllSucceeded(calls))
  }

  function Perform(b: Behaviour, log: Log, cs: seq<Component>, op: Op): Transition {
    if op.IsRaise() then Raise(b, log, cs, op) else Lower(b, log, cs, op)
  }

  // ----- which calls are made, in which order -----

  /** The calls without their outcomes. */
  function Steps(log: Log): (s: seq<(Component, Op)>)
    ensures |s| == |log|
  {
    seq(|log|, i requires 0 <= i < |log| => (log[i].component, log[i].op))
  }

  function InOrder(cs: seq<Component>, i: nat, n: nat, op: Op): (s: seq<(Component, Op)>)
    requires i <= n <= |cs|
    ensures |s| == n - i
  {
    seq(n - i, j requires 0 <= j < n - i => (cs[i + j], op))
  }

  function InReverse(cs: seq<Component>, n: nat, op: Op): (s: seq<(Component, Op)>)
    requires n <= |cs|
    ensures |s| == n
  {
    seq(n, j requires 0 <= j < n => (cs[n - 1 - j], op))
  }

  /** Raise was called on component i and those after it in order, up to the one at `r.at`, which is the
      only one that did not succeed. */
  ghost predicate RaisedInOrder(cs: seq<Component>, i: nat, r: Raised, up: Op)
    requires i <= r.at <= |cs|
  {
    && Steps(r.calls) == InOrder(cs, i, if r.at < |cs| then r.at + 1 else r.at, up)
    && |r.calls| == r.at - i + (if r.at < |cs| then 1 else 0)
    && AllSucceeded(r.calls[..r.at - i])
    && (r.at < |cs| ==> r.calls[r.at - i].outcome != Succeeded)
  }

  lemma RaisedStep(cs: seq<Component>, i: nat, call: Call, rest: Raised, up: Op)
    requires i < rest.at <= |cs| && RaisedInOrder(cs, i + 1, rest, up)
    requires call == Call(cs[i], up, Succeeded)
    ensures RaisedInOrder(cs, i, Raised([call] + rest.calls, rest.at), up)
  {
    var calls := [call] + rest.calls;
    assert calls[..rest.at - i] == [call] + rest.calls[..rest.at - i - 1];
    assert Steps(calls) == [(cs[i], up)] + Steps(rest.calls);
  }

  lemma {:induction false} RaiseFromCalls(b: Behaviour, log: Log, cs: seq<Component>, i: nat, up: Op)
    requires i <= |cs|
    ensures RaisedInOrder(cs, i, RaiseFrom(b, log, cs, i, up), up)
    decreases |cs| - i
  {
    if i < |cs| {
      var call := Made(b, log, cs[i], up);
      if call.outcome == Succeeded {
        RaiseFromCalls(b, log + [call], cs, i + 1, up);
        RaisedStep(cs, i, call, RaiseFrom(b, log + [call], cs, i + 1, up), up);
      }
    }
  }

  lemma {:induction false} LowerFromCalls(b: Behaviour, log: Log, cs: seq<Component>, n: nat, down: Op)
    requires n <= |cs|
    ensures Steps(LowerFrom(b, log, cs, n, down)) == InReverse(cs, n, down)
    decreases n
  {
    if n > 0 {
      var call := Made(b, log, cs[n - 1], down);
      LowerFromCalls(b, log + [call], cs, n - 1, down);
      var rest := LowerFrom(b, log + [call], cs, n - 1, down);
      assert Steps(LowerFrom(b, log, cs, n, down)) == [(cs[n - 1], down)] + Steps(rest);
    }
  }

  /** A raise that fails at component i calls raise on 0..i in order, of which exactly the last one does
      not succeed, and then the reverse step on exactly i-1..0, even if reverse steps fail or throw; a
      raise that succeeds calls raise on all components and nothing else. */
  lemma RaiseCalls(b: Behaviour, log: Log, cs: seq<Component>, up: Op)
    requires up.IsRaise()
    ensures var t, i := Raise(b, log, cs, up), RaiseFrom(b, log, cs, 0, up).at;
            if t.ok then i == |cs| && Steps(t.calls) == InOrder(cs, 0, |cs|, up) && AllSucceeded(t.calls)
            else i < |cs| && Steps(t.calls) == InOrder(cs, 0, i + 1, up) + InReverse(cs, i, up.Reverse())
                 && AllSucceeded(t.calls[..i]) && t.calls[i].outcome != Succeeded
  {
    var r := RaiseFrom(b, log, cs, 0, up);
    RaiseFromCalls(b, log, cs, 0, up);
    if r.at < |cs| {
      LowerFromCalls(b, log + r.calls, cs, r.at, up.Reverse());
      var fallback := LowerFrom(b, log + r.calls, cs, r.at, up.Reverse());
      assert Steps(r.calls + fallback) == Steps(r.calls) + Steps(fallback);
      assert (r.calls + fallback)[..r.at] == r.calls[..r.at];
    } else {
      assert r.calls[..r.at] == r.calls;
    }
  }

  /** A lowering transition visits every component exactly once in reverse registration order, whatever
      fails or throws, and reports success if and only if every component succeeded. */
  lemma LowerCalls(b: Behaviour, log: Log, cs: seq<Component>, down: Op)
    ensures var t := Lower(b, log, cs, down);
            && Steps(t.calls) == InReverse(cs, |cs|, down)
            && (t.ok <==> forall i :: 0 <= i < |cs| ==> t.calls[i].outcome == Succeeded)
  {
    LowerFromCalls(b, log, cs, |cs|, down);
    assert |Lower(b, log, cs, down).calls| == |Steps(Lower(b, log, cs, down).calls)|;
  }

  lemma StepsAt(calls: Log, k: nat)
    requires k < |calls|
    ensures Steps(calls)[k] == (calls[k].component, calls[k].op)
  {
  }

  lemma StepAt(cs: seq<Component>, i: nat, up: Op, k: nat)
    requires up.IsRaise() && i < |cs| && k < 2 * i + 1
    ensures var s := InOrder(cs, 0, i + 1, up) + InReverse(cs, i, up.Reverse());
            |s| == 2 * i + 1 && s[k] == if k <= i then (cs[k], up) else (cs[2 * i - k], up.Reverse())
  {
  }

  /** The k-th call of a raise, by index: component k is raised up to the failing one, i, and then component
      2i - k is taken back. */
  lemma RaiseCallAt(b: Behaviour, log: Log, cs: seq<Component>, up: Op, i: nat, calls: Log, k: nat)
    requires up.IsRaise() && calls == Raise(b, log, cs, up).calls && i == RaiseFrom(b, log, cs, 0, up).at
    requires k < |calls|
    ensures |calls| == if i == |cs| then |cs| else 2 * i + 1
    ensures if k <= i then k < |cs| && calls[k].component == cs[k] && calls[k].op == up
            else 0 <= 2 * i - k < |cs| && calls[k].component == cs[2 * i - k] && calls[k].op == up.Reverse()
  {
    RaiseCalls(b, log, cs, up);
    assert |calls| == |Steps(calls)|;
    StepsAt(calls, k);
    if i < |cs| {
      StepAt(cs, i, up, if k < 2 * i + 1 then k else 0);
    }
  }

  /** The k-th call of a lowering goes to the k-th component from the back. */
  lemma LowerCallAt(b: Behaviour, log: Log, cs: seq<Component>, down: Op, k: nat)
    requires k < |Lower(b, log, cs, down).calls|
    ensures var t := Lower(b, log, cs, down);
            |t.calls| == |cs| && t.calls[k].component == cs[|cs| - 1 - k] && t.calls[k].op == down
  {
    var t := Lower(b, log, cs, down);
    LowerCalls(b, log, cs, down);
    assert |t.calls| == |Steps(t.calls)|;
    StepsAt(t.calls, k);
  }

  // ----- lifecycle levels -----

  /** The level of a component: a call that does not succeed leaves its state unchanged. */
  function Level(c: Component, log: Log): nat {
    if log == [] then 0
    else
      var last := log[|log| - 1];
      if last.component == c && last.outcome == Succeeded then last.op.Target() else Level(c, log[..|log| - 1])
  }

  /** Components that never refuse a reverse step at its source level. */
  ghost predicate Reversible(b: Behaviour) {
    forall log: Log, c: Component, op: Op {:trigger b(log, c, op)} ::
      !op.IsRaise() && Level(c, log) == op.Source() ==> b(log, c, op) == Succeeded
  }

  /** Reversible components that, in addition, accept a step only from its source level. */
  ghost predicate WellBehaved(b: Behaviour) {
    Reversible(b)
    && forall log: Log, c: Component, op: Op {:trigger b(log, c, op)} ::
         b(log, c, op) == Succeeded ==> Level(c, log) == op.Source()
  }

  /** Such components exist. */
  lemma StrictComponentsAreWellBehaved()
    ensures WellBehaved((log: Log, c: Component, op: Op) => if Level(c, log) == op.Source() then Succeeded else Failed)
  {
  }

  lemma LevelAfter(log: Log, call: Call, d: Component)
    ensures Level(d, log + [call])
         == if d == call.component && call.outcome == Succeeded then call.op.Target() else Level(d, log)
  {
    assert (log + [call])[..|log|] == log;
  }

  ghost predicate Uniform(cs: seq<Component>, log: Log, level: nat) {
    forall i :: 0 <= i < |cs| ==> Level(cs[i], log) == level
  }

  predicate Distinct(cs: seq<Component>, n: nat)
    requires n <= |cs|
  {
    forall i, j :: 0 <= i < j < n ==> cs[i] != cs[j]
  }

  /** The first n components have left their old level for `to`; all others kept theirs. */
  ghost predicate Moved(cs: seq<Component>, n: nat, before: Log, now: Log, to: nat)
    requires n <= |cs|
  {
    forall c :: Level(c, now) == if c in cs[..n] then to else Level(c, before)
  }

  lemma MovedByCall(cs: seq<Component>, i: nat, before: Log, now: Log, call: Call)
    requires i < |cs| && call.component == cs[i] && Moved(cs, i, before, now, call.op.Target())
    ensures Moved(cs, if call.outcome == Succeeded then i + 1 else i, before, now + [call], call.op.Target())
  {
    assert cs[..i + 1] == cs[..i] + [cs[i]];
    forall c ensures Level(c, now + [call])
                  == if c == cs[i] && call.outcome == Succeeded then call.op.Target() else Level(c, now)
    {
      LevelAfter(now, call, c);
    }
  }

  lemma Appended(log: Log, calls: Log, more: Log, n: nat)
    requires n == |calls|
    ensures (calls + more)[n..] == more && log + (calls + more) == (log + calls) + more
  {
  }

  lemma {:induction false} RaiseMoves(b: Behaviour, cs: seq<Component>, i: nat, before: Log, now: Log, up: Op)
    requires i <= |cs| && Moved(cs, i, before, now, up.Target())
    ensures var r := RaiseFrom(b, now, cs, i, up); Moved(cs, r.at, before, now + r.calls, up.Target())
    decreases |cs| - i
  {
    if i < |cs| {
      var call := Made(b, now, cs[i], up);
      MovedByCall(cs, i, before, now, call);
      if call.outcome == Succeeded {
        RaiseMoves(b, cs, i + 1, before, now + [call], up);
        Appended(now, [call], RaiseFrom(b, now + [call], cs, i + 1, up).calls, 1);
      }
    } else {
      assert now + [] == now;
    }
  }

  /** A well-behaved component registered twice refuses the second raise, so those raised are distinct. */
  lemma {:induction false} RaisedAreDistinct(b: Behaviour, cs: seq<Component>, i: nat, before: Log, now: Log, up: Op)
    requires WellBehaved(b) && up.IsRaise() && i <= |cs|
    requires Moved(cs, i, before, now, up.Target()) && Distinct(cs, i)
    ensures Distinct(cs, RaiseFrom(b, now, cs, i, up).at)
    decreases |cs| - i
  {
    if i < |cs| {
      var call := Made(b, now, cs[i], up);
      if call.outcome == Succeeded {
        forall k | 0 <= k < i ensures cs[k] != cs[i] {
          assert cs[k] in cs[..i];
        }
        MovedByCall(cs, i, before, now, call);
        RaisedAreDistinct(b, cs, i + 1, before, now + [call], up);
      }
    }
  }

  /** What lowering does to the levels of distinct components, whatever each call answers. */
  lemma {:induction false} LowerLevels(b: Behaviour, cs: seq<Component>, n: nat, now: Log, down: Op)
    requires n <= |cs| && Distinct(cs, n)
    ensures var calls := LowerFrom(b, now, cs, n, down);
            && |calls| == n
            && (forall j :: 0 <= j < n ==>
                  Level(cs[j], now + calls)
                  == if calls[n - 1 - j].outcome == Succeeded then down.Target() else Level(cs[j], now))
            && (forall c :: c !in cs[..n] ==> Level(c, now + calls) == Level(c, now))
    decreases n
  {
    if n > 0 {
      var call := Made(b, now, cs[n - 1], down);
      var rest := LowerFrom(b, now + [call], cs, n - 1, down);
      LowerLevels(b, cs, n - 1, now + [call], down);
      assert now + ([call] + rest) == now + [call] + rest;
      assert cs[..n] == cs[..n - 1] + [cs[n - 1]];
      forall d ensures Level(d, now + [call])
                    == if d == cs[n - 1] && call.outcome == Succeeded then down.Target() else Level(d, now)
      {
        LevelAfter(now, call, d);
      }
    } else {
      assert now + [] == now;
    }
  }

  /** Reversible components that are all at the right level accept the reverse step. */
  lemma {:induction false} AllAccept(b: Behaviour, cs: seq<Component>, n: nat, now: Log, down: Op)
    requires Reversible(b) && !down.IsRaise() && n <= |cs| && Distinct(cs, n)
    requires forall j :: 0 <= j < n ==> Level(cs[j], now) == down.Source()
    ensures AllSucceeded(LowerFrom(b, now, cs, n, down))
    decreases n
  {
    if n > 0 {
      var call := Made(b, now, cs[n - 1], down);
      forall j | 0 <= j < n - 1 ensures Level(cs[j], now + [call]) == down.Source() {
        LevelAfter(now, call, cs[j]);
      }
      AllAccept(b, cs, n - 1, now + [call], down);
    }
  }

  /** Well-behaved components that are all at another level refuse it. */
  lemma {:induction false} AllRefuse(b: Behaviour, cs: seq<Component>, n: nat, now: Log, down: Op)
    requires WellBehaved(b) && n <= |cs|
    requires forall j :: 0 <= j < n ==> Level(cs[j], now) != down.Source()
    ensures forall c :: Level(c, now + LowerFrom(b, now, cs, n, down)) == Level(c, now)
    ensures n > 0 ==> !AllSucceeded(LowerFrom(b, now, cs, n, down))
    decreases n
  {
    if n > 0 {
      var call := Made(b, now, cs[n - 1], down);
      var rest := LowerFrom(b, now + [call], cs, n - 1, down);
      forall c ensures Level(c, now + [call]) == Level(c, now) {
        LevelAfter(now, call, c);
      }
      AllRefuse(b, cs, n - 1, now + [call], down);
      assert now + ([call] + rest) == now + [call] + rest;
      assert ([call] + rest)[0] == call;
    } else {
      assert now + [] == now;
    }
  }

  lemma NothingMovedYet(cs: seq<Component>, log: Log, to: nat)
    ensures Moved(cs, 0, log, log, to)
  {
    assert cs[..0] == [];
  }

  /** A raise over well-behaved components that all sit at one level is all-or-nothing, and it succeeds
      only from the level it starts at. Nothing needs to be assumed about distinct addresses. */
  lemma RaiseIsAtomic(b: Behaviour, log: Log, cs: seq<Component>, up: Op, level: nat)
    requires WellBehaved(b) && up.IsRaise() && Uniform(cs, log, level)
    ensures var t := Raise(b, log, cs, up);
            Uniform(cs, log + t.calls, if t.ok then up.Target() else level)
    ensures var t := Raise(b, log, cs, up); t.ok && cs != [] ==> level == up.Source() && Distinct(cs, |cs|)
  {
    var r := RaiseFrom(b, log, cs, 0, up);
    NothingMovedYet(cs, log, up.Target());
    RaiseMoves(b, cs, 0, log, log, up);
    RaisedAreDistinct(b, cs, 0, log, log, up);
    RaiseFromCalls(b, log, cs, 0, up);
    var now := log + r.calls;
    forall j | 0 <= j < r.at ensures Level(cs[j], now) == up.Target() {
      assert cs[j] in cs[..r.at];
    }
    if r.at > 0 {
      assert r.calls[..r.at][0].outcome == Succeeded;
    }
    if r.at < |cs| {
      FallbackRestores(b, log, cs, r.at, now, up, level);
      var fallback := LowerFrom(b, now, cs, r.at, up.Reverse());
      assert log + (r.calls + fallback) == now + fallback;
    }
  }

  lemma FallbackRestores(b: Behaviour, log: Log, cs: seq<Component>, n: nat, now: Log, up: Op, level: nat)
    requires Reversible(b) && up.IsRaise() && n <= |cs| && Distinct(cs, n)
    requires Uniform(cs, log, level) && Moved(cs, n, log, now, up.Target()) && (n > 0 ==> level == up.Source())
    ensures Uniform(cs, now + LowerFrom(b, now, cs, n, up.Reverse()), level)
  {
    var down := up.Reverse();
    var calls := LowerFrom(b, now, cs, n, down);
    forall j | 0 <= j < n ensures Level(cs[j], now) == down.Source() {
      assert cs[j] in cs[..n];
    }
    AllAccept(b, cs, n, now, down);
    LowerLevels(b, cs, n, now, down);
    forall i | 0 <= i < |cs| ensures Level(cs[i], now + calls) == level {
      if cs[i] in cs[..n] {
        var j :| 0 <= j < n && cs[j] == cs[i];
        assert calls[n - 1 - j].outcome == Succeeded;
      }
    }
  }

  /** Lowering well-behaved distinct components from one level: all go down and the call succeeds, or,
      from any other level, all stay and the call fails. */
  lemma LowerIsAtomic(b: Behaviour, log: Log, cs: seq<Component>, down: Op, level: nat)
    requires WellBehaved(b) && !down.IsRaise() && Distinct(cs, |cs|) && Uniform(cs, log, level) && cs != []
    ensures var t := Lower(b, log, cs, down);
            && Uniform(cs, log + t.calls, if t.ok then down.Target() else level)
            && (t.ok <==> level == down.Source())
  {
    if level == down.Source() {
      AllAccept(b, cs, |cs|, log, down);
      LowerLevels(b, cs, |cs|, log, down);
    } else {
      AllRefuse(b, cs, |cs|, log, down);
    }
  }

  /** The log after a run of transitions. */
  function RunLog(b: Behaviour, log: Log, cs: seq<Component>, ops: seq<Op>): Log
    decreases |ops|
  {
    if ops == [] then log else RunLog(b, log + Perform(b, log, cs, ops[0]).calls, cs, ops[1..])
  }

  /** The level after a run, if every transition either takes all components along or none. */
  function RunLevel(b: Behaviour, log: Log, cs: seq<Component>, ops: seq<Op>, level: nat): nat
    decreases |ops|
  {
    if ops == [] then level
    else
      var t := Perform(b, log, cs, ops[0]);
      RunLevel(b, log + t.calls, cs, ops[1..], if t.ok then ops[0].Target() else level)
  }

  /** Over every run of lifecycle calls, in any order, distinct well-behaved components sit at one level
      together: the target of the last transition that succeeded. (Every prefix of a run is a run, so
      this holds after each call.) */
  lemma {:induction false} OneLevelOverRuns(b: Behaviour, log: Log, cs: seq<Component>, ops: seq<Op>, level: nat)
    requires WellBehaved(b) && Distinct(cs, |cs|) && Uniform(cs, log, level)
    ensures Uniform(cs, RunLog(b, log, cs, ops), RunLevel(b, log, cs, ops, level))
    decreases |ops|
  {
    if ops != [] {
      var op := ops[0];
      var t := Perform(b, log, cs, op);
      if op.IsRaise() {
        RaiseIsAtomic(b, log, cs, op, level);
      } else if cs != [] {
        LowerIsAtomic(b, log, cs, op, level);
      }
      OneLevelOverRuns(b, log + t.calls, cs, ops[1..], if t.ok then op.Target() else level);
    }
  }

  // ----- components that check nothing, called from the right level -----

  lemma StepFromSource(b: Behaviour, log: Log, cs: seq<Component>, op: Op)
    requires Reversible(b) && Distinct(cs, |cs|) && Uniform(cs, log, op.Source())
    ensures var t := Perform(b, log, cs, op);
            Uniform(cs, log + t.calls, if t.ok then op.Target() else op.Source()) && (t.ok || op.IsRaise())
  {
    if op.IsRaise() {
      var r := RaiseFrom(b, log, cs, 0, op);
      NothingMovedYet(cs, log, op.Target());
      RaiseMoves(b, cs, 0, log, log, op);
      if r.at < |cs| {
        FallbackRestores(b, log, cs, r.at, log + r.calls, op, op.Source());
        Appended(log, r.calls, LowerFrom(b, log + r.calls, cs, r.at, op.Reverse()), |r.calls|);
      } else {
        assert cs[..|cs|] == cs;
      }
    } else {
      AllAccept(b, cs, |cs|, log, op);
      LowerLevels(b, cs, |cs|, log, op);
    }
  }

  /** Every transition of the run is asked for at its source level. */
  ghost predicate FromSource(b: Behaviour, log: Log, cs: seq<Component>, ops: seq<Op>, level: nat)
    decreases |ops|
  {
    ops != [] ==>
      var op, t := ops[0], Perform(b, log, cs, ops[0]);
      op.Source() == level && FromSource(b, log + t.calls, cs, ops[1..], if t.ok then op.Target() else level)
  }

  /** For components of which only the reverse steps are known to succeed, the same over every run that
      asks for each transition at its source level. */
  lemma {:induction false} OneLevelOverOrderlyRuns(b: Behaviour, log: Log, cs: seq<Component>, ops: seq<Op>, level: nat)
    requires Reversible(b) && Distinct(cs, |cs|) && Uniform(cs, log, level) && FromSource(b, log, cs, ops, level)
    ensures Uniform(cs, RunLog(b, log, cs, ops), RunLevel(b, log, cs, ops, level))
    decreases |ops|
  {
    if ops != [] {
      var t := Perform(b, log, cs, ops[0]);
      StepFromSource(b, log, cs, ops[0]);
      OneLevelOverOrderlyRuns(b, log + t.calls, cs, ops[1..], if t.ok then ops[0].Target() else level);
    }
  }

  lemma FallbackIff(b: Behaviour, cs: seq<Component>, n: nat, before: Log, now: Log, up: Op)
    requires up.IsRaise() && n <= |cs| && Distinct(cs, |cs|)
    requires Uniform(cs, before, up.Source()) && Moved(cs, n, before, now, up.Target())
    ensures var fallback := LowerFrom(b, now, cs, n, up.Reverse());
            Uniform(cs, now + fallback, up.Source()) <==> AllSucceeded(fallback)
  {
    var fallback := LowerFrom(b, now, cs, n, up.Reverse());
    LowerLevels(b, cs, n, now, up.Reverse());
    forall i | 0 <= i < |cs|
      ensures Level(cs[i], now + fallback) == up.Source() <==> i >= n || fallback[n - 1 - i].outcome == Succeeded
    {
      if i < n {
        assert cs[i] in cs[..n];
      }
    }
    if Uniform(cs, now + fallback, up.Source()) {
      forall k | 0 <= k < n ensures fallback[k].outcome == Succeeded {
        assert Level(cs[n - 1 - k], now + fallback) == up.Source();
      }
    }
  }

  lemma FailedFallbackIff(b: Behaviour, log: Log, cs: seq<Component>, up: Op, r: Raised, now: Log)
    requires up.IsRaise() && Distinct(cs, |cs|) && Uniform(cs, log, up.Source())
    requires r == RaiseFrom(b, log, cs, 0, up) && now == log + r.calls && r.at < |cs|
    ensures var fallback := LowerFrom(b, now, cs, r.at, up.Reverse());
            Uniform(cs, now + fallback, up.Source()) <==> AllSucceeded(fallback)
  {
    NothingMovedYet(cs, log, up.Target());
    RaiseMoves(b, cs, 0, log, log, up);
    FallbackIff(b, cs, r.at, log, now, up);
  }

  /** For arbitrary components, a failed raise is undone if and only if every reverse step succeeds. */
  lemma FailedRaiseIsUndoneIff(b: Behaviour, log: Log, cs: seq<Component>, up: Op)
    requires up.IsRaise() && Distinct(cs, |cs|) && Uniform(cs, log, up.Source()) && !Raise(b, log, cs, up).ok
    ensures var t, i := Raise(b, log, cs, up), RaiseFrom(b, log, cs, 0, up).at;
            i < |t.calls| && (Uniform(cs, log + t.calls, up.Source()) <==> AllSucceeded(t.calls[i + 1..]))
  {
    var r := RaiseFrom(b, log, cs, 0, up);
    var now := log + r.calls;
    var fallback := LowerFrom(b, now, cs, r.at, up.Reverse());
    RaiseFromCalls(b, log, cs, 0, up);
    FailedFallbackIff(b, log, cs, up, r, now);
    Appended(log, r.calls, fallback, r.at + 1);
  }
}
