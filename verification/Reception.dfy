/** startBlockingReception and stopBlockingReception as two programs that interleave step by step:
    one start, and any number of stops on any threads (fep_fast_dds_simulation_bus.cpp). */
module Receptions {
  /** The next statement of the start. */
  datatype Pc =
    | CreateHolder     // the callback holder is set up
    | CheckCollection  // if (_data_access_collection)
    | SetReceiving     // _receiving = true
    | TestReceiving    // while (_receiving)
    | BuildWaitSet     // conditions are created and attached; may throw
    | ResetGuard       // _guard_condition.set_trigger_value(false)
    | RunCallback      // the holder is reset
    | TestGuard        // while (!_guard_condition.get_trigger_value())
    | Dispatch         // one wait and the delivery; exceptions are caught
    | Leave            // return or unwinding: the holder is destroyed
    | Done

  datatype State = State(pc: Pc, receiving: bool, guard: bool, armed: bool, callbackRuns: nat,
                         halfStops: nat, dispatches: nat)

  /** What the start finds: a data access collection, a callback. */
  datatype Setup = Setup(hasCollection: bool, hasCallback: bool)

  /** A step of the start, in which a statement that can throw does so if `throws`; or the first or the
      second statement of some stop. */
  datatype Step = Start(throws: bool) | StopFirst | StopSecond

  predicate Enabled(s: State, step: Step) {
    match step
    case Start(_) => !s.pc.Done?
    case StopFirst => true
    case StopSecond => s.halfStops > 0
  }

  function RunHolder(s: State): State {
    if s.armed then s.(armed := false, callbackRuns := s.callbackRuns + 1) else s
  }

  function StartStep(setup: Setup, s: State, throws: bool): State {
    match s.pc
    case CreateHolder => s.(pc := CheckCollection, armed := setup.hasCallback)
    case CheckCollection => s.(pc := if setup.hasCollection then SetReceiving else Leave)
    case SetReceiving => s.(pc := TestReceiving, receiving := true)
    case TestReceiving => s.(pc := if s.receiving then BuildWaitSet else Leave)
    case BuildWaitSet => s.(pc := if throws then Leave else ResetGuard)
    case ResetGuard => s.(pc := RunCallback, guard := false)
    case RunCallback => RunHolder(s).(pc := TestGuard)
    case TestGuard => s.(pc := if s.guard then Leave else Dispatch)
    case Dispatch => s.(pc := if throws then Leave else TestGuard, dispatches := s.dispatches + 1)
    case Leave => RunHolder(s).(pc := Done)
    case Done => s
  }

  function Next(setup: Setup, s: State, step: Step): State {
    match step
    case Start(throws) => StartStep(setup, s, throws)
    case StopFirst => s.(receiving := false, halfStops := s.halfStops + 1)
    case StopSecond => if s.halfStops > 0 then s.(guard := true, halfStops := s.halfStops - 1) else s
  }

  /** The flags may hold anything when the start begins. */
  function Initial(receiving: bool, guard: bool): State { State(CreateHolder, receiving, guard, false, 0, 0, 0) }

  /** The state after the first n steps of a run. */
  function At(setup: Setup, s: State, steps: seq<Step>, n: nat): State
    requires n <= |steps|
  {
    if n == 0 then s else Next(setup, At(setup, s, steps, n - 1), steps[n - 1])
  }

  /** Each of the first n steps can be taken where it stands. */
  predicate Possible(setup: Setup, s: State, steps: seq<Step>, n: nat)
    requires n <= |steps|
  {
    n == 0 || (Possible(setup, s, steps, n - 1) && Enabled(At(setup, s, steps, n - 1), steps[n - 1]))
  }

  // ----- the callback runs exactly once -----

  predicate HolderState(setup: Setup, s: State) {
    var owed := if setup.hasCallback then 1 else 0;
    match s.pc
    case CreateHolder => !s.armed && s.callbackRuns == 0
    case CheckCollection | SetReceiving | TestReceiving | BuildWaitSet | ResetGuard | RunCallback =>
      (s.armed <==> setup.hasCallback) && s.callbackRuns == 0
    case TestGuard | Dispatch => !s.armed && s.callbackRuns == owed
    case Leave => s.callbackRuns + (if s.armed then 1 else 0) == owed
    case Done => !s.armed && s.callbackRuns == owed
  }

  lemma {:induction false} HolderStateHolds(setup: Setup, s: State, steps: seq<Step>, n: nat)
    requires n <= |steps| && HolderState(setup, s)
    ensures HolderState(setup, At(setup, s, steps, n))
  {
    if n > 0 {
      HolderStateHolds(setup, s, steps, n - 1);
    }
  }

  /** In every interleaving the callback has run at most once at any time, and exactly once when the
      start has ended, on every way out: no collection, stopped before the loop, an exception while the
      wait set is built or during delivery, or a stop. While the start waits, it has already run. */
  lemma CallbackRunsExactlyOnce(setup: Setup, receiving: bool, guard: bool, steps: seq<Step>, n: nat)
    requires n <= |steps|
    ensures var s := At(setup, Initial(receiving, guard), steps, n);
            && s.callbackRuns <= 1
            && (s.pc.Done? || s.pc.TestGuard? || s.pc.Dispatch? ==>
                  s.callbackRuns == if setup.hasCallback then 1 else 0)
            && (!setup.hasCallback ==> s.callbackRuns == 0)
  {
    HolderStateHolds(setup, Initial(receiving, guard), steps, n);
  }

  // ----- no stop after the guard was reset is lost -----

  predicate PastReset(pc: Pc) { pc.RunCallback? || pc.TestGuard? || pc.Dispatch? || pc.Leave? || pc.Done? }

  /** Step r is the start's statement `pc`. */
  ghost predicate Executes(setup: Setup, s: State, steps: seq<Step>, r: nat, pc: Pc) {
    r < |steps| && steps[r].Start? && At(setup, s, steps, r).pc == pc
  }

  lemma StepPastReset(setup: Setup, s: State, step: Step)
    requires PastReset(s.pc) && Enabled(s, step)
    ensures var now := Next(setup, s, step); PastReset(now.pc) && (now.guard <==> s.guard || step == StopSecond)
  {
  }

  predicate StoppedWithin(steps: seq<Step>, r: nat, n: nat)
    requires n <= |steps|
  {
    exists j :: r < j < n && steps[j] == StopSecond
  }

  lemma StoppedWithinStep(steps: seq<Step>, r: nat, n: nat)
    requires r < n < |steps|
    ensures StoppedWithin(steps, r, n + 1) <==> StoppedWithin(steps, r, n) || steps[n] == StopSecond
  {
  }

  /** Once the start has reset the guard, the guard is set exactly if some stop has executed its second
      statement since. */
  lemma {:induction false} GuardIffStopAfterReset(setup: Setup, s: State, steps: seq<Step>, r: nat, n: nat)
    requires n <= |steps| && Possible(setup, s, steps, n) && Executes(setup, s, steps, r, ResetGuard) && r < n
    ensures PastReset(At(setup, s, steps, n).pc)
    ensures At(setup, s, steps, n).guard <==> StoppedWithin(steps, r, n)
    decreases n
  {
    if r + 1 < n {
      GuardIffStopAfterReset(setup, s, steps, r, n - 1);
      StepPastReset(setup, At(setup, s, steps, n - 1), steps[n - 1]);
      StoppedWithinStep(steps, r, n - 1);
    }
  }

  lemma {:induction false} PossiblePrefix(setup: Setup, s: State, steps: seq<Step>, n: nat, m: nat)
    requires n <= m <= |steps| && Possible(setup, s, steps, m)
    ensures Possible(setup, s, steps, n)
    decreases m
  {
    if n < m {
      PossiblePrefix(setup, s, steps, n, m - 1);
    }
  }

  /** So a stop whose second statement comes after the reset, hence every stop that completes after the
      callback, leaves the guard set for the rest of the run. */
  lemma StopIsNeverErased(setup: Setup, s: State, steps: seq<Step>, r: nat, n: nat, m: nat)
    requires r < n <= m <= |steps| && Possible(setup, s, steps, m) && Executes(setup, s, steps, r, ResetGuard)
    requires At(setup, s, steps, n).guard
    ensures At(setup, s, steps, m).guard
  {
    PossiblePrefix(setup, s, steps, n, m);
    GuardIffStopAfterReset(setup, s, steps, r, n);
    GuardIffStopAfterReset(setup, s, steps, r, m);
  }

  /** How many of its own steps a start past the reset still takes once the guard is set. */
  function Rank(pc: Pc): nat
    requires PastReset(pc)
  {
    match pc case Done => 0 case Leave => 1 case TestGuard => 2 case RunCallback => 3 case Dispatch => 3
  }

  /** How many of the first n steps are the start's. */
  function OwnSteps(steps: seq<Step>, n: nat): nat
    requires n <= |steps|
  {
    if n == 0 then 0 else OwnSteps(steps, n - 1) + (if steps[n - 1].Start? then 1 else 0)
  }

  lemma {:induction false} SetGuardCountsDown(setup: Setup, s: State, steps: seq<Step>, n: nat)
    requires s.guard && PastReset(s.pc) && n <= |steps| && Possible(setup, s, steps, n)
    ensures var now := At(setup, s, steps, n);
            && now.guard && PastReset(now.pc)
            && Rank(now.pc) + OwnSteps(steps, n) <= Rank(s.pc)
            && now.dispatches <= s.dispatches + (if s.pc.Dispatch? then 1 else 0)
            && (now.pc.Dispatch? ==> s.pc.Dispatch? && now.dispatches == s.dispatches)
  {
    if n > 0 {
      SetGuardCountsDown(setup, s, steps, n - 1);
    }
  }

  /** Once a stop after the reset has completed, the start ends after at most three more steps of its
      own, whatever other threads do meanwhile, and begins no further delivery. */
  lemma StopEndsTheStart(setup: Setup, s: State, steps: seq<Step>, n: nat)
    requires s.guard && PastReset(s.pc) && n <= |steps| && Possible(setup, s, steps, n)
    ensures OwnSteps(steps, n) <= 3
    ensures OwnSteps(steps, n) == 3 ==> At(setup, s, steps, n).pc == Done
    ensures At(setup, s, steps, n).dispatches <= s.dispatches + (if s.pc.Dispatch? then 1 else 0)
  {
    SetGuardCountsDown(setup, s, steps, n);
  }

  // ----- which earlier stops are lost -----

  predicate PastSetting(pc: Pc) { !pc.CreateHolder? && !pc.CheckCollection? && !pc.SetReceiving? }

  lemma StepPastSetting(setup: Setup, s: State, step: Step)
    requires PastSetting(s.pc)
    ensures var now := Next(setup, s, step);
            PastSetting(now.pc) && (now.receiving <==> s.receiving && step != StopFirst)
  {
  }

  lemma {:induction false} ReceivingIffNoStopSinceSet(setup: Setup, s: State, steps: seq<Step>, r: nat, n: nat)
    requires Executes(setup, s, steps, r, SetReceiving) && r < n <= |steps|
    ensures PastSetting(At(setup, s, steps, n).pc)
    ensures At(setup, s, steps, n).receiving <==> forall j :: r < j < n ==> steps[j] != StopFirst
  {
    var before := At(setup, s, steps, n - 1);
    if r + 1 < n {
      ReceivingIffNoStopSinceSet(setup, s, steps, r, n - 1);
      StepPastSetting(setup, before, steps[n - 1]);
    }
  }

  /** When the start tests the flag, it ends there if and only if some stop has executed its first
      statement since the flag was set. Stops before that, and stops that complete between this test and
      the reset of the guard, are the ones that are lost. */
  lemma EarlyStopIsSeenIff(setup: Setup, s: State, steps: seq<Step>, r: nat, t: nat)
    requires Executes(setup, s, steps, r, SetReceiving) && r < t && Executes(setup, s, steps, t, TestReceiving)
    ensures At(setup, s, steps, t + 1).pc == Leave <==> exists j :: r < j < t && steps[j] == StopFirst
  {
    ReceivingIffNoStopSinceSet(setup, s, steps, r, t);
  }

  /** The states of a run, written out. */
  ghost predicate IsTrace(setup: Setup, steps: seq<Step>, trace: seq<State>) {
    |trace| == |steps| + 1
    && forall k :: 0 <= k < |steps| ==> Enabled(trace[k], steps[k]) && trace[k + 1] == Next(setup, trace[k], steps[k])
  }

  lemma {:induction false} TraceIsRun(setup: Setup, steps: seq<Step>, trace: seq<State>, n: nat)
    requires n <= |steps| && IsTrace(setup, steps, trace)
    ensures Possible(setup, trace[0], steps, n) && At(setup, trace[0], steps, n) == trace[n]
    decreases n
  {
    if n > 0 {
      TraceIsRun(setup, steps, trace, n - 1);
    }
  }

  lemma TracesJoin(setup: Setup, a: seq<Step>, s: seq<State>, b: seq<Step>, t: seq<State>)
    requires IsTrace(setup, a, s) && IsTrace(setup, b, t) && s[|a|] == t[0]
    ensures IsTrace(setup, a + b, s + t[1..])
  {
  }

  /** The start up to the building of the wait set, and a whole stop there. */
  lemma StopDuringBuild(setup: Setup, receiving: bool, guard: bool) returns (steps: seq<Step>, trace: seq<State>)
    requires setup.hasCollection
    ensures |steps| == 6 && IsTrace(setup, steps, trace) && trace[0] == Initial(receiving, guard)
    ensures steps[4] == StopFirst && steps[5] == StopSecond
    ensures trace[4].pc == trace[5].pc == trace[6].pc == BuildWaitSet
  {
    var go := Start(false);
    var s0 := Initial(receiving, guard);
    var s1 := s0.(pc := CheckCollection, armed := setup.hasCallback);
    var s2 := s1.(pc := SetReceiving);
    var s3 := s2.(pc := TestReceiving, receiving := true);
    var s4 := s3.(pc := BuildWaitSet);
    var s5 := s4.(receiving := false, halfStops := 1);
    var s6 := s5.(guard := true, halfStops := 0);
    steps, trace := [go, go, go, go, StopFirst, StopSecond], [s0, s1, s2, s3, s4, s5, s6];
  }

  /** From there the start alone goes on to deliver. */
  lemma BuildGoesOnToDeliver(setup: Setup, s: State) returns (steps: seq<Step>, trace: seq<State>)
    requires s.pc == BuildWaitSet
    ensures |steps| == 4 && IsTrace(setup, steps, trace) && trace[0] == s && trace[4].pc == Dispatch
    ensures forall k :: 0 <= k < 4 ==> steps[k] == Start(false)
  {
    var go := Start(false);
    var s1 := s.(pc := ResetGuard);
    var s2 := s1.(pc := RunCallback, guard := false);
    var s3 := RunHolder(s2).(pc := TestGuard);
    steps, trace := [go, go, go, go], [s, s1, s2, s3, s3.(pc := Dispatch)];
  }

  /** A run from the very beginning in which a stop that completes between the test and the reset is lost:
      the start goes on to deliver, whatever the flags were. */
  lemma StopBeforeResetIsLost(setup: Setup, receiving: bool, guard: bool) returns (steps: seq<Step>)
    requires setup.hasCollection
    ensures var s, n := Initial(receiving, guard), |steps|;
            && n == 10 && Possible(setup, s, steps, n) && At(setup, s, steps, n).pc == Dispatch
            && steps[n - 6] == StopFirst && At(setup, s, steps, n - 6).pc == BuildWaitSet
            && steps[n - 5] == StopSecond && At(setup, s, steps, n - 5).pc == BuildWaitSet
  {
    var a, s := StopDuringBuild(setup, receiving, guard);
    var b, t := BuildGoesOnToDeliver(setup, s[6]);
    steps := a + b;
    TracesJoin(setup, a, s, b, t);
    TraceIsRun(setup, steps, s + t[1..], |steps|);
    TraceIsRun(setup, steps, s + t[1..], |steps| - 6);
    TraceIsRun(setup, steps, s + t[1..], |steps| - 5);
  }

  // ----- exactly which stops are honoured -----

  /** The start, left alone from here on, ends instead of delivering for ever. */
  predicate WillEnd(setup: Setup, s: State) {
    match s.pc
    case CreateHolder | CheckCollection => !setup.hasCollection
    case SetReceiving | BuildWaitSet | ResetGuard => false
    case TestReceiving => !s.receiving
    case RunCallback | TestGuard | Dispatch => s.guard
    case Leave | Done => true
  }

  /** k steps of the start without exceptions and without other threads. */
  function Alone(setup: Setup, s: State, k: nat): State
    decreases k
  {
    if k == 0 then s else Alone(setup, StartStep(setup, s, false), k - 1)
  }

  lemma {:induction false} AloneNeverEnds(setup: Setup, s: State, k: nat)
    requires !WillEnd(setup, s)
    ensures Alone(setup, s, k).pc != Done
    decreases k
  {
    if k > 0 {
      AloneNeverEnds(setup, StartStep(setup, s, false), k - 1);
    }
  }

  lemma {:induction false} AloneEnds(setup: Setup, s: State, k: nat)
    requires WillEnd(setup, s)
    requires k >= match s.pc case Done => 0 case Leave => 1
                             case CheckCollection | TestReceiving | TestGuard => 2 case _ => 3
    ensures Alone(setup, s, k).pc == Done
    decreases k
  {
    if k > 0 {
      AloneEnds(setup, StartStep(setup, s, false), k - 1);
    }
  }

  /** WillEnd means what it says: three steps are enough, or no number of steps is. */
  lemma WillEndIff(setup: Setup, s: State, k: nat)
    requires k >= 3
    ensures Alone(setup, s, k).pc == Done <==> WillEnd(setup, s)
  {
    if WillEnd(setup, s) {
      AloneEnds(setup, s, k);
    } else {
      AloneNeverEnds(setup, s, k);
    }
  }

  /** The first statement of a stop while the start stands at the test, or the second one after the reset. */
  predicate Honours(s: State, step: Step) {
    (step == StopFirst && s.pc == TestReceiving) || (step == StopSecond && PastReset(s.pc))
  }

  /** An exception while the wait set is built or during delivery. */
  predicate Fails(s: State, step: Step) { step == Start(true) && (s.pc == BuildWaitSet || s.pc == Dispatch) }

  ghost predicate EndedBy(setup: Setup, s: State, steps: seq<Step>, n: nat)
    requires n <= |steps|
  {
    exists j :: 0 <= j < n && Ends(At(setup, s, steps, j), steps[j])
  }

  predicate Ends(s: State, step: Step) { Honours(s, step) || Fails(s, step) }

  lemma EndedByStep(setup: Setup, s: State, steps: seq<Step>, n: nat)
    requires n < |steps|
    ensures EndedBy(setup, s, steps, n + 1)
       <==> EndedBy(setup, s, steps, n) || Ends(At(setup, s, steps, n), steps[n])
  {
    if EndedBy(setup, s, steps, n + 1) {
      var j :| 0 <= j < n + 1 && Ends(At(setup, s, steps, j), steps[j]);
    }
  }

  lemma WillEndStep(setup: Setup, s: State, step: Step)
    requires Enabled(s, step)
    ensures WillEnd(setup, Next(setup, s, step)) <==> WillEnd(setup, s) || Ends(s, step)
  {
  }

  /** After every run from the very beginning the start will end if and only if there is no collection, an
      exception has occurred, or a stop has executed its first statement at the test or its second
      statement after the reset. Every other stop is lost, whether it completes before the flag is set or
      between the test and the reset. */
  lemma {:induction false} StopsHonouredIff(setup: Setup, receiving: bool, guard: bool, steps: seq<Step>, n: nat)
    requires n <= |steps| && Possible(setup, Initial(receiving, guard), steps, n)
    ensures var s := Initial(receiving, guard);
            WillEnd(setup, At(setup, s, steps, n)) <==> !setup.hasCollection || EndedBy(setup, s, steps, n)
  {
    var s := Initial(receiving, guard);
    if n > 0 {
      StopsHonouredIff(setup, receiving, guard, steps, n - 1);
      WillEndStep(setup, At(setup, s, steps, n - 1), steps[n - 1]);
      EndedByStep(setup, s, steps, n - 1);
    }
  }
}
