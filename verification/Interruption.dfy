/** The two rings that interrupt a guest, and the memory limiter, as used by `execute`,
    `execute_invoke` and, without a cancel flag, by the dispatcher's `call_with_guards`.

    One run is a step system over explicit time in milliseconds. The epoch ring acts only while
    the guest runs wasm: once its deadline has passed, the callback fires at the next branch
    point, so time cannot pass before it. The watchdog acts only when the run future gives way,
    which it does while the guest is parked in a host call and at each yield of the epoch ring.
    Its first sleep starts when it is first polled. */
module Interruption {
  import opened Common

  const EPOCH_TICK: nat := 100

  // ---------------------------------------------------------------- memory limiter

  class WorkflowLimiter {
    const maxMemoryBytes: nat
    var memoryPeakBytes: nat
    var deniedMemoryGrow: bool
    ghost var requests: seq<nat>

    ghost predicate Valid()
      reads this
    {
      LimiterIs(maxMemoryBytes, requests, memoryPeakBytes, deniedMemoryGrow)
    }

    constructor(maxMemoryBytes: nat)
      ensures this.maxMemoryBytes == maxMemoryBytes && Valid() && requests == []
    {
      this.maxMemoryBytes := maxMemoryBytes;
      memoryPeakBytes, deniedMemoryGrow, requests := 0, false, [];
    }

    method MemoryGrowing(desired: nat) returns (granted: bool)
      requires Valid()
      modifies this
      ensures Valid() && requests == old(requests) + [desired]
      ensures granted <==> desired <= maxMemoryBytes
    {
      GrowKeepsLimiter(maxMemoryBytes, requests, memoryPeakBytes, deniedMemoryGrow, desired);
      requests := requests + [desired];
      if desired > maxMemoryBytes {
        deniedMemoryGrow := true;
        return false;
      }
      if desired > memoryPeakBytes {
        memoryPeakBytes := desired;
      }
      return true;
    }
  }

  /** The peak is the largest granted growth, hence within the cap, and a denial is on record
      exactly when some request was over the cap. */
  ghost predicate LimiterIs(cap: nat, requests: seq<nat>, peak: nat, denied: bool) {
    && peak <= cap
    && (peak == 0 || peak in requests)
    && (forall r :: r in requests && r <= cap ==> r <= peak)
    && (denied <==> exists r :: r in requests && r > cap)
  }

  function Peak(cap: nat, peak: nat, desired: nat): nat {
    if desired <= cap && desired > peak then desired else peak
  }

  lemma GrowKeepsLimiter(cap: nat, requests: seq<nat>, peak: nat, denied: bool, desired: nat)
    requires LimiterIs(cap, requests, peak, denied)
    ensures LimiterIs(cap, requests + [desired], Peak(cap, peak, desired), denied || desired > cap)
  {
    var after := requests + [desired];
    assert forall r :: r in after <==> r in requests || r == desired;
    if desired > cap {
      assert desired in after;
    }
  }

  // ---------------------------------------------------------------- one run

  datatype Termination = Timeout | Cancelled

  datatype Guest = InWasm | InHost

  /** How the select ended: the run future finished, or the watchdog did. */
  datatype RunEnd = Returned(ok: bool) | Trapped | Dropped(reason: Termination)

  /** Fixed inputs of a run. */
  datatype Spec = Spec(started: int, timeout: nat, cancellable: bool, maxMemoryBytes: nat)

  /** `epochArmed` and `watchArmed` are when each ring was last set; `firstPoll` is when the
      watchdog was first polled, `None` before that. */
  datatype State = State(
    now: int,
    cancelledAt: Option<int>,
    guest: Guest,
    epochArmed: int, epochDue: int,
    firstPoll: Option<int>, watchArmed: int,
    marker: Option<Termination>,
    requests: seq<nat>, peak: nat, denied: bool,
    ended: Option<RunEnd>)

  datatype Action =
    | Pass(ms: nat)
    | RaiseCancel
    | EnterHost
    | EnterWasm
    | Grow(desired: nat)
    | Return(ok: bool)
    | Trap
    /** `next` is when the ticker advances the epoch again. */
    | EpochCallback(next: int)
    | FirstPoll
    | Watchdog

  predicate Flagged(s: State) { s.cancelledAt.Some? }

  predicate Spent(spec: Spec, s: State) { s.now - spec.started >= spec.timeout }

  function WatchDue(s: State): int { s.watchArmed + EPOCH_TICK }

  predicate MayPass(s: State, ms: nat) {
    if s.guest.InWasm? then s.now + ms <= s.epochDue
    else s.firstPoll.Some? && s.now + ms <= WatchDue(s)
  }

  function Polled(s: State): State {
    if s.firstPoll.Some? then s else s.(firstPoll := Some(s.now), watchArmed := s.now)
  }

  /** An action that is not possible in a state changes nothing; nothing happens after the end. */
  function Step(spec: Spec, s: State, a: Action): State {
    if s.ended.Some? then s else
    match a
    case Pass(ms) => if MayPass(s, ms) then s.(now := s.now + ms) else s
    case RaiseCancel =>
      if spec.cancellable && !Flagged(s) then s.(cancelledAt := Some(s.now)) else s
    case EnterHost => s.(guest := InHost)
    case EnterWasm => s.(guest := InWasm)
    case Grow(desired) =>
      s.(requests := s.requests + [desired],
         peak := Peak(spec.maxMemoryBytes, s.peak, desired),
         denied := s.denied || desired > spec.maxMemoryBytes)
    case Return(ok) => s.(ended := Some(Returned(ok)))
    case Trap => s.(ended := Some(Trapped))
    case EpochCallback(next) =>
      if s.guest.InHost? || s.now < s.epochDue || !(s.now < next <= s.now + EPOCH_TICK) then s
      else if Flagged(s) then s.(marker := Some(Cancelled), ended := Some(Trapped))
      else if Spent(spec, s) then s.(marker := Some(Timeout), ended := Some(Trapped))
      else Polled(s).(epochArmed := s.now, epochDue := next)
    case FirstPoll => Polled(s)
    case Watchdog =>
      if s.firstPoll.None? || s.now < WatchDue(s) then s
      else if Flagged(s) then s.(ended := Some(Dropped(Cancelled)))
      else if Spent(spec, s) then s.(ended := Some(Dropped(Timeout)))
      else s.(watchArmed := s.now)
  }

  /** A run just started; the first epoch tick comes within one period. */
  predicate Initial(spec: Spec, s: State) {
    && s.now == spec.started == s.epochArmed == s.watchArmed
    && s.now < s.epochDue <= s.now + EPOCH_TICK
    && s.cancelledAt.None? && s.firstPoll.None? && s.marker.None? && s.ended.None?
    && s.requests == [] && s.peak == 0 && !s.denied
  }

  function Run(spec: Spec, s: State, actions: seq<Action>): State
    decreases actions
  {
    if actions == [] then s else Run(spec, Step(spec, s, actions[0]), actions[1..])
  }

  // ---------------------------------------------------------------- punctuality

  /** The moment at which the run should stop: budget spent or flag raised, whichever is first. */
  function StopTime(spec: Spec, s: State): int {
    var budget := spec.started + spec.timeout;
    if s.cancelledAt.Some? && s.cancelledAt.value < budget then s.cancelledAt.value else budget
  }

  function Max(a: int, b: int): int { if a >= b then a else b }

  function Bound(spec: Spec, s: State): int {
    Max(StopTime(spec, s), if s.firstPoll.Some? then s.firstPoll.value else spec.started) + EPOCH_TICK
  }

  ghost predicate Inv(spec: Spec, s: State) {
    && spec.started <= s.now
    && (s.cancelledAt.Some? ==> spec.cancellable && spec.started <= s.cancelledAt.value <= s.now)
    && LimiterIs(spec.maxMemoryBytes, s.requests, s.peak, s.denied)
    && (s.firstPoll.Some? ==>
          spec.started <= s.firstPoll.value <= spec.started + EPOCH_TICK && s.firstPoll.value <= s.now)
    && s.now <= Bound(spec, s)
    && (s.ended.None? ==>
          && s.marker.None?
          && s.epochArmed <= s.now && s.epochArmed <= StopTime(spec, s)
          && s.epochDue <= s.epochArmed + EPOCH_TICK
          && (s.firstPoll.None? ==> s.now <= s.epochDue && s.epochArmed == spec.started)
          && (s.firstPoll.Some? ==>
                s.watchArmed <= s.now && s.watchArmed <= Max(StopTime(spec, s), s.firstPoll.value)))
    && (s.ended.Some? ==> Justified(spec, s))
  }

  /** What each way of ending says about the run so far. */
  ghost predicate Justified(spec: Spec, s: State)
    requires s.ended.Some?
  {
    && (s.marker.Some? ==> s.ended.value.Trapped?)
    && (s.marker == Some(Timeout) || s.ended.value == Dropped(Timeout) ==> Spent(spec, s))
    && (s.marker == Some(Cancelled) || s.ended.value == Dropped(Cancelled) ==> Flagged(s))
  }

  lemma StepKeepsInv(spec: Spec, s: State, a: Action)
    requires Inv(spec, s)
    ensures Inv(spec, Step(spec, s, a))
  {
    if a.Grow? {
      GrowKeepsLimiter(spec.maxMemoryBytes, s.requests, s.peak, s.denied, a.desired);
    }
  }

  lemma {:induction false} InvHolds(spec: Spec, s: State, actions: seq<Action>)
    requires Inv(spec, s)
    ensures Inv(spec, Run(spec, s, actions))
    decreases actions
  {
    if actions == [] {
    } else {
      StepKeepsInv(spec, s, actions[0]);
      InvHolds(spec, Step(spec, s, actions[0]), actions[1..]);
    }
  }

  /** For every guest behaviour: a run that is still going, or has ended, is never more than two ticks
      past its stop time, and never more than one if that lies a tick or more after the start, or if
      the watchdog was polled by then. */
  lemma EndsOnTime(spec: Spec, s0: State, actions: seq<Action>)
    requires Initial(spec, s0)
    ensures var s := Run(spec, s0, actions);
            && s.now <= StopTime(spec, s) + 2 * EPOCH_TICK
            && (StopTime(spec, s) >= spec.started + EPOCH_TICK ==> s.now <= StopTime(spec, s) + EPOCH_TICK)
            && (s.firstPoll.None? || s.firstPoll.value <= StopTime(spec, s) ==>
                  s.now <= StopTime(spec, s) + EPOCH_TICK)
  {
    assert Inv(spec, s0);
    InvHolds(spec, s0, actions);
  }

  /** The stop times a run can have: the end of the budget, or a cancellation before it. */
  predicate MayStopAt(spec: Spec, stop: int) {
    var budget := spec.started + spec.timeout;
    stop == budget || (spec.cancellable && spec.started <= stop < budget)
  }

  /** Where an initial guest runs wasm, with a whole tick before its first epoch deadline. */
  function Fresh(spec: Spec): State {
    State(spec.started, None, InWasm, spec.started, spec.started + EPOCH_TICK, None, spec.started, None,
          [], 0, false, None)
  }

  /** The guest runs wasm for the whole first tick, during which it should have stopped, and then parks
      in a host call, where the watchdog first has to sleep a tick. */
  function Overrun(spec: Spec, stop: int): seq<Action>
    requires spec.started <= stop <= spec.started + EPOCH_TICK
  {
    [Pass(stop - spec.started), RaiseCancel, Pass(spec.started + EPOCH_TICK - stop),
     EnterHost, FirstPoll, Pass(EPOCH_TICK)]
  }

  /** The second tick is real: for every early stop time, whether by budget or by cancellation, there is
      a guest that outlives it by more than one tick. */
  lemma SecondTickIsReal(spec: Spec, stop: int)
    requires MayStopAt(spec, stop) && stop < spec.started + EPOCH_TICK
    ensures Initial(spec, Fresh(spec))
    ensures var s := Run(spec, Fresh(spec), Overrun(spec, stop));
            StopTime(spec, s) == stop && s.ended.None? && s.now > stop + EPOCH_TICK
  {
    var all := Overrun(spec, stop);
    var s0 := Fresh(spec);
    var s1 := Step(spec, s0, all[0]);
    var s2 := Step(spec, s1, all[1]);
    var s3 := Step(spec, s2, all[2]);
    RunThree(spec, s0, all);
    var s4 := Step(spec, s3, all[3]);
    var s5 := Step(spec, s4, all[4]);
    var s6 := Step(spec, s5, all[5]);
    RunThree(spec, s3, all[3..]);
    assert all[3..][3..] == [];
    assert s6.now == spec.started + 2 * EPOCH_TICK;
  }

  lemma RunThree(spec: Spec, s: State, actions: seq<Action>)
    requires |actions| >= 3
    ensures Run(spec, s, actions)
            == Run(spec, Step(spec, Step(spec, Step(spec, s, actions[0]), actions[1]), actions[2]), actions[3..])
  {
    var s1 := Step(spec, s, actions[0]);
    var s2 := Step(spec, s1, actions[1]);
    assert actions[1..][1..] == actions[2..] && actions[2..][1..] == actions[3..];
    assert Run(spec, s, actions) == Run(spec, s1, actions[1..]);
    assert Run(spec, s1, actions[1..]) == Run(spec, s2, actions[2..]);
  }

  /** Every run that should stop at `stop` does so within one tick. */
  ghost predicate StopsWithinATick(spec: Spec, stop: int) {
    forall s0, actions :: Initial(spec, s0) && StopTime(spec, Run(spec, s0, actions)) == stop ==>
      Run(spec, s0, actions).now <= stop + EPOCH_TICK
  }

  /** One tick is enough for a stop time exactly when that lies a tick or more after the start. */
  lemma OneTickIffStopsLate(spec: Spec, stop: int)
    requires MayStopAt(spec, stop)
    ensures StopsWithinATick(spec, stop) <==> stop >= spec.started + EPOCH_TICK
  {
    if stop >= spec.started + EPOCH_TICK {
      forall s0, actions | Initial(spec, s0) && StopTime(spec, Run(spec, s0, actions)) == stop
        ensures Run(spec, s0, actions).now <= stop + EPOCH_TICK
      {
        EndsOnTime(spec, s0, actions);
      }
    } else {
      SecondTickIsReal(spec, stop);
    }
  }

  /** All runs of a call end within one tick of their stop time exactly when the call cannot be
      cancelled and its budget is a tick or more. */
  lemma OneTickIff(spec: Spec)
    ensures (forall s0, actions :: Initial(spec, s0) ==>
               Run(spec, s0, actions).now <= StopTime(spec, Run(spec, s0, actions)) + EPOCH_TICK)
            <==> !spec.cancellable && spec.timeout >= EPOCH_TICK
  {
    if !spec.cancellable && spec.timeout >= EPOCH_TICK {
      forall s0, actions | Initial(spec, s0)
        ensures Run(spec, s0, actions).now <= StopTime(spec, Run(spec, s0, actions)) + EPOCH_TICK
      {
        assert Inv(spec, s0);
        InvHolds(spec, s0, actions);
      }
    } else {
      var stop := if spec.timeout < EPOCH_TICK then spec.started + spec.timeout else spec.started;
      SecondTickIsReal(spec, stop);
    }
  }

  /** Time is never stuck without cause: past the stop time, when the ring in charge of the
      guest's mode holds time back, that ring's next step ends the run. */
  lemma BlockedTimeMeansTheRingEndsIt(spec: Spec, s: State)
    requires Inv(spec, s) && s.ended.None? && s.now >= StopTime(spec, s)
    requires !MayPass(s, 1) && (s.guest.InHost? ==> s.firstPoll.Some?)
    ensures Step(spec, s, if s.guest.InWasm? then EpochCallback(s.now + 1) else Watchdog).ended.Some?
  {
  }

  /** Before it, that ring's next step lets time go on. */
  lemma RingLetsTimePass(spec: Spec, s: State)
    requires Inv(spec, s) && s.ended.None? && s.now < StopTime(spec, s)
    requires !MayPass(s, 1) && (s.guest.InHost? ==> s.firstPoll.Some?)
    ensures var s' := Step(spec, s, if s.guest.InWasm? then EpochCallback(s.now + EPOCH_TICK) else Watchdog);
            s'.ended.None? && s'.guest == s.guest && MayPass(s', EPOCH_TICK)
  {
  }

  // ---------------------------------------------------------------- classification

  datatype Exit = Completed | GuestError | MemoryLimit | Failed | TimedOut | WasCancelled

  /** The match at the end of `execute` (`execute_invoke` differs only in what it carries). */
  function Classify(s: State): Exit
    requires s.ended.Some?
  {
    match s.ended.value
    case Dropped(Timeout) => TimedOut
    case Dropped(Cancelled) => WasCancelled
    case Returned(ok) => if ok then Completed else GuestError
    case Trapped =>
      match s.marker
      case Some(Timeout) => TimedOut
      case Some(Cancelled) => WasCancelled
      case None => if s.denied then MemoryLimit else Failed
  }

  datatype GuardOutcome = GuestReturned | GuestTrapped | GuardTimedOut

  /** The end of the dispatcher's `call_with_guards`. */
  function Guarded(s: State): GuardOutcome
    requires s.ended.Some?
  {
    match s.ended.value
    case Returned(_) => GuestReturned
    case Dropped(_) => GuardTimedOut
    case Trapped => if s.marker == Some(Timeout) then GuardTimedOut else GuestTrapped
  }

  /** In every run, whatever the guest does: a timeout is reported only once the budget has elapsed,
      a cancellation only once the flag was raised, a memory-limit failure only if a grow was
      denied; a plain failure only if none was and nobody interrupted; and the reported peak is the
      largest granted growth and within the cap. */
  lemma ExitIsJustified(spec: Spec, s0: State, actions: seq<Action>)
    requires Initial(spec, s0)
    ensures var s := Run(spec, s0, actions);
            && LimiterIs(spec.maxMemoryBytes, s.requests, s.peak, s.denied)
            && (s.ended.Some? ==>
                  && (Classify(s) == TimedOut ==> s.now >= spec.started + spec.timeout)
                  && (Classify(s) == WasCancelled ==>
                        spec.cancellable && s.cancelledAt.Some? && s.cancelledAt.value <= s.now)
                  && (Classify(s) == MemoryLimit ==> exists r :: r in s.requests && r > spec.maxMemoryBytes)
                  && (Classify(s) == Failed ==> s.marker.None? && forall r :: r in s.requests ==> r <= s.peak)
                  && (Classify(s) == Completed || Classify(s) == GuestError <==> s.ended.value.Returned?))
  {
    assert Inv(spec, s0);
    InvHolds(spec, s0, actions);
  }

  /** What each exit means, by the event that ends a running guest. */
  ghost predicate ExitFits(spec: Spec, s: State, a: Action, exit: Exit) {
    var ring := a.EpochCallback? || a.Watchdog?;
    && (exit == Completed <==> a == Return(true))
    && (exit == GuestError <==> a == Return(false))
    && (exit == WasCancelled <==> ring && s.cancelledAt.Some?)
    && (exit == TimedOut <==> ring && s.cancelledAt.None?)
    && (exit == MemoryLimit <==> a == Trap && exists r :: r in s.requests && r > spec.maxMemoryBytes)
    && (exit == Failed <==> a == Trap && forall r :: r in s.requests ==> r <= spec.maxMemoryBytes)
    && (exit == TimedOut ==> s.now - spec.started >= spec.timeout)
  }

  lemma ExitIsDecidedByTheEvent(spec: Spec, s: State, a: Action)
    requires Inv(spec, s) && s.ended.None? && Step(spec, s, a).ended.Some?
    ensures ExitFits(spec, s, a, Classify(Step(spec, s, a)))
  {
  }

  /** Every run that has ended was ended by one event, the k-th, and its exit says which and why: the
      guest returned well or badly, trapped with or without a denied grow, or a ring stopped it with or
      without the cancel flag raised. */
  lemma {:induction false} ExitIsExact(spec: Spec, s: State, actions: seq<Action>) returns (k: nat)
    requires Inv(spec, s) && s.ended.None? && Run(spec, s, actions).ended.Some?
    ensures k < |actions|
    ensures var before := Run(spec, s, actions[..k]);
            && before.ended.None? && Run(spec, s, actions) == Step(spec, before, actions[k])
            && ExitFits(spec, before, actions[k], Classify(Run(spec, s, actions)))
    decreases actions
  {
    var s' := Step(spec, s, actions[0]);
    if s'.ended.Some? {
      k := 0;
      EndedStays(spec, s', actions[1..]);
      ExitIsDecidedByTheEvent(spec, s, actions[0]);
    } else {
      StepKeepsInv(spec, s, actions[0]);
      var j := ExitIsExact(spec, s', actions[1..]);
      k := j + 1;
      assert actions[..k][1..] == actions[1..][..j] && actions[1..][j] == actions[k];
    }
  }

  lemma {:induction false} EndedStays(spec: Spec, s: State, actions: seq<Action>)
    requires s.ended.Some?
    ensures Run(spec, s, actions) == s
    decreases actions
  {
    if actions == [] {
    } else {
      EndedStays(spec, s, actions[1..]);
    }
  }

  /** Without a cancel flag the dispatcher's reading of the same run agrees with the executor's. */
  lemma DispatcherAgrees(spec: Spec, s0: State, actions: seq<Action>)
    requires Initial(spec, s0) && !spec.cancellable
    ensures var s := Run(spec, s0, actions);
            s.ended.Some? ==>
              && (Guarded(s) == GuardTimedOut <==> Classify(s) == TimedOut)
              && (Guarded(s) == GuestTrapped <==> Classify(s) == MemoryLimit || Classify(s) == Failed)
              && (Guarded(s) == GuestReturned <==> Classify(s) == Completed || Classify(s) == GuestError)
  {
    assert Inv(spec, s0);
    InvHolds(spec, s0, actions);
  }
}
