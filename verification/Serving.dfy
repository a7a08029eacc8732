// Serving and shutting down as a step system: signals, requests and the one lifecycle task
// interleave at every await.
module Serving {
  import opened Wrappers
  import opened ShutdownLadder
  import opened Admission

  /** A request task: in front of the barrier, in the application, being answered with a refusal, told to cancel, or over. */
  datatype Request = AtGate | Running | Refused | Cancelling | Over

  /**
   * Where the lifecycle task is. It waits for the first advance with one waiter; a drain wait has two tasks, one that polls
   * the requests and one that waits for an advance, and Leaving is when the wait has returned and what is not done is cancelled.
   */
  datatype Phase =
    | Serving(waiter: Waiter)
    | Halted
    | Deciding
    | Draining(stage: Stage, drained: bool, waiter: Waiter)
    | Leaving(stage: Stage, drained: bool)
    | Finalizing
    | Regated
    | LastDrain(drained: bool)
    | Done

  /** `advanced` is the event that a change of stage sets and that waiters clear. */
  datatype Server = Server(listener: Listener, stage: Stage, advanced: bool, phase: Phase, requests: map<nat, Request>)

  datatype Step =
    | Arrive(id: nat)
    | PassGate(id: nat)
    | Finish(id: nat)
    | Receive(s: Signal)
    | PollDrain
    | WatchStage
    | Proceed(asksToExit: bool)

  predicate Drained(s: Server) {
    forall id | id in s.requests :: s.requests[id] == Over
  }

  function Requests(s: Server, id: nat, r: Request): Server {
    s.(requests := s.requests[id := r])
  }

  function CancelAll(s: Server): Server {
    s.(requests := map id | id in s.requests :: if s.requests[id] == Over then Over else Cancelling)
  }

  /** Whether the lifecycle task has something to do rather than to wait for. */
  predicate CanProceed(s: Server) {
    match s.phase
    case Serving(waiter) => waiter.Returned?
    case Draining(stage, drained, waiter) => drained || waiter.Returned?
    case LastDrain(drained) => drained
    case Done => false
    case _ => true
  }

  predicate Enabled(s: Server, step: Step) {
    match step
    case Arrive(id) => id !in s.requests && s.phase != Done
    case PassGate(id) => id in s.requests && s.requests[id] == AtGate && s.listener.adapter.open
    case Finish(id) => id in s.requests && s.requests[id] != AtGate && s.requests[id] != Over
    case Receive(sig) => true
    case PollDrain => s.phase.Draining? || s.phase.LastDrain?
    case WatchStage => s.phase.Serving? || s.phase.Draining?
    case Proceed(asksToExit) => CanProceed(s)
  }

  function Move(s: Server, op: Operation, phase: Phase): Server {
    s.(listener := Operate(s.listener, op), phase := phase)
  }

  function Lifecycle(s: Server, asksToExit: bool): Server
    requires CanProceed(s)
  {
    match s.phase
    case Serving(waiter) => Move(s, Halt, Halted)
    case Halted => Move(s, StopTaking, Deciding)
    case Deciding =>
      if s.stage == FINALIZING then CancelAll(s).(phase := Finalizing)
      else if s.stage == INTERRUPTING then CancelAll(s).(phase := Draining(s.stage, false, Checking))
      else s.(phase := Draining(s.stage, false, Checking))
    case Draining(stage, drained, waiter) => s.(phase := Leaving(stage, drained))
    case Leaving(stage, drained) => s.(phase := if drained && s.stage == stage then Finalizing else Deciding)
    case Finalizing => if s.listener.Direct? then Move(s, StartShutdown, LastDrain(false)) else Move(s, Halt, Regated)
    case Regated => Move(s, StartShutdown, LastDrain(false))
    case LastDrain(drained) => Move(s, FinishShutdown(asksToExit), Done)
  }

  /** Whoever waits for an advance, and the stage it wants to see left. */
  function WatchOf(s: Server): Watch
    requires s.phase.Serving? || s.phase.Draining?
  {
    Watch(s.stage, s.advanced, if s.phase.Serving? then RUNNING else s.phase.stage, s.phase.waiter)
  }

  function Apply(s: Server, step: Step): Server
    requires Enabled(s, step)
  {
    match step
    case Arrive(id) => Requests(s, id, AtGate)
    case PassGate(id) =>
      if s.listener.adapter.refusal != None then
        Requests(s, id, Refused).(listener := s.listener.(adapter := AfterGate(s.listener.adapter)))
      else Requests(s, id, Running)
    case Finish(id) => Requests(s, id, Over)
    case Receive(sig) => s.(stage := Next(s.stage, sig), advanced := s.advanced || Next(s.stage, sig) != s.stage)
    case PollDrain =>
      if s.phase.LastDrain? then s.(phase := LastDrain(s.phase.drained || Drained(s)))
      else s.(phase := Draining(s.phase.stage, s.phase.drained || Drained(s), s.phase.waiter))
    case WatchStage =>
      var w := TakeTurn(WatchOf(s), Runs);
      s.(advanced := w.advanced, phase := s.phase.(waiter := w.waiter))
    case Proceed(asksToExit) => Lifecycle(s, asksToExit)
  }

  /** A listener that has been armed, in either composition. */
  predicate Armed(l: Listener) {
    match l
    case Direct(a) => a.state == Accepting && a.open && a.refusal == None
    case Routed(a, state, sockets) => state == Accepting && a.state == New && a.open && a.refusal == None
  }

  ghost predicate Invariant(s: Server) {
    && Barrier(s.listener.adapter)
    && (s.phase != Done ==> s.listener.adapter.state != Closed)
    && (s.phase.Serving? ==> Armed(s.listener))
    && (s.phase == Deciding || InDrainWait(s) || s.phase == Finalizing ==> Refusing(s.listener.adapter))
    && (!s.phase.Serving? ==> s.stage != RUNNING)
  }

  /** The waits: nobody sleeps past an advance, and a wait that returns has seen one or the end of the requests. */
  ghost predicate WaitsAreSound(s: Server) {
    && (s.phase.Serving? || s.phase.Draining? ==> Sound(WatchOf(s)))
    && (s.phase.Draining? ==> s.phase.stage != FINALIZING)
    && (s.phase.Leaving? ==> s.phase.stage <= s.stage && s.phase.stage != FINALIZING && (!s.phase.drained ==> s.phase.stage < s.stage))
  }

  lemma OtherStepsKeep(s: Server, step: Step)
    requires Invariant(s) && WaitsAreSound(s) && Enabled(s, step) && !step.Proceed?
    ensures Invariant(Apply(s, step)) && WaitsAreSound(Apply(s, step))
  {
  }

  lemma LifecycleKeeps(s: Server, asksToExit: bool)
    requires Invariant(s) && WaitsAreSound(s) && CanProceed(s)
    ensures Invariant(Lifecycle(s, asksToExit)) && WaitsAreSound(Lifecycle(s, asksToExit))
  {
  }

  function Start(l: Listener): Server {
    Server(l, RUNNING, false, Serving(Checking), map[])
  }

  function After(l: Listener, steps: seq<Step>): Option<Server>
    decreases |steps|
  {
    if steps == [] then Some(Start(l))
    else match After(l, steps[..|steps| - 1])
      case None => None
      case Some(s) => if Enabled(s, steps[|steps| - 1]) then Some(Apply(s, steps[|steps| - 1])) else None
  }

  lemma {:induction false} RunsKeep(l: Listener, steps: seq<Step>)
    requires Armed(l) && After(l, steps).Some?
    ensures Invariant(After(l, steps).value) && WaitsAreSound(After(l, steps).value)
  {
    hide Invariant, WaitsAreSound;
    if steps == [] {
      StartIsFine(l);
    } else {
      var n := |steps| - 1;
      RunsKeep(l, steps[..n]);
      var s := After(l, steps[..n]).value;
      hide Lifecycle;
      if steps[n].Proceed? {
        LifecycleKeeps(s, steps[n].asksToExit);
      } else {
        OtherStepsKeep(s, steps[n]);
      }
    }
  }

  lemma StartIsFine(l: Listener)
    requires Armed(l)
    ensures Invariant(Start(l)) && WaitsAreSound(Start(l))
  {
  }

  predicate InDrainWait(s: Server) {
    s.phase.Draining? || s.phase.Leaving? || s.phase.LastDrain?
  }

  /** Every wait for the requests to drain happens with the barrier refusing, in both compositions and however signals, requests
      and the lifecycle interleave. */
  lemma DrainWaitsRefuse(l: Listener, steps: seq<Step>)
    requires Armed(l) && After(l, steps).Some? && InDrainWait(After(l, steps).value)
    ensures Refusing(After(l, steps).value.listener.adapter)
  {
    RunsKeep(l, steps);
  }

  /** So no request stays parked: whatever stands at the gate then can move, and is answered. */
  lemma NobodyStaysParked(l: Listener, steps: seq<Step>, id: nat)
    requires Armed(l) && After(l, steps).Some? && InDrainWait(After(l, steps).value)
    requires id in After(l, steps).value.requests && After(l, steps).value.requests[id] == AtGate
    ensures Enabled(After(l, steps).value, PassGate(id))
    ensures Apply(After(l, steps).value, PassGate(id)).requests[id] == Refused
  {
    DrainWaitsRefuse(l, steps);
  }

  /** And nothing new starts running during the wait. */
  lemma NothingStartsWhileDraining(l: Listener, steps: seq<Step>, step: Step, id: nat)
    requires Armed(l) && After(l, steps).Some? && InDrainWait(After(l, steps).value)
    requires Enabled(After(l, steps).value, step)
    requires var t := Apply(After(l, steps).value, step); id in t.requests && t.requests[id] == Running
    ensures var s := After(l, steps).value; id in s.requests && s.requests[id] == Running
  {
    DrainWaitsRefuse(l, steps);
  }

  lemma ShutdownRefuses(s: Server)
    requires Invariant(s) && s.phase == Regated
    ensures CanProceed(s) && Refusing(Lifecycle(s, false).listener.adapter)
  {
  }

  /** The router's own stop, repeated inside its shutdown, lifts the refusal for a moment; requests that park then are released by
      the next step of the lifecycle. */
  lemma RegatedIsReleased(l: Listener, steps: seq<Step>)
    requires Armed(l) && After(l, steps).Some? && After(l, steps).value.phase == Regated
    ensures var s := After(l, steps).value; CanProceed(s) && Refusing(Lifecycle(s, false).listener.adapter)
  {
    hide *;
    RunsKeep(l, steps);
    ShutdownRefuses(After(l, steps).value);
  }

  // ---- How waits end ----

  function SignalsIn(steps: seq<Step>): seq<Signal> {
    if steps == [] then []
    else SignalsIn(steps[..|steps| - 1]) + if steps[|steps| - 1].Receive? then [steps[|steps| - 1].s] else []
  }

  lemma StepsOneMore(l: Listener, steps: seq<Step>)
    requires steps != [] && After(l, steps).Some?
    ensures var n := |steps| - 1;
      After(l, steps[..n]).Some? && Enabled(After(l, steps[..n]).value, steps[n])
      && After(l, steps).value == Apply(After(l, steps[..n]).value, steps[n])
  {
  }

  lemma ReachedOneMore(stage: Stage, steps: seq<Step>)
    requires steps != []
    ensures var n := |steps| - 1;
      Reached(stage, SignalsIn(steps))
      == if steps[n].Receive? then Next(Reached(stage, SignalsIn(steps[..n])), steps[n].s) else Reached(stage, SignalsIn(steps[..n]))
  {
    var n := |steps| - 1;
    if steps[n].Receive? {
      assert SignalsIn(steps)[..|SignalsIn(steps[..n])|] == SignalsIn(steps[..n]);
    } else {
      assert SignalsIn(steps) == SignalsIn(steps[..n]);
    }
  }

  /** In every run the stage is what the signals alone have led to. */
  lemma {:induction false} StageFollowsSignals(l: Listener, steps: seq<Step>)
    requires After(l, steps).Some?
    ensures After(l, steps).value.stage == Reached(RUNNING, SignalsIn(steps))
  {
    hide Apply, Enabled;
    if steps != [] {
      var n := |steps| - 1;
      StepsOneMore(l, steps);
      StageFollowsSignals(l, steps[..n]);
      LifecycleLeavesStage(After(l, steps[..n]).value, steps[n]);
      ReachedOneMore(RUNNING, steps);
    }
  }

  lemma LifecycleLeavesStage(s: Server, step: Step)
    requires Enabled(s, step)
    ensures Apply(s, step).stage == if step.Receive? then Next(s.stage, step.s) else s.stage
  {
  }

  /** A drain wait can end, once its two tasks have had their turns, exactly when the requests have drained at some poll or the stage has moved. */
  lemma WaitCanEndExactly(l: Listener, steps: seq<Step>)
    requires Armed(l) && After(l, steps).Some? && After(l, steps).value.phase.Draining?
    ensures var s := After(l, steps).value;
      CanProceed(Apply(Apply(Apply(s, PollDrain), WatchStage), WatchStage)) <==> s.phase.drained || Drained(s) || s.stage != s.phase.stage
  {
    RunsKeep(l, steps);
  }

  /** A wait that does not end the descent ends with a higher stage. */
  lemma EveryFalseMeansHigher(l: Listener, steps: seq<Step>, asksToExit: bool)
    requires Armed(l) && After(l, steps).Some? && After(l, steps).value.phase.Leaving?
    ensures var s := After(l, steps).value;
      && (Lifecycle(s, asksToExit).phase == Deciding ==> s.stage > s.phase.stage)
      && (Lifecycle(s, asksToExit).phase != Deciding ==> Lifecycle(s, asksToExit).phase == Finalizing && s.phase.drained && s.stage == s.phase.stage)
  {
    RunsKeep(l, steps);
  }

  /** How often the descent has read the ladder. */
  function Rounds(l: Listener, steps: seq<Step>): nat {
    if steps == [] then 0
    else
      var before := After(l, steps[..|steps| - 1]);
      Rounds(l, steps[..|steps| - 1])
      + if before.Some? && before.value.phase == Deciding && steps[|steps| - 1].Proceed? then 1 else 0
  }

  ghost predicate RoundsFit(rounds: nat, s: Server) {
    match s.phase
    case Serving(waiter) => rounds == 0
    case Halted => rounds == 0
    case Deciding => rounds < s.stage
    case Draining(stage, drained, waiter) => rounds <= stage
    case Leaving(stage, drained) => rounds <= stage
    case _ => rounds <= 3
  }

  lemma RoundsStep(rounds: nat, s: Server, step: Step)
    requires Enabled(s, step) && Invariant(s) && WaitsAreSound(s) && RoundsFit(rounds, s)
    ensures RoundsFit(rounds + if s.phase == Deciding && step.Proceed? then 1 else 0, Apply(s, step))
  {
  }

  lemma {:induction false} RoundsStayFit(l: Listener, steps: seq<Step>)
    requires Armed(l) && After(l, steps).Some?
    ensures RoundsFit(Rounds(l, steps), After(l, steps).value)
  {
    hide Apply, Invariant, WaitsAreSound, RoundsFit, Enabled;
    if steps == [] {
      assert RoundsFit(0, Start(l)) by { StartHasNoRounds(l); }
    } else {
      var n := |steps| - 1;
      StepsOneMore(l, steps);
      RoundsStayFit(l, steps[..n]);
      RunsKeep(l, steps[..n]);
      RoundsStep(Rounds(l, steps[..n]), After(l, steps[..n]).value, steps[n]);
    }
  }

  lemma StartHasNoRounds(l: Listener)
    ensures RoundsFit(0, Start(l))
  {
  }

  /** No run reads the ladder more than three times, or waits for the drain in the descent after more than two of them. */
  lemma AtMostThreeRounds(l: Listener, steps: seq<Step>)
    requires Armed(l) && After(l, steps).Some?
    ensures Rounds(l, steps) <= 3
    ensures After(l, steps).value.phase.Draining? ==> Rounds(l, steps) <= 2
  {
    RoundsStayFit(l, steps);
    RunsKeep(l, steps);
  }

  /** The wait that is under way or just returned began at i, from the stage it is anchored to. */
  ghost predicate WaitsSince(l: Listener, steps: seq<Step>, i: nat)
    requires After(l, steps).Some?
  {
    var s := After(l, steps).value;
    && InWait(s) && i < |steps| && steps[i].Proceed?
    && After(l, steps[..i]).Some? && After(l, steps[..i]).value.phase == Deciding
    && After(l, steps[..i]).value.stage == s.phase.stage
    && s.stage == Reached(s.phase.stage, SignalsIn(steps[i + 1..]))
  }

  predicate InWait(s: Server) {
    s.phase.Draining? || s.phase.Leaving?
  }

  lemma WaitStep(s: Server, step: Step)
    requires Enabled(s, step) && InWait(Apply(s, step))
    ensures if s.phase == Deciding then step.Proceed? && Apply(s, step).phase.stage == s.stage
            else InWait(s) && Apply(s, step).phase.stage == s.phase.stage
  {
  }

  lemma {:induction false} WaitHasBegun(l: Listener, steps: seq<Step>) returns (i: nat)
    requires After(l, steps).Some? && InWait(After(l, steps).value)
    ensures WaitsSince(l, steps, i)
  {
    hide Apply, Enabled;
    var n := |steps| - 1;
    StepsOneMore(l, steps);
    var s := After(l, steps[..n]).value;
    WaitStep(s, steps[n]);
    LifecycleLeavesStage(s, steps[n]);
    if s.phase == Deciding {
      i := n;
      assert steps[n + 1..] == [];
    } else {
      i := WaitHasBegun(l, steps[..n]);
      assert steps[..n][..i] == steps[..i];
      assert steps[i + 1..][..n - i - 1] == steps[..n][i + 1..];
      ReachedOneMore(s.phase.stage, steps[i + 1..]);
    }
  }

  /** What the descent is told of a wait: the signals that arrived during it, and whether the requests had drained. */
  lemma WaitsEndAsDescendAssumes(l: Listener, steps: seq<Step>) returns (wait: Wait)
    requires Armed(l) && After(l, steps).Some? && After(l, steps).value.phase.Leaving?
    ensures var s := After(l, steps).value;
      && (exists i :: WaitsSince(l, steps, i) && wait.signals == SignalsIn(steps[i + 1..]))
      && wait.drained == s.phase.drained
      && s.stage == Reached(s.phase.stage, wait.signals) && Ends(s.phase.stage, wait)
  {
    var i := WaitHasBegun(l, steps);
    wait := Wait(SignalsIn(steps[i + 1..]), After(l, steps).value.phase.drained);
    RunsKeep(l, steps);
  }
}
