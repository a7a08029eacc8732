// The admission barrier in front of the application, in both listener compositions, and the
// requests that stand in front of it while the process shuts down.
module Admission {
  import opened Wrappers

  datatype ListenerState = New | Dormant | Accepting | Stopped | Stopping | Broken | Closed

  /** The adapter's state: its listeners, its lifespan and the two-field barrier. */
  datatype Adapter = Adapter(state: ListenerState, registered: bool, lifespan: bool, open: bool, refusal: Option<string>, refused: nat)

  /** A closed gate with a refusal behind it would hold its requests for ever. */
  ghost predicate Barrier(a: Adapter) {
    a.refusal != None ==> a.open
  }

  /** The barrier answers every request instead of holding it. */
  ghost predicate Refusing(a: Adapter) {
    a.open && a.refusal != None
  }

  function OpenAdmission(a: Adapter): Adapter {
    a.(refusal := None, open := true)
  }

  function PauseAdmission(a: Adapter): Adapter {
    a.(refusal := None, open := false)
  }

  function Refuse(a: Adapter, reason: string): Adapter {
    a.(refusal := Some(reason), open := true)
  }

  function CloseRegistrations(a: Adapter, next: ListenerState): Adapter {
    var paused := if next == Stopped then PauseAdmission(a) else a;
    paused.(registered := false, state := if a.state == Closed then Closed else next)
  }

  /** What an operation does: the new state, and whether it raised. */
  datatype Outcome<T> = Outcome(after: T, raised: bool)

  function RegisterDormant(a: Adapter, succeeds: bool): Outcome<Adapter> {
    if !a.lifespan || (a.state != New && a.state != Stopped) || a.registered then Outcome(a, true)
    else if !succeeds then Outcome(a.(state := Broken), true)
    else Outcome(PauseAdmission(a).(registered := true, state := Dormant), false)
  }

  function Arm(a: Adapter, succeeds: bool): Outcome<Adapter> {
    if !a.registered then Outcome(a, true)
    else if a.state == Accepting then Outcome(a, false)
    else if a.state != Dormant then Outcome(a, true)
    else if !succeeds then Outcome(CloseRegistrations(Refuse(a, "listener failed to start accepting"), Broken), true)
    else Outcome(OpenAdmission(a).(state := Accepting), false)
  }

  function StopAccepting(a: Adapter): Adapter {
    if a.state == Stopping || a.state == Closed || a.state == Broken then a else CloseRegistrations(a, Stopped)
  }

  function ResumeAccepting(a: Adapter, registers: bool, arms: bool): Outcome<Adapter> {
    if a.state == Accepting then Outcome(a, false)
    else if a.state != Stopped then Outcome(a, true)
    else if a.registered then Arm(a, arms)
    else
      var registered := RegisterDormant(a, registers);
      if registered.raised then registered else Arm(registered.after, arms)
  }

  function StopAdmitting(a: Adapter): Adapter {
    Refuse(a, "server is shutting down")
  }

  /** shutdown_lifespan up to its wait for the requests to drain. */
  function BeginShutdown(a: Adapter): Adapter {
    if a.state == Closed then a else CloseRegistrations(StopAdmitting(a.(state := Stopping)), Stopping)
  }

  /** And after it. */
  function EndShutdown(a: Adapter, asksToExit: bool): Outcome<Adapter> {
    if !a.lifespan then Outcome(a, false)
    else Outcome(a.(lifespan := false, state := if asksToExit then Broken else Closed), asksToExit)
  }

  function StartLifespan(a: Adapter, asksToExit: bool): Outcome<Adapter> {
    if a.lifespan then Outcome(a, false)
    else if a.state == Closed then Outcome(a, true)
    else if asksToExit then Outcome(a.(state := Broken), true)
    else Outcome(a.(lifespan := true), false)
  }

  /** The count of refusals after a request has passed the open gate. */
  function AfterGate(a: Adapter): Adapter {
    if a.refusal != None then a.(refused := a.refused + 1) else a
  }

  class UvicornListenerAdapter {
    var state: ListenerState
    var registered: bool
    var lifespanStarted: bool
    var admissionOpen: bool
    var admissionRefusal: Option<string>
    var refusedRequests: nat

    ghost function Value(): Adapter
      reads this
    {
      Adapter(state, registered, lifespanStarted, admissionOpen, admissionRefusal, refusedRequests)
    }

    constructor ()
      ensures Value() == Adapter(New, false, false, false, None, 0)
    {
      state, registered, lifespanStarted := New, false, false;
      admissionOpen, admissionRefusal, refusedRequests := false, None, 0;
    }

    method Open()
      modifies this
      ensures Value() == OpenAdmission(old(Value()))
    {
      admissionRefusal, admissionOpen := None, true;
    }

    method Pause()
      modifies this
      ensures Value() == PauseAdmission(old(Value()))
    {
      admissionRefusal, admissionOpen := None, false;
    }

    method RefuseLocked(reason: string)
      modifies this
      ensures Value() == Refuse(old(Value()), reason)
    {
      admissionRefusal, admissionOpen := Some(reason), true;
    }

    method CloseRegistrationsLocked(next: ListenerState)
      modifies this
      ensures Value() == CloseRegistrations(old(Value()), next)
    {
      registered := false;
      if next == Stopped {
        Pause();
      }
      if state != Closed {
        state := next;
      }
    }

    method RegisterDormantLocked(succeeds: bool) returns (raised: bool)
      modifies this
      ensures Outcome(Value(), raised) == RegisterDormant(old(Value()), succeeds)
    {
      if !lifespanStarted || (state != New && state != Stopped) || registered {
        return true;
      }
      if !succeeds {
        state := Broken;
        return true;
      }
      registered := true;
      Pause();
      state := Dormant;
      raised := false;
    }

    method ArmLocked(succeeds: bool) returns (raised: bool)
      modifies this
      ensures Outcome(Value(), raised) == Arm(old(Value()), succeeds)
    {
      if !registered {
        return true;
      }
      if state == Accepting {
        return false;
      }
      if state != Dormant {
        return true;
      }
      if !succeeds {
        RefuseLocked("listener failed to start accepting");
        CloseRegistrationsLocked(Broken);
        return true;
      }
      Open();
      state := Accepting;
      raised := false;
    }

    method Stop()
      modifies this
      ensures Value() == StopAccepting(old(Value()))
    {
      if state != Stopping && state != Closed && state != Broken {
        CloseRegistrationsLocked(Stopped);
      }
    }

    method Resume(registers: bool, arms: bool) returns (raised: bool)
      modifies this
      ensures Outcome(Value(), raised) == ResumeAccepting(old(Value()), registers, arms)
    {
      if state == Accepting {
        return false;
      }
      if state != Stopped {
        return true;
      }
      if !registered {
        raised := RegisterDormantLocked(registers);
        if raised {
          return;
        }
      }
      raised := ArmLocked(arms);
    }

    method BeginShutdownLifespan()
      modifies this
      ensures Value() == BeginShutdown(old(Value()))
    {
      if state != Closed {
        state := Stopping;
        RefuseLocked("server is shutting down");
        CloseRegistrationsLocked(Stopping);
      }
    }

    method StopAdmittingLocked()
      modifies this
      ensures Value() == StopAdmitting(old(Value()))
    {
      RefuseLocked("server is shutting down");
    }

    method StartupLifespan(asksToExit: bool) returns (raised: bool)
      modifies this
      ensures Outcome(Value(), raised) == StartLifespan(old(Value()), asksToExit)
    {
      if lifespanStarted {
        return false;
      }
      if state == Closed {
        return true;
      }
      if asksToExit {
        state := Broken;
        return true;
      }
      lifespanStarted := true;
      raised := false;
    }

    method EndShutdownLifespan(asksToExit: bool) returns (raised: bool)
      modifies this
      ensures Outcome(Value(), raised) == EndShutdown(old(Value()), asksToExit)
    {
      if !lifespanStarted {
        return false;
      }
      lifespanStarted := false;
      if asksToExit {
        state := Broken;
        return true;
      }
      state := Closed;
      raised := false;
    }

    /** What the barrier does with a request that arrives now: it waits, is refused with a reason, or goes through. */
    method Gate() returns (waits: bool, refusal: Option<string>)
      modifies this
      ensures waits == !old(Value()).open
      ensures Value() == if waits then old(Value()) else AfterGate(old(Value()))
      ensures refusal == if waits then None else old(Value()).refusal
    {
      waits, refusal := !admissionOpen, None;
      if admissionOpen {
        refusal := admissionRefusal;
        if refusal != None {
          refusedRequests := refusedRequests + 1;
        }
      }
    }
  }

  // ---- The two compositions ----

  /** The adapter on its own, or behind a first-byte router that owns the accepts and has a state of its own. */
  datatype Listener =
    | Direct(adapter: Adapter)
    | Routed(adapter: Adapter, state: ListenerState, sockets: bool)

  datatype Operation =
    | StartUp(asksToExit: bool)
    | Register(succeeds: bool)
    | ArmUp(succeeds: bool)
    | Halt
    | Resume(registers: bool, arms: bool)
    | StopTaking
    | StartShutdown
    | FinishShutdown(asksToExit: bool)

  function RouterRegister(l: Listener, succeeds: bool): Listener
    requires l.Routed?
  {
    if !l.adapter.lifespan || (l.state != New && l.state != Stopped) || l.sockets || !succeeds then l
    else l.(sockets := true, state := Dormant)
  }

  function RouterArm(l: Listener, succeeds: bool): Listener
    requires l.Routed?
  {
    if !l.sockets || l.state != Dormant then l
    else if !succeeds then l.(state := Broken)
    else l.(adapter := OpenAdmission(l.adapter), state := Accepting)
  }

  function RouterStop(l: Listener): Listener
    requires l.Routed?
  {
    if l.state == Stopping || l.state == Closed || l.state == Broken then l
    else l.(sockets := false, adapter := PauseAdmission(l.adapter), state := Stopped)
  }

  /** One operation, started and finished without another of the same listener in between (each holds the lock). */
  function Operate(l: Listener, op: Operation): Listener {
    match l
    case Direct(a) =>
      (match op
       case StartUp(asksToExit) => Direct(StartLifespan(a, asksToExit).after)
       case Register(succeeds) => Direct(RegisterDormant(a, succeeds).after)
       case ArmUp(succeeds) => Direct(Arm(a, succeeds).after)
       case Halt => Direct(StopAccepting(a))
       case Resume(registers, arms) => Direct(ResumeAccepting(a, registers, arms).after)
       case StopTaking => Direct(StopAdmitting(a))
       case StartShutdown => Direct(BeginShutdown(a))
       case FinishShutdown(asksToExit) => Direct(EndShutdown(a, asksToExit).after))
    case Routed(a, state, sockets) =>
      match op
      case StartUp(asksToExit) => l.(adapter := StartLifespan(a, asksToExit).after)
      case Register(succeeds) => RouterRegister(l, succeeds)
      case ArmUp(succeeds) => RouterArm(l, succeeds)
      case Halt => RouterStop(l)
      case Resume(registers, arms) => if state == Stopped then RouterArm(RouterRegister(l, registers), arms) else l
      case StopTaking => l.(adapter := StopAdmitting(a))
      case StartShutdown => l.(adapter := BeginShutdown(a))
      case FinishShutdown(asksToExit) =>
        var ended := EndShutdown(a, asksToExit);
        l.(adapter := ended.after, state := if ended.raised then state else Closed)
  }

  function Operated(l: Listener, ops: seq<Operation>): Listener
    decreases |ops|
  {
    if ops == [] then l else Operate(Operated(l, ops[..|ops| - 1]), ops[|ops| - 1])
  }

  /** The router: its own accepts and state, in front of an adapter whose barrier it drives. */
  class FirstByteRoutingAdapter {
    const adapter: UvicornListenerAdapter
    var state: ListenerState
    var sockets: bool

    ghost function Value(): Listener
      reads this, adapter
    {
      Routed(adapter.Value(), state, sockets)
    }

    constructor (adapter: UvicornListenerAdapter)
      ensures this.adapter == adapter && state == New && !sockets
    {
      this.adapter, state, sockets := adapter, New, false;
    }

    method RegisterDormantLocked(succeeds: bool) returns (raised: bool)
      modifies this
      ensures Value() == RouterRegister(old(Value()), succeeds)
      ensures raised == (Value() == old(Value()))
    {
      if !adapter.lifespanStarted || (state != New && state != Stopped) || sockets || !succeeds {
        return true;
      }
      sockets, state := true, Dormant;
      raised := false;
    }

    method ArmLocked(succeeds: bool) returns (raised: bool)
      modifies this, adapter
      ensures Value() == RouterArm(old(Value()), succeeds)
      ensures raised <==> !(old(sockets) && (old(state) == Accepting || (old(state) == Dormant && succeeds)))
    {
      if !sockets {
        return true;
      }
      if state == Accepting {
        return false;
      }
      if state != Dormant {
        return true;
      }
      if !succeeds {
        state := Broken;
        return true;
      }
      adapter.Open();
      state := Accepting;
      raised := false;
    }

    method StopAccepting()
      modifies this, adapter
      ensures Value() == RouterStop(old(Value()))
    {
      if state == Stopping || state == Closed || state == Broken {
        return;
      }
      sockets := false;
      adapter.Pause();
      state := Stopped;
    }

    method ResumeAccepting(registers: bool, arms: bool) returns (raised: bool)
      modifies this, adapter
      ensures Value() == if old(state) == Stopped then RouterArm(RouterRegister(old(Value()), registers), arms) else old(Value())
    {
      if state == Accepting {
        return false;
      }
      if state != Stopped {
        return true;
      }
      raised := RegisterDormantLocked(registers);
      if !raised {
        raised := ArmLocked(arms);
      }
    }
  }

  lemma AdapterKeepsBarrier(a: Adapter, op: Operation)
    requires Barrier(a)
    ensures Barrier(Operate(Direct(a), op).adapter)
  {
  }

  lemma RouterKeepsBarrier(l: Listener, op: Operation)
    requires l.Routed? && Barrier(l.adapter)
    ensures Barrier(Operate(l, op).adapter)
  {
  }

  /** In both compositions and after any operations whatever, a refusal stands behind an open gate. */
  lemma {:induction false} RefusalImpliesOpenGate(l: Listener, ops: seq<Operation>)
    requires Barrier(l.adapter)
    ensures Barrier(Operated(l, ops).adapter)
  {
    hide Operate;
    if ops != [] {
      RefusalImpliesOpenGate(l, ops[..|ops| - 1]);
      var before, op := Operated(l, ops[..|ops| - 1]), ops[|ops| - 1];
      if before.Routed? {
        RouterKeepsBarrier(before, op);
      } else {
        AdapterKeepsBarrier(before.adapter, op);
      }
    }
  }
}
