// The shutdown ladder: what signals mean, how far they have led, and how the descent waits.
module ShutdownLadder {
  import opened Arithmetic

  /** SIGINT and SIGTERM escalate, SIGUSR2 asks for a smooth restart, anything else is ignored. */
  datatype Signal = Interrupt | Terminate | Restart | Other

  /** RUNNING, DRAINING, INTERRUPTING, FINALIZING, in order. */
  type Stage = n: nat | n <= 3

  const RUNNING: Stage := 0
  const DRAINING: Stage := 1
  const INTERRUPTING: Stage := 2
  const FINALIZING: Stage := 3

  predicate Escalates(s: Signal) {
    s == Interrupt || s == Terminate
  }

  function Next(stage: Stage, s: Signal): Stage {
    if s == Restart then (if stage == RUNNING then DRAINING else stage)
    else if Escalates(s) then Min(stage + 1, FINALIZING)
    else stage
  }

  /** The stage after all these signals, from the first on. */
  function Reached(stage: Stage, signals: seq<Signal>): Stage
    decreases |signals|
  {
    if signals == [] then stage else Next(Reached(stage, signals[..|signals| - 1]), signals[|signals| - 1])
  }

  function Escalations(signals: seq<Signal>): nat {
    if signals == [] then 0
    else Escalations(signals[..|signals| - 1]) + if Escalates(signals[|signals| - 1]) then 1 else 0
  }

  /** A restart signal came before the first escalation. */
  predicate RestartFirst(signals: seq<Signal>) {
    exists i | 0 <= i < |signals| :: signals[i] == Restart && forall j | 0 <= j < i :: !Escalates(signals[j])
  }

  lemma {:induction false} NoEscalations(signals: seq<Signal>)
    ensures Escalations(signals) == 0 <==> forall i | 0 <= i < |signals| :: !Escalates(signals[i])
  {
    if signals != [] {
      var n := |signals| - 1;
      NoEscalations(signals[..n]);
      if forall i | 0 <= i < |signals| :: !Escalates(signals[i]) {
        assert forall i | 0 <= i < n :: signals[..n][i] == signals[i];
      }
    }
  }

  lemma RestartFirstGrows(signals: seq<Signal>, s: Signal)
    ensures RestartFirst(signals + [s]) <==> RestartFirst(signals) || (s == Restart && Escalations(signals) == 0)
  {
    NoEscalations(signals);
    var more := signals + [s];
    if RestartFirst(signals) {
      var i :| 0 <= i < |signals| && signals[i] == Restart && forall j | 0 <= j < i :: !Escalates(signals[j]);
      assert more[i] == Restart && forall j | 0 <= j < i :: more[j] == signals[j];
    }
    if s == Restart && Escalations(signals) == 0 {
      assert more[|signals|] == Restart && forall j | 0 <= j < |signals| :: more[j] == signals[j];
    }
    if RestartFirst(more) {
      var i :| 0 <= i < |more| && more[i] == Restart && forall j | 0 <= j < i :: !Escalates(more[j]);
      assert forall j | 0 <= j < |signals| :: signals[j] == more[j];
    }
  }

  /** The stage counts escalations, one rung more if a restart had already started the descent, and stops at the last rung. */
  lemma {:induction false} StageCountsEscalations(signals: seq<Signal>)
    ensures Reached(RUNNING, signals) == Min(FINALIZING, Escalations(signals) + if RestartFirst(signals) then 1 else 0)
  {
    if signals != [] {
      var n := |signals| - 1;
      StageCountsEscalations(signals[..n]);
      RestartFirstGrows(signals[..n], signals[n]);
      assert signals[..n] + [signals[n]] == signals;
    }
  }

  lemma {:induction false} StageOnlyRises(stage: Stage, signals: seq<Signal>)
    ensures Reached(stage, signals) >= stage
  {
    if signals != [] { StageOnlyRises(stage, signals[..|signals| - 1]); }
  }

  /** However often it is sent, SIGUSR2 never deepens a descent that is under way. */
  lemma {:induction false} RestartNeverDeepens(stage: Stage, signals: seq<Signal>)
    requires stage != RUNNING && forall i | 0 <= i < |signals| :: !Escalates(signals[i])
    ensures Reached(stage, signals) == stage
  {
    if signals != [] { RestartNeverDeepens(stage, signals[..|signals| - 1]); }
  }

  class Ladder {
    var stage: Stage
    /** The event that wakes whoever waits for the stage to change. */
    var advanced: bool
    ghost var received: seq<Signal>

    ghost predicate Valid()
      reads this
    {
      stage == Reached(RUNNING, received)
    }

    constructor ()
      ensures Valid() && stage == RUNNING && received == [] && !advanced
    {
      stage, advanced, received := RUNNING, false, [];
    }

    /** Applies one signal; a change of stage sets the event. */
    method Receive(s: Signal) returns (after: Stage)
      requires Valid()
      modifies this
      ensures Valid() && received == old(received) + [s]
      ensures after == stage == Next(old(stage), s)
      ensures advanced == (old(advanced) || stage != old(stage))
    {
      if s == Restart {
        if stage == RUNNING {
          stage, advanced := DRAINING, true;
        }
      } else if Escalates(s) && stage < FINALIZING {
        stage, advanced := stage + 1, true;
      }
      received := received + [s];
      after := stage;
    }

    method ReceiveAll(signals: seq<Signal>)
      requires Valid()
      modifies this
      ensures Valid() && received == old(received) + signals
      ensures stage == Reached(old(stage), signals)
      ensures advanced == (old(advanced) || stage != old(stage))
    {
      for n := 0 to |signals|
        invariant Valid() && received == old(received) + signals[..n]
        invariant stage == Reached(old(stage), signals[..n]) >= old(stage)
        invariant advanced == (old(advanced) || stage != old(stage))
      {
        assert signals[..n + 1][..n] == signals[..n] && signals[..n + 1] == signals[..n] + [signals[n]];
        StageOnlyRises(old(stage), signals[..n + 1]);
        var after := Receive(signals[n]);
      }
      assert signals[..|signals|] == signals;
    }
  }

  // ---- Waiting for an advance ----

  /** A waiter compares the stage with its anchor, clears the event, and sleeps until the event is set. */
  datatype Waiter = Checking | Sleeping | Returned

  datatype Watch = Watch(stage: Stage, advanced: bool, anchor: Stage, waiter: Waiter)

  datatype Turn = Arrives(s: Signal) | Runs

  function TakeTurn(w: Watch, turn: Turn): Watch {
    match turn
    case Arrives(s) => w.(stage := Next(w.stage, s), advanced := w.advanced || Next(w.stage, s) != w.stage)
    case Runs =>
      match w.waiter
      case Checking => if w.stage == w.anchor then w.(advanced := false, waiter := Sleeping) else w.(waiter := Returned)
      case Sleeping => if w.advanced then w.(waiter := Checking) else w
      case Returned => w
  }

  function AfterTurns(w: Watch, turns: seq<Turn>): Watch
    decreases |turns|
  {
    if turns == [] then w else TakeTurn(AfterTurns(w, turns[..|turns| - 1]), turns[|turns| - 1])
  }

  /** Whoever sleeps past an advance has been woken, and whoever has returned has seen one. */
  ghost predicate Sound(w: Watch) {
    && w.stage >= w.anchor
    && (w.waiter == Sleeping && w.stage != w.anchor ==> w.advanced)
    && (w.waiter == Returned ==> w.stage > w.anchor)
  }

  lemma TurnsStaySound(w: Watch, turn: Turn)
    requires Sound(w)
    ensures Sound(TakeTurn(w, turn)) && TakeTurn(w, turn).anchor == w.anchor
  {
  }

  /** No wake-up is lost, however signals and the waiter interleave: once the stage has moved, two turns end the wait, and before that none does. */
  lemma {:induction false} NoWakeUpIsLost(w: Watch, turns: seq<Turn>)
    requires w.waiter == Checking && w.stage >= w.anchor
    ensures var v := AfterTurns(w, turns);
      && Sound(v) && v.anchor == w.anchor
      && (TakeTurn(TakeTurn(v, Runs), Runs).waiter == Returned <==> v.stage > v.anchor)
  {
    if turns != [] {
      NoWakeUpIsLost(w, turns[..|turns| - 1]);
      TurnsStaySound(AfterTurns(w, turns[..|turns| - 1]), turns[|turns| - 1]);
    }
  }

  // ---- The descent ----

  /** One wait: the signals that arrived during it, and whether the last request finished. */
  datatype Wait = Wait(signals: seq<Signal>, drained: bool)

  /** A wait ends only when the requests have drained or the stage has moved. */
  ghost predicate Ends(stage: Stage, wait: Wait) {
    wait.drained || Reached(stage, wait.signals) != stage
  }

  /** The stages at which the descent starts its rounds. */
  ghost function StageAt(stage: Stage, waits: nat -> Wait, round: nat): Stage
    decreases round
  {
    if round == 0 then stage else Reached(StageAt(stage, waits, round - 1), waits(round - 1).signals)
  }

  ghost predicate RoundEnds(stage: Stage, waits: nat -> Wait, round: nat) {
    Ends(StageAt(stage, waits, round), waits(round))
  }

  /** How the stages go while no wait has ended the descent: up, every time. */
  lemma {:induction false} StageRisesEachRound(stage: Stage, waits: nat -> Wait, round: nat)
    requires forall k: nat | k < round ::
      RoundEnds(stage, waits, k) && !(waits(k).drained && StageAt(stage, waits, k + 1) == StageAt(stage, waits, k))
    ensures StageAt(stage, waits, round) >= stage + round
  {
    if round > 0 {
      StageRisesEachRound(stage, waits, round - 1);
      StageOnlyRises(StageAt(stage, waits, round - 1), waits(round - 1).signals);
      assert RoundEnds(stage, waits, round - 1);
      assert StageAt(stage, waits, round - 1 + 1) != StageAt(stage, waits, round - 1);
    }
  }

  /** A whole descent: it stops at the last rung without waiting, or when everything drained at an unchanged stage. */
  method Descend(ladder: Ladder, waits: nat -> Wait, connections: nat -> nat, running: nat -> nat)
    returns (rounds: nat, waited: nat, interrupted: nat, cancelled: nat)
    requires ladder.Valid() && ladder.stage != RUNNING
    requires forall round: nat {:trigger RoundEnds(ladder.stage, waits, round)} :: RoundEnds(ladder.stage, waits, round)
    modifies ladder
    ensures ladder.Valid() && 1 <= rounds <= 3 && waited <= 2 && waited <= rounds <= waited + 1
    ensures ladder.stage == StageAt(old(ladder.stage), waits, waited)
    ensures rounds == waited + 1 ==> ladder.stage == FINALIZING && cancelled >= running(waited)
    ensures rounds == waited ==> waits(waited - 1).drained && ladder.stage == StageAt(old(ladder.stage), waits, waited - 1)
    ensures ladder.stage == DRAINING ==> cancelled == 0 && interrupted == 0
    ensures forall k: nat | k < waited && StageAt(old(ladder.stage), waits, k) == INTERRUPTING ::
      interrupted == connections(k) && cancelled >= running(k)
  {
    rounds, waited, interrupted, cancelled := 0, 0, 0, 0;
    while true
      invariant ladder.Valid() && rounds == waited && ladder.stage == StageAt(old(ladder.stage), waits, waited)
      invariant ladder.stage >= old(ladder.stage) + waited >= 1 + waited
      invariant forall k: nat | k < waited :: StageAt(old(ladder.stage), waits, k) < ladder.stage
      invariant ladder.stage <= INTERRUPTING ==> cancelled == 0 && interrupted == 0
      invariant forall k: nat | k < waited && StageAt(old(ladder.stage), waits, k) == INTERRUPTING ::
        interrupted == connections(k) && cancelled >= running(k)
      decreases FINALIZING - ladder.stage
    {
      rounds := rounds + 1;
      var stage := ladder.stage;
      if stage == FINALIZING {
        cancelled := cancelled + running(waited);
        return;
      }
      if stage == INTERRUPTING && interrupted == 0 {
        interrupted := connections(waited);
        cancelled := cancelled + running(waited);
      }
      var wait := waits(waited);
      assert RoundEnds(old(ladder.stage), waits, waited);
      StageOnlyRises(stage, wait.signals);
      ladder.ReceiveAll(wait.signals);
      waited := waited + 1;
      if wait.drained && ladder.stage == stage {
        return;
      }
    }
  }
}
