// The archive states of the history index: requests to archive, a bounded queue and one worker,
// with every database method one atomic step.
module HistoryIndex {
  import opened Wrappers
  import opened HistoryArchive

  type Id = string

  datatype ArchiveState = Active | Archiving | Archived | ArchiveFailed

  datatype Entry = Entry(pinned: bool, archived: bool, state: ArchiveState, errorCode: Option<string>, reference: Reference)

  type Rows = map<Id, Entry>

  datatype Mutation = Updated | AlreadyApplied | NotFound | Pinned | NowArchiving | Failed

  // ---- The database methods ----

  /** Persisting an entry again replaces its row: the new one is active, unpinned and not archived. */
  function Persist(rows: Rows, id: Id, reference: Reference): Rows {
    rows[id := Entry(false, false, Active, None, reference)]
  }

  function Begin(rows: Rows, id: Id): (Rows, Mutation) {
    if id !in rows then (rows, NotFound)
    else if rows[id].state == Archived || rows[id].archived then (rows, AlreadyApplied)
    else if rows[id].pinned then (rows, Pinned)
    else (rows[id := rows[id].(state := Archiving, errorCode := None)], NowArchiving)
  }

  /** What completing does: nothing for a row that is no longer archiving; otherwise its reference must read back. */
  datatype Completion = Raised | Done(rows: Rows)

  function Complete(rows: Rows, id: Id, readsBack: bool): Completion {
    if id !in rows then Raised
    else if rows[id].state != Archiving then Done(rows)
    else if !readsBack then Raised
    else Done(rows[id := rows[id].(archived := true, state := Archived, errorCode := None)])
  }

  function MarkFailed(rows: Rows, id: Id, code: string): Rows {
    if id in rows && rows[id].state == Archiving then rows[id := rows[id].(state := ArchiveFailed, errorCode := Some(code))]
    else rows
  }

  function SetPinned(rows: Rows, id: Id, pinned: bool): (Rows, Mutation) {
    if id !in rows then (rows, NotFound)
    else if rows[id].pinned == pinned then (rows, AlreadyApplied)
    else (rows[id := rows[id].(pinned := pinned)], Updated)
  }

  /** The index as the writer's methods change it, one method call at a time. */
  class Index {
    var rows: Rows

    constructor (rows: Rows)
      ensures this.rows == rows
    {
      this.rows := rows;
    }

    method PersistEntry(id: Id, reference: Reference)
      modifies this
      ensures rows == Persist(old(rows), id, reference)
    {
      rows := rows[id := Entry(false, false, Active, None, reference)];
    }

    method BeginArchive(id: Id) returns (mutation: Mutation)
      modifies this
      ensures (rows, mutation) == Begin(old(rows), id)
    {
      if id !in rows {
        return NotFound;
      }
      var row := rows[id];
      if row.state == Archived || row.archived {
        return AlreadyApplied;
      }
      if row.pinned {
        return Pinned;
      }
      rows := rows[id := row.(state := Archiving, errorCode := None)];
      mutation := NowArchiving;
    }

    method CompleteArchive(id: Id, readsBack: bool) returns (raised: bool)
      modifies this
      ensures Complete(old(rows), id, readsBack) == if raised then Raised else Done(rows)
      ensures raised ==> rows == old(rows)
    {
      if id !in rows {
        return true;
      }
      if rows[id].state != Archiving {
        return false;
      }
      if !readsBack {
        return true;
      }
      rows := rows[id := rows[id].(archived := true, state := Archived, errorCode := None)];
      raised := false;
    }

    method MarkArchiveFailed(id: Id, code: string)
      modifies this
      ensures rows == MarkFailed(old(rows), id, code)
    {
      if id in rows && rows[id].state == Archiving {
        rows := rows[id := rows[id].(state := ArchiveFailed, errorCode := Some(code))];
      }
    }

    method SetPin(id: Id, pinned: bool) returns (mutation: Mutation)
      modifies this
      ensures (rows, mutation) == SetPinned(old(rows), id, pinned)
    {
      if id !in rows {
        return NotFound;
      }
      if rows[id].pinned == pinned {
        return AlreadyApplied;
      }
      rows := rows[id := rows[id].(pinned := pinned)];
      mutation := Updated;
    }
  }

  // ---- Requests, queue and worker ----

  /** A call of archive_entry in flight. */
  datatype Call = Beginning(id: Id) | Putting(id: Id) | Overflowing(id: Id) | Returned(mutation: Mutation) | Interrupted

  datatype Worker = Idle | Holding(id: Id) | Failing(id: Id) | Exited

  /** `stale` are the rows an earlier process left and that were not touched since, `confirmed` the references read back so far. */
  datatype Writer = Writer(rows: Rows, queue: seq<Id>, worker: Worker, calls: map<nat, Call>, closed: bool,
                           stale: set<Id>, confirmed: map<Id, Reference>)

  datatype Step =
    | Store(id: Id, reference: Reference)
    | Request(call: nat, id: Id)
    | BeginCall(call: nat)
    | Put(call: nat)
    | Overflow(call: nat)
    | Interrupt(call: nat)
    | Take
    | Finish(readsBack: bool)
    | Fail(code: string)
    | Die
    | Pin(id: Id, pinned: bool)
    | Close
    | Exit

  ghost predicate Enabled(w: Writer, step: Step) {
    match step
    case Store(id, reference) => true
    case Request(c, id) => c !in w.calls && !w.closed
    case BeginCall(c) => c in w.calls && w.calls[c].Beginning?
    case Put(c) => c in w.calls && w.calls[c].Putting?
    case Overflow(c) => c in w.calls && w.calls[c].Overflowing?
    case Interrupt(c) => c in w.calls && (w.calls[c].Beginning? || w.calls[c].Putting? || w.calls[c].Overflowing?)
    case Take => w.worker.Idle? && w.queue != []
    case Finish(readsBack) => w.worker.Holding?
    case Fail(code) => w.worker.Failing?
    case Die => w.worker.Failing?
    case Pin(id, pinned) => true
    case Close => true
    case Exit => w.closed && w.worker.Idle? && w.queue == []
  }

  function Apply(w: Writer, step: Step, queueSize: nat): Writer
    requires Enabled(w, step)
  {
    match step
    case Store(id, reference) =>
      w.(rows := Persist(w.rows, id, reference), stale := w.stale - {id}, confirmed := w.confirmed - {id})
    case Request(c, id) => w.(calls := w.calls[c := Beginning(id)])
    case BeginCall(c) =>
      var id := w.calls[c].id;
      var (rows, mutation) := Begin(w.rows, id);
      if mutation == NowArchiving then w.(rows := rows, calls := w.calls[c := Putting(id)], stale := w.stale - {id})
      else w.(calls := w.calls[c := Returned(mutation)])
    case Put(c) =>
      if |w.queue| < queueSize then w.(queue := w.queue + [w.calls[c].id], calls := w.calls[c := Returned(NowArchiving)])
      else w.(calls := w.calls[c := Overflowing(w.calls[c].id)])
    case Overflow(c) => w.(rows := MarkFailed(w.rows, w.calls[c].id, "archive_queue_full"), calls := w.calls[c := Returned(Failed)])
    // Cancelled, or its database method raised.
    case Interrupt(c) => w.(calls := w.calls[c := Interrupted])
    case Take => w.(worker := Holding(w.queue[0]), queue := w.queue[1..])
    case Finish(readsBack) =>
      var id := w.worker.id;
      (match Complete(w.rows, id, readsBack)
       case Raised => w.(worker := Failing(id))
       case Done(rows) =>
         w.(rows := rows, worker := Idle,
            confirmed := if rows != w.rows then w.confirmed[id := w.rows[id].reference] else w.confirmed))
    case Fail(code) => w.(rows := MarkFailed(w.rows, w.worker.id, code), worker := Idle)
    // Recording the failure raised, which ends the worker's task.
    case Die => w.(worker := Exited)
    case Pin(id, pinned) => w.(rows := SetPinned(w.rows, id, pinned).0)
    case Close => w.(closed := true)
    case Exit => w.(worker := Exited)
  }

  ghost predicate RowInvariant(w: Writer, id: Id) {
    id in w.rows ==>
      && (w.rows[id].archived <==> w.rows[id].state == Archived)
      && (w.rows[id].state == Archived && id !in w.stale ==> id in w.confirmed && w.confirmed[id] == w.rows[id].reference)
  }

  ghost predicate Invariant(w: Writer) {
    forall id {:trigger RowInvariant(w, id)} :: RowInvariant(w, id)
  }

  /** How a process starts: rows flagged archived before there were states now have that state. */
  ghost function Start(found: Rows): Writer {
    var rows := map id | id in found :: if found[id].archived && found[id].state == Active then found[id].(state := Archived) else found[id];
    Writer(rows, [], Idle, map[], false, found.Keys, map[])
  }

  /** What the rows of an earlier process keep too. */
  ghost predicate Flagged(found: Rows) {
    forall id | id in found && found[id].state != Active :: found[id].archived <==> found[id].state == Archived
  }

  lemma StepKeepsRow(w: Writer, step: Step, queueSize: nat, id: Id)
    requires Enabled(w, step) && RowInvariant(w, id)
    ensures RowInvariant(Apply(w, step, queueSize), id)
  {
  }

  ghost predicate Runs(states: seq<Writer>, steps: seq<Step>, queueSize: nat, found: Rows) {
    && |states| == |steps| + 1 && Flagged(found) && states[0] == Start(found)
    && forall i | 0 <= i < |steps| :: Moves(states[i], steps[i], states[i + 1], queueSize)
  }

  ghost predicate Moves(w: Writer, step: Step, v: Writer, queueSize: nat) {
    Enabled(w, step) && v == Apply(w, step, queueSize)
  }

  lemma {:induction false} RunsKeepInvariant(states: seq<Writer>, steps: seq<Step>, queueSize: nat, found: Rows, n: nat)
    requires Runs(states, steps, queueSize, found) && n < |states|
    ensures Invariant(states[n])
  {
    hide RowInvariant;
    if n == 0 {
      forall id ensures RowInvariant(states[0], id) {
        StartKeepsRow(found, id);
      }
    } else {
      RunsKeepInvariant(states, steps, queueSize, found, n - 1);
      assert Moves(states[n - 1], steps[n - 1], states[n - 1 + 1], queueSize);
      forall id ensures RowInvariant(states[n], id) {
        assert RowInvariant(states[n - 1], id);
        StepKeepsRow(states[n - 1], steps[n - 1], queueSize, id);
      }
    }
  }

  lemma StartKeepsRow(found: Rows, id: Id)
    requires Flagged(found)
    ensures RowInvariant(Start(found), id)
  {
  }

  /** A row is flagged archived exactly when its state says so. */
  lemma FlagAgreesWithState(states: seq<Writer>, steps: seq<Step>, queueSize: nat, found: Rows, n: nat, id: Id)
    requires Runs(states, steps, queueSize, found) && n < |states| && id in states[n].rows
    ensures states[n].rows[id].archived <==> states[n].rows[id].state == Archived
  {
    RunsKeepInvariant(states, steps, queueSize, found, n);
    assert RowInvariant(states[n], id);
  }

  /** A row archived in this process got there by its own reference reading back. */
  lemma ArchivedWasReadBack(states: seq<Writer>, steps: seq<Step>, queueSize: nat, found: Rows, n: nat, id: Id)
    requires Runs(states, steps, queueSize, found) && n < |states|
    requires id in states[n].rows && states[n].rows[id].state == Archived && id !in states[n].stale
    ensures id in states[n].confirmed && states[n].confirmed[id] == states[n].rows[id].reference
  {
    RunsKeepInvariant(states, steps, queueSize, found, n);
    assert RowInvariant(states[n], id);
  }

  // ---- In whose hands an archiving row is ----

  predicate Holds(call: Call, id: Id) {
    call == Putting(id) || call == Overflowing(id)
  }

  ghost predicate HeldByCall(w: Writer, id: Id) {
    exists c :: c in w.calls && Holds(w.calls[c], id)
  }

  ghost predicate HeldByOther(w: Writer, call: nat, id: Id) {
    exists c :: c in w.calls && c != call && Holds(w.calls[c], id)
  }

  /** The worker has it, or will take it: a queue counts only while somebody reads it. */
  ghost predicate WithWorker(w: Writer, id: Id) {
    w.worker == Holding(id) || w.worker == Failing(id) || (id in w.queue && !w.worker.Exited?)
  }

  ghost predicate InHand(w: Writer, id: Id) {
    WithWorker(w, id) || HeldByCall(w, id)
  }

  ghost predicate IsArchiving(w: Writer, id: Id) {
    id in w.rows && w.rows[id].state == Archiving
  }

  ghost predicate Stuck(w: Writer, id: Id) {
    IsArchiving(w, id) && !InHand(w, id)
  }

  ghost predicate Begins(w: Writer, step: Step, id: Id) {
    step.BeginCall? && step.call in w.calls && w.calls[step.call] == Beginning(id) && Begin(w.rows, id).1 == NowArchiving
  }

  /** The step gives this row a new start: it is persisted again, or its archiving begins again. */
  ghost predicate Revives(w: Writer, step: Step, id: Id) {
    (step.Store? && step.id == id) || Begins(w, step, id)
  }

  /**
   * The step takes the last hand off an archiving row: its call is interrupted after its begin, its call puts it into a
   * queue that has lost its worker, or the worker dies over it or with it in the queue.
   */
  ghost predicate LosesLastHand(w: Writer, step: Step, queueSize: nat, id: Id) {
    && IsArchiving(w, id)
    && match step
       case Interrupt(c) => c in w.calls && Holds(w.calls[c], id) && !HeldByOther(w, c, id) && !WithWorker(w, id)
       case Put(c) =>
         c in w.calls && w.calls[c] == Putting(id) && !HeldByOther(w, c, id) && w.worker.Exited? && |w.queue| < queueSize
       case Die => w.worker.Failing? && (w.worker.id == id || id in w.queue) && !HeldByCall(w, id)
       case _ => false
  }

  lemma LossSticks(w: Writer, step: Step, queueSize: nat, id: Id)
    requires Enabled(w, step) && LosesLastHand(w, step, queueSize, id)
    ensures Stuck(Apply(w, step, queueSize), id)
  {
    var v := Apply(w, step, queueSize);
    forall c | c in v.calls ensures !Holds(v.calls[c], id) {
      assert c in w.calls;
    }
  }

  lemma RevivalFrees(w: Writer, step: Step, queueSize: nat, id: Id)
    requires Enabled(w, step) && Revives(w, step, id)
    ensures !Stuck(Apply(w, step, queueSize), id)
  {
    if step.BeginCall? {
      assert Holds(Apply(w, step, queueSize).calls[step.call], id);
    }
  }

  lemma StuckStep(w: Writer, step: Step, queueSize: nat, id: Id)
    requires Enabled(w, step) && Stuck(w, id) && !Revives(w, step, id)
    ensures Stuck(Apply(w, step, queueSize), id)
  {
    var v := Apply(w, step, queueSize);
    forall c | c in v.calls ensures !Holds(v.calls[c], id) {
      assert c in w.calls ==> !Holds(w.calls[c], id);
    }
  }

  /** A call that holds the row still does, unless this is its step. */
  lemma CallKeepsHold(w: Writer, step: Step, queueSize: nat, call: nat, id: Id)
    requires Enabled(w, step) && call in w.calls && Holds(w.calls[call], id)
    requires (step.Put? || step.Overflow? || step.Interrupt?) ==> step.call != call
    ensures HeldByCall(Apply(w, step, queueSize), id)
  {
    var v := Apply(w, step, queueSize);
    assert call in v.calls && v.calls[call] == w.calls[call];
  }

  lemma OnlyLossesStrand(w: Writer, step: Step, queueSize: nat, id: Id)
    requires Enabled(w, step) && !Stuck(w, id) && Stuck(Apply(w, step, queueSize), id)
    ensures LosesLastHand(w, step, queueSize, id)
  {
    var v := Apply(w, step, queueSize);
    if step.BeginCall? && w.calls[step.call].id == id && Begin(w.rows, id).1 == NowArchiving {
      RevivalFrees(w, step, queueSize, id);
    }
    assert IsArchiving(w, id);
    forall c | c in w.calls && Holds(w.calls[c], id) ensures (step.Put? || step.Interrupt?) && step.call == c {
      if !((step.Put? || step.Overflow? || step.Interrupt?) && step.call == c) {
        CallKeepsHold(w, step, queueSize, c, id);
      }
    }
    if step.Put? && w.calls[step.call] == Putting(id) {
      if |w.queue| < queueSize {
        assert v.queue[|w.queue|] == id;
      } else {
        assert Holds(v.calls[step.call], id);
      }
    }
  }

  // ---- Exactly which rows are stuck ----

  /** It was stuck when the process started, and nothing has revived it. */
  ghost predicate LeftBehind(states: seq<Writer>, steps: seq<Step>, n: nat, id: Id)
    requires n <= |steps| < |states|
  {
    Stuck(states[0], id) && forall i | 0 <= i < n :: !Revives(states[i], steps[i], id)
  }

  /** Step m took the last hand off it, and nothing has revived it since. */
  ghost predicate LostAt(states: seq<Writer>, steps: seq<Step>, queueSize: nat, m: nat, n: nat, id: Id)
    requires n <= |steps| < |states|
  {
    m < n && LosesLastHand(states[m], steps[m], queueSize, id) && forall i | m < i < n :: !Revives(states[i], steps[i], id)
  }

  /** An archiving row in nobody's hands stays so, whatever else happens, until it is persisted or begun again. */
  lemma {:induction false} StuckStays(states: seq<Writer>, steps: seq<Step>, queueSize: nat, found: Rows, m: nat, n: nat, id: Id)
    requires Runs(states, steps, queueSize, found) && m <= n < |states|
    requires Stuck(states[m], id)
    requires forall i | m <= i < n :: !Revives(states[i], steps[i], id)
    ensures Stuck(states[n], id)
  {
    hide Apply, Stuck, Revives, Enabled;
    if m < n {
      StuckStays(states, steps, queueSize, found, m, n - 1, id);
      assert Moves(states[n - 1], steps[n - 1], states[n - 1 + 1], queueSize);
      StuckStep(states[n - 1], steps[n - 1], queueSize, id);
    }
  }

  /** A row is stuck if and only if it was left behind or lost its last hand at some step, and has not been revived since. */
  lemma {:induction false} StuckExactly(states: seq<Writer>, steps: seq<Step>, queueSize: nat, found: Rows, n: nat, id: Id)
    requires Runs(states, steps, queueSize, found) && n < |states|
    ensures Stuck(states[n], id) <==> LeftBehind(states, steps, n, id) || exists m: nat :: LostAt(states, steps, queueSize, m, n, id)
  {
    hide Apply, Stuck, Revives, Enabled, LosesLastHand;
    if Stuck(states[n], id) {
      StuckHasCause(states, steps, queueSize, found, n, id);
    }
    if LeftBehind(states, steps, n, id) {
      StuckStays(states, steps, queueSize, found, 0, n, id);
    }
    if m: nat :| LostAt(states, steps, queueSize, m, n, id) {
      assert Moves(states[m], steps[m], states[m + 1], queueSize);
      LossSticks(states[m], steps[m], queueSize, id);
      StuckStays(states, steps, queueSize, found, m + 1, n, id);
    }
  }

  lemma {:induction false} StuckHasCause(states: seq<Writer>, steps: seq<Step>, queueSize: nat, found: Rows, n: nat, id: Id)
    requires Runs(states, steps, queueSize, found) && n < |states| && Stuck(states[n], id)
    ensures LeftBehind(states, steps, n, id) || exists m: nat :: LostAt(states, steps, queueSize, m, n, id)
  {
    hide Apply, Stuck, Revives, Enabled, LosesLastHand;
    if n > 0 {
      var k := n - 1;
      assert Moves(states[k], steps[k], states[k + 1], queueSize);
      if !Stuck(states[k], id) {
        OnlyLossesStrand(states[k], steps[k], queueSize, id);
        assert LostAt(states, steps, queueSize, k, n, id);
      } else {
        StuckHasCause(states, steps, queueSize, found, k, id);
        if Revives(states[k], steps[k], id) {
          RevivalFrees(states[k], steps[k], queueSize, id);
        }
        if m: nat :| LostAt(states, steps, queueSize, m, k, id) {
          assert LostAt(states, steps, queueSize, m, n, id);
        }
      }
    }
  }

  /** Every other archiving row is with a call that has begun, with the worker, or in a queue that a worker reads. */
  lemma ArchivingIsInHand(states: seq<Writer>, steps: seq<Step>, queueSize: nat, found: Rows, n: nat, id: Id)
    requires Runs(states, steps, queueSize, found) && n < |states| && IsArchiving(states[n], id)
    ensures InHand(states[n], id) <==>
      !LeftBehind(states, steps, n, id) && !exists m: nat :: LostAt(states, steps, queueSize, m, n, id)
  {
    StuckExactly(states, steps, queueSize, found, n, id);
  }

  /** With no call interrupted, the worker alive and no process before, every archiving row is in hand. */
  lemma UndisturbedIsInHand(states: seq<Writer>, steps: seq<Step>, queueSize: nat, found: Rows, n: nat, id: Id)
    requires Runs(states, steps, queueSize, found) && n < |states| && IsArchiving(states[n], id)
    requires !Stuck(states[0], id)
    requires forall i | 0 <= i < n :: !steps[i].Interrupt? && !steps[i].Die? && !(steps[i].Put? && states[i].worker.Exited?)
    ensures InHand(states[n], id)
  {
    hide IsArchiving, InHand, Revives;
    ArchivingIsInHand(states, steps, queueSize, found, n, id);
  }

  /** With an idle worker, an empty queue and no call past its begin, the archiving rows are exactly those left behind or lost. */
  lemma IdleLeavesNoneArchiving(states: seq<Writer>, steps: seq<Step>, queueSize: nat, found: Rows, n: nat, id: Id)
    requires Runs(states, steps, queueSize, found) && n < |states|
    requires states[n].queue == [] && !states[n].worker.Holding? && !states[n].worker.Failing?
    requires forall c | c in states[n].calls :: !states[n].calls[c].Putting? && !states[n].calls[c].Overflowing?
    ensures IsArchiving(states[n], id) <==>
      LeftBehind(states, steps, n, id) || exists m: nat :: LostAt(states, steps, queueSize, m, n, id)
  {
    hide LeftBehind, LostAt;
    StuckExactly(states, steps, queueSize, found, n, id);
    assert !InHand(states[n], id);
  }

  // ---- Rows in a queue that nobody reads ----

  /** The row lies in the queue, archiving, and nobody will take it out. */
  ghost predicate Unserved(w: Writer, id: Id) {
    Stuck(w, id) && id in w.queue
  }

  /** Its last hand goes and it is, or is put, in the queue: the worker died with it queued, or has exited before. */
  ghost predicate LosesToQueue(w: Writer, step: Step, queueSize: nat, id: Id) {
    LosesLastHand(w, step, queueSize, id) && (step.Put? || id in w.queue)
  }

  ghost predicate LostToQueueAt(states: seq<Writer>, steps: seq<Step>, queueSize: nat, m: nat, n: nat, id: Id)
    requires n <= |steps| < |states|
  {
    m < n && LosesToQueue(states[m], steps[m], queueSize, id) && forall i | m < i < n :: !Revives(states[i], steps[i], id)
  }

  lemma UnservedStep(w: Writer, step: Step, queueSize: nat, id: Id)
    requires Enabled(w, step)
    ensures Unserved(w, id) && !Revives(w, step, id) ==> Unserved(Apply(w, step, queueSize), id)
    ensures LosesToQueue(w, step, queueSize, id) ==> Unserved(Apply(w, step, queueSize), id)
    ensures Unserved(Apply(w, step, queueSize), id) ==> Unserved(w, id) || LosesToQueue(w, step, queueSize, id)
  {
    hide Stuck, Revives, LosesLastHand;
    var v := Apply(w, step, queueSize);
    if Stuck(w, id) && !Revives(w, step, id) {
      StuckStep(w, step, queueSize, id);
    }
    if LosesLastHand(w, step, queueSize, id) {
      LossSticks(w, step, queueSize, id);
    }
    if !Stuck(w, id) && Stuck(v, id) {
      OnlyLossesStrand(w, step, queueSize, id);
    }
    QueueOfStuck(w, step, queueSize, id);
  }

  /** What a step does to the queue, as far as a stuck row is concerned. */
  lemma QueueOfStuck(w: Writer, step: Step, queueSize: nat, id: Id)
    requires Enabled(w, step)
    ensures Stuck(w, id) ==> (id in Apply(w, step, queueSize).queue <==> id in w.queue)
    ensures LosesLastHand(w, step, queueSize, id) ==> (id in Apply(w, step, queueSize).queue <==> step.Put? || id in w.queue)
  {
    if step.Put? && |w.queue| < queueSize {
      assert Apply(w, step, queueSize).queue[|w.queue|] == w.calls[step.call].id;
      assert w.calls[step.call] == Putting(id) ==> HeldByCall(w, id);
    }
  }

  /** A row is left in a queue that nobody reads if and only if it was put there after the worker's end, was queued when the
      worker died, or lay there when a call asking for it again was interrupted; and has not been revived since. */
  lemma {:induction false} QueueStrandsExactly(states: seq<Writer>, steps: seq<Step>, queueSize: nat, found: Rows, n: nat, id: Id)
    requires Runs(states, steps, queueSize, found) && n < |states|
    ensures Unserved(states[n], id) <==> exists m: nat :: LostToQueueAt(states, steps, queueSize, m, n, id)
  {
    hide Apply, Stuck, Revives, Enabled, LosesToQueue;
    if n > 0 {
      var k := n - 1;
      assert Moves(states[k], steps[k], states[k + 1], queueSize);
      QueueStrandsExactly(states, steps, queueSize, found, k, id);
      UnservedStep(states[k], steps[k], queueSize, id);
      if Unserved(states[n], id) {
        if LosesToQueue(states[k], steps[k], queueSize, id) {
          assert LostToQueueAt(states, steps, queueSize, k, n, id);
        } else {
          if Revives(states[k], steps[k], id) {
            RevivalFrees(states[k], steps[k], queueSize, id);
          }
          var m: nat :| LostToQueueAt(states, steps, queueSize, m, k, id);
          assert LostToQueueAt(states, steps, queueSize, m, n, id);
        }
      }
      if m: nat :| LostToQueueAt(states, steps, queueSize, m, n, id) {
        if m < k {
          assert LostToQueueAt(states, steps, queueSize, m, k, id);
        }
      }
    }
  }

  /** The writer is closed, its worker gone, and no call is under way. */
  ghost predicate WoundUp(w: Writer) {
    w.closed && w.worker.Exited? && forall c | c in w.calls :: w.calls[c].Returned? || w.calls[c].Interrupted?
  }

  lemma WoundUpStep(w: Writer, step: Step, queueSize: nat, id: Id)
    requires Enabled(w, step) && WoundUp(w)
    ensures WoundUp(Apply(w, step, queueSize))
    ensures IsArchiving(Apply(w, step, queueSize), id) <==> IsArchiving(w, id) && !(step.Store? && step.id == id)
  {
  }

  /** If no call is under way when the worker exits, the rows archiving from then on are those that were stuck already and are not persisted again. */
  lemma {:induction false} CleanExitLeavesOnlyStuck(states: seq<Writer>, steps: seq<Step>, queueSize: nat, found: Rows, m: nat, n: nat, id: Id)
    requires Runs(states, steps, queueSize, found) && m < n < |states| && steps[m] == Exit
    requires forall c | c in states[m].calls :: states[m].calls[c].Returned? || states[m].calls[c].Interrupted?
    ensures WoundUp(states[n])
    ensures IsArchiving(states[n], id) <==> Stuck(states[m], id) && forall i | m < i < n :: !(steps[i].Store? && steps[i].id == id)
  {
    hide Apply, IsArchiving;
    assert Moves(states[n - 1], steps[n - 1], states[n - 1 + 1], queueSize);
    if n == m + 1 {
      ExitWindsUp(states[m], queueSize, id);
    } else {
      CleanExitLeavesOnlyStuck(states, steps, queueSize, found, m, n - 1, id);
      WoundUpStep(states[n - 1], steps[n - 1], queueSize, id);
    }
  }

  lemma ExitWindsUp(w: Writer, queueSize: nat, id: Id)
    requires Enabled(w, Exit) && forall c | c in w.calls :: w.calls[c].Returned? || w.calls[c].Interrupted?
    ensures WoundUp(Apply(w, Exit, queueSize)) && (IsArchiving(Apply(w, Exit, queueSize), id) <==> Stuck(w, id))
  {
  }

  /** Once the worker is gone, whether by close or by an error, nothing becomes archived any more. */
  lemma {:induction false} NothingArchivedWithoutWorker(states: seq<Writer>, steps: seq<Step>, queueSize: nat, found: Rows, m: nat, n: nat, id: Id)
    requires Runs(states, steps, queueSize, found) && m <= n < |states| && states[m].worker.Exited?
    ensures states[n].worker.Exited?
    ensures id in states[n].rows && states[n].rows[id].state == Archived ==> id in states[m].rows && states[m].rows[id].state == Archived
  {
    if m < n {
      NothingArchivedWithoutWorker(states, steps, queueSize, found, m, n - 1, id);
      assert Moves(states[n - 1], steps[n - 1], states[n - 1 + 1], queueSize);
    }
  }

  // ---- Pins ----

  ghost predicate IsPinned(w: Writer, id: Id) {
    id in w.rows && w.rows[id].pinned
  }

  ghost predicate Pins(w: Writer, step: Step, id: Id) {
    step.Pin? && step.id == id && step.pinned && id in w.rows
  }

  ghost predicate Unpins(step: Step, id: Id) {
    (step.Pin? && step.id == id && !step.pinned) || (step.Store? && step.id == id)
  }

  ghost predicate Archives(w: Writer, step: Step, id: Id) {
    step == Finish(true) && w.worker == Holding(id) && IsArchiving(w, id)
  }

  lemma PinStep(w: Writer, step: Step, queueSize: nat, id: Id)
    requires Enabled(w, step)
    ensures IsPinned(Apply(w, step, queueSize), id) <==> Pins(w, step, id) || (IsPinned(w, id) && !Unpins(step, id))
    ensures Begins(w, step, id) ==> !IsPinned(w, id)
  {
  }

  /** Pinned at step k, with neither an end of the pin nor a begin since. */
  ghost predicate PinnedSince(states: seq<Writer>, steps: seq<Step>, k: nat, n: nat, id: Id)
    requires n <= |steps| < |states|
  {
    && k < n && Pins(states[k], steps[k], id)
    && forall i | k < i < n :: !Unpins(steps[i], id) && !Begins(states[i], steps[i], id)
  }

  /** Pinned before the process began, with neither an end of the pin nor a begin since. */
  ghost predicate PinnedAllAlong(states: seq<Writer>, steps: seq<Step>, n: nat, id: Id)
    requires n <= |steps| < |states|
  {
    IsPinned(states[0], id) && forall i | 0 <= i < n :: !Unpins(steps[i], id) && !Begins(states[i], steps[i], id)
  }

  /** A row is pinned if and only if it was pinned after its last begin, and the pin has not ended. */
  lemma {:induction false} PinnedExactly(states: seq<Writer>, steps: seq<Step>, queueSize: nat, found: Rows, n: nat, id: Id)
    requires Runs(states, steps, queueSize, found) && n < |states|
    ensures IsPinned(states[n], id) <==>
      PinnedAllAlong(states, steps, n, id) || exists k: nat :: PinnedSince(states, steps, k, n, id)
  {
    hide Apply, Enabled, IsPinned, Pins, Unpins, Begins;
    if n > 0 {
      var m := n - 1;
      PinnedExactly(states, steps, queueSize, found, m, id);
      assert Moves(states[m], steps[m], states[m + 1], queueSize);
      PinStep(states[m], steps[m], queueSize, id);
      if Pins(states[m], steps[m], id) {
        assert PinnedSince(states, steps, m, n, id);
      } else if IsPinned(states[n], id) {
        if k: nat :| PinnedSince(states, steps, k, m, id) {
          assert PinnedSince(states, steps, k, n, id);
        }
      }
      if k: nat :| PinnedSince(states, steps, k, n, id) {
        assert k < m ==> PinnedSince(states, steps, k, m, id);
      }
    }
  }

  /** So a row that is pinned when it becomes archived was pinned after its last begin; and it stays pinned. */
  lemma PinnedWhenArchived(states: seq<Writer>, steps: seq<Step>, queueSize: nat, found: Rows, n: nat, id: Id)
    requires Runs(states, steps, queueSize, found) && n < |steps| && Archives(states[n], steps[n], id)
    ensures states[n + 1].rows[id].state == Archived
    ensures IsPinned(states[n + 1], id) <==>
      PinnedAllAlong(states, steps, n, id) || exists k: nat :: PinnedSince(states, steps, k, n, id)
  {
    hide PinnedAllAlong, PinnedSince;
    assert Moves(states[n], steps[n], states[n + 1], queueSize);
    PinnedExactly(states, steps, queueSize, found, n, id);
  }

  // ---- That it happens ----

  ghost predicate CanBeArchived(found: Rows, id: Id) {
    Flagged(found) && id in found && found[id].state == Active && !found[id].archived && !found[id].pinned
  }

  lemma RunsOn(states: seq<Writer>, steps: seq<Step>, queueSize: nat, found: Rows, step: Step) returns (further: seq<Writer>)
    requires Runs(states, steps, queueSize, found) && Enabled(states[|steps|], step)
    ensures Runs(further, steps + [step], queueSize, found)
    ensures |further| == |steps| + 2 && further[|steps| + 1] == Apply(states[|steps|], step, queueSize)
  {
    hide Apply, Enabled;
    further := states + [Apply(states[|steps|], step, queueSize)];
    forall i | 0 <= i <= |steps| ensures Moves(further[i], (steps + [step])[i], further[i + 1], queueSize) {
      assert i < |steps| ==> Moves(states[i], steps[i], states[i + 1], queueSize);
    }
  }

  /** One call has begun and not yet put its row into the queue. */
  lemma CallBegins(found: Rows, id: Id, queueSize: nat) returns (states: seq<Writer>)
    requires CanBeArchived(found, id)
    ensures Runs(states, [Request(0, id), BeginCall(0)], queueSize, found)
    ensures var w := states[2];
      && w.calls == map[0 := Putting(id)] && w.queue == [] && w.worker.Idle? && !w.closed
      && id in w.rows && w.rows[id].state == Archiving
  {
    var a := Start(found);
    states := RunsOn([a], [], queueSize, found, Request(0, id));
    assert states[1].calls == map[0 := Beginning(id)];
    states := RunsOn(states, [Request(0, id)], queueSize, found, BeginCall(0));
    assert [Request(0, id)] + [BeginCall(0)] == [Request(0, id), BeginCall(0)];
  }

  /** A call that is cancelled between its begin and its put leaves its row stuck, with the writer open and idle. */
  lemma CancelledCallStrands(found: Rows, id: Id, queueSize: nat) returns (states: seq<Writer>)
    requires CanBeArchived(found, id)
    ensures Runs(states, [Request(0, id), BeginCall(0), Interrupt(0)], queueSize, found)
    ensures !states[3].closed && states[3].worker.Idle? && Stuck(states[3], id)
  {
    states := CallBegins(found, id, queueSize);
    states := RunsOn(states, [Request(0, id), BeginCall(0)], queueSize, found, Interrupt(0));
    assert [Request(0, id), BeginCall(0)] + [Interrupt(0)] == [Request(0, id), BeginCall(0), Interrupt(0)];
  }

  /** A call that began before close can put its row into a queue that nobody serves any more. */
  lemma CloseCanStrand(found: Rows, id: Id, queueSize: nat) returns (states: seq<Writer>)
    requires CanBeArchived(found, id) && queueSize > 0
    ensures Runs(states, [Request(0, id), BeginCall(0), Close, Exit, Put(0)], queueSize, found)
    ensures Unserved(states[5], id)
  {
    var steps := [Request(0, id), BeginCall(0)];
    states := CallBegins(found, id, queueSize);
    states := RunsOn(states, steps, queueSize, found, Close);
    states := RunsOn(states, steps + [Close], queueSize, found, Exit);
    states := RunsOn(states, steps + [Close] + [Exit], queueSize, found, Put(0));
    assert steps + [Close] + [Exit] + [Put(0)] == [Request(0, id), BeginCall(0), Close, Exit, Put(0)];
  }

  /** The call has put its row into the queue and the worker has taken it out. */
  lemma WorkerTakes(found: Rows, id: Id, queueSize: nat) returns (states: seq<Writer>)
    requires CanBeArchived(found, id) && queueSize > 0
    ensures Runs(states, [Request(0, id), BeginCall(0), Put(0), Take], queueSize, found)
    ensures var w := states[4];
      w.calls == map[0 := Returned(NowArchiving)] && w.queue == [] && w.worker == Holding(id) && !w.closed && IsArchiving(w, id)
  {
    var steps := [Request(0, id), BeginCall(0)];
    states := CallBegins(found, id, queueSize);
    states := RunsOn(states, steps, queueSize, found, Put(0));
    states := RunsOn(states, steps + [Put(0)], queueSize, found, Take);
    assert steps + [Put(0)] + [Take] == [Request(0, id), BeginCall(0), Put(0), Take];
  }

  /** A pin that comes after the begin does not stop the archive. */
  lemma LatePinIsArchived(found: Rows, id: Id, queueSize: nat) returns (states: seq<Writer>)
    requires CanBeArchived(found, id) && queueSize > 0
    ensures Runs(states, [Request(0, id), BeginCall(0), Put(0), Take, Pin(id, true), Finish(true)], queueSize, found)
    ensures IsPinned(states[6], id) && states[6].rows[id].state == Archived
  {
    var steps := [Request(0, id), BeginCall(0), Put(0), Take];
    states := WorkerTakes(found, id, queueSize);
    states := RunsOn(states, steps, queueSize, found, Pin(id, true));
    assert IsPinned(states[5], id) && IsArchiving(states[5], id) && states[5].worker == Holding(id);
    states := RunsOn(states, steps + [Pin(id, true)], queueSize, found, Finish(true));
    assert steps + [Pin(id, true)] + [Finish(true)] == [Request(0, id), BeginCall(0), Put(0), Take, Pin(id, true), Finish(true)];
  }

  /** An error while a failure is recorded ends the worker although the writer is open. */
  lemma WorkerCanDie(found: Rows, id: Id, queueSize: nat) returns (states: seq<Writer>)
    requires CanBeArchived(found, id) && queueSize > 0
    ensures Runs(states, [Request(0, id), BeginCall(0), Put(0), Take, Finish(false), Die], queueSize, found)
    ensures !states[6].closed && states[6].worker.Exited? && Stuck(states[6], id)
  {
    var steps := [Request(0, id), BeginCall(0), Put(0), Take];
    states := WorkerTakes(found, id, queueSize);
    states := RunsOn(states, steps, queueSize, found, Finish(false));
    states := RunsOn(states, steps + [Finish(false)], queueSize, found, Die);
    assert steps + [Finish(false)] + [Die] == [Request(0, id), BeginCall(0), Put(0), Take, Finish(false), Die];
  }

  /** From then on every request that finds room in the queue is answered as archiving and stays there unserved. */
  lemma LaterRequestsAreUnserved(w: Writer, call: nat, queueSize: nat, id: Id)
    requires w.worker.Exited? && |w.queue| < queueSize && !HeldByCall(w, id)
    requires call in w.calls && w.calls[call] == Beginning(id) && Begin(w.rows, id).1 == NowArchiving
    ensures var begun := Apply(w, BeginCall(call), queueSize);
      && Enabled(begun, Put(call))
      && var put := Apply(begun, Put(call), queueSize);
      put.calls[call] == Returned(NowArchiving) && Unserved(put, id)
  {
    var begun := Apply(w, BeginCall(call), queueSize);
    assert forall c | c in begun.calls && c != call :: !Holds(w.calls[c], id) && begun.calls[c] == w.calls[c];
    assert LosesToQueue(begun, Put(call), queueSize, id);
    UnservedStep(begun, Put(call), queueSize, id);
  }
}
