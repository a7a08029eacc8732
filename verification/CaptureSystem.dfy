// The capture protocol as a step system: producers, the one writer thread and the closers
// interleave freely; every step is one critical section or one file operation.
module CaptureSystem {
  import opened Wrappers
  import opened Frames
  import opened Captures
  import opened CaptureStore

  datatype Record = Record(requestId: string, event: Event)

  type Disk = map<Path, Bytes>

  /** What stays fixed: the quotas, how records become frames, and the capture files found at start. */
  datatype Config = Config(limits: Limits, codec: Codec<Record>, initial: Disk)

  datatype Outcome = Outcome(persisted: nat, drop: Option<DropReason>)

  /** The writer thread: which item it holds and how far it is with it. */
  datatype Worker =
    | Resting
    | Taken(item: Frame)
    | Unpoisoned(item: Frame)
    | Writing(item: Frame)
    | Written(item: Frame, outcome: Outcome)
    | Exited
    | Crashed

  /** The store, its writer and the files. `log` is the history of accepted frames, `done` what became of the first of them. */
  datatype Pipe = Pipe(store: Store, worker: Worker, disk: Disk, log: seq<Frame>, done: seq<Outcome>)

  /** What an append does when it returns: nothing more, or the rest of finish. */
  datatype Continuation = Return | EndFinish(complete: bool)

  datatype Thread =
    | Idle
    | Ending(capture: nat, event: Event, complete: bool)
    | Appending(capture: nat, event: Event, position: nat, after: Continuation)
    | Rejected(capture: nat, eventType: EventType, reason: DropReason, position: nat, after: Continuation)
    | Settling(capture: nat, complete: bool)
    | Waiting(capture: nat)
    | Flushing
    | Joining

  /** `emitted` is the history of each capture's events; `crowded` the captures on which two appends ever overlapped. */
  datatype System = System(pipe: Pipe, captures: map<nat, Capture>, threads: map<nat, Thread>,
                           emitted: map<nat, seq<Event>>, crowded: set<nat>)

  datatype Step =
    | Create(capture: nat, path: Path, requestId: string)
    | Emit(thread: nat, capture: nat, event: Event)
    | Finish(thread: nat, capture: nat, event: Event, complete: bool)
    | EmitEnd(thread: nat)
    | Encode(thread: nat, encoded: Option<Bytes>, probe: Probe)
    | Drop(thread: nat)
    | Settle(thread: nat)
    | FinishReturn(thread: nat)
    | Shorten(capture: nat, eventType: EventType)
    | BeginClose(thread: nat)
    | FlushReturn(thread: nat)
    | JoinReturn(thread: nat)
    | Take
    | Stop
    | CheckPoisoned
    | CheckFailure
    | Write(opens: bool, accepted: nat, closes: bool)
    | Complete

  function ThreadOf(s: System, t: nat): Thread {
    if t in s.threads then s.threads[t] else Idle
  }

  function FileBytes(disk: Disk, path: Path): Bytes {
    if path in disk then disk[path] else []
  }

  // ---- The store, its writer and the files ----

  /** The answers a probe of the disk gives, apart from the failures that asking may have. */
  ghost predicate Honest(cfg: Config, disk: Disk, path: Path, probe: Probe)
    requires ValidCodec(cfg.codec)
  {
    && probe.isFile == (path in disk) && probe.size == |FileBytes(disk, path)|
    && (probe.readable ==> Parse(cfg.codec, FileBytes(disk, path)).fault == None)
  }

  function PipeAppend(cfg: Config, p: Pipe, f: Frame, probe: Probe): Pipe {
    var appended := Append(p.store, cfg.limits, f, probe);
    p.(store := appended.store, log := if appended.refusal == None then p.log + [f] else p.log)
  }

  function PipeTake(p: Pipe): Pipe
    requires p.store.queue != []
  {
    p.(worker := Taken(p.store.queue[0]), store := p.store.(queue := p.store.queue[1..]))
  }

  function PipeCheckPoisoned(p: Pipe): Pipe
    requires p.worker.Taken?
  {
    var f := p.worker.item;
    p.(worker := if f.path in p.store.poisoned then Written(f, Outcome(0, Some(PathPoisoned))) else Unpoisoned(f))
  }

  function PipeCheckFailure(p: Pipe, failed: bool): Pipe
    requires p.worker.Unpoisoned?
  {
    var f := p.worker.item;
    p.(worker := if failed then Written(f, Outcome(0, Some(WriterError))) else Writing(f))
  }

  /** One unbuffered append: opening may fail, the write may accept any part of the frame, closing may fail afterwards. */
  function PipeWrite(p: Pipe, opens: bool, accepted: nat, closes: bool): Pipe
    requires p.worker.Writing? && accepted <= |p.worker.item.bytes|
  {
    var f := p.worker.item;
    var persisted := if opens then accepted else 0;
    var failed := !opens || persisted != |f.bytes| || !closes;
    p.(disk := if opens then p.disk[f.path := FileBytes(p.disk, f.path) + f.bytes[..persisted]] else p.disk,
       worker := Written(f, Outcome(persisted, if failed then Some(WriterError) else None)))
  }

  /** Settles the reservation; a missing entry would be a KeyError that ends the writer thread. */
  function PipeComplete(p: Pipe): Pipe
    requires p.worker.Written? && p.worker.outcome.persisted <= |p.worker.item.bytes|
  {
    var f, o := p.worker.item, p.worker.outcome;
    if o.persisted < |f.bytes| && f.path !in p.store.reserved then p.(worker := Crashed)
    else p.(store := CompleteWrite(p.store, f, o.persisted), worker := Resting, done := p.done + [o])
  }

  // ---- The steps ----

  ghost predicate ValidConfig(cfg: Config) {
    ValidCodec(cfg.codec)
  }

  ghost predicate Enabled(cfg: Config, s: System, step: Step)
    requires ValidConfig(cfg)
  {
    match step
    case Create(c, path, requestId) => c !in s.captures
    case Emit(t, c, event) => ThreadOf(s, t).Idle? && c in s.captures && c in s.emitted
    case Finish(t, c, event, complete) => ThreadOf(s, t).Idle? && c in s.captures
    case EmitEnd(t) => ThreadOf(s, t).Ending? && ThreadOf(s, t).capture in s.captures && ThreadOf(s, t).capture in s.emitted
    case Encode(t, encoded, probe) =>
      && ThreadOf(s, t).Appending? && ThreadOf(s, t).capture in s.captures
      && var c := s.captures[ThreadOf(s, t).capture];
      && Honest(cfg, s.pipe.disk, c.path, probe)
      && (encoded.Some? ==> IsFrame(cfg.codec, encoded.value, Record(c.requestId, ThreadOf(s, t).event)))
    case Drop(t) => ThreadOf(s, t).Rejected? && ThreadOf(s, t).capture in s.captures
    case Settle(t) => ThreadOf(s, t).Settling? && ThreadOf(s, t).capture in s.captures
    case FinishReturn(t) =>
      ThreadOf(s, t).Waiting? && ThreadOf(s, t).capture in s.captures && s.captures[ThreadOf(s, t).capture].pending == 0
    case Shorten(c, eventType) => c in s.captures
    case BeginClose(t) => ThreadOf(s, t).Idle?
    case FlushReturn(t) => ThreadOf(s, t).Flushing? && s.pipe.store.queue == [] && s.pipe.worker.Resting?
    case JoinReturn(t) => ThreadOf(s, t).Joining? && s.pipe.worker.Exited?
    case Take => s.pipe.worker.Resting? && s.pipe.store.queue != []
    case Stop => s.pipe.worker.Resting? && s.pipe.store.queue == [] && s.pipe.store.sentinel
    case CheckPoisoned => s.pipe.worker.Taken?
    case CheckFailure => s.pipe.worker.Unpoisoned? && s.pipe.worker.item.capture in s.captures
    case Write(opens, accepted, closes) => s.pipe.worker.Writing? && accepted <= |s.pipe.worker.item.bytes|
    case Complete =>
      && s.pipe.worker.Written? && s.pipe.worker.outcome.persisted <= |s.pipe.worker.item.bytes|
      && s.pipe.worker.item.capture in s.captures
  }

  function Becomes(s: System, t: nat, thread: Thread): System {
    s.(threads := s.threads[t := thread])
  }

  function Changes(s: System, c: nat, capture: Capture): System {
    s.(captures := s.captures[c := capture])
  }

  function Continue(c: nat, after: Continuation): Thread {
    match after
    case Return => Idle
    case EndFinish(complete) => Settling(c, complete)
  }

  /** Some thread is past the enabled check with an event of this capture, and has not returned from append_event. */
  ghost predicate Underway(s: System, c: nat) {
    exists t :: InAppend(ThreadOf(s, t), c)
  }

  ghost predicate InAppend(thread: Thread, c: nat) {
    (thread.Appending? || thread.Rejected?) && thread.capture == c
  }

  /** append_event's first critical section: either the event is noted as missing, or the append goes ahead. */
  ghost function EmitOn(s: System, t: nat, c: nat, event: Event, after: Continuation): System
    requires c in s.captures && c in s.emitted
  {
    var counted := s.(emitted := s.emitted[c := s.emitted[c] + [event]]);
    if !s.captures[c].enabled then
      var noted := s.captures[c].(missing := s.captures[c].missing + {event.evidence.eventType});
      Becomes(Changes(counted, c, noted), t, Continue(c, after))
    else
      Becomes(counted, t, Appending(c, event, |s.emitted[c]|, after))
        .(crowded := if Underway(s, c) then s.crowded + {c} else s.crowded)
  }

  /** The store's critical section, or the failure of the encoding in front of it. */
  ghost function EncodeOn(cfg: Config, s: System, t: nat, encoded: Option<Bytes>, probe: Probe): System
    requires ThreadOf(s, t).Appending? && ThreadOf(s, t).capture in s.captures
  {
    var thread := ThreadOf(s, t);
    var c := thread.capture;
    match encoded
    case None => Becomes(s, t, Rejected(c, thread.event.evidence.eventType, CaptureError, thread.position, thread.after))
    case Some(bytes) =>
      var f := Frame(s.captures[c].path, bytes, c, thread.event, thread.position);
      var appended := s.(pipe := PipeAppend(cfg, s.pipe, f, probe));
      match Append(s.pipe.store, cfg.limits, f, probe).refusal
      case None => Becomes(Changes(appended, c, NoteQueued(s.captures[c])), t, Continue(c, thread.after))
      case Some(reason) => Becomes(appended, t, Rejected(c, thread.event.evidence.eventType, reason, thread.position, thread.after))
  }

  ghost function CompleteOn(s: System): System
    requires s.pipe.worker.Written? && s.pipe.worker.outcome.persisted <= |s.pipe.worker.item.bytes|
    requires s.pipe.worker.item.capture in s.captures
  {
    var f, o, p := s.pipe.worker.item, s.pipe.worker.outcome, PipeComplete(s.pipe);
    if p.worker.Crashed? then s.(pipe := p)
    else Changes(s.(pipe := p), f.capture, NoteCompleted(s.captures[f.capture], f.event.evidence, o.drop))
  }

  ghost function Apply(cfg: Config, s: System, step: Step): System
    requires ValidConfig(cfg) && Enabled(cfg, s, step)
  {
    match step
    case Create(c, path, requestId) => Changes(s, c, Fresh(path, requestId)).(emitted := s.emitted[c := []])
    case Emit(t, c, event) => EmitOn(s, t, c, event, Return)
    case Finish(t, c, event, complete) =>
      if s.captures[c].finished then s
      else Becomes(Changes(s, c, s.captures[c].(finished := true)), t, Ending(c, event, complete))
    case EmitEnd(t) =>
      var thread := ThreadOf(s, t);
      EmitOn(s, t, thread.capture, thread.event, EndFinish(thread.complete))
    case Encode(t, encoded, probe) => EncodeOn(cfg, s, t, encoded, probe)
    case Drop(t) =>
      var thread := ThreadOf(s, t);
      var c := thread.capture;
      Becomes(Changes(s, c, MarkDrop(s.captures[c], thread.reason, thread.eventType)), t, Continue(c, thread.after))
    case Settle(t) =>
      var thread := ThreadOf(s, t);
      var c := thread.capture;
      Becomes(if thread.complete then s else Changes(s, c, MarkDrop(s.captures[c], RequestIncomplete, RequestEnd)), t, Waiting(c))
    case FinishReturn(t) => Becomes(s, t, Idle)
    case Shorten(c, eventType) => Changes(s, c, NoteIncomplete(s.captures[c], eventType))
    case BeginClose(t) =>
      if s.pipe.store.closed then s
      else Becomes(s.(pipe := s.pipe.(store := s.pipe.store.(closed := true))), t, Flushing)
    case FlushReturn(t) => Becomes(s.(pipe := s.pipe.(store := s.pipe.store.(sentinel := true))), t, Joining)
    case JoinReturn(t) => Becomes(s, t, Idle)
    case Take => s.(pipe := PipeTake(s.pipe))
    case Stop => s.(pipe := s.pipe.(worker := Exited))
    case CheckPoisoned => s.(pipe := PipeCheckPoisoned(s.pipe))
    case CheckFailure => s.(pipe := PipeCheckFailure(s.pipe, s.captures[s.pipe.worker.item.capture].writerErrorEvent != None))
    case Write(opens, accepted, closes) => s.(pipe := PipeWrite(s.pipe, opens, accepted, closes))
    case Complete => CompleteOn(s)
  }

  /** The sizes of all files, together. */
  ghost function TotalBytes(disk: Disk): nat {
    if disk == map[] then 0
    else
      var path :| path in disk;
      |disk[path]| + TotalBytes(disk - {path})
  }

  ghost function Start(cfg: Config): System {
    System(Pipe(Opened(TotalBytes(cfg.initial)), Resting, cfg.initial, [], []), map[], map[], map[], {})
  }

  /** The state after a run, if every step of it was possible when it was taken. */
  ghost function After(cfg: Config, steps: seq<Step>): Option<System>
    requires ValidConfig(cfg)
  {
    if steps == [] then Some(Start(cfg))
    else
      var n := |steps| - 1;
      match After(cfg, steps[..n])
      case Some(s) => if Enabled(cfg, s, steps[n]) then Some(Apply(cfg, s, steps[n])) else None
      case None => None
  }

  ghost predicate Reachable(cfg: Config, s: System)
    requires ValidConfig(cfg)
  {
    exists steps :: After(cfg, steps) == Some(s)
  }
}
