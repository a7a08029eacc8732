// Every run of the capture protocol, whatever the interleaving and whichever writes fail.
module CaptureRuns {
  import opened Wrappers
  import opened Frames
  import opened Captures
  import opened CaptureStore
  import opened CaptureSystem
  import opened CaptureAccounts
  import opened CaptureFiles
  import opened CaptureLedger
  import opened CapturePositions

  ghost predicate Invariant(cfg: Config, s: System)
    requires ValidConfig(cfg)
  {
    Accounted(cfg, s.pipe) && Kempt(cfg, s.pipe) && Noted(cfg, s) && Traced(s)
  }

  lemma StartIsFine(cfg: Config)
    requires ValidConfig(cfg)
    ensures Invariant(cfg, Start(cfg))
  {
    var p := Start(cfg).pipe;
    forall path ensures PathAccount(cfg, p, path) && CaptureFiles.Holds(cfg, p, path) {
      assert FileBytes(p.disk, path) + [] == FileBytes(p.disk, path);
    }
    assert forall c :: AllLocated(Start(cfg), c);
  }

  /** A producer's step that only takes note of something on one capture and moves one thread outside append. */
  lemma NoteStep(cfg: Config, s: System, q: System, c: nat)
    requires ValidConfig(cfg) && Invariant(cfg, s) && c in s.captures && c in q.captures && Tweaks(s.captures[c], q.captures[c])
    requires q.pipe == s.pipe && q.captures == s.captures[c := q.captures[c]] && Traced(q)
    ensures Invariant(cfg, q)
  {
    TweakKeeps(cfg, s, q, c);
  }

  lemma EmitTweaks(s: System, t: nat, c: nat, event: Event, after: Continuation)
    requires c in s.captures && c in s.emitted && (s.captures[c].enabled <==> s.captures[c].dropReason == None)
    ensures var q := EmitOn(s, t, c, event, after);
      q.pipe == s.pipe && c in q.captures && q.captures == s.captures[c := q.captures[c]] && Tweaks(s.captures[c], q.captures[c])
  {
    assert s.captures[c := s.captures[c]] == s.captures;
  }

  lemma EmitStep(cfg: Config, s: System, t: nat, c: nat, event: Event, after: Continuation)
    requires ValidConfig(cfg) && Invariant(cfg, s) && c in s.captures && c in s.emitted
    requires !ThreadOf(s, t).Appending? && !ThreadOf(s, t).Rejected?
    ensures Invariant(cfg, EmitOn(s, t, c, event, after))
  {
    assert Balanced(s.pipe, c, s.captures[c]);
    EmitTraces(s, EmitOn(s, t, c, event, after), t, c, event, after);
    EmitTweaks(s, t, c, event, after);
    hide Traced, Accounted, Kempt, Tweaks, EmitOn;
    TweakKeeps(cfg, s, EmitOn(s, t, c, event, after), c);
  }

  lemma EncodeStep(cfg: Config, s: System, t: nat, encoded: Option<Bytes>, probe: Probe)
    requires ValidConfig(cfg) && Invariant(cfg, s) && Enabled(cfg, s, Encode(t, encoded, probe))
    ensures Invariant(cfg, EncodeOn(cfg, s, t, encoded, probe))
  {
    var thread, q := ThreadOf(s, t), EncodeOn(cfg, s, t, encoded, probe);
    var c := thread.capture;
    match encoded
    case None =>
      RefuseTraces(s, q, t, thread.event.evidence.eventType, CaptureError);
      hide Traced, Accounted, Kempt;
      QuietKeepsNotes(cfg, s, q);
    case Some(bytes) =>
      var f := Frame(s.captures[c].path, bytes, c, thread.event, thread.position);
      AppendFacts(cfg, s.pipe, f, probe);
      AppendKeeps(cfg, s.pipe, f, probe);
      AppendKeepsFiles(cfg, s.pipe, f, probe);
      hide Traced, Accounted, Kempt, PipeAppend, Append, Appends;
      AcceptOrRefuse(cfg, s, q, t, f, probe);
  }

  lemma AcceptOrRefuse(cfg: Config, s: System, q: System, t: nat, f: Frame, probe: Probe)
    requires ValidConfig(cfg) && Invariant(cfg, s) && ThreadOf(s, t).Appending? && ThreadOf(s, t).capture in s.captures
    requires f == Frame(s.captures[ThreadOf(s, t).capture].path, f.bytes, ThreadOf(s, t).capture, ThreadOf(s, t).event, ThreadOf(s, t).position)
    requires FrameOf(cfg, s, f) && q == EncodeOn(cfg, s, t, Some(f.bytes), probe)
    ensures Noted(cfg, q) && Traced(q)
  {
    var thread := ThreadOf(s, t);
    AppendFacts(cfg, s.pipe, f, probe);
    match Append(s.pipe.store, cfg.limits, f, probe).refusal
    case None =>
      AcceptTraces(s, q, t, f);
      hide Traced, Kempt, Appends, Append, PipeAppend;
      AcceptKeeps(cfg, s, q, f, probe);
    case Some(reason) =>
      RefuseTraces(s, q, t, thread.event.evidence.eventType, reason);
      hide Traced, Kempt, Appends, Append, PipeAppend;
      RefuseKeeps(cfg, s, q, f, probe);
  }

  lemma CreateStep(cfg: Config, s: System, c: nat, path: Path, requestId: string)
    requires ValidConfig(cfg) && Invariant(cfg, s) && c !in s.captures
    ensures Invariant(cfg, Apply(cfg, s, Create(c, path, requestId)))
  {
    var q := Apply(cfg, s, Create(c, path, requestId));
    CreateTraces(s, q, c, Fresh(path, requestId));
    hide Traced, Accounted, Kempt;
    CreateKeeps(cfg, s, q, c, Fresh(path, requestId));
  }

  lemma DropStep(cfg: Config, s: System, t: nat)
    requires ValidConfig(cfg) && Invariant(cfg, s) && Enabled(cfg, s, Drop(t))
    ensures Invariant(cfg, Apply(cfg, s, Drop(t)))
  {
    var q := Apply(cfg, s, Drop(t));
    DropTraces(s, q, t);
    hide Traced, Accounted, Kempt;
    NoteStep(cfg, s, q, ThreadOf(s, t).capture);
  }

  lemma SwitchedOff(cfg: Config, s: System, c: nat)
    requires ValidConfig(cfg) && Invariant(cfg, s) && c in s.captures
    ensures s.captures[c].enabled <==> s.captures[c].dropReason == None
  {
    hide Accounted, Kempt, Traced, Authentic, Writes, Remembered;
    assert Balanced(s.pipe, c, s.captures[c]);
  }

  lemma PlaceOf(cfg: Config, s: System, t: nat)
    requires ValidConfig(cfg) && Invariant(cfg, s)
    ensures ThreadPlaced(s, ThreadOf(s, t))
  {
    hide Accounted, Kempt, Noted, Solo, AllLocated;
  }

  lemma PartsOf(cfg: Config, s: System)
    requires ValidConfig(cfg)
    ensures Invariant(cfg, s) <==> Accounted(cfg, s.pipe) && Kempt(cfg, s.pipe) && Noted(cfg, s) && Traced(s)
  {
    hide Accounted, Kempt, Noted, Traced;
  }

  /** At most one thread moved, and it stays outside append. */
  ghost predicate MovesAside(s: System, q: System, t: nat) {
    q.threads == s.threads || (View(ThreadOf(s, t)).Idle? && View(ThreadOf(q, t)).Idle? && q.threads == s.threads[t := ThreadOf(q, t)])
  }

  lemma ViewsStay(s: System, q: System, t: nat)
    requires MovesAside(s, q, t)
    ensures forall u :: View(ThreadOf(q, u)) == View(ThreadOf(s, u))
    ensures forall u | u != t :: ThreadOf(q, u) == ThreadOf(s, u)
    ensures q.threads == s.threads ==> ThreadOf(q, t) == ThreadOf(s, t)
  {
  }

  lemma PlacesStay(s: System, q: System, t: nat)
    requires Traced(s) && MovesAside(s, q, t) && ThreadPlaced(q, ThreadOf(q, t))
    requires q.emitted == s.emitted && q.captures.Keys == s.captures.Keys && (s.pipe.store.closed ==> q.pipe.store.closed)
    ensures forall u :: ThreadPlaced(q, ThreadOf(q, u))
  {
    ViewsStay(s, q, t);
    forall u ensures ThreadPlaced(q, ThreadOf(q, u)) {
      assert ThreadPlaced(s, ThreadOf(s, u));
    }
  }

  /** finish and its helpers: a capture changes in fields that appends do not look at, or is switched off. */
  lemma AsideStep(cfg: Config, s: System, q: System, t: nat, c: nat)
    requires ValidConfig(cfg) && Invariant(cfg, s) && c in s.captures && c in q.captures && Tweaks(s.captures[c], q.captures[c])
    requires q.captures[c].enabled ==> s.captures[c].enabled
    requires q == s.(captures := s.captures[c := q.captures[c]], threads := q.threads)
    requires MovesAside(s, q, t) && ThreadPlaced(q, ThreadOf(q, t))
    ensures Invariant(cfg, q)
  {
    hide Accounted, Kempt, Noted;
    assert Traced(q) by {
      assert q.captures.Keys == s.captures.Keys;
      PlacesStay(s, q, t);
      ViewsStay(s, q, t);
      hide MovesAside, ThreadPlaced;
      assert Aside(s, q);
      AsideKeeps(s, q);
    }
    hide Traced;
    NoteStep(cfg, s, q, c);
  }

  lemma FinishStep(cfg: Config, s: System, t: nat, c: nat, event: Event, complete: bool)
    requires ValidConfig(cfg) && Invariant(cfg, s) && ThreadOf(s, t).Idle? && c in s.captures
    ensures Invariant(cfg, Becomes(Changes(s, c, s.captures[c].(finished := true)), t, Ending(c, event, complete)))
  {
    hide Invariant;
    SwitchedOff(cfg, s, c);
    AsideStep(cfg, s, Becomes(Changes(s, c, s.captures[c].(finished := true)), t, Ending(c, event, complete)), t, c);
  }

  lemma SettleStep(cfg: Config, s: System, t: nat, c: nat, capture: Capture)
    requires ValidConfig(cfg) && Invariant(cfg, s) && ThreadOf(s, t).Settling? && ThreadOf(s, t).capture == c && c in s.captures
    requires capture == s.captures[c] || capture == MarkDrop(s.captures[c], RequestIncomplete, RequestEnd)
    ensures Invariant(cfg, Becomes(Changes(s, c, capture), t, Waiting(c)))
  {
    hide Invariant;
    SwitchedOff(cfg, s, c);
    AsideStep(cfg, s, Becomes(Changes(s, c, capture), t, Waiting(c)), t, c);
  }

  lemma ShortenStep(cfg: Config, s: System, c: nat, eventType: EventType)
    requires ValidConfig(cfg) && Invariant(cfg, s) && c in s.captures
    ensures Invariant(cfg, Changes(s, c, NoteIncomplete(s.captures[c], eventType)))
  {
    hide Invariant;
    SwitchedOff(cfg, s, c);
    PlaceOf(cfg, s, 0);
    AsideStep(cfg, s, Changes(s, c, NoteIncomplete(s.captures[c], eventType)), 0, c);
  }

  /** A step of the writer or a closer: captures and appends go on as they are. */
  lemma PipeStep(cfg: Config, s: System, q: System, t: nat)
    requires ValidConfig(cfg) && Invariant(cfg, s) && q.captures == s.captures && q.emitted == s.emitted && q.crowded == s.crowded
    requires q.pipe.log == s.pipe.log && (s.pipe.store.closed ==> q.pipe.store.closed)
    requires MovesAside(s, q, t) && (q.threads == s.threads || ThreadPlaced(q, ThreadOf(q, t)))
    requires Accounted(cfg, q.pipe) && Kempt(cfg, q.pipe) && Noted(cfg, q)
    ensures Invariant(cfg, q)
  {
    hide Accounted, Kempt, Noted;
    assert ThreadPlaced(s, ThreadOf(s, t));
    ViewsStay(s, q, t);
    PlacesStay(s, q, t);
    AsideKeeps(s, q);
  }

  /** Only the flags of closing change. */
  ghost predicate Closes(p: Pipe, q: Pipe) {
    && q == p.(worker := q.worker, store := p.store.(closed := q.store.closed, sentinel := q.store.sentinel))
    && (q.worker == p.worker || (p.worker.Resting? && q.worker.Exited?)) && (p.store.closed ==> q.store.closed)
  }

  lemma ClosingWrites(p: Pipe, q: Pipe)
    requires InOrder(p) && Writes(p) && Closes(p, q)
    ensures InOrder(q) && Writes(q) && Outcomes(q) == Outcomes(p)
  {
  }

  lemma CloseStep(cfg: Config, s: System, q: System, t: nat)
    requires ValidConfig(cfg) && Invariant(cfg, s) && q == s.(pipe := q.pipe, threads := q.threads)
    requires Closes(s.pipe, q.pipe) && Accounted(cfg, q.pipe)
    requires MovesAside(s, q, t) && (q.threads == s.threads || ThreadPlaced(q, ThreadOf(q, t)))
    ensures Invariant(cfg, q)
  {
    ClosingWrites(s.pipe, q.pipe);
    assert Kempt(cfg, q.pipe) by {
      QuietKeeps(cfg, s.pipe, q.pipe);
    }
    hide Traced, Kempt, Accounted, Writes, InOrder, MovesAside, ThreadPlaced;
    QuietKeepsNotes(cfg, s, q);
    PipeStep(cfg, s, q, t);
  }

  lemma BeginCloseStep(cfg: Config, s: System, t: nat)
    requires ValidConfig(cfg) && Invariant(cfg, s) && ThreadOf(s, t).Idle?
    ensures Invariant(cfg, Becomes(s.(pipe := s.pipe.(store := s.pipe.store.(closed := true))), t, Flushing))
  {
    hide Accounted, Invariant;
    PartsOf(cfg, s);
    CloseKeeps(cfg, s.pipe);
    CloseStep(cfg, s, Becomes(s.(pipe := s.pipe.(store := s.pipe.store.(closed := true))), t, Flushing), t);
  }

  lemma FlushingIsClosed(cfg: Config, s: System, t: nat)
    requires ValidConfig(cfg) && Invariant(cfg, s) && ThreadOf(s, t).Flushing?
    ensures s.pipe.store.closed
  {
    hide Invariant;
    PlaceOf(cfg, s, t);
  }

  lemma FlushReturnStep(cfg: Config, s: System, t: nat)
    requires ValidConfig(cfg) && Invariant(cfg, s) && ThreadOf(s, t).Flushing? && s.pipe.store.queue == [] && s.pipe.worker.Resting?
    ensures Invariant(cfg, Becomes(s.(pipe := s.pipe.(store := s.pipe.store.(sentinel := true))), t, Joining))
  {
    hide Accounted, Invariant;
    PartsOf(cfg, s);
    FlushingIsClosed(cfg, s, t);
    CloseKeeps(cfg, s.pipe);
    CloseStep(cfg, s, Becomes(s.(pipe := s.pipe.(store := s.pipe.store.(sentinel := true))), t, Joining), t);
  }

  lemma StopStep(cfg: Config, s: System)
    requires ValidConfig(cfg) && Invariant(cfg, s) && s.pipe.worker.Resting? && s.pipe.store.queue == [] && s.pipe.store.sentinel
    ensures Invariant(cfg, s.(pipe := s.pipe.(worker := Exited)))
  {
    hide Accounted, Invariant;
    PartsOf(cfg, s);
    CloseKeeps(cfg, s.pipe);
    CloseStep(cfg, s, s.(pipe := s.pipe.(worker := Exited)), 0);
  }

  lemma ReturnStep(cfg: Config, s: System, t: nat)
    requires ValidConfig(cfg) && Invariant(cfg, s) && (ThreadOf(s, t).Waiting? || ThreadOf(s, t).Joining?)
    ensures Invariant(cfg, Becomes(s, t, Idle))
  {
    hide Accounted, Invariant;
    PartsOf(cfg, s);
    CloseStep(cfg, s, Becomes(s, t, Idle), t);
  }

  lemma WriterSteps(cfg: Config, s: System, step: Step)
    requires ValidConfig(cfg) && Invariant(cfg, s) && Enabled(cfg, s, step)
    requires step.Take? || step.CheckPoisoned? || step.CheckFailure? || step.Write?
    ensures Invariant(cfg, Apply(cfg, s, step))
  {
    var p, q := s.pipe, Apply(cfg, s, step);
    hide Traced, Kempt;
    match step
    case Take =>
      TakeKeeps(cfg, p);
      TakeKeepsFiles(cfg, p);
      TakeKeepsNotes(cfg, s, q);
      PipeStep(cfg, s, q, 0);
    case CheckPoisoned =>
      CheckKeeps(cfg, p, false);
      CheckKeepsFiles(cfg, p, false);
      CheckPoisonedKeepsNotes(cfg, s, q);
      PipeStep(cfg, s, q, 0);
    case CheckFailure =>
      var failed := s.captures[p.worker.item.capture].writerErrorEvent != None;
      CheckKeeps(cfg, p, failed);
      CheckKeepsFiles(cfg, p, failed);
      CheckFailureKeepsNotes(cfg, s, q);
      PipeStep(cfg, s, q, 0);
    case Write(opens, accepted, closes) =>
      WriteKeeps(cfg, p, opens, accepted, closes);
      WriteKeepsFiles(cfg, p, opens, accepted, closes);
      WriteKeepsNotes(cfg, s, q, opens, accepted, closes);
      PipeStep(cfg, s, q, 0);
  }

  lemma CompleteStep(cfg: Config, s: System)
    requires ValidConfig(cfg) && Invariant(cfg, s) && Enabled(cfg, s, Step.Complete)
    ensures Invariant(cfg, Apply(cfg, s, Step.Complete))
  {
    hide Invariant, Accounted, Kempt, Noted, Traced, PipeComplete, Aside;
    PartsOf(cfg, s);
    var q := CompleteOn(s);
    CompletePipe(cfg, s);
    CompleteKeepsNotes(cfg, s, q);
    NotedInOrder(cfg, s);
    CompleteAside(s, q);
    forall u ensures ThreadPlaced(q, ThreadOf(q, u)) {
      PlaceOf(cfg, s, u);
    }
    AsideKeeps(s, q);
    PartsOf(cfg, q);
  }

  lemma NotedInOrder(cfg: Config, s: System)
    requires Noted(cfg, s)
    ensures InOrder(s.pipe)
  {
  }

  lemma CompletePipe(cfg: Config, s: System)
    requires ValidConfig(cfg) && Accounted(cfg, s.pipe) && Kempt(cfg, s.pipe) && s.pipe.worker.Written?
    requires s.pipe.worker.item.capture in s.captures
    ensures Closing(s.pipe) && !CompleteOn(s).pipe.worker.Crashed? && CompleteOn(s).pipe == PipeComplete(s.pipe)
    ensures Accounted(cfg, PipeComplete(s.pipe)) && Kempt(cfg, PipeComplete(s.pipe))
  {
    CompleteKeeps(cfg, s.pipe);
    assert !PipeComplete(s.pipe).worker.Crashed?;
    hide PipeComplete;
    CompleteKeepsFiles(cfg, s.pipe);
  }

  lemma CompleteAside(s: System, q: System)
    requires InOrder(s.pipe) && s.pipe.worker.Written? && s.pipe.worker.item.capture in s.captures
    requires q == CompleteOn(s) && !q.pipe.worker.Crashed?
    ensures Aside(s, q) && q.pipe.store.closed == s.pipe.store.closed
  {
    assert forall t :: ThreadOf(q, t) == ThreadOf(s, t);
  }

  lemma StepKeeps(cfg: Config, s: System, step: Step)
    requires ValidConfig(cfg) && Invariant(cfg, s) && Enabled(cfg, s, step)
    ensures Invariant(cfg, Apply(cfg, s, step))
  {
    hide Invariant;
    match step
    case Create(c, path, requestId) => CreateStep(cfg, s, c, path, requestId);
    case Emit(t, c, event) => EmitStep(cfg, s, t, c, event, Return);
    case EmitEnd(t) => EmitStep(cfg, s, t, ThreadOf(s, t).capture, ThreadOf(s, t).event, EndFinish(ThreadOf(s, t).complete));
    case Encode(t, encoded, probe) => EncodeStep(cfg, s, t, encoded, probe);
    case Drop(t) => DropStep(cfg, s, t);
    case Finish(t, c, event, complete) => FinishStep(cfg, s, t, c, event, complete);
    case Settle(t) =>
      var c := ThreadOf(s, t).capture;
      assert Changes(s, c, s.captures[c]) == s by { assert s.captures[c := s.captures[c]] == s.captures; }
      SettleStep(cfg, s, t, c, if ThreadOf(s, t).complete then s.captures[c] else MarkDrop(s.captures[c], RequestIncomplete, RequestEnd));
    case Shorten(c, eventType) => ShortenStep(cfg, s, c, eventType);
    case Complete => CompleteStep(cfg, s);
    case BeginClose(t) => if !s.pipe.store.closed { BeginCloseStep(cfg, s, t); }
    case FlushReturn(t) => FlushReturnStep(cfg, s, t);
    case Stop => StopStep(cfg, s);
    case FinishReturn(t) => ReturnStep(cfg, s, t);
    case JoinReturn(t) => ReturnStep(cfg, s, t);
    case _ => WriterSteps(cfg, s, step);
  }

  /** Every run, whatever its steps, keeps the invariant. */
  lemma {:induction false} RunsKeep(cfg: Config, steps: seq<Step>)
    requires ValidConfig(cfg) && After(cfg, steps).Some?
    ensures Invariant(cfg, After(cfg, steps).value)
  {
    hide Invariant;
    if steps == [] {
      StartIsFine(cfg);
    } else {
      var n := |steps| - 1;
      RunsKeep(cfg, steps[..n]);
      StepKeeps(cfg, After(cfg, steps[..n]).value, steps[n]);
    }
  }
}
