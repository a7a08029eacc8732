// The store that captures share: byte reservations, poisoned paths and the bounded queue in
// front of the one writer. The functions are the critical sections; the classes run them in place.
module CaptureStore {
  import opened Wrappers
  import opened Frames
  import opened Captures

  const QUEUE_LIMIT := 1024

  datatype Limits = Limits(maxFileBytes: int, maxTotalBytes: int)

  /** An encoded event on its way to the writer. `position` says which of its capture's events it is. */
  datatype Frame = Frame(path: Path, bytes: Bytes, capture: nat, event: Event, position: nat)

  /** `sentinel` is the None that close puts in the queue, after every frame. */
  datatype Store = Store(closed: bool, reserved: map<Path, int>, total: int, poisoned: set<Path>, validated: set<Path>,
                         queue: seq<Frame>, sentinel: bool)

  /** What the file system answers about a path: whether it is a file, its size, whether it reads without a fault, and
      whether asking for its size fails. */
  datatype Probe = Probe(isFile: bool, size: nat, readable: bool, statFails: bool)

  datatype Appended = Appended(store: Store, refusal: Option<DropReason>)

  function Opened(existingBytes: nat): Store {
    Store(false, map[], existingBytes, {}, {}, [], false)
  }

  /** The first append to a path reads what is already there; a file that does not read is poisoned. */
  function Validate(s: Store, path: Path, probe: Probe): Store {
    if path in s.validated then s
    else
      s.(validated := s.validated + {path},
         poisoned := if probe.isFile && !probe.readable then s.poisoned + {path} else s.poisoned)
  }

  function CurrentBytes(s: Store, path: Path, probe: Probe): int {
    if path in s.reserved then s.reserved[path] else if probe.isFile then probe.size else 0
  }

  /** Why a frame is turned away, given the store after validation and the bytes counted for the frame's path. */
  function Refusal(v: Store, limits: Limits, f: Frame, current: int, probe: Probe): Option<DropReason> {
    if f.path in v.poisoned then Some(PathPoisoned)
    else if probe.statFails then Some(CaptureError)
    else if limits.maxFileBytes > 0 && current + |f.bytes| > limits.maxFileBytes then Some(FileQuotaExceeded)
    else if limits.maxTotalBytes > 0 && v.total + |f.bytes| > limits.maxTotalBytes then Some(TotalQuotaExceeded)
    else if |v.queue| >= QUEUE_LIMIT then Some(WriterQueueFull)
    else None
  }

  function Reserve(v: Store, f: Frame, current: int): Store {
    v.(queue := v.queue + [f], reserved := v.reserved[f.path := current + |f.bytes|], total := v.total + |f.bytes|)
  }

  function Append(s: Store, limits: Limits, f: Frame, probe: Probe): Appended {
    if s.closed then Appended(s, Some(StoreClosed))
    else
      var v, current := Validate(s, f.path, probe), CurrentBytes(s, f.path, probe);
      match Refusal(v, limits, f, current, probe)
        case Some(reason) => Appended(v, Some(reason))
        case None => Appended(Reserve(v, f, current), None)
  }

  /** A write that got only part of its frame out poisons the path; what was not written is released. */
  function CompleteWrite(s: Store, f: Frame, persisted: nat): Store
    requires persisted <= |f.bytes| && (persisted < |f.bytes| ==> f.path in s.reserved)
  {
    var released := |f.bytes| - persisted;
    var marked := if 0 < persisted < |f.bytes| then s.(poisoned := s.poisoned + {f.path}) else s;
    if released == 0 then marked
    else
      var remaining := s.reserved[f.path] - released;
      marked.(reserved := if remaining != 0 then s.reserved[f.path := remaining] else s.reserved - {f.path},
              total := s.total - released)
  }

  class RawRequestCapture {
    const id: nat
    const path: Path
    const requestId: string
    var enabled: bool
    var finished: bool
    var pendingWrites: int
    var dropReason: Option<DropReason>
    var firstDropped: Option<EventType>
    var writerErrorEvent: Option<EventType>
    var missing: set<EventType>
    var ledger: Ledger
    var incompleteEvent: Option<EventType>

    ghost function State(): Capture
      reads this
    {
      Capture(path, requestId, enabled, finished, pendingWrites, dropReason, firstDropped, writerErrorEvent, missing, ledger, incompleteEvent)
    }

    constructor (id: nat, path: Path, requestId: string)
      ensures this.id == id && State() == Fresh(path, requestId)
    {
      this.id, this.path, this.requestId := id, path, requestId;
      enabled, finished, pendingWrites := true, false, 0;
      dropReason, firstDropped, writerErrorEvent := None, None, None;
      missing, ledger, incompleteEvent := {}, EMPTY_LEDGER, None;
    }

    /** The check in front of every append: a capture that lost an event records nothing more. */
    method Admits(eventType: EventType) returns (admitted: bool)
      modifies this
      ensures admitted == old(enabled)
      ensures State() == if admitted then old(State()) else old(State()).(missing := old(missing) + {eventType})
    {
      admitted := enabled;
      if !admitted {
        missing := missing + {eventType};
      }
    }

    method NoteWriterFrameQueued()
      modifies this
      ensures State() == NoteQueued(old(State()))
    {
      pendingWrites := pendingWrites + 1;
    }

    method DropLocked(reason: DropReason, eventType: EventType)
      modifies this
      ensures State() == MarkDrop(old(State()), reason, eventType)
    {
      var first, failing := dropReason == None, reason == WriterError && writerErrorEvent == None;
      enabled, missing := false, missing + {eventType};
      writerErrorEvent := if failing then Some(eventType) else writerErrorEvent;
      dropReason := if first then Some(reason) else dropReason;
      firstDropped := if first then Some(eventType) else firstDropped;
    }

    method NoteWriterFrameCompleted(e: Evidence, drop: Option<DropReason>)
      modifies this
      ensures State() == NoteCompleted(old(State()), e, drop)
    {
      match drop {
        case Some(reason) => DropLocked(reason, e.eventType);
        case None => ledger := Committed(ledger, e);
      }
      pendingWrites := pendingWrites - 1;
    }

    method NoteIncompleteEvent(eventType: EventType)
      modifies this
      ensures State() == NoteIncomplete(old(State()), eventType)
    {
      if incompleteEvent == None {
        incompleteEvent := Some(eventType);
      }
    }

    method HasWriterFailure() returns (failed: bool)
      ensures failed == (State().writerErrorEvent != None)
    {
      failed := writerErrorEvent != None;
    }

    /** The first call of finish; a later one finds it already done. */
    method BeginFinish() returns (first: bool)
      modifies this
      ensures first == !old(finished) && State() == old(State()).(finished := true)
    {
      first := !finished;
      finished := true;
    }

    method ObserveNow() returns (observation: Observation)
      ensures Observes(State(), observation)
    {
      var attempts := SortAttempts(ledger.attempts);
      var wire := exists view :: view in attempts && ViewEligible(view);
      var status := if !finished then Pending
        else if dropReason == Some(PathPoisoned) then Corrupt
        else if dropReason != None || incompleteEvent != None then Incomplete
        else if ledger.bodyCommitted && ledger.endComplete && !ledger.endIncomplete && ClientResponseBody in ledger.types
                && (UpstreamResponseBody in ledger.types || UpstreamResponseEnd in ledger.types) then Complete
        else Incomplete;
      var available := ledger.bodyCommitted && ledger.endComplete && !ledger.endIncomplete;
      var open := status != Pending && status != Corrupt;
      observation := Observation(status, available, ClientResponseBody in ledger.types,
                                 open && wire, open && available, open && available, path, attempts);
      assert forall n | n in ledger.attempts :: ViewOf(n, ledger.attempts[n]) in attempts;
    }
  }

  class RawCaptureStore {
    const limits: Limits
    var closed: bool
    var reservedFileBytes: map<Path, int>
    var reservedTotalBytes: int
    var poisonedPaths: set<Path>
    var validatedPaths: set<Path>
    var queue: seq<Frame>
    var sentinel: bool

    ghost function State(): Store
      reads this
    {
      Store(closed, reservedFileBytes, reservedTotalBytes, poisonedPaths, validatedPaths, queue, sentinel)
    }

    constructor (limits: Limits, existingBytes: nat)
      ensures this.limits == limits && State() == Opened(existingBytes)
    {
      this.limits := limits;
      closed, reservedFileBytes, reservedTotalBytes := false, map[], existingBytes;
      poisonedPaths, validatedPaths, queue, sentinel := {}, {}, [], false;
    }

    method ValidateExistingPath(path: Path, probe: Probe)
      modifies this
      ensures State() == Validate(old(State()), path, probe)
    {
      if path in validatedPaths {
        return;
      }
      validatedPaths := validatedPaths + {path};
      if probe.isFile && !probe.readable {
        poisonedPaths := poisonedPaths + {path};
      }
    }

    /** Under the store's lock, from the closed check to the pending count. */
    method AppendFrame(capture: RawRequestCapture, f: Frame, probe: Probe) returns (refusal: Option<DropReason>)
      requires f.capture == capture.id
      modifies this, capture
      ensures Appended(State(), refusal) == Append(old(State()), limits, f, probe)
      ensures capture.State() == if refusal == None then NoteQueued(old(capture.State())) else old(capture.State())
    {
      if closed {
        return Some(StoreClosed);
      }
      var current := if f.path in reservedFileBytes then reservedFileBytes[f.path] else if probe.isFile then probe.size else 0;
      ValidateExistingPath(f.path, probe);
      refusal := VerdictOn(f, current, probe);
      if refusal == None {
        queue := queue + [f];
        reservedFileBytes := reservedFileBytes[f.path := current + |f.bytes|];
        reservedTotalBytes := reservedTotalBytes + |f.bytes|;
        capture.NoteWriterFrameQueued();
      }
    }

    method VerdictOn(f: Frame, current: int, probe: Probe) returns (refusal: Option<DropReason>)
      ensures refusal == Refusal(State(), limits, f, current, probe)
    {
      if f.path in poisonedPaths {
        return Some(PathPoisoned);
      }
      if probe.statFails {
        return Some(CaptureError);
      }
      if limits.maxFileBytes > 0 && current + |f.bytes| > limits.maxFileBytes {
        return Some(FileQuotaExceeded);
      }
      if limits.maxTotalBytes > 0 && reservedTotalBytes + |f.bytes| > limits.maxTotalBytes {
        return Some(TotalQuotaExceeded);
      }
      if |queue| >= QUEUE_LIMIT {
        return Some(WriterQueueFull);
      }
      refusal := None;
    }

    method Complete(capture: RawRequestCapture, f: Frame, persisted: nat, drop: Option<DropReason>)
      requires f.capture == capture.id
      requires persisted <= |f.bytes| && (persisted < |f.bytes| ==> f.path in reservedFileBytes)
      modifies this, capture
      ensures State() == CompleteWrite(old(State()), f, persisted)
      ensures capture.State() == NoteCompleted(old(capture.State()), f.event.evidence, drop)
    {
      if 0 < persisted < |f.bytes| {
        poisonedPaths := poisonedPaths + {f.path};
      }
      var released := |f.bytes| - persisted;
      if released != 0 {
        var remaining := reservedFileBytes[f.path] - released;
        if remaining != 0 {
          reservedFileBytes := reservedFileBytes[f.path := remaining];
        } else {
          reservedFileBytes := reservedFileBytes - {f.path};
        }
        reservedTotalBytes := reservedTotalBytes - released;
      }
      capture.NoteWriterFrameCompleted(f.event.evidence, drop);
    }

    /** close's first critical section: only the call that finds the store open goes on to wait for the writer. */
    method BeginClose() returns (first: bool)
      modifies this
      ensures first == !old(closed) && State() == old(State()).(closed := true)
    {
      first := !closed;
      closed := true;
    }

    /** append_event as one uninterrupted call: the check, the store's verdict, and the drop it causes. */
    method AppendEvent(capture: RawRequestCapture, f: Frame, probe: Probe)
      requires f.capture == capture.id && f.path == capture.path
      modifies this, capture
      ensures var t := f.event.evidence.eventType; var before := old(capture.State());
        var stored := Append(old(State()), limits, f, probe);
        if !before.enabled then State() == old(State()) && capture.State() == before.(missing := before.missing + {t})
        else
          && State() == stored.store
          && capture.State() == if stored.refusal == None then NoteQueued(before) else MarkDrop(before, stored.refusal.value, t)
    {
      var admitted := capture.Admits(f.event.evidence.eventType);
      if admitted {
        var refusal := AppendFrame(capture, f, probe);
        if refusal != None {
          capture.DropLocked(refusal.value, f.event.evidence.eventType);
        }
      }
    }
  }
}
