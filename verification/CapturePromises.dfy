// What a capture promises its reader: files decode to the events that were kept, kept events
// have no holes, a complete observation means everything was kept, and close waits for it all.
module CapturePromises {
  import opened Wrappers
  import opened Frames
  import opened Captures
  import opened CaptureStore
  import opened CaptureSystem
  import opened CaptureAccounts
  import opened CaptureFiles
  import opened CaptureLedger
  import opened CapturePositions
  import opened CaptureRuns
  import opened CaptureGuarantees
  import opened CaptureHolders

  // ---- Reading the files back ----

  ghost function RecordOf(s: System, f: Frame): Record
    requires f.capture in s.captures
  {
    Record(s.captures[f.capture].requestId, f.event)
  }

  ghost predicate AllOf(cfg: Config, s: System, frames: seq<Frame>) {
    forall i | 0 <= i < |frames| :: FrameOf(cfg, s, frames[i])
  }

  ghost function RecordsOf(s: System, frames: seq<Frame>): (records: seq<Record>)
    requires forall i | 0 <= i < |frames| :: frames[i].capture in s.captures
    ensures |records| == |frames| && forall i | 0 <= i < |frames| :: records[i] == RecordOf(s, frames[i])
  {
    seq(|frames|, i requires 0 <= i < |frames| => RecordOf(s, frames[i]))
  }

  lemma {:induction false} WholeIsAuthentic(cfg: Config, s: System, done: seq<Outcome>, path: Path, n: nat)
    requires Authentic(cfg, s) && n <= |s.pipe.log| && n <= |done|
    ensures AllOf(cfg, s, WholeFrames(s.pipe.log, done, path, n))
  {
    if n > 0 { WholeIsAuthentic(cfg, s, done, path, n - 1); }
  }

  /** A tail is the front of one frame. */
  lemma {:induction false} TailIsFront(cfg: Config, s: System, done: seq<Outcome>, path: Path, n: nat) returns (i: nat)
    requires Authentic(cfg, s) && SoundOutcomes(s.pipe.log, done) && n <= |done| && Tail(s.pipe.log, done, path, n) != []
    ensures i < |s.pipe.log| && FrameOf(cfg, s, s.pipe.log[i])
    ensures 0 < |Tail(s.pipe.log, done, path, n)| < |s.pipe.log[i].bytes|
    ensures Tail(s.pipe.log, done, path, n) == s.pipe.log[i].bytes[..|Tail(s.pipe.log, done, path, n)|]
  {
    if s.pipe.log[n - 1].path == path && 0 < done[n - 1].persisted < |s.pipe.log[n - 1].bytes| {
      i := n - 1;
      assert FrameOf(cfg, s, s.pipe.log[i]);
    } else {
      i := TailIsFront(cfg, s, done, path, n - 1);
    }
  }

  lemma ParsePieces(c: Codec<Record>, initial: Bytes, frames: seq<Bytes>, records: seq<Record>, tail: Bytes)
    requires ValidCodec(c) && Parse(c, initial).fault == None && AreFrames(c, frames, records)
    requires tail == [] || Parse(c, tail) == Reading([], Some(Truncated))
    ensures Parse(c, initial + (Concat(frames) + tail))
         == Reading(Parse(c, initial).records + records, if tail == [] then None else Some(Truncated))
  {
    ParseFrames(c, frames, records);
    ParseConcat(c, Concat(frames), tail);
    ParseConcat(c, initial, Concat(frames) + tail);
    ParseEmpty(c);
    hide Parse, ValidCodec, Concat;
    assert records + [] == records;
  }

  lemma WholeParses(cfg: Config, s: System, path: Path)
    requires ValidConfig(cfg) && Authentic(cfg, s) && SoundOutcomes(s.pipe.log, Outcomes(s.pipe)) && Readable(cfg, path)
    ensures AllOf(cfg, s, WholeOn(s, path))
    ensures Parse(cfg.codec, FileBytes(cfg.initial, path) + (Concat(BytesOf(WholeOn(s, path))) + TailOn(s, path)))
         == Reading(Parse(cfg.codec, FileBytes(cfg.initial, path)).records + RecordsOf(s, WholeOn(s, path)),
                    if TailOn(s, path) == [] then None else Some(Truncated))
  {
    var whole, tail := WholeOn(s, path), TailOn(s, path);
    WholeIsAuthentic(cfg, s, Outcomes(s.pipe), path, |Outcomes(s.pipe)|);
    if tail != [] {
      var i := TailIsFront(cfg, s, Outcomes(s.pipe), path, |Outcomes(s.pipe)|);
      ParseTorn(cfg.codec, s.pipe.log[i].bytes, RecordOf(s, s.pipe.log[i]), |tail|);
    }
    hide Tail, WholeFrames, Concat, Parse, ValidCodec;
    ParsePieces(cfg.codec, FileBytes(cfg.initial, path), BytesOf(whole), RecordsOf(s, whole), tail);
  }

  /** A file whose initial contents read without a fault reads back as those records and then the events kept since, in order;
      it reads with a fault exactly when it ends in a torn frame. */
  lemma FilesReadBack(cfg: Config, s: System, path: Path)
    requires ValidConfig(cfg) && Reachable(cfg, s) && Readable(cfg, path)
    ensures SoundOutcomes(s.pipe.log, Outcomes(s.pipe)) && AllOf(cfg, s, WholeOn(s, path))
    ensures Parse(cfg.codec, FileBytes(s.pipe.disk, path))
         == Reading(Parse(cfg.codec, FileBytes(cfg.initial, path)).records + RecordsOf(s, WholeOn(s, path)),
                    if TailOn(s, path) == [] then None else Some(Truncated))
  {
    hide Parse, Invariant, SoundOutcomes, Readable;
    FilesAreWellShaped(cfg, s, path);
    ReachableKeeps(cfg, s);
    IsAuthentic(cfg, s);
    WholeParses(cfg, s, path);
  }

  lemma IsAuthentic(cfg: Config, s: System)
    requires ValidConfig(cfg) && Invariant(cfg, s)
    ensures Authentic(cfg, s)
  {
    hide Accounted, Kempt, Traced;
  }

  /** A file that does not read at start is never written to. */
  lemma UnreadableFilesStay(cfg: Config, s: System, path: Path)
    requires ValidConfig(cfg) && Reachable(cfg, s) && !Readable(cfg, path)
    ensures FileBytes(s.pipe.disk, path) == FileBytes(cfg.initial, path)
  {
    ReachableKeeps(cfg, s);
    hide Accounted, Noted, Traced, Reachable;
    assert CaptureFiles.Holds(cfg, s.pipe, path);
    NothingKept(s.pipe.log, Outcomes(s.pipe), path, |Outcomes(s.pipe)|);
  }

  // ---- No holes ----

  /** The capture's events that are whole in its file, in the order they were written. */
  function KeptEvents(log: seq<Frame>, done: seq<Outcome>, c: nat, n: nat): seq<Event>
    requires n <= |log| && n <= |done|
  {
    if n == 0 then []
    else if log[n - 1].capture == c && done[n - 1].persisted == |log[n - 1].bytes| then KeptEvents(log, done, c, n - 1) + [log[n - 1].event]
    else KeptEvents(log, done, c, n - 1)
  }

  /** Until its first drop, a capture with one producer has every accepted event in its file. */
  lemma {:induction false} KeptIsPrefix(log: seq<Frame>, done: seq<Outcome>, c: nat, emitted: seq<Event>, n: nat)
    requires SoundOutcomes(log, done) && FailStop(log, done) && Gapless(log, c) && n <= |done|
    requires forall i | 0 <= i < |log| && log[i].capture == c :: log[i].bytes != [] && log[i].position < |emitted| && emitted[log[i].position] == log[i].event
    ensures |KeptEvents(log, done, c, n)| <= Count(log, c, n) <= |emitted| && KeptEvents(log, done, c, n) == emitted[..|KeptEvents(log, done, c, n)|]
    ensures Spared(log, done, c, n, None) ==> |KeptEvents(log, done, c, n)| == Count(log, c, n)
  {
    if n > 0 {
      KeptIsPrefix(log, done, c, emitted, n - 1);
      if log[n - 1].capture == c && done[n - 1].persisted == |log[n - 1].bytes| {
        assert Spared(log, done, c, n - 1, None);
        assert log[n - 1].position == Count(log, c, n - 1);
      } else if log[n - 1].capture == c {
        assert log[n - 1].position == Count(log, c, n - 1);
        assert done[n - 1].drop != None;
      }
    }
  }

  lemma SoloFacts(cfg: Config, s: System, c: nat)
    requires ValidConfig(cfg) && Invariant(cfg, s) && c in s.captures && c !in s.crowded
    ensures c in s.emitted && SoundOutcomes(s.pipe.log, Outcomes(s.pipe)) && FailStop(s.pipe.log, Outcomes(s.pipe)) && Solo(s, c)
    ensures forall i | 0 <= i < |s.pipe.log| && s.pipe.log[i].capture == c ::
      s.pipe.log[i].bytes != [] && Placed(s, c, s.pipe.log[i].position, s.pipe.log[i].event)
  {
    hide Accounted, AllLocated, Solo, Discipline, Vetted, ThreadPlaced;
    forall i | 0 <= i < |s.pipe.log| && s.pipe.log[i].capture == c
      ensures s.pipe.log[i].bytes != [] && Placed(s, c, s.pipe.log[i].position, s.pipe.log[i].event)
    {
      assert FrameOf(cfg, s, s.pipe.log[i]);
      ParseFrame(cfg.codec, s.pipe.log[i].bytes, RecordOf(s, s.pipe.log[i]));
    }
  }

  /** With one producer at a time, what is on disk of a capture is a prefix of what it emitted: it has no holes. */
  lemma NoHoles(cfg: Config, s: System, c: nat)
    requires ValidConfig(cfg) && Reachable(cfg, s) && c in s.captures && c !in s.crowded
    ensures c in s.emitted && |Outcomes(s.pipe)| <= |s.pipe.log|
    ensures KeptEvents(s.pipe.log, Outcomes(s.pipe), c, |Outcomes(s.pipe)|) <= s.emitted[c]
  {
    hide Invariant, Reachable, Solo;
    ReachableKeeps(cfg, s);
    SoloFacts(cfg, s, c);
    assert Gapless(s.pipe.log, c) by { SoloIsGapless(s, c); }
    KeptIsPrefix(s.pipe.log, Outcomes(s.pipe), c, s.emitted[c], |Outcomes(s.pipe)|);
  }

  lemma SoloIsGapless(s: System, c: nat)
    requires Solo(s, c)
    ensures Gapless(s.pipe.log, c)
  {
  }

  // ---- What COMPLETE means ----

  /** Nothing of the capture is on its way: no append under way and no frame with the writer. */
  ghost predicate Quiet(s: System, c: nat)
    requires c in s.captures
  {
    !Underway(s, c) && s.captures[c].pending == 0
  }

  /** The capture's event at this position was written whole and without an error. */
  ghost predicate Committed(s: System, c: nat, position: nat)
    requires c in s.emitted && position < |s.emitted[c]|
  {
    exists i | 0 <= i < |s.pipe.done| && i < |s.pipe.log| ::
      && s.pipe.log[i].capture == c && s.pipe.log[i].position == position && s.pipe.log[i].event == s.emitted[c][position]
      && s.pipe.done[i] == Outcome(|s.pipe.log[i].bytes|, None)
  }

  lemma QuietIsResolved(cfg: Config, s: System, c: nat)
    requires ValidConfig(cfg) && Invariant(cfg, s) && c in s.captures && s.captures[c].pending == 0
    ensures |s.pipe.done| <= |s.pipe.log| && Count(s.pipe.log, c, |s.pipe.log|) == Count(s.pipe.log, c, |s.pipe.done|)
    ensures forall i | |s.pipe.done| <= i < |s.pipe.log| :: s.pipe.log[i].capture != c
  {
    hide Accounted, Kempt, Traced, Authentic, Writes;
    assert Balanced(s.pipe, c, s.captures[c]);
    CountGrows(s.pipe.log, c, |s.pipe.done|, |s.pipe.log|);
  }

  lemma UndroppedIsClean(cfg: Config, s: System, c: nat)
    requires ValidConfig(cfg) && Invariant(cfg, s) && c in s.captures && s.captures[c].dropReason == None
    ensures |s.pipe.done| <= |s.pipe.log|
    ensures forall i | 0 <= i < |s.pipe.done| && s.pipe.log[i].capture == c :: s.pipe.done[i] == Outcome(|s.pipe.log[i].bytes|, None)
  {
    hide Accounted, Kempt, Traced, Authentic, Writes;
    forall i | 0 <= i < |s.pipe.done| && s.pipe.log[i].capture == c ensures s.pipe.done[i] == Outcome(|s.pipe.log[i].bytes|, None) {
      assert Remembered(s, s.pipe.log[i], s.pipe.done[i]) && Sound(s.pipe.log[i], s.pipe.done[i]);
    }
  }

  lemma UndroppedIsAccepted(cfg: Config, s: System, c: nat, position: nat) returns (i: nat)
    requires ValidConfig(cfg) && Invariant(cfg, s) && c in s.captures && s.captures[c].dropReason == None
    requires c in s.emitted && position < |s.emitted[c]| && !Held(s, c, position)
    ensures i < |s.pipe.log| && s.pipe.log[i].capture == c && s.pipe.log[i].position == position
    ensures s.pipe.log[i].event == s.emitted[c][position]
  {
    hide Accounted, Kempt, Noted, Solo, ThreadPlaced;
    assert AllLocated(s, c) && Located(s, c, position);
    i :| 0 <= i < |s.pipe.log| && s.pipe.log[i].capture == c && s.pipe.log[i].position == position;
    assert Placed(s, s.pipe.log[i].capture, s.pipe.log[i].position, s.pipe.log[i].event);
  }

  /** Of a capture that lost nothing and has no frame with the writer, the events not on disk are exactly those that unfinished appends hold. */
  lemma NothingDroppedExactly(cfg: Config, s: System, c: nat)
    requires ValidConfig(cfg) && Reachable(cfg, s) && c in s.captures && s.captures[c].dropReason == None && s.captures[c].pending == 0
    ensures c in s.emitted && forall position | 0 <= position < |s.emitted[c]| :: Committed(s, c, position) <==> !Held(s, c, position)
  {
    hide Invariant, Reachable, Held;
    ReachableKeeps(cfg, s);
    EmittedKeys(cfg, s, c);
    QuietIsResolved(cfg, s, c);
    UndroppedIsClean(cfg, s, c);
    forall position | 0 <= position < |s.emitted[c]| ensures Committed(s, c, position) <==> !Held(s, c, position) {
      if Held(s, c, position) {
        HeldIsNotAccepted(cfg, s, c, position);
      } else {
        var i := UndroppedIsAccepted(cfg, s, c, position);
        assert i < |s.pipe.done|;
      }
    }
  }

  /** A capture that lost nothing, once quiet, has every event it emitted on disk, however many producers it had. */
  lemma NothingDroppedMeansAllKept(cfg: Config, s: System, c: nat)
    requires ValidConfig(cfg) && Reachable(cfg, s) && c in s.captures && s.captures[c].dropReason == None && Quiet(s, c)
    ensures c in s.emitted && forall position | 0 <= position < |s.emitted[c]| :: Committed(s, c, position)
  {
    hide Reachable, Committed;
    NothingDroppedExactly(cfg, s, c);
    assert forall t :: !InAppend(ThreadOf(s, t), c);
  }

  lemma EmittedKeys(cfg: Config, s: System, c: nat)
    requires ValidConfig(cfg) && Invariant(cfg, s) && c in s.captures
    ensures c in s.emitted
  {
    hide Accounted, Kempt, Noted, Solo, AllLocated, ThreadPlaced;
  }

  /** When finish returns COMPLETE, the emitted events that are not on disk are exactly those that appends still hold, and without such an append all are on disk. */
  lemma CompleteMeansAllKept(cfg: Config, s: System, t: nat)
    requires ValidConfig(cfg) && Reachable(cfg, s) && Enabled(cfg, s, FinishReturn(t))
    requires StatusOf(s.captures[ThreadOf(s, t).capture]) == Status.Complete
    ensures var c := ThreadOf(s, t).capture;
      c in s.emitted && forall position | 0 <= position < |s.emitted[c]| :: Committed(s, c, position) <==> !Held(s, c, position)
    ensures var c := ThreadOf(s, t).capture;
      !Underway(s, c) ==> forall position | 0 <= position < |s.emitted[c]| :: Committed(s, c, position)
  {
    hide Reachable, Committed;
    NothingDroppedExactly(cfg, s, ThreadOf(s, t).capture);
    assert forall position | Held(s, ThreadOf(s, t).capture, position) :: Underway(s, ThreadOf(s, t).capture);
  }

  lemma {:induction false} AllKeptLength(log: seq<Frame>, done: seq<Outcome>, c: nat, n: nat)
    requires n <= |log| && n <= |done|
    requires forall i | 0 <= i < n && log[i].capture == c :: done[i].persisted == |log[i].bytes|
    ensures |KeptEvents(log, done, c, n)| == Count(log, c, n)
  {
    if n > 0 { AllKeptLength(log, done, c, n - 1); }
  }

  /** With one producer, what was kept is then exactly what was emitted, in order. */
  lemma NothingDroppedMeansInOrder(cfg: Config, s: System, c: nat)
    requires ValidConfig(cfg) && Reachable(cfg, s) && c in s.captures && c !in s.crowded
    requires s.captures[c].dropReason == None && Quiet(s, c)
    ensures c in s.emitted && |s.pipe.done| <= |s.pipe.log| && KeptEvents(s.pipe.log, s.pipe.done, c, |s.pipe.done|) == s.emitted[c]
  {
    hide Invariant, Reachable, FailStop;
    ReachableKeeps(cfg, s);
    SoloFacts(cfg, s, c);
    SwitchedOff(cfg, s, c);
    QuietIsResolved(cfg, s, c);
    UndroppedIsClean(cfg, s, c);
    DoneIsSound(s.pipe);
    KeptIsPrefix(s.pipe.log, s.pipe.done, c, s.emitted[c], |s.pipe.done|);
    AllKeptLength(s.pipe.log, s.pipe.done, c, |s.pipe.done|);
  }

  lemma DoneIsSound(p: Pipe)
    requires SoundOutcomes(p.log, Outcomes(p)) && FailStop(p.log, Outcomes(p))
    ensures SoundOutcomes(p.log, p.done) && FailStop(p.log, p.done)
  {
    assert forall i | 0 <= i < |p.done| :: p.done[i] == Outcomes(p)[i];
  }

  // ---- What the observation's bits mean ----

  /** The evidence of the capture's committed frames, in order. */
  ghost function ProvenBy(s: System, c: nat): seq<Evidence>
    requires |s.pipe.done| <= |s.pipe.log|
  {
    EvidenceOf(s.pipe.log, s.pipe.done, c, |s.pipe.done|)
  }

  lemma {:induction false} EvidenceIsCommitted(log: seq<Frame>, done: seq<Outcome>, c: nat, n: nat, e: Evidence)
    requires SoundOutcomes(log, done) && n <= |done| && e in EvidenceOf(log, done, c, n)
    ensures exists i | 0 <= i < n :: log[i].capture == c && log[i].event.evidence == e && done[i] == Outcome(|log[i].bytes|, None)
  {
    if log[n - 1].capture == c && done[n - 1].drop == None && log[n - 1].event.evidence == e {
      assert done[n - 1] == Outcome(|log[n - 1].bytes|, None);
    } else {
      EvidenceIsCommitted(log, done, c, n - 1, e);
    }
  }

  lemma LedgerIsProven(cfg: Config, s: System, c: nat)
    requires ValidConfig(cfg) && Reachable(cfg, s) && c in s.captures
    ensures SoundOutcomes(s.pipe.log, s.pipe.done) && s.captures[c].ledger == LedgerOf(ProvenBy(s, c))
  {
    ReachableKeeps(cfg, s);
    hide Accounted, Kempt, Traced, Authentic, Writes, Reachable;
    assert Balanced(s.pipe, c, s.captures[c]);
  }

  /** Request, response and upstream are reported exactly when committed frames show them. */
  lemma BitsAreBacked(cfg: Config, s: System, c: nat)
    requires ValidConfig(cfg) && Reachable(cfg, s) && c in s.captures
    ensures |s.pipe.done| <= |s.pipe.log|
    ensures RequestAvailable(s.captures[c])
       <==> Seen(ProvenBy(s, c), RequestBody, None, None) && Seen(ProvenBy(s, c), RequestBodyEnd, None, Some(true))
            && !Seen(ProvenBy(s, c), RequestBodyEnd, None, Some(false))
    ensures ResponseAvailable(s.captures[c]) <==> Seen(ProvenBy(s, c), ClientResponseBody, None, None)
    ensures UpstreamAvailable(s.captures[c])
       <==> Seen(ProvenBy(s, c), UpstreamResponseBody, None, None) || Seen(ProvenBy(s, c), UpstreamResponseEnd, None, None)
    ensures StatusOf(s.captures[c]) == Status.Complete ==> RequestAvailable(s.captures[c]) && ResponseAvailable(s.captures[c])
  {
    hide Reachable, Seen, EvidenceOf, LedgerOf;
    LedgerIsProven(cfg, s, c);
    FlagsBacked(ProvenBy(s, c));
  }

  /** An attempt counts as a whole exchange exactly when every part of it is on disk and no part ended early. */
  lemma AttemptBitsAreBacked(cfg: Config, s: System, c: nat, n: int)
    requires ValidConfig(cfg) && Reachable(cfg, s) && c in s.captures
    ensures |s.pipe.done| <= |s.pipe.log| && AttemptBacked(ProvenBy(s, c), n, AttemptIn(s.captures[c].ledger, n))
    ensures var e := ProvenBy(s, c); WireEligible(AttemptIn(s.captures[c].ledger, n)) <==>
      (&& Seen(e, AttemptStart, Some(n), None) && Seen(e, UpstreamRequestStart, Some(n), None)
       && HeadersSeen(e, UpstreamRequestStart, n) && Seen(e, UpstreamRequestBody, Some(n), None)
       && Seen(e, UpstreamResponseStart, Some(n), None) && HeadersSeen(e, UpstreamResponseStart, n)
       && Seen(e, UpstreamResponseBody, Some(n), None)
       && Seen(e, UpstreamResponseEnd, Some(n), Some(true)) && !Seen(e, UpstreamResponseEnd, Some(n), Some(false))
       && Seen(e, AttemptEnd, Some(n), Some(true)) && !Seen(e, AttemptEnd, Some(n), Some(false)))
  {
    hide Reachable, Seen, HeadersSeen, EvidenceOf, LedgerOf, AttemptIn;
    LedgerIsProven(cfg, s, c);
    AttemptsBacked(ProvenBy(s, c), n);
  }

  // ---- Close ----

  lemma RestedIsResolved(cfg: Config, s: System)
    requires ValidConfig(cfg) && Reachable(cfg, s) && s.pipe.store.queue == [] && (s.pipe.worker.Resting? || s.pipe.worker.Exited?)
    ensures |s.pipe.done| == |s.pipe.log| && forall c | c in s.captures :: s.captures[c].pending == 0
  {
    ReachableKeeps(cfg, s);
    hide Accounted, Kempt, Traced, Authentic, Writes, Reachable;
    assert |s.pipe.done| == |s.pipe.log|;
    forall c | c in s.captures ensures s.captures[c].pending == 0 {
      assert Balanced(s.pipe, c, s.captures[c]);
    }
  }

  /** The call of close that closed the store returns only when every accepted frame has been dealt with. */
  lemma CloseWaitsForAll(cfg: Config, s: System, t: nat)
    requires ValidConfig(cfg) && Reachable(cfg, s) && Enabled(cfg, s, JoinReturn(t))
    ensures |s.pipe.done| == |s.pipe.log| && forall c | c in s.captures :: s.captures[c].pending == 0
  {
    hide Invariant, Reachable;
    ReachableKeeps(cfg, s);
    ExitedIsEmpty(cfg, s);
    RestedIsResolved(cfg, s);
  }

  lemma ExitedIsEmpty(cfg: Config, s: System)
    requires ValidConfig(cfg) && Invariant(cfg, s) && s.pipe.worker.Exited?
    ensures s.pipe.store.queue == []
  {
    hide Kempt, Noted, Traced, Totals, PathAccount, InOrder;
  }

  /** After close nothing is accepted any more. */
  lemma ClosedAcceptsNothing(cfg: Config, s: System, step: Step)
    requires ValidConfig(cfg) && Invariant(cfg, s) && Enabled(cfg, s, step) && s.pipe.store.closed
    ensures Apply(cfg, s, step).pipe.log == s.pipe.log
  {
    hide Invariant, Honest, IsFrame, MarkDrop, CompleteWrite;
  }

  ghost predicate NothingPending(s: System) {
    forall c | c in s.captures :: s.captures[c].pending == 0
  }

  lemma NothingPendingMeansAllDone(cfg: Config, s: System)
    requires ValidConfig(cfg) && Invariant(cfg, s) && NothingPending(s)
    ensures |s.pipe.done| == |s.pipe.log|
  {
    hide Accounted, Kempt, Traced, Writes, Remembered;
    var p := s.pipe;
    if |p.done| < |p.log| {
      var c := p.log[|p.done|].capture;
      assert FrameOf(cfg, s, p.log[|p.done|]) && Balanced(p, c, s.captures[c]);
      CountGrows(p.log, c, |p.done|, |p.log|);
    }
  }

  lemma AllDoneMeansNothingPending(cfg: Config, s: System)
    requires ValidConfig(cfg) && Invariant(cfg, s) && |s.pipe.done| == |s.pipe.log|
    ensures NothingPending(s)
  {
    hide Accounted, Kempt, Traced, Writes, Remembered;
    forall c | c in s.captures ensures s.captures[c].pending == 0 {
      assert Balanced(s.pipe, c, s.captures[c]);
    }
  }

  lemma AllDoneMeansEmpty(cfg: Config, s: System)
    requires ValidConfig(cfg) && Invariant(cfg, s)
    ensures |s.pipe.done| == |s.pipe.log| <==> s.pipe.store.queue == [] && !Busy(s.pipe.worker)
  {
    hide Accounted, Kempt, Traced, Writes, Remembered;
  }

  /** In every reachable state nothing is pending if and only if the queue is empty and the writer holds no frame. */
  lemma NothingPendingExactly(cfg: Config, s: System)
    requires ValidConfig(cfg) && Reachable(cfg, s)
    ensures NothingPending(s) <==> s.pipe.store.queue == [] && !Busy(s.pipe.worker)
  {
    hide Invariant, Reachable;
    ReachableKeeps(cfg, s);
    AllDoneMeansEmpty(cfg, s);
    if NothingPending(s) {
      NothingPendingMeansAllDone(cfg, s);
    }
    if |s.pipe.done| == |s.pipe.log| {
      AllDoneMeansNothingPending(cfg, s);
    }
  }

  /** A close that finds the store closed returns at once, and leaves no frame unresolved exactly if the queue is empty and the writer holds none. */
  lemma SecondCloseDoesNotWait(cfg: Config, s: System, t: nat)
    requires ValidConfig(cfg) && Reachable(cfg, s) && ThreadOf(s, t).Idle? && s.pipe.store.closed
    ensures Enabled(cfg, s, BeginClose(t)) && Apply(cfg, s, BeginClose(t)) == s
    ensures NothingPending(s) <==> s.pipe.store.queue == [] && !Busy(s.pipe.worker)
  {
    hide Reachable;
    NothingPendingExactly(cfg, s);
  }

  /** Every state with a frame in the queue and an idle thread comes to that, with the first close still waiting. */
  lemma AnyQueueCanBeClosedOn(cfg: Config, s: System, u: nat)
    requires ValidConfig(cfg) && Reachable(cfg, s) && ThreadOf(s, u).Idle? && !s.pipe.store.closed && s.pipe.store.queue != []
    ensures Enabled(cfg, s, BeginClose(u))
    ensures var q := Apply(cfg, s, BeginClose(u));
      && Reachable(cfg, q) && q.pipe.store.closed && q.pipe.store.queue == s.pipe.store.queue && ThreadOf(q, u).Flushing?
      && forall t | t != u :: ThreadOf(q, t) == ThreadOf(s, t)
  {
    hide After;
    var steps :| After(cfg, steps) == Some(s);
    var more, q := OneMore(cfg, steps, s, BeginClose(u));
  }

  lemma StartOfRun(cfg: Config)
    requires ValidConfig(cfg)
    ensures After(cfg, []) == Some(Start(cfg))
  {
  }

  lemma OneMore(cfg: Config, steps: seq<Step>, s: System, step: Step) returns (more: seq<Step>, q: System)
    requires ValidConfig(cfg) && After(cfg, steps) == Some(s) && Enabled(cfg, s, step)
    ensures q == Apply(cfg, s, step) && After(cfg, more) == Some(q)
  {
    hide Enabled, Apply;
    more := steps + [step];
    assert more[..|steps|] == steps;
    q := Apply(cfg, s, step);
  }

  /** One event, encoded and accepted by an open store. */
  lemma OneFrameQueued(cfg: Config, bytes: Bytes, event: Event) returns (steps: seq<Step>, s: System)
    requires ValidConfig(cfg) && cfg.limits == Limits(0, 0) && cfg.initial == map[]
    requires IsFrame(cfg.codec, bytes, Record("r", event))
    ensures After(cfg, steps) == Some(s) && s.pipe.store.queue != [] && !s.pipe.store.closed
    ensures ThreadOf(s, 1).Idle? && ThreadOf(s, 2).Idle? && 0 in s.captures && s.captures[0].pending == 1
  {
    hide ValidCodec, Parse, After, TotalBytes;
    StartOfRun(cfg);
    ParseEmpty(cfg.codec);
    steps, s := OneMore(cfg, [], Start(cfg), Create(0, "p", "r"));
    steps, s := OneMore(cfg, steps, s, Emit(0, 0, event));
    steps, s := OneMore(cfg, steps, s, Encode(0, Some(bytes), Probe(false, 0, true, false)));
  }

  /** So it happens: a run in which the second close has returned while the first still waits for a frame. */
  lemma SecondCloseOvertakesFirst(cfg: Config, bytes: Bytes, event: Event) returns (s: System)
    requires ValidConfig(cfg) && cfg.limits == Limits(0, 0) && cfg.initial == map[]
    requires IsFrame(cfg.codec, bytes, Record("r", event))
    ensures Reachable(cfg, s) && ThreadOf(s, 1).Flushing? && ThreadOf(s, 2).Idle? && s.pipe.store.queue != []
    ensures Enabled(cfg, s, BeginClose(2)) && Apply(cfg, s, BeginClose(2)) == s
  {
    hide After, IsFrame, Apply, Enabled;
    var steps, before := OneFrameQueued(cfg, bytes, event);
    AnyQueueCanBeClosedOn(cfg, before, 1);
    s := Apply(cfg, before, BeginClose(1));
    SecondCloseDoesNotWait(cfg, s, 2);
  }
}
