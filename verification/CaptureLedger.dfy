// What every run keeps about each capture: its pending count, its ledger, and that nothing is
// written for it after its first loss in the writer.
module CaptureLedger {
  import opened Wrappers
  import opened Frames
  import opened Captures
  import opened CaptureStore
  import opened CaptureSystem
  import opened CaptureAccounts
  import opened CaptureFiles

  /** How many of the first n accepted frames belong to the capture. */
  function Count(log: seq<Frame>, c: nat, n: nat): nat
    requires n <= |log|
  {
    if n == 0 then 0 else Count(log, c, n - 1) + if log[n - 1].capture == c then 1 else 0
  }

  /** What the capture's committed frames prove, in order. */
  function EvidenceOf(log: seq<Frame>, done: seq<Outcome>, c: nat, n: nat): seq<Evidence>
    requires n <= |log| && n <= |done|
  {
    if n == 0 then []
    else if log[n - 1].capture == c && done[n - 1].drop == None then EvidenceOf(log, done, c, n - 1) + [log[n - 1].event.evidence]
    else EvidenceOf(log, done, c, n - 1)
  }

  /** Accepted frames are encodings of their captures' events, for their captures' paths. */
  ghost predicate Authentic(cfg: Config, s: System) {
    forall i | 0 <= i < |s.pipe.log| :: FrameOf(cfg, s, s.pipe.log[i])
  }

  ghost predicate FrameOf(cfg: Config, s: System, f: Frame) {
    && f.capture in s.captures && f.path == s.captures[f.capture].path
    && IsFrame(cfg.codec, f.bytes, Record(s.captures[f.capture].requestId, f.event))
  }

  /** The capture's counters agree with what the writer has done. */
  ghost predicate Balanced(p: Pipe, c: nat, capture: Capture)
    requires |p.done| <= |p.log|
  {
    && capture.pending == Count(p.log, c, |p.log|) - Count(p.log, c, |p.done|)
    && capture.ledger == LedgerOf(EvidenceOf(p.log, p.done, c, |p.done|))
    && (capture.enabled <==> capture.dropReason == None)
  }

  /** What a drop in the writer leaves behind. */
  ghost predicate Explained(p: Pipe, f: Frame, o: Outcome) {
    && (o.drop == None || o.drop == Some(WriterError) || o.drop == Some(PathPoisoned))
    && (o.drop == Some(PathPoisoned) ==> f.path in p.store.poisoned)
  }

  ghost predicate Remembered(s: System, f: Frame, o: Outcome) {
    && f.capture in s.captures && Explained(s.pipe, f, o)
    && (o.drop != None ==> s.captures[f.capture].dropReason != None)
    && (o.drop == Some(WriterError) ==> s.captures[f.capture].writerErrorEvent != None)
  }

  /** After one of its frames was dropped nothing more is written for a capture. */
  ghost predicate FailStop(log: seq<Frame>, done: seq<Outcome>) {
    |done| <= |log|
    && forall i, j | 0 <= i < j < |done| && log[i].capture == log[j].capture && done[i].drop != None :: done[j].persisted == 0
  }

  /** None of the capture's first n frames was dropped for this reason (or, without one, for any). */
  ghost predicate Spared(log: seq<Frame>, done: seq<Outcome>, c: nat, n: nat, reason: Option<DropReason>)
    requires n <= |log| && n <= |done|
  {
    forall i | 0 <= i < n && log[i].capture == c && done[i].drop != None :: reason != None && done[i].drop != reason
  }

  ghost predicate Writes(p: Pipe)
    requires |p.done| <= |p.log|
  {
    && FailStop(p.log, Outcomes(p))
    && (p.worker.Unpoisoned? ==> Spared(p.log, p.done, p.worker.item.capture, |p.done|, Some(PathPoisoned)))
    && (p.worker.Writing? ==> Spared(p.log, p.done, p.worker.item.capture, |p.done|, None))
    && (p.worker.Written? ==> Explained(p, p.worker.item, p.worker.outcome))
  }

  ghost predicate Noted(cfg: Config, s: System) {
    && InOrder(s.pipe) && Authentic(cfg, s) && Writes(s.pipe)
    && (forall i | 0 <= i < |s.pipe.done| :: Remembered(s, s.pipe.log[i], s.pipe.done[i]))
    && forall c | c in s.captures :: Balanced(s.pipe, c, s.captures[c])
  }

  // ---- Counting ----

  lemma {:induction false} CountPrefix(a: seq<Frame>, b: seq<Frame>, c: nat, n: nat)
    requires n <= |a| <= |b| && a == b[..|a|]
    ensures Count(a, c, n) == Count(b, c, n)
  {
    if n > 0 { CountPrefix(a, b, c, n - 1); }
  }

  lemma {:induction false} CountGrows(log: seq<Frame>, c: nat, m: nat, n: nat)
    requires m <= n <= |log|
    ensures Count(log, c, m) <= Count(log, c, n)
    ensures Count(log, c, m) == Count(log, c, n) ==> forall i | m <= i < n :: log[i].capture != c
  {
    if m < n { CountGrows(log, c, m, n - 1); }
  }

  lemma {:induction false} CountNone(log: seq<Frame>, c: nat, n: nat)
    requires n <= |log| && forall i | 0 <= i < n :: log[i].capture != c
    ensures Count(log, c, n) == 0
  {
    if n > 0 { CountNone(log, c, n - 1); }
  }

  lemma {:induction false} EvidencePrefix(log: seq<Frame>, log': seq<Frame>, a: seq<Outcome>, b: seq<Outcome>, c: nat, n: nat)
    requires n <= |a| <= |b| && a == b[..|a|] && n <= |log| <= |log'| && log == log'[..|log|]
    ensures EvidenceOf(log, a, c, n) == EvidenceOf(log', b, c, n)
  {
    if n > 0 { EvidencePrefix(log, log', a, b, c, n - 1); }
  }

  lemma {:induction false} EvidenceNone(log: seq<Frame>, done: seq<Outcome>, c: nat, n: nat)
    requires n <= |log| && n <= |done| && forall i | 0 <= i < n :: log[i].capture != c
    ensures EvidenceOf(log, done, c, n) == []
  {
    if n > 0 { EvidenceNone(log, done, c, n - 1); }
  }

  // ---- The producers' steps ----

  /** A change of a capture that the writer's bookkeeping does not see, or sees only as a loss. */
  ghost predicate Tweaks(a: Capture, b: Capture) {
    && b.path == a.path && b.requestId == a.requestId && b.pending == a.pending && b.ledger == a.ledger
    && (b.enabled <==> b.dropReason == None)
    && (a.dropReason != None ==> b.dropReason != None) && (a.writerErrorEvent != None ==> b.writerErrorEvent != None)
  }

  lemma TweakKeepsFrames(cfg: Config, s: System, q: System, c: nat)
    requires Authentic(cfg, s) && c in s.captures && c in q.captures && Tweaks(s.captures[c], q.captures[c])
    requires q.pipe == s.pipe && q.captures == s.captures[c := q.captures[c]]
    ensures Authentic(cfg, q)
  {
    hide IsFrame;
    forall i | 0 <= i < |q.pipe.log| ensures FrameOf(cfg, q, q.pipe.log[i]) {
      assert FrameOf(cfg, s, s.pipe.log[i]);
    }
  }

  lemma TweakKeepsMemory(s: System, q: System, c: nat, f: Frame, o: Outcome)
    requires Remembered(s, f, o) && c in s.captures && c in q.captures && Tweaks(s.captures[c], q.captures[c])
    requires q.pipe == s.pipe && q.captures == s.captures[c := q.captures[c]]
    ensures Remembered(q, f, o)
  {
  }

  lemma TweakKeeps(cfg: Config, s: System, q: System, c: nat)
    requires Noted(cfg, s) && c in s.captures && c in q.captures && Tweaks(s.captures[c], q.captures[c])
    requires q.pipe == s.pipe && q.captures == s.captures[c := q.captures[c]]
    ensures Noted(cfg, q)
  {
    TweakKeepsFrames(cfg, s, q, c);
    assert |s.pipe.done| <= |s.pipe.log|;
    hide InOrder, Writes, Authentic, Remembered, Count, EvidenceOf, LedgerOf;
    forall i | 0 <= i < |q.pipe.done| ensures Remembered(q, q.pipe.log[i], q.pipe.done[i]) {
      TweakKeepsMemory(s, q, c, q.pipe.log[i], q.pipe.done[i]);
    }
  }

  lemma CreateKeeps(cfg: Config, s: System, q: System, c: nat, capture: Capture)
    requires Noted(cfg, s) && c !in s.captures && capture == Fresh(capture.path, capture.requestId)
    requires q.pipe == s.pipe && q.captures == s.captures[c := capture]
    ensures Noted(cfg, q)
  {
    hide Writes, Explained, Count, EvidenceOf;
    forall i | 0 <= i < |q.pipe.log| ensures FrameOf(cfg, q, q.pipe.log[i]) && q.pipe.log[i].capture != c {
      assert FrameOf(cfg, s, s.pipe.log[i]);
    }
    forall i | 0 <= i < |q.pipe.done| ensures Remembered(q, q.pipe.log[i], q.pipe.done[i]) {
      assert Remembered(s, s.pipe.log[i], s.pipe.done[i]);
    }
    CountNone(s.pipe.log, c, |s.pipe.log|);
    CountNone(s.pipe.log, c, |s.pipe.done|);
    EvidenceNone(s.pipe.log, s.pipe.done, c, |s.pipe.done|);
  }

  lemma AcceptKeepsBalance(p: Pipe, q: Pipe, f: Frame, c: nat, capture: Capture)
    requires |p.done| <= |p.log| && Balanced(p, c, capture)
    requires q.log == p.log + [f] && q.done == p.done
    ensures Balanced(q, c, if c == f.capture then NoteQueued(capture) else capture)
  {
    CountPrefix(p.log, q.log, c, |p.log|);
    CountPrefix(p.log, q.log, c, |p.done|);
    EvidencePrefix(p.log, q.log, p.done, q.done, c, |p.done|);
  }

  lemma AcceptKeepsWrites(cfg: Config, p: Pipe, q: Pipe, f: Frame, probe: Probe)
    requires InOrder(p) && Writes(p) && Appends(cfg, p, f, probe, q)
    ensures |q.done| <= |q.log| && Writes(q)
  {
    hide Accepts;
    assert Outcomes(q) == Outcomes(p);
    if q.log != p.log {
      assert q.log == p.log + [f] by { AppendsLog(cfg, p, f, probe, q); }
    }
  }

  lemma AppendsLog(cfg: Config, p: Pipe, f: Frame, probe: Probe, q: Pipe)
    requires Appends(cfg, p, f, probe, q)
    ensures q.log == p.log || q.log == p.log + [f]
  {
  }

  lemma AcceptKeeps(cfg: Config, s: System, q: System, f: Frame, probe: Probe)
    requires Noted(cfg, s) && Closing(s.pipe) && FrameOf(cfg, s, f) && Appends(cfg, s.pipe, f, probe, q.pipe) && q.pipe.log == s.pipe.log + [f]
    requires q.captures == s.captures[f.capture := NoteQueued(s.captures[f.capture])]
    ensures Noted(cfg, q)
  {
    AppendKeepsOrder(cfg, s.pipe, f, probe, q.pipe);
    AcceptKeepsWrites(cfg, s.pipe, q.pipe, f, probe);
    AcceptKeepsMemory(cfg, s, q, f, probe);
    assert q.pipe.done == s.pipe.done && |s.pipe.done| <= |s.pipe.log|;
    hide InOrder, Writes, Appends, Closing, Remembered, Balanced, NoteQueued;
    AcceptKeepsFrames(cfg, s, q, f);
    forall c | c in q.captures ensures Balanced(q.pipe, c, q.captures[c]) {
      AcceptKeepsBalance(s.pipe, q.pipe, f, c, s.captures[c]);
    }
  }

  lemma AcceptKeepsFrames(cfg: Config, s: System, q: System, f: Frame)
    requires Authentic(cfg, s) && FrameOf(cfg, s, f) && q.pipe.log == s.pipe.log + [f]
    requires q.captures == s.captures[f.capture := NoteQueued(s.captures[f.capture])]
    ensures Authentic(cfg, q)
  {
    forall i | 0 <= i < |q.pipe.log| ensures FrameOf(cfg, q, q.pipe.log[i]) {
      assert FrameOf(cfg, s, q.pipe.log[i]);
    }
  }

  lemma AcceptKeepsMemory(cfg: Config, s: System, q: System, f: Frame, probe: Probe)
    requires Noted(cfg, s) && FrameOf(cfg, s, f) && Appends(cfg, s.pipe, f, probe, q.pipe) && q.pipe.log == s.pipe.log + [f]
    requires q.captures == s.captures[f.capture := NoteQueued(s.captures[f.capture])]
    ensures forall i | 0 <= i < |q.pipe.done| :: Remembered(q, q.pipe.log[i], q.pipe.done[i])
  {
    hide Writes, Accepts, Balanced;
    forall i | 0 <= i < |q.pipe.done| ensures Remembered(q, q.pipe.log[i], q.pipe.done[i]) {
      assert Remembered(s, s.pipe.log[i], s.pipe.done[i]);
    }
  }

  // ---- The writer's steps ----

  /** A step of the writer that completes nothing leaves the captures' accounts alone. */
  lemma QuietKeepsNotes(cfg: Config, s: System, q: System)
    requires Noted(cfg, s) && q.captures == s.captures && q.pipe.log == s.pipe.log && q.pipe.done == s.pipe.done
    requires s.pipe.store.poisoned <= q.pipe.store.poisoned && InOrder(q.pipe) && Writes(q.pipe)
    ensures Noted(cfg, q)
  {
    hide InOrder, Writes, Count, EvidenceOf, IsFrame, LedgerOf;
    forall i | 0 <= i < |q.pipe.log| ensures FrameOf(cfg, q, q.pipe.log[i]) {
      assert FrameOf(cfg, s, s.pipe.log[i]);
    }
    assert |q.pipe.done| <= |q.pipe.log| by { PipeLengths(q.pipe); }
    forall i | 0 <= i < |q.pipe.done| ensures Remembered(q, q.pipe.log[i], q.pipe.done[i]) {
      assert Remembered(s, s.pipe.log[i], s.pipe.done[i]);
    }
    forall c | c in q.captures ensures Balanced(q.pipe, c, q.captures[c]) {
      assert Balanced(s.pipe, c, s.captures[c]);
    }
  }

  lemma PipeLengths(p: Pipe)
    requires InOrder(p)
    ensures |p.done| <= |p.log|
  {
  }

  /** A refused frame leaves the captures' accounts alone. */
  lemma RefuseKeeps(cfg: Config, s: System, q: System, f: Frame, probe: Probe)
    requires Noted(cfg, s) && Closing(s.pipe) && Appends(cfg, s.pipe, f, probe, q.pipe) && q.pipe.log == s.pipe.log && q.captures == s.captures
    ensures Noted(cfg, q)
  {
    AppendKeepsOrder(cfg, s.pipe, f, probe, q.pipe);
    AcceptKeepsWrites(cfg, s.pipe, q.pipe, f, probe);
    QuietKeepsNotes(cfg, s, q);
  }

  lemma TakeKeepsNotes(cfg: Config, s: System, q: System)
    requires Noted(cfg, s) && s.pipe.worker.Resting? && s.pipe.store.queue != [] && q == s.(pipe := PipeTake(s.pipe))
    ensures Noted(cfg, q)
  {
    assert q.pipe.store.queue == q.pipe.log[Handed(q.pipe)..];
    QuietKeepsNotes(cfg, s, q);
  }

  lemma SkipStops(log: seq<Frame>, done: seq<Outcome>, o: Outcome)
    requires FailStop(log, done) && |done| < |log| && o.persisted == 0
    ensures FailStop(log, done + [o])
  {
  }

  lemma CheckPoisonedWrites(cfg: Config, s: System)
    requires Noted(cfg, s) && s.pipe.worker.Taken?
    ensures Writes(PipeCheckPoisoned(s.pipe))
  {
    var f, q := s.pipe.worker.item, PipeCheckPoisoned(s.pipe);
    assert FrameOf(cfg, s, s.pipe.log[|s.pipe.done|]);
    if q.worker.Written? {
      SkipStops(s.pipe.log, s.pipe.done, q.worker.outcome);
    } else {
      forall i | 0 <= i < |s.pipe.done| && s.pipe.log[i].capture == f.capture ensures s.pipe.done[i].drop != Some(PathPoisoned) {
        assert FrameOf(cfg, s, s.pipe.log[i]) && Remembered(s, s.pipe.log[i], s.pipe.done[i]);
      }
    }
  }

  lemma CheckPoisonedKeepsNotes(cfg: Config, s: System, q: System)
    requires Noted(cfg, s) && s.pipe.worker.Taken? && q == s.(pipe := PipeCheckPoisoned(s.pipe))
    ensures Noted(cfg, q)
  {
    CheckPoisonedWrites(cfg, s);
    hide FrameOf, Authentic, Balanced, Writes;
    QuietKeepsNotes(cfg, s, q);
  }

  lemma CheckFailureWrites(cfg: Config, s: System, failed: bool)
    requires Noted(cfg, s) && s.pipe.worker.Unpoisoned? && s.pipe.worker.item.capture in s.captures
    requires failed == (s.captures[s.pipe.worker.item.capture].writerErrorEvent != None)
    ensures Writes(PipeCheckFailure(s.pipe, failed))
  {
    hide Balanced, FrameOf;
    var f, q := s.pipe.worker.item, PipeCheckFailure(s.pipe, failed);
    if q.worker.Written? {
      SkipStops(s.pipe.log, s.pipe.done, q.worker.outcome);
    } else {
      forall i | 0 <= i < |s.pipe.done| && s.pipe.log[i].capture == f.capture ensures s.pipe.done[i].drop == None {
        assert Remembered(s, s.pipe.log[i], s.pipe.done[i]);
      }
    }
  }

  lemma CheckFailureKeepsNotes(cfg: Config, s: System, q: System)
    requires Noted(cfg, s) && s.pipe.worker.Unpoisoned? && s.pipe.worker.item.capture in s.captures
    requires q == s.(pipe := PipeCheckFailure(s.pipe, s.captures[s.pipe.worker.item.capture].writerErrorEvent != None))
    ensures Noted(cfg, q)
  {
    CheckFailureWrites(cfg, s, s.captures[s.pipe.worker.item.capture].writerErrorEvent != None);
    hide FrameOf, Authentic, Balanced, Writes;
    QuietKeepsNotes(cfg, s, q);
  }

  lemma WriteKeepsNotes(cfg: Config, s: System, q: System, opens: bool, accepted: nat, closes: bool)
    requires Noted(cfg, s) && s.pipe.worker.Writing? && accepted <= |s.pipe.worker.item.bytes|
    requires q == s.(pipe := PipeWrite(s.pipe, opens, accepted, closes))
    ensures Noted(cfg, q)
  {
    hide FrameOf, Authentic, Balanced, Remembered;
    assert Outcomes(q.pipe) == s.pipe.done + [q.pipe.worker.outcome];
    QuietKeepsNotes(cfg, s, q);
  }

  lemma CompleteKeepsBalance(p: Pipe, q: Pipe, c: nat, capture: Capture)
    requires InOrder(p) && Balanced(p, c, capture) && p.worker.Written?
    requires q.log == p.log && q.done == p.done + [p.worker.outcome]
    ensures |q.done| <= |q.log|
    ensures Balanced(q, c, if c == p.worker.item.capture then NoteCompleted(capture, p.worker.item.event.evidence, p.worker.outcome.drop) else capture)
  {
    hide LedgerOf, Committed;
    var n, f, o := |p.done|, p.worker.item, p.worker.outcome;
    var e := EvidenceOf(p.log, p.done, c, n);
    EvidencePrefix(p.log, q.log, p.done, q.done, c, n);
    assert q.log[n] == f && q.done[n] == o;
    LedgerGrows(e, f.event.evidence);
  }

  lemma CompleteKeepsMemory(s: System, q: System)
    requires InOrder(s.pipe) && s.pipe.worker.Written? && Explained(s.pipe, s.pipe.worker.item, s.pipe.worker.outcome)
    requires s.pipe.worker.item.capture in s.captures
    requires forall i | 0 <= i < |s.pipe.done| :: Remembered(s, s.pipe.log[i], s.pipe.done[i])
    requires q == CompleteOn(s) && !q.pipe.worker.Crashed?
    ensures forall i | 0 <= i < |q.pipe.done| :: Remembered(q, q.pipe.log[i], q.pipe.done[i])
  {
    forall i | 0 <= i < |q.pipe.done| ensures Remembered(q, q.pipe.log[i], q.pipe.done[i]) {
      assert i < |s.pipe.done| ==> Remembered(s, s.pipe.log[i], s.pipe.done[i]);
    }
  }

  lemma CompleteKeepsNotes(cfg: Config, s: System, q: System)
    requires Noted(cfg, s) && Closing(s.pipe) && s.pipe.worker.Written? && s.pipe.worker.item.capture in s.captures
    requires q == CompleteOn(s) && !q.pipe.worker.Crashed?
    ensures Noted(cfg, q)
  {
    CompleteFacts(s, q);
    CompleteKeepsMemory(s, q);
    CompleteKeepsWrites(s.pipe, q.pipe);
    hide InOrder, Writes, Remembered, Balanced, CompleteOn;
    forall i | 0 <= i < |q.pipe.log| ensures FrameOf(cfg, q, q.pipe.log[i]) {
      assert FrameOf(cfg, s, s.pipe.log[i]);
    }
    forall c | c in q.captures ensures Balanced(q.pipe, c, q.captures[c]) {
      CompleteKeepsBalance(s.pipe, q.pipe, c, s.captures[c]);
    }
  }

  lemma CompleteFacts(s: System, q: System)
    requires InOrder(s.pipe) && s.pipe.worker.Written? && s.pipe.worker.item.capture in s.captures
    requires q == CompleteOn(s) && !q.pipe.worker.Crashed?
    ensures var f, o := s.pipe.worker.item, s.pipe.worker.outcome;
      && q.pipe.log == s.pipe.log && q.pipe.done == s.pipe.done + [o] && q.pipe.worker.Resting?
      && q.captures == s.captures[f.capture := NoteCompleted(s.captures[f.capture], f.event.evidence, o.drop)]
      && q.captures[f.capture].path == s.captures[f.capture].path && q.captures[f.capture].requestId == s.captures[f.capture].requestId
    ensures InOrder(q.pipe)
  {
  }

  lemma CompleteKeepsWrites(p: Pipe, q: Pipe)
    requires InOrder(p) && Writes(p) && p.worker.Written?
    requires q.log == p.log && q.done == p.done + [p.worker.outcome] && q.worker.Resting?
    ensures |q.done| <= |q.log| && Writes(q)
  {
    assert Outcomes(q) == q.done == Outcomes(p);
  }
}
