// What the capture files and observations can be relied on for, in every reachable state.
module CaptureGuarantees {
  import opened Arithmetic
  import opened Wrappers
  import opened Frames
  import opened Captures
  import opened CaptureStore
  import opened CaptureSystem
  import opened CaptureAccounts
  import opened CaptureFiles
  import opened CaptureLedger
  import opened CapturePositions
  import opened CaptureRuns

  lemma ReachableKeeps(cfg: Config, s: System)
    requires ValidConfig(cfg) && Reachable(cfg, s)
    ensures Invariant(cfg, s)
  {
    hide Invariant;
    var steps :| After(cfg, steps) == Some(s);
    RunsKeep(cfg, steps);
  }

  // ---- Bytes ----

  /** The reservations are exact: per path and in total, what the files hold plus what is accepted and not yet written. */
  lemma ReservationsAreExact(cfg: Config, s: System, path: Path)
    requires ValidConfig(cfg) && Reachable(cfg, s)
    ensures |s.pipe.done| <= |s.pipe.log|
    ensures path in s.pipe.store.reserved ==> s.pipe.store.reserved[path] == |FileBytes(s.pipe.disk, path)| + Outstanding(s.pipe, path)
    ensures path !in s.pipe.store.reserved ==> Outstanding(s.pipe, path) == 0
    ensures s.pipe.store.total == TotalBytes(s.pipe.disk) + OutstandingAll(s.pipe)
    ensures Outstanding(s.pipe, path) >= 0 && OutstandingAll(s.pipe) >= 0
  {
    ReachableKeeps(cfg, s);
    hide Kempt, Noted, Traced;
    assert PathAccount(cfg, s.pipe, path);
  }

  /** No file and no total outgrows its quota, unless it was larger at start, and then it does not grow. */
  lemma QuotasHold(cfg: Config, s: System, path: Path)
    requires ValidConfig(cfg) && Reachable(cfg, s)
    ensures cfg.limits.maxFileBytes > 0 ==> |FileBytes(s.pipe.disk, path)| <= Max(Initial(cfg, path), cfg.limits.maxFileBytes)
    ensures cfg.limits.maxTotalBytes > 0 ==> TotalBytes(s.pipe.disk) <= Max(TotalBytes(cfg.initial), cfg.limits.maxTotalBytes)
    ensures !s.pipe.worker.Crashed?
  {
    ReachableKeeps(cfg, s);
    hide Kempt, Noted, Traced;
    assert PathAccount(cfg, s.pipe, path);
  }

  // ---- Files ----

  /** The path's frames that were written whole, in the order they were accepted. */
  function WholeFrames(log: seq<Frame>, done: seq<Outcome>, path: Path, n: nat): seq<Frame>
    requires n <= |log| && n <= |done|
  {
    if n == 0 then []
    else if log[n - 1].path == path && done[n - 1].persisted == |log[n - 1].bytes| then WholeFrames(log, done, path, n - 1) + [log[n - 1]]
    else WholeFrames(log, done, path, n - 1)
  }

  function BytesOf(frames: seq<Frame>): (bytes: seq<Bytes>)
    ensures |bytes| == |frames| && forall i | 0 <= i < |frames| :: bytes[i] == frames[i].bytes
  {
    seq(|frames|, i requires 0 <= i < |frames| => frames[i].bytes)
  }

  /** What a short write left at the end of the path's file. */
  function Tail(log: seq<Frame>, done: seq<Outcome>, path: Path, n: nat): Bytes
    requires SoundOutcomes(log, done) && n <= |done|
  {
    if n == 0 then []
    else if log[n - 1].path == path && 0 < done[n - 1].persisted < |log[n - 1].bytes| then log[n - 1].bytes[..done[n - 1].persisted]
    else Tail(log, done, path, n - 1)
  }

  lemma WholeGrows(whole: seq<Frame>, f: Frame)
    ensures Concat(BytesOf(whole + [f])) == Concat(BytesOf(whole)) + f.bytes
  {
    assert BytesOf(whole + [f])[..|whole|] == BytesOf(whole);
  }

  lemma {:induction false} TailIsTorn(log: seq<Frame>, done: seq<Outcome>, path: Path, n: nat)
    requires SoundOutcomes(log, done) && n <= |done|
    ensures Tail(log, done, path, n) != [] <==> !Clean(log, done, path, n)
  {
    if n > 0 { TailIsTorn(log, done, path, n - 1); }
  }

  /** A path's kept bytes are its whole frames and then its tail. */
  lemma {:induction false} Shape(log: seq<Frame>, done: seq<Outcome>, path: Path, n: nat)
    requires SoundOutcomes(log, done) && TornIsLast(log, done) && n <= |done|
    ensures KeptBytes(log, done, path, n) == Concat(BytesOf(WholeFrames(log, done, path, n))) + Tail(log, done, path, n)
  {
    if n > 0 {
      Shape(log, done, path, n - 1);
      if log[n - 1].path == path {
        ShapeGrows(log, done, path, n);
      }
    }
  }

  lemma ShapeGrows(log: seq<Frame>, done: seq<Outcome>, path: Path, n: nat)
    requires SoundOutcomes(log, done) && TornIsLast(log, done) && 0 < n <= |done| && log[n - 1].path == path
    requires KeptBytes(log, done, path, n - 1) == Concat(BytesOf(WholeFrames(log, done, path, n - 1))) + Tail(log, done, path, n - 1)
    ensures KeptBytes(log, done, path, n) == Concat(BytesOf(WholeFrames(log, done, path, n))) + Tail(log, done, path, n)
  {
    var f, o := log[n - 1], done[n - 1];
    var kept, whole, tail := KeptBytes(log, done, path, n - 1), WholeFrames(log, done, path, n - 1), Tail(log, done, path, n - 1);
    TailIsTorn(log, done, path, n - 1);
    assert o.persisted > 0 ==> tail == [];
    hide TornIsLast, SoundOutcomes, Concat, BytesOf;
    WholeGrows(whole, f);
    assert KeptBytes(log, done, path, n) == kept + f.bytes[..o.persisted];
    if o.persisted == |f.bytes| {
      assert f.bytes[..o.persisted] == f.bytes;
      assert kept + f.bytes == Concat(BytesOf(whole + [f])) + tail;
    } else {
      assert kept + f.bytes[..o.persisted] == Concat(BytesOf(whole)) + (tail + f.bytes[..o.persisted]);
      assert tail + f.bytes[..o.persisted] == Tail(log, done, path, n);
    }
  }

  ghost function WholeOn(s: System, path: Path): seq<Frame>
    requires |Outcomes(s.pipe)| <= |s.pipe.log|
  {
    WholeFrames(s.pipe.log, Outcomes(s.pipe), path, |Outcomes(s.pipe)|)
  }

  ghost function TailOn(s: System, path: Path): Bytes
    requires SoundOutcomes(s.pipe.log, Outcomes(s.pipe))
  {
    Tail(s.pipe.log, Outcomes(s.pipe), path, |Outcomes(s.pipe)|)
  }

  /** The path was poisoned by a short write, or its short write is just being settled. */
  ghost predicate Poisoned(s: System, path: Path) {
    path in s.pipe.store.poisoned || (s.pipe.worker.Written? && s.pipe.worker.item.path == path)
  }

  /** Every file is its initial contents, then whole frames in the order they were accepted, then at most one torn tail, on a
      poisoned path only. */
  lemma FilesAreWellShaped(cfg: Config, s: System, path: Path)
    requires ValidConfig(cfg) && Reachable(cfg, s)
    ensures SoundOutcomes(s.pipe.log, Outcomes(s.pipe))
    ensures FileBytes(s.pipe.disk, path) == FileBytes(cfg.initial, path) + (Concat(BytesOf(WholeOn(s, path))) + TailOn(s, path))
    ensures TailOn(s, path) != [] ==> Poisoned(s, path)
  {
    ReachableKeeps(cfg, s);
    hide Invariant, Accounted, Noted, Traced, Reachable;
    PartsOf(cfg, s);
    NotedInOrder(cfg, s);
    KemptShape(cfg, s, path);
  }

  lemma KemptShape(cfg: Config, s: System, path: Path)
    requires ValidConfig(cfg) && Kempt(cfg, s.pipe) && InOrder(s.pipe)
    ensures SoundOutcomes(s.pipe.log, Outcomes(s.pipe))
    ensures FileBytes(s.pipe.disk, path) == FileBytes(cfg.initial, path) + (Concat(BytesOf(WholeOn(s, path))) + TailOn(s, path))
    ensures TailOn(s, path) != [] ==> Poisoned(s, path)
  {
    var log, done := s.pipe.log, Outcomes(s.pipe);
    assert CaptureFiles.Holds(cfg, s.pipe, path);
    hide Vetted, KeptBytes, Tail, Concat, WholeFrames, BytesOf;
    Shape(log, done, path, |done|);
    TailIsTorn(log, done, path, |done|);
  }

  // ---- A torn tail is the end of its file ----

  /** Steps add to the history; they never rewrite it. */
  ghost predicate Extends(p: Pipe, q: Pipe) {
    && |p.log| <= |q.log| && p.log == q.log[..|p.log|]
    && |Outcomes(p)| <= |Outcomes(q)| && Outcomes(p) == Outcomes(q)[..|Outcomes(p)|]
  }

  predicate ByWriter(step: Step) {
    step.Take? || step.Stop? || step.CheckPoisoned? || step.CheckFailure? || step.Write? || step.Complete?
  }

  lemma WriterExtends(cfg: Config, s: System, step: Step)
    requires ValidConfig(cfg) && Accounted(cfg, s.pipe) && Enabled(cfg, s, step) && ByWriter(step)
    ensures Extends(s.pipe, Apply(cfg, s, step).pipe) && (!step.Write? ==> Apply(cfg, s, step).pipe.disk == s.pipe.disk)
  {
    hide CompleteWrite, NoteCompleted, Totals, PathAccount, Closing;
    if step.Complete? {
      CompleteKeeps(cfg, s.pipe);
    }
  }

  lemma EncodeExtends(cfg: Config, s: System, step: Step)
    requires ValidConfig(cfg) && Enabled(cfg, s, step) && step.Encode? && |Outcomes(s.pipe)| <= |s.pipe.log|
    ensures Extends(s.pipe, Apply(cfg, s, step).pipe) && Apply(cfg, s, step).pipe.disk == s.pipe.disk
  {
    if step.encoded.Some? {
      var thread := ThreadOf(s, step.thread);
      var f := Frame(s.captures[thread.capture].path, step.encoded.value, thread.capture, thread.event, thread.position);
      AppendFacts(cfg, s.pipe, f, step.probe);
      AppendsLog(cfg, s.pipe, f, step.probe, PipeAppend(cfg, s.pipe, f, step.probe));
      hide PipeAppend, Append;
    }
  }

  lemma OthersKeepPipe(cfg: Config, s: System, step: Step)
    requires ValidConfig(cfg) && Enabled(cfg, s, step) && !ByWriter(step) && !step.Encode?
    requires |Outcomes(s.pipe)| <= |s.pipe.log|
    ensures Extends(s.pipe, Apply(cfg, s, step).pipe) && Apply(cfg, s, step).pipe.disk == s.pipe.disk
  {
    hide Honest, IsFrame, MarkDrop, Extends;
    var p, q := s.pipe, Apply(cfg, s, step).pipe;
    assert q.log == p.log && q.done == p.done && q.worker == p.worker;
    SameExtends(p, q);
  }

  lemma SameExtends(p: Pipe, q: Pipe)
    requires q.log == p.log && q.done == p.done && q.worker == p.worker && |Outcomes(p)| <= |p.log|
    ensures Extends(p, q)
  {
  }

  lemma StepExtends(cfg: Config, s: System, step: Step)
    requires ValidConfig(cfg) && Invariant(cfg, s) && Enabled(cfg, s, step)
    ensures Extends(s.pipe, Apply(cfg, s, step).pipe) && (!step.Write? ==> Apply(cfg, s, step).pipe.disk == s.pipe.disk)
  {
    hide Invariant, Accounted, Apply, Enabled, Extends;
    PartsOf(cfg, s);
    SoundnessOf(cfg, s);
    if step.Encode? {
      EncodeExtends(cfg, s, step);
    } else if ByWriter(step) {
      WriterExtends(cfg, s, step);
    } else {
      OthersKeepPipe(cfg, s, step);
    }
  }

  lemma WriteSparesTorn(p: Pipe, opens: bool, accepted: nat, closes: bool, path: Path)
    requires InOrder(p) && Discipline(p) && p.worker.Writing? && accepted <= |p.worker.item.bytes|
    requires !Clean(p.log, p.done, path, |p.done|)
    ensures FileBytes(PipeWrite(p, opens, accepted, closes).disk, path) == FileBytes(p.disk, path)
  {
  }

  lemma TornGrows(p: Pipe, q: Pipe, path: Path)
    requires Extends(p, q) && |Outcomes(p)| <= |p.log| && |Outcomes(q)| <= |q.log| && !Clean(p.log, Outcomes(p), path, |Outcomes(p)|)
    ensures !Clean(q.log, Outcomes(q), path, |Outcomes(q)|)
  {
    var i :| 0 <= i < |Outcomes(p)| && p.log[i].path == path && Torn(p.log[i], Outcomes(p)[i]);
    assert q.log[i] == p.log[i] && Outcomes(q)[i] == Outcomes(p)[i];
  }

  lemma TornStays(cfg: Config, s: System, step: Step, path: Path)
    requires ValidConfig(cfg) && Invariant(cfg, s) && Enabled(cfg, s, step)
    requires SoundOutcomes(s.pipe.log, Outcomes(s.pipe)) && !Clean(s.pipe.log, Outcomes(s.pipe), path, |Outcomes(s.pipe)|)
    ensures FileBytes(Apply(cfg, s, step).pipe.disk, path) == FileBytes(s.pipe.disk, path)
  {
    if step.Write? {
      hide Accounted, Noted, Traced, Vetted;
      NotedInOrder(cfg, s);
      WriteSparesTorn(s.pipe, step.opens, step.accepted, step.closes, path);
    } else {
      StepExtends(cfg, s, step);
    }
  }

  /** Once a file ends in a torn frame it never changes again. */
  lemma {:induction false} TornFilesStay(cfg: Config, steps: seq<Step>, more: seq<Step>, s: System, q: System, path: Path)
    requires ValidConfig(cfg) && After(cfg, steps) == Some(s) && After(cfg, steps + more) == Some(q)
    requires SoundOutcomes(s.pipe.log, Outcomes(s.pipe)) && TailOn(s, path) != []
    ensures FileBytes(q.pipe.disk, path) == FileBytes(s.pipe.disk, path)
    ensures SoundOutcomes(q.pipe.log, Outcomes(q.pipe)) && TailOn(q, path) != []
    decreases |more|
  {
    hide Invariant, SoundOutcomes, FileBytes, Tail, Apply, Enabled;
    if more == [] {
      assert steps + more == steps;
    } else {
      var n := |more| - 1;
      assert (steps + more)[..|steps + more| - 1] == steps + more[..n];
      var r := After(cfg, steps + more[..n]).value;
      TornFilesStay(cfg, steps, more[..n], s, r, path);
      RunsKeep(cfg, steps + more[..n]);
      RunsKeep(cfg, steps + more);
      TornStep(cfg, r, more[n], path);
    }
  }

  lemma TornStep(cfg: Config, s: System, step: Step, path: Path)
    requires ValidConfig(cfg) && Invariant(cfg, s) && Enabled(cfg, s, step) && Invariant(cfg, Apply(cfg, s, step))
    requires SoundOutcomes(s.pipe.log, Outcomes(s.pipe)) && TailOn(s, path) != []
    ensures var q := Apply(cfg, s, step);
      && FileBytes(q.pipe.disk, path) == FileBytes(s.pipe.disk, path)
      && SoundOutcomes(q.pipe.log, Outcomes(q.pipe)) && TailOn(q, path) != []
  {
    hide Invariant, Extends, Clean;
    var q := Apply(cfg, s, step);
    SoundnessOf(cfg, q);
    TailIsTorn(s.pipe.log, Outcomes(s.pipe), path, |Outcomes(s.pipe)|);
    TailIsTorn(q.pipe.log, Outcomes(q.pipe), path, |Outcomes(q.pipe)|);
    StepExtends(cfg, s, step);
    TornStays(cfg, s, step, path);
    TornGrows(s.pipe, q.pipe, path);
  }

  lemma SoundnessOf(cfg: Config, s: System)
    requires ValidConfig(cfg) && Invariant(cfg, s)
    ensures SoundOutcomes(s.pipe.log, Outcomes(s.pipe))
  {
    hide Accounted, Noted, Traced;
  }
}
