// What is in the files: initial contents, then whole frames in the order they were accepted,
// then at most one torn tail, after which nothing is ever appended.
module CaptureFiles {
  import opened Wrappers
  import opened Frames
  import opened Captures
  import opened CaptureStore
  import opened CaptureSystem
  import opened CaptureAccounts

  /** The outcomes so far, with that of a write whose completion is still to come. */
  function Outcomes(p: Pipe): seq<Outcome> {
    if p.worker.Written? then p.done + [p.worker.outcome] else p.done
  }

  ghost predicate Torn(f: Frame, o: Outcome) {
    0 < o.persisted < |f.bytes|
  }

  ghost predicate Clean(log: seq<Frame>, done: seq<Outcome>, path: Path, n: nat)
    requires n <= |log| && n <= |done|
  {
    forall i | 0 <= i < n && log[i].path == path :: !Torn(log[i], done[i])
  }

  /** Past a torn frame nothing more is written to its path. */
  ghost predicate TornIsLast(log: seq<Frame>, done: seq<Outcome>) {
    |done| <= |log|
    && forall i, j | 0 <= i < j < |done| && log[i].path == log[j].path && Torn(log[i], done[i]) :: done[j].persisted == 0
  }

  ghost predicate Discipline(p: Pipe) {
    && TornIsLast(p.log, Outcomes(p))
    && (forall i | 0 <= i < |p.done| && Torn(p.log[i], p.done[i]) :: p.log[i].path in p.store.poisoned)
    && (p.worker.Unpoisoned? || p.worker.Writing? ==> Clean(p.log, p.done, p.worker.item.path, |p.done|))
  }

  function KeptBytes(log: seq<Frame>, done: seq<Outcome>, path: Path, n: nat): Bytes
    requires n <= |log| && n <= |done| && forall i | 0 <= i < n :: done[i].persisted <= |log[i].bytes|
  {
    if n == 0 then []
    else if log[n - 1].path == path then KeptBytes(log, done, path, n - 1) + log[n - 1].bytes[..done[n - 1].persisted]
    else KeptBytes(log, done, path, n - 1)
  }

  ghost predicate SoundOutcomes(log: seq<Frame>, done: seq<Outcome>) {
    |done| <= |log| && forall i | 0 <= i < |done| :: Sound(log[i], done[i])
  }

  ghost predicate Holds(cfg: Config, p: Pipe, path: Path)
    requires SoundOutcomes(p.log, Outcomes(p))
  {
    FileBytes(p.disk, path) == FileBytes(cfg.initial, path) + KeptBytes(p.log, Outcomes(p), path, |Outcomes(p)|)
  }

  /** Only paths whose initial contents read without a fault are ever written to. */
  ghost predicate Vetted(cfg: Config, p: Pipe)
    requires ValidConfig(cfg)
  {
    && (forall i | 0 <= i < |p.log| :: p.log[i].path in p.store.validated)
    && (forall path | path in p.store.validated && path !in p.store.poisoned :: Readable(cfg, path))
    && (forall i | 0 <= i < |p.log| :: Readable(cfg, p.log[i].path))
  }

  ghost predicate Readable(cfg: Config, path: Path)
    requires ValidConfig(cfg)
  {
    Parse(cfg.codec, FileBytes(cfg.initial, path)).fault == None
  }

  ghost predicate Kempt(cfg: Config, p: Pipe)
    requires ValidConfig(cfg)
  {
    && Discipline(p) && Vetted(cfg, p) && SoundOutcomes(p.log, Outcomes(p))
    && forall path {:trigger Holds(cfg, p, path)} :: Holds(cfg, p, path)
  }

  lemma {:induction false} KeptBytesPrefix(log: seq<Frame>, log': seq<Frame>, a: seq<Outcome>, b: seq<Outcome>, path: Path, n: nat)
    requires n <= |a| <= |b| && a == b[..|a|] && n <= |log| <= |log'| && log == log'[..|log|]
    requires forall i | 0 <= i < n :: a[i].persisted <= |log[i].bytes|
    ensures KeptBytes(log, a, path, n) == KeptBytes(log', b, path, n)
  {
    if n > 0 { KeptBytesPrefix(log, log', a, b, path, n - 1); }
  }

  /** No frame of the path, nothing kept. */
  lemma {:induction false} NothingKept(log: seq<Frame>, done: seq<Outcome>, path: Path, n: nat)
    requires n <= |log| && n <= |done| && forall i | 0 <= i < n :: done[i].persisted <= |log[i].bytes|
    requires forall i | 0 <= i < n :: log[i].path != path
    ensures KeptBytes(log, done, path, n) == []
  {
    if n > 0 { NothingKept(log, done, path, n - 1); }
  }

  // ---- Every step keeps it ----

  lemma AppendKeepsFiles(cfg: Config, p: Pipe, f: Frame, probe: Probe)
    requires ValidConfig(cfg) && InOrder(p) && Kempt(cfg, p) && Honest(cfg, p.disk, f.path, probe)
    ensures Kempt(cfg, PipeAppend(cfg, p, f, probe))
  {
    var q := PipeAppend(cfg, p, f, probe);
    AppendFacts(cfg, p, f, probe);
    AppendVets(cfg, p, f, probe);
    hide PipeAppend, Vetted, Honest;
    assert forall i | 0 <= i < |p.log| :: q.log[i] == p.log[i];
    forall path ensures Holds(cfg, q, path) {
      assert Holds(cfg, p, path);
      KeptBytesPrefix(p.log, q.log, Outcomes(p), Outcomes(q), path, |Outcomes(p)|);
    }
  }

  lemma AppendVets(cfg: Config, p: Pipe, f: Frame, probe: Probe)
    requires ValidConfig(cfg) && InOrder(p) && Kempt(cfg, p) && Honest(cfg, p.disk, f.path, probe)
    ensures Vetted(cfg, PipeAppend(cfg, p, f, probe))
  {
    AppendValidates(cfg, p, f, probe);
    AppendFacts(cfg, p, f, probe);
    if f.path !in p.store.validated {
      UntouchedFile(cfg, p, f.path);
      ReadableIsFound(cfg, p, f.path, probe);
    }
    hide PipeAppend, Readable, Honest;
  }

  lemma AppendValidates(cfg: Config, p: Pipe, f: Frame, probe: Probe)
    ensures var q, v := PipeAppend(cfg, p, f, probe).store, if p.store.closed then p.store else Validate(p.store, f.path, probe);
      q.validated == v.validated && q.poisoned == v.poisoned
  {
  }

  lemma ReadableIsFound(cfg: Config, p: Pipe, path: Path, probe: Probe)
    requires ValidConfig(cfg) && Honest(cfg, p.disk, path, probe) && FileBytes(p.disk, path) == FileBytes(cfg.initial, path)
    ensures Readable(cfg, path) || (probe.isFile && !probe.readable)
  {
  }

  /** Before the first append to a path its file is as it was found. */
  lemma UntouchedFile(cfg: Config, p: Pipe, path: Path)
    requires ValidConfig(cfg) && InOrder(p) && Kempt(cfg, p) && path !in p.store.validated
    ensures FileBytes(p.disk, path) == FileBytes(cfg.initial, path)
  {
    assert Holds(cfg, p, path);
    NothingKept(p.log, Outcomes(p), path, |Outcomes(p)|);
  }

  // ---- The writer's steps ----

  lemma TakeKeepsFiles(cfg: Config, p: Pipe)
    requires ValidConfig(cfg) && InOrder(p) && Kempt(cfg, p) && p.worker.Resting? && p.store.queue != []
    ensures Kempt(cfg, PipeTake(p))
  {
    QuietKeeps(cfg, p, PipeTake(p));
  }

  /** A step that neither writes nor accepts, and does not pass the check for poison. */
  lemma QuietKeeps(cfg: Config, p: Pipe, q: Pipe)
    requires ValidConfig(cfg) && Kempt(cfg, p)
    requires q.log == p.log && q.disk == p.disk && Outcomes(q) == Outcomes(p) && q.done == p.done
    requires q.store.poisoned == p.store.poisoned && q.store.validated == p.store.validated
    requires q.worker.Unpoisoned? || q.worker.Writing? ==> Clean(q.log, q.done, q.worker.item.path, |q.done|)
    ensures Kempt(cfg, q)
  {
    forall path ensures Holds(cfg, q, path) {
      assert Holds(cfg, p, path);
    }
  }

  /** A frame that is skipped keeps nothing. */
  lemma SkipKeeps(cfg: Config, p: Pipe, q: Pipe, o: Outcome)
    requires ValidConfig(cfg) && Kempt(cfg, p) && InOrder(p) && Busy(p.worker) && !p.worker.Written?
    requires q == p.(worker := Written(p.worker.item, o)) && o.persisted == 0 && o.drop != None
    ensures Kempt(cfg, q)
  {
    assert Outcomes(q) == p.done + [o];
    forall path ensures Holds(cfg, q, path) {
      assert Holds(cfg, p, path);
      KeptBytesPrefix(p.log, q.log, p.done, Outcomes(q), path, |p.done|);
      assert q.log[|p.done|].bytes[..0] == [];
    }
  }

  lemma CheckKeepsFiles(cfg: Config, p: Pipe, failed: bool)
    requires ValidConfig(cfg) && Kempt(cfg, p) && InOrder(p)
    ensures p.worker.Taken? ==> Kempt(cfg, PipeCheckPoisoned(p))
    ensures p.worker.Unpoisoned? ==> Kempt(cfg, PipeCheckFailure(p, failed))
  {
    hide Holds, Vetted, TornIsLast;
    if p.worker.Taken? {
      var q := PipeCheckPoisoned(p);
      if q.worker.Written? {
        SkipKeeps(cfg, p, q, q.worker.outcome);
      } else {
        QuietKeeps(cfg, p, q);
      }
    } else if p.worker.Unpoisoned? {
      var q := PipeCheckFailure(p, failed);
      if q.worker.Written? {
        SkipKeeps(cfg, p, q, q.worker.outcome);
      } else {
        QuietKeeps(cfg, p, q);
      }
    }
  }

  lemma WriteKeepsFiles(cfg: Config, p: Pipe, opens: bool, accepted: nat, closes: bool)
    requires ValidConfig(cfg) && Kempt(cfg, p) && InOrder(p) && p.worker.Writing? && accepted <= |p.worker.item.bytes|
    ensures Kempt(cfg, PipeWrite(p, opens, accepted, closes))
  {
    var q, f := PipeWrite(p, opens, accepted, closes), p.worker.item;
    assert Outcomes(q) == p.done + [q.worker.outcome];
    forall path ensures Holds(cfg, q, path) {
      assert Holds(cfg, p, path);
      KeptBytesPrefix(p.log, q.log, p.done, Outcomes(q), path, |p.done|);
      WriteHolds(p, opens, accepted, closes, path);
    }
  }

  lemma WriteHolds(p: Pipe, opens: bool, accepted: nat, closes: bool, path: Path)
    requires p.worker.Writing? && accepted <= |p.worker.item.bytes|
    ensures var q, f := PipeWrite(p, opens, accepted, closes), p.worker.item;
      FileBytes(q.disk, path) == FileBytes(p.disk, path) + if f.path == path then f.bytes[..q.worker.outcome.persisted] else []
  {
  }

  lemma CompleteKeepsFiles(cfg: Config, p: Pipe)
    requires ValidConfig(cfg) && Kempt(cfg, p) && InOrder(p) && p.worker.Written? && !PipeComplete(p).worker.Crashed?
    ensures Kempt(cfg, PipeComplete(p))
  {
    var q := PipeComplete(p);
    assert q.done == Outcomes(q) == Outcomes(p);
    forall path ensures Holds(cfg, q, path) {
      assert Holds(cfg, p, path);
    }
  }
}
