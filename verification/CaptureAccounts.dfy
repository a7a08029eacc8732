// What every run keeps about the store, its writer and the files: first-in first-out handling,
// exact byte reservations under both quotas, and the shape of every file.
module CaptureAccounts {
  import opened Arithmetic
  import opened Wrappers
  import opened Frames
  import opened Captures
  import opened CaptureStore
  import opened CaptureSystem

  // ---- The queue ----

  predicate Busy(w: Worker) {
    w.Taken? || w.Unpoisoned? || w.Writing? || w.Written?
  }

  function Handed(p: Pipe): nat {
    |p.done| + if Busy(p.worker) then 1 else 0
  }

  /** An outcome without a drop reason wrote the whole frame. */
  ghost predicate Sound(f: Frame, o: Outcome) {
    o.persisted <= |f.bytes| && (o.drop == None ==> o.persisted == |f.bytes|)
  }

  /** Frames reach the writer in the order they were accepted, one at a time, and none gets lost on the way. */
  ghost predicate InOrder(p: Pipe) {
    && Handed(p) <= |p.log| && p.store.queue == p.log[Handed(p)..] && |p.store.queue| <= QUEUE_LIMIT
    && (Busy(p.worker) ==> p.worker.item == p.log[|p.done|])
    && (p.worker.Written? ==> Sound(p.worker.item, p.worker.outcome))
    && forall i | 0 <= i < |p.done| :: Sound(p.log[i], p.done[i])
  }

  /** After close's sentinel nothing is left and nothing can come. */
  ghost predicate Closing(p: Pipe) {
    && (p.store.sentinel ==> p.store.closed && p.store.queue == [] && !Busy(p.worker))
    && (p.worker.Exited? ==> p.store.sentinel)
  }

  // ---- Byte counts ----

  function Initial(cfg: Config, path: Path): nat {
    |FileBytes(cfg.initial, path)|
  }

  /** The bytes of the first n accepted frames of a path. */
  function Sized(log: seq<Frame>, path: Path, n: nat): nat
    requires n <= |log|
  {
    if n == 0 then 0 else Sized(log, path, n - 1) + if log[n - 1].path == path then |log[n - 1].bytes| else 0
  }

  /** How many of those bytes were written. */
  function Kept(log: seq<Frame>, done: seq<Outcome>, path: Path, n: nat): nat
    requires n <= |log| && n <= |done|
  {
    if n == 0 then 0 else Kept(log, done, path, n - 1) + if log[n - 1].path == path then done[n - 1].persisted else 0
  }

  function SizedAll(log: seq<Frame>, n: nat): nat
    requires n <= |log|
  {
    if n == 0 then 0 else SizedAll(log, n - 1) + |log[n - 1].bytes|
  }

  function KeptAll(done: seq<Outcome>, n: nat): nat
    requires n <= |done|
  {
    if n == 0 then 0 else KeptAll(done, n - 1) + done[n - 1].persisted
  }

  /** What the write in progress has already put into the file. */
  function InFlight(p: Pipe, path: Path): nat {
    if p.worker.Written? && p.worker.item.path == path then p.worker.outcome.persisted else 0
  }

  function InFlightAll(p: Pipe): nat {
    if p.worker.Written? then p.worker.outcome.persisted else 0
  }

  /** Accepted bytes of a path that are not in its file yet. */
  function Outstanding(p: Pipe, path: Path): int
    requires |p.done| <= |p.log|
  {
    Sized(p.log, path, |p.log|) - Sized(p.log, path, |p.done|) - InFlight(p, path)
  }

  function OutstandingAll(p: Pipe): int
    requires |p.done| <= |p.log|
  {
    SizedAll(p.log, |p.log|) - SizedAll(p.log, |p.done|) - InFlightAll(p)
  }

  /** A path's reservation is what its file holds and what is still on its way; without an entry nothing is on its way. */
  ghost predicate Reserves(cfg: Config, p: Pipe, path: Path)
    requires |p.done| <= |p.log|
  {
    && |FileBytes(p.disk, path)| == Initial(cfg, path) + Kept(p.log, p.done, path, |p.done|) + InFlight(p, path)
    && (if path in p.store.reserved then p.store.reserved[path] == |FileBytes(p.disk, path)| + Outstanding(p, path)
        else Outstanding(p, path) == 0)
    && Outstanding(p, path) >= 0
  }

  /** Neither the file nor what is on its way to it outgrows the larger of the quota and what was there at start. */
  ghost predicate WithinFileQuota(cfg: Config, p: Pipe, path: Path)
    requires |p.done| <= |p.log|
  {
    cfg.limits.maxFileBytes > 0 ==>
      |FileBytes(p.disk, path)| + Outstanding(p, path) <= Max(Initial(cfg, path), cfg.limits.maxFileBytes)
  }

  ghost predicate Totals(cfg: Config, p: Pipe)
    requires |p.done| <= |p.log|
  {
    && TotalBytes(p.disk) == TotalBytes(cfg.initial) + KeptAll(p.done, |p.done|) + InFlightAll(p)
    && p.store.total == TotalBytes(p.disk) + OutstandingAll(p) && OutstandingAll(p) >= 0
    && (cfg.limits.maxTotalBytes > 0 ==> p.store.total <= Max(TotalBytes(cfg.initial), cfg.limits.maxTotalBytes))
  }

  ghost predicate PathAccount(cfg: Config, p: Pipe, path: Path)
    requires |p.done| <= |p.log|
  {
    Reserves(cfg, p, path) && WithinFileQuota(cfg, p, path)
  }

  ghost predicate Accounted(cfg: Config, p: Pipe) {
    && InOrder(p) && Closing(p) && !p.worker.Crashed? && Totals(cfg, p)
    && forall path {:trigger PathAccount(cfg, p, path)} :: PathAccount(cfg, p, path)
  }

  // ---- Sums ----

  lemma {:induction false} SizedPrefix(a: seq<Frame>, b: seq<Frame>, path: Path, n: nat)
    requires n <= |a| <= |b| && a == b[..|a|]
    ensures Sized(a, path, n) == Sized(b, path, n) && SizedAll(a, n) == SizedAll(b, n)
  {
    if n > 0 { SizedPrefix(a, b, path, n - 1); }
  }

  lemma {:induction false} KeptPrefix(log: seq<Frame>, log': seq<Frame>, a: seq<Outcome>, b: seq<Outcome>, path: Path, n: nat)
    requires n <= |a| <= |b| && a == b[..|a|] && n <= |log| <= |log'| && log == log'[..|log|]
    ensures Kept(log, a, path, n) == Kept(log', b, path, n) && KeptAll(a, n) == KeptAll(b, n)
  {
    if n > 0 { KeptPrefix(log, log', a, b, path, n - 1); }
  }

  lemma {:induction false} SizedGrows(log: seq<Frame>, path: Path, m: nat, n: nat)
    requires m <= n <= |log|
    ensures Sized(log, path, m) <= Sized(log, path, n) && SizedAll(log, m) <= SizedAll(log, n)
  {
    if m < n { SizedGrows(log, path, m, n - 1); }
  }

  lemma {:induction false} TotalOf(disk: Disk, path: Path)
    requires path in disk
    ensures TotalBytes(disk) == |disk[path]| + TotalBytes(disk - {path})
    decreases |disk|
  {
    var first :| first in disk && TotalBytes(disk) == |disk[first]| + TotalBytes(disk - {first});
    if first != path {
      TotalOf(disk - {first}, path);
      TotalOf(disk - {path}, first);
      assert disk - {first} - {path} == disk - {path} - {first};
    }
  }

  lemma TotalUpdated(disk: Disk, path: Path, bytes: Bytes)
    ensures TotalBytes(disk[path := bytes]) == TotalBytes(disk) - |FileBytes(disk, path)| + |bytes|
  {
    var more := disk[path := bytes];
    TotalOf(more, path);
    if path in disk {
      TotalOf(disk, path);
      assert more - {path} == disk - {path};
    } else {
      assert more - {path} == disk;
    }
  }

  // ---- Accepting a frame ----

  function Counted(p: Pipe, f: Frame, probe: Probe): int {
    CurrentBytes(p.store, f.path, probe)
  }

  /** An append changes nothing that counts, or it adds the frame everywhere at once, within both quotas. */
  ghost predicate Appends(cfg: Config, p: Pipe, f: Frame, probe: Probe, q: Pipe) {
    && q.worker == p.worker && q.disk == p.disk && q.done == p.done
    && q.store.closed == p.store.closed && q.store.sentinel == p.store.sentinel
    && p.store.poisoned <= q.store.poisoned
    && (q.log == p.log ==> q.store.queue == p.store.queue && q.store.reserved == p.store.reserved && q.store.total == p.store.total)
    && (q.log != p.log ==> Accepts(cfg, p, f, probe, q))
  }

  ghost predicate Accepts(cfg: Config, p: Pipe, f: Frame, probe: Probe, q: Pipe) {
    && q.log == p.log + [f] && q.store.queue == p.store.queue + [f] && |p.store.queue| < QUEUE_LIMIT && !p.store.closed
    && q.store.reserved == p.store.reserved[f.path := Counted(p, f, probe) + |f.bytes|]
    && q.store.total == p.store.total + |f.bytes|
    && (cfg.limits.maxFileBytes > 0 ==> Counted(p, f, probe) + |f.bytes| <= cfg.limits.maxFileBytes)
    && (cfg.limits.maxTotalBytes > 0 ==> q.store.total <= cfg.limits.maxTotalBytes)
    && f.path !in q.store.poisoned && f.path in q.store.validated
  }

  lemma AppendFacts(cfg: Config, p: Pipe, f: Frame, probe: Probe)
    ensures Appends(cfg, p, f, probe, PipeAppend(cfg, p, f, probe))
    ensures Append(p.store, cfg.limits, f, probe).refusal == None <==> PipeAppend(cfg, p, f, probe).log == p.log + [f]
    ensures Append(p.store, cfg.limits, f, probe).refusal != None <==> PipeAppend(cfg, p, f, probe).log == p.log
  {
    assert |p.log + [f]| == |p.log| + 1;
  }

  lemma AppendKeepsOrder(cfg: Config, p: Pipe, f: Frame, probe: Probe, q: Pipe)
    requires InOrder(p) && Closing(p) && Appends(cfg, p, f, probe, q)
    ensures InOrder(q) && Closing(q)
  {
    if q.log != p.log {
      assert q.log[Handed(p)..] == p.log[Handed(p)..] + [f];
    }
  }

  lemma AppendKeepsAccount(cfg: Config, p: Pipe, f: Frame, probe: Probe, q: Pipe, path: Path)
    requires InOrder(p) && PathAccount(cfg, p, path) && Appends(cfg, p, f, probe, q)
    requires probe.isFile == (f.path in p.disk) && probe.size == |FileBytes(p.disk, f.path)|
    ensures PathAccount(cfg, q, path)
  {
    if q.log != p.log {
      SizedPrefix(p.log, q.log, path, |p.log|);
      SizedPrefix(p.log, q.log, path, |p.done|);
      KeptPrefix(p.log, q.log, p.done, p.done, path, |p.done|);
    }
  }

  lemma AppendKeepsTotals(cfg: Config, p: Pipe, f: Frame, probe: Probe, q: Pipe)
    requires InOrder(p) && Totals(cfg, p) && Appends(cfg, p, f, probe, q)
    ensures Totals(cfg, q)
  {
    if q.log != p.log {
      SizedPrefix(p.log, q.log, f.path, |p.log|);
      SizedPrefix(p.log, q.log, f.path, |p.done|);
    }
  }

  lemma AppendKeeps(cfg: Config, p: Pipe, f: Frame, probe: Probe)
    requires Accounted(cfg, p) && probe.isFile == (f.path in p.disk) && probe.size == |FileBytes(p.disk, f.path)|
    ensures Accounted(cfg, PipeAppend(cfg, p, f, probe))
  {
    hide PipeAppend, PathAccount, Totals, Closing;
    var q := PipeAppend(cfg, p, f, probe);
    AppendFacts(cfg, p, f, probe);
    AppendKeepsOrder(cfg, p, f, probe, q);
    AppendKeepsTotals(cfg, p, f, probe, q);
    forall path ensures PathAccount(cfg, q, path) {
      assert PathAccount(cfg, p, path);
      AppendKeepsAccount(cfg, p, f, probe, q, path);
    }
  }

  // ---- The writer's steps ----

  /** Nothing but the worker and the queue's front changes, and nothing is written. */
  ghost predicate Advances(p: Pipe, q: Pipe) {
    && q.disk == p.disk && q.log == p.log && q.done == p.done
    && q.store == p.store.(queue := q.store.queue, closed := q.store.closed, sentinel := q.store.sentinel)
    && (q.worker == p.worker || (!p.worker.Written? && InFlightAll(q) == 0)) && !q.worker.Crashed?
  }

  lemma AdvanceKeeps(cfg: Config, p: Pipe, q: Pipe)
    requires Accounted(cfg, p) && Advances(p, q) && InOrder(q) && Closing(q)
    ensures Accounted(cfg, q)
  {
    hide Sized, SizedAll, Kept, KeptAll, TotalBytes, Closing;
    forall path ensures PathAccount(cfg, q, path) {
      assert PathAccount(cfg, p, path);
    }
  }

  lemma TakeKeeps(cfg: Config, p: Pipe)
    requires Accounted(cfg, p) && p.worker.Resting? && p.store.queue != []
    ensures Accounted(cfg, PipeTake(p))
  {
    var q := PipeTake(p);
    assert q.store.queue == p.log[Handed(q)..];
    AdvanceKeeps(cfg, p, q);
  }

  lemma CheckKeeps(cfg: Config, p: Pipe, failed: bool)
    requires Accounted(cfg, p)
    ensures p.worker.Taken? ==> Accounted(cfg, PipeCheckPoisoned(p))
    ensures p.worker.Unpoisoned? ==> Accounted(cfg, PipeCheckFailure(p, failed))
  {
    if p.worker.Taken? {
      AdvanceKeeps(cfg, p, PipeCheckPoisoned(p));
    } else if p.worker.Unpoisoned? {
      AdvanceKeeps(cfg, p, PipeCheckFailure(p, failed));
    }
  }

  lemma CloseKeeps(cfg: Config, p: Pipe)
    requires Accounted(cfg, p)
    ensures Accounted(cfg, p.(store := p.store.(closed := true)))
    ensures p.store.closed && p.store.queue == [] && p.worker.Resting? ==> Accounted(cfg, p.(store := p.store.(sentinel := true)))
    ensures p.store.queue == [] && p.store.sentinel && p.worker.Resting? ==> Accounted(cfg, p.(worker := Exited))
  {
    hide PathAccount, Totals;
    AdvanceKeeps(cfg, p, p.(store := p.store.(closed := true)));
    if p.store.closed && p.store.queue == [] && p.worker.Resting? {
      AdvanceKeeps(cfg, p, p.(store := p.store.(sentinel := true)));
    }
    if p.store.queue == [] && p.store.sentinel && p.worker.Resting? {
      AdvanceKeeps(cfg, p, p.(worker := Exited));
    }
  }

  lemma WriteKeeps(cfg: Config, p: Pipe, opens: bool, accepted: nat, closes: bool)
    requires Accounted(cfg, p) && p.worker.Writing? && accepted <= |p.worker.item.bytes|
    ensures Accounted(cfg, PipeWrite(p, opens, accepted, closes))
  {
    var q, f := PipeWrite(p, opens, accepted, closes), p.worker.item;
    forall path ensures PathAccount(cfg, q, path) {
      assert PathAccount(cfg, p, path);
      OutstandingAtLeast(p, path);
    }
    OutstandingAtLeast(p, f.path);
    TotalUpdated(p.disk, f.path, FileBytes(p.disk, f.path) + f.bytes[..if opens then accepted else 0]);
  }

  /** The frame the writer holds is still on its way. */
  lemma OutstandingAtLeast(p: Pipe, path: Path)
    requires InOrder(p) && Busy(p.worker)
    ensures p.worker.item.path == path ==> Outstanding(p, path) + InFlight(p, path) >= |p.worker.item.bytes|
    ensures OutstandingAll(p) + InFlightAll(p) >= |p.worker.item.bytes|
  {
    SizedGrows(p.log, path, |p.done| + 1, |p.log|);
  }

  lemma CompleteElsewhere(cfg: Config, p: Pipe, path: Path)
    requires InOrder(p) && PathAccount(cfg, p, path) && p.worker.Written? && !PipeComplete(p).worker.Crashed?
    requires path != p.worker.item.path
    ensures PathAccount(cfg, PipeComplete(p), path)
  {
    var q := PipeComplete(p);
    KeptPrefix(p.log, q.log, p.done, q.done, path, |p.done|);
    assert q.log[|p.done|].path != path;
  }

  lemma CompleteHere(cfg: Config, p: Pipe)
    requires InOrder(p) && p.worker.Written? && PathAccount(cfg, p, p.worker.item.path) && !PipeComplete(p).worker.Crashed?
    ensures PathAccount(cfg, PipeComplete(p), p.worker.item.path)
  {
    var q, f := PipeComplete(p), p.worker.item;
    KeptPrefix(p.log, q.log, p.done, q.done, f.path, |p.done|);
    OutstandingAtLeast(p, f.path);
    assert Sized(p.log, f.path, |q.done|) == Sized(p.log, f.path, |p.done|) + |f.bytes|;
    assert Kept(q.log, q.done, f.path, |q.done|) == Kept(p.log, p.done, f.path, |p.done|) + p.worker.outcome.persisted;
  }

  lemma CompleteKeepsTotals(cfg: Config, p: Pipe)
    requires InOrder(p) && Totals(cfg, p) && p.worker.Written? && !PipeComplete(p).worker.Crashed?
    ensures Totals(cfg, PipeComplete(p))
  {
    var q := PipeComplete(p);
    KeptPrefix(p.log, q.log, p.done, q.done, "", |p.done|);
    OutstandingAtLeast(p, "");
  }

  lemma CompleteKeeps(cfg: Config, p: Pipe)
    requires Accounted(cfg, p) && p.worker.Written?
    ensures Accounted(cfg, PipeComplete(p))
  {
    var q := PipeComplete(p);
    assert PathAccount(cfg, p, p.worker.item.path);
    OutstandingAtLeast(p, p.worker.item.path);
    assert !q.worker.Crashed?;
    hide PathAccount, Totals;
    CompleteKeepsTotals(cfg, p);
    forall path ensures PathAccount(cfg, q, path) {
      assert PathAccount(cfg, p, path);
      if path == p.worker.item.path {
        CompleteHere(cfg, p);
      } else {
        CompleteElsewhere(cfg, p, path);
      }
    }
  }
}
