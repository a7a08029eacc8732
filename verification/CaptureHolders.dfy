// Which unfinished append holds which event: every event is held by at most one, and none that is held has been accepted.
module CaptureHolders {
  import opened Wrappers
  import opened Frames
  import opened Captures
  import opened CaptureStore
  import opened CaptureSystem
  import opened CapturePositions
  import opened CaptureRuns

  ghost predicate Apart(s: System, t: nat, c: nat, position: nat) {
    Holds(ThreadOf(s, t), c, position) ==>
      && !InLog(s.pipe.log, c, position)
      && forall u | Holds(ThreadOf(s, u), c, position) :: u == t
  }

  ghost predicate Exclusive(s: System) {
    forall t, c, position {:trigger Apart(s, t, c, position)} :: Apart(s, t, c, position)
  }

  /** Appends that only let go of events leave the rest as it was. */
  lemma ReleasesKeep(s: System, q: System)
    requires Exclusive(s) && q.pipe.log == s.pipe.log
    requires forall t, c, position :: Holds(ThreadOf(q, t), c, position) ==> Holds(ThreadOf(s, t), c, position)
    ensures Exclusive(q)
  {
    forall t, c, position ensures Apart(q, t, c, position) {
      assert Apart(s, t, c, position);
    }
  }

  lemma EmitKeeps(s: System, q: System, t: nat, c: nat, event: Event, after: Continuation)
    requires Exclusive(s) && Traced(s) && c in s.captures && c in s.emitted && !ThreadOf(s, t).Appending? && !ThreadOf(s, t).Rejected?
    requires q == EmitOn(s, t, c, event, after)
    ensures Exclusive(q)
  {
    assert forall u | u != t :: ThreadOf(q, u) == ThreadOf(s, u);
    forall u, d, position ensures Apart(q, u, d, position) {
      assert Apart(s, u, d, position) && ThreadPlaced(s, ThreadOf(s, u));
      assert forall v :: ThreadPlaced(s, ThreadOf(s, v));
      assert forall i | 0 <= i < |s.pipe.log| :: Placed(s, s.pipe.log[i].capture, s.pipe.log[i].position, s.pipe.log[i].event);
    }
  }

  lemma AcceptKeepsApart(s: System, q: System, t: nat, f: Frame)
    requires Exclusive(s) && Holds(ThreadOf(s, t), f.capture, f.position) && q.pipe.log == s.pipe.log + [f]
    requires (forall u | u != t :: ThreadOf(q, u) == ThreadOf(s, u)) && !ThreadOf(q, t).Appending? && !ThreadOf(q, t).Rejected?
    ensures Exclusive(q)
  {
    forall u, c, position ensures Apart(q, u, c, position) {
      assert Apart(s, u, c, position) && Apart(s, t, f.capture, f.position);
      if InLog(q.pipe.log, c, position) && !InLog(s.pipe.log, c, position) {
        var i :| 0 <= i < |q.pipe.log| && q.pipe.log[i].capture == c && q.pipe.log[i].position == position;
        assert i < |s.pipe.log| ==> q.pipe.log[i] == s.pipe.log[i];
      }
    }
  }

  lemma EncodeKeeps(cfg: Config, s: System, t: nat, encoded: Option<Bytes>, probe: Probe)
    requires ValidConfig(cfg) && Exclusive(s) && Enabled(cfg, s, Encode(t, encoded, probe))
    ensures Exclusive(EncodeOn(cfg, s, t, encoded, probe))
  {
    hide Append, IsFrame, Honest, Exclusive, Apart;
    var thread, q := ThreadOf(s, t), EncodeOn(cfg, s, t, encoded, probe);
    if q.pipe.log == s.pipe.log {
      ReleasesKeep(s, q);
    } else {
      var f := Frame(s.captures[thread.capture].path, encoded.value, thread.capture, thread.event, thread.position);
      AcceptKeepsApart(s, q, t, f);
    }
  }

  lemma OtherStepsRelease(cfg: Config, s: System, step: Step)
    requires ValidConfig(cfg) && Enabled(cfg, s, step) && !step.Emit? && !step.EmitEnd? && !step.Encode?
    ensures Apply(cfg, s, step).pipe.log == s.pipe.log
    ensures forall t, c, position :: Holds(ThreadOf(Apply(cfg, s, step), t), c, position) ==> Holds(ThreadOf(s, t), c, position)
  {
    hide MarkDrop, NoteCompleted, CompleteWrite;
  }

  lemma StepKeepsExclusive(cfg: Config, s: System, step: Step)
    requires ValidConfig(cfg) && Traced(s) && Exclusive(s) && Enabled(cfg, s, step)
    ensures Exclusive(Apply(cfg, s, step))
  {
    hide Traced, Exclusive, IsFrame, Honest, EmitOn, EncodeOn, CompleteOn;
    match step
    case Emit(t, c, event) => EmitKeeps(s, Apply(cfg, s, step), t, c, event, Return);
    case EmitEnd(t) => EmitKeeps(s, Apply(cfg, s, step), t, ThreadOf(s, t).capture, ThreadOf(s, t).event, EndFinish(ThreadOf(s, t).complete));
    case Encode(t, encoded, probe) => EncodeKeeps(cfg, s, t, encoded, probe);
    case _ =>
      hide Holds, Apply;
      OtherStepsRelease(cfg, s, step);
      ReleasesKeep(s, Apply(cfg, s, step));
  }

  lemma {:induction false} RunsKeepExclusive(cfg: Config, steps: seq<Step>)
    requires ValidConfig(cfg) && After(cfg, steps).Some?
    ensures Exclusive(After(cfg, steps).value)
  {
    hide Invariant, Exclusive, Apply, Enabled;
    if steps == [] {
      assert Exclusive(Start(cfg)) by { NobodyHolds(cfg); }
    } else {
      var n := |steps| - 1;
      RunsKeepExclusive(cfg, steps[..n]);
      RunsKeep(cfg, steps[..n]);
      InvariantTraces(cfg, After(cfg, steps[..n]).value);
      StepKeepsExclusive(cfg, After(cfg, steps[..n]).value, steps[n]);
    }
  }

  lemma NobodyHolds(cfg: Config)
    requires ValidConfig(cfg)
    ensures Exclusive(Start(cfg))
  {
    hide TotalBytes;
  }

  lemma InvariantTraces(cfg: Config, s: System)
    requires ValidConfig(cfg) && Invariant(cfg, s)
    ensures Traced(s)
  {
    hide Traced;
  }

  /** In every reachable state, an event that an unfinished append holds has not been accepted. */
  lemma HeldIsNotAccepted(cfg: Config, s: System, c: nat, position: nat)
    requires ValidConfig(cfg) && Reachable(cfg, s) && Held(s, c, position)
    ensures !InLog(s.pipe.log, c, position)
  {
    hide After;
    var steps :| After(cfg, steps) == Some(s);
    RunsKeepExclusive(cfg, steps);
    var t :| Holds(ThreadOf(s, t), c, position);
    assert Apart(s, t, c, position);
  }
}
