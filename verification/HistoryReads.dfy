// The history index and its archive together: whether the reference of a row reads back when its archiving is completed.
module HistoryReads {
  import opened Wrappers
  import A = HistoryArchive
  import R = HistoryArchiveRaises
  import I = HistoryIndex

  ghost predicate AppendedAt(os: seq<R.Occurrence>, j: nat, reference: A.Reference) {
    j < |os| && os[j].Done? && os[j].event.Appended? && os[j].event.reference == reference
  }

  /** Step i comes when the archive has reached its state `when`: what is persisted has been appended, and a completion reads the files. */
  ghost predicate Agrees(u: A.Setup, archives: seq<A.Archive>, os: seq<R.Occurrence>, w: I.Writer, step: I.Step, when: nat)
    requires A.ValidSetup(u) && when < |archives|
  {
    match step
    case Store(id, reference) => exists j: nat :: j < when && AppendedAt(os, j, reference)
    case Finish(readsBack) =>
      w.worker.Holding? && w.worker.id in w.rows ==>
        (readsBack <==> A.Read(u, archives[when].files, w.rows[w.worker.id].reference).Ok?)
    case _ => true
  }

  /** A run of the index beside a history of the archive. */
  datatype Joint = Joint(archives: seq<A.Archive>, os: seq<R.Occurrence>, states: seq<I.Writer>, steps: seq<I.Step>,
                         queueSize: nat, found: I.Rows, when: seq<nat>)

  ghost predicate ValidJoint(u: A.Setup, x: Joint)
    requires A.ValidSetup(u)
  {
    && R.LongHistory(u, x.archives, x.os) && I.Runs(x.states, x.steps, x.queueSize, x.found) && |x.when| == |x.steps|
    && (forall i | 0 <= i < |x.when| :: x.when[i] < |x.archives|)
    && (forall i, k | 0 <= i <= k < |x.when| :: x.when[i] <= x.when[k])
    && forall i | 0 <= i < |x.steps| :: Agrees(u, x.archives, x.os, x.states[i], x.steps[i], x.when[i])
  }

  /** The row's last persist is step k, with this reference. */
  ghost predicate PersistedAt(x: Joint, k: nat, n: nat, id: I.Id, reference: A.Reference)
    requires n <= |x.steps|
  {
    k < n && x.steps[k] == I.Store(id, reference) && forall i | k < i < n :: !(x.steps[i].Store? && x.steps[i].id == id)
  }

  lemma ReferenceStep(w: I.Writer, step: I.Step, queueSize: nat, id: I.Id)
    requires I.Enabled(w, step)
    ensures var v := I.Apply(w, step, queueSize);
      if step.Store? && step.id == id then id in v.rows && v.rows[id].reference == step.reference
      else (id in v.rows <==> id in w.rows) && (id in w.rows ==> v.rows[id].reference == w.rows[id].reference)
  {
  }

  lemma {:induction false} RowHasReference(u: A.Setup, x: Joint, k: nat, n: nat, id: I.Id, reference: A.Reference)
    requires A.ValidSetup(u) && ValidJoint(u, x) && n <= |x.steps| && PersistedAt(x, k, n, id, reference)
    ensures id in x.states[n].rows && x.states[n].rows[id].reference == reference
  {
    hide I.Apply, I.Enabled, Agrees, R.LongHistory;
    var m := n - 1;
    assert I.Moves(x.states[m], x.steps[m], x.states[m + 1], x.queueSize);
    ReferenceStep(x.states[m], x.steps[m], x.queueSize, id);
    if k < m {
      RowHasReference(u, x, k, m, id, reference);
    }
  }

  /** The completion of a persisted row finds its record if and only if the file held nothing past the remembered size when the
      frame was appended, or only what the frame repeats. */
  lemma CompletionReadsExactly(u: A.Setup, x: Joint, k: nat, n: nat, id: I.Id, j: nat)
    requires A.ValidSetup(u) && R.Injective(u.digest) && ValidJoint(u, x) && n < |x.steps|
    requires x.steps[n].Finish? && x.states[n].worker == I.Holding(id)
    requires j < |x.os| && x.os[j].Done? && x.os[j].event.Appended? && PersistedAt(x, k, n, id, x.os[j].event.reference) && j < x.when[k]
    ensures var e := x.os[j].event; var before := A.Contents(x.archives[j].files, e.reference.location);
      && e.reference.offset <= |before|
      && (x.steps[n].readsBack <==> R.PointedAt(before, e.reference.offset, e.frame) == e.frame)
  {
    hide R.Occurs, R.Injective, I.Moves, A.Read, A.ValidSetup;
    RowHasReference(u, x, k, n, id, x.os[j].event.reference);
    assert Agrees(u, x.archives, x.os, x.states[n], x.steps[n], x.when[n]);
    R.ReadsBackExactly(u, x.archives, x.os, j, x.when[n]);
  }

  /** If no append had raised by then, a persisted row's completion never fails for its reference. */
  lemma PersistedRowsComplete(u: A.Setup, x: Joint, k: nat, n: nat, id: I.Id, reference: A.Reference)
    requires A.ValidSetup(u) && R.Injective(u.digest) && ValidJoint(u, x) && n < |x.steps|
    requires x.steps[n].Finish? && x.states[n].worker == I.Holding(id) && PersistedAt(x, k, n, id, reference)
    requires forall i | 0 <= i < x.when[k] && i < |x.os| :: x.os[i].Done?
    requires forall i | 0 <= i <= x.when[k] :: R.Numbered(x.archives[i])
    ensures x.steps[n].readsBack && I.Complete(x.states[n].rows, id, x.steps[n].readsBack).Done?
  {
    hide R.Occurs, R.Injective, R.Numbered, I.Moves, A.Read, A.ValidSetup;
    RowHasReference(u, x, k, n, id, reference);
    assert Agrees(u, x.archives, x.os, x.states[k], x.steps[k], x.when[k]);
    var j: nat :| j < x.when[k] && AppendedAt(x.os, j, reference);
    assert Agrees(u, x.archives, x.os, x.states[n], x.steps[n], x.when[n]);
    R.ReferencesReadBack(u, x.archives, x.os, j, x.when[n]);
  }
}
