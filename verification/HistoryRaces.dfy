// The history index when other methods run between the two statements of one: beginning and completing
// an archive each read a row first and write it later.
module HistoryRaces {
  import opened Wrappers
  import opened HistoryArchive
  import opened HistoryIndex

  /** The row a completion has selected, and the reference it then reads. */
  datatype Selected = Selected(id: Id, reference: Reference)

  /** `begins` are the calls whose update is due; `read` is the reference that the last completion of a row has read, until the row is persisted again. */
  datatype Table = Table(rows: Rows, begins: map<nat, Id>, completion: Option<Selected>, read: map<Id, Reference>)

  datatype Statement =
    | Replace(id: Id, reference: Reference)
    | SelectBegin(call: nat, id: Id)
    | UpdateBegin(call: nat)
    | SelectCompletion(id: Id)
    | UpdateCompletion
    | DropCompletion
    | Fail(id: Id, code: string)
    | Pin(id: Id, pinned: bool)

  predicate Enabled(x: Table, s: Statement) {
    match s
    case SelectBegin(call, id) => call !in x.begins
    case UpdateBegin(call) => call in x.begins
    case SelectCompletion(id) => x.completion.None?
    case UpdateCompletion => x.completion.Some?
    case DropCompletion => x.completion.Some?
    case _ => true
  }

  predicate Eligible(rows: Rows, id: Id) {
    id in rows && rows[id].state != Archived && !rows[id].archived && !rows[id].pinned
  }

  function Execute(x: Table, s: Statement): Table
    requires Enabled(x, s)
  {
    match s
    case Replace(id, reference) => x.(rows := Persist(x.rows, id, reference), read := x.read - {id})
    case SelectBegin(call, id) => if Eligible(x.rows, id) then x.(begins := x.begins[call := id]) else x
    case UpdateBegin(call) =>
      var id := x.begins[call];
      x.(rows := if id in x.rows then x.rows[id := x.rows[id].(state := Archiving, errorCode := None)] else x.rows,
         begins := x.begins - {call})
    case SelectCompletion(id) =>
      if id in x.rows && x.rows[id].state == Archiving then x.(completion := Some(Selected(id, x.rows[id].reference))) else x
    case UpdateCompletion =>
      var c := x.completion.value;
      if c.id in x.rows then
        Table(x.rows[c.id := x.rows[c.id].(archived := true, state := Archived, errorCode := None)], x.begins, None,
              x.read[c.id := c.reference])
      else x.(completion := None)
    case DropCompletion => x.(completion := None)
    case Fail(id, code) => x.(rows := MarkFailed(x.rows, id, code))
    case Pin(id, pinned) => x.(rows := SetPinned(x.rows, id, pinned).0)
  }

  ghost predicate Moves(x: Table, s: Statement, y: Table) {
    Enabled(x, s) && y == Execute(x, s)
  }

  ghost predicate Runs(states: seq<Table>, steps: seq<Statement>, found: Rows) {
    && |states| == |steps| + 1 && Flagged(found) && states[0] == Table(Start(found).rows, map[], None, map[])
    && forall i | 0 <= i < |steps| :: Moves(states[i], steps[i], states[i + 1])
  }

  lemma AtStep(states: seq<Table>, steps: seq<Statement>, found: Rows, i: nat)
    requires Runs(states, steps, found) && i < |steps|
    ensures Moves(states[i], steps[i], states[i + 1])
  {
  }

  // ---- Nothing in between: the methods as one step ----

  /** Begin's two statements in a row are the whole method. */
  lemma BeginUndivided(x: Table, call: nat, id: Id)
    requires call !in x.begins
    ensures var y := Execute(x, SelectBegin(call, id));
      if call in y.begins then Begin(x.rows, id) == (Execute(y, UpdateBegin(call)).rows, NowArchiving)
      else y == x && Begin(x.rows, id).0 == x.rows && Begin(x.rows, id).1 != NowArchiving
  {
  }

  /** So are completion's. */
  lemma CompletionUndivided(x: Table, id: Id)
    requires x.completion.None? && id in x.rows
    ensures var y := Execute(x, SelectCompletion(id));
      Complete(x.rows, id, true) == Done(if y.completion.Some? then Execute(y, UpdateCompletion).rows else x.rows)
  {
  }

  // ---- Flag and state ----

  ghost predicate Disagrees(x: Table, id: Id) {
    id in x.rows && x.rows[id].archived != (x.rows[id].state == Archived)
  }

  ghost predicate Replaces(s: Statement, id: Id) {
    s.Replace? && s.id == id
  }

  ghost predicate Commits(x: Table, s: Statement, id: Id) {
    s.UpdateCompletion? && x.completion.Some? && x.completion.value.id == id && id in x.rows
  }

  ghost predicate IsFlagged(x: Table, id: Id) {
    id in x.rows && x.rows[id].archived
  }

  /** A completion of the row commits at k, and it is not persisted again before m. */
  ghost predicate FlaggedSince(states: seq<Table>, steps: seq<Statement>, k: nat, m: nat, id: Id)
    requires m <= |steps| < |states|
  {
    k < m && Commits(states[k], steps[k], id) && forall i | k < i < m :: !Replaces(steps[i], id)
  }

  lemma FlagStep(x: Table, s: Statement, id: Id)
    requires Enabled(x, s)
    ensures IsFlagged(Execute(x, s), id) <==> Commits(x, s, id) || (IsFlagged(x, id) && !Replaces(s, id))
  {
  }

  lemma {:induction false} FlagStays(states: seq<Table>, steps: seq<Statement>, found: Rows, k: nat, m: nat, id: Id)
    requires Runs(states, steps, found) && m < |states| && FlaggedSince(states, steps, k, m, id)
    ensures IsFlagged(states[m], id)
  {
    AtStep(states, steps, found, m - 1);
    FlagStep(states[m - 1], steps[m - 1], id);
    if k < m - 1 {
      FlagStays(states, steps, found, k, m - 1, id);
    }
  }

  /** A row that was not flagged at j and is at m has been completed in between. */
  lemma {:induction false} FlagHasCause(states: seq<Table>, steps: seq<Statement>, found: Rows, j: nat, m: nat, id: Id) returns (k: nat)
    requires Runs(states, steps, found) && j <= m < |states| && !IsFlagged(states[j], id) && IsFlagged(states[m], id)
    ensures j <= k && FlaggedSince(states, steps, k, m, id)
  {
    AtStep(states, steps, found, m - 1);
    FlagStep(states[m - 1], steps[m - 1], id);
    if Commits(states[m - 1], steps[m - 1], id) {
      k := m - 1;
    } else {
      k := FlagHasCause(states, steps, found, j, m - 1, id);
    }
  }

  /** The call selected the row at j, eligible, and its update is due from then to m. */
  ghost predicate BeginDue(states: seq<Table>, steps: seq<Statement>, call: nat, j: nat, m: nat, id: Id)
    requires m <= |steps| < |states|
  {
    && j < m && steps[j] == SelectBegin(call, id) && Eligible(states[j].rows, id)
    && forall i | j < i <= m :: call in states[i].begins && states[i].begins[call] == id
  }

  lemma {:induction false} BeginHasSelected(states: seq<Table>, steps: seq<Statement>, found: Rows, call: nat, m: nat) returns (j: nat)
    requires Runs(states, steps, found) && m < |states| && call in states[m].begins
    ensures BeginDue(states, steps, call, j, m, states[m].begins[call])
  {
    AtStep(states, steps, found, m - 1);
    if call in states[m - 1].begins {
      j := BeginHasSelected(states, steps, found, call, m - 1);
    } else {
      j := m - 1;
    }
  }

  /** At m a call updates the row it selected at j, and a completion of the row committed at k, in between. */
  ghost predicate Crosses(states: seq<Table>, steps: seq<Statement>, j: nat, k: nat, m: nat, id: Id)
    requires m < |steps| < |states|
  {
    && steps[m].UpdateBegin? && BeginDue(states, steps, steps[m].call, j, m, id)
    && j < k && FlaggedSince(states, steps, k, m, id)
  }

  ghost predicate CrossedAt(states: seq<Table>, steps: seq<Statement>, m: nat, id: Id)
    requires m < |steps| < |states|
  {
    exists j: nat, k: nat :: Crosses(states, steps, j, k, m, id)
  }

  ghost predicate Repairs(x: Table, s: Statement, id: Id) {
    Replaces(s, id) || Commits(x, s, id)
  }

  /** The crossing at m has not been repaired before n. */
  ghost predicate UnrepairedCrossing(states: seq<Table>, steps: seq<Statement>, m: nat, n: nat, id: Id)
    requires n <= |steps| < |states|
  {
    m < n && CrossedAt(states, steps, m, id) && forall i | m < i < n :: !Repairs(states[i], steps[i], id)
  }

  ghost predicate NeverUnflagged(x: Table, id: Id) {
    id in x.rows && x.rows[id].state == Archived ==> x.rows[id].archived
  }

  lemma DisagreementStep(x: Table, s: Statement, id: Id)
    requires Enabled(x, s) && NeverUnflagged(x, id)
    ensures NeverUnflagged(Execute(x, s), id)
    ensures Disagrees(Execute(x, s), id) <==>
      || (Disagrees(x, id) && !Repairs(x, s, id))
      || (s.UpdateBegin? && x.begins[s.call] == id && IsFlagged(x, id))
  {
  }

  lemma {:induction false} RunsNeverUnflag(states: seq<Table>, steps: seq<Statement>, found: Rows, n: nat, id: Id)
    requires Runs(states, steps, found) && n < |states|
    ensures NeverUnflagged(states[n], id)
  {
    if n > 0 {
      RunsNeverUnflag(states, steps, found, n - 1, id);
      AtStep(states, steps, found, n - 1);
      DisagreementStep(states[n - 1], steps[n - 1], id);
    }
  }

  /** A call updates a flagged row exactly when a completion has come between its two statements. */
  lemma CrossingExactly(states: seq<Table>, steps: seq<Statement>, found: Rows, m: nat, id: Id)
    requires Runs(states, steps, found) && m < |steps|
    ensures CrossedAt(states, steps, m, id) <==>
      steps[m].UpdateBegin? && steps[m].call in states[m].begins && states[m].begins[steps[m].call] == id && IsFlagged(states[m], id)
  {
    hide Execute;
    if j: nat, k: nat :| Crosses(states, steps, j, k, m, id) {
      FlagStays(states, steps, found, k, m, id);
    }
    if steps[m].UpdateBegin? && steps[m].call in states[m].begins && states[m].begins[steps[m].call] == id && IsFlagged(states[m], id) {
      var j := BeginHasSelected(states, steps, found, steps[m].call, m);
      var k := FlagHasCause(states, steps, found, j, m, id);
      assert k != j;
      assert Crosses(states, steps, j, k, m, id);
    }
  }

  /** Flag and state of a row disagree if and only if a completion of it has committed between the two statements of a begin,
      and since that begin's update the row has neither been completed nor persisted again. */
  lemma {:induction false} DisagreesExactly(states: seq<Table>, steps: seq<Statement>, found: Rows, n: nat, id: Id)
    requires Runs(states, steps, found) && n < |states|
    ensures Disagrees(states[n], id) <==> exists m: nat :: UnrepairedCrossing(states, steps, m, n, id)
  {
    hide Execute, CrossedAt, Repairs;
    if n == 0 {
      AgreesAtStart(found, id);
    } else {
      var k := n - 1;
      DisagreesExactly(states, steps, found, k, id);
      RunsNeverUnflag(states, steps, found, k, id);
      AtStep(states, steps, found, k);
      DisagreementStep(states[k], steps[k], id);
      CrossingExactly(states, steps, found, k, id);
      if CrossedAt(states, steps, k, id) {
        assert UnrepairedCrossing(states, steps, k, n, id);
      }
      if Disagrees(states[k], id) && !Repairs(states[k], steps[k], id) {
        var m: nat :| UnrepairedCrossing(states, steps, m, k, id);
        assert UnrepairedCrossing(states, steps, m, n, id);
      }
      if m: nat :| UnrepairedCrossing(states, steps, m, n, id) {
        if m < k {
          assert UnrepairedCrossing(states, steps, m, k, id);
        }
      }
    }
  }

  lemma AgreesAtStart(found: Rows, id: Id)
    requires Flagged(found)
    ensures !Disagrees(Table(Start(found).rows, map[], None, map[]), id)
  {
  }

  // ---- Which reference was read ----

  /** The row was archived on the strength of a reference that is not its own. */
  ghost predicate Misread(x: Table, id: Id) {
    id in x.rows && id in x.read && x.read[id] != x.rows[id].reference
  }

  /** The completion selected the row at j and is under way from then to m. */
  ghost predicate CompletionDue(states: seq<Table>, steps: seq<Statement>, j: nat, m: nat, id: Id)
    requires m <= |steps| < |states|
  {
    && j < m && steps[j] == SelectCompletion(id) && id in states[j].rows
    && forall i | j < i <= m :: states[i].completion == Some(Selected(id, states[j].rows[id].reference))
  }

  lemma {:induction false} CompletionHasSelected(states: seq<Table>, steps: seq<Statement>, found: Rows, m: nat) returns (j: nat)
    requires Runs(states, steps, found) && m < |states| && states[m].completion.Some?
    ensures CompletionDue(states, steps, j, m, states[m].completion.value.id)
  {
    AtStep(states, steps, found, m - 1);
    if states[m - 1].completion.Some? {
      j := CompletionHasSelected(states, steps, found, m - 1);
    } else {
      j := m - 1;
    }
  }

  /** The row is persisted with that reference at k, and not again before m. */
  ghost predicate StoredSince(steps: seq<Statement>, k: nat, m: nat, id: Id, reference: Reference)
    requires m <= |steps|
  {
    k < m && steps[k] == Replace(id, reference) && forall i | k < i < m :: !Replaces(steps[i], id)
  }

  lemma ReferenceStep(x: Table, s: Statement, id: Id)
    requires Enabled(x, s)
    ensures Replaces(s, id) ==> id in Execute(x, s).rows && Execute(x, s).rows[id].reference == s.reference
    ensures !Replaces(s, id) ==>
      && (id in Execute(x, s).rows <==> id in x.rows)
      && (id in x.rows ==> Execute(x, s).rows[id].reference == x.rows[id].reference)
  {
  }

  lemma {:induction false} ReferenceStays(states: seq<Table>, steps: seq<Statement>, found: Rows, j: nat, m: nat, id: Id)
    requires Runs(states, steps, found) && j <= m < |states| && id in states[j].rows
    requires forall i | j <= i < m :: !Replaces(steps[i], id)
    ensures id in states[m].rows && states[m].rows[id].reference == states[j].rows[id].reference
  {
    if j < m {
      ReferenceStays(states, steps, found, j, m - 1, id);
      AtStep(states, steps, found, m - 1);
      ReferenceStep(states[m - 1], steps[m - 1], id);
    }
  }

  /** A row's reference only changes by being persisted. */
  lemma {:induction false} ReferenceHasCause(states: seq<Table>, steps: seq<Statement>, found: Rows, j: nat, m: nat, id: Id) returns (k: nat)
    requires Runs(states, steps, found) && j <= m < |states| && id in states[j].rows && id in states[m].rows
    requires states[j].rows[id].reference != states[m].rows[id].reference
    ensures j <= k && StoredSince(steps, k, m, id, states[m].rows[id].reference)
  {
    hide Execute;
    AtStep(states, steps, found, m - 1);
    ReferenceStep(states[m - 1], steps[m - 1], id);
    if Replaces(steps[m - 1], id) {
      k := m - 1;
    } else {
      k := ReferenceHasCause(states, steps, found, j, m - 1, id);
    }
  }

  /** At m a completion commits that selected the row at j; at k, in between, the row was persisted with another reference, which it still has. */
  ghost predicate Overtakes(states: seq<Table>, steps: seq<Statement>, j: nat, k: nat, m: nat, id: Id)
    requires m < |steps| < |states|
  {
    && steps[m].UpdateCompletion? && CompletionDue(states, steps, j, m, id)
    && j < k && k < m && steps[k].Replace? && steps[k].reference != states[j].rows[id].reference
    && StoredSince(steps, k, m, id, steps[k].reference)
  }

  ghost predicate OvertakenAt(states: seq<Table>, steps: seq<Statement>, m: nat, id: Id)
    requires m < |steps| < |states|
  {
    exists j: nat, k: nat :: Overtakes(states, steps, j, k, m, id)
  }

  ghost predicate UnrepairedOvertaking(states: seq<Table>, steps: seq<Statement>, m: nat, n: nat, id: Id)
    requires n <= |steps| < |states|
  {
    m < n && OvertakenAt(states, steps, m, id) && forall i | m < i < n :: !Repairs(states[i], steps[i], id)
  }

  lemma MisreadStep(x: Table, s: Statement, id: Id)
    requires Enabled(x, s)
    ensures Misread(Execute(x, s), id) <==>
      || (Misread(x, id) && !Repairs(x, s, id))
      || (Commits(x, s, id) && x.completion.value.reference != x.rows[id].reference)
  {
  }

  lemma OvertakenExactly(states: seq<Table>, steps: seq<Statement>, found: Rows, m: nat, id: Id)
    requires Runs(states, steps, found) && m < |steps|
    ensures OvertakenAt(states, steps, m, id) <==>
      Commits(states[m], steps[m], id) && states[m].completion.value.reference != states[m].rows[id].reference
  {
    hide Execute;
    AtStep(states, steps, found, m);
    if j: nat, k: nat :| Overtakes(states, steps, j, k, m, id) {
      AtStep(states, steps, found, k);
      ReferenceStep(states[k], steps[k], id);
      ReferenceStays(states, steps, found, k + 1, m, id);
    }
    if Commits(states[m], steps[m], id) && states[m].completion.value.reference != states[m].rows[id].reference {
      var j := CompletionHasSelected(states, steps, found, m);
      var k := ReferenceHasCause(states, steps, found, j, m, id);
      assert k != j;
      assert Overtakes(states, steps, j, k, m, id);
    }
  }

  /** A row stands archived although its own reference was not the one read if and only if it was persisted with another one
      between the two statements of a completion, and has been neither completed nor persisted since. */
  lemma {:induction false} MisreadExactly(states: seq<Table>, steps: seq<Statement>, found: Rows, n: nat, id: Id)
    requires Runs(states, steps, found) && n < |states|
    ensures Misread(states[n], id) <==> exists m: nat :: UnrepairedOvertaking(states, steps, m, n, id)
  {
    hide Execute, OvertakenAt, Repairs;
    if n > 0 {
      var k := n - 1;
      MisreadExactly(states, steps, found, k, id);
      AtStep(states, steps, found, k);
      MisreadStep(states[k], steps[k], id);
      OvertakenExactly(states, steps, found, k, id);
      if OvertakenAt(states, steps, k, id) {
        assert UnrepairedOvertaking(states, steps, k, n, id);
      }
      if Misread(states[k], id) && !Repairs(states[k], steps[k], id) {
        var m: nat :| UnrepairedOvertaking(states, steps, m, k, id);
        assert UnrepairedOvertaking(states, steps, m, n, id);
      }
      if m: nat :| UnrepairedOvertaking(states, steps, m, n, id) {
        if m < k {
          assert UnrepairedOvertaking(states, steps, m, k, id);
        }
      }
    }
  }

  /** Every flagged row has had a reference read for it, unless it was flagged at the start and is as it was. */
  lemma {:induction false} FlaggedHasRead(states: seq<Table>, steps: seq<Statement>, found: Rows, n: nat, id: Id)
    requires Runs(states, steps, found) && n < |states| && IsFlagged(states[n], id)
    ensures id in states[n].read || (IsFlagged(states[0], id) && forall i | 0 <= i < n :: !Replaces(steps[i], id))
  {
    if n > 0 {
      AtStep(states, steps, found, n - 1);
      FlagStep(states[n - 1], steps[n - 1], id);
      if !Commits(states[n - 1], steps[n - 1], id) {
        FlaggedHasRead(states, steps, found, n - 1, id);
      }
    }
  }

  // ---- That it happens ----

  lemma RunsOn(states: seq<Table>, steps: seq<Statement>, found: Rows, s: Statement) returns (further: seq<Table>)
    requires Runs(states, steps, found) && Enabled(states[|steps|], s)
    ensures Runs(further, steps + [s], found)
    ensures |further| == |steps| + 2 && further[|steps| + 1] == Execute(states[|steps|], s)
  {
    hide Execute, Enabled;
    further := states + [Execute(states[|steps|], s)];
    forall i | 0 <= i <= |steps| ensures Moves(further[i], (steps + [s])[i], further[i + 1]) {
      assert i < |steps| ==> Moves(states[i], steps[i], states[i + 1]);
    }
  }

  /** One call has begun, and the worker has selected the row. */
  lemma CompletionStarts(found: Rows, id: Id) returns (states: seq<Table>)
    requires CanBeArchived(found, id)
    ensures Runs(states, [SelectBegin(0, id), UpdateBegin(0), SelectCompletion(id)], found)
    ensures var x := states[3];
      && x.begins == map[] && id in x.rows && x.rows[id].state == Archiving && !x.rows[id].archived && !x.rows[id].pinned
      && x.completion == Some(Selected(id, found[id].reference))
  {
    states := RunsOn([Table(Start(found).rows, map[], None, map[])], [], found, SelectBegin(0, id));
    assert states[1].begins == map[0 := id] && states[1].completion.None?;
    states := RunsOn(states, [SelectBegin(0, id)], found, UpdateBegin(0));
    assert states[2].begins == map[] && states[2].completion.None? && states[2].rows[id].state == Archiving;
    states := RunsOn(states, [SelectBegin(0, id)] + [UpdateBegin(0)], found, SelectCompletion(id));
    assert [SelectBegin(0, id)] + [UpdateBegin(0)] + [SelectCompletion(id)] == [SelectBegin(0, id), UpdateBegin(0), SelectCompletion(id)];
  }

  /** A second call whose statements a completion separates leaves flag and state in disagreement. */
  lemma SplitBeginDisagrees(found: Rows, id: Id) returns (states: seq<Table>)
    requires CanBeArchived(found, id)
    ensures Runs(states, [SelectBegin(0, id), UpdateBegin(0), SelectCompletion(id), SelectBegin(1, id), UpdateCompletion, UpdateBegin(1)], found)
    ensures Disagrees(states[6], id)
  {
    var steps := [SelectBegin(0, id), UpdateBegin(0), SelectCompletion(id)];
    states := CompletionStarts(found, id);
    states := RunsOn(states, steps, found, SelectBegin(1, id));
    states := RunsOn(states, steps + [SelectBegin(1, id)], found, UpdateCompletion);
    states := RunsOn(states, steps + [SelectBegin(1, id)] + [UpdateCompletion], found, UpdateBegin(1));
    assert steps + [SelectBegin(1, id)] + [UpdateCompletion] + [UpdateBegin(1)]
        == [SelectBegin(0, id), UpdateBegin(0), SelectCompletion(id), SelectBegin(1, id), UpdateCompletion, UpdateBegin(1)];
  }

  /** A row persisted between the statements of its completion is archived although its new reference was never read. */
  lemma SplitCompletionMisreads(found: Rows, id: Id, reference: Reference) returns (states: seq<Table>)
    requires CanBeArchived(found, id) && reference != found[id].reference
    ensures Runs(states, [SelectBegin(0, id), UpdateBegin(0), SelectCompletion(id), Replace(id, reference), UpdateCompletion], found)
    ensures IsFlagged(states[5], id) && Misread(states[5], id)
  {
    var steps := [SelectBegin(0, id), UpdateBegin(0), SelectCompletion(id)];
    states := CompletionStarts(found, id);
    states := RunsOn(states, steps, found, Replace(id, reference));
    states := RunsOn(states, steps + [Replace(id, reference)], found, UpdateCompletion);
    assert steps + [Replace(id, reference)] + [UpdateCompletion]
        == [SelectBegin(0, id), UpdateBegin(0), SelectCompletion(id), Replace(id, reference), UpdateCompletion];
  }
}
