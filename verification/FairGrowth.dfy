// Round-robin growth under a budget, as arithmetic: group i has shown counts[i] of its
// items, showing one more costs costs[i][counts[i]], and the total may not pass the budget.
module FairGrowth {

  type Costs = seq<seq<nat>>

  datatype Growth = Growth(counts: seq<nat>, total: int)

  ghost predicate ValidCounts(costs: Costs, counts: seq<nat>) {
    |counts| <= |costs| && forall i | 0 <= i < |counts| :: 1 <= counts[i] <= |costs[i]|
  }

  /** Group i has no hidden item, or its next one would not fit. */
  ghost predicate Stopped(costs: Costs, budget: int, g: Growth, i: nat) {
    i < |g.counts| && i < |costs| && (g.counts[i] >= |costs[i]| || g.total + costs[i][g.counts[i]] > budget)
  }

  /** A group that could still grow is never more than one item behind any other. */
  ghost predicate Fair(costs: Costs, budget: int, g: Growth) {
    forall i, j | 0 <= i < |g.counts| && 0 <= j < |g.counts| && !Stopped(costs, budget, g, i) ::
      g.counts[j] <= g.counts[i] + 1
  }

  /** Of the groups that can still grow, i is the first of those showing the fewest items. */
  ghost predicate NextInLine(costs: Costs, budget: int, g: Growth, i: nat) {
    i < |g.counts| && forall j: nat | j < |g.counts| && !Stopped(costs, budget, g, j) ::
      g.counts[i] < g.counts[j] || (g.counts[i] == g.counts[j] && i <= j)
  }

  /** The group whose turn it is shows one more item, which fits. */
  ghost predicate GrowsAt(costs: Costs, budget: int, a: Growth, b: Growth, i: nat) {
    && i < |a.counts| && i < |costs| && a.counts[i] < |costs[i]|
    && !Stopped(costs, budget, a, i) && NextInLine(costs, budget, a, i)
    && b == Growth(a.counts[i := a.counts[i] + 1], a.total + costs[i][a.counts[i]])
  }

  ghost predicate GrowsByOne(costs: Costs, budget: int, a: Growth, b: Growth) {
    exists i: nat :: GrowsAt(costs, budget, a, b, i)
  }

  /** A run that grows one group at a time and is fair in every state. */
  ghost predicate FairHistory(costs: Costs, budget: int, history: seq<Growth>) {
    && (forall n | 0 <= n < |history| :: ValidCounts(costs, history[n].counts) && Fair(costs, budget, history[n]))
    && (forall n | 0 <= n < |history| - 1 :: GrowsByOne(costs, budget, history[n], history[n + 1]))
  }

  lemma HistoryStep(costs: Costs, budget: int, history: seq<Growth>, n: nat) returns (i: nat)
    requires FairHistory(costs, budget, history) && n + 1 < |history|
    ensures GrowsAt(costs, budget, history[n], history[n + 1], i)
  {
    assert GrowsByOne(costs, budget, history[n], history[n + 1]);
    i :| GrowsAt(costs, budget, history[n], history[n + 1], i);
  }

  lemma HistoryGrows(costs: Costs, budget: int, history: seq<Growth>, next: Growth)
    requires FairHistory(costs, budget, history) && history != []
    requires GrowsByOne(costs, budget, history[|history| - 1], next)
    requires ValidCounts(costs, next.counts) && Fair(costs, budget, next)
    ensures FairHistory(costs, budget, history + [next])
  {
    var h := history + [next];
    forall n | 0 <= n < |h| - 1 ensures GrowsByOne(costs, budget, h[n], h[n + 1]) {
      if n < |history| - 1 {
        assert GrowsByOne(costs, budget, history[n], history[n + 1]);
      }
    }
  }

  /** What has stopped stays stopped, and stays as it was, through the rest of the run. */
  lemma {:induction false} StoppedStays(costs: Costs, budget: int, history: seq<Growth>, m: nat, n: nat, i: nat)
    requires FairHistory(costs, budget, history) && m <= n < |history|
    requires Stopped(costs, budget, history[m], i)
    ensures Stopped(costs, budget, history[n], i) && history[n].counts[i] == history[m].counts[i]
  {
    if m < n {
      StoppedStays(costs, budget, history, m, n - 1, i);
      assert GrowsByOne(costs, budget, history[n - 1], history[n - 1 + 1]);
    }
  }

  /** Two groups end further apart than one item only if the smaller one had stopped before the larger got ahead. */
  lemma LeftBehindMeansStopped(costs: Costs, budget: int, history: seq<Growth>, n: nat, i: nat, j: nat)
    requires FairHistory(costs, budget, history) && n < |history|
    requires i < |history[n].counts| && j < |history[n].counts|
    requires history[n].counts[j] > history[n].counts[i] + 1
    ensures Stopped(costs, budget, history[n], i)
  {
    assert Fair(costs, budget, history[n]);
  }

  /** Inside a sweep: groups before `at` were visited; every group that can grow stood at `level` when it began. */
  ghost predicate Sweeping(costs: Costs, budget: int, g: Growth, at: nat, level: nat) {
    && (forall j | 0 <= j < |g.counts| :: g.counts[j] <= level + if j < at then 1 else 0)
    && (forall j | 0 <= j < |g.counts| && !Stopped(costs, budget, g, j) ::
          g.counts[j] == level + if j < at then 1 else 0)
  }

  lemma SweepingIsFair(costs: Costs, budget: int, g: Growth, at: nat, level: nat)
    requires Sweeping(costs, budget, g, at, level)
    ensures Fair(costs, budget, g)
  {
  }

  lemma SweepGrows(costs: Costs, budget: int, a: Growth, b: Growth, at: nat, level: nat)
    requires ValidCounts(costs, a.counts) && Sweeping(costs, budget, a, at, level)
    requires GrowsAt(costs, budget, a, b, at)
    ensures ValidCounts(costs, b.counts) && Sweeping(costs, budget, b, at + 1, level) && Fair(costs, budget, b)
  {
    forall j | 0 <= j < |b.counts| && !Stopped(costs, budget, b, j)
      ensures b.counts[j] == level + if j < at + 1 then 1 else 0
    {
      assert j != at ==> !Stopped(costs, budget, a, j);
    }
  }

  lemma SweepTurn(costs: Costs, budget: int, g: Growth, at: nat, level: nat)
    requires at < |g.counts| && Sweeping(costs, budget, g, at, level) && !Stopped(costs, budget, g, at)
    ensures NextInLine(costs, budget, g, at)
  {
  }

  lemma SweepSkips(costs: Costs, budget: int, g: Growth, at: nat, level: nat)
    requires Sweeping(costs, budget, g, at, level) && Stopped(costs, budget, g, at)
    ensures Sweeping(costs, budget, g, at + 1, level)
  {
  }

  /** A finished sweep is the start of the next one. */
  lemma SweepEnds(costs: Costs, budget: int, g: Growth, level: nat)
    requires Sweeping(costs, budget, g, |g.counts|, level)
    ensures Sweeping(costs, budget, g, 0, level + 1)
  {
  }

  ghost function Hidden(costs: Costs, counts: seq<nat>): nat
    requires ValidCounts(costs, counts)
  {
    if counts == [] then 0
    else
      var n := |counts| - 1;
      Hidden(costs, counts[..n]) + (|costs[n]| - counts[n])
  }

  /** Each growth uses up one hidden item, which is why the sweeps end. */
  lemma {:induction false} HiddenShrinks(costs: Costs, counts: seq<nat>, i: nat)
    requires ValidCounts(costs, counts) && i < |counts| && counts[i] < |costs[i]|
    ensures ValidCounts(costs, counts[i := counts[i] + 1])
    ensures Hidden(costs, counts[i := counts[i] + 1]) == Hidden(costs, counts) - 1
  {
    var n := |counts| - 1;
    var more := counts[i := counts[i] + 1];
    if i == n {
      assert more[..n] == counts[..n];
    } else {
      HiddenShrinks(costs, counts[..n], i);
      assert more[..n] == counts[..n][i := counts[i] + 1];
    }
  }

  ghost predicate Ended(costs: Costs, budget: int, g: Growth) {
    forall i: nat | i < |g.counts| :: Stopped(costs, budget, g, i)
  }

  /** The run is determined: two runs from the same start that both end with everything stopped are the same run. */
  lemma HistoryIsUnique(costs: Costs, budget: int, h: seq<Growth>, k: seq<Growth>)
    requires FairHistory(costs, budget, h) && FairHistory(costs, budget, k) && h != [] && k != [] && h[0] == k[0]
    requires Ended(costs, budget, h[|h| - 1]) && Ended(costs, budget, k[|k| - 1])
    ensures h == k
  {
    hide FairHistory, Ended;
    var n: nat := (if |h| <= |k| then |h| else |k|) - 1;
    forall i: nat | i <= n ensures h[i] == k[i] {
      RunsAgree(costs, budget, h, k, i);
    }
    EndedIsLast(costs, budget, h, n);
    EndedIsLast(costs, budget, k, n);
  }

  lemma {:induction false} RunsAgree(costs: Costs, budget: int, h: seq<Growth>, k: seq<Growth>, n: nat)
    requires FairHistory(costs, budget, h) && FairHistory(costs, budget, k) && h != [] && k != [] && h[0] == k[0]
    requires n < |h| && n < |k|
    ensures h[n] == k[n]
  {
    hide FairHistory;
    if n > 0 {
      RunsAgree(costs, budget, h, k, n - 1);
      var i := HistoryStep(costs, budget, h, n - 1);
      var j := HistoryStep(costs, budget, k, n - 1);
      assert i == j;
    }
  }

  lemma EndedIsLast(costs: Costs, budget: int, h: seq<Growth>, n: nat)
    requires FairHistory(costs, budget, h) && n < |h|
    ensures Ended(costs, budget, h[n]) ==> n == |h| - 1
  {
    hide FairHistory;
    if n < |h| - 1 {
      var i := HistoryStep(costs, budget, h, n);
    }
  }
}
