// The order of one event's subscribers: rounds of every subscriber whose
// dependencies are settled, ties kept in registration order.
module SubscriberOrder {
  import opened Wrappers

  /** For each name, the names that must run before it. */
  type Dependencies = map<string, set<string>>

  function Elements(s: seq<string>): set<string> {
    set x | x in s
  }

  /** The members of `s`, in order, whose dependencies inside `within` are all settled (or, if !free, are not). */
  function Pick(deps: Dependencies, s: seq<string>, within: set<string>, free: bool): (r: seq<string>)
    requires forall x | x in s :: x in deps
    ensures |r| <= |s|
    ensures forall x :: x in r <==> x in s && (deps[x] * within == {}) == free
  {
    if s == [] then []
    else
      var tail := Pick(deps, s[1..], within, free);
      if (deps[s[0]] * within == {}) == free then [s[0]] + tail else tail
  }

  /** Round after round of settled names; None when a round finds nobody ready. */
  function Peel(deps: Dependencies, rest: seq<string>): Option<seq<string>>
    requires forall x | x in rest :: x in deps
    decreases |rest|
  {
    if rest == [] then Some([])
    else
      var ready := Pick(deps, rest, Elements(rest), true);
      if ready == [] then None
      else
        PickSplits(deps, rest, Elements(rest));
        var later := Peel(deps, Pick(deps, rest, Elements(rest), false));
        if later.None? then None else Some(ready + later.value)
  }

  lemma {:induction false} PickSplits(deps: Dependencies, s: seq<string>, within: set<string>)
    requires forall x | x in s :: x in deps
    ensures multiset(Pick(deps, s, within, true)) + multiset(Pick(deps, s, within, false)) == multiset(s)
    ensures |Pick(deps, s, within, true)| + |Pick(deps, s, within, false)| == |s|
  {
    if s != [] {
      PickSplits(deps, s[1..], within);
      MultisetHead(s[0], s[1..]);
      MultisetHead(s[0], Pick(deps, s[1..], within, false));
      MultisetHead(s[0], Pick(deps, s[1..], within, true));
      assert s == [s[0]] + s[1..];
    }
  }

  lemma MultisetHead(x: string, s: seq<string>)
    ensures multiset([x] + s) == multiset{x} + multiset(s)
  {
  }

  // ---- Chains and cycles ----

  /** Each name depends on the next. */
  ghost predicate Chain(deps: Dependencies, c: seq<string>) {
    c != [] && (forall x | x in c :: x in deps) && forall i | 0 <= i < |c| - 1 :: c[i + 1] in deps[c[i]]
  }

  /** A chain whose last name depends on its first. */
  ghost predicate Cycle(deps: Dependencies, c: seq<string>) {
    Chain(deps, c) && c[0] in deps[c[|c| - 1]]
  }

  ghost predicate Cyclic(deps: Dependencies) {
    exists c :: Cycle(deps, c)
  }

  ghost predicate HasChain(deps: Dependencies, x: string, n: nat) {
    exists c :: Chain(deps, c) && c[0] == x && |c| == n
  }

  /** The longest dependency chain starting at `x` has d + 1 names. */
  ghost predicate LongestChain(deps: Dependencies, x: string, d: nat) {
    HasChain(deps, x, d + 1)
    && forall c | Chain(deps, c) && c[0] == x :: |c| <= d + 1
  }

  ghost predicate Closed(deps: Dependencies) {
    forall x | x in deps :: deps[x] <= deps.Keys
  }

  /** A cycle never becomes ready: no round removes any of its names. */
  lemma {:induction false} CycleBlocksPeel(deps: Dependencies, rest: seq<string>, c: seq<string>)
    requires forall x | x in rest :: x in deps
    requires Cycle(deps, c) && Elements(c) <= Elements(rest)
    ensures Peel(deps, rest) == None
    decreases |rest|
  {
    var within := Elements(rest);
    assert c[0] in Elements(c);
    PickSplits(deps, rest, within);
    var later := Pick(deps, rest, within, false);
    forall x | x in Elements(c) ensures x in later {
      var i :| 0 <= i < |c| && c[i] == x;
      var next := if i < |c| - 1 then c[i + 1] else c[0];
      assert next in Elements(c);
      assert next in deps[x] * within;
    }
    if |later| < |rest| {
      CycleBlocksPeel(deps, later, c);
    }
  }

  /** A round with nobody ready: following unsettled dependencies must come back round. */
  lemma {:induction false} StuckHasCycle(deps: Dependencies, rest: seq<string>, walk: seq<string>)
    requires rest != [] && forall x | x in rest :: x in deps
    requires Pick(deps, rest, Elements(rest), true) == []
    requires Chain(deps, walk) && Elements(walk) <= Elements(rest)
    ensures Cyclic(deps)
    decreases |rest| + 1 - |walk|
  {
    if i, j :| 0 <= i < j < |walk| && walk[i] == walk[j] {
      RepeatClosesCycle(deps, walk, i, j);
    } else {
      DistinctFits(walk, Elements(rest));
      SetOfSequence(rest);
      var last := walk[|walk| - 1];
      assert last in Elements(walk);
      assert last !in Pick(deps, rest, Elements(rest), true);
      var next :| next in deps[last] * Elements(rest);
      StuckHasCycle(deps, rest, walk + [next]);
    }
  }

  lemma RepeatClosesCycle(deps: Dependencies, walk: seq<string>, i: nat, j: nat)
    requires Chain(deps, walk) && i < j < |walk| && walk[i] == walk[j]
    ensures Cyclic(deps)
  {
    var c := walk[i..j];
    forall k | 0 <= k < |c| - 1 ensures c[k + 1] in deps[c[k]] {
      assert c[k] == walk[i + k] && c[k + 1] == walk[i + k + 1];
    }
    assert walk[j - 1 + 1] in deps[walk[j - 1]];
    assert Cycle(deps, c);
  }

  lemma {:induction false} DistinctFits(s: seq<string>, within: set<string>)
    requires Elements(s) <= within && forall i, j | 0 <= i < j < |s| :: s[i] != s[j]
    ensures |s| <= |within|
  {
    if s != [] {
      assert s[0] in Elements(s);
      forall x | x in Elements(s[1..]) ensures x in within - {s[0]} {
        assert x in Elements(s);
      }
      DistinctFits(s[1..], within - {s[0]});
    }
  }

  lemma {:induction false} SetOfSequence(s: seq<string>)
    ensures |Elements(s)| <= |s|
  {
    if s != [] {
      SetOfSequence(s[1..]);
      assert Elements(s) == {s[0]} + Elements(s[1..]);
    }
  }

  lemma {:induction false} PeelFailsOnlyOnCycles(deps: Dependencies, rest: seq<string>)
    requires forall x | x in rest :: x in deps
    requires Peel(deps, rest) == None
    ensures Cyclic(deps)
    decreases |rest|
  {
    var ready := Pick(deps, rest, Elements(rest), true);
    if ready == [] {
      assert Chain(deps, [rest[0]]);
      StuckHasCycle(deps, rest, [rest[0]]);
    } else {
      PickSplits(deps, rest, Elements(rest));
      PeelFailsOnlyOnCycles(deps, Pick(deps, rest, Elements(rest), false));
    }
  }

  /** Ordering fails exactly when the before/after relation has a cycle. */
  lemma OrderFailsIffCyclic(deps: Dependencies, registration: seq<string>)
    requires Elements(registration) == deps.Keys && Closed(deps)
    ensures Peel(deps, registration) == None <==> Cyclic(deps)
  {
    if c :| Cycle(deps, c) {
      CycleBlocksPeel(deps, registration, c);
    }
    if Peel(deps, registration) == None {
      PeelFailsOnlyOnCycles(deps, registration);
    }
  }

  // ---- What a successful order is ----

  lemma {:induction false} PeelPermutes(deps: Dependencies, rest: seq<string>)
    requires forall x | x in rest :: x in deps
    requires Peel(deps, rest).Some?
    ensures multiset(Peel(deps, rest).value) == multiset(rest)
    decreases |rest|
  {
    if rest != [] {
      PickSplits(deps, rest, Elements(rest));
      PeelPermutes(deps, Pick(deps, rest, Elements(rest), false));
    }
  }

  /** Where a name was registered. */
  ghost function Position(registration: seq<string>, x: string): (i: nat)
    requires x in registration
    ensures i < |registration| && registration[i] == x
  {
    var i: nat :| i < |registration| && registration[i] == x; i
  }

  ghost predicate InOrder(registration: seq<string>, s: seq<string>) {
    (forall x | x in s :: x in registration)
    && forall i, j | 0 <= i < j < |s| :: Position(registration, s[i]) < Position(registration, s[j])
  }

  lemma {:induction false} PickKeepsOrder(deps: Dependencies, registration: seq<string>, s: seq<string>, within: set<string>, free: bool)
    requires InOrder(registration, s) && forall x | x in s :: x in deps
    ensures InOrder(registration, Pick(deps, s, within, free))
  {
    if s != [] {
      var tail := Pick(deps, s[1..], within, free);
      PickKeepsOrder(deps, registration, s[1..], within, free);
      forall j | 0 <= j < |tail| ensures Position(registration, s[0]) < Position(registration, tail[j]) {
        assert tail[j] in s[1..];
        var k :| 0 <= k < |s[1..]| && s[1..][k] == tail[j];
        assert s[k + 1] == tail[j];
      }
    }
  }

  lemma {:induction false} RegistrationInOrder(registration: seq<string>)
    requires forall i, j | 0 <= i < j < |registration| :: registration[i] != registration[j]
    ensures InOrder(registration, registration)
    ensures forall i | 0 <= i < |registration| :: Position(registration, registration[i]) == i
  {
  }

  /** The sort key: longest dependency chain first, then registration index. */
  ghost predicate KeyLess(deps: Dependencies, registration: seq<string>, x: string, y: string) {
    x in registration && y in registration
    && exists d: nat, e: nat :: LongestChain(deps, x, d) && LongestChain(deps, y, e)
         && (d < e || (d == e && Position(registration, x) < Position(registration, y)))
  }

  ghost predicate SortedByKey(deps: Dependencies, registration: seq<string>, order: seq<string>) {
    forall i, j | 0 <= i < j < |order| :: KeyLess(deps, registration, order[i], order[j])
  }

  /** The invariant of round k: what is left has chains of k + 1 names, what is gone has none longer than k. */
  ghost predicate AtLevel(deps: Dependencies, rest: seq<string>, k: nat) {
    (forall x | x in rest :: x in deps && HasChain(deps, x, k + 1))
    && forall c | Chain(deps, c) && c[0] !in rest :: |c| <= k
  }

  /** A chain from a name with nothing unsettled inside `rest` goes on outside it. */
  lemma ChainLeaves(deps: Dependencies, rest: seq<string>, k: nat, c: seq<string>)
    requires AtLevel(deps, rest, k) && Chain(deps, c)
    requires c[0] in rest ==> deps[c[0]] * Elements(rest) == {}
    ensures |c| <= k + 1
  {
    if |c| > 1 && c[0] in rest {
      var tail := c[1..];
      assert c[0 + 1] in deps[c[0]];
      forall i | 0 <= i < |tail| - 1 ensures tail[i + 1] in deps[tail[i]] {
        assert c[i + 1 + 1] in deps[c[i + 1]];
      }
      assert Chain(deps, tail);
      assert c[1] !in deps[c[0]] * Elements(rest);
    }
  }

  lemma ReadyAtLevel(deps: Dependencies, rest: seq<string>, k: nat)
    requires AtLevel(deps, rest, k)
    ensures forall x | x in Pick(deps, rest, Elements(rest), true) :: LongestChain(deps, x, k)
  {
    forall x | x in Pick(deps, rest, Elements(rest), true) ensures LongestChain(deps, x, k) {
      forall c | Chain(deps, c) && c[0] == x ensures |c| <= k + 1 {
        ChainLeaves(deps, rest, k, c);
      }
    }
  }

  lemma LaterAtLevel(deps: Dependencies, rest: seq<string>, k: nat)
    requires AtLevel(deps, rest, k)
    ensures AtLevel(deps, Pick(deps, rest, Elements(rest), false), k + 1)
  {
    var later := Pick(deps, rest, Elements(rest), false);
    forall c | Chain(deps, c) && c[0] !in later ensures |c| <= k + 1 {
      ChainLeaves(deps, rest, k, c);
    }
    forall x | x in later ensures HasChain(deps, x, k + 2) {
      var y :| y in deps[x] * Elements(rest);
      var c :| Chain(deps, c) && c[0] == y && |c| == k + 1;
      ChainPrepend(deps, x, c);
      assert ([x] + c)[0] == x;
    }
  }

  lemma ChainPrepend(deps: Dependencies, x: string, c: seq<string>)
    requires Chain(deps, c) && x in deps && c[0] in deps[x]
    ensures Chain(deps, [x] + c)
  {
    var d := [x] + c;
    forall i | 0 <= i < |d| - 1 ensures d[i + 1] in deps[d[i]] {
      if i > 0 { assert c[i - 1 + 1] in deps[c[i - 1]]; }
    }
  }

  lemma {:induction false} PeelSorts(deps: Dependencies, registration: seq<string>, rest: seq<string>, k: nat)
    requires AtLevel(deps, rest, k) && InOrder(registration, rest)
    requires Peel(deps, rest).Some?
    ensures SortedByKey(deps, registration, Peel(deps, rest).value)
    ensures forall x | x in Peel(deps, rest).value :: x in registration && DeeperThan(deps, x, k)
    decreases |rest|
  {
    if rest != [] {
      var ready, later := Pick(deps, rest, Elements(rest), true), Pick(deps, rest, Elements(rest), false);
      PeelRound(deps, rest);
      ReadyAtLevel(deps, rest, k);
      LaterAtLevel(deps, rest, k);
      PickKeepsOrder(deps, registration, rest, Elements(rest), true);
      PickKeepsOrder(deps, registration, rest, Elements(rest), false);
      PeelSorts(deps, registration, later, k + 1);
      JoinSorted(deps, registration, ready, k, Peel(deps, later).value);
    }
  }

  /** The longest chain from `x` is longer than `k` names. */
  ghost predicate DeeperThan(deps: Dependencies, x: string, k: nat) {
    exists d: nat :: LongestChain(deps, x, d) && d >= k
  }

  lemma ReadySorted(deps: Dependencies, registration: seq<string>, ready: seq<string>, k: nat)
    requires InOrder(registration, ready) && forall x | x in ready :: LongestChain(deps, x, k)
    ensures SortedByKey(deps, registration, ready)
    ensures forall x | x in ready :: x in registration && DeeperThan(deps, x, k)
  {
    forall i, j | 0 <= i < j < |ready| ensures KeyLess(deps, registration, ready[i], ready[j]) {
      assert ready[i] in ready && ready[j] in ready;
      assert LongestChain(deps, ready[i], k) && LongestChain(deps, ready[j], k);
    }
  }

  lemma DeeperIsLater(deps: Dependencies, registration: seq<string>, x: string, k: nat, y: string)
    requires x in registration && LongestChain(deps, x, k)
    requires y in registration && DeeperThan(deps, y, k + 1)
    ensures KeyLess(deps, registration, x, y) && DeeperThan(deps, y, k)
  {
  }

  lemma SortedConcatenation(deps: Dependencies, registration: seq<string>, a: seq<string>, b: seq<string>)
    requires SortedByKey(deps, registration, a) && SortedByKey(deps, registration, b)
    requires forall x, y | x in a && y in b :: KeyLess(deps, registration, x, y)
    ensures SortedByKey(deps, registration, a + b)
  {
  }

  lemma JoinSorted(deps: Dependencies, registration: seq<string>, ready: seq<string>, k: nat, tail: seq<string>)
    requires InOrder(registration, ready) && forall x | x in ready :: LongestChain(deps, x, k)
    requires SortedByKey(deps, registration, tail)
    requires forall x | x in tail :: x in registration && DeeperThan(deps, x, k + 1)
    ensures SortedByKey(deps, registration, ready + tail)
    ensures forall x | x in ready + tail :: x in registration && DeeperThan(deps, x, k)
  {
    ReadySorted(deps, registration, ready, k);
    forall x, y | x in ready && y in tail ensures KeyLess(deps, registration, x, y) && DeeperThan(deps, y, k) {
      DeeperIsLater(deps, registration, x, k, y);
    }
    forall y | y in tail ensures DeeperThan(deps, y, k) {
      var d: nat :| LongestChain(deps, y, d) && d >= k + 1;
    }
    SortedConcatenation(deps, registration, ready, tail);
  }

  lemma PeelRound(deps: Dependencies, rest: seq<string>)
    requires rest != [] && forall x | x in rest :: x in deps
    requires Peel(deps, rest).Some?
    ensures var later := Pick(deps, rest, Elements(rest), false);
      && |later| < |rest|
      && Peel(deps, later).Some?
      && Peel(deps, rest).value == Pick(deps, rest, Elements(rest), true) + Peel(deps, later).value
  {
    PickSplits(deps, rest, Elements(rest));
  }

  lemma InitialLevel(deps: Dependencies, registration: seq<string>)
    requires Elements(registration) == deps.Keys
    ensures AtLevel(deps, registration, 0)
  {
    forall x | x in registration ensures x in deps && HasChain(deps, x, 1) {
      assert x in Elements(registration);
      assert Chain(deps, [x]);
    }
    forall c | Chain(deps, c) ensures c[0] in registration {
      assert c[0] in Elements(registration);
    }
  }

  /** A successful order is the sort of the subscribers by (longest dependency chain, registration index). */
  lemma OrderIsSorted(deps: Dependencies, registration: seq<string>)
    requires Elements(registration) == deps.Keys
    requires forall i, j | 0 <= i < j < |registration| :: registration[i] != registration[j]
    requires Peel(deps, registration).Some?
    ensures multiset(Peel(deps, registration).value) == multiset(registration)
    ensures SortedByKey(deps, registration, Peel(deps, registration).value)
  {
    InitialLevel(deps, registration);
    RegistrationInOrder(registration);
    PeelPermutes(deps, registration);
    PeelSorts(deps, registration, registration, 0);
  }

  /** Such a sort satisfies every constraint: nobody runs before something it depends on. */
  lemma SortedRespectsDependencies(deps: Dependencies, registration: seq<string>, order: seq<string>, i: nat, j: nat)
    requires SortedByKey(deps, registration, order)
    requires i < j < |order| && order[i] in deps
    ensures order[j] !in deps[order[i]]
  {
    assert KeyLess(deps, registration, order[i], order[j]);
    var d: nat, e: nat :| LongestChain(deps, order[i], d) && LongestChain(deps, order[j], e) && d <= e;
    if order[j] in deps[order[i]] {
      var c :| Chain(deps, c) && c[0] == order[j] && |c| == e + 1;
      ChainPrepend(deps, order[i], c);
    }
  }

  /** There is only one such sort, so neither the rounds nor any set's iteration order shows in it. */
  lemma {:induction false} SortIsUnique(deps: Dependencies, registration: seq<string>, a: seq<string>, b: seq<string>)
    requires SortedByKey(deps, registration, a) && SortedByKey(deps, registration, b)
    requires multiset(a) == multiset(b)
    ensures a == b
  {
    if a == [] {
      assert |multiset(b)| == 0;
    } else {
      assert b != [] by { assert a[0] in multiset(b); }
      SameHead(deps, registration, a, b);
      SameTail(a, b);
      SortIsUnique(deps, registration, a[1..], b[1..]);
    }
  }

  lemma SameTail(a: seq<string>, b: seq<string>)
    requires a != [] && b != [] && a[0] == b[0] && multiset(a) == multiset(b)
    ensures multiset(a[1..]) == multiset(b[1..])
    ensures a[1..] == b[1..] ==> a == b
  {
    assert a == [a[0]] + a[1..] && b == [b[0]] + b[1..];
    assert multiset(a[1..]) == multiset(a) - multiset{a[0]};
    assert multiset(b[1..]) == multiset(b) - multiset{b[0]};
  }

  lemma SameHead(deps: Dependencies, registration: seq<string>, a: seq<string>, b: seq<string>)
    requires SortedByKey(deps, registration, a) && SortedByKey(deps, registration, b)
    requires a != [] && b != [] && multiset(a) == multiset(b)
    ensures a[0] == b[0]
  {
    assert a[0] in multiset(b) && b[0] in multiset(a);
    var i :| 0 <= i < |b| && b[i] == a[0];
    var j :| 0 <= j < |a| && a[j] == b[0];
    assert i > 0 ==> KeyLess(deps, registration, b[0], b[i]);
    assert j > 0 ==> KeyLess(deps, registration, a[0], a[j]);
    KeyLessIsAsymmetric(deps, registration, a[0], b[0]);
  }

  lemma KeyLessIsAsymmetric(deps: Dependencies, registration: seq<string>, x: string, y: string)
    ensures !(KeyLess(deps, registration, x, y) && KeyLess(deps, registration, y, x))
  {
    forall u, d, e | LongestChain(deps, u, d) && LongestChain(deps, u, e) ensures d == e {
      LongestChainUnique(deps, u, d, e);
    }
  }

  lemma LongestChainUnique(deps: Dependencies, x: string, d: nat, e: nat)
    requires LongestChain(deps, x, d) && LongestChain(deps, x, e)
    ensures d == e
  {
  }
}
