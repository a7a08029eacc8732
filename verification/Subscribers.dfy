// The subscriber registry: subscriptions collected per event, then frozen into a fixed order.
module Subscribers {
  import opened SubscriberOrder
  import opened Wrappers

  /** `handler` stands for the callable, which the ordering never looks at. */
  datatype Subscription = Subscription(id: string, handler: int, before: set<string>, after: set<string>)

  /** One event's subscriptions in registration order (a Python dict keeps insertion order). */
  type Bucket = seq<Subscription>

  datatype SubscriptionError =
    | EmptyId
    | DuplicateId(event: string, id: string)
    | AfterUnknown(event: string, id: string, other: string)
    | BeforeUnknown(event: string, id: string, other: string)
    | CyclicOrder(event: string, names: set<string>)

  function Ids(bucket: Bucket): (ids: seq<string>)
    ensures |ids| == |bucket|
    ensures forall i | 0 <= i < |bucket| :: ids[i] == bucket[i].id
  {
    seq(|bucket|, i requires 0 <= i < |bucket| => bucket[i].id)
  }

  ghost predicate DistinctIds(bucket: Bucket) {
    forall i, j | 0 <= i < j < |bucket| :: bucket[i].id != bucket[j].id
  }

  /** `s` says that `y` must run before `x`. */
  ghost predicate Orders(s: Subscription, x: string, y: string) {
    (s.id == x && y in s.after) || (s.id == y && x in s.before)
  }

  /** Every dependency the bucket's before/after names declare. */
  ghost function Declared(bucket: Bucket): (deps: Dependencies)
    ensures deps.Keys == Elements(Ids(bucket))
  {
    map x | x in Elements(Ids(bucket)) ::
      set y | y in Elements(Ids(bucket)) && SaidBefore(bucket, |bucket|, x, y)
  }

  /** One of the first n subscriptions says that `y` must run before `x`. */
  ghost predicate SaidBefore(bucket: Bucket, n: nat, x: string, y: string)
    requires n <= |bucket|
  {
    exists k :: 0 <= k < n && Orders(bucket[k], x, y)
  }

  /** Subscription k names only registered subscribers. */
  ghost predicate Known(bucket: Bucket, k: nat)
    requires k < |bucket|
  {
    bucket[k].after <= Elements(Ids(bucket)) && bucket[k].before <= Elements(Ids(bucket))
  }

  /** What ordering one event's subscribers must return. */
  ghost predicate OrderOutcome(event: string, bucket: Bucket, r: Result<Bucket, SubscriptionError>) {
    match r
    case Ok(order) =>
      && KnownUpTo(bucket, |bucket|)
      && Peel(Declared(bucket), Ids(bucket)) == Some(Ids(order))
      && forall s | s in order :: s in bucket
    case Err(CyclicOrder(e, names)) =>
      && e == event && KnownUpTo(bucket, |bucket|)
      && Peel(Declared(bucket), Ids(bucket)) == None
      && Unsettled(Declared(bucket), Ids(bucket), names)
    case Err(e) => BadReference(event, bucket, e)
  }

  ghost predicate BadReference(event: string, bucket: Bucket, e: SubscriptionError) {
    || (e.AfterUnknown? && e.event == event && exists k :: UnknownAfter(bucket, k, e.id, e.other))
    || (e.BeforeUnknown? && e.event == event && exists k :: UnknownBefore(bucket, k, e.id, e.other))
  }

  ghost predicate KnownUpTo(bucket: Bucket, n: nat)
    requires n <= |bucket|
  {
    forall k | 0 <= k < n :: Known(bucket, k)
  }

  /** Subscription k is the first to name a stranger, and `other` is one it wants to run after. */
  ghost predicate UnknownAfter(bucket: Bucket, k: nat, id: string, other: string) {
    k < |bucket| && bucket[k].id == id && KnownUpTo(bucket, k)
    && other in bucket[k].after && other !in Elements(Ids(bucket))
  }

  /** The same for `before`, which is read only once every `after` was found. */
  ghost predicate UnknownBefore(bucket: Bucket, k: nat, id: string, other: string) {
    k < |bucket| && bucket[k].id == id && KnownUpTo(bucket, k)
    && bucket[k].after <= Elements(Ids(bucket))
    && other in bucket[k].before && other !in Elements(Ids(bucket))
  }

  /** The names a cyclic order is reported with: a non-empty set in which everyone still waits for someone. */
  ghost predicate Unsettled(deps: Dependencies, registration: seq<string>, names: set<string>) {
    names != {} && names <= deps.Keys && forall x | x in names :: deps[x] * names != {}
  }

  /** The dependencies while subscription i is being read, `after` and `before` of it already handled. */
  ghost predicate EdgesSoFar(bucket: Bucket, edges: Dependencies, i: nat, after: set<string>, before: set<string>)
    requires i < |bucket|
  {
    var ids := Elements(Ids(bucket));
    edges.Keys == ids
    && forall x, y | x in ids ::
         y in edges[x] <==> y in ids && (SaidBefore(bucket, i, x, y)
                                         || (x == bucket[i].id && y in after)
                                         || (y == bucket[i].id && x in before))
  }

  lemma IdSet(bucket: Bucket)
    ensures (set s | s in bucket :: s.id) == Elements(Ids(bucket))
  {
    var ids := set s | s in bucket :: s.id;
    forall x | x in Elements(Ids(bucket)) ensures x in ids {
      var k :| 0 <= k < |bucket| && Ids(bucket)[k] == x;
      assert bucket[k] in bucket;
    }
    forall x | x in ids ensures x in Elements(Ids(bucket)) {
      var k :| 0 <= k < |bucket| && bucket[k].id == x;
      assert Ids(bucket)[k] == x;
    }
  }

  /** `edges` holds the dependencies the first n subscriptions declare. */
  ghost predicate EdgesAre(bucket: Bucket, edges: Dependencies, n: nat)
    requires n <= |bucket|
  {
    var ids := Elements(Ids(bucket));
    edges.Keys == ids
    && forall x, y | x in ids :: y in edges[x] <==> y in ids && SaidBefore(bucket, n, x, y)
  }

  lemma AllRead(bucket: Bucket, edges: Dependencies)
    requires EdgesAre(bucket, edges, |bucket|)
    ensures edges == Declared(bucket)
  {
    forall x | x in edges ensures edges[x] == Declared(bucket)[x] {
      assert forall y :: y in edges[x] <==> y in Declared(bucket)[x];
    }
  }

  lemma AfterAdded(bucket: Bucket, edges: Dependencies, i: nat, after: set<string>, other: string)
    requires i < |bucket| && EdgesSoFar(bucket, edges, i, after, {})
    requires bucket[i].id in edges && other in edges
    ensures EdgesSoFar(bucket, edges[bucket[i].id := edges[bucket[i].id] + {other}], i, after + {other}, {})
  {
    var next := edges[bucket[i].id := edges[bucket[i].id] + {other}];
    assert next.Keys == edges.Keys;
  }

  lemma BeforeAdded(bucket: Bucket, edges: Dependencies, i: nat, after: set<string>, before: set<string>, other: string)
    requires i < |bucket| && EdgesSoFar(bucket, edges, i, after, before)
    requires bucket[i].id in edges && other in edges
    ensures EdgesSoFar(bucket, edges[other := edges[other] + {bucket[i].id}], i, after, before + {other})
  {
    var next := edges[other := edges[other] + {bucket[i].id}];
    assert next.Keys == edges.Keys;
  }

  /** Reads every before/after constraint into one dependency set per subscriber. */
  method ReadConstraints(event: string, bucket: Bucket) returns (r: Result<Dependencies, SubscriptionError>)
    ensures r.Ok? ==> r.value == Declared(bucket) && KnownUpTo(bucket, |bucket|)
    ensures r.Err? ==> BadReference(event, bucket, r.error)
  {
    IdSet(bucket);
    var ids := set s | s in bucket :: s.id;
    var edges: Dependencies := map x | x in ids :: {};
    for i := 0 to |bucket|
      invariant EdgesAre(bucket, edges, i)
      invariant KnownUpTo(bucket, i)
    {
      var unknown;
      edges, unknown := ReadAfter(bucket, i, edges);
      if unknown.Some? {
        assert UnknownAfter(bucket, i, bucket[i].id, unknown.value);
        return Err(AfterUnknown(event, bucket[i].id, unknown.value));
      }
      edges, unknown := ReadBefore(bucket, i, edges);
      if unknown.Some? {
        assert UnknownBefore(bucket, i, bucket[i].id, unknown.value);
        return Err(BeforeUnknown(event, bucket[i].id, unknown.value));
      }
      EdgesAdvance(bucket, edges, i);
    }
    AllRead(bucket, edges);
    return Ok(edges);
  }

  /** Subscription i's own `after` names, in whatever order its set yields them; stops at a stranger. */
  method ReadAfter(bucket: Bucket, i: nat, edges: Dependencies) returns (read: Dependencies, unknown: Option<string>)
    requires i < |bucket| && EdgesSoFar(bucket, edges, i, {}, {})
    ensures match unknown
      case None => bucket[i].after <= edges.Keys && EdgesSoFar(bucket, read, i, bucket[i].after, {})
      case Some(other) => other in bucket[i].after && other !in edges.Keys
  {
    read := edges;
    var name, waiting := bucket[i].id, bucket[i].after;
    assert Ids(bucket)[i] == name;
    assert bucket[i].after - waiting == {};
    while waiting != {}
      invariant waiting <= bucket[i].after && bucket[i].after - waiting <= edges.Keys
      invariant EdgesSoFar(bucket, read, i, bucket[i].after - waiting, {})
      decreases waiting
    {
      var other :| other in waiting;
      if other !in edges {
        return read, Some(other);
      }
      AfterAdded(bucket, read, i, bucket[i].after - waiting, other);
      read := read[name := read[name] + {other}];
      assert bucket[i].after - waiting + {other} == bucket[i].after - (waiting - {other});
      waiting := waiting - {other};
    }
    assert bucket[i].after - waiting == bucket[i].after;
    return read, None;
  }

  /** The same for its `before` names, which give this subscriber to the other one's set. */
  method ReadBefore(bucket: Bucket, i: nat, edges: Dependencies) returns (read: Dependencies, unknown: Option<string>)
    requires i < |bucket| && EdgesSoFar(bucket, edges, i, bucket[i].after, {})
    ensures match unknown
      case None => bucket[i].before <= edges.Keys && EdgesSoFar(bucket, read, i, bucket[i].after, bucket[i].before)
      case Some(other) => other in bucket[i].before && other !in edges.Keys
  {
    read := edges;
    var name, waiting := bucket[i].id, bucket[i].before;
    assert Ids(bucket)[i] == name;
    assert bucket[i].before - waiting == {};
    while waiting != {}
      invariant waiting <= bucket[i].before && bucket[i].before - waiting <= edges.Keys
      invariant EdgesSoFar(bucket, read, i, bucket[i].after, bucket[i].before - waiting)
      decreases waiting
    {
      var other :| other in waiting;
      if other !in edges {
        return read, Some(other);
      }
      BeforeAdded(bucket, read, i, bucket[i].after, bucket[i].before - waiting, other);
      read := read[other := read[other] + {name}];
      assert bucket[i].before - waiting + {other} == bucket[i].before - (waiting - {other});
      waiting := waiting - {other};
    }
    assert bucket[i].before - waiting == bucket[i].before;
    return read, None;
  }

  lemma EdgesAdvance(bucket: Bucket, edges: Dependencies, i: nat)
    requires i < |bucket| && KnownUpTo(bucket, i)
    requires EdgesSoFar(bucket, edges, i, bucket[i].after, bucket[i].before)
    requires bucket[i].after <= edges.Keys && bucket[i].before <= edges.Keys
    ensures EdgesAre(bucket, edges, i + 1) && KnownUpTo(bucket, i + 1)
  {
    forall x, y | x in edges
      ensures SaidBefore(bucket, i + 1, x, y) <==> SaidBefore(bucket, i, x, y) || Orders(bucket[i], x, y)
    {
    }
    assert Known(bucket, i);
  }

  /** What is left of the dependencies once only the names of `rest` are unsettled. */
  ghost predicate Left(deps: Dependencies, remaining: Dependencies, rest: seq<string>) {
    remaining.Keys == Elements(rest)
    && forall x | x in remaining :: x in deps && remaining[x] == deps[x] * Elements(rest)
  }

  /** Registered names that are still waiting and whose remaining dependencies are empty. */
  function ReadyNames(registration: seq<string>, remaining: Dependencies): seq<string> {
    if registration == [] then []
    else if registration[0] in remaining && remaining[registration[0]] == {}
    then [registration[0]] + ReadyNames(registration[1..], remaining)
    else ReadyNames(registration[1..], remaining)
  }

  /** Names of `registration` that `within` contains, in order. */
  ghost function Restrict(registration: seq<string>, within: set<string>): (r: seq<string>)
    ensures forall x :: x in r <==> x in registration && x in within
  {
    if registration == [] then []
    else if registration[0] in within then [registration[0]] + Restrict(registration[1..], within)
    else Restrict(registration[1..], within)
  }

  lemma {:induction false} ReadyIsPick(deps: Dependencies, remaining: Dependencies, registration: seq<string>, rest: seq<string>)
    requires Left(deps, remaining, rest)
    requires forall x | x in Restrict(registration, Elements(rest)) :: x in deps
    ensures ReadyNames(registration, remaining) == Pick(deps, Restrict(registration, Elements(rest)), Elements(rest), true)
  {
    if registration != [] {
      ReadyIsPick(deps, remaining, registration[1..], rest);
    }
  }

  lemma {:induction false} RestrictAll(registration: seq<string>, within: set<string>)
    requires Elements(registration) <= within
    ensures Restrict(registration, within) == registration
  {
    if registration != [] {
      assert registration[0] in Elements(registration);
      forall x | x in Elements(registration[1..]) ensures x in within { assert x in Elements(registration); }
      RestrictAll(registration[1..], within);
    }
  }

  lemma {:induction false} LaterIsRestrict(deps: Dependencies, registration: seq<string>, within: set<string>, later: set<string>)
    requires forall x | x in Restrict(registration, within) :: x in deps
    requires forall x | x in within && x in deps :: x in later <==> deps[x] * within != {}
    requires later <= within
    ensures Pick(deps, Restrict(registration, within), within, false) == Restrict(registration, later)
  {
    if registration != [] {
      LaterIsRestrict(deps, registration[1..], within, later);
    }
  }

  /** The invariant of the rounds: what is resolved, followed by peeling what is left, is peeling everything. */
  ghost predicate Progress(deps: Dependencies, registration: seq<string>, resolved: seq<string>, remaining: Dependencies, rest: seq<string>) {
    && Left(deps, remaining, rest) && rest == Restrict(registration, Elements(rest))
    && (forall x | x in rest :: x in deps)
    && (forall x | x in registration :: x in deps)
    && (forall x | x in resolved :: x in registration)
    && Peel(deps, registration) == if Peel(deps, rest).None? then None else Some(resolved + Peel(deps, rest).value)
  }

  lemma RoundProgresses(deps: Dependencies, registration: seq<string>, resolved: seq<string>, remaining: Dependencies, rest: seq<string>, shrunk: Dependencies)
    requires Progress(deps, registration, resolved, remaining, rest) && rest != []
    requires Pick(deps, rest, Elements(rest), true) != []
    requires var ready := Pick(deps, rest, Elements(rest), true);
      shrunk.Keys == remaining.Keys - Elements(ready)
      && forall x | x in shrunk :: shrunk[x] == remaining[x] - Elements(ready)
    ensures var ready, later := Pick(deps, rest, Elements(rest), true), Pick(deps, rest, Elements(rest), false);
      Progress(deps, registration, resolved + ready, shrunk, later) && |later| < |rest|
  {
    var ready, later := Pick(deps, rest, Elements(rest), true), Pick(deps, rest, Elements(rest), false);
    LeftAdvances(deps, remaining, shrunk, rest);
    PeelStep(deps, rest, resolved);
    LaterIsRestrict(deps, registration, Elements(rest), Elements(later));
  }

  lemma NothingLeft(deps: Dependencies, registration: seq<string>, resolved: seq<string>, remaining: Dependencies, rest: seq<string>)
    requires Progress(deps, registration, resolved, remaining, rest) && remaining == map[]
    ensures Peel(deps, registration) == Some(resolved)
  {
    assert forall x :: x !in Elements(rest);
    assert rest == [] by {
      assert forall i | 0 <= i < |rest| :: rest[i] in Elements(rest);
    }
    assert resolved + [] == resolved;
  }

  /** Sorts one event's subscribers in rounds, deleting the settled names and shrinking the dependency sets. */
  method Order(event: string, bucket: Bucket) returns (r: Result<Bucket, SubscriptionError>)
    requires DistinctIds(bucket)
    ensures OrderOutcome(event, bucket, r)
  {
    var read := ReadConstraints(event, bucket);
    if read.Err? {
      return Err(read.error);
    }
    var registration := Ids(bucket);
    var resolved, ready := [], [];
    var remaining := read.value;
    ghost var deps, rest := read.value, registration;
    RestrictAll(registration, Elements(registration));
    assert Peel(deps, rest).Some? ==> [] + Peel(deps, rest).value == Peel(deps, rest).value;
    while remaining != map[]
      invariant Progress(deps, registration, resolved, remaining, rest)
      decreases |rest|
    {
      ready := ReadyNames(registration, remaining);
      ReadyIsPick(deps, remaining, registration, rest);
      if ready == [] {
        NobodyReady(deps, remaining, registration, rest);
        return Err(CyclicOrder(event, remaining.Keys));
      }
      ghost var start, before := remaining, resolved;
      resolved, remaining := Resolve(resolved, remaining, ready);
      remaining := Settle(remaining, ready);
      RoundProgresses(deps, registration, before, start, rest, remaining);
      rest := Pick(deps, rest, Elements(rest), false);
    }
    NothingLeft(deps, registration, resolved, remaining, rest);
    var order := Lookup(bucket, resolved);
    return Ok(order);
  }

  /** Moves the ready names from the remaining ones to the resolved ones. */
  method Resolve(resolved: seq<string>, remaining: Dependencies, ready: seq<string>)
    returns (resolved': seq<string>, remaining': Dependencies)
    ensures resolved' == resolved + ready
    ensures remaining' == remaining - Elements(ready)
  {
    resolved', remaining' := resolved, remaining;
    for n := 0 to |ready|
      invariant resolved' == resolved + ready[..n]
      invariant remaining' == remaining - Elements(ready[..n])
    {
      assert ready[..n + 1] == ready[..n] + [ready[n]];
      assert Elements(ready[..n + 1]) == Elements(ready[..n]) + {ready[n]};
      resolved' := resolved' + [ready[n]];
      remaining' := remaining' - {ready[n]};
    }
    assert ready[..|ready|] == ready;
  }

  lemma NobodyReady(deps: Dependencies, remaining: Dependencies, registration: seq<string>, rest: seq<string>)
    requires Left(deps, remaining, rest) && remaining != map[]
    requires forall x | x in rest :: x in deps
    requires Pick(deps, rest, Elements(rest), true) == []
    ensures Unsettled(deps, registration, remaining.Keys)
    ensures Peel(deps, rest) == None
  {
    var x :| x in remaining;
    assert x in rest;
    forall x | x in remaining.Keys ensures deps[x] * remaining.Keys != {} {
      assert x !in Pick(deps, rest, Elements(rest), true);
    }
  }

  /** Takes the settled names out of every remaining dependency set. */
  method Settle(remaining: Dependencies, ready: seq<string>) returns (shrunk: Dependencies)
    ensures shrunk.Keys == remaining.Keys
    ensures forall x | x in remaining :: shrunk[x] == remaining[x] - Elements(ready)
  {
    shrunk := remaining;
    var todo := remaining.Keys;
    while todo != {}
      invariant todo <= remaining.Keys && shrunk.Keys == remaining.Keys
      invariant forall x | x in remaining :: shrunk[x] == if x in todo then remaining[x] else remaining[x] - Elements(ready)
      decreases todo
    {
      var name :| name in todo;
      shrunk := shrunk[name := shrunk[name] - set x | x in ready];
      todo := todo - {name};
    }
  }

  lemma LeftAdvances(deps: Dependencies, start: Dependencies, remaining: Dependencies, rest: seq<string>)
    requires Left(deps, start, rest) && forall x | x in rest :: x in deps
    requires var ready := Pick(deps, rest, Elements(rest), true);
      remaining.Keys == start.Keys - Elements(ready)
      && forall x | x in remaining :: remaining[x] == start[x] - Elements(ready)
    ensures Left(deps, remaining, Pick(deps, rest, Elements(rest), false))
  {
    var ready, later := Pick(deps, rest, Elements(rest), true), Pick(deps, rest, Elements(rest), false);
    assert Elements(later) == Elements(rest) - Elements(ready);
  }

  lemma PeelStep(deps: Dependencies, rest: seq<string>, resolved: seq<string>)
    requires rest != [] && forall x | x in rest :: x in deps
    requires Pick(deps, rest, Elements(rest), true) != []
    ensures var ready, later := Pick(deps, rest, Elements(rest), true), Pick(deps, rest, Elements(rest), false);
      && |later| < |rest|
      && Peel(deps, rest).None? == Peel(deps, later).None?
      && (Peel(deps, rest).Some? ==> resolved + Peel(deps, rest).value == (resolved + ready) + Peel(deps, later).value)
  {
    PickSplits(deps, rest, Elements(rest));
  }

  /** bucket[name] for each resolved name. */
  method Lookup(bucket: Bucket, names: seq<string>) returns (order: Bucket)
    requires DistinctIds(bucket) && forall x | x in names :: x in Ids(bucket)
    ensures Ids(order) == names && forall s | s in order :: s in bucket
  {
    order := [];
    for i := 0 to |names|
      invariant |order| == i && (forall k | 0 <= k < i :: order[k].id == names[k])
      invariant forall s | s in order :: s in bucket
    {
      assert names[i] in Ids(bucket);
      ghost var w :| 0 <= w < |bucket| && Ids(bucket)[w] == names[i];
      var k :| 0 <= k < |bucket| && bucket[k].id == names[i];
      order := order + [bucket[k]];
    }
  }

  // ---- What the outcome means ----

  lemma IdsDistinct(bucket: Bucket)
    requires DistinctIds(bucket)
    ensures forall i, j | 0 <= i < j < |Ids(bucket)| :: Ids(bucket)[i] != Ids(bucket)[j]
  {
  }

  /** When every name is known, ordering fails if and only if the before/after relation has a cycle. */
  lemma FailsIffCyclic(event: string, bucket: Bucket, r: Result<Bucket, SubscriptionError>)
    requires OrderOutcome(event, bucket, r) && KnownUpTo(bucket, |bucket|)
    ensures r.Err? <==> Cyclic(Declared(bucket))
    ensures r.Err? ==> r.error.CyclicOrder?
  {
    OrderFailsIffCyclic(Declared(bucket), Ids(bucket));
    if r.Err? {
      KnownMeansNoStranger(event, bucket, r.error);
    }
  }

  lemma KnownMeansNoStranger(event: string, bucket: Bucket, e: SubscriptionError)
    requires KnownUpTo(bucket, |bucket|)
    ensures !BadReference(event, bucket, e)
  {
    forall k: nat, id, other ensures !UnknownAfter(bucket, k, id, other) && !UnknownBefore(bucket, k, id, other) {
      assert k < |bucket| ==> Known(bucket, k);
    }
  }

  /** A successful order is a permutation of the bucket, sorted by (longest chain, registration), that satisfies every constraint. */
  lemma OrderMeaning(event: string, bucket: Bucket, order: Bucket)
    requires DistinctIds(bucket) && OrderOutcome(event, bucket, Ok(order))
    ensures multiset(Ids(order)) == multiset(Ids(bucket)) && forall s | s in order :: s in bucket
    ensures SortedByKey(Declared(bucket), Ids(bucket), Ids(order))
    ensures forall i, j | 0 <= i < j < |order| :: order[j].id !in order[i].after && order[i].id !in order[j].before
  {
    var deps, registration := Declared(bucket), Ids(bucket);
    IdsDistinct(bucket);
    OrderIsSorted(deps, registration);
    forall i, j | 0 <= i < j < |order| ensures order[j].id !in order[i].after && order[i].id !in order[j].before {
      InBucket(bucket, order[i]);
      InBucket(bucket, order[j]);
      SortedRespectsDependencies(deps, registration, Ids(order), i, j);
    }
  }

  lemma InBucket(bucket: Bucket, s: Subscription)
    requires s in bucket
    ensures s.id in Declared(bucket)
    ensures forall y | y in s.after && y in Declared(bucket) :: y in Declared(bucket)[s.id]
    ensures forall x | x in s.before && x in Declared(bucket) :: s.id in Declared(bucket)[x]
  {
    var k :| 0 <= k < |bucket| && bucket[k] == s;
    assert Ids(bucket)[k] == s.id;
    forall y | y in s.after && y in Declared(bucket) ensures y in Declared(bucket)[s.id] {
      assert Orders(bucket[k], s.id, y);
      assert SaidBefore(bucket, |bucket|, s.id, y);
    }
    forall x | x in s.before && x in Declared(bucket) ensures s.id in Declared(bucket)[x] {
      assert Orders(bucket[k], x, s.id);
      assert SaidBefore(bucket, |bucket|, x, s.id);
    }
  }

  /** Two runs over the same bucket agree, whatever order each run's sets were read in. */
  lemma OrderIsDeterministic(event: string, bucket: Bucket, a: Bucket, b: Bucket)
    requires DistinctIds(bucket)
    requires OrderOutcome(event, bucket, Ok(a)) && OrderOutcome(event, bucket, Ok(b))
    ensures a == b
  {
    assert Ids(a) == Ids(b);
    forall i | 0 <= i < |a| ensures a[i] == b[i] {
      assert a[i] in a && b[i] in b;
      assert Ids(a)[i] == a[i].id && Ids(b)[i] == b[i].id;
    }
  }

  class SubscriberRegistry {
    var events: map<string, Bucket>
    /** The event names in the order they were first subscribed to. */
    var eventNames: seq<string>

    ghost predicate Valid()
      reads this
    {
      && (forall e :: e in events <==> e in eventNames)
      && forall e | e in events :: DistinctIds(events[e]) && forall s | s in events[e] :: s.id != ""
    }

    constructor ()
      ensures Valid() && events == map[] && eventNames == []
    {
      events := map[];
      eventNames := [];
    }

    method Subscribe(event: string, id: string, handler: int, before: set<string>, after: set<string>)
      returns (error: Option<SubscriptionError>)
      requires Valid()
      modifies this
      ensures Valid()
      ensures error ==
        if id == "" then Some(EmptyId)
        else if event in old(events) && id in Ids(old(events)[event]) then Some(DuplicateId(event, id))
        else None
      ensures error.Some? ==> events == old(events) && eventNames == old(eventNames)
      ensures error.None? ==>
        events == old(events)[event :=
          (if event in old(events) then old(events)[event] else []) + [Subscription(id, handler, before, after)]]
        && eventNames == old(eventNames) + if event in old(events) then [] else [event]
    {
      if id == "" {
        return Some(EmptyId);
      }
      var bucket := if event in events then events[event] else [];
      if exists k :: 0 <= k < |bucket| && bucket[k].id == id {
        assert id in Ids(bucket);
        return Some(DuplicateId(event, id));
      }
      if event !in events {
        eventNames := eventNames + [event];
      }
      events := events[event := bucket + [Subscription(id, handler, before, after)]];
      return None;
    }

    /** Orders every event's subscribers, failing on the first event (in subscription order) that cannot be. */
    method Freeze() returns (r: Result<map<string, Bucket>, SubscriptionError>)
      requires Valid()
      ensures match r
        case Ok(ordered) => ordered.Keys == events.Keys && AllOrdered(events, ordered)
        case Err(e) => FirstFailure(events, eventNames, e)
    {
      var ordered: map<string, Bucket> := map[];
      for n := 0 to |eventNames|
        invariant ordered.Keys == Elements(eventNames[..n]) && AllOrdered(events, ordered)
      {
        assert eventNames[n] in eventNames;
        var one := Order(eventNames[n], events[eventNames[n]]);
        if one.Err? {
          FailureAt(events, eventNames, n, ordered, one.error);
          return Err(one.error);
        }
        OrderedGrows(events, eventNames, n, ordered, one.value);
        ordered := ordered[eventNames[n] := one.value];
      }
      assert eventNames[..|eventNames|] == eventNames;
      return Ok(ordered);
    }
  }

  ghost predicate AllOrdered(events: map<string, Bucket>, ordered: map<string, Bucket>) {
    forall e | e in ordered :: e in events && OrderOutcome(e, events[e], Ok(ordered[e]))
  }

  /** Some event failed with this error, and every event before it could be ordered. */
  ghost predicate FirstFailure(events: map<string, Bucket>, names: seq<string>, error: SubscriptionError) {
    exists k :: 0 <= k < |names| && FailsAt(events, names, k, error)
  }

  ghost predicate FailsAt(events: map<string, Bucket>, names: seq<string>, k: nat, error: SubscriptionError)
    requires k < |names|
  {
    (forall j | 0 <= j < k :: CanOrder(events, names[j]))
    && names[k] in events && OrderOutcome(names[k], events[names[k]], Err(error))
  }

  ghost predicate CanOrder(events: map<string, Bucket>, e: string) {
    e in events && exists b :: OrderOutcome(e, events[e], Ok(b))
  }

  lemma OrderedGrows(events: map<string, Bucket>, names: seq<string>, n: nat, ordered: map<string, Bucket>, b: Bucket)
    requires n < |names| && ordered.Keys == Elements(names[..n]) && AllOrdered(events, ordered)
    requires names[n] in events && OrderOutcome(names[n], events[names[n]], Ok(b))
    ensures ordered[names[n] := b].Keys == Elements(names[..n + 1]) && AllOrdered(events, ordered[names[n] := b])
  {
    ElementsPrefix(names, n);
    var grown := ordered[names[n] := b];
    forall e | e in grown ensures e in events && OrderOutcome(e, events[e], Ok(grown[e])) {
      if e != names[n] {
        assert grown[e] == ordered[e];
      }
    }
  }

  lemma ElementsPrefix(names: seq<string>, n: nat)
    requires n < |names|
    ensures Elements(names[..n + 1]) == Elements(names[..n]) + {names[n]}
  {
    assert names[..n + 1] == names[..n] + [names[n]];
  }

  lemma FailureAt(events: map<string, Bucket>, names: seq<string>, n: nat, ordered: map<string, Bucket>, error: SubscriptionError)
    requires n < |names| && ordered.Keys == Elements(names[..n]) && AllOrdered(events, ordered)
    requires names[n] in events && OrderOutcome(names[n], events[names[n]], Err(error))
    ensures FirstFailure(events, names, error)
  {
    forall j | 0 <= j < n ensures CanOrder(events, names[j]) {
      assert names[..n][j] in Elements(names[..n]);
      assert OrderOutcome(names[j], events[names[j]], Ok(ordered[names[j]]));
    }
    assert FailsAt(events, names, n, error);
  }
}
