// How the footer's groups come about: the requests in flight, longest-running first,
// gathered by model and effort.
module FooterGroups {
  import opened Footer
  import opened Text

  /** A request in flight; `item` below is how the footer words its age and bytes. */
  datatype Request = Request(id: string, model: string, effort: string, startedAt: real)

  datatype Key = Key(model: string, effort: string)

  function KeyOf(r: Request): Key {
    Key(r.model, r.effort)
  }

  function GroupKey(g: Group): Key {
    Key(g.model, g.effort)
  }

  // ---- Longest-running first ----

  function Insert(r: Request, s: seq<Request>): seq<Request> {
    if s == [] || s[|s| - 1].startedAt <= r.startedAt then s + [r] else Insert(r, s[..|s| - 1]) + [s[|s| - 1]]
  }

  function ByStart(s: seq<Request>): seq<Request> {
    if s == [] then [] else Insert(s[|s| - 1], ByStart(s[..|s| - 1]))
  }

  ghost predicate Ascending(s: seq<Request>) {
    forall i, j | 0 <= i < j < |s| :: s[i].startedAt <= s[j].startedAt
  }

  /** The requests that started at that time, in the order given. */
  function StartedAt(s: seq<Request>, time: real): seq<Request> {
    if s == [] then []
    else StartedAt(s[..|s| - 1], time) + if s[|s| - 1].startedAt == time then [s[|s| - 1]] else []
  }

  lemma {:induction false} InsertKeeps(r: Request, s: seq<Request>)
    ensures multiset(Insert(r, s)) == multiset(s) + multiset{r}
  {
    if s != [] && s[|s| - 1].startedAt > r.startedAt {
      InsertKeeps(r, s[..|s| - 1]);
      assert s == s[..|s| - 1] + [s[|s| - 1]];
    }
  }

  lemma {:induction false} InsertSorts(r: Request, s: seq<Request>)
    requires Ascending(s)
    ensures Ascending(Insert(r, s))
  {
    if s != [] && s[|s| - 1].startedAt > r.startedAt {
      var init, last := s[..|s| - 1], s[|s| - 1];
      var put := Insert(r, init);
      InsertSorts(r, init);
      InsertKeeps(r, init);
      forall i | 0 <= i < |put| ensures put[i].startedAt <= last.startedAt {
        assert put[i] in multiset(put);
        assert put[i] in init || put[i] == r;
      }
    }
  }

  lemma StartedAtOneMore(s: seq<Request>, r: Request, time: real)
    ensures StartedAt(s + [r], time) == StartedAt(s, time) + if r.startedAt == time then [r] else []
  {
    assert (s + [r])[..|s|] == s;
  }

  lemma {:induction false} InsertIsStable(r: Request, s: seq<Request>, time: real)
    requires Ascending(s)
    ensures StartedAt(Insert(r, s), time) == StartedAt(s, time) + if r.startedAt == time then [r] else []
  {
    hide StartedAt;
    StartedAtOneMore(s, r, time);
    if s != [] && s[|s| - 1].startedAt > r.startedAt {
      var init, last := s[..|s| - 1], s[|s| - 1];
      InsertIsStable(r, init, time);
      assert s == init + [last];
      StartedAtOneMore(init, last, time);
      StartedAtOneMore(Insert(r, init), last, time);
    }
  }

  /** Sorting keeps every request, puts earlier starts first, and leaves equal starts in the order given. */
  lemma {:induction false} ByStartSorts(s: seq<Request>, time: real)
    ensures Ascending(ByStart(s)) && multiset(ByStart(s)) == multiset(s)
    ensures StartedAt(ByStart(s), time) == StartedAt(s, time)
  {
    if s != [] {
      var init, last := s[..|s| - 1], s[|s| - 1];
      assert s == init + [last];
      ByStartSorts(init, time);
      InsertKeeps(last, ByStart(init));
      InsertSorts(last, ByStart(init));
      InsertIsStable(last, ByStart(init), time);
    }
  }

  // ---- Gathering ----

  /** The requests with that key, in order. */
  function Members(s: seq<Request>, key: Key): seq<Request> {
    if s == [] then []
    else Members(s[..|s| - 1], key) + if KeyOf(s[|s| - 1]) == key then [s[|s| - 1]] else []
  }

  /** Where the first request with that key is, or the length if there is none. */
  function Position(s: seq<Request>, key: Key): (p: nat)
    ensures p <= |s|
    ensures forall i | 0 <= i < p :: KeyOf(s[i]) != key
    ensures p < |s| ==> KeyOf(s[p]) == key
  {
    if s == [] then 0
    else
      var p := Position(s[..|s| - 1], key);
      if p < |s| - 1 || KeyOf(s[|s| - 1]) == key then p else |s|
  }

  function Items(item: Request -> string, s: seq<Request>): seq<string> {
    seq(|s|, i requires 0 <= i < |s| => item(s[i]))
  }

  /** The group shows exactly its own requests, in order. */
  ghost predicate Gathers(s: seq<Request>, item: Request -> string, g: Group) {
    Position(s, GroupKey(g)) < |s| && g.items == Items(item, Members(s, GroupKey(g)))
  }

  ghost predicate InOrder(s: seq<Request>, groups: seq<Group>) {
    forall i, j | 0 <= i < j < |groups| :: Position(s, GroupKey(groups[i])) < Position(s, GroupKey(groups[j]))
  }

  ghost predicate HasGroup(groups: seq<Group>, key: Key) {
    exists i :: 0 <= i < |groups| && GroupKey(groups[i]) == key
  }

  /** One group for every key, with exactly its requests; groups in the order of their first requests. */
  ghost predicate IsGrouping(s: seq<Request>, item: Request -> string, groups: seq<Group>) {
    && (forall i | 0 <= i < |groups| :: Gathers(s, item, groups[i]))
    && InOrder(s, groups)
    && forall i | 0 <= i < |s| :: HasGroup(groups, KeyOf(s[i]))
  }

  lemma MembersOneMore(s: seq<Request>, r: Request, key: Key)
    ensures Members(s + [r], key) == Members(s, key) + if KeyOf(r) == key then [r] else []
    ensures Position(s, key) < |s| ==> Position(s + [r], key) == Position(s, key)
    ensures Position(s, key) == |s| ==> Position(s + [r], key) == if KeyOf(r) == key then |s| else |s| + 1
  {
    assert (s + [r])[..|s|] == s;
  }

  lemma NoMembers(s: seq<Request>, key: Key)
    ensures Members(s, key) == [] <==> Position(s, key) == |s|
  {
    if s != [] {
      NoMembers(s[..|s| - 1], key);
    }
  }

  lemma GathersOneMore(s: seq<Request>, item: Request -> string, r: Request, g: Group)
    requires Gathers(s, item, g)
    ensures Gathers(s + [r], item, if KeyOf(r) == GroupKey(g) then g.(items := g.items + [item(r)]) else g)
  {
    MembersOneMore(s, r, GroupKey(g));
  }

  /** Adding a request to the group it belongs to, or a new group behind the others. */
  function Add(groups: seq<Group>, at: nat, r: Request, text: string): seq<Group>
    requires at <= |groups|
  {
    if at < |groups| then groups[at := groups[at].(items := groups[at].items + [text])]
    else groups + [Group(r.model, r.effort, [text])]
  }

  lemma AddGroups(s: seq<Request>, item: Request -> string, groups: seq<Group>, at: nat, r: Request)
    requires IsGrouping(s, item, groups) && at <= |groups|
    requires if at < |groups| then GroupKey(groups[at]) == KeyOf(r) else !HasGroup(groups, KeyOf(r))
    ensures IsGrouping(s + [r], item, Add(groups, at, r, item(r)))
  {
    hide Members, Position, Items;
    var more := Add(groups, at, r, item(r));
    forall i | 0 <= i < |groups|
      ensures Gathers(s + [r], item, more[i]) && Position(s + [r], GroupKey(more[i])) == Position(s, GroupKey(groups[i])) < |s|
    {
      assert Gathers(s, item, groups[i]);
      assert i != at && at < |groups| ==> GroupKey(groups[i]) != GroupKey(groups[at]);
      GathersOneMore(s, item, r, groups[i]);
      MembersOneMore(s, r, GroupKey(groups[i]));
    }
    if at == |groups| {
      NewGroup(s, item, groups, r);
    }
    forall i | 0 <= i < |s + [r]| ensures HasGroup(more, KeyOf((s + [r])[i])) {
      if i < |s| {
        assert HasGroup(groups, KeyOf(s[i]));
        var k :| 0 <= k < |groups| && GroupKey(groups[k]) == KeyOf(s[i]);
        assert GroupKey(more[k]) == KeyOf(s[i]);
      } else {
        assert GroupKey(more[at]) == KeyOf(r);
      }
    }
  }

  lemma NewGroup(s: seq<Request>, item: Request -> string, groups: seq<Group>, r: Request)
    requires IsGrouping(s, item, groups) && !HasGroup(groups, KeyOf(r))
    ensures Gathers(s + [r], item, Group(r.model, r.effort, [item(r)])) && Position(s + [r], KeyOf(r)) == |s|
  {
    hide Members, Position;
    forall i | 0 <= i < |s| ensures KeyOf(s[i]) != KeyOf(r) {
      assert HasGroup(groups, KeyOf(s[i]));
    }
    FirstMember(s, r);
  }

  lemma FirstMember(s: seq<Request>, r: Request)
    requires forall i | 0 <= i < |s| :: KeyOf(s[i]) != KeyOf(r)
    ensures Members(s + [r], KeyOf(r)) == [r] && Position(s + [r], KeyOf(r)) == |s|
  {
    NoMembers(s, KeyOf(r));
    MembersOneMore(s, r, KeyOf(r));
  }

  lemma EmptyGrouping(item: Request -> string)
    ensures IsGrouping([], item, [])
  {
  }

  lemma NotThere(groups: seq<Group>, index: map<Key, nat>, key: Key)
    requires key !in index && forall i | 0 <= i < |groups| :: GroupKey(groups[i]) in index
    ensures !HasGroup(groups, key)
  {
  }

  method GroupRequests(active: seq<Request>, item: Request -> string) returns (groups: seq<Group>)
    ensures IsGrouping(ByStart(active), item, groups)
  {
    hide IsGrouping, HasGroup, Members, Position;
    var ordered := ByStart(active);
    EmptyGrouping(item);
    var index: map<Key, nat> := map[];
    groups := [];
    for n := 0 to |ordered|
      invariant IsGrouping(ordered[..n], item, groups)
      invariant forall i | 0 <= i < |groups| :: GroupKey(groups[i]) in index && index[GroupKey(groups[i])] == i
      invariant forall key | key in index :: index[key] < |groups| && GroupKey(groups[index[key]]) == key
    {
      var r := ordered[n];
      var at: nat := if KeyOf(r) in index then index[KeyOf(r)] else |groups|;
      if KeyOf(r) !in index {
        NotThere(groups, index, KeyOf(r));
      }
      AddGroups(ordered[..n], item, groups, at, r);
      assert ordered[..n] + [r] == ordered[..n + 1];
      if at == |groups| {
        index := index[KeyOf(r) := at];
      }
      groups := Add(groups, at, r, item(r));
    }
    assert ordered[..|ordered|] == ordered;
  }

  ghost predicate ShowsGroups(t: Terminal, groups: seq<Group>, columns: int, draining: bool, connections: int, line: string) {
    var f := LayoutFor(t, groups, draining, connections);
    ValidLayout(f) && IsFooterLine(f, columns, line)
  }

  function ClientsOnly(t: Terminal, columns: int, draining: bool, connections: int): string
    requires connections > 0
  {
    Finalize(t, (if draining then "[DRIN] " else "[<-->] ") + (Decimal(connections) + " clients"), columns)
  }

  /** The footer of the requests in flight: their groups, or the client count alone, or nothing. */
  method FooterOf(t: Terminal, active: seq<Request>, item: Request -> string, columns: int, draining: bool, connections: int)
    returns (line: string)
    requires ValidTerminal(t)
    ensures active == [] ==> line == if connections <= 0 then "" else ClientsOnly(t, columns, draining, connections)
    ensures active != [] ==>
      exists groups :: IsGrouping(ByStart(active), item, groups) && ShowsGroups(t, groups, columns, draining, connections, line)
  {
    hide IsFooterLine;
    var groups := GroupRequests(active, item);
    ByStartKeepsLength(active);
    assert groups != [] <==> active != [] by {
      SomeGroup(ByStart(active), item, groups);
    }
    forall i | 0 <= i < |groups| ensures groups[i].items != [] {
      assert Gathers(ByStart(active), item, groups[i]);
      NoMembers(ByStart(active), GroupKey(groups[i]));
    }
    line := BuildFooter(t, groups, columns, draining, connections);
  }

  lemma ByStartKeepsLength(s: seq<Request>)
    ensures |ByStart(s)| == |s|
  {
    ByStartSorts(s, 0.0);
    assert |multiset(ByStart(s))| == |multiset(s)|;
  }

  lemma SomeGroup(s: seq<Request>, item: Request -> string, groups: seq<Group>)
    requires IsGrouping(s, item, groups)
    ensures groups != [] <==> s != []
  {
    if s != [] {
      assert HasGroup(groups, KeyOf(s[0]));
    }
    if groups != [] {
      GroupIsThere(s, item, groups, 0);
    }
  }

  // ---- What that means ----

  lemma NextGroup(s: seq<Request>, item: Request -> string, these: seq<Group>, those: seq<Group>, i: nat)
    requires IsGrouping(s, item, these) && IsGrouping(s, item, those)
    requires i < |these| && i <= |those| && forall k | 0 <= k < i :: GroupKey(these[k]) == GroupKey(those[k])
    ensures i < |those| && Position(s, GroupKey(those[i])) <= Position(s, GroupKey(these[i]))
  {
    hide Members, Position, Items;
    var key := GroupKey(these[i]);
    assert Gathers(s, item, these[i]);
    assert HasGroup(those, KeyOf(s[Position(s, key)]));
    var k :| 0 <= k < |those| && GroupKey(those[k]) == key;
    forall j | 0 <= j < i ensures GroupKey(those[j]) != key {
      assert Position(s, GroupKey(these[j])) < Position(s, key);
    }
  }

  lemma {:induction false} SameKeys(s: seq<Request>, item: Request -> string, these: seq<Group>, those: seq<Group>, n: nat)
    requires IsGrouping(s, item, these) && IsGrouping(s, item, those) && n <= |these|
    ensures n <= |those| && forall k | 0 <= k < n :: GroupKey(these[k]) == GroupKey(those[k])
  {
    hide IsGrouping, Members, Items;
    if n > 0 {
      SameKeys(s, item, these, those, n - 1);
      NextGroup(s, item, these, those, n - 1);
      NextGroup(s, item, those, these, n - 1);
      GroupIsThere(s, item, these, n - 1);
      GroupIsThere(s, item, those, n - 1);
    }
  }

  lemma GroupIsThere(s: seq<Request>, item: Request -> string, groups: seq<Group>, i: nat)
    requires IsGrouping(s, item, groups) && i < |groups|
    ensures Gathers(s, item, groups[i])
  {
  }

  /** The requests alone determine the groups. */
  lemma GroupingIsUnique(s: seq<Request>, item: Request -> string, these: seq<Group>, those: seq<Group>)
    requires IsGrouping(s, item, these) && IsGrouping(s, item, those)
    ensures these == those
  {
    hide IsGrouping, Members, Position, Items;
    SameKeys(s, item, these, those, |these|);
    SameKeys(s, item, those, these, |those|);
    forall i | 0 <= i < |these| ensures these[i] == those[i] {
      GroupIsThere(s, item, these, i);
      GroupIsThere(s, item, those, i);
    }
  }

  /** Every member of a group comes from the requests, no earlier than those before it. */
  lemma {:induction false} MembersAscend(s: seq<Request>, key: Key)
    requires Ascending(s)
    ensures Ascending(Members(s, key)) && forall r | r in Members(s, key) :: r in s && KeyOf(r) == key
  {
    if s != [] {
      var earlier := Members(s[..|s| - 1], key);
      MembersAscend(s[..|s| - 1], key);
      forall i | 0 <= i < |earlier| ensures earlier[i].startedAt <= s[|s| - 1].startedAt {
        assert earlier[i] in s[..|s| - 1];
      }
    }
  }

  /** Longest-running first, within each group and across them. */
  lemma LongestRunningFirst(active: seq<Request>, item: Request -> string, groups: seq<Group>)
    requires IsGrouping(ByStart(active), item, groups)
    ensures forall i | 0 <= i < |groups| :: Ascending(Members(ByStart(active), GroupKey(groups[i])))
    ensures forall i | 0 <= i < |groups| :: Members(ByStart(active), GroupKey(groups[i])) != []
    ensures forall i, j | 0 <= i < j < |groups| ::
      Members(ByStart(active), GroupKey(groups[i]))[0].startedAt <= Members(ByStart(active), GroupKey(groups[j]))[0].startedAt
  {
    hide IsGrouping, Members, Items, ByStart;
    var s := ByStart(active);
    ByStartSorts(active, 0.0);
    forall i | 0 <= i < |groups|
      ensures Ascending(Members(s, GroupKey(groups[i]))) && Members(s, GroupKey(groups[i])) != []
      ensures Position(s, GroupKey(groups[i])) < |s|
      ensures Members(s, GroupKey(groups[i]))[0] == s[Position(s, GroupKey(groups[i]))]
    {
      GroupIsThere(s, item, groups, i);
      MembersAscend(s, GroupKey(groups[i]));
      FirstIsAtPosition(s, GroupKey(groups[i]));
    }
    assert InOrder(s, groups) by {
      GroupsInOrder(s, item, groups);
    }
  }

  lemma GroupsInOrder(s: seq<Request>, item: Request -> string, groups: seq<Group>)
    requires IsGrouping(s, item, groups)
    ensures InOrder(s, groups)
  {
  }

  lemma {:induction false} FirstIsAtPosition(s: seq<Request>, key: Key)
    requires Position(s, key) < |s|
    ensures Members(s, key) != [] && Members(s, key)[0] == s[Position(s, key)]
  {
    var init := s[..|s| - 1];
    NoMembers(init, key);
    if Position(init, key) < |init| {
      FirstIsAtPosition(init, key);
    }
  }

  /** How many items the first n groups have together. */
  function ItemCount(groups: seq<Group>, n: nat): nat
    requires n <= |groups|
  {
    if n == 0 then 0 else ItemCount(groups, n - 1) + |groups[n - 1].items|
  }

  function MemberCount(s: seq<Request>, groups: seq<Group>, n: nat): nat
    requires n <= |groups|
  {
    if n == 0 then 0 else MemberCount(s, groups, n - 1) + |Members(s, GroupKey(groups[n - 1]))|
  }

  ghost predicate KeysDiffer(groups: seq<Group>) {
    forall i, j | 0 <= i < j < |groups| :: GroupKey(groups[i]) != GroupKey(groups[j])
  }

  lemma {:induction false} MemberCountOneMore(s: seq<Request>, r: Request, groups: seq<Group>, at: nat, n: nat)
    requires KeysDiffer(groups) && at < |groups| && GroupKey(groups[at]) == KeyOf(r) && n <= |groups|
    ensures MemberCount(s + [r], groups, n) == MemberCount(s, groups, n) + if at < n then 1 else 0
  {
    if n > 0 {
      MemberCountOneMore(s, r, groups, at, n - 1);
      MembersOneMore(s, r, GroupKey(groups[n - 1]));
    }
  }

  lemma {:induction false} MembersAreEveryone(s: seq<Request>, groups: seq<Group>)
    requires KeysDiffer(groups) && forall i | 0 <= i < |s| :: HasGroup(groups, KeyOf(s[i]))
    ensures MemberCount(s, groups, |groups|) == |s|
  {
    if s == [] {
      NobodyCounts(groups, |groups|);
    } else {
      var init, last := s[..|s| - 1], s[|s| - 1];
      MembersAreEveryone(init, groups);
      assert HasGroup(groups, KeyOf(last));
      var at :| 0 <= at < |groups| && GroupKey(groups[at]) == KeyOf(last);
      MemberCountOneMore(init, last, groups, at, |groups|);
      assert s == init + [last];
    }
  }

  lemma {:induction false} NobodyCounts(groups: seq<Group>, n: nat)
    requires n <= |groups|
    ensures MemberCount([], groups, n) == 0
  {
    if n > 0 {
      NobodyCounts(groups, n - 1);
    }
  }

  lemma {:induction false} ItemsAreMembers(s: seq<Request>, item: Request -> string, groups: seq<Group>, n: nat)
    requires IsGrouping(s, item, groups) && n <= |groups|
    ensures ItemCount(groups, n) == MemberCount(s, groups, n)
  {
    hide IsGrouping, Members;
    if n > 0 {
      ItemsAreMembers(s, item, groups, n - 1);
      GroupIsThere(s, item, groups, n - 1);
    }
  }

  /** Every request in flight has exactly one item, in exactly one group. */
  lemma EveryRequestHasOneItem(active: seq<Request>, item: Request -> string, groups: seq<Group>)
    requires IsGrouping(ByStart(active), item, groups)
    ensures KeysDiffer(groups) && ItemCount(groups, |groups|) == |active|
  {
    hide Members, Items, ByStart, MemberCount, ItemCount;
    ItemsAreMembers(ByStart(active), item, groups, |groups|);
    MembersAreEveryone(ByStart(active), groups);
    ByStartKeepsLength(active);
  }
}
