// The live footer line: which groups of requests appear, how many requests each
// shows, and the exact width the line ends up with.
module Footer {
  import opened Arithmetic
  import opened FairGrowth
  import opened Text

  /** One model and effort, with the rendered item of each of its requests, longest-running first. */
  datatype Group = Group(model: string, effort: string, items: seq<string>)

  /** Everything a footer line is laid out from; the packing itself never looks inside the texts. */
  datatype Layout = Layout(t: Terminal, prefix: string, separator: string, itemSeparator: string,
                           head: Group -> string, more: nat -> string, clients: seq<string>, groups: seq<Group>)

  ghost predicate ValidLayout(f: Layout) {
    ValidTerminal(f.t) && f.groups != [] && forall i | 0 <= i < |f.groups| :: f.groups[i].items != []
  }

  function Head(g: Group): string {
    var name := (if g.model == "" then "(resolving)" else g.model) + "[" + g.effort + "]";
    if |g.items| > 1 then name + " x" + Decimal(|g.items|) else name
  }

  function Render(f: Layout, g: Group, count: nat): string
    requires count <= |g.items|
  {
    f.head(g) + " " + Join(f.itemSeparator, g.items[..count])
  }

  function More(hidden: nat): string {
    "+" + Decimal(hidden) + " more"
  }

  function OverflowParts(f: Layout, hidden: nat): seq<string> {
    if hidden > 0 then [f.more(hidden)] else []
  }

  /** The first |counts| groups, group i showing counts[i] of its items. */
  function GroupParts(f: Layout, counts: seq<nat>): (parts: seq<string>)
    requires |counts| <= |f.groups| && forall i | 0 <= i < |counts| :: counts[i] <= |f.groups[i].items|
    ensures |parts| == |counts|
    ensures forall i | 0 <= i < |counts| :: parts[i] == Render(f, f.groups[i], counts[i])
  {
    seq(|counts|, i requires 0 <= i < |counts| => Render(f, f.groups[i], counts[i]))
  }

  /** The line before it is finalized: prefix, client count, shown groups, and "+K more" for the K hidden ones. */
  function Assemble(f: Layout, counts: seq<nat>): string
    requires |counts| <= |f.groups| && forall i | 0 <= i < |counts| :: counts[i] <= |f.groups[i].items|
  {
    f.prefix + Join(f.separator, f.clients + GroupParts(f, counts) + OverflowParts(f, |f.groups| - |counts|))
  }

  function Ones(k: nat): (ones: seq<nat>)
    ensures |ones| == k && forall i | 0 <= i < k :: ones[i] == 1
  {
    seq(k, _ => 1)
  }

  /** What each group's items cost, in cells. */
  function CostsOf(f: Layout): (costs: Costs)
    ensures |costs| == |f.groups|
    ensures forall i | 0 <= i < |costs| :: costs[i] == GroupCosts(f, f.groups[i])
  {
    seq(|f.groups|, i requires 0 <= i < |f.groups| => GroupCosts(f, f.groups[i]))
  }

  function GroupCosts(f: Layout, g: Group): (costs: seq<nat>)
    ensures |costs| == |g.items|
    ensures forall c | 0 <= c < |costs| :: costs[c] == Width(f.t, f.itemSeparator) + Width(f.t, g.items[c])
  {
    seq(|g.items|, c requires 0 <= c < |g.items| => Width(f.t, f.itemSeparator) + Width(f.t, g.items[c]))
  }

  /** Some of the groups from the first on, each showing at least one and at most all of its items. */
  ghost predicate Showing(f: Layout, counts: seq<nat>) {
    |counts| <= |f.groups| && forall i | 0 <= i < |counts| :: 1 <= counts[i] <= |f.groups[i].items|
  }

  ghost function LineWidth(f: Layout, counts: seq<nat>): nat
    requires Showing(f, counts)
  {
    Width(f.t, Assemble(f, counts))
  }

  // ---- Widths ----

  lemma AssembleWidth(f: Layout, counts: seq<nat>)
    requires ValidTerminal(f.t) && Showing(f, counts) && counts != []
    ensures LineWidth(f, counts) + Width(f.t, f.separator)
         == Width(f.t, f.prefix) + PartsWidth(f.t, f.separator, f.clients)
            + PartsWidth(f.t, f.separator, GroupParts(f, counts))
            + PartsWidth(f.t, f.separator, OverflowParts(f, |f.groups| - |counts|))
  {
    LineOfParts(f.t, f.prefix, f.separator, f.clients, GroupParts(f, counts), OverflowParts(f, |f.groups| - |counts|));
  }

  lemma RenderWidth(f: Layout, g: Group, count: nat)
    requires ValidTerminal(f.t) && 1 <= count <= |g.items|
    ensures Width(f.t, Render(f, g, count)) == Width(f.t, f.head(g)) + 1 + Width(f.t, Join(f.itemSeparator, g.items[..count]))
  {
    var items := Join(f.itemSeparator, g.items[..count]);
    WidthConcat(f.t, f.head(g) + " ", items);
    WidthConcat(f.t, f.head(g), " ");
  }

  lemma RenderGrows(f: Layout, g: Group, count: nat)
    requires ValidTerminal(f.t) && 1 <= count < |g.items|
    ensures Width(f.t, Render(f, g, count + 1)) == Width(f.t, Render(f, g, count)) + GroupCosts(f, g)[count]
  {
    var a, b := g.items[..count], g.items[..count + 1];
    assert b == a + [g.items[count]];
    JoinWidth(f.t, f.itemSeparator, a);
    JoinWidth(f.t, f.itemSeparator, b);
    PartsConcat(f.t, f.itemSeparator, a, [g.items[count]]);
    PartsOne(f.t, f.itemSeparator, g.items[count]);
    RenderWidth(f, g, count);
    RenderWidth(f, g, count + 1);
  }

  /** Showing one more item of one group widens the line by exactly that item's cost. */
  lemma LineGrows(f: Layout, counts: seq<nat>, i: nat)
    requires ValidTerminal(f.t) && Showing(f, counts)
    requires i < |counts| && counts[i] < |f.groups[i].items|
    ensures Showing(f, counts[i := counts[i] + 1])
    ensures LineWidth(f, counts[i := counts[i] + 1]) == LineWidth(f, counts) + GroupCosts(f, f.groups[i])[counts[i]]
  {
    hide PartsWidth, Render, OverflowParts, Width, GroupCosts, Assemble;
    var more := counts[i := counts[i] + 1];
    var part := Render(f, f.groups[i], counts[i] + 1);
    assert GroupParts(f, more) == GroupParts(f, counts)[i := part];
    AssembleWidth(f, counts);
    AssembleWidth(f, more);
    PartsUpdate(f.t, f.separator, GroupParts(f, counts), i, part);
    RenderGrows(f, f.groups[i], counts[i]);
  }

  function MinimumWidth(f: Layout, g: Group): nat
    requires g.items != []
  {
    Width(f.t, f.head(g)) + 1 + Width(f.t, g.items[0])
  }

  /** Pass one's running sum after k groups, without the reserved tail. */
  ghost function UsedWidth(f: Layout, k: nat): nat
    requires ValidLayout(f) && k <= |f.groups|
  {
    if k == 0 then Width(f.t, f.prefix) + PartsWidth(f.t, f.separator, f.clients)
    else UsedWidth(f, k - 1) + (if k > 1 then Width(f.t, f.separator) else 0) + MinimumWidth(f, f.groups[k - 1])
  }

  /** The tail as pass one reserves it. */
  function TailWidth(f: Layout, hidden: nat): nat {
    if hidden > 0 then Width(f.t, f.separator + f.more(hidden)) else 0
  }

  /** What pass one compares with the budget when it considers the k-th group. */
  ghost function NarrowTotal(f: Layout, k: nat): nat
    requires ValidLayout(f) && k <= |f.groups|
  {
    UsedWidth(f, k) + TailWidth(f, |f.groups| - k)
  }

  lemma {:induction false} UsedIsParts(f: Layout, k: nat)
    requires ValidLayout(f) && k <= |f.groups|
    ensures UsedWidth(f, k) + (if k > 0 then Width(f.t, f.separator) else 0)
         == Width(f.t, f.prefix) + PartsWidth(f.t, f.separator, f.clients) + PartsWidth(f.t, f.separator, GroupParts(f, Ones(k)))
  {
    if k > 0 {
      UsedIsParts(f, k - 1);
      PartsGrow(f, k - 1);
    }
  }

  lemma PartsGrow(f: Layout, k: nat)
    requires ValidLayout(f) && k < |f.groups|
    ensures PartsWidth(f.t, f.separator, GroupParts(f, Ones(k + 1)))
         == PartsWidth(f.t, f.separator, GroupParts(f, Ones(k))) + MinimumWidth(f, f.groups[k]) + Width(f.t, f.separator)
  {
    var part := Render(f, f.groups[k], 1);
    assert GroupParts(f, Ones(k + 1)) == GroupParts(f, Ones(k)) + [part];
    PartsConcat(f.t, f.separator, GroupParts(f, Ones(k)), [part]);
    PartsOne(f.t, f.separator, part);
    RenderWidth(f, f.groups[k], 1);
    assert f.groups[k].items[..1] == [f.groups[k].items[0]];
    assert Join(f.itemSeparator, [f.groups[k].items[0]]) == f.groups[k].items[0];
  }

  /** The reservation is exact: what pass one compares is the width of the very line that shows k groups and "+K more". */
  lemma NarrowTotalIsLineWidth(f: Layout, k: nat)
    requires ValidLayout(f) && 0 < k <= |f.groups|
    ensures NarrowTotal(f, k) == LineWidth(f, Ones(k))
  {
    UsedIsParts(f, k);
    AssembleWidth(f, Ones(k));
    TailParts(f, |f.groups| - k);
  }

  lemma TailParts(f: Layout, hidden: nat)
    requires ValidTerminal(f.t)
    ensures TailWidth(f, hidden) == PartsWidth(f.t, f.separator, OverflowParts(f, hidden))
    ensures hidden > 0 ==> TailWidth(f, hidden) == Width(f.t, f.separator) + Width(f.t, f.more(hidden))
  {
    PartsOne(f.t, f.separator, f.more(hidden));
    WidthConcat(f.t, f.separator, f.more(hidden));
  }

  // ---- Pass one: which groups appear ----

  /** k is where the narrow line stops fitting: from the second group on everything shown fits, one more would not. */
  ghost predicate Packed(f: Layout, k: nat, budget: int)
    requires ValidLayout(f)
  {
    && 1 <= k <= |f.groups|
    && (forall j | 2 <= j <= k :: NarrowTotal(f, j) <= budget)
    && (k < |f.groups| ==> NarrowTotal(f, k + 1) > budget)
  }

  method PassOne(f: Layout, budget: int) returns (shown: nat, used: nat)
    requires ValidLayout(f)
    ensures Packed(f, shown, budget)
    ensures used == UsedWidth(f, shown)
  {
    shown := 0;
    used := Width(f.t, f.prefix) + PartsWidth(f.t, f.separator, f.clients);
    for index: nat := 0 to |f.groups|
      invariant shown == index && used == UsedWidth(f, shown)
      invariant forall j | 2 <= j <= shown :: NarrowTotal(f, j) <= budget
    {
      var group := f.groups[index];
      var separator := if shown > 0 then Width(f.t, f.separator) else 0;
      var remaining: nat := |f.groups| - index;
      var tail := if remaining > 1 then Width(f.t, f.separator + f.more(remaining - 1)) else 0;
      var width := Width(f.t, f.head(group)) + 1 + Width(f.t, group.items[0]);
      assert used + separator + width + tail == NarrowTotal(f, index + 1);
      if used + separator + width + tail > budget && shown > 0 {
        break;
      }
      used := used + separator + width;
      shown := shown + 1;
    }
  }

  // ---- Pass two: how many requests each shown group gets ----

  /** Where pass two ends, on costs alone: nothing shown could grow, and every step on the way was fair. */
  ghost predicate Grown(costs: Costs, shown: nat, budget: int, start: int, last: Growth, history: seq<Growth>) {
    && |last.counts| == shown && ValidCounts(costs, last.counts)
    && (start <= budget ==> last.total <= budget)
    && (start > budget ==> last == Growth(Ones(shown), start))
    && FairHistory(costs, budget, history) && history != []
    && history[0] == Growth(Ones(shown), start) && history[|history| - 1] == last
  }

  ghost predicate AllStopped(costs: Costs, budget: int, g: Growth, n: nat) {
    forall i: nat | i < n :: Stopped(costs, budget, g, i)
  }

  lemma GrownStarts(costs: Costs, shown: nat, budget: int, start: int)
    requires shown <= |costs| && forall i | 0 <= i < |costs| :: costs[i] != []
    ensures var first := Growth(Ones(shown), start);
      Grown(costs, shown, budget, start, first, [first]) && Sweeping(costs, budget, first, 0, 1)
  {
    SweepingIsFair(costs, budget, Growth(Ones(shown), start), 0, 1);
  }

  lemma GrownStep(costs: Costs, shown: nat, budget: int, start: int, last: Growth, next: Growth, history: seq<Growth>, i: nat, level: nat)
    requires Grown(costs, shown, budget, start, last, history) && Sweeping(costs, budget, last, i, level)
    requires GrowsAt(costs, budget, last, next, i)
    ensures Grown(costs, shown, budget, start, next, history + [next]) && Sweeping(costs, budget, next, i + 1, level)
    ensures Hidden(costs, next.counts) < Hidden(costs, last.counts)
  {
    hide FairHistory, Sweeping, Fair, Hidden;
    SweepGrows(costs, budget, last, next, i, level);
    assert GrowsByOne(costs, budget, last, next);
    HistoryGrows(costs, budget, history, next);
    HiddenShrinks(costs, last.counts, i);
  }

  lemma CostIs(f: Layout, i: nat, c: nat)
    requires i < |f.groups| && c < |f.groups[i].items|
    ensures |CostsOf(f)[i]| == |f.groups[i].items|
    ensures CostsOf(f)[i][c] == Width(f.t, f.itemSeparator) + Width(f.t, f.groups[i].items[c])
  {
    assert CostsOf(f)[i] == GroupCosts(f, f.groups[i]);
  }

  /** Inside a sweep that began at `was`: the groups before `at` have been visited, and `grew` says whether one of them grew. */
  ghost predicate Visited(costs: Costs, shown: nat, budget: int, start: int, was: Growth, g: Growth, history: seq<Growth>,
                          at: nat, level: nat, grew: bool) {
    && ValidCounts(costs, was.counts) && |g.counts| == shown <= |costs|
    && Grown(costs, shown, budget, start, g, history)
    && Sweeping(costs, budget, g, at, level)
    && (!grew ==> g == was && AllStopped(costs, budget, g, at))
    && (grew ==> Hidden(costs, g.counts) < Hidden(costs, was.counts))
  }

  lemma VisitStarts(costs: Costs, shown: nat, budget: int, start: int, g: Growth, history: seq<Growth>, level: nat)
    requires shown <= |costs| && BetweenSweeps(costs, shown, budget, start, g, history, level)
    ensures Visited(costs, shown, budget, start, g, g, history, 0, level, false)
  {
  }

  /** A group that cannot grow is passed over. */
  lemma VisitSkips(costs: Costs, shown: nat, budget: int, start: int, was: Growth, g: Growth, history: seq<Growth>,
                   at: nat, level: nat, grew: bool)
    requires Visited(costs, shown, budget, start, was, g, history, at, level, grew) && at < shown
    requires g.counts[at] >= |costs[at]| || g.total + costs[at][g.counts[at]] > budget
    ensures Visited(costs, shown, budget, start, was, g, history, at + 1, level, grew)
  {
    SweepSkips(costs, budget, g, at, level);
  }

  lemma VisitGrows(costs: Costs, shown: nat, budget: int, start: int, was: Growth, g: Growth, history: seq<Growth>,
                   at: nat, level: nat, grew: bool)
    requires Visited(costs, shown, budget, start, was, g, history, at, level, grew) && at < shown
    requires g.counts[at] < |costs[at]| && g.total + costs[at][g.counts[at]] <= budget
    ensures var next := Growth(g.counts[at := g.counts[at] + 1], g.total + costs[at][g.counts[at]]);
      Visited(costs, shown, budget, start, was, next, history + [next], at + 1, level, true)
  {
    var next := Growth(g.counts[at := g.counts[at] + 1], g.total + costs[at][g.counts[at]]);
    SweepTurn(costs, budget, g, at, level);
    GrownStep(costs, shown, budget, start, g, next, history, at, level);
  }

  /** A pass-two state between sweeps: every group that can still grow has shown `level` items. */
  ghost predicate BetweenSweeps(costs: Costs, shown: nat, budget: int, start: int, g: Growth, history: seq<Growth>, level: nat) {
    Grown(costs, shown, budget, start, g, history) && Sweeping(costs, budget, g, 0, level)
  }

  method PassTwo(f: Layout, shown: nat, budget: int, start: int)
    returns (counts: seq<nat>, total: int, ghost history: seq<Growth>)
    requires ValidLayout(f) && 0 < shown <= |f.groups|
    ensures Grown(CostsOf(f), shown, budget, start, Growth(counts, total), history)
    ensures AllStopped(CostsOf(f), budget, Growth(counts, total), shown)
  {
    ghost var costs := CostsOf(f);
    assert forall i | 0 <= i < |costs| :: |costs[i]| == |f.groups[i].items|;
    counts, total := Ones(shown), start;
    history := [Growth(counts, total)];
    GrownStarts(costs, shown, budget, start);
    var grew := true;
    ghost var level := 1;
    while grew
      invariant BetweenSweeps(costs, shown, budget, start, Growth(counts, total), history, level)
      invariant !grew ==> AllStopped(costs, budget, Growth(counts, total), shown)
      decreases Hidden(costs, counts), grew
    {
      counts, total, grew, history := Sweep(f, shown, budget, start, counts, total, history, level);
      level := level + 1;
    }
  }

  /** One round: each shown group in turn shows one more item if it has one and it fits. */
  method Sweep(f: Layout, shown: nat, budget: int, ghost start: int, counts: seq<nat>, total: int, ghost history: seq<Growth>, ghost level: nat)
    returns (counts': seq<nat>, total': int, grew: bool, ghost history': seq<Growth>)
    requires 0 < shown <= |f.groups|
    requires BetweenSweeps(CostsOf(f), shown, budget, start, Growth(counts, total), history, level)
    ensures BetweenSweeps(CostsOf(f), shown, budget, start, Growth(counts', total'), history', level + 1)
    ensures !grew ==> counts' == counts && AllStopped(CostsOf(f), budget, Growth(counts', total'), shown)
    ensures grew ==> Hidden(CostsOf(f), counts') < Hidden(CostsOf(f), counts)
  {
    hide Grown, Sweeping, AllStopped, ValidCounts, Hidden;
    ghost var costs, was := CostsOf(f), Growth(counts, total);
    counts', total', grew, history' := counts, total, false, history;
    VisitStarts(costs, shown, budget, start, was, history, level);
    for index: nat := 0 to shown
      invariant Visited(costs, shown, budget, start, was, Growth(counts', total'), history', index, level, grew)
    {
      var items, count := f.groups[index].items, counts'[index];
      assert |costs[index]| == |items|;
      if count >= |items| {
        VisitSkips(costs, shown, budget, start, was, Growth(counts', total'), history', index, level, grew);
        continue;
      }
      var cost := Width(f.t, f.itemSeparator) + Width(f.t, items[count]);
      CostIs(f, index, count);
      if total' + cost > budget {
        VisitSkips(costs, shown, budget, start, was, Growth(counts', total'), history', index, level, grew);
        continue;
      }
      VisitGrows(costs, shown, budget, start, was, Growth(counts', total'), history', index, level, grew);
      total' := total' + cost;
      counts' := counts'[index := count + 1];
      history' := history' + [Growth(counts', total')];
      grew := true;
    }
    SweepEnds(costs, budget, Growth(counts', total'), level);
  }

  /** All along the run the running total is the width of the line that would be drawn. */
  lemma {:induction false} TotalIsLineWidth(f: Layout, budget: int, history: seq<Growth>, n: nat)
    requires ValidLayout(f) && FairHistory(CostsOf(f), budget, history) && n < |history|
    requires history[0].counts != [] && Showing(f, history[0].counts) && history[0].total == LineWidth(f, history[0].counts)
    ensures Showing(f, history[n].counts) && history[n].total == LineWidth(f, history[n].counts)
  {
    hide LineWidth, Showing, FairHistory, GrowsAt, CostsOf;
    if n > 0 {
      var a, b := history[n - 1], history[n - 1 + 1];
      TotalIsLineWidth(f, budget, history, n - 1);
      var i := HistoryStep(CostsOf(f), budget, history, n - 1);
      StepIsLineWidth(f, budget, a, b, i);
    }
  }

  lemma StepIsLineWidth(f: Layout, budget: int, a: Growth, b: Growth, i: nat)
    requires ValidTerminal(f.t) && GrowsAt(CostsOf(f), budget, a, b, i)
    requires Showing(f, a.counts) && a.total == LineWidth(f, a.counts)
    ensures Showing(f, b.counts) && b.total == LineWidth(f, b.counts)
  {
    assert CostsOf(f)[i] == GroupCosts(f, f.groups[i]);
    LineGrows(f, a.counts, i);
  }

  // ---- The whole line ----

  predicate IsControl(c: char) {
    c < ' ' || c == '\U{7f}'
  }

  function Strip(line: string): string {
    StripFirst(line, |line|)
  }

  function StripFirst(line: string, n: nat): string
    requires n <= |line|
  {
    if n == 0 then "" else StripFirst(line, n - 1) + if IsControl(line[n - 1]) then "" else [line[n - 1]]
  }

  /** Control characters out, then cut to one column less than the terminal has, if it is too wide. */
  function Finalize(t: Terminal, line: string, columns: int): string {
    var stripped := Strip(line);
    var limit := Max(0, columns - 1);
    if Width(t, stripped) <= limit then stripped else t.crop(stripped, limit)
  }

  lemma {:induction false} StripNarrows(t: Terminal, line: string, n: nat)
    requires ValidTerminal(t) && n <= |line|
    ensures Width(t, StripFirst(line, n)) <= Width(t, line[..n])
  {
    if n > 0 {
      StripNarrows(t, line, n - 1);
      assert line[..n] == line[..n - 1] + [line[n - 1]];
      WidthConcat(t, line[..n - 1], [line[n - 1]]);
      WidthConcat(t, StripFirst(line, n - 1), if IsControl(line[n - 1]) then "" else [line[n - 1]]);
      WidthConcat(t, "", "");
      assert "" + "" == "";
    } else {
      assert line[..0] == "";
    }
  }

  /** Whatever comes in, the final line fits the terminal with a column to spare. */
  lemma FinalLineFits(t: Terminal, line: string, columns: int)
    requires ValidTerminal(t)
    ensures Width(t, Finalize(t, line, columns)) <= Max(0, columns - 1)
  {
  }

  /** A line that fits is only stripped of its control characters. */
  lemma NothingCut(t: Terminal, line: string, columns: int)
    requires ValidTerminal(t) && Width(t, line) <= columns - 1
    ensures Finalize(t, line, columns) == Strip(line)
  {
    StripNarrows(t, line, |line|);
    assert line[..|line|] == line;
  }

  function LayoutFor(t: Terminal, groups: seq<Group>, draining: bool, connections: int): Layout {
    Layout(t, if draining then "[DRIN] " else "[<-->] ", " | ", ", ", Head, More,
           if connections > 0 then [Decimal(connections) + " clients"] else [], groups)
  }

  /** What the footer is, when there are groups to show. */
  ghost predicate FooterLine(f: Layout, columns: int, line: string, counts: seq<nat>, history: seq<Growth>)
    requires ValidLayout(f)
  {
    && Packed(f, |counts|, columns - 1)
    && Showing(f, counts)
    && line == Finalize(f.t, Assemble(f, counts), columns)
    && var last := Growth(counts, LineWidth(f, counts));
    && Grown(CostsOf(f), |counts|, columns - 1, NarrowTotal(f, |counts|), last, history)
    && AllStopped(CostsOf(f), columns - 1, last, |counts|)
  }

  ghost predicate IsFooterLine(f: Layout, columns: int, line: string)
    requires ValidLayout(f)
  {
    exists counts, history :: FooterLine(f, columns, line, counts, history)
  }

  /** There is exactly one such line: the widths alone decide which groups and how many of their requests appear. */
  lemma FooterLineIsUnique(f: Layout, columns: int, a: string, b: string)
    requires ValidLayout(f) && IsFooterLine(f, columns, a) && IsFooterLine(f, columns, b)
    ensures a == b
  {
    hide FairHistory, Ended, Packed, CostsOf, NarrowTotal, Grown, Showing, AllStopped, LineWidth, Finalize, Assemble;
    var costs, budget := CostsOf(f), columns - 1;
    var counts, history :| FooterLine(f, columns, a, counts, history);
    var counts', history' :| FooterLine(f, columns, b, counts', history');
    PackedIsUnique(f, |counts|, |counts'|, budget);
    EndedRun(f, columns, a, counts, history);
    EndedRun(f, columns, b, counts', history');
    HistoryIsUnique(costs, budget, history, history');
  }

  lemma PackedIsUnique(f: Layout, k: nat, m: nat, budget: int)
    requires ValidLayout(f) && Packed(f, k, budget) && Packed(f, m, budget)
    ensures k == m
  {
  }

  lemma EndedRun(f: Layout, columns: int, line: string, counts: seq<nat>, history: seq<Growth>)
    requires ValidLayout(f) && FooterLine(f, columns, line, counts, history)
    ensures FairHistory(CostsOf(f), columns - 1, history) && history != []
    ensures history[0] == Growth(Ones(|counts|), NarrowTotal(f, |counts|))
    ensures history[|history| - 1].counts == counts && Ended(CostsOf(f), columns - 1, history[|history| - 1])
  {
    hide Stopped, FairHistory;
  }

  /** The footer for the groups of the requests in flight (none when there are none). */
  method BuildFooter(t: Terminal, groups: seq<Group>, columns: int, draining: bool, connections: int)
    returns (line: string)
    requires ValidTerminal(t) && forall i | 0 <= i < |groups| :: groups[i].items != []
    ensures var f := LayoutFor(t, groups, draining, connections);
      if groups != [] then IsFooterLine(f, columns, line)
      else if connections > 0 then line == Finalize(t, f.prefix + f.clients[0], columns)
      else line == ""
  {
    if groups == [] && connections <= 0 {
      return "";
    }
    var f := LayoutFor(t, groups, draining, connections);
    if groups == [] {
      return Finalize(t, f.prefix + Join(f.separator, f.clients), columns);
    }
    line := LayOut(f, columns);
  }

  method LayOut(f: Layout, columns: int) returns (line: string)
    requires ValidLayout(f)
    ensures IsFooterLine(f, columns, line)
  {
    hide Grown, AllStopped, FairHistory, LineWidth, UsedWidth, PartsWidth, CostsOf, Finalize;
    var budget := columns - 1;
    var shown, used := PassOne(f, budget);
    var overflow: nat := |f.groups| - shown;
    TailParts(f, overflow);
    var start := used + if overflow > 0 then Width(f.t, f.separator) + Width(f.t, f.more(overflow)) else 0;
    var counts, total, history := PassTwo(f, shown, budget, start);
    GrownLine(f, shown, budget, start, Growth(counts, total), history);
    line := Finalize(f.t, Assemble(f, counts), columns);
    assert FooterLine(f, columns, line, counts, history);
  }

  lemma GrownLine(f: Layout, shown: nat, budget: int, start: int, last: Growth, history: seq<Growth>)
    requires ValidLayout(f) && 0 < shown <= |f.groups| && start == NarrowTotal(f, shown)
    requires Grown(CostsOf(f), shown, budget, start, last, history)
    ensures Showing(f, last.counts) && last.total == LineWidth(f, last.counts)
  {
    NarrowTotalIsLineWidth(f, shown);
    TotalIsLineWidth(f, budget, history, |history| - 1);
  }

  /** Whenever two groups are shown, or the first fits with its tail, the line fits and nothing is cut from it. */
  lemma ShownInFull(f: Layout, columns: int, line: string, counts: seq<nat>, history: seq<Growth>)
    requires ValidLayout(f) && FooterLine(f, columns, line, counts, history)
    requires |counts| >= 2 || LineWidth(f, Ones(1)) <= columns - 1
    ensures LineWidth(f, counts) <= columns - 1 && line == Strip(Assemble(f, counts))
  {
    NarrowTotalIsLineWidth(f, 1);
    NothingCut(f.t, Assemble(f, counts), columns);
  }

  /** No hidden item of any shown group would fit. */
  lemma NoMoreItemsFit(f: Layout, columns: int, line: string, counts: seq<nat>, history: seq<Growth>, i: nat)
    requires ValidLayout(f) && FooterLine(f, columns, line, counts, history)
    requires i < |counts| && counts[i] < |f.groups[i].items|
    ensures Showing(f, counts[i := counts[i] + 1])
    ensures LineWidth(f, counts[i := counts[i] + 1]) > columns - 1
  {
    assert CostsOf(f)[i] == GroupCosts(f, f.groups[i]);
    assert Stopped(CostsOf(f), columns - 1, Growth(counts, LineWidth(f, counts)), i);
    LineGrows(f, counts, i);
  }

  /** No further group would have fitted, even with every group at its narrowest. */
  lemma NoMoreGroupsFit(f: Layout, columns: int, line: string, counts: seq<nat>, history: seq<Growth>)
    requires ValidLayout(f) && FooterLine(f, columns, line, counts, history)
    requires |counts| < |f.groups|
    ensures Showing(f, Ones(|counts| + 1)) && LineWidth(f, Ones(|counts| + 1)) > columns - 1
  {
    NarrowTotalIsLineWidth(f, |counts| + 1);
  }
}
