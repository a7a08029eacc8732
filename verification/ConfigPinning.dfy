// Reloading the configuration: what may only change with a restart keeps its startup value, is
// reported, and the rest takes effect.
module ConfigPinning {
  import opened Wrappers
  import opened ConfigTree

  datatype Segment = Star | Key(name: string)

  type Pattern = seq<Segment>

  /** The restart-only patterns, and the fields that are restart-only for providers of one type. */
  datatype Rules = Rules(patterns: seq<Pattern>, scoped: map<string, seq<string>>)

  const PROVIDERS := "model_providers"
  const DEFAULT_PROVIDER := "default_model_provider"
  const TYPE := "type"

  /** In which order keys are taken; any order that takes each once will do. */
  type Order = set<string> -> seq<string>

  ghost predicate Enumerates(order: Order) {
    forall keys {:trigger order(keys)} ::
      (forall k :: k in order(keys) <==> k in keys) && forall i, j | 0 <= i < j < |order(keys)| :: order(keys)[i] != order(keys)[j]
  }

  predicate Fits(segment: Segment, key: string) {
    segment == Star || segment == Key(key)
  }

  predicate FitsPattern(pattern: Pattern, path: Path) {
    |path| == |pattern| && forall i | 0 <= i < |path| :: Fits(pattern[i], path[i])
  }

  /** Two patterns that some key tells apart. */
  predicate Clash(p: Pattern, q: Pattern) {
    exists i | 0 <= i < |p| && i < |q| :: p[i].Key? && q[i].Key? && p[i] != q[i]
  }

  /** No pattern lies above another, nor above a provider's field; the provider type is among them. */
  ghost predicate ValidRules(rules: Rules) {
    && (forall i | 0 <= i < |rules.patterns| :: rules.patterns[i] != [])
    && (forall i, j | 0 <= i < |rules.patterns| && 0 <= j < |rules.patterns| && |rules.patterns[i]| < |rules.patterns[j]| ::
          Clash(rules.patterns[i], rules.patterns[j]))
    && (forall i | 0 <= i < |rules.patterns| && Fits(rules.patterns[i][0], PROVIDERS) :: |rules.patterns[i]| >= 3)
    && [Key(PROVIDERS), Star, Key(TYPE)] in rules.patterns
  }

  // ---- Expanding a pattern ----

  function Prefixed(key: string, paths: seq<Path>): (longer: seq<Path>)
    ensures |longer| == |paths| && forall i | 0 <= i < |paths| :: longer[i] == [key] + paths[i]
  {
    seq(|paths|, i requires 0 <= i < |paths| => [key] + paths[i])
  }

  function ExpandKeys(order: Order, pattern: Pattern, t: Tree, keys: seq<string>, n: nat): seq<Path>
    requires pattern != [] && n <= |keys|
    decreases |pattern|, n
  {
    if n == 0 then []
    else if keys[n - 1] in Entries(t) then
      ExpandKeys(order, pattern, t, keys, n - 1)
      + Prefixed(keys[n - 1], Expand(order, pattern[1..], Entries(t)[keys[n - 1]]))
    else ExpandKeys(order, pattern, t, keys, n - 1)
  }

  /** The paths of t that the pattern stands for. */
  function Expand(order: Order, pattern: Pattern, t: Tree): seq<Path>
    decreases |pattern|
  {
    if pattern == [] then [[]]
    else
      var keys := if pattern[0].Star? then order(Entries(t).Keys) else [pattern[0].name];
      ExpandKeys(order, pattern, t, keys, |keys|)
  }

  lemma {:induction false} KeysExpand(order: Order, pattern: Pattern, t: Tree, keys: seq<string>, n: nat, path: Path)
    requires Enumerates(order) && pattern != [] && n <= |keys|
    ensures path in ExpandKeys(order, pattern, t, keys, n) <==>
      path != [] && path[0] in keys[..n] && path[0] in Entries(t) && FitsPattern(pattern[1..], path[1..]) && Present(Entries(t)[path[0]], path[1..])
    decreases |pattern|, n
  {
    if n > 0 {
      KeysExpand(order, pattern, t, keys, n - 1, path);
      assert keys[..n] == keys[..n - 1] + [keys[n - 1]];
      if keys[n - 1] in Entries(t) {
        var child := Entries(t)[keys[n - 1]];
        var below := Expand(order, pattern[1..], child);
        if path != [] {
          ExpandsTo(order, pattern[1..], child, path[1..]);
          PrefixedHas(keys[n - 1], below, path);
        } else {
          PrefixedHas(keys[n - 1], below, path);
        }
      }
    }
  }

  lemma PrefixedHas(key: string, paths: seq<Path>, path: Path)
    ensures path in Prefixed(key, paths) <==> path != [] && path[0] == key && path[1..] in paths
  {
    if path != [] && path[0] == key && path[1..] in paths {
      var i :| 0 <= i < |paths| && paths[i] == path[1..];
      assert Prefixed(key, paths)[i] == [key] + path[1..] == path;
    }
    if path in Prefixed(key, paths) {
      var i :| 0 <= i < |paths| && Prefixed(key, paths)[i] == path;
      assert path[1..] == paths[i];
    }
  }

  /** Expansion finds exactly the paths that fit the pattern and are there. */
  lemma {:induction false} ExpandsTo(order: Order, pattern: Pattern, t: Tree, path: Path)
    requires Enumerates(order)
    ensures path in Expand(order, pattern, t) <==> FitsPattern(pattern, path) && Present(t, path)
    decreases |pattern|
  {
    if pattern != [] {
      var keys := if pattern[0].Star? then order(Entries(t).Keys) else [pattern[0].name];
      KeysExpand(order, pattern, t, keys, |keys|, path);
      assert keys[..|keys|] == keys;
      FitsFirst(pattern, path);
    }
  }

  lemma FitsFirst(pattern: Pattern, path: Path)
    requires pattern != []
    ensures FitsPattern(pattern, path) <==> path != [] && Fits(pattern[0], path[0]) && FitsPattern(pattern[1..], path[1..])
  {
    if path != [] && |path| == |pattern| && FitsPattern(pattern[1..], path[1..]) && Fits(pattern[0], path[0]) {
      forall i | 0 <= i < |path| ensures Fits(pattern[i], path[i]) {
        if i > 0 { assert Fits(pattern[1..][i - 1], path[1..][i - 1]); }
      }
    }
  }

  // ---- What gets pinned, in order ----

  function Providers(t: Tree): map<string, Tree> {
    Entries(Read(t, [PROVIDERS]))
  }

  function TypeOf(t: Tree, name: string): string {
    match Read(t, [PROVIDERS, name, TYPE])
    case Text(text) => text
    case _ => ""
  }

  /** A provider came, went, or is of another type. */
  predicate GraphChanged(startup: Tree, t: Tree, name: string) {
    var was, now := Read(startup, [PROVIDERS, name]), Read(t, [PROVIDERS, name]);
    was == Null || now == Null || TypeOf(startup, name) != TypeOf(t, name)
  }

  function TreeAfter(startup: Tree, t: Tree, targets: seq<Target>): Tree {
    PinAll(startup, t, targets, |targets|).tree
  }

  function GraphTargets(startup: Tree, t: Tree, names: seq<string>, n: nat): seq<Target>
    requires n <= |names|
  {
    if n == 0 then []
    else
      var before := GraphTargets(startup, t, names, n - 1);
      if GraphChanged(startup, TreeAfter(startup, t, before), names[n - 1]) then before + [Target([PROVIDERS, names[n - 1]], true)]
      else before
  }

  function FieldTargets(name: string, fields: seq<string>): (targets: seq<Target>)
    ensures |targets| == |fields| && forall i | 0 <= i < |fields| :: targets[i] == Target([PROVIDERS, name, fields[i]], false)
  {
    seq(|fields|, i requires 0 <= i < |fields| => Target([PROVIDERS, name, fields[i]], false))
  }

  function ScopedFields(rules: Rules, providerType: string): seq<string> {
    if providerType in rules.scoped then rules.scoped[providerType] else []
  }

  function ScopedTargets(rules: Rules, startup: Tree, names: seq<string>, n: nat): seq<Target>
    requires n <= |names|
  {
    if n == 0 then []
    else ScopedTargets(rules, startup, names, n - 1) + FieldTargets(names[n - 1], ScopedFields(rules, TypeOf(startup, names[n - 1])))
  }

  function PathTargets(paths: seq<Path>): (targets: seq<Target>)
    ensures |targets| == |paths| && forall i | 0 <= i < |paths| :: targets[i] == Target(paths[i], false)
  {
    seq(|paths|, i requires 0 <= i < |paths| => Target(paths[i], false))
  }

  function PatternTargets(rules: Rules, order: Order, startup: Tree, t: Tree, before: seq<Target>, n: nat): seq<Target>
    requires n <= |rules.patterns|
  {
    if n == 0 then before
    else
      var targets := PatternTargets(rules, order, startup, t, before, n - 1);
      var pattern := rules.patterns[n - 1];
      targets + PathTargets(Expand(order, pattern, startup) + Expand(order, pattern, TreeAfter(startup, t, targets)))
  }

  function AllNames(order: Order, startup: Tree, t: Tree): seq<string> {
    order(Providers(startup).Keys + Providers(t).Keys)
  }

  function CommonNames(order: Order, startup: Tree, t: Tree): seq<string> {
    order(Providers(startup).Keys * Providers(t).Keys)
  }

  function GraphPhase(order: Order, startup: Tree, t: Tree): seq<Target> {
    var names := AllNames(order, startup, t);
    var graph := GraphTargets(startup, t, names, |names|);
    if graph == [] then [] else graph + [Target([DEFAULT_PROVIDER], false)]
  }

  function ScopedPhase(rules: Rules, order: Order, startup: Tree, t: Tree): seq<Target> {
    var graph := GraphPhase(order, startup, t);
    var names := CommonNames(order, startup, TreeAfter(startup, t, graph));
    graph + ScopedTargets(rules, startup, names, |names|)
  }

  function Targets(rules: Rules, order: Order, startup: Tree, t: Tree): seq<Target> {
    PatternTargets(rules, order, startup, t, ScopedPhase(rules, order, startup, t), |rules.patterns|)
  }

  /** The configuration that takes effect, and the paths whose new values were discarded. */
  function PinRestartOnly(rules: Rules, order: Order, startup: Tree, candidate: Tree): Pinned {
    var targets := Targets(rules, order, startup, candidate);
    PinAll(startup, candidate, targets, |targets|)
  }

  // ---- Targets are taken top down ----

  /** The kinds of targets. */
  ghost predicate IsKind(rules: Rules, path: Path) {
    || (|path| == 2 && path[0] == PROVIDERS)
    || path == [DEFAULT_PROVIDER]
    || (|path| == 3 && path[0] == PROVIDERS)
    || exists i | 0 <= i < |rules.patterns| :: FitsPattern(rules.patterns[i], path)
  }

  ghost predicate Kinds(rules: Rules, targets: seq<Target>) {
    forall i | 0 <= i < |targets| :: IsKind(rules, targets[i].path)
  }

  lemma ClashingNeverAbove(a: Pattern, b: Pattern, p: Path, q: Path)
    requires FitsPattern(a, p) && FitsPattern(b, q) && Clash(a, b)
    ensures !(p <= q)
  {
    var k :| 0 <= k < |a| && k < |b| && a[k].Key? && b[k].Key? && a[k] != b[k];
    assert Fits(a[k], p[k]) && Fits(b[k], q[k]);
    assert p[k] != q[k];
  }

  /** A pattern's path never lies above any target. */
  lemma PatternNeverAbove(rules: Rules, p: Path, q: Path, i: nat)
    requires ValidRules(rules) && i < |rules.patterns| && FitsPattern(rules.patterns[i], p) && IsKind(rules, q)
    ensures p <= q ==> p == q
  {
    var pattern := rules.patterns[i];
    assert Fits(pattern[0], p[0]);
    if j :| 0 <= j < |rules.patterns| && FitsPattern(rules.patterns[j], q) {
      if |p| < |q| {
        ClashingNeverAbove(pattern, rules.patterns[j], p, q);
      }
    } else {
      assert p[0] == PROVIDERS ==> |p| >= 3;
    }
  }

  lemma TopDownGrows(targets: seq<Target>, more: seq<Target>)
    requires TopDown(targets) && TopDown(more)
    requires forall i, j | 0 <= i < |targets| && 0 <= j < |more| :: targets[i].path <= more[j].path || !Related(targets[i].path, more[j].path)
    ensures TopDown(targets + more)
  {
  }

  lemma {:induction false} GraphKinds(rules: Rules, startup: Tree, t: Tree, names: seq<string>, n: nat)
    requires n <= |names|
    ensures forall i | 0 <= i < |GraphTargets(startup, t, names, n)| ::
      |GraphTargets(startup, t, names, n)[i].path| == 2 && GraphTargets(startup, t, names, n)[i].path[0] == PROVIDERS
  {
    hide GraphChanged;
    if n > 0 { GraphKinds(rules, startup, t, names, n - 1); }
  }

  lemma {:induction false} ScopedKinds(rules: Rules, startup: Tree, names: seq<string>, n: nat)
    requires n <= |names|
    ensures forall i | 0 <= i < |ScopedTargets(rules, startup, names, n)| ::
      |ScopedTargets(rules, startup, names, n)[i].path| == 3 && ScopedTargets(rules, startup, names, n)[i].path[0] == PROVIDERS
  {
    if n > 0 { ScopedKinds(rules, startup, names, n - 1); }
  }

  /** Paths of one length never lie above one another. */
  lemma SameLengthTopDown(targets: seq<Target>, length: nat)
    requires forall i | 0 <= i < |targets| :: |targets[i].path| == length
    ensures TopDown(targets)
  {
  }

  lemma GraphPhaseKinds(rules: Rules, order: Order, startup: Tree, t: Tree)
    ensures var targets := GraphPhase(order, startup, t); TopDown(targets) && Kinds(rules, targets)
    ensures forall i | 0 <= i < |GraphPhase(order, startup, t)| :: |GraphPhase(order, startup, t)[i].path| <= 2
  {
    hide GraphChanged, GraphTargets;
    var names := AllNames(order, startup, t);
    var graph := GraphTargets(startup, t, names, |names|);
    GraphKinds(rules, startup, t, names, |names|);
    SameLengthTopDown(graph, 2);
    assert [DEFAULT_PROVIDER][0] != PROVIDERS;
    TopDownGrows(graph, [Target([DEFAULT_PROVIDER], false)]);
  }

  lemma ScopedPhaseKinds(rules: Rules, order: Order, startup: Tree, t: Tree)
    ensures var targets := ScopedPhase(rules, order, startup, t); TopDown(targets) && Kinds(rules, targets)
  {
    hide GraphPhase, ScopedTargets;
    var graph := GraphPhase(order, startup, t);
    var names := CommonNames(order, startup, TreeAfter(startup, t, graph));
    GraphPhaseKinds(rules, order, startup, t);
    ScopedKinds(rules, startup, names, |names|);
    SameLengthTopDown(ScopedTargets(rules, startup, names, |names|), 3);
    TopDownGrows(graph, ScopedTargets(rules, startup, names, |names|));
  }

  lemma {:induction false} PatternKinds(rules: Rules, order: Order, startup: Tree, t: Tree, before: seq<Target>, n: nat)
    requires Enumerates(order) && ValidRules(rules) && n <= |rules.patterns| && TopDown(before) && Kinds(rules, before)
    ensures var targets := PatternTargets(rules, order, startup, t, before, n); TopDown(targets) && Kinds(rules, targets)
  {
    hide Expand, ValidRules, FitsPattern;
    if n > 0 {
      PatternKinds(rules, order, startup, t, before, n - 1);
      var targets := PatternTargets(rules, order, startup, t, before, n - 1);
      var paths := Expand(order, rules.patterns[n - 1], startup) + Expand(order, rules.patterns[n - 1], TreeAfter(startup, t, targets));
      PathsKinds(rules, order, startup, TreeAfter(startup, t, targets), n - 1, targets, paths);
      hide IsKind, TopDown;
      TopDownGrows(targets, PathTargets(paths));
    }
  }

  lemma PathsKinds(rules: Rules, order: Order, startup: Tree, t: Tree, n: nat, targets: seq<Target>, paths: seq<Path>)
    requires Enumerates(order) && ValidRules(rules) && n < |rules.patterns| && Kinds(rules, targets)
    requires paths == Expand(order, rules.patterns[n], startup) + Expand(order, rules.patterns[n], t)
    ensures TopDown(PathTargets(paths)) && Kinds(rules, PathTargets(paths))
    ensures forall i, j | 0 <= i < |targets| && 0 <= j < |paths| ::
      targets[i].path <= PathTargets(paths)[j].path || !Related(targets[i].path, PathTargets(paths)[j].path)
  {
    hide Expand, ValidRules, IsKind;
    forall j | 0 <= j < |paths| ensures FitsPattern(rules.patterns[n], paths[j]) {
      ExpandsTo(order, rules.patterns[n], startup, paths[j]);
      ExpandsTo(order, rules.patterns[n], t, paths[j]);
      assert paths[j] in Expand(order, rules.patterns[n], startup) || paths[j] in Expand(order, rules.patterns[n], t);
    }
    SameLengthTopDown(PathTargets(paths), |rules.patterns[n]|);
    forall j | 0 <= j < |paths| ensures IsKind(rules, paths[j]) {
      PatternIsKind(rules, paths[j], n);
    }
    forall i, j | 0 <= i < |targets| && 0 <= j < |paths| ensures paths[j] <= targets[i].path ==> paths[j] == targets[i].path {
      PatternNeverAbove(rules, paths[j], targets[i].path, n);
    }
  }

  lemma PatternIsKind(rules: Rules, path: Path, n: nat)
    requires n < |rules.patterns| && FitsPattern(rules.patterns[n], path)
    ensures IsKind(rules, path)
  {
  }

  lemma TargetsAreTopDown(rules: Rules, order: Order, startup: Tree, t: Tree)
    requires Enumerates(order) && ValidRules(rules)
    ensures TopDown(Targets(rules, order, startup, t)) && Kinds(rules, Targets(rules, order, startup, t))
  {
    hide ScopedPhase, PatternTargets, TopDown, Kinds;
    ScopedPhaseKinds(rules, order, startup, t);
    PatternKinds(rules, order, startup, t, ScopedPhase(rules, order, startup, t), |rules.patterns|);
  }
}
