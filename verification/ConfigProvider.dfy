// Pinning again changes nothing, and what a process uses depends on its start and its last good
// reload alone.
module ConfigProvider {
  import opened Wrappers
  import opened ConfigTree
  import opened ConfigPinning
  import opened ConfigReload

  // ---- The providers of the result are those of the start ----

  ghost predicate DictIfPresent(t: Tree, name: string) {
    Present(t, EntryPath(name)) ==> Read(t, EntryPath(name)).Dict?
  }

  /** The provider is there exactly if it was at startup, as a dictionary. */
  ghost predicate EntryOk(startup: Tree, t: Tree, name: string) {
    DictIfPresent(t, name) && (Present(t, EntryPath(name)) <==> Present(startup, EntryPath(name)))
  }

  ghost predicate Aligned(startup: Tree, t: Tree) {
    forall name {:trigger EntryOk(startup, t, name)} :: EntryOk(startup, t, name)
  }

  lemma PresentIsRead(t: Tree, name: string)
    requires DictIfPresent(t, name)
    ensures Present(t, EntryPath(name)) <==> Read(t, EntryPath(name)) != Null
  {
    EntryRead(t, name);
  }

  lemma ValidEntries(t: Tree, name: string)
    requires ValidConfig(t)
    ensures DictIfPresent(t, name)
  {
    EntryRead(t, name);
  }

  /** The part of the graph phase that deals with one name. */
  lemma GraphStepAligns(startup: Tree, t: Tree, name: string)
    requires DictIfPresent(startup, name) && DictIfPresent(t, name)
    ensures var p := PinOne(startup, Pinned(t, {}), Target(EntryPath(name), true));
      EntryOk(startup, if GraphChanged(startup, t, name) then p.tree else t, name)
  {
    PresentIsRead(startup, name);
    PresentIsRead(t, name);
    PinReads(startup, t, Target(EntryPath(name), true));
    if Read(startup, EntryPath(name)) == Null {
      RemoveTakes(t, EntryPath(name));
    } else {
      WritePuts(t, EntryPath(name), Read(startup, EntryPath(name)));
    }
  }

  lemma PinOneSpares(startup: Tree, t: Tree, target: Target, name: string)
    requires !Related(target.path, EntryPath(name))
    ensures SameAt(PinOne(startup, Pinned(t, {}), target).tree, t, EntryPath(name))
  {
    PinSpares(startup, t, target, EntryPath(name));
  }

  lemma PinOneTree(startup: Tree, p: Pinned, target: Target)
    ensures PinOne(startup, p, target).tree == PinOne(startup, Pinned(p.tree, {}), target).tree
  {
  }

  lemma SameEntry(startup: Tree, a: Tree, b: Tree, name: string)
    requires SameAt(a, b, EntryPath(name))
    ensures DictIfPresent(a, name) == DictIfPresent(b, name) && EntryOk(startup, a, name) == EntryOk(startup, b, name)
  {
  }

  /** After n names: those are as at startup, the others as in the candidate. */
  ghost predicate GraphAligned(startup: Tree, t: Tree, after: Tree, names: seq<string>, n: nat)
    requires n <= |names|
  {
    forall name {:trigger EntryOk(startup, after, name)} ::
      DictIfPresent(after, name) && if name in names[..n] then EntryOk(startup, after, name) else SameAt(after, t, EntryPath(name))
  }

  lemma {:induction false} GraphAligns(startup: Tree, t: Tree, names: seq<string>, n: nat)
    requires n <= |names| && ValidConfig(startup) && ValidConfig(t)
    ensures GraphAligned(startup, t, TreeAfter(startup, t, GraphTargets(startup, t, names, n)), names, n)
  {
    hide GraphChanged, PinOne, Read, Present, ValidConfig;
    if n == 0 {
      var after := TreeAfter(startup, t, GraphTargets(startup, t, names, n));
      forall name
        ensures DictIfPresent(after, name) && if name in names[..n] then EntryOk(startup, after, name) else SameAt(after, t, EntryPath(name))
      {
        ValidEntries(t, name);
        SameTransitive(after, t, t, EntryPath(name));
      }
    } else {
      GraphAligns(startup, t, names, n - 1);
      var before := GraphTargets(startup, t, names, n - 1);
      var u, last := TreeAfter(startup, t, before), names[n - 1];
      var after := TreeAfter(startup, t, GraphTargets(startup, t, names, n));
      var target := Target(EntryPath(last), true);
      PinAppend(startup, t, before, target);
      PinOneTree(startup, PinAll(startup, t, before, |before|), target);
      assert after == if GraphChanged(startup, u, last) then PinOne(startup, Pinned(u, {}), target).tree else u;
      assert names[..n] == names[..n - 1] + [last];
      forall name
        ensures DictIfPresent(after, name) && if name in names[..n] then EntryOk(startup, after, name) else SameAt(after, t, EntryPath(name))
      {
        assert EntryOk(startup, u, name) || !EntryOk(startup, u, name);
        if name == last {
          ValidEntries(startup, last);
          GraphStepAligns(startup, u, last);
        } else {
          EntriesUnrelated(last, name);
          PinOneSpares(startup, u, target, name);
          SameEntry(startup, after, u, name);
          SameTransitive(after, u, t, EntryPath(name));
        }
      }
    }
  }

  lemma EntriesUnrelated(a: string, b: string)
    requires a != b
    ensures !Related(EntryPath(a), EntryPath(b))
  {
    assert EntryPath(a)[1] != EntryPath(b)[1];
  }

  lemma SameTransitive(a: Tree, b: Tree, c: Tree, q: Path)
    ensures SameAt(a, b, q) && SameAt(b, c, q) ==> SameAt(a, c, q)
    ensures SameAt(a, a, q)
  {
  }

  lemma GraphPhaseAligns(order: Order, startup: Tree, t: Tree)
    requires Enumerates(order) && ValidConfig(startup) && ValidConfig(t)
    ensures Aligned(startup, TreeAfter(startup, t, GraphPhase(order, startup, t)))
  {
    hide GraphTargets, ValidConfig, PinOne, Read, Present;
    var names := AllNames(order, startup, t);
    var graph := GraphTargets(startup, t, names, |names|);
    GraphAligns(startup, t, names, |names|);
    assert names[..|names|] == names;
    var u, selector := TreeAfter(startup, t, graph), Target([DEFAULT_PROVIDER], false);
    PinAppend(startup, t, graph, selector);
    PinOneTree(startup, PinAll(startup, t, graph, |graph|), selector);
    var after := TreeAfter(startup, t, GraphPhase(order, startup, t));
    forall name ensures EntryOk(startup, after, name) {
      assert EntryOk(startup, u, name) || !EntryOk(startup, u, name);
      if name !in names {
        EntryRead(startup, name);
        EntryRead(t, name);
      }
      assert !Related(selector.path, EntryPath(name)) by { assert [DEFAULT_PROVIDER][0] != PROVIDERS; }
      PinOneSpares(startup, u, selector, name);
      SameEntry(startup, PinOne(startup, Pinned(u, {}), selector).tree, u, name);
    }
  }

  /** A later target: outside the providers, or inside one that was there at startup. */
  ghost predicate Known(startup: Tree, target: Target) {
    && !target.removes && target.path != []
    && (target.path[0] == PROVIDERS ==> |target.path| >= 3 && Present(startup, EntryPath(target.path[1])))
  }

  lemma KnownKeeps(startup: Tree, t: Tree, target: Target, name: string)
    requires Known(startup, target) && EntryOk(startup, t, name)
    ensures EntryOk(startup, PinOne(startup, Pinned(t, {}), target).tree, name)
  {
    if target.path[0] == PROVIDERS && target.path[1] == name {
      assert EntryPath(name) == target.path[..2] <= target.path;
      WriteBelow(t, target.path, Read(startup, target.path), EntryPath(name));
    } else {
      assert !Related(target.path, EntryPath(name));
      PinOneSpares(startup, t, target, name);
      SameEntry(startup, PinOne(startup, Pinned(t, {}), target).tree, t, name);
    }
  }

  lemma {:induction false} KnownRunAligns(startup: Tree, t: Tree, targets: seq<Target>, m: nat, n: nat)
    requires m <= n <= |targets| && Aligned(startup, PinAll(startup, t, targets, m).tree)
    requires forall i | m <= i < n :: Known(startup, targets[i])
    ensures Aligned(startup, PinAll(startup, t, targets, n).tree)
  {
    hide EntryOk, Known, PinOne;
    if m < n {
      KnownRunAligns(startup, t, targets, m, n - 1);
      var before := PinAll(startup, t, targets, n - 1);
      PinOneTree(startup, before, targets[n - 1]);
      forall name ensures EntryOk(startup, PinAll(startup, t, targets, n).tree, name) {
        assert EntryOk(startup, before.tree, name);
        KnownKeeps(startup, before.tree, targets[n - 1], name);
      }
    }
  }

  lemma {:induction false} ScopedKnown(rules: Rules, startup: Tree, names: seq<string>, n: nat)
    requires n <= |names| && forall i | 0 <= i < n :: names[i] in Providers(startup)
    ensures forall i | 0 <= i < |ScopedTargets(rules, startup, names, n)| :: Known(startup, ScopedTargets(rules, startup, names, n)[i])
  {
    hide Providers;
    if n > 0 {
      ScopedKnown(rules, startup, names, n - 1);
      EntryRead(startup, names[n - 1]);
    }
  }

  lemma ScopedPhaseAligns(rules: Rules, order: Order, startup: Tree, t: Tree)
    requires Enumerates(order) && ValidConfig(startup) && ValidConfig(t)
    ensures Aligned(startup, TreeAfter(startup, t, ScopedPhase(rules, order, startup, t)))
  {
    hide GraphPhase, ScopedTargets, ValidConfig, Known, Aligned;
    var graph, all := GraphPhase(order, startup, t), ScopedPhase(rules, order, startup, t);
    GraphPhaseAligns(order, startup, t);
    var names := CommonNames(order, startup, TreeAfter(startup, t, graph));
    forall i | 0 <= i < |names| ensures names[i] in Providers(startup) {
      assert names[i] in names;
    }
    ScopedKnown(rules, startup, names, |names|);
    PinPrefix(startup, t, graph, all, |graph|);
    forall i | |graph| <= i < |all| ensures Known(startup, all[i]) {
      assert all[i] == ScopedTargets(rules, startup, names, |names|)[i - |graph|];
    }
    KnownRunAligns(startup, t, all, |graph|, |all|);
  }

  lemma PresentAbove(t: Tree, p: Path, q: Path)
    requires p <= q && Present(t, q)
    ensures Present(t, p)
    decreases |p|
  {
    if p != [] { PresentAbove(t.entries[p[0]], p[1..], q[1..]); }
  }

  lemma PathsKnown(rules: Rules, order: Order, startup: Tree, t: Tree, n: nat, path: Path)
    requires Enumerates(order) && ValidRules(rules) && n < |rules.patterns| && Aligned(startup, t)
    requires path in Expand(order, rules.patterns[n], startup) || path in Expand(order, rules.patterns[n], t)
    ensures Known(startup, Target(path, false)) && FitsPattern(rules.patterns[n], path)
  {
    hide Expand, Aligned;
    ExpandsTo(order, rules.patterns[n], startup, path);
    ExpandsTo(order, rules.patterns[n], t, path);
    assert Fits(rules.patterns[n][0], path[0]);
    if path[0] == PROVIDERS {
      var name := path[1];
      assert EntryPath(name) == path[..2] <= path;
      assert EntryOk(startup, t, name) by { AlignedAt(startup, t, name); }
      if Present(startup, path) {
        PresentAbove(startup, EntryPath(name), path);
      } else {
        PresentAbove(t, EntryPath(name), path);
      }
    }
  }

  lemma AlignedAt(startup: Tree, t: Tree, name: string)
    requires Aligned(startup, t)
    ensures EntryOk(startup, t, name)
  {
  }

  lemma {:induction false} PatternsAlign(rules: Rules, order: Order, startup: Tree, t: Tree, before: seq<Target>, n: nat)
    requires Enumerates(order) && ValidRules(rules) && n <= |rules.patterns| && Aligned(startup, TreeAfter(startup, t, before))
    ensures Aligned(startup, TreeAfter(startup, t, PatternTargets(rules, order, startup, t, before, n)))
    ensures var all := PatternTargets(rules, order, startup, t, before, n);
      |before| <= |all| && before == all[..|before|]
      && forall i | |before| <= i < |all| :: exists k :: 0 <= k < |rules.patterns| && FitsPattern(rules.patterns[k], all[i].path)
  {
    hide Expand, Aligned, Known, ValidRules, FitsPattern, PinAll;
    if n > 0 {
      PatternsAlign(rules, order, startup, t, before, n - 1);
      var some, all := PatternTargets(rules, order, startup, t, before, n - 1), PatternTargets(rules, order, startup, t, before, n);
      var here := TreeAfter(startup, t, some);
      var paths := Expand(order, rules.patterns[n - 1], startup) + Expand(order, rules.patterns[n - 1], here);
      forall i | |some| <= i < |all| ensures Known(startup, all[i]) && FitsPattern(rules.patterns[n - 1], all[i].path) {
        assert all[i] == Target(paths[i - |some|], false) && paths[i - |some|] in paths;
        PathsKnown(rules, order, startup, here, n - 1, paths[i - |some|]);
      }
      PinPrefix(startup, t, some, all, |some|);
      KnownRunAligns(startup, t, all, |some|, |all|);
    }
  }

  lemma ResultAligns(rules: Rules, order: Order, startup: Tree, candidate: Tree)
    requires Enumerates(order) && ValidRules(rules) && ValidConfig(startup) && ValidConfig(candidate)
    ensures Aligned(startup, PinRestartOnly(rules, order, startup, candidate).tree)
  {
    hide ScopedPhase, PatternTargets, Aligned, ValidConfig, ValidRules;
    ScopedPhaseAligns(rules, order, startup, candidate);
    PatternsAlign(rules, order, startup, candidate, ScopedPhase(rules, order, startup, candidate), |rules.patterns|);
  }

  // ---- Pinning again ----

  /** Every provider's type is as at startup. */
  lemma TypesAreRestored(rules: Rules, order: Order, startup: Tree, candidate: Tree, name: string)
    requires Enumerates(order) && ValidRules(rules)
    ensures TypeOf(PinRestartOnly(rules, order, startup, candidate).tree, name) == TypeOf(startup, name)
  {
    hide PinRestartOnly, Read;
    var path, result := [PROVIDERS, name, TYPE], PinRestartOnly(rules, order, startup, candidate).tree;
    var i :| 0 <= i < |rules.patterns| && rules.patterns[i] == [Key(PROVIDERS), Star, Key(TYPE)];
    assert FitsPattern(rules.patterns[i], path);
    PatternPathsReadAsStartup(rules, order, startup, candidate, i, path);
    TypeByRead(result, startup, name);
  }

  lemma {:induction false} NoGraphTargets(startup: Tree, t: Tree, names: seq<string>, n: nat)
    requires n <= |names| && forall i | 0 <= i < n :: !GraphChanged(startup, t, names[i])
    ensures GraphTargets(startup, t, names, n) == []
  {
    hide GraphChanged;
    if n > 0 { NoGraphTargets(startup, t, names, n - 1); }
  }

  lemma GraphIsRestored(rules: Rules, order: Order, startup: Tree, candidate: Tree)
    requires Enumerates(order) && ValidRules(rules) && ValidConfig(startup) && ValidConfig(candidate)
    ensures GraphPhase(order, startup, PinRestartOnly(rules, order, startup, candidate).tree) == []
  {
    hide PinRestartOnly, Aligned, ValidConfig, ValidRules, TypeOf, Read, Present;
    var result := PinRestartOnly(rules, order, startup, candidate).tree;
    var names := AllNames(order, startup, result);
    ResultAligns(rules, order, startup, candidate);
    forall i | 0 <= i < |names| ensures !GraphChanged(startup, result, names[i]) {
      var name := names[i];
      assert name in names;
      AlignedAt(startup, result, name);
      ValidEntries(startup, name);
      EntryRead(startup, name);
      EntryRead(result, name);
      TypesAreRestored(rules, order, startup, candidate, name);
      PresentIsRead(startup, name);
      PresentIsRead(result, name);
    }
    NoGraphTargets(startup, result, names, |names|);
  }

  lemma {:induction false} ScopedSources(rules: Rules, startup: Tree, names: seq<string>, n: nat, i: nat) returns (name: string, field: string)
    requires n <= |names| && i < |ScopedTargets(rules, startup, names, n)|
    ensures name in names && field in ScopedFields(rules, TypeOf(startup, name))
    ensures ScopedTargets(rules, startup, names, n)[i].path == [PROVIDERS, name, field]
  {
    hide TypeOf;
    var before := ScopedTargets(rules, startup, names, n - 1);
    if i < |before| {
      name, field := ScopedSources(rules, startup, names, n - 1, i);
    } else {
      name := names[n - 1];
      field := ScopedFields(rules, TypeOf(startup, name))[i - |before|];
    }
  }

  /** Pinning what has been pinned discards nothing and changes nothing. */
  lemma PinningIsIdempotent(rules: Rules, order: Order, startup: Tree, candidate: Tree)
    requires Enumerates(order) && ValidRules(rules) && ValidConfig(startup) && ValidConfig(candidate)
    ensures var result := PinRestartOnly(rules, order, startup, candidate).tree;
      PinRestartOnly(rules, order, startup, result) == Pinned(result, {})
  {
    var result := PinRestartOnly(rules, order, startup, candidate).tree;
    hide ScopedTargets, PatternTargets, Aligned, ValidConfig, ValidRules, Read, TypeOf, PinAll, GraphPhase, FitsPattern;
    GraphIsRestored(rules, order, startup, candidate);
    ResultAligns(rules, order, startup, candidate);
    var before, all := ScopedPhase(rules, order, startup, result), Targets(rules, order, startup, result);
    assert TreeAfter(startup, result, []) == result by { PinnedStays(startup, result, [], 0); }
    var names := CommonNames(order, startup, result);
    assert before == ScopedTargets(rules, startup, names, |names|);
    forall i | 0 <= i < |before| ensures Read(result, before[i].path) == Read(startup, before[i].path) {
      var name, field := ScopedSources(rules, startup, names, |names|, i);
      assert name in Providers(startup);
      ScopedFieldsReadAsStartup(rules, order, startup, candidate, name, field);
    }
    PinnedStays(startup, result, before, |before|);
    PatternsAlign(rules, order, startup, result, before, |rules.patterns|);
    forall i | 0 <= i < |all| ensures Read(result, all[i].path) == Read(startup, all[i].path) {
      if i < |before| {
        assert all[i] == before[i];
      } else {
        var k :| 0 <= k < |rules.patterns| && FitsPattern(rules.patterns[k], all[i].path);
        PatternPathsReadAsStartup(rules, order, startup, candidate, k, all[i].path);
      }
    }
    PinnedStays(startup, result, all, |all|);
  }

  // ---- The edits, one after another ----

  /** The names looked at so far decide nothing about the next one. */
  lemma NextNameDiffers(order: Order, startup: Tree, candidate: Tree, n: nat)
    requires Enumerates(order) && ValidConfig(startup) && ValidConfig(candidate) && n < |AllNames(order, startup, candidate)|
    requires var names := AllNames(order, startup, candidate);
      GraphChanged(startup, TreeAfter(startup, candidate, GraphTargets(startup, candidate, names, n)), names[n])
    ensures var names := AllNames(order, startup, candidate);
      Read(startup, EntryPath(names[n])) != Read(TreeAfter(startup, candidate, GraphTargets(startup, candidate, names, n)), EntryPath(names[n]))
  {
    hide GraphTargets, ValidConfig;
    var names := AllNames(order, startup, candidate);
    var name, u := names[n], TreeAfter(startup, candidate, GraphTargets(startup, candidate, names, n));
    GraphAligns(startup, candidate, names, n);
    assert name !in names[..n] && name in names;
    assert EntryOk(startup, u, name) || !EntryOk(startup, u, name);
    assert SameAt(u, candidate, EntryPath(name));
    ValidEntries(startup, name);
    ValidEntries(candidate, name);
    EntryRead(startup, name);
    EntryRead(candidate, name);
    if Read(startup, EntryPath(name)) == Read(u, EntryPath(name)) {
      RestoredBelow(startup, u, EntryPath(name), [PROVIDERS, name, TYPE]);
      TypeByRead(u, startup, name);
      PresentIsRead(startup, name);
    }
  }

  lemma DefaultStaysPresent(order: Order, startup: Tree, candidate: Tree)
    requires ValidConfig(candidate)
    ensures var names := AllNames(order, startup, candidate);
      Present(TreeAfter(startup, candidate, GraphTargets(startup, candidate, names, |names|)), [DEFAULT_PROVIDER])
  {
    var names := AllNames(order, startup, candidate);
    var graph := GraphTargets(startup, candidate, names, |names|);
    GraphEntryTargets(startup, candidate, names, |names|);
    SameLengthTopDown(graph, 2);
    PinAllSettles(startup, candidate, graph, |graph|);
    var p := PinAll(startup, candidate, graph, |graph|);
    forall q | q in p.paths ensures !Related(q, [DEFAULT_PROVIDER]) {
      var i :| 0 <= i < |graph| && graph[i].path == q;
      assert [DEFAULT_PROVIDER][0] != PROVIDERS;
    }
    assert SparesAll(p.paths, [DEFAULT_PROVIDER]) && SameAt(p.tree, candidate, [DEFAULT_PROVIDER]);
  }

  /** Keeps provider membership and variants; a provider that was not there at startup is taken out again. */
  method PinProviderGraph(order: Order, startup: Tree, candidate: Tree) returns (tree: Tree, pinned: set<Path>, changed: bool)
    requires Enumerates(order) && ValidConfig(startup) && ValidConfig(candidate)
    ensures var names := AllNames(order, startup, candidate);
      var graph := GraphTargets(startup, candidate, names, |names|);
      Pinned(tree, pinned) == PinAll(startup, candidate, graph, |graph|) && changed == (graph != [])
  {
    hide GraphChanged, ValidConfig, Read, Present, Enumerates;
    var names := AllNames(order, startup, candidate);
    tree, pinned, changed := candidate, {}, false;
    for n := 0 to |names|
      invariant var graph := GraphTargets(startup, candidate, names, n);
        Pinned(tree, pinned) == PinAll(startup, candidate, graph, |graph|) && changed == (graph != [])
    {
      var path := [PROVIDERS, names[n]];
      if GraphChanged(startup, tree, names[n]) {
        NextNameDiffers(order, startup, candidate, n);
        PinAppend(startup, candidate, GraphTargets(startup, candidate, names, n), Target(path, true));
        tree := if Read(startup, path) == Null then Remove(tree, path) else Write(tree, path, Read(startup, path));
        pinned := pinned + {path};
        changed := true;
      }
    }
  }

  /** One path: written back and noted if it differs. */
  method PinPath(startup: Tree, tree: Tree, pinned: set<Path>, path: Path) returns (tree': Tree, pinned': set<Path>)
    ensures Pinned(tree', pinned') == PinOne(startup, Pinned(tree, pinned), Target(path, false))
  {
    tree', pinned' := tree, pinned;
    if Read(startup, path) != Read(tree, path) {
      tree', pinned' := Write(tree, path, Read(startup, path)), pinned + {path};
    }
  }

  method PinPaths(startup: Tree, tree: Tree, pinned: set<Path>, paths: seq<Path>, ghost candidate: Tree, ghost before: seq<Target>)
    returns (tree': Tree, pinned': set<Path>)
    requires Pinned(tree, pinned) == PinAll(startup, candidate, before, |before|)
    ensures var all := before + PathTargets(paths); Pinned(tree', pinned') == PinAll(startup, candidate, all, |all|)
  {
    hide PinOne;
    tree', pinned' := tree, pinned;
    ghost var all := before + PathTargets(paths);
    PinPrefix(startup, candidate, before, all, |before|);
    for n := 0 to |paths|
      invariant Pinned(tree', pinned') == PinAll(startup, candidate, all, |before| + n)
    {
      tree', pinned' := PinPath(startup, tree', pinned', paths[n]);
      assert all[|before| + n] == Target(paths[n], false);
    }
  }

  function FieldPaths(name: string, fields: seq<string>): (paths: seq<Path>)
    ensures |paths| == |fields| && PathTargets(paths) == FieldTargets(name, fields)
  {
    seq(|fields|, i requires 0 <= i < |fields| => [PROVIDERS, name, fields[i]])
  }

  /** All the edits, in the order of the rules. */
  method PinInPlace(rules: Rules, order: Order, startup: Tree, candidate: Tree) returns (tree: Tree, pinned: set<Path>)
    requires Enumerates(order) && ValidConfig(startup) && ValidConfig(candidate)
    ensures Pinned(tree, pinned) == PinRestartOnly(rules, order, startup, candidate)
  {
    hide GraphTargets, ScopedTargets, PatternTargets, ValidConfig, Enumerates, PinAll, Expand;
    var changed: bool;
    tree, pinned, changed := PinProviderGraph(order, startup, candidate);
    ghost var targets := GraphPhase(order, startup, candidate);
    if changed {
      DefaultStaysPresent(order, startup, candidate);
      ghost var names := AllNames(order, startup, candidate);
      PinAppend(startup, candidate, GraphTargets(startup, candidate, names, |names|), Target([DEFAULT_PROVIDER], false));
      var was, now := Read(startup, [DEFAULT_PROVIDER]), Read(tree, [DEFAULT_PROVIDER]);
      WriteSame(tree, [DEFAULT_PROVIDER]);
      tree := Write(tree, [DEFAULT_PROVIDER], was);
      if was != now {
        pinned := pinned + {[DEFAULT_PROVIDER]};
      }
    }
    assert Pinned(tree, pinned) == PinAll(startup, candidate, targets, |targets|);
    tree, pinned := PinScoped(rules, order, startup, tree, pinned, candidate, targets);
    tree, pinned := PinPatterns(rules, order, startup, tree, pinned, candidate, ScopedPhase(rules, order, startup, candidate));
  }

  method PinScoped(rules: Rules, order: Order, startup: Tree, tree: Tree, pinned: set<Path>, ghost candidate: Tree, ghost graph: seq<Target>)
    returns (tree': Tree, pinned': set<Path>)
    requires graph == GraphPhase(order, startup, candidate) && Pinned(tree, pinned) == PinAll(startup, candidate, graph, |graph|)
    ensures var all := ScopedPhase(rules, order, startup, candidate); Pinned(tree', pinned') == PinAll(startup, candidate, all, |all|)
  {
    hide GraphPhase, PinAll, ScopedFields, TypeOf, PathTargets, FieldTargets;
    var names := CommonNames(order, startup, tree);
    tree', pinned' := tree, pinned;
    ghost var targets := graph;
    assert graph + [] == graph;
    for n := 0 to |names|
      invariant targets == graph + ScopedTargets(rules, startup, names, n)
      invariant Pinned(tree', pinned') == PinAll(startup, candidate, targets, |targets|)
    {
      var fields := ScopedFields(rules, TypeOf(startup, names[n]));
      tree', pinned' := PinPaths(startup, tree', pinned', FieldPaths(names[n], fields), candidate, targets);
      assert graph + ScopedTargets(rules, startup, names, n + 1) == targets + FieldTargets(names[n], fields);
      targets := targets + FieldTargets(names[n], fields);
    }
  }

  method PinPatterns(rules: Rules, order: Order, startup: Tree, tree: Tree, pinned: set<Path>, ghost candidate: Tree, ghost before: seq<Target>)
    returns (tree': Tree, pinned': set<Path>)
    requires Pinned(tree, pinned) == PinAll(startup, candidate, before, |before|)
    ensures var all := PatternTargets(rules, order, startup, candidate, before, |rules.patterns|);
      Pinned(tree', pinned') == PinAll(startup, candidate, all, |all|)
  {
    hide PinAll, Expand;
    tree', pinned' := tree, pinned;
    ghost var targets := before;
    for n := 0 to |rules.patterns|
      invariant targets == PatternTargets(rules, order, startup, candidate, before, n)
      invariant Pinned(tree', pinned') == PinAll(startup, candidate, targets, |targets|)
    {
      var paths := Expand(order, rules.patterns[n], startup) + Expand(order, rules.patterns[n], tree');
      tree', pinned' := PinPaths(startup, tree', pinned', paths, candidate, targets);
      targets := targets + PathTargets(paths);
    }
  }

  // ---- Reloading ----

  /** The source could be built, and the schema accepts what pinning has left of this source. */
  predicate Good(rules: Rules, order: Order, startup: Tree, accepts: Tree -> bool, source: Option<Tree>) {
    source.Some? && accepts(PinRestartOnly(rules, order, startup, source.value).tree)
  }

  /** What one reload does: nothing unless the source is good. */
  function Reloaded(rules: Rules, order: Order, startup: Tree, accepts: Tree -> bool, current: Tree, source: Option<Tree>): Tree {
    if Good(rules, order, startup, accepts, source) then PinRestartOnly(rules, order, startup, source.value).tree else current
  }

  function CurrentAfter(rules: Rules, order: Order, startup: Tree, accepts: Tree -> bool, sources: seq<Option<Tree>>): Tree {
    if sources == [] then startup
    else
      var n := |sources| - 1;
      Reloaded(rules, order, startup, accepts, CurrentAfter(rules, order, startup, accepts, sources[..n]), sources[n])
  }

  function LastGood(rules: Rules, order: Order, startup: Tree, accepts: Tree -> bool, sources: seq<Option<Tree>>): Option<Tree> {
    if sources == [] then None
    else if Good(rules, order, startup, accepts, sources[|sources| - 1]) then sources[|sources| - 1]
    else LastGood(rules, order, startup, accepts, sources[..|sources| - 1])
  }

  /** After any reloads, the configuration in effect depends only on the start and the last source that could be built and was accepted once pinned. */
  lemma {:induction false} CurrentIsLastGood(rules: Rules, order: Order, startup: Tree, accepts: Tree -> bool, sources: seq<Option<Tree>>)
    ensures CurrentAfter(rules, order, startup, accepts, sources)
         == Reloaded(rules, order, startup, accepts, startup, LastGood(rules, order, startup, accepts, sources))
  {
    hide PinRestartOnly;
    if sources != [] { CurrentIsLastGood(rules, order, startup, accepts, sources[..|sources| - 1]); }
  }

  class Provider {
    const rules: Rules
    const order: Order
    const startup: Tree
    /** Whether the schema takes the pinned values. */
    const accepts: Tree -> bool
    var current: Tree
    ghost var sources: seq<Option<Tree>>

    ghost predicate Valid()
      reads this
    {
      current == CurrentAfter(rules, order, startup, accepts, sources)
    }

    constructor (rules: Rules, order: Order, initial: Tree, accepts: Tree -> bool)
      ensures Valid() && current == startup == initial && this.rules == rules && this.order == order && this.accepts == accepts && sources == []
    {
      this.rules, this.order, startup, current, this.accepts, sources := rules, order, initial, initial, accepts, [];
    }

    /** Rebuilds from the source; one that cannot be built, or is not accepted once pinned, leaves the snapshot as it is. */
    method Reload(source: Option<Tree>) returns (restartRequired: Option<set<Path>>, changed: bool)
      requires Valid() && Enumerates(order) && ValidConfig(startup) && (source.Some? ==> ValidConfig(source.value))
      modifies this
      ensures Valid() && sources == old(sources) + [source]
      ensures !Good(rules, order, startup, accepts, source) ==> restartRequired == None && current == old(current)
      ensures Good(rules, order, startup, accepts, source) ==> var pinned := PinRestartOnly(rules, order, startup, source.value);
        current == pinned.tree && restartRequired == Some(pinned.paths) && changed == (current != startup)
    {
      restartRequired, changed := None, false;
      if source.Some? {
        var tree, pinned := PinInPlace(rules, order, startup, source.value);
        if accepts(tree) {
          current, restartRequired, changed := tree, Some(pinned), tree != startup;
        }
      }
      sources := sources + [source];
    }
  }
}
