// What pinning guarantees, and the provider that applies it on every reload.
module ConfigReload {
  import opened Wrappers
  import opened ConfigTree
  import opened ConfigPinning

  function EntryPath(name: string): Path {
    [PROVIDERS, name]
  }

  /** As every dumped configuration has it: a dictionary of providers, each a dictionary, and a default provider. */
  ghost predicate ValidConfig(t: Tree) {
    && Read(t, [PROVIDERS]).Dict? && Present(t, [DEFAULT_PROVIDER])
    && forall name | name in Providers(t) :: Providers(t)[name].Dict?
  }

  lemma EntryRead(t: Tree, name: string)
    ensures Read(t, EntryPath(name)) == if name in Providers(t) then Providers(t)[name] else Null
    ensures Present(t, EntryPath(name)) <==> name in Providers(t)
  {
    var path := EntryPath(name);
    assert path[1..] == [name] && [name][1..] == [];
    if t.Dict? && PROVIDERS in t.entries {
      var child := t.entries[PROVIDERS];
      assert [PROVIDERS][1..] == [];
      assert Read(t, [PROVIDERS]) == child;
      assert Read(t, path) == Read(child, [name]);
      assert Present(t, path) == Present(child, [name]);
      if child.Dict? && name in child.entries {
        assert Read(child, [name]) == Read(child.entries[name], []);
      }
    }
  }

  // ---- Everything restart-only reads as at startup ----

  lemma PinSettles(rules: Rules, order: Order, startup: Tree, t: Tree)
    requires Enumerates(order) && ValidRules(rules)
    ensures var targets := Targets(rules, order, startup, t); Settled(startup, t, targets, |targets|, PinRestartOnly(rules, order, startup, t))
    ensures Kinds(rules, Targets(rules, order, startup, t))
  {
    hide Targets, TopDown, Kinds, Settled;
    TargetsAreTopDown(rules, order, startup, t);
    PinAllSettles(startup, t, Targets(rules, order, startup, t), |Targets(rules, order, startup, t)|);
  }

  /** The targets found so far are among all targets. */
  lemma {:induction false} PatternTargetsGrow(rules: Rules, order: Order, startup: Tree, t: Tree, before: seq<Target>, m: nat, n: nat)
    requires m <= n <= |rules.patterns|
    ensures var a, b := PatternTargets(rules, order, startup, t, before, m), PatternTargets(rules, order, startup, t, before, n);
      |a| <= |b| && a == b[..|a|]
  {
    hide Expand;
    if m < n { PatternTargetsGrow(rules, order, startup, t, before, m, n - 1); }
  }

  lemma ExpandedIsTarget(rules: Rules, order: Order, startup: Tree, t: Tree, before: seq<Target>, n: nat, path: Path) returns (i: nat)
    requires Enumerates(order) && n < |rules.patterns| && FitsPattern(rules.patterns[n], path)
    requires Present(startup, path) || Present(TreeAfter(startup, t, PatternTargets(rules, order, startup, t, before, n)), path)
    ensures var all := PatternTargets(rules, order, startup, t, before, |rules.patterns|); i < |all| && all[i].path == path
  {
    hide Expand, FitsPattern, TreeAfter;
    var targets := PatternTargets(rules, order, startup, t, before, n);
    var current := TreeAfter(startup, t, targets);
    ExpandsTo(order, rules.patterns[n], startup, path);
    ExpandsTo(order, rules.patterns[n], current, path);
    var paths := Expand(order, rules.patterns[n], startup) + Expand(order, rules.patterns[n], current);
    assert path in paths;
    var k :| 0 <= k < |paths| && paths[k] == path;
    var next := PatternTargets(rules, order, startup, t, before, n + 1);
    assert next[|targets| + k].path == path;
    PatternTargetsGrow(rules, order, startup, t, before, n + 1, |rules.patterns|);
    i := |targets| + k;
  }

  /** A path that no earlier target touches is still as the candidate has it. */
  lemma UntouchedOrRestored(rules: Rules, startup: Tree, t: Tree, targets: seq<Target>, n: nat, pattern: nat, path: Path) returns (touched: bool)
    requires ValidRules(rules) && n <= |targets| && Kinds(rules, targets) && Settled(startup, t, targets, n, PinAll(startup, t, targets, n))
    requires pattern < |rules.patterns| && FitsPattern(rules.patterns[pattern], path)
    ensures touched ==> exists i :: 0 <= i < n && targets[i].path <= path
    ensures !touched ==> SameAt(PinAll(startup, t, targets, n).tree, t, path)
  {
    hide ValidRules, FitsPattern, SameAt, PinAll, IsKind;
    var p := PinAll(startup, t, targets, n);
    touched := !SparesAll(p.paths, path);
    if touched {
      var q :| q in p.paths && Related(q, path);
      var i :| 0 <= i < n && targets[i].path == q;
      PatternNeverAbove(rules, path, q, pattern);
    }
  }

  /** Every path that a restart-only pattern stands for reads as at startup. */
  lemma PatternPathsReadAsStartup(rules: Rules, order: Order, startup: Tree, candidate: Tree, pattern: nat, path: Path)
    requires Enumerates(order) && ValidRules(rules) && pattern < |rules.patterns| && FitsPattern(rules.patterns[pattern], path)
    ensures Read(PinRestartOnly(rules, order, startup, candidate).tree, path) == Read(startup, path)
  {
    hide FitsPattern, ScopedPhase, PatternTargets, ValidRules, TopDown, Kinds, SameAt;
    var before, result := ScopedPhase(rules, order, startup, candidate), PinRestartOnly(rules, order, startup, candidate).tree;
    var all := Targets(rules, order, startup, candidate);
    PinSettles(rules, order, startup, candidate);
    var touched := UntouchedOrRestored(rules, startup, candidate, all, |all|, pattern, path);
    if touched {
      var i :| 0 <= i < |all| && all[i].path <= path;
      RestoredBelow(startup, result, all[i].path, path);
    } else {
      var here := TreeAfter(startup, candidate, PatternTargets(rules, order, startup, candidate, before, pattern));
      if Present(startup, path) || Present(here, path) {
        var i := ExpandedIsTarget(rules, order, startup, candidate, before, pattern, path);
      } else {
        NeverThere(rules, order, startup, candidate, pattern, path);
      }
    }
  }

  /** A path that is there neither at startup nor when its pattern's turn comes reads as nothing in the end too. */
  lemma NeverThere(rules: Rules, order: Order, startup: Tree, candidate: Tree, pattern: nat, path: Path)
    requires Enumerates(order) && ValidRules(rules) && pattern < |rules.patterns| && FitsPattern(rules.patterns[pattern], path)
    requires var before := ScopedPhase(rules, order, startup, candidate);
      !Present(startup, path) && !Present(TreeAfter(startup, candidate, PatternTargets(rules, order, startup, candidate, before, pattern)), path)
    ensures Read(PinRestartOnly(rules, order, startup, candidate).tree, path) == Read(startup, path)
  {
    hide FitsPattern, ScopedPhase, PatternTargets, ValidRules, TopDown, Kinds;
    var before, result := ScopedPhase(rules, order, startup, candidate), PinRestartOnly(rules, order, startup, candidate).tree;
    var all := Targets(rules, order, startup, candidate);
    var some := PatternTargets(rules, order, startup, candidate, before, pattern);
    PatternTargetsGrow(rules, order, startup, candidate, before, pattern, |rules.patterns|);
    PinSettles(rules, order, startup, candidate);
    AbsentReadsNull(startup, path);
    assert TopDown(all) by { TargetsAreTopDown(rules, order, startup, candidate); }
    PinAllSettles(startup, candidate, all, |some|);
    PinPrefix(startup, candidate, some, all, |some|);
    var early := UntouchedOrRestored(rules, startup, candidate, all, |some|, pattern, path);
    var late := UntouchedOrRestored(rules, startup, candidate, all, |all|, pattern, path);
    if late {
      var i :| 0 <= i < |all| && all[i].path <= path;
      RestoredBelow(startup, result, all[i].path, path);
    } else if early {
      var i :| 0 <= i < |some| && all[i].path <= path;
      RestoredBelow(startup, result, all[i].path, path);
    } else {
      AbsentReadsNull(candidate, path);
    }
  }

  lemma {:induction false} AbsentReadsNull(t: Tree, path: Path)
    requires !Present(t, path)
    ensures Read(t, path) == Null
    decreases |path|
  {
    if t.Dict? && path[0] in t.entries {
      AbsentReadsNull(t.entries[path[0]], path[1..]);
    }
  }

  /** What is reported is exactly what was held back: each listed path has its startup value instead of the candidate's, and
      whatever lies elsewhere is the candidate's. */
  lemma RestartRequiredIsExact(rules: Rules, order: Order, startup: Tree, candidate: Tree, path: Path)
    requires Enumerates(order) && ValidRules(rules)
    ensures var p := PinRestartOnly(rules, order, startup, candidate);
      && (path in p.paths ==> Read(p.tree, path) == Read(startup, path) != Read(candidate, path))
      && (SparesAll(p.paths, path) ==> SameAt(p.tree, candidate, path))
  {
    hide Targets, Read, SparesAll, Kinds;
    PinSettles(rules, order, startup, candidate);
  }

  // ---- The provider graph ----

  ghost predicate HasEntryTarget(targets: seq<Target>, name: string) {
    exists i | 0 <= i < |targets| :: targets[i].path == EntryPath(name)
  }

  ghost predicate EntryTargets(targets: seq<Target>) {
    forall i | 0 <= i < |targets| :: |targets[i].path| == 2 && targets[i].path[0] == PROVIDERS && targets[i].removes
  }

  lemma {:induction false} GraphEntryTargets(startup: Tree, t: Tree, names: seq<string>, n: nat)
    requires n <= |names|
    ensures EntryTargets(GraphTargets(startup, t, names, n))
  {
    hide GraphChanged;
    if n > 0 { GraphEntryTargets(startup, t, names, n - 1); }
  }

  /** Entries that are not pinned are still the candidate's, and so are their types. */
  lemma OtherEntriesStay(startup: Tree, t: Tree, targets: seq<Target>, name: string)
    requires EntryTargets(targets) && !HasEntryTarget(targets, name)
    ensures SameAt(TreeAfter(startup, t, targets), t, EntryPath(name))
    ensures TypeOf(TreeAfter(startup, t, targets), name) == TypeOf(t, name)
  {
    SameLengthTopDown(targets, 2);
    PinAllSettles(startup, t, targets, |targets|);
    var p := PinAll(startup, t, targets, |targets|);
    forall q | q in p.paths ensures !Related(q, EntryPath(name)) && !Related(q, [PROVIDERS, name, TYPE]) {
      var i :| 0 <= i < |targets| && targets[i].path == q;
      assert q != EntryPath(name);
    }
    hide Related, TypeOf, Read, Present;
    assert SparesAll(p.paths, EntryPath(name)) && SparesAll(p.paths, [PROVIDERS, name, TYPE]);
    assert SameAt(p.tree, t, EntryPath(name)) && SameAt(p.tree, t, [PROVIDERS, name, TYPE]);
    TypeByRead(p.tree, t, name);
  }

  lemma TypeByRead(a: Tree, b: Tree, name: string)
    requires Read(a, [PROVIDERS, name, TYPE]) == Read(b, [PROVIDERS, name, TYPE])
    ensures TypeOf(a, name) == TypeOf(b, name)
  {
  }

  /** Of the names looked at, every one whose provider changed is pinned. */
  lemma {:induction false} GraphCovers(startup: Tree, t: Tree, names: seq<string>, n: nat, name: string)
    requires n <= |names| && name in names[..n] && GraphChanged(startup, t, name)
    ensures HasEntryTarget(GraphTargets(startup, t, names, n), name)
  {
    hide TypeOf, Read, TreeAfter;
    var before := GraphTargets(startup, t, names, n - 1);
    var after := GraphTargets(startup, t, names, n);
    assert names[..n] == names[..n - 1] + [names[n - 1]];
    if name in names[..n - 1] {
      GraphCovers(startup, t, names, n - 1, name);
      var i :| 0 <= i < |before| && before[i].path == EntryPath(name);
      assert after[i].path == EntryPath(name);
    } else if HasEntryTarget(before, name) {
      var i :| 0 <= i < |before| && before[i].path == EntryPath(name);
      assert after[i].path == EntryPath(name);
    } else {
      GraphEntryTargets(startup, t, names, n - 1);
      OtherEntriesStay(startup, t, before, name);
      assert after[|before|].path == EntryPath(name);
    }
  }

  /** A phase's targets are among all targets. */
  lemma PhasesGrow(rules: Rules, order: Order, startup: Tree, t: Tree)
    ensures var graph, scoped, all := GraphPhase(order, startup, t), ScopedPhase(rules, order, startup, t), Targets(rules, order, startup, t);
      |graph| <= |scoped| <= |all| && graph == all[..|graph|] && scoped == all[..|scoped|]
  {
    hide GraphPhase, PatternTargets, ScopedTargets;
    PatternTargetsGrow(rules, order, startup, t, ScopedPhase(rules, order, startup, t), 0, |rules.patterns|);
    assert PatternTargets(rules, order, startup, t, ScopedPhase(rules, order, startup, t), 0) == ScopedPhase(rules, order, startup, t)
      by { NoPatterns(rules, order, startup, t, ScopedPhase(rules, order, startup, t)); }
  }

  lemma NoPatterns(rules: Rules, order: Order, startup: Tree, t: Tree, before: seq<Target>)
    ensures PatternTargets(rules, order, startup, t, before, 0) == before
  {
  }

  /** A provider that came, went or changed its type is as at startup, and with any of them the default provider. */
  lemma ChangedProvidersReadAsStartup(rules: Rules, order: Order, startup: Tree, candidate: Tree, name: string)
    requires Enumerates(order) && ValidRules(rules)
    requires (name in Providers(startup) || name in Providers(candidate)) && GraphChanged(startup, candidate, name)
    ensures var result := PinRestartOnly(rules, order, startup, candidate).tree;
      Read(result, EntryPath(name)) == Read(startup, EntryPath(name)) && Read(result, [DEFAULT_PROVIDER]) == Read(startup, [DEFAULT_PROVIDER])
  {
    hide GraphTargets, Targets, ScopedPhase, PinAll, ValidRules, Read;
    var names := AllNames(order, startup, candidate);
    assert names[..|names|] == names;
    GraphCovers(startup, candidate, names, |names|, name);
    var graph := GraphPhase(order, startup, candidate);
    var i :| 0 <= i < |GraphTargets(startup, candidate, names, |names|)| && GraphTargets(startup, candidate, names, |names|)[i].path == EntryPath(name);
    assert graph[i].path == EntryPath(name) && graph[|graph| - 1].path == [DEFAULT_PROVIDER];
    PhasesGrow(rules, order, startup, candidate);
    PinSettles(rules, order, startup, candidate);
    assert Targets(rules, order, startup, candidate)[i] == graph[i];
    assert Targets(rules, order, startup, candidate)[|graph| - 1] == graph[|graph| - 1];
  }

  // ---- Fields fixed for one provider type ----

  lemma {:induction false} ScopedCovers(rules: Rules, startup: Tree, names: seq<string>, n: nat, name: string, field: string) returns (i: nat)
    requires n <= |names| && name in names[..n] && field in ScopedFields(rules, TypeOf(startup, name))
    ensures i < |ScopedTargets(rules, startup, names, n)| && ScopedTargets(rules, startup, names, n)[i].path == [PROVIDERS, name, field]
  {
    hide TypeOf, ScopedFields;
    assert names[..n] == names[..n - 1] + [names[n - 1]];
    var before := ScopedTargets(rules, startup, names, n - 1);
    if name in names[..n - 1] {
      i := ScopedCovers(rules, startup, names, n - 1, name, field);
    } else {
      var fields := ScopedFields(rules, TypeOf(startup, name));
      var k :| 0 <= k < |fields| && fields[k] == field;
      i := |before| + k;
    }
  }

  /** A provider's type-scoped fields are as at startup, for every provider that was there. */
  lemma ScopedFieldsReadAsStartup(rules: Rules, order: Order, startup: Tree, candidate: Tree, name: string, field: string)
    requires Enumerates(order) && ValidRules(rules) && ValidConfig(startup)
    requires name in Providers(startup) && field in ScopedFields(rules, TypeOf(startup, name))
    ensures Read(PinRestartOnly(rules, order, startup, candidate).tree, [PROVIDERS, name, field]) == Read(startup, [PROVIDERS, name, field])
  {
    hide GraphTargets, ScopedTargets, PatternTargets, PinAll, ValidRules, Read, TypeOf, Present, GraphPhase, GraphChanged;
    if GraphChanged(startup, candidate, name) {
      ChangedProvidersReadAsStartup(rules, order, startup, candidate, name);
      RestoredBelow(startup, PinRestartOnly(rules, order, startup, candidate).tree, EntryPath(name), [PROVIDERS, name, field]);
    } else {
      var graph := GraphPhase(order, startup, candidate);
      var names := CommonNames(order, startup, TreeAfter(startup, candidate, graph));
      StaysInGraph(order, startup, candidate, name);
      assert name in names && names[..|names|] == names;
      var i := ScopedCovers(rules, startup, names, |names|, name, field);
      PhasesGrow(rules, order, startup, candidate);
      PinSettles(rules, order, startup, candidate);
      assert ScopedPhase(rules, order, startup, candidate)[|graph| + i].path == [PROVIDERS, name, field];
      assert Targets(rules, order, startup, candidate)[|graph| + i].path == [PROVIDERS, name, field];
    }
  }

  /** A provider that did not change is still there after the graph has been pinned. */
  lemma StaysInGraph(order: Order, startup: Tree, candidate: Tree, name: string)
    requires ValidConfig(startup) && !GraphChanged(startup, candidate, name)
    ensures name in Providers(TreeAfter(startup, candidate, GraphPhase(order, startup, candidate)))
  {
    var graph := GraphPhase(order, startup, candidate);
    var after := TreeAfter(startup, candidate, graph);
    EntryRead(after, name);
    EntryRead(startup, name);
    EntryRead(candidate, name);
    GraphPhaseKinds(Rules([], map[]), order, startup, candidate);
    PinAllSettles(startup, candidate, graph, |graph|);
    hide GraphPhase, TypeOf, Providers;
    var p := PinAll(startup, candidate, graph, |graph|);
    if SparesAll(p.paths, EntryPath(name)) {
      assert SameAt(p.tree, candidate, EntryPath(name));
    } else {
      var q :| q in p.paths && Related(q, EntryPath(name));
      var i :| 0 <= i < |graph| && graph[i].path == q;
      assert IsKind(Rules([], map[]), q);
      assert q == EntryPath(name);
    }
  }
}
