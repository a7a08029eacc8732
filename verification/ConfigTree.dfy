// Nested configuration values, their paths, and pinning some paths to what they were.
module ConfigTree {

  datatype Tree = Null | Text(text: string) | Atom(number: int) | Dict(entries: map<string, Tree>)

  type Path = seq<string>

  /** The value at a path; nothing there reads as null. */
  function Read(t: Tree, path: Path): Tree {
    if path == [] then t
    else if t.Dict? && path[0] in t.entries then Read(t.entries[path[0]], path[1..])
    else Null
  }

  /** There is a value at the path, be it null. */
  predicate Present(t: Tree, path: Path) {
    path == [] || (t.Dict? && path[0] in t.entries && Present(t.entries[path[0]], path[1..]))
  }

  function Entries(t: Tree): map<string, Tree> {
    if t.Dict? then t.entries else map[]
  }

  /** Sets a path, making a dictionary of whatever is in the way. */
  function Write(t: Tree, path: Path, value: Tree): Tree
    decreases |path|
  {
    if path == [] then value
    else
      var child := if path[0] in Entries(t) then Entries(t)[path[0]] else Null;
      Dict(Entries(t)[path[0] := Write(child, path[1..], value)])
  }

  /** Takes an entry out of the dictionary at `path`, if there is one. */
  function Remove(t: Tree, path: Path): Tree
    requires path != []
    decreases |path|
  {
    if !t.Dict? || path[0] !in t.entries then t
    else if |path| == 1 then Dict(t.entries - {path[0]})
    else Dict(t.entries[path[0] := Remove(t.entries[path[0]], path[1..])])
  }

  predicate Related(p: Path, q: Path) {
    p <= q || q <= p
  }

  lemma {:induction false} WriteReads(t: Tree, path: Path, value: Tree)
    ensures Read(Write(t, path, value), path) == value
    decreases |path|
  {
    if path != [] {
      var child := if path[0] in Entries(t) then Entries(t)[path[0]] else Null;
      WriteReads(child, path[1..], value);
    }
  }

  lemma {:induction false} WriteSpares(t: Tree, path: Path, value: Tree, q: Path)
    requires !Related(path, q)
    ensures Read(Write(t, path, value), q) == Read(t, q) && (Present(Write(t, path, value), q) <==> Present(t, q))
    decreases |path|
  {
    if path[0] == q[0] {
      var child := if path[0] in Entries(t) then Entries(t)[path[0]] else Null;
      assert path == [path[0]] + path[1..] && q == [q[0]] + q[1..];
      WriteSpares(child, path[1..], value, q[1..]);
    }
  }

  lemma {:induction false} RemoveReads(t: Tree, path: Path)
    requires path != []
    ensures Read(Remove(t, path), path) == Null
    decreases |path|
  {
    if |path| > 1 && t.Dict? && path[0] in t.entries {
      RemoveReads(t.entries[path[0]], path[1..]);
    }
  }

  lemma {:induction false} RemoveSpares(t: Tree, path: Path, q: Path)
    requires path != [] && !Related(path, q)
    ensures Read(Remove(t, path), q) == Read(t, q) && (Present(Remove(t, path), q) <==> Present(t, q))
    decreases |path|
  {
    assert path == [path[0]] + path[1..] && q == [q[0]] + q[1..];
    if path[0] == q[0] && |path| > 1 && t.Dict? && path[0] in t.entries {
      RemoveSpares(t.entries[path[0]], path[1..], q[1..]);
    }
  }

  lemma {:induction false} ReadBelow(t: Tree, p: Path, q: Path)
    requires p <= q
    ensures Read(t, q) == Read(Read(t, p), q[|p|..])
    decreases |p|
  {
    if p != [] {
      if t.Dict? && p[0] in t.entries {
        ReadBelow(t.entries[p[0]], p[1..], q[1..]);
        assert q[1..][|p| - 1..] == q[|p|..];
      } else {
        NullReadsNull(q[|p|..]);
      }
    } else {
      assert q[0..] == q;
    }
  }

  lemma NullReadsNull(q: Path)
    ensures Read(Null, q) == Null
  {
  }

  // ---- Pinning one path after another ----

  /** A path to pin, and whether what is not there at startup is removed rather than set to null. */
  datatype Target = Target(path: Path, removes: bool)

  datatype Pinned = Pinned(tree: Tree, paths: set<Path>)

  function Pin(startup: Tree, t: Tree, target: Target): Tree {
    if target.removes && target.path != [] && Read(startup, target.path) == Null then Remove(t, target.path)
    else Write(t, target.path, Read(startup, target.path))
  }

  lemma PinReads(startup: Tree, t: Tree, target: Target)
    ensures Read(Pin(startup, t, target), target.path) == Read(startup, target.path)
  {
    WriteReads(t, target.path, Read(startup, target.path));
    if target.path != [] { RemoveReads(t, target.path); }
  }

  lemma PinSpares(startup: Tree, t: Tree, target: Target, q: Path)
    requires !Related(target.path, q)
    ensures Read(Pin(startup, t, target), q) == Read(t, q) && (Present(Pin(startup, t, target), q) <==> Present(t, q))
  {
    WriteSpares(t, target.path, Read(startup, target.path), q);
    if target.path != [] { RemoveSpares(t, target.path, q); }
  }

  function PinOne(startup: Tree, p: Pinned, target: Target): Pinned {
    if Read(startup, target.path) != Read(p.tree, target.path) then
      Pinned(Pin(startup, p.tree, target), p.paths + {target.path})
    else p
  }

  /** Each target in turn is set to its startup value if it differs. */
  function PinAll(startup: Tree, t: Tree, targets: seq<Target>, n: nat): Pinned
    requires n <= |targets|
  {
    if n == 0 then Pinned(t, {}) else PinOne(startup, PinAll(startup, t, targets, n - 1), targets[n - 1])
  }

  /** No target lies above an earlier one. */
  ghost predicate TopDown(targets: seq<Target>) {
    forall i, j | 0 <= i < j < |targets| :: targets[i].path <= targets[j].path || !Related(targets[i].path, targets[j].path)
  }

  ghost predicate SparesAll(paths: set<Path>, q: Path) {
    forall p | p in paths :: !Related(p, q)
  }

  ghost predicate SameAt(a: Tree, b: Tree, q: Path) {
    Read(a, q) == Read(b, q) && (Present(a, q) <==> Present(b, q))
  }

  ghost predicate Restored(startup: Tree, t: Tree, targets: seq<Target>, n: nat)
    requires n <= |targets|
  {
    forall i | 0 <= i < n :: Read(t, targets[i].path) == Read(startup, targets[i].path)
  }

  ghost predicate IsTarget(targets: seq<Target>, n: nat, path: Path)
    requires n <= |targets|
  {
    exists i | 0 <= i < n :: targets[i].path == path
  }

  /** Each listed path is a target that had another value. */
  ghost predicate ListsChanges(startup: Tree, t: Tree, targets: seq<Target>, n: nat, paths: set<Path>)
    requires n <= |targets|
  {
    forall path | path in paths :: Read(t, path) != Read(startup, path) && IsTarget(targets, n, path)
  }

  /** What is unrelated to every listed path is as it was. */
  ghost predicate Unchanged(t: Tree, p: Pinned) {
    forall q {:trigger SameAt(p.tree, t, q)} | SparesAll(p.paths, q) :: SameAt(p.tree, t, q)
  }

  /** What pinning the first n targets has done to t. */
  ghost predicate Settled(startup: Tree, t: Tree, targets: seq<Target>, n: nat, p: Pinned)
    requires n <= |targets|
  {
    Restored(startup, p.tree, targets, n) && ListsChanges(startup, t, targets, n, p.paths) && Unchanged(t, p)
  }

  /** After pinning, every target reads as at startup, everything unrelated as before, and exactly what was changed is listed. */
  lemma {:induction false} PinAllSettles(startup: Tree, t: Tree, targets: seq<Target>, n: nat)
    requires n <= |targets| && TopDown(targets)
    ensures Settled(startup, t, targets, n, PinAll(startup, t, targets, n))
  {
    if n > 0 {
      PinAllSettles(startup, t, targets, n - 1);
      SettlesOne(startup, t, targets, n, PinAll(startup, t, targets, n - 1));
    }
  }

  lemma SettlesOne(startup: Tree, t: Tree, targets: seq<Target>, n: nat, p: Pinned)
    requires 0 < n <= |targets| && TopDown(targets) && Settled(startup, t, targets, n - 1, p)
    ensures Settled(startup, t, targets, n, PinOne(startup, p, targets[n - 1]))
  {
    hide Read, Present, Pin, Related, TopDown, Restored, ListsChanges, Unchanged;
    var target := targets[n - 1];
    if Read(startup, target.path) != Read(p.tree, target.path) {
      forall i | 0 <= i < n - 1 ensures !Related(targets[i].path, target.path) {
        OnlyUnrelatedDiffers(startup, p.tree, targets, i, n - 1);
      }
      RestoresOne(startup, targets, n, p);
      ListedIsUnrelated(targets, n, p.paths, startup, t);
      SparesOne(startup, t, target, p);
      ListsOne(startup, t, targets, n, p);
    } else {
      KeepsOne(startup, t, targets, n, p);
    }
  }

  lemma KeepsOne(startup: Tree, t: Tree, targets: seq<Target>, n: nat, p: Pinned)
    requires 0 < n <= |targets| && Settled(startup, t, targets, n - 1, p)
    requires Read(startup, targets[n - 1].path) == Read(p.tree, targets[n - 1].path)
    ensures Settled(startup, t, targets, n, p)
  {
    hide Read, SameAt;
    forall path | path in p.paths ensures Read(t, path) != Read(startup, path) && IsTarget(targets, n, path) {
      assert IsTarget(targets, n - 1, path);
    }
  }

  lemma RestoresOne(startup: Tree, targets: seq<Target>, n: nat, p: Pinned)
    requires 0 < n <= |targets| && Restored(startup, p.tree, targets, n - 1)
    requires forall i | 0 <= i < n - 1 :: !Related(targets[i].path, targets[n - 1].path)
    ensures Restored(startup, Pin(startup, p.tree, targets[n - 1]), targets, n)
  {
    hide Read, Pin, Related;
    var target := targets[n - 1];
    PinReads(startup, p.tree, target);
    forall i | 0 <= i < n - 1 ensures Read(Pin(startup, p.tree, target), targets[i].path) == Read(startup, targets[i].path) {
      RelatedIsSymmetric(targets[i].path, target.path);
      PinSpares(startup, p.tree, target, targets[i].path);
    }
  }

  lemma SparesOne(startup: Tree, t: Tree, target: Target, p: Pinned)
    requires Unchanged(t, p)
    ensures Unchanged(t, Pinned(Pin(startup, p.tree, target), p.paths + {target.path}))
  {
    hide Read, Pin, Related, Present;
    var q := Pinned(Pin(startup, p.tree, target), p.paths + {target.path});
    forall path | SparesAll(q.paths, path) ensures SameAt(q.tree, t, path) {
      assert target.path in q.paths && SparesAll(p.paths, path) && SameAt(p.tree, t, path);
      PinSpares(startup, p.tree, target, path);
    }
  }

  lemma ListsOne(startup: Tree, t: Tree, targets: seq<Target>, n: nat, p: Pinned)
    requires 0 < n <= |targets| && ListsChanges(startup, t, targets, n - 1, p.paths) && Unchanged(t, p)
    requires SparesAll(p.paths, targets[n - 1].path) && Read(startup, targets[n - 1].path) != Read(p.tree, targets[n - 1].path)
    ensures ListsChanges(startup, t, targets, n, p.paths + {targets[n - 1].path})
  {
    hide Read, Present, SparesAll;
    var target := targets[n - 1];
    assert SameAt(p.tree, t, target.path);
    assert IsTarget(targets, n, target.path);
    forall path | path in p.paths ensures Read(t, path) != Read(startup, path) && IsTarget(targets, n, path) {
      assert IsTarget(targets, n - 1, path);
    }
  }

  lemma RelatedIsSymmetric(p: Path, q: Path)
    ensures Related(p, q) <==> Related(q, p)
  {
  }

  /** A target that differs is below none that has been restored. */
  lemma OnlyUnrelatedDiffers(startup: Tree, t: Tree, targets: seq<Target>, i: nat, n: nat)
    requires i < n < |targets| && TopDown(targets) && Restored(startup, t, targets, n)
    requires Read(startup, targets[n].path) != Read(t, targets[n].path)
    ensures !Related(targets[i].path, targets[n].path)
  {
    if targets[i].path <= targets[n].path {
      ReadBelow(t, targets[i].path, targets[n].path);
      ReadBelow(startup, targets[i].path, targets[n].path);
    }
  }

  lemma ListedIsUnrelated(targets: seq<Target>, n: nat, paths: set<Path>, startup: Tree, t: Tree)
    requires 0 < n <= |targets| && ListsChanges(startup, t, targets, n - 1, paths)
    requires forall i | 0 <= i < n - 1 :: !Related(targets[i].path, targets[n - 1].path)
    ensures SparesAll(paths, targets[n - 1].path)
  {
    hide Related;
    forall path | path in paths ensures !Related(path, targets[n - 1].path) {
      assert IsTarget(targets, n - 1, path);
    }
  }

  /** A second time there is nothing left to pin. */
  lemma {:induction false} PinnedStays(startup: Tree, t: Tree, targets: seq<Target>, n: nat)
    requires n <= |targets| && forall i | 0 <= i < n :: Read(t, targets[i].path) == Read(startup, targets[i].path)
    ensures PinAll(startup, t, targets, n) == Pinned(t, {})
  {
    if n > 0 { PinnedStays(startup, t, targets, n - 1); }
  }

  // ---- Runs of targets ----

  lemma {:induction false} PinPrefix(startup: Tree, t: Tree, a: seq<Target>, b: seq<Target>, n: nat)
    requires n <= |a| <= |b| && a == b[..|a|]
    ensures PinAll(startup, t, a, n) == PinAll(startup, t, b, n)
  {
    if n > 0 { PinPrefix(startup, t, a, b, n - 1); }
  }

  lemma PinAppend(startup: Tree, t: Tree, targets: seq<Target>, target: Target)
    ensures PinAll(startup, t, targets + [target], |targets| + 1) == PinOne(startup, PinAll(startup, t, targets, |targets|), target)
  {
    PinPrefix(startup, t, targets, targets + [target], |targets|);
  }

  /** What stays restored as more targets follow. */
  lemma RestoredBelow(startup: Tree, t: Tree, p: Path, q: Path)
    requires Read(t, p) == Read(startup, p) && p <= q
    ensures Read(t, q) == Read(startup, q)
  {
    ReadBelow(t, p, q);
    ReadBelow(startup, p, q);
  }

  lemma {:induction false} WriteBelow(t: Tree, path: Path, value: Tree, p: Path)
    requires p <= path && p != path
    ensures Present(Write(t, path, value), p) && Read(Write(t, path, value), p).Dict?
    decreases |path|
  {
    if p != [] {
      var child := if path[0] in Entries(t) then Entries(t)[path[0]] else Null;
      WriteBelow(child, path[1..], value, p[1..]);
    }
  }

  lemma {:induction false} RemoveTakes(t: Tree, path: Path)
    requires path != []
    ensures !Present(Remove(t, path), path)
    decreases |path|
  {
    if |path| > 1 && t.Dict? && path[0] in t.entries {
      RemoveTakes(t.entries[path[0]], path[1..]);
    }
  }

  lemma {:induction false} WritePuts(t: Tree, path: Path, value: Tree)
    ensures Present(Write(t, path, value), path)
    decreases |path|
  {
    if path != [] {
      var child := if path[0] in Entries(t) then Entries(t)[path[0]] else Null;
      WritePuts(child, path[1..], value);
    }
  }

  /** Writing what is there changes nothing. */
  lemma {:induction false} WriteSame(t: Tree, path: Path)
    requires Present(t, path)
    ensures Write(t, path, Read(t, path)) == t
    decreases |path|
  {
    if path != [] { WriteSame(t.entries[path[0]], path[1..]); }
  }
}
