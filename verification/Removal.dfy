/** rm -r, which the master runs itself: list a subtree through the cache, children first, and
    replay the deletions. */
module Removal {
  import opened Paths
  import opened Trees
  import opened FileSets
  import opened Edits
  import opened Masters
  import opened AttrCaches
  import opened CacheProofs
  import opened Supply

  // ---------------------------------------------------------------- listing

  function Subtree(t: Tree, p: Path): set<Path> {
    Within(t.Keys, p)
  }

  predicate Distinct(names: seq<Path>) {
    forall i, j :: 0 <= i < j < |names| ==> names[i] != names[j]
  }

  /** No path is listed before something below it. */
  predicate ChildrenFirst(names: seq<Path>) {
    forall i, j :: 0 <= i < j < |names| ==> !Below(names[i], names[j])
  }

  /** Each path of `s` exactly once, children before parents. */
  ghost predicate Lists(names: seq<Path>, s: set<Path>) {
    (forall p :: p in names <==> p in s) && Distinct(names) && ChildrenFirst(names)
  }

  /** The part of the subtree of `p` that lies under the given names. */
  function Branches(t: Tree, p: Path, ns: set<Name>): set<Path> {
    set q | q in t && Below(p, q) && Toward(p, q) in ns
  }

  /** One more branch, listed after the others. */
  lemma AppendBranch(t: Tree, p: Path, ns: set<Name>, n: Name, names: seq<Path>, more: seq<Path>)
    requires n !in ns && Lists(names, Branches(t, p, ns)) && Lists(more, Subtree(t, Child(p, n)))
    ensures Lists(names + more, Branches(t, p, ns + {n}))
  {
    forall q
      ensures q in Subtree(t, Child(p, n)) <==> q in Branches(t, p, {n})
    {
      if Covers(Child(p, n), q) {
        TowardIs(p, n, q);
      }
    }
    forall i, j | 0 <= i < |names| && 0 <= j < |more|
      ensures names[i] != more[j] && !Below(names[i], more[j])
    {
      assert names[i] in Branches(t, p, ns) && more[j] in Branches(t, p, {n});
      if Below(names[i], more[j]) {
        CoversTransitive(Child(p, Toward(p, names[i])), names[i], more[j]);
        TowardIs(p, Toward(p, names[i]), more[j]);
      }
    }
  }

  /** The directory itself comes last. */
  lemma AppendSelf(t: Tree, p: Path, names: seq<Path>)
    requires WfTree(t) && p in t && Lists(names, Branches(t, p, Names(t, p)))
    ensures Lists(names + [p], Subtree(t, p))
  {
    forall q | q in t && Below(p, q)
      ensures Toward(p, q) in Names(t, p)
    {
      var c := Child(p, Toward(p, q));
      if c != q {
        AncestorsInTree(t, c, q);
      }
      assert c in t && c.parent == p && c.name in Names(t, p);
    }
    NotBelowItself(p);
    forall i | 0 <= i < |names|
      ensures names[i] != p && !Below(names[i], p)
    {
      assert names[i] in Branches(t, p, Names(t, p));
      if Below(names[i], p) {
        BelowTransitive(p, names[i], p);
      }
    }
  }

  lemma LeafSubtree(t: Tree, p: Path)
    requires WfTree(t) && p in t && !t[p].Dir?
    ensures Subtree(t, p) == {p} && Names(t, p) == {}
  {
    forall q | q in t && Below(p, q)
      ensures false
    {
      AncestorsInTree(t, p, q);
    }
  }

  lemma NothingThere(t: Tree, p: Path)
    requires WfTree(t) && p !in t
    ensures Subtree(t, p) == {} && Outside(t, p) == t
  {
    forall q | q in t && Covers(p, q)
      ensures false
    {
      AncestorsInTree(t, p, q);
    }
  }

  /** What is left of a directory's listing, and the names already dealt with. */
  ghost predicate Remaining(t: Tree, p: Path, rest: map<Name, Kind>, done: set<Name>) {
    && (forall n: Name :: n in rest ==> n !in done && Child(p, n) in t && rest[n] == KindOf(t[Child(p, n)]))
    && (forall n: Name :: n in done || n in rest <==> Child(p, n) in t)
  }

  lemma NextRemaining(t: Tree, p: Path, rest: map<Name, Kind>, done: set<Name>, n: Name)
    requires Remaining(t, p, rest, done) && n in rest
    ensures Remaining(t, p, rest - {n}, done + {n})
  {
  }

  lemma NoneRemaining(t: Tree, p: Path, rest: map<Name, Kind>, done: set<Name>)
    requires Remaining(t, p, rest, done) && rest == map[]
    ensures done == Names(t, p)
  {
    forall n: Name | n in done
      ensures n in Names(t, p)
    {
      assert Child(p, n) in t && Child(p, n).name == n;
    }
  }

  /** recurseNames: the subtree of `name`, each path once, children before parents; the names in a
      directory come in any order. */
  method RecurseNames(cache: AttributeCache, name: Path, ghost t: Tree, ghost stamps: Path -> nat)
    returns (names: seq<Path>)
    requires WfTree(t) && cache.Reads(t, stamps) && Coherent(cache.hash, t, cache.attributes)
    modifies cache`attributes
    ensures Coherent(cache.hash, t, cache.attributes)
    ensures Lists(names, Subtree(t, name))
    decreases Subtree(t, name)
  {
    var a := cache.Get(name, true, t, stamps);
    names := [];
    if a.names.Some? {
      var rest := a.names.value;
      ghost var done: set<Name> := {};
      assert Branches(t, name, {}) == {};
      while rest != map[]
        invariant Coherent(cache.hash, t, cache.attributes)
        invariant Remaining(t, name, rest, done)
        invariant Lists(names, Branches(t, name, done))
        decreases |rest|
      {
        var n :| n in rest;
        var more := [Child(name, n)];
        if rest[n] == Directory {
          FewerWithin(t.Keys, name, n);
          more := RecurseNames(cache, Child(name, n), t, stamps);
        } else {
          LeafSubtree(t, Child(name, n));
        }
        AppendBranch(t, name, done, n, names, more);
        names := names + more;
        NextRemaining(t, name, rest, done, n);
        rest := rest - {n};
        done := done + {n};
      }
      NoneRemaining(t, name, rest, done);
    }
    if !Deletion(a) {
      AppendSelf(t, name, names);
      names := names + [name];
    } else {
      NothingThere(t, name);
    }
  }

  // ---------------------------------------------------------------- deleting

  function Deletions(names: seq<Path>): seq<FileAttr> {
    seq(|names|, i requires 0 <= i < |names| => Deleted(names[i]))
  }

  /** Everything directly inside a listed path is listed before it. */
  predicate Closed(k: Shape, names: seq<Path>) {
    forall i, q :: 0 <= i < |names| && q in k && q.Child? && q.parent == names[i] ==> q in names[..i]
  }

  ghost predicate Removable(k: Shape, names: seq<Path>) {
    Closed(k, names) && Distinct(names) && forall i :: 0 <= i < |names| ==> names[i] in k && names[i].Child?
  }

  lemma RemoveFirst(k: Shape, names: seq<Path>)
    requires Removable(k, names) && names != []
    ensures Empty(k, names[0]) && Removable(k - {names[0]}, names[1..])
  {
    forall i, q | 0 <= i < |names[1..]| && q in k - {names[0]} && q.Child? && q.parent == names[1..][i]
      ensures q in names[1..][..i]
    {
      assert q in names[..i + 1];
      var j :| 0 <= j < i + 1 && names[j] == q;
      assert names[1..][..i][j - 1] == q;
    }
  }

  /** Each directory is empty by the time it is removed. */
  lemma {:induction false} DeletionsReplay(k: Shape, names: seq<Path>)
    requires Removable(k, names)
    ensures Replayable(k, Deletions(names))
    ensures EditAll(k, Deletions(names)) == map p | p in k && p !in names :: k[p]
    decreases |names|
  {
    if names != [] {
      RemoveFirst(k, names);
      DeletionsReplay(k - {names[0]}, names[1..]);
      assert Deletions(names)[1..] == Deletions(names[1..]);
      assert forall p :: p in names <==> p == names[0] || p in names[1..];
    }
  }

  /** Only what exists can be deleted. */
  lemma {:induction false} DeletedExist(k: Shape, names: seq<Path>, p: Path)
    requires Replayable(k, Deletions(names)) && p in names
    ensures p in k && p.Child?
    decreases |names|
  {
    assert Deletions(names)[0] == Deleted(names[0]) && Deletions(names)[1..] == Deletions(names[1..]);
    if p != names[0] {
      DeletedExist(k - {names[0]}, names[1..], p);
    }
  }

  lemma ListedClosed(t: Tree, p: Path, names: seq<Path>)
    requires WfTree(t) && p.Child? && Lists(names, Subtree(t, p))
    ensures Removable(ShapeOf(t), names)
  {
    forall i, q | 0 <= i < |names| && q in t && q.Child? && q.parent == names[i]
      ensures q in names[..i]
    {
      assert names[i] in Subtree(t, p);
      CoversTransitive(p, names[i], q);
      assert q in names;
      var j :| 0 <= j < |names| && names[j] == q;
      assert Below(names[i], names[j]) && j != i by {
        NotBelowItself(q);
      }
    }
    forall i | 0 <= i < |names|
      ensures names[i] in t && names[i].Child?
    {
      assert names[i] in Subtree(t, p);
      if p != names[i] {
        assert Below(p, names[i]);
      }
    }
  }

  /** The parent's attributes, then the deletions. */
  function Script(parent: FileAttr, names: seq<Path>): seq<FileAttr> {
    [parent] + Deletions(names)
  }

  /** Putting an entry's own kind back changes no shape. */
  lemma PutBack(t: Tree, f: FileAttr)
    requires WfTree(t) && f.path in t && f.attr.Some? && KindAfter(f) == KindOf(t[f.path])
    ensures StepOk(ShapeOf(t), f) && Edit(ShapeOf(t), f) == ShapeOf(t)
  {
  }

  /** The edit list for one target removes exactly its subtree, and no step of it fails. */
  lemma ScriptRemoves(hash: Blob -> string, t: Tree, target: Path, parent: FileAttr, names: seq<Path>)
    requires WfTree(t) && target.Child? && target.parent in t
    requires Answers(hash, t, target.parent, false, parent) && Lists(names, Subtree(t, target))
    ensures Replayable(ShapeOf(t), Script(parent, names))
    ensures EditAll(ShapeOf(t), Script(parent, names)) == ShapeOf(Outside(t, target))
    ensures PutsLast(Script(parent, names))
  {
    var fs := Script(parent, names);
    PutBack(t, parent);
    ListedClosed(t, target, names);
    DeletionsReplay(ShapeOf(t), names);
    assert fs[1..] == Deletions(names);
    forall j | 0 < j < |fs|
      ensures fs[j].path != target.parent
    {
      assert names[j - 1] in Subtree(t, target);
      ParentNotCovered(target);
    }
  }

  /** The edit list for the root directory deletes the root directory: it cannot be replayed. */
  lemma RootFails(hash: Blob -> string, t: Tree, parent: FileAttr, names: seq<Path>)
    requires WfTree(t) && Answers(hash, t, Root, false, parent) && Lists(names, Subtree(t, Root))
    ensures !Replayable(ShapeOf(t), Script(parent, names))
  {
    var k, fs := ShapeOf(t), Script(parent, names);
    assert Root in Subtree(t, Root);
    assert fs[0] == parent && fs[1..] == Deletions(names);
    if Replayable(k, fs) {
      DeletedExist(Edit(k, fs[0]), names, Root);
    }
  }

  /** Trees with the same paths. */
  lemma SameShape(a: Tree, b: Tree)
    requires ShapeOf(a) == ShapeOf(b)
    ensures forall p :: p in a <==> p in b
    ensures (forall p :: p in a && p in b ==> SameAt(a, b, p)) ==> a == b
  {
    assert forall p :: p in a <==> p in ShapeOf(a);
    assert forall p :: p in b <==> p in ShapeOf(b);
  }

  lemma Removed(hash: Blob -> string, t: Tree, target: Path, parent: FileAttr, names: seq<Path>, t': Tree)
    requires WfTree(t) && target.Child? && target.parent in t && Answers(hash, t, target.parent, false, parent)
    requires Lists(names, Subtree(t, target)) && ShapeOf(t') == ShapeOf(Outside(t, target))
    requires var fs := Script(parent, names); forall p :: !TouchedBy(fs, |fs|, p) ==> SameAt(t, t', p)
    requires parent.path in t' && ShownAs(hash, t'[parent.path], parent)
    ensures forall p :: p != target.parent && !Covers(target, p) ==> SameAt(t, t', p)
    ensures IsDirIn(t, target.parent) ==> t' == Outside(t, target)
  {
    var fs := Script(parent, names);
    forall j | 0 < j < |fs|
      ensures Covers(target, fs[j].path)
    {
      assert names[j - 1] in Subtree(t, target);
    }
    forall p | p != target.parent && !Covers(target, p)
      ensures SameAt(t, t', p)
    {
      assert !TouchedBy(fs, |fs|, p);
    }
    SameShape(Outside(t, target), t');
  }

  lemma ScriptWf(hash: Blob -> string, t: Tree, target: Path, parent: FileAttr, names: seq<Path>)
    requires (forall b :: hash(b) != "") && target.Child? && target.parent in t
      && Answers(hash, t, target.parent, false, parent)
    requires t[target.parent].Link? ==> t[target.parent].target != ""
    ensures var fs := Script(parent, names);
      forall i :: 0 <= i < |fs| ==>
        WfAttr(fs[i]) && fs[i].names.None? && (Wants(fs[i]) != "" ==> fs[i] == parent && t[target.parent].File?)
  {
  }

  /** What the parent of the target must be, for its attributes to be put back. */
  predicate Restorable(hash: Blob -> string, store: map<string, Blob>, t: Tree, p: Path) {
    p in t ==>
      match t[p]
      case Dir(_) => true
      case File(_, content) => hash(content) in store
      case Link(l) => l != ""
  }

  /** rm -r of one target: the subtree is gone from the disk, everything else is as it was, and the
      cache has followed. Without a parent there is nothing to do. */
  method RemoveRecursively(master: Master, cache: AttributeCache, target: Path, ghost stamps: Path -> nat,
                           stamps': Path -> nat)
    returns (ok: bool)
    requires master.Sound() && WfTree(master.disk) && master.tmp == multiset{} && cache.hash == master.hash
    requires cache.Reads(master.disk, stamps) && Coherent(cache.hash, master.disk, cache.attributes)
    requires target.Child? && Restorable(master.hash, master.store, master.disk, target.parent)
    modifies master`disk, master`tmp, cache`attributes
    ensures ok && Coherent(cache.hash, master.disk, cache.attributes) && WfTree(master.disk) && master.tmp == multiset{}
    ensures ShapeOf(master.disk) == ShapeOf(Outside(old(master.disk), target))
    ensures forall p :: p != target.parent && !Covers(target, p) ==> SameAt(old(master.disk), master.disk, p)
    ensures IsDirIn(old(master.disk), target.parent) ==> master.disk == Outside(old(master.disk), target)
  {
    ghost var t := master.disk;
    var parent := cache.Get(target.parent, false, t, stamps);
    if Deletion(parent) {
      NothingThere(t, target);
      return true;
    }
    var names := RecurseNames(cache, target, t, stamps);
    ScriptRemoves(cache.hash, t, target, parent, names);
    ScriptWf(cache.hash, t, target, parent, names);
    ok := ReplayFileSet(master, cache, Script(parent, names), stamps, stamps');
    assert Script(parent, names)[0] == parent;
    Removed(cache.hash, t, target, parent, names, master.disk);
  }
}
