/** The union file system as an object: what the kernel calls, each method changing the node tree,
    the deletion marks and the backing files in place. */
module UnionFs {
  import opened Paths
  import opened Trees
  import opened Overlays
  import opened UnionOps
  import opened UnionProofs
  import opened UnionRuns
  import opened NodeTrees
  import opened Expansion

  lemma InvHung(o: Overlay)
    requires Inv(o)
    ensures Hung(o.nodes) && Root in o.nodes
  {
    forall q | q in o.nodes && q.Child?
      ensures q.parent in o.nodes
    {
      assert NodeOk(o, q);
    }
  }

  /** Reap's two halves give the diff. */
  lemma ReapIsDiff(o: Overlay)
    ensures GoneAt(Hidden(o.ro, o.deleted)) + ChangedUnder(o.nodes, Root) == Diff(o)
  {
    forall q
      ensures Covers(Root, q)
    {
      AllBelowRoot(q);
    }
  }

  // ---------------------------------------------------------------- reset

  lemma {:induction false} SurvivesIff(o: Overlay, p: Path)
    requires Stands(o.ro, o.nodes, Root)
    ensures Survives(o, p) <==> if p.Root? then true else StandsBelow(o.ro, o.nodes, Root, p)
  {
    if p.Child? {
      AllBelowRoot(p);
      SurvivesIff(o, p.parent);
    }
  }

  lemma {:induction false} ResetIs(o: Overlay)
    requires Inv(o)
    ensures Stands(o.ro, o.nodes, Root)
    ensures DoReset(o) == o.(nodes := ResetAt(o.ro, o.nodes, Root), deleted := {}, store := map[])
  {
    assert NodeOk(o, Root);
    forall p
      ensures Survives(o, p) <==> if p.Root? then true else StandsBelow(o.ro, o.nodes, Root, p)
      ensures p.Child? ==> Below(Root, p)
    {
      SurvivesIff(o, p);
      AllBelowRoot(p);
    }
    NotBelowItself(Root);
  }

  lemma ResetDid(o: Overlay)
    requires Inv(o)
    ensures var o' := DoReset(o);
      && Enabled(o, Op.Reset) && Step(o, Op.Reset) == o' && Inv(o')
      && View(o') == o.ro && Plain(o.ro, View(o), Op.Reset) == o.ro && Faithful(o, Op.Reset)
  {
    ResetOk(o);
  }

  lemma {:induction false} ResetParent(ro: Tree, nodes: Nodes, p: Path, done: set<Name>, q: Path)
    requires Hung(nodes) && p in nodes && q in ResetIn(ro, nodes, p, done) && q.Child?
    ensures q.parent in ResetIn(ro, nodes, p, done)
  {
    NotBelowItself(p);
    if Below(p, q) && q.parent != p {
      assert Toward(p, q) == Toward(p, q.parent);
    }
  }

  /** The next child can be reset. */
  lemma ResetReady(ro: Tree, nodes: Nodes, p: Path, done: set<Name>, n: Name)
    requires Hung(nodes) && p in nodes && n !in done && Child(p, n) in nodes
    ensures var t := ResetIn(ro, nodes, p, done);
      Hung(t) && Child(p, n) in t && t[Child(p, n)] == nodes[Child(p, n)]
      && Within(t.Keys, Child(p, n)) < Within(nodes.Keys, p)
  {
    var t := ResetIn(ro, nodes, p, done);
    forall q | q in t && q.Child?
      ensures q.parent in t
    {
      ResetParent(ro, nodes, p, done, q);
    }
    TowardIs(p, n, Child(p, n));
    FewerWithin(nodes.Keys, p, n);
    assert Within(t.Keys, Child(p, n)) <= Within(nodes.Keys, Child(p, n));
  }

  // ---------------------------------------------------------------- rename

  lemma SubtreeFits(o: Overlay, src: Path)
    requires Inv(o) && src in o.nodes
    ensures Fitting(o, Under(o.nodes, src), src)
  {
    forall q | q in o.nodes && Covers(src, q)
      ensures Fits(o, q, o.nodes[q])
      ensures Below(src, q) ==> q.parent in o.nodes && o.nodes[q.parent].kind == Directory && Covers(src, q.parent)
    {
      assert NodeOk(o, q);
    }
  }

  lemma {:induction false} KeptStays(o: Overlay, src: Path, q: Path)
    requires src in o.nodes && LiveDir(o.nodes[src], src) && Below(src, q)
    ensures Kept(o, src, q) <==> Stays(o, Under(o.nodes, src), src, q)
  {
    if q.parent != src {
      KeptStays(o, src, q.parent);
    }
  }

  /** The walk followed by the marking is the closed form the transition uses. */
  lemma {:induction false} ExpansionIs(o: Overlay, src: Path)
    requires Inv(o) && src in o.nodes && LiveDir(o.nodes[src], src)
    ensures MarkedUnder(Expanded(o, Under(o.nodes, src), src), src) == Materialized(o, src)
  {
    var sub := Under(o.nodes, src);
    var walked := MarkedUnder(Expanded(o, sub, src), src);
    forall q
      ensures SameNodeAt(walked, Materialized(o, src), q)
    {
      ExpansionAt(o, src, q);
    }
    SameNodes(walked, Materialized(o, src));
  }

  lemma ExpansionAt(o: Overlay, src: Path, q: Path)
    requires src in o.nodes && LiveDir(o.nodes[src], src)
    ensures SameNodeAt(MarkedUnder(Expanded(o, Under(o.nodes, src), src), src), Materialized(o, src), q)
  {
    NotBelowItself(src);
    if Below(src, q) {
      KeptStays(o, src, q);
    }
  }

  lemma ExpandedHung(o: Overlay, src: Path)
    requires Inv(o) && src in o.nodes && LiveDir(o.nodes[src], src)
    ensures HungBelow(Expanded(o, Under(o.nodes, src), src), src)
  {
    var sub := Under(o.nodes, src);
    SubtreeFits(o, src);
    NotBelowItself(src);
    forall q | q in Expanded(o, sub, src) && Below(src, q)
      ensures q.parent in Expanded(o, sub, src)
    {
      InExpandedIff(o, sub, src, q);
      if q.parent != src && Shows(o, q) {
        assert Shows(o, q.parent);
      }
    }
  }

  /** Nothing hangs below a file or a link. */
  lemma LeafAlone(o: Overlay, src: Path)
    requires Inv(o) && src in o.nodes && o.nodes[src].kind != Directory
    ensures Under(o.nodes, src) == map[src := o.nodes[src]]
  {
    forall q | q in o.nodes
      ensures !Below(src, q)
    {
      if Below(src, q) {
        SubtreeFits(o, src);
        FittingAncestors(o, Under(o.nodes, src), src, src, q);
      }
    }
  }

  lemma RenameKeepsParent(d: Path, name: Name, toDir: Path, toName: Name)
    requires UnionOps.Apart(Child(d, name), Child(toDir, toName))
    ensures !Covers(Child(d, name), d) && !Covers(Child(toDir, toName), d)
  {
    ParentNotCovered(Child(d, name));
    if Covers(Child(toDir, toName), d) {
      CoversTransitive(Child(toDir, toName), d, Child(d, name));
    }
  }

  /** Only marks on the subtree's own root or outside it have been added. */
  lemma MarksBelow(o: Overlay, d: Path, name: Name)
    requires Inv(o) && DirNode(o, d)
    ensures SameMarks(o, Marked(o, o.nodes[d], name), Child(d, name))
  {
    assert NodeOk(o, d);
    NotBelowItself(Child(d, name));
  }

  /** The nodes after the subtree has been taken off and put back at its new place; then the old
      parent is touched. */
  lemma RenameIs(o: Overlay, d: Path, name: Name, toDir: Path, toName: Name, others: Nodes, sub: Nodes)
    requires DirNode(o, d) && UnionOps.Apart(Child(d, name), Child(toDir, toName)) && Child(d, name) in o.nodes
    requires others == Outside(o.nodes, Child(d, name)) && sub == Carried(o, Child(d, name))
    ensures var n := Outside(others, Child(toDir, toName)) + Relocate(sub, Child(d, name), Child(toDir, toName));
      && d in n && n[d] == o.nodes[d]
      && DoRename(o, d, name, toDir, toName) ==
         Overlay(o.ro, n[d := n[d].(changed := true)], Marked(o, o.nodes[d], name), o.store, o.nextFree)
  {
    RenameKeepsParent(d, name, toDir, toName);
  }

  /** What there is to say about one operation. */
  lemma {:induction false} StepDid(o: Overlay, op: Op, o': Overlay)
    requires Inv(o) && Enabled(o, op) && o' == Step(o, op)
    ensures Inv(o') && (View(o') == Plain(o.ro, View(o), op) <==> Faithful(o, op))
  {
    StepInv(o, op);
    StepRefinesIff(o, op);
  }

  lemma {:induction false} RenameDid(o: Overlay, d: Path, name: Name, toDir: Path, toName: Name)
    requires Inv(o) && RenameIssued(o, d, name, toDir, toName)
    ensures var op, o' := Op.Rename(d, name, toDir, toName), DoRename(o, d, name, toDir, toName);
      && Enabled(o, op) && Step(o, op) == o' && Inv(o') && DirNode(o, d)
      && (View(o') == Plain(o.ro, View(o), op) <==> Faithful(o, op))
      && UnionOps.Apart(Child(d, name), Child(toDir, toName))
    ensures Child(d, name) !in o.nodes ==> DoRename(o, d, name, toDir, toName) == o
  {
    StepInv(o, Op.Rename(d, name, toDir, toName));
    StepRefinesIff(o, Op.Rename(d, name, toDir, toName));
  }

  class MemUnionFs {
    const ro: Tree
    var nodes: Nodes
    var deleted: set<Path>
    var store: map<nat, Blob>
    var nextFree: nat

    ghost function State(): Overlay
      reads this
    {
      Overlay(ro, nodes, deleted, store, nextFree)
    }

    /** From state `o`, operation `op` has been carried out: the state is what the transition says,
        the invariant holds, and the view is what the operation makes of a plain tree, exactly when
        the operation is faithful. */
    ghost predicate Did(o: Overlay, op: Op)
      reads this
    {
      && Enabled(o, op) && State() == Step(o, op) && Inv(State())
      && (View(State()) == Plain(ro, View(o), op) <==> Faithful(o, op))
    }

    /** NewMemUnionFs. */
    constructor (ro: Tree)
      requires WfTree(ro)
      ensures State() == Initial(ro) && Inv(State()) && View(State()) == ro
    {
      this.ro := ro;
      nodes, deleted, store, nextFree := map[Root := FreshNode(ro, Root)], {}, map[], 0;
      InitialInv(ro);
    }

    method Touch(p: Path)
      requires p in nodes
      modifies this`nodes
      ensures State() == UnionOps.Touch(old(State()), p)
    {
      nodes := nodes[p := nodes[p].(changed := true)];
    }

    method Lookup(d: Path, name: Name) returns (child: Option<Node>)
      requires Inv(State()) && DirNode(State(), d)
      modifies this`nodes
      ensures Did(old(State()), Op.Lookup(d, name))
      ensures child == Resolve(old(State()), Child(d, name))
    {
      ghost var o := State();
      if Child(d, name) in nodes {
        child := Some(nodes[Child(d, name)]);
      } else {
        child := None;
        if nodes[d].original.Some? {
          var fn := Child(nodes[d].original.value, name);
          if fn !in deleted && fn in ro {
            child := Some(FreshNode(ro, fn));
            nodes := nodes[Child(d, name) := child.value];
          }
        }
      }
      StepDid(o, Op.Lookup(d, name), State());
    }

    method Mkdir(d: Path, name: Name, perm: nat)
      requires Inv(State()) && Enabled(State(), Op.Mkdir(d, name, perm))
      modifies this`nodes
      ensures Did(old(State()), Op.Mkdir(d, name, perm))
    {
      ghost var o := State();
      nodes := nodes[Child(d, name) := Node(Directory, perm, "", None, None, true)];
      Touch(d);
      StepDid(o, Op.Mkdir(d, name, perm), State());
    }

    method Symlink(d: Path, name: Name, target: string)
      requires Inv(State()) && Enabled(State(), MakeLink(d, name, target))
      modifies this`nodes
      ensures Did(old(State()), MakeLink(d, name, target))
    {
      ghost var o := State();
      nodes := nodes[Child(d, name) := Node(Kind.Symlink, 0, target, None, None, true)];
      Touch(d);
      StepDid(o, MakeLink(d, name, target), State());
    }

    method GetFilename() returns (f: nat)
      modifies this`nextFree
      ensures f == old(nextFree) && nextFree == f + 1
    {
      f := nextFree;
      nextFree := nextFree + 1;
    }

    method Create(d: Path, name: Name, perm: nat)
      requires Inv(State()) && Enabled(State(), Op.Create(d, name, perm))
      modifies this`nodes, this`store, this`nextFree
      ensures Did(old(State()), Op.Create(d, name, perm))
    {
      ghost var o := State();
      var backing := GetFilename();
      store := store[backing := Blob("")];
      nodes := nodes[Child(d, name) := Node(Regular, perm, "", None, Some(backing), true)];
      Touch(d);
      StepDid(o, Op.Create(d, name, perm), State());
    }

    /** The name will not be looked up in the read-only tree again. */
    method MarkDeleted(d: Path, name: Name)
      requires d in nodes
      modifies this`deleted
      ensures deleted == Marked(old(State()), nodes[d], name)
    {
      if nodes[d].original.Some? {
        deleted := deleted + {Child(nodes[d].original.value, name)};
      }
    }

    /** Unlink and Rmdir. */
    method Unlink(d: Path, name: Name) returns (found: bool)
      requires Inv(State()) && DirNode(State(), d)
      modifies this`nodes, this`deleted
      ensures Did(old(State()), Op.Unlink(d, name))
      ensures found <==> Child(d, name) in old(nodes)
    {
      ghost var o := State();
      MarkDeleted(d, name);
      found := Child(d, name) in nodes;
      if found {
        ParentNotCovered(Child(d, name));
        nodes := Outside(nodes, Child(d, name));
        Touch(d);
      }
      StepDid(o, Op.Unlink(d, name), State());
    }

    method Promote(p: Path)
      requires p in nodes
      modifies this`nodes, this`store, this`nextFree
      ensures State() == UnionOps.Promote(old(State()), p)
    {
      if nodes[p].backing.None? {
        var content := ContentOf(Overlay(ro, nodes, deleted, store, nextFree), nodes[p]);
        var backing := GetFilename();
        store := store[backing := content];
        nodes := nodes[p := nodes[p].(backing := Some(backing), original := None)];
      }
    }

    /** Open for writing. */
    method OpenWrite(p: Path)
      requires Inv(State()) && FileNode(State(), p)
      modifies this`nodes, this`store, this`nextFree
      ensures Did(old(State()), Op.OpenWrite(p))
    {
      ghost var o := State();
      Promote(p);
      Touch(p);
      StepDid(o, Op.OpenWrite(p), State());
    }

    /** A write to a file that is open for writing goes to its backing file. */
    method Write(p: Path, content: Blob)
      requires Inv(State()) && Enabled(State(), Op.Write(p, content))
      modifies this`store
      ensures Did(old(State()), Op.Write(p, content))
    {
      ghost var o := State();
      store := store[nodes[p].backing.value := content];
      StepDid(o, Op.Write(p, content), State());
    }

    /** Truncate; `ok` is what the system call on the backing file returns, `content` what it leaves. */
    method Truncate(p: Path, ok: bool, content: Blob)
      requires Inv(State()) && FileNode(State(), p)
      modifies this`nodes, this`store, this`nextFree
      ensures Did(old(State()), Op.Truncate(p, ok, content))
    {
      ghost var o := State();
      Promote(p);
      if ok {
        store := store[nodes[p].backing.value := content];
        Touch(p);
      }
      StepDid(o, Op.Truncate(p, ok, content), State());
    }

    method Chmod(p: Path, perm: nat)
      requires Inv(State()) && p in nodes
      modifies this`nodes
      ensures Did(old(State()), Op.Chmod(p, perm))
    {
      ghost var o := State();
      nodes := nodes[p := nodes[p].(perm := perm)];
      Touch(p);
      StepDid(o, Op.Chmod(p, perm), State());
    }

    /** Reap: the difference between the read-only tree and the view, exactly if no node hides one. */
    method Reap() returns (m: map<Path, Result>)
      requires Inv(State())
      ensures m == Diff(State())
      ensures Patched(State(), m) == View(State()) <==> Honest(State())
    {
      InvHung(State());
      m := ReapDeleted(ro, deleted);
      m := ReapNode(nodes, Root, m);
      ReapIsDiff(State());
      DiffIsView(State());
    }

    /** The end of memNode.reset: the node itself, its children having been dealt with. */
    method ResetSelf(p: Path, ghost was: Nodes) returns (cut: bool)
      requires Hung(was) && p in was && nodes == ResetIn(ro, was, p, ChildNames(was, p))
      modifies this`nodes
      ensures cut <==> !Stands(ro, was, p)
      ensures nodes == ResetAt(ro, was, p)
    {
      ResetAll(ro, was, p);
      var self := nodes[p];
      if self.backing.Some? || self.original != Some(p) {
        return true;
      }
      if self.changed {
        if p !in ro {
          return true;
        }
        nodes := nodes[p := self.(perm := FreshNode(ro, p).perm)];
      }
      cut := false;
    }

    /** memNode.reset; the result says that the node is to be cut off. */
    method ResetNode(p: Path) returns (cut: bool)
      requires Hung(nodes) && p in nodes
      modifies this`nodes
      ensures cut <==> !Stands(ro, old(nodes), p)
      ensures nodes == ResetAt(ro, old(nodes), p)
      decreases Within(nodes.Keys, p)
    {
      ghost var was := nodes;
      var names := ChildNames(nodes, p);
      var rest := names;
      OneLess(names, names, {});
      ResetNone(ro, was, p);
      while rest != {}
        invariant rest <= names
        invariant nodes == ResetIn(ro, was, p, names - rest)
        decreases |rest|
      {
        var n: Name :| n in rest;
        ResetReady(ro, was, p, names - rest, n);
        ResetBranch(ro, was, p, names - rest, n);
        OneLess(names, rest, {n});
        var notify := ResetNode(Child(p, n));
        if notify {
          nodes := Outside(nodes, Child(p, n));
        }
        rest := rest - {n};
      }
      assert names - {} == names;
      cut := ResetSelf(p, was);
    }

    /** Reset: the view is the read-only tree again. */
    method Reset()
      requires Inv(State())
      modifies this`nodes, this`deleted, this`store
      ensures Did(old(State()), Op.Reset) && View(State()) == ro
    {
      ghost var o := State();
      InvHung(o);
      var notify := ResetNode(Root);
      deleted := {};
      store := map[];
      assert State() == DoReset(o) by {
        ResetIs(o);
      }
      ResetDid(o);
    }

    /** The subtree taken along: expanded and marked, if it still follows the read-only tree. */
    method TakeAlong(sub0: Nodes, src: Path, ghost o: Overlay) returns (sub: Nodes)
      requires Inv(o) && src in o.nodes && sub0 == Under(o.nodes, src) && o.ro == ro && SameMarks(o, deleted, src)
      ensures sub == Carried(o, src)
    {
      sub := sub0;
      if sub[src].original.Some? {
        assert NodeOk(o, src);
        if sub[src].kind == Directory {
          SubtreeFits(o, src);
          sub := Materialize(ro, deleted, sub, src, o, sub.Keys + ro.Keys);
          ExpansionIs(o, src);
          ExpandedHung(o, src);
        } else {
          LeafAlone(o, src);
          sub := sub[src := sub[src].(changed := true)];
        }
        sub := MarkChanged(sub, src);
      }
    }

    /** The subtree is hung at its new place, in place of whatever was there. */
    method Reattach(d: Path, name: Name, toDir: Path, toName: Name, others: Nodes, sub: Nodes, ghost o: Overlay)
      requires DirNode(o, d) && UnionOps.Apart(Child(d, name), Child(toDir, toName)) && Child(d, name) in o.nodes
      requires others == Outside(o.nodes, Child(d, name)) && sub == Carried(o, Child(d, name))
      requires State() == o.(nodes := nodes, deleted := Marked(o, o.nodes[d], name))
      modifies this`nodes
      ensures State() == DoRename(o, d, name, toDir, toName)
    {
      RenameIs(o, d, name, toDir, toName, others, sub);
      nodes := Outside(others, Child(toDir, toName)) + Relocate(sub, Child(d, name), Child(toDir, toName));
      nodes := nodes[d := nodes[d].(changed := true)];
    }

    method Rename(d: Path, name: Name, toDir: Path, toName: Name) returns (found: bool)
      requires Inv(State()) && RenameIssued(State(), d, name, toDir, toName)
      modifies this`nodes, this`deleted
      ensures Did(old(State()), Op.Rename(d, name, toDir, toName))
      ensures found <==> Child(d, name) in old(nodes)
    {
      ghost var o := State();
      var src := Child(d, name);
      RenameDid(o, d, name, toDir, toName);
      found := src in nodes;
      if !found {
        return;
      }
      MoveNodes(d, name, toDir, toName);
    }

    /** Rename once the source has been found. */
    method MoveNodes(d: Path, name: Name, toDir: Path, toName: Name)
      requires Inv(State()) && DirNode(State(), d) && Child(d, name) in nodes
      requires UnionOps.Apart(Child(d, name), Child(toDir, toName))
      modifies this`nodes, this`deleted
      ensures State() == DoRename(old(State()), d, name, toDir, toName)
    {
      ghost var o := State();
      var src := Child(d, name);
      MarksBelow(o, d, name);
      var sub, others := Under(nodes, src), Outside(nodes, src);
      MarkDeleted(d, name);
      sub := TakeAlong(sub, src, o);
      Reattach(d, name, toDir, toName, others, sub, o);
    }

    /** Whatever the kernel asks for. */
    method Perform(op: Op)
      requires Inv(State()) && Enabled(State(), op)
      modifies this
      ensures Did(old(State()), op)
    {
      var found;
      match op
      case Lookup(d, name) => var child := Lookup(d, name);
      case Mkdir(d, name, perm) => Mkdir(d, name, perm);
      case Create(d, name, perm) => Create(d, name, perm);
      case MakeLink(d, name, target) => Symlink(d, name, target);
      case Unlink(d, name) => found := Unlink(d, name);
      case OpenWrite(p) => OpenWrite(p);
      case Write(p, content) => Write(p, content);
      case Truncate(p, ok, content) => Truncate(p, ok, content);
      case Chmod(p, perm) => Chmod(p, perm);
      case Rename(d, name, toDir, toName) => found := Rename(d, name, toDir, toName);
      case Reset => Reset();
    }

    /** A task's run, one operation after the other. */
    method PerformAll(ops: seq<Op>)
      requires Inv(State()) && Legal(State(), ops)
      modifies this
      ensures State() == Run(old(State()), ops) && Inv(State())
    {
      ghost var o := State();
      for i := 0 to |ops|
        invariant Inv(State()) && Legal(State(), ops[i..])
        invariant Run(State(), ops[i..]) == Run(o, ops)
      {
        assert ops[i..][0] == ops[i] && ops[i..][1..] == ops[i + 1..];
        Perform(ops[i]);
      }
    }
  }
}
