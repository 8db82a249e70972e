/** Every operation of the union file system keeps its invariant, and changes the union view as
    the same operation changes a plain tree; for Rename, exactly when no change below the renamed
    directory is thrown away by its expansion. */
module UnionProofs {
  import opened Paths
  import opened Trees
  import opened Overlays
  import opened UnionOps

  // ---------------------------------------------------------------- replacing or adding one node

  /** The node at `q` is the same in both states, up to a touch, and so is its backing file. */
  predicate SameNode(o: Overlay, o': Overlay, q: Path) {
    && q in o.nodes && q in o'.nodes
    && o'.nodes[q].(changed := false) == o.nodes[q].(changed := false)
    && (o.nodes[q].changed ==> o'.nodes[q].changed)
    && o.nextFree <= o'.nextFree
    && (o.nodes[q].backing.Some? && o.nodes[q].backing.value in o.store ==>
          && o.nodes[q].backing.value in o'.store
          && o'.store[o.nodes[q].backing.value] == o.store[o.nodes[q].backing.value])
  }

  lemma NodeStable(o: Overlay, o': Overlay, q: Path)
    requires SameNode(o, o', q) && NodeOk(o, q) && o'.ro == o.ro && o'.deleted == o.deleted
    requires q.Child? ==> q.parent in o'.nodes && o'.nodes[q.parent].kind == Directory
    ensures NodeOk(o', q)
    ensures EntryOf(o', o'.nodes[q]) == EntryOf(o, o.nodes[q])
  {
  }

  /** `o'` differs from `o` in the node at `p` only. */
  predicate OnlyAt(o: Overlay, o': Overlay, p: Path) {
    && p in o'.nodes && o'.ro == o.ro && o'.deleted == o.deleted
    && o'.nodes.Keys == o.nodes.Keys + {p}
    && (forall q :: q in o.nodes && q != p ==> SameNode(o, o', q))
    && (o'.nodes[p].backing.Some? ==>
          forall q :: q in o.nodes && q != p ==> o.nodes[q].backing != o'.nodes[p].backing)
  }

  lemma OnlyAtNode(o: Overlay, o': Overlay, p: Path, q: Path)
    requires OnlyAt(o, o', p) && q in o.nodes && q != p && NodeOk(o, q)
    requires p in o.nodes ==> o'.nodes[p].kind == o.nodes[p].kind
    ensures NodeOk(o', q)
  {
    assert SameNode(o, o', q);
    if q.Child? && q.parent != p {
      assert SameNode(o, o', q.parent);
    }
    NodeStable(o, o', q);
  }

  lemma OnlyAtBacking(o: Overlay, o': Overlay, p: Path, q: Path, r: Path)
    requires Inv(o) && OnlyAt(o, o', p) && q in o'.nodes && r in o'.nodes && q != r && o'.nodes[q].backing.Some?
    ensures o'.nodes[q].backing != o'.nodes[r].backing
  {
    assert q != p ==> SameNode(o, o', q);
    assert r != p ==> SameNode(o, o', r);
  }

  lemma {:induction false} OnlyAtInv(o: Overlay, o': Overlay, p: Path)
    requires Inv(o) && OnlyAt(o, o', p) && NodeOk(o', p)
    requires p in o.nodes ==> o'.nodes[p].kind == o.nodes[p].kind
    ensures Inv(o')
  {
    forall q | q in o'.nodes ensures NodeOk(o', q) {
      if q != p {
        OnlyAtNode(o, o', p, q);
      }
    }
    forall q, r | q in o'.nodes && r in o'.nodes && q != r && o'.nodes[q].backing.Some?
      ensures o'.nodes[q].backing != o'.nodes[r].backing
    {
      OnlyAtBacking(o, o', p, q, r);
    }
    assert Root in o'.nodes;
  }

  lemma OnlyAtLooks(o: Overlay, o': Overlay, p: Path, t: Tree, q: Path)
    requires OnlyAt(o, o', p) && LooksAt(o, t, q) && (q in o.nodes ==> SourceOk(o, o.nodes[q]))
    ensures LooksAt(o', t[p := EntryOf(o', o'.nodes[p])], q)
  {
    if q in o.nodes && q != p {
      assert SameNode(o, o', q);
      assert EntryOf(o', o'.nodes[q]) == EntryOf(o, o.nodes[q]);
    }
  }

  lemma {:induction false} OnlyAtView(o: Overlay, o': Overlay, p: Path)
    requires Inv(o) && OnlyAt(o, o', p) && Inv(o')
    ensures View(o') == View(o)[p := EntryOf(o', o'.nodes[p])]
  {
    var t := View(o);
    var t' := t[p := EntryOf(o', o'.nodes[p])];
    forall q ensures LooksAt(o', t', q) {
      ViewAt(o, q);
      assert q in o.nodes ==> NodeOk(o, q);
      OnlyAtLooks(o, o', p, t, q);
    }
    ViewIs(o', t');
  }

  /** Replacing one node by another of its kind. */
  lemma {:induction false} ReplaceNode(o: Overlay, o': Overlay, p: Path)
    requires Inv(o) && p in o.nodes && OnlyAt(o, o', p)
    requires o'.nodes[p].kind == o.nodes[p].kind && SourceOk(o', o'.nodes[p])
    requires o'.nodes[p].original == o.nodes[p].original
          || (o.nodes[p].kind != Directory && o'.nodes[p].original.None? && o'.nodes[p].backing.Some?)
    requires o.nodes[p].backing.Some? ==> o'.nodes[p].backing.Some?
    requires !o'.nodes[p].changed ==> !o.nodes[p].changed && EntryOf(o', o'.nodes[p]) == EntryOf(o, o.nodes[p])
    ensures Inv(o')
    ensures View(o') == View(o)[p := EntryOf(o', o'.nodes[p])]
  {
    assert NodeOk(o, p);
    assert p.Child? ==> SameNode(o, o', p.parent);
    OnlyAtInv(o, o', p);
    OnlyAtView(o, o', p);
  }

  lemma SameEntry(t: Tree, p: Path, e: Entry)
    requires p in t && t[p] == e
    ensures t[p := e] == t
  {
  }

  /** Replacing a node by one that reports the same leaves the view alone. */
  lemma {:induction false} ReplaceSame(o: Overlay, o': Overlay, p: Path)
    requires Inv(o) && p in o.nodes && OnlyAt(o, o', p)
    requires o'.nodes[p].kind == o.nodes[p].kind && SourceOk(o', o'.nodes[p])
    requires o'.nodes[p].original == o.nodes[p].original
          || (o.nodes[p].kind != Directory && o'.nodes[p].original.None? && o'.nodes[p].backing.Some?)
    requires o.nodes[p].backing.Some? ==> o'.nodes[p].backing.Some?
    requires !o'.nodes[p].changed ==> !o.nodes[p].changed
    requires EntryOf(o', o'.nodes[p]) == EntryOf(o, o.nodes[p])
    ensures Inv(o') && View(o') == View(o)
  {
    ReplaceNode(o, o', p);
    ViewAt(o, p);
    SameEntry(View(o), p, EntryOf(o, o.nodes[p]));
  }

  lemma {:induction false} TouchOk(o: Overlay, p: Path)
    requires Inv(o) && p in o.nodes
    ensures Inv(Touch(o, p)) && View(Touch(o, p)) == View(o)
  {
    var o' := Touch(o, p);
    assert SourceOk(o', o'.nodes[p]) && EntryOf(o', o'.nodes[p]) == EntryOf(o, o.nodes[p]) by {
      assert NodeOk(o, p);
    }
    ReplaceSame(o, o', p);
  }

  lemma LeafInTree(t: Tree, p: Path)
    requires WfTree(t) && p in t
    ensures !t[p].Dir? ==> forall q :: q in t ==> !Below(p, q)
  {
    forall q | q in t && Below(p, q) ensures t[p].Dir? {
      AncestorsInTree(t, p, q);
    }
  }

  lemma LookupNode(o: Overlay, d: Path, name: Name)
    requires Inv(o) && DirNode(o, d) && DoLookup(o, d, name) != o
    ensures var o', p := DoLookup(o, d, name), Child(d, name);
      OnlyAt(o, o', p) && p !in o.nodes && NodeOk(o', p) && Shows(o, p) && EntryOf(o', o'.nodes[p]) == o.ro[p]
  {
    assert NodeOk(o, d);
    LeafInTree(o.ro, Child(d, name));
  }

  lemma {:induction false} LookupOk(o: Overlay, d: Path, name: Name)
    requires Inv(o) && DirNode(o, d)
    ensures Inv(DoLookup(o, d, name)) && View(DoLookup(o, d, name)) == View(o)
  {
    var p := Child(d, name);
    var o' := DoLookup(o, d, name);
    if o' != o {
      LookupNode(o, d, name);
      OnlyAtInv(o, o', p);
      OnlyAtView(o, o', p);
      ViewAt(o, p);
      SameEntry(View(o), p, o.ro[p]);
    }
  }

  /** A new, changed node at a free name. */
  lemma AddChildOk(o: Overlay, d: Path, name: Name, n: Node)
    requires Inv(o) && DirNode(o, d) && Child(d, name) !in View(o)
    requires n.changed && n.original.None? && SourceOk(o, n)
    requires n.backing.Some? ==> forall q :: q in o.nodes ==> o.nodes[q].backing != n.backing
    ensures Inv(AddChild(o, d, name, n))
    ensures View(AddChild(o, d, name, n)) == View(o)[Child(d, name) := EntryOf(o, n)]
  {
    var p := Child(d, name);
    FreeNameHides(o, p);
    ViewAt(o, p);
    var o' := o.(nodes := o.nodes[p := n]);
    OnlyAtInv(o, o', p);
    OnlyAtView(o, o', p);
    TouchOk(o', d);
  }

  lemma {:induction false} NewBackingOk(o: Overlay, content: Blob)
    requires Inv(o)
    ensures Inv(NewBacking(o, content)) && View(NewBacking(o, content)) == View(o)
    ensures forall q :: q in o.nodes ==> o.nodes[q].backing != Some(o.nextFree)
  {
    assert forall q :: q in o.nodes ==> NodeOk(o, q);
    assert NodeOk(o, Root);
    ReplaceSame(o, NewBacking(o, content), Root);
  }

  lemma {:induction false} MkdirOk(o: Overlay, d: Path, name: Name, perm: nat)
    requires Inv(o) && Enabled(o, Mkdir(d, name, perm))
    ensures Inv(DoMkdir(o, d, name, perm))
    ensures View(DoMkdir(o, d, name, perm)) == View(o)[Child(d, name) := Dir(perm)]
  {
    AddChildOk(o, d, name, Node(Directory, perm, "", None, None, true));
  }

  lemma SymlinkOk(o: Overlay, d: Path, name: Name, target: string)
    requires Inv(o) && Enabled(o, MakeLink(d, name, target))
    ensures Inv(DoSymlink(o, d, name, target))
    ensures View(DoSymlink(o, d, name, target)) == View(o)[Child(d, name) := Link(target)]
  {
    AddChildOk(o, d, name, Node(Symlink, 0, target, None, None, true));
  }

  lemma {:induction false} CreateOk(o: Overlay, d: Path, name: Name, perm: nat)
    requires Inv(o) && Enabled(o, Create(d, name, perm))
    ensures Inv(DoCreate(o, d, name, perm))
    ensures View(DoCreate(o, d, name, perm)) == View(o)[Child(d, name) := File(perm, Blob(""))]
  {
    NewBackingOk(o, Blob(""));
    AddChildOk(NewBacking(o, Blob("")), d, name, Node(Regular, perm, "", None, Some(o.nextFree), true));
  }

  lemma {:induction false} PromoteOk(o: Overlay, p: Path)
    requires Inv(o) && FileNode(o, p)
    ensures Inv(Promote(o, p)) && View(Promote(o, p)) == View(o)
    ensures FileNode(Promote(o, p), p) && Promote(o, p).nodes[p].backing.Some?
  {
    if o.nodes[p].backing.None? {
      PromotedNode(o, p);
      ReplaceSame(o, Promote(o, p), p);
    }
  }

  lemma PromotedNode(o: Overlay, p: Path)
    requires Inv(o) && FileNode(o, p) && o.nodes[p].backing.None?
    ensures var o' := Promote(o, p);
      OnlyAt(o, o', p) && SourceOk(o', o'.nodes[p]) && EntryOf(o', o'.nodes[p]) == EntryOf(o, o.nodes[p])
  {
    assert forall q :: q in o.nodes ==> NodeOk(o, q);
  }

  /** Writing a touched file changes that file alone. */
  lemma {:induction false} WriteOk(o: Overlay, p: Path, content: Blob)
    requires Inv(o) && FileNode(o, p) && o.nodes[p].backing.Some? && o.nodes[p].changed
    ensures Inv(DoWrite(o, p, content)) && p in View(o) && View(o)[p].File?
    ensures View(DoWrite(o, p, content)) == View(o)[p := File(View(o)[p].perm, content)]
  {
    assert NodeOk(o, p);
    ReplaceNode(o, DoWrite(o, p, content), p);
    ViewAt(o, p);
  }

  lemma {:induction false} TruncateOk(o: Overlay, p: Path, ok: bool, content: Blob)
    requires Inv(o) && FileNode(o, p)
    ensures Inv(DoTruncate(o, p, ok, content)) && p in View(o) && View(o)[p].File?
    ensures View(DoTruncate(o, p, ok, content)) ==
      if ok then View(o)[p := File(View(o)[p].perm, content)] else View(o)
  {
    ViewAt(o, p);
    PromoteOk(o, p);
    if ok {
      TruncatedIsWritten(Promote(o, p), p, content);
    }
  }

  lemma {:induction false} TruncatedIsWritten(o: Overlay, p: Path, content: Blob)
    requires Inv(o) && FileNode(o, p) && o.nodes[p].backing.Some?
    ensures Inv(Touch(DoWrite(o, p, content), p)) && p in View(o) && View(o)[p].File?
    ensures View(Touch(DoWrite(o, p, content), p)) == View(o)[p := File(View(o)[p].perm, content)]
  {
    TouchOk(o, p);
    WriteOk(Touch(o, p), p, content);
    assert Touch(DoWrite(o, p, content), p) == DoWrite(Touch(o, p), p, content);
  }

  lemma {:induction false} ChmodOk(o: Overlay, p: Path, perm: nat)
    requires Inv(o) && p in o.nodes
    ensures Inv(DoChmod(o, p, perm)) && p in View(o)
    ensures View(DoChmod(o, p, perm)) == View(o)[p := WithPerm(View(o)[p], perm)]
  {
    var o' := DoChmod(o, p, perm);
    assert SourceOk(o', o'.nodes[p]) && EntryOf(o', o'.nodes[p]) == WithPerm(EntryOf(o, o.nodes[p]), perm) by {
      assert NodeOk(o, p);
    }
    ReplaceNode(o, o', p);
    ViewAt(o, p);
  }

  // ---------------------------------------------------------------- removing a name

  lemma {:induction false} NodeAncestors(o: Overlay, a: Path, q: Path)
    requires Inv(o) && q in o.nodes && Covers(a, q)
    ensures a in o.nodes
    ensures a != q ==> o.nodes[a].kind == Directory
  {
    if a != q {
      assert NodeOk(o, q);
      NodeAncestors(o, a, q.parent);
    }
  }

  /** After a name has been marked, nothing of the read-only tree shows at it or below it, and
      what showed elsewhere still shows. */
  lemma MarkedShows(o: Overlay, o': Overlay, d: Path, name: Name, q: Path)
    requires Inv(o) && DirNode(o, d) && o'.ro == o.ro && o'.deleted == Marked(o, o.nodes[d], name)
    ensures Shows(o', q) <==> Shows(o, q) && !Covers(Child(d, name), q)
    ensures !Covers(Child(d, name), q) ==> (Covered(o'.deleted, q) <==> Covered(o.deleted, q))
    ensures Covered(o.deleted, q) ==> Covered(o'.deleted, q)
  {
    assert NodeOk(o, d);
    CoveredAdd(o.deleted, Child(d, name), q);
    if !LiveDir(o.nodes[d], d) && Covers(Child(d, name), q) {
      BelowTransitive(d, Child(d, name), q);
    }
  }

  /** A node outside the removed name is not disturbed by the removal. */
  lemma MarkedStable(o: Overlay, o': Overlay, d: Path, name: Name, q: Path)
    requires Inv(o) && DirNode(o, d) && SameNode(o, o', q) && !Covers(Child(d, name), q)
    requires o'.ro == o.ro && o'.deleted == Marked(o, o.nodes[d], name)
    requires q.Child? ==> q.parent in o'.nodes && o'.nodes[q.parent].kind == Directory
    ensures NodeOk(o', q) && EntryOf(o', o'.nodes[q]) == EntryOf(o, o.nodes[q])
  {
    assert NodeOk(o, q);
    MarkedShows(o, o', d, name, q);
    forall r | HidesBelow(o, q) && r in o.ro && Below(q, r) ensures Covered(o'.deleted, r) {
      MarkedShows(o, o', d, name, r);
    }
  }

  lemma UnlinkInv(o: Overlay, d: Path, name: Name)
    requires Inv(o) && DirNode(o, d)
    ensures Inv(DoUnlink(o, d, name))
    ensures forall q :: q in DoUnlink(o, d, name).nodes <==> q in o.nodes && !Covers(Child(d, name), q)
  {
    var p := Child(d, name);
    var o' := DoUnlink(o, d, name);
    ParentNotCovered(Child(d, name));
    assert NodeOk(o, d);
    forall q | q in o.nodes && Covers(p, q) ensures p in o.nodes {
      NodeAncestors(o, p, q);
    }
    forall q | q in o'.nodes ensures NodeOk(o', q) {
      UnlinkNode(o, d, name, q);
    }
  }

  lemma UnlinkNode(o: Overlay, d: Path, name: Name, q: Path)
    requires Inv(o) && DirNode(o, d) && q in o.nodes && !Covers(Child(d, name), q)
    ensures NodeOk(DoUnlink(o, d, name), q)
  {
    ParentNotCovered(Child(d, name));
    assert NodeOk(o, q);
    MarkedStable(o, DoUnlink(o, d, name), d, name, q);
  }

  lemma UnlinkOk(o: Overlay, d: Path, name: Name)
    requires Inv(o) && DirNode(o, d)
    ensures Inv(DoUnlink(o, d, name))
    ensures View(DoUnlink(o, d, name)) == Outside(View(o), Child(d, name))
  {
    var o' := DoUnlink(o, d, name);
    UnlinkInv(o, d, name);
    var t := Outside(View(o), Child(d, name));
    forall q ensures LooksAt(o', t, q) {
      ViewAt(o, q);
      UnlinkLooks(o, o', d, name, View(o), q);
    }
    ViewIs(o', t);
  }

  lemma UnlinkLooks(o: Overlay, o': Overlay, d: Path, name: Name, t: Tree, q: Path)
    requires Inv(o) && DirNode(o, d) && o' == DoUnlink(o, d, name) && LooksAt(o, t, q)
    requires q in o'.nodes <==> q in o.nodes && !Covers(Child(d, name), q)
    ensures LooksAt(o', Outside(t, Child(d, name)), q)
  {
    MarkedShows(o, o', d, name, q);
    if q in o'.nodes {
      assert SameNode(o, o', q) && EntryOf(o', o'.nodes[q]) == EntryOf(o, o.nodes[q]);
    }
  }

  // ---------------------------------------------------------------- Reset

  lemma ResetInv(o: Overlay)
    requires Inv(o)
    ensures Inv(DoReset(o))
    ensures forall p :: p in DoReset(o).nodes ==> p in o.ro && EntryOf(DoReset(o), DoReset(o).nodes[p]) == o.ro[p]
  {
    var o' := DoReset(o);
    forall q ensures !Covered(o'.deleted, q) {
      NothingCovered(q);
    }
    forall p | p in o'.nodes ensures NodeOk(o', p) && p in o.ro && EntryOf(o', o'.nodes[p]) == o.ro[p] {
      assert NodeOk(o, p);
      if p.Child? {
        assert NodeOk(o, p.parent);
      }
      LeafInTree(o.ro, p);
    }
    assert NodeOk(o, Root);
  }

  /** Reset undoes everything: the union view is the read-only tree again. */
  lemma {:induction false} ResetOk(o: Overlay)
    requires Inv(o)
    ensures Inv(DoReset(o)) && View(DoReset(o)) == o.ro
  {
    ResetInv(o);
    forall q ensures LooksAt(DoReset(o), o.ro, q) {
      NothingCovered(q);
    }
    ViewIs(DoReset(o), o.ro);
  }
}
