/** Rename in the union file system: it keeps the invariant, and it moves what is visible exactly
    when expanding the renamed directory throws no change away. */
module RenameProofs {
  import opened Paths
  import opened Trees
  import opened Overlays
  import opened UnionOps
  import opened UnionProofs

  /** The node Rename takes along for `q` is fit to hang anywhere: marked changed or with a backing
      file, cut off from the read-only tree if a directory, with its bytes still to be found. */
  predicate Portable(o: Overlay, src: Path, m: map<Path, Node>, q: Path)
    requires q in m
  {
    && (m[q].changed || m[q].backing.Some?) && SourceOk(o, m[q])
    && (m[q].kind == Directory ==> m[q].original.None?)
    && (m[q].backing.Some? ==> q in o.nodes && o.nodes[q].backing == m[q].backing)
    && (q != src ==> q.Child? && q.parent in m && m[q.parent].kind == Directory)
  }

  lemma UnderPortable(o: Overlay, src: Path, q: Path)
    requires Inv(o) && src in o.nodes && o.nodes[src].original.None?
    requires q in o.nodes && Covers(src, q)
    ensures Portable(o, src, Under(o.nodes, src), q)
  {
    assert NodeOk(o, src) && NodeOk(o, q);
    if q != src {
      NodeAncestors(o, src, q.parent);
    }
  }

  lemma KeptIsKept(o: Overlay, src: Path, q: Path)
    requires Inv(o) && src in o.nodes && LiveDir(o.nodes[src], src) && Kept(o, src, q)
    ensures q.parent == src || (Kept(o, src, q.parent) && o.nodes[q.parent].kind == Directory)
    ensures !LiveDir(o.nodes[q], q)
  {
    assert NodeOk(o, q);
  }

  lemma {:induction false} MaterializedPortable(o: Overlay, src: Path, q: Path)
    requires Inv(o) && src in o.nodes && LiveDir(o.nodes[src], src) && q in Materialized(o, src)
    ensures Portable(o, src, Materialized(o, src), q)
  {
    assert NodeOk(o, src);
    if Refreshed(o, src, q) {
      if q.parent != src {
        assert Refreshed(o, src, q.parent);
      }
    } else if q != src {
      assert NodeOk(o, q);
      KeptIsKept(o, src, q);
    }
  }

  lemma CarriedPortable(o: Overlay, src: Path)
    requires Inv(o) && src in o.nodes
    ensures src in Carried(o, src)
    ensures forall q :: q in Carried(o, src) ==> Portable(o, src, Carried(o, src), q)
  {
    assert NodeOk(o, src);
    NotBelowItself(src);
    forall q | q in Carried(o, src) ensures Portable(o, src, Carried(o, src), q) {
      if o.nodes[src].original.None? {
        UnderPortable(o, src, q);
      } else if o.nodes[src].kind == Directory {
        MaterializedPortable(o, src, q);
      }
    }
  }

  /** Nothing of the read-only tree shows through below a destination with nothing in it. */
  lemma EmptyHides(o: Overlay, dst: Path)
    requires Inv(o) && forall q :: q in View(o) ==> !Below(dst, q)
    ensures HidesBelow(o, dst)
  {
    forall q | q in o.ro && Below(dst, q) ensures Covered(o.deleted, q) {
      ViewAt(o, q);
    }
  }

  /** Where the paths of the operation lie with respect to each other. */
  lemma RenameGeometry(d: Path, name: Name, toDir: Path, toName: Name, q: Path)
    requires Apart(Child(d, name), Child(toDir, toName))
    ensures !Covers(Child(d, name), d) && !Covers(Child(toDir, toName), d)
    ensures !Covers(Child(d, name), toDir) && !Covers(Child(toDir, toName), toDir)
    ensures q.Child? && Covers(Child(d, name), q.parent) ==> Covers(Child(d, name), q)
    ensures q.Child? && Covers(Child(toDir, toName), q.parent) ==> Covers(Child(toDir, toName), q)
    ensures Covers(Child(d, name), q) ==> !Covers(Child(toDir, toName), q)
  {
    ParentNotCovered(Child(d, name));
    ParentNotCovered(Child(toDir, toName));
    if Covers(Child(d, name), q) && Covers(Child(toDir, toName), q) {
      AncestorsChain(Child(d, name), Child(toDir, toName), q);
    }
  }

  /** The nodes after a rename, path by path. */
  lemma RenamedAt(o: Overlay, d: Path, name: Name, toDir: Path, toName: Name, q: Path)
    requires Apart(Child(d, name), Child(toDir, toName)) && d in o.nodes && Child(d, name) in o.nodes
    ensures var src, dst := Child(d, name), Child(toDir, toName);
      var o' := DoRename(o, d, name, toDir, toName);
      if Covers(dst, q) then
        && (q in o'.nodes <==> Moved(dst, src, q) in Carried(o, src))
        && (q in o'.nodes ==> o'.nodes[q] == Carried(o, src)[Moved(dst, src, q)])
      else if Covers(src, q) then q !in o'.nodes
      else
        && (q in o'.nodes <==> q in o.nodes)
        && (q in o.nodes ==> SameNode(o, o', q))
  {
    RenameGeometry(d, name, toDir, toName, q);
  }

  lemma {:induction false} MovedNodeOk(o: Overlay, d: Path, name: Name, toDir: Path, toName: Name, q: Path)
    requires Inv(o) && RenameIssued(o, d, name, toDir, toName) && Child(d, name) in o.nodes
    requires q in DoRename(o, d, name, toDir, toName).nodes && Covers(Child(toDir, toName), q)
    ensures NodeOk(DoRename(o, d, name, toDir, toName), q)
  {
    var src, dst := Child(d, name), Child(toDir, toName);
    var o' := DoRename(o, d, name, toDir, toName);
    RenamedAt(o, d, name, toDir, toName, q);
    CarriedPortable(o, src);
    assert Portable(o, src, Carried(o, src), Moved(dst, src, q));
    HiddenAfter(o, o', d, name, dst, q);
    RenameGeometry(d, name, toDir, toName, q);
    RenamedAt(o, d, name, toDir, toName, q.parent);
    if q != dst {
      MovedIsCovered(dst, src, q);
      NotBelowItself(src);
    }
  }

  lemma HiddenAfter(o: Overlay, o': Overlay, d: Path, name: Name, dst: Path, q: Path)
    requires Inv(o) && DirNode(o, d) && o'.ro == o.ro && o'.deleted == Marked(o, o.nodes[d], name)
    requires forall q :: q in View(o) ==> !Below(dst, q)
    requires Covers(dst, q)
    ensures HidesBelow(o', q)
  {
    EmptyHides(o, dst);
    forall x | x in o.ro && Below(q, x) ensures Covered(o'.deleted, x) {
      if q != dst {
        BelowTransitive(dst, q, x);
      }
      MarkedShows(o, o', d, name, x);
    }
  }

  lemma {:induction false} OutsideNodeOk(o: Overlay, d: Path, name: Name, toDir: Path, toName: Name, q: Path)
    requires Inv(o) && RenameIssued(o, d, name, toDir, toName) && Child(d, name) in o.nodes
    requires q in DoRename(o, d, name, toDir, toName).nodes && !Covers(Child(toDir, toName), q)
    ensures NodeOk(DoRename(o, d, name, toDir, toName), q)
  {
    var o' := DoRename(o, d, name, toDir, toName);
    RenamedAt(o, d, name, toDir, toName, q);
    RenameGeometry(d, name, toDir, toName, q);
    assert NodeOk(o, q);
    if q.Child? {
      RenamedAt(o, d, name, toDir, toName, q.parent);
    }
    MarkedStable(o, o', d, name, q);
  }

  lemma {:induction false} RenamedNodesOk(o: Overlay, d: Path, name: Name, toDir: Path, toName: Name)
    requires Inv(o) && RenameIssued(o, d, name, toDir, toName) && Child(d, name) in o.nodes
    ensures forall q :: q in DoRename(o, d, name, toDir, toName).nodes ==>
      NodeOk(DoRename(o, d, name, toDir, toName), q)
  {
    forall q | q in DoRename(o, d, name, toDir, toName).nodes
      ensures NodeOk(DoRename(o, d, name, toDir, toName), q)
    {
      if Covers(Child(toDir, toName), q) {
        MovedNodeOk(o, d, name, toDir, toName, q);
      } else {
        OutsideNodeOk(o, d, name, toDir, toName, q);
      }
    }
  }

  lemma {:induction false} RenamedBackings(o: Overlay, d: Path, name: Name, toDir: Path, toName: Name)
    requires Inv(o) && RenameIssued(o, d, name, toDir, toName) && Child(d, name) in o.nodes
    ensures var m := DoRename(o, d, name, toDir, toName).nodes;
      forall p, q :: p in m && q in m && p != q && m[p].backing.Some? ==> m[p].backing != m[q].backing
  {
    var m := DoRename(o, d, name, toDir, toName).nodes;
    forall p, q | p in m && q in m && p != q && m[p].backing.Some? ensures m[p].backing != m[q].backing {
      BackingsApart(o, d, name, toDir, toName, p, q);
    }
  }

  lemma {:induction false} RenameInv(o: Overlay, d: Path, name: Name, toDir: Path, toName: Name)
    requires Inv(o) && RenameIssued(o, d, name, toDir, toName)
    ensures Inv(DoRename(o, d, name, toDir, toName))
  {
    if Child(d, name) in o.nodes {
      RenamedNodesOk(o, d, name, toDir, toName);
      RenamedBackings(o, d, name, toDir, toName);
      RenamedAt(o, d, name, toDir, toName, Root);
    }
  }

  lemma {:induction false} BackingsApart(o: Overlay, d: Path, name: Name, toDir: Path, toName: Name, p: Path, q: Path)
    requires Inv(o) && RenameIssued(o, d, name, toDir, toName) && Child(d, name) in o.nodes && p != q
    requires p in DoRename(o, d, name, toDir, toName).nodes && q in DoRename(o, d, name, toDir, toName).nodes
    ensures var o' := DoRename(o, d, name, toDir, toName);
      o'.nodes[p].backing.Some? ==> o'.nodes[p].backing != o'.nodes[q].backing
  {
    CameFrom(o, d, name, toDir, toName, p);
    CameFrom(o, d, name, toDir, toName, q);
    CameFromInjective(d, name, toDir, toName, p, q);
  }

  /** The path a node of the new tree had before. */
  function Before(src: Path, dst: Path, q: Path): Path {
    if Covers(dst, q) then Moved(dst, src, q) else q
  }

  lemma {:induction false} CameFrom(o: Overlay, d: Path, name: Name, toDir: Path, toName: Name, q: Path)
    requires Inv(o) && RenameIssued(o, d, name, toDir, toName) && Child(d, name) in o.nodes
    requires q in DoRename(o, d, name, toDir, toName).nodes
    ensures var o' := DoRename(o, d, name, toDir, toName);
      var r := Before(Child(d, name), Child(toDir, toName), q);
      && (o'.nodes[q].backing.Some? ==> r in o.nodes && o.nodes[r].backing == o'.nodes[q].backing)
      && (!Covers(Child(toDir, toName), q) ==> !Covers(Child(d, name), q))
  {
    var src, dst := Child(d, name), Child(toDir, toName);
    RenamedAt(o, d, name, toDir, toName, q);
    if Covers(dst, q) {
      CarriedPortable(o, src);
      assert Portable(o, src, Carried(o, src), Moved(dst, src, q));
    }
  }

  lemma CameFromInjective(d: Path, name: Name, toDir: Path, toName: Name, p: Path, q: Path)
    requires Apart(Child(d, name), Child(toDir, toName)) && p != q
    requires !Covers(Child(toDir, toName), p) ==> !Covers(Child(d, name), p)
    requires !Covers(Child(toDir, toName), q) ==> !Covers(Child(d, name), q)
    ensures Before(Child(d, name), Child(toDir, toName), p) != Before(Child(d, name), Child(toDir, toName), q)
  {
    var src, dst := Child(d, name), Child(toDir, toName);
    if Covers(dst, p) {
      MovedBack(dst, src, p);
    }
    if Covers(dst, q) {
      MovedBack(dst, src, q);
    }
  }

  // ---------------------------------------------------------------- what is visible afterwards

  /** What the nodes Rename takes along report. */
  function CarriedEntries(o: Overlay, src: Path): (t: Tree)
    requires src in o.nodes
    ensures forall q :: q in t ==> Covers(src, q)
  {
    var m := Carried(o, src);
    map q | q in m :: EntryOf(o, m[q])
  }

  lemma EntrySame(o: Overlay, o': Overlay, n: Node)
    requires o'.ro == o.ro && o'.store == o.store
    ensures EntryOf(o', n) == EntryOf(o, n)
  {
  }

  function RenamedTree(o: Overlay, src: Path, dst: Path, t: Tree): Tree
    requires src in o.nodes
  {
    Outside(Outside(t, src), dst) + Relocate(CarriedEntries(o, src), src, dst)
  }

  lemma RenamedTreeInside(o: Overlay, src: Path, dst: Path, t: Tree, q: Path)
    requires src in o.nodes && Covers(dst, q)
    ensures var tree, r := RenamedTree(o, src, dst, t), Moved(dst, src, q);
      && (q in tree <==> r in Carried(o, src))
      && (q in tree ==> tree[q] == EntryOf(o, Carried(o, src)[r]))
  {
  }

  lemma {:induction false} RenameLooksInside(o: Overlay, d: Path, name: Name, toDir: Path, toName: Name, t: Tree,
                                             q: Path)
    requires Inv(o) && RenameIssued(o, d, name, toDir, toName) && Child(d, name) in o.nodes
    requires Covers(Child(toDir, toName), q)
    ensures LooksAt(DoRename(o, d, name, toDir, toName), RenamedTree(o, Child(d, name), Child(toDir, toName), t), q)
  {
    var src, dst := Child(d, name), Child(toDir, toName);
    var o' := DoRename(o, d, name, toDir, toName);
    RenamedAt(o, d, name, toDir, toName, q);
    RenamedTreeInside(o, src, dst, t, q);
    if q in o'.nodes {
      EntrySame(o, o', o'.nodes[q]);
    } else {
      assert q != dst by {
        assert src in Carried(o, src) by {
          CarriedPortable(o, src);
        }
      }
      HiddenAfter(o, o', d, name, dst, dst);
    }
  }

  lemma {:induction false} RenameLooksOutside(o: Overlay, d: Path, name: Name, toDir: Path, toName: Name, t: Tree,
                                              q: Path)
    requires Inv(o) && RenameIssued(o, d, name, toDir, toName) && Child(d, name) in o.nodes
    requires !Covers(Child(toDir, toName), q) && LooksAt(o, t, q)
    ensures LooksAt(DoRename(o, d, name, toDir, toName), RenamedTree(o, Child(d, name), Child(toDir, toName), t), q)
  {
    var o' := DoRename(o, d, name, toDir, toName);
    RenamedAt(o, d, name, toDir, toName, q);
    MarkedShows(o, o', d, name, q);
    if q in o'.nodes {
      EntrySame(o, o', o'.nodes[q]);
    }
  }

  lemma {:induction false} RenameView(o: Overlay, d: Path, name: Name, toDir: Path, toName: Name)
    requires Inv(o) && RenameIssued(o, d, name, toDir, toName) && Child(d, name) in o.nodes
    ensures View(DoRename(o, d, name, toDir, toName)) ==
            RenamedTree(o, Child(d, name), Child(toDir, toName), View(o))
  {
    var o' := DoRename(o, d, name, toDir, toName);
    var t := RenamedTree(o, Child(d, name), Child(toDir, toName), View(o));
    RenameInv(o, d, name, toDir, toName);
    forall q ensures LooksAt(o', t, q) {
      ViewAt(o, q);
      if Covers(Child(toDir, toName), q) {
        RenameLooksInside(o, d, name, toDir, toName, View(o), q);
      } else {
        RenameLooksOutside(o, d, name, toDir, toName, View(o), q);
      }
    }
    ViewIs(o', t);
  }

  /** Expanding `src` throws no change away: a node that would be looked up again reports what the
      read-only tree has there, and no other node hangs below one that is looked up again. */
  predicate NothingLost(o: Overlay, src: Path) {
    src in o.nodes && LiveDir(o.nodes[src], src) ==>
      forall q :: q in o.nodes && Below(src, q) ==>
        if Shows(o, q) then EntryOf(o, o.nodes[q]) == o.ro[q] else Kept(o, src, q)
  }

  lemma {:induction false} CarriedAt(o: Overlay, src: Path, t: Tree, q: Path)
    requires Inv(o) && src in o.nodes
    requires Covers(src, q) && LooksAt(o, t, q)
    ensures var same :=
        && (q in t <==> q in CarriedEntries(o, src))
        && (q in t ==> t[q] == CarriedEntries(o, src)[q]);
      same <==>
        !(LiveDir(o.nodes[src], src) && q in o.nodes && Below(src, q) &&
          !(if Shows(o, q) then EntryOf(o, o.nodes[q]) == o.ro[q] else Kept(o, src, q)))
  {
    assert NodeOk(o, src);
    NotBelowItself(src);
    if q in o.nodes {
      assert NodeOk(o, q);
      NodeAncestors(o, src, q);
    } else if !LiveDir(o.nodes[src], src) {
      assert !Shows(o, q);
    }
  }

  lemma CarriedIsView(o: Overlay, src: Path)
    requires Inv(o) && src in o.nodes
    ensures CarriedEntries(o, src) == Under(View(o), src) <==> NothingLost(o, src)
  {
    var t := View(o);
    var c := CarriedEntries(o, src);
    forall q | Covers(src, q)
      ensures LooksAt(o, t, q)
      ensures ((q in t <==> q in c) && (q in t ==> t[q] == c[q])) <==>
        !(LiveDir(o.nodes[src], src) && q in o.nodes && Below(src, q) &&
          !(if Shows(o, q) then EntryOf(o, o.nodes[q]) == o.ro[q] else Kept(o, src, q)))
    {
      ViewAt(o, q);
      CarriedAt(o, src, t, q);
    }
    SameUnder(c, t, src);
  }

  lemma SameUnder(c: Tree, t: Tree, src: Path)
    requires forall q :: q in c ==> Covers(src, q)
    ensures c == Under(t, src) <==>
      forall q :: Covers(src, q) ==> (q in t <==> q in c) && (q in t ==> t[q] == c[q])
  {
    if c == Under(t, src) {
      forall q | Covers(src, q) ensures (q in t <==> q in c) && (q in t ==> t[q] == c[q]) {
        assert q in Under(t, src) <==> q in t;
      }
    }
  }

  /** Moving two subtrees to the same place gives the same tree only if they were the same. */
  lemma RelocateInjective(rest: Tree, a: Tree, b: Tree, src: Path, dst: Path)
    requires forall q :: q in a ==> Covers(src, q)
    requires forall q :: q in b ==> Covers(src, q)
    requires forall q :: q in rest ==> !Covers(dst, q)
    ensures rest + Relocate(a, src, dst) == rest + Relocate(b, src, dst) <==> a == b
  {
    var x, y := rest + Relocate(a, src, dst), rest + Relocate(b, src, dst);
    if x == y {
      forall q | Covers(src, q) ensures (q in a <==> q in b) && (q in a ==> a[q] == b[q]) {
        MovedBack(src, dst, q);
        var r := Moved(src, dst, q);
        assert (r in x <==> q in a) && (r in y <==> q in b);
      }
    }
  }

  /** Rename moves what is visible exactly when its expansion throws no change away. */
  lemma {:induction false} RenameMovesViewIff(o: Overlay, d: Path, name: Name, toDir: Path, toName: Name)
    requires Inv(o) && RenameIssued(o, d, name, toDir, toName) && Child(d, name) in o.nodes
    ensures View(DoRename(o, d, name, toDir, toName)) ==
            PlainRename(View(o), Child(d, name), Child(toDir, toName))
            <==> NothingLost(o, Child(d, name))
  {
    var src, dst := Child(d, name), Child(toDir, toName);
    RenameView(o, d, name, toDir, toName);
    CarriedIsView(o, src);
    RelocateInjective(Outside(Outside(View(o), src), dst), CarriedEntries(o, src), Under(View(o), src), src, dst);
  }
}
