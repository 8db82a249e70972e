/** Rename's first half: a detached subtree that still follows the read-only tree is expanded. The
    recursive walk and its closed form. */
module Expansion {
  import opened Paths
  import opened Trees
  import opened Overlays
  import opened UnionOps
  import opened NodeTrees

  predicate Live(sub: Nodes, p: Path)
    requires p in sub
  {
    LiveDir(sub[p], p)
  }

  /** What the walk relies on: a directory that follows the read-only tree is visible in it, and
      nothing of the read-only tree shows below any other node. */
  predicate Fits(o: Overlay, q: Path, n: Node) {
    if LiveDir(n, q) then Shows(o, q) && o.ro[q].Dir?
    else HidesBelow(o, q) && (n.kind == Directory ==> n.original.None?)
  }

  /** Every node at or below `p` fits its place, and hangs under a directory. */
  predicate Fitting(o: Overlay, sub: Nodes, p: Path) {
    && WfTree(o.ro) && p in sub
    && (forall q :: q in sub && Covers(p, q) ==> Fits(o, q, sub[q]))
    && (forall q :: q in sub && Below(p, q) ==> q.parent in sub && sub[q.parent].kind == Directory)
  }

  lemma FreshFits(o: Overlay, q: Path)
    requires WfTree(o.ro) && Shows(o, q)
    ensures Fits(o, q, FreshNode(o.ro, q))
  {
    if !o.ro[q].Dir? {
      forall r | r in o.ro
        ensures !Below(q, r)
      {
        if Below(q, r) {
          AncestorsInTree(o.ro, q, r);
        }
      }
    }
  }

  /** materializeSelf on a directory, materialize on the others. */
  function Opened(n: Node): Node {
    if n.kind == Directory then Detached(n) else n
  }

  // ---------------------------------------------------------------- closed form

  /** Replaced by a fresh node when `p` is expanded. */
  predicate Renewed(o: Overlay, sub: Nodes, p: Path, q: Path)
    requires p in sub
  {
    Below(p, q) && Live(sub, p) && Shows(o, q)
  }

  predicate Stays(o: Overlay, sub: Nodes, p: Path, q: Path)
    requires p in sub
  {
    Below(p, q) && q in sub && !Renewed(o, sub, p, q) && (q.parent == p || Stays(o, sub, p, q.parent))
  }

  predicate InExpanded(o: Overlay, sub: Nodes, p: Path, q: Path)
    requires p in sub
  {
    if Below(p, q) then Renewed(o, sub, p, q) || Stays(o, sub, p, q) else q in sub
  }

  function ExpandedAt(o: Overlay, sub: Nodes, p: Path, q: Path): Node
    requires p in sub && InExpanded(o, sub, p, q)
  {
    if !Covers(p, q) then sub[q] else Opened(if Renewed(o, sub, p, q) then FreshNode(o.ro, q) else sub[q])
  }

  function Expanded(o: Overlay, sub: Nodes, p: Path): Nodes
    requires p in sub
  {
    map q | q in sub.Keys + o.ro.Keys && InExpanded(o, sub, p, q) :: ExpandedAt(o, sub, p, q)
  }

  lemma InExpandedIff(o: Overlay, sub: Nodes, p: Path, q: Path)
    requires p in sub
    ensures q in Expanded(o, sub, p) <==> InExpanded(o, sub, p, q)
  {
  }

  // ---------------------------------------------------------------- one directory

  /** The child of `p` above `q`. */
  function Top(p: Path, q: Path): Path
    requires Below(p, q)
  {
    Child(p, Toward(p, q))
  }

  /** In a branch of `p` that one of the names looked up replaces. */
  predicate Swept(o: Overlay, p: Path, done: set<Name>, q: Path) {
    Below(p, q) && Toward(p, q) in done && Shows(o, Top(p, q))
  }

  /** The subtree after some of the read-only names in `p` have been looked up. */
  function LookedUp(o: Overlay, sub: Nodes, p: Path, done: set<Name>): Nodes {
    map q | q in sub.Keys + o.ro.Keys && (if Swept(o, p, done, q) then q == Top(p, q) else q in sub) ::
      if Swept(o, p, done, q) then FreshNode(o.ro, q) else sub[q]
  }

  /** One lookup: the new child replaces whatever hung there, and all below it. */
  lemma LookUpOne(o: Overlay, sub: Nodes, p: Path, done: set<Name>, n: Name)
    requires n !in done
    ensures var was, c := LookedUp(o, sub, p, done), Child(p, n);
      LookedUp(o, sub, p, done + {n}) == if Shows(o, c) then Outside(was, c)[c := FreshNode(o.ro, c)] else was
  {
    var c := Child(p, n);
    forall q
      ensures Swept(o, p, done + {n}, q) <==> Swept(o, p, done, q) || (Covers(c, q) && Shows(o, c))
      ensures Covers(c, q) ==> !Swept(o, p, done, q) && Below(p, q) && Top(p, q) == c
    {
      BranchAdded(p, done, n, q);
      if Covers(c, q) {
        TowardIs(p, n, q);
      }
    }
  }

  /** The directory itself, once its names have been looked up. */
  function SelfExpanded(o: Overlay, sub: Nodes, p: Path): Nodes
    requires p in sub
  {
    (if Live(sub, p) then LookedUp(o, sub, p, Names(o.ro, p)) else sub)[p := Detached(sub[p])]
  }

  // ---------------------------------------------------------------- the children in turn

  /** Branch `q` is in has been walked. */
  predicate Walked(sub: Nodes, p: Path, done: set<Name>, q: Path) {
    Below(p, q) && Toward(p, q) in done && Top(p, q) in sub && sub[Top(p, q)].kind == Directory
  }

  predicate InWalk(o: Overlay, sub: Nodes, p: Path, done: set<Name>, q: Path) {
    if Walked(sub, p, done, q) then InExpanded(o, sub, Top(p, q), q) else q in sub
  }

  function WalkedTo(o: Overlay, sub: Nodes, p: Path, done: set<Name>): Nodes {
    map q | q in sub.Keys + o.ro.Keys && InWalk(o, sub, p, done, q) ::
      if Walked(sub, p, done, q) then ExpandedAt(o, sub, Top(p, q), q) else sub[q]
  }

  lemma {:induction false} StaysSame(o: Overlay, a: Nodes, b: Nodes, p: Path, q: Path)
    requires p in a && p in b && Below(p, q)
    requires forall r :: Covers(p, r) ==> (r in a <==> r in b) && (r in a ==> a[r] == b[r])
    ensures Stays(o, a, p, q) <==> Stays(o, b, p, q)
  {
    if q.parent != p {
      StaysSame(o, a, b, p, q.parent);
    }
  }

  /** Expanding a child works on its own branch only. */
  lemma WalkOneAt(o: Overlay, sub: Nodes, p: Path, done: set<Name>, n: Name, q: Path)
    requires n !in done && Child(p, n) in sub && sub[Child(p, n)].kind == Directory
    requires Child(p, n) in WalkedTo(o, sub, p, done)
    ensures var was, goal := WalkedTo(o, sub, p, done), WalkedTo(o, sub, p, done + {n});
      var now := Expanded(o, was, Child(p, n));
      (q in now <==> q in goal) && (q in goal ==> now[q] == goal[q])
  {
    var c, was := Child(p, n), WalkedTo(o, sub, p, done);
    BranchAdded(p, done, n, q);
    NotBelowItself(c);
    if Covers(c, q) {
      TowardIs(p, n, q);
      forall r | Covers(c, r)
        ensures (r in was <==> r in sub) && (r in was ==> was[r] == sub[r])
      {
        TowardIs(p, n, r);
      }
      if q != c {
        StaysSame(o, was, sub, c, q);
      }
    }
  }

  lemma NotWalkedYet(o: Overlay, sub: Nodes, p: Path, done: set<Name>, n: Name)
    requires n !in done && Child(p, n) in sub
    ensures Child(p, n) in WalkedTo(o, sub, p, done) && WalkedTo(o, sub, p, done)[Child(p, n)] == sub[Child(p, n)]
  {
    TowardIs(p, n, Child(p, n));
  }

  lemma WalkOne(o: Overlay, sub: Nodes, p: Path, done: set<Name>, n: Name)
    requires n !in done && Child(p, n) in sub
    ensures var was := WalkedTo(o, sub, p, done);
      && Child(p, n) in was && was[Child(p, n)] == sub[Child(p, n)]
      && WalkedTo(o, sub, p, done + {n}) ==
         if sub[Child(p, n)].kind == Directory then Expanded(o, was, Child(p, n)) else was
  {
    NotWalkedYet(o, sub, p, done, n);
    var c := Child(p, n);
    if sub[c].kind == Directory {
      forall q {
        WalkOneAt(o, sub, p, done, n, q);
      }
    } else {
      forall q
        ensures Walked(sub, p, done + {n}, q) <==> Walked(sub, p, done, q)
      {
        BranchAdded(p, done, n, q);
        if Covers(c, q) {
          TowardIs(p, n, q);
        }
      }
    }
  }

  // ---------------------------------------------------------------- the children together make the whole

  lemma {:induction false} FittingAncestors(o: Overlay, sub: Nodes, p: Path, a: Path, q: Path)
    requires Fitting(o, sub, p) && q in sub && Covers(p, a) && Below(a, q)
    ensures a in sub && sub[a].kind == Directory
  {
    if a == p {
      BelowTransitive(p, q, q);
    } else {
      BelowTransitive(p, a, q);
    }
    if q.parent != a {
      FittingAncestors(o, sub, p, a, q.parent);
    }
  }

  /** Where no fresh branch starts, nothing is fresh. */
  lemma NotRenewed(o: Overlay, sub: Nodes, p: Path, q: Path)
    requires WfTree(o.ro) && p in sub && Below(p, q) && !(Live(sub, p) && Shows(o, Top(p, q)))
    ensures !Renewed(o, sub, p, q)
  {
    if Live(sub, p) && Shows(o, q) {
      var c := Top(p, q);
      if c != q {
        AncestorsInTree(o.ro, c, q);
      }
      if Covered(o.deleted, c) {
        CoveredBelow(o.deleted, c, q);
      }
    }
  }

  /** Such a branch stays as it was. */
  lemma {:induction false} StaysVia(o: Overlay, sub: Nodes, p: Path, q: Path)
    requires Fitting(o, sub, p) && Below(p, q) && !(Live(sub, p) && Shows(o, Top(p, q)))
    ensures Stays(o, sub, p, q) <==> q in sub
    ensures !Renewed(o, sub, p, q)
  {
    NotRenewed(o, sub, p, q);
    if q in sub && q.parent != p {
      StaysVia(o, sub, p, q.parent);
    }
  }

  /** Nothing old stays in a fresh branch. */
  lemma {:induction false} NoneStays(o: Overlay, sub: Nodes, p: Path, q: Path)
    requires p in sub && Below(p, q) && Live(sub, p) && Shows(o, Top(p, q))
    ensures !Stays(o, sub, p, q)
  {
    if q.parent != p {
      NoneStays(o, sub, p, q.parent);
    }
  }

  /** A child that does not show through does not follow the read-only tree. */
  lemma KeptNotLive(o: Overlay, sub: Nodes, p: Path, c: Path)
    requires Fitting(o, sub, p) && c in sub && c.Child? && c.parent == p && !(Live(sub, p) && Shows(o, c))
    ensures !Live(sub, c)
  {
    assert Fits(o, p, sub[p]) && Fits(o, c, sub[c]);
    assert Below(p, c);
  }

  lemma TopIs(p: Path, q: Path)
    requires Below(p, q)
    ensures Covers(Top(p, q), q) && Top(p, Top(p, q)) == Top(p, q) && Below(p, Top(p, q))
    ensures q != Top(p, q) ==> Below(Top(p, q), q)
  {
    TowardIs(p, Toward(p, q), Top(p, q));
  }

  /** What looking up all names of `p` leaves at `q` below it. */
  lemma SelfExpandedAt(o: Overlay, sub: Nodes, p: Path, q: Path)
    requires p in sub && Below(p, q)
    ensures var t, renewed := SelfExpanded(o, sub, p), Live(sub, p) && Shows(o, Top(p, q));
      if renewed then (q in t <==> q == Top(p, q)) && (q in t ==> t[q] == FreshNode(o.ro, q))
      else (q in t <==> q in sub) && (q in t ==> t[q] == sub[q])
  {
    NotBelowItself(p);
    var c := Top(p, q);
    assert Shows(o, c) ==> c.name in Names(o.ro, p);
  }

  ghost predicate SameNodeAt(a: Nodes, b: Nodes, q: Path) {
    (q in a <==> q in b) && (q in a ==> a[q] == b[q])
  }

  ghost predicate RightAt(o: Overlay, sub: Nodes, p: Path, q: Path)
    requires p in sub
  {
    var t := SelfExpanded(o, sub, p);
    SameNodeAt(WalkedTo(o, t, p, ChildNames(t, p)), Expanded(o, sub, p), q)
  }

  lemma {:induction false} FreshBranch(o: Overlay, sub: Nodes, p: Path, q: Path)
    requires Fitting(o, sub, p) && Below(p, q) && Live(sub, p) && Shows(o, Top(p, q))
    ensures RightAt(o, sub, p, q)
  {
    var c, t := Top(p, q), SelfExpanded(o, sub, p);
    TopIs(p, q);
    SelfExpandedAt(o, sub, p, q);
    SelfExpandedAt(o, sub, p, c);
    NoneStays(o, sub, p, q);
    NotBelowItself(c);
    if q != c && Shows(o, q) {
      AncestorsInTree(o.ro, c, q);
    }
  }

  lemma KeptBranch(o: Overlay, sub: Nodes, p: Path, q: Path)
    requires Fitting(o, sub, p) && Below(p, q) && !(Live(sub, p) && Shows(o, Top(p, q)))
    ensures RightAt(o, sub, p, q)
  {
    var c, t := Top(p, q), SelfExpanded(o, sub, p);
    TopIs(p, q);
    StaysVia(o, sub, p, q);
    forall r | Covers(c, r)
      ensures SameNodeAt(t, sub, r)
    {
      TowardIs(p, Toward(p, q), r);
      SelfExpandedAt(o, sub, p, r);
    }
    NotBelowItself(c);
    if q in sub && q != c {
      FittingAncestors(o, sub, p, c, q);
    }
    if c in sub {
      KeptNotLive(o, sub, p, c);
      if sub[c].kind == Directory && q != c {
        KeptUnder(o, sub, p, c, q);
        StaysSame(o, t, sub, c, q);
      }
    }
  }

  lemma KeptUnder(o: Overlay, sub: Nodes, p: Path, c: Path, q: Path)
    requires Fitting(o, sub, p) && c in sub && Below(p, c) && !Live(sub, c) && Below(c, q)
    ensures Stays(o, sub, c, q) <==> q in sub
  {
    forall r | r in sub && Covers(c, r)
      ensures Covers(p, r) && (r != c ==> Below(p, r))
    {
      CoversTransitive(p, c, r);
      BelowTransitive(p, c, r);
    }
    StaysVia(o, sub, c, q);
  }

  lemma OutsideBranch(o: Overlay, sub: Nodes, p: Path, q: Path)
    requires p in sub && sub[p].kind == Directory && !Below(p, q)
    ensures RightAt(o, sub, p, q)
  {
    NotBelowItself(p);
  }

  lemma SameNodes(a: Nodes, b: Nodes)
    requires forall q :: SameNodeAt(a, b, q)
    ensures a == b
  {
    assert forall q :: q in a ==> SameNodeAt(a, b, q);
    assert forall q :: q in b ==> SameNodeAt(a, b, q);
  }

  /** Expanding the directory and then each of its children expands the subtree. */
  lemma {:induction false} WalkComplete(o: Overlay, sub: Nodes, p: Path)
    requires Fitting(o, sub, p) && sub[p].kind == Directory
    ensures var t := SelfExpanded(o, sub, p);
      WalkedTo(o, t, p, ChildNames(t, p)) == Expanded(o, sub, p)
  {
    var t := SelfExpanded(o, sub, p);
    forall q
      ensures SameNodeAt(WalkedTo(o, t, p, ChildNames(t, p)), Expanded(o, sub, p), q)
    {
      assert RightAt(o, sub, p, q) by {
        if !Below(p, q) {
          OutsideBranch(o, sub, p, q);
        } else if Live(sub, p) && Shows(o, Top(p, q)) {
          FreshBranch(o, sub, p, q);
        } else {
          KeptBranch(o, sub, p, q);
        }
      }
    }
    SameNodes(WalkedTo(o, t, p, ChildNames(t, p)), Expanded(o, sub, p));
  }

  // ---------------------------------------------------------------- what the recursion relies on

  lemma SelfFitting(o: Overlay, sub: Nodes, p: Path, n: Name)
    requires Fitting(o, sub, p) && Child(p, n) in SelfExpanded(o, sub, p)
    ensures Fitting(o, SelfExpanded(o, sub, p), Child(p, n))
  {
    var c, t := Child(p, n), SelfExpanded(o, sub, p);
    forall q | q in t && Covers(c, q)
      ensures Fits(o, q, t[q])
      ensures q != c ==> q.parent in t && t[q.parent].kind == Directory
    {
      TowardIs(p, n, q);
      SelfExpandedAt(o, sub, p, q);
      if Live(sub, p) && Shows(o, c) {
        FreshFits(o, c);
      } else if q != c {
        ParentsCovered(p, n, q);
        TowardIs(p, n, q.parent);
        SelfExpandedAt(o, sub, p, q.parent);
      }
    }
    NotBelowItself(c);
  }

  lemma {:induction false} WalkFitting(o: Overlay, sub: Nodes, p: Path, done: set<Name>, n: Name)
    requires n !in done && Fitting(o, sub, Child(p, n))
    ensures Fitting(o, WalkedTo(o, sub, p, done), Child(p, n))
  {
    var c, t := Child(p, n), WalkedTo(o, sub, p, done);
    forall q | Covers(c, q)
      ensures SameNodeAt(t, sub, q)
      ensures q != c ==> Covers(c, q.parent)
    {
      TowardIs(p, n, q);
    }
  }

  // ---------------------------------------------------------------- the walk

  /** The deletion marks below `p` are those of `o`; Rename has added one above them by now. */
  ghost predicate SameMarks(o: Overlay, deleted: set<Path>, p: Path) {
    forall q :: Below(p, q) ==> (q in deleted <==> q in o.deleted)
  }

  lemma ShowsInLive(o: Overlay, sub: Nodes, p: Path, deleted: set<Path>, n: Name)
    requires Fitting(o, sub, p) && Live(sub, p) && SameMarks(o, deleted, p)
    ensures Shows(o, Child(p, n)) <==> Child(p, n) in o.ro && Child(p, n) !in deleted
  {
    assert Fits(o, p, sub[p]) && Below(p, Child(p, n));
  }

  lemma LookedUpSame(o: Overlay, sub: Nodes, p: Path, done: set<Name>, a: Node, b: Node)
    requires p in sub
    ensures LookedUp(o, sub[p := a], p, done)[p := b] == LookedUp(o, sub, p, done)[p := b]
    ensures p in LookedUp(o, sub[p := a], p, done) && LookedUp(o, sub[p := a], p, done)[p] == a
  {
    NotBelowItself(p);
  }

  lemma LookedUpNone(o: Overlay, sub: Nodes, p: Path)
    ensures LookedUp(o, sub, p, {}) == sub
  {
  }

  /** Every read-only name in directory `p` that is not deleted is looked up again. */
  method LookUpAll(ro: Tree, deleted: set<Path>, sub0: Nodes, p: Path, ghost o: Overlay, ghost was: Nodes)
    returns (sub: Nodes)
    requires o.ro == ro && Fitting(o, was, p) && Live(was, p) && SameMarks(o, deleted, p)
    ensures sub == LookedUp(o, sub0, p, Names(ro, p))
  {
    sub := sub0;
    var names := Names(ro, p);
    var rest := names;
    LookedUpNone(o, sub0, p);
    OneLess(names, names, {});
    while rest != {}
      invariant rest <= names
      invariant sub == LookedUp(o, sub0, p, names - rest)
      decreases |rest|
    {
      var n: Name :| n in rest;
      LookUpOne(o, sub0, p, names - rest, n);
      ShowsInLive(o, was, p, deleted, n);
      OneLess(names, rest, {n});
      var c := Child(p, n);
      if c !in deleted && c in ro {
        sub := Outside(sub, c)[c := FreshNode(ro, c)];
      }
      rest := rest - {n};
    }
    assert names - {} == names;
  }

  /** materializeSelf. */
  method MaterializeSelf(ro: Tree, deleted: set<Path>, sub0: Nodes, p: Path, ghost o: Overlay) returns (sub: Nodes)
    requires o.ro == ro && Fitting(o, sub0, p) && sub0[p].kind == Directory && SameMarks(o, deleted, p)
    ensures sub == SelfExpanded(o, sub0, p)
  {
    var self := sub0[p].(changed := true);
    sub := sub0[p := self];
    assert Fits(o, p, sub0[p]);
    if self.original.Some? {
      sub := LookUpAll(ro, deleted, sub, self.original.value, o, sub0);
      LookedUpSame(o, sub0, p, Names(ro, p), self, Detached(sub0[p]));
    }
    sub := sub[p := self.(original := None)];
  }

  lemma OneLess(all: set<Name>, rest: set<Name>, one: set<Name>)
    requires one <= rest <= all
    ensures all - (rest - one) == (all - rest) + one && rest - one <= all
    ensures all - all == {}
  {
  }

  lemma WalkNone(o: Overlay, sub: Nodes, p: Path)
    ensures WalkedTo(o, sub, p, {}) == sub
  {
  }

  /** The next child can be walked. */
  lemma ChildReady(o: Overlay, sub: Nodes, p: Path, done: set<Name>, n: Name, deleted: set<Path>, all: set<Path>)
    requires Fitting(o, sub, p) && SameMarks(o, deleted, p) && sub.Keys + o.ro.Keys <= all
    requires n !in done && Child(p, n) in SelfExpanded(o, sub, p)
    ensures var t := WalkedTo(o, SelfExpanded(o, sub, p), p, done);
      && Fitting(o, t, Child(p, n)) && t.Keys + o.ro.Keys <= all
    ensures SameMarks(o, deleted, Child(p, n)) && Within(all, Child(p, n)) < Within(all, p)
  {
    FewerWithin(all, p, n);
    SelfFitting(o, sub, p, n);
    WalkFitting(o, SelfExpanded(o, sub, p), p, done, n);
    forall q | Below(Child(p, n), q)
      ensures Below(p, q)
    {
      ChildCovers(p, n, q);
    }
  }

  /** materialize. */
  method Materialize(ro: Tree, deleted: set<Path>, sub0: Nodes, p: Path, ghost o: Overlay, ghost all: set<Path>)
    returns (sub: Nodes)
    requires o.ro == ro && Fitting(o, sub0, p) && sub0[p].kind == Directory && SameMarks(o, deleted, p)
    requires sub0.Keys + ro.Keys <= all
    ensures sub == Expanded(o, sub0, p)
    decreases Within(all, p)
  {
    var t := MaterializeSelf(ro, deleted, sub0, p, o);
    var names := ChildNames(t, p);
    sub := t;
    var rest := names;
    WalkNone(o, t, p);
    OneLess(names, names, {});
    while rest != {}
      invariant rest <= names
      invariant sub == WalkedTo(o, t, p, names - rest)
      decreases |rest|
    {
      var n: Name :| n in rest;
      WalkOne(o, t, p, names - rest, n);
      if sub[Child(p, n)].kind == Directory {
        ChildReady(o, sub0, p, names - rest, n, deleted, all);
        sub := Materialize(ro, deleted, sub, Child(p, n), o, all);
      }
      OneLess(names, rest, {n});
      rest := rest - {n};
    }
    assert names - {} == names;
    WalkComplete(o, sub0, p);
  }

  // ---------------------------------------------------------------- marking

  function MarkedIn(sub: Nodes, p: Path, done: set<Name>): Nodes {
    map q | q in sub :: if InBranches(p, done, q) then sub[q].(changed := true) else sub[q]
  }

  function MarkedUnder(sub: Nodes, p: Path): Nodes {
    map q | q in sub :: if Covers(p, q) then sub[q].(changed := true) else sub[q]
  }

  predicate HungBelow(sub: Nodes, p: Path) {
    p in sub && forall q :: q in sub && Below(p, q) ==> q.parent in sub
  }

  lemma MarkOne(sub: Nodes, p: Path, done: set<Name>, n: Name)
    ensures MarkedIn(sub, p, done + {n}) == MarkedUnder(MarkedIn(sub, p, done), Child(p, n))
  {
    forall q {
      BranchAdded(p, done, n, q);
    }
  }

  lemma {:induction false} HungUp(sub: Nodes, p: Path, q: Path)
    requires HungBelow(sub, p) && q in sub && Below(p, q)
    ensures Toward(p, q) in ChildNames(sub, p)
  {
    if q.parent != p {
      HungUp(sub, p, q.parent);
    }
  }

  lemma MarkNone(sub: Nodes, p: Path)
    requires p in sub
    ensures sub[p := sub[p].(changed := true)] == MarkedIn(sub, p, {})
    ensures ChildNames(sub[p := sub[p].(changed := true)], p) == ChildNames(sub, p)
  {
  }

  lemma MarkReady(sub: Nodes, p: Path, done: set<Name>, n: Name)
    requires HungBelow(sub, p) && Child(p, n) in sub
    ensures HungBelow(MarkedIn(sub, p, done), Child(p, n))
    ensures Within(MarkedIn(sub, p, done).Keys, Child(p, n)) < Within(sub.Keys, p)
  {
    FewerWithin(sub.Keys, p, n);
    assert Within(MarkedIn(sub, p, done).Keys, Child(p, n)) == Within(sub.Keys, Child(p, n));
    forall q | q in sub && Below(Child(p, n), q)
      ensures Below(p, q)
    {
      ChildCovers(p, n, q);
    }
  }

  lemma MarkAll(sub: Nodes, p: Path)
    requires HungBelow(sub, p)
    ensures MarkedIn(sub, p, ChildNames(sub, p)) == MarkedUnder(sub, p)
  {
    forall q | q in sub
      ensures InBranches(p, ChildNames(sub, p), q) <==> Covers(p, q)
    {
      if Below(p, q) {
        HungUp(sub, p, q);
      }
    }
  }

  /** markChanged. */
  method MarkChanged(sub0: Nodes, p: Path) returns (sub: Nodes)
    requires HungBelow(sub0, p)
    ensures sub == MarkedUnder(sub0, p)
    decreases Within(sub0.Keys, p)
  {
    MarkNone(sub0, p);
    sub := sub0[p := sub0[p].(changed := true)];
    var rest := ChildNames(sub, p);
    ghost var done: set<Name> := {};
    while rest != {}
      invariant done + rest == ChildNames(sub0, p)
      invariant sub == MarkedIn(sub0, p, done)
      decreases |rest|
    {
      var n :| n in rest;
      MarkOne(sub0, p, done, n);
      MarkReady(sub0, p, done, n);
      sub := MarkChanged(sub, Child(p, n));
      rest := rest - {n};
      done := done + {n};
    }
    assert done == ChildNames(sub0, p);
    MarkAll(sub0, p);
  }
}
