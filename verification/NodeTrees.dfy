/** The recursive walks over the node tree of a union file system, and what they leave. */
module NodeTrees {
  import opened Paths
  import opened Trees
  import opened Overlays
  import opened UnionOps

  type Nodes = map<Path, Node>

  /** Every node hangs under another, up to the root. */
  predicate Hung(nodes: Nodes) {
    forall q :: q in nodes && q.Child? ==> q.parent in nodes
  }

  lemma {:induction false} HungAncestors(nodes: Nodes, a: Path, q: Path)
    requires Hung(nodes) && q in nodes && Covers(a, q)
    ensures a in nodes
  {
    if a != q {
      HungAncestors(nodes, a, q.parent);
    }
  }

  /** The names of the children of `p`. */
  function ChildNames(nodes: Nodes, p: Path): (s: set<Name>)
    ensures forall n: Name :: n in s <==> Child(p, n) in nodes
  {
    var s := set q | q in nodes && q.Child? && q.parent == p :: q.name;
    assert forall n: Name :: Child(p, n) in nodes ==> Child(p, n).name in s;
    s
  }

  /** Whatever hangs below `p` hangs at or below one of its children. */
  lemma BranchOf(nodes: Nodes, p: Path, q: Path)
    requires Hung(nodes) && q in nodes && Below(p, q)
    ensures Toward(p, q) in ChildNames(nodes, p)
  {
    HungAncestors(nodes, Child(p, Toward(p, q)), q);
  }

  /** `q` is at `p` or in one of the branches named. */
  predicate InBranches(p: Path, done: set<Name>, q: Path) {
    q == p || (Below(p, q) && Toward(p, q) in done)
  }

  lemma BranchAdded(p: Path, done: set<Name>, n: Name, q: Path)
    ensures InBranches(p, done + {n}, q) <==> InBranches(p, done, q) || Covers(Child(p, n), q)
    ensures Covers(Child(p, n), q) && n !in done ==> !InBranches(p, done, q)
  {
    NotBelowItself(p);
    if Covers(Child(p, n), q) {
      TowardIs(p, n, q);
    }
  }

  // ---------------------------------------------------------------- reap

  function ChangedIn(nodes: Nodes, p: Path, done: set<Name>): map<Path, Result> {
    map q | q in nodes && InBranches(p, done, q) && nodes[q].changed :: ResultOf(nodes[q])
  }

  function ChangedUnder(nodes: Nodes, p: Path): map<Path, Result> {
    map q | q in nodes && Covers(p, q) && nodes[q].changed :: ResultOf(nodes[q])
  }

  lemma ChangedNone(nodes: Nodes, p: Path, results: map<Path, Result>)
    requires p in nodes
    ensures results + ChangedIn(nodes, p, {}) == if nodes[p].changed then results[p := ResultOf(nodes[p])] else results
  {
  }

  lemma ChangedMore(nodes: Nodes, p: Path, done: set<Name>, n: Name, results: map<Path, Result>)
    ensures results + ChangedIn(nodes, p, done + {n}) ==
      (results + ChangedIn(nodes, p, done)) + ChangedUnder(nodes, Child(p, n))
  {
    forall q | q in nodes
      ensures InBranches(p, done + {n}, q) <==> InBranches(p, done, q) || Covers(Child(p, n), q)
    {
      BranchAdded(p, done, n, q);
    }
  }

  lemma ChangedAll(nodes: Nodes, p: Path)
    requires Hung(nodes)
    ensures ChangedIn(nodes, p, ChildNames(nodes, p)) == ChangedUnder(nodes, p)
  {
    forall q | q in nodes
      ensures InBranches(p, ChildNames(nodes, p), q) <==> Covers(p, q)
    {
      if Below(p, q) {
        BranchOf(nodes, p, q);
      }
    }
  }

  /** memNode.reap: note every changed node at or below `p`. */
  method ReapNode(nodes: Nodes, p: Path, results: map<Path, Result>) returns (m: map<Path, Result>)
    requires Hung(nodes) && p in nodes
    ensures m == results + ChangedUnder(nodes, p)
    decreases Within(nodes.Keys, p)
  {
    m := results;
    if nodes[p].changed {
      m := m[p := ResultOf(nodes[p])];
    }
    var rest := ChildNames(nodes, p);
    ghost var done: set<Name> := {};
    ChangedNone(nodes, p, results);
    while rest != {}
      invariant done + rest == ChildNames(nodes, p)
      invariant m == results + ChangedIn(nodes, p, done)
      decreases |rest|
    {
      var n :| n in rest;
      FewerWithin(nodes.Keys, p, n);
      ChangedMore(nodes, p, done, n, results);
      m := ReapNode(nodes, Child(p, n), m);
      rest := rest - {n};
      done := done + {n};
    }
    ChangedAll(nodes, p);
  }

  // ---------------------------------------------------------------- the deletion marks

  /** The part of a read-only subtree marked so far, and the directories still to be read. */
  ghost predicate Walking(ro: Tree, name: Path, mine: set<Path>, unread: set<Path>) {
    && name in mine && unread <= mine
    && (forall q :: q in mine ==> q in ro && Covers(name, q) && (q != name ==> q.parent in mine))
    && (forall q :: q in ro && q.Child? && q.parent in mine ==> (q in mine <==> q.parent !in unread))
  }

  function Kids(t: Tree, n: Path): set<Path> {
    set q | q in t && q.Child? && q.parent == n
  }

  function DirKids(t: Tree, n: Path): set<Path> {
    set q | q in Kids(t, n) && t[q].Dir?
  }

  lemma {:induction false} WalkedAll(ro: Tree, name: Path, mine: set<Path>, q: Path)
    requires WfTree(ro) && Walking(ro, name, mine, {}) && q in ro && Covers(name, q)
    ensures q in mine
  {
    if q != name {
      WalkedAll(ro, name, mine, q.parent);
    }
  }

  lemma WalkStart(ro: Tree, name: Path)
    requires WfTree(ro) && name in ro
    ensures Walking(ro, name, {name}, if ro[name].Dir? then {name} else {})
  {
    forall q | q in ro && q.Child? && q.parent == name
      ensures q != name
    {
      NotBelowItself(q);
    }
  }

  lemma KidIsNew(ro: Tree, name: Path, mine: set<Path>, unread: set<Path>, n: Path, q: Path)
    requires WfTree(ro) && Walking(ro, name, mine, unread) && n in unread && q in Kids(ro, n)
    ensures q !in mine && q != name && Covers(name, q) && q.parent in mine
    ensures forall c :: c in Kids(ro, q) ==> c !in mine
  {
    CoversTransitive(name, n, q);
    ParentNotCovered(q);
    ParentNotCovered(name);
  }

  /** The entries of directory `n` are marked, and the directories among them are to be read. */
  lemma WalkOn(ro: Tree, name: Path, mine: set<Path>, unread: set<Path>, n: Path)
    requires WfTree(ro) && Walking(ro, name, mine, unread) && n in unread
    ensures Walking(ro, name, mine + Kids(ro, n), unread - {n} + DirKids(ro, n))
    ensures Kids(ro, n) !! mine
  {
    var mine', unread' := mine + Kids(ro, n), unread - {n} + DirKids(ro, n);
    forall q | q in Kids(ro, n)
      ensures q !in mine && q != name && Covers(name, q) && q.parent in mine
      ensures forall c :: c in Kids(ro, q) ==> c !in mine
    {
      KidIsNew(ro, name, mine, unread, n, q);
    }
    forall q | q in ro && q.Child? && q.parent in mine'
      ensures q in mine' <==> q.parent !in unread'
    {
      if q.parent in Kids(ro, n) {
        assert q in Kids(ro, q.parent) && q !in mine && IsDirIn(ro, q.parent);
        assert q.parent in DirKids(ro, n);
        assert q.parent != n;
      } else if q.parent == n {
        assert q in Kids(ro, n);
        ParentNotCovered(q);
      }
    }
  }

  /** The stack of directories to read holds each of them once. */
  ghost predicate Stacked(todo: seq<Path>, unread: set<Path>) {
    (forall p :: p in todo <==> p in unread) && (forall i, j :: 0 <= i < j < |todo| ==> todo[i] != todo[j])
  }

  lemma Popped(todo: seq<Path>, unread: set<Path>)
    requires Stacked(todo, unread) && todo != []
    ensures var n := todo[|todo| - 1]; n in unread && Stacked(todo[..|todo| - 1], unread - {n})
  {
    var n := todo[|todo| - 1];
    assert n in todo;
    forall p | p in unread && p != n
      ensures p in todo[..|todo| - 1]
    {
      assert p in todo;
    }
  }

  lemma Pushed(todo: seq<Path>, unread: set<Path>, d: Path)
    requires Stacked(todo, unread) && d !in unread
    ensures Stacked(todo + [d], unread + {d})
  {
  }

  function GoneAt(s: set<Path>): map<Path, Result> {
    map q | q in s :: Gone
  }

  lemma GoneMore(results: map<Path, Result>, s: set<Path>, more: set<Path>)
    ensures results + GoneAt(s) + GoneAt(more) == results + GoneAt(s + more)
  {
  }

  lemma GoneOne(results: map<Path, Result>, s: set<Path>, q: Path)
    ensures (results + GoneAt(s))[q := Gone] == results + GoneAt(s + {q})
  {
  }

  lemma EntryStacked(todo: seq<Path>, unread: set<Path>, dirs: set<Path>, done: set<Path>, full: Path)
    requires Stacked(todo, unread + done * dirs) && dirs !! unread && full !in done
    ensures Stacked(if full in dirs then todo + [full] else todo, unread + (done + {full}) * dirs)
  {
    if full in dirs {
      Pushed(todo, unread + done * dirs, full);
      assert unread + (done + {full}) * dirs == unread + done * dirs + {full};
    } else {
      assert (done + {full}) * dirs == done * dirs;
    }
  }

  /** A directory is read: all its entries are marked, and the directories go on the stack. */
  method MarkEntries(ro: Tree, kids: set<Path>, results: map<Path, Result>, todo0: seq<Path>, ghost unread: set<Path>,
                     ghost dirs: set<Path>)
    returns (m: map<Path, Result>, todo: seq<Path>)
    requires Stacked(todo0, unread) && dirs !! unread && dirs <= kids
    requires forall q :: q in kids ==> q in ro && (q in dirs <==> ro[q].Dir?)
    ensures m == results + GoneAt(kids)
    ensures Stacked(todo, unread + dirs)
    ensures kids == {} ==> todo == todo0
  {
    m, todo := results, todo0;
    var rest := kids;
    ghost var done: set<Path> := {};
    assert unread + done * dirs == unread;
    while rest != {}
      invariant done + rest == kids && done !! rest
      invariant m == results + GoneAt(done)
      invariant Stacked(todo, unread + done * dirs)
      invariant kids == {} ==> todo == todo0
      decreases |rest|
    {
      var full :| full in rest;
      GoneOne(results, done, full);
      EntryStacked(todo, unread, dirs, done, full);
      m := m[full := Gone];
      if ro[full].Dir? {
        todo := todo + [full];
      }
      rest := rest - {full};
      done := done + {full};
    }
    assert done * dirs == dirs;
  }

  lemma NothingAtMark(ro: Tree, name: Path)
    requires WfTree(ro) && name !in ro
    ensures (set q | q in ro && Covers(name, q)) == {}
  {
    forall q | q in ro && Below(name, q)
      ensures false
    {
      AncestorsInTree(ro, name, q);
    }
  }

  lemma WalkEnds(ro: Tree, name: Path, mine: set<Path>)
    requires WfTree(ro) && Walking(ro, name, mine, {})
    ensures mine == set q | q in ro && Covers(name, q)
  {
    forall q | q in ro && Covers(name, q)
      ensures q in mine
    {
      WalkedAll(ro, name, mine, q);
    }
  }

  /** One deletion mark: everything the read-only tree has at or below it is gone. */
  method MarkGone(ro: Tree, name: Path, results: map<Path, Result>) returns (m: map<Path, Result>)
    requires WfTree(ro)
    ensures m == results + GoneAt(set q | q in ro && Covers(name, q))
  {
    m := results;
    if name !in ro {
      NothingAtMark(ro, name);
      return;
    }
    WalkStart(ro, name);
    m := m[name := Gone];
    ghost var mine := {name};
    if ro[name].Dir? {
      var todo := [name];
      ghost var unread := {name};
      while todo != []
        invariant Walking(ro, name, mine, unread) && Stacked(todo, unread)
        invariant m == results + GoneAt(mine)
        decreases ro.Keys - mine, |todo|
      {
        var n := todo[|todo| - 1];
        Popped(todo, unread);
        WalkOn(ro, name, mine, unread, n);
        GoneMore(results, mine, Kids(ro, n));
        ghost var before := ro.Keys - mine;
        m, todo := MarkEntries(ro, Kids(ro, n), m, todo[..|todo| - 1], unread - {n}, DirKids(ro, n));
        mine := mine + Kids(ro, n);
        unread := unread - {n} + DirKids(ro, n);
        if k :| k in Kids(ro, n) {
          assert k in before && k !in ro.Keys - mine;
        }
      }
      assert unread == {};
    }
    WalkEnds(ro, name, mine);
  }

  /** What the read-only tree has at or below one of the marks. */
  function Hidden(ro: Tree, marks: set<Path>): set<Path> {
    set q | q in ro && Covered(marks, q)
  }

  lemma HiddenMore(ro: Tree, marks: set<Path>, a: Path)
    ensures Hidden(ro, marks + {a}) == Hidden(ro, marks) + set q | q in ro && Covers(a, q)
  {
    forall q | q in ro
      ensures Covered(marks + {a}, q) <==> Covered(marks, q) || Covers(a, q)
    {
      CoveredAdd(marks, a, q);
    }
  }

  /** The first half of Reap: the deletions. */
  method ReapDeleted(ro: Tree, deleted: set<Path>) returns (m: map<Path, Result>)
    requires WfTree(ro)
    ensures m == GoneAt(Hidden(ro, deleted))
  {
    m := map[];
    var rest := deleted;
    ghost var done: set<Path> := {};
    assert Hidden(ro, {}) == {} by {
      forall q ensures !Covered({}, q) {
        Overlays.NothingCovered(q);
      }
    }
    while rest != {}
      invariant done + rest == deleted
      invariant m == GoneAt(Hidden(ro, done))
      decreases |rest|
    {
      var name :| name in rest;
      HiddenMore(ro, done, name);
      GoneMore(map[], Hidden(ro, done), set q | q in ro && Covers(name, q));
      m := MarkGone(ro, name, m);
      rest := rest - {name};
      done := done + {name};
    }
  }

  // ---------------------------------------------------------------- reset

  /** The node still stands for the read-only path it hangs at. */
  predicate Stands(ro: Tree, nodes: Nodes, q: Path) {
    q in nodes && nodes[q].backing.None? && nodes[q].original == Some(q) && (nodes[q].changed ==> q in ro)
  }

  /** So do all the nodes between `p` and it. */
  predicate StandsBelow(ro: Tree, nodes: Nodes, p: Path, q: Path) {
    Below(p, q) && Stands(ro, nodes, q) && (q.parent == p || StandsBelow(ro, nodes, p, q.parent))
  }

  lemma {:induction false} StandsVia(ro: Tree, nodes: Nodes, p: Path, n: Name, q: Path)
    requires Covers(Child(p, n), q)
    ensures StandsBelow(ro, nodes, p, q) <==>
      Stands(ro, nodes, Child(p, n)) && (q == Child(p, n) || StandsBelow(ro, nodes, Child(p, n), q))
  {
    ChildCovers(p, n, q);
    if q != Child(p, n) {
      StandsVia(ro, nodes, p, n, q.parent);
      ParentsCovered(p, n, q);
    } else {
      NotBelowItself(q);
    }
  }

  lemma ParentsCovered(p: Path, n: Name, q: Path)
    requires Below(Child(p, n), q)
    ensures q.parent != p
  {
    if q.parent == p {
      BelowIsDeeper(Child(p, n), q);
    }
  }

  lemma {:induction false} StandsSame(ro: Tree, a: Nodes, b: Nodes, p: Path, q: Path)
    requires Below(p, q)
    requires forall r :: Below(p, r) ==> (r in a <==> r in b) && (r in a ==> a[r] == b[r])
    ensures StandsBelow(ro, a, p, q) <==> StandsBelow(ro, b, p, q)
  {
    if q.parent != p {
      StandsSame(ro, a, b, p, q.parent);
    }
  }

  /** The nodes after the named branches below `p` have been dealt with. */
  function ResetIn(ro: Tree, nodes: Nodes, p: Path, done: set<Name>): Nodes {
    map q | q in nodes && (Below(p, q) && Toward(p, q) in done ==> StandsBelow(ro, nodes, p, q)) ::
      if Below(p, q) && Toward(p, q) in done then Restored(ro, nodes[q]) else nodes[q]
  }

  /** The nodes after reset of `p`. */
  function ResetAt(ro: Tree, nodes: Nodes, p: Path): Nodes {
    map q | q in nodes && (Below(p, q) ==> StandsBelow(ro, nodes, p, q)) ::
      if Below(p, q) || (q == p && Stands(ro, nodes, p)) then Restored(ro, nodes[q]) else nodes[q]
  }

  lemma ResetBranchAt(ro: Tree, nodes: Nodes, p: Path, done: set<Name>, n: Name, q: Path)
    requires n !in done && Child(p, n) in nodes
    ensures var c := Child(p, n);
      var was := ResetIn(ro, nodes, p, done);
      var now := if Stands(ro, was, c) then ResetAt(ro, was, c) else Outside(ResetAt(ro, was, c), c);
      var goal := ResetIn(ro, nodes, p, done + {n});
      (q in now <==> q in goal) && (q in goal ==> now[q] == goal[q])
  {
    var c := Child(p, n);
    var was := ResetIn(ro, nodes, p, done);
    BranchAdded(p, done, n, q);
    NotBelowItself(c);
    if Covers(c, q) {
      TowardIs(p, n, q);
      forall r | Covers(c, r)
        ensures (r in was <==> r in nodes) && (r in was ==> was[r] == nodes[r])
      {
        TowardIs(p, n, r);
      }
      StandsVia(ro, nodes, p, n, q);
      if q != c {
        StandsSame(ro, was, nodes, c, q);
      }
    }
  }

  /** The branch under `n` has been reset, and cut off if it asked for it. */
  lemma ResetBranch(ro: Tree, nodes: Nodes, p: Path, done: set<Name>, n: Name)
    requires n !in done && Child(p, n) in nodes
    ensures var c := Child(p, n);
      var was := ResetIn(ro, nodes, p, done);
      (if Stands(ro, was, c) then ResetAt(ro, was, c) else Outside(ResetAt(ro, was, c), c)) ==
      ResetIn(ro, nodes, p, done + {n})
  {
    forall q {
      ResetBranchAt(ro, nodes, p, done, n, q);
    }
  }

  lemma ResetNone(ro: Tree, nodes: Nodes, p: Path)
    ensures ResetIn(ro, nodes, p, {}) == nodes
  {
  }

  lemma ResetAll(ro: Tree, nodes: Nodes, p: Path)
    requires Hung(nodes) && p in nodes
    ensures var was := ResetIn(ro, nodes, p, ChildNames(nodes, p));
      && p in was && was[p] == nodes[p]
      && (if Stands(ro, nodes, p) then was[p := Restored(ro, nodes[p])] else was) == ResetAt(ro, nodes, p)
  {
    NotBelowItself(p);
    forall q | q in nodes && Below(p, q)
      ensures Toward(p, q) in ChildNames(nodes, p)
    {
      BranchOf(nodes, p, q);
    }
  }
}
