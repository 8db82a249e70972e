/** Whether a reap tells the whole story: which operations can make a node hide a change. */
module Honesty {
  import opened Paths
  import opened Trees
  import opened Overlays
  import opened UnionOps
  import opened UnionProofs
  import opened RenameProofs
  import opened UnionRuns

  /** A node that hides a change: it is not marked, and reports what the read-only tree does not have. */
  predicate Blind(o: Overlay, p: Path) {
    p in o.nodes && !o.nodes[p].changed && !HonestAt(o, p)
  }

  /** A file that was promoted for a truncation which then failed. */
  predicate Untouched(o: Overlay, p: Path) {
    p in o.nodes && o.nodes[p].original.None? && !o.nodes[p].changed
  }

  /** The read-only tree shows at `dst` the very file that is at `src`. */
  predicate SameThere(o: Overlay, src: Path, dst: Path)
    requires src in o.nodes
  {
    Shows(o, dst) && o.ro[dst] == EntryOf(o, o.nodes[src])
  }

  /** Which nodes hide a change after a rename, seen from before. */
  predicate BlindRenamed(o: Overlay, src: Path, dst: Path, p: Path) {
    if src !in o.nodes then Blind(o, p)
    else if p == dst then Untouched(o, src) && !SameThere(o, src, dst)
    else if Below(dst, p) then o.nodes[src].original.None? && Blind(o, Moved(dst, src, p))
    else Blind(o, p) && !Covers(src, p)
  }

  /** Which nodes hide a change after an operation, seen from before. */
  predicate BlindNext(o: Overlay, op: Op, p: Path) {
    match op
    case OpenWrite(f) => Blind(o, p) && p != f
    case Truncate(f, ok, _) => Blind(o, p) && !(ok && p == f)
    case Chmod(f, _) => Blind(o, p) && p != f
    case Unlink(d, n) => Blind(o, p) && !Covers(Child(d, n), p)
    case Rename(d, n, toDir, toName) => BlindRenamed(o, Child(d, n), Child(toDir, toName), p)
    case Reset => false
    case _ => Blind(o, p)
  }

  lemma DirNotBlind(o: Overlay, d: Path)
    requires Inv(o) && DirNode(o, d)
    ensures !Blind(o, d)
  {
    assert NodeOk(o, d);
  }

  /** The node is exactly as before, and so is the read-only tree there. */
  lemma BlindStays(o: Overlay, o': Overlay, p: Path)
    requires Inv(o) && p in o.nodes && p in o'.nodes && o'.nodes[p] == o.nodes[p]
    requires o'.ro == o.ro && (Shows(o', p) <==> Shows(o, p))
    requires o.nodes[p].backing.Some? && o.nodes[p].backing.value in o.store ==>
      o.nodes[p].backing.value in o'.store && o'.store[o.nodes[p].backing.value] == o.store[o.nodes[p].backing.value]
    ensures Blind(o', p) <==> Blind(o, p)
  {
    assert NodeOk(o, p);
  }

  lemma BlindAdded(o: Overlay, d: Path, name: Name, n: Node, p: Path)
    requires Inv(o) && DirNode(o, d) && Child(d, name) !in o.nodes && n.changed
    ensures Blind(AddChild(o, d, name, n), p) <==> Blind(o, p)
  {
    var o' := AddChild(o, d, name, n);
    if p == d {
      DirNotBlind(o, d);
    } else if p in o.nodes {
      BlindStays(o, o', p);
    }
  }

  lemma BlindNewBacking(o: Overlay, content: Blob, p: Path)
    requires Inv(o)
    ensures Blind(NewBacking(o, content), p) <==> Blind(o, p)
  {
    if p in o.nodes {
      assert NodeOk(o, p);
      BlindStays(o, NewBacking(o, content), p);
    }
  }

  lemma BlindLookup(o: Overlay, d: Path, name: Name, p: Path)
    requires Inv(o) && DirNode(o, d)
    ensures Blind(DoLookup(o, d, name), p) <==> Blind(o, p)
  {
    var o' := DoLookup(o, d, name);
    if o' != o {
      LookupNode(o, d, name);
      if p in o.nodes {
        BlindStays(o, o', p);
      }
    }
  }

  lemma BlindMade(o: Overlay, op: Op, p: Path)
    requires Inv(o) && Enabled(o, op) && (op.Mkdir? || op.Create? || op.MakeLink?)
    ensures Blind(Step(o, op), p) <==> Blind(o, p)
  {
    ViewAt(o, Child(op.dir, op.name));
    match op
    case Mkdir(d, n, perm) => BlindAdded(o, d, n, Node(Directory, perm, "", None, None, true), p);
    case MakeLink(d, n, target) => BlindAdded(o, d, n, Node(Symlink, 0, target, None, None, true), p);
    case Create(d, n, perm) =>
      NewBackingOk(o, Blob(""));
      BlindNewBacking(o, Blob(""), p);
      BlindAdded(NewBacking(o, Blob("")), d, n, Node(Regular, perm, "", None, Some(o.nextFree), true), p);
  }

  lemma BlindPromoted(o: Overlay, f: Path, p: Path)
    requires Inv(o) && FileNode(o, f)
    ensures Blind(Promote(o, f), p) <==> Blind(o, p)
  {
    if o.nodes[f].backing.None? {
      PromotedNode(o, f);
      if p in o.nodes && p != f {
        assert NodeOk(o, p);
        BlindStays(o, Promote(o, f), p);
      }
    }
  }

  lemma BlindTouched(o: Overlay, f: Path, p: Path)
    requires Inv(o) && f in o.nodes
    ensures Blind(Touch(o, f), p) <==> Blind(o, p) && p != f
  {
    if p in o.nodes && p != f {
      BlindStays(o, Touch(o, f), p);
    }
  }

  lemma BlindWritten(o: Overlay, f: Path, content: Blob, p: Path)
    requires Inv(o) && FileNode(o, f) && o.nodes[f].backing.Some? && o.nodes[f].changed
    ensures Blind(DoWrite(o, f, content), p) <==> Blind(o, p)
  {
    if p in o.nodes && p != f {
      BlindStays(o, DoWrite(o, f, content), p);
    }
  }

  lemma BlindFile(o: Overlay, op: Op, p: Path)
    requires Inv(o) && Enabled(o, op) && (op.OpenWrite? || op.Write? || op.Truncate? || op.Chmod?)
    ensures Blind(Step(o, op), p) <==> BlindNext(o, op, p)
  {
    match op
    case OpenWrite(f) =>
      PromoteOk(o, f);
      BlindPromoted(o, f, p);
      BlindTouched(Promote(o, f), f, p);
    case Write(f, c) => BlindWritten(o, f, c, p);
    case Truncate(f, ok, c) =>
      PromoteOk(o, f);
      BlindPromoted(o, f, p);
      if ok {
        var o' := Promote(o, f);
        TouchOk(o', f);
        BlindTouched(o', f, p);
        BlindWritten(Touch(o', f), f, c, p);
        assert Touch(DoWrite(o', f, c), f) == DoWrite(Touch(o', f), f, c);
      }
    case Chmod(f, perm) =>
      if p in o.nodes && p != f {
        BlindStays(o, DoChmod(o, f, perm), p);
      }
  }

  lemma BlindUnlinked(o: Overlay, d: Path, name: Name, p: Path)
    requires Inv(o) && DirNode(o, d)
    ensures Blind(DoUnlink(o, d, name), p) <==> Blind(o, p) && !Covers(Child(d, name), p)
  {
    var o' := DoUnlink(o, d, name);
    UnlinkInv(o, d, name);
    if p == d {
      ParentNotCovered(Child(d, name));
      DirNotBlind(o, d);
      DirNotBlind(o', d);
    } else if p in o'.nodes {
      BlindUnlinkedAt(o, o', d, name, p);
    }
  }

  lemma BlindUnlinkedAt(o: Overlay, o': Overlay, d: Path, name: Name, p: Path)
    requires Inv(o) && DirNode(o, d) && o' == DoUnlink(o, d, name)
    requires p in o.nodes && p in o'.nodes && p != d && !Covers(Child(d, name), p)
    ensures Blind(o', p) <==> Blind(o, p)
  {
    MarkedShows(o, o', d, name, p);
    BlindStays(o, o', p);
  }

  // ---------------------------------------------------------------- rename

  /** Below a directory that no longer follows the read-only tree, unmarked means hidden. */
  lemma BlindBelow(o: Overlay, src: Path, r: Path)
    requires Inv(o) && src in o.nodes && src.Child? && o.nodes[src].original.None? && Below(src, r)
    ensures Blind(o, r) <==> r in o.nodes && !o.nodes[r].changed
  {
    assert NodeOk(o, src);
  }

  lemma ExpandedMarked(o: Overlay, src: Path, r: Path)
    requires src in o.nodes && o.nodes[src].original.Some? && r in Carried(o, src)
    ensures Carried(o, src)[r].changed
  {
  }

  lemma BlindMovedBelow(o: Overlay, o': Overlay, d: Path, name: Name, toDir: Path, toName: Name, p: Path)
    requires Inv(o) && RenameIssued(o, d, name, toDir, toName) && Child(d, name) in o.nodes
    requires o' == DoRename(o, d, name, toDir, toName) && Below(Child(toDir, toName), p)
    ensures Blind(o', p) <==> BlindRenamed(o, Child(d, name), Child(toDir, toName), p)
  {
    var src, dst := Child(d, name), Child(toDir, toName);
    var r := Moved(dst, src, p);
    NotBelowItself(dst);
    RenamedAt(o, d, name, toDir, toName, p);
    assert !Shows(o', p) by {
      HiddenAfter(o, o', d, name, dst, dst);
    }
    assert Below(src, r) by {
      MovedIsCovered(dst, src, p);
      MovedBack(dst, src, p);
    }
    if o.nodes[src].original.None? {
      BlindBelow(o, src, r);
      assert r in Carried(o, src) <==> r in o.nodes;
    } else if p in o'.nodes {
      ExpandedMarked(o, src, r);
    }
  }

  lemma BlindMovedTop(o: Overlay, o': Overlay, d: Path, name: Name, toDir: Path, toName: Name)
    requires Inv(o) && RenameIssued(o, d, name, toDir, toName) && Child(d, name) in o.nodes
    requires o' == DoRename(o, d, name, toDir, toName)
    ensures Blind(o', Child(toDir, toName)) <==>
      Untouched(o, Child(d, name)) && !SameThere(o, Child(d, name), Child(toDir, toName))
  {
    var src, dst := Child(d, name), Child(toDir, toName);
    RenamedAt(o, d, name, toDir, toName, dst);
    CarriedPortable(o, src);
    MarkedShows(o, o', d, name, dst);
    EntrySame(o, o', o'.nodes[dst]);
  }

  lemma BlindElsewhere(o: Overlay, o': Overlay, d: Path, name: Name, toDir: Path, toName: Name, p: Path)
    requires Inv(o) && RenameIssued(o, d, name, toDir, toName) && Child(d, name) in o.nodes
    requires o' == DoRename(o, d, name, toDir, toName) && !Covers(Child(toDir, toName), p)
    ensures Blind(o', p) <==> Blind(o, p) && !Covers(Child(d, name), p)
  {
    RenamedAt(o, d, name, toDir, toName, p);
    if p in o'.nodes {
      MarkedShows(o, o', d, name, p);
      if p == d {
        RenameInv(o, d, name, toDir, toName);
        DirNotBlind(o, d);
        DirNotBlind(o', d);
      } else {
        BlindStays(o, o', p);
      }
    }
  }

  lemma BlindRename(o: Overlay, d: Path, name: Name, toDir: Path, toName: Name, p: Path)
    requires Inv(o) && RenameIssued(o, d, name, toDir, toName)
    ensures Blind(DoRename(o, d, name, toDir, toName), p) <==>
      BlindRenamed(o, Child(d, name), Child(toDir, toName), p)
  {
    var o', dst := DoRename(o, d, name, toDir, toName), Child(toDir, toName);
    if Child(d, name) in o.nodes {
      if p == dst {
        BlindMovedTop(o, o', d, name, toDir, toName);
      } else if Below(dst, p) {
        BlindMovedBelow(o, o', d, name, toDir, toName, p);
      } else {
        BlindElsewhere(o, o', d, name, toDir, toName, p);
      }
    }
  }

  // ---------------------------------------------------------------- all operations

  lemma BlindReset(o: Overlay, p: Path)
    requires Inv(o)
    ensures !Blind(DoReset(o), p)
  {
    ResetInv(o);
    NothingCovered(p);
  }

  /** Where changes are hidden after an operation, told from the state before it. */
  lemma {:induction false} BlindStep(o: Overlay, op: Op, p: Path)
    requires Inv(o) && Enabled(o, op)
    ensures Blind(Step(o, op), p) <==> BlindNext(o, op, p)
  {
    match op
    case Lookup(d, n) => BlindLookup(o, d, n, p);
    case Mkdir(_, _, _) => BlindMade(o, op, p);
    case Create(_, _, _) => BlindMade(o, op, p);
    case MakeLink(_, _, _) => BlindMade(o, op, p);
    case Unlink(d, n) => BlindUnlinked(o, d, n, p);
    case Rename(d, n, toDir, toName) => BlindRename(o, d, n, toDir, toName, p);
    case Reset => BlindReset(o, p);
    case _ => BlindFile(o, op, p);
  }

  lemma HonestMeans(o: Overlay)
    ensures Honest(o) <==> forall p :: !Blind(o, p)
  {
    if forall p :: !Blind(o, p) {
      forall p | p in o.nodes && !o.nodes[p].changed
        ensures HonestAt(o, p)
      {
        assert !Blind(o, p);
      }
    }
  }

  /** The one thing that makes a node hide a change: renaming a file promoted for a truncation that
      failed, to where the read-only tree does not have that very file. */
  predicate Hides(o: Overlay, op: Op) {
    && op.Rename?
    && Untouched(o, Child(op.dir, op.name))
    && !SameThere(o, Child(op.dir, op.name), Child(op.toDir, op.toName))
  }

  lemma BlindFromHonest(o: Overlay, op: Op, p: Path)
    requires Honest(o)
    ensures BlindNext(o, op, p) <==> Hides(o, op) && p == Child(op.toDir, op.toName)
  {
    HonestMeans(o);
    if op.Rename? {
      NotBelowItself(Child(op.toDir, op.toName));
    }
  }

  /** From a state in which nothing is hidden, the next reap is right exactly if the operation is not
      such a rename. */
  lemma StepReapIff(o: Overlay, op: Op)
    requires Inv(o) && Honest(o) && Enabled(o, op)
    ensures var o' := Step(o, op);
      (Honest(o') <==> !Hides(o, op)) && (Reported(o') == View(o') <==> !Hides(o, op))
  {
    forall p
      ensures Blind(Step(o, op), p) <==> Hides(o, op) && p == Child(op.toDir, op.toName)
    {
      BlindStep(o, op, p);
      BlindFromHonest(o, op, p);
    }
    StepInv(o, op);
    BlindAtMost(Step(o, op), Hides(o, op), if op.Rename? then Child(op.toDir, op.toName) else Root);
  }

  lemma BlindAtMost(o: Overlay, hidden: bool, dst: Path)
    requires Inv(o) && forall p :: Blind(o, p) <==> hidden && p == dst
    ensures (Honest(o) <==> !hidden) && (Reported(o) == View(o) <==> !hidden)
  {
    assert Blind(o, dst) <==> hidden;
    HonestMeans(o);
    DiffIsView(o);
  }

  predicate NeverHides(o: Overlay, ops: seq<Op>)
    requires Legal(o, ops)
    decreases |ops|
  {
    ops == [] || (!Hides(o, ops[0]) && NeverHides(Step(o, ops[0]), ops[1..]))
  }

  lemma {:induction false} RunHonest(o: Overlay, ops: seq<Op>)
    requires Inv(o) && Honest(o) && Legal(o, ops) && NeverHides(o, ops)
    ensures Honest(Run(o, ops))
    decreases |ops|
  {
    if ops != [] {
      StepInv(o, ops[0]);
      StepReapIff(o, ops[0]);
      RunHonest(Step(o, ops[0]), ops[1..]);
    }
  }

  /** After any run the diff, applied to the read-only tree, gives exactly the view if and only if no
      node hides a change, as none does without such a rename; and Reset goes back to the read-only
      tree. */
  lemma ReapDeliversView(ro: Tree, ops: seq<Op>)
    requires WfTree(ro) && Legal(Initial(ro), ops)
    ensures var o := Run(Initial(ro), ops);
      && (Reported(o) == View(o) <==> Honest(o))
      && (NeverHides(Initial(ro), ops) ==> Honest(o))
      && View(DoReset(o)) == ro
  {
    InitialInv(ro);
    RunInv(Initial(ro), ops);
    var o := Run(Initial(ro), ops);
    if NeverHides(Initial(ro), ops) {
      RunHonest(Initial(ro), ops);
    }
    DiffIsView(o);
    ResetOk(o);
  }

  // ---------------------------------------------------------------- a change that is hidden

  /** A truncation that fails leaves a promoted file that is not marked changed. */
  lemma {:induction false} FailedTruncateUntouched(o: Overlay, p: Path, content: Blob)
    requires Inv(o) && FileNode(o, p) && !o.nodes[p].changed
    ensures var o' := DoTruncate(o, p, false, content);
      Inv(o') && View(o') == View(o) && Untouched(o', p)
  {
    assert NodeOk(o, p);
    TruncateOk(o, p, false, content);
    if o.nodes[p].backing.Some? {
      assert SourceOk(o, o.nodes[p]);
    }
  }

  /** Look a file up, fail to truncate it, and rename it. */
  function HidingRun(d: Name, f: Name, e: Name, content: Blob): seq<Op> {
    var dir := Child(Root, d);
    [Lookup(Root, d), Lookup(dir, f), Truncate(Child(dir, f), false, content), Rename(dir, f, dir, e)]
  }

  /** The reap says that the file is gone, and not where it went. */
  lemma RenameHidden(d: Name, f: Name, e: Name, was: Blob, content: Blob)
    requires e != f
    ensures var ro, ops := ExampleTree(d, f, was), HidingRun(d, f, e, content);
      && WfTree(ro) && Legal(Initial(ro), ops)
      && var o := Run(Initial(ro), ops);
         && Child(Child(Root, d), e) in View(o) && Child(Child(Root, d), e) !in Reported(o)
         && Child(Child(Root, d), f) !in Reported(o)
  {
    var ro, dir := ExampleTree(d, f, was), Child(Root, d);
    var o1, o2 := ExampleLookedUp(d, f, was);
    var o3 := TruncateFailed(o2, d, f, e, was, content);
    RunOfFour(Initial(ro), Lookup(Root, d), Lookup(dir, f),
              Truncate(Child(dir, f), false, content), Rename(dir, f, dir, e));
    HidingRename(o3, dir, f, e);
  }

  lemma TruncateFailed(o: Overlay, d: Name, f: Name, e: Name, was: Blob, content: Blob) returns (o': Overlay)
    requires Inv(o) && DirNode(o, Child(Root, d)) && FileNode(o, Child(Child(Root, d), f))
    requires View(o) == o.ro == ExampleTree(d, f, was) && !o.nodes[Child(Child(Root, d), f)].changed && e != f
    ensures o' == DoTruncate(o, Child(Child(Root, d), f), false, content) && Inv(o') && o'.ro == o.ro
    ensures RenameIssued(o', Child(Root, d), f, Child(Root, d), e) && Untouched(o', Child(Child(Root, d), f))
    ensures Child(Child(Root, d), e) !in o'.ro
  {
    var file := Child(Child(Root, d), f);
    o' := DoTruncate(o, file, false, content);
    FailedTruncateUntouched(o, file, content);
    HidingEnabled(o', d, f, e, was);
  }

  lemma HidingRename(o: Overlay, d: Path, f: Name, e: Name)
    requires Inv(o) && RenameIssued(o, d, f, d, e) && Untouched(o, Child(d, f)) && Child(d, e) !in o.ro
    ensures var o' := DoRename(o, d, f, d, e);
      Child(d, e) in View(o') && Child(d, e) !in Reported(o') && Child(d, f) !in Reported(o')
  {
    var o', file, dst := DoRename(o, d, f, d, e), Child(d, f), Child(d, e);
    assert Blind(o', dst) by {
      BlindMovedTop(o, o', d, f, d, e);
    }
    RenameInv(o, d, f, d, e);
    ViewAt(o', dst);
    ReportedAt(o', dst);
    ReportedAt(o', file);
    RenamedAt(o, d, f, d, e, file);
    MarkedShows(o, o', d, f, file);
  }

  lemma HidingEnabled(o: Overlay, d: Name, f: Name, e: Name, was: Blob)
    requires Inv(o) && DirNode(o, Child(Root, d)) && View(o) == ExampleTree(d, f, was) && e != f
    ensures RenameIssued(o, Child(Root, d), f, Child(Root, d), e)
    ensures Child(Child(Root, d), e) !in ExampleTree(d, f, was)
  {
    var dir := Child(Root, d);
    var file, dst := Child(dir, f), Child(dir, e);
    assert !Below(dst, Root) && !Below(file, Root);
    assert !Below(dst, dir) && !Below(file, dir);
    assert !Below(dst, file) && !Below(file, dst);
    forall q | q in View(o)
      ensures !Below(dst, q)
    {
      assert q == Root || q == dir || q == file;
    }
  }
}
