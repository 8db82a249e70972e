/** Whole runs of a union file system. */
module UnionRuns {
  import opened Paths
  import opened Trees
  import opened Overlays
  import opened UnionOps
  import opened UnionProofs
  import opened RenameProofs

  /** Each operation is issued in a state in which the kernel may issue it. */
  predicate Legal(o: Overlay, ops: seq<Op>)
    decreases |ops|
  {
    ops == [] || (Enabled(o, ops[0]) && Legal(Step(o, ops[0]), ops[1..]))
  }

  function Run(o: Overlay, ops: seq<Op>): Overlay
    requires Legal(o, ops)
    decreases |ops|
  {
    if ops == [] then o else Run(Step(o, ops[0]), ops[1..])
  }

  function PlainRun(ro: Tree, t: Tree, ops: seq<Op>): Tree
    decreases |ops|
  {
    if ops == [] then t else PlainRun(ro, Plain(ro, t, ops[0]), ops[1..])
  }

  /** The operation does to the view what it does to a plain tree.  Only Rename can fail to: when
      its expansion loses a change, or when the name was never looked up. */
  predicate Faithful(o: Overlay, op: Op) {
    op.Rename? ==> FaithfulRename(o, Child(op.dir, op.name))
  }

  predicate FaithfulRename(o: Overlay, src: Path) {
    if src in o.nodes then NothingLost(o, src) else src !in View(o)
  }

  predicate AllFaithful(o: Overlay, ops: seq<Op>)
    requires Legal(o, ops)
    decreases |ops|
  {
    ops == [] || (Faithful(o, ops[0]) && AllFaithful(Step(o, ops[0]), ops[1..]))
  }

  lemma StepRo(o: Overlay, op: Op)
    requires Enabled(o, op)
    ensures Step(o, op).ro == o.ro
  {
  }

  lemma {:induction false} OpenWriteOk(o: Overlay, p: Path)
    requires Inv(o) && FileNode(o, p)
    ensures var o' := Touch(Promote(o, p), p);
      && Inv(o') && View(o') == View(o) && FileNode(o', p) && o'.nodes[p].backing.Some? && o'.nodes[p].changed
  {
    PromoteOk(o, p);
    TouchOk(Promote(o, p), p);
  }

  lemma StepInv(o: Overlay, op: Op)
    requires Inv(o) && Enabled(o, op)
    ensures Inv(Step(o, op))
  {
    match op
    case Lookup(d, n) => LookupOk(o, d, n);
    case Mkdir(d, n, perm) => MkdirOk(o, d, n, perm);
    case Create(d, n, perm) => CreateOk(o, d, n, perm);
    case MakeLink(d, n, target) => SymlinkOk(o, d, n, target);
    case Unlink(d, n) => UnlinkOk(o, d, n);
    case OpenWrite(p) => OpenWriteOk(o, p);
    case Write(p, c) => WriteOk(o, p, c);
    case Truncate(p, ok, c) => TruncateOk(o, p, ok, c);
    case Chmod(p, perm) => ChmodOk(o, p, perm);
    case Rename(d, n, toDir, toName) => RenameInv(o, d, n, toDir, toName);
    case Reset => ResetOk(o);
  }

  lemma {:induction false} RenameFaithful(o: Overlay, d: Path, name: Name, toDir: Path, toName: Name)
    requires Inv(o) && RenameIssued(o, d, name, toDir, toName)
    ensures View(DoRename(o, d, name, toDir, toName)) ==
            (if Child(d, name) in View(o) then PlainRename(View(o), Child(d, name), Child(toDir, toName)) else View(o))
            <==> FaithfulRename(o, Child(d, name))
  {
    var src, dst := Child(d, name), Child(toDir, toName);
    if src in o.nodes {
      ViewAt(o, src);
      RenameMovesViewIff(o, d, name, toDir, toName);
    } else {
      NotMoved(View(o), src, dst);
    }
  }

  lemma NotMoved(t: Tree, src: Path, dst: Path)
    requires Apart(src, dst)
    ensures t == (if src in t then PlainRename(t, src, dst) else t) <==> src !in t
  {
    if src in t {
      assert src !in PlainRename(t, src, dst);
    }
  }

  /** One operation refines its plain counterpart exactly when it is faithful. */
  lemma {:induction false} StepRefinesIff(o: Overlay, op: Op)
    requires Inv(o) && Enabled(o, op)
    ensures View(Step(o, op)) == Plain(o.ro, View(o), op) <==> Faithful(o, op)
  {
    match op
    case Lookup(d, n) => LookupOk(o, d, n);
    case Mkdir(d, n, perm) => MkdirOk(o, d, n, perm);
    case Create(d, n, perm) => CreateOk(o, d, n, perm);
    case MakeLink(d, n, target) => SymlinkOk(o, d, n, target);
    case Unlink(d, n) => UnlinkOk(o, d, n);
    case OpenWrite(p) => OpenWriteOk(o, p);
    case Write(p, c) => WriteOk(o, p, c);
    case Truncate(p, ok, c) => TruncateOk(o, p, ok, c);
    case Chmod(p, perm) => ChmodOk(o, p, perm);
    case Rename(d, n, toDir, toName) => RenameFaithful(o, d, n, toDir, toName);
    case Reset => ResetOk(o);
  }

  lemma {:induction false} RunInv(o: Overlay, ops: seq<Op>)
    requires Inv(o) && Legal(o, ops)
    ensures Inv(Run(o, ops)) && Run(o, ops).ro == o.ro
    decreases |ops|
  {
    if ops != [] {
      StepInv(o, ops[0]);
      StepRo(o, ops[0]);
      RunInv(Step(o, ops[0]), ops[1..]);
    }
  }

  lemma {:induction false} RunRefines(o: Overlay, ops: seq<Op>)
    requires Inv(o) && Legal(o, ops) && AllFaithful(o, ops)
    ensures View(Run(o, ops)) == PlainRun(o.ro, View(o), ops)
    decreases |ops|
  {
    if ops != [] {
      StepInv(o, ops[0]);
      StepRo(o, ops[0]);
      StepRefinesIff(o, ops[0]);
      RunRefines(Step(o, ops[0]), ops[1..]);
    }
  }

  /** A process in a union file system sees what it would see on a plain copy of the tree. */
  lemma UnionRefinesPlain(ro: Tree, ops: seq<Op>)
    requires WfTree(ro) && Legal(Initial(ro), ops) && AllFaithful(Initial(ro), ops)
    ensures View(Run(Initial(ro), ops)) == PlainRun(ro, ro, ops)
  {
    InitialInv(ro);
    RunRefines(Initial(ro), ops);
  }

  // ---------------------------------------------------------------- where the program falls short

  /** A directory with no changed node below it loses nothing when renamed. */
  lemma UnchangedLosesNothing(o: Overlay, src: Path)
    requires Inv(o) && Honest(o) && src in o.nodes
    requires forall q :: q in o.nodes && Below(src, q) ==> !o.nodes[q].changed
    ensures NothingLost(o, src)
  {
    forall q | q in o.nodes && Below(src, q)
      ensures Shows(o, q) && EntryOf(o, o.nodes[q]) == o.ro[q]
    {
      assert NodeOk(o, q);
    }
  }

  /** The tree and the run of the example below: a directory `d` holding a file `f`, which the
      process looks up, opens for writing and rewrites. */
  function ExampleTree(d: Name, f: Name, was: Blob): Tree {
    map[Root := Dir(493), Child(Root, d) := Dir(493), Child(Child(Root, d), f) := File(420, was)]
  }

  function ExampleRun(d: Name, f: Name, now: Blob): seq<Op> {
    var file := Child(Child(Root, d), f);
    [Lookup(Root, d), Lookup(Child(Root, d), f), OpenWrite(file), Write(file, now)]
  }

  lemma ExampleLookedUp(d: Name, f: Name, was: Blob) returns (o1: Overlay, o2: Overlay)
    ensures WfTree(ExampleTree(d, f, was))
    ensures o1 == DoLookup(Initial(ExampleTree(d, f, was)), Root, d) && DirNode(o1, Child(Root, d))
    ensures o2 == DoLookup(o1, Child(Root, d), f) && Inv(o2) && View(o2) == o2.ro == ExampleTree(d, f, was)
    ensures o2.deleted == {} && FileNode(o2, Child(Child(Root, d), f)) && !o2.nodes[Child(Child(Root, d), f)].changed
    ensures Child(Root, d) in o2.nodes && LiveDir(o2.nodes[Child(Root, d)], Child(Root, d))
  {
    var ro := ExampleTree(d, f, was);
    var o0 := Initial(ro);
    InitialInv(ro);
    o1 := DoLookup(o0, Root, d);
    LookupOk(o0, Root, d);
    o2 := DoLookup(o1, Child(Root, d), f);
    LookupOk(o1, Child(Root, d), f);
  }

  lemma {:induction false} ExampleRewritten(o: Overlay, p: Path, perm: nat, was: Blob, now: Blob)
    returns (w: Overlay, o': Overlay)
    requires Inv(o) && FileNode(o, p) && p in View(o) && View(o)[p] == File(perm, was)
    ensures w == Touch(Promote(o, p), p) && FileNode(w, p) && w.nodes[p].backing.Some? && w.nodes[p].changed
    ensures o' == DoWrite(w, p, now) && Inv(o') && View(o') == View(o)[p := File(perm, now)]
  {
    OpenWriteOk(o, p);
    w := Touch(Promote(o, p), p);
    WriteOk(w, p, now);
    o' := DoWrite(w, p, now);
  }

  lemma ExampleLegal(o0: Overlay, o1: Overlay, o2: Overlay, o3: Overlay, o4: Overlay, d: Name, f: Name, now: Blob)
    requires DirNode(o0, Root) && o1 == DoLookup(o0, Root, d)
    requires DirNode(o1, Child(Root, d)) && o2 == DoLookup(o1, Child(Root, d), f)
    requires FileNode(o2, Child(Child(Root, d), f))
    requires o3 == Touch(Promote(o2, Child(Child(Root, d), f)), Child(Child(Root, d), f))
    requires FileNode(o3, Child(Child(Root, d), f)) && o3.nodes[Child(Child(Root, d), f)].backing.Some?
    requires o3.nodes[Child(Child(Root, d), f)].changed && o4 == DoWrite(o3, Child(Child(Root, d), f), now)
    ensures Legal(o0, ExampleRun(d, f, now)) && Run(o0, ExampleRun(d, f, now)) == o4
  {
    var file := Child(Child(Root, d), f);
    RunOfFour(o0, Lookup(Root, d), Lookup(Child(Root, d), f), OpenWrite(file), Write(file, now));
  }

  lemma ExampleState(d: Name, f: Name, was: Blob, now: Blob) returns (o: Overlay)
    ensures WfTree(ExampleTree(d, f, was)) && Legal(Initial(ExampleTree(d, f, was)), ExampleRun(d, f, now))
    ensures o == Run(Initial(ExampleTree(d, f, was)), ExampleRun(d, f, now)) && Inv(o)
    ensures View(o) == ExampleTree(d, f, was)[Child(Child(Root, d), f) := File(420, now)]
    ensures o.ro == ExampleTree(d, f, was) && o.deleted == {}
    ensures Child(Root, d) in o.nodes && LiveDir(o.nodes[Child(Root, d)], Child(Root, d))
    ensures Child(Child(Root, d), f) in o.nodes
  {
    var o1, o2 := ExampleLookedUp(d, f, was);
    var file := Child(Child(Root, d), f);
    var o3;
    o3, o := ExampleRewritten(o2, file, 420, was, now);
    ExampleLegal(Initial(ExampleTree(d, f, was)), o1, o2, o3, o, d, f, now);
  }

  /** Renaming a directory in which a file has just been rewritten puts the old contents back. */
  lemma RenameLosesWrite(d: Name, f: Name, e: Name, was: Blob, now: Blob)
    requires d != e && was != now
    ensures WfTree(ExampleTree(d, f, was)) && Legal(Initial(ExampleTree(d, f, was)), ExampleRun(d, f, now))
    ensures var o := Run(Initial(ExampleTree(d, f, was)), ExampleRun(d, f, now));
      && RenameIssued(o, Root, d, Root, e)
      && View(DoRename(o, Root, d, Root, e)) != PlainRename(View(o), Child(Root, d), Child(Root, e))
  {
    var dir := Child(Root, d);
    var file := Child(dir, f);
    var o := ExampleState(d, f, was, now);
    ViewAt(o, file);
    NothingCovered(file);
    assert Below(dir, file) && Shows(o, file);
    assert NodeOk(o, Root);
    var dst := Child(Root, e);
    assert !Below(dst, Root) && !Below(dir, Root);
    assert !Below(dst, dir) && !Below(dir, dst);
    assert !Below(dst, file);
    forall q | q in View(o) ensures !Below(dst, q) {
      assert q == Root || q == dir || q == file;
    }
    RenameMovesViewIff(o, Root, d, Root, e);
  }

  lemma RunFirst(o: Overlay, a: Op, rest: seq<Op>)
    requires Enabled(o, a) && Legal(Step(o, a), rest)
    ensures Legal(o, [a] + rest) && Run(o, [a] + rest) == Run(Step(o, a), rest)
  {
    assert ([a] + rest)[1..] == rest;
  }

  lemma {:induction false} RunOfFour(o: Overlay, a: Op, b: Op, c: Op, d: Op)
    requires Enabled(o, a) && Enabled(Step(o, a), b) && Enabled(Step(Step(o, a), b), c)
    requires Enabled(Step(Step(Step(o, a), b), c), d)
    ensures Legal(o, [a, b, c, d]) && Run(o, [a, b, c, d]) == Step(Step(Step(Step(o, a), b), c), d)
  {
    var o1, o2, o3 := Step(o, a), Step(Step(o, a), b), Step(Step(Step(o, a), b), c);
    RunFirst(o3, d, []);
    RunFirst(o2, c, [d]);
    assert [c] + [d] == [c, d];
    RunFirst(o1, b, [c, d]);
    assert [b] + [c, d] == [b, c, d];
    RunFirst(o, a, [b, c, d]);
    assert [a] + [b, c, d] == [a, b, c, d];
  }
}
