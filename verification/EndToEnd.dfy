/** A task run on a worker leaves the master's tree as if it had run on the master. */
module EndToEnd {
  import opened Paths
  import opened Trees
  import opened Overlays
  import opened UnionOps
  import opened UnionProofs
  import opened RenameProofs
  import opened UnionRuns
  import opened Honesty
  import opened UnionFs
  import opened FileSets
  import opened Edits
  import opened Supply
  import opened Masters
  import opened RemoteRun
  import opened AttrCaches
  import opened CacheProofs
  import opened RootEntry

  /** A changed regular file gets a hash, except when the writable root is the root directory and
      the file still stands for a read-only one. */
  lemma ReplyHashMissingIff(hash: Blob -> string, o: Overlay, wr: Path, p: Path)
    requires Inv(o) && (forall b :: hash(b) != "")
    requires p in Diff(o) && Diff(o)[p].Now? && Diff(o)[p].kind == Regular
    ensures ReplyHash(hash, o, wr, Diff(o)[p]) == "" <==> wr.Root? && Diff(o)[p].backing.None?
  {
    assert NodeOk(o, p);
    if wr.Child? {
      ReplyHashIs(hash, o, wr, p);
    } else if o.nodes[p].original.Some? {
      GraftOnRoot(o.nodes[p].original.value);
    }
  }

  /** A file that is looked up and renamed, with the writable root at the root directory: it is sent
      without a hash. */
  lemma MovedFileUnhashed(hash: Blob -> string, d: Name, f: Name, e: Name, was: Blob)
    requires e != f && forall b :: hash(b) != ""
    ensures var ro, dir := ExampleTree(d, f, was), Child(Root, d);
      var ops := [Lookup(Root, d), Lookup(dir, f), Rename(dir, f, dir, e)];
      && WfTree(ro) && Legal(Initial(ro), ops)
      && var o := Run(Initial(ro), ops);
         && Child(dir, e) in Diff(o) && Diff(o)[Child(dir, e)].Now? && Diff(o)[Child(dir, e)].kind == Regular
         && ReplyHash(hash, o, Root, Diff(o)[Child(dir, e)]) == "" && !HashesSent(o, Root)
  {
    var ro, dir := ExampleTree(d, f, was), Child(Root, d);
    var o1, o2 := ExampleLookedUp(d, f, was);
    HidingEnabled(o2, d, f, e, was);
    RunOfThree(Initial(ro), Lookup(Root, d), Lookup(dir, f), Rename(dir, f, dir, e));
    assert NodeOk(o2, Child(dir, f)) && o2.nodes[Child(dir, f)].backing.None?;
    MovedUnhashed(hash, o2, dir, f, e);
  }

  lemma MovedUnhashed(hash: Blob -> string, o: Overlay, d: Path, f: Name, e: Name)
    requires Inv(o) && RenameIssued(o, d, f, d, e) && FileNode(o, Child(d, f)) && o.nodes[Child(d, f)].backing.None?
    requires forall b :: hash(b) != ""
    ensures var o', dst := DoRename(o, d, f, d, e), Child(d, e);
      && dst in Diff(o') && Diff(o')[dst].Now? && Diff(o')[dst].kind == Regular
      && ReplyHash(hash, o', Root, Diff(o')[dst]) == "" && !HashesSent(o', Root)
  {
    var o', dst := DoRename(o, d, f, d, e), Child(d, e);
    RenameInv(o, d, f, d, e);
    assert NodeOk(o, Child(d, f));
    RenamedAt(o, d, f, d, e, dst);
    ReplyHashMissingIff(hash, o', Root, dst);
  }

  lemma RunOfThree(o: Overlay, a: Op, b: Op, c: Op)
    requires Enabled(o, a) && Enabled(Step(o, a), b) && Enabled(Step(Step(o, a), b), c)
    ensures Legal(o, [a, b, c]) && Run(o, [a, b, c]) == Step(Step(Step(o, a), b), c)
  {
    RunOfTwo(Step(o, a), b, c);
    RunFirst(o, a, [b, c]);
    assert [a] + [b, c] == [a, b, c];
  }

  lemma {:induction false} GraftOnRoot(p: Path)
    ensures Graft(Root, p) == p
  {
    if p.Child? {
      GraftOnRoot(p.parent);
    }
  }

  /** Link targets are never empty, as the kernel ensures. */
  predicate LinksNamed(t: Tree) {
    forall p :: p in t && t[p].Link? ==> t[p].target != ""
  }

  /** The contents of every changed file are to be had. */
  ghost predicate Supplied(hash: Blob -> string, store: map<string, Blob>, o: Overlay, wr: Path) {
    forall p :: p in Diff(o) && Diff(o)[p].Now? ==>
      ReplyHash(hash, o, wr, Diff(o)[p]) == "" || ReplyHash(hash, o, wr, Diff(o)[p]) in store
  }

  lemma {:induction false} ReplyServable(hash: Blob -> string, store: map<string, Blob>, o: Overlay, wr: Path,
                                         fs: seq<FileAttr>)
    requires Inv(o) && HashesSent(o, wr) && LinksNamed(Reported(o)) && IsReply(hash, o, wr, Diff(o), fs)
    requires (forall b :: hash(b) != "") && Supplied(hash, store, o, wr)
    ensures PutsLast(fs) && forall i :: 0 <= i < |fs| ==> WfAttr(fs[i]) && (Wants(fs[i]) != "" ==> fs[i].hash in store)
  {
    SortedPutsLast(fs);
    forall i | 0 <= i < |fs|
      ensures WfAttr(fs[i]) && (Wants(fs[i]) != "" ==> fs[i].hash in store)
    {
      assert FromResult(hash, o, wr, Diff(o), fs[i]);
      var p :| p in Diff(o) && fs[i] == ReplyFor(hash, o, wr, p, Diff(o)[p]);
      ReplyAttrOk(hash, o, wr, p);
    }
  }

  lemma {:induction false} ReplyAttrOk(hash: Blob -> string, o: Overlay, wr: Path, p: Path)
    requires Inv(o) && HashesSent(o, wr) && LinksNamed(Reported(o)) && (forall b :: hash(b) != "") && p in Diff(o)
    ensures var f := ReplyFor(hash, o, wr, p, Diff(o)[p]);
      WfAttr(f) && (Wants(f) != "" ==> Diff(o)[p].Now? && f.hash == ReplyHash(hash, o, wr, Diff(o)[p]))
  {
    if Diff(o)[p].Now? {
      ChangedAt(o, p);
      if Diff(o)[p].kind == Regular {
        ReplyHashIs(hash, o, wr, p);
      }
    }
  }

  /** As SameFile, permissions of files included. */
  ghost predicate DeliveredWhole(hash: Blob -> string, wr: Path, t': Tree, view: Tree) {
    forall p :: p in view ==>
      Graft(wr, p) in t' && SameFile(hash, t'[Graft(wr, p)], view[p]) && PermOn(t', Graft(wr, p)) == PermOn(view, p)
  }

  /** What the set does not mention is exactly as it was. */
  lemma UnmentionedSame(hash: Blob -> string, o: Overlay, wr: Path, known: Path -> string, t: Tree, fs: seq<FileAttr>,
                        t': Tree, p: Path)
    requires Mounted(t, wr, o.ro) && IsReply(hash, o, wr, Diff(o), fs) && Replayed(hash, known, t, fs, |fs|, t')
    requires p !in Diff(o) && p in Reported(o)
    ensures Graft(wr, p) in t' && t'[Graft(wr, p)] == Reported(o)[p]
  {
    NotTouched(hash, o, wr, Diff(o), fs, p);
    assert SameAt(t, t', Graft(wr, p));
  }

  lemma WholeAt(hash: Blob -> string, o: Overlay, wr: Path, known: Path -> string, t: Tree, fs: seq<FileAttr>,
                t': Tree, p: Path)
    requires Inv(o) && Mounted(t, wr, o.ro) && IsReply(hash, o, wr, Diff(o), fs)
    requires Replayed(hash, known, t, fs, |fs|, t')
    requires p in Reported(o) && DeliveredAt(hash, wr, t', Reported(o), p)
    ensures PermOn(t', Graft(wr, p)) == PermOn(Reported(o), p) <==>
      (p in Diff(o) && Diff(o)[p].kind == Regular ==> PermOn(t', Graft(wr, p)) == Diff(o)[p].perm)
  {
    if p !in Diff(o) {
      UnmentionedSame(hash, o, wr, known, t, fs, t', p);
    } else {
      ChangedAt(o, p);
    }
  }

  /** Everything arrives whole exactly if the permissions of the changed files do. */
  lemma WholeIff(hash: Blob -> string, o: Overlay, wr: Path, known: Path -> string, t: Tree, fs: seq<FileAttr>,
                 t': Tree)
    requires Inv(o) && Mounted(t, wr, o.ro) && IsReply(hash, o, wr, Diff(o), fs)
    requires Replayed(hash, known, t, fs, |fs|, t')
    requires Delivered(hash, wr, t, t', Reported(o))
    ensures DeliveredWhole(hash, wr, t', Reported(o)) <==> PermsDelivered(wr, t', Diff(o))
  {
    var told, m := Reported(o), Diff(o);
    forall p | p in told
      ensures Graft(wr, p) in t' && SameFile(hash, t'[Graft(wr, p)], told[p])
      ensures PermOn(t', Graft(wr, p)) == PermOn(told, p) <==>
        (p in m && m[p].kind == Regular ==> PermOn(t', Graft(wr, p)) == m[p].perm)
    {
      assert DeliveredAt(hash, wr, t', told, p);
      WholeAt(hash, o, wr, known, t, fs, t', p);
    }
    forall p | p in m && m[p].Now?
      ensures p in told
    {
      ChangedAt(o, p);
    }
  }

  lemma ReplyRootStays(hash: Blob -> string, o: Overlay, wr: Path, fs: seq<FileAttr>)
    requires Inv(o) && IsReply(hash, o, wr, Diff(o), fs)
    ensures RootStays(wr, fs) && forall i :: 0 <= i < |fs| ==> fs[i].names.None?
  {
    forall i | 0 <= i < |fs|
      ensures fs[i].names.None? && (fs[i].path == wr ==> IsDir(fs[i]))
    {
      assert FromResult(hash, o, wr, Diff(o), fs[i]);
      RootEntryIsDir(hash, o, wr, fs[i]);
    }
  }

  lemma RootEntryIsDir(hash: Blob -> string, o: Overlay, wr: Path, f: FileAttr)
    requires Inv(o) && FromResult(hash, o, wr, Diff(o), f)
    ensures f.names.None? && (f.path == wr ==> IsDir(f))
  {
    var p :| p in Diff(o) && f == ReplyFor(hash, o, wr, p, Diff(o)[p]);
    if f.path == wr {
      GraftInjective(wr, p, Root);
      assert NodeOk(o, Root);
    }
  }

  /** The results of a reap reach the master, are replayed on its disk, and the cache is told. */
  method Deliver(master: Master, cache: AttributeCache, results: map<Path, Result>, o: Overlay, wr: Path,
                 ghost stamps: Path -> nat, stamps': Path -> nat)
    returns (ok: bool, fs: seq<FileAttr>, ghost known: Path -> string)
    requires results == Diff(o)
    requires master.Sound() && WfTree(master.disk) && master.tmp == multiset{} && cache.hash == master.hash
    requires cache.Reads(master.disk, stamps) && Coherent(cache.hash, master.disk, cache.attributes)
    requires Inv(o) && HashesSent(o, wr) && Mounted(master.disk, wr, o.ro) && LinksNamed(Reported(o))
    requires Supplied(master.hash, master.store, o, wr)
    modifies master`disk, master`tmp, cache`attributes
    ensures ok <==> KindsKept(o.ro, Reported(o))
    ensures ok ==> Delivered(master.hash, wr, old(master.disk), master.disk, Reported(o))
    ensures ok ==> (DeliveredWhole(master.hash, wr, master.disk, Reported(o)) <==>
                    forall h :: h != "" ==> LinesUp(fs, known, old(master.disk), h))
    ensures ok ==> master.tmp == multiset{} && WfTree(master.disk)
    ensures ok ==> (Coherent(cache.hash, master.disk, cache.attributes) <==> RootTold(o, wr, old(cache.attributes)))
  {
    ghost var t := master.disk;
    fs := FillReply(master.hash, o, wr, results);
    ReplyServable(master.hash, master.store, o, wr, fs);
    ReplyRootStays(master.hash, o, wr, fs);
    ReplyReplayableIff(master.hash, o, wr, t, fs);
    RootMounted(o, wr, t);
    RootHeardIff(master.hash, o, wr, t, cache.attributes, fs);
    ok, known := ReplayReply(master, cache, fs, wr, stamps, stamps');
    if ok {
      Arrived(master.hash, o, wr, known, t, fs, master.disk);
    }
  }

  /** Something of the read-only tree is reported gone. */
  predicate AnyGone(o: Overlay) {
    exists p :: p in o.ro && p !in Reported(o)
  }

  /** The cache will not be wrong about the writable root, told from the state of the union file system
      and the cache as it was: that directory has the permissions it had, or it is not cached, and
      nothing was deleted either, which would have it looked up. */
  predicate RootTold(o: Overlay, wr: Path, c: Cache) {
    wr.Child? && (wr in c || AnyGone(o)) ==>
      Root in Reported(o) && Root in o.ro && Reported(o)[Root] == o.ro[Root]
  }

  lemma RootDeletes(hash: Blob -> string, o: Overlay, wr: Path, fs: seq<FileAttr>)
    requires Inv(o) && IsReply(hash, o, wr, Diff(o), fs)
    ensures DeletesUnder(fs, |fs|, wr) <==> AnyGone(o)
  {
    if DeletesUnder(fs, |fs|, wr) {
      var i :| 0 <= i < |fs| && Deletion(fs[i]) && Covers(wr, fs[i].path);
      assert FromResult(hash, o, wr, Diff(o), fs[i]);
      var p :| p in Diff(o) && fs[i] == ReplyFor(hash, o, wr, p, Diff(o)[p]);
      assert p in o.ro && p !in Reported(o);
    }
    if AnyGone(o) {
      var q :| q in o.ro && q !in Reported(o);
      assert q in Diff(o) && Diff(o)[q].Gone?;
      assert ReplyFor(hash, o, wr, q, Diff(o)[q]) in fs;
      var i :| 0 <= i < |fs| && fs[i] == ReplyFor(hash, o, wr, q, Diff(o)[q]);
      GraftInjective(wr, q, q);
    }
  }

  lemma RootEntryPerm(hash: Blob -> string, o: Overlay, wr: Path, t: Tree, fs: seq<FileAttr>)
    requires Inv(o) && Mounted(t, wr, o.ro) && IsReply(hash, o, wr, Diff(o), fs)
    ensures wr in t && Root in o.ro && Root in Reported(o)
    ensures (forall i :: 0 <= i < |fs| && fs[i].path == wr && !Deletion(fs[i]) ==>
              fs[i].attr.value.perm == PermOn(t, wr)) <==> Reported(o)[Root] == o.ro[Root]
  {
    RootMounted(o, wr, t);
    assert NodeOk(o, Root) && Graft(wr, Root) == wr;
    ReportedAt(o, Root);
    forall i | 0 <= i < |fs| && fs[i].path == wr
      ensures Root in Diff(o) && fs[i] == ReplyFor(hash, o, wr, Root, Diff(o)[Root])
    {
      ReplyOnly(hash, o, wr, Diff(o), fs[i], Root);
    }
    if Root in Diff(o) {
      assert ReplyFor(hash, o, wr, Root, Diff(o)[Root]) in fs;
    }
  }

  lemma RootHeardIff(hash: Blob -> string, o: Overlay, wr: Path, t: Tree, c: Cache, fs: seq<FileAttr>)
    requires Inv(o) && Mounted(t, wr, o.ro) && IsReply(hash, o, wr, Diff(o), fs) && wr in t
    ensures RootHeard(wr, t, c, fs) <==> RootTold(o, wr, c)
  {
    RootDeletes(hash, o, wr, fs);
    RootEntryPerm(hash, o, wr, t, fs);
  }

  lemma RootMounted(o: Overlay, wr: Path, t: Tree)
    requires Inv(o) && Mounted(t, wr, o.ro)
    ensures IsDirIn(t, wr)
  {
    assert Graft(wr, Root) == wr && Root in o.ro;
  }

  lemma Arrived(hash: Blob -> string, o: Overlay, wr: Path, known: Path -> string, t: Tree, fs: seq<FileAttr>, t': Tree)
    requires Inv(o) && HashesSent(o, wr) && Mounted(t, wr, o.ro) && IsReply(hash, o, wr, Diff(o), fs)
    requires (forall b :: hash(b) != "") && Replayed(hash, known, t, fs, |fs|, t')
      && ShapeOf(t') == EditAll(ShapeOf(t), fs)
    ensures Delivered(hash, wr, t, t', Reported(o))
    ensures DeliveredWhole(hash, wr, t', Reported(o)) <==> forall h :: h != "" ==> LinesUp(fs, known, t, h)
  {
    ReplyDelivers(hash, o, wr, known, t, fs, t');
    WholeIff(hash, o, wr, known, t, fs, t');
    ReplyPermsIff(hash, o, wr, known, t, fs, t');
  }

  lemma TaskReported(ro: Tree, ops: seq<Op>)
    requires WfTree(ro) && Legal(Initial(ro), ops)
    ensures var o := Run(Initial(ro), ops);
      && Inv(o) && o.ro == ro
      && (AllFaithful(Initial(ro), ops) ==> (Reported(o) == PlainRun(ro, ro, ops) <==> Honest(o)))
      && (AllFaithful(Initial(ro), ops) && NeverHides(Initial(ro), ops) ==> Reported(o) == PlainRun(ro, ro, ops))
  {
    InitialInv(ro);
    RunInv(Initial(ro), ops);
    ReapDeliversView(ro, ops);
    if AllFaithful(Initial(ro), ops) {
      UnionRefinesPlain(ro, ops);
    }
  }

  /** Running a task remotely: it succeeds iff what the reap reports changes no path between directory
      and file, and then puts that on the disk. If no rename lost or hid a change, this is the effect of
      running the task on a plain copy of the writable root. */
  method RunTask(master: Master, cache: AttributeCache, ro: Tree, ops: seq<Op>, wr: Path,
                 ghost stamps: Path -> nat, stamps': Path -> nat)
    returns (ok: bool, fs: seq<FileAttr>, ghost known: Path -> string)
    requires master.Sound() && WfTree(master.disk) && master.tmp == multiset{} && cache.hash == master.hash
    requires cache.Reads(master.disk, stamps) && Coherent(cache.hash, master.disk, cache.attributes)
    requires WfTree(ro) && Mounted(master.disk, wr, ro)
    requires Legal(Initial(ro), ops)
    requires var o := Run(Initial(ro), ops);
      HashesSent(o, wr) && LinksNamed(Reported(o)) && Supplied(master.hash, master.store, o, wr)
    modifies master`disk, master`tmp, cache`attributes
    ensures var told := Reported(Run(Initial(ro), ops));
      && (ok <==> KindsKept(ro, told))
      && (ok ==> Delivered(master.hash, wr, old(master.disk), master.disk, told))
      && (ok ==> (DeliveredWhole(master.hash, wr, master.disk, told) <==>
                  forall h :: h != "" ==> LinesUp(fs, known, old(master.disk), h)))
      && (AllFaithful(Initial(ro), ops) ==> (told == PlainRun(ro, ro, ops) <==> Honest(Run(Initial(ro), ops))))
      && (AllFaithful(Initial(ro), ops) && NeverHides(Initial(ro), ops) ==> told == PlainRun(ro, ro, ops))
    ensures ok ==> master.tmp == multiset{}
    ensures ok ==> (Coherent(cache.hash, master.disk, cache.attributes) <==>
                    RootTold(Run(Initial(ro), ops), wr, old(cache.attributes)))
  {
    TaskReported(ro, ops);
    var union := new MemUnionFs(ro);
    union.PerformAll(ops);
    var results := union.Reap();
    var o := Overlay(union.ro, union.nodes, union.deleted, union.store, union.nextFree);
    ok, fs, known := Deliver(master, cache, results, o, wr, stamps, stamps');
  }

  /** A task that gives its writable root new permissions, and does nothing else. */
  function ChmodRoot(perm: nat): seq<Op> {
    [Chmod(Root, perm)]
  }

  lemma RootChanged(ro: Tree, perm: nat) returns (o: Overlay)
    requires WfTree(ro)
    ensures Legal(Initial(ro), ChmodRoot(perm)) && o == Run(Initial(ro), ChmodRoot(perm))
    ensures o == DoChmod(Initial(ro), Root, perm) && Reported(o) == ro[Root := Dir(perm)]
  {
    var o0 := Initial(ro);
    InitialInv(ro);
    RunFirst(o0, Chmod(Root, perm), []);
    assert [Chmod(Root, perm)] + [] == ChmodRoot(perm);
    o := DoChmod(o0, Root, perm);
    forall p
      ensures p in Reported(o) <==> p in ro
      ensures p in Reported(o) ==> Reported(o)[p] == if p == Root then Dir(perm) else ro[p]
    {
      NothingCovered(p);
      ReportedAt(o, p);
    }
  }

  lemma RootChangedSent(hash: Blob -> string, store: map<string, Blob>, ro: Tree, perm: nat, wr: Path, o: Overlay)
    requires WfTree(ro) && wr.Child? && LinksNamed(ro)
    requires o == DoChmod(Initial(ro), Root, perm) && Reported(o) == ro[Root := Dir(perm)]
    ensures HashesSent(o, wr) && LinksNamed(Reported(o)) && KindsKept(ro, Reported(o)) && Supplied(hash, store, o, wr)
  {
  }

  /** Running it leaves every cache that knows the writable root wrong about it. */
  method RootUnheard(master: Master, cache: AttributeCache, ro: Tree, perm: nat, ops: seq<Op>, wr: Path,
                     ghost stamps: Path -> nat, stamps': Path -> nat)
    returns (ok: bool)
    requires master.Sound() && WfTree(master.disk) && master.tmp == multiset{} && cache.hash == master.hash
    requires cache.Reads(master.disk, stamps) && Coherent(cache.hash, master.disk, cache.attributes)
    requires WfTree(ro) && Mounted(master.disk, wr, ro) && LinksNamed(ro)
    requires wr.Child? && wr in cache.attributes && ro[Root].perm != perm && ops == ChmodRoot(perm)
    modifies master`disk, master`tmp, cache`attributes
    ensures ok && !Coherent(cache.hash, master.disk, cache.attributes)
  {
    ghost var o := RootChanged(ro, perm);
    RootChangedSent(master.hash, master.store, ro, perm, wr, o);
    assert !RootTold(o, wr, cache.attributes);
    var fs;
    ghost var known;
    ok, fs, known := RunTask(master, cache, ro, ops, wr, stamps, stamps');
  }

  function OneFile(f: Name, content: Blob): Tree {
    map[Root := Dir(493), Child(Root, f) := File(420, content)]
  }

  lemma MadeDirectory(f: Name, content: Blob) returns (o: Overlay)
    ensures var ro, ops := OneFile(f, content), [Unlink(Root, f), Mkdir(Root, f, 493)];
      WfTree(ro) && Legal(Initial(ro), ops) && Run(Initial(ro), ops) == o && Inv(o) && o.ro == ro
    ensures Child(Root, f) in Reported(o) && Reported(o)[Child(Root, f)] == Dir(493)
  {
    var ro := OneFile(f, content);
    var o0 := Initial(ro);
    InitialInv(ro);
    var o1 := DoUnlink(o0, Root, f);
    UnlinkOk(o0, Root, f);
    o := DoMkdir(o1, Root, f, 493);
    MkdirOk(o1, Root, f, 493);
    RunOfTwo(o0, Unlink(Root, f), Mkdir(Root, f, 493));
    ReportedAt(o, Child(Root, f));
  }

  /** Replacing a file by a directory in one task cannot be replayed. */
  lemma FileToDirectoryFails(hash: Blob -> string, f: Name, content: Blob, wr: Path, t: Tree, fs: seq<FileAttr>)
    requires WfTree(t) && Mounted(t, wr, OneFile(f, content))
    ensures var ro, ops := OneFile(f, content), [Unlink(Root, f), Mkdir(Root, f, 493)];
      && WfTree(ro) && Legal(Initial(ro), ops)
      && var o := Run(Initial(ro), ops);
         HashesSent(o, wr) && IsReply(hash, o, wr, Diff(o), fs) ==> !Replayable(ShapeOf(t), fs)
  {
    var o := MadeDirectory(f, content);
    if HashesSent(o, wr) && IsReply(hash, o, wr, Diff(o), fs) {
      ReplyReplayableIff(hash, o, wr, t, fs);
    }
  }

  lemma RunOfTwo(o: Overlay, a: Op, b: Op)
    requires Enabled(o, a) && Enabled(Step(o, a), b)
    ensures Legal(o, [a, b]) && Run(o, [a, b]) == Step(Step(o, a), b)
  {
    RunFirst(Step(o, a), b, []);
    RunFirst(o, a, [b]);
    assert [a] + [b] == [a, b];
  }
}
