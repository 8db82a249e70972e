/** A task's way back to the master: the reaped diff becomes a sorted file set, and replaying the
    set turns the master's writable root into what the task saw. */
module RemoteRun {
  import opened Paths
  import opened Trees
  import opened Overlays
  import opened FileSets
  import opened Edits
  import opened SortedEdits
  import opened Supply
  import opened Masters

  // ---------------------------------------------------------------- fillReply

  /** The content hash fillReply gives a regular file: that of its backing file, else that of the
      read-only file it stands for.  The latter is skipped when prefixing the writable root does
      not change the path. */
  function ReplyHash(hash: Blob -> string, o: Overlay, wr: Path, r: Result): string {
    if r.Gone? || r.kind != Regular then ""
    else if r.backing.Some? then
      if r.backing.value in o.store then hash(o.store[r.backing.value]) else ""
    else if r.original.Some? && Graft(wr, r.original.value) != r.original.value then
      HashAt(hash, o.ro, r.original.value)
    else ""
  }

  function ReplyFor(hash: Blob -> string, o: Overlay, wr: Path, p: Path, r: Result): FileAttr {
    if r.Gone? then Deleted(Graft(wr, p))
    else FileAttr(Graft(wr, p), Some(Attr(r.kind, r.perm, 0)), ReplyHash(hash, o, wr, r),
                  if r.kind == Symlink then r.link else "", None)
  }

  /** Every changed file gets a hash. */
  predicate HashesSent(o: Overlay, wr: Path) {
    wr.Child? ||
      forall p :: p in o.nodes && o.nodes[p].changed && o.nodes[p].kind == Regular ==> o.nodes[p].backing.Some?
  }

  /** `fs` is the sorted file set for the reaped results `m`. */
  predicate IsReply(hash: Blob -> string, o: Overlay, wr: Path, m: map<Path, Result>, fs: seq<FileAttr>) {
    && Sorted(fs)
    && (forall p :: p in m ==> ReplyFor(hash, o, wr, p, m[p]) in fs)
    && (forall i :: 0 <= i < |fs| ==> FromResult(hash, o, wr, m, fs[i]))
  }

  predicate FromResult(hash: Blob -> string, o: Overlay, wr: Path, m: map<Path, Result>, f: FileAttr) {
    exists p :: p in m && f == ReplyFor(hash, o, wr, p, m[p])
  }

  lemma GraftInjective(wr: Path, p: Path, q: Path)
    ensures Graft(wr, p) == Graft(wr, q) ==> p == q
    ensures Covers(wr, Graft(wr, p))
  {
    GraftIsMoved(wr, p);
    GraftIsMoved(wr, q);
    MovedBack(Root, wr, p);
    MovedBack(Root, wr, q);
  }

  lemma {:induction false} GraftDepth(wr: Path, p: Path)
    ensures Depth(Graft(wr, p)) == Depth(wr) + Depth(p)
  {
    if p.Child? {
      GraftDepth(wr, p.parent);
    }
  }

  /** The entry is that of a reaped path which has been dealt with. */
  predicate FromDone(hash: Blob -> string, o: Overlay, wr: Path, m: map<Path, Result>, todo: set<Path>, f: FileAttr) {
    exists p :: p in m && p !in todo && f == ReplyFor(hash, o, wr, p, m[p])
  }

  lemma DoneElsewhere(hash: Blob -> string, o: Overlay, wr: Path, m: map<Path, Result>, todo: set<Path>,
                      f: FileAttr, p: Path)
    requires FromDone(hash, o, wr, m, todo, f) && p in todo
    ensures f.path != Graft(wr, p)
  {
    var q :| q in m && q !in todo && f == ReplyFor(hash, o, wr, q, m[q]);
    GraftInjective(wr, p, q);
  }

  lemma DoneMore(hash: Blob -> string, o: Overlay, wr: Path, m: map<Path, Result>, todo: set<Path>,
                 f: FileAttr, p: Path)
    requires p in m && p in todo && (FromDone(hash, o, wr, m, todo, f) || f == ReplyFor(hash, o, wr, p, m[p]))
    ensures FromDone(hash, o, wr, m, todo - {p}, f)
  {
  }

  lemma SortedReply(hash: Blob -> string, o: Overlay, wr: Path, m: map<Path, Result>, files: seq<FileAttr>,
                    fs: seq<FileAttr>)
    requires Sorted(fs) && multiset(fs) == multiset(files)
    requires forall p :: p in m ==> ReplyFor(hash, o, wr, p, m[p]) in files
    requires forall i :: 0 <= i < |files| ==> FromDone(hash, o, wr, m, {}, files[i])
    ensures IsReply(hash, o, wr, m, fs)
  {
    forall p | p in m
      ensures ReplyFor(hash, o, wr, p, m[p]) in fs
    {
      assert ReplyFor(hash, o, wr, p, m[p]) in multiset(files);
    }
    forall i | 0 <= i < |fs|
      ensures FromResult(hash, o, wr, m, fs[i])
    {
      assert fs[i] in multiset(fs);
      var k :| 0 <= k < |files| && files[k] == fs[i];
      assert FromDone(hash, o, wr, m, {}, files[k]);
    }
  }

  /** fillReply: one entry per reaped path, in any order, then sorted. */
  method FillReply(hash: Blob -> string, o: Overlay, wr: Path, results: map<Path, Result>) returns (fs: seq<FileAttr>)
    ensures IsReply(hash, o, wr, results, fs)
  {
    var files, todo := [], results.Keys;
    while todo != {}
      invariant todo <= results.Keys && DistinctKeys(files)
      invariant forall p :: p in results && p !in todo ==> ReplyFor(hash, o, wr, p, results[p]) in files
      invariant forall i :: 0 <= i < |files| ==> FromDone(hash, o, wr, results, todo, files[i])
    {
      var p :| p in todo;
      var f := ReplyFor(hash, o, wr, p, results[p]);
      forall i | 0 <= i < |files|
        ensures files[i].path != f.path && FromDone(hash, o, wr, results, todo - {p}, files[i])
      {
        DoneElsewhere(hash, o, wr, results, todo, files[i], p);
        DoneMore(hash, o, wr, results, todo, files[i], p);
      }
      DoneMore(hash, o, wr, results, todo, f, p);
      files := files + [f];
      todo := todo - {p};
    }
    fs := Sort(files);
    SortedReply(hash, o, wr, results, files, fs);
  }

  // ---------------------------------------------------------------- the set as an edit script

  /** The master's tree holds the read-only tree at the writable root. */
  ghost predicate Mounted(t: Tree, wr: Path, ro: Tree) {
    forall p :: (Graft(wr, p) in t <==> p in ro) && (p in ro ==> t[Graft(wr, p)] == ro[p])
  }

  /** An entry for `Graft(wr, p)` is the entry for `p`. */
  lemma ReplyOnly(hash: Blob -> string, o: Overlay, wr: Path, m: map<Path, Result>, f: FileAttr, p: Path)
    requires FromResult(hash, o, wr, m, f) && f.path == Graft(wr, p)
    ensures p in m && f == ReplyFor(hash, o, wr, p, m[p])
  {
    var q :| q in m && f == ReplyFor(hash, o, wr, q, m[q]);
    GraftInjective(wr, p, q);
  }

  lemma ReplyAt(hash: Blob -> string, o: Overlay, wr: Path, m: map<Path, Result>, fs: seq<FileAttr>, p: Path)
    requires IsReply(hash, o, wr, m, fs)
    ensures Removes(fs, Graft(wr, p)) <==> p in m && m[p].Gone?
    ensures Puts(fs, Graft(wr, p)) <==> p in m && m[p].Now?
  {
    forall i | 0 <= i < |fs| && fs[i].path == Graft(wr, p)
      ensures p in m && (Deletion(fs[i]) <==> m[p].Gone?)
    {
      ReplyOnly(hash, o, wr, m, fs[i], p);
    }
    if p in m {
      var f := ReplyFor(hash, o, wr, p, m[p]);
      var i :| 0 <= i < |fs| && fs[i] == f;
    }
  }

  lemma ReplyInside(hash: Blob -> string, o: Overlay, wr: Path, m: map<Path, Result>, fs: seq<FileAttr>, q: Path)
    requires IsReply(hash, o, wr, m, fs) && !Covers(wr, q)
    ensures !Removes(fs, q) && !Puts(fs, q)
  {
    forall i | 0 <= i < |fs| ensures fs[i].path != q {
      assert FromResult(hash, o, wr, m, fs[i]);
      var p :| p in m && fs[i] == ReplyFor(hash, o, wr, p, m[p]);
      GraftInjective(wr, p, p);
    }
  }

  /** No path turns from a file or link into a directory, or from a directory into a file. */
  predicate KindsKept(ro: Tree, view: Tree) {
    forall p :: p in ro && p in view ==> KindKept(ro[p], view[p])
  }

  predicate KindKept(was: Entry, now: Entry) {
    if was.Dir? then !now.File? else !now.Dir?
  }

  /** A path that is gone takes its contents with it. */
  lemma {:induction false} GoneBelow(o: Overlay, p: Path, n: Name)
    requires Inv(o) && p in Diff(o) && Diff(o)[p].Gone? && Child(p, n) in o.ro
    ensures Child(p, n) in Diff(o) && Diff(o)[Child(p, n)].Gone?
  {
    assert forall q :: q in o.nodes ==> NodeOk(o, q);
  }

  /** So does a directory that became something else. */
  lemma ReplacedBelow(o: Overlay, p: Path, n: Name)
    requires Inv(o) && p in o.nodes && o.nodes[p].kind != Directory && Child(p, n) in o.ro
    ensures Child(p, n) in Diff(o) && Diff(o)[Child(p, n)].Gone?
  {
    assert Below(p, Child(p, n));
    assert forall q :: q in o.nodes ==> NodeOk(o, q);
  }

  /** A deletion in the set always finds its directory emptied. */
  lemma {:induction false} ReplyRemovalOk(hash: Blob -> string, o: Overlay, wr: Path, t: Tree, fs: seq<FileAttr>,
                                          p: Path)
    requires Inv(o) && Mounted(t, wr, o.ro) && IsReply(hash, o, wr, Diff(o), fs)
    requires p in Diff(o) && Diff(o)[p].Gone?
    ensures RemovalOk(ShapeOf(t), fs, Graft(wr, p))
  {
    assert forall q :: q in o.nodes ==> NodeOk(o, q);
    forall q | q in t && q.Child? && q.parent == Graft(wr, p) ensures Removes(fs, q) {
      assert Graft(wr, Child(p, q.name)) == q;
      GoneBelow(o, p, q.name);
      ReplyAt(hash, o, wr, Diff(o), fs, Child(p, q.name));
    }
  }

  /** Whatever the set puts has a directory above it. */
  lemma {:induction false} ReplyParentOk(hash: Blob -> string, o: Overlay, wr: Path, t: Tree, fs: seq<FileAttr>,
                                         p: Path)
    requires Inv(o) && WfTree(t) && Mounted(t, wr, o.ro) && IsReply(hash, o, wr, Diff(o), fs)
    requires p in Diff(o) && Diff(o)[p].Now? && Graft(wr, p).Child?
    ensures DirAfter(ShapeOf(t), fs, Graft(wr, p).parent)
  {
    if p.Root? {
      assert Graft(wr, Root) in t;
      ParentNotCovered(wr);
      ReplyInside(hash, o, wr, Diff(o), fs, wr.parent);
    } else {
      assert NodeOk(o, p);
      ReplyDirOk(hash, o, wr, t, fs, p.parent);
    }
  }

  /** A directory of the view is one after the replay too. */
  lemma {:induction false} ReplyDirOk(hash: Blob -> string, o: Overlay, wr: Path, t: Tree, fs: seq<FileAttr>, d: Path)
    requires Inv(o) && Mounted(t, wr, o.ro) && IsReply(hash, o, wr, Diff(o), fs)
    requires d in o.nodes && o.nodes[d].kind == Directory
    ensures DirAfter(ShapeOf(t), fs, Graft(wr, d))
  {
    var m := Diff(o);
    assert NodeOk(o, d);
    ReplyAt(hash, o, wr, m, fs, d);
    if d in m && m[d].Now? {
      assert ReplyFor(hash, o, wr, d, m[d]) in fs;
      var i :| 0 <= i < |fs| && fs[i] == ReplyFor(hash, o, wr, d, m[d]);
      assert IsDir(fs[i]);
    }
  }

  /** Where a link has replaced a directory, the directory is emptied first. */
  lemma {:induction false} ReplyEmptied(hash: Blob -> string, o: Overlay, wr: Path, t: Tree, fs: seq<FileAttr>, p: Path)
    requires Inv(o) && Mounted(t, wr, o.ro) && IsReply(hash, o, wr, Diff(o), fs)
    requires p in o.nodes && o.nodes[p].kind != Directory
    ensures forall q :: q in ShapeOf(t) && q.Child? && q.parent == Graft(wr, p) ==> Removes(fs, q)
  {
    forall q | q in t && q.Child? && q.parent == Graft(wr, p) ensures Removes(fs, q) {
      assert Graft(wr, Child(p, q.name)) == q;
      ReplacedBelow(o, p, q.name);
      ReplyAt(hash, o, wr, Diff(o), fs, Child(p, q.name));
    }
  }

  lemma {:induction false} ChangedAt(o: Overlay, p: Path)
    requires Inv(o) && p in Diff(o) && Diff(o)[p].Now?
    ensures p in o.nodes && o.nodes[p].changed && Diff(o)[p] == ResultOf(o.nodes[p])
    ensures p in Reported(o) && Reported(o)[p] == EntryOf(o, o.nodes[p]) && KindOf(Reported(o)[p]) == o.nodes[p].kind
  {
    ReportedAt(o, p);
  }

  /** For a put that comes with no removal, over a directory only if that is emptied. */
  lemma KindOkIs(k: Shape, fs: seq<FileAttr>, f: FileAttr)
    requires !Deletion(f) && !Removes(fs, f.path)
    requires KindAfter(f) == Symlink ==> forall q :: q in k && q.Child? && q.parent == f.path ==> Removes(fs, q)
    ensures KindOk(k, fs, f) <==> (f.path in k ==>
      if k[f.path] == Directory then KindAfter(f) != Regular else KindAfter(f) != Directory)
  {
  }

  lemma {:induction false} ReplyKindOk(hash: Blob -> string, o: Overlay, wr: Path, t: Tree, fs: seq<FileAttr>, p: Path)
    requires Inv(o) && Mounted(t, wr, o.ro) && IsReply(hash, o, wr, Diff(o), fs)
    requires p in Diff(o) && Diff(o)[p].Now?
    ensures p in Reported(o)
    ensures KindOk(ShapeOf(t), fs, ReplyFor(hash, o, wr, p, Diff(o)[p])) <==>
            (p in o.ro ==> KindKept(o.ro[p], Reported(o)[p]))
  {
    ChangedAt(o, p);
    if o.nodes[p].kind == Symlink {
      ReplyEmptied(hash, o, wr, t, fs, p);
    }
    ReplyKindAt(hash, o, wr, t, fs, Diff(o), p);
  }

  lemma {:induction false} ReplyKindAt(hash: Blob -> string, o: Overlay, wr: Path, t: Tree, fs: seq<FileAttr>,
                                       m: map<Path, Result>, p: Path)
    requires Mounted(t, wr, o.ro) && IsReply(hash, o, wr, m, fs) && p in m && m[p].Now?
    requires m[p].kind == Symlink ==>
      forall q :: q in ShapeOf(t) && q.Child? && q.parent == Graft(wr, p) ==> Removes(fs, q)
    ensures KindOk(ShapeOf(t), fs, ReplyFor(hash, o, wr, p, m[p])) <==>
      (p in o.ro ==> if o.ro[p].Dir? then m[p].kind != Regular else m[p].kind != Directory)
  {
    ReplyAt(hash, o, wr, m, fs, p);
    KindOkIs(ShapeOf(t), fs, ReplyFor(hash, o, wr, p, m[p]));
  }

  /** The reply of a task can be replayed iff no path changed between directory and file. */
  lemma {:induction false} ReplyReplayableIff(hash: Blob -> string, o: Overlay, wr: Path, t: Tree, fs: seq<FileAttr>)
    requires Inv(o) && WfTree(t) && Mounted(t, wr, o.ro) && HashesSent(o, wr) && IsReply(hash, o, wr, Diff(o), fs)
    ensures Replayable(ShapeOf(t), fs) <==> KindsKept(o.ro, Reported(o))
  {
    WfShapeTree(t);
    SortedReplayableIff(ShapeOf(t), fs);
    if EditsOk(ShapeOf(t), fs) {
      forall p | p in o.ro && p in Reported(o) ensures KindKept(o.ro[p], Reported(o)[p]) {
        ReplyKindsKept(hash, o, wr, t, fs, p);
      }
    }
    if KindsKept(o.ro, Reported(o)) {
      forall i | 0 <= i < |fs| ensures ElemOk(ShapeOf(t), fs, fs[i]) {
        assert FromResult(hash, o, wr, Diff(o), fs[i]);
        var p :| p in Diff(o) && fs[i] == ReplyFor(hash, o, wr, p, Diff(o)[p]);
        ReplyElemOk(hash, o, wr, t, fs, p);
      }
    }
  }

  lemma ReplyPutOk(hash: Blob -> string, o: Overlay, wr: Path, t: Tree, fs: seq<FileAttr>, p: Path, f: FileAttr)
    requires Inv(o) && WfTree(t) && Mounted(t, wr, o.ro) && IsReply(hash, o, wr, Diff(o), fs)
    requires p in Diff(o) && Diff(o)[p].Now? && f == ReplyFor(hash, o, wr, p, Diff(o)[p])
    ensures f.path.Root? ==> IsDir(f)
    ensures f.path.Child? ==> DirAfter(ShapeOf(t), fs, f.path.parent)
  {
    if f.path.Child? {
      ReplyParentOk(hash, o, wr, t, fs, p);
    } else {
      assert NodeOk(o, p);
    }
  }

  lemma {:induction false} ReplyElemOk(hash: Blob -> string, o: Overlay, wr: Path, t: Tree, fs: seq<FileAttr>, p: Path)
    requires Inv(o) && WfTree(t) && Mounted(t, wr, o.ro) && IsReply(hash, o, wr, Diff(o), fs)
    requires KindsKept(o.ro, Reported(o)) && p in Diff(o)
    ensures ElemOk(ShapeOf(t), fs, ReplyFor(hash, o, wr, p, Diff(o)[p]))
  {
    if Diff(o)[p].Gone? {
      ReplyRemovalOk(hash, o, wr, t, fs, p);
    } else {
      ReplyPutOk(hash, o, wr, t, fs, p, ReplyFor(hash, o, wr, p, Diff(o)[p]));
      ReplyKindOk(hash, o, wr, t, fs, p);
    }
  }

  lemma ReplyKindsKept(hash: Blob -> string, o: Overlay, wr: Path, t: Tree, fs: seq<FileAttr>, p: Path)
    requires Inv(o) && Mounted(t, wr, o.ro) && IsReply(hash, o, wr, Diff(o), fs)
    requires EditsOk(ShapeOf(t), fs) && p in o.ro && p in Reported(o)
    ensures KindKept(o.ro[p], Reported(o)[p])
  {
    if p in Diff(o) && Diff(o)[p].Now? {
      assert ReplyFor(hash, o, wr, p, Diff(o)[p]) in fs;
      var i :| 0 <= i < |fs| && fs[i] == ReplyFor(hash, o, wr, p, Diff(o)[p]);
      assert ElemOk(ShapeOf(t), fs, fs[i]);
      ReplyKindOk(hash, o, wr, t, fs, p);
    }
  }

  // ---------------------------------------------------------------- what the master ends up with

  /** Same kind, same link target, same directory permissions, contents with the same hash. */
  predicate SameFile(hash: Blob -> string, a: Entry, b: Entry) {
    match a
    case Dir(_) => a == b
    case Link(_) => a == b
    case File(_, c) => b.File? && hash(c) == hash(b.content)
  }

  /** The master's tree shows `view` at the writable root, and is otherwise as it was. */
  ghost predicate Delivered(hash: Blob -> string, wr: Path, t: Tree, t': Tree, view: Tree) {
    && (forall p :: DeliveredAt(hash, wr, t', view, p))
    && (forall q :: !Covers(wr, q) ==> SameAt(t, t', q))
  }

  predicate DeliveredAt(hash: Blob -> string, wr: Path, t': Tree, view: Tree, p: Path) {
    if p in view then Graft(wr, p) in t' && SameFile(hash, t'[Graft(wr, p)], view[p]) else Graft(wr, p) !in t'
  }

  /** A file's hash in the reply is the hash of what the task saw in it. */
  lemma {:induction false} ReplyHashIs(hash: Blob -> string, o: Overlay, wr: Path, p: Path)
    requires Inv(o) && HashesSent(o, wr) && p in Diff(o) && Diff(o)[p].Now? && Diff(o)[p].kind == Regular
    ensures ReplyHash(hash, o, wr, Diff(o)[p]) == hash(ContentOf(o, o.nodes[p]))
  {
    assert NodeOk(o, p);
    var n := o.nodes[p];
    if n.original.Some? && wr.Child? {
      GraftDepth(wr, n.original.value);
    }
  }

  lemma {:induction false} DeliveredPut(hash: Blob -> string, o: Overlay, wr: Path, known: Path -> string, t: Tree,
                                        fs: seq<FileAttr>, t': Tree, p: Path)
    requires Inv(o) && HashesSent(o, wr) && IsReply(hash, o, wr, Diff(o), fs)
    requires Replayed(hash, known, t, fs, |fs|, t') && p in Diff(o) && Diff(o)[p].Now?
    ensures DeliveredAt(hash, wr, t', Reported(o), p)
  {
    ChangedAt(o, p);
    var f := ReplyFor(hash, o, wr, p, Diff(o)[p]);
    assert f in fs;
    var i :| 0 <= i < |fs| && fs[i] == f;
    assert PutOn(hash, known, t, fs, i, t');
    if f.attr.value.kind == Regular {
      ReplyHashIs(hash, o, wr, p);
    }
  }

  lemma NotTouched(hash: Blob -> string, o: Overlay, wr: Path, m: map<Path, Result>, fs: seq<FileAttr>, p: Path)
    requires IsReply(hash, o, wr, m, fs) && p !in m
    ensures !TouchedBy(fs, |fs|, Graft(wr, p))
  {
    ReplyAt(hash, o, wr, m, fs, p);
    TouchedIs(fs, Graft(wr, p));
  }

  lemma TouchedIs(fs: seq<FileAttr>, q: Path)
    ensures TouchedBy(fs, |fs|, q) ==> Removes(fs, q) || Puts(fs, q)
  {
    if TouchedBy(fs, |fs|, q) {
      var j :| 0 <= j < |fs| && fs[j].path == q;
      assert Deletion(fs[j]) || !Deletion(fs[j]);
    }
  }

  lemma {:induction false} DeliveredElsewhere(hash: Blob -> string, o: Overlay, wr: Path, known: Path -> string,
                                              t: Tree, fs: seq<FileAttr>, t': Tree, p: Path)
    requires Inv(o) && Mounted(t, wr, o.ro) && IsReply(hash, o, wr, Diff(o), fs)
    requires Replayed(hash, known, t, fs, |fs|, t') && EditedTo(ShapeOf(t), fs, ShapeOf(t'))
    requires !(p in Diff(o) && Diff(o)[p].Now?)
    ensures DeliveredAt(hash, wr, t', Reported(o), p)
  {
    ReplyAt(hash, o, wr, Diff(o), fs, p);
    assert Graft(wr, p) in ShapeOf(t') <==> Graft(wr, p) in t';
    if p !in Diff(o) {
      NotTouched(hash, o, wr, Diff(o), fs, p);
      assert SameAt(t, t', Graft(wr, p));
    }
  }

  /** Replaying the reply makes the master's writable root what the task saw, and touches nothing
      outside it. */
  lemma {:induction false} ReplyDelivers(hash: Blob -> string, o: Overlay, wr: Path, known: Path -> string, t: Tree,
                                         fs: seq<FileAttr>, t': Tree)
    requires Inv(o) && HashesSent(o, wr) && Mounted(t, wr, o.ro) && IsReply(hash, o, wr, Diff(o), fs)
    requires Replayed(hash, known, t, fs, |fs|, t') && ShapeOf(t') == EditAll(ShapeOf(t), fs)
    ensures Delivered(hash, wr, t, t', Reported(o))
  {
    SortedPutsLast(fs);
    EditAllResult(ShapeOf(t), fs);
    forall p ensures DeliveredAt(hash, wr, t', Reported(o), p) {
      if p in Diff(o) && Diff(o)[p].Now? {
        DeliveredPut(hash, o, wr, known, t, fs, t', p);
      } else {
        DeliveredElsewhere(hash, o, wr, known, t, fs, t', p);
      }
    }
    forall q | !Covers(wr, q) ensures SameAt(t, t', q) {
      ReplyInside(hash, o, wr, Diff(o), fs, q);
      TouchedIs(fs, q);
    }
  }

  /** The files the task created or changed have the permissions it gave them. */
  predicate PermsDelivered(wr: Path, t': Tree, m: map<Path, Result>) {
    forall p :: p in m && m[p].Now? && m[p].kind == Regular ==>
      Graft(wr, p) in t' && PermOn(t', Graft(wr, p)) == m[p].perm
  }

  lemma {:induction false} RightDelivered(hash: Blob -> string, o: Overlay, wr: Path, known: Path -> string, t: Tree,
                                          fs: seq<FileAttr>, t': Tree, p: Path)
    requires Inv(o) && HashesSent(o, wr) && IsReply(hash, o, wr, Diff(o), fs) && (forall b :: hash(b) != "")
    requires Replayed(hash, known, t, fs, |fs|, t') && PermsRight(fs, known, t)
    requires p in Diff(o) && Diff(o)[p].Now? && Diff(o)[p].kind == Regular
    ensures Graft(wr, p) in t' && PermOn(t', Graft(wr, p)) == Diff(o)[p].perm
  {
    ReplyHashIs(hash, o, wr, p);
    var f := ReplyFor(hash, o, wr, p, Diff(o)[p]);
    assert f in fs;
    var i :| 0 <= i < |fs| && fs[i] == f;
    assert PutOn(hash, known, t, fs, i, t');
  }

  lemma {:induction false} DeliveredRight(hash: Blob -> string, o: Overlay, wr: Path, known: Path -> string, t: Tree,
                                          fs: seq<FileAttr>, t': Tree, i: nat)
    requires IsReply(hash, o, wr, Diff(o), fs) && Replayed(hash, known, t, fs, |fs|, t')
    requires PermsDelivered(wr, t', Diff(o)) && i < |fs| && Wants(fs[i]) != ""
    ensures Received(fs, known, t, i) == fs[i].attr.value.perm
  {
    assert FromResult(hash, o, wr, Diff(o), fs[i]);
    var p :| p in Diff(o) && fs[i] == ReplyFor(hash, o, wr, p, Diff(o)[p]);
    assert PutOn(hash, known, t, fs, i, t');
  }

  lemma {:induction false} AllRightDelivered(hash: Blob -> string, o: Overlay, wr: Path, known: Path -> string,
                                             t: Tree, fs: seq<FileAttr>, t': Tree)
    requires Inv(o) && HashesSent(o, wr) && IsReply(hash, o, wr, Diff(o), fs) && (forall b :: hash(b) != "")
    requires Replayed(hash, known, t, fs, |fs|, t') && PermsRight(fs, known, t)
    ensures PermsDelivered(wr, t', Diff(o))
  {
    var m := Diff(o);
    forall p | p in m && m[p].Now? && m[p].kind == Regular
      ensures Graft(wr, p) in t' && PermOn(t', Graft(wr, p)) == m[p].perm
    {
      RightDelivered(hash, o, wr, known, t, fs, t', p);
    }
  }

  lemma AllDeliveredRight(hash: Blob -> string, o: Overlay, wr: Path, known: Path -> string, t: Tree,
                          fs: seq<FileAttr>, t': Tree)
    requires IsReply(hash, o, wr, Diff(o), fs) && Replayed(hash, known, t, fs, |fs|, t')
    requires PermsDelivered(wr, t', Diff(o))
    ensures PermsRight(fs, known, t)
  {
    forall i | 0 <= i < |fs| && Wants(fs[i]) != "" ensures Received(fs, known, t, i) == fs[i].attr.value.perm {
      DeliveredRight(hash, o, wr, known, t, fs, t', i);
    }
  }

  /** File permissions arrive as well, iff they line up for every hash. */
  lemma {:induction false} ReplyPermsIff(hash: Blob -> string, o: Overlay, wr: Path, known: Path -> string, t: Tree,
                                         fs: seq<FileAttr>, t': Tree)
    requires Inv(o) && HashesSent(o, wr) && IsReply(hash, o, wr, Diff(o), fs) && (forall b :: hash(b) != "")
    requires Replayed(hash, known, t, fs, |fs|, t')
    ensures PermsDelivered(wr, t', Diff(o)) <==> forall h :: h != "" ==> LinesUp(fs, known, t, h)
  {
    assert DeletionsFirst(fs);
    PermsRightIff(fs, known, t);
    if PermsRight(fs, known, t) {
      AllRightDelivered(hash, o, wr, known, t, fs, t');
    }
    if PermsDelivered(wr, t', Diff(o)) {
      AllDeliveredRight(hash, o, wr, known, t, fs, t');
    }
  }
}
