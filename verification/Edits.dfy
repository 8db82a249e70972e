/** Edit scripts: when every single system call of a replay succeeds, and what tree results.

    Whether a step succeeds depends only on which paths exist and of what kind, so this module
    works on shapes. */
module Edits {
  import opened Paths
  import opened PathOrder
  import opened Trees
  import opened FileSets

  type Shape = map<Path, Kind>

  function ShapeOf(t: Tree): Shape {
    map p | p in t :: KindOf(t[p])
  }

  predicate DirAt(k: Shape, p: Path) {
    p in k && k[p] == Directory
  }

  predicate WfShape(k: Shape) {
    DirAt(k, Root) && forall p :: p in k && p.Child? ==> DirAt(k, p.parent)
  }

  predicate Empty(k: Shape, p: Path) {
    forall q :: q in k && q.Child? ==> q.parent != p
  }

  function KindAfter(f: FileAttr): Kind
    requires !Deletion(f)
  {
    f.attr.value.kind
  }

  /** The system calls replaying `f` makes all succeed: remove needs an existing path with nothing
      in it; mkdir tolerates an existing directory; rename refuses to replace a directory; a link
      is made after a remove whose failure is ignored. */
  predicate StepOk(k: Shape, f: FileAttr) {
    var p := f.path;
    if Deletion(f) then p in k && p.Child? && Empty(k, p)
    else if p in k && k[p] == Directory then
      match KindAfter(f)
      case Directory => true
      case Regular => false
      case Symlink => p.Child? && Empty(k, p)
    else
      p.Child? && DirAt(k, p.parent) && (KindAfter(f) == Directory ==> p !in k)
  }

  function Edit(k: Shape, f: FileAttr): Shape {
    if Deletion(f) then k - {f.path} else k[f.path := KindAfter(f)]
  }

  function EditAll(k: Shape, fs: seq<FileAttr>): Shape
    decreases |fs|
  {
    if fs == [] then k else EditAll(Edit(k, fs[0]), fs[1..])
  }

  /** Replaying `fs` step by step never fails. */
  predicate Replayable(k: Shape, fs: seq<FileAttr>)
    decreases |fs|
  {
    fs == [] || (StepOk(k, fs[0]) && Replayable(Edit(k, fs[0]), fs[1..]))
  }

  lemma StepWf(k: Shape, f: FileAttr)
    requires WfShape(k) && StepOk(k, f)
    ensures WfShape(Edit(k, f))
  {
  }

  // ---------------------------------------------------------------- sorted scripts

  predicate Removes(fs: seq<FileAttr>, p: Path) {
    exists i :: 0 <= i < |fs| && fs[i].path == p && Deletion(fs[i])
  }

  predicate Puts(fs: seq<FileAttr>, p: Path) {
    exists i :: 0 <= i < |fs| && fs[i].path == p && !Deletion(fs[i])
  }

  /** Everything directly inside a removed path is removed too. */
  predicate RemovalOk(k: Shape, fs: seq<FileAttr>, p: Path) {
    && p in k && p.Child?
    && forall q :: q in k && q.Child? && q.parent == p ==> Removes(fs, q)
  }

  /** `p` will be a directory: one is put there, or one is there and is left alone. */
  predicate DirAfter(k: Shape, fs: seq<FileAttr>, p: Path) {
    if Puts(fs, p) then exists i :: 0 <= i < |fs| && fs[i].path == p && IsDir(fs[i])
    else DirAt(k, p) && !Removes(fs, p)
  }

  /** The kind put at an existing path that is not removed first: directories stay directories,
      files and links stay files or links, and an emptied directory may become a link. */
  predicate KindOk(k: Shape, fs: seq<FileAttr>, f: FileAttr)
    requires !Deletion(f)
  {
    f.path in k && !Removes(fs, f.path) ==>
      if k[f.path] == Directory then
        match KindAfter(f)
        case Directory => true
        case Regular => false
        case Symlink => forall q :: q in k && q.Child? && q.parent == f.path ==> Removes(fs, q)
      else KindAfter(f) != Directory
  }

  predicate ElemOk(k: Shape, fs: seq<FileAttr>, f: FileAttr) {
    if Deletion(f) then RemovalOk(k, fs, f.path)
    else
      && (f.path.Root? ==> IsDir(f))
      && (f.path.Child? ==> DirAfter(k, fs, f.path.parent))
      && KindOk(k, fs, f)
  }

  /** The condition on a whole script that makes it replayable when sorted. */
  predicate EditsOk(k: Shape, fs: seq<FileAttr>) {
    forall i :: 0 <= i < |fs| ==> ElemOk(k, fs, fs[i])
  }

  /** What a script leaves: removed paths gone, the others put on top. */
  ghost predicate EditedTo(k: Shape, fs: seq<FileAttr>, k': Shape) {
    && (forall p :: p in k' <==> Puts(fs, p) || (p in k && !Removes(fs, p)))
    && (forall i :: 0 <= i < |fs| && !Deletion(fs[i]) ==>
          fs[i].path in k' && k'[fs[i].path] == KindAfter(fs[i]))
    && (forall p :: p in k' && !Puts(fs, p) ==> p in k && k'[p] == k[p])
  }

  /** No step touches a path that an earlier step has put. */
  predicate PutsLast(fs: seq<FileAttr>) {
    forall i, j :: 0 <= i < j < |fs| && !Deletion(fs[i]) ==> fs[j].path != fs[i].path
  }

  lemma SortedPutsLast(fs: seq<FileAttr>)
    requires Sorted(fs)
    ensures PutsLast(fs)
  {
    forall i, j | 0 <= i < j < |fs| && !Deletion(fs[i]) ensures fs[j].path != fs[i].path {
      PathLessIrreflexive(fs[i].path);
    }
  }

  lemma HeadRemoves(fs: seq<FileAttr>, p: Path)
    requires fs != []
    ensures Removes(fs, p) <==> (fs[0].path == p && Deletion(fs[0])) || Removes(fs[1..], p)
    ensures Puts(fs, p) <==> (fs[0].path == p && !Deletion(fs[0])) || Puts(fs[1..], p)
  {
    if Removes(fs[1..], p) {
      var i :| 0 <= i < |fs[1..]| && fs[1..][i].path == p && Deletion(fs[1..][i]);
      assert fs[i + 1].path == p && Deletion(fs[i + 1]);
    }
    if Puts(fs[1..], p) {
      var i :| 0 <= i < |fs[1..]| && fs[1..][i].path == p && !Deletion(fs[1..][i]);
      assert fs[i + 1].path == p && !Deletion(fs[i + 1]);
    }
    if Removes(fs, p) && !(fs[0].path == p && Deletion(fs[0])) {
      var i :| 0 <= i < |fs| && fs[i].path == p && Deletion(fs[i]);
      assert fs[1..][i - 1] == fs[i];
    }
    if Puts(fs, p) && !(fs[0].path == p && !Deletion(fs[0])) {
      var i :| 0 <= i < |fs| && fs[i].path == p && !Deletion(fs[i]);
      assert fs[1..][i - 1] == fs[i];
    }
  }

  /** The shape a replay ends with does not depend on the order within the script. */
  lemma {:induction false} EditAllResult(k: Shape, fs: seq<FileAttr>)
    requires PutsLast(fs)
    ensures EditedTo(k, fs, EditAll(k, fs))
    decreases |fs|
  {
    if fs != [] {
      var rest := fs[1..];
      EditAllResult(Edit(k, fs[0]), rest);
      var k' := EditAll(k, fs);
      forall p
        ensures p in k' <==> Puts(fs, p) || (p in k && !Removes(fs, p))
        ensures p in k' && !Puts(fs, p) ==> p in k && k'[p] == k[p]
      {
        HeadRemoves(fs, p);
      }
      HeadPutStays(k, fs, k');
    }
  }

  lemma HeadPutStays(k: Shape, fs: seq<FileAttr>, k': Shape)
    requires fs != [] && PutsLast(fs) && EditedTo(Edit(k, fs[0]), fs[1..], k')
    ensures forall i :: 0 <= i < |fs| && !Deletion(fs[i]) ==>
      fs[i].path in k' && k'[fs[i].path] == KindAfter(fs[i])
  {
    forall i | 0 <= i < |fs| && !Deletion(fs[i])
      ensures fs[i].path in k' && k'[fs[i].path] == KindAfter(fs[i])
    {
      if i > 0 {
        assert fs[1..][i - 1] == fs[i];
      } else {
        assert !Puts(fs[1..], fs[0].path) && !Removes(fs[1..], fs[0].path);
      }
    }
  }

  // A sorted script, peeled from the front.

  lemma SortedTail(fs: seq<FileAttr>)
    requires Sorted(fs) && fs != []
    ensures Sorted(fs[1..])
    ensures forall i :: 0 <= i < |fs[1..]| ==> Less(fs[0], fs[1..][i])
  {
  }

  /** In a sorted script, what lies inside a first deletion is not deleted later, what lies above a
      first put is not put later, and nothing is deleted after a put. */
  lemma HeadFirst(fs: seq<FileAttr>, q: Path)
    requires Sorted(fs) && fs != []
    ensures Deletion(fs[0]) && Covers(fs[0].path, q) ==> !Removes(fs[1..], q)
    ensures !Deletion(fs[0]) ==> !Removes(fs, q)
    ensures !Deletion(fs[0]) && Covers(q, fs[0].path) ==> !Puts(fs[1..], q)
  {
    PathLessIrreflexive(fs[0].path);
    if Below(fs[0].path, q) {
      BelowIsGreater(fs[0].path, q);
    }
    if Below(q, fs[0].path) {
      BelowIsGreater(q, fs[0].path);
    }
    forall i | 1 <= i < |fs|
      ensures Deletion(fs[0]) && Covers(fs[0].path, q) && Deletion(fs[i]) ==> fs[i].path != q
      ensures !Deletion(fs[0]) ==> !Deletion(fs[i])
      ensures !Deletion(fs[0]) && Covers(q, fs[0].path) ==> fs[i].path != q
    {
      assert Less(fs[0], fs[i]);
      if PathLess(q, fs[0].path) && PathLess(fs[0].path, q) {
        PathLessTransitive(q, fs[0].path, q);
        PathLessIrreflexive(q);
      }
    }
  }
}
