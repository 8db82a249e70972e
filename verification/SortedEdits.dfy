/** A sorted edit script can be replayed exactly when every removed directory is removed with its
    contents, everything put has a directory above it, and no path changes between directory and
    file. */
module SortedEdits {
  import opened Paths
  import opened PathOrder
  import opened FileSets
  import opened Edits

  // The first step is a deletion.

  lemma RemovalHead(k: Shape, fs: seq<FileAttr>)
    requires Sorted(fs) && fs != [] && Deletion(fs[0])
    ensures ElemOk(k, fs, fs[0]) <==> StepOk(k, fs[0])
  {
    var p := fs[0].path;
    forall q: Path | q.Child? && q.parent == p ensures !Removes(fs, q) {
      assert Below(p, q);
      HeadFirst(fs, q);
      HeadRemoves(fs, q);
      NotBelowItself(p);
    }
  }

  lemma AfterRemoval(k: Shape, fs: seq<FileAttr>, f: FileAttr)
    requires Sorted(fs) && fs != [] && Deletion(fs[0]) && f in fs[1..]
    ensures ElemOk(k, fs, f) <==> ElemOk(Edit(k, fs[0]), fs[1..], f)
  {
    var p := fs[0].path;
    var rest := fs[1..];
    SortedTail(fs);
    PathLessIrreflexive(p);
    forall q ensures (Removes(fs, q) <==> q == p || Removes(rest, q)) && (Puts(fs, q) <==> Puts(rest, q)) {
      HeadRemoves(fs, q);
    }
    if !Deletion(f) && f.path.Child? {
      DirAfterRemoval(k, fs, f.path.parent);
    }
  }

  lemma DirAfterRemoval(k: Shape, fs: seq<FileAttr>, d: Path)
    requires fs != [] && Deletion(fs[0])
    ensures DirAfter(k, fs, d) <==> DirAfter(Edit(k, fs[0]), fs[1..], d)
  {
    HeadRemoves(fs, d);
    assert forall i :: 0 <= i < |fs[1..]| ==> fs[1..][i] == fs[i + 1];
    if Puts(fs, d) {
      if i :| 0 <= i < |fs| && fs[i].path == d && IsDir(fs[i]) {
        assert fs[1..][i - 1] == fs[i];
      }
    }
  }

  // The first step is a put; then every step is.

  lemma PutHead(k: Shape, fs: seq<FileAttr>)
    requires WfShape(k) && Sorted(fs) && fs != [] && !Deletion(fs[0])
    ensures ElemOk(k, fs, fs[0]) <==> StepOk(k, fs[0])
  {
    var p := fs[0].path;
    forall q ensures !Removes(fs, q) {
      HeadFirst(fs, q);
    }
    if p.Child? {
      HeadFirst(fs, p.parent);
      HeadRemoves(fs, p.parent);
    }
  }

  lemma DirAfterPut(k: Shape, fs: seq<FileAttr>, d: Path)
    requires Sorted(fs) && fs != [] && !Deletion(fs[0])
    ensures DirAfter(k, fs, d) <==> DirAfter(Edit(k, fs[0]), fs[1..], d)
  {
    HeadRemoves(fs, d);
    HeadFirst(fs, d);
    SortedPutsLast(fs);
    assert forall i :: 0 <= i < |fs[1..]| ==> fs[1..][i] == fs[i + 1];
    if i :| 0 <= i < |fs| && fs[i].path == d && IsDir(fs[i]) {
      if i > 0 {
        assert fs[1..][i - 1] == fs[i];
      }
    }
  }

  lemma AfterPut(k: Shape, fs: seq<FileAttr>, f: FileAttr)
    requires Sorted(fs) && fs != [] && !Deletion(fs[0]) && f in fs[1..]
    ensures ElemOk(k, fs, f) <==> ElemOk(Edit(k, fs[0]), fs[1..], f)
  {
    var rest := fs[1..];
    SortedTail(fs);
    PathLessIrreflexive(fs[0].path);
    forall q ensures !Removes(fs, q) && !Removes(rest, q) {
      HeadFirst(fs, q);
      HeadRemoves(fs, q);
    }
    var i :| 0 <= i < |rest| && rest[i] == f;
    assert Less(fs[0], rest[i]);
    if f.path.Child? {
      DirAfterPut(k, fs, f.path.parent);
    }
    if Below(f.path, fs[0].path) {
      HeadFirst(fs, f.path);
      assert Puts(rest, f.path);
    }
  }

  /** The system calls of a sorted script all succeed iff the script is well-formed. */
  lemma {:induction false} SortedReplayableIff(k: Shape, fs: seq<FileAttr>)
    requires WfShape(k) && Sorted(fs)
    ensures Replayable(k, fs) <==> EditsOk(k, fs)
    decreases |fs|
  {
    if fs != [] {
      var rest, k1 := fs[1..], Edit(k, fs[0]);
      SortedTail(fs);
      if Deletion(fs[0]) {
        RemovalHead(k, fs);
      } else {
        PutHead(k, fs);
      }
      if StepOk(k, fs[0]) {
        StepWf(k, fs[0]);
        SortedReplayableIff(k1, rest);
        EditsOkHead(k, fs);
      } else {
        assert !ElemOk(k, fs, fs[0]);
      }
    }
  }

  lemma {:induction false} EditsOkHead(k: Shape, fs: seq<FileAttr>)
    requires Sorted(fs) && fs != []
    ensures EditsOk(k, fs) <==> ElemOk(k, fs, fs[0]) && EditsOk(Edit(k, fs[0]), fs[1..])
  {
    var rest := fs[1..];
    forall f | f in rest ensures ElemOk(k, fs, f) <==> ElemOk(Edit(k, fs[0]), rest, f) {
      if Deletion(fs[0]) {
        AfterRemoval(k, fs, f);
      } else {
        AfterPut(k, fs, f);
      }
    }
    assert forall i :: 1 <= i < |fs| ==> fs[i] == rest[i - 1];
    assert forall i :: 0 <= i < |rest| ==> rest[i] == fs[i + 1] && rest[i] in rest;
  }

  lemma {:induction false} ReplayedWf(k: Shape, fs: seq<FileAttr>)
    requires WfShape(k) && Replayable(k, fs)
    ensures WfShape(EditAll(k, fs))
    decreases |fs|
  {
    if fs != [] {
      StepWf(k, fs[0]);
      ReplayedWf(Edit(k, fs[0]), fs[1..]);
    }
  }
}
