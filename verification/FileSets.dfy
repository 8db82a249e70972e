/** File attributes as they travel between machines, and the order in which a set of them is
    replayed: deletions first, deepest first; then everything else, shallowest first. */
module FileSets {
  import opened Paths
  import opened PathOrder
  import opened Trees

  /** What stat reports: kind, permission bits, and one number for size, times and inode. */
  datatype Attr = Attr(kind: Kind, perm: nat, stamp: nat)

  /** A file's attributes; a deletion has none.  `names` is the listing of a directory, which may
      be missing.  `hash` and `link` are empty unless the file is regular or a link. */
  datatype FileAttr = FileAttr(path: Path, attr: Option<Attr>, hash: string, link: string,
                               names: Option<map<Name, Kind>>)

  predicate Deletion(f: FileAttr) {
    f.attr.None?
  }

  predicate IsDir(f: FileAttr) {
    f.attr.Some? && f.attr.value.kind == Directory
  }

  function Deleted(p: Path): FileAttr {
    FileAttr(p, None, "", "", None)
  }

  /** Hash and link target are present exactly for regular files and symbolic links. */
  predicate WfAttr(f: FileAttr) {
    f.attr.Some? ==>
      && (f.hash != "" <==> f.attr.value.kind == Regular)
      && (f.link != "" <==> f.attr.value.kind == Symlink)
  }

  /** FileSet.Less. */
  predicate Less(a: FileAttr, b: FileAttr) {
    if Deletion(a) != Deletion(b) then Deletion(a)
    else if Deletion(a) then PathLess(b.path, a.path)
    else PathLess(a.path, b.path)
  }

  /** Same place in the order. */
  predicate SameKey(a: FileAttr, b: FileAttr) {
    a.path == b.path && Deletion(a) == Deletion(b)
  }

  lemma LessTransitive(a: FileAttr, b: FileAttr, c: FileAttr)
    requires Less(a, b) && Less(b, c)
    ensures Less(a, c)
  {
    if Deletion(a) && Deletion(b) && Deletion(c) {
      PathLessTransitive(c.path, b.path, a.path);
    } else if !Deletion(a) && !Deletion(b) && !Deletion(c) {
      PathLessTransitive(a.path, b.path, c.path);
    }
  }

  lemma LessTotal(a: FileAttr, b: FileAttr)
    ensures SameKey(a, b) || Less(a, b) || Less(b, a)
    ensures SameKey(a, b) ==> !Less(a, b)
  {
    PathLessTotal(a.path, b.path);
    PathLessIrreflexive(a.path);
  }

  lemma LessAsymmetric(a: FileAttr, b: FileAttr)
    requires Less(a, b)
    ensures !Less(b, a)
  {
    if Less(b, a) {
      LessTransitive(a, b, a);
      PathLessIrreflexive(a.path);
    }
  }

  /** No entry comes before one that is less. */
  predicate Ordered(fs: seq<FileAttr>) {
    forall i, j :: 0 <= i < j < |fs| ==> !Less(fs[j], fs[i])
  }

  predicate Sorted(fs: seq<FileAttr>) {
    forall i, j :: 0 <= i < j < |fs| ==> Less(fs[i], fs[j])
  }

  predicate DistinctKeys(fs: seq<FileAttr>) {
    forall i, j :: 0 <= i < j < |fs| ==> !SameKey(fs[i], fs[j])
  }

  lemma InsertedSorted(fs: seq<FileAttr>, f: FileAttr, j: nat, r: seq<FileAttr>)
    requires Sorted(fs) && j <= |fs| && r == fs[..j] + [f] + fs[j..]
    requires forall k :: 0 <= k < j ==> Less(fs[k], f)
    requires j < |fs| ==> Less(f, fs[j])
    ensures Sorted(r)
  {
    forall a, b | 0 <= a < b < |r| ensures Less(r[a], r[b]) {
      assert r[a] == if a < j then fs[a] else if a == j then f else fs[a - 1];
      assert r[b] == if b < j then fs[b] else if b == j then f else fs[b - 1];
      if a == j && b > j + 1 {
        LessTransitive(f, fs[j], fs[b - 1]);
      }
    }
  }

  /** What is not less than something is not less than anything before that. */
  lemma NotLessBefore(a: FileAttr, b: FileAttr, c: FileAttr)
    requires !Less(b, a) && !Less(c, b)
    ensures !Less(c, a)
  {
    LessTotal(a, b);
    if Less(c, a) && Less(a, b) {
      LessTransitive(c, a, b);
    }
  }

  lemma InsertedOrdered(fs: seq<FileAttr>, f: FileAttr, j: nat, r: seq<FileAttr>)
    requires Ordered(fs) && j <= |fs| && r == fs[..j] + [f] + fs[j..]
    requires forall k :: 0 <= k < j ==> Less(fs[k], f)
    requires j < |fs| ==> !Less(fs[j], f)
    ensures Ordered(r)
  {
    forall a, b | 0 <= a < b < |r|
      ensures !Less(r[b], r[a])
    {
      assert r[a] == if a < j then fs[a] else if a == j then f else fs[a - 1];
      assert r[b] == if b < j then fs[b] else if b == j then f else fs[b - 1];
      if b == j {
        LessAsymmetric(fs[a], f);
      } else if a == j && b > j + 1 {
        NotLessBefore(f, fs[j], fs[b - 1]);
      }
    }
  }

  lemma InsertedSame<T>(fs: seq<T>, f: T, j: nat)
    requires j <= |fs|
    ensures multiset(fs[..j] + [f] + fs[j..]) == multiset(fs) + multiset{f}
  {
    assert fs == fs[..j] + fs[j..];
  }

  predicate NewKey(fs: seq<FileAttr>, f: FileAttr) {
    forall k :: 0 <= k < |fs| ==> !SameKey(fs[k], f)
  }

  method Insert(fs: seq<FileAttr>, f: FileAttr) returns (r: seq<FileAttr>)
    requires Ordered(fs)
    ensures Ordered(r) && multiset(r) == multiset(fs) + multiset{f}
    ensures Sorted(fs) && NewKey(fs, f) ==> Sorted(r)
  {
    var j := 0;
    while j < |fs| && Less(fs[j], f)
      invariant 0 <= j <= |fs|
      invariant forall k :: 0 <= k < j ==> Less(fs[k], f)
    {
      j := j + 1;
    }
    r := fs[..j] + [f] + fs[j..];
    InsertedOrdered(fs, f, j, r);
    if Sorted(fs) && NewKey(fs, f) {
      if j < |fs| {
        LessTotal(fs[j], f);
      }
      InsertedSorted(fs, f, j, r);
    }
    InsertedSame(fs, f, j);
  }

  lemma StillNew(files: seq<FileAttr>, i: nat, fs: seq<FileAttr>)
    requires DistinctKeys(files) && i < |files| && multiset(fs) == multiset(files[..i])
    ensures NewKey(fs, files[i])
  {
    forall k | 0 <= k < |fs|
      ensures !SameKey(fs[k], files[i])
    {
      assert fs[k] in multiset(files[..i]);
    }
  }

  /** FileSet.Sort: the same files, in order; in strict order if no two have the same place in it. */
  method Sort(files: seq<FileAttr>) returns (fs: seq<FileAttr>)
    ensures Ordered(fs) && multiset(fs) == multiset(files)
    ensures DistinctKeys(files) ==> Sorted(fs)
  {
    fs := [];
    for i := 0 to |files|
      invariant Ordered(fs) && multiset(fs) == multiset(files[..i])
      invariant DistinctKeys(files) ==> Sorted(fs)
    {
      if DistinctKeys(files) {
        StillNew(files, i, fs);
      }
      fs := Insert(fs, files[i]);
      assert files[..i + 1] == files[..i] + [files[i]];
    }
    assert files[..|files|] == files;
  }

  lemma TailSame<T>(a: seq<T>)
    requires a != []
    ensures multiset(a[1..]) == multiset(a) - multiset{a[0]} && a == [a[0]] + a[1..]
  {
    assert a == [a[0]] + a[1..];
  }

  lemma HeadUnique(a: seq<FileAttr>, b: seq<FileAttr>)
    requires Sorted(a) && Sorted(b) && multiset(a) == multiset(b) && a != [] && b != []
    ensures a[0] == b[0]
  {
    assert a[0] in multiset(b) && b[0] in multiset(a);
    var i :| 0 <= i < |b| && b[i] == a[0];
    var j :| 0 <= j < |a| && a[j] == b[0];
    if i != 0 && j != 0 {
      LessAsymmetric(b[0], b[i]);
    }
  }

  /** The order fixes the result: whatever the algorithm, there is one sorted arrangement. */
  lemma {:induction false} SortedUnique(a: seq<FileAttr>, b: seq<FileAttr>)
    requires Sorted(a) && Sorted(b) && multiset(a) == multiset(b)
    ensures a == b
    decreases |a|
  {
    assert |a| == |multiset(a)| && |b| == |multiset(b)|;
    if a != [] {
      HeadUnique(a, b);
      TailSame(a);
      TailSame(b);
      SortedUnique(a[1..], b[1..]);
    }
  }
}
