/** The attribute cache stays coherent: across a replay that changes the disk under it, across a
    refresh after unknown changes, and when it is copied to another machine. */
module CacheProofs {
  import opened Paths
  import opened PathOrder
  import opened Trees
  import opened FileSets
  import opened Edits
  import opened Supply
  import opened Masters
  import opened AttrCaches

  // ---------------------------------------------------------------- one step of a replay

  lemma ListingRemoved(t: Tree, p: Path, d: Path)
    requires p.Child?
    ensures Listing(t - {p}, d) == if d == p.parent then Listing(t, d) - {p.name} else Listing(t, d)
  {
  }

  lemma ListingPut(t: Tree, p: Path, e: Entry, d: Path)
    requires p.Child?
    ensures Listing(t[p := e], d) == if d == p.parent then Listing(t, d)[p.name := KindOf(e)] else Listing(t, d)
  {
  }

  lemma SameListing(t: Tree, e: Entry, p: Path, d: Path)
    requires p.Root?
    ensures Listing(t[p := e], d) == Listing(t, d)
  {
  }

  /** An entry is right after a step if its own path and its listing were not affected. */
  lemma StillAgrees(hash: Blob -> string, t: Tree, t': Tree, q: Path, a: FileAttr)
    requires Agrees(hash, t, q, a) && q in t' && t'[q] == t[q] && Listing(t', q) == Listing(t, q)
    ensures Agrees(hash, t', q, a)
  {
  }

  /** The parent's entry after its listing has been adjusted. */
  lemma ParentAgrees(hash: Blob -> string, t: Tree, t': Tree, d: Path, a: FileAttr, l: map<Name, Kind>)
    requires Agrees(hash, t, d, a) && d in t' && t'[d] == t[d] && t[d].Dir? && l == Listing(t', d)
    ensures Agrees(hash, t', d, a.(names := Some(l)))
  {
  }

  /** Telling the cache of a removed path keeps it coherent with the tree without it. */
  lemma {:induction false} RemovedCoherent(hash: Blob -> string, t: Tree, c: Cache, p: Path)
    requires WfTree(t) && Coherent(hash, t, c) && p in t && p.Child? && Empty(ShapeOf(t), p)
    ensures UpdateOne(c, Deleted(p)).Some? && Coherent(hash, t - {p}, UpdateOne(c, Deleted(p)).value)
  {
    var d := p.parent;
    assert d in c ==> Agrees(hash, t, d, c[d]);
    var c' := UpdateOne(c, Deleted(p)).value;
    forall q | q in c' ensures Agrees(hash, t - {p}, q, c'[q]) {
      RemovedAgrees(hash, t, c, p, q);
    }
    forall q | q in c' && q.Child? ensures q.parent in c' {
      assert Agrees(hash, t, q, c[q]);
      assert q in ShapeOf(t);
    }
  }

  lemma {:induction false} RemovedAgrees(hash: Blob -> string, t: Tree, c: Cache, p: Path, q: Path)
    requires WfTree(t) && Coherent(hash, t, c) && p in t && p.Child?
    requires UpdateOne(c, Deleted(p)).Some? && q in UpdateOne(c, Deleted(p)).value
    ensures Agrees(hash, t - {p}, q, UpdateOne(c, Deleted(p)).value[q])
  {
    var d, c' := p.parent, UpdateOne(c, Deleted(p)).value;
    assert Agrees(hash, t, q, c[q]);
    ListingRemoved(t, p, q);
    if p.parent !in c {
      assert c' == c && q != p;
      StillAgrees(hash, t, t - {p}, q, c[q]);
    } else if q == d {
      ParentNotCovered(p);
      ParentAgrees(hash, t, t - {p}, d, c[d], Listing(t - {p}, d));
    } else {
      StillAgrees(hash, t, t - {p}, q, c[q]);
    }
  }

  /** A put that fits the tree, with no listing of its own or with the right one. */
  predicate PutFits(hash: Blob -> string, t: Tree, t': Tree, r: FileAttr) {
    && !Deletion(r) && SameStat(hash, t', r.path, r) && t' == t[r.path := t'[r.path]]
    && (r.names.None? || r.names == ListingAt(t', r.path))
  }

  lemma PutCoherent(hash: Blob -> string, t: Tree, t': Tree, c: Cache, r: FileAttr)
    requires WfTree(t) && Coherent(hash, t, c) && PutFits(hash, t, t', r) && StepOk(ShapeOf(t), r)
    ensures UpdateOne(c, r).Some? && Coherent(hash, t', UpdateOne(c, r).value)
  {
    var p := r.path;
    if p.Child? && p.parent in c {
      assert Agrees(hash, t, p.parent, c[p.parent]);
    }
    var c' := UpdateOne(c, r).value;
    forall q | q in c' ensures Agrees(hash, t', q, c'[q]) {
      if q == p {
        PutSelfAgrees(hash, t, t', c, r);
      } else {
        PutOtherAgrees(hash, t, t', c, r, q);
      }
    }
  }

  lemma PutSelfAgrees(hash: Blob -> string, t: Tree, t': Tree, c: Cache, r: FileAttr)
    requires WfTree(t) && Coherent(hash, t, c) && PutFits(hash, t, t', r) && StepOk(ShapeOf(t), r)
    requires UpdateOne(c, r).Some? && r.path in UpdateOne(c, r).value
    ensures Agrees(hash, t', r.path, UpdateOne(c, r).value[r.path])
  {
    var p := r.path;
    ParentNotCovered(p);
    if p.Child? {
      ListingPut(t, p, t'[p], p);
    } else {
      SameListing(t, t'[p], p, p);
    }
    if p in c {
      assert Agrees(hash, t, p, c[p]);
      assert UpdateOne(c, r).value[p] == Merge(c[p], r);
      assert ShapeOf(t)[p] == KindOf(t[p]);
    }
  }

  lemma PutOtherAgrees(hash: Blob -> string, t: Tree, t': Tree, c: Cache, r: FileAttr, q: Path)
    requires WfTree(t) && Coherent(hash, t, c) && PutFits(hash, t, t', r)
    requires UpdateOne(c, r).Some? && q in UpdateOne(c, r).value && q != r.path
    ensures Agrees(hash, t', q, UpdateOne(c, r).value[q])
  {
    var p := r.path;
    PutOther(c, r, q);
    assert Agrees(hash, t, q, c[q]);
    if p.Root? {
      SameListing(t, t'[p], p, q);
      StillAgrees(hash, t, t', q, c[q]);
    } else {
      ListingPut(t, p, t'[p], q);
      if q == p.parent {
        ParentAgrees(hash, t, t', q, c[q], Listing(t', q));
      } else {
        StillAgrees(hash, t, t', q, c[q]);
      }
    }
  }

  /** What an update that puts something does to the other entries. */
  lemma PutOther(c: Cache, r: FileAttr, q: Path)
    requires UpdateOne(c, r).Some? && q in UpdateOne(c, r).value && q != r.path
    ensures q in c
    ensures !(r.path.Child? && q == r.path.parent) ==> UpdateOne(c, r).value[q] == c[q]
    ensures r.path.Child? && q == r.path.parent ==>
      c[q].names.Some? && UpdateOne(c, r).value[q] == c[q].(names := Some(Listed(c[q].names.value, r)))
  {
  }

  // ---------------------------------------------------------------- a whole replay

  /** One step of a script whose puts are read from `goal`. */
  function StepTree(t: Tree, f: FileAttr, goal: Tree): Tree {
    if Deletion(f) then t - {f.path}
    else if f.path in goal then t[f.path := goal[f.path]]
    else t
  }

  function Along(t: Tree, fs: seq<FileAttr>, goal: Tree): Tree
    decreases |fs|
  {
    if fs == [] then t else Along(StepTree(t, fs[0], goal), fs[1..], goal)
  }

  predicate PutsReach(fs: seq<FileAttr>, goal: Tree) {
    forall i :: 0 <= i < |fs| && !Deletion(fs[i]) ==> fs[i].path in goal
  }

  lemma {:induction false} AlongAt(t: Tree, fs: seq<FileAttr>, goal: Tree, p: Path)
    requires PutsLast(fs) && PutsReach(fs, goal)
    ensures var t' := Along(t, fs, goal);
      if Puts(fs, p) then p in t' && p in goal && t'[p] == goal[p]
      else if Removes(fs, p) then p !in t'
      else SameAt(t, t', p)
    decreases |fs|
  {
    if fs != [] {
      HeadRemoves(fs, p);
      AlongAt(StepTree(t, fs[0], goal), fs[1..], goal, p);
      if fs[0].path == p && !Deletion(fs[0]) {
        assert !Puts(fs[1..], p) && !Removes(fs[1..], p);
      }
    }
  }

  /** Each listing that comes with the set is right when its turn comes. */
  predicate ListingsFit(t: Tree, fs: seq<FileAttr>, goal: Tree)
    decreases |fs|
  {
    fs == [] ||
    var t1 := StepTree(t, fs[0], goal);
    && (fs[0].names.None? || fs[0].names == ListingAt(t1, fs[0].path))
    && ListingsFit(t1, fs[1..], goal)
  }

  predicate StatsFit(hash: Blob -> string, fs: seq<FileAttr>, goal: Tree) {
    forall i :: 0 <= i < |fs| && !Deletion(fs[i]) ==> SameStat(hash, goal, fs[i].path, fs[i])
  }

  lemma UpdateRemoval(c: Cache, r: FileAttr)
    requires Deletion(r)
    ensures UpdateOne(c, r) == UpdateOne(c, Deleted(r.path))
  {
  }

  lemma {:induction false} CacheFollows(hash: Blob -> string, t: Tree, c: Cache, fs: seq<FileAttr>, goal: Tree)
    requires WfTree(t) && Coherent(hash, t, c) && Replayable(ShapeOf(t), fs)
    requires StatsFit(hash, fs, goal) && ListingsFit(t, fs, goal)
    ensures UpdateAll(c, fs).Some? && Coherent(hash, Along(t, fs, goal), UpdateAll(c, fs).value)
    decreases |fs|
  {
    if fs != [] {
      var f, t1 := fs[0], StepTree(t, fs[0], goal);
      WfShapeTree(t);
      StepWf(ShapeOf(t), f);
      if Deletion(f) {
        RemovedCoherent(hash, t, c, f.path);
        UpdateRemoval(c, f);
        ShapeRemoved(t, f.path);
      } else {
        assert SameStat(hash, goal, f.path, f);
        PutCoherent(hash, t, t1, c, f);
        ShapePut(t, f.path, goal[f.path]);
      }
      WfShapeTree(t1);
      assert StatsFit(hash, fs[1..], goal);
      CacheFollows(hash, t1, UpdateOne(c, f).value, fs[1..], goal);
    }
  }

  /** What is read back after a step describes the same edit, with the attributes on disk. */
  lemma RereadFits(hash: Blob -> string, known: Path -> string, stamps: Path -> nat, t: Tree, fs: seq<FileAttr>,
                   t': Tree, i: nat)
    requires i < |fs| && WfAttr(fs[i]) && Replayed(hash, known, t, fs, |fs|, t')
    ensures SameEdit(fs[i], Reread(t', stamps, fs[i]))
    ensures !Deletion(fs[i]) ==> SameStat(hash, t', fs[i].path, Reread(t', stamps, fs[i]))
  {
    if !Deletion(fs[i]) {
      assert PutOn(hash, known, t, fs, i, t');
    }
  }

  lemma AlongReaches(hash: Blob -> string, known: Path -> string, t: Tree, fs: seq<FileAttr>, t': Tree,
                     infos: seq<FileAttr>)
    requires PutsLast(fs) && Replayed(hash, known, t, fs, |fs|, t')
    requires |infos| == |fs| && forall i :: 0 <= i < |fs| ==> SameEdit(fs[i], infos[i])
    ensures Along(t, infos, t') == t'
  {
    var reached := Along(t, infos, t');
    forall i | 0 <= i < |infos| && !Deletion(infos[i]) ensures infos[i].path in t' {
      assert SameEdit(fs[i], infos[i]) && PutOn(hash, known, t, fs, i, t');
    }
    forall p ensures SameAt(reached, t', p) {
      AlongAt(t, infos, t', p);
      EditsTouch(fs, infos, p);
    }
    SameTrees(reached, t');
  }

  lemma SameTrees(a: Tree, b: Tree)
    requires forall p :: SameAt(a, b, p)
    ensures a == b
  {
    forall p ensures p in a <==> p in b {
      assert SameAt(a, b, p);
    }
    forall p | p in a ensures a[p] == b[p] {
      assert SameAt(a, b, p);
    }
  }

  /** A replay changes the disk and the cache together: told of the attributes read back, the cache
      is coherent with the new disk. */
  lemma {:induction false} ReplayKeepsCoherence(hash: Blob -> string, known: Path -> string, stamps: Path -> nat,
                             t: Tree, c: Cache, fs: seq<FileAttr>, t': Tree, infos: seq<FileAttr>)
    requires WfTree(t) && Coherent(hash, t, c) && PutsLast(fs) && Replayable(ShapeOf(t), fs)
    requires forall i :: 0 <= i < |fs| ==> WfAttr(fs[i])
    requires Replayed(hash, known, t, fs, |fs|, t') && ListingsFit(t, fs, t')
    requires |infos| == |fs| && forall i :: 0 <= i < |fs| ==> infos[i] == Reread(t', stamps, fs[i])
    ensures UpdateAll(c, infos).Some? && Coherent(hash, t', UpdateAll(c, infos).value)
  {
    forall i | 0 <= i < |fs|
      ensures SameEdit(fs[i], infos[i]) && (!Deletion(infos[i]) ==> SameStat(hash, t', infos[i].path, infos[i]))
    {
      RereadFits(hash, known, stamps, t, fs, t', i);
    }
    SameScript(t, ShapeOf(t), fs, infos, t');
    CacheFollows(hash, t, c, infos, t');
    AlongReaches(hash, known, t, fs, t', infos);
  }

  predicate SameEdit(f: FileAttr, g: FileAttr) {
    f.path == g.path && Deletion(f) == Deletion(g) && f.names == g.names
    && (!Deletion(f) ==> KindAfter(f) == KindAfter(g))
  }

  lemma {:induction false} SameScript(t: Tree, k: Shape, fs: seq<FileAttr>, gs: seq<FileAttr>, goal: Tree)
    requires |fs| == |gs| && forall i :: 0 <= i < |fs| ==> SameEdit(fs[i], gs[i])
    ensures Replayable(k, fs) <==> Replayable(k, gs)
    ensures ListingsFit(t, fs, goal) <==> ListingsFit(t, gs, goal)
    decreases |fs|
  {
    if fs != [] {
      SameScript(StepTree(t, fs[0], goal), Edit(k, fs[0]), fs[1..], gs[1..], goal);
    }
  }

  lemma EditsTouch(fs: seq<FileAttr>, gs: seq<FileAttr>, p: Path)
    requires |fs| == |gs| && forall i :: 0 <= i < |fs| ==> SameEdit(fs[i], gs[i])
    ensures Puts(gs, p) <==> PutBy(fs, |fs|, p)
    ensures !Puts(gs, p) && !Removes(gs, p) <==> !TouchedBy(fs, |fs|, p)
  {
    if PutBy(fs, |fs|, p) {
      var i :| 0 <= i < |fs| && fs[i].path == p && !Deletion(fs[i]);
      assert gs[i].path == p && !Deletion(gs[i]);
    }
    if TouchedBy(fs, |fs|, p) {
      var i :| 0 <= i < |fs| && fs[i].path == p;
      assert gs[i].path == p;
    }
  }

  // ---------------------------------------------------------------- Refresh

  /** Where a refresh stands: entries not in the rest of the set agree with the new tree, the rest
      is about cached paths and tells the truth, and parents can take a child's update. */
  ghost predicate Refreshing(hash: Blob -> string, t: Tree, c: Cache, rest: seq<FileAttr>) {
    && Sorted(rest)
    && (forall p :: p in c && !Mentions(rest, p) ==> Agrees(hash, t, p, c[p]))
    && (forall p :: p in c && p.Child? ==> p.parent in c && c[p.parent].names.Some?)
    && (forall i :: 0 <= i < |rest| ==> TellsTruth(hash, t, rest[i]) && rest[i].path in c)
  }

  predicate Mentions(fs: seq<FileAttr>, p: Path) {
    Removes(fs, p) || Puts(fs, p)
  }

  predicate TellsTruth(hash: Blob -> string, t: Tree, f: FileAttr) {
    if Deletion(f) then f.path !in t else Agrees(hash, t, f.path, f)
  }

  lemma {:induction false} TailRefreshing(hash: Blob -> string, t: Tree, c: Cache, c': Cache, rest: seq<FileAttr>)
    requires rest != [] && Refreshing(hash, t, c, rest)
    requires forall p :: p in c' && p != rest[0].path && !Mentions(rest, p) ==> Agrees(hash, t, p, c'[p])
    requires rest[0].path in c' ==> Agrees(hash, t, rest[0].path, c'[rest[0].path])
    requires forall p :: p in c' && p.Child? ==> p.parent in c' && c'[p.parent].names.Some?
    requires forall p :: p in c && p != rest[0].path ==> p in c'
    ensures Refreshing(hash, t, c', rest[1..])
  {
    SortedTail(rest);
    forall p | p in c' && !Mentions(rest[1..], p)
      ensures Agrees(hash, t, p, c'[p])
    {
      TailMentions(rest, p);
    }
    forall i | 0 <= i < |rest[1..]|
      ensures TellsTruth(hash, t, rest[1..][i]) && rest[1..][i].path in c'
    {
      TailTruth(hash, t, c, rest, i);
    }
  }

  lemma TailMentions(rest: seq<FileAttr>, p: Path)
    requires rest != []
    ensures Mentions(rest, p) ==> p == rest[0].path || Mentions(rest[1..], p)
  {
    if Mentions(rest, p) && p != rest[0].path {
      var i :| 0 <= i < |rest| && rest[i].path == p;
      assert rest[1..][i - 1].path == p;
    }
  }

  lemma TailTruth(hash: Blob -> string, t: Tree, c: Cache, rest: seq<FileAttr>, i: nat)
    requires rest != [] && Refreshing(hash, t, c, rest) && i < |rest[1..]|
    ensures TellsTruth(hash, t, rest[1..][i]) && rest[1..][i].path in c && rest[1..][i].path != rest[0].path
  {
    var f := rest[i + 1];
    assert rest[1..][i] == f;
    assert TellsTruth(hash, t, f) && f.path in c;
    NoSamePath(hash, t, c, rest, i + 1);
  }

  /** Two entries about one path would contradict each other or the order. */
  lemma NoSamePath(hash: Blob -> string, t: Tree, c: Cache, rest: seq<FileAttr>, i: nat)
    requires Refreshing(hash, t, c, rest) && 0 < i < |rest|
    ensures rest[i].path != rest[0].path
  {
    assert TellsTruth(hash, t, rest[0]) && TellsTruth(hash, t, rest[i]) && Less(rest[0], rest[i]);
    PathLessIrreflexive(rest[0].path);
  }

  lemma {:induction false} RefreshRemoval(hash: Blob -> string, t: Tree, c: Cache, rest: seq<FileAttr>)
    requires WfTree(t) && rest != [] && Refreshing(hash, t, c, rest) && Deletion(rest[0])
    ensures UpdateOne(c, rest[0]).Some? && Refreshing(hash, t, UpdateOne(c, rest[0]).value, rest[1..])
  {
    var p := rest[0].path;
    assert TellsTruth(hash, t, rest[0]);
    assert p.Child?;
    ParentNotCovered(p);
    var c' := UpdateOne(c, rest[0]).value;
    forall q | q in c && q.Child? ensures q.parent != p {
      ChildGone(hash, t, c, rest, q);
    }
    forall q | q in c' && q != p && !Mentions(rest, q) ensures Agrees(hash, t, q, c'[q]) {
      assert Agrees(hash, t, q, c[q]);
      if q == p.parent {
        assert Listing(t, q) - {p.name} == Listing(t, q);
      }
    }
    TailRefreshing(hash, t, c, c', rest);
  }

  /** What is cached and not about to be removed exists. */
  lemma StillHere(hash: Blob -> string, t: Tree, c: Cache, rest: seq<FileAttr>, q: Path)
    requires Refreshing(hash, t, c, rest) && q in c && !Removes(rest, q)
    ensures q in t
  {
    if Puts(rest, q) {
      var i :| 0 <= i < |rest| && rest[i].path == q && !Deletion(rest[i]);
      assert TellsTruth(hash, t, rest[i]);
    } else {
      assert !Mentions(rest, q);
    }
  }

  /** What was inside a vanished directory has been dealt with before the directory. */
  lemma ChildGone(hash: Blob -> string, t: Tree, c: Cache, rest: seq<FileAttr>, q: Path)
    requires WfTree(t) && rest != [] && Refreshing(hash, t, c, rest) && Deletion(rest[0])
    requires q in c && q.Child?
    ensures q.parent != rest[0].path
  {
    assert TellsTruth(hash, t, rest[0]);
    if q.parent == rest[0].path {
      NotBelowItself(q.parent);
      HeadFirst(rest, q);
      HeadRemoves(rest, q);
      StillHere(hash, t, c, rest, q);
    }
  }

  lemma {:induction false} RefreshPut(hash: Blob -> string, t: Tree, c: Cache, rest: seq<FileAttr>)
    requires WfTree(t) && rest != [] && Refreshing(hash, t, c, rest) && !Deletion(rest[0])
    ensures UpdateOne(c, rest[0]).Some? && Refreshing(hash, t, UpdateOne(c, rest[0]).value, rest[1..])
  {
    var r, p := rest[0], rest[0].path;
    assert TellsTruth(hash, t, r) && p in c;
    ParentNotCovered(p);
    var c' := UpdateOne(c, r).value;
    assert c'[p] == Merge(c[p], r);
    forall q | q in c' && q != p && !Mentions(rest, q) ensures Agrees(hash, t, q, c'[q]) {
      assert Agrees(hash, t, q, c[q]);
      if p.Child? && q == p.parent {
        assert Listing(t, q)[p.name := KindOf(t[p])] == Listing(t, q);
      }
    }
    forall q | q in c' && q.Child? ensures q.parent in c' && c'[q.parent].names.Some? {
      if q.parent == p {
        HeadFirst(rest, q);
        StillHere(hash, t, c, rest, q);
      }
    }
    TailRefreshing(hash, t, c, c', rest);
  }

  lemma {:induction false} RefreshRun(hash: Blob -> string, t: Tree, c: Cache, rest: seq<FileAttr>)
    requires WfTree(t) && Refreshing(hash, t, c, rest)
    ensures UpdateAll(c, rest).Some? && Coherent(hash, t, UpdateAll(c, rest).value)
    decreases |rest|
  {
    if rest == [] {
      forall p | p in c ensures Agrees(hash, t, p, c[p]) {
        assert !Mentions(rest, p);
      }
    } else {
      if Deletion(rest[0]) {
        RefreshRemoval(hash, t, c, rest);
      } else {
        RefreshPut(hash, t, c, rest);
      }
      RefreshRun(hash, t, UpdateOne(c, rest[0]).value, rest[1..]);
    }
  }

  /** The stat data the statter reports for an existing path. */
  function StatOf(stamps: Path -> nat, t: Tree, p: Path): Attr
    requires p in t
  {
    Attr(KindOf(t[p]), PermOn(t, p), stamps(p))
  }

  /** Equal stat data means an unchanged entry: the assumption every refresh by stat rests on. */
  ghost predicate StatTells(stamps: Path -> nat, t0: Tree, t1: Tree, c: Cache) {
    forall p :: p in c && p in t0 && p in t1 && c[p].attr == Some(StatOf(stamps, t1, p)) ==>
      t1[p] == t0[p] && ListingAt(t1, p) == ListingAt(t0, p)
  }

  /** What Refresh collects: a deletion for each vanished path and the new attributes of each path
      whose stat data changed. */
  predicate NeedsUpdate(stamps: Path -> nat, t: Tree, c: Cache, p: Path) {
    p in c && (p !in t || c[p].attr != Some(StatOf(stamps, t, p)))
  }

  ghost predicate Collected(hash: Blob -> string, stamps: Path -> nat, t: Tree, c: Cache, fs: seq<FileAttr>) {
    && (forall p :: NeedsUpdate(stamps, t, c, p) ==> Describe(hash, stamps, t, p) in fs)
    && (forall i :: 0 <= i < |fs| ==>
          NeedsUpdate(stamps, t, c, fs[i].path) && fs[i] == Describe(hash, stamps, t, fs[i].path))
  }

  lemma CollectedMentions(hash: Blob -> string, stamps: Path -> nat, t: Tree, c: Cache, fs: seq<FileAttr>, p: Path)
    requires Collected(hash, stamps, t, c, fs) && NeedsUpdate(stamps, t, c, p)
    ensures Mentions(fs, p)
  {
    var f := Describe(hash, stamps, t, p);
    var i :| 0 <= i < |fs| && fs[i] == f;
    assert if Deletion(f) then Removes(fs, p) else Puts(fs, p);
  }

  lemma UnmentionedAgrees(hash: Blob -> string, stamps: Path -> nat, t0: Tree, t1: Tree, c: Cache, fs: seq<FileAttr>,
                          p: Path)
    requires Coherent(hash, t0, c) && StatTells(stamps, t0, t1, c) && Collected(hash, stamps, t1, c, fs)
    requires p in c && !Mentions(fs, p)
    ensures Agrees(hash, t1, p, c[p])
  {
    assert Agrees(hash, t0, p, c[p]);
    if NeedsUpdate(stamps, t1, c, p) {
      CollectedMentions(hash, stamps, t1, c, fs, p);
    }
  }

  lemma CollectedTruth(hash: Blob -> string, stamps: Path -> nat, t: Tree, c: Cache, fs: seq<FileAttr>, i: nat)
    requires Collected(hash, stamps, t, c, fs) && i < |fs|
    ensures TellsTruth(hash, t, fs[i]) && fs[i].path in c
  {
  }

  lemma ParentListed(hash: Blob -> string, t: Tree, c: Cache, p: Path)
    requires WfTree(t) && Coherent(hash, t, c) && p in c && p.Child?
    ensures p.parent in c && c[p.parent].names.Some?
  {
    assert Agrees(hash, t, p, c[p]) && Agrees(hash, t, p.parent, c[p.parent]);
  }

  /** A refreshed cache is coherent with the tree as it is now, whatever happened to the tree. */
  lemma {:induction false} RefreshCoherent(hash: Blob -> string, stamps: Path -> nat, t0: Tree, t1: Tree, c: Cache,
                                           fs: seq<FileAttr>)
    requires WfTree(t0) && WfTree(t1) && Coherent(hash, t0, c) && StatTells(stamps, t0, t1, c)
    requires Sorted(fs) && Collected(hash, stamps, t1, c, fs)
    ensures UpdateAll(c, fs).Some? && Coherent(hash, t1, UpdateAll(c, fs).value)
  {
    assert Refreshing(hash, t1, c, fs) by {
      forall p | p in c && !Mentions(fs, p) ensures Agrees(hash, t1, p, c[p]) {
        UnmentionedAgrees(hash, stamps, t0, t1, c, fs, p);
      }
      forall p | p in c && p.Child? ensures p.parent in c && c[p.parent].names.Some? {
        ParentListed(hash, t0, c, p);
      }
      forall i | 0 <= i < |fs| ensures TellsTruth(hash, t1, fs[i]) && fs[i].path in c {
        CollectedTruth(hash, stamps, t1, c, fs, i);
      }
    }
    RefreshRun(hash, t1, c, fs);
  }

  /** The statter reports the tree. */
  ghost predicate Stats(statter: Path -> Option<Attr>, stamps: Path -> nat, t: Tree) {
    forall p :: statter(p) == if p in t then Some(StatOf(stamps, t, p)) else None
  }

  /** Refresh, first half: stat every cached path and collect what changed, in any order. */
  method Collect(hash: Blob -> string, c: Cache, statter: Path -> Option<Attr>, getter: Path -> FileAttr,
                 ghost stamps: Path -> nat, ghost t: Tree) returns (files: seq<FileAttr>)
    requires Stats(statter, stamps, t) && forall p :: getter(p) == Describe(hash, stamps, t, p)
    ensures DistinctKeys(files) && Collected(hash, stamps, t, c, files)
  {
    files := [];
    var todo := c.Keys;
    while todo != {}
      invariant todo <= c.Keys && DistinctKeys(files)
      invariant forall p :: p !in todo && NeedsUpdate(stamps, t, c, p) ==> Describe(hash, stamps, t, p) in files
      invariant forall i :: 0 <= i < |files| ==>
        && files[i].path !in todo && NeedsUpdate(stamps, t, c, files[i].path)
        && files[i] == Describe(hash, stamps, t, files[i].path)
    {
      var p :| p in todo;
      var a := statter(p);
      if a.None? {
        files := files + [Deleted(p)];
      } else if a != c[p].attr {
        files := files + [getter(p)];
      }
      todo := todo - {p};
    }
  }

  lemma CollectedSorted(hash: Blob -> string, stamps: Path -> nat, t: Tree, c: Cache, files: seq<FileAttr>,
                        fs: seq<FileAttr>)
    requires multiset(files) == multiset(fs) && Collected(hash, stamps, t, c, files)
    ensures Collected(hash, stamps, t, c, fs)
  {
    SamePermutation(files, fs);
    forall i | 0 <= i < |fs|
      ensures NeedsUpdate(stamps, t, c, fs[i].path) && fs[i] == Describe(hash, stamps, t, fs[i].path)
    {
      var k :| 0 <= k < |files| && files[k] == fs[i];
    }
  }

  /** AttributeCache.Refresh of the whole cache. */
  method Refresh(cache: AttributeCache, statter: Path -> Option<Attr>, ghost stamps: Path -> nat, ghost t0: Tree,
                 ghost t1: Tree)
    returns (ok: bool, fs: seq<FileAttr>)
    requires WfTree(t0) && WfTree(t1) && Coherent(cache.hash, t0, cache.attributes)
    requires cache.Reads(t1, stamps) && Stats(statter, stamps, t1) && StatTells(stamps, t0, t1, cache.attributes)
    modifies cache`attributes
    ensures ok && Coherent(cache.hash, t1, cache.attributes)
    ensures Sorted(fs) && Collected(cache.hash, stamps, t1, old(cache.attributes), fs)
  {
    var files := Collect(cache.hash, cache.attributes, statter, cache.getter, stamps, t1);
    fs := Sort(files);
    CollectedSorted(cache.hash, stamps, t1, cache.attributes, files, fs);
    RefreshCoherent(cache.hash, stamps, t0, t1, cache.attributes, fs);
    ok := cache.Update(fs);
  }

  lemma SamePermutation<T>(a: seq<T>, b: seq<T>)
    requires multiset(a) == multiset(b)
    ensures forall x :: x in a <==> x in b
    ensures forall i :: 0 <= i < |b| ==> b[i] in a
  {
    forall x ensures x in a <==> x in b {
      assert x in multiset(a) <==> x in multiset(b);
    }
  }

  // ---------------------------------------------------------------- copying a cache

  /** The invariant of a cache by itself: parents are present and list their children with the
      children's own kinds. */
  predicate SelfConsistent(c: Cache) {
    forall p :: p in c ==>
      && c[p].path == p && !Deletion(c[p]) && (IsDir(c[p]) ==> c[p].names.Some?)
      && (p.Child? ==>
            && p.parent in c && c[p.parent].names.Some? && p.name in c[p.parent].names.value
            && c[p.parent].names.value[p.name] == c[p].attr.value.kind)
  }

  /** The cache as a file set, sorted: copyFiles. */
  predicate IsCopy(c: Cache, fs: seq<FileAttr>) {
    && Sorted(fs)
    && (forall p :: p in c ==> c[p] in fs)
    && (forall i :: 0 <= i < |fs| ==> fs[i].path in c && fs[i] == c[fs[i].path])
  }

  method CopyFiles(c: Cache) returns (fs: seq<FileAttr>)
    requires SelfConsistent(c)
    ensures IsCopy(c, fs)
  {
    var dump, todo := [], c.Keys;
    while todo != {}
      invariant todo <= c.Keys && DistinctKeys(dump)
      invariant forall p :: p in c && p !in todo ==> c[p] in dump
      invariant forall i :: 0 <= i < |dump| ==> dump[i].path in c && dump[i].path !in todo && dump[i] == c[dump[i].path]
    {
      var p :| p in todo;
      dump := dump + [Copy(c[p], true)];
      todo := todo - {p};
    }
    fs := Sort(dump);
    SamePermutation(dump, fs);
    forall i | 0 <= i < |fs| ensures fs[i].path in c && fs[i] == c[fs[i].path] {
      var k :| 0 <= k < |dump| && dump[k] == fs[i];
    }
  }

  /** Where the copying stands: everything but the rest has arrived. */
  ghost predicate Copying(c: Cache, part: Cache, rest: seq<FileAttr>) {
    && Sorted(rest)
    && (forall i :: 0 <= i < |rest| ==> rest[i].path in c && rest[i] == c[rest[i].path] && !Deletion(rest[i]))
    && (forall p :: p in part <==> p in c && !Puts(rest, p))
    && (forall p :: p in part ==> part[p] == c[p])
  }

  lemma {:induction false} CopyAdds(c: Cache, part: Cache, rest: seq<FileAttr>)
    requires SelfConsistent(c) && rest != [] && Copying(c, part, rest)
    ensures rest[0].path !in part && UpdateOne(part, rest[0]) == Some(part[rest[0].path := rest[0]])
  {
    var r, p := rest[0], rest[0].path;
    assert p in c && Puts(rest, p);
    if p.Child? {
      HeadFirst(rest, p.parent);
      HeadRemoves(rest, p.parent);
      ParentNotCovered(p);
      var d := p.parent;
      assert d in part && part[d] == c[d];
      var l := c[d].names.value;
      assert l[p.name := r.attr.value.kind] == l;
      assert part[d := part[d].(names := Some(l))] == part;
    }
  }

  lemma {:induction false} CopyStep(c: Cache, part: Cache, rest: seq<FileAttr>)
    requires SelfConsistent(c) && rest != [] && Copying(c, part, rest)
    ensures UpdateOne(part, rest[0]).Some? && Copying(c, UpdateOne(part, rest[0]).value, rest[1..])
  {
    CopyAdds(c, part, rest);
    SortedTail(rest);
    HeadFirst(rest, rest[0].path);
    forall q ensures Puts(rest, q) <==> q == rest[0].path || Puts(rest[1..], q) {
      HeadRemoves(rest, q);
    }
    assert forall i :: 0 <= i < |rest[1..]| ==> rest[1..][i] == rest[i + 1];
  }

  lemma {:induction false} CopyRun(c: Cache, part: Cache, rest: seq<FileAttr>)
    requires SelfConsistent(c) && Copying(c, part, rest)
    ensures UpdateAll(part, rest) == Some(c)
    decreases |rest|
  {
    if rest == [] {
      assert forall p :: !Puts(rest, p);
      assert part == c;
    } else {
      CopyStep(c, part, rest);
      CopyRun(c, UpdateOne(part, rest[0]).value, rest[1..]);
    }
  }

  /** A copy of a cache, applied to an empty cache, reproduces it; no entry is discarded. */
  lemma {:induction false} CopyReproduces(c: Cache, fs: seq<FileAttr>)
    requires SelfConsistent(c) && IsCopy(c, fs)
    ensures UpdateAll(map[], fs) == Some(c)
  {
    forall p | p in c ensures Puts(fs, p) {
      var i :| 0 <= i < |fs| && fs[i] == c[p];
      assert fs[i].path == p && !Deletion(fs[i]);
    }
    CopyRun(c, map[], fs);
  }

  lemma CoherentSelfConsistent(hash: Blob -> string, t: Tree, c: Cache)
    requires WfTree(t) && Coherent(hash, t, c)
    ensures SelfConsistent(c)
  {
    forall p | p in c ensures Agrees(hash, t, p, c[p]) && (p.Child? ==> Agrees(hash, t, p.parent, c[p.parent])) {}
  }

  // ---------------------------------------------------------------- disk and cache together

  /** One of the first `n` entries deletes something at or below `q`. */
  predicate DeletesUnder(fs: seq<FileAttr>, n: nat, q: Path)
    requires n <= |fs|
  {
    exists i :: 0 <= i < n && Deletion(fs[i]) && Covers(q, fs[i].path)
  }

  lemma DeletesNext(fs: seq<FileAttr>, n: nat, q: Path)
    requires n < |fs|
    ensures DeletesUnder(fs, n + 1, q) <==> DeletesUnder(fs, n, q) || (Deletion(fs[n]) && Covers(q, fs[n].path))
  {
  }

  /** The hashes of what is to be deleted, through the cache; exactly the paths above those are cached
      that were not before. */
  method KnownHashes(cache: AttributeCache, fs: seq<FileAttr>, ghost t: Tree, ghost stamps: Path -> nat)
    returns (known: map<Path, string>)
    requires WfTree(t) && cache.Reads(t, stamps) && Coherent(cache.hash, t, cache.attributes)
    modifies cache`attributes
    ensures Coherent(cache.hash, t, cache.attributes)
    ensures forall i :: 0 <= i < |fs| && Deletion(fs[i]) ==>
      fs[i].path in known && known[fs[i].path] == HashAt(cache.hash, t, fs[i].path)
    ensures forall q :: q in cache.attributes <==> q in old(cache.attributes) || (q in t && DeletesUnder(fs, |fs|, q))
  {
    known := map[];
    for i := 0 to |fs|
      invariant Coherent(cache.hash, t, cache.attributes)
      invariant forall j :: 0 <= j < i && Deletion(fs[j]) ==>
        fs[j].path in known && known[fs[j].path] == HashAt(cache.hash, t, fs[j].path)
      invariant forall q :: q in cache.attributes <==> q in old(cache.attributes) || (q in t && DeletesUnder(fs, i, q))
    {
      forall q
        ensures DeletesUnder(fs, i + 1, q) <==> DeletesUnder(fs, i, q) || (Deletion(fs[i]) && Covers(q, fs[i].path))
      {
        DeletesNext(fs, i, q);
      }
      if Deletion(fs[i]) {
        var a := cache.Get(fs[i].path, false, t, stamps);
        known := known[fs[i].path := if Deletion(a) then "" else a.hash];
      }
    }
  }

  /** A listing comes only with a directory that has nothing in it when its turn comes, and is empty. */
  predicate EmptyListings(t: Tree, fs: seq<FileAttr>) {
    forall i :: 0 <= i < |fs| && fs[i].names.Some? ==>
      && IsDir(fs[i]) && fs[i].names.value == map[] && Empty(ShapeOf(t), fs[i].path)
      && forall j :: 0 <= j < i && fs[j].path.Child? && !Deletion(fs[j]) ==> fs[j].path.parent != fs[i].path
  }

  lemma EmptyListingsTail(t: Tree, fs: seq<FileAttr>, goal: Tree)
    requires EmptyListings(t, fs) && fs != []
    ensures EmptyListings(StepTree(t, fs[0], goal), fs[1..])
  {
    var t1, rest := StepTree(t, fs[0], goal), fs[1..];
    forall i | 0 <= i < |rest| && rest[i].names.Some?
      ensures Empty(ShapeOf(t1), rest[i].path)
      ensures forall j :: 0 <= j < i && rest[j].path.Child? && !Deletion(rest[j]) ==>
        rest[j].path.parent != rest[i].path
    {
      assert rest[i] == fs[i + 1];
      assert forall j :: 0 <= j < i ==> rest[j] == fs[j + 1];
      assert forall q :: q in t1 ==> q in t || (q == fs[0].path && !Deletion(fs[0]));
      assert forall q :: q in t <==> q in ShapeOf(t);
    }
  }

  lemma EmptyListed(t: Tree, p: Path)
    requires IsDirIn(t, p) && Empty(ShapeOf(t), p)
    ensures ListingAt(t, p) == Some(map[])
  {
    assert forall q :: q in t <==> q in ShapeOf(t);
    assert forall n: Name :: n in Listing(t, p) ==> Child(p, n) in t;
  }

  lemma {:induction false} EmptyListingsFit(t: Tree, fs: seq<FileAttr>, goal: Tree)
    requires EmptyListings(t, fs)
      && forall i :: 0 <= i < |fs| && !Deletion(fs[i]) && IsDir(fs[i]) ==> IsDirIn(goal, fs[i].path)
    ensures ListingsFit(t, fs, goal)
    decreases |fs|
  {
    if fs != [] {
      EmptyListingsTail(t, fs, goal);
      EmptyListingsFit(StepTree(t, fs[0], goal), fs[1..], goal);
      if fs[0].names.Some? {
        EmptyHead(t, fs[0], goal);
      }
    }
  }

  lemma EmptyHead(t: Tree, f: FileAttr, goal: Tree)
    requires !Deletion(f) && IsDirIn(goal, f.path) && Empty(ShapeOf(t), f.path)
    ensures ListingAt(StepTree(t, f, goal), f.path) == Some(map[])
  {
    var t1 := StepTree(t, f, goal);
    assert forall q :: q in t <==> q in ShapeOf(t);
    assert Empty(ShapeOf(t1), f.path) by {
      assert f.path.Child? ==> f.path.parent != f.path;
    }
    EmptyListed(t1, f.path);
  }

  /** Master.replay with the cache: if the set can be replayed, disk and cache change together. */
  method ReplayFileSet(master: Master, cache: AttributeCache, fs: seq<FileAttr>, ghost stamps: Path -> nat,
                       stamps': Path -> nat)
    returns (ok: bool)
    requires master.Sound() && WfTree(master.disk) && master.tmp == multiset{} && cache.hash == master.hash
    requires cache.Reads(master.disk, stamps) && Coherent(cache.hash, master.disk, cache.attributes)
    requires PutsLast(fs) && (forall i :: 0 <= i < |fs| ==> WfAttr(fs[i])) && EmptyListings(master.disk, fs)
    requires forall i :: 0 <= i < |fs| && Wants(fs[i]) != "" ==> fs[i].hash in master.store
    modifies master`disk, master`tmp, cache`attributes
    ensures ok <==> Replayable(ShapeOf(old(master.disk)), fs)
    ensures ok ==> ShapeOf(master.disk) == EditAll(ShapeOf(old(master.disk)), fs) && WfTree(master.disk)
    ensures ok ==> Coherent(cache.hash, master.disk, cache.attributes) && master.tmp == multiset{}
    ensures ok ==> forall p :: !TouchedBy(fs, |fs|, p) ==> SameAt(old(master.disk), master.disk, p)
    ensures ok ==> forall j :: 0 <= j < |fs| && !Deletion(fs[j]) ==>
      fs[j].path in master.disk && ShownAs(master.hash, master.disk[fs[j].path], fs[j])
  {
    ghost var t := master.disk;
    var hashes := KnownHashes(cache, fs, t, stamps);
    var known := (p: Path) => if p in hashes then hashes[p] else "";
    var infos;
    ok, infos := master.Replay(fs, known, stamps');
    if ok {
      assert forall j :: 0 <= j < |fs| && !Deletion(fs[j]) ==> PutOn(master.hash, known, t, fs, j, master.disk);
      EmptyListingsFit(t, fs, master.disk);
      ReplayKeepsCoherence(cache.hash, known, stamps', t, cache.attributes, fs, master.disk, infos);
      ok := cache.Update(infos);
    }
  }
}
