/** A task that touches the root of its writable tree sends an entry whose path ends in a slash. The
    disk understands it; the cache does not. */
module RootEntry {
  import opened Paths
  import opened Trees
  import opened FileSets
  import opened Edits
  import opened Supply
  import opened Masters
  import opened AttrCaches
  import opened CacheProofs

  /** The entries the cache takes notice of. The one for the writable root splits into that root and
      the empty name: no listing is adjusted, and there is no entry of its spelling. Only the topmost
      directory is spelled alike either way. */
  function Heard(wr: Path, infos: seq<FileAttr>): seq<FileAttr> {
    if infos == [] then []
    else (if wr.Child? && infos[0].path == wr then [] else [infos[0]]) + Heard(wr, infos[1..])
  }

  lemma {:induction false} HeardFrom(wr: Path, infos: seq<FileAttr>, i: nat)
    requires i < |Heard(wr, infos)|
    ensures Heard(wr, infos)[i] in infos && (wr.Child? ==> Heard(wr, infos)[i].path != wr)
    decreases |infos|
  {
    var kept := !(wr.Child? && infos[0].path == wr);
    if !kept || i > 0 {
      HeardFrom(wr, infos[1..], if kept then i - 1 else i);
    }
  }

  /** The entry for the writable root makes a directory that is there. */
  predicate RootStays(wr: Path, infos: seq<FileAttr>) {
    forall i :: 0 <= i < |infos| && infos[i].path == wr ==> IsDir(infos[i])
  }

  lemma {:induction false} HeardReplayable(k: Shape, wr: Path, infos: seq<FileAttr>)
    requires Replayable(k, infos) && wr in k && k[wr] == Directory && RootStays(wr, infos)
    ensures Replayable(k, Heard(wr, infos))
    decreases |infos|
  {
    if infos != [] {
      var f, rest := infos[0], infos[1..];
      assert RootStays(wr, rest);
      HeardReplayable(Edit(k, f), wr, rest);
      if wr.Child? && f.path == wr {
        assert Edit(k, f) == k;
        assert Heard(wr, infos) == Heard(wr, rest);
      } else {
        assert Heard(wr, infos)[1..] == Heard(wr, rest);
      }
    }
  }

  lemma {:induction false} HeardAlong(t: Tree, wr: Path, infos: seq<FileAttr>, goal: Tree)
    requires wr in t && wr in goal && (wr.Child? ==> t[wr] == goal[wr]) && RootStays(wr, infos)
    ensures Along(t, Heard(wr, infos), goal) == Along(t, infos, goal)
    decreases |infos|
  {
    if infos != [] {
      var f, rest := infos[0], infos[1..];
      assert RootStays(wr, rest);
      HeardAlong(StepTree(t, f, goal), wr, rest, goal);
      if wr.Child? && f.path == wr {
        assert StepTree(t, f, goal) == t;
        assert Heard(wr, infos) == Heard(wr, rest);
      } else {
        assert Heard(wr, infos)[1..] == Heard(wr, rest);
      }
    }
  }

  lemma {:induction false} HeardListings(t: Tree, wr: Path, infos: seq<FileAttr>, goal: Tree)
    requires forall i :: 0 <= i < |infos| ==> infos[i].names.None?
    ensures ListingsFit(t, Heard(wr, infos), goal)
    decreases |infos|
  {
    if infos != [] {
      var f, rest := infos[0], infos[1..];
      if wr.Child? && f.path == wr {
        HeardListings(t, wr, rest, goal);
        assert Heard(wr, infos) == Heard(wr, rest);
      } else {
        HeardListings(StepTree(t, f, goal), wr, rest, goal);
        assert Heard(wr, infos)[1..] == Heard(wr, rest);
      }
    }
  }

  /** The disk as the cache has heard of it: the permissions of the writable root are the old ones. */
  function Known(wr: Path, t: Tree, t': Tree): Tree {
    if wr.Child? && wr in t then t'[wr := t[wr]] else t'
  }

  lemma KnownReached(hash: Blob -> string, known: Path -> string, t: Tree, fs: seq<FileAttr>, t': Tree,
                     infos: seq<FileAttr>, wr: Path)
    requires PutsLast(fs) && Replayed(hash, known, t, fs, |fs|, t') && wr in t && wr in t'
    requires |infos| == |fs| && forall i :: 0 <= i < |fs| ==> SameEdit(fs[i], infos[i])
    requires RootStays(wr, infos)
    ensures Along(t, infos, Known(wr, t, t')) == Known(wr, t, t')
  {
    var goal := Known(wr, t, t');
    var reached := Along(t, infos, goal);
    forall i | 0 <= i < |infos| && !Deletion(infos[i])
      ensures infos[i].path in goal
    {
      assert SameEdit(fs[i], infos[i]) && PutOn(hash, known, t, fs, i, t');
    }
    forall p
      ensures SameAt(reached, goal, p)
    {
      AlongAt(t, infos, goal, p);
      EditsTouch(fs, infos, p);
      if p == wr {
        RootNotRemoved(wr, infos);
      }
    }
    SameTrees(reached, goal);
  }

  lemma RootNotRemoved(wr: Path, infos: seq<FileAttr>)
    requires RootStays(wr, infos)
    ensures !Removes(infos, wr)
  {
  }

  /** What will be right about the writable root, told before the replay: the set gives it no permissions
      but those it has, or it is neither cached nor looked up on the way to something to be deleted. */
  predicate RootHeard(wr: Path, t: Tree, c: Cache, fs: seq<FileAttr>)
    requires wr in t
  {
    wr.Child? && (wr in c || DeletesUnder(fs, |fs|, wr)) ==>
      forall i :: 0 <= i < |fs| && fs[i].path == wr && !Deletion(fs[i]) ==> fs[i].attr.value.perm == PermOn(t, wr)
  }

  lemma HeardStats(hash: Blob -> string, infos: seq<FileAttr>, t: Tree, t': Tree, wr: Path)
    requires StatsFit(hash, infos, t')
    ensures StatsFit(hash, Heard(wr, infos), Known(wr, t, t'))
  {
    forall i | 0 <= i < |Heard(wr, infos)| && !Deletion(Heard(wr, infos)[i])
      ensures SameStat(hash, Known(wr, t, t'), Heard(wr, infos)[i].path, Heard(wr, infos)[i])
    {
      HeardFrom(wr, infos, i);
    }
  }

  /** What is read back makes the same edits, with the attributes on the disk. */
  lemma ReadBackFits(hash: Blob -> string, known: Path -> string, stamps: Path -> nat, t: Tree, fs: seq<FileAttr>,
                     t': Tree,
                     infos: seq<FileAttr>, wr: Path)
    requires (forall i :: 0 <= i < |fs| ==> WfAttr(fs[i]) && fs[i].names.None?) && RootStays(wr, fs)
    requires Replayed(hash, known, t, fs, |fs|, t')
    requires |infos| == |fs| && forall i :: 0 <= i < |fs| ==> infos[i] == Reread(t', stamps, fs[i])
    ensures forall i :: 0 <= i < |fs| ==> SameEdit(fs[i], infos[i]) && infos[i].names.None?
    ensures StatsFit(hash, infos, t') && RootStays(wr, infos)
  {
    forall i | 0 <= i < |fs|
      ensures SameEdit(fs[i], infos[i]) && infos[i].names.None?
      ensures !Deletion(infos[i]) ==> SameStat(hash, t', infos[i].path, infos[i])
    {
      RereadFits(hash, known, stamps, t, fs, t', i);
    }
  }

  /** After a replay the cache is coherent with the disk as it has heard of it. */
  lemma HeardCoherent(hash: Blob -> string, known: Path -> string, stamps: Path -> nat,
                      t: Tree, c: Cache, fs: seq<FileAttr>, t': Tree, infos: seq<FileAttr>, wr: Path)
    requires WfTree(t) && Coherent(hash, t, c) && PutsLast(fs) && Replayable(ShapeOf(t), fs)
    requires forall i :: 0 <= i < |fs| ==> WfAttr(fs[i]) && fs[i].names.None?
    requires Replayed(hash, known, t, fs, |fs|, t') && IsDirIn(t, wr) && RootStays(wr, fs) && wr in t'
    requires |infos| == |fs| && forall i :: 0 <= i < |fs| ==> infos[i] == Reread(t', stamps, fs[i])
    ensures UpdateAll(c, Heard(wr, infos)).Some?
    ensures Coherent(hash, Known(wr, t, t'), UpdateAll(c, Heard(wr, infos)).value)
  {
    ReadBackFits(hash, known, stamps, t, fs, t', infos, wr);
    SameScript(t, ShapeOf(t), fs, infos, t');
    KnownReached(hash, known, t, fs, t', infos, wr);
    HeardUpdates(hash, t, c, infos, t', wr);
  }

  lemma HeardUpdates(hash: Blob -> string, t: Tree, c: Cache, infos: seq<FileAttr>, t': Tree, wr: Path)
    requires WfTree(t) && Coherent(hash, t, c) && Replayable(ShapeOf(t), infos) && StatsFit(hash, infos, t')
    requires IsDirIn(t, wr) && RootStays(wr, infos) && wr in t' && forall i :: 0 <= i < |infos| ==> infos[i].names.None?
    requires Along(t, infos, Known(wr, t, t')) == Known(wr, t, t')
    ensures UpdateAll(c, Heard(wr, infos)).Some?
    ensures Coherent(hash, Known(wr, t, t'), UpdateAll(c, Heard(wr, infos)).value)
  {
    var goal := Known(wr, t, t');
    HeardReplayable(ShapeOf(t), wr, infos);
    HeardStats(hash, infos, t, t', wr);
    HeardListings(t, wr, infos, goal);
    HeardAlong(t, wr, infos, goal);
    CacheFollows(hash, t, c, Heard(wr, infos), goal);
  }

  /** It is coherent with the disk itself exactly if the writable root is not cached or as it was. */
  lemma RootUnheardIff(hash: Blob -> string, t: Tree, t': Tree, c: Cache, wr: Path)
    requires Coherent(hash, Known(wr, t, t'), c) && IsDirIn(t, wr) && IsDirIn(t', wr)
    ensures Coherent(hash, t', c) <==> (wr.Child? && wr in c ==> t'[wr] == t[wr])
  {
    var seen := Known(wr, t, t');
    assert seen.Keys == t'.Keys;
    forall p | p in c
      ensures Agrees(hash, t', p, c[p]) <==> (p == wr && wr.Child? ==> t'[wr] == t[wr])
    {
      assert Agrees(hash, seen, p, c[p]);
      SameKinds(seen, t', p);
    }
  }

  lemma SameKinds(a: Tree, b: Tree, p: Path)
    requires a.Keys == b.Keys && forall q :: q in a && q in b ==> KindOf(a[q]) == KindOf(b[q])
    ensures ListingAt(a, p) == ListingAt(b, p)
  {
    assert forall q :: q in a <==> q in b;
    assert Listing(a, p) == Listing(b, p);
  }

  lemma RootRemains(hash: Blob -> string, known: Path -> string, t: Tree, fs: seq<FileAttr>, t': Tree, wr: Path)
    requires Replayed(hash, known, t, fs, |fs|, t') && RootStays(wr, fs) && IsDirIn(t, wr)
    ensures IsDirIn(t', wr)
  {
    if TouchedBy(fs, |fs|, wr) {
      var j :| 0 <= j < |fs| && fs[j].path == wr;
      assert PutOn(hash, known, t, fs, j, t');
    } else {
      assert SameAt(t, t', wr);
    }
  }

  /** The writable root is as it was exactly if the set gives it no other permissions. */
  lemma RootPerms(hash: Blob -> string, known: Path -> string, t: Tree, fs: seq<FileAttr>, t': Tree, wr: Path)
    requires Replayed(hash, known, t, fs, |fs|, t') && RootStays(wr, fs) && IsDirIn(t, wr) && IsDirIn(t', wr)
    ensures t'[wr] == t[wr] <==>
      forall i :: 0 <= i < |fs| && fs[i].path == wr && !Deletion(fs[i]) ==> fs[i].attr.value.perm == PermOn(t, wr)
  {
    if TouchedBy(fs, |fs|, wr) {
      forall i | 0 <= i < |fs| && fs[i].path == wr
        ensures t'[wr] == Dir(fs[i].attr.value.perm)
      {
        assert PutOn(hash, known, t, fs, i, t');
      }
    } else {
      assert SameAt(t, t', wr);
    }
  }

  /** What the cache is told neither caches the writable root nor removes it. */
  lemma RootCached(wr: Path, c: Cache, infos: seq<FileAttr>)
    requires UpdateAll(c, Heard(wr, infos)).Some? && wr.Child?
    ensures wr in UpdateAll(c, Heard(wr, infos)).value <==> wr in c
  {
    forall i | 0 <= i < |Heard(wr, infos)|
      ensures Heard(wr, infos)[i].path != wr
    {
      HeardFrom(wr, infos, i);
    }
    StillCached(wr, c, Heard(wr, infos));
  }

  lemma {:induction false} StillCached(wr: Path, c: Cache, files: seq<FileAttr>)
    requires UpdateAll(c, files).Some? && forall i :: 0 <= i < |files| ==> files[i].path != wr
    ensures wr in UpdateAll(c, files).value <==> wr in c
    decreases |files|
  {
    if files != [] {
      StillCached(wr, UpdateOne(c, files[0]).value, files[1..]);
    }
  }

  /** Master.replay of what a task sent. */
  method ReplayReply(master: Master, cache: AttributeCache, fs: seq<FileAttr>, wr: Path,
                     ghost stamps: Path -> nat, stamps': Path -> nat)
    returns (ok: bool, ghost known: Path -> string)
    requires master.Sound() && WfTree(master.disk) && master.tmp == multiset{} && cache.hash == master.hash
    requires cache.Reads(master.disk, stamps) && Coherent(cache.hash, master.disk, cache.attributes)
    requires PutsLast(fs) && forall i :: 0 <= i < |fs| ==> WfAttr(fs[i]) && fs[i].names.None?
    requires forall i :: 0 <= i < |fs| && Wants(fs[i]) != "" ==> fs[i].hash in master.store
    requires IsDirIn(master.disk, wr) && RootStays(wr, fs)
    modifies master`disk, master`tmp, cache`attributes
    ensures ok <==> Replayable(ShapeOf(old(master.disk)), fs)
    ensures ok ==> Replayed(master.hash, known, old(master.disk), fs, |fs|, master.disk)
    ensures ok ==> ShapeOf(master.disk) == EditAll(ShapeOf(old(master.disk)), fs)
    ensures ok ==> WfTree(master.disk) && master.tmp == multiset{}
    ensures ok ==> (Coherent(cache.hash, master.disk, cache.attributes) <==>
                    RootHeard(wr, old(master.disk), old(cache.attributes), fs))
  {
    ghost var t := master.disk;
    var hashes := KnownHashes(cache, fs, t, stamps);
    var look := (p: Path) => if p in hashes then hashes[p] else "";
    known := look;
    var infos;
    ok, infos := master.Replay(fs, look, stamps');
    if ok {
      RootRemains(master.hash, look, t, fs, master.disk, wr);
      HeardCoherent(cache.hash, look, stamps', t, cache.attributes, fs, master.disk, infos, wr);
      if wr.Child? {
        RootCached(wr, cache.attributes, infos);
      }
      RootPerms(master.hash, look, t, fs, master.disk, wr);
      var heard := cache.Update(Heard(wr, infos));
      RootUnheardIff(cache.hash, t, master.disk, cache.attributes, wr);
    }
  }
}
