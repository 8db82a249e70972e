/** The master replaying a file set on its disk: copies are prepared first, then deletions and
    modifications are carried out one system call at a time, taking file contents from piles of
    temporary files sorted by hash. */
module Masters {
  import opened Paths
  import opened Trees
  import opened FileSets
  import opened Edits
  import opened Supply

  /** A temporary file; its name does not matter. */
  datatype TmpFile = TmpFile(perm: nat, content: Blob)

  /** The temporary files on hand for each content hash, the program's NewFiles. */
  type Piles = map<string, seq<TmpFile>>

  function PileFor(piles: Piles, h: string): seq<TmpFile> {
    if h in piles then piles[h] else []
  }

  function Perms(files: seq<TmpFile>): seq<nat> {
    if files == [] then [] else Perms(files[..|files| - 1]) + [files[|files| - 1].perm]
  }

  lemma PermsPush(files: seq<TmpFile>, f: TmpFile)
    ensures Perms(files + [f]) == Perms(files) + [f.perm]
  {
    assert (files + [f])[..|files|] == files;
  }

  lemma {:induction false} PermsSize(files: seq<TmpFile>)
    ensures |Perms(files)| == |files|
  {
    if files != [] {
      PermsSize(files[..|files| - 1]);
    }
  }

  /** A pile holds files with its hash. */
  predicate PileOk(hash: Blob -> string, files: seq<TmpFile>, h: string) {
    forall k :: 0 <= k < |files| ==> hash(files[k].content) == h
  }

  /** A temporary file exists as often as it is on the pile of its hash. */
  predicate Counted(hash: Blob -> string, tmp: multiset<TmpFile>, piles: Piles, f: TmpFile) {
    tmp[f] == multiset(PileFor(piles, hash(f.content)))[f]
  }

  /** The temporary files that exist are exactly those on the piles, each on its own hash's. */
  ghost predicate Stocked(hash: Blob -> string, tmp: multiset<TmpFile>, piles: Piles) {
    && (forall h :: PileOk(hash, PileFor(piles, h), h))
    && (forall f :: Counted(hash, tmp, piles, f))
  }

  function Push(piles: Piles, h: string, f: TmpFile): Piles {
    piles[h := PileFor(piles, h) + [f]]
  }

  lemma PushOk(hash: Blob -> string, tmp: multiset<TmpFile>, piles: Piles, f: TmpFile)
    requires Stocked(hash, tmp, piles)
    ensures Stocked(hash, tmp + multiset{f}, Push(piles, hash(f.content), f))
  {
    var piles' := Push(piles, hash(f.content), f);
    forall h ensures PileOk(hash, PileFor(piles', h), h) {
      assert PileOk(hash, PileFor(piles, h), h);
    }
    forall g ensures Counted(hash, tmp + multiset{f}, piles', g) {
      assert Counted(hash, tmp, piles, g);
    }
  }

  function Pop(piles: Piles, h: string): Piles
    requires PileFor(piles, h) != []
  {
    piles[h := PileFor(piles, h)[..|PileFor(piles, h)| - 1]]
  }

  function Top(piles: Piles, h: string): TmpFile
    requires PileFor(piles, h) != []
  {
    PileFor(piles, h)[|PileFor(piles, h)| - 1]
  }

  lemma PopOk(hash: Blob -> string, tmp: multiset<TmpFile>, piles: Piles, h: string)
    requires Stocked(hash, tmp, piles) && PileFor(piles, h) != []
    ensures Top(piles, h) in tmp && hash(Top(piles, h).content) == h
    ensures Stocked(hash, tmp - multiset{Top(piles, h)}, Pop(piles, h))
  {
    var files, top := PileFor(piles, h), Top(piles, h);
    assert PileOk(hash, files, h);
    assert files == files[..|files| - 1] + [top];
    assert top in multiset(files) && Counted(hash, tmp, piles, top);
    var piles' := Pop(piles, h);
    forall g ensures PileOk(hash, PileFor(piles', g), g) {
      assert PileOk(hash, PileFor(piles, g), g);
    }
    forall f ensures Counted(hash, tmp - multiset{top}, piles', f) {
      assert Counted(hash, tmp, piles, f);
    }
  }

  function Count(have: map<string, nat>, h: string): nat {
    if h in have then have[h] else 0
  }

  /** `have` is the first pass's tally before step `i`. */
  ghost predicate Tallied(fs: seq<FileAttr>, known: Path -> string, have: map<string, nat>, i: nat)
    requires i <= |fs|
  {
    forall h :: h != "" ==> Count(have, h) == Have(fs, known, h, i)
  }

  lemma TallyStep(fs: seq<FileAttr>, known: Path -> string, have: map<string, nat>, i: nat, have': map<string, nat>)
    requires i < |fs| && Tallied(fs, known, have, i)
    requires var freed, wanted := Frees(fs[i], known), Wants(fs[i]);
      have' == if freed != "" then have[freed := Count(have, freed) + 1]
               else if wanted != "" && Count(have, wanted) > 0 then have[wanted := Count(have, wanted) - 1]
               else have
    ensures Tallied(fs, known, have', i + 1)
  {
    forall h | h != "" ensures Count(have', h) == Have(fs, known, h, i + 1) {
      assert Count(have, h) == Have(fs, known, h, i);
    }
  }

  /** The hash the cache has for a path, when it is coherent with the disk. */
  function HashAt(hash: Blob -> string, t: Tree, p: Path): string {
    if p in t && t[p].File? then hash(t[p].content) else ""
  }

  /** `e` is what replaying `f` is meant to put on disk, except for a file's permissions. */
  predicate ShownAs(hash: Blob -> string, e: Entry, f: FileAttr)
    requires !Deletion(f)
  {
    match KindAfter(f)
    case Directory => e == Dir(f.attr.value.perm)
    case Regular => e.File? && hash(e.content) == f.hash
    case Symlink => e == Link(f.link)
  }

  function PermOn(t: Tree, p: Path): nat
    requires p in t
  {
    if t[p].Link? then 0 else t[p].perm
  }

  predicate TouchedBy(fs: seq<FileAttr>, i: nat, p: Path)
    requires i <= |fs|
  {
    exists j :: 0 <= j < i && fs[j].path == p
  }

  /** What step `j` put is on disk; a file has the permissions of the temporary file it was made from. */
  predicate PutOn(hash: Blob -> string, known: Path -> string, t0: Tree, fs: seq<FileAttr>, j: nat, t: Tree)
    requires j < |fs| && !Deletion(fs[j])
  {
    && fs[j].path in t && ShownAs(hash, t[fs[j].path], fs[j])
    && (Wants(fs[j]) != "" ==> PermOn(t, fs[j].path) == Received(fs, known, t0, j))
  }

  predicate SameAt(t: Tree, t': Tree, p: Path) {
    (p in t <==> p in t') && (p in t ==> t[p] == t'[p])
  }

  /** The disk after the first `i` steps: what they put is there, what they removed is not, and
      what they did not touch is as it was. */
  ghost predicate Replayed(hash: Blob -> string, known: Path -> string, t0: Tree, fs: seq<FileAttr>, i: nat, t: Tree)
    requires i <= |fs|
  {
    && (forall p :: !TouchedBy(fs, i, p) ==> SameAt(t0, t, p))
    && (forall p :: p in t && TouchedBy(fs, i, p) ==> PutBy(fs, i, p))
    && (forall j :: 0 <= j < i && !Deletion(fs[j]) ==> PutOn(hash, known, t0, fs, j, t))
  }

  predicate PutBy(fs: seq<FileAttr>, i: nat, p: Path)
    requires i <= |fs|
  {
    exists j :: 0 <= j < i && fs[j].path == p && !Deletion(fs[j])
  }

  lemma TouchedStep(fs: seq<FileAttr>, i: nat, p: Path)
    requires i < |fs|
    ensures TouchedBy(fs, i + 1, p) <==> TouchedBy(fs, i, p) || p == fs[i].path
    ensures PutBy(fs, i + 1, p) <==> PutBy(fs, i, p) || (p == fs[i].path && !Deletion(fs[i]))
  {
    if TouchedBy(fs, i, p) {
      var j :| 0 <= j < i && fs[j].path == p;
      assert j < i + 1;
    }
    if PutBy(fs, i, p) {
      var j :| 0 <= j < i && fs[j].path == p && !Deletion(fs[j]);
      assert j < i + 1;
    }
  }

  lemma ReplayedStep(hash: Blob -> string, known: Path -> string, t0: Tree, fs: seq<FileAttr>, i: nat, t: Tree,
                     t': Tree)
    requires i < |fs| && PutsLast(fs) && Replayed(hash, known, t0, fs, i, t)
    requires forall p :: p != fs[i].path ==> SameAt(t, t', p)
    requires if Deletion(fs[i]) then fs[i].path !in t' else PutOn(hash, known, t0, fs, i, t')
    ensures Replayed(hash, known, t0, fs, i + 1, t')
  {
    forall p
      ensures !TouchedBy(fs, i + 1, p) ==> SameAt(t0, t', p)
      ensures p in t' && TouchedBy(fs, i + 1, p) ==> PutBy(fs, i + 1, p)
    {
      TouchedStep(fs, i, p);
      assert p != fs[i].path ==> SameAt(t, t', p);
    }
    forall j | 0 <= j < i + 1 && !Deletion(fs[j]) ensures PutOn(hash, known, t0, fs, j, t') {
      if j < i {
        assert PutOn(hash, known, t0, fs, j, t) && SameAt(t, t', fs[j].path);
      }
    }
  }

  lemma LeafEmpty(t: Tree, p: Path)
    requires WfTree(t) && p in t && !t[p].Dir?
    ensures Empty(ShapeOf(t), p)
  {
  }

  /** The piles hold the copies made in the first `i` steps. */
  ghost predicate CopiesMade(fs: seq<FileAttr>, known: Path -> string, piles: Piles, i: nat)
    requires i <= |fs|
  {
    forall h :: h != "" ==> Perms(PileFor(piles, h)) == Copies(fs, known, h, i)
  }

  lemma CopyMade(fs: seq<FileAttr>, known: Path -> string, piles: Piles, i: nat, copy: TmpFile)
    requires i < |fs| && CopiesMade(fs, known, piles, i) && Copied(fs, known, i)
    requires copy.perm == fs[i].attr.value.perm
    ensures CopiesMade(fs, known, Push(piles, fs[i].hash, copy), i + 1)
  {
    var piles' := Push(piles, fs[i].hash, copy);
    forall h | h != "" ensures Perms(PileFor(piles', h)) == Copies(fs, known, h, i + 1) {
      assert Perms(PileFor(piles, h)) == Copies(fs, known, h, i);
      if h == fs[i].hash {
        PermsPush(PileFor(piles, h), copy);
        assert PileFor(piles', h) == PileFor(piles, h) + [copy];
      } else {
        assert PileFor(piles', h) == PileFor(piles, h);
      }
    }
  }

  lemma NoCopyMade(fs: seq<FileAttr>, known: Path -> string, piles: Piles, i: nat)
    requires i < |fs| && CopiesMade(fs, known, piles, i) && !Copied(fs, known, i)
    ensures CopiesMade(fs, known, piles, i + 1)
  {
    forall h | h != "" ensures Copies(fs, known, h, i + 1) == Copies(fs, known, h, i) {}
  }

  lemma ShapeRemoved(t: Tree, p: Path)
    ensures ShapeOf(t - {p}) == ShapeOf(t) - {p}
  {
  }

  lemma ShapePut(t: Tree, p: Path, e: Entry)
    ensures ShapeOf(t[p := e]) == ShapeOf(t)[p := KindOf(e)]
  {
  }

  lemma WfShapeTree(t: Tree)
    ensures WfShape(ShapeOf(t)) <==> WfTree(t)
  {
    assert forall p :: p in t ==> (DirAt(ShapeOf(t), p) <==> IsDirIn(t, p));
  }

  /** The piles are as the accounting says before step `i` of the second pass. */
  ghost predicate PilesAre(fs: seq<FileAttr>, known: Path -> string, t0: Tree, piles: Piles, i: nat)
    requires i <= |fs|
  {
    forall h :: h != "" ==> Perms(PileFor(piles, h)) == Pile(fs, known, t0, h, i)
  }

  /** The piles after one step: a deleted file is put on its pile, a new file taken from it. */
  function PilesAfter(hash: Blob -> string, t: Tree, piles: Piles, f: FileAttr): Piles
    requires Wants(f) != "" ==> PileFor(piles, Wants(f)) != []
  {
    if Deletion(f) then
      if f.path in t && t[f.path].File? then
        Push(piles, hash(t[f.path].content), TmpFile(t[f.path].perm, t[f.path].content))
      else piles
    else if f.hash != "" then Pop(piles, f.hash)
    else piles
  }

  lemma PilesStep(hash: Blob -> string, fs: seq<FileAttr>, known: Path -> string, t0: Tree, t: Tree, piles: Piles,
                  i: nat)
    requires i < |fs| && PilesAre(fs, known, t0, piles, i)
    requires Wants(fs[i]) != "" ==> PileFor(piles, Wants(fs[i])) != []
    requires Deletion(fs[i]) ==>
      fs[i].path in t && SameAt(t0, t, fs[i].path) && known(fs[i].path) == HashAt(hash, t0, fs[i].path)
    ensures PilesAre(fs, known, t0, PilesAfter(hash, t, piles, fs[i]), i + 1)
  {
    var piles' := PilesAfter(hash, t, piles, fs[i]);
    forall h | h != "" ensures Perms(PileFor(piles', h)) == Pile(fs, known, t0, h, i + 1) {
      assert Perms(PileFor(piles, h)) == Pile(fs, known, t0, h, i);
      PermsSize(PileFor(piles, h));
      if Frees(fs[i], known) == h {
        PermsPush(PileFor(piles, h), TmpFile(t[fs[i].path].perm, t[fs[i].path].content));
      }
    }
  }

  /** The attributes as read back from the disk after a step. */
  function Reread(t: Tree, stamps: Path -> nat, f: FileAttr): FileAttr {
    if Deletion(f) || f.path !in t then f
    else f.(attr := Some(Attr(KindOf(t[f.path]), PermOn(t, f.path), stamps(f.path))))
  }

  /** What has been read back stays right while other paths change. */
  lemma RereadKept(t: Tree, t': Tree, stamps: Path -> nat, fs: seq<FileAttr>, j: nat, i: nat)
    requires j < i < |fs| && PutsLast(fs) && forall p :: p != fs[i].path ==> SameAt(t, t', p)
    ensures Reread(t', stamps, fs[j]) == Reread(t, stamps, fs[j])
  {
    if !Deletion(fs[j]) {
      assert SameAt(t, t', fs[j].path);
    }
  }

  /** The attributes read back so far. */
  ghost predicate ReadBack(infos: seq<FileAttr>, t: Tree, stamps: Path -> nat, fs: seq<FileAttr>) {
    |infos| <= |fs| && forall j :: 0 <= j < |infos| ==> infos[j] == Reread(t, stamps, fs[j])
  }

  lemma ReadBackMore(infos: seq<FileAttr>, t: Tree, t': Tree, stamps: Path -> nat, fs: seq<FileAttr>)
    requires |infos| < |fs| && PutsLast(fs) && ReadBack(infos, t, stamps, fs)
    requires forall p :: p != fs[|infos|].path ==> SameAt(t, t', p)
    ensures ReadBack(infos + [Reread(t', stamps, fs[|infos|])], t', stamps, fs)
  {
    forall j | 0 <= j < |infos| ensures infos[j] == Reread(t', stamps, fs[j]) {
      RereadKept(t, t', stamps, fs, j, |infos|);
    }
  }

  lemma ScriptStep(k: Shape, fs: seq<FileAttr>, i: nat)
    requires i < |fs|
    ensures Replayable(k, fs[i..]) <==> StepOk(k, fs[i]) && Replayable(Edit(k, fs[i]), fs[i + 1..])
    ensures EditAll(k, fs[i..]) == EditAll(Edit(k, fs[i]), fs[i + 1..])
  {
    assert fs[i..][0] == fs[i] && fs[i..][1..] == fs[i + 1..];
  }

  /** What replaying a set requires of the set, of the content store and of the cache. */
  ghost predicate Servable(hash: Blob -> string, store: map<string, Blob>, known: Path -> string, t: Tree,
                           fs: seq<FileAttr>) {
    && PutsLast(fs)
    && (forall i :: 0 <= i < |fs| ==> WfAttr(fs[i]))
    && (forall i :: 0 <= i < |fs| && Wants(fs[i]) != "" ==> fs[i].hash in store)
    && (forall i :: 0 <= i < |fs| && Deletion(fs[i]) ==> known(fs[i].path) == HashAt(hash, t, fs[i].path))
  }

  lemma StillThere(hash: Blob -> string, known: Path -> string, t0: Tree, fs: seq<FileAttr>, i: nat, t: Tree)
    requires i < |fs| && PutsLast(fs) && Replayed(hash, known, t0, fs, i, t)
    requires Deletion(fs[i]) && fs[i].path in t
    ensures SameAt(t0, t, fs[i].path)
  {
    assert !PutBy(fs, i, fs[i].path);
  }

  lemma TopReceived(fs: seq<FileAttr>, known: Path -> string, t0: Tree, i: nat, piles: Piles)
    requires i < |fs| && PilesAre(fs, known, t0, piles, i) && Wants(fs[i]) != ""
    ensures PileFor(piles, Wants(fs[i])) != []
    ensures Top(piles, Wants(fs[i])).perm == Received(fs, known, t0, i)
  {
    NeverEmpty(fs, known, t0, i);
    PermsSize(PileFor(piles, Wants(fs[i])));
  }

  /** The disk after one step is a tree of the shape the step gives it. */
  lemma StepTaken(hash: Blob -> string, t: Tree, t': Tree, f: FileAttr)
    requires WfTree(t) && StepOk(ShapeOf(t), f)
    requires if Deletion(f) then t' == t - {f.path}
             else f.path in t' && ShownAs(hash, t'[f.path], f) && t' == t[f.path := t'[f.path]]
    ensures WfTree(t') && ShapeOf(t') == Edit(ShapeOf(t), f)
    ensures forall p :: p != f.path ==> SameAt(t, t', p)
  {
    WfShapeTree(t);
    StepWf(ShapeOf(t), f);
    if Deletion(f) {
      ShapeRemoved(t, f.path);
    } else {
      ShapePut(t, f.path, t'[f.path]);
    }
    WfShapeTree(t');
  }

  /** One step carried out moves the second pass from `i` to `i + 1`. */
  lemma Advance(hash: Blob -> string, known: Path -> string, t0: Tree, fs: seq<FileAttr>, i: nat,
                t: Tree, t': Tree, piles: Piles)
    requires i < |fs| && PutsLast(fs) && WfTree(t) && StepOk(ShapeOf(t), fs[i])
    requires Replayed(hash, known, t0, fs, i, t) && PilesAre(fs, known, t0, piles, i)
    requires if Deletion(fs[i]) then t' == t - {fs[i].path}
             else PutOn(hash, known, t0, fs, i, t') && t' == t[fs[i].path := t'[fs[i].path]]
    requires Wants(fs[i]) != "" ==> PileFor(piles, Wants(fs[i])) != []
    requires Deletion(fs[i]) ==> known(fs[i].path) == HashAt(hash, t0, fs[i].path)
    ensures WfTree(t') && ShapeOf(t') == Edit(ShapeOf(t), fs[i])
    ensures Replayed(hash, known, t0, fs, i + 1, t')
    ensures PilesAre(fs, known, t0, PilesAfter(hash, t, piles, fs[i]), i + 1)
    ensures forall p :: p != fs[i].path ==> SameAt(t, t', p)
  {
    StepTaken(hash, t, t', fs[i]);
    if Deletion(fs[i]) {
      StillThere(hash, known, t0, fs, i, t);
    }
    PilesStep(hash, fs, known, t0, t, piles, i);
    ReplayedStep(hash, known, t0, fs, i, t, t');
  }

  class Master {
    const hash: Blob -> string
    const store: map<string, Blob>
    var disk: Tree
    var tmp: multiset<TmpFile>

    constructor (hash: Blob -> string, store: map<string, Blob>, disk: Tree)
      ensures this.hash == hash && this.store == store && this.disk == disk && tmp == multiset{}
    {
      this.hash, this.store, this.disk := hash, store, disk;
      tmp := multiset{};
    }

    /** Hashes are never empty and name the stored contents. */
    ghost predicate Sound() {
      (forall b :: hash(b) != "") && (forall h :: h in store ==> hash(store[h]) == h)
    }

    /** replay, first pass: note the hash of every file to be deleted, and copy from the content
        store what the deleted files will not supply. */
    method Prepare(fs: seq<FileAttr>, known: Path -> string) returns (piles: Piles, del: map<Path, string>)
      requires Sound() && tmp == multiset{}
      requires forall i :: 0 <= i < |fs| && Wants(fs[i]) != "" ==> fs[i].hash in store
      modifies this`tmp
      ensures Stocked(hash, tmp, piles)
      ensures CopiesMade(fs, known, piles, |fs|) && Prepared(fs, known, del)
    {
      piles, del := map[], map[];
      var have: map<string, nat> := map[];
      for i := 0 to |fs|
        invariant Stocked(hash, tmp, piles)
        invariant CopiesMade(fs, known, piles, i)
        invariant Tallied(fs, known, have, i)
        invariant forall p :: p in del ==> del[p] == known(p) && del[p] != ""
        invariant forall j :: 0 <= j < i && Frees(fs[j], known) != "" ==> fs[j].path in del
      {
        var f := fs[i];
        ghost var had := have;
        if !Copied(fs, known, i) {
          NoCopyMade(fs, known, piles, i);
        }
        if Deletion(f) {
          var h := known(f.path);
          if h != "" {
            del := del[f.path := h];
            have := have[h := Count(have, h) + 1];
          }
        } else if f.hash != "" {
          if Count(have, f.hash) > 0 {
            have := have[f.hash := Count(have, f.hash) - 1];
          } else {
            var copy := TmpFile(f.attr.value.perm, store[f.hash]);
            PushOk(hash, tmp, piles, copy);
            CopyMade(fs, known, piles, i, copy);
            tmp := tmp + multiset{copy};
            piles := Push(piles, f.hash, copy);
          }
        }
        TallyStep(fs, known, had, i, have);
      }
    }

    // The system calls.  Each fails without effect, or succeeds.

    method OsRemove(p: Path) returns (ok: bool)
      modifies this`disk
      ensures ok <==> p in old(disk) && p.Child? && Empty(ShapeOf(old(disk)), p)
      ensures disk == if ok then old(disk) - {p} else old(disk)
    {
      ok := p in disk && p.Child? && Empty(ShapeOf(disk), p);
      if ok {
        disk := disk - {p};
      }
    }

    method OsMkdir(p: Path, perm: nat) returns (ok: bool)
      modifies this`disk
      ensures ok <==> p !in old(disk) && p.Child? && IsDirIn(old(disk), p.parent)
      ensures disk == if ok then old(disk)[p := Dir(perm)] else old(disk)
    {
      ok := p !in disk && p.Child? && IsDirIn(disk, p.parent);
      if ok {
        disk := disk[p := Dir(perm)];
      }
    }

    method OsChmod(p: Path, perm: nat) returns (ok: bool)
      modifies this`disk
      ensures ok <==> p in old(disk)
      ensures disk == if ok then old(disk)[p := WithPerm(old(disk)[p], perm)] else old(disk)
    {
      ok := p in disk;
      if ok {
        disk := disk[p := WithPerm(disk[p], perm)];
      }
    }

    method OsSymlink(target: string, p: Path) returns (ok: bool)
      modifies this`disk
      ensures ok <==> p !in old(disk) && p.Child? && IsDirIn(old(disk), p.parent)
      ensures disk == if ok then old(disk)[p := Link(target)] else old(disk)
    {
      ok := p !in disk && p.Child? && IsDirIn(disk, p.parent);
      if ok {
        disk := disk[p := Link(target)];
      }
    }

    /** Rename a temporary file to `p`. */
    method OsInstall(f: TmpFile, p: Path) returns (ok: bool)
      modifies this`disk, this`tmp
      ensures ok <==> f in old(tmp) && p.Child? && IsDirIn(old(disk), p.parent) && !IsDirIn(old(disk), p)
      ensures disk == if ok then old(disk)[p := File(f.perm, f.content)] else old(disk)
      ensures tmp == if ok then old(tmp) - multiset{f} else old(tmp)
    {
      ok := f in tmp && p.Child? && IsDirIn(disk, p.parent) && !IsDirIn(disk, p);
      if ok {
        disk := disk[p := File(f.perm, f.content)];
        tmp := tmp - multiset{f};
      }
    }

    /** Rename the file at `p` to a temporary file. */
    method OsStash(p: Path) returns (ok: bool, f: TmpFile)
      modifies this`disk, this`tmp
      ensures ok <==> p in old(disk) && old(disk)[p].File?
      ensures ok ==> f == TmpFile(old(disk)[p].perm, old(disk)[p].content)
      ensures disk == if ok then old(disk) - {p} else old(disk)
      ensures tmp == if ok then old(tmp) + multiset{f} else old(tmp)
    {
      ok := p in disk && disk[p].File?;
      f := TmpFile(0, Blob(""));
      if ok {
        f := TmpFile(disk[p].perm, disk[p].content);
        disk := disk - {p};
        tmp := tmp + multiset{f};
      }
    }

    /** replayFileModifications, a deletion. */
    method ReplayDeletion(f: FileAttr, del: map<Path, string>, piles: Piles) returns (ok: bool, piles': Piles)
      requires Deletion(f) && WfTree(disk) && Stocked(hash, tmp, piles)
      requires f.path in disk ==> (f.path in del <==> disk[f.path].File?)
      requires f.path in disk && f.path in del ==> del[f.path] == hash(disk[f.path].content)
      modifies this`disk, this`tmp
      ensures ok <==> StepOk(ShapeOf(old(disk)), f)
      ensures ok ==> disk == old(disk) - {f.path}
      ensures ok ==> piles' == PilesAfter(hash, old(disk), piles, f) && Stocked(hash, tmp, piles')
    {
      piles' := piles;
      if f.path in del {
        if f.path in disk {
          LeafEmpty(disk, f.path);
          PushOk(hash, tmp, piles, TmpFile(disk[f.path].perm, disk[f.path].content));
        }
        var file;
        ok, file := OsStash(f.path);
        if ok {
          piles' := Push(piles, del[f.path], file);
        }
      } else {
        ok := OsRemove(f.path);
      }
    }

    /** A directory is made, unless it is there. */
    method PutDir(f: FileAttr) returns (ok: bool)
      requires !Deletion(f) && WfTree(disk)
      modifies this`disk
      ensures !IsDir(f) ==> ok && disk == old(disk)
      ensures IsDir(f) ==> (ok <==> StepOk(ShapeOf(old(disk)), f))
      ensures IsDir(f) && ok ==>
        disk == if f.path in old(disk) then old(disk) else old(disk)[f.path := Dir(f.attr.value.perm)]
      ensures IsDir(f) && ok && f.path in old(disk) ==> disk[f.path].Dir?
    {
      ok := true;
      if IsDir(f) {
        ok := OsMkdir(f.path, f.attr.value.perm);
        if !ok {
          ok := IsDirIn(disk, f.path);
        }
      }
    }

    /** A regular file is the last of its pile, renamed. */
    method PutFile(f: FileAttr, piles: Piles) returns (ok: bool, piles': Piles)
      requires !Deletion(f) && WfAttr(f) && WfTree(disk) && Stocked(hash, tmp, piles)
      requires Wants(f) != "" ==> PileFor(piles, Wants(f)) != []
      modifies this`disk, this`tmp
      ensures f.hash == "" ==> ok && disk == old(disk) && tmp == old(tmp) && piles' == piles
      ensures f.hash != "" ==> (ok <==> StepOk(ShapeOf(old(disk)), f))
      ensures f.hash != "" && ok ==>
        && disk == old(disk)[f.path := File(Top(piles, f.hash).perm, Top(piles, f.hash).content)]
        && hash(Top(piles, f.hash).content) == f.hash
        && piles' == Pop(piles, f.hash) && Stocked(hash, tmp, piles')
    {
      ok, piles' := true, piles;
      if f.hash != "" {
        PopOk(hash, tmp, piles, f.hash);
        var src := Top(piles, f.hash);
        piles' := Pop(piles, f.hash);
        ok := OsInstall(src, f.path);
      }
    }

    /** A link is made after a remove whose failure is ignored. */
    method PutLink(f: FileAttr) returns (ok: bool)
      requires !Deletion(f) && WfAttr(f) && WfTree(disk)
      modifies this`disk
      ensures f.link == "" ==> ok && disk == old(disk)
      ensures f.link != "" ==> (ok <==> StepOk(ShapeOf(old(disk)), f))
      ensures f.link != "" && ok ==> disk == old(disk)[f.path := Link(f.link)]
    {
      ok := true;
      if f.link != "" {
        var _ := OsRemove(f.path);
        ok := OsSymlink(f.link, f.path);
      }
    }

    /** replayFileModifications, anything else. */
    method ReplayPut(f: FileAttr, piles: Piles) returns (ok: bool, piles': Piles)
      requires !Deletion(f) && WfAttr(f) && WfTree(disk) && Stocked(hash, tmp, piles)
      requires Wants(f) != "" ==> PileFor(piles, Wants(f)) != []
      modifies this`disk, this`tmp
      ensures ok <==> StepOk(ShapeOf(old(disk)), f)
      ensures ok ==> f.path in disk && ShownAs(hash, disk[f.path], f) && disk == old(disk)[f.path := disk[f.path]]
      ensures ok && Wants(f) != "" ==> PermOn(disk, f.path) == Top(piles, Wants(f)).perm
      ensures ok ==> piles' == PilesAfter(hash, old(disk), piles, f) && Stocked(hash, tmp, piles')
    {
      piles' := piles;
      ok := PutDir(f);
      if !ok {
        return;
      }
      ok, piles' := PutFile(f, piles);
      if !ok {
        return;
      }
      ok := PutLink(f);
      if !ok {
        return;
      }
      if f.hash == "" && f.attr.value.kind != Symlink {
        ok := OsChmod(f.path, f.attr.value.perm);
      }
    }

    /** Remove whatever is left on the piles. */
    method RemoveLeftovers(piles: Piles)
      requires Stocked(hash, tmp, piles)
      modifies this`tmp
      ensures tmp == multiset{}
    {
      var rest, keys := piles, piles.Keys;
      while keys != {}
        invariant Stocked(hash, tmp, rest)
        invariant forall h :: h !in keys ==> PileFor(rest, h) == []
      {
        var h :| h in keys;
        while PileFor(rest, h) != []
          invariant Stocked(hash, tmp, rest)
          invariant forall g :: g !in keys ==> PileFor(rest, g) == []
          decreases |PileFor(rest, h)|
        {
          PopOk(hash, tmp, rest, h);
          tmp := tmp - multiset{Top(rest, h)};
          rest := Pop(rest, h);
        }
        keys := keys - {h};
      }
      forall f ensures tmp[f] == 0 {
        assert Counted(hash, tmp, rest, f);
      }
    }

    /** What the second pass relies on from the first. */
    ghost predicate Prepared(fs: seq<FileAttr>, known: Path -> string, del: map<Path, string>) {
      && (forall p :: p in del ==> del[p] == known(p) && del[p] != "")
      && (forall i :: 0 <= i < |fs| && Frees(fs[i], known) != "" ==> fs[i].path in del)
    }

    /** Where the second pass stands before step `i`. */
    ghost predicate At(fs: seq<FileAttr>, known: Path -> string, t0: Tree, piles: Piles, i: nat)
      requires i <= |fs|
      reads this`disk, this`tmp
    {
      && WfTree(disk) && Stocked(hash, tmp, piles)
      && Replayed(hash, known, t0, fs, i, disk) && PilesAre(fs, known, t0, piles, i)
    }

    method ReplayOne(fs: seq<FileAttr>, i: nat, ghost t0: Tree, ghost known: Path -> string, del: map<Path, string>,
                     piles: Piles)
      returns (ok: bool, piles': Piles)
      requires i < |fs| && Sound() && Servable(hash, store, known, t0, fs) && Prepared(fs, known, del)
      requires At(fs, known, t0, piles, i)
      modifies this`disk, this`tmp
      ensures ok <==> StepOk(ShapeOf(old(disk)), fs[i])
      ensures ok ==> At(fs, known, t0, piles', i + 1) && ShapeOf(disk) == Edit(ShapeOf(old(disk)), fs[i])
      ensures ok ==> forall p :: p != fs[i].path ==> SameAt(old(disk), disk, p)
    {
      ghost var before := disk;
      if Deletion(fs[i]) {
        if fs[i].path in disk {
          StillThere(hash, known, t0, fs, i, disk);
        }
        ok, piles' := ReplayDeletion(fs[i], del, piles);
        if ok {
          Advance(hash, known, t0, fs, i, before, disk, piles);
        }
      } else {
        if Wants(fs[i]) != "" {
          TopReceived(fs, known, t0, i, piles);
        }
        ok, piles' := ReplayPut(fs[i], piles);
        if ok {
          assert PutOn(hash, known, t0, fs, i, disk);
          Advance(hash, known, t0, fs, i, before, disk, piles);
        }
      }
    }

    /** replayFileModifications, second pass.  `ok` is false when a system call fails, which ends the
        program. */
    method ReplayAll(fs: seq<FileAttr>, ghost known: Path -> string, del: map<Path, string>, piles0: Piles,
                     stamps: Path -> nat)
      returns (ok: bool, piles: Piles, infos: seq<FileAttr>)
      requires Sound() && WfTree(disk) && Servable(hash, store, known, disk, fs) && Prepared(fs, known, del)
      requires Stocked(hash, tmp, piles0) && CopiesMade(fs, known, piles0, |fs|)
      modifies this`disk, this`tmp
      ensures ok <==> Replayable(ShapeOf(old(disk)), fs)
      ensures ok ==> At(fs, known, old(disk), piles, |fs|)
      ensures ok ==> ShapeOf(disk) == EditAll(ShapeOf(old(disk)), fs)
      ensures ok ==> |infos| == |fs| && forall j :: 0 <= j < |fs| ==> infos[j] == Reread(disk, stamps, fs[j])
    {
      ghost var t0 := disk;
      ok, piles, infos := true, piles0, [];
      var i := 0;
      while i < |fs|
        invariant 0 <= i <= |fs| && ok && At(fs, known, t0, piles, i)
        invariant Replayable(ShapeOf(t0), fs) <==> Replayable(ShapeOf(disk), fs[i..])
        invariant EditAll(ShapeOf(t0), fs) == EditAll(ShapeOf(disk), fs[i..])
        invariant |infos| == i && ReadBack(infos, disk, stamps, fs)
      {
        ScriptStep(ShapeOf(disk), fs, i);
        label L:
        ok, piles := ReplayOne(fs, i, t0, known, del, piles);
        if !ok {
          return;
        }
        ReadBackMore(infos, old@L(disk), disk, stamps, fs);
        infos := infos + [Reread(disk, stamps, fs[i])];
        i := i + 1;
      }
      assert fs[i..] == [];
    }

    /** Master.replay: succeeds exactly when every step can be carried out; then the disk is as the
        set says, and no temporary file is left. */
    method Replay(fs: seq<FileAttr>, known: Path -> string, stamps: Path -> nat)
      returns (ok: bool, infos: seq<FileAttr>)
      requires Sound() && WfTree(disk) && tmp == multiset{} && Servable(hash, store, known, disk, fs)
      modifies this`disk, this`tmp
      ensures ok <==> Replayable(ShapeOf(old(disk)), fs)
      ensures ok ==> Replayed(hash, known, old(disk), fs, |fs|, disk) && WfTree(disk) && tmp == multiset{}
      ensures ok ==> ShapeOf(disk) == EditAll(ShapeOf(old(disk)), fs)
      ensures ok ==> |infos| == |fs| && forall j :: 0 <= j < |fs| ==> infos[j] == Reread(disk, stamps, fs[j])
    {
      var piles, del := Prepare(fs, known);
      ok, piles, infos := ReplayAll(fs, known, del, piles, stamps);
      if ok {
        RemoveLeftovers(piles);
      }
    }
  }
}
