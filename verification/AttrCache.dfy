/** The attribute cache: what a cached answer must be, and the two ways the cache changes, by
    filling itself from the file system and by being told of changes. */
module AttrCaches {
  import opened Paths
  import opened Trees
  import opened FileSets
  import opened Masters

  type Cache = map<Path, FileAttr>

  /** What an uncached look at the tree reports; the getter. */
  function Describe(hash: Blob -> string, stamps: Path -> nat, t: Tree, p: Path): FileAttr {
    if p !in t then Deleted(p)
    else FileAttr(p, Some(Attr(KindOf(t[p]), PermOn(t, p), stamps(p))), HashAt(hash, t, p), LinkAt(t, p),
                  ListingAt(t, p))
  }

  function LinkAt(t: Tree, p: Path): string {
    if p in t && t[p].Link? then t[p].target else ""
  }

  function ListingAt(t: Tree, p: Path): Option<map<Name, Kind>> {
    if IsDirIn(t, p) then Some(Listing(t, p)) else None
  }

  /** `a` says of `p` what the tree says, listing included; stamps are not compared. */
  predicate Agrees(hash: Blob -> string, t: Tree, p: Path, a: FileAttr) {
    && SameStat(hash, t, p, a) && a.names == ListingAt(t, p)
  }

  predicate SameStat(hash: Blob -> string, t: Tree, p: Path, a: FileAttr) {
    && a.path == p && p in t && a.attr.Some?
    && a.attr.value.kind == KindOf(t[p]) && a.attr.value.perm == PermOn(t, p)
    && a.hash == HashAt(hash, t, p) && a.link == LinkAt(t, p)
  }

  /** Every entry agrees with the tree, and its parent directory is cached too. */
  ghost predicate Coherent(hash: Blob -> string, t: Tree, c: Cache) {
    && (forall p :: p in c ==> Agrees(hash, t, p, c[p]))
    && (forall p :: p in c && p.Child? ==> p.parent in c)
  }

  /** The cache's own self-check, verify; it lets top-level names off the parent check. */
  predicate Verified(c: Cache) {
    forall p :: p in c ==>
      && c[p].path == p && c[p].attr.Some?
      && (IsDir(c[p]) ==> c[p].names.Some?)
      && (p.Child? && p.parent.Child? ==>
            p.parent in c && c[p.parent].names.Some? && p.name in c[p.parent].names.value)
  }

  lemma CoherentVerifies(hash: Blob -> string, t: Tree, c: Cache)
    requires WfTree(t) && Coherent(hash, t, c)
    ensures Verified(c)
  {
    forall p | p in c ensures Agrees(hash, t, p, c[p]) && (p.Child? ==> Agrees(hash, t, p.parent, c[p.parent])) {}
  }

  // ---------------------------------------------------------------- answering

  /** FileAttr.Copy. */
  function Copy(a: FileAttr, withdir: bool): FileAttr {
    a.(names := if withdir then a.names else None)
  }

  /** localGet: answer from an entry, or negatively from the parent's listing, or not at all. */
  function LocalGet(c: Cache, p: Path, withdir: bool): Option<FileAttr> {
    if p in c then Some(Copy(c[p], withdir))
    else if p.Child? && p.parent in c && c[p.parent].names.Some? && p.name !in c[p.parent].names.value then
      Some(Deleted(p))
    else None
  }

  /** The answer `a` is what the tree says of `p`, with or without the listing. */
  predicate Answers(hash: Blob -> string, t: Tree, p: Path, withdir: bool, a: FileAttr) {
    if p !in t then a == Deleted(p)
    else SameStat(hash, t, p, a) && a.names == if withdir then ListingAt(t, p) else None
  }

  lemma LocalGetRight(hash: Blob -> string, t: Tree, c: Cache, p: Path, withdir: bool)
    requires WfTree(t) && Coherent(hash, t, c)
    ensures LocalGet(c, p, withdir).Some? ==> Answers(hash, t, p, withdir, LocalGet(c, p, withdir).value)
  {
    if p !in c && p.Child? && p.parent in c {
      assert Agrees(hash, t, p.parent, c[p.parent]);
    }
  }

  /** A right answer for the parent directory settles whether a name exists. */
  lemma ParentSettles(hash: Blob -> string, t: Tree, p: Path, dir: FileAttr)
    requires WfTree(t) && p.Child? && Answers(hash, t, p.parent, true, dir)
    ensures p in t <==> !Deletion(dir) && IsDir(dir) && dir.names.Some? && p.name in dir.names.value
    ensures p in t ==> p.parent in t
  {
  }

  /** What a lookup of `p` does to the cache: keep it coherent, keep what was there, and add of the path
      and the directories above it those that exist. */
  ghost predicate Filled(hash: Blob -> string, t: Tree, p: Path, c: Cache, c': Cache) {
    && Coherent(hash, t, c') && (forall q :: q in t && Covers(q, p) ==> q in c')
    && (forall q :: q in c ==> q in c' && c'[q] == c[q])
    && (forall q :: q in c' && q !in c ==> Covers(q, p))
  }

  lemma {:induction false} FilledBelow(hash: Blob -> string, t: Tree, p: Path, c: Cache, c': Cache, c'': Cache)
    requires p.Child? && Filled(hash, t, p.parent, c, c') && Coherent(hash, t, c'')
    requires c'' == c' || (p !in c' && p in c'' && c'' == c'[p := c''[p]])
    requires p in t ==> p in c''
    ensures Filled(hash, t, p, c, c'')
  {
    forall q | q in c'' && q !in c
      ensures Covers(q, p)
    {
      if q != p {
        assert q in c' && Covers(q, p.parent);
      }
    }
    forall q | q in c
      ensures q in c'' && c''[q] == c[q]
    {
      assert q in c' && c'[q] == c[q];
    }
    forall q | q in t && Covers(q, p) && q != p
      ensures q in c''
    {
      assert Covers(q, p.parent) && q in c';
    }
  }

  /** Looking up the parent does not cache the path itself. */
  lemma ParentFilled(hash: Blob -> string, t: Tree, p: Path, c: Cache, c': Cache)
    requires p.Child? && Filled(hash, t, p.parent, c, c')
    ensures (p in c' <==> p in c) && (p in c ==> c'[p] == c[p])
  {
    ParentNotCovered(p);
  }

  /** The root, and nothing else, is added. */
  lemma FilledRoot(hash: Blob -> string, t: Tree, c: Cache, c': Cache)
    requires Coherent(hash, t, c') && Root in c' && (c' == c || (Root !in c && c' == c[Root := c'[Root]]))
    ensures Filled(hash, t, Root, c, c')
  {
  }

  /** Above a cached path everything is cached. */
  lemma {:induction false} CachedAbove(hash: Blob -> string, t: Tree, c: Cache, q: Path, p: Path)
    requires Coherent(hash, t, c) && p in c && Covers(q, p)
    ensures q in c
    decreases p
  {
    if q != p {
      CachedAbove(hash, t, c, q, p.parent);
    }
  }

  lemma AnsweredLocally(hash: Blob -> string, t: Tree, c: Cache, p: Path, withdir: bool, q: Path)
    requires WfTree(t) && Coherent(hash, t, c) && LocalGet(c, p, withdir).Some? && q in t && Covers(q, p)
    ensures q in c
  {
    LocalGetRight(hash, t, c, p, withdir);
    if p in c {
      CachedAbove(hash, t, c, q, p);
    } else {
      CachedAbove(hash, t, c, q, p.parent);
    }
  }

  lemma FilledCoherent(hash: Blob -> string, stamps: Path -> nat, t: Tree, c: Cache, p: Path)
    requires Coherent(hash, t, c) && p in t && (p.Child? ==> p.parent in c)
    ensures Coherent(hash, t, c[p := Describe(hash, stamps, t, p)])
  {
  }

  // ---------------------------------------------------------------- being told

  /** FileAttr.Merge: everything is overwritten, but a directory update without a listing keeps
      the old one. */
  function Merge(was: FileAttr, r: FileAttr): FileAttr {
    r.(names := if !IsDir(r) then None else if r.names.Some? then r.names else was.names)
  }

  /** The entry itself, once the parent's listing has been dealt with. */
  function PutEntry(c: Cache, r: FileAttr): Cache {
    if Deletion(r) then c - {r.path}
    else if r.path !in c then
      if IsDir(r) && r.names.None? then c else c[r.path := r]
    else c[r.path := Merge(c[r.path], r)]
  }

  function Listed(l: map<Name, Kind>, r: FileAttr): map<Name, Kind>
    requires r.path.Child?
  {
    if Deletion(r) then l - {r.path.name} else l[r.path.name := r.attr.value.kind]
  }

  /** One round of update; None is the program's panic over a parent without a listing. */
  function UpdateOne(c: Cache, r: FileAttr): Option<Cache> {
    if r.path.Root? then Some(PutEntry(c, r))
    else
      var d := r.path.parent;
      if d !in c then Some(c)
      else if c[d].names.None? then None
      else Some(PutEntry(c[d := c[d].(names := Some(Listed(c[d].names.value, r)))], r))
  }

  function UpdateAll(c: Cache, files: seq<FileAttr>): Option<Cache>
    decreases |files|
  {
    if files == [] then Some(c)
    else
      var c1 := UpdateOne(c, files[0]);
      if c1.None? then None else UpdateAll(c1.value, files[1..])
  }

  class AttributeCache {
    const hash: Blob -> string
    /** The getter: an uncached look at the file system. */
    const getter: Path -> FileAttr
    var attributes: Cache

    constructor (hash: Blob -> string, getter: Path -> FileAttr)
      ensures this.hash == hash && this.getter == getter && attributes == map[]
    {
      this.hash, this.getter, attributes := hash, getter, map[];
    }

    /** The getter reports the tree. */
    ghost predicate Reads(t: Tree, stamps: Path -> nat) {
      forall p :: getter(p) == Describe(hash, stamps, t, p)
    }

    /** The end of unsafeGet: ask the getter and remember a positive answer. */
    method Fill(p: Path, withdir: bool, ghost t: Tree, ghost stamps: Path -> nat) returns (rep: FileAttr)
      requires Reads(t, stamps) && Coherent(hash, t, attributes)
      requires p !in attributes && p in t && (p.Child? ==> p.parent in attributes)
      modifies this`attributes
      ensures Coherent(hash, t, attributes) && Answers(hash, t, p, withdir, rep)
      ensures p in attributes && attributes == old(attributes)[p := attributes[p]]
    {
      rep := getter(p);
      if !Deletion(rep) {
        FilledCoherent(hash, stamps, t, attributes, p);
        attributes := attributes[p := rep];
      }
      rep := Copy(rep, withdir);
    }

    /** The parent directory is looked up first; its listing settles whether there is anything at `p`. */
    method ParentLists(p: Path, ghost t: Tree, ghost stamps: Path -> nat) returns (listed: bool)
      requires p.Child? && WfTree(t) && Reads(t, stamps) && Coherent(hash, t, attributes)
      modifies this`attributes
      ensures Filled(hash, t, p.parent, old(attributes), attributes)
      ensures listed <==> p in t
      ensures listed ==> p.parent in attributes
      decreases p, 0
    {
      assert p.parent in attributes ==> Agrees(hash, t, p.parent, attributes[p.parent]);
      var dirAttr := UnsafeGet(p.parent, true, t, stamps);
      ParentSettles(hash, t, p, dirAttr);
      listed := !Deletion(dirAttr) && IsDir(dirAttr) && dirAttr.names.Some? && p.name in dirAttr.names.value;
    }

    /** unsafeGet: make sure the parents are cached, then fill in the entry itself. */
    method UnsafeGet(p: Path, withdir: bool, ghost t: Tree, ghost stamps: Path -> nat) returns (rep: FileAttr)
      requires WfTree(t) && Reads(t, stamps) && Coherent(hash, t, attributes)
      modifies this`attributes
      ensures Filled(hash, t, p, old(attributes), attributes)
      ensures if p in old(attributes) then rep == old(attributes)[p] else Answers(hash, t, p, withdir, rep)
      decreases p, 1
    {
      assert p in attributes ==> Agrees(hash, t, p, attributes[p]);
      ghost var c := attributes;
      if p.Child? {
        var listed := ParentLists(p, t, stamps);
        ParentFilled(hash, t, p, c, attributes);
        if !listed {
          FilledBelow(hash, t, p, c, attributes, attributes);
          return Deleted(p);
        }
      }
      ghost var c' := attributes;
      if p in attributes {
        rep := attributes[p];
      } else {
        rep := Fill(p, withdir, t, stamps);
      }
      if p.Child? {
        FilledBelow(hash, t, p, c, c', attributes);
      } else {
        FilledRoot(hash, t, c, attributes);
      }
    }

    /** Get and GetDir: exactly what an uncached look at the tree would say. */
    method Get(p: Path, withdir: bool, ghost t: Tree, ghost stamps: Path -> nat) returns (rep: FileAttr)
      requires WfTree(t) && Reads(t, stamps) && Coherent(hash, t, attributes)
      modifies this`attributes
      ensures Answers(hash, t, p, withdir, rep)
      ensures Coherent(hash, t, attributes)
      ensures forall q :: q in old(attributes) ==> q in attributes && attributes[q] == old(attributes)[q]
      ensures forall q :: q in attributes <==> q in old(attributes) || (q in t && Covers(q, p))
    {
      var local := LocalGet(attributes, p, withdir);
      if local.Some? {
        LocalGetRight(hash, t, attributes, p, withdir);
        forall q | q in t && Covers(q, p)
          ensures q in attributes
        {
          AnsweredLocally(hash, t, attributes, p, withdir, q);
        }
        return local.value;
      }
      rep := UnsafeGet(p, withdir, t, stamps);
      assert forall q :: q in attributes ==> Agrees(hash, t, q, attributes[q]);
    }

    /** update. */
    method Update(files: seq<FileAttr>) returns (ok: bool)
      modifies this`attributes
      ensures ok <==> UpdateAll(old(attributes), files).Some?
      ensures ok ==> attributes == UpdateAll(old(attributes), files).value
    {
      ghost var c := attributes;
      for i := 0 to |files|
        invariant UpdateAll(c, files) == UpdateAll(attributes, files[i..])
      {
        var r := files[i];
        assert files[i..][0] == r && files[i..][1..] == files[i + 1..];
        if r.path.Child? {
          var d := r.path.parent;
          if d !in attributes {
            continue;
          }
          if attributes[d].names.None? {
            return false;
          }
          attributes := attributes[d := attributes[d].(names := Some(Listed(attributes[d].names.value, r)))];
        }
        attributes := PutEntry(attributes, r);
      }
      assert files[|files|..] == [];
      ok := true;
    }
  }
}
