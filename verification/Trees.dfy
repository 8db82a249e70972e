/** File trees: what a path names, and what a directory lists. */
module Trees {
  import opened Paths

  datatype Option<+T> = None | Some(value: T)

  datatype Kind = Directory | Regular | Symlink

  /** The bytes of a file. */
  datatype Blob = Blob(bytes: string)

  datatype Entry =
    | Dir(perm: nat)
    | File(perm: nat, content: Blob)
    | Link(target: string)

  function KindOf(e: Entry): Kind {
    match e
    case Dir(_) => Directory
    case File(_, _) => Regular
    case Link(_) => Symlink
  }

  /** chmod; permissions of a symbolic link are not represented. */
  function WithPerm(e: Entry, perm: nat): Entry {
    match e
    case Dir(_) => Dir(perm)
    case File(_, c) => File(perm, c)
    case Link(_) => e
  }

  type Tree = map<Path, Entry>

  predicate IsDirIn(t: Tree, p: Path) {
    p in t && t[p].Dir?
  }

  /** A tree has a root directory, and whatever it contains has a directory above it. */
  predicate WfTree(t: Tree) {
    IsDirIn(t, Root) && forall p :: p in t && p.Child? ==> IsDirIn(t, p.parent)
  }

  lemma {:induction false} AncestorsInTree(t: Tree, a: Path, p: Path)
    requires WfTree(t) && p in t && Below(a, p)
    ensures IsDirIn(t, a)
  {
    if p.parent != a {
      AncestorsInTree(t, a, p.parent);
    }
  }

  function Names(t: Tree, p: Path): set<Name> {
    set q | q in t && q.Child? && q.parent == p :: q.name
  }

  /** The names in directory `p`, each with its kind. */
  function Listing(t: Tree, p: Path): (l: map<Name, Kind>)
    ensures forall n: Name :: n in l <==> Child(p, n) in t
    ensures forall n: Name :: n in l ==> l[n] == KindOf(t[Child(p, n)])
  {
    assert forall n: Name :: Child(p, n) in t ==> Child(p, n).name in Names(t, p);
    map n: Name | n in Names(t, p) :: KindOf(t[Child(p, n)])
  }

  /** The part of `m` at or below `p`, and the rest. */
  function Under<T>(m: map<Path, T>, p: Path): map<Path, T> {
    map q | q in m && Covers(p, q) :: m[q]
  }

  function Outside<T>(m: map<Path, T>, p: Path): map<Path, T> {
    map q | q in m && !Covers(p, q) :: m[q]
  }

  /** Everything in `m`, all of it at or below `src`, moved to `dst`. */
  function Relocate<T>(m: map<Path, T>, src: Path, dst: Path): (r: map<Path, T>)
    requires forall q :: q in m ==> Covers(src, q)
    ensures forall q :: q in r <==> Covers(dst, q) && Moved(dst, src, q) in m
    ensures forall q :: q in r ==> r[q] == m[Moved(dst, src, q)]
  {
    var keys := set q | q in m :: Moved(src, dst, q);
    assert forall q :: q in keys ==> Covers(dst, q) && Moved(dst, src, q) in m by {
      forall q | q in m ensures Covers(dst, Moved(src, dst, q)) && Moved(dst, src, Moved(src, dst, q)) == q {
        MovedBack(src, dst, q);
      }
    }
    assert forall q :: Covers(dst, q) && Moved(dst, src, q) in m ==> q in keys by {
      forall q | Covers(dst, q) && Moved(dst, src, q) in m ensures q in keys {
        MovedBack(dst, src, q);
      }
    }
    map q | q in keys :: m[Moved(dst, src, q)]
  }
}
