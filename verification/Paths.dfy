/** Paths as chains of names that end at the root, and how they lie to each other. */
module Paths {

  predicate IsName(n: string) {
    n != "" && '/' !in n
  }

  /** A directory entry name, with the restriction `verify` puts on child names. */
  type Name = n: string | IsName(n) witness "a"

  datatype Path = Root | Child(parent: Path, name: Name)

  /** `p` lies strictly below `a`. */
  predicate Below(a: Path, p: Path) {
    p.Child? && (p.parent == a || Below(a, p.parent))
  }

  /** `p` is `a` or lies below it. */
  predicate Covers(a: Path, p: Path) {
    a == p || Below(a, p)
  }

  lemma {:induction false} BelowTransitive(a: Path, b: Path, c: Path)
    requires Below(a, b) && Covers(b, c)
    ensures Below(a, c)
  {
    if b != c && c.parent != b {
      BelowTransitive(a, b, c.parent);
    }
  }

  function Depth(p: Path): nat {
    if p.Root? then 0 else 1 + Depth(p.parent)
  }

  lemma {:induction false} BelowIsDeeper(a: Path, p: Path)
    requires Below(a, p)
    ensures Depth(a) < Depth(p)
  {
    if p.parent != a {
      BelowIsDeeper(a, p.parent);
    }
  }

  lemma NotBelowItself(p: Path)
    ensures !Below(p, p)
  {
    if Below(p, p) {
      BelowIsDeeper(p, p);
    }
  }

  /** A path does not lie at or above its own parent. */
  lemma ParentNotCovered(p: Path)
    ensures p.Child? ==> !Covers(p, p.parent)
  {
    if p.Child? && Covers(p, p.parent) {
      BelowIsDeeper(p, p.parent);
    }
  }

  lemma {:induction false} AllBelowRoot(p: Path)
    ensures Covers(Root, p)
  {
    if p.Child? {
      AllBelowRoot(p.parent);
    }
  }

  /** The ancestors of one path form a chain. */
  lemma {:induction false} AncestorsChain(a: Path, b: Path, p: Path)
    requires Covers(a, p) && Covers(b, p)
    ensures Covers(a, b) || Below(b, a)
  {
    if a != p && b != p {
      AncestorsChain(a, b, p.parent);
    }
  }

  /** The name, directly inside `p`, on the way to `q`. */
  function Toward(p: Path, q: Path): (n: Name)
    requires Below(p, q)
    ensures Covers(Child(p, n), q)
  {
    if q.parent == p then q.name else Toward(p, q.parent)
  }

  lemma SiblingsApart(p: Path, n: Name, m: Name, q: Path)
    requires Covers(Child(p, n), q) && Covers(Child(p, m), q)
    ensures n == m
  {
    AncestorsChain(Child(p, n), Child(p, m), q);
    if n != m {
      BelowIsDeeper(if Covers(Child(p, n), Child(p, m)) then Child(p, n) else Child(p, m),
                    if Covers(Child(p, n), Child(p, m)) then Child(p, m) else Child(p, n));
    }
  }

  lemma ChildCovers(p: Path, n: Name, q: Path)
    requires Covers(Child(p, n), q)
    ensures Below(p, q)
  {
    if q != Child(p, n) {
      BelowTransitive(p, Child(p, n), q);
    }
  }

  lemma CoversTransitive(a: Path, b: Path, c: Path)
    requires Covers(a, b) && Covers(b, c)
    ensures Covers(a, c)
  {
    if a != b {
      BelowTransitive(a, b, c);
    }
  }

  lemma {:induction false} TowardIs(p: Path, n: Name, q: Path)
    requires Covers(Child(p, n), q)
    ensures Below(p, q) && Toward(p, q) == n
  {
    ChildCovers(p, n, q);
    SiblingsApart(p, n, Toward(p, q), q);
  }

  /** The part of a set of paths at or below `p`. */
  function Within(all: set<Path>, p: Path): set<Path> {
    set q | q in all && Covers(p, q)
  }

  lemma FewerWithin(all: set<Path>, p: Path, n: Name)
    requires p in all
    ensures Within(all, Child(p, n)) < Within(all, p)
  {
    forall q | q in Within(all, Child(p, n))
      ensures q in Within(all, p) && q != p
    {
      ChildCovers(p, n, q);
      NotBelowItself(p);
    }
    assert p in Within(all, p);
  }

  /** The path that `p`, at or below `src`, gets when `src` is moved to `dst`. */
  function Moved(src: Path, dst: Path, p: Path): Path
    requires Covers(src, p)
  {
    if p == src then dst else Child(Moved(src, dst, p.parent), p.name)
  }

  lemma {:induction false} MovedIsCovered(src: Path, dst: Path, p: Path)
    requires Covers(src, p)
    ensures Covers(dst, Moved(src, dst, p))
    ensures Below(src, p) ==> Below(dst, Moved(src, dst, p))
  {
    if p != src {
      MovedIsCovered(src, dst, p.parent);
    } else {
      NotBelowItself(p);
    }
  }

  /** Moving a subtree and moving it back is the identity. */
  lemma {:induction false} MovedBack(src: Path, dst: Path, p: Path)
    requires Covers(src, p)
    ensures Covers(dst, Moved(src, dst, p)) && Moved(dst, src, Moved(src, dst, p)) == p
  {
    MovedIsCovered(src, dst, p);
    if p != src {
      MovedBack(src, dst, p.parent);
      BelowIsDeeper(dst, Moved(src, dst, p));
    }
  }

  /** `p`, seen from a root mounted at `w`. */
  function Graft(w: Path, p: Path): Path {
    if p.Root? then w else Child(Graft(w, p.parent), p.name)
  }

  lemma {:induction false} GraftIsMoved(w: Path, p: Path)
    ensures Covers(Root, p) && Graft(w, p) == Moved(Root, w, p)
  {
    AllBelowRoot(p);
    if p.Child? {
      GraftIsMoved(w, p.parent);
    }
  }
}
