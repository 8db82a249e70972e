/** The byte order of spellings, by which file sets are sorted, puts every directory strictly before
    whatever lies below it. */
module PathOrder {
  import opened Paths
  import opened Spelling

  predicate StringLess(a: string, b: string) {
    b != "" && (a == "" || a[0] < b[0] || (a[0] == b[0] && StringLess(a[1..], b[1..])))
  }

  predicate PathLess(p: Path, q: Path) {
    StringLess(Render(p), Render(q))
  }

  lemma {:induction false} StringLessIrreflexive(a: string)
    ensures !StringLess(a, a)
  {
    if a != "" {
      StringLessIrreflexive(a[1..]);
    }
  }

  lemma {:induction false} StringLessTransitive(a: string, b: string, c: string)
    requires StringLess(a, b) && StringLess(b, c)
    ensures StringLess(a, c)
  {
    if a != "" && a[0] == b[0] == c[0] {
      StringLessTransitive(a[1..], b[1..], c[1..]);
    }
  }

  lemma {:induction false} StringLessTotal(a: string, b: string)
    ensures a == b || StringLess(a, b) || StringLess(b, a)
  {
    if a != "" && b != "" && a[0] == b[0] {
      StringLessTotal(a[1..], b[1..]);
      assert a == [a[0]] + a[1..] && b == [b[0]] + b[1..];
    }
  }

  lemma {:induction false} StringLessPrefix(a: string, b: string)
    requires b != ""
    ensures StringLess(a, a + b)
  {
    if a != "" {
      StringLessPrefix(a[1..], b);
      assert (a + b)[1..] == a[1..] + b;
    }
  }

  lemma {:induction false} PathLessIrreflexive(p: Path)
    ensures !PathLess(p, p)
  {
    StringLessIrreflexive(Render(p));
  }

  lemma {:induction false} PathLessTransitive(p: Path, q: Path, r: Path)
    requires PathLess(p, q) && PathLess(q, r)
    ensures PathLess(p, r)
  {
    StringLessTransitive(Render(p), Render(q), Render(r));
  }

  lemma {:induction false} PathLessTotal(p: Path, q: Path)
    ensures p == q || PathLess(p, q) || PathLess(q, p)
  {
    StringLessTotal(Render(p), Render(q));
    if Render(p) == Render(q) {
      RenderInjective(p, q);
    }
  }

  /** A directory sorts strictly before everything below it. */
  lemma {:induction false} BelowIsGreater(a: Path, p: Path)
    requires Below(a, p)
    ensures PathLess(a, p)
  {
    var d := p.parent;
    if d.Root? {
      StringLessPrefix("", p.name);
      assert "" + p.name == p.name;
    } else {
      StringLessPrefix(Render(d), "/" + p.name);
      assert Render(p) == Render(d) + ("/" + p.name);
    }
    if d != a {
      BelowIsGreater(a, d);
      PathLessTransitive(a, d, p);
    }
  }
}
