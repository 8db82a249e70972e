/** The program works on slash-separated strings.  Its string functions are exactly the constructor
    and the destructors of a path. */
module Spelling {
  import opened Paths

  /** The program's spelling of a path: no leading slash, "" for the root. */
  function Render(p: Path): string {
    match p
    case Root => ""
    case Child(Root, n) => n
    case Child(d, n) => Render(d) + "/" + n
  }

  function TrimRight(s: string): string {
    if s != "" && s[|s| - 1] == '/' then TrimRight(s[..|s| - 1]) else s
  }

  function TrimLeft(s: string): string {
    if s != "" && s[0] == '/' then TrimLeft(s[1..]) else s
  }

  /** The position just after the last slash. */
  function AfterLastSlash(s: string): (i: nat)
    ensures i <= |s|
    ensures '/' !in s[i..]
    ensures i > 0 ==> s[i - 1] == '/'
  {
    if s == "" || s[|s| - 1] == '/' then |s|
    else
      var i := AfterLastSlash(s[..|s| - 1]);
      assert s[i..] == s[..|s| - 1][i..] + [s[|s| - 1]];
      i
  }

  function SplitPath(s: string): (string, string) {
    var i := AfterLastSlash(s);
    (TrimRight(s[..i]), s[i..])
  }

  function JoinPath(a: string, b: string): string {
    var d := TrimRight(a);
    if d == "" then b else d + "/" + TrimLeft(b)
  }

  lemma {:induction false} RenderShape(p: Path)
    ensures p.Child? ==> Render(p) != "" && Render(p)[|Render(p)| - 1] != '/' && Render(p)[0] != '/'
  {
    if p.Child? && p.parent.Child? {
      RenderShape(p.parent);
    }
  }

  lemma {:induction false} SplitAt(d: string, n: Name)
    ensures AfterLastSlash(d + "/" + n) == |d| + 1
  {
    var s := d + "/" + n;
    var i := AfterLastSlash(s);
    assert s[|d|] == '/';
    assert forall k :: |d| < k < |s| ==> s[k] == n[k - |d| - 1];
    assert forall k :: i <= k < |s| ==> s[k] == s[i..][k - i];
  }

  /** `SplitPath` is the destructor: it inverts `Render` one component at a time. */
  lemma {:induction false} SplitRendered(p: Path)
    requires p.Child?
    ensures SplitPath(Render(p)) == (Render(p.parent), p.name)
  {
    RenderShape(p.parent);
    if p.parent.Root? {
      SplitTop(p.name);
    } else {
      SplitBelow(Render(p.parent), p.name);
    }
  }

  lemma {:induction false} SplitTop(n: Name)
    ensures SplitPath(n) == ("", n)
  {
    var i := AfterLastSlash(n);
    assert i == 0;
    assert n[..0] == "" && n[0..] == n;
  }

  lemma {:induction false} SplitBelow(d: string, n: Name)
    requires d != "" && d[|d| - 1] != '/'
    ensures SplitPath(d + "/" + n) == (d, n)
  {
    var s := d + "/" + n;
    SplitAt(d, n);
    assert s[..|d| + 1] == d + "/" && s[|d| + 1..] == n;
    TrimSlash(d);
  }

  lemma {:induction false} TrimSlash(d: string)
    requires d != "" && d[|d| - 1] != '/'
    ensures TrimRight(d + "/") == d
  {
    assert (d + "/")[..|d|] == d;
    assert TrimRight(d) == d;
  }

  /** `SplitPath` shortens every non-empty string, so every descent by it ends. */
  lemma {:induction false} SplitShortens(s: string)
    requires s != ""
    ensures |SplitPath(s).0| < |s|
  {
    var i := AfterLastSlash(s);
    TrimShorter(s[..i]);
    if i > 0 {
      assert s[..i][|s[..i]| - 1] == '/';
    }
  }

  lemma {:induction false} TrimShorter(s: string)
    ensures |TrimRight(s)| <= |s|
    ensures s != "" && s[|s| - 1] == '/' ==> |TrimRight(s)| < |s|
  {
    if s != "" && s[|s| - 1] == '/' {
      TrimShorter(s[..|s| - 1]);
    }
  }

  lemma {:induction false} RenderInjective(p: Path, q: Path)
    requires Render(p) == Render(q)
    ensures p == q
  {
    RenderShape(p);
    RenderShape(q);
    if p.Child? {
      SplitRendered(p);
      SplitRendered(q);
      RenderInjective(p.parent, q.parent);
    }
  }

  /** `Join` is the constructor, and with the empty name it leaves a trailing slash. */
  lemma {:induction false} JoinRendered(d: Path, n: Name)
    ensures JoinPath(Render(d), n) == Render(Child(d, n))
    ensures d.Child? ==> JoinPath(Render(d), "") == Render(d) + "/"
  {
    RenderShape(d);
  }

  /** The spelling `Join` produces for "the directory itself" is no path's spelling, and
      splits into that directory and an empty name. */
  lemma {:induction false} JoinEmptyIsUnclean(d: Path, p: Path)
    requires d.Child?
    ensures JoinPath(Render(d), "") != Render(p)
    ensures SplitPath(JoinPath(Render(d), "")) == (Render(d), "")
  {
    RenderShape(d);
    RenderShape(p);
    var s := Render(d) + "/";
    assert s[|s| - 1] == '/';
    assert s[..|s|] == s && s[..|s| - 1] == Render(d);
  }

  /** fastpath.Join: two index scans, then one buffer filled from both ends. */
  method Join(a: string, b: string) returns (r: string)
    ensures r == JoinPath(a, b)
  {
    var end := |a|;
    assert a[..end] == a;
    while end > 0 && a[end - 1] == '/'
      invariant 0 <= end <= |a|
      invariant TrimRight(a[..end]) == TrimRight(a)
    {
      assert a[..end][..end - 1] == a[..end - 1];
      end := end - 1;
    }
    assert TrimRight(a) == a[..end];
    if end == 0 {
      return b;
    }
    var beg := 0;
    while beg < |b| && b[beg] == '/'
      invariant 0 <= beg <= |b|
      invariant TrimLeft(b[beg..]) == TrimLeft(b)
    {
      assert b[beg..][1..] == b[beg + 1..];
      beg := beg + 1;
    }
    assert TrimLeft(b) == b[beg..];
    var d := new char[end + |b| - beg + 1];
    forall i | 0 <= i < end {
      d[i] := a[i];
    }
    d[end] := '/';
    forall i | beg <= i < |b| {
      d[end + 1 + i - beg] := b[i];
    }
    r := d[..];
    assert r == a[..end] + "/" + b[beg..];
  }
}
