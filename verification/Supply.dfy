/** The accounting by which a replay reuses deleted files: which files are copied in advance, and
    what lies on the pile for each hash at each step. */
module Supply {
  import opened Paths
  import opened Trees
  import opened FileSets

  /** The hash of the file a deletion removes, "" for anything else; `known` is the cache. */
  function Frees(f: FileAttr, known: Path -> string): string {
    if Deletion(f) then known(f.path) else ""
  }

  function Wants(f: FileAttr): string {
    if Deletion(f) then "" else f.hash
  }

  /** First pass: deleted files with hash `h` not yet promised to anyone before step `i`. */
  function Have(fs: seq<FileAttr>, known: Path -> string, h: string, i: nat): nat
    requires i <= |fs|
  {
    if i == 0 then 0
    else
      var n := Have(fs, known, h, i - 1);
      if h == "" then 0
      else if Frees(fs[i - 1], known) == h then n + 1
      else if Wants(fs[i - 1]) == h && n > 0 then n - 1
      else n
  }

  /** First pass: step `i` gets a copy of its own. */
  predicate Copied(fs: seq<FileAttr>, known: Path -> string, i: nat)
    requires i < |fs|
  {
    Wants(fs[i]) != "" && Have(fs, known, Wants(fs[i]), i) == 0
  }

  /** The permissions of the copies made for hash `h` in the first `i` steps. */
  function Copies(fs: seq<FileAttr>, known: Path -> string, h: string, i: nat): seq<nat>
    requires i <= |fs|
  {
    if i == 0 then []
    else
      var c := Copies(fs, known, h, i - 1);
      if h != "" && Wants(fs[i - 1]) == h && Copied(fs, known, i - 1) then c + [fs[i - 1].attr.value.perm] else c
  }

  function PermIn(t: Tree, p: Path): nat {
    if p in t && t[p].File? then t[p].perm else 0
  }

  /** Second pass: the permissions on the pile for `h` before step `i`, newest last.  The pile
      starts with the copies; a deletion adds to it and a file is taken from its end. */
  function Pile(fs: seq<FileAttr>, known: Path -> string, t: Tree, h: string, i: nat): seq<nat>
    requires i <= |fs|
  {
    if i == 0 then Copies(fs, known, h, |fs|)
    else
      var pile := Pile(fs, known, t, h, i - 1);
      if h == "" then pile
      else if Frees(fs[i - 1], known) == h then pile + [PermIn(t, fs[i - 1].path)]
      else if Wants(fs[i - 1]) == h && pile != [] then pile[..|pile| - 1]
      else pile
  }

  /** The accounts balance at every step: what is on the pile is what deletions have left over
      plus the copies still to be used. */
  lemma {:induction false} Balance(fs: seq<FileAttr>, known: Path -> string, t: Tree, h: string, i: nat)
    requires i <= |fs| && h != ""
    ensures |Copies(fs, known, h, |fs|)| >= |Copies(fs, known, h, i)|
    ensures |Pile(fs, known, t, h, i)| ==
            Have(fs, known, h, i) + |Copies(fs, known, h, |fs|)| - |Copies(fs, known, h, i)|
  {
    CopiesGrow(fs, known, h, i, |fs|);
    if i > 0 {
      Balance(fs, known, t, h, i - 1);
      CopiesGrow(fs, known, h, i, |fs|);
    }
  }

  lemma {:induction false} CopiesGrow(fs: seq<FileAttr>, known: Path -> string, h: string, i: nat, j: nat)
    requires i <= j <= |fs|
    ensures Copies(fs, known, h, i) <= Copies(fs, known, h, j)
    decreases j - i
  {
    if i < j {
      CopiesGrow(fs, known, h, i, j - 1);
    }
  }

  /** Whatever the order of the set, the second pass never finds the pile it needs empty. */
  lemma NeverEmpty(fs: seq<FileAttr>, known: Path -> string, t: Tree, i: nat)
    requires i < |fs| && Wants(fs[i]) != ""
    ensures Pile(fs, known, t, Wants(fs[i]), i) != []
  {
    var h := Wants(fs[i]);
    Balance(fs, known, t, h, i);
    CopiesGrow(fs, known, h, i + 1, |fs|);
  }

  /** The permissions of the file that step `i` receives. */
  function Received(fs: seq<FileAttr>, known: Path -> string, t: Tree, i: nat): nat
    requires i < |fs| && Wants(fs[i]) != ""
  {
    NeverEmpty(fs, known, t, i);
    var pile := Pile(fs, known, t, Wants(fs[i]), i);
    pile[|pile| - 1]
  }

  // ---------------------------------------------------------------- who receives what

  /** The permissions wanted for files with hash `h`, and those of the deleted files with hash `h`,
      in the first `i` steps. */
  function Wanted(fs: seq<FileAttr>, h: string, i: nat): seq<nat>
    requires i <= |fs|
  {
    if i == 0 then []
    else
      var w := Wanted(fs, h, i - 1);
      if h != "" && Wants(fs[i - 1]) == h then w + [fs[i - 1].attr.value.perm] else w
  }

  function Freed(fs: seq<FileAttr>, known: Path -> string, t: Tree, h: string, i: nat): seq<nat>
    requires i <= |fs|
  {
    if i == 0 then []
    else
      var d := Freed(fs, known, t, h, i - 1);
      if h != "" && Frees(fs[i - 1], known) == h then d + [PermIn(t, fs[i - 1].path)] else d
  }

  predicate DeletionsFirst(fs: seq<FileAttr>) {
    forall i, j :: 0 <= i < j < |fs| && Deletion(fs[j]) ==> Deletion(fs[i])
  }

  lemma {:induction false} NothingWanted(fs: seq<FileAttr>, h: string, i: nat)
    requires i <= |fs| && forall j :: 0 <= j < i ==> Deletion(fs[j])
    ensures Wanted(fs, h, i) == []
  {
    if i > 0 {
      NothingWanted(fs, h, i - 1);
    }
  }

  function Min(a: nat, b: nat): nat {
    if a < b then a else b
  }

  /** With deletions first, the copies are exactly what the deleted files do not cover. */
  lemma {:induction false} CopiesClosed(fs: seq<FileAttr>, known: Path -> string, t: Tree, h: string, i: nat)
    requires DeletionsFirst(fs) && h != "" && i <= |fs|
    ensures var w, d := Wanted(fs, h, i), Freed(fs, known, t, h, i);
      && Have(fs, known, h, i) == |d| - Min(|d|, |w|)
      && Copies(fs, known, h, i) == w[Min(|d|, |w|)..]
  {
    if i > 0 {
      CopiesClosed(fs, known, t, h, i - 1);
      if Deletion(fs[i - 1]) {
        NothingWanted(fs, h, i - 1);
        NothingWanted(fs, h, i);
      } else {
        var w, d := Wanted(fs, h, i - 1), Freed(fs, known, t, h, i - 1);
        assert (w + [fs[i - 1].attr.value.perm])[Min(|d|, |w|)..] == w[Min(|d|, |w|)..] + [fs[i - 1].attr.value.perm];
      }
    }
  }

  /** Everything that ever lies on the pile: the copies, then the deleted files. */
  function Stock(fs: seq<FileAttr>, known: Path -> string, t: Tree, h: string, i: nat): seq<nat>
    requires i <= |fs|
  {
    Copies(fs, known, h, |fs|) + Freed(fs, known, t, h, i)
  }

  lemma {:induction false} PileClosed(fs: seq<FileAttr>, known: Path -> string, t: Tree, h: string, i: nat)
    requires DeletionsFirst(fs) && h != "" && i <= |fs|
    ensures |Wanted(fs, h, i)| <= |Stock(fs, known, t, h, i)|
    ensures Pile(fs, known, t, h, i) ==
            Stock(fs, known, t, h, i)[..|Stock(fs, known, t, h, i)| - |Wanted(fs, h, i)|]
  {
    if i > 0 {
      PileClosed(fs, known, t, h, i - 1);
      if Deletion(fs[i - 1]) {
        NothingWanted(fs, h, i - 1);
        NothingWanted(fs, h, i);
      } else if Wants(fs[i - 1]) == h {
        NeverEmpty(fs, known, t, i - 1);
      }
    }
  }

  lemma {:induction false} FreedDone(fs: seq<FileAttr>, known: Path -> string, t: Tree, h: string, i: nat, j: nat)
    requires i <= j <= |fs| && forall k :: i <= k < j ==> !Deletion(fs[k])
    ensures Freed(fs, known, t, h, j) == Freed(fs, known, t, h, i)
    decreases j - i
  {
    if i < j {
      FreedDone(fs, known, t, h, i, j - 1);
    }
  }

  /** Files are handed out from the wrong end: in a sorted set, the n-th file wanted with hash `h`
      gets the n-th from last of the copies followed by the deleted files. */
  lemma ReceivedClosed(fs: seq<FileAttr>, known: Path -> string, t: Tree, i: nat)
    requires DeletionsFirst(fs) && i < |fs| && Wants(fs[i]) != ""
    ensures var h := Wants(fs[i]);
      var stock := Stock(fs, known, t, h, |fs|);
      |Wanted(fs, h, i)| < |stock| && Received(fs, known, t, i) == stock[|stock| - 1 - |Wanted(fs, h, i)|]
  {
    var h := Wants(fs[i]);
    PileClosed(fs, known, t, h, i);
    NeverEmpty(fs, known, t, i);
    FreedDone(fs, known, t, h, i, |fs|);
  }

  /** Every file receives the permissions it asked for. */
  predicate PermsRight(fs: seq<FileAttr>, known: Path -> string, t: Tree) {
    forall i :: 0 <= i < |fs| && Wants(fs[i]) != "" ==> Received(fs, known, t, i) == fs[i].attr.value.perm
  }

  /** For hash `h`, the files asked for and the files on hand, read backwards, have the same
      permissions; those on hand are the requests that no deleted file covers, then the deleted files. */
  predicate LinesUp(fs: seq<FileAttr>, known: Path -> string, t: Tree, h: string) {
    var w, d := Wanted(fs, h, |fs|), Freed(fs, known, t, h, |fs|);
    var onHand := w[Min(|d|, |w|)..] + d;
    forall n :: 0 <= n < |w| ==> w[n] == onHand[|onHand| - 1 - n]
  }

  lemma {:induction false} WantedAt(fs: seq<FileAttr>, h: string, i: nat, j: nat)
    requires i <= j <= |fs| && h != ""
    ensures Wanted(fs, h, i) <= Wanted(fs, h, j)
    ensures i < j && Wants(fs[i]) == h ==>
      |Wanted(fs, h, i)| < |Wanted(fs, h, j)| && Wanted(fs, h, j)[|Wanted(fs, h, i)|] == fs[i].attr.value.perm
    decreases j - i
  {
    if i + 1 < j {
      WantedAt(fs, h, i, j - 1);
    }
  }

  lemma {:induction false} WantedIndex(fs: seq<FileAttr>, h: string, n: nat, j: nat) returns (i: nat)
    requires h != "" && j <= |fs| && n < |Wanted(fs, h, j)|
    ensures i < j && Wants(fs[i]) == h && |Wanted(fs, h, i)| == n
    ensures fs[i].attr.value.perm == Wanted(fs, h, j)[n]
    decreases j
  {
    if n == |Wanted(fs, h, j - 1)| {
      i := j - 1;
    } else {
      i := WantedIndex(fs, h, n, j - 1);
    }
  }

  lemma RightLinesUp(fs: seq<FileAttr>, known: Path -> string, t: Tree, h: string)
    requires DeletionsFirst(fs) && PermsRight(fs, known, t) && h != ""
    ensures LinesUp(fs, known, t, h)
  {
    var w := Wanted(fs, h, |fs|);
    CopiesClosed(fs, known, t, h, |fs|);
    var onHand := Stock(fs, known, t, h, |fs|);
    forall n | 0 <= n < |w| ensures |onHand| > n && w[n] == onHand[|onHand| - 1 - n] {
      var i := WantedIndex(fs, h, n, |fs|);
      ReceivedClosed(fs, known, t, i);
    }
  }

  lemma LinedUpRight(fs: seq<FileAttr>, known: Path -> string, t: Tree, i: nat)
    requires DeletionsFirst(fs) && i < |fs| && Wants(fs[i]) != "" && LinesUp(fs, known, t, Wants(fs[i]))
    ensures Received(fs, known, t, i) == fs[i].attr.value.perm
  {
    var h := Wants(fs[i]);
    CopiesClosed(fs, known, t, h, |fs|);
    WantedAt(fs, h, i, |fs|);
    ReceivedClosed(fs, known, t, i);
  }

  /** A sorted replay gives every file its permissions iff they line up for every hash. */
  lemma PermsRightIff(fs: seq<FileAttr>, known: Path -> string, t: Tree)
    requires DeletionsFirst(fs)
    ensures PermsRight(fs, known, t) <==> forall h :: h != "" ==> LinesUp(fs, known, t, h)
  {
    if PermsRight(fs, known, t) {
      forall h | h != "" ensures LinesUp(fs, known, t, h) {
        RightLinesUp(fs, known, t, h);
      }
    }
    if forall h :: h != "" ==> LinesUp(fs, known, t, h) {
      forall i | 0 <= i < |fs| && Wants(fs[i]) != ""
        ensures Received(fs, known, t, i) == fs[i].attr.value.perm
      {
        LinedUpRight(fs, known, t, i);
      }
    }
  }

  /** Two new files with the same contents and different permissions get each other's. */
  lemma PermsSwapped(known: Path -> string, t: Tree, x: FileAttr, y: FileAttr)
    requires !Deletion(x) && !Deletion(y) && x.hash == y.hash && x.hash != ""
    ensures Received([x, y], known, t, 0) == y.attr.value.perm
    ensures Received([x, y], known, t, 1) == x.attr.value.perm
  {
    var fs, h := [x, y], x.hash;
    assert Copies(fs, known, h, 1) == [x.attr.value.perm];
    assert Copies(fs, known, h, 2) == [x.attr.value.perm, y.attr.value.perm];
    assert Pile(fs, known, t, h, 1) == [x.attr.value.perm];
  }
}
