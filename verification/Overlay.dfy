/** The state of a union file system: a lazily expanded tree of nodes over a read-only tree,
    and the tree a process inside it sees. */
module Overlays {
  import opened Paths
  import opened Trees

  /** A node.  `original` is the read-only path it still stands for: the root's is the
      read-only root, and `None` is the program's empty string on any other node.
      `backing` is the number of its copy-on-write file. */
  datatype Node = Node(kind: Kind, perm: nat, link: string,
                       original: Option<Path>, backing: Option<nat>, changed: bool)

  /** Nodes are keyed by where they hang in the tree; `store` holds the backing files. */
  datatype Overlay = Overlay(ro: Tree, nodes: map<Path, Node>, deleted: set<Path>,
                             store: map<nat, Blob>, nextFree: nat)

  /** A deletion mark sits on `p` or on a directory above it. */
  predicate Covered(deleted: set<Path>, p: Path) {
    p in deleted || (p.Child? && Covered(deleted, p.parent))
  }

  lemma {:induction false} CoveredBelow(deleted: set<Path>, a: Path, p: Path)
    requires Covered(deleted, a) && Covers(a, p)
    ensures Covered(deleted, p)
  {
    if a != p {
      CoveredBelow(deleted, a, p.parent);
    }
  }

  lemma {:induction false} CoveredByMark(deleted: set<Path>, p: Path)
    requires Covered(deleted, p)
    ensures exists a :: a in deleted && Covers(a, p)
  {
    if p !in deleted {
      CoveredByMark(deleted, p.parent);
    }
  }

  lemma {:induction false} CoveredAdd(deleted: set<Path>, a: Path, p: Path)
    ensures Covered(deleted + {a}, p) <==> Covered(deleted, p) || Covers(a, p)
  {
    if p.Child? {
      CoveredAdd(deleted, a, p.parent);
    }
  }

  /** The node `lookup` makes for a read-only path. */
  function FreshNode(ro: Tree, p: Path): Node
    requires p in ro
  {
    var e := ro[p];
    Node(KindOf(e), if e.Link? then 0 else e.perm, if e.Link? then e.target else "", Some(p), None, false)
  }

  /** What a node's file holds: its backing file, or the read-only file it stands for. */
  function ContentOf(o: Overlay, n: Node): Blob {
    if n.backing.Some? then
      if n.backing.value in o.store then o.store[n.backing.value] else Blob("")
    else if n.original.Some? && n.original.value in o.ro && o.ro[n.original.value].File? then
      o.ro[n.original.value].content
    else Blob("")
  }

  /** What stat, readlink and read on a node report. */
  function EntryOf(o: Overlay, n: Node): Entry {
    match n.kind
    case Directory => Dir(n.perm)
    case Regular => File(n.perm, ContentOf(o, n))
    case Symlink => Link(n.link)
  }

  /** memNode.lookup: what a name resolves to when the node has no child of that name yet. */
  function LookupIn(o: Overlay, n: Node, name: Name): Option<Node> {
    if n.original.None? then None
    else
      var fn := Child(n.original.value, name);
      if fn in o.deleted || fn !in o.ro then None else Some(FreshNode(o.ro, fn))
  }

  /** The node a walk from the root ends at, expanding directories as the walk needs them. */
  function Resolve(o: Overlay, p: Path): Option<Node> {
    if p in o.nodes then Some(o.nodes[p])
    else match p
      case Root => None
      case Child(d, name) =>
        var dir := Resolve(o, d);
        if dir.None? then None else LookupIn(o, dir.value, name)
  }

  /** The union view: every path a walk reaches, with what stat reports there. */
  function View(o: Overlay): Tree {
    map p | p in o.nodes.Keys + o.ro.Keys && Resolve(o, p).Some? :: EntryOf(o, Resolve(o, p).value)
  }

  // ---------------------------------------------------------------- invariant

  /** A directory node that is still expanded on demand from the read-only tree. */
  predicate LiveDir(n: Node, p: Path) {
    n.kind == Directory && n.original == Some(p)
  }

  /** A node's recorded origin exists and has the node's kind; file contents can be found. */
  predicate SourceOk(o: Overlay, n: Node) {
    && (n.original.Some? ==>
          && n.original.value in o.ro
          && KindOf(o.ro[n.original.value]) == n.kind
          && n.backing.None?
          && (n.kind == Symlink ==> n.link == o.ro[n.original.value].target))
    && (n.kind == Regular ==> n.original.Some? || n.backing.Some?)
    && (n.backing.Some? ==>
          n.kind == Regular && n.backing.value in o.store && n.backing.value < o.nextFree)
  }

  /** Whatever the read-only tree has below `p` has been deleted. */
  predicate HidesBelow(o: Overlay, p: Path) {
    forall q :: q in o.ro && Below(p, q) ==> Covered(o.deleted, q)
  }

  /** The read-only tree shows through at `p`. */
  predicate Shows(o: Overlay, p: Path) {
    p in o.ro && !Covered(o.deleted, p)
  }

  /** The read-only tree has at `p` what the node there reports. */
  predicate HonestAt(o: Overlay, p: Path)
    requires p in o.nodes
  {
    Shows(o, p) && EntryOf(o, o.nodes[p]) == o.ro[p]
  }

  predicate NodeOk(o: Overlay, p: Path)
    requires p in o.nodes
  {
    var n := o.nodes[p];
    && (p.Root? ==> LiveDir(n, p))
    && (p.Child? ==> p.parent in o.nodes && o.nodes[p.parent].kind == Directory)
    && SourceOk(o, n)
    && (n.kind == Directory ==> n.original.None? || n.original == Some(p))
    && (LiveDir(n, p) ==> !Covered(o.deleted, p))
    && (!LiveDir(n, p) ==> HidesBelow(o, p))
    && (!n.changed && n.backing.None? ==> n.original == Some(p) && HonestAt(o, p))
  }

  predicate Inv(o: Overlay) {
    && WfTree(o.ro)
    && Root in o.nodes
    && (forall p :: p in o.nodes ==> NodeOk(o, p))
    && (forall p, q :: p in o.nodes && q in o.nodes && p != q && o.nodes[p].backing.Some? ==>
          o.nodes[p].backing != o.nodes[q].backing)
  }

  /** No node hides a change: one that is not marked reports what the read-only tree has there. */
  predicate Honest(o: Overlay) {
    forall p :: p in o.nodes && !o.nodes[p].changed ==> HonestAt(o, p)
  }

  /** A freshly mounted union file system. */
  function Initial(ro: Tree): Overlay
    requires WfTree(ro)
  {
    Overlay(ro, map[Root := FreshNode(ro, Root)], {}, map[], 0)
  }

  lemma {:induction false} NothingCovered(p: Path)
    ensures !Covered({}, p)
  {
    if p.Child? {
      NothingCovered(p.parent);
    }
  }

  lemma {:induction false} InitialInv(ro: Tree)
    requires WfTree(ro)
    ensures Inv(Initial(ro)) && Honest(Initial(ro)) && View(Initial(ro)) == ro
  {
    var o := Initial(ro);
    forall p ensures !Covered({}, p) {
      NothingCovered(p);
    }
    assert forall p :: LooksAt(o, ro, p);
    ViewIs(o, ro);
  }

  // ---------------------------------------------------------------- closed form of the view

  lemma {:induction false} ResolveUnexpanded(o: Overlay, p: Path)
    requires Inv(o) && p !in o.nodes
    ensures Resolve(o, p) == if Shows(o, p) then Some(FreshNode(o.ro, p)) else None
  {
    var d := p.parent;
    if d in o.nodes {
      assert NodeOk(o, d);
      var n := o.nodes[d];
      if !LiveDir(n, d) {
        assert Below(d, p);
        if n.original.Some? {
          assert Child(n.original.value, p.name) !in o.ro;
        }
      }
    } else {
      ResolveUnexpanded(o, d);
    }
  }

  /** What a tree must have at `p` to agree with the overlay: the node's entry if there is a node,
      else the read-only entry if it shows through, else nothing. */
  predicate LooksAt(o: Overlay, t: Tree, p: Path) {
    if p in o.nodes then p in t && t[p] == EntryOf(o, o.nodes[p])
    else if Shows(o, p) then p in t && t[p] == o.ro[p]
    else p !in t
  }

  /** The view in closed form: walking is not needed to know what is visible. */
  lemma ViewAt(o: Overlay, p: Path)
    requires Inv(o)
    ensures LooksAt(o, View(o), p)
  {
    if p !in o.nodes {
      ResolveUnexpanded(o, p);
    }
  }

  lemma ViewIs(o: Overlay, t: Tree)
    requires Inv(o) && forall p :: LooksAt(o, t, p)
    ensures View(o) == t
  {
    forall p ensures p in View(o) <==> p in t {
      ViewAt(o, p);
      assert LooksAt(o, t, p);
    }
    forall p | p in t ensures View(o)[p] == t[p] {
      ViewAt(o, p);
      assert LooksAt(o, t, p);
    }
  }

  lemma ViewWf(o: Overlay)
    requires Inv(o)
    ensures WfTree(View(o))
  {
    forall p | p in View(o) && p.Child? ensures IsDirIn(View(o), p.parent) {
      ViewAt(o, p);
      ViewAt(o, p.parent);
      if p in o.nodes {
        assert NodeOk(o, p);
      } else if p.parent in o.nodes {
        assert NodeOk(o, p.parent);
      }
    }
    ViewAt(o, Root);
    assert NodeOk(o, Root);
  }

  /** If a name is free, nothing of the read-only tree shows through below it. */
  lemma FreeNameHides(o: Overlay, p: Path)
    requires Inv(o) && p !in View(o)
    ensures HidesBelow(o, p) && !Shows(o, p)
  {
    ViewAt(o, p);
    forall q | q in o.ro && Below(p, q) ensures Covered(o.deleted, q) {
      if !Covered(o.deleted, q) {
        AncestorsInTree(o.ro, p, q);
        if Covered(o.deleted, p) {
          CoveredBelow(o.deleted, p, q);
        }
      }
    }
  }

  // ---------------------------------------------------------------- listing and reaping

  /** The read-only names a directory node still shows. */
  function Inherited(o: Overlay, n: Node): (l: map<Name, Kind>)
    ensures n.original.Some? ==> forall name: Name ::
      name in l <==> Child(n.original.value, name) in o.ro && Child(n.original.value, name) !in o.deleted
    ensures n.original.Some? ==> forall name: Name ::
      name in l ==> l[name] == KindOf(o.ro[Child(n.original.value, name)])
  {
    if n.original.None? then map[]
    else
      var l := Listing(o.ro, n.original.value);
      map name: Name | name in l && Child(n.original.value, name) !in o.deleted :: l[name]
  }

  /** The child nodes of `d`. */
  function Children(o: Overlay, d: Path): (l: map<Name, Kind>)
    ensures forall name: Name :: name in l <==> Child(d, name) in o.nodes
    ensures forall name: Name :: name in l ==> l[name] == o.nodes[Child(d, name)].kind
  {
    var names := set q | q in o.nodes && q.Child? && q.parent == d :: q.name;
    assert forall name: Name :: Child(d, name) in o.nodes ==> Child(d, name).name in names;
    map name: Name | name in names :: o.nodes[Child(d, name)].kind
  }

  /** memNode.OpenDir: undeleted read-only names of a live directory, overlaid with children. */
  function OpenDir(o: Overlay, d: Path): map<Name, Kind>
    requires d in o.nodes
  {
    Inherited(o, o.nodes[d]) + Children(o, d)
  }

  lemma OpenDirAt(o: Overlay, d: Path, name: Name)
    requires Inv(o) && d in o.nodes && o.nodes[d].kind == Directory
    ensures name in OpenDir(o, d) <==> Child(d, name) in View(o)
    ensures name in OpenDir(o, d) ==> OpenDir(o, d)[name] == KindOf(View(o)[Child(d, name)])
  {
    var p := Child(d, name);
    ViewAt(o, p);
    assert NodeOk(o, d);
    assert Below(d, p);
  }

  /** A directory listing shows exactly the names and kinds visible in it. */
  lemma {:induction false} OpenDirListsView(o: Overlay, d: Path)
    requires Inv(o) && d in o.nodes && o.nodes[d].kind == Directory
    ensures OpenDir(o, d) == Listing(View(o), d)
  {
    forall name: Name
      ensures name in OpenDir(o, d) <==> name in Listing(View(o), d)
      ensures name in OpenDir(o, d) ==> OpenDir(o, d)[name] == Listing(View(o), d)[name]
    {
      OpenDirAt(o, d, name);
    }
  }

  /** One entry of a reap: a deletion, or a path's new attributes with where its bytes are. */
  datatype Result =
    | Gone
    | Now(kind: Kind, perm: nat, link: string, original: Option<Path>, backing: Option<nat>)

  function ResultOf(n: Node): Result {
    Now(n.kind, n.perm, n.link, n.original, n.backing)
  }

  /** The diff `Reap` is meant to deliver. */
  function Diff(o: Overlay): map<Path, Result> {
    (map p | p in o.ro && Covered(o.deleted, p) :: Gone) +
    (map p | p in o.nodes && o.nodes[p].changed :: ResultOf(o.nodes[p]))
  }

  /** The tree entry a result stands for. */
  function ResultEntry(o: Overlay, r: Result): Entry
    requires r.Now?
  {
    EntryOf(o, Node(r.kind, r.perm, r.link, r.original, r.backing, true))
  }

  /** The read-only tree with a diff applied to it. */
  function Patched(o: Overlay, m: map<Path, Result>): Tree {
    map p | p in o.ro.Keys + m.Keys && (p in m ==> m[p].Now?) ::
      if p in m then ResultEntry(o, m[p]) else o.ro[p]
  }

  /** What the master will make of a reap. */
  function Reported(o: Overlay): Tree {
    Patched(o, Diff(o))
  }

  lemma ReportedAt(o: Overlay, p: Path)
    ensures p in Reported(o) <==> (p in o.nodes && o.nodes[p].changed) || Shows(o, p)
    ensures p in Reported(o) ==>
      Reported(o)[p] == if p in o.nodes && o.nodes[p].changed then EntryOf(o, o.nodes[p]) else o.ro[p]
  {
  }

  /** Applying the diff to the read-only tree gives exactly the union view, if and only if no node
      hides a change. */
  lemma {:induction false} DiffIsView(o: Overlay)
    requires Inv(o)
    ensures Reported(o) == View(o) <==> Honest(o)
  {
    var told, view := Reported(o), View(o);
    forall p
      ensures LooksAt(o, view, p)
      ensures p in told <==> (p in o.nodes && o.nodes[p].changed) || Shows(o, p)
      ensures p in told ==> told[p] == if p in o.nodes && o.nodes[p].changed then EntryOf(o, o.nodes[p]) else o.ro[p]
    {
      ViewAt(o, p);
      ReportedAt(o, p);
    }
    if told == view {
      forall p | p in o.nodes && !o.nodes[p].changed
        ensures HonestAt(o, p)
      {
        assert p in view && p in told;
      }
    }
  }
}
