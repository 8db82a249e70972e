/** The operations of the union file system as state transitions, and what each one does to the
    union view: exactly what the same operation does on a plain tree. */
module UnionOps {
  import opened Paths
  import opened Trees
  import opened Overlays

  datatype Op =
    | Lookup(dir: Path, name: Name)
    | Mkdir(dir: Path, name: Name, perm: nat)
    | Create(dir: Path, name: Name, perm: nat)
    | MakeLink(dir: Path, name: Name, target: string)
    | Unlink(dir: Path, name: Name)
    | OpenWrite(file: Path)
    | Write(file: Path, content: Blob)
    | Truncate(file: Path, ok: bool, content: Blob)
    | Chmod(file: Path, perm: nat)
    | Rename(dir: Path, name: Name, toDir: Path, toName: Name)
    | Reset

  // ---------------------------------------------------------------- transitions

  function Touch(o: Overlay, p: Path): Overlay
    requires p in o.nodes
  {
    o.(nodes := o.nodes[p := o.nodes[p].(changed := true)])
  }

  function DoLookup(o: Overlay, d: Path, name: Name): Overlay
    requires d in o.nodes
  {
    if Child(d, name) in o.nodes then o
    else
      var n := LookupIn(o, o.nodes[d], name);
      if n.None? then o else o.(nodes := o.nodes[Child(d, name) := n.value])
  }

  /** A new child hung under `d`, which is touched. */
  function AddChild(o: Overlay, d: Path, name: Name, n: Node): Overlay
    requires d in o.nodes
  {
    Touch(o.(nodes := o.nodes[Child(d, name) := n]), d)
  }

  function DoMkdir(o: Overlay, d: Path, name: Name, perm: nat): Overlay
    requires d in o.nodes
  {
    AddChild(o, d, name, Node(Directory, perm, "", None, None, true))
  }

  function DoSymlink(o: Overlay, d: Path, name: Name, target: string): Overlay
    requires d in o.nodes
  {
    AddChild(o, d, name, Node(Symlink, 0, target, None, None, true))
  }

  /** getFilename plus the bytes first put into the new backing file. */
  function NewBacking(o: Overlay, content: Blob): Overlay {
    o.(store := o.store[o.nextFree := content], nextFree := o.nextFree + 1)
  }

  function DoCreate(o: Overlay, d: Path, name: Name, perm: nat): Overlay
    requires d in o.nodes
  {
    AddChild(NewBacking(o, Blob("")), d, name, Node(Regular, perm, "", None, Some(o.nextFree), true))
  }

  /** The deletion mark that removing `name` from directory node `n` leaves. */
  function Marked(o: Overlay, n: Node, name: Name): set<Path> {
    if n.original.Some? then o.deleted + {Child(n.original.value, name)} else o.deleted
  }

  function DoUnlink(o: Overlay, d: Path, name: Name): Overlay
    requires d in o.nodes
  {
    var marked := o.(deleted := Marked(o, o.nodes[d], name));
    if Child(d, name) !in o.nodes then marked
    else marked.(nodes := Outside(o.nodes, Child(d, name))[d := o.nodes[d].(changed := true)])
  }

  /** memNode.promote: copy a read-only file into a backing file of its own. */
  function Promote(o: Overlay, p: Path): Overlay
    requires p in o.nodes
  {
    var n := o.nodes[p];
    if n.backing.Some? then o
    else
      NewBacking(o, ContentOf(o, n)).(nodes := o.nodes[p := n.(backing := Some(o.nextFree), original := None)])
  }

  function DoWrite(o: Overlay, p: Path, content: Blob): Overlay
    requires p in o.nodes && o.nodes[p].backing.Some?
  {
    o.(store := o.store[o.nodes[p].backing.value := content])
  }

  function DoTruncate(o: Overlay, p: Path, ok: bool, content: Blob): Overlay
    requires p in o.nodes
  {
    var promoted := Promote(o, p);
    if ok then Touch(DoWrite(promoted, p, content), p) else promoted
  }

  function DoChmod(o: Overlay, p: Path, perm: nat): Overlay
    requires p in o.nodes
  {
    o.(nodes := o.nodes[p := o.nodes[p].(perm := perm, changed := true)])
  }

  // Rename.  A subtree that is still backed by the read-only tree is first expanded: every
  // read-only name that has not been deleted is looked up again, replacing whatever node was
  // there, and directories stop following the read-only tree.

  /** `q` is replaced by a fresh node when `src` is expanded. */
  predicate Refreshed(o: Overlay, src: Path, q: Path) {
    Below(src, q) && Shows(o, q)
  }

  /** The node at `q` survives the expansion of `src`: nothing above it was replaced. */
  predicate Kept(o: Overlay, src: Path, q: Path) {
    && Below(src, q) && q in o.nodes && !Refreshed(o, src, q)
    && (q.parent == src || Kept(o, src, q.parent))
  }

  function Detached(n: Node): Node {
    n.(changed := true, original := if n.kind == Directory then None else n.original)
  }

  /** memNode.materialize followed by markChanged on a live directory. */
  function Materialized(o: Overlay, src: Path): map<Path, Node>
    requires src in o.nodes
  {
    map q | q in o.nodes.Keys + o.ro.Keys && (q == src || Refreshed(o, src, q) || Kept(o, src, q)) ::
      Detached(if Refreshed(o, src, q) then FreshNode(o.ro, q) else o.nodes[q])
  }

  /** The subtree that Rename takes along. */
  function Carried(o: Overlay, src: Path): (m: map<Path, Node>)
    requires src in o.nodes
    ensures forall q :: q in m ==> Covers(src, q)
  {
    if o.nodes[src].original.None? then Under(o.nodes, src)
    else if o.nodes[src].kind == Directory then Materialized(o, src)
    else map[src := Detached(o.nodes[src])]
  }

  function DoRename(o: Overlay, d: Path, name: Name, toDir: Path, toName: Name): Overlay
    requires d in o.nodes
  {
    var src, dst := Child(d, name), Child(toDir, toName);
    if src !in o.nodes then o
    else
      var rest := Outside(Outside(o.nodes, src), dst);
      o.(deleted := Marked(o, o.nodes[d], name),
         nodes := (rest + Relocate(Carried(o, src), src, dst))[d := o.nodes[d].(changed := true)])
  }

  // Reset.  Nodes that no longer stand for the read-only path they hang at are cut off,
  // with everything below them; the others get their read-only attributes back.

  predicate Survives(o: Overlay, p: Path) {
    && p in o.nodes && o.nodes[p].backing.None? && o.nodes[p].original == Some(p)
    && (o.nodes[p].changed ==> p in o.ro)
    && (p.Child? ==> Survives(o, p.parent))
  }

  function Restored(ro: Tree, n: Node): Node {
    if n.changed && n.original.Some? && n.original.value in ro then
      n.(perm := FreshNode(ro, n.original.value).perm)
    else n
  }

  function DoReset(o: Overlay): Overlay {
    o.(nodes := map p | p in o.nodes && Survives(o, p) :: Restored(o.ro, o.nodes[p]),
       deleted := {}, store := map[])
  }

  function Step(o: Overlay, op: Op): Overlay
    requires Enabled(o, op)
  {
    match op
    case Lookup(d, n) => DoLookup(o, d, n)
    case Mkdir(d, n, perm) => DoMkdir(o, d, n, perm)
    case Create(d, n, perm) => DoCreate(o, d, n, perm)
    case MakeLink(d, n, target) => DoSymlink(o, d, n, target)
    case Unlink(d, n) => DoUnlink(o, d, n)
    case OpenWrite(p) => Touch(Promote(o, p), p)
    case Write(p, c) => DoWrite(o, p, c)
    case Truncate(p, ok, c) => DoTruncate(o, p, ok, c)
    case Chmod(p, perm) => DoChmod(o, p, perm)
    case Rename(d, n, toDir, toName) => DoRename(o, d, n, toDir, toName)
    case Reset => DoReset(o)
  }

  // ---------------------------------------------------------------- when the kernel issues them

  predicate DirNode(o: Overlay, d: Path) {
    d in o.nodes && o.nodes[d].kind == Directory
  }

  predicate FileNode(o: Overlay, p: Path) {
    p in o.nodes && o.nodes[p].kind == Regular
  }

  /** Neither path is at or below the other. */
  predicate Apart(a: Path, b: Path) {
    !Covers(a, b) && !Covers(b, a)
  }

  /** What the kernel has established before it issues a rename: both parents are directories,
      neither name is inside the other, and nothing is visible below the destination. */
  predicate RenameIssued(o: Overlay, d: Path, name: Name, toDir: Path, toName: Name) {
    && DirNode(o, d) && DirNode(o, toDir) && Apart(Child(d, name), Child(toDir, toName))
    && (forall q :: q in View(o) ==> !Below(Child(toDir, toName), q))
  }

  predicate Enabled(o: Overlay, op: Op) {
    match op
    case Lookup(d, n) => DirNode(o, d)
    case Mkdir(d, n, _) => DirNode(o, d) && Child(d, n) !in View(o)
    case Create(d, n, _) => DirNode(o, d) && Child(d, n) !in View(o)
    case MakeLink(d, n, _) => DirNode(o, d) && Child(d, n) !in View(o)
    case Unlink(d, n) => DirNode(o, d)
    case OpenWrite(p) => FileNode(o, p)
    case Write(p, _) => FileNode(o, p) && o.nodes[p].backing.Some? && o.nodes[p].changed
    case Truncate(p, _, _) => FileNode(o, p)
    case Chmod(p, _) => p in o.nodes
    case Rename(d, n, toDir, toName) => RenameIssued(o, d, n, toDir, toName)
    case Reset => true
  }

  // ---------------------------------------------------------------- the plain file system

  function PlainRename(t: Tree, src: Path, dst: Path): Tree {
    Outside(Outside(t, src), dst) + Relocate(Under(t, src), src, dst)
  }

  /** The same operation on a plain tree; `ro` is what Reset goes back to. */
  function Plain(ro: Tree, t: Tree, op: Op): Tree {
    match op
    case Lookup(_, _) => t
    case Mkdir(d, n, perm) => t[Child(d, n) := Dir(perm)]
    case Create(d, n, perm) => t[Child(d, n) := File(perm, Blob(""))]
    case MakeLink(d, n, target) => t[Child(d, n) := Link(target)]
    case Unlink(d, n) => Outside(t, Child(d, n))
    case OpenWrite(_) => t
    case Write(p, c) => if p in t && t[p].File? then t[p := File(t[p].perm, c)] else t
    case Truncate(p, ok, c) => if ok && p in t && t[p].File? then t[p := File(t[p].perm, c)] else t
    case Chmod(p, perm) => if p in t then t[p := WithPerm(t[p], perm)] else t
    case Rename(d, n, toDir, toName) =>
      if Child(d, n) in t then PlainRename(t, Child(d, n), Child(toDir, toName)) else t
    case Reset => ro
  }
}
