/** rm -r with several targets: one edit list, computed before anything is removed. */
module RemovalSets {
  import opened Paths
  import opened Trees
  import opened FileSets
  import opened Edits
  import opened Masters
  import opened AttrCaches
  import opened Removal

  /** What one target contributes to the edit list: nothing if its parent is missing. */
  datatype Plan = Plan(target: Path, parent: FileAttr, names: seq<Path>)

  ghost predicate Planned(hash: Blob -> string, t: Tree, p: Plan) {
    && p.target.Child?
    && Answers(hash, t, p.target.parent, false, p.parent)
    && Lists(p.names, Subtree(t, p.target))
  }

  function ScriptOf(p: Plan): seq<FileAttr> {
    if Deletion(p.parent) then [] else Script(p.parent, p.names)
  }

  function Scripts(plans: seq<Plan>): seq<FileAttr> {
    if plans == [] then [] else Scripts(plans[..|plans| - 1]) + ScriptOf(plans[|plans| - 1])
  }

  ghost predicate AllPlanned(hash: Blob -> string, t: Tree, todo: seq<Path>, plans: seq<Plan>) {
    |plans| <= |todo| && forall i :: 0 <= i < |plans| ==> plans[i].target == todo[i] && Planned(hash, t, plans[i])
  }

  lemma OneMore(hash: Blob -> string, t: Tree, todo: seq<Path>, plans: seq<Plan>, p: Plan)
    requires AllPlanned(hash, t, todo, plans) && |plans| < |todo| && p.target == todo[|plans|] && Planned(hash, t, p)
    ensures AllPlanned(hash, t, todo, plans + [p])
  {
  }

  lemma ScriptsMore(plans: seq<Plan>, p: Plan)
    ensures Scripts(plans + [p]) == Scripts(plans) + ScriptOf(p)
  {
    assert (plans + [p])[..|plans|] == plans;
  }

  /** What to do about one target. */
  method PlanTarget(cache: AttributeCache, target: Path, ghost t: Tree, ghost stamps: Path -> nat) returns (p: Plan)
    requires target.Child? && WfTree(t) && cache.Reads(t, stamps) && Coherent(cache.hash, t, cache.attributes)
    modifies cache`attributes
    ensures Coherent(cache.hash, t, cache.attributes)
    ensures p.target == target && Planned(cache.hash, t, p)
  {
    var parent := cache.Get(target.parent, false, t, stamps);
    var names := [];
    if Deletion(parent) {
      NothingThere(t, target);
    } else {
      names := RecurseNames(cache, target, t, stamps);
    }
    p := Plan(target, parent, names);
  }

  /** The loop over the targets. */
  method RmScript(cache: AttributeCache, todo: seq<Path>, ghost t: Tree, ghost stamps: Path -> nat)
    returns (fs: seq<FileAttr>, ghost plans: seq<Plan>)
    requires WfTree(t) && cache.Reads(t, stamps) && Coherent(cache.hash, t, cache.attributes)
    requires forall i :: 0 <= i < |todo| ==> todo[i].Child?
    modifies cache`attributes
    ensures Coherent(cache.hash, t, cache.attributes)
    ensures |plans| == |todo| && AllPlanned(cache.hash, t, todo, plans)
    ensures fs == Scripts(plans)
  {
    fs, plans := [], [];
    for i := 0 to |todo|
      invariant Coherent(cache.hash, t, cache.attributes)
      invariant |plans| == i && AllPlanned(cache.hash, t, todo, plans)
      invariant fs == Scripts(plans)
    {
      var p := PlanTarget(cache, todo[i], t, stamps);
      fs := fs + ScriptOf(p);
      OneMore(cache.hash, t, todo, plans, p);
      ScriptsMore(plans, p);
      plans := plans + [p];
    }
  }

  // ---------------------------------------------------------------- what is there, plan by plan

  predicate Hit(plans: seq<Plan>, q: Path) {
    exists i :: 0 <= i < |plans| && Covers(plans[i].target, q)
  }

  /** The tree without the targets' subtrees. */
  function Cut(t: Tree, plans: seq<Plan>): Tree {
    map q | q in t && !Hit(plans, q) :: t[q]
  }

  /** The plan deletes `q`: its target exists, and `q` lies at or below it. */
  predicate Takes(t: Tree, p: Plan, q: Path) {
    p.target in t && Covers(p.target, q)
  }

  /** No later plan puts `q` back as the parent of its own target. */
  predicate Dropped(t: Tree, plans: seq<Plan>, j: nat, q: Path) {
    && j < |plans|
    && Takes(t, plans[j], q)
    && forall k :: j < k < |plans| ==> plans[k].target.Child? && plans[k].target.parent != q
  }

  predicate Gone(t: Tree, plans: seq<Plan>, q: Path) {
    exists j :: 0 <= j < |plans| && Dropped(t, plans, j, q)
  }

  /** The tree once the plans have been carried out. */
  function Left(t: Tree, plans: seq<Plan>): Tree {
    map q | q in t && !Gone(t, plans, q) :: t[q]
  }

  lemma GoneSnoc(t: Tree, plans: seq<Plan>, p: Plan, q: Path)
    requires p.target.Child?
    ensures Gone(t, plans + [p], q) <==> Takes(t, p, q) || (Gone(t, plans, q) && p.target.parent != q)
  {
    var more := plans + [p];
    assert more[|plans|] == p && forall k :: 0 <= k < |plans| ==> more[k] == plans[k];
    if Takes(t, p, q) {
      assert Dropped(t, more, |plans|, q);
    }
    if Gone(t, plans, q) && p.target.parent != q {
      var j :| 0 <= j < |plans| && Dropped(t, plans, j, q);
      assert Dropped(t, more, j, q);
    }
    if Gone(t, more, q) && !Takes(t, p, q) {
      var j :| 0 <= j < |more| && Dropped(t, more, j, q);
      assert Dropped(t, plans, j, q);
    }
  }

  /** What a plan needs of the plans before it: everything it deletes is still there, and the parent it
      puts back is there or can be made. */
  predicate Possible(t: Tree, before: seq<Plan>, p: Plan) {
    && p.target.Child?
    && (forall q :: q in t && Takes(t, p, q) ==> !Gone(t, before, q))
    && var d := p.target.parent;
       d in t && Gone(t, before, d) ==> d.Child? && !Gone(t, before, d.parent)
  }

  predicate AllPossible(t: Tree, plans: seq<Plan>) {
    forall i :: 0 <= i < |plans| ==> Possible(t, plans[..i], plans[i])
  }

  /** Nothing that should go has been put back. */
  predicate NothingBack(t: Tree, plans: seq<Plan>) {
    forall q :: q in t && Hit(plans, q) ==> Gone(t, plans, q)
  }

  lemma {:induction false} ReplayableConcat(k: Shape, a: seq<FileAttr>, b: seq<FileAttr>)
    ensures EditAll(k, a + b) == EditAll(EditAll(k, a), b)
    ensures Replayable(k, a + b) <==> Replayable(k, a) && Replayable(EditAll(k, a), b)
    decreases |a|
  {
    if a == [] {
      assert a + b == b;
    } else {
      assert (a + b)[1..] == a[1..] + b;
      ReplayableConcat(Edit(k, a[0]), a[1..], b);
    }
  }

  /** Putting the parent back works if it is there or if its own parent is. */
  lemma PutParent(t: Tree, present: Tree, f: FileAttr)
    requires WfTree(t) && WfTree(present) && f.path in t && f.attr.Some? && KindAfter(f) == KindOf(t[f.path])
    requires forall q :: q in present ==> q in t && present[q] == t[q]
    ensures StepOk(ShapeOf(present), f) <==> f.path in present || (f.path.Child? && f.path.parent in present)
    ensures Edit(ShapeOf(present), f) == ShapeOf(present[f.path := t[f.path]])
    ensures StepOk(ShapeOf(present), f) ==> WfTree(present[f.path := t[f.path]])
  {
    var k := ShapeOf(present);
    assert f.path.Child? && f.path.parent in present ==> DirAt(k, f.path.parent) by {
      assert f.path.Child? ==> IsDirIn(t, f.path.parent);
    }
    assert f.path in present && f.path.Child? ==> DirAt(k, f.path.parent);
  }

  /** The deletions go through exactly when all they delete is there. */
  lemma DeletionsIff(t: Tree, present: Tree, target: Path, names: seq<Path>)
    requires WfTree(t) && target.Child? && Lists(names, Subtree(t, target))
    requires forall q :: q in present ==> q in t && present[q] == t[q]
    ensures Replayable(ShapeOf(present), Deletions(names)) <==> forall q :: q in names ==> q in present
    ensures (forall q :: q in names ==> q in present) ==>
      EditAll(ShapeOf(present), Deletions(names)) == ShapeOf(map q | q in present && q !in names :: present[q])
  {
    var k := ShapeOf(present);
    if Replayable(k, Deletions(names)) {
      forall q | q in names
        ensures q in present
      {
        DeletedExist(k, names, q);
      }
    }
    if forall q :: q in names ==> q in present {
      ListedClosed(t, target, names);
      assert Removable(k, names);
      DeletionsReplay(k, names);
    }
  }

  lemma LeftStep(t: Tree, before: seq<Plan>, p: Plan)
    requires p.target.Child? && p.target.parent in t
    ensures Left(t, before + [p])
         == map q | q in Left(t, before)[p.target.parent := t[p.target.parent]] && !Takes(t, p, q) :: t[q]
  {
    forall q
      ensures Gone(t, before + [p], q) <==> Takes(t, p, q) || (Gone(t, before, q) && p.target.parent != q)
    {
      GoneSnoc(t, before, p, q);
    }
    ParentNotCovered(p.target);
  }

  lemma LeftSame(t: Tree, before: seq<Plan>, p: Plan)
    requires WfTree(t) && p.target.Child? && p.target.parent !in t
    ensures Possible(t, before, p) && Left(t, before + [p]) == Left(t, before)
  {
    assert p.target !in t;
    forall q | q in t
      ensures Gone(t, before + [p], q) <==> Gone(t, before, q)
    {
      GoneSnoc(t, before, p, q);
    }
  }

  lemma WithoutSubtreeWf(t: Tree, target: Path)
    requires WfTree(t) && target.Child?
    ensures WfTree(map q | q in t && !Covers(target, q) :: t[q])
  {
    assert !Covers(target, Root);
    forall q | q in t && q.Child? && !Covers(target, q)
      ensures !Covers(target, q.parent)
    {
      if Covers(target, q.parent) {
        CoversTransitive(target, q.parent, q);
      }
    }
  }

  lemma NamesTaken(t: Tree, p: Plan)
    requires WfTree(t) && Lists(p.names, Subtree(t, p.target))
    ensures forall q :: q in p.names <==> q in t && Takes(t, p, q)
  {
    forall q
      ensures q in p.names <==> q in t && Takes(t, p, q)
    {
      assert q in p.names <==> q in Subtree(t, p.target);
      if q in t && Covers(p.target, q) {
        CoveredExists(t, p.target, q);
      }
    }
  }

  lemma {:induction false} CoveredExists(t: Tree, a: Path, q: Path)
    requires WfTree(t) && q in t && Covers(a, q)
    ensures a in t
    decreases q
  {
    if a != q {
      CoveredExists(t, a, q.parent);
    }
  }

  /** One plan, after others. */
  lemma PlanStep(hash: Blob -> string, t: Tree, before: seq<Plan>, p: Plan)
    requires WfTree(t) && Planned(hash, t, p) && WfTree(Left(t, before))
    ensures Replayable(ShapeOf(Left(t, before)), ScriptOf(p)) <==> Possible(t, before, p)
    ensures Possible(t, before, p) ==>
      && EditAll(ShapeOf(Left(t, before)), ScriptOf(p)) == ShapeOf(Left(t, before + [p]))
      && WfTree(Left(t, before + [p]))
  {
    var present, d := Left(t, before), p.target.parent;
    if d !in t {
      LeftSame(t, before, p);
    } else {
      var k, fs, back := ShapeOf(present), ScriptOf(p), present[d := t[d]];
      assert fs[0] == p.parent && fs[1..] == Deletions(p.names);
      PutParent(t, present, p.parent);
      DeletionsIff(t, back, p.target, p.names);
      NamesTaken(t, p);
      ParentNotCovered(p.target);
      LeftStep(t, before, p);
      if Possible(t, before, p) {
        WithoutSubtreeWf(back, p.target);
        assert Left(t, before + [p]) == map q | q in back && !Covers(p.target, q) :: back[q];
      }
    }
  }

  lemma AllPossibleSnoc(t: Tree, most: seq<Plan>, p: Plan)
    ensures AllPossible(t, most + [p]) <==> AllPossible(t, most) && Possible(t, most, p)
  {
    var plans := most + [p];
    assert forall i :: 0 <= i < |most| ==> most[..i] == plans[..i] && most[i] == plans[i];
    assert plans[..|most|] == most && plans[|most|] == p;
  }

  ghost predicate EachPlanned(hash: Blob -> string, t: Tree, plans: seq<Plan>) {
    forall i :: 0 <= i < |plans| ==> Planned(hash, t, plans[i])
  }

  ghost predicate Replays(t: Tree, plans: seq<Plan>, k: Shape, fs: seq<FileAttr>) {
    && (Replayable(k, fs) <==> AllPossible(t, plans))
    && (AllPossible(t, plans) ==> EditAll(k, fs) == ShapeOf(Left(t, plans)) && WfTree(Left(t, plans)))
  }

  lemma ReplaysNone(t: Tree, plans: seq<Plan>)
    requires WfTree(t) && plans == []
    ensures Replays(t, plans, ShapeOf(t), [])
  {
    assert Left(t, plans) == t;
  }

  lemma ReplaySnoc(hash: Blob -> string, t: Tree, most: seq<Plan>, p: Plan, k: Shape, fs: seq<FileAttr>)
    requires WfTree(t) && Planned(hash, t, p) && Replays(t, most, k, fs)
    ensures Replays(t, most + [p], k, fs + ScriptOf(p))
  {
    ReplayableConcat(k, fs, ScriptOf(p));
    AllPossibleSnoc(t, most, p);
    if AllPossible(t, most) {
      PlanStep(hash, t, most, p);
    }
  }

  /** The whole list, whatever the targets: the replay goes through exactly if each plan is possible
      when its turn comes, and it leaves what no plan has taken for good. */
  lemma {:induction false} RemovalReplay(hash: Blob -> string, t: Tree, plans: seq<Plan>)
    requires WfTree(t) && EachPlanned(hash, t, plans)
    ensures Replays(t, plans, ShapeOf(t), Scripts(plans))
    decreases |plans|
  {
    if plans == [] {
      ReplaysNone(t, plans);
    } else {
      var most, p := plans[..|plans| - 1], plans[|plans| - 1];
      RemovalReplay(hash, t, most);
      ReplaySnoc(hash, t, most, p, ShapeOf(t), Scripts(most));
      assert most + [p] == plans;
    }
  }

  lemma GoneIsHit(t: Tree, plans: seq<Plan>, q: Path)
    requires Gone(t, plans, q)
    ensures Hit(plans, q)
  {
    var j :| 0 <= j < |plans| && Dropped(t, plans, j, q);
    assert Covers(plans[j].target, q);
  }

  /** rm -r does what it is for, with any list of targets, if and only if each plan is possible and
      nothing has been put back. */
  lemma RemovalWorksIff(hash: Blob -> string, t: Tree, plans: seq<Plan>)
    requires WfTree(t) && EachPlanned(hash, t, plans)
    ensures Replayable(ShapeOf(t), Scripts(plans)) <==> AllPossible(t, plans)
    ensures (Replayable(ShapeOf(t), Scripts(plans)) && EditAll(ShapeOf(t), Scripts(plans)) == ShapeOf(Cut(t, plans)))
       <==> AllPossible(t, plans) && NothingBack(t, plans)
  {
    RemovalReplay(hash, t, plans);
    forall q | q in t && Gone(t, plans, q)
      ensures Hit(plans, q)
    {
      GoneIsHit(t, plans, q);
    }
    var left, cut := Left(t, plans), Cut(t, plans);
    if NothingBack(t, plans) {
      assert left == cut;
    }
    if ShapeOf(left) == ShapeOf(cut) {
      assert forall q :: q in left <==> q in ShapeOf(left);
      assert forall q :: q in cut <==> q in ShapeOf(cut);
      assert forall q :: q in t ==> (q in left <==> q in cut);
    }
  }

  // ---------------------------------------------------------------- the two ways to fail

  predicate Overlap(a: Path, b: Path) {
    Covers(a, b) || Covers(b, a)
  }

  /** No two existing targets overlap. */
  predicate Apart(t: Tree, plans: seq<Plan>) {
    forall i, j :: 0 <= i < j < |plans| && plans[i].target in t && plans[j].target in t ==>
      !Overlap(plans[i].target, plans[j].target)
  }

  /** No missing target in an existing directory comes after an existing target at or above that
      directory. */
  predicate NoneRevived(t: Tree, plans: seq<Plan>) {
    forall i, j :: 0 <= i < j < |plans| && Revives(t, plans[j]) ==> !Takes(t, plans[i], plans[j].target.parent)
  }

  predicate Revives(t: Tree, p: Plan) {
    p.target.Child? && p.target !in t && p.target.parent in t
  }

  lemma BothTaken(t: Tree, a: Plan, b: Plan, q: Path)
    requires Takes(t, a, q) && Takes(t, b, q)
    ensures Overlap(a.target, b.target)
  {
    AncestorsChain(a.target, b.target, q);
  }

  /** Under both conditions no later plan comes near what an earlier one takes. */
  lemma LeftAlone(t: Tree, plans: seq<Plan>, i: nat, j: nat, q: Path)
    requires i < j < |plans| && Apart(t, plans) && NoneRevived(t, plans)
    requires q in t && Takes(t, plans[i], q) && plans[j].target.Child?
    ensures !Takes(t, plans[j], q) && plans[j].target.parent != q
  {
    if Takes(t, plans[j], q) {
      BothTaken(t, plans[i], plans[j], q);
    }
    if plans[j].target.parent == q {
      assert plans[j].target in t by {
        assert !Revives(t, plans[j]);
      }
      CoversTransitive(plans[i].target, q, plans[j].target);
    }
  }

  lemma BothWork(t: Tree, plans: seq<Plan>)
    requires WfTree(t) && Apart(t, plans) && NoneRevived(t, plans)
    requires forall i :: 0 <= i < |plans| ==> plans[i].target.Child?
    ensures AllPossible(t, plans) && NothingBack(t, plans)
  {
    forall j | 0 <= j < |plans|
      ensures Possible(t, plans[..j], plans[j])
    {
      forall q | q in t && Gone(t, plans[..j], q)
        ensures !Takes(t, plans[j], q) && plans[j].target.parent != q
      {
        var i :| 0 <= i < j && Dropped(t, plans[..j], i, q);
        LeftAlone(t, plans, i, j, q);
      }
    }
    forall q | q in t && Hit(plans, q)
      ensures Gone(t, plans, q)
    {
      var i :| 0 <= i < |plans| && Covers(plans[i].target, q);
      CoveredExists(t, plans[i].target, q);
      forall k | i < k < |plans|
        ensures plans[k].target.parent != q
      {
        LeftAlone(t, plans, i, k, q);
      }
      assert Dropped(t, plans, i, q);
    }
  }

  /** Something taken again has been put back in between. */
  lemma PutBetween(t: Tree, plans: seq<Plan>, i: nat, j: nat, q: Path) returns (k: nat)
    requires AllPossible(t, plans) && i < j < |plans| && q in t && Takes(t, plans[i], q) && Takes(t, plans[j], q)
    ensures i < k < j && plans[k].target.Child? && plans[k].target.parent == q
  {
    assert Possible(t, plans[..j], plans[j]);
    assert !Dropped(t, plans[..j], i, q);
    assert forall k :: 0 <= k < j ==> Possible(t, plans[..k], plans[k]);
    k :| i < k < j && plans[k].target.parent == q;
  }

  lemma {:induction false} TakenOnce(t: Tree, plans: seq<Plan>, i: nat, j: nat, q: Path)
    requires AllPossible(t, plans) && NoneRevived(t, plans) && i < j < |plans|
    requires q in t && Takes(t, plans[i], q)
    ensures !Takes(t, plans[j], q)
    decreases j
  {
    if Takes(t, plans[j], q) {
      var k := PutBetween(t, plans, i, j, q);
      var next := plans[k].target;
      assert !Revives(t, plans[k]);
      CoversTransitive(plans[i].target, q, next);
      TakenOnce(t, plans, i, k, next);
    }
  }

  lemma ApartNeeded(t: Tree, plans: seq<Plan>)
    requires AllPossible(t, plans) && NoneRevived(t, plans)
    ensures Apart(t, plans)
  {
    forall i, j | 0 <= i < j < |plans| && plans[i].target in t && plans[j].target in t
      ensures !Overlap(plans[i].target, plans[j].target)
    {
      var q := if Covers(plans[i].target, plans[j].target) then plans[j].target else plans[i].target;
      assert Covers(plans[i].target, q) && Covers(q, q);
      TakenOnce(t, plans, i, j, q);
    }
  }

  lemma NoneRevivedNeeded(t: Tree, plans: seq<Plan>)
    requires NothingBack(t, plans) && Apart(t, plans)
    ensures NoneRevived(t, plans)
  {
    forall i, j | 0 <= i < j < |plans| && Revives(t, plans[j])
      ensures !Takes(t, plans[i], plans[j].target.parent)
    {
      var d := plans[j].target.parent;
      if Takes(t, plans[i], d) {
        assert Hit(plans, d);
        var m :| 0 <= m < |plans| && Dropped(t, plans, m, d);
        assert m != j;
        BothTaken(t, plans[i], plans[m], d);
      }
    }
  }

  /** Each way to fail on its own: without one of them, rm -r works exactly if the other is absent too. */
  lemma OneWayLeft(t: Tree, plans: seq<Plan>)
    requires WfTree(t) && forall i :: 0 <= i < |plans| ==> plans[i].target.Child?
    requires Apart(t, plans) || NoneRevived(t, plans)
    ensures AllPossible(t, plans) && NothingBack(t, plans) <==> Apart(t, plans) && NoneRevived(t, plans)
  {
    if Apart(t, plans) && NoneRevived(t, plans) {
      BothWork(t, plans);
    } else if AllPossible(t, plans) && NothingBack(t, plans) {
      if NoneRevived(t, plans) {
        ApartNeeded(t, plans);
      } else {
        NoneRevivedNeeded(t, plans);
      }
    }
  }

  function PlanFor(parent: Path, n: Name, names: seq<Path>): Plan {
    Plan(Child(parent, n), FileAttr(parent, Some(Attr(Directory, 0, 0)), "", "", None), names)
  }

  /** A directory a, holding nothing but an empty directory b if there is one. */
  function Dirs(withB: bool): Tree {
    var a := Child(Root, "a");
    if withB then map[Root := Dir(0), a := Dir(0), Child(a, "b") := Dir(0)] else map[Root := Dir(0), a := Dir(0)]
  }

  lemma PlannedA(hash: Blob -> string, withB: bool)
    ensures WfTree(Dirs(withB))
    ensures var a := Child(Root, "a");
      Planned(hash, Dirs(withB), PlanFor(Root, "a", if withB then [Child(a, "b"), a] else [a]))
  {
    var a := Child(Root, "a");
    var t, b := Dirs(withB), Child(a, "b");
    assert Covers(a, b) && Covers(a, a) && !Covers(a, Root);
    assert Subtree(t, a) == if withB then {b, a} else {a};
    NotBelowItself(a);
    assert !Below(b, a) by {
      ParentNotCovered(b);
    }
    assert Lists(if withB then [b, a] else [a], Subtree(t, a));
  }

  lemma PlannedMissing(hash: Blob -> string, withB: bool)
    ensures var a := Child(Root, "a");
      && Planned(hash, Dirs(withB), PlanFor(a, "x", []))
      && (withB ==> Planned(hash, Dirs(withB), PlanFor(Child(a, "b"), "x", [])))
  {
    var a := Child(Root, "a");
    assert Subtree(Dirs(withB), Child(a, "x")) == {};
    assert withB ==> Subtree(Dirs(withB), Child(Child(a, "b"), "x")) == {};
  }

  /** A missing target puts its directory back: rm -r a a/x leaves a, empty, when there is no a/x. */
  lemma RemovalUndone(hash: Blob -> string)
    ensures var a, t := Child(Root, "a"), Dirs(false);
      var plans := [PlanFor(Root, "a", [a]), PlanFor(a, "x", [])];
      WfTree(t) && EachPlanned(hash, t, plans) && AllPossible(t, plans) && !NothingBack(t, plans) && Apart(t, plans)
  {
    var a, t := Child(Root, "a"), Dirs(false);
    var plans := [PlanFor(Root, "a", [a]), PlanFor(a, "x", [])];
    PlannedA(hash, false);
    PlannedMissing(hash, false);
    assert plans[..1] == [plans[0]] && plans[..0] == [];
    GoneSnoc(t, [plans[0]], plans[1], a);
    assert Hit(plans, a) by {
      assert Covers(plans[0].target, a);
    }
    assert plans == [plans[0]] + [plans[1]];
    assert !Gone(t, plans, a);
    assert !Gone(t, [plans[0]], Root);
  }

  /** It cannot if that directory's own parent is gone: rm -r a a/b/x is fatal when there is an a/b
      but no a/b/x. */
  lemma RemovalFatal(hash: Blob -> string)
    ensures var a, t := Child(Root, "a"), Dirs(true);
      var plans := [PlanFor(Root, "a", [Child(a, "b"), a]), PlanFor(Child(a, "b"), "x", [])];
      WfTree(t) && EachPlanned(hash, t, plans) && !AllPossible(t, plans) && Apart(t, plans)
  {
    var a, t := Child(Root, "a"), Dirs(true);
    var b := Child(a, "b");
    var plans := [PlanFor(Root, "a", [b, a]), PlanFor(b, "x", [])];
    PlannedA(hash, true);
    PlannedMissing(hash, true);
    assert plans[..1] == [plans[0]];
    assert Covers(a, b) && Covers(a, a);
    assert Dropped(t, [plans[0]], 0, b) && Dropped(t, [plans[0]], 0, a);
    assert !Possible(t, plans[..1], plans[1]);
  }

  /** The two ways to fail can make up for each other: rm -r a a/x a works, since a is put back in time
      to be removed again. */
  lemma RemovedAgain(hash: Blob -> string)
    ensures var a, t := Child(Root, "a"), Dirs(false);
      var plans := [PlanFor(Root, "a", [a]), PlanFor(a, "x", []), PlanFor(Root, "a", [a])];
      && WfTree(t) && EachPlanned(hash, t, plans) && AllPossible(t, plans) && NothingBack(t, plans)
      && !Apart(t, plans) && !NoneRevived(t, plans)
  {
    var a, t := Child(Root, "a"), Dirs(false);
    var plans := [PlanFor(Root, "a", [a]), PlanFor(a, "x", []), PlanFor(Root, "a", [a])];
    PlannedA(hash, false);
    PlannedMissing(hash, false);
    AgainPossible(t, plans);
    assert Dropped(t, plans, 2, a);
    assert !Hit(plans, Root);
    assert Overlap(plans[0].target, plans[2].target);
    assert Revives(t, plans[1]) && Takes(t, plans[0], plans[1].target.parent);
  }

  lemma AgainPossible(t: Tree, plans: seq<Plan>)
    requires var a := Child(Root, "a");
      t == Dirs(false) && plans == [PlanFor(Root, "a", [a]), PlanFor(a, "x", []), PlanFor(Root, "a", [a])]
    ensures AllPossible(t, plans)
  {
    var a := Child(Root, "a");
    var one, two := [plans[0]], [plans[0], plans[1]];
    assert plans[..0] == [] && plans[..1] == one && plans[..2] == two;
    assert two == one + [plans[1]];
    GoneSnoc(t, one, plans[1], a);
    assert Covers(a, a) && !Covers(a, Root);
    assert !Gone(t, one, Root) && !Gone(t, two, Root) && !Gone(t, two, a);
  }
}
