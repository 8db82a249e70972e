/** Whole runs of the mirror machine: what every interleaving guarantees, what it does not, and the
    exact condition in between. */
module MirrorRuns {
  import opened Mirrors
  import opened MirrorProofs

  predicate Legal(s: State, es: seq<Event>)
    decreases |es|
  {
    es == [] || (Enabled(s, es[0]) && Legal(Apply(s, es[0]), es[1..]))
  }

  function Run(s: State, es: seq<Event>): State
    requires Legal(s, es)
    decreases |es|
  {
    if es == [] then s else Run(Apply(s, es[0]), es[1..])
  }

  lemma {:induction false} RunInv(s: State, es: seq<Event>)
    requires Inv(s) && Legal(s, es)
    ensures Inv(Run(s, es))
    decreases |es|
  {
    if es != [] {
      StepInv(s, es[0]);
      RunInv(Apply(s, es[0]), es[1..]);
    }
  }

  lemma InitialInv(reapCount: nat, maxJobs: nat)
    requires reapCount >= 1
    ensures Inv(InitialState(reapCount, maxJobs))
  {
    var s := InitialState(reapCount, maxJobs);
    assert RunningTasks(s) == {};
    forall x ensures HomeOk(s, x) && WaiterOk(s, x) {}
  }

  lemma RunningBound(reapCount: nat, maxJobs: nat, es: seq<Event>)
    requires reapCount >= 1 && Legal(InitialState(reapCount, maxJobs), es)
    ensures |RunningTasks(Run(InitialState(reapCount, maxJobs), es))| <= maxJobs
  {
    InitialInv(reapCount, maxJobs);
    RunInv(InitialState(reapCount, maxJobs), es);
    JobsConstant(InitialState(reapCount, maxJobs), es);
  }

  lemma {:induction false} JobsConstant(s: State, es: seq<Event>)
    requires Legal(s, es)
    ensures Run(s, es).maxJobs == s.maxJobs && Run(s, es).reapCount == s.reapCount
    decreases |es|
  {
    if es != [] {
      JobsConstant(Apply(s, es[0]), es[1..]);
    }
  }

  /** However the steps interleave: no more tasks run than the mirror was granted, no file system
      collects more ids than it may, and none that is marked for reaping has a task running in it. */
  lemma MirrorBounds(reapCount: nat, maxJobs: nat, es: seq<Event>, f: nat)
    requires reapCount >= 1 && Legal(InitialState(reapCount, maxJobs), es)
    requires f in Run(InitialState(reapCount, maxJobs), es).fses
    ensures var s := Run(InitialState(reapCount, maxJobs), es);
      |RunningTasks(s)| <= s.maxJobs && |s.fses[f].taskIds| <= s.reapCount
      && (s.fses[f].reaping ==> s.fses[f].tasks == {})
  {
    InitialInv(reapCount, maxJobs);
    RunInv(InitialState(reapCount, maxJobs), es);
    assert FsOk(Run(InitialState(reapCount, maxJobs), es), f);
  }

  // ---------------------------------------------------------------- every id exactly once

  /** `x` waits in file system `f` to be reported. */
  predicate Pending(s: State, f: nat, x: nat) {
    f in s.fses && !s.fses[f].captured && x in s.fses[f].taskIds
  }

  /** Every accepted id is in one file system or in one report, and nowhere else. */
  ghost predicate ExactlyOnce(s: State) {
    && (forall x :: HasJoined(s, x) ==> (exists f :: Pending(s, f, x)) || (exists t :: ReportsOf(s, t, x)))
    && (forall x, f, g :: Pending(s, f, x) && Pending(s, g, x) ==> f == g)
    && (forall x, t, u :: ReportsOf(s, t, x) && ReportsOf(s, u, x) ==> t == u)
    && (forall x, f, t :: !(Pending(s, f, x) && ReportsOf(s, t, x)))
  }

  lemma ExactInvMeans(s: State)
    requires ExactInv(s)
    ensures ExactlyOnce(s)
  {
    forall x, f | Pending(s, f, x) ensures HomeIs(s, x, InFs(f)) {
      assert FsHome(s, f);
    }
    forall x, t | ReportsOf(s, t, x) ensures HomeIs(s, x, InReport(t)) {
      assert TaskHome(s, t);
    }
    forall x | HasJoined(s, x) ensures (exists f :: Pending(s, f, x)) || (exists t :: ReportsOf(s, t, x)) {
      assert HomeOk(s, x);
      match s.home[x]
      case InFs(f) => assert FsHome(s, f) && Pending(s, f, x);
      case InReport(t) => assert TaskHome(s, t) && ReportsOf(s, t, x);
    }
  }

  lemma LostMeans(s: State)
    requires BaseInv(s) && s.lost != {}
    ensures !ExactlyOnce(s)
  {
    var x :| x in s.lost;
    assert LostOk(s, x) && HasJoined(s, x);
    forall f ensures !Pending(s, f, x) {}
    forall t ensures !ReportsOf(s, t, x) {}
  }

  /** Some step of the run is a return that resets a file system whose ids have not been read. */
  predicate LossyReturn(s: State, es: seq<Event>)
    requires Legal(s, es)
    decreases |es|
  {
    es != [] && ((es[0].Return? && Lossy(s, es[0].task)) || LossyReturn(Apply(s, es[0]), es[1..]))
  }

  lemma StepLost(s: State, e: Event)
    requires Inv(s) && Enabled(s, e)
    ensures Apply(s, e).lost == {} <==> s.lost == {} && !(e.Return? && Lossy(s, e.task))
  {
    if e.Return? && Lossy(s, e.task) {
      LossyLoses(s, e.task);
    }
  }

  lemma {:induction false} RunLost(s: State, es: seq<Event>)
    requires Inv(s) && Legal(s, es)
    ensures Run(s, es).lost == {} <==> s.lost == {} && !LossyReturn(s, es)
    decreases |es|
  {
    if es != [] {
      StepInv(s, es[0]);
      StepLost(s, es[0]);
      RunLost(Apply(s, es[0]), es[1..]);
    }
  }

  /** Every accepted task id is accounted for exactly once, iff no return has reset a file system
      between being marked for reaping and having its ids read. */
  lemma ExactlyOnceIff(reapCount: nat, maxJobs: nat, es: seq<Event>)
    requires reapCount >= 1 && Legal(InitialState(reapCount, maxJobs), es)
    ensures ExactlyOnce(Run(InitialState(reapCount, maxJobs), es)) <==>
            !LossyReturn(InitialState(reapCount, maxJobs), es)
  {
    var s0 := InitialState(reapCount, maxJobs);
    InitialInv(reapCount, maxJobs);
    RunInv(s0, es);
    RunLost(s0, es);
    if Run(s0, es).lost == {} {
      ExactInvMeans(Run(s0, es));
    } else {
      LostMeans(Run(s0, es));
    }
  }

  // ---------------------------------------------------------------- putting runs together

  lemma RunStep(s: State, e: Event, es: seq<Event>)
    requires Enabled(s, e) && Legal(Apply(s, e), es)
    ensures Legal(s, [e] + es) && Run(s, [e] + es) == Run(Apply(s, e), es)
    ensures LossyReturn(s, [e] + es) <==> (e.Return? && Lossy(s, e.task)) || LossyReturn(Apply(s, e), es)
  {
    assert ([e] + es)[1..] == es;
  }

  lemma {:induction false} RunJoin(s: State, es: seq<Event>, fs: seq<Event>)
    requires Legal(s, es) && Legal(Run(s, es), fs)
    ensures Legal(s, es + fs) && Run(s, es + fs) == Run(Run(s, es), fs)
    ensures LossyReturn(s, es) || LossyReturn(Run(s, es), fs) ==> LossyReturn(s, es + fs)
    decreases |es|
  {
    if es == [] {
      assert es + fs == fs;
    } else {
      RunJoin(Apply(s, es[0]), es[1..], fs);
      assert (es + fs)[1..] == es[1..] + fs;
    }
  }
}
