/** When a worker panics. */
module WorkerLife {
  import opened Jobs
  import opened Runs
  import opened Workers
  import opened WorkerSafety

  // ---------------------------------------------------------------- nobody shares

  /** Whoever has left a file system is alone with it. */
  ghost predicate LeftOk(s: State, t: nat)
    requires t in s.tasks
  {
    s.tasks[t].Left? ==>
      && FsAt(s, s.tasks[t].mirror, s.tasks[t].fs) && s.mirrors[s.tasks[t].mirror].fses[s.tasks[t].fs].reaping
      && forall u :: u in s.tasks && s.tasks[u] == s.tasks[t] ==> u == t
  }

  /** Whoever is in a file system is counted. */
  predicate InsideOk(s: State, t: nat)
    requires t in s.tasks
  {
    s.tasks[t].Inside? ==> s.tasks[t].mirror in s.mirrors && s.tasks[t].fs in s.mirrors[s.tasks[t].mirror].active
  }

  ghost predicate Alone(s: State) {
    forall t :: t in s.tasks ==> LeftOk(s, t) && InsideOk(s, t)
  }

  predicate Small(s: State) {
    s.reapCount == 1 || s.jobs <= 1
  }

  lemma SetOfOne(a: set<nat>, t: nat)
    requires t in a && |a| <= 1
    ensures a == {t}
  {
    if u :| u in a && u != t {
      SubsetSize({t, u}, a);
    }
  }

  /** A task in a file system has it to itself. */
  lemma InsideAlone(s: State, t: nat)
    requires Inv(s) && Alone(s) && Small(s) && t in s.tasks && s.tasks[t].Inside?
    ensures FsAt(s, s.tasks[t].mirror, s.tasks[t].fs)
    ensures s.mirrors[s.tasks[t].mirror].fses[s.tasks[t].fs].tasks == {t}
  {
    var m, f := s.tasks[t].mirror, s.tasks[t].fs;
    assert TaskOk(s, t) && MirrorOk(s, m) && FsOk(s, m, f) && InFs(s, t, m, f);
    var here := s.mirrors[m].fses[f].tasks;
    if s.jobs <= 1 {
      assert InsideOk(s, t);
      SubsetSize(here, Counted(s, m));
    }
    SetOfOne(here, t);
  }

  lemma NotFatal(s: State, e: Event)
    requires Inv(s) && Alone(s) && Enabled(s, e) && !(e.Shutdown? && e.aggressive)
    ensures !Fatal(s, e)
  {
    if e.Return? {
      var m, f := s.tasks[e.task].mirror, s.tasks[e.task].fs;
      assert LeftOk(s, e.task) && MirrorOk(s, m) && FsOk(s, m, f);
      forall u | u in s.tasks
        ensures s.tasks[u] != Inside(m, f, Executing)
      {
        assert !InFs(s, u, m, f);
      }
    }
  }

  lemma LeaveTask(s: State, t: nat, u: nat)
    requires Inv(s) && Alone(s) && Small(s) && At(s, t, {Ended}) && u in s.tasks
    ensures LeftOk(Leaves(s, t), u) && InsideOk(Leaves(s, t), u)
  {
    var m, f := s.tasks[t].mirror, s.tasks[t].fs;
    InsideAlone(s, t);
    assert FsOk(s, m, f) by {
      assert MirrorOk(s, m);
    }
    assert LeftOk(s, u) && InsideOk(s, u);
    forall v | v in s.tasks
      ensures s.tasks[v] != Left(m, f)
    {
      assert LeftOk(s, v);
    }
  }

  lemma ReturnTask(s: State, t: nat, u: nat)
    requires Inv(s) && Alone(s) && Enabled(s, Return(t)) && u in s.tasks
    ensures LeftOk(Returned(s, t), u) && InsideOk(Returned(s, t), u)
  {
    var m, f := s.tasks[t].mirror, s.tasks[t].fs;
    assert LeftOk(s, t) && LeftOk(s, u) && InsideOk(s, u);
    assert FsOk(s, m, f) by {
      assert MirrorOk(s, m);
    }
    assert !InFs(s, u, m, f);
  }

  lemma JoinTask(s: State, t: nat, m: nat, f: nat, u: nat)
    requires Inv(s) && Alone(s) && Enabled(s, Join(t, m, f)) && (u == t || u in s.tasks)
    ensures LeftOk(Joined(s, t, m, f), u) && InsideOk(Joined(s, t, m, f), u)
  {
    if u != t {
      assert LeftOk(s, u) && InsideOk(s, u);
    }
  }

  lemma StageTask(s: State, t: nat, stage: Stage, u: nat)
    requires Alone(s) && t in s.tasks && s.tasks[t].Inside? && u in s.tasks
    ensures LeftOk(Staged(s, t, stage), u) && InsideOk(Staged(s, t, stage), u)
  {
    assert LeftOk(s, u) && InsideOk(s, u);
  }

  lemma ShutdownTask(s: State, m: nat, u: nat)
    requires Inv(s) && Alone(s) && m in s.mirrors && u in s.tasks
    ensures LeftOk(ShutDown(s, m), u) && InsideOk(ShutDown(s, m), u)
  {
    assert LeftOk(s, u) && InsideOk(s, u) && TaskOk(s, u);
    if s.tasks[u].Inside? && s.tasks[u].mirror == m {
      assert MirrorOk(s, m) && FsOk(s, m, s.tasks[u].fs) && InFs(s, u, m, s.tasks[u].fs);
    }
  }

  /** The tasks, and the file systems of the mirrors there were, are the same. */
  lemma AsideTask(s: State, s': State, u: nat)
    requires Alone(s) && s'.tasks == s.tasks && u in s.tasks
    requires forall m :: m in s.mirrors ==>
      m in s'.mirrors && s'.mirrors[m].fses == s.mirrors[m].fses && s'.mirrors[m].active == s.mirrors[m].active
    ensures LeftOk(s', u) && InsideOk(s', u)
  {
    assert LeftOk(s, u) && InsideOk(s, u);
  }

  lemma AsideStep(s: State, e: Event)
    requires Enabled(s, e) && !Fatal(s, e)
    requires e.Admit? || e.Get? || e.Drop? || e.Refuse? || e.List? || e.Empty?
    ensures Apply(s, e).tasks == s.tasks
    ensures forall m :: m in s.mirrors ==>
      && m in Apply(s, e).mirrors && Apply(s, e).mirrors[m].fses == s.mirrors[m].fses
      && Apply(s, e).mirrors[m].active == s.mirrors[m].active
  {
  }

  lemma StepTask(s: State, e: Event, u: nat)
    requires Inv(s) && Alone(s) && Small(s) && Enabled(s, e) && !Fatal(s, e) && u in Apply(s, e).tasks
    ensures LeftOk(Apply(s, e), u) && InsideOk(Apply(s, e), u)
  {
    match e
    case Join(t, m, f) => JoinTask(s, t, m, f, u);
    case Prepare(t) => StageTask(s, t, Prepared, u);
    case Execute(t) => StageTask(s, t, Executing, u);
    case End(t) => StageTask(s, t, Ended, u);
    case Leave(t) => LeaveTask(s, t, u);
    case Return(t) => ReturnTask(s, t, u);
    case Shutdown(m, _) => ShutdownTask(s, m, u);
    case _ =>
      AsideStep(s, e);
      AsideTask(s, Apply(s, e), u);
  }

  /** `gentle`: no mirror is shut down aggressively, as it is when its connection breaks. */
  ghost function LifeSteps(gentle: bool): (State, Event, State) -> bool {
    (s, e, s') => Next(s, e, s') && (gentle ==> !(e.Shutdown? && e.aggressive))
  }

  lemma StepLives(s: State, e: Event)
    requires Inv(s) && Alone(s) && Small(s) && Enabled(s, e) && !(e.Shutdown? && e.aggressive)
    ensures Inv(Apply(s, e)) && Alone(Apply(s, e)) && !Apply(s, e).dead
  {
    NotFatal(s, e);
    StepInv(s, e);
    AliveStays(s, e);
    forall u | u in Apply(s, e).tasks
      ensures LeftOk(Apply(s, e), u) && InsideOk(Apply(s, e), u)
    {
      StepTask(s, e, u);
    }
  }

  lemma AliveStays(s: State, e: Event)
    requires Enabled(s, e)
    ensures Apply(s, e).dead <==> Fatal(s, e)
  {
  }

  lemma SmallLives(jobs: nat, reapCount: nat, es: seq<Event>, ss: seq<State>)
    requires reapCount == 1 || (jobs <= 1 && reapCount >= 1)
    requires IsPath(LifeSteps(true), es, ss) && ss[0] == InitialState(jobs, reapCount)
    ensures !ss[|es|].dead
  {
    InitialInv(jobs, reapCount);
    var inv: State -> bool := s => Inv(s) && Alone(s) && Small(s) && !s.dead;
    forall s, e, s' | inv(s) && LifeSteps(true)(s, e, s')
      ensures inv(s')
    {
      StepLives(s, e);
      SizesKept(s, e);
    }
    Kept(LifeSteps(true), inv, es, ss, |es|);
  }

  lemma IdleLives(jobs: nat, reapCount: nat, gentle: bool, es: seq<Event>, ss: seq<State>)
    requires jobs == 0 && reapCount >= 1
    requires IsPath(LifeSteps(gentle), es, ss) && ss[0] == InitialState(jobs, reapCount)
    ensures !ss[|es|].dead
  {
    InitialInv(jobs, reapCount);
    var inv: State -> bool := s => Inv(s) && s.jobs == 0 && !s.dead;
    forall s, e, s' | inv(s) && LifeSteps(gentle)(s, e, s')
      ensures inv(s')
    {
      MirrorsNeedJobs(s);
      StepInv(s, e);
      AliveStays(s, e);
      SizesKept(s, e);
    }
    Kept(LifeSteps(gentle), inv, es, ss, |es|);
  }

  // ---------------------------------------------------------------- how it dies

  /** One mirror, with one file system. */
  function Sole(jobs: nat, reapCount: nat, granted: nat, accepting: bool, fs: Fs, tasks: map<nat, Task>): State {
    State(jobs, reapCount, true, false, {}, map[], map["a" := 0],
          map[0 := Mirror("a", granted, accepting, false, map[0 := fs], {0})], tasks)
  }

  function NewMirror(jobs: nat, reapCount: nat, granted: nat): State {
    State(jobs, reapCount, true, false, {}, map[], map["a" := 0],
          map[0 := Mirror("a", granted, true, false, map[], {})], map[])
  }

  lemma FirstMirror(jobs: nat, reapCount: nat, granted: nat, gentle: bool) returns (es: seq<Event>, ss: seq<State>)
    requires 0 < granted <= jobs
    ensures Leads(LifeSteps(gentle), es, ss, InitialState(jobs, reapCount), NewMirror(jobs, reapCount, granted))
  {
    var s0 := InitialState(jobs, reapCount);
    var s1 := s0.(calls := {0});
    assert s0.calls + {0} == {0} && s1.calls - {0} == {};
    AdmitStep(s0, 0, s1);
    assert Grants(s1) == map[];
    es, ss := Stay(LifeSteps(gentle), s0);
    es, ss := Then(LifeSteps(gentle), es, ss, s0, s0, Admit(0), s1);
    es, ss := Then(LifeSteps(gentle), es, ss, s0, s1, Get(0, "a", granted, 0), NewMirror(jobs, reapCount, granted));
  }

  function OneJoined(jobs: nat, reapCount: nat, granted: nat): State {
    Sole(jobs, reapCount, granted, true, Fs({0}, 1, false), map[0 := Inside(0, 0, Waiting)])
  }

  lemma FirstJoins(jobs: nat, reapCount: nat, granted: nat)
    requires granted > 0
    ensures Next(NewMirror(jobs, reapCount, granted), Join(0, 0, 0), OneJoined(jobs, reapCount, granted))
  {
    var s, t := NewMirror(jobs, reapCount, granted), OneJoined(jobs, reapCount, granted);
    assert Counted(s, 0) == {};
    var s' := Joined(s, 0, 0, 0);
    assert s'.mirrors[0].fses == t.mirrors[0].fses by {
      assert {} + {0} == {0};
    }
    assert s'.mirrors[0].active == t.mirrors[0].active;
    assert s'.mirrors == t.mirrors && s'.tasks == t.tasks;
  }

  /** The connection breaks when a task has joined a file system and has no command yet: killing that
      command is a panic. */
  lemma KilledTooEarly(jobs: nat, reapCount: nat) returns (es: seq<Event>, ss: seq<State>, s: State)
    requires jobs >= 1
    ensures Leads(LifeSteps(false), es, ss, InitialState(jobs, reapCount), s) && s.dead
  {
    var s0, s1, s2 := InitialState(jobs, reapCount), NewMirror(jobs, reapCount, 1), OneJoined(jobs, reapCount, 1);
    es, ss := FirstMirror(jobs, reapCount, 1, false);
    FirstJoins(jobs, reapCount, 1);
    es, ss := Then(LifeSteps(false), es, ss, s0, s1, Join(0, 0, 0), s2);
    assert 0 in Counted(s2, 0);
    s := s2.(dead := true);
    es, ss := Then(LifeSteps(false), es, ss, s0, s2, Shutdown(0, true), s);
  }

  /** Two tasks in one file system. */
  function Two(jobs: nat, reapCount: nat, accepting: bool, first: Stage, second: Stage): State {
    Sole(jobs, reapCount, 2, accepting, Fs({0, 1}, 2, false), map[0 := Inside(0, 0, first), 1 := Inside(0, 0, second)])
  }

  lemma SecondJoins(jobs: nat, reapCount: nat)
    requires reapCount >= 2
    ensures Next(OneJoined(jobs, reapCount, 2), Join(1, 0, 0), Two(jobs, reapCount, true, Waiting, Waiting))
  {
    var s, t := OneJoined(jobs, reapCount, 2), Two(jobs, reapCount, true, Waiting, Waiting);
    assert Counted(s, 0) == {0} && Joinable(s, 0, 0);
    var s' := Joined(s, 1, 0, 0);
    assert s'.mirrors[0].fses == t.mirrors[0].fses by {
      assert {0} + {1} == {0, 1};
    }
    assert s'.mirrors[0].active == t.mirrors[0].active;
    assert s'.mirrors == t.mirrors && s'.tasks == t.tasks;
  }

  lemma FirstStage(jobs: nat, reapCount: nat, a: Stage, b: Stage, c: Stage)
    ensures Staged(Two(jobs, reapCount, true, a, b), 0, c) == Two(jobs, reapCount, true, c, b)
  {
    assert Staged(Two(jobs, reapCount, true, a, b), 0, c).tasks == Two(jobs, reapCount, true, c, b).tasks;
  }

  lemma SecondStage(jobs: nat, reapCount: nat, a: Stage, b: Stage, c: Stage)
    ensures Staged(Two(jobs, reapCount, true, a, b), 1, c) == Two(jobs, reapCount, true, a, c)
  {
    assert Staged(Two(jobs, reapCount, true, a, b), 1, c).tasks == Two(jobs, reapCount, true, a, c).tasks;
  }

  /** The first task's command has ended, the second's executes. */
  lemma OneEnds(jobs: nat, reapCount: nat) returns (es: seq<Event>, ss: seq<State>)
    ensures Leads(LifeSteps(true), es, ss, Two(jobs, reapCount, true, Waiting, Waiting),
                  Two(jobs, reapCount, true, Ended, Executing))
  {
    var s0, s1 := Two(jobs, reapCount, true, Waiting, Waiting), Two(jobs, reapCount, true, Prepared, Waiting);
    var s2, s3 := Two(jobs, reapCount, true, Ended, Waiting), Two(jobs, reapCount, true, Ended, Prepared);
    var s4 := Two(jobs, reapCount, true, Ended, Executing);
    FirstStage(jobs, reapCount, Waiting, Waiting, Prepared);
    FirstStage(jobs, reapCount, Prepared, Waiting, Ended);
    SecondStage(jobs, reapCount, Ended, Waiting, Prepared);
    SecondStage(jobs, reapCount, Ended, Prepared, Executing);
    es, ss := Stay(LifeSteps(true), s0);
    es, ss := Then(LifeSteps(true), es, ss, s0, s0, Prepare(0), s1);
    es, ss := Then(LifeSteps(true), es, ss, s0, s1, End(0), s2);
    es, ss := Then(LifeSteps(true), es, ss, s0, s2, Prepare(1), s3);
    es, ss := Then(LifeSteps(true), es, ss, s0, s3, Execute(1), s4);
  }

  function OneLeft(jobs: nat, reapCount: nat, accepting: bool): State {
    Sole(jobs, reapCount, 2, accepting, Fs({1}, 2, false), map[0 := Left(0, 0), 1 := Inside(0, 0, Executing)])
  }

  lemma FirstLeaves(jobs: nat, reapCount: nat)
    ensures Next(Two(jobs, reapCount, true, Ended, Executing), Leave(0), OneLeft(jobs, reapCount, true))
  {
    var s, t := Two(jobs, reapCount, true, Ended, Executing), OneLeft(jobs, reapCount, true);
    var s' := Leaves(s, 0);
    assert {0, 1} - {0} == {1};
    assert s'.mirrors[0].fses == t.mirrors[0].fses;
    assert s'.mirrors == t.mirrors && s'.tasks == t.tasks;
  }

  lemma GentlyShutDown(jobs: nat, reapCount: nat)
    ensures Next(OneLeft(jobs, reapCount, true), Shutdown(0, false), OneLeft(jobs, reapCount, false))
  {
    var s' := ShutDown(OneLeft(jobs, reapCount, true), 0);
    assert s'.mirrors[0].active == {0};
    assert s'.mirrors == OneLeft(jobs, reapCount, false).mirrors;
  }

  /** Returning a file system that another task's command executes in, to a mirror that is being shut
      down, is an attempt to unmount it. */
  lemma UnmountedBusy(jobs: nat, reapCount: nat) returns (es: seq<Event>, ss: seq<State>, s: State)
    requires jobs >= 2 && reapCount >= 2
    ensures Leads(LifeSteps(true), es, ss, InitialState(jobs, reapCount), s) && s.dead
  {
    var next, s0 := LifeSteps(true), InitialState(jobs, reapCount);
    var s1, s2 := Two(jobs, reapCount, true, Waiting, Waiting), Two(jobs, reapCount, true, Ended, Executing);
    es, ss := BothJoin(jobs, reapCount);
    var fs, ts := OneEnds(jobs, reapCount);
    es, ss := Append(next, es, ss, s0, s1, fs, ts, s2);
    fs, ts, s := OneReturns(jobs, reapCount);
    es, ss := Append(next, es, ss, s0, s2, fs, ts, s);
  }

  lemma BothJoin(jobs: nat, reapCount: nat) returns (es: seq<Event>, ss: seq<State>)
    requires jobs >= 2 && reapCount >= 2
    ensures Leads(LifeSteps(true), es, ss, InitialState(jobs, reapCount), Two(jobs, reapCount, true, Waiting, Waiting))
  {
    var s0, s1, s2 := InitialState(jobs, reapCount), NewMirror(jobs, reapCount, 2), OneJoined(jobs, reapCount, 2);
    es, ss := FirstMirror(jobs, reapCount, 2, true);
    FirstJoins(jobs, reapCount, 2);
    es, ss := Then(LifeSteps(true), es, ss, s0, s1, Join(0, 0, 0), s2);
    SecondJoins(jobs, reapCount);
    es, ss := Then(LifeSteps(true), es, ss, s0, s2, Join(1, 0, 0), Two(jobs, reapCount, true, Waiting, Waiting));
  }

  lemma OneReturns(jobs: nat, reapCount: nat) returns (es: seq<Event>, ss: seq<State>, s: State)
    ensures Leads(LifeSteps(true), es, ss, Two(jobs, reapCount, true, Ended, Executing), s) && s.dead
  {
    var s0 := Two(jobs, reapCount, true, Ended, Executing);
    var s1, s2 := OneLeft(jobs, reapCount, true), OneLeft(jobs, reapCount, false);
    s := s2.(dead := true);
    FirstLeaves(jobs, reapCount);
    GentlyShutDown(jobs, reapCount);
    assert Next(s2, Return(0), s) by {
      assert s2.tasks[1] == Inside(0, 0, Executing);
      assert Busy(s2, 0, 0);
    }
    es, ss := OfThree(LifeSteps(true), s0, Leave(0), s1, Shutdown(0, false), s2, Return(0), s);
  }

  // ---------------------------------------------------------------- exactly when it lives

  ghost predicate AlwaysLives(jobs: nat, reapCount: nat, gentle: bool) {
    forall es: seq<Event>, ss: seq<State> ::
      IsPath(LifeSteps(gentle), es, ss) && ss[0] == InitialState(jobs, reapCount) ==> !ss[|es|].dead
  }

  /** A worker survives every run if and only if it has no jobs. If mirrors are shut down gently only, it
      does if and only if it has one job at most or its tasks do not share file systems. */
  lemma LivesIff(jobs: nat, reapCount: nat, gentle: bool)
    requires reapCount >= 1
    ensures AlwaysLives(jobs, reapCount, gentle) <==> jobs == 0 || (gentle && (jobs <= 1 || reapCount == 1))
  {
    if jobs == 0 || (gentle && (jobs <= 1 || reapCount == 1)) {
      forall es: seq<Event>, ss: seq<State> | IsPath(LifeSteps(gentle), es, ss)
        && ss[0] == InitialState(jobs, reapCount)
        ensures !ss[|es|].dead
      {
        if jobs == 0 {
          IdleLives(jobs, reapCount, gentle, es, ss);
        } else {
          SmallLives(jobs, reapCount, es, ss);
        }
      }
    } else if gentle {
      var es, ss, s := UnmountedBusy(jobs, reapCount);
    } else {
      var es, ss, s := KilledTooEarly(jobs, reapCount);
    }
  }
}
