/** When a mirror can be relied on: what goes right in every run if no file system is ever shared, and
    two runs that show it all goes wrong otherwise. */
module MirrorSafety {
  import opened Trees
  import opened Mirrors
  import opened MirrorProofs
  import opened MirrorRuns
  import opened MirrorTraces

  ghost predicate Uncrowded(s: State) {
    forall f :: !Crowded(s, f)
  }

  /** Every reply names its own task and carries the changes of exactly the tasks it names. */
  ghost predicate RepliesRight(s: State) {
    forall t :: t in s.tasks && ReplyOf(s.tasks[t]).Some? ==> ReplyRight(s, t)
  }

  predicate ReplyRight(s: State, t: nat)
    requires t in s.tasks && ReplyOf(s.tasks[t]).Some?
  {
    var reply := ReplyOf(s.tasks[t]).value;
    t in reply.ids && reply.carried == ToSet(reply.ids)
  }

  /** Nobody is told that a task is done before a file set that names it has been replayed. */
  ghost predicate WaitsRight(s: State) {
    forall t :: t in s.waiters && s.waiters[t].Done? ==> t in s.processed
  }

  // ---------------------------------------------------------------- file systems that are never shared

  predicate NoneLeaving(s: State) {
    forall t :: t in s.tasks ==> !s.tasks[t].Leaving?
  }

  /** What a file system holds when it is never shared: at most the one task. */
  lemma AloneInFs(s: State, t: nat)
    requires BaseInv(s) && (s.reapCount == 1 || s.maxJobs <= 1) && Enabled(s, Finish(t))
    ensures s.fses[s.tasks[t].fs].tasks - {t} == {}
  {
    var fs := s.fses[s.tasks[t].fs];
    assert FsOk(s, s.tasks[t].fs);
    forall u | u in fs.tasks ensures u == t {
      assert At(s, u, Running(s.tasks[t].fs)) && At(s, t, Running(s.tasks[t].fs));
      if s.reapCount == 1 {
        assert u in fs.taskIds && t in fs.taskIds && |fs.taskIds| <= 1;
      } else {
        OneAtMost(RunningTasks(s), t, u);
      }
    }
  }

  lemma OneAtMost(all: set<nat>, t: nat, u: nat)
    requires t in all && u in all && |all| <= 1
    ensures t == u
  {
    assert all == {t} + (all - {t});
    assert |all - {t}| == 0;
  }

  lemma LeavesByFinishing(s: State, e: Event, t: nat)
    requires Enabled(s, e) && t in Apply(s, e).tasks && Apply(s, e).tasks[t].Leaving?
    ensures e == Finish(t) || (t in s.tasks && s.tasks[t].Leaving?)
  {
  }

  lemma StraysByReturning(s: State, e: Event)
    requires Enabled(s, e)
    ensures Apply(s, e).strayed <==> s.strayed || (e.Return? && Stray(s, e.task))
  {
  }

  lemma SafeStep(s: State, e: Event)
    requires Inv(s) && !s.strayed && NoneLeaving(s) && (s.reapCount == 1 || s.maxJobs <= 1) && Enabled(s, e)
    ensures !Apply(s, e).strayed && NoneLeaving(Apply(s, e))
  {
    forall t | t in Apply(s, e).tasks ensures !Apply(s, e).tasks[t].Leaving? {
      if Apply(s, e).tasks[t].Leaving? {
        LeavesByFinishing(s, e, t);
        AloneInFs(s, t);
      }
    }
    StraysByReturning(s, e);
    if e.Return? {
      assert TaskClean(s, e.task);
    }
  }

  lemma {:induction false} SafeRun(s: State, es: seq<Event>)
    requires Inv(s) && !s.strayed && NoneLeaving(s) && (s.reapCount == 1 || s.maxJobs <= 1) && Legal(s, es)
    ensures Inv(Run(s, es)) && !Run(s, es).strayed
    decreases |es|
  {
    if es != [] {
      StepInv(s, es[0]);
      SafeStep(s, es[0]);
      JobsConstant(s, [es[0]]);
      SafeRun(Apply(s, es[0]), es[1..]);
    }
  }

  /** If file systems are not shared, because they take one task at a time or because one task runs at
      a time, then in every state of every run all is well. */
  lemma UnsharedIsSafe(rc: nat, mj: nat, es: seq<Event>)
    requires rc >= 1 && (rc == 1 || mj <= 1) && Legal(InitialState(rc, mj), es)
    ensures var s := Run(InitialState(rc, mj), es);
      ExactlyOnce(s) && Uncrowded(s) && RepliesRight(s) && WaitsRight(s)
  {
    InitialInv(rc, mj);
    SafeRun(InitialState(rc, mj), es);
    CleanIsRight(Run(InitialState(rc, mj), es));
  }

  lemma CleanIsRight(s: State)
    requires Inv(s) && !s.strayed
    ensures ExactlyOnce(s) && Uncrowded(s) && RepliesRight(s) && WaitsRight(s)
  {
    ExactInvMeans(s);
    forall f ensures !Crowded(s, f) {
      CleanUncrowded(s, f);
    }
    forall t | t in s.tasks && ReplyOf(s.tasks[t]).Some? ensures ReplyRight(s, t) {
      assert TaskClean(s, t) && TaskHome(s, t);
    }
    forall t | t in s.waiters && s.waiters[t].Done? ensures t in s.processed {
      CleanWait(s, t);
    }
  }

  lemma CleanUncrowded(s: State, f: nat)
    requires BaseInv(s) && CleanInv(s)
    ensures !Crowded(s, f)
  {
    forall t | Unharvested(s, t, f) ensures forall u :: !At(s, u, Running(f)) {
      assert TaskClean(s, t) && FsOk(s, f);
    }
  }

  lemma CleanWait(s: State, t: nat)
    requires ExactInv(s) && WaitInv(s) && t in s.waiters && s.waiters[t].Done?
    ensures t in s.processed
  {
    assert WaiterOk(s, t);
    if s.tasks[t].answer.Some? {
      assert TaskHome(s, t);
      assert t in ToSet(s.tasks[t].answer.value.ids);
    }
  }

  // ---------------------------------------------------------------- the race

  /** Two tasks share a file system.  The first finishes, is not the last, and is held up before it
      returns the file system; the second finishes, is the last, and is held up before it reads the
      ids; then the first returns the file system and wipes them out. */
  const RACE: seq<Event> :=
    [Submit(1), Submit(2), Open(1, 0), Join(2, 0), Finish(1), Finish(2), Return(1), Capture(2), Harvest(2), Return(2)]

  /** A state of the race, in which the master has not moved beyond submitting both tasks. */
  function RaceState(rc: nat, mj: nat, fs: Fs, one: Task, two: Task, lost: set<nat>): State {
    State(rc, mj, map[0 := fs], map[1 := one, 2 := two], map[1 := InFs(0), 2 := InFs(0)], lost, lost != {},
          {1, 2}, {}, {}, map[])
  }

  const MARKED := Fs(true, {}, [1, 2], Some(2), false, false, {1, 2})
  const WIPED := Fs(false, {}, [], None, false, false, {1, 2})
  const EMPTIED := Fs(false, {}, [], None, false, true, {})

  lemma RaceSubmits(rc: nat, mj: nat) returns (s: State)
    requires rc >= 2 && mj >= 2
    ensures s == State(rc, mj, map[], map[1 := Submitted, 2 := Submitted], map[], {}, false, {1, 2}, {}, {}, map[])
    ensures Legal(InitialState(rc, mj), [Submit(1), Submit(2)])
    ensures Run(InitialState(rc, mj), [Submit(1), Submit(2)]) == s
  {
    var s1 := Apply(InitialState(rc, mj), Submit(1));
    s := Apply(s1, Submit(2));
    assert Legal(s, []) && Run(s, []) == s;
    RunStep(s1, Submit(2), []);
    RunStep(InitialState(rc, mj), Submit(1), [Submit(2)]);
  }

  lemma RaceStarts(rc: nat, mj: nat, s: State) returns (s': State)
    requires rc >= 2 && mj >= 2
    requires s == State(rc, mj, map[], map[1 := Submitted, 2 := Submitted], map[], {}, false, {1, 2}, {}, {}, map[])
    ensures s' == RaceState(rc, mj, Fs(false, {1, 2}, [1, 2], None, false, false, {1, 2}), Running(0), Running(0), {})
    ensures Legal(s, [Open(1, 0), Join(2, 0)]) && Run(s, [Open(1, 0), Join(2, 0)]) == s'
  {
    assert RunningTasks(s) == {};
    var s1 := Apply(s, Open(1, 0));
    assert RunningTasks(s1) == {1};
    assert s1.fses[0] == Fs(false, {1}, [1], None, false, false, {1});
    s' := Apply(s1, Join(2, 0));
    assert s'.fses[0] == Fs(false, {1, 2}, [1, 2], None, false, false, {1, 2});
    assert s'.tasks == map[1 := Running(0), 2 := Running(0)] && s'.home == map[1 := InFs(0), 2 := InFs(0)];
    assert s'.fses == map[0 := s'.fses[0]];
    assert Legal(s', []) && Run(s', []) == s';
    RunStep(s1, Join(2, 0), []);
    RunStep(s, Open(1, 0), [Join(2, 0)]);
  }

  lemma RaceFinishes(rc: nat, mj: nat, s: State) returns (s': State)
    requires rc >= 2 && mj >= 2
    requires s == RaceState(rc, mj, Fs(false, {1, 2}, [1, 2], None, false, false, {1, 2}), Running(0), Running(0), {})
    ensures s' == RaceState(rc, mj, MARKED, Leaving(0), Reaping(0), {})
    ensures Legal(s, [Finish(1), Finish(2)]) && Run(s, [Finish(1), Finish(2)]) == s'
  {
    var s1 := Apply(s, Finish(1));
    assert s1.fses[0].tasks == {2};
    s' := Apply(s1, Finish(2));
    assert s'.fses[0].tasks == {};
    assert Legal(s', []) && Run(s', []) == s';
    RunStep(s1, Finish(2), []);
    RunStep(s, Finish(1), [Finish(2)]);
  }

  /** The fatal return, and the reader that comes too late. */
  lemma RaceWipes(rc: nat, mj: nat, s: State) returns (s': State)
    requires rc >= 2 && mj >= 2
    requires s == RaceState(rc, mj, MARKED, Leaving(0), Reaping(0), {})
    ensures s' == RaceState(rc, mj, WIPED, Answered(None), Harvesting(0, []), {1, 2})
    ensures Legal(s, [Return(1), Capture(2)]) && Run(s, [Return(1), Capture(2)]) == s'
    ensures LossyReturn(s, [Return(1), Capture(2)])
  {
    assert Lossy(s, 1) && ToSet([1, 2]) == {1, 2};
    var s1 := Apply(s, Return(1));
    s' := Apply(s1, Capture(2));
    assert Legal(s', []) && Run(s', []) == s';
    RunStep(s1, Capture(2), []);
    RunStep(s, Return(1), [Capture(2)]);
  }

  lemma RaceReplies(rc: nat, mj: nat, s: State) returns (s': State)
    requires rc >= 2 && mj >= 2
    requires s == RaceState(rc, mj, WIPED, Answered(None), Harvesting(0, []), {1, 2})
    ensures s' == RaceState(rc, mj, EMPTIED, Answered(None), Answered(Some(Reply([], {1, 2}))), {1, 2})
    ensures Legal(s, [Harvest(2), Return(2)]) && Run(s, [Harvest(2), Return(2)]) == s'
  {
    var s1 := Apply(s, Harvest(2));
    s' := Apply(s1, Return(2));
    assert Legal(s', []) && Run(s', []) == s';
    RunStep(s1, Return(2), []);
    RunStep(s, Harvest(2), [Return(2)]);
  }

  /** The second half of the race. */
  lemma RaceEnds(rc: nat, mj: nat, c: State, tail: seq<Event>) returns (s: State)
    requires rc >= 2 && mj >= 2
    requires c == RaceState(rc, mj, MARKED, Leaving(0), Reaping(0), {})
    requires tail == [Return(1), Capture(2), Harvest(2), Return(2)]
    ensures Legal(c, tail) && Run(c, tail) == s && LossyReturn(c, tail)
    ensures s == RaceState(rc, mj, EMPTIED, Answered(None), Answered(Some(Reply([], {1, 2}))), {1, 2})
  {
    var d := RaceWipes(rc, mj, c);
    s := RaceReplies(rc, mj, d);
    RunJoin(c, [Return(1), Capture(2)], [Harvest(2), Return(2)]);
    assert tail == [Return(1), Capture(2)] + [Harvest(2), Return(2)];
  }

  /** The first half of the race. */
  lemma RaceBegins(rc: nat, mj: nat, head: seq<Event>) returns (c: State)
    requires rc >= 2 && mj >= 2
    requires head == [Submit(1), Submit(2), Open(1, 0), Join(2, 0), Finish(1), Finish(2)]
    ensures Legal(InitialState(rc, mj), head) && Run(InitialState(rc, mj), head) == c
    ensures c == RaceState(rc, mj, MARKED, Leaving(0), Reaping(0), {})
  {
    var a := RaceSubmits(rc, mj);
    var b := RaceStarts(rc, mj, a);
    c := RaceFinishes(rc, mj, b);
    RunJoin(a, [Open(1, 0), Join(2, 0)], [Finish(1), Finish(2)]);
    RunJoin(InitialState(rc, mj), [Submit(1), Submit(2)], [Open(1, 0), Join(2, 0)] + [Finish(1), Finish(2)]);
    assert head == [Submit(1), Submit(2)] + ([Open(1, 0), Join(2, 0)] + [Finish(1), Finish(2)]);
  }

  /** The race ends with a reply that carries both tasks' changes and names neither; the first
      task's reply refers to it in vain. */
  lemma {:induction false} RaceLosesIds(rc: nat, mj: nat) returns (s: State)
    requires rc >= 2 && mj >= 2
    ensures Legal(InitialState(rc, mj), RACE) && s == Run(InitialState(rc, mj), RACE)
    ensures s == RaceState(rc, mj, EMPTIED, Answered(None), Answered(Some(Reply([], {1, 2}))), {1, 2})
    ensures !ExactlyOnce(s)
  {
    var head := [Submit(1), Submit(2), Open(1, 0), Join(2, 0), Finish(1), Finish(2)];
    var tail := [Return(1), Capture(2), Harvest(2), Return(2)];
    var c := RaceBegins(rc, mj, head);
    s := RaceEnds(rc, mj, c, tail);
    RunJoin(InitialState(rc, mj), head, tail);
    assert RACE == head + tail;
    ExactlyOnceIff(rc, mj, RACE);
  }

  /** The master's side of the race: it replays the second task's file set, tells nobody, and is done
      with that task although no set that names it has come.  The first waits for ever. */
  lemma RaceMisleads(rc: nat, mj: nat, s: State) returns (s': State)
    requires rc >= 2 && mj >= 2
    requires s == RaceState(rc, mj, EMPTIED, Answered(None), Answered(Some(Reply([], {1, 2}))), {1, 2})
    ensures Legal(s, [Process(2), Conclude(2), Find(1)]) && Run(s, [Process(2), Conclude(2), Find(1)]) == s'
    ensures s'.waiters == map[2 := Done, 1 := Blocked] && s'.processed == {} && s'.signalled == {}
    ensures s'.tasks == s.tasks
  {
    var s1 := Apply(s, Process(2));
    assert ToSet([]) == {};
    var s2 := Apply(s1, Conclude(2));
    s' := Apply(s2, Find(1));
    RunOfThree(s, Process(2), Conclude(2), Find(1), s1, s2, s');
  }

  lemma RunOfThree(s: State, a: Event, b: Event, c: Event, s1: State, s2: State, s3: State)
    requires Enabled(s, a) && Apply(s, a) == s1 && Enabled(s1, b) && Apply(s1, b) == s2
    requires Enabled(s2, c) && Apply(s2, c) == s3
    ensures Legal(s, [a, b, c]) && Run(s, [a, b, c]) == s3
  {
    RunStep(s2, c, []);
    assert [c] + [] == [c];
    RunStep(s1, b, [c]);
    assert [b] + [c] == [b, c];
    RunStep(s, a, [b, c]);
    assert [a] + [b, c] == [a, b, c];
  }

  lemma WaitReturnsTooEarly(rc: nat, mj: nat) returns (s: State)
    requires rc >= 2 && mj >= 2
    ensures Legal(InitialState(rc, mj), RACE + [Process(2), Conclude(2), Find(1)])
    ensures s == Run(InitialState(rc, mj), RACE + [Process(2), Conclude(2), Find(1)])
    ensures 2 in s.waiters && s.waiters[2].Done? && 2 !in s.processed && 1 in s.waiters && s.waiters[1].Blocked?
    ensures !WaitsRight(s)
  {
    var end := RaceLosesIds(rc, mj);
    s := RaceMisleads(rc, mj, end);
    RunJoin(InitialState(rc, mj), RACE, [Process(2), Conclude(2), Find(1)]);
  }

  // ---------------------------------------------------------------- the other race

  /** The same two tasks.  This time the second reads the ids in time, but before it collects the
      changes the first returns the file system, and a third task moves in. */
  const INTRUSION: seq<Event> :=
    [Submit(1), Submit(2), Open(1, 0), Join(2, 0), Finish(1), Finish(2), Capture(2), Return(1), Submit(3), Join(3, 0)]

  const OCCUPIED := Fs(false, {3}, [3], None, false, false, {1, 2, 3})

  /** The ids have been read, and the file system is open to others. */
  function OpenedUp(rc: nat, mj: nat): State {
    State(rc, mj, map[0 := WIPED], map[1 := Answered(None), 2 := Harvesting(0, [1, 2])],
          map[1 := InReport(2), 2 := InReport(2)], {}, true, {1, 2}, {}, {}, map[])
  }

  /** The third task is in. */
  function Occupied(rc: nat, mj: nat): State {
    State(rc, mj, map[0 := OCCUPIED], map[1 := Answered(None), 2 := Harvesting(0, [1, 2]), 3 := Running(0)],
          map[1 := InReport(2), 2 := InReport(2), 3 := InFs(0)], {}, true, {1, 2, 3}, {}, {}, map[])
  }

  lemma IntruderWaits(rc: nat, mj: nat, c: State)
    requires rc >= 2 && mj >= 2 && c == RaceState(rc, mj, MARKED, Leaving(0), Reaping(0), {})
    ensures Legal(c, [Capture(2), Return(1)]) && Run(c, [Capture(2), Return(1)]) == OpenedUp(rc, mj)
  {
    var s1 := Apply(c, Capture(2));
    assert s1.home == map[1 := InReport(2), 2 := InReport(2)];
    var s := Apply(s1, Return(1));
    assert s == OpenedUp(rc, mj);
    assert Legal(s, []) && Run(s, []) == s;
    RunStep(s1, Return(1), []);
    RunStep(c, Capture(2), [Return(1)]);
  }

  lemma IntruderJoins(rc: nat, mj: nat, s: State)
    requires rc >= 2 && mj >= 2 && s == Apply(OpenedUp(rc, mj), Submit(3))
    ensures Enabled(s, Join(3, 0)) && Apply(s, Join(3, 0)) == Occupied(rc, mj)
  {
    assert RunningTasks(s) == {};
    var s' := Apply(s, Join(3, 0));
    assert AddTask(WIPED, 3) == OCCUPIED;
    assert s'.fses == map[0 := OCCUPIED];
    assert s'.tasks == Occupied(rc, mj).tasks && s'.home == Occupied(rc, mj).home;
  }

  lemma IntruderEnters(rc: nat, mj: nat)
    requires rc >= 2 && mj >= 2
    ensures Legal(OpenedUp(rc, mj), [Submit(3), Join(3, 0)])
    ensures Run(OpenedUp(rc, mj), [Submit(3), Join(3, 0)]) == Occupied(rc, mj)
  {
    var s := Apply(OpenedUp(rc, mj), Submit(3));
    IntruderJoins(rc, mj, s);
    RunStep(s, Join(3, 0), []);
    RunStep(OpenedUp(rc, mj), Submit(3), [Join(3, 0)]);
  }

  lemma OccupiedIsCrowded(rc: nat, mj: nat)
    ensures Crowded(Occupied(rc, mj), 0) && !Uncrowded(Occupied(rc, mj))
  {
    assert At(Occupied(rc, mj), 3, Running(0)) && Unharvested(Occupied(rc, mj), 2, 0);
  }

  lemma IntruderAfter(rc: nat, mj: nat, head: seq<Event>)
    requires rc >= 2 && mj >= 2 && Legal(InitialState(rc, mj), head)
    requires Run(InitialState(rc, mj), head) == RaceState(rc, mj, MARKED, Leaving(0), Reaping(0), {})
    ensures Legal(InitialState(rc, mj), head + ([Capture(2), Return(1)] + [Submit(3), Join(3, 0)]))
    ensures Run(InitialState(rc, mj), head + ([Capture(2), Return(1)] + [Submit(3), Join(3, 0)])) == Occupied(rc, mj)
  {
    var c := Run(InitialState(rc, mj), head);
    IntruderWaits(rc, mj, c);
    IntruderEnters(rc, mj);
    RunJoin(c, [Capture(2), Return(1)], [Submit(3), Join(3, 0)]);
    RunJoin(InitialState(rc, mj), head, [Capture(2), Return(1)] + [Submit(3), Join(3, 0)]);
  }

  /** No id is lost, and yet the third task runs in a file system that the second is about to empty. */
  lemma IntruderCrowdsIn(rc: nat, mj: nat) returns (s: State)
    requires rc >= 2 && mj >= 2
    ensures Legal(InitialState(rc, mj), INTRUSION) && s == Run(InitialState(rc, mj), INTRUSION) == Occupied(rc, mj)
    ensures s.lost == {} && Crowded(s, 0) && !Uncrowded(s)
  {
    var head := [Submit(1), Submit(2), Open(1, 0), Join(2, 0), Finish(1), Finish(2)];
    var c := RaceBegins(rc, mj, head);
    IntruderAfter(rc, mj, head);
    assert INTRUSION == head + ([Capture(2), Return(1)] + [Submit(3), Join(3, 0)]);
    s := Occupied(rc, mj);
    OccupiedIsCrowded(rc, mj);
  }

  lemma OccupiedIsRobbed(rc: nat, mj: nat) returns (s: State)
    ensures Enabled(Occupied(rc, mj), Harvest(2)) && s == Apply(Occupied(rc, mj), Harvest(2))
    ensures At(s, 3, Running(0)) && Dirty(s, 0) == {} && At(s, 2, Returning(0, Reply([1, 2], {1, 2, 3})))
    ensures !RepliesRight(s)
  {
    s := Apply(Occupied(rc, mj), Harvest(2));
    assert 3 in ReplyOf(s.tasks[2]).value.carried && 3 !in ToSet([1, 2]);
    assert !ReplyRight(s, 2);
  }

  lemma RobbedAfter(rc: nat, mj: nat, es: seq<Event>) returns (s: State)
    requires Legal(InitialState(rc, mj), es) && Run(InitialState(rc, mj), es) == Occupied(rc, mj)
    ensures Legal(InitialState(rc, mj), es + [Harvest(2)]) && s == Run(InitialState(rc, mj), es + [Harvest(2)])
    ensures At(s, 3, Running(0)) && Dirty(s, 0) == {} && At(s, 2, Returning(0, Reply([1, 2], {1, 2, 3})))
    ensures !RepliesRight(s)
  {
    s := OccupiedIsRobbed(rc, mj);
    RunStep(Occupied(rc, mj), Harvest(2), []);
    RunJoin(InitialState(rc, mj), es, [Harvest(2)]);
  }

  /** The second task's reply then carries what the third has done so far, without naming it. */
  lemma IntruderRobbed(rc: nat, mj: nat) returns (s: State)
    requires rc >= 2 && mj >= 2
    ensures Legal(InitialState(rc, mj), INTRUSION + [Harvest(2)])
    ensures s == Run(InitialState(rc, mj), INTRUSION + [Harvest(2)])
    ensures At(s, 3, Running(0)) && Dirty(s, 0) == {} && At(s, 2, Returning(0, Reply([1, 2], {1, 2, 3})))
    ensures !RepliesRight(s)
  {
    var c := IntruderCrowdsIn(rc, mj);
    s := RobbedAfter(rc, mj, INTRUSION);
  }

  // ---------------------------------------------------------------- what an operator can rely on

  ghost predicate AlwaysExactlyOnce(rc: nat, mj: nat) {
    forall es :: Legal(InitialState(rc, mj), es) ==> ExactlyOnce(Run(InitialState(rc, mj), es))
  }

  ghost predicate AlwaysUncrowded(rc: nat, mj: nat) {
    forall es :: Legal(InitialState(rc, mj), es) ==> Uncrowded(Run(InitialState(rc, mj), es))
  }

  ghost predicate AlwaysRepliesRight(rc: nat, mj: nat) {
    forall es :: Legal(InitialState(rc, mj), es) ==> RepliesRight(Run(InitialState(rc, mj), es))
  }

  ghost predicate AlwaysWaitsRight(rc: nat, mj: nat) {
    forall es :: Legal(InitialState(rc, mj), es) ==> WaitsRight(Run(InitialState(rc, mj), es))
  }

  lemma SharedIsUnsafe(rc: nat, mj: nat)
    requires rc >= 2 && mj >= 2
    ensures !AlwaysExactlyOnce(rc, mj) && !AlwaysUncrowded(rc, mj)
    ensures !AlwaysRepliesRight(rc, mj) && !AlwaysWaitsRight(rc, mj)
  {
    var a := LosingRun(rc, mj);
    var b := CrowdedRun(rc, mj);
    var c := RobbedRun(rc, mj);
    var d := MisleadingRun(rc, mj);
  }

  lemma LosingRun(rc: nat, mj: nat) returns (es: seq<Event>)
    requires rc >= 2 && mj >= 2
    ensures Legal(InitialState(rc, mj), es) && !ExactlyOnce(Run(InitialState(rc, mj), es))
  {
    var s := RaceLosesIds(rc, mj);
    es := RACE;
  }

  lemma CrowdedRun(rc: nat, mj: nat) returns (es: seq<Event>)
    requires rc >= 2 && mj >= 2
    ensures Legal(InitialState(rc, mj), es) && !Uncrowded(Run(InitialState(rc, mj), es))
  {
    var s := IntruderCrowdsIn(rc, mj);
    es := INTRUSION;
  }

  lemma RobbedRun(rc: nat, mj: nat) returns (es: seq<Event>)
    requires rc >= 2 && mj >= 2
    ensures Legal(InitialState(rc, mj), es) && !RepliesRight(Run(InitialState(rc, mj), es))
  {
    var s := IntruderRobbed(rc, mj);
    es := INTRUSION + [Harvest(2)];
  }

  lemma MisleadingRun(rc: nat, mj: nat) returns (es: seq<Event>)
    requires rc >= 2 && mj >= 2
    ensures Legal(InitialState(rc, mj), es) && !WaitsRight(Run(InitialState(rc, mj), es))
  {
    var s := WaitReturnsTooEarly(rc, mj);
    es := RACE + [Process(2), Conclude(2), Find(1)];
  }

  /** Each of the four things a mirror should guarantee holds in every run if and only if file systems
      are not shared: each takes one task only, or only one task runs at a time. */
  lemma EveryRunSafeIff(rc: nat, mj: nat)
    requires rc >= 1
    ensures AlwaysExactlyOnce(rc, mj) <==> rc == 1 || mj <= 1
    ensures AlwaysUncrowded(rc, mj) <==> rc == 1 || mj <= 1
    ensures AlwaysRepliesRight(rc, mj) <==> rc == 1 || mj <= 1
    ensures AlwaysWaitsRight(rc, mj) <==> rc == 1 || mj <= 1
  {
    if rc == 1 || mj <= 1 {
      forall es | Legal(InitialState(rc, mj), es)
        ensures ExactlyOnce(Run(InitialState(rc, mj), es)) && Uncrowded(Run(InitialState(rc, mj), es))
        ensures RepliesRight(Run(InitialState(rc, mj), es)) && WaitsRight(Run(InitialState(rc, mj), es))
      {
        UnsharedIsSafe(rc, mj, es);
      }
    } else {
      SharedIsUnsafe(rc, mj);
    }
  }
}
