/** When a worker keeps to its jobs, and when it survives. */
module WorkerSafety {
  import opened Jobs
  import opened Runs
  import opened Workers

  ghost predicate Next(s: State, e: Event, s': State) {
    Enabled(s, e) && s' == Apply(s, e)
  }

  predicate Registered(s: State, m: nat) {
    m in s.mirrors && s.mirrors[m].key in s.registry && s.registry[s.mirrors[m].key] == m
  }

  /** A master does not come from the address of one whose mirror has not been dropped. */
  predicate Fresh(s: State, e: Event) {
    e.Get? ==> forall m :: m in s.mirrors && s.mirrors[m].key == e.key ==> s.mirrors[m].dropped
  }

  /** The worker's shutdown strikes out a mirror that it has not waited for. */
  predicate Forgets(s: State, e: Event) {
    e.Empty? && exists m :: m in s.mirrors && Live(s.mirrors[m])
  }

  // ---------------------------------------------------------------- nothing is forgotten

  /** Every mirror that is still at work is accounted for. */
  predicate Accounted(s: State) {
    forall m :: m in s.mirrors && Live(s.mirrors[m]) ==> Registered(s, m)
  }

  /** Two mirrors that have not been dropped have the same key. */
  predicate SameKey(s: State, m: nat, n: nat) {
    && m in s.mirrors && n in s.mirrors && !s.mirrors[m].dropped && !s.mirrors[n].dropped
    && s.mirrors[m].key == s.mirrors[n].key
  }

  ghost predicate KeysApart(s: State) {
    forall m, n :: SameKey(s, m, n) ==> m == n
  }

  lemma OtherKey(s: State, m: nat, n: nat)
    requires KeysApart(s) && m in s.mirrors && n in s.mirrors && m != n && !s.mirrors[m].dropped
    requires !s.mirrors[n].dropped
    ensures s.mirrors[m].key != s.mirrors[n].key
  {
    assert !SameKey(s, m, n);
  }

  lemma LiveUndropped(s: State, m: nat)
    requires Inv(s) && m in s.mirrors && Live(s.mirrors[m])
    ensures !s.mirrors[m].dropped
  {
    assert MirrorOk(s, m);
  }

  /** A mirror that works after a step worked before it, under the same key, or is new. */
  lemma StillLive(s: State, e: Event, m: nat)
    requires Enabled(s, e) && m in Apply(s, e).mirrors
    ensures m in s.mirrors || (e.Get? && e.mirror == m)
    ensures m in s.mirrors ==> Apply(s, e).mirrors[m].key == s.mirrors[m].key
    ensures m in s.mirrors && Live(Apply(s, e).mirrors[m]) ==> Live(s.mirrors[m])
    ensures m in s.mirrors && s.mirrors[m].dropped ==> Apply(s, e).mirrors[m].dropped
  {
  }

  lemma StepAccounted(s: State, e: Event, m: nat)
    requires Inv(s) && Accounted(s) && KeysApart(s) && Enabled(s, e) && Fresh(s, e) && !Forgets(s, e)
    requires m in Apply(s, e).mirrors && Live(Apply(s, e).mirrors[m])
    ensures Registered(Apply(s, e), m)
  {
    StillLive(s, e, m);
    if m in s.mirrors {
      assert Registered(s, m);
      LiveUndropped(s, m);
      if e.Drop? && e.mirror != m {
        OtherKey(s, m, e.mirror);
      }
    }
  }

  lemma StepKeys(s: State, e: Event)
    requires KeysApart(s) && Enabled(s, e) && Fresh(s, e)
    ensures KeysApart(Apply(s, e))
  {
    var s' := Apply(s, e);
    forall m, n | SameKey(s', m, n)
      ensures m == n
    {
      StillLive(s, e, m);
      StillLive(s, e, n);
      if e.Get? {
        NewKey(s, e);
      }
      assert m in s.mirrors && n in s.mirrors ==> SameKey(s, m, n);
    }
  }

  lemma NewKey(s: State, e: Event)
    requires Enabled(s, e) && e.Get?
    ensures e.mirror in Apply(s, e).mirrors && Apply(s, e).mirrors[e.mirror].key == e.key
  {
  }

  ghost predicate Tidy(s: State) {
    Inv(s) && Accounted(s) && KeysApart(s)
  }

  lemma StepTidy(s: State, e: Event)
    requires Tidy(s) && Enabled(s, e) && Fresh(s, e) && !Forgets(s, e)
    ensures Tidy(Apply(s, e))
  {
    StepInv(s, e);
    StepKeys(s, e);
    forall m | m in Apply(s, e).mirrors && Live(Apply(s, e).mirrors[m])
      ensures Registered(Apply(s, e), m)
    {
      StepAccounted(s, e, m);
    }
  }

  // ---------------------------------------------------------------- adding up

  /** The commands that execute in mirrors registered under `keys`. */
  function ExecutingUnder(s: State, keys: set<string>): set<nat> {
    set t | t in ExecutingTasks(s) && s.tasks[t].mirror in s.mirrors
            && s.mirrors[s.tasks[t].mirror].key in keys && Registered(s, s.tasks[t].mirror)
  }

  lemma UnderOne(s: State, keys: set<string>, k: string)
    requires Inv(s) && k in keys && k in s.registry
    ensures |ExecutingUnder(s, keys)| <= |ExecutingUnder(s, keys - {k})| + Grants(s)[k]
  {
    var m := s.registry[k];
    assert MirrorOk(s, m);
    forall t | t in ExecutingUnder(s, keys)
      ensures t in ExecutingUnder(s, keys - {k}) + Counted(s, m)
    {
      assert TaskOk(s, t);
    }
    SubsetSize(ExecutingUnder(s, keys), ExecutingUnder(s, keys - {k}) + Counted(s, m));
  }

  lemma UnderRest(s: State, keys: set<string>, grants: map<string, nat>, k: string)
    requires KeysOk(s) && grants.Keys == keys <= s.registry.Keys && k in keys
    requires forall j :: j in keys ==> grants[j] == Grants(s)[j]
    ensures (grants - {k}).Keys == keys - {k} <= s.registry.Keys && |keys - {k}| < |keys|
    ensures forall j :: j in keys - {k} ==> (grants - {k})[j] == Grants(s)[j]
  {
  }

  lemma {:induction false} UnderGranted(s: State, keys: set<string>, grants: map<string, nat>)
    requires Inv(s) && grants.Keys == keys <= s.registry.Keys
    requires forall k :: k in keys ==> grants[k] == Grants(s)[k]
    ensures |ExecutingUnder(s, keys)| <= Total(grants)
    decreases |keys|
  {
    if keys == {} {
      assert ExecutingUnder(s, keys) == {};
    } else {
      var k :| k in keys;
      UnderRest(s, keys, grants, k);
      UnderGranted(s, keys - {k}, grants - {k});
      UnderOne(s, keys, k);
      TotalAt(grants, k);
    }
  }

  /** Every command executes in a mirror that is accounted for, within that mirror's grant. */
  lemma WithinJobs(s: State)
    requires Inv(s) && Accounted(s)
    ensures |ExecutingTasks(s)| <= s.jobs
  {
    var keys := s.registry.Keys;
    forall t | t in ExecutingTasks(s)
      ensures t in ExecutingUnder(s, keys)
    {
      assert TaskOk(s, t);
    }
    SubsetSize(ExecutingTasks(s), ExecutingUnder(s, keys));
    UnderGranted(s, keys, Grants(s));
  }

  lemma SizesKept(s: State, e: Event)
    requires Enabled(s, e)
    ensures Apply(s, e).jobs == s.jobs && Apply(s, e).reapCount == s.reapCount
  {
  }

  ghost function TidySteps(): (State, Event, State) -> bool {
    (s, e, s') => Next(s, e, s') && Fresh(s, e) && !Forgets(s, e)
  }

  /** However many tasks share a file system: if addresses are fresh, and the worker's own shutdown, if
      it comes to that, forgets no mirror that is still at work, then there are never more commands
      executing than there are jobs. */
  lemma TidyWithinJobs(jobs: nat, reapCount: nat, es: seq<Event>, ss: seq<State>, i: nat)
    requires reapCount >= 1 && IsPath(TidySteps(), es, ss) && ss[0] == InitialState(jobs, reapCount) && i <= |es|
    ensures |ExecutingTasks(ss[i])| <= jobs
  {
    InitialInv(jobs, reapCount);
    var inv: State -> bool := s => Tidy(s) && s.jobs == jobs;
    forall s, e, s' | inv(s) && TidySteps()(s, e, s')
      ensures inv(s')
    {
      StepTidy(s, e);
      SizesKept(s, e);
    }
    Kept(TidySteps(), inv, es, ss, i);
    WithinJobs(ss[i]);
  }

  // ---------------------------------------------------------------- with the shutdown, or with old addresses

  /** `reuse`: a master may come from an address whose mirror has not been dropped; `shut`: the worker may
      be shut down. */
  ghost function Steps(reuse: bool, shut: bool): (State, Event, State) -> bool {
    (s, e, s') => Next(s, e, s') && (reuse || Fresh(s, e)) && (shut || !e.Empty?)
  }

  /** Every mirror is accounted for until it is dropped. */
  predicate Held(s: State) {
    forall m :: m in s.mirrors && !s.mirrors[m].dropped ==> Registered(s, m)
  }

  lemma HeldApart(s: State)
    requires Inv(s) && Held(s)
    ensures Accounted(s) && KeysApart(s)
  {
    forall m | m in s.mirrors && Live(s.mirrors[m])
      ensures Registered(s, m)
    {
      LiveUndropped(s, m);
    }
  }

  lemma StepHeld(s: State, e: Event)
    requires Inv(s) && Held(s) && Enabled(s, e) && Fresh(s, e) && !e.Empty?
    ensures Held(Apply(s, e))
  {
    var s' := Apply(s, e);
    HeldApart(s);
    forall m | m in s'.mirrors && !s'.mirrors[m].dropped
      ensures Registered(s', m)
    {
      StillLive(s, e, m);
      if m in s.mirrors {
        assert Registered(s, m);
        if e.Drop? && e.mirror != m {
          OtherKey(s, m, e.mirror);
        }
      }
    }
  }

  lemma TotalHas(g: map<string, nat>, k: string)
    requires k in g
    ensures g[k] <= Total(g)
  {
    TotalAt(g, k);
  }

  /** With one job at most, a second mirror is not granted while there is one. */
  lemma OneJobFresh(s: State, e: Event)
    requires Inv(s) && Held(s) && s.jobs <= 1 && Enabled(s, e)
    ensures Fresh(s, e)
  {
    if e.Get? {
      forall m | m in s.mirrors
        ensures s.mirrors[m].dropped
      {
        if !s.mirrors[m].dropped {
          assert Registered(s, m) && MirrorOk(s, m);
          TotalHas(Grants(s), s.mirrors[m].key);
        }
      }
    }
  }

  lemma HeldWithin(jobs: nat, reapCount: nat, reuse: bool, es: seq<Event>, ss: seq<State>)
    requires reapCount >= 1 && (reuse ==> jobs <= 1)
    requires IsPath(Steps(reuse, false), es, ss) && ss[0] == InitialState(jobs, reapCount)
    ensures |ExecutingTasks(ss[|es|])| <= jobs
  {
    InitialInv(jobs, reapCount);
    var inv: State -> bool := s => Inv(s) && Held(s) && s.jobs == jobs;
    forall s, e, s' | inv(s) && Steps(reuse, false)(s, e, s')
      ensures inv(s')
    {
      if reuse {
        OneJobFresh(s, e);
      }
      StepInv(s, e);
      StepHeld(s, e);
      SizesKept(s, e);
    }
    Kept(Steps(reuse, false), inv, es, ss, |es|);
    HeldApart(ss[|es|]);
    WithinJobs(ss[|es|]);
  }

  lemma MirrorsNeedJobs(s: State)
    requires Inv(s)
    ensures s.mirrors != map[] ==> s.jobs > 0
  {
    if m :| m in s.mirrors {
      assert MirrorOk(s, m);
    }
  }

  lemma NoJobsWithin(jobs: nat, reapCount: nat, reuse: bool, shut: bool, es: seq<Event>, ss: seq<State>)
    requires reapCount >= 1 && jobs == 0
    requires IsPath(Steps(reuse, shut), es, ss) && ss[0] == InitialState(jobs, reapCount)
    ensures |ExecutingTasks(ss[|es|])| <= jobs
  {
    InitialInv(jobs, reapCount);
    var inv: State -> bool := s => Inv(s) && s.jobs == 0;
    forall s, e, s' | inv(s) && Steps(reuse, shut)(s, e, s')
      ensures inv(s')
    {
      StepInv(s, e);
      SizesKept(s, e);
    }
    Kept(Steps(reuse, shut), inv, es, ss, |es|);
    MirrorsNeedJobs(ss[|es|]);
    WithinJobs(ss[|es|]);
  }

  // ---------------------------------------------------------------- more commands than jobs

  lemma {:induction false} Bound(a: set<nat>) returns (n: nat)
    ensures forall x :: x in a ==> x < n
    decreases |a|
  {
    n := 0;
    if a != {} {
      var x :| x in a;
      var b := Bound(a - {x});
      n := if b <= x then x + 1 else b;
      assert forall y :: y in a ==> y == x || y in a - {x};
    }
  }

  /** Nothing but the tasks and file systems of `m` has changed. */
  predicate Alongside(s: State, s': State, m: nat) {
    && m in s.mirrors && m in s'.mirrors
    && s' == s.(tasks := s'.tasks, mirrors := s.mirrors[m := s'.mirrors[m]])
    && s'.mirrors[m] == s.mirrors[m].(fses := s'.mirrors[m].fses, active := s'.mirrors[m].active)
  }

  lemma StillAlongside(s: State, s1: State, s2: State, m: nat)
    requires Alongside(s, s1, m) && Alongside(s1, s2, m)
    ensures Alongside(s, s2, m)
  {
  }

  lemma AlongsideGrants(s: State, s': State, m: nat)
    requires Inv(s) && Alongside(s, s', m)
    ensures Grants(s') == Grants(s)
  {
  }

  lemma NextJoin(s: State, m: nat) returns (e: Event)
    requires !s.dead && m in s.mirrors && s.mirrors[m].accepting && |Counted(s, m)| < s.mirrors[m].granted
    ensures e.Join? && e.mirror == m && Enabled(s, e)
  {
    var t := Bound(s.tasks.Keys);
    if f :| Joinable(s, m, f) {
      e := Join(t, m, f);
    } else {
      var f := Bound(s.mirrors[m].fses.Keys);
      e := Join(t, m, f);
    }
  }

  lemma JoinStep(s: State, t: nat, m: nat, f: nat)
    requires Inv(s) && Enabled(s, Join(t, m, f))
    ensures var s' := Joined(s, t, m, f);
      Next(s, Join(t, m, f), s') && Inv(s') && |Counted(s', m)| == |Counted(s, m)| + 1
  {
    JoinInv(s, t, m, f);
    JoinedCount(s, t, m, f);
  }

  lemma JoinedAlongside(s: State, t: nat, m: nat, f: nat)
    requires m in s.mirrors && t !in s.tasks
    ensures var s' := Joined(s, t, m, f);
      && Alongside(s, s', m) && t in s'.tasks && s'.tasks[t] == Inside(m, f, Waiting)
      && f in s'.mirrors[m].active && FsAt(s', m, f) && ExecutingTasks(s') == ExecutingTasks(s)
  {
  }

  lemma PrepareStep(s: State, t: nat, m: nat, f: nat)
    requires Inv(s) && !s.dead && FsAt(s, m, f) && t in s.tasks && s.tasks[t] == Inside(m, f, Waiting)
    ensures var s' := Staged(s, t, Prepared);
      Next(s, Prepare(t), s') && Inv(s') && ExecutingTasks(s') == ExecutingTasks(s) && Counted(s', m) == Counted(s, m)
  {
    StageInv(s, t, Prepared);
    StagedSets(s, t, m, f, Prepared);
  }

  lemma StagedSets(s: State, t: nat, m: nat, f: nat, stage: Stage)
    requires m in s.mirrors && t in s.tasks && s.tasks[t].Inside? && s.tasks[t].stage != Executing
    ensures var s' := Staged(s, t, stage);
      && Counted(s', m) == Counted(s, m) && t !in ExecutingTasks(s)
      && ExecutingTasks(s') == ExecutingTasks(s) + (if stage == Executing then {t} else {})
  {
  }

  lemma ExecuteStep(s: State, t: nat, m: nat, f: nat)
    requires Inv(s) && !s.dead && FsAt(s, m, f) && f in s.mirrors[m].active
    requires t in s.tasks && s.tasks[t] == Inside(m, f, Prepared)
    ensures var s' := Staged(s, t, Executing);
      && Next(s, Execute(t), s') && Inv(s') && Counted(s', m) == Counted(s, m)
      && ExecutingTasks(s') == ExecutingTasks(s) + {t} && t !in ExecutingTasks(s)
  {
    StageInv(s, t, Executing);
    StagedSets(s, t, m, f, Executing);
  }

  /** A mirror that has not used up its grant can have one more command executing. */
  lemma StartOne(s: State, m: nat, reuse: bool, shut: bool) returns (es: seq<Event>, ss: seq<State>, s': State)
    requires Inv(s) && !s.dead && m in s.mirrors && s.mirrors[m].accepting && |Counted(s, m)| < s.mirrors[m].granted
    ensures Leads(Steps(reuse, shut), es, ss, s, s') && Inv(s') && Alongside(s, s', m)
    ensures |ExecutingTasks(s')| == |ExecutingTasks(s)| + 1 && |Counted(s', m)| == |Counted(s, m)| + 1
  {
    var e := NextJoin(s, m);
    var t, f := e.task, e.fs;
    var s1, s2;
    s1, s2, s' := StartStates(s, t, m, f);
    Ordinary(s, Join(t, m, f), s1, reuse, shut);
    Ordinary(s1, Prepare(t), s2, reuse, shut);
    Ordinary(s2, Execute(t), s', reuse, shut);
    es, ss := OfThree(Steps(reuse, shut), s, Join(t, m, f), s1, Prepare(t), s2, Execute(t), s');
  }

  /** Steps that are in every kind of run. */
  lemma Ordinary(s: State, e: Event, s': State, reuse: bool, shut: bool)
    requires Next(s, e, s') && !e.Get? && !e.Empty?
    ensures Steps(reuse, shut)(s, e, s')
  {
  }

  lemma StartStates(s: State, t: nat, m: nat, f: nat) returns (s1: State, s2: State, s3: State)
    requires Inv(s) && Enabled(s, Join(t, m, f))
    ensures Next(s, Join(t, m, f), s1) && Next(s1, Prepare(t), s2) && Next(s2, Execute(t), s3)
    ensures Inv(s3) && Alongside(s, s3, m)
    ensures |ExecutingTasks(s3)| == |ExecutingTasks(s)| + 1 && |Counted(s3, m)| == |Counted(s, m)| + 1
  {
    JoinStep(s, t, m, f);
    JoinedAlongside(s, t, m, f);
    s1 := Joined(s, t, m, f);
    PrepareStep(s1, t, m, f);
    s2 := Staged(s1, t, Prepared);
    ExecuteStep(s2, t, m, f);
    s3 := Staged(s2, t, Executing);
  }

  lemma AdmitStep(s: State, c: nat, s': State)
    requires !s.dead && s.accepting && c !in s.calls && s' == s.(calls := s.calls + {c})
    ensures Next(s, Admit(c), s')
  {
  }

  /** It can have as many as it was granted. */
  lemma {:induction false} StartMany(s: State, m: nat, n: nat, reuse: bool, shut: bool)
    returns (es: seq<Event>, ss: seq<State>, s': State)
    requires Inv(s) && !s.dead && m in s.mirrors && s.mirrors[m].accepting
    requires |Counted(s, m)| + n <= s.mirrors[m].granted
    ensures Leads(Steps(reuse, shut), es, ss, s, s') && Inv(s') && Alongside(s, s', m)
    ensures |ExecutingTasks(s')| == |ExecutingTasks(s)| + n
    decreases n
  {
    if n == 0 {
      s' := s;
      es, ss := Stay(Steps(reuse, shut), s);
    } else {
      var s1;
      es, ss, s1 := StartOne(s, m, reuse, shut);
      var fs, ts;
      fs, ts, s' := StartMany(s1, m, n - 1, reuse, shut);
      es, ss := Append(Steps(reuse, shut), es, ss, s, s1, fs, ts, s');
      StillAlongside(s, s1, s', m);
    }
  }

  lemma GetStep(s: State, c: nat, key: string, reserve: nat, m: nat)
    requires Inv(s) && Enabled(s, Get(c, key, reserve, m))
    ensures var s' := Granted(s, c, key, reserve, m);
      && Next(s, Get(c, key, reserve, m), s') && Inv(s') && !s'.dead && m in s'.mirrors
      && s'.mirrors[m].accepting && Counted(s', m) == {} && ExecutingTasks(s') == ExecutingTasks(s)
      && s'.mirrors[m].granted == (if s.jobs - Total(Grants(s)) < reserve then s.jobs - Total(Grants(s)) else reserve)
      && Grants(s') == Grants(s)[key := s'.mirrors[m].granted]
  {
    GetInv(s, c, key, reserve, m);
    GetGrants(s, c, key, reserve, m);
    forall t | t in s.tasks
      ensures TaskOk(s, t)
    {
    }
  }

  /** A step after which a mirror is ready to serve, and as many commands in it. */
  lemma Serve(s: State, e: Event, s1: State, m: nat, n: nat, reuse: bool, shut: bool)
    returns (es: seq<Event>, ss: seq<State>, s': State)
    requires Steps(reuse, shut)(s, e, s1) && Inv(s1) && Ready(s1, m, n)
    ensures Leads(Steps(reuse, shut), es, ss, s, s') && Inv(s') && Alongside(s1, s', m)
    ensures |ExecutingTasks(s')| == |ExecutingTasks(s1)| + n
  {
    es, ss := Stay(Steps(reuse, shut), s);
    es, ss := Then(Steps(reuse, shut), es, ss, s, s, e, s1);
    var fs, ts;
    fs, ts, s' := StartMany(s1, m, n, reuse, shut);
    es, ss := Append(Steps(reuse, shut), es, ss, s, s1, fs, ts, s');
  }

  predicate Ready(s: State, m: nat, n: nat) {
    !s.dead && m in s.mirrors && s.mirrors[m].accepting && Counted(s, m) == {} && n <= s.mirrors[m].granted
  }

  /** If more commands execute than are accounted for, one more master brings the worker over its jobs. */
  lemma Overfull(s: State, c: nat, key: string, m: nat, reuse: bool, shut: bool)
    returns (es: seq<Event>, ss: seq<State>, s': State)
    requires Inv(s) && !s.dead && c in s.calls && m !in s.mirrors && Fresh(s, Get(c, key, s.jobs, m))
    requires Total(Grants(s)) < s.jobs && |ExecutingTasks(s)| > Total(Grants(s))
    ensures Leads(Steps(reuse, shut), es, ss, s, s') && |ExecutingTasks(s')| > s.jobs
  {
    GetStep(s, c, key, s.jobs, m);
    var s1 := Granted(s, c, key, s.jobs, m);
    es, ss, s' := Serve(s, Get(c, key, s.jobs, m), s1, m, s.jobs - Total(Grants(s)), reuse, shut);
  }

  lemma RefuseStep(s: State, s': State)
    requires !s.dead && s' == s.(accepting := false)
    ensures Next(s, Refuse, s')
  {
  }

  lemma ListStep(s: State, w: nat, s': State)
    requires !s.dead && !s.accepting && s.sweeps == map[] && s.registry == map[] && s' == s.(sweeps := map[w := {}])
    ensures Next(s, List(w), s')
  {
    assert s.registry.Values == {};
  }

  /** Two masters are let in before the worker is shut down and lists its mirrors. */
  lemma MirrorsListed(jobs: nat, reapCount: nat, reuse: bool) returns (es: seq<Event>, ss: seq<State>, s: State)
    requires reapCount >= 1
    ensures Leads(Steps(reuse, true), es, ss, InitialState(jobs, reapCount), s) && Inv(s) && !s.dead && s.jobs == jobs
    ensures s.calls == {0, 1} && s.sweeps == map[0 := {}] && s.mirrors == map[] && Grants(s) == map[]
    ensures ExecutingTasks(s) == {}
  {
    var next := Steps(reuse, true);
    var s0 := InitialState(jobs, reapCount);
    var s1 := s0.(calls := {0});
    var s2 := s0.(calls := {0, 1});
    var s3 := s2.(accepting := false);
    s := s3.(sweeps := map[0 := {}]);
    es, ss := Stay(next, s0);
    assert s0.calls + {0} == {0} && s1.calls + {1} == {0, 1};
    AdmitStep(s0, 0, s1);
    AdmitStep(s1, 1, s2);
    es, ss := Then(next, es, ss, s0, s0, Admit(0), s1);
    es, ss := Then(next, es, ss, s0, s1, Admit(1), s2);
    RefuseStep(s2, s3);
    es, ss := Then(next, es, ss, s0, s2, Refuse, s3);
    ListStep(s3, 0, s);
    es, ss := Then(next, es, ss, s0, s3, List(0), s);
    InitialInv(jobs, reapCount);
    AsideInv(s0, s);
  }

  /** One of them registers only then, and fills all jobs. */
  lemma LateMaster(jobs: nat, reapCount: nat, reuse: bool, key: string)
    returns (es: seq<Event>, ss: seq<State>, s: State)
    requires jobs >= 1 && reapCount >= 1
    ensures Leads(Steps(reuse, true), es, ss, InitialState(jobs, reapCount), s) && Inv(s) && !s.dead && s.jobs == jobs
    ensures s.calls == {1} && s.sweeps == map[0 := {}] && s.mirrors.Keys == {0} && s.mirrors[0].key == key
    ensures |ExecutingTasks(s)| == jobs
  {
    var next := Steps(reuse, true);
    var s0 := InitialState(jobs, reapCount);
    var s1;
    es, ss, s1 := MirrorsListed(jobs, reapCount, reuse);
    var fs, ts;
    fs, ts, s := AllServed(s1, reuse, key);
    es, ss := Append(next, es, ss, s0, s1, fs, ts, s);
  }

  lemma AllServed(s: State, reuse: bool, key: string) returns (es: seq<Event>, ss: seq<State>, s': State)
    requires Inv(s) && !s.dead && s.jobs >= 1 && s.calls == {0, 1} && s.sweeps == map[0 := {}] && s.mirrors == map[]
    requires Grants(s) == map[] && ExecutingTasks(s) == {}
    ensures Leads(Steps(reuse, true), es, ss, s, s') && Inv(s') && !s'.dead && s'.jobs == s.jobs
    ensures s'.calls == {1} && s'.sweeps == map[0 := {}] && s'.mirrors.Keys == {0} && s'.mirrors[0].key == key
    ensures |ExecutingTasks(s')| == s.jobs
  {
    var e, s1 := LateGet(s, key);
    es, ss, s' := Serve(s, e, s1, 0, s.jobs, reuse, true);
    AlongsideFacts(s1, s', 0);
  }

  lemma AlongsideFacts(s: State, s': State, m: nat)
    requires Alongside(s, s', m)
    ensures s'.calls == s.calls && s'.sweeps == s.sweeps && s'.dead == s.dead && s'.jobs == s.jobs
    ensures s'.mirrors.Keys == s.mirrors.Keys && s'.mirrors[m].key == s.mirrors[m].key
  {
  }

  lemma LateGet(s: State, key: string) returns (e: Event, s': State)
    requires Inv(s) && !s.dead && s.jobs >= 1 && s.calls == {0, 1} && s.mirrors == map[] && Grants(s) == map[]
    ensures Next(s, e, s') && Fresh(s, e) && !e.Empty? && Inv(s') && Ready(s', 0, s.jobs) && s'.jobs == s.jobs
    ensures s'.calls == {1} && s'.sweeps == s.sweeps && s'.mirrors.Keys == {0} && s'.mirrors[0].key == key
    ensures ExecutingTasks(s') == ExecutingTasks(s)
  {
    assert Total(Grants(s)) == 0;
    e := Get(0, key, s.jobs, 0);
    GetStep(s, 0, key, s.jobs, 0);
    s' := Granted(s, 0, key, s.jobs, 0);
    GrantedFacts(s, 0, key, s.jobs, 0);
    LateFacts(s'.calls, s'.mirrors.Keys);
  }

  lemma GrantedFacts(s: State, c: nat, key: string, reserve: nat, m: nat)
    requires Total(Grants(s)) < s.jobs
    ensures var s' := Granted(s, c, key, reserve, m);
      && s'.calls == s.calls - {c} && s'.sweeps == s.sweeps && s'.jobs == s.jobs
      && s'.mirrors.Keys == s.mirrors.Keys + {m} && s'.mirrors[m].key == key
  {
    var s' := Granted(s, c, key, reserve, m);
    KeysPut(s.mirrors, m, s'.mirrors[m]);
  }

  lemma KeysPut(mirrors: map<nat, Mirror>, m: nat, mirror: Mirror)
    ensures mirrors[m := mirror].Keys == mirrors.Keys + {m}
  {
  }

  lemma LateFacts(calls: set<nat>, keys: set<nat>)
    requires calls == {0, 1} - {0} && keys == {} + {0}
    ensures calls == {1} && keys == {0}
  {
  }

  /** The worker then empties its map, and the other is granted all jobs again. */
  lemma EmptiedOverruns(jobs: nat, reapCount: nat, reuse: bool, a: string, b: string)
    returns (es: seq<Event>, ss: seq<State>, s: State)
    requires jobs >= 1 && reapCount >= 1 && a != b
    ensures Leads(Steps(reuse, true), es, ss, InitialState(jobs, reapCount), s) && |ExecutingTasks(s)| > jobs
  {
    var next := Steps(reuse, true);
    var s0 := InitialState(jobs, reapCount);
    var s1;
    es, ss, s1 := LateMaster(jobs, reapCount, reuse, a);
    var s2 := s1.(registry := map[], sweeps := map[]);
    EmptyStep(s1, 0, s2);
    es, ss := Then(next, es, ss, s0, s1, Empty(0), s2);
    EmptyInv(s1, s2);
    assert Grants(s2) == map[] && ExecutingTasks(s2) == ExecutingTasks(s1);
    var fs, ts;
    fs, ts, s := Overfull(s2, 1, b, 1, reuse, true);
    es, ss := Append(next, es, ss, s0, s2, fs, ts, s);
  }

  lemma EmptyStep(s: State, w: nat, s': State)
    requires !s.dead && s.sweeps == map[w := {}] && s' == s.(registry := map[], sweeps := map[])
    ensures Next(s, Empty(w), s')
  {
    assert s.sweeps - {w} == map[];
  }

  /** Three masters are let in; two register from the same address, and each has a command executing. */
  lemma ReusedOverruns(jobs: nat, reapCount: nat, shut: bool) returns (es: seq<Event>, ss: seq<State>, s: State)
    requires jobs >= 2 && reapCount >= 1
    ensures Leads(Steps(true, shut), es, ss, InitialState(jobs, reapCount), s) && |ExecutingTasks(s)| > jobs
  {
    var next := Steps(true, shut);
    var s0 := InitialState(jobs, reapCount);
    var fs, ts, s1;
    es, ss, s1 := TwoServed(jobs, reapCount, shut);
    TotalOne("a");
    fs, ts, s := Overfull(s1, 2, "b", 2, true, shut);
    es, ss := Append(next, es, ss, s0, s1, fs, ts, s);
  }

  lemma TwoServed(jobs: nat, reapCount: nat, shut: bool) returns (es: seq<Event>, ss: seq<State>, s: State)
    requires jobs >= 2 && reapCount >= 1
    ensures Leads(Steps(true, shut), es, ss, InitialState(jobs, reapCount), s) && Inv(s) && !s.dead && s.jobs == jobs
    ensures s.calls == {2} && s.mirrors.Keys == {0, 1} && s.mirrors[0].key == s.mirrors[1].key == "a"
    ensures Grants(s) == map["a" := 1] && |ExecutingTasks(s)| == 2
  {
    var next := Steps(true, shut);
    var s0 := InitialState(jobs, reapCount);
    var s1;
    es, ss, s1 := FirstServed(jobs, reapCount, shut);
    TotalOne("a");
    var fs, ts;
    fs, ts, s := OneServed(s1, 1, "a", 1, shut);
    es, ss := Append(next, es, ss, s0, s1, fs, ts, s);
    SecondFacts(s.calls, s.mirrors.Keys, Grants(s));
  }

  lemma SecondFacts(calls: set<nat>, keys: set<nat>, grants: map<string, nat>)
    requires calls == {1, 2} - {1} && keys == {0} + {1} && grants == map["a" := 1]["a" := 1]
    ensures calls == {2} && keys == {0, 1} && grants == map["a" := 1]
  {
  }

  lemma FirstServed(jobs: nat, reapCount: nat, shut: bool) returns (es: seq<Event>, ss: seq<State>, s: State)
    requires jobs >= 2 && reapCount >= 1
    ensures Leads(Steps(true, shut), es, ss, InitialState(jobs, reapCount), s) && Inv(s) && !s.dead && s.jobs == jobs
    ensures s.calls == {1, 2} && s.mirrors.Keys == {0} && s.mirrors[0].key == "a"
    ensures Grants(s) == map["a" := 1] && |ExecutingTasks(s)| == 1
  {
    var next := Steps(true, shut);
    var s0 := InitialState(jobs, reapCount);
    var s1;
    es, ss, s1 := ThreeAdmitted(jobs, reapCount, shut);
    assert Total(Grants(s1)) == 0;
    var fs, ts;
    fs, ts, s := OneServed(s1, 0, "a", 0, shut);
    es, ss := Append(next, es, ss, s0, s1, fs, ts, s);
    FirstFacts(s.calls, s1.mirrors.Keys, s.mirrors.Keys, Grants(s));
  }

  lemma FirstFacts(calls: set<nat>, before: set<nat>, after: set<nat>, grants: map<string, nat>)
    requires calls == {0, 1, 2} - {0} && before == {} && after == before + {0} && grants == map[]["a" := 1]
    ensures calls == {1, 2} && after == {0} && grants == map["a" := 1]
  {
  }

  lemma TotalOne(k: string)
    ensures Total(map[k := 1]) == 1
  {
    TotalAt(map[k := 1], k);
    assert map[k := 1] - {k} == map[];
  }

  lemma ThreeAdmitted(jobs: nat, reapCount: nat, shut: bool) returns (es: seq<Event>, ss: seq<State>, s: State)
    requires reapCount >= 1
    ensures Leads(Steps(true, shut), es, ss, InitialState(jobs, reapCount), s)
    ensures Inv(s) && !s.dead && s.jobs == jobs && s.calls == {0, 1, 2} && s.mirrors == map[]
    ensures Grants(s) == map[] && ExecutingTasks(s) == {}
  {
    var next := Steps(true, shut);
    var s0 := InitialState(jobs, reapCount);
    var s1, s2 := s0.(calls := {0}), s0.(calls := {0, 1});
    s := s0.(calls := {0, 1, 2});
    assert s0.calls + {0} == {0} && s1.calls + {1} == {0, 1} && s2.calls + {2} == {0, 1, 2};
    AdmitStep(s0, 0, s1);
    AdmitStep(s1, 1, s2);
    AdmitStep(s2, 2, s);
    es, ss := Stay(next, s0);
    es, ss := Then(next, es, ss, s0, s0, Admit(0), s1);
    es, ss := Then(next, es, ss, s0, s1, Admit(1), s2);
    es, ss := Then(next, es, ss, s0, s2, Admit(2), s);
    InitialInv(jobs, reapCount);
    AsideInv(s0, s);
  }

  /** A mirror for one job, and a command executing in it. */
  lemma OneServed(s: State, c: nat, key: string, m: nat, shut: bool) returns (es: seq<Event>, ss: seq<State>, s': State)
    requires Inv(s) && !s.dead && c in s.calls && m !in s.mirrors && Total(Grants(s)) < s.jobs
    ensures Leads(Steps(true, shut), es, ss, s, s') && Inv(s') && !s'.dead && s'.jobs == s.jobs
    ensures s'.calls == s.calls - {c} && s'.mirrors.Keys == s.mirrors.Keys + {m} && s'.mirrors[m].key == key
    ensures forall n :: n in s.mirrors ==> s'.mirrors[n] == s.mirrors[n]
    ensures Grants(s') == Grants(s)[key := 1] && |ExecutingTasks(s')| == |ExecutingTasks(s)| + 1
  {
    GetStep(s, c, key, 1, m);
    var s1 := Granted(s, c, key, 1, m);
    es, ss, s' := Serve(s, Get(c, key, 1, m), s1, m, 1, true, shut);
    AlongsideGrants(s1, s', m);
    ServedAlone(s, s1, s', c, key, m);
  }

  lemma ServedAlone(s: State, s1: State, s': State, c: nat, key: string, m: nat)
    requires Enabled(s, Get(c, key, 1, m)) && s1 == Granted(s, c, key, 1, m) && Alongside(s1, s', m)
    ensures !s'.dead && s'.jobs == s.jobs && s'.calls == s.calls - {c}
    ensures s'.mirrors.Keys == s.mirrors.Keys + {m} && s'.mirrors[m].key == key
    ensures forall n :: n in s.mirrors ==> s'.mirrors[n] == s.mirrors[n]
  {
  }

  // ---------------------------------------------------------------- exactly when the worker keeps to its jobs

  ghost predicate AlwaysWithin(jobs: nat, reapCount: nat, reuse: bool, shut: bool) {
    forall es, ss :: IsPath(Steps(reuse, shut), es, ss) && ss[0] == InitialState(jobs, reapCount) ==>
      |ExecutingTasks(ss[|es|])| <= jobs
  }

  /** For every ReapCount: in all runs with fresh addresses and no shutdown of the worker, there are never
      more commands executing than jobs. With addresses that are used again this is so if and only if
      there is one job at most; with shutdowns of the worker, if and only if there is none. */
  lemma WithinJobsIff(jobs: nat, reapCount: nat, reuse: bool, shut: bool)
    requires reapCount >= 1
    ensures AlwaysWithin(jobs, reapCount, reuse, shut) <==> (reuse ==> jobs <= 1) && (shut ==> jobs == 0)
  {
    if (reuse ==> jobs <= 1) && (shut ==> jobs == 0) {
      forall es, ss | IsPath(Steps(reuse, shut), es, ss) && ss[0] == InitialState(jobs, reapCount)
        ensures |ExecutingTasks(ss[|es|])| <= jobs
      {
        if shut {
          NoJobsWithin(jobs, reapCount, reuse, shut, es, ss);
        } else {
          HeldWithin(jobs, reapCount, reuse, es, ss);
        }
      }
    } else if shut && jobs >= 1 {
      var es, ss, s := EmptiedOverruns(jobs, reapCount, reuse, "a", "b");
    } else {
      var es, ss, s := ReusedOverruns(jobs, reapCount, shut);
    }
  }
}
