/** A worker that serves several masters: letting them in, reserving jobs, running commands, shutting
    mirrors down and dropping them, and its own shutdown, as one machine. */
module Workers {
  import opened Jobs

  /** workerFuseFs: the tasks in it, how many ids it has taken since it was last prepared, and whether
      it is being reaped. */
  datatype Fs = Fs(tasks: set<nat>, ids: nat, reaping: bool)

  /** `fses` are all its file systems, `active` those it still counts, which are those still mounted. */
  datatype Mirror = Mirror(key: string, granted: nat, accepting: bool, dropped: bool,
                           fses: map<nat, Fs>, active: set<nat>)

  /** What a task does in its file system: nothing yet, make its command, run it, wind up. */
  datatype Stage = Waiting | Prepared | Executing | Ended

  /** A task that has left its file system has yet to return it. */
  datatype Task = Inside(mirror: nat, fs: nat, stage: Stage) | Left(mirror: nat, fs: nat) | Over

  /** `calls` are the calls of CreateMirror that have passed its test of `accepting`; `sweeps` the lists
      of mirrors that shutdowns of the worker wait for; `dead` that it panicked. */
  datatype State = State(jobs: nat, reapCount: nat, accepting: bool, dead: bool, calls: set<nat>,
                         sweeps: map<nat, set<nat>>, registry: map<string, nat>,
                         mirrors: map<nat, Mirror>, tasks: map<nat, Task>)

  datatype Event =
    | Admit(call: nat)
    | Get(call: nat, key: string, reserve: nat, mirror: nat)
    | Join(task: nat, mirror: nat, fs: nat)
    | Prepare(task: nat)
    | Execute(task: nat)
    | End(task: nat)
    | Leave(task: nat)
    | Return(task: nat)
    | Shutdown(mirror: nat, aggressive: bool)
    | Drop(mirror: nat)
    | Refuse
    | List(sweep: nat)
    | Empty(sweep: nat)

  function InitialState(jobs: nat, reapCount: nat): State {
    State(jobs, reapCount, true, false, {}, map[], map[], map[], map[])
  }

  function Grants(s: State): map<string, nat> {
    map k | k in s.registry && s.registry[k] in s.mirrors :: s.mirrors[s.registry[k]].granted
  }

  function ExecutingTasks(s: State): set<nat> {
    set t | t in s.tasks && s.tasks[t].Inside? && s.tasks[t].stage == Executing
  }

  predicate InFs(s: State, t: nat, m: nat, f: nat) {
    t in s.tasks && s.tasks[t].Inside? && s.tasks[t].mirror == m && s.tasks[t].fs == f
  }

  /** runningCount looks at the active file systems only. */
  function Counted(s: State, m: nat): set<nat>
    requires m in s.mirrors
  {
    set t | t in s.tasks && s.tasks[t].Inside? && s.tasks[t].mirror == m && s.tasks[t].fs in s.mirrors[m].active
  }

  predicate Joinable(s: State, m: nat, f: nat)
    requires m in s.mirrors
  {
    && f in s.mirrors[m].active && f in s.mirrors[m].fses
    && !s.mirrors[m].fses[f].reaping && s.mirrors[m].fses[f].ids < s.reapCount
  }

  predicate FsAt(s: State, m: nat, f: nat) {
    m in s.mirrors && f in s.mirrors[m].fses
  }

  /** It still accepts tasks, or Shutdown still waits for it. */
  predicate Live(m: Mirror) {
    m.accepting || m.active != {}
  }

  predicate At(s: State, t: nat, stages: set<Stage>) {
    t in s.tasks && s.tasks[t].Inside? && s.tasks[t].stage in stages && FsAt(s, s.tasks[t].mirror, s.tasks[t].fs)
  }

  /** A command executes in a mounted file system only; making it can fail at any time. */
  ghost predicate EnabledAlive(s: State, e: Event) {
    match e
    case Admit(c) => s.accepting && c !in s.calls
    case Get(c, _, reserve, m) => c in s.calls && m !in s.mirrors && reserve > 0 && Total(Grants(s)) < s.jobs
    case Join(t, m, f) =>
      && t !in s.tasks && m in s.mirrors && s.mirrors[m].accepting && |Counted(s, m)| < s.mirrors[m].granted
      && (Joinable(s, m, f) || (f !in s.mirrors[m].fses && forall g :: !Joinable(s, m, g)))
    case Prepare(t) => At(s, t, {Waiting})
    case Execute(t) => At(s, t, {Prepared}) && s.tasks[t].fs in s.mirrors[s.tasks[t].mirror].active
    case End(t) => At(s, t, {Prepared, Executing})
    case Leave(t) => At(s, t, {Ended})
    case Return(t) => t in s.tasks && s.tasks[t].Left? && FsAt(s, s.tasks[t].mirror, s.tasks[t].fs)
    case Shutdown(m, _) => m in s.mirrors
    case Drop(m) => m in s.mirrors && !s.mirrors[m].dropped && !Live(s.mirrors[m])
    case Refuse => true
    case List(w) => !s.accepting && w !in s.sweeps
    case Empty(w) => w in s.sweeps && forall m :: m in s.sweeps[w] ==> m in s.mirrors && !Live(s.mirrors[m])
  }

  ghost predicate Enabled(s: State, e: Event) {
    !s.dead && EnabledAlive(s, e)
  }

  /** A command executes in the file system and keeps it from being unmounted. */
  predicate Busy(s: State, m: nat, f: nat) {
    exists t :: t in s.tasks && s.tasks[t] == Inside(m, f, Executing)
  }

  /** A task counted by the mirror has no command yet that could be killed. */
  predicate Unprepared(s: State, m: nat)
    requires m in s.mirrors
  {
    exists t :: t in Counted(s, m) && s.tasks[t].stage == Waiting
  }

  /** The worker panics: on unmounting a busy file system, or on killing a command that is not there. */
  predicate Fatal(s: State, e: Event) {
    match e
    case Return(t) =>
      && t in s.tasks && s.tasks[t].Left? && s.tasks[t].mirror in s.mirrors
      && !s.mirrors[s.tasks[t].mirror].accepting && Busy(s, s.tasks[t].mirror, s.tasks[t].fs)
    case Shutdown(m, aggressive) => aggressive && m in s.mirrors && Unprepared(s, m)
    case _ => false
  }

  function WithMirror(s: State, m: nat, mirror: Mirror): State {
    s.(mirrors := s.mirrors[m := mirror])
  }

  function Joined(s: State, t: nat, m: nat, f: nat): State
    requires m in s.mirrors
  {
    var mirror := s.mirrors[m];
    var fs := if f in mirror.fses then mirror.fses[f] else Fs({}, 0, false);
    WithMirror(s, m, mirror.(fses := mirror.fses[f := Fs(fs.tasks + {t}, fs.ids + 1, fs.reaping)],
                             active := mirror.active + {f}))
      .(tasks := s.tasks[t := Inside(m, f, Waiting)])
  }

  function Staged(s: State, t: nat, stage: Stage): State
    requires t in s.tasks && s.tasks[t].Inside?
  {
    s.(tasks := s.tasks[t := s.tasks[t].(stage := stage)])
  }

  /** considerReap. */
  function Leaves(s: State, t: nat): State
    requires At(s, t, {Ended})
  {
    var m, f := s.tasks[t].mirror, s.tasks[t].fs;
    var fs := s.mirrors[m].fses[f];
    var rest := fs.tasks - {t};
    WithMirror(s, m, s.mirrors[m].(fses := s.mirrors[m].fses[f := Fs(rest, fs.ids, fs.reaping || rest == {})]))
      .(tasks := s.tasks[t := Left(m, f)])
  }

  /** returnFs. */
  function Returned(s: State, t: nat): State
    requires t in s.tasks && s.tasks[t].Left? && FsAt(s, s.tasks[t].mirror, s.tasks[t].fs)
  {
    var m, f := s.tasks[t].mirror, s.tasks[t].fs;
    var mirror := s.mirrors[m];
    var fs := mirror.fses[f];
    var fs' := if fs.reaping then Fs(fs.tasks, 0, false) else fs;
    WithMirror(s, m, mirror.(fses := mirror.fses[f := fs'],
                             active := if mirror.accepting then mirror.active else mirror.active - {f}))
      .(tasks := s.tasks[t := Over])
  }

  function ShutDown(s: State, m: nat): State
    requires m in s.mirrors
  {
    var mirror := s.mirrors[m];
    WithMirror(s, m, mirror.(accepting := false,
                             active := set f | f in mirror.active && f in mirror.fses && mirror.fses[f].tasks != {}))
  }

  function Dropped(s: State, m: nat): State
    requires m in s.mirrors
  {
    WithMirror(s, m, s.mirrors[m].(dropped := true)).(registry := s.registry - {s.mirrors[m].key})
  }

  ghost function Granted(s: State, c: nat, key: string, reserve: nat, m: nat): State
    requires Total(Grants(s)) < s.jobs
  {
    var left := s.jobs - Total(Grants(s));
    var granted := if left < reserve then left else reserve;
    WithMirror(s, m, Mirror(key, granted, true, false, map[], {}))
      .(registry := s.registry[key := m], calls := s.calls - {c})
  }

  ghost function Apply(s: State, e: Event): State
    requires Enabled(s, e)
  {
    if Fatal(s, e) then s.(dead := true)
    else
      match e
      case Admit(c) => s.(calls := s.calls + {c})
      case Get(c, key, reserve, m) => Granted(s, c, key, reserve, m)
      case Join(t, m, f) => Joined(s, t, m, f)
      case Prepare(t) => Staged(s, t, Prepared)
      case Execute(t) => Staged(s, t, Executing)
      case End(t) => Staged(s, t, Ended)
      case Leave(t) => Leaves(s, t)
      case Return(t) => Returned(s, t)
      case Shutdown(m, _) => ShutDown(s, m)
      case Drop(m) => Dropped(s, m)
      case Refuse => s.(accepting := false)
      case List(w) => s.(sweeps := s.sweeps[w := s.registry.Values])
      case Empty(w) => s.(registry := map[], sweeps := s.sweeps - {w})
  }

  // ---------------------------------------------------------------- what every run keeps

  ghost predicate FsOk(s: State, m: nat, f: nat)
    requires FsAt(s, m, f)
  {
    var fs := s.mirrors[m].fses[f];
    && (forall t :: t in fs.tasks <==> InFs(s, t, m, f))
    && |fs.tasks| <= fs.ids <= s.reapCount
    && (fs.reaping ==> fs.tasks == {})
  }

  ghost predicate MirrorOk(s: State, m: nat)
    requires m in s.mirrors
  {
    && s.mirrors[m].active <= s.mirrors[m].fses.Keys
    && (forall f :: f in s.mirrors[m].fses ==> FsOk(s, m, f))
    && |Counted(s, m)| <= s.mirrors[m].granted && 0 < s.mirrors[m].granted <= s.jobs
    && (s.mirrors[m].dropped ==> !Live(s.mirrors[m]))
  }

  ghost predicate KeysOk(s: State) {
    forall k :: k in s.registry ==>
      s.registry[k] in s.mirrors && s.mirrors[s.registry[k]].key == k && !s.mirrors[s.registry[k]].dropped
  }

  ghost predicate MirrorsOk(s: State) {
    forall m :: m in s.mirrors ==> MirrorOk(s, m)
  }

  predicate TaskOk(s: State, t: nat)
    requires t in s.tasks
  {
    s.tasks[t].Over? ||
    (&& FsAt(s, s.tasks[t].mirror, s.tasks[t].fs)
     && (s.tasks[t].Inside? && s.tasks[t].stage == Executing ==> s.tasks[t].fs in s.mirrors[s.tasks[t].mirror].active))
  }

  predicate TasksOk(s: State) {
    forall t :: t in s.tasks ==> TaskOk(s, t)
  }

  ghost predicate Inv(s: State) {
    1 <= s.reapCount && Total(Grants(s)) <= s.jobs && KeysOk(s) && MirrorsOk(s) && TasksOk(s)
  }

  lemma SubsetSize(a: set<nat>, b: set<nat>)
    requires a <= b
    ensures |a| <= |b|
  {
    if a != {} {
      var x :| x in a;
      SubsetSize(a - {x}, b - {x});
    }
  }

  /** The same tasks are in the file systems of `m`. */
  ghost predicate SameIn(s: State, s': State, m: nat) {
    forall t, f :: InFs(s', t, m, f) <==> InFs(s, t, m, f)
  }

  lemma SameCounted(s: State, s': State, m: nat)
    requires m in s.mirrors && m in s'.mirrors && SameIn(s, s', m) && s'.mirrors[m].active <= s.mirrors[m].active
    ensures Counted(s', m) <= Counted(s, m)
  {
    forall t | t in Counted(s', m)
      ensures t in Counted(s, m)
    {
      assert InFs(s', t, m, s'.tasks[t].fs);
    }
  }

  /** A mirror whose file systems have the same tasks, and which counts no more of them, is still right. */
  lemma MirrorSame(s: State, s': State, m: nat)
    requires m in s.mirrors && MirrorOk(s, m) && m in s'.mirrors && SameIn(s, s', m)
    requires s'.reapCount == s.reapCount && s'.jobs == s.jobs && s'.mirrors[m].fses == s.mirrors[m].fses
    requires s'.mirrors[m].active <= s.mirrors[m].active && s'.mirrors[m].granted == s.mirrors[m].granted
    requires s'.mirrors[m].dropped ==> !Live(s'.mirrors[m])
    ensures MirrorOk(s', m)
  {
    SameCounted(s, s', m);
    SubsetSize(Counted(s', m), Counted(s, m));
    forall f | f in s'.mirrors[m].fses
      ensures FsOk(s', m, f)
    {
      assert FsOk(s, m, f);
    }
  }

  /** Only file system `f` of mirror `m` is affected, and the one task moves. */
  predicate OnlyTask(s: State, s': State, t: nat, m: nat, f: nat) {
    && m in s.mirrors && m in s'.mirrors && t in s'.tasks && f in s'.mirrors[m].fses
    && s' == s.(tasks := s.tasks[t := s'.tasks[t]], mirrors := s.mirrors[m := s'.mirrors[m]])
    && s'.mirrors[m] == s.mirrors[m].(fses := s.mirrors[m].fses[f := s'.mirrors[m].fses[f]],
                                      active := s'.mirrors[m].active)
    && (t in s.tasks ==> !s.tasks[t].Over? && s.tasks[t].mirror == m && s.tasks[t].fs == f)
    && (s'.tasks[t].Over? || (s'.tasks[t].mirror == m && s'.tasks[t].fs == f))
  }

  lemma OthersKept(s: State, s': State, t: nat, m: nat, f: nat)
    requires MirrorsOk(s) && OnlyTask(s, s', t, m, f)
    ensures forall k :: k in s'.mirrors && k != m ==> MirrorOk(s', k)
    ensures forall g :: g in s'.mirrors[m].fses && g != f ==> FsOk(s', m, g)
  {
    forall k | k in s'.mirrors && k != m
      ensures MirrorOk(s', k)
    {
      MirrorSame(s, s', k);
    }
    forall g | g in s'.mirrors[m].fses && g != f
      ensures FsOk(s', m, g)
    {
      assert FsOk(s, m, g);
    }
  }

  lemma GrantsKept(s: State, s': State)
    requires KeysOk(s) && s'.registry == s.registry && s'.mirrors.Keys == s.mirrors.Keys
    requires forall m :: m in s.mirrors ==>
      s'.mirrors[m].(fses := map[], active := {}, accepting := true)
      == s.mirrors[m].(fses := map[], active := {}, accepting := true)
    ensures KeysOk(s') && Grants(s') == Grants(s)
  {
  }

  lemma TaskStep(s: State, s': State, t: nat, m: nat, f: nat)
    requires Inv(s) && OnlyTask(s, s', t, m, f) && FsOk(s', m, f) && TasksOk(s')
    requires s'.mirrors[m].active <= s'.mirrors[m].fses.Keys && |Counted(s', m)| <= s'.mirrors[m].granted
    requires s'.mirrors[m].dropped ==> !Live(s'.mirrors[m])
    ensures Inv(s')
  {
    assert MirrorOk(s, m);
    OthersKept(s, s', t, m, f);
    GrantsKept(s, s');
  }

  // ---------------------------------------------------------------- a task's steps

  lemma JoinedFs(s: State, t: nat, m: nat, f: nat)
    requires 1 <= s.reapCount && TasksOk(s) && Enabled(s, Join(t, m, f)) && MirrorOk(s, m)
    ensures FsOk(Joined(s, t, m, f), m, f)
  {
    var s' := Joined(s, t, m, f);
    if f in s.mirrors[m].fses {
      assert FsOk(s, m, f);
    } else {
      forall u | u != t
        ensures !InFs(s', u, m, f)
      {
        assert u in s.tasks ==> TaskOk(s, u);
      }
    }
  }

  lemma JoinedCountAt(s: State, t: nat, m: nat, f: nat, u: nat)
    requires TasksOk(s) && Enabled(s, Join(t, m, f))
    ensures u in Counted(Joined(s, t, m, f), m) <==> u == t || u in Counted(s, m)
  {
    assert u in s.tasks ==> TaskOk(s, u);
  }

  lemma JoinedCount(s: State, t: nat, m: nat, f: nat)
    requires TasksOk(s) && Enabled(s, Join(t, m, f))
    ensures Counted(Joined(s, t, m, f), m) == Counted(s, m) + {t} && t !in Counted(s, m)
  {
    forall u
      ensures u in Counted(Joined(s, t, m, f), m) <==> u == t || u in Counted(s, m)
    {
      JoinedCountAt(s, t, m, f, u);
    }
  }

  lemma JoinedTasks(s: State, t: nat, m: nat, f: nat)
    requires TasksOk(s) && Enabled(s, Join(t, m, f))
    ensures TasksOk(Joined(s, t, m, f))
  {
    var s' := Joined(s, t, m, f);
    forall u | u in s'.tasks
      ensures TaskOk(s', u)
    {
      assert u != t ==> TaskOk(s, u);
    }
  }

  lemma JoinInv(s: State, t: nat, m: nat, f: nat)
    requires Inv(s) && Enabled(s, Join(t, m, f))
    ensures Inv(Joined(s, t, m, f))
  {
    assert MirrorOk(s, m);
    JoinedFs(s, t, m, f);
    JoinedCount(s, t, m, f);
    JoinedTasks(s, t, m, f);
    TaskStep(s, Joined(s, t, m, f), t, m, f);
  }

  lemma StagedSame(s: State, t: nat, stage: Stage)
    requires t in s.tasks && s.tasks[t].Inside?
    ensures forall m :: SameIn(s, Staged(s, t, stage), m)
  {
  }

  lemma StageInv(s: State, t: nat, stage: Stage)
    requires Inv(s) && t in s.tasks && s.tasks[t].Inside?
    requires stage == Executing ==> s.tasks[t].fs in s.mirrors[s.tasks[t].mirror].active
    ensures Inv(Staged(s, t, stage))
  {
    var s' := Staged(s, t, stage);
    StagedSame(s, t, stage);
    assert TaskOk(s, t);
    forall m | m in s'.mirrors
      ensures MirrorOk(s', m)
    {
      MirrorSame(s, s', m);
    }
    forall u | u in s'.tasks
      ensures TaskOk(s', u)
    {
      assert TaskOk(s, u);
    }
    assert Grants(s') == Grants(s);
  }

  lemma LeftFs(s: State, t: nat, m: nat, f: nat)
    requires At(s, t, {Ended}) && m == s.tasks[t].mirror && f == s.tasks[t].fs && FsOk(s, m, f)
    ensures FsOk(Leaves(s, t), m, f)
  {
    var s' := Leaves(s, t);
    SubsetSize(s'.mirrors[m].fses[f].tasks, s.mirrors[m].fses[f].tasks);
  }

  lemma LeaveInv(s: State, t: nat)
    requires Inv(s) && At(s, t, {Ended})
    ensures Inv(Leaves(s, t))
  {
    var s', m, f := Leaves(s, t), s.tasks[t].mirror, s.tasks[t].fs;
    assert MirrorOk(s, m);
    LeftFs(s, t, m, f);
    SubsetSize(Counted(s', m), Counted(s, m));
    forall u | u in s'.tasks
      ensures TaskOk(s', u)
    {
      assert TaskOk(s, u);
    }
    TaskStep(s, s', t, m, f);
  }

  lemma ReturnedFs(s: State, t: nat, m: nat, f: nat)
    requires t in s.tasks && s.tasks[t] == Left(m, f) && FsAt(s, m, f) && FsOk(s, m, f)
    ensures FsOk(Returned(s, t), m, f)
  {
  }

  lemma ReturnedTasks(s: State, t: nat)
    requires TasksOk(s) && Enabled(s, Return(t)) && !Fatal(s, Return(t))
    ensures TasksOk(Returned(s, t))
  {
    var s' := Returned(s, t);
    forall u | u in s'.tasks
      ensures TaskOk(s', u)
    {
      assert TaskOk(s, u);
      if u != t && s.tasks[u] == Inside(s.tasks[t].mirror, s.tasks[t].fs, Executing) {
        assert s.mirrors[s.tasks[t].mirror].accepting;
      }
    }
  }

  lemma ReturnInv(s: State, t: nat)
    requires Inv(s) && Enabled(s, Return(t)) && !Fatal(s, Return(t))
    ensures Inv(Returned(s, t))
  {
    var s', m, f := Returned(s, t), s.tasks[t].mirror, s.tasks[t].fs;
    assert MirrorOk(s, m);
    ReturnedFs(s, t, m, f);
    ReturnedTasks(s, t);
    SubsetSize(Counted(s', m), Counted(s, m));
    TaskStep(s, s', t, m, f);
  }

  // ---------------------------------------------------------------- a mirror's steps

  lemma ShutTasks(s: State, m: nat)
    requires MirrorsOk(s) && TasksOk(s) && m in s.mirrors
    ensures TasksOk(ShutDown(s, m))
  {
    var s' := ShutDown(s, m);
    forall u | u in s'.tasks
      ensures TaskOk(s', u)
    {
      assert TaskOk(s, u);
      if s.tasks[u].Inside? && s.tasks[u].mirror == m {
        assert MirrorOk(s, m) && FsOk(s, m, s.tasks[u].fs) && InFs(s, u, m, s.tasks[u].fs);
      }
    }
  }

  lemma ShutdownInv(s: State, m: nat)
    requires Inv(s) && m in s.mirrors
    ensures Inv(ShutDown(s, m))
  {
    var s' := ShutDown(s, m);
    GrantsKept(s, s');
    ShutTasks(s, m);
    forall k | k in s'.mirrors
      ensures MirrorOk(s', k)
    {
      assert MirrorOk(s, k);
      MirrorSame(s, s', k);
    }
  }

  lemma Unmoved(s: State, s': State)
    requires MirrorsOk(s) && TasksOk(s) && s'.tasks == s.tasks && s'.reapCount == s.reapCount && s'.jobs == s.jobs
    requires forall m :: m in s.mirrors ==>
      m in s'.mirrors && s'.mirrors[m].(dropped := false) == s.mirrors[m].(dropped := false)
    requires forall m :: m in s.mirrors && s'.mirrors[m].dropped ==> !Live(s'.mirrors[m])
    ensures TasksOk(s') && forall m :: m in s.mirrors ==> MirrorOk(s', m)
  {
    forall m | m in s.mirrors
      ensures MirrorOk(s', m)
    {
      assert MirrorOk(s, m);
      MirrorSame(s, s', m);
    }
    forall u | u in s'.tasks
      ensures TaskOk(s', u)
    {
      assert TaskOk(s, u);
    }
  }

  lemma DropGrants(s: State, m: nat)
    requires KeysOk(s) && m in s.mirrors
    ensures Grants(Dropped(s, m)) == Grants(s) - {s.mirrors[m].key}
  {
    var key, g, g' := s.mirrors[m].key, Grants(s), Grants(Dropped(s, m));
    forall k
      ensures k in g' <==> k in g && k != key
      ensures k in g' ==> g'[k] == g[k]
    {
    }
  }

  lemma DropKeys(s: State, m: nat)
    requires KeysOk(s) && m in s.mirrors
    ensures KeysOk(Dropped(s, m))
  {
  }

  lemma DropTotal(s: State, m: nat)
    requires KeysOk(s) && m in s.mirrors
    ensures Total(Grants(Dropped(s, m))) <= Total(Grants(s))
  {
    DropGrants(s, m);
    TotalLess(Grants(s), s.mirrors[m].key);
  }

  lemma DropMirrors(s: State, m: nat)
    requires MirrorsOk(s) && TasksOk(s) && m in s.mirrors && !Live(s.mirrors[m])
    ensures MirrorsOk(Dropped(s, m)) && TasksOk(Dropped(s, m))
  {
    assert forall n :: n in s.mirrors ==> MirrorOk(s, n);
    Unmoved(s, Dropped(s, m));
  }

  lemma DropInv(s: State, m: nat)
    requires Inv(s) && m in s.mirrors && !Live(s.mirrors[m])
    ensures Inv(Dropped(s, m))
  {
    DropTotal(s, m);
    DropKeys(s, m);
    DropMirrors(s, m);
    Together(s, Dropped(s, m));
  }

  lemma Together(s: State, s': State)
    requires Inv(s) && s'.reapCount == s.reapCount && s'.jobs == s.jobs && Total(Grants(s')) <= Total(Grants(s))
    requires KeysOk(s') && MirrorsOk(s') && TasksOk(s')
    ensures Inv(s')
  {
  }

  lemma GetGrants(s: State, c: nat, key: string, reserve: nat, m: nat)
    requires KeysOk(s) && Enabled(s, Get(c, key, reserve, m))
    ensures var s' := Granted(s, c, key, reserve, m);
      && Grants(s') == Grants(s)[key := s'.mirrors[m].granted] && KeysOk(s')
      && s'.mirrors[m].granted > 0 && Total(Grants(s)) + s'.mirrors[m].granted <= s.jobs
  {
  }

  lemma NewMirrorOk(s: State, s': State, m: nat)
    requires TasksOk(s) && m !in s.mirrors && s'.tasks == s.tasks && m in s'.mirrors
    requires s'.mirrors[m].fses == map[] && s'.mirrors[m].active == {} && !s'.mirrors[m].dropped
    requires 0 < s'.mirrors[m].granted <= s'.jobs
    ensures MirrorOk(s', m)
  {
    assert Counted(s', m) == {};
  }

  lemma GetInv(s: State, c: nat, key: string, reserve: nat, m: nat)
    requires Inv(s) && Enabled(s, Get(c, key, reserve, m))
    ensures Inv(Granted(s, c, key, reserve, m))
  {
    var s' := Granted(s, c, key, reserve, m);
    GetGrants(s, c, key, reserve, m);
    TotalPut(Grants(s), key, s'.mirrors[m].granted);
    OneMoreMirror(s, s', m);
  }

  lemma OneMoreMirror(s: State, s': State, m: nat)
    requires MirrorsOk(s) && TasksOk(s) && m !in s.mirrors && m in s'.mirrors
    requires s' == s.(mirrors := s.mirrors[m := s'.mirrors[m]], registry := s'.registry, calls := s'.calls)
    requires s'.mirrors[m].fses == map[] && s'.mirrors[m].active == {} && !s'.mirrors[m].dropped
    requires 0 < s'.mirrors[m].granted <= s'.jobs
    ensures MirrorsOk(s') && TasksOk(s')
  {
    assert forall n :: n in s.mirrors ==> MirrorOk(s, n);
    Unmoved(s, s');
    NewMirrorOk(s, s', m);
    assert forall n :: n in s'.mirrors ==> n in s.mirrors || n == m;
  }

  lemma EmptyInv(s: State, s': State)
    requires Inv(s) && s' == s.(registry := map[], sweeps := s'.sweeps)
    ensures Inv(s')
  {
    assert Grants(s') == map[];
    assert forall n :: n in s.mirrors ==> MirrorOk(s, n);
    Unmoved(s, s');
  }

  /** Nothing that the invariant speaks of changes. */
  lemma AsideInv(s: State, s': State)
    requires Inv(s) && s' == s.(accepting := s'.accepting, dead := s'.dead, calls := s'.calls, sweeps := s'.sweeps)
    ensures Inv(s')
  {
    assert Grants(s') == Grants(s);
    assert forall n :: n in s.mirrors ==> MirrorOk(s, n);
    Unmoved(s, s');
  }

  lemma StepInv(s: State, e: Event)
    requires Inv(s) && Enabled(s, e)
    ensures Inv(Apply(s, e))
  {
    if Fatal(s, e) {
      AsideInv(s, s.(dead := true));
    } else {
      match e
      case Get(c, key, reserve, m) => GetInv(s, c, key, reserve, m);
      case Join(t, m, f) => JoinInv(s, t, m, f);
      case Prepare(t) => StageInv(s, t, Prepared);
      case Execute(t) => StageInv(s, t, Executing);
      case End(t) => StageInv(s, t, Ended);
      case Leave(t) => LeaveInv(s, t);
      case Return(t) => ReturnInv(s, t);
      case Shutdown(m, _) => ShutdownInv(s, m);
      case Drop(m) => DropInv(s, m);
      case Empty(w) => EmptyInv(s, s.(registry := map[], sweeps := s.sweeps - {w}));
      case _ => AsideInv(s, Apply(s, e));
    }
  }

  lemma InitialInv(jobs: nat, reapCount: nat)
    requires reapCount >= 1
    ensures Inv(InitialState(jobs, reapCount))
  {
    assert Grants(InitialState(jobs, reapCount)) == map[];
  }
}
