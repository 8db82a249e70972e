/** A worker's mirror and the master's waiter as one machine: several tasks share a file system, the
    last one to finish carries everyone's files back, and the master wakes the others. */
module Mirrors {
  import opened Trees

  /** workerFuseFs.  Beside the program's `reaping`, `tasks` and `taskIds`, the model records who set
      `reaping`, whether the ids have been read since, whether the changes have been collected since,
      and which tasks joined since changes were last collected. */
  datatype Fs = Fs(reaping: bool, tasks: set<nat>, taskIds: seq<nat>,
                   reaper: Option<nat>, captured: bool, harvested: bool, dirty: set<nat>)

  /** A reply with a file set: the task ids it names, and whose changes it carries. */
  datatype Reply = Reply(ids: seq<nat>, carried: set<nat>)

  /** Where a task is in WorkerTask.Run. */
  datatype Task =
    | Submitted
    | Running(fs: nat)
    | Leaving(fs: nat)
    | Reaping(fs: nat)
    | Harvesting(fs: nat, ids: seq<nat>)
    | Returning(fs: nat, reply: Reply)
    | Answered(answer: Option<Reply>)

  /** Where the master's thread for a task is in FileSetWaiter.Wait. */
  datatype Waiter =
    | Signalling(rest: seq<nat>)
    | Blocked
    | Done

  datatype Place = InFs(fs: nat) | InReport(task: nat)

  /** `home` records where each accepted task id is accounted for; `lost` the ids that the first bad reset
      wiped out before anyone read them; `strayed` whether someone returned a file system that
      another task was reaping. */
  datatype State = State(reapCount: nat, maxJobs: nat,
                         fses: map<nat, Fs>, tasks: map<nat, Task>, home: map<nat, Place>,
                         lost: set<nat>, strayed: bool,
                         channels: set<nat>, signalled: set<nat>, processed: set<nat>, waiters: map<nat, Waiter>)

  datatype Event =
    | Submit(task: nat)
    | Join(task: nat, fs: nat)
    | Open(task: nat, fs: nat)
    | Finish(task: nat)
    | Capture(task: nat)
    | Harvest(task: nat)
    | Return(task: nat)
    | Process(task: nat)
    | Signal(task: nat)
    | Conclude(task: nat)
    | Find(task: nat)
    | Wake(task: nat)

  function InitialState(reapCount: nat, maxJobs: nat): State {
    State(reapCount, maxJobs, map[], map[], map[], {}, false, {}, {}, {}, map[])
  }

  function ToSet(ids: seq<nat>): set<nat> {
    set x | x in ids
  }

  function RunningTasks(s: State): set<nat> {
    set t | t in s.tasks && s.tasks[t].Running?
  }

  /** newFs would put another task here. */
  predicate Joinable(s: State, f: nat) {
    f in s.fses && !s.fses[f].reaping && |s.fses[f].taskIds| < s.reapCount
  }

  predicate At(s: State, t: nat, task: Task) {
    t in s.tasks && s.tasks[t] == task
  }

  predicate Enabled(s: State, e: Event) {
    match e
    case Submit(t) => t !in s.tasks
    case Join(t, f) => At(s, t, Submitted) && |RunningTasks(s)| < s.maxJobs && Joinable(s, f)
    case Open(t, f) =>
      At(s, t, Submitted) && |RunningTasks(s)| < s.maxJobs && f !in s.fses
        && forall g :: g in s.fses ==> !Joinable(s, g)
    case Finish(t) => t in s.tasks && s.tasks[t].Running? && s.tasks[t].fs in s.fses
    case Capture(t) => t in s.tasks && s.tasks[t].Reaping? && s.tasks[t].fs in s.fses
    case Harvest(t) => t in s.tasks && s.tasks[t].Harvesting? && s.tasks[t].fs in s.fses
    case Return(t) => t in s.tasks && (s.tasks[t].Leaving? || s.tasks[t].Returning?) && s.tasks[t].fs in s.fses
    case Process(t) => t in s.tasks && s.tasks[t].Answered? && s.tasks[t].answer.Some? && t !in s.waiters
    case Signal(t) => t in s.waiters && s.waiters[t].Signalling? && s.waiters[t].rest != []
    case Conclude(t) => t in s.waiters && s.waiters[t] == Signalling([])
    case Find(t) => At(s, t, Answered(None)) && t !in s.waiters
    case Wake(t) => t in s.waiters && s.waiters[t].Blocked? && t in s.signalled
  }

  /** addTask. */
  function AddTask(f: Fs, t: nat): Fs {
    f.(tasks := f.tasks + {t}, taskIds := f.taskIds + [t], dirty := f.dirty + {t})
  }

  /** prepareFs. */
  function PrepareFs(f: Fs): Fs {
    f.(reaping := false, taskIds := [], reaper := None, captured := false, harvested := false)
  }

  const NEW_FS := Fs(false, {}, [], None, false, false, {})

  /** A return that resets a file system whose ids nobody has read yet. */
  predicate Lossy(s: State, t: nat) {
    && Enabled(s, Return(t))
    && s.fses[s.tasks[t].fs].reaping && !s.fses[s.tasks[t].fs].captured
  }

  /** A return that resets a file system which another task is reaping. */
  predicate Stray(s: State, t: nat) {
    && Enabled(s, Return(t))
    && s.fses[s.tasks[t].fs].reaping && s.fses[s.tasks[t].fs].reaper != Some(t)
  }

  function Joined(s: State, t: nat, f: nat, fs: Fs): State {
    s.(fses := s.fses[f := AddTask(fs, t)], tasks := s.tasks[t := Running(f)], home := s.home[t := InFs(f)])
  }

  /** considerReap: the last task to leave marks the file system for reaping. */
  function Finished(s: State, t: nat): State
    requires Enabled(s, Finish(t))
  {
    var f := s.tasks[t].fs;
    var fs := s.fses[f].(tasks := s.fses[f].tasks - {t});
    var last := fs.tasks == {};
    var fs' := if last then fs.(reaping := true, reaper := Some(t)) else fs;
    s.(fses := s.fses[f := fs'], tasks := s.tasks[t := if fs'.reaping then Reaping(f) else Leaving(f)])
  }

  /** The first line of reapFuse, outside the lock. */
  function Captured(s: State, t: nat): State
    requires Enabled(s, Capture(t))
  {
    var f := s.tasks[t].fs;
    var ids := s.fses[f].taskIds;
    s.(fses := s.fses[f := s.fses[f].(captured := s.fses[f].captured || s.fses[f].reaper == Some(t))],
       tasks := s.tasks[t := Harvesting(f, ids)],
       home := map x | x in s.home :: if x in ids then InReport(t) else s.home[x])
  }

  function Harvested(s: State, t: nat): State
    requires Enabled(s, Harvest(t))
  {
    var f := s.tasks[t].fs;
    s.(fses := s.fses[f := s.fses[f].(dirty := {}, harvested := true)],
       tasks := s.tasks[t := Returning(f, Reply(s.tasks[t].ids, s.fses[f].dirty))])
  }

  function Returned(s: State, t: nat): State
    requires Enabled(s, Return(t))
  {
    var f := s.tasks[t].fs;
    var fs := s.fses[f];
    s.(fses := if fs.reaping then s.fses[f := PrepareFs(fs)] else s.fses,
       tasks := s.tasks[t := Answered(if s.tasks[t].Leaving? then None else Some(s.tasks[t].reply))],
       lost := if Lossy(s, t) && s.lost == {} then ToSet(fs.taskIds) else s.lost,
       strayed := s.strayed || Stray(s, t))
  }

  function Apply(s: State, e: Event): State
    requires Enabled(s, e)
  {
    match e
    case Submit(t) => s.(tasks := s.tasks[t := Submitted], channels := s.channels + {t})
    case Join(t, f) => Joined(s, t, f, s.fses[f])
    case Open(t, f) => Joined(s, t, f, NEW_FS)
    case Finish(t) => Finished(s, t)
    case Capture(t) => Captured(s, t)
    case Harvest(t) => Harvested(s, t)
    case Return(t) => Returned(s, t)
    case Process(t) =>
      var ids := s.tasks[t].answer.value.ids;
      s.(processed := s.processed + ToSet(ids), waiters := s.waiters[t := Signalling(ids)])
    case Signal(t) =>
      var rest := s.waiters[t].rest;
      var s' := s.(waiters := s.waiters[t := Signalling(rest[1..])]);
      if rest[0] != t && rest[0] in s.channels then
        s'.(channels := s.channels - {rest[0]}, signalled := s.signalled + {rest[0]})
      else s'
    case Conclude(t) => s.(waiters := s.waiters[t := Done], channels := s.channels - {t})
    case Find(t) =>
      if t in s.channels then s.(waiters := s.waiters[t := Blocked])
      else s.(waiters := s.waiters[t := Done])
    case Wake(t) => s.(waiters := s.waiters[t := Done], channels := s.channels - {t})
  }

  // ---------------------------------------------------------------- invariants of every run

  /** The ids a task has read and not yet given away, or has given away. */
  function Report(task: Task): Option<seq<nat>> {
    match task
    case Harvesting(_, ids) => Some(ids)
    case Returning(_, reply) => Some(reply.ids)
    case Answered(Some(reply)) => Some(reply.ids)
    case _ => None
  }

  predicate InFsNow(task: Task) {
    task.Running? || task.Leaving? || task.Reaping? || task.Harvesting? || task.Returning?
  }

  predicate HasJoined(s: State, x: nat) {
    x in s.tasks && !s.tasks[x].Submitted?
  }

  ghost predicate FsOk(s: State, f: nat)
    requires f in s.fses
  {
    var fs := s.fses[f];
    && |fs.taskIds| <= s.reapCount
    && (fs.reaping ==> fs.tasks == {} && fs.taskIds != [])
    && (fs.reaping <==> fs.reaper.Some?)
    && (!fs.reaping ==> !fs.captured)
    && (forall t :: t in fs.tasks <==> At(s, t, Running(f)))
    && (forall t :: t in fs.tasks ==> t in fs.taskIds)
    && (forall x :: x in fs.taskIds ==> HasJoined(s, x))
  }

  ghost predicate TaskOk(s: State, t: nat)
    requires t in s.tasks
  {
    && (InFsNow(s.tasks[t]) ==> s.tasks[t].fs in s.fses)
    && (Report(s.tasks[t]).Some? ==> forall x :: x in Report(s.tasks[t]).value ==> HasJoined(s, x))
  }

  predicate ReportsOf(s: State, t: nat, x: nat) {
    t in s.tasks && Report(s.tasks[t]).Some? && x in Report(s.tasks[t]).value
  }

  /** A lost id is nowhere to be found. */
  ghost predicate LostOk(s: State, x: nat) {
    && HasJoined(s, x)
    && (forall f :: f in s.fses ==> x !in s.fses[f].taskIds)
    && (forall t :: t in s.tasks ==> !ReportsOf(s, t, x))
  }

  /** What holds in every run, whatever goes wrong. */
  ghost predicate BaseInv(s: State) {
    && 1 <= s.reapCount && |RunningTasks(s)| <= s.maxJobs
    && (forall f :: f in s.fses ==> FsOk(s, f))
    && (forall t :: t in s.tasks ==> TaskOk(s, t))
    && (forall x :: x in s.lost ==> LostOk(s, x))
  }

  // ---------------------------------------------------------------- invariants as long as nothing is lost

  predicate NoDuplicates(ids: seq<nat>) {
    forall i, j :: 0 <= i < j < |ids| ==> ids[i] != ids[j]
  }

  predicate HomeIs(s: State, x: nat, place: Place) {
    x in s.home && s.home[x] == place
  }

  /** The ids in a file system are those at home there, until they have been read. */
  ghost predicate FsHome(s: State, f: nat)
    requires f in s.fses
  {
    && NoDuplicates(s.fses[f].taskIds)
    && (forall x :: HomeIs(s, x, InFs(f)) <==> !s.fses[f].captured && x in s.fses[f].taskIds)
    && (s.fses[f].captured ==> forall x :: x in s.fses[f].taskIds ==> x in s.home && s.home[x].InReport?)
  }

  ghost predicate TaskHome(s: State, t: nat)
    requires t in s.tasks
  {
    && (forall x :: HomeIs(s, x, InReport(t)) <==> ReportsOf(s, t, x))
    && (Report(s.tasks[t]).Some? ==> NoDuplicates(Report(s.tasks[t]).value) && t in Report(s.tasks[t]).value)
    && (s.tasks[t].Reaping? ==>
          && s.tasks[t].fs in s.fses
          && var fs := s.fses[s.tasks[t].fs];
             fs.reaping && fs.reaper == Some(t) && !fs.captured && t in fs.taskIds)
  }

  predicate HomeOk(s: State, x: nat) {
    && (x in s.home <==> HasJoined(s, x))
    && (x in s.home ==> if s.home[x].InFs? then s.home[x].fs in s.fses else s.home[x].task in s.tasks)
  }

  ghost predicate ExactInv(s: State) {
    && (forall x :: HomeOk(s, x))
    && (forall f :: f in s.fses ==> FsHome(s, f))
    && (forall t :: t in s.tasks ==> TaskHome(s, t))
  }

  // ---------------------------------------------------------------- invariants as long as nobody strays

  ghost predicate FsClean(s: State, f: nat)
    requires f in s.fses
  {
    s.fses[f].dirty == if s.fses[f].harvested then {} else ToSet(s.fses[f].taskIds)
  }

  predicate ReapsIn(task: Task, f: nat) {
    (task.Reaping? || task.Harvesting? || task.Returning?) && task.fs == f
  }

  /** A file system marked for reaping has its reaper at work. */
  predicate ReaperAt(s: State, f: nat)
    requires f in s.fses
  {
    if s.fses[f].reaping then
      s.fses[f].reaper.Some? && s.fses[f].reaper.value in s.tasks && ReapsIn(s.tasks[s.fses[f].reaper.value], f)
    else !s.fses[f].harvested
  }

  /** The reaper has its file system to itself, and its reply carries the changes of the tasks it
      names. */
  ghost predicate TaskClean(s: State, t: nat)
    requires t in s.tasks
  {
    && (s.tasks[t].Reaping? || s.tasks[t].Harvesting? || s.tasks[t].Returning? ==>
          && s.tasks[t].fs in s.fses
          && var fs := s.fses[s.tasks[t].fs];
             && fs.reaping && fs.reaper == Some(t)
             && (fs.captured <==> !s.tasks[t].Reaping?)
             && (fs.harvested <==> s.tasks[t].Returning?)
             && (s.tasks[t].Harvesting? ==> s.tasks[t].ids == fs.taskIds))
    && (s.tasks[t].Returning? ==> s.tasks[t].reply.carried == ToSet(s.tasks[t].reply.ids))
    && (s.tasks[t].Answered? && s.tasks[t].answer.Some? ==>
          s.tasks[t].answer.value.carried == ToSet(s.tasks[t].answer.value.ids))
  }

  ghost predicate CleanInv(s: State) {
    && (forall f :: f in s.fses ==> FsClean(s, f) && ReaperAt(s, f))
    && (forall t :: t in s.tasks ==> TaskClean(s, t))
  }

  // ---------------------------------------------------------------- invariants of the waiter

  ghost predicate WaiterOk(s: State, t: nat) {
    && (t in s.tasks && t !in s.channels ==> t in s.signalled || (t in s.waiters && s.waiters[t].Done?))
    && (t in s.waiters ==>
          && t in s.tasks && s.tasks[t].Answered?
          && (s.waiters[t].Signalling? ==> s.tasks[t].answer.Some? && ToSet(s.waiters[t].rest) <= s.processed)
          && (s.tasks[t].answer.Some? ==> !s.waiters[t].Blocked? && ToSet(s.tasks[t].answer.value.ids) <= s.processed)
          && (s.waiters[t].Done? && s.tasks[t].answer.None? ==> t in s.processed))
  }

  ghost predicate WaitInv(s: State) {
    s.signalled <= s.processed && forall t :: WaiterOk(s, t)
  }

  ghost predicate Inv(s: State) {
    && BaseInv(s) && WaitInv(s)
    && (s.lost == {} ==> ExactInv(s))
    && (!s.strayed ==> CleanInv(s) && s.lost == {})
  }
}
