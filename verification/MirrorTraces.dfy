/** Runs of the mirror machine event by event: which ids a reply names, whose changes it carries, who
    reports an id, and when a task runs in a file system that another is reaping. */
module MirrorTraces {
  import opened Trees
  import opened Mirrors
  import opened MirrorProofs
  import opened MirrorRuns

  predicate StepAt(es: seq<Event>, ss: seq<State>, i: nat)
    requires i < |es| < |ss|
  {
    Enabled(ss[i], es[i]) && ss[i + 1] == Apply(ss[i], es[i])
  }

  /** `ss` are the states a run from the start goes through, one more than its events. */
  ghost predicate IsTrace(es: seq<Event>, ss: seq<State>) {
    && |ss| == |es| + 1
    && ss[0] == InitialState(ss[0].reapCount, ss[0].maxJobs) && ss[0].reapCount >= 1
    && forall i :: 0 <= i < |es| ==> StepAt(es, ss, i)
  }

  /** Every run has such states. */
  lemma {:induction false} StatesOf(s: State, es: seq<Event>) returns (ss: seq<State>)
    requires Legal(s, es)
    ensures |ss| == |es| + 1 && ss[0] == s && ss[|es|] == Run(s, es)
    ensures forall i :: 0 <= i < |es| ==> StepAt(es, ss, i)
    decreases |es|
  {
    if es == [] {
      ss := [s];
    } else {
      var rest := StatesOf(Apply(s, es[0]), es[1..]);
      ss := [s] + rest;
      forall i | 0 <= i < |es| ensures StepAt(es, ss, i) {
        if i > 0 {
          assert StepAt(es[1..], rest, i - 1);
        }
      }
    }
  }

  lemma TraceOf(reapCount: nat, maxJobs: nat, es: seq<Event>) returns (ss: seq<State>)
    requires reapCount >= 1 && Legal(InitialState(reapCount, maxJobs), es)
    ensures IsTrace(es, ss) && ss[0] == InitialState(reapCount, maxJobs) && ss[|es|] == Run(ss[0], es)
  {
    ss := StatesOf(InitialState(reapCount, maxJobs), es);
  }

  lemma {:induction false} TraceInv(es: seq<Event>, ss: seq<State>, k: nat)
    requires IsTrace(es, ss) && k <= |es|
    ensures Inv(ss[k])
  {
    if k == 0 {
      InitialInv(ss[0].reapCount, ss[0].maxJobs);
    } else {
      TraceInv(es, ss, k - 1);
      assert StepAt(es, ss, k - 1);
      StepInv(ss[k - 1], es[k - 1]);
    }
  }

  // ---------------------------------------------------------------- what the events do to a file system

  predicate JoinsFs(e: Event, f: nat) {
    (e.Join? || e.Open?) && e.fs == f
  }

  predicate Joins(e: Event, x: nat, f: nat) {
    JoinsFs(e, f) && e.task == x
  }

  /** A return that empties the list of ids. */
  predicate Resets(s: State, e: Event, f: nat) {
    e.Return? && Enabled(s, e) && s.tasks[e.task].fs == f && s.fses[f].reaping
  }

  /** The changes are collected. */
  predicate Collects(s: State, e: Event, f: nat) {
    e.Harvest? && Enabled(s, e) && s.tasks[e.task].fs == f
  }

  function Ids(s: State, f: nat): seq<nat> {
    if f in s.fses then s.fses[f].taskIds else []
  }

  function Dirty(s: State, f: nat): set<nat> {
    if f in s.fses then s.fses[f].dirty else {}
  }

  lemma IdsStep(s: State, e: Event, f: nat, x: nat)
    requires Enabled(s, e)
    ensures x in Ids(Apply(s, e), f) <==> Joins(e, x, f) || (x in Ids(s, f) && !Resets(s, e, f))
  {
  }

  lemma DirtyStep(s: State, e: Event, f: nat, x: nat)
    requires Enabled(s, e)
    ensures x in Dirty(Apply(s, e), f) <==> Joins(e, x, f) || (x in Dirty(s, f) && !Collects(s, e, f))
  {
  }

  /** No return resets `f` after event `j` and before event `k`. */
  ghost predicate Unreset(es: seq<Event>, ss: seq<State>, j: int, k: nat, f: nat)
    requires k <= |es| <= |ss| && -1 <= j
  {
    forall i :: j < i < k ==> !Resets(ss[i], es[i], f)
  }

  /** Nobody collects the changes in `f` after event `j` and before event `k`. */
  ghost predicate Uncollected(es: seq<Event>, ss: seq<State>, j: int, k: nat, f: nat)
    requires k <= |es| <= |ss| && -1 <= j
  {
    forall i :: j < i < k ==> !Collects(ss[i], es[i], f)
  }

  /** The ids on the list are those that joined since the last reset. */
  lemma {:induction false} IdsAre(es: seq<Event>, ss: seq<State>, k: nat, f: nat, x: nat)
    requires IsTrace(es, ss) && k <= |es|
    ensures x in Ids(ss[k], f) <==> exists j :: 0 <= j < k && Joins(es[j], x, f) && Unreset(es, ss, j, k, f)
  {
    if k > 0 {
      IdsAre(es, ss, k - 1, f, x);
      assert StepAt(es, ss, k - 1);
      IdsStep(ss[k - 1], es[k - 1], f, x);
      if x in Ids(ss[k], f) {
        if Joins(es[k - 1], x, f) {
          assert Unreset(es, ss, k - 1, k, f);
        } else {
          var j :| 0 <= j < k - 1 && Joins(es[j], x, f) && Unreset(es, ss, j, k - 1, f);
          assert Unreset(es, ss, j, k, f);
        }
      }
      if j :| 0 <= j < k && Joins(es[j], x, f) && Unreset(es, ss, j, k, f) {
        if j < k - 1 {
          assert Unreset(es, ss, j, k - 1, f);
        }
      }
    }
  }

  /** The changes a file system holds are those of the tasks that joined since they were collected. */
  lemma {:induction false} DirtyAre(es: seq<Event>, ss: seq<State>, k: nat, f: nat, x: nat)
    requires IsTrace(es, ss) && k <= |es|
    ensures x in Dirty(ss[k], f) <==> exists j :: 0 <= j < k && Joins(es[j], x, f) && Uncollected(es, ss, j, k, f)
  {
    if k > 0 {
      DirtyAre(es, ss, k - 1, f, x);
      assert StepAt(es, ss, k - 1);
      DirtyStep(ss[k - 1], es[k - 1], f, x);
      if x in Dirty(ss[k], f) {
        if Joins(es[k - 1], x, f) {
          assert Uncollected(es, ss, k - 1, k, f);
        } else {
          var j :| 0 <= j < k - 1 && Joins(es[j], x, f) && Uncollected(es, ss, j, k - 1, f);
          assert Uncollected(es, ss, j, k, f);
        }
      }
      if j :| 0 <= j < k && Joins(es[j], x, f) && Uncollected(es, ss, j, k, f) {
        if j < k - 1 {
          assert Uncollected(es, ss, j, k - 1, f);
        }
      }
    }
  }

  // ---------------------------------------------------------------- what happens to a task

  lemma StaysJoined(s: State, e: Event, x: nat)
    requires Enabled(s, e)
    ensures HasJoined(s, x) ==> HasJoined(Apply(s, e), x) && !((e.Join? || e.Open?) && e.task == x)
    ensures (e.Join? || e.Open?) && e.task == x ==> HasJoined(Apply(s, e), x)
  {
  }

  lemma {:induction false} JoinedSince(es: seq<Event>, ss: seq<State>, j: nat, k: nat, f: nat, x: nat)
    requires IsTrace(es, ss) && j < k <= |es| && Joins(es[j], x, f)
    ensures HasJoined(ss[k], x)
  {
    assert StepAt(es, ss, k - 1);
    StaysJoined(ss[k - 1], es[k - 1], x);
    if j < k - 1 {
      JoinedSince(es, ss, j, k - 1, f, x);
    }
  }

  /** A task joins a file system once. */
  lemma JoinsOnce(es: seq<Event>, ss: seq<State>, i: nat, j: nat, f: nat, g: nat, x: nat)
    requires IsTrace(es, ss) && i < |es| && j < |es| && Joins(es[i], x, f) && Joins(es[j], x, g)
    ensures i == j
  {
    assert StepAt(es, ss, i) && StepAt(es, ss, j);
    if i < j {
      JoinedSince(es, ss, i, j, f, x);
    } else if j < i {
      JoinedSince(es, ss, j, i, g, x);
    }
  }

  /** The reply a task has put together or given. */
  function ReplyOf(task: Task): Option<Reply> {
    match task
    case Returning(_, reply) => Some(reply)
    case Answered(answer) => answer
    case _ => None
  }

  lemma ReportKept(s: State, e: Event, t: nat)
    requires Enabled(s, e) && t in s.tasks
    ensures t in Apply(s, e).tasks
    ensures Report(s.tasks[t]).Some? ==> Report(Apply(s, e).tasks[t]) == Report(s.tasks[t])
    ensures ReplyOf(s.tasks[t]).Some? ==> ReplyOf(Apply(s, e).tasks[t]) == ReplyOf(s.tasks[t])
  {
  }

  /** A report names the ids that were on the list when it was made. */
  lemma {:induction false} CapturedAt(es: seq<Event>, ss: seq<State>, c: nat, k: nat, t: nat)
    requires IsTrace(es, ss) && c < k <= |es| && es[c] == Capture(t)
    ensures t in ss[c].tasks && ss[c].tasks[t].Reaping? && t in ss[k].tasks
    ensures Report(ss[k].tasks[t]) == Some(Ids(ss[c], ss[c].tasks[t].fs))
  {
    assert StepAt(es, ss, c) && StepAt(es, ss, k - 1);
    if c < k - 1 {
      CapturedAt(es, ss, c, k - 1, t);
      ReportKept(ss[k - 1], es[k - 1], t);
    }
  }

  /** A reply carries the changes the file system held when they were collected. */
  lemma {:induction false} HarvestedAt(es: seq<Event>, ss: seq<State>, h: nat, k: nat, t: nat)
    requires IsTrace(es, ss) && h < k <= |es| && es[h] == Harvest(t)
    ensures t in ss[h].tasks && ss[h].tasks[t].Harvesting? && t in ss[k].tasks
    ensures ReplyOf(ss[k].tasks[t]) == Some(Reply(ss[h].tasks[t].ids, Dirty(ss[h], ss[h].tasks[t].fs)))
  {
    assert StepAt(es, ss, h) && StepAt(es, ss, k - 1);
    if h < k - 1 {
      HarvestedAt(es, ss, h, k - 1, t);
      ReportKept(ss[k - 1], es[k - 1], t);
    }
  }

  lemma FsStep(s: State, e: Event, t: nat)
    requires Enabled(s, e) && t in Apply(s, e).tasks && InFsNow(Apply(s, e).tasks[t])
    ensures Joins(e, t, Apply(s, e).tasks[t].fs) ||
      (t in s.tasks && InFsNow(s.tasks[t]) && s.tasks[t].fs == Apply(s, e).tasks[t].fs)
  {
  }

  /** While it is in a file system, a task is in the one it joined. */
  lemma {:induction false} JoinOf(es: seq<Event>, ss: seq<State>, k: nat, t: nat) returns (j: nat)
    requires IsTrace(es, ss) && k <= |es| && t in ss[k].tasks && InFsNow(ss[k].tasks[t])
    ensures j < k && Joins(es[j], t, ss[k].tasks[t].fs)
  {
    assert StepAt(es, ss, k - 1);
    FsStep(ss[k - 1], es[k - 1], t);
    if Joins(es[k - 1], t, ss[k].tasks[t].fs) {
      j := k - 1;
    } else {
      j := JoinOf(es, ss, k - 1, t);
    }
  }

  lemma SameFs(es: seq<Event>, ss: seq<State>, j: nat, k: nat, f: nat, t: nat)
    requires IsTrace(es, ss) && j < |es| && Joins(es[j], t, f) && k <= |es| && t in ss[k].tasks
    requires InFsNow(ss[k].tasks[t])
    ensures j < k && ss[k].tasks[t].fs == f
  {
    var i := JoinOf(es, ss, k, t);
    JoinsOnce(es, ss, i, j, ss[k].tasks[t].fs, f, t);
  }

  // ---------------------------------------------------------------- which ids a task reports

  /** A task's own id is in its report if and only if no return reset its file system between its
      joining and its reading the ids. */
  lemma OwnIdIff(es: seq<Event>, ss: seq<State>, j: nat, c: nat, f: nat, t: nat)
    requires IsTrace(es, ss) && j < |es| && c < |es| && Joins(es[j], t, f) && es[c] == Capture(t)
    ensures j < c && At(ss[c], t, Reaping(f)) && t in ss[c + 1].tasks && Report(ss[c + 1].tasks[t]).Some?
    ensures t in Report(ss[c + 1].tasks[t]).value <==> Unreset(es, ss, j, c, f)
  {
    CapturedAt(es, ss, c, c + 1, t);
    SameFs(es, ss, j, c, f, t);
    IdsAre(es, ss, c, f, t);
    if t in Ids(ss[c], f) {
      var i :| 0 <= i < c && Joins(es[i], t, f) && Unreset(es, ss, i, c, f);
      JoinsOnce(es, ss, i, j, f, f, t);
    }
  }

  /** The task that joined at event `j` is on the list that is read at event `c`. */
  ghost predicate Named(es: seq<Event>, ss: seq<State>, j: nat, c: nat, f: nat)
    requires c <= |es| <= |ss|
  {
    j < c && Unreset(es, ss, j, c, f)
  }

  /** Every task that joined before the changes were collected at event `h` is named in the list read
      at event `c` if and only if its changes had not been collected before. */
  ghost predicate InStep(es: seq<Event>, ss: seq<State>, c: nat, h: nat, f: nat)
    requires c <= h <= |es| <= |ss|
  {
    forall j :: 0 <= j < h && JoinsFs(es[j], f) ==> (Named(es, ss, j, c, f) <==> Uncollected(es, ss, j, h, f))
  }

  lemma InStepMeans(es: seq<Event>, ss: seq<State>, c: nat, h: nat, f: nat)
    requires IsTrace(es, ss) && c <= h <= |es|
    ensures ToSet(Ids(ss[c], f)) == Dirty(ss[h], f) <==> InStep(es, ss, c, h, f)
  {
    if InStep(es, ss, c, h, f) {
      forall x ensures x in Ids(ss[c], f) <==> x in Dirty(ss[h], f) {
        IdsAre(es, ss, c, f, x);
        DirtyAre(es, ss, h, f, x);
        if x in Ids(ss[c], f) {
          var j :| 0 <= j < c && Joins(es[j], x, f) && Unreset(es, ss, j, c, f);
          assert Named(es, ss, j, c, f);
        }
        if x in Dirty(ss[h], f) {
          var j :| 0 <= j < h && Joins(es[j], x, f) && Uncollected(es, ss, j, h, f);
          assert Named(es, ss, j, c, f);
        }
      }
    }
    if ToSet(Ids(ss[c], f)) == Dirty(ss[h], f) {
      forall j | 0 <= j < h && JoinsFs(es[j], f) ensures Named(es, ss, j, c, f) <==> Uncollected(es, ss, j, h, f) {
        NamedIff(es, ss, j, c, h, f);
      }
    }
  }

  lemma NamedIff(es: seq<Event>, ss: seq<State>, j: nat, c: nat, h: nat, f: nat)
    requires IsTrace(es, ss) && j < h && c <= h <= |es| && JoinsFs(es[j], f)
    ensures Named(es, ss, j, c, f) <==> es[j].task in Ids(ss[c], f)
    ensures Uncollected(es, ss, j, h, f) <==> es[j].task in Dirty(ss[h], f)
  {
    var x := es[j].task;
    IdsAre(es, ss, c, f, x);
    DirtyAre(es, ss, h, f, x);
    assert Joins(es[j], x, f);
    if x in Ids(ss[c], f) {
      var i :| 0 <= i < c && Joins(es[i], x, f) && Unreset(es, ss, i, c, f);
      JoinsOnce(es, ss, i, j, f, f, x);
    }
    if x in Dirty(ss[h], f) {
      var i :| 0 <= i < h && Joins(es[i], x, f) && Uncollected(es, ss, i, h, f);
      JoinsOnce(es, ss, i, j, f, f, x);
    }
  }

  lemma {:induction false} HarvestingSince(es: seq<Event>, ss: seq<State>, c: nat, k: nat, t: nat)
    requires IsTrace(es, ss) && c < k <= |es| && es[c] == Capture(t) && t in ss[k].tasks && ss[k].tasks[t].Harvesting?
    ensures t in ss[c].tasks && ss[c].tasks[t].Reaping?
    ensures ss[k].tasks[t] == Harvesting(ss[c].tasks[t].fs, Ids(ss[c], ss[c].tasks[t].fs))
  {
    CapturedAt(es, ss, c, k, t);
    var j := JoinOf(es, ss, c, t);
    SameFs(es, ss, j, k, ss[c].tasks[t].fs, t);
  }

  /** A reply carries the changes of exactly the tasks it names, if and only if nobody joined the file
      system out of step: between a reset and the collection it should have followed, or the other
      way round, or between the reading of the ids and the collection. */
  lemma ReplyRightIff(es: seq<Event>, ss: seq<State>, c: nat, h: nat, k: nat, t: nat)
    requires IsTrace(es, ss) && c < h < k <= |es| && es[c] == Capture(t) && es[h] == Harvest(t)
    ensures t in ss[c].tasks && ss[c].tasks[t].Reaping? && t in ss[k].tasks && ReplyOf(ss[k].tasks[t]).Some?
    ensures var reply := ReplyOf(ss[k].tasks[t]).value;
      reply.carried == ToSet(reply.ids) <==> InStep(es, ss, c, h, ss[c].tasks[t].fs)
  {
    HarvestedAt(es, ss, h, k, t);
    HarvestingSince(es, ss, c, h, t);
    InStepMeans(es, ss, c, h, ss[c].tasks[t].fs);
  }

  // ---------------------------------------------------------------- who reports an id

  ghost predicate FinishedBefore(es: seq<Event>, x: nat, m: nat)
    requires m <= |es|
  {
    exists n :: 0 <= n < m && es[n] == Finish(x)
  }

  lemma RunningStep(s: State, e: Event, x: nat, f: nat)
    requires Enabled(s, e)
    ensures At(s, x, Running(f)) ==> At(Apply(s, e), x, Running(f)) || e == Finish(x)
    ensures HasJoined(s, x) && !s.tasks[x].Running? ==> !Apply(s, e).tasks[x].Running?
    ensures e == Finish(x) ==> HasJoined(Apply(s, e), x) && !Apply(s, e).tasks[x].Running?
  {
  }

  /** A task that has joined is running until it finishes. */
  lemma {:induction false} RunsUntil(es: seq<Event>, ss: seq<State>, j: nat, k: nat, f: nat, x: nat)
    requires IsTrace(es, ss) && j < k <= |es| && Joins(es[j], x, f)
    ensures At(ss[k], x, Running(f)) || FinishedBefore(es, x, k)
  {
    assert StepAt(es, ss, k - 1);
    if j < k - 1 {
      RunsUntil(es, ss, j, k - 1, f, x);
      RunningStep(ss[k - 1], es[k - 1], x, f);
    }
  }

  lemma {:induction false} NotRunningAfter(es: seq<Event>, ss: seq<State>, m: nat, k: nat, x: nat)
    requires IsTrace(es, ss) && m < k <= |es| && es[m] == Finish(x)
    ensures HasJoined(ss[k], x) && !ss[k].tasks[x].Running?
  {
    assert StepAt(es, ss, k - 1);
    RunningStep(ss[k - 1], es[k - 1], x, 0);
    if m < k - 1 {
      NotRunningAfter(es, ss, m, k - 1, x);
      StaysJoined(ss[k - 1], es[k - 1], x);
    }
  }

  lemma FinishesOnce(es: seq<Event>, ss: seq<State>, m: nat, n: nat, x: nat)
    requires IsTrace(es, ss) && m < |es| && n < |es| && es[m] == Finish(x) && es[n] == Finish(x)
    ensures m == n
  {
    assert StepAt(es, ss, m) && StepAt(es, ss, n);
    if m < n {
      NotRunningAfter(es, ss, m, n, x);
    } else if n < m {
      NotRunningAfter(es, ss, n, m, x);
    }
  }

  lemma ReapingStep(s: State, e: Event, t: nat, f: nat)
    requires Enabled(s, e) && At(Apply(s, e), t, Reaping(f)) && e != Finish(t)
    ensures At(s, t, Reaping(f))
  {
  }

  /** The last to leave has been reaping ever since. */
  lemma {:induction false} ReapingSince(es: seq<Event>, ss: seq<State>, m: nat, k: nat, c: nat, t: nat, f: nat)
    requires IsTrace(es, ss) && m < k <= c <= |es| && es[m] == Finish(t) && At(ss[c], t, Reaping(f))
    ensures At(ss[k], t, Reaping(f))
    decreases c - k
  {
    if k < c {
      ReapingSince(es, ss, m, k + 1, c, t, f);
      assert StepAt(es, ss, k);
      if es[k] == Finish(t) {
        FinishesOnce(es, ss, m, k, t);
      }
      ReapingStep(ss[k], es[k], t, f);
    }
  }

  lemma FinishCloses(s: State, t: nat, f: nat)
    requires BaseInv(s) && Enabled(s, Finish(t)) && At(Finished(s, t), t, Reaping(f))
    ensures f in s.fses && s.tasks[t].fs == f && Ids(Finished(s, t), f) == Ids(s, f)
    ensures var fs := Finished(s, t).fses[f]; fs.reaping && fs.reaper == Some(t) && fs.tasks == {}
  {
    assert FsOk(s, f) && At(s, t, Running(f));
  }

  lemma ClosedStep(s: State, e: Event, f: nat)
    requires BaseInv(s) && Enabled(s, e) && f in s.fses && s.fses[f].reaping && !Resets(s, e, f)
    ensures f in Apply(s, e).fses && Apply(s, e).fses[f].reaping
    ensures Apply(s, e).fses[f].reaper == s.fses[f].reaper && Ids(Apply(s, e), f) == Ids(s, f)
  {
    if e.Finish? {
      assert FsOk(s, f) && At(s, e.task, Running(s.tasks[e.task].fs));
    }
  }

  /** A file system that someone has been the last to leave, and that nobody has reset since, is closed. */
  lemma {:induction false} ClosedSince(es: seq<Event>, ss: seq<State>, m: nat, k: nat, t: nat, f: nat)
    requires IsTrace(es, ss) && m < k <= |es| && es[m] == Finish(t) && At(ss[m + 1], t, Reaping(f))
    requires Unreset(es, ss, m, k, f)
    ensures f in ss[k].fses && ss[k].fses[f].reaping && ss[k].fses[f].reaper == Some(t)
    ensures Ids(ss[k], f) == Ids(ss[m], f)
  {
    assert StepAt(es, ss, k - 1);
    TraceInv(es, ss, k - 1);
    if m < k - 1 {
      assert Unreset(es, ss, m, k - 1, f) && !Resets(ss[k - 1], es[k - 1], f);
      ClosedSince(es, ss, m, k - 1, t, f);
      ClosedStep(ss[k - 1], es[k - 1], f);
    } else {
      FinishCloses(ss[m], t, f);
    }
  }

  /** Before it finishes, nobody resets a task's file system. */
  lemma ResetAfterFinish(es: seq<Event>, ss: seq<State>, j: nat, m: nat, r: nat, t: nat, f: nat)
    requires IsTrace(es, ss) && j < r < |es| && Joins(es[j], t, f) && m < |es| && es[m] == Finish(t)
    requires Resets(ss[r], es[r], f)
    ensures m < r
  {
    RunsUntil(es, ss, j, r, f, t);
    TraceInv(es, ss, r);
    assert FsOk(ss[r], f);
    if n :| 0 <= n < r && es[n] == Finish(t) {
      FinishesOnce(es, ss, m, n, t);
    }
  }

  /** Of the ids a task reports, those of others finished before it if and only if its own is among
      them: then it is the last to finish of all it reports. */
  lemma ReporterIsLast(es: seq<Event>, ss: seq<State>, m: nat, c: nat, f: nat, t: nat, x: nat)
    requires IsTrace(es, ss) && m < c < |es| && es[m] == Finish(t) && es[c] == Capture(t) && At(ss[c], t, Reaping(f))
    requires x in Ids(ss[c], f) && x != t
    ensures FinishedBefore(es, x, m) <==> t in Ids(ss[c], f)
  {
    var j := JoinOf(es, ss, c, t);
    OwnIdIff(es, ss, j, c, f, t);
    CapturedAt(es, ss, c, c + 1, t);
    if t in Ids(ss[c], f) {
      OthersFinished(es, ss, m, j, c, f, t, x);
    } else {
      OthersNotYet(es, ss, m, j, c, f, t, x);
    }
  }

  lemma OthersFinished(es: seq<Event>, ss: seq<State>, m: nat, j: nat, c: nat, f: nat, t: nat, x: nat)
    requires IsTrace(es, ss) && m < c < |es| && es[m] == Finish(t) && At(ss[c], t, Reaping(f))
    requires j < |es| && Joins(es[j], t, f) && Unreset(es, ss, j, c, f) && x in Ids(ss[c], f) && x != t
    ensures FinishedBefore(es, x, m)
  {
    assert StepAt(es, ss, m);
    SameFs(es, ss, j, m, f, t);
    assert Unreset(es, ss, m, c, f);
    ReapingSince(es, ss, m, m + 1, c, t, f);
    ClosedSince(es, ss, m, c, t, f);
    ListedFinished(es, ss, m, f, t, x);
  }

  lemma ListedFinished(es: seq<Event>, ss: seq<State>, m: nat, f: nat, t: nat, x: nat)
    requires IsTrace(es, ss) && m < |es| && es[m] == Finish(t) && At(ss[m + 1], t, Reaping(f))
    requires x in Ids(ss[m], f) && x != t
    ensures FinishedBefore(es, x, m)
  {
    IdsAre(es, ss, m, f, x);
    var i :| 0 <= i < m && Joins(es[i], x, f) && Unreset(es, ss, i, m, f);
    RunsUntil(es, ss, i, m + 1, f, x);
    NobodyRuns(es, ss, m, f, t, x);
    var n :| 0 <= n < m + 1 && es[n] == Finish(x);
    assert n < m;
  }

  lemma NobodyRuns(es: seq<Event>, ss: seq<State>, m: nat, f: nat, t: nat, x: nat)
    requires IsTrace(es, ss) && m < |es| && es[m] == Finish(t) && At(ss[m + 1], t, Reaping(f))
    ensures !At(ss[m + 1], x, Running(f))
  {
    TraceInv(es, ss, m + 1);
    assert StepAt(es, ss, m);
    LastLeaves(ss[m], t, f, x);
  }

  lemma OthersNotYet(es: seq<Event>, ss: seq<State>, m: nat, j: nat, c: nat, f: nat, t: nat, x: nat)
    requires IsTrace(es, ss) && m < c < |es| && es[m] == Finish(t)
    requires j < c && Joins(es[j], t, f) && !Unreset(es, ss, j, c, f) && x in Ids(ss[c], f)
    ensures !FinishedBefore(es, x, m)
  {
    var r :| j < r < c && Resets(ss[r], es[r], f);
    ResetAfterFinish(es, ss, j, m, r, t, f);
    IdsAre(es, ss, c, f, x);
    var i :| 0 <= i < c && Joins(es[i], x, f) && Unreset(es, ss, i, c, f);
    assert r < i;
    assert StepAt(es, ss, i);
    forall n | 0 <= n < m ensures es[n] != Finish(x) {
      if es[n] == Finish(x) {
        NotRunningAfter(es, ss, n, i, x);
      }
    }
  }

  // ---------------------------------------------------------------- running where someone is reaping

  /** `t` is to collect the changes in `f`, or about to. */
  predicate Unharvested(s: State, t: nat, f: nat) {
    t in s.tasks && (s.tasks[t].Reaping? || s.tasks[t].Harvesting?) && s.tasks[t].fs == f
  }

  /** A task runs in a file system whose changes another is about to collect and throw away. */
  ghost predicate Crowded(s: State, f: nat) {
    (exists u :: At(s, u, Running(f))) && (exists t :: Unharvested(s, t, f))
  }

  /** Event `i` resets `f` under `t`, which is reaping it, and event `j` lets someone in before `t` has
      collected the changes. */
  ghost predicate Intruded(es: seq<Event>, ss: seq<State>, i: nat, j: nat, t: nat, f: nat)
    requires |es| <= |ss|
  {
    && i < j < |es| && Resets(ss[i], es[i], f) && Unharvested(ss[i], t, f) && JoinsFs(es[j], f)
    && forall k :: i < k < j ==> es[k] != Harvest(t)
  }

  lemma UnharvestedStep(s: State, e: Event, t: nat, f: nat)
    requires Enabled(s, e)
    ensures Unharvested(Apply(s, e), t, f) ==>
      (e == Finish(t) && At(Apply(s, e), t, Reaping(f))) || (Unharvested(s, t, f) && e != Harvest(t))
    ensures Unharvested(s, t, f) && e != Harvest(t) ==> Unharvested(Apply(s, e), t, f)
  {
  }

  /** When a task that has yet to collect was the last to leave. */
  lemma {:induction false} FinishOf(es: seq<Event>, ss: seq<State>, k: nat, t: nat, f: nat) returns (m: nat)
    requires IsTrace(es, ss) && k <= |es| && Unharvested(ss[k], t, f)
    ensures m < k && es[m] == Finish(t) && At(ss[m + 1], t, Reaping(f))
    ensures forall i :: m < i <= k ==> Unharvested(ss[i], t, f)
    ensures forall i :: m < i < k ==> es[i] != Harvest(t)
  {
    assert StepAt(es, ss, k - 1);
    UnharvestedStep(ss[k - 1], es[k - 1], t, f);
    if es[k - 1] == Finish(t) && At(ss[k], t, Reaping(f)) {
      m := k - 1;
    } else {
      m := FinishOf(es, ss, k - 1, t, f);
    }
  }

  lemma NewRunner(s: State, e: Event, u: nat, f: nat)
    requires Enabled(s, e) && At(Apply(s, e), u, Running(f)) && !At(s, u, Running(f))
    ensures Joins(e, u, f)
  {
  }

  /** The last to leave leaves nobody behind. */
  lemma LastLeaves(s: State, t: nat, f: nat, u: nat)
    requires Enabled(s, Finish(t)) && BaseInv(Finished(s, t)) && At(Finished(s, t), t, Reaping(f))
    ensures !At(Finished(s, t), u, Running(f))
  {
    assert FsOk(Finished(s, t), f);
  }

  lemma CrowdedStep(s: State, e: Event, f: nat)
    requires Inv(s) && Enabled(s, e) && Crowded(Apply(s, e), f) && !Crowded(s, f)
    ensures e.Join? && e.fs == f && exists t :: Unharvested(s, t, f)
  {
    var u :| At(Apply(s, e), u, Running(f));
    var t :| Unharvested(Apply(s, e), t, f);
    UnharvestedStep(s, e, t, f);
    if e == Finish(t) {
      StepInv(s, e);
      LastLeaves(s, t, f, u);
    } else {
      NewRunner(s, e, u, f);
      assert TaskOk(s, t);
    }
  }

  lemma {:induction false} CrowdedByIntruder(es: seq<Event>, ss: seq<State>, k: nat, f: nat)
    requires IsTrace(es, ss) && k <= |es| && Crowded(ss[k], f)
    ensures exists i, j, t :: Intruded(es, ss, i, j, t, f)
  {
    assert StepAt(es, ss, k - 1);
    if Crowded(ss[k - 1], f) {
      CrowdedByIntruder(es, ss, k - 1, f);
    } else {
      TraceInv(es, ss, k - 1);
      CrowdedStep(ss[k - 1], es[k - 1], f);
      var t :| Unharvested(ss[k - 1], t, f);
      var i := ResetBefore(es, ss, k - 1, t, f);
      assert Intruded(es, ss, i, k - 1, t, f);
    }
  }

  /** A file system with an unharvested task in it is open to others only because it was reset. */
  lemma ResetBefore(es: seq<Event>, ss: seq<State>, k: nat, t: nat, f: nat) returns (i: nat)
    requires IsTrace(es, ss) && k <= |es| && Unharvested(ss[k], t, f) && Joinable(ss[k], f)
    ensures i < k && Resets(ss[i], es[i], f) && Unharvested(ss[i], t, f)
    ensures forall n :: i < n < k ==> es[n] != Harvest(t)
  {
    var m := FinishOf(es, ss, k, t, f);
    if Unreset(es, ss, m, k, f) {
      ClosedSince(es, ss, m, k, t, f);
    }
    i :| m < i < k && Resets(ss[i], es[i], f);
  }

  lemma {:induction false} UnharvestedUntil(es: seq<Event>, ss: seq<State>, i: nat, k: nat, t: nat, f: nat)
    requires IsTrace(es, ss) && i <= k <= |es| && Unharvested(ss[i], t, f)
    requires forall n :: i <= n < k ==> es[n] != Harvest(t)
    ensures Unharvested(ss[k], t, f)
  {
    if i < k {
      UnharvestedUntil(es, ss, i, k - 1, t, f);
      assert StepAt(es, ss, k - 1);
      UnharvestedStep(ss[k - 1], es[k - 1], t, f);
    }
  }

  lemma IntruderCrowds(es: seq<Event>, ss: seq<State>, i: nat, j: nat, t: nat, f: nat)
    requires IsTrace(es, ss) && Intruded(es, ss, i, j, t, f)
    ensures Crowded(ss[j + 1], f)
  {
    assert StepAt(es, ss, i) && StepAt(es, ss, j);
    UnharvestedUntil(es, ss, i, j, t, f);
    UnharvestedStep(ss[j], es[j], t, f);
    assert At(ss[j + 1], es[j].task, Running(f));
  }

  /** Somewhere in a run a task runs in a file system that another is reaping, if and only if somebody
      joined it between a return that reset it and the collection of its changes. */
  lemma CrowdedIff(es: seq<Event>, ss: seq<State>, f: nat)
    requires IsTrace(es, ss)
    ensures (exists k :: 0 <= k <= |es| && Crowded(ss[k], f)) <==> exists i, j, t :: Intruded(es, ss, i, j, t, f)
  {
    if k :| 0 <= k <= |es| && Crowded(ss[k], f) {
      CrowdedByIntruder(es, ss, k, f);
    }
    if i, j, t :| Intruded(es, ss, i, j, t, f) {
      IntruderCrowds(es, ss, i, j, t, f);
    }
  }

  // ---------------------------------------------------------------- what the master may conclude

  lemma ProcessedStep(s: State, e: Event, x: nat)
    requires Enabled(s, e)
    ensures x in Apply(s, e).processed <==> x in s.processed || (e.Process? && ReportsOf(s, e.task, x))
  {
  }

  /** What has been replayed are the ids named in the replies that have been dealt with. */
  lemma {:induction false} ProcessedAre(es: seq<Event>, ss: seq<State>, k: nat, x: nat)
    requires IsTrace(es, ss) && k <= |es|
    ensures x in ss[k].processed <==> exists q :: 0 <= q < k && es[q].Process? && ReportsOf(ss[q], es[q].task, x)
  {
    if k > 0 {
      ProcessedAre(es, ss, k - 1, x);
      assert StepAt(es, ss, k - 1);
      ProcessedStep(ss[k - 1], es[k - 1], x);
    }
  }

  lemma ReportBack(s: State, e: Event, u: nat)
    requires Enabled(s, e) && u in Apply(s, e).tasks && Report(Apply(s, e).tasks[u]).Some?
    ensures e == Capture(u) || (u in s.tasks && Report(s.tasks[u]).Some?)
  {
  }

  lemma {:induction false} CaptureOf(es: seq<Event>, ss: seq<State>, k: nat, u: nat) returns (n: nat)
    requires IsTrace(es, ss) && k <= |es| && u in ss[k].tasks && Report(ss[k].tasks[u]).Some?
    ensures n < k && es[n] == Capture(u)
  {
    assert StepAt(es, ss, k - 1);
    ReportBack(ss[k - 1], es[k - 1], u);
    if es[k - 1] == Capture(u) {
      n := k - 1;
    } else {
      n := CaptureOf(es, ss, k - 1, u);
    }
  }

  lemma CapturesOnce(es: seq<Event>, ss: seq<State>, c: nat, n: nat, t: nat)
    requires IsTrace(es, ss) && c < |es| && n < |es| && es[c] == es[n] == Capture(t)
    ensures c == n
  {
    assert StepAt(es, ss, c) && StepAt(es, ss, n);
    if c < n {
      CapturedAt(es, ss, c, n, t);
    } else if n < c {
      CapturedAt(es, ss, n, c, t);
    }
  }

  /** Event `n`, at which `u` reads the ids of `f`, comes after event `j` and before any return has reset
      the file system; and at event `q` the reply of `u` is replayed. */
  ghost predicate ReadAndReplayed(es: seq<Event>, ss: seq<State>, j: nat, k: nat, f: nat, u: nat, n: nat, q: nat)
    requires k <= |es| <= |ss|
  {
    && j < n < q < k && es[n] == Capture(u) && At(ss[n], u, Reaping(f)) && es[q] == Process(u)
    && Unreset(es, ss, j, n, f)
  }

  lemma ReplayedMeans(es: seq<Event>, ss: seq<State>, j: nat, k: nat, f: nat, x: nat, u: nat, n: nat, q: nat)
    requires IsTrace(es, ss) && k <= |es| && j < |es| && Joins(es[j], x, f)
    requires ReadAndReplayed(es, ss, j, k, f, u, n, q)
    ensures x in ss[k].processed
  {
    IdsAre(es, ss, n, f, x);
    CapturedAt(es, ss, n, q, u);
    ProcessedAre(es, ss, k, x);
    assert ReportsOf(ss[q], es[q].task, x);
  }

  lemma ReplayedBy(es: seq<Event>, ss: seq<State>, j: nat, k: nat, f: nat, x: nat) returns (u: nat, n: nat, q: nat)
    requires IsTrace(es, ss) && k <= |es| && j < |es| && Joins(es[j], x, f) && x in ss[k].processed
    ensures ReadAndReplayed(es, ss, j, k, f, u, n, q)
  {
    ProcessedAre(es, ss, k, x);
    q :| 0 <= q < k && es[q].Process? && ReportsOf(ss[q], es[q].task, x);
    u := es[q].task;
    n := CaptureOf(es, ss, q, u);
    CapturedAt(es, ss, n, q, u);
    var g := ss[n].tasks[u].fs;
    IdsAre(es, ss, n, g, x);
    var i :| 0 <= i < n && Joins(es[i], x, g) && Unreset(es, ss, i, n, g);
    JoinsOnce(es, ss, i, j, g, f, x);
    assert Joins(es[j], x, g) && g == f;
  }

  /** Wait has returned for a task.  If the task brought no file set, one that names it has been
      replayed.  If it brought one, that is so if and only if no return reset its file system between
      its joining and its reading the ids, or another task, whose reply has been replayed, read them
      after it joined and before such a return. */
  lemma WaitRightIff(es: seq<Event>, ss: seq<State>, k: nat, t: nat, j: nat, c: nat, f: nat)
    requires IsTrace(es, ss) && k <= |es| && t in ss[k].waiters && ss[k].waiters[t].Done?
    ensures t in ss[k].tasks && ss[k].tasks[t].Answered?
    ensures ss[k].tasks[t].answer.None? ==> t in ss[k].processed
    ensures ss[k].tasks[t].answer.Some? && j < c < k && Joins(es[j], t, f) && es[c] == Capture(t) ==>
      (t in ss[k].processed <==>
       Unreset(es, ss, j, c, f) || exists u, n, q :: u != t && ReadAndReplayed(es, ss, j, k, f, u, n, q))
  {
    assert WaiterOk(ss[k], t) by {
      TraceInv(es, ss, k);
    }
    if ss[k].tasks[t].answer.Some? && j < c < k && Joins(es[j], t, f) && es[c] == Capture(t) {
      OwnReport(es, ss, k, t, j, c, f);
      OtherReport(es, ss, k, t, j, c, f);
    }
  }

  lemma OwnReport(es: seq<Event>, ss: seq<State>, k: nat, t: nat, j: nat, c: nat, f: nat)
    requires IsTrace(es, ss) && j < c < k <= |es| && Joins(es[j], t, f) && es[c] == Capture(t)
    ensures ReportsOf(ss[k], t, t) <==> Unreset(es, ss, j, c, f)
  {
    OwnIdIff(es, ss, j, c, f, t);
    CapturedAt(es, ss, c, c + 1, t);
    CapturedAt(es, ss, c, k, t);
  }

  lemma OtherReport(es: seq<Event>, ss: seq<State>, k: nat, t: nat, j: nat, c: nat, f: nat)
    requires IsTrace(es, ss) && j < c < k <= |es| && Joins(es[j], t, f) && es[c] == Capture(t)
    ensures t in ss[k].processed ==>
      Unreset(es, ss, j, c, f) || exists u, n, q :: u != t && ReadAndReplayed(es, ss, j, k, f, u, n, q)
    ensures (exists u, n, q :: u != t && ReadAndReplayed(es, ss, j, k, f, u, n, q)) ==> t in ss[k].processed
  {
    if t in ss[k].processed {
      var u, n, q := ReplayedBy(es, ss, j, k, f, t);
      if u == t {
        CapturesOnce(es, ss, c, n, t);
      }
    }
    if u, n, q :| u != t && ReadAndReplayed(es, ss, j, k, f, u, n, q) {
      ReplayedMeans(es, ss, j, k, f, t, u, n, q);
    }
  }
}
