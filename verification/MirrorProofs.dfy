/** Every step of the mirror machine keeps its invariants. */
module MirrorProofs {
  import opened Trees
  import opened Mirrors

  // ---------------------------------------------------------------- the base invariant

  lemma SameRunning(s: State, s': State)
    requires RunningTasks(s') <= RunningTasks(s)
    ensures |RunningTasks(s')| <= |RunningTasks(s)|
  {
    var a, b := RunningTasks(s'), RunningTasks(s);
    assert b == a + (b - a);
  }

  /** A step that changes one file system and one task on it. */
  predicate OneTask(s: State, s': State, t: nat, f: nat) {
    && s'.reapCount == s.reapCount && s'.maxJobs == s.maxJobs
    && f in s'.fses && s'.fses.Keys == s.fses.Keys + {f}
    && (forall g :: g in s.fses && g != f ==> s'.fses[g] == s.fses[g])
    && t in s.tasks && t in s'.tasks && s'.tasks.Keys == s.tasks.Keys
    && (forall u :: u in s.tasks && u != t ==> s'.tasks[u] == s.tasks[u])
    && !s'.tasks[t].Submitted?
    && (InFsNow(s.tasks[t]) ==> s.tasks[t].fs == f) && (InFsNow(s'.tasks[t]) ==> s'.tasks[t].fs == f)
  }

  lemma FsStable(s: State, s': State, t: nat, f: nat, g: nat)
    requires OneTask(s, s', t, f) && g in s.fses && g != f && FsOk(s, g)
    ensures FsOk(s', g)
  {
    forall u ensures At(s', u, Running(g)) <==> At(s, u, Running(g)) {}
    forall x | x in s.fses[g].taskIds ensures HasJoined(s', x) {
      assert HasJoined(s, x);
    }
  }

  lemma TaskStable(s: State, s': State, t: nat, f: nat, u: nat)
    requires OneTask(s, s', t, f) && u in s.tasks && u != t && TaskOk(s, u)
    ensures TaskOk(s', u)
  {
    if Report(s.tasks[u]).Some? {
      forall x | x in Report(s.tasks[u]).value ensures HasJoined(s', x) {
        assert HasJoined(s, x);
      }
    }
  }

  lemma OneTaskBase(s: State, s': State, t: nat, f: nat)
    requires BaseInv(s) && OneTask(s, s', t, f) && |RunningTasks(s')| <= s'.maxJobs
    requires FsOk(s', f) && TaskOk(s', t) && (forall x :: x in s'.lost ==> LostOk(s', x))
    ensures BaseInv(s')
  {
    forall g | g in s'.fses ensures FsOk(s', g) {
      if g != f {
        FsStable(s, s', t, f, g);
      }
    }
    forall u | u in s'.tasks ensures TaskOk(s', u) {
      if u != t {
        TaskStable(s, s', t, f, u);
      }
    }
  }

  lemma LostStays(s: State, s': State, t: nat, f: nat, x: nat)
    requires LostOk(s, x) && OneTask(s, s', t, f)
    requires x !in s'.fses[f].taskIds
    requires Report(s'.tasks[t]).Some? && Report(s'.tasks[t]) != Report(s.tasks[t]) ==>
      f in s.fses && Report(s'.tasks[t]).value == s.fses[f].taskIds
    ensures LostOk(s', x)
  {
    forall u | u in s'.tasks ensures !ReportsOf(s', u, x) {
      assert !ReportsOf(s, u, x);
    }
  }

  lemma JoinedFs(s: State, t: nat, f: nat, fs: Fs)
    requires BaseInv(s) && At(s, t, Submitted)
    requires (Joinable(s, f) && fs == s.fses[f]) || (f !in s.fses && fs == NEW_FS)
    ensures FsOk(Joined(s, t, f, fs), f)
  {
    var s' := Joined(s, t, f, fs);
    if f in s.fses {
      assert FsOk(s, f);
    } else {
      forall u ensures !At(s, u, Running(f)) {
        assert u in s.tasks ==> TaskOk(s, u);
      }
    }
    forall u ensures At(s', u, Running(f)) <==> u == t || At(s, u, Running(f)) {}
  }

  lemma JoinedRunning(s: State, t: nat, f: nat, fs: Fs)
    requires At(s, t, Submitted) && |RunningTasks(s)| < s.maxJobs
    ensures |RunningTasks(Joined(s, t, f, fs))| <= s.maxJobs
  {
    assert RunningTasks(Joined(s, t, f, fs)) == RunningTasks(s) + {t};
  }

  lemma JoinedBase(s: State, t: nat, f: nat, fs: Fs)
    requires BaseInv(s) && At(s, t, Submitted) && |RunningTasks(s)| < s.maxJobs
    requires (Joinable(s, f) && fs == s.fses[f]) || (f !in s.fses && fs == NEW_FS)
    ensures BaseInv(Joined(s, t, f, fs))
  {
    var s' := Joined(s, t, f, fs);
    JoinedRunning(s, t, f, fs);
    JoinedFs(s, t, f, fs);
    assert OneTask(s, s', t, f);
    assert TaskOk(s', t);
    forall x | x in s'.lost ensures LostOk(s', x) {
      JoinedLost(s, t, f, fs, x);
    }
    OneTaskBase(s, s', t, f);
  }

  lemma JoinedLost(s: State, t: nat, f: nat, fs: Fs, x: nat)
    requires At(s, t, Submitted) && LostOk(s, x)
    requires (Joinable(s, f) && fs == s.fses[f]) || (f !in s.fses && fs == NEW_FS)
    ensures LostOk(Joined(s, t, f, fs), x)
  {
    assert x != t;
    LostStays(s, Joined(s, t, f, fs), t, f, x);
  }

  lemma FinishedBase(s: State, t: nat)
    requires BaseInv(s) && Enabled(s, Finish(t))
    ensures BaseInv(Finished(s, t))
  {
    var s' := Finished(s, t);
    var f := s.tasks[t].fs;
    FinishedParts(s, t);
    SameRunning(s, s');
    forall x | x in s'.lost ensures LostOk(s', x) {
      assert LostOk(s, x);
      LostStays(s, s', t, f, x);
    }
    OneTaskBase(s, s', t, f);
  }

  lemma FinishedParts(s: State, t: nat)
    requires BaseInv(s) && Enabled(s, Finish(t))
    ensures FsOk(Finished(s, t), s.tasks[t].fs) && TaskOk(Finished(s, t), t)
  {
    assert FsOk(s, s.tasks[t].fs) && At(s, t, Running(s.tasks[t].fs));
  }

  lemma CapturedBase(s: State, t: nat)
    requires BaseInv(s) && Enabled(s, Capture(t))
    ensures BaseInv(Captured(s, t))
  {
    var s' := Captured(s, t);
    var f := s.tasks[t].fs;
    CapturedParts(s, t);
    SameRunning(s, s');
    forall x | x in s'.lost ensures LostOk(s', x) {
      assert LostOk(s, x);
      LostStays(s, s', t, f, x);
    }
    OneTaskBase(s, s', t, f);
  }

  lemma CapturedParts(s: State, t: nat)
    requires BaseInv(s) && Enabled(s, Capture(t))
    ensures FsOk(Captured(s, t), s.tasks[t].fs) && TaskOk(Captured(s, t), t)
  {
    assert FsOk(s, s.tasks[t].fs);
  }

  lemma HarvestedBase(s: State, t: nat)
    requires BaseInv(s) && Enabled(s, Harvest(t))
    ensures BaseInv(Harvested(s, t))
  {
    var s' := Harvested(s, t);
    var f := s.tasks[t].fs;
    HarvestedParts(s, t);
    SameRunning(s, s');
    forall x | x in s'.lost ensures LostOk(s', x) {
      assert LostOk(s, x);
      LostStays(s, s', t, f, x);
    }
    OneTaskBase(s, s', t, f);
  }

  lemma HarvestedParts(s: State, t: nat)
    requires BaseInv(s) && Enabled(s, Harvest(t))
    ensures FsOk(Harvested(s, t), s.tasks[t].fs) && TaskOk(Harvested(s, t), t)
  {
    assert FsOk(s, s.tasks[t].fs) && TaskOk(s, t);
    assert forall x :: x in s.tasks[t].ids ==> HasJoined(s, x);
  }

  /** When nothing has been lost before, what an early reset wipes out is nowhere else. */
  lemma FirstLoss(s: State, t: nat, x: nat)
    requires BaseInv(s) && ExactInv(s) && Lossy(s, t) && x in s.fses[s.tasks[t].fs].taskIds
    ensures forall g :: g in s.fses && x in s.fses[g].taskIds ==> g == s.tasks[t].fs
    ensures forall u :: u in s.tasks ==> !ReportsOf(s, u, x)
  {
    var f := s.tasks[t].fs;
    assert FsHome(s, f) && HomeIs(s, x, InFs(f));
    forall g | g in s.fses && x in s.fses[g].taskIds ensures g == f {
      assert FsHome(s, g);
      assert s.fses[g].captured || HomeIs(s, x, InFs(g));
    }
    forall u | u in s.tasks ensures !ReportsOf(s, u, x) {
      assert TaskHome(s, u) && !HomeIs(s, x, InReport(u));
    }
  }

  lemma ReturnedLost(s: State, t: nat, x: nat)
    requires BaseInv(s) && (s.lost == {} ==> ExactInv(s)) && Enabled(s, Return(t)) && x in Returned(s, t).lost
    ensures LostOk(Returned(s, t), x)
  {
    var s' := Returned(s, t);
    var f := s.tasks[t].fs;
    if x in s.lost {
      assert LostOk(s, x);
      LostStays(s, s', t, f, x);
    } else {
      FirstLost(s, t, x);
    }
  }

  lemma FirstLost(s: State, t: nat, x: nat)
    requires BaseInv(s) && ExactInv(s) && Lossy(s, t) && s.lost == {} && x in s.fses[s.tasks[t].fs].taskIds
    ensures LostOk(Returned(s, t), x)
  {
    var s' := Returned(s, t);
    FirstLoss(s, t, x);
    assert HasJoined(s, x) by {
      assert FsOk(s, s.tasks[t].fs);
    }
    forall u | u in s'.tasks
      ensures !ReportsOf(s', u, x)
    {
      assert !ReportsOf(s, u, x);
    }
  }

  lemma ReturnedBase(s: State, t: nat)
    requires BaseInv(s) && (s.lost == {} ==> ExactInv(s)) && Enabled(s, Return(t))
    ensures BaseInv(Returned(s, t))
  {
    var s' := Returned(s, t);
    var f := s.tasks[t].fs;
    ReturnedParts(s, t);
    SameRunning(s, s');
    forall x | x in s'.lost ensures LostOk(s', x) {
      ReturnedLost(s, t, x);
    }
    OneTaskBase(s, s', t, f);
  }

  lemma ReturnedFs(s: State, t: nat, s': State, f: nat)
    requires BaseInv(s) && Enabled(s, Return(t)) && s' == Returned(s, t) && f == s.tasks[t].fs
    ensures FsOk(s', f)
  {
    assert FsOk(s, f);
    forall u
      ensures At(s', u, Running(f)) <==> At(s, u, Running(f))
    {
    }
  }

  lemma ReturnedTask(s: State, t: nat)
    requires BaseInv(s) && Enabled(s, Return(t))
    ensures TaskOk(Returned(s, t), t)
  {
    assert TaskOk(s, t);
    if s.tasks[t].Returning? {
      assert forall x :: x in s.tasks[t].reply.ids ==> HasJoined(s, x);
    }
  }

  lemma ReturnedParts(s: State, t: nat)
    requires BaseInv(s) && Enabled(s, Return(t))
    ensures FsOk(Returned(s, t), s.tasks[t].fs) && TaskOk(Returned(s, t), t)
  {
    ReturnedFs(s, t, Returned(s, t), s.tasks[t].fs);
    ReturnedTask(s, t);
  }

  // ---------------------------------------------------------------- every id in exactly one place

  predicate SameEpoch(a: Fs, b: Fs) {
    a.reaping == b.reaping && a.reaper == b.reaper && a.captured == b.captured && a.taskIds == b.taskIds
  }

  /** The other file systems and tasks do not notice a step that keeps the other ids at home. */
  lemma OneTaskExact(s: State, s': State, t: nat, f: nat)
    requires ExactInv(s) && OneTask(s, s', t, f)
    requires forall x :: HomeOk(s', x)
    requires forall x, g :: g in s.fses && g != f ==> (HomeIs(s', x, InFs(g)) <==> HomeIs(s, x, InFs(g)))
    requires forall x, u :: u in s.tasks && u != t ==> (HomeIs(s', x, InReport(u)) <==> HomeIs(s, x, InReport(u)))
    requires forall x :: x in s.home && s.home[x].InReport? ==> x in s'.home && s'.home[x].InReport?
    requires FsHome(s', f) && TaskHome(s', t)
    requires forall u :: u in s.tasks && u != t && s.tasks[u] == Reaping(f) ==>
      f in s.fses && SameEpoch(s.fses[f], s'.fses[f])
    ensures ExactInv(s')
  {
    forall g | g in s'.fses ensures FsHome(s', g) {
      if g != f {
        assert FsHome(s, g);
      }
    }
    forall u | u in s'.tasks ensures TaskHome(s', u) {
      if u != t {
        assert TaskHome(s, u);
        forall x ensures ReportsOf(s', u, x) <==> ReportsOf(s, u, x) {}
      }
    }
  }

  lemma JoinedHomes(s: State, t: nat, f: nat, fs: Fs)
    requires BaseInv(s) && ExactInv(s) && At(s, t, Submitted)
    requires (Joinable(s, f) && fs == s.fses[f]) || (f !in s.fses && fs == NEW_FS)
    ensures FsHome(Joined(s, t, f, fs), f) && TaskHome(Joined(s, t, f, fs), t)
  {
    var s' := Joined(s, t, f, fs);
    assert HomeOk(s, t) && TaskHome(s, t);
    if f in s.fses {
      assert FsHome(s, f) && FsOk(s, f);
      assert t !in fs.taskIds by {
        assert t in fs.taskIds ==> HasJoined(s, t);
      }
    } else {
      forall x ensures !HomeIs(s, x, InFs(f)) {
        assert HomeOk(s, x);
      }
    }
    forall x ensures HomeIs(s', x, InReport(t)) <==> ReportsOf(s', t, x) {
      assert HomeIs(s, x, InReport(t)) <==> ReportsOf(s, t, x);
    }
    forall x ensures HomeIs(s', x, InFs(f)) <==> x in fs.taskIds + [t] {
      assert x != t ==> (HomeIs(s', x, InFs(f)) <==> HomeIs(s, x, InFs(f)));
    }
  }

  lemma JoinedExact(s: State, t: nat, f: nat, fs: Fs)
    requires BaseInv(s) && ExactInv(s) && At(s, t, Submitted)
    requires (Joinable(s, f) && fs == s.fses[f]) || (f !in s.fses && fs == NEW_FS)
    ensures ExactInv(Joined(s, t, f, fs))
  {
    var s' := Joined(s, t, f, fs);
    assert HomeOk(s, t) && TaskHome(s, t);
    forall x ensures HomeOk(s', x) {
      assert HomeOk(s, x);
    }
    JoinedHomes(s, t, f, fs);
    forall u | u in s.tasks ensures s.tasks[u] != Reaping(f) {
      assert TaskHome(s, u);
    }
    OneTaskExact(s, s', t, f);
  }

  lemma FinishedExact(s: State, t: nat)
    requires BaseInv(s) && ExactInv(s) && Enabled(s, Finish(t))
    ensures ExactInv(Finished(s, t))
  {
    var s' := Finished(s, t);
    var f := s.tasks[t].fs;
    assert FsOk(s, f) && FsHome(s, f) && TaskHome(s, t) && At(s, t, Running(f));
    forall x ensures HomeOk(s', x) {
      assert HomeOk(s, x);
    }
    forall x ensures ReportsOf(s', t, x) <==> ReportsOf(s, t, x) {}
    assert FsHome(s', f) && TaskHome(s', t);
    forall u | u in s.tasks ensures s.tasks[u] != Reaping(f) {
      assert TaskHome(s, u);
    }
    OneTaskExact(s, s', t, f);
  }

  /** Reading the ids moves them, all at once, from the file system into the reader's report. */
  lemma CapturedHome(s: State, t: nat, x: nat)
    requires ExactInv(s) && Enabled(s, Capture(t))
    ensures var s', f := Captured(s, t), s.tasks[t].fs;
      && HomeOk(s', x)
      && (HomeIs(s', x, InFs(f)) <==> false)
      && (HomeIs(s', x, InReport(t)) <==> x in s.fses[f].taskIds)
      && (forall g :: g in s.fses && g != f ==> (HomeIs(s', x, InFs(g)) <==> HomeIs(s, x, InFs(g))))
      && (forall u :: u in s.tasks && u != t ==> (HomeIs(s', x, InReport(u)) <==> HomeIs(s, x, InReport(u))))
  {
    var f := s.tasks[t].fs;
    assert TaskHome(s, t) && FsHome(s, f) && HomeOk(s, x);
    assert HomeIs(s, x, InFs(f)) <==> x in s.fses[f].taskIds;
    assert !ReportsOf(s, t, x);
  }

  lemma CapturedExact(s: State, t: nat)
    requires BaseInv(s) && ExactInv(s) && Enabled(s, Capture(t))
    ensures ExactInv(Captured(s, t))
  {
    var s' := Captured(s, t);
    var f := s.tasks[t].fs;
    forall x
      ensures HomeOk(s', x) && !HomeIs(s', x, InFs(f)) && (HomeIs(s', x, InReport(t)) <==> x in s.fses[f].taskIds)
      ensures forall g :: g in s.fses && g != f ==> (HomeIs(s', x, InFs(g)) <==> HomeIs(s, x, InFs(g)))
      ensures forall u :: u in s.tasks && u != t ==> (HomeIs(s', x, InReport(u)) <==> HomeIs(s, x, InReport(u)))
    {
      CapturedHome(s, t, x);
    }
    CapturedPlaces(s, t);
    forall u | u in s.tasks && u != t
      ensures s.tasks[u] != Reaping(f)
    {
      assert TaskHome(s, t) && TaskHome(s, u);
    }
    OneTaskExact(s, s', t, f);
  }

  lemma CapturedPlaces(s: State, t: nat)
    requires BaseInv(s) && ExactInv(s) && Enabled(s, Capture(t))
    requires var s', f := Captured(s, t), s.tasks[t].fs;
      forall x :: !HomeIs(s', x, InFs(f)) && (HomeIs(s', x, InReport(t)) <==> x in s.fses[f].taskIds)
    ensures FsHome(Captured(s, t), s.tasks[t].fs) && TaskHome(Captured(s, t), t)
  {
    var s', f := Captured(s, t), s.tasks[t].fs;
    assert TaskHome(s, t) && FsHome(s, f);
    forall x | x in s'.fses[f].taskIds ensures x in s'.home && s'.home[x].InReport? {
      assert HomeIs(s', x, InReport(t));
    }
    forall x ensures ReportsOf(s', t, x) <==> x in s.fses[f].taskIds {}
  }

  lemma HarvestedExact(s: State, t: nat)
    requires BaseInv(s) && ExactInv(s) && Enabled(s, Harvest(t))
    ensures ExactInv(Harvested(s, t))
  {
    var s' := Harvested(s, t);
    var f := s.tasks[t].fs;
    assert TaskHome(s, t) && FsHome(s, f);
    forall x ensures HomeOk(s', x) {
      assert HomeOk(s, x);
    }
    forall x ensures ReportsOf(s', t, x) <==> ReportsOf(s, t, x) {}
    assert FsHome(s', f) && TaskHome(s', t);
    OneTaskExact(s, s', t, f);
  }

  /** A return that loses nothing leaves every id where it was. */
  lemma ReturnedHomes(s: State, t: nat)
    requires BaseInv(s) && ExactInv(s) && Enabled(s, Return(t)) && !Lossy(s, t)
    ensures FsHome(Returned(s, t), s.tasks[t].fs) && TaskHome(Returned(s, t), t)
  {
    var s' := Returned(s, t);
    assert TaskHome(s, t) && FsHome(s, s.tasks[t].fs);
    forall x ensures ReportsOf(s', t, x) <==> ReportsOf(s, t, x) {}
  }

  lemma ReturnedExact(s: State, t: nat)
    requires BaseInv(s) && ExactInv(s) && Enabled(s, Return(t)) && !Lossy(s, t)
    ensures ExactInv(Returned(s, t))
  {
    var s' := Returned(s, t);
    var f := s.tasks[t].fs;
    forall x ensures HomeOk(s', x) {
      assert HomeOk(s, x);
    }
    ReturnedHomes(s, t);
    forall u | u in s.tasks ensures s.tasks[u] != Reaping(f) {
      assert TaskHome(s, u);
    }
    OneTaskExact(s, s', t, f);
  }

  lemma SubmitKeeps(s: State, t: nat)
    requires Enabled(s, Submit(t)) && BaseInv(s)
    ensures BaseInv(Apply(s, Submit(t)))
    ensures ExactInv(s) ==> ExactInv(Apply(s, Submit(t)))
  {
    var s' := Apply(s, Submit(t));
    SameRunning(s, s');
    forall x ensures HasJoined(s', x) <==> HasJoined(s, x) {}
    forall f | f in s'.fses ensures FsOk(s', f) {
      assert FsOk(s, f);
      forall u ensures At(s', u, Running(f)) <==> At(s, u, Running(f)) {}
    }
    forall u | u in s'.tasks ensures TaskOk(s', u) {
      assert u in s.tasks ==> TaskOk(s, u);
    }
    forall x | x in s'.lost ensures LostOk(s', x) {
      assert LostOk(s, x);
      forall u | u in s'.tasks ensures !ReportsOf(s', u, x) {
        assert u in s.tasks ==> !ReportsOf(s, u, x);
      }
    }
    if ExactInv(s) {
      SubmitExact(s, t);
    }
  }

  lemma SubmitExact(s: State, t: nat)
    requires Enabled(s, Submit(t)) && ExactInv(s)
    ensures ExactInv(Apply(s, Submit(t)))
  {
    var s' := Apply(s, Submit(t));
    forall x ensures HomeOk(s', x) {
      assert HomeOk(s, x);
    }
    forall f | f in s'.fses ensures FsHome(s', f) {
      assert FsHome(s, f);
      forall x ensures HomeIs(s', x, InFs(f)) <==> HomeIs(s, x, InFs(f)) {}
    }
    forall u | u in s'.tasks ensures TaskHome(s', u) {
      if u == t {
        forall x ensures !HomeIs(s', x, InReport(t)) {
          assert HomeOk(s, x);
        }
      } else {
        assert TaskHome(s, u);
        forall x
          ensures ReportsOf(s', u, x) <==> ReportsOf(s, u, x)
          ensures HomeIs(s', x, InReport(u)) <==> HomeIs(s, x, InReport(u)) {}
      }
    }
  }

  // ---------------------------------------------------------------- nobody strays

  lemma OneTaskClean(s: State, s': State, t: nat, f: nat)
    requires CleanInv(s) && OneTask(s, s', t, f) && FsClean(s', f) && TaskClean(s', t)
    requires ReaperAt(s', f)
    requires f in s.fses && s.fses[f].reaping ==> s.fses[f].reaper == Some(t) || s'.fses[f] == s.fses[f]
    ensures CleanInv(s')
  {
    forall g | g in s'.fses ensures FsClean(s', g) && ReaperAt(s', g) {
      if g != f {
        assert FsClean(s, g) && ReaperAt(s, g);
      }
    }
    forall u | u in s'.tasks ensures TaskClean(s', u) {
      if u != t {
        assert TaskClean(s, u);
      }
    }
  }

  lemma {:induction false} JoinedClean(s: State, t: nat, f: nat, fs: Fs)
    requires BaseInv(s) && CleanInv(s) && At(s, t, Submitted)
    requires (Joinable(s, f) && fs == s.fses[f]) || (f !in s.fses && fs == NEW_FS)
    ensures CleanInv(Joined(s, t, f, fs))
  {
    var s' := Joined(s, t, f, fs);
    assert f in s.fses ==> FsClean(s, f) && FsOk(s, f) && ReaperAt(s, f);
    assert ToSet(fs.taskIds + [t]) == ToSet(fs.taskIds) + {t};
    OneTaskClean(s, s', t, f);
  }

  lemma FinishedClean(s: State, t: nat)
    requires BaseInv(s) && CleanInv(s) && Enabled(s, Finish(t))
    ensures CleanInv(Finished(s, t))
  {
    var f := s.tasks[t].fs;
    assert FsClean(s, f) && FsOk(s, f) && ReaperAt(s, f) && At(s, t, Running(f));
    OneTaskClean(s, Finished(s, t), t, f);
  }

  lemma CapturedClean(s: State, t: nat)
    requires BaseInv(s) && CleanInv(s) && Enabled(s, Capture(t))
    ensures CleanInv(Captured(s, t))
  {
    var f := s.tasks[t].fs;
    assert FsClean(s, f) && TaskClean(s, t) && ReaperAt(s, f);
    OneTaskClean(s, Captured(s, t), t, f);
  }

  lemma HarvestedClean(s: State, t: nat)
    requires BaseInv(s) && CleanInv(s) && Enabled(s, Harvest(t))
    ensures CleanInv(Harvested(s, t))
  {
    var f := s.tasks[t].fs;
    assert FsClean(s, f) && TaskClean(s, t) && ReaperAt(s, f);
    OneTaskClean(s, Harvested(s, t), t, f);
  }

  lemma SubmitClean(s: State, t: nat)
    requires Enabled(s, Submit(t)) && CleanInv(s)
    ensures CleanInv(Apply(s, Submit(t)))
  {
    var s' := Apply(s, Submit(t));
    forall f | f in s'.fses ensures FsClean(s', f) && ReaperAt(s', f) {
      assert FsClean(s, f) && ReaperAt(s, f);
    }
    forall u | u in s'.tasks ensures TaskClean(s', u) {
      assert u in s.tasks ==> TaskClean(s, u);
    }
  }

  lemma {:induction false} ReturnClean(s: State, t: nat)
    requires BaseInv(s) && CleanInv(s) && Enabled(s, Return(t)) && !Stray(s, t)
    ensures CleanInv(Returned(s, t)) && !Lossy(s, t)
  {
    var s', f := Returned(s, t), s.tasks[t].fs;
    assert FsClean(s, f) && FsOk(s, f) && TaskClean(s, t) && ReaperAt(s, f);
    OneTaskClean(s, s', t, f);
  }

  // ---------------------------------------------------------------- the waiter

  /** Worker steps leave answered tasks, and everything on the master's side, alone. */
  lemma WorkerWait(s: State, s': State)
    requires WaitInv(s) && s'.waiters == s.waiters && s'.processed == s.processed && s'.signalled == s.signalled
    requires s.channels <= s'.channels && forall t :: t in s'.tasks && t !in s.tasks ==> t in s'.channels
    requires forall t :: t in s.tasks && s.tasks[t].Answered? ==> t in s'.tasks && s'.tasks[t] == s.tasks[t]
    ensures WaitInv(s')
  {
    forall t ensures WaiterOk(s', t) {
      assert WaiterOk(s, t);
    }
  }

  lemma ProcessWait(s: State, t: nat)
    requires WaitInv(s) && Enabled(s, Process(t))
    ensures WaitInv(Apply(s, Process(t)))
  {
    assert WaiterOk(s, t);
    forall u
      ensures WaiterOk(Apply(s, Process(t)), u)
    {
      assert WaiterOk(s, u);
    }
  }

  lemma SignalWait(s: State, t: nat)
    requires WaitInv(s) && Enabled(s, Signal(t))
    ensures WaitInv(Apply(s, Signal(t)))
  {
    assert WaiterOk(s, t);
    var rest := s.waiters[t].rest;
    assert rest[0] in ToSet(rest) && ToSet(rest[1..]) <= ToSet(rest);
    forall u
      ensures WaiterOk(Apply(s, Signal(t)), u)
    {
      assert WaiterOk(s, u);
    }
  }

  lemma ConcludeWait(s: State, t: nat)
    requires WaitInv(s) && Enabled(s, Conclude(t))
    ensures WaitInv(Apply(s, Conclude(t)))
  {
    assert WaiterOk(s, t);
    forall u
      ensures WaiterOk(Apply(s, Conclude(t)), u)
    {
      assert WaiterOk(s, u);
    }
  }

  lemma FindWait(s: State, t: nat)
    requires WaitInv(s) && Enabled(s, Find(t))
    ensures WaitInv(Apply(s, Find(t)))
  {
    assert WaiterOk(s, t);
    forall u
      ensures WaiterOk(Apply(s, Find(t)), u)
    {
      assert WaiterOk(s, u);
    }
  }

  lemma WakeWait(s: State, t: nat)
    requires WaitInv(s) && Enabled(s, Wake(t))
    ensures WaitInv(Apply(s, Wake(t)))
  {
    assert WaiterOk(s, t);
    forall u
      ensures WaiterOk(Apply(s, Wake(t)), u)
    {
      assert WaiterOk(s, u);
    }
  }

  lemma MasterWait(s: State, e: Event)
    requires WaitInv(s) && Enabled(s, e) && (e.Process? || e.Signal? || e.Conclude? || e.Find? || e.Wake?)
    ensures WaitInv(Apply(s, e))
  {
    match e
    case Process(t) => ProcessWait(s, t);
    case Signal(t) => SignalWait(s, t);
    case Conclude(t) => ConcludeWait(s, t);
    case Find(t) => FindWait(s, t);
    case Wake(t) => WakeWait(s, t);
  }

  /** The master's steps do not touch the worker's side. */
  lemma MasterKeeps(s: State, s': State)
    requires s'.fses == s.fses && s'.tasks == s.tasks && s'.home == s.home && s'.lost == s.lost
    requires s'.reapCount == s.reapCount && s'.maxJobs == s.maxJobs
    ensures BaseInv(s) ==> BaseInv(s')
    ensures ExactInv(s) ==> ExactInv(s')
    ensures CleanInv(s) ==> CleanInv(s')
  {
    var w := s.(strayed := s'.strayed, channels := s'.channels, signalled := s'.signalled,
                processed := s'.processed, waiters := s'.waiters);
    assert w == s';
    assert RunningTasks(s') == RunningTasks(s);
    if BaseInv(s) {
      MasterKeepsBase(s, s');
    }
    if ExactInv(s) {
      MasterKeepsExact(s, s');
    }
    if CleanInv(s) {
      forall f | f in s'.fses ensures FsClean(s', f) && ReaperAt(s', f) {
        assert FsClean(s, f) && ReaperAt(s, f);
      }
      forall t | t in s'.tasks ensures TaskClean(s', t) {
        assert TaskClean(s, t);
      }
    }
  }

  lemma MasterKeepsBase(s: State, s': State)
    requires s'.fses == s.fses && s'.tasks == s.tasks && s'.lost == s.lost
    requires s'.reapCount == s.reapCount && s'.maxJobs == s.maxJobs
    requires BaseInv(s)
    ensures BaseInv(s')
  {
    assert RunningTasks(s') == RunningTasks(s);
    forall f | f in s'.fses ensures FsOk(s', f) {
      assert FsOk(s, f);
      forall u ensures At(s', u, Running(f)) <==> At(s, u, Running(f)) {}
      forall x | x in s.fses[f].taskIds ensures HasJoined(s', x) {
        assert HasJoined(s, x);
      }
    }
    forall t | t in s'.tasks ensures TaskOk(s', t) {
      assert TaskOk(s, t);
      assert forall x :: HasJoined(s, x) ==> HasJoined(s', x);
    }
    forall x | x in s'.lost ensures LostOk(s', x) {
      assert LostOk(s, x);
      forall u | u in s'.tasks ensures !ReportsOf(s', u, x) {
        assert !ReportsOf(s, u, x);
      }
    }
  }

  lemma MasterKeepsExact(s: State, s': State)
    requires s'.fses == s.fses && s'.tasks == s.tasks && s'.home == s.home && ExactInv(s)
    ensures ExactInv(s')
  {
    forall x ensures HomeOk(s', x) {
      assert HomeOk(s, x);
    }
    forall f | f in s'.fses ensures FsHome(s', f) {
      assert FsHome(s, f);
      forall x ensures HomeIs(s', x, InFs(f)) <==> HomeIs(s, x, InFs(f)) {}
    }
    forall t | t in s'.tasks ensures TaskHome(s', t) {
      assert TaskHome(s, t);
      forall x
        ensures HomeIs(s', x, InReport(t)) <==> HomeIs(s, x, InReport(t))
        ensures ReportsOf(s', t, x) <==> ReportsOf(s, t, x) {}
    }
  }

  // ---------------------------------------------------------------- every step

  lemma JoinedInv(s: State, t: nat, f: nat, fs: Fs)
    requires Inv(s) && At(s, t, Submitted) && |RunningTasks(s)| < s.maxJobs
    requires (Joinable(s, f) && fs == s.fses[f]) || (f !in s.fses && fs == NEW_FS)
    ensures Inv(Joined(s, t, f, fs))
  {
    JoinedBase(s, t, f, fs);
    WorkerWait(s, Joined(s, t, f, fs));
    if s.lost == {} {
      JoinedExact(s, t, f, fs);
    }
    if !s.strayed {
      JoinedClean(s, t, f, fs);
    }
  }

  lemma ReturnedInv(s: State, t: nat)
    requires Inv(s) && Enabled(s, Return(t))
    ensures Inv(Returned(s, t))
  {
    var s' := Returned(s, t);
    ReturnedBase(s, t);
    WorkerWait(s, s');
    if !s'.strayed {
      ReturnClean(s, t);
    }
    if Lossy(s, t) {
      LossyLoses(s, t);
    }
    if s'.lost == {} {
      ReturnedExact(s, t);
    }
  }

  lemma LossyLoses(s: State, t: nat)
    requires BaseInv(s) && Lossy(s, t)
    ensures Returned(s, t).lost != {}
  {
    var ids := s.fses[s.tasks[t].fs].taskIds;
    assert FsOk(s, s.tasks[t].fs);
    assert ids[0] in ToSet(ids);
  }

  lemma FinishedInv(s: State, t: nat)
    requires Inv(s) && Enabled(s, Finish(t))
    ensures Inv(Finished(s, t))
  {
    FinishedBase(s, t);
    WorkerWait(s, Finished(s, t));
    if s.lost == {} {
      FinishedExact(s, t);
    }
    if !s.strayed {
      FinishedClean(s, t);
    }
  }

  lemma CapturedInv(s: State, t: nat)
    requires Inv(s) && Enabled(s, Capture(t))
    ensures Inv(Captured(s, t))
  {
    CapturedBase(s, t);
    WorkerWait(s, Captured(s, t));
    if s.lost == {} {
      CapturedExact(s, t);
    }
    if !s.strayed {
      CapturedClean(s, t);
    }
  }

  lemma HarvestedInv(s: State, t: nat)
    requires Inv(s) && Enabled(s, Harvest(t))
    ensures Inv(Harvested(s, t))
  {
    HarvestedBase(s, t);
    WorkerWait(s, Harvested(s, t));
    if s.lost == {} {
      HarvestedExact(s, t);
    }
    if !s.strayed {
      HarvestedClean(s, t);
    }
  }

  lemma SubmitInv(s: State, t: nat)
    requires Inv(s) && Enabled(s, Submit(t))
    ensures Inv(Apply(s, Submit(t)))
  {
    SubmitKeeps(s, t);
    WorkerWait(s, Apply(s, Submit(t)));
    if !s.strayed {
      SubmitClean(s, t);
    }
  }

  predicate OnMaster(e: Event) {
    e.Process? || e.Signal? || e.Conclude? || e.Find? || e.Wake?
  }

  predicate SameWorker(s: State, s': State) {
    && s'.fses == s.fses && s'.tasks == s.tasks && s'.home == s.home && s'.lost == s.lost && s'.strayed == s.strayed
    && s'.reapCount == s.reapCount && s'.maxJobs == s.maxJobs
  }

  lemma ProcessSame(s: State, t: nat)
    requires Enabled(s, Process(t))
    ensures SameWorker(s, Apply(s, Process(t)))
  {
  }

  lemma SignalSame(s: State, t: nat)
    requires Enabled(s, Signal(t))
    ensures SameWorker(s, Apply(s, Signal(t)))
  {
  }

  lemma ConcludeSame(s: State, t: nat)
    requires Enabled(s, Conclude(t))
    ensures SameWorker(s, Apply(s, Conclude(t)))
  {
  }

  lemma FindSame(s: State, t: nat)
    requires Enabled(s, Find(t))
    ensures SameWorker(s, Apply(s, Find(t)))
  {
  }

  lemma WakeSame(s: State, t: nat)
    requires Enabled(s, Wake(t))
    ensures SameWorker(s, Apply(s, Wake(t)))
  {
  }

  lemma MasterSame(s: State, e: Event)
    requires Enabled(s, e) && OnMaster(e)
    ensures SameWorker(s, Apply(s, e))
  {
    match e
    case Process(t) => ProcessSame(s, t);
    case Signal(t) => SignalSame(s, t);
    case Conclude(t) => ConcludeSame(s, t);
    case Find(t) => FindSame(s, t);
    case Wake(t) => WakeSame(s, t);
  }

  lemma SameWorkerInv(s: State, s': State)
    requires Inv(s) && SameWorker(s, s') && WaitInv(s')
    ensures Inv(s')
  {
    MasterKeeps(s, s');
  }

  lemma MasterInv(s: State, e: Event)
    requires Inv(s) && Enabled(s, e) && OnMaster(e)
    ensures Inv(Apply(s, e))
  {
    MasterSame(s, e);
    MasterWait(s, e);
    SameWorkerInv(s, Apply(s, e));
  }

  lemma {:induction false} WorkerInv(s: State, e: Event)
    requires Inv(s) && Enabled(s, e) && !OnMaster(e)
    ensures Inv(Apply(s, e))
  {
    match e
    case Submit(t) => SubmitInv(s, t);
    case Join(t, f) => JoinedInv(s, t, f, s.fses[f]);
    case Open(t, f) => JoinedInv(s, t, f, NEW_FS);
    case Finish(t) => FinishedInv(s, t);
    case Capture(t) => CapturedInv(s, t);
    case Harvest(t) => HarvestedInv(s, t);
    case Return(t) => ReturnedInv(s, t);
  }

  lemma StepInv(s: State, e: Event)
    requires Inv(s) && Enabled(s, e)
    ensures Inv(Apply(s, e))
  {
    if OnMaster(e) {
      MasterInv(s, e);
    } else {
      WorkerInv(s, e);
    }
  }
}
