/** That the locked append protocol goes on: the lock is never left behind, and a writer that is let
    through gets its result onto the disk. */
module PlanTrackerProgress {
  import opened Options
  import opened Sequences
  import opened PlanFiles
  import opened PlanTracker

  // Whoever holds the lock is between taking it and releasing it.
  ghost predicate LockIsHeld(w: World) {
    w.lock.Some? ==> w.lock.value in w.processes && InCriticalSection(w.processes[w.lock.value].stage)
  }

  // A temporary file belongs to a process that is writing it, or that crashed.
  ghost predicate TempsAreOwned(w: World) {
    forall pid | pid in w.temps ::
      && pid in w.processes
      && (w.processes[pid].stage.Dumping? || w.processes[pid].stage.Written? || w.processes[pid].stage.Crashed?)
  }

  lemma LockStaysHeld(w: World, s: Step)
    requires LockIsHeld(w) && s.pid in w.processes && ProcessSafe(w, s.pid)
    ensures LockIsHeld(Next(w, s.pid, s.action, s.works))
  {
  }

  lemma TempsStayOwned(w: World, s: Step)
    requires TempsAreOwned(w)
    ensures TempsAreOwned(Next(w, s.pid, s.action, s.works))
  {
    var after := Next(w, s.pid, s.action, s.works);
    forall pid | pid in after.temps
      ensures pid in after.processes
      ensures after.processes[pid].stage.Dumping? || after.processes[pid].stage.Written?
           || after.processes[pid].stage.Crashed?
    {
      assert pid != s.pid ==> pid in w.temps && after.processes[pid] == w.processes[pid];
    }
  }

  /** In every run the lock is held only by a process between taking and releasing it, and nobody leaves a
      temporary file behind except by crashing. */
  lemma {:induction false} NothingIsLeftBehind(start: Plan, requests: map<Pid, Request>, steps: seq<Step>)
    ensures var w := AfterSteps(Initial(start, requests), steps);
      LockIsHeld(w) && TempsAreOwned(w)
  {
    if steps != [] {
      var n := |steps| - 1;
      var w := AfterSteps(Initial(start, requests), steps[..n]);
      NothingIsLeftBehind(start, requests, steps[..n]);
      RunsAreSafe(start, requests, steps[..n]);
      TempsStayOwned(w, steps[n]);
      if steps[n].pid in w.processes {
        assert ProcessSafe(w, steps[n].pid);
        LockStaysHeld(w, steps[n]);
      }
    }
  }

  ghost predicate AllOutside(w: World) {
    forall pid | pid in w.processes :: !InCriticalSection(w.processes[pid].stage)
  }

  /** Once nobody is between taking and releasing the lock, whoever asks for it gets it. */
  lemma LockIsFree(start: Plan, requests: map<Pid, Request>, steps: seq<Step>, pid: Pid)
    requires var w := AfterSteps(Initial(start, requests), steps);
      AllOutside(w) && pid in w.processes && w.processes[pid].stage == Opened
    ensures var w := AfterSteps(Initial(start, requests), steps);
      Next(w, pid, Acquire, true).processes[pid].stage == Locked
  {
    NothingIsLeftBehind(start, requests, steps);
  }

  // Every call of one process, all of them working.
  function WorkingRun(pid: Pid): seq<Step> {
    [Step(pid, Open, true), Step(pid, Acquire, true), Step(pid, Load, true), Step(pid, CreateTemp, true),
     Step(pid, Dump, true), Step(pid, Replace, true), Step(pid, Release, true)]
  }

  ghost function AfterWorkingRun(w: World, pid: Pid): World {
    var locked := Next(Next(w, pid, Open, true), pid, Acquire, true);
    var written := Next(Next(Next(locked, pid, Load, true), pid, CreateTemp, true), pid, Dump, true);
    Next(Next(written, pid, Replace, true), pid, Release, true)
  }

  lemma SevenSteps(w: World, a: Step, b: Step, c: Step, d: Step, e: Step, f: Step, g: Step)
    ensures AfterSteps(w, [a, b, c, d, e, f, g]) == Taken(Taken(AfterSteps(w, [a, b, c, d, e]), f), g)
  {
    assert [a, b, c, d, e, f, g][..6] == [a, b, c, d, e, f] && [a, b, c, d, e, f][..5] == [a, b, c, d, e];
    assert AfterSteps(w, [a, b, c, d, e, f]) == Taken(AfterSteps(w, [a, b, c, d, e]), f);
  }

  lemma WorkingRunSteps(w: World, pid: Pid)
    ensures AfterSteps(w, WorkingRun(pid)) == AfterWorkingRun(w, pid)
  {
    var a, b, c := Step(pid, Open, true), Step(pid, Acquire, true), Step(pid, Load, true);
    var d, e := Step(pid, CreateTemp, true), Step(pid, Dump, true);
    SevenSteps(w, a, b, c, d, e, Step(pid, Replace, true), Step(pid, Release, true));
    FiveSteps(w, a, b, c, d, e);
  }

  lemma WorkingRunCommits(w: World, pid: Pid)
    requires pid in w.processes && w.processes[pid].stage == Started && w.lock == None
    requires HasTask(w.disk, w.processes[pid].request.task)
    ensures var after := AfterWorkingRun(w, pid);
      var request := w.processes[pid].request;
      && after.disk == Appended(w.disk, request.task, request.result)
      && after.commits == w.commits + [pid] && after.lock == None
      && pid in after.processes && after.processes[pid].stage == Exited(Success)
  {
    var locked := Next(Next(w, pid, Open, true), pid, Acquire, true);
    assert locked.processes[pid] == Process(w.processes[pid].request, Locked) && locked.disk == w.disk;
    var loaded := Next(locked, pid, Load, true);
    assert loaded.processes[pid].stage
        == Loaded(Appended(w.disk, w.processes[pid].request.task, w.processes[pid].request.result));
    var written := Next(Next(loaded, pid, CreateTemp, true), pid, Dump, true);
    assert written.processes[pid].stage.Written? && written.commits == w.commits;
  }

  /** Whatever happened before, a process that has not begun commits its result and exits with status 0
      when everybody else is outside, its task exists and every call works. */
  lemma WriterGetsThrough(start: Plan, requests: map<Pid, Request>, steps: seq<Step>, pid: Pid)
    requires var w := AfterSteps(Initial(start, requests), steps);
      && AllOutside(w) && pid in requests && pid in w.processes && w.processes[pid].stage == Started
      && HasTask(start, requests[pid].task)
    ensures var w := AfterSteps(Initial(start, requests), steps);
      var after := AfterSteps(w, WorkingRun(pid));
      && after.disk == Appended(w.disk, requests[pid].task, requests[pid].result)
      && after.commits == w.commits + [pid] && after.lock == None
      && pid in after.processes && after.processes[pid].stage == Exited(Success) && ExitStatus(Success) == 0
  {
    var w := AfterSteps(Initial(start, requests), steps);
    NothingIsLeftBehind(start, requests, steps);
    RunsAreSafe(start, requests, steps);
    ReplayedResults(start, requests, w.commits, requests[pid].task);
    WorkingRunSteps(w, pid);
    WorkingRunCommits(w, pid);
  }
}
