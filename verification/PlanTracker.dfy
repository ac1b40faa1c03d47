/** The plan file as the deviation tracker sees it: appending a phase result to one task. */
module PlanFiles {
  import opened Options

  type PhaseResult = string

  // body stands for every other field of the task.
  datatype Task = Task(id: Option<string>, results: Option<seq<PhaseResult>>, body: string)
  datatype Plan = Plan(phases: seq<seq<Task>>)
  datatype Position = Position(phase: nat, task: nat)

  predicate InPlan(plan: Plan, p: Position) {
    p.phase < |plan.phases| && p.task < |plan.phases[p.phase]|
  }

  function TaskAt(plan: Plan, p: Position): Task
    requires InPlan(plan, p)
  {
    plan.phases[p.phase][p.task]
  }

  predicate Earlier(p: Position, q: Position) {
    p.phase < q.phase || (p.phase == q.phase && p.task < q.task)
  }

  // p is the first task with the given id, in document order.
  predicate FirstWithId(plan: Plan, id: string, p: Position) {
    && InPlan(plan, p) && TaskAt(plan, p).id == Some(id)
    && forall i, j | 0 <= i < |plan.phases| && 0 <= j < |plan.phases[i]| && Earlier(Position(i, j), p) ::
      plan.phases[i][j].id != Some(id)
  }

  ghost predicate HasTask(plan: Plan, id: string) {
    exists p :: FirstWithId(plan, id, p)
  }

  ghost function FirstPosition(plan: Plan, id: string): (p: Position)
    requires HasTask(plan, id)
    ensures FirstWithId(plan, id, p)
  {
    var p :| FirstWithId(plan, id, p);
    p
  }

  lemma FirstIsUnique(plan: Plan, id: string, p: Position, q: Position)
    requires FirstWithId(plan, id, p) && FirstWithId(plan, id, q)
    ensures p == q
  {
    assert plan.phases[p.phase][p.task].id == Some(id) && plan.phases[q.phase][q.task].id == Some(id);
    assert p == q || Earlier(Position(p.phase, p.task), q) || Earlier(Position(q.phase, q.task), p);
  }

  method FindTask(plan: Plan, id: string) returns (found: Option<Position>)
    ensures found.Some? ==> FirstWithId(plan, id, found.value)
    ensures found.None? ==> forall i, j | 0 <= i < |plan.phases| && 0 <= j < |plan.phases[i]| ::
      plan.phases[i][j].id != Some(id)
  {
    for i := 0 to |plan.phases|
      invariant forall a, b | 0 <= a < i && 0 <= b < |plan.phases[a]| :: plan.phases[a][b].id != Some(id)
    {
      var tasks := plan.phases[i];
      for j := 0 to |tasks|
        invariant forall b | 0 <= b < j :: tasks[b].id != Some(id)
      {
        if tasks[j].id == Some(id) {
          return Some(Position(i, j));
        }
      }
    }
    return None;
  }

  function WithResult(t: Task, r: PhaseResult): Task {
    t.(results := Some(GetOr(t.results, []) + [r]))
  }

  function Put(plan: Plan, p: Position, t: Task): Plan
    requires InPlan(plan, p)
  {
    Plan(plan.phases[p.phase := plan.phases[p.phase][p.task := t]])
  }

  // A plan without the task stays as it is.
  ghost function Appended(plan: Plan, id: string, r: PhaseResult): Plan {
    if HasTask(plan, id) then
      var p := FirstPosition(plan, id);
      Put(plan, p, WithResult(TaskAt(plan, p), r))
    else plan
  }

  method LoadAndAppend(plan: Plan, id: string, r: PhaseResult) returns (after: Option<Plan>)
    ensures after == if HasTask(plan, id) then Some(Appended(plan, id, r)) else None
  {
    var found := FindTask(plan, id);
    if found.None? {
      return None;
    }
    FirstIsUnique(plan, id, found.value, FirstPosition(plan, id));
    var task := TaskAt(plan, found.value);
    var results := if task.results.None? then [] else task.results.value;
    return Some(Put(plan, found.value, task.(results := Some(results + [r]))));
  }

  // The recorded results of the first task with the given id.
  ghost function ResultsOf(plan: Plan, id: string): seq<PhaseResult> {
    if HasTask(plan, id) then GetOr(TaskAt(plan, FirstPosition(plan, id)).results, []) else []
  }

  lemma SameIdsSameFirst(a: Plan, b: Plan, id: string, p: Position)
    requires |a.phases| == |b.phases|
    requires forall i | 0 <= i < |a.phases| :: |a.phases[i]| == |b.phases[i]|
    requires forall i, j | 0 <= i < |a.phases| && 0 <= j < |a.phases[i]| :: a.phases[i][j].id == b.phases[i][j].id
    ensures FirstWithId(a, id, p) <==> FirstWithId(b, id, p)
  {
  }

  // The plans have the same tasks in the same places, except for the first one with this id.
  ghost predicate SameElsewhere(before: Plan, after: Plan, id: string) {
    && |after.phases| == |before.phases|
    && (forall i | 0 <= i < |before.phases| :: |after.phases[i]| == |before.phases[i]|)
    && (forall i, j | 0 <= i < |before.phases| && 0 <= j < |before.phases[i]|
          && !FirstWithId(before, id, Position(i, j)) :: after.phases[i][j] == before.phases[i][j])
  }

  // An append is seen by its own task, at the end of its results, and by no other task.
  lemma AppendedEffect(plan: Plan, id: string, r: PhaseResult, other: string)
    ensures HasTask(Appended(plan, id, r), other) <==> HasTask(plan, other)
    ensures ResultsOf(Appended(plan, id, r), other)
         == ResultsOf(plan, other) + if other == id && HasTask(plan, id) then [r] else []
    ensures SameElsewhere(plan, Appended(plan, id, r), id)
  {
    var after := Appended(plan, id, r);
    if HasTask(plan, id) {
      var p := FirstPosition(plan, id);
      forall q ensures FirstWithId(after, other, q) <==> FirstWithId(plan, other, q) {
        SameIdsSameFirst(after, plan, other, q);
      }
      if HasTask(plan, other) {
        var q := FirstPosition(plan, other);
        FirstIsUnique(after, other, q, FirstPosition(after, other));
        if other == id {
          FirstIsUnique(plan, id, p, q);
        } else {
          assert p != q;
        }
      }
    }
    assert ResultsOf(plan, other) + [] == ResultsOf(plan, other);
  }
}

/** The locked append protocol: any number of processes, each of which may fail or crash at any
    point between its steps. */
module PlanTracker {
  import opened Options
  import opened Sequences
  import opened PlanFiles

  type Pid = nat

  datatype Request = Request(task: string, result: PhaseResult)

  datatype Outcome = Success | TaskNotFound | LockFailed | WriteFailed

  datatype Stage =
    | Started
    | Opened
    | Locked
    | Loaded(plan: Plan)
    | Dumping(plan: Plan)
    | Written(plan: Plan)
    | Releasing(outcome: Outcome)
    | Exited(outcome: Outcome)
    | Crashed

  datatype Process = Process(request: Request, stage: Stage)

  // A temporary file next to the plan: still being written, or complete.
  datatype TempFile = Partial | Complete(plan: Plan)

  // commits lists the processes whose rename took effect, in that order.
  datatype World = World(
    disk: Plan,
    lock: Option<Pid>,
    processes: map<Pid, Process>,
    temps: map<Pid, TempFile>,
    commits: seq<Pid>)

  datatype Action = Open | Acquire | Load | CreateTemp | Dump | Replace | Release | Crash

  ghost function AtStage(w: World, pid: Pid, stage: Stage): World
    requires pid in w.processes
  {
    w.(processes := w.processes[pid := w.processes[pid].(stage := stage)])
  }

  // One step of one process. works says whether the system call behind the step succeeds.
  ghost function Next(w: World, pid: Pid, action: Action, works: bool): World {
    if pid !in w.processes then w else
      var process := w.processes[pid];
      match (action, process.stage)
      case (Open, Started) => AtStage(w, pid, if works then Opened else Exited(LockFailed))
      case (Acquire, Opened) =>
        if !works then AtStage(w, pid, Exited(LockFailed))
        else if w.lock.Some? then w
        else AtStage(w.(lock := Some(pid)), pid, Locked)
      case (Load, Locked) =>
        if !works then AtStage(w, pid, Releasing(WriteFailed))
        else if !HasTask(w.disk, process.request.task) then AtStage(w, pid, Releasing(TaskNotFound))
        else AtStage(w, pid, Loaded(Appended(w.disk, process.request.task, process.request.result)))
      case (CreateTemp, Loaded(plan)) =>
        if works then AtStage(w.(temps := w.temps[pid := Partial]), pid, Dumping(plan))
        else AtStage(w, pid, Releasing(WriteFailed))
      case (Dump, Dumping(plan)) =>
        if works then AtStage(w.(temps := w.temps[pid := Complete(plan)]), pid, Written(plan))
        else AtStage(w.(temps := w.temps - {pid}), pid, Releasing(WriteFailed))
      case (Replace, Written(plan)) =>
        if works then
          AtStage(w.(disk := plan, temps := w.temps - {pid}, commits := w.commits + [pid]), pid, Releasing(Success))
        else AtStage(w.(temps := w.temps - {pid}), pid, Releasing(WriteFailed))
      case (Release, Releasing(outcome)) => AtStage(w.(lock := None), pid, Exited(outcome))
      case (Crash, _) =>
        if process.stage.Exited? then w
        else AtStage(w.(lock := if w.lock == Some(pid) then None else w.lock), pid, Crashed)
      case _ => w
  }

  datatype Step = Step(pid: Pid, action: Action, works: bool)

  ghost function AfterSteps(w: World, steps: seq<Step>): World {
    if steps == [] then w else
      var s := steps[|steps| - 1];
      Next(AfterSteps(w, steps[..|steps| - 1]), s.pid, s.action, s.works)
  }

  ghost function Initial(disk: Plan, requests: map<Pid, Request>): World {
    World(disk, None, map pid | pid in requests :: Process(requests[pid], Started), map[], [])
  }

  // ---- Safety ----

  predicate InCriticalSection(stage: Stage) {
    stage.Locked? || stage.Loaded? || stage.Dumping? || stage.Written? || stage.Releasing?
  }

  predicate HoldsPlan(stage: Stage) {
    stage.Loaded? || stage.Dumping? || stage.Written?
  }

  // The plan after the given processes have committed, one after the other.
  ghost function Replayed(plan: Plan, requests: map<Pid, Request>, commits: seq<Pid>): Plan {
    if commits == [] then plan else
      var pid := commits[|commits| - 1];
      var before := Replayed(plan, requests, commits[..|commits| - 1]);
      if pid in requests then Appended(before, requests[pid].task, requests[pid].result) else before
  }

  ghost predicate ProcessSafe(w: World, pid: Pid)
    requires pid in w.processes
  {
    var process := w.processes[pid];
    && (InCriticalSection(process.stage) ==> w.lock == Some(pid))
    && (HoldsPlan(process.stage) ==>
          && HasTask(w.disk, process.request.task)
          && process.stage.plan == Appended(w.disk, process.request.task, process.request.result))
    && (process.stage.Written? ==> pid in w.temps && w.temps[pid] == Complete(process.stage.plan))
    && (pid in w.commits ==>
          process.stage in {Releasing(Success), Exited(Success), Crashed} && HasTask(w.disk, process.request.task))
    && (process.stage == Releasing(Success) || process.stage == Exited(Success) ==> pid in w.commits)
  }

  ghost predicate Safe(w: World, start: Plan, requests: map<Pid, Request>) {
    && w.processes.Keys == requests.Keys
    && (forall pid | pid in w.processes :: w.processes[pid].request == requests[pid] && ProcessSafe(w, pid))
    && Distinct(w.commits)
    && (forall pid | pid in w.commits :: pid in requests)
    && w.disk == Replayed(start, requests, w.commits)
  }

  predicate Commits(w: World, s: Step) {
    s.pid in w.processes && s.action.Replace? && w.processes[s.pid].stage.Written? && s.works
  }

  lemma LockKept(w: World, s: Step, other: Pid)
    requires s.pid in w.processes && other != s.pid && w.lock == Some(other)
    requires InCriticalSection(w.processes[s.pid].stage) ==> w.lock == Some(s.pid)
    ensures Next(w, s.pid, s.action, s.works).lock == Some(other)
  {
  }

  // A step of one process leaves the others, their lock and their temporary files alone.
  lemma OthersUntouched(w: World, s: Step, other: Pid)
    requires s.pid in w.processes && ProcessSafe(w, s.pid) && other in w.processes && other != s.pid
    ensures var after := Next(w, s.pid, s.action, s.works);
      && after.processes.Keys == w.processes.Keys
      && after.processes[other] == w.processes[other]
      && (w.lock == Some(other) ==> after.lock == Some(other))
      && (other in w.temps ==> other in after.temps && after.temps[other] == w.temps[other])
      && (other in after.commits <==> other in w.commits)
  {
    if w.lock == Some(other) {
      LockKept(w, s, other);
    }
  }

  lemma QuietFrame(w: World, s: Step)
    requires s.pid in w.processes && !Commits(w, s)
    ensures var after := Next(w, s.pid, s.action, s.works);
      && after.disk == w.disk && after.commits == w.commits
      && after.processes.Keys == w.processes.Keys
      && after.processes[s.pid].request == w.processes[s.pid].request
  {
  }

  lemma OwnQuietStep(w: World, s: Step)
    requires s.pid in w.processes && ProcessSafe(w, s.pid) && !Commits(w, s)
    ensures ProcessSafe(Next(w, s.pid, s.action, s.works), s.pid)
  {
    QuietFrame(w, s);
  }

  // A step that leaves the disk alone keeps every process safe.
  lemma QuietStep(w: World, s: Step, start: Plan, requests: map<Pid, Request>)
    requires Safe(w, start, requests) && s.pid in w.processes && !Commits(w, s)
    ensures Safe(Next(w, s.pid, s.action, s.works), start, requests)
  {
    var after := Next(w, s.pid, s.action, s.works);
    assert ProcessSafe(w, s.pid);
    QuietFrame(w, s);
    OwnQuietStep(w, s);
    forall pid | pid in after.processes
      ensures after.processes[pid].request == requests[pid] && ProcessSafe(after, pid)
    {
      assert ProcessSafe(w, pid);
      if pid != s.pid {
        OthersUntouched(w, s, pid);
      }
    }
  }

  // Nobody else is between load and replace while a process commits.
  lemma CommitKeepsProcess(w: World, s: Step, pid: Pid)
    requires Commits(w, s) && pid in w.processes && ProcessSafe(w, s.pid) && ProcessSafe(w, pid)
    ensures var after := Next(w, s.pid, s.action, s.works);
      && after.processes.Keys == w.processes.Keys
      && after.processes[pid].request == w.processes[pid].request
      && ProcessSafe(after, pid)
  {
    var request := w.processes[s.pid].request;
    AppendedEffect(w.disk, request.task, request.result, w.processes[pid].request.task);
    if pid != s.pid {
      OthersUntouched(w, s, pid);
    }
  }

  lemma CommitReplays(w: World, s: Step, start: Plan, requests: map<Pid, Request>)
    requires Commits(w, s) && ProcessSafe(w, s.pid)
    requires s.pid in requests && w.processes[s.pid].request == requests[s.pid]
    requires w.disk == Replayed(start, requests, w.commits)
    ensures var after := Next(w, s.pid, s.action, s.works);
      && after.commits == w.commits + [s.pid] && s.pid !in w.commits
      && after.disk == Replayed(start, requests, after.commits)
  {
    var commits := w.commits + [s.pid];
    assert commits[..|w.commits|] == w.commits;
  }

  lemma CommitStep(w: World, s: Step, start: Plan, requests: map<Pid, Request>)
    requires Safe(w, start, requests) && Commits(w, s)
    ensures Safe(Next(w, s.pid, s.action, s.works), start, requests)
  {
    var after := Next(w, s.pid, s.action, s.works);
    assert ProcessSafe(w, s.pid);
    CommitReplays(w, s, start, requests);
    CommitKeepsProcess(w, s, s.pid);
    forall pid | pid in after.processes
      ensures after.processes[pid].request == requests[pid] && ProcessSafe(after, pid)
    {
      CommitKeepsProcess(w, s, pid);
    }
  }

  /** In every interleaving, with failures and crashes at any point, at most one process is between
      taking the lock and releasing it, every loaded plan is current, and the plan on disk is the
      initial plan with exactly the committed results appended, in commit order. */
  lemma {:induction false} RunsAreSafe(start: Plan, requests: map<Pid, Request>, steps: seq<Step>)
    ensures Safe(AfterSteps(Initial(start, requests), steps), start, requests)
  {
    if steps == [] {
      var w := Initial(start, requests);
      assert forall pid | pid in w.processes :: ProcessSafe(w, pid);
    } else {
      var n := |steps| - 1;
      var s := steps[n];
      var w := AfterSteps(Initial(start, requests), steps[..n]);
      RunsAreSafe(start, requests, steps[..n]);
      if s.pid in w.processes {
        if Commits(w, s) {
          CommitStep(w, s, start, requests);
        } else {
          QuietStep(w, s, start, requests);
        }
      }
    }
  }

  /** Mutual exclusion, read off the lock. */
  lemma OneWriterAtATime(start: Plan, requests: map<Pid, Request>, steps: seq<Step>, a: Pid, b: Pid)
    requires var w := AfterSteps(Initial(start, requests), steps);
      a in w.processes && b in w.processes
      && InCriticalSection(w.processes[a].stage) && InCriticalSection(w.processes[b].stage)
    ensures a == b
  {
    RunsAreSafe(start, requests, steps);
    var w := AfterSteps(Initial(start, requests), steps);
    assert ProcessSafe(w, a) && ProcessSafe(w, b);
  }

  // The committed results for one task, in commit order.
  function CommittedFor(requests: map<Pid, Request>, commits: seq<Pid>, task: string): seq<PhaseResult> {
    if commits == [] then [] else
      var pid := commits[|commits| - 1];
      CommittedFor(requests, commits[..|commits| - 1], task)
      + if pid in requests && requests[pid].task == task then [requests[pid].result] else []
  }

  lemma {:induction false} ReplayedResults(plan: Plan, requests: map<Pid, Request>, commits: seq<Pid>, task: string)
    requires HasTask(plan, task)
    ensures HasTask(Replayed(plan, requests, commits), task)
    ensures ResultsOf(Replayed(plan, requests, commits), task)
         == ResultsOf(plan, task) + CommittedFor(requests, commits, task)
  {
    if commits != [] {
      var pid := commits[|commits| - 1];
      var before := commits[..|commits| - 1];
      ReplayedResults(plan, requests, before, task);
      if pid in requests {
        AppendedEffect(Replayed(plan, requests, before), requests[pid].task, requests[pid].result, task);
      }
    }
  }

  // Same phases and tasks in the same places, with the same ids and the same other fields.
  ghost predicate SameSkeleton(a: Plan, b: Plan) {
    && |a.phases| == |b.phases|
    && (forall i | 0 <= i < |a.phases| :: |a.phases[i]| == |b.phases[i]|)
    && (forall i, j | 0 <= i < |a.phases| && 0 <= j < |a.phases[i]| ::
          a.phases[i][j].id == b.phases[i][j].id && a.phases[i][j].body == b.phases[i][j].body)
  }

  // The task at this place is not the one that any of the commits appended to.
  ghost predicate Untouched(plan: Plan, requests: map<Pid, Request>, commits: seq<Pid>, p: Position) {
    forall pid | pid in commits && pid in requests :: !FirstWithId(plan, requests[pid].task, p)
  }

  lemma AppendKeepsSkeleton(plan: Plan, id: string, r: PhaseResult)
    ensures SameSkeleton(plan, Appended(plan, id, r))
  {
    if HasTask(plan, id) {
      var p := FirstPosition(plan, id);
      assert InPlan(plan, p);
    }
  }

  lemma {:induction false} ReplayKeepsRest(plan: Plan, requests: map<Pid, Request>, commits: seq<Pid>, p: Position)
    requires InPlan(plan, p)
    ensures SameSkeleton(plan, Replayed(plan, requests, commits))
    ensures Untouched(plan, requests, commits, p) ==> TaskAt(Replayed(plan, requests, commits), p) == TaskAt(plan, p)
  {
    if commits != [] {
      var n := |commits| - 1;
      var pid, before := commits[n], Replayed(plan, requests, commits[..n]);
      ReplayKeepsRest(plan, requests, commits[..n], p);
      assert commits == commits[..n] + [pid];
      if pid in requests {
        var id, r := requests[pid].task, requests[pid].result;
        AppendKeepsSkeleton(before, id, r);
        AppendedEffect(before, id, r, id);
        SameIdsSameFirst(plan, before, id, p);
        assert Position(p.phase, p.task) == p;
      }
    }
  }

  /** Whatever happens, the plan keeps its shape and every field but the results, and a task no commit
      was meant for keeps its results too. */
  lemma OnlyResultsChange(start: Plan, requests: map<Pid, Request>, steps: seq<Step>, p: Position)
    requires InPlan(start, p)
    ensures var w := AfterSteps(Initial(start, requests), steps);
      && SameSkeleton(start, w.disk)
      && (Untouched(start, requests, w.commits, p) ==> TaskAt(w.disk, p) == TaskAt(start, p))
  {
    RunsAreSafe(start, requests, steps);
    ReplayKeepsRest(start, requests, AfterSteps(Initial(start, requests), steps).commits, p);
  }

  /** A process that ends in success has committed exactly once, and one that ends in any failure never. */
  lemma ExitsReportTheTruth(start: Plan, requests: map<Pid, Request>, steps: seq<Step>, pid: Pid)
    requires var w := AfterSteps(Initial(start, requests), steps);
      pid in w.processes && w.processes[pid].stage.Exited?
    ensures var w := AfterSteps(Initial(start, requests), steps);
      multiset(w.commits)[pid] == if w.processes[pid].stage.outcome.Success? then 1 else 0
  {
    var w := AfterSteps(Initial(start, requests), steps);
    RunsAreSafe(start, requests, steps);
    assert ProcessSafe(w, pid);
    DistinctMultiset(w.commits);
  }

  // ---- What the exit status tells ----

  // A failed write is only a warning to the command line.
  function ExitStatus(outcome: Outcome): nat {
    match outcome
    case Success => 0
    case TaskNotFound => 1
    case LockFailed => 2
    case WriteFailed => 0
  }

  // The step is a call of pid that fails between taking the lock and releasing it.
  predicate CallFails(w: World, s: Step, pid: Pid) {
    && s.pid == pid && pid in w.processes && !s.works
    && match s.action
       case Load => w.processes[pid].stage.Locked?
       case CreateTemp => w.processes[pid].stage.Loaded?
       case Dump => w.processes[pid].stage.Dumping?
       case Replace => w.processes[pid].stage.Written?
       case _ => false
  }

  // Some load, temporary file, dump or replace of pid failed in the run.
  ghost predicate WriteFails(start: Plan, requests: map<Pid, Request>, steps: seq<Step>, pid: Pid) {
    if steps == [] then false
    else
      var n := |steps| - 1;
      || WriteFails(start, requests, steps[..n], pid)
      || CallFails(AfterSteps(Initial(start, requests), steps[..n]), steps[n], pid)
  }

  predicate EndsInWriteFailure(stage: Stage) {
    stage == Releasing(WriteFailed) || stage == Exited(WriteFailed)
  }

  lemma FailureIsRemembered(w: World, s: Step, pid: Pid)
    requires pid in w.processes
    ensures var after := Next(w, s.pid, s.action, s.works);
      var failed := EndsInWriteFailure(w.processes[pid].stage) || CallFails(w, s, pid);
      && pid in after.processes
      && (EndsInWriteFailure(after.processes[pid].stage) ==> failed)
      && (failed ==> EndsInWriteFailure(after.processes[pid].stage) || after.processes[pid].stage.Crashed?)
      && (w.processes[pid].stage.Crashed? ==> after.processes[pid].stage.Crashed?)
  {
  }

  lemma {:induction false} WriteFailureDecidesOutcome(
    start: Plan, requests: map<Pid, Request>, steps: seq<Step>, pid: Pid)
    requires pid in requests
    ensures var w := AfterSteps(Initial(start, requests), steps);
      && pid in w.processes
      && (EndsInWriteFailure(w.processes[pid].stage) ==> WriteFails(start, requests, steps, pid))
      && (WriteFails(start, requests, steps, pid) ==>
            EndsInWriteFailure(w.processes[pid].stage) || w.processes[pid].stage.Crashed?)
  {
    if steps != [] {
      var n := |steps| - 1;
      WriteFailureDecidesOutcome(start, requests, steps[..n], pid);
      FailureIsRemembered(AfterSteps(Initial(start, requests), steps[..n]), steps[n], pid);
    }
  }

  lemma ProcessIsRequested(start: Plan, requests: map<Pid, Request>, steps: seq<Step>, pid: Pid)
    requires pid in AfterSteps(Initial(start, requests), steps).processes
    ensures pid in requests
  {
    RunsAreSafe(start, requests, steps);
  }

  lemma StatusOfExit(w: World, pid: Pid, writeFailed: bool)
    requires pid in w.processes && w.processes[pid].stage.Exited?
    requires EndsInWriteFailure(w.processes[pid].stage) <==> writeFailed
    requires multiset(w.commits)[pid] == if w.processes[pid].stage.outcome.Success? then 1 else 0
    ensures var status := ExitStatus(w.processes[pid].stage.outcome);
      && (status == 0 ==> (pid in w.commits <==> !writeFailed))
      && (status != 0 ==> pid !in w.commits)
  {
    assert pid in w.commits <==> pid in multiset(w.commits);
  }

  /** A process that exits with status 0 has committed if and only if no load, temporary file, dump or
      replace of its own failed; one that exits with another status has not committed. */
  lemma StatusZeroCommitsUnlessWriteFails(
    start: Plan, requests: map<Pid, Request>, steps: seq<Step>, pid: Pid)
    requires var w := AfterSteps(Initial(start, requests), steps);
      pid in w.processes && w.processes[pid].stage.Exited?
    ensures var w := AfterSteps(Initial(start, requests), steps);
      var status := ExitStatus(w.processes[pid].stage.outcome);
      && (status == 0 ==> (pid in w.commits <==> !WriteFails(start, requests, steps, pid)))
      && (status != 0 ==> pid !in w.commits)
  {
    ProcessIsRequested(start, requests, steps, pid);
    ExitsReportTheTruth(start, requests, steps, pid);
    WriteFailureDecidesOutcome(start, requests, steps, pid);
    StatusOfExit(AfterSteps(Initial(start, requests), steps), pid, WriteFails(start, requests, steps, pid));
  }

  // The run of one process whose temporary file cannot be created.
  function FailingRun(pid: Pid): seq<Step> {
    [Step(pid, Open, true), Step(pid, Acquire, true), Step(pid, Load, true), Step(pid, CreateTemp, false),
     Step(pid, Release, true)]
  }

  ghost function Taken(w: World, s: Step): World {
    Next(w, s.pid, s.action, s.works)
  }

  lemma FiveSteps(w: World, a: Step, b: Step, c: Step, d: Step, e: Step)
    ensures AfterSteps(w, [a, b, c, d, e]) == Taken(Taken(Taken(Taken(Taken(w, a), b), c), d), e)
  {
    assert [a][..0] == [] && [a, b][..1] == [a] && [a, b, c][..2] == [a, b];
    assert [a, b, c, d][..3] == [a, b, c] && [a, b, c, d, e][..4] == [a, b, c, d];
    assert AfterSteps(w, [a]) == Taken(w, a);
    assert AfterSteps(w, [a, b]) == Taken(Taken(w, a), b);
    assert AfterSteps(w, [a, b, c]) == Taken(Taken(Taken(w, a), b), c);
  }

  ghost function Alone(disk: Plan, lock: Option<Pid>, pid: Pid, request: Request, stage: Stage): World {
    World(disk, lock, map[pid := Process(request, stage)], map[], [])
  }

  lemma FailingSteps(start: Plan, pid: Pid, request: Request)
    requires HasTask(start, request.task)
    ensures Next(Alone(start, None, pid, request, Started), pid, Open, true)
         == Alone(start, None, pid, request, Opened)
    ensures Next(Alone(start, None, pid, request, Opened), pid, Acquire, true)
         == Alone(start, Some(pid), pid, request, Locked)
    ensures var loaded := Loaded(Appended(start, request.task, request.result));
      && Next(Alone(start, Some(pid), pid, request, Locked), pid, Load, true)
         == Alone(start, Some(pid), pid, request, loaded)
      && Next(Alone(start, Some(pid), pid, request, loaded), pid, CreateTemp, false)
         == Alone(start, Some(pid), pid, request, Releasing(WriteFailed))
    ensures Next(Alone(start, Some(pid), pid, request, Releasing(WriteFailed)), pid, Release, true)
         == Alone(start, None, pid, request, Exited(WriteFailed))
  {
  }

  /** Status 0 without a commit: the temporary file cannot be created, and the result is lost. */
  lemma FailedWriteExitsWithZero(start: Plan, pid: Pid, request: Request)
    requires HasTask(start, request.task)
    ensures AfterSteps(Initial(start, map[pid := request]), FailingRun(pid))
         == Alone(start, None, pid, request, Exited(WriteFailed))
    ensures ExitStatus(WriteFailed) == 0
  {
    FailingSteps(start, pid, request);
    FiveSteps(Initial(start, map[pid := request]), Step(pid, Open, true), Step(pid, Acquire, true),
              Step(pid, Load, true), Step(pid, CreateTemp, false), Step(pid, Release, true));
    assert Initial(start, map[pid := request]) == Alone(start, None, pid, request, Started);
  }

  /** No update is lost or duplicated: at every moment each task holds its initial results followed by
      the committed ones for it, in commit order. */
  lemma NoLostUpdates(start: Plan, requests: map<Pid, Request>, steps: seq<Step>, task: string)
    requires HasTask(start, task)
    ensures var w := AfterSteps(Initial(start, requests), steps);
      ResultsOf(w.disk, task) == ResultsOf(start, task) + CommittedFor(requests, w.commits, task)
  {
    RunsAreSafe(start, requests, steps);
    ReplayedResults(start, requests, AfterSteps(Initial(start, requests), steps).commits, task);
  }
}
