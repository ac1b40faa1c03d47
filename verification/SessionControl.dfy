/** The start, pause, cancel and resume endpoints. Each handler runs without interruption; between
    them sessions exit on their own and the running scripts append events. */
module SessionControl {
  import opened Options
  import opened LifecycleEvents
  import opened LifecycleStatus

  datatype Kind = Autopilot | Chain
  datatype Target = Target(kind: Kind, id: string)

  function KindName(k: Kind): string {
    match k
    case Autopilot => "autopilot"
    case Chain => "chain"
  }

  // The tmux session name of a target.
  function DeterministicName(t: Target): string {
    KindName(t.kind) + "-" + t.id
  }

  predicate Counted(name: string) {
    "autopilot-" <= name || "chain-" <= name
  }

  // streams holds the lifecycle lines of each target that has a stream file.
  datatype World = World(
    sessions: set<string>,
    streams: map<Target, seq<Line>>,
    directories: set<Target>,
    startable: set<Target>,
    pauseFiles: set<Target>)

  function Active(sessions: set<string>): set<string> {
    set name | name in sessions && Counted(name)
  }

  datatype Response =
    | SessionStarted(session: string)
    | Pausing(already: bool)
    | SessionCancelled(session: string)
    | AlreadyCancelled(session: string)
    | SessionResumed(session: string, fromPhase: string)
    | TargetNotFound
    | CapReached(active: nat)
    | AlreadyRunning(session: string)
    | CannotResumeCancelled
    | CannotResumeRunning
    | CannotResumeCompleted
    | StreamUnavailable
    | WriteError
    | TmuxError

  // Which of the side effects of one request succeed.
  datatype Effects = Effects(mkdir: bool, append: bool, tmux: bool, pauseWrite: bool, ts: string)

  function EventOf(action: Action, ts: string, session: Option<string>, phaseAtPause: Option<string>): Line {
    Valid(Event(action, ts, None, phaseAtPause, session))
  }

  function StreamOf(w: World, t: Target): seq<Line> {
    if t in w.streams then w.streams[t] else []
  }

  function StateOf(w: World, t: Target): Derived {
    Folded(INITIAL, StreamOf(w, t))
  }

  // Writing an event first makes the target directory, unless it exists or that fails; without a
  // directory, or when the append fails, the stream stays as it was.
  function Emitted(w: World, t: Target, line: Line, mkdir: bool, append: bool): World {
    var made := if mkdir then w.(directories := w.directories + {t}) else w;
    if append && t in made.directories then made.(streams := made.streams[t := StreamOf(w, t) + [line]]) else made
  }

  // ---- The handlers as transitions ----

  function Start(w: World, cap: nat, t: Target, fx: Effects): (World, Response) {
    var name := DeterministicName(t);
    if t !in w.startable then (w, TargetNotFound)
    else if |Active(w.sessions)| >= cap then (w, CapReached(|Active(w.sessions)|))
    else if name in w.sessions then (w, AlreadyRunning(name))
    else
      var noted := Emitted(w, t, EventOf(Started, fx.ts, Some(name), None), fx.mkdir, fx.append);
      if fx.tmux then (noted.(sessions := w.sessions + {name}), SessionStarted(name)) else (noted, TmuxError)
  }

  function Pause(w: World, t: Target, fx: Effects): (World, Response) {
    if t !in w.directories then (w, TargetNotFound)
    else if !fx.pauseWrite then (w, WriteError)
    else
      var line := EventOf(Paused, fx.ts, None, StateOf(w, t).lastPhaseComplete);
      (Emitted(w.(pauseFiles := w.pauseFiles + {t}), t, line, fx.mkdir, fx.append), Pausing(t in w.pauseFiles))
  }

  function Cancel(w: World, t: Target, fx: Effects): (World, Response) {
    var name := DeterministicName(t);
    if !fx.tmux then (w, TmuxError)
    else
      var line := EventOf(Cancelled, fx.ts, None, None);
      (Emitted(w.(sessions := w.sessions - {name}), t, line, fx.mkdir, fx.append),
       if name in w.sessions then SessionCancelled(name) else AlreadyCancelled(name))
  }

  // Resuming needs an idle or paused target with a stream and a phase left to run.
  predicate Resumable(w: World, order: seq<string>, t: Target)
    requires order != []
  {
    && t in w.directories && t in w.streams
    && StateOf(w, t).status in {StatusIdle, StatusPaused}
    && NextPhase(LastCompleted(StreamOf(w, t)), order).Some?
  }

  // Why a target is not resumable.
  function ResumeRejection(w: World, t: Target): Response {
    if t !in w.directories then TargetNotFound
    else if StateOf(w, t).status.StatusCancelled? then CannotResumeCancelled
    else if StateOf(w, t).status.StatusRunning? then CannotResumeRunning
    else if t !in w.streams then StreamUnavailable
    else CannotResumeCompleted
  }

  // A chain finds its own position; an autopilot run is told where to start.
  function FromPhase(w: World, order: seq<string>, t: Target): string
    requires order != []
  {
    if t.kind.Chain? then "chain" else GetOr(NextPhase(LastCompleted(StreamOf(w, t)), order), "")
  }

  function Resume(w: World, cap: nat, order: seq<string>, t: Target, fx: Effects): (World, Response)
    requires order != []
  {
    var name := DeterministicName(t);
    if !Resumable(w, order, t) then (w, ResumeRejection(w, t))
    else if |Active(w.sessions)| >= cap then (w, CapReached(|Active(w.sessions)|))
    else if name in w.sessions then (w, AlreadyRunning(name))
    else if !fx.tmux then (w, TmuxError)
    else
      var running := w.(sessions := w.sessions + {name},
                        pauseFiles := if t.kind.Chain? then w.pauseFiles - {t} else w.pauseFiles);
      (Emitted(running, t, EventOf(Resumed, fx.ts, None, None), fx.mkdir, fx.append),
       SessionResumed(name, FromPhase(w, order, t)))
  }

  datatype Step =
    | StartStep(target: Target, fx: Effects)
    | PauseStep(target: Target, fx: Effects)
    | CancelStep(target: Target, fx: Effects)
    | ResumeStep(target: Target, fx: Effects)
    | SessionExit(name: string)
    | ScriptLine(target: Target, line: Line)

  function Next(w: World, cap: nat, order: seq<string>, s: Step): World
    requires order != []
  {
    match s
    case StartStep(t, fx) => Start(w, cap, t, fx).0
    case PauseStep(t, fx) => Pause(w, t, fx).0
    case CancelStep(t, fx) => Cancel(w, t, fx).0
    case ResumeStep(t, fx) => Resume(w, cap, order, t, fx).0
    case SessionExit(name) => w.(sessions := w.sessions - {name})
    case ScriptLine(t, line) => Emitted(w, t, line, true, true)
  }

  function AfterSteps(w: World, cap: nat, order: seq<string>, steps: seq<Step>): World
    requires order != []
  {
    if steps == [] then w else Next(AfterSteps(w, cap, order, steps[..|steps| - 1]), cap, order, steps[|steps| - 1])
  }

  // ---- The server that holds the state ----

  class ControlServer {
    const cap: nat
    const phaseOrder: seq<string>
    var sessions: set<string>
    var streams: map<Target, seq<Line>>
    var directories: set<Target>
    var startable: set<Target>
    var pauseFiles: set<Target>

    ghost function View(): World
      reads this
    {
      World(sessions, streams, directories, startable, pauseFiles)
    }

    constructor (cap: nat, phaseOrder: seq<string>, w: World)
      ensures this.cap == cap && this.phaseOrder == phaseOrder && View() == w
    {
      this.cap, this.phaseOrder := cap, phaseOrder;
      sessions, streams, directories, startable, pauseFiles :=
        w.sessions, w.streams, w.directories, w.startable, w.pauseFiles;
    }

    method Emit(t: Target, line: Line, mkdir: bool, append: bool)
      modifies this`directories, this`streams
      ensures View() == Emitted(old(View()), t, line, mkdir, append)
    {
      if mkdir {
        directories := directories + {t};
      }
      if append && t in directories {
        var stream := if t in streams then streams[t] else [];
        streams := streams[t := stream + [line]];
      }
    }

    // The started event is written before the session is created.
    method HandleStart(t: Target, fx: Effects) returns (r: Response)
      modifies this
      ensures (View(), r) == Start(old(View()), cap, t, fx)
    {
      if t !in startable {
        return TargetNotFound;
      }
      var active := Active(sessions);
      if |active| >= cap {
        return CapReached(|active|);
      }
      var name := DeterministicName(t);
      if name in sessions {
        return AlreadyRunning(name);
      }
      Emit(t, EventOf(Started, fx.ts, Some(name), None), fx.mkdir, fx.append);
      if !fx.tmux {
        return TmuxError;
      }
      sessions := sessions + {name};
      return SessionStarted(name);
    }

    method HandlePause(t: Target, fx: Effects) returns (r: Response)
      modifies this
      ensures (View(), r) == Pause(old(View()), t, fx)
    {
      if t !in directories {
        return TargetNotFound;
      }
      if !fx.pauseWrite {
        return WriteError;
      }
      var already := t in pauseFiles;
      pauseFiles := pauseFiles + {t};
      var stream := if t in streams then streams[t] else [];
      var state := Folded(INITIAL, stream);
      Emit(t, EventOf(Paused, fx.ts, None, state.lastPhaseComplete), fx.mkdir, fx.append);
      return Pausing(already);
    }

    // The cancelled event is written whether or not there was a session to kill.
    method HandleCancel(t: Target, fx: Effects) returns (r: Response)
      modifies this
      ensures (View(), r) == Cancel(old(View()), t, fx)
    {
      if !fx.tmux {
        return TmuxError;
      }
      var name := DeterministicName(t);
      var found := name in sessions;
      sessions := sessions - {name};
      Emit(t, EventOf(Cancelled, fx.ts, None, None), fx.mkdir, fx.append);
      return if found then SessionCancelled(name) else AlreadyCancelled(name);
    }

    // The resumed event is written only after the session was created.
    method HandleResume(t: Target, fx: Effects) returns (r: Response)
      requires phaseOrder != []
      modifies this
      ensures (View(), r) == Resume(old(View()), cap, phaseOrder, t, fx)
    {
      if t !in directories {
        return TargetNotFound;
      }
      var stream := if t in streams then streams[t] else [];
      var state := Folded(INITIAL, stream);
      if state.status.StatusCancelled? {
        return CannotResumeCancelled;
      }
      if state.status.StatusRunning? {
        return CannotResumeRunning;
      }
      if t !in streams {
        return StreamUnavailable;
      }
      var last := ScanLastPhaseComplete(stream);
      var next := NextPhase(last, phaseOrder);
      if next.None? {
        return CannotResumeCompleted;
      }
      var active := Active(sessions);
      if |active| >= cap {
        return CapReached(|active|);
      }
      var name := DeterministicName(t);
      if name in sessions {
        return AlreadyRunning(name);
      }
      if !fx.tmux {
        return TmuxError;
      }
      sessions := sessions + {name};
      if t.kind.Chain? {
        pauseFiles := pauseFiles - {t};
      }
      Emit(t, EventOf(Resumed, fx.ts, None, None), fx.mkdir, fx.append);
      return SessionResumed(name, if t.kind.Chain? then "chain" else next.value);
    }
  }

  // ---- Session names ----

  lemma NamesAreInjective(a: Target, b: Target)
    ensures DeterministicName(a) == DeterministicName(b) <==> a == b
    ensures Counted(DeterministicName(a))
  {
    var x, y := DeterministicName(a), DeterministicName(b);
    assert a.kind.Autopilot? ==> x[0] == 'a' && x[10..] == a.id;
    assert a.kind.Chain? ==> x[0] == 'c' && x[6..] == a.id;
    assert b.kind.Autopilot? ==> y[0] == 'a' && y[10..] == b.id;
    assert b.kind.Chain? ==> y[0] == 'c' && y[6..] == b.id;
  }

  // ---- The concurrency cap ----

  lemma ActiveGrows(sessions: set<string>, name: string)
    ensures |Active(sessions + {name})| <= |Active(sessions)| + 1
  {
    if Counted(name) {
      assert Active(sessions + {name}) == Active(sessions) + {name};
    } else {
      assert Active(sessions + {name}) == Active(sessions);
    }
  }

  lemma {:induction false} SubsetSmaller(a: set<string>, b: set<string>)
    requires a <= b
    ensures |a| <= |b|
  {
    if a != {} {
      var x :| x in a;
      SubsetSmaller(a - {x}, b - {x});
    }
  }

  lemma StepRespectsCap(w: World, cap: nat, order: seq<string>, s: Step)
    requires order != []
    ensures |Active(Next(w, cap, order, s).sessions)| <= |Active(w.sessions)|
         || |Active(Next(w, cap, order, s).sessions)| <= cap
  {
    var after := Next(w, cap, order, s);
    if after.sessions <= w.sessions {
      assert Active(after.sessions) <= Active(w.sessions);
      SubsetSmaller(Active(after.sessions), Active(w.sessions));
    } else {
      ActiveGrows(w.sessions, DeterministicName(s.target));
    }
  }

  /** In every run the number of live counted sessions stays at or below the cap once it is there. */
  lemma {:induction false} CapIsNeverExceeded(w: World, cap: nat, order: seq<string>, steps: seq<Step>)
    requires order != [] && |Active(w.sessions)| <= cap
    ensures |Active(AfterSteps(w, cap, order, steps).sessions)| <= cap
  {
    if steps != [] {
      var n := |steps| - 1;
      CapIsNeverExceeded(w, cap, order, steps[..n]);
      StepRespectsCap(AfterSteps(w, cap, order, steps[..n]), cap, order, steps[n]);
    }
  }

  // ---- No resume after a cancel ----

  // A step that writes no pause into t's stream.
  predicate NoPauseOf(s: Step, t: Target) {
    match s
    case PauseStep(u, fx) => u != t
    case ScriptLine(u, line) => u == t ==> !(line.Valid? && line.event.action.Paused?)
    case _ => true
  }

  predicate Refused(w: World, t: Target) {
    StateOf(w, t).status in {StatusCancelled, StatusRunning}
  }

  // Whether a request gets to write its event.
  predicate EventWritten(w: World, t: Target, fx: Effects) {
    fx.append && (fx.mkdir || t in w.directories)
  }

  lemma AppendedState(w: World, t: Target, line: Line, mkdir: bool)
    requires mkdir || t in w.directories
    ensures StateOf(Emitted(w, t, line, mkdir, true), t) == ApplyLine(StateOf(w, t), line)
    ensures forall u | u != t :: StreamOf(Emitted(w, t, line, mkdir, true), u) == StreamOf(w, u)
  {
    var stream := StreamOf(w, t);
    assert (stream + [line])[..|stream|] == stream;
  }

  lemma EmitKeepsRefusal(w: World, u: Target, line: Line, mkdir: bool, append: bool, t: Target)
    requires Refused(w, t)
    requires u == t && line.Valid? ==> !line.event.action.Paused?
    ensures Refused(Emitted(w, u, line, mkdir, append), t)
  {
    if append && (mkdir || u in w.directories) {
      AppendedState(w, u, line, mkdir);
    }
  }

  lemma StepKeepsRefusal(w: World, cap: nat, order: seq<string>, s: Step, t: Target)
    requires order != [] && Refused(w, t) && NoPauseOf(s, t)
    ensures Refused(Next(w, cap, order, s), t)
    ensures s.ResumeStep? && s.target == t ==> Next(w, cap, order, s) == w
  {
    match s
    case StartStep(u, fx) =>
      EmitKeepsRefusal(w, u, EventOf(Started, fx.ts, Some(DeterministicName(u)), None), fx.mkdir, fx.append, t);
    case PauseStep(u, fx) =>
      EmitKeepsRefusal(w.(pauseFiles := w.pauseFiles + {u}), u,
                       EventOf(Paused, fx.ts, None, StateOf(w, u).lastPhaseComplete), fx.mkdir, fx.append, t);
    case CancelStep(u, fx) =>
      EmitKeepsRefusal(w.(sessions := w.sessions - {DeterministicName(u)}), u,
                       EventOf(Cancelled, fx.ts, None, None), fx.mkdir, fx.append, t);
    case ResumeStep(u, fx) =>
      var running := w.(sessions := w.sessions + {DeterministicName(u)},
                        pauseFiles := if u.kind.Chain? then w.pauseFiles - {u} else w.pauseFiles);
      EmitKeepsRefusal(running, u, EventOf(Resumed, fx.ts, None, None), fx.mkdir, fx.append, t);
    case SessionExit(name) =>
    case ScriptLine(u, line) => EmitKeepsRefusal(w, u, line, true, true, t);
  }

  /** A cancel makes later resumes refused exactly when its event gets written, or they were refused
      before. */
  lemma CancelRefusesWhenWritten(w: World, t: Target, fx: Effects)
    ensures Refused(Cancel(w, t, fx).0, t) <==> Refused(w, t) || (fx.tmux && EventWritten(w, t, fx))
  {
    var killed := w.(sessions := w.sessions - {DeterministicName(t)});
    if fx.tmux && EventWritten(w, t, fx) {
      AppendedState(killed, t, EventOf(Cancelled, fx.ts, None, None), fx.mkdir);
    }
  }

  /** After a cancel whose event was written, no resume of that target changes anything until a pause
      is written to its stream, whatever else happens. */
  lemma {:induction false} NoResumeAfterCancel(
    w: World, cap: nat, order: seq<string>, t: Target, fx: Effects, steps: seq<Step>)
    requires order != [] && fx.tmux && EventWritten(w, t, fx)
    requires forall s | s in steps :: NoPauseOf(s, t)
    ensures var later := AfterSteps(Cancel(w, t, fx).0, cap, order, steps);
      Refused(later, t) && forall rx :: Resume(later, cap, order, t, rx).0 == later
  {
    var cancelled := Cancel(w, t, fx).0;
    if steps == [] {
      CancelRefusesWhenWritten(w, t, fx);
    } else {
      var n := |steps| - 1;
      NoResumeAfterCancel(w, cap, order, t, fx, steps[..n]);
      StepKeepsRefusal(AfterSteps(cancelled, cap, order, steps[..n]), cap, order, steps[n], t);
    }
  }

  /** A resume creates a session only for a target whose last valid event is a pause, or that has no
      valid event at all. */
  lemma ResumeNeedsPauseOrNothing(w: World, cap: nat, order: seq<string>, t: Target, fx: Effects)
    requires order != [] && Resume(w, cap, order, t, fx).1.SessionResumed?
    ensures var last := LastEvent(StreamOf(w, t), (e: Event) => true);
      last.None? || last.value.action.Paused?
  {
    DerivedClosedForm(StreamOf(w, t));
  }

  // ---- Terminal connections ----

  datatype CloseReason = NotFound | LifecycleMissing | LookupInconsistent

  // Whether a terminal connection is turned away because of the reported status.
  function DecideClose(status: Derived, name: string): Option<CloseReason> {
    if status.status in {StatusIdle, StatusCancelled} then Some(NotFound)
    else if status.tmuxSession.None? then Some(LifecycleMissing)
    else if status.tmuxSession != Some(name) then Some(LookupInconsistent)
    else None
  }

  // The status a poll reports.
  function ReportedStatus(w: World, t: Target): Derived {
    Reported(StateOf(w, t), w.sessions)
  }

  // Every event of t's stream names no session or the deterministic one.
  ghost predicate OwnNames(stream: seq<Line>, t: Target) {
    forall l | l in stream && l.Valid? :: l.event.tmuxSession in {None, Some(DeterministicName(t))}
  }

  predicate OwnScriptLine(s: Step) {
    s.ScriptLine? && s.line.Valid? ==> s.line.event.tmuxSession in {None, Some(DeterministicName(s.target))}
  }

  lemma {:induction false} OwnNamesDerived(stream: seq<Line>, t: Target)
    requires OwnNames(stream, t)
    ensures Folded(INITIAL, stream).tmuxSession in {None, Some(DeterministicName(t))}
  {
    if stream != [] {
      var n := |stream| - 1;
      OwnNamesDerived(stream[..n], t);
      assert stream[n] in stream;
    }
  }

  lemma StepKeepsOwnNames(w: World, cap: nat, order: seq<string>, s: Step, t: Target)
    requires order != [] && OwnNames(StreamOf(w, t), t) && OwnScriptLine(s)
    ensures OwnNames(StreamOf(Next(w, cap, order, s), t), t)
  {
  }

  lemma {:induction false} RunKeepsOwnNames(w: World, cap: nat, order: seq<string>, steps: seq<Step>, t: Target)
    requires order != [] && OwnNames(StreamOf(w, t), t)
    requires forall s | s in steps :: OwnScriptLine(s)
    ensures OwnNames(StreamOf(AfterSteps(w, cap, order, steps), t), t)
  {
    if steps != [] {
      var n := |steps| - 1;
      RunKeepsOwnNames(w, cap, order, steps[..n], t);
      StepKeepsOwnNames(AfterSteps(w, cap, order, steps[..n]), cap, order, steps[n], t);
    }
  }

  // A status that names no session or the given one is let through only with that session live.
  lemma ReportedNameIsLive(d: Derived, live: set<string>, name: string)
    requires d.tmuxSession in {None, Some(name)} && name != ""
    ensures var decision := DecideClose(Reported(d, live), name);
      && decision != Some(LookupInconsistent)
      && (decision.None? ==> name in live)
  {
  }

  /** On streams written by the dashboard and by scripts that name their own session, a reported
      running or paused session is the deterministic one and live, so a terminal connection is never
      closed for a lookup inconsistency, and one that is admitted finds its session live. */
  lemma LookupNeverInconsistent(w: World, cap: nat, order: seq<string>, steps: seq<Step>, t: Target)
    requires order != [] && OwnNames(StreamOf(w, t), t)
    requires forall s | s in steps :: OwnScriptLine(s)
    ensures var later := AfterSteps(w, cap, order, steps);
      var decision := DecideClose(ReportedStatus(later, t), DeterministicName(t));
      && decision != Some(LookupInconsistent)
      && (decision.None? ==> DeterministicName(t) in later.sessions)
  {
    RunKeepsOwnNames(w, cap, order, steps, t);
    var later := AfterSteps(w, cap, order, steps);
    OwnNamesDerived(StreamOf(later, t), t);
    assert |DeterministicName(t)| >= |KindName(t.kind)| > 0;
    ReportedNameIsLive(StateOf(later, t), later.sessions, DeterministicName(t));
  }

  /** A connection is let through exactly when the run is running or paused and names the live
      deterministic session. */
  lemma AdmittedExactlyWhen(d: Derived, live: set<string>, name: string)
    requires name != ""
    ensures DecideClose(Reported(d, live), name) == None
       <==> d.status in {StatusRunning, StatusPaused} && d.tmuxSession == Some(name) && name in live
    ensures d.tmuxSession.Some? && d.tmuxSession.value in live ==> Reported(d, live) == d
  {
    var reported := Reported(d, live);
    assert reported.status == d.status;
    assert NamesPhase(Some(name));
    if d.status.StatusRunning? || d.status.StatusPaused? {
      assert DecideClose(reported, name) == None <==> reported.tmuxSession == Some(name);
      assert reported.tmuxSession == Some(name) <==> d.tmuxSession == Some(name) && name in live;
    }
  }

  // ---- What each request achieves ----

  lemma NamesAreNotEmpty(t: Target)
    ensures DeterministicName(t) != "" && NamesPhase(Some(DeterministicName(t)))
  {
    assert |DeterministicName(t)| >= |KindName(t.kind)| > 0;
  }

  /** A start succeeds exactly when the target can be started, the cap leaves room, its session does not
      exist and tmux works; then its session is live and counted, and every other one is as before. */
  lemma StartSucceedsExactlyWhen(w: World, cap: nat, t: Target, fx: Effects)
    ensures var (after, answer) := Start(w, cap, t, fx);
      var name := DeterministicName(t);
      && (answer.SessionStarted? <==>
            t in w.startable && |Active(w.sessions)| < cap && name !in w.sessions && fx.tmux)
      && (if answer.SessionStarted? then answer.session == name && after.sessions == w.sessions + {name}
          else after.sessions == w.sessions)
  {
  }

  /** After a start whose event was written, the run is reported as running since then, and a terminal
      connection is let through to its session. */
  lemma StartedSessionIsReachable(w: World, cap: nat, t: Target, fx: Effects)
    requires Start(w, cap, t, fx).1.SessionStarted? && EventWritten(w, t, fx)
    ensures var after := Start(w, cap, t, fx).0;
      && StateOf(after, t).status == StatusRunning && StateOf(after, t).startedAt == Some(fx.ts)
      && DecideClose(ReportedStatus(after, t), DeterministicName(t)) == None
  {
    var name := DeterministicName(t);
    NamesAreNotEmpty(t);
    AppendedState(w, t, EventOf(Started, fx.ts, Some(name), None), fx.mkdir);
    AdmittedExactlyWhen(StateOf(Start(w, cap, t, fx).0, t), Start(w, cap, t, fx).0.sessions, name);
  }

  /** When tmux fails after the event was written, the run is reported as running without a session, and
      a resume is refused. */
  lemma FailedStartLooksRunning(w: World, cap: nat, order: seq<string>, t: Target, fx: Effects, rx: Effects)
    requires order != [] && Start(w, cap, t, fx).1 == TmuxError && EventWritten(w, t, fx)
    ensures var after := Start(w, cap, t, fx).0;
      && ReportedStatus(after, t).status == StatusRunning && ReportedStatus(after, t).tmuxSession == None
      && DecideClose(ReportedStatus(after, t), DeterministicName(t)) == Some(LifecycleMissing)
      && Resume(after, cap, order, t, rx) == (after, CannotResumeRunning)
  {
    var name := DeterministicName(t);
    var after := Start(w, cap, t, fx).0;
    NamesAreNotEmpty(t);
    AppendedState(w, t, EventOf(Started, fx.ts, Some(name), None), fx.mkdir);
    assert StateOf(after, t).status == StatusRunning && StateOf(after, t).tmuxSession == Some(name);
    DeadNameIsBlanked(StateOf(after, t), after.sessions, name);
    RunningIsNotResumed(after, cap, order, t, rx);
  }

  lemma DeadNameIsBlanked(d: Derived, live: set<string>, name: string)
    requires d.status == StatusRunning && d.tmuxSession == Some(name) && name != "" && name !in live
    ensures Reported(d, live).tmuxSession == None && Reported(d, live).status == StatusRunning
    ensures DecideClose(Reported(d, live), name) == Some(LifecycleMissing)
  {
  }

  lemma RunningIsNotResumed(w: World, cap: nat, order: seq<string>, t: Target, fx: Effects)
    requires order != [] && t in w.directories && StateOf(w, t).status == StatusRunning
    ensures Resume(w, cap, order, t, fx) == (w, CannotResumeRunning)
  {
    assert !Resumable(w, order, t);
  }

  /** A cancel kills the session and no other one; once its event is written the run is reported as
      cancelled and terminal connections are turned away. */
  lemma CancelKillsSession(w: World, t: Target, fx: Effects)
    requires fx.tmux
    ensures var (after, answer) := Cancel(w, t, fx);
      var name := DeterministicName(t);
      && after.sessions == w.sessions - {name}
      && answer == (if name in w.sessions then SessionCancelled(name) else AlreadyCancelled(name))
      && (EventWritten(w, t, fx) ==>
            && StateOf(after, t).status == StatusCancelled
            && DecideClose(ReportedStatus(after, t), name) == Some(NotFound))
  {
    if EventWritten(w, t, fx) {
      AppendedState(w.(sessions := w.sessions - {DeterministicName(t)}), t,
                    EventOf(Cancelled, fx.ts, None, None), fx.mkdir);
    }
  }

  /** A pause whose file can be written leaves that file; once its event is written the run is paused at
      the last completed phase. */
  lemma PausedAtLastPhase(w: World, t: Target, fx: Effects)
    requires t in w.directories && fx.pauseWrite
    ensures var (after, answer) := Pause(w, t, fx);
      && answer == Pausing(t in w.pauseFiles) && t in after.pauseFiles && after.sessions == w.sessions
      && (fx.append ==>
            && StateOf(after, t).status == StatusPaused
            && StateOf(after, t).phaseAtPause == StateOf(w, t).lastPhaseComplete
            && StateOf(after, t).tmuxSession == StateOf(w, t).tmuxSession)
  {
    if fx.append {
      AppendedState(w.(pauseFiles := w.pauseFiles + {t}), t,
                    EventOf(Paused, fx.ts, None, StateOf(w, t).lastPhaseComplete), fx.mkdir);
    }
  }

  /** A resume succeeds exactly for an idle or paused target with a stream and a phase left, room under
      the cap, no live session and working tmux; then its session is live, and once its event is written
      the run is running again. */
  lemma ResumeSucceedsExactlyWhen(w: World, cap: nat, order: seq<string>, t: Target, fx: Effects)
    requires order != []
    ensures var (after, answer) := Resume(w, cap, order, t, fx);
      var name := DeterministicName(t);
      && (answer.SessionResumed? <==>
            && t in w.directories && t in w.streams && !Refused(w, t)
            && NextPhase(LastCompleted(StreamOf(w, t)), order).Some?
            && |Active(w.sessions)| < cap && name !in w.sessions && fx.tmux)
      && (if answer.SessionResumed? then
            && answer.session == name && after.sessions == w.sessions + {name}
            && (t.kind.Chain? ==> t !in after.pauseFiles)
            && (fx.append ==> StateOf(after, t).status == StatusRunning)
          else after == w)
  {
    if Resume(w, cap, order, t, fx).1.SessionResumed? && fx.append {
      var running := w.(sessions := w.sessions + {DeterministicName(t)},
                        pauseFiles := if t.kind.Chain? then w.pauseFiles - {t} else w.pauseFiles);
      AppendedState(running, t, EventOf(Resumed, fx.ts, None, None), fx.mkdir);
    }
  }

  /** A resumed autopilot run starts at the phase after its last completed one, or at the first. */
  lemma ResumedFromNextPhase(w: World, cap: nat, order: seq<string>, t: Target, fx: Effects, i: nat)
    requires DistinctPhases(order) && t.kind.Autopilot? && i < |order|
    requires Resume(w, cap, order, t, fx).1.SessionResumed?
    requires LastCompleted(StreamOf(w, t)) == (if i == 0 then None else Some(order[i - 1]))
    ensures Resume(w, cap, order, t, fx).1.fromPhase == order[i]
  {
    if i > 0 {
      NextAfter(order, i - 1);
    }
  }

  lemma PausedIsResumable(w: World, cap: nat, order: seq<string>, t: Target, fx: Effects)
    requires order != [] && t in w.directories && t in w.streams && StateOf(w, t).status == StatusPaused
    requires NextPhase(LastCompleted(StreamOf(w, t)), order).Some? && fx.tmux
    requires |Active(w.sessions)| < cap && DeterministicName(t) !in w.sessions
    ensures Resume(w, cap, order, t, fx).1.SessionResumed?
  {
    ResumeSucceedsExactlyWhen(w, cap, order, t, fx);
  }

  /** A started run that is paused can be resumed once its session is gone, as long as a phase is left and
      the cap left room for it before. */
  lemma PausedRunResumes(w: World, cap: nat, order: seq<string>, t: Target, px: Effects, rx: Effects)
    requires order != [] && t in w.directories && DeterministicName(t) in w.sessions
    requires |Active(w.sessions - {DeterministicName(t)})| < cap
    requires px.pauseWrite && px.append && rx.tmux
    requires NextPhase(LastCompleted(StreamOf(Pause(w, t, px).0, t)), order).Some?
    ensures var paused := Pause(w, t, px).0;
      var gone := paused.(sessions := paused.sessions - {DeterministicName(t)});
      Resume(gone, cap, order, t, rx).1.SessionResumed?
  {
    var paused := Pause(w, t, px).0;
    var gone := paused.(sessions := paused.sessions - {DeterministicName(t)});
    PausedAtLastPhase(w, t, px);
    assert StreamOf(gone, t) == StreamOf(paused, t) && t in gone.streams && t in gone.directories;
    PausedIsResumable(gone, cap, order, t, rx);
  }
}
