/** Semantic validation of an execution plan: unique task ids, known dependencies and no cycle,
    over the whole plan for schema 2.x and inside each phase for schema 1.x. */
module PlanSemantics {
  import opened Options
  import opened Sequences
  import opened DependencyGraphs
  import opened CycleDetection

  datatype Task = Task(id: Option<string>, depends: seq<string>)
  datatype Phase = Phase(id: Option<string>, tasks: seq<Task>)
  datatype Plan = Plan(schemaVersion: Option<string>, phases: seq<Phase>)

  datatype PlanError =
    | DuplicateId(id: string, firstPhase: string, phase: string)
    | UnknownDependency(phase: string, task: string, dependency: string)
    | CrossPhaseDependency(phase: string, task: string, dependency: string, ownerPhase: string)
    | CircularDependency(inPhase: Option<string>, walk: seq<string>)

  predicate IsPlan20(plan: Plan) {
    plan.schemaVersion.Some? && "2." <= plan.schemaVersion.value
  }

  /** Schema 2.x is a version that begins with a 2 and a dot. */
  lemma Plan20Exactly(plan: Plan)
    ensures IsPlan20(plan)
       <==> && plan.schemaVersion.Some? && 2 <= |plan.schemaVersion.value|
            && plan.schemaVersion.value[0] == '2' && plan.schemaVersion.value[1] == '.'
  {
    if plan.schemaVersion.Some? && 2 <= |plan.schemaVersion.value| {
      assert plan.schemaVersion.value[..2] == [plan.schemaVersion.value[0], plan.schemaVersion.value[1]];
      assert "2." <= plan.schemaVersion.value <==> plan.schemaVersion.value[..2] == "2.";
    }
  }

  // A task without an id is known under the placeholder "?", and so is a phase.
  function TaskId(t: Task): string {
    GetOr(t.id, "?")
  }

  function PhaseName(p: Phase): string {
    GetOr(p.id, "?")
  }

  function Ids(tasks: seq<Task>): seq<string> {
    seq(|tasks|, i requires 0 <= i < |tasks| => TaskId(tasks[i]))
  }

  // The ids written down in a phase; a missing id counts as None, not as "?".
  function ExplicitIds(tasks: seq<Task>): set<Option<string>> {
    set t | t in tasks :: t.id
  }

  function AllTasks(phases: seq<Phase>): seq<Task> {
    if phases == [] then [] else AllTasks(phases[..|phases| - 1]) + phases[|phases| - 1].tasks
  }

  // ---- What acceptance means ----

  predicate UniqueIds(phases: seq<Phase>) {
    Distinct(Ids(AllTasks(phases)))
  }

  // Some task of the phase has this id written down.
  predicate WrittenIn(p: Phase, id: string) {
    exists u | u in p.tasks :: u.id == Some(id)
  }

  predicate IntraPhase(phases: seq<Phase>) {
    forall p, t, d | p in phases && t in p.tasks && d in t.depends :: WrittenIn(p, d)
  }

  predicate Before(order: seq<string>, a: string, b: string) {
    exists i, j | 0 <= i < j < |order| :: order[i] == a && order[j] == b
  }

  // One total order of the given tasks that places each after everything it depends on.
  predicate Schedule(tasks: seq<Task>, order: seq<string>) {
    && Distinct(order)
    && Elements(order) == Elements(Ids(tasks))
    && forall t, d | t in tasks && d in t.depends :: Before(order, d, TaskId(t))
  }

  // A schedule of the whole plan that runs phase after phase, in phase order.
  ghost predicate PhasedSchedule(phases: seq<Phase>, order: seq<string>) {
    if phases == [] then order == []
    else exists split | 0 <= split <= |order| ::
      && PhasedSchedule(phases[..|phases| - 1], order[..split])
      && Schedule(phases[|phases| - 1].tasks, order[split..])
  }

  ghost predicate Accepts(plan: Plan, order: seq<string>) {
    && UniqueIds(plan.phases)
    && Schedule(AllTasks(plan.phases), order)
    && (!IsPlan20(plan) ==> IntraPhase(plan.phases) && PhasedSchedule(plan.phases, order))
  }

  // ---- Collecting ids ----

  datatype Entry = Entry(phase: string, id: string)

  function PhaseEntries(p: Phase): seq<Entry> {
    seq(|p.tasks|, i requires 0 <= i < |p.tasks| => Entry(PhaseName(p), TaskId(p.tasks[i])))
  }

  function Entries(phases: seq<Phase>): seq<Entry> {
    if phases == [] then [] else Entries(phases[..|phases| - 1]) + PhaseEntries(phases[|phases| - 1])
  }

  // Each id with the phase of its first occurrence.
  function Owners(entries: seq<Entry>): map<string, string> {
    if entries == [] then map[] else
      var owner := Owners(entries[..|entries| - 1]);
      var e := entries[|entries| - 1];
      if e.id in owner then owner else owner[e.id := e.phase]
  }

  function DuplicateErrors(entries: seq<Entry>): seq<PlanError> {
    if entries == [] then [] else
      var before := entries[..|entries| - 1];
      var e := entries[|entries| - 1];
      var owner := Owners(before);
      DuplicateErrors(before) + if e.id in owner then [DuplicateId(e.id, owner[e.id], e.phase)] else []
  }

  ghost predicate Collected(entries: seq<Entry>, owner: map<string, string>, errors: seq<PlanError>) {
    owner == Owners(entries) && errors == DuplicateErrors(entries)
  }

  lemma EntryAppended(entries: seq<Entry>, owner: map<string, string>, errors: seq<PlanError>, e: Entry)
    requires Collected(entries, owner, errors)
    ensures e.id in owner ==> Collected(entries + [e], owner, errors + [DuplicateId(e.id, owner[e.id], e.phase)])
    ensures e.id !in owner ==> Collected(entries + [e], owner[e.id := e.phase], errors)
  {
    assert (entries + [e])[..|entries|] == entries;
  }

  method CollectTaskIds(phases: seq<Phase>) returns (owner: map<string, string>, errors: seq<PlanError>)
    ensures owner == Owners(Entries(phases))
    ensures errors == DuplicateErrors(Entries(phases))
  {
    owner, errors := map[], [];
    for i := 0 to |phases|
      invariant Collected(Entries(phases[..i]), owner, errors)
    {
      var p := phases[i];
      ghost var earlier := Entries(phases[..i]);
      ghost var entries := PhaseEntries(p);
      assert earlier + entries[..0] == earlier;
      for j := 0 to |p.tasks|
        invariant Collected(earlier + entries[..j], owner, errors)
      {
        var tid := TaskId(p.tasks[j]);
        assert entries[j] == Entry(PhaseName(p), tid);
        EntryAppended(earlier + entries[..j], owner, errors, entries[j]);
        assert earlier + entries[..j + 1] == earlier + entries[..j] + [entries[j]];
        if tid in owner {
          errors := errors + [DuplicateId(tid, owner[tid], PhaseName(p))];
        } else {
          owner := owner[tid := PhaseName(p)];
        }
      }
      assert entries[..|p.tasks|] == entries;
      assert phases[..i + 1][..i] == phases[..i];
    }
    assert phases[..|phases|] == phases;
  }

  function EntryIds(entries: seq<Entry>): seq<string> {
    seq(|entries|, i requires 0 <= i < |entries| => entries[i].id)
  }

  lemma {:induction false} OwnersCoverIds(entries: seq<Entry>)
    ensures Owners(entries).Keys == Elements(EntryIds(entries))
  {
    if entries != [] {
      var before := entries[..|entries| - 1];
      OwnersCoverIds(before);
      assert EntryIds(entries) == EntryIds(before) + [entries[|entries| - 1].id];
    }
  }

  // Entry i is the first one with the id.
  predicate FirstEntry(entries: seq<Entry>, i: nat, id: string) {
    i < |entries| && entries[i].id == id && forall k | 0 <= k < i :: entries[k].id != id
  }

  lemma {:induction false} OwnerIsFirst(entries: seq<Entry>, id: string)
    requires id in Owners(entries)
    ensures exists i: nat :: FirstEntry(entries, i, id) && Owners(entries)[id] == entries[i].phase
  {
    var n := |entries| - 1;
    var before := entries[..n];
    if id in Owners(before) {
      OwnerIsFirst(before, id);
      var i: nat :| FirstEntry(before, i, id) && Owners(before)[id] == before[i].phase;
      assert FirstEntry(entries, i, id);
    } else {
      OwnersCoverIds(before);
      forall k | 0 <= k < n ensures entries[k].id != id {
        assert EntryIds(before)[k] == entries[k].id;
      }
      assert FirstEntry(entries, n, id);
    }
  }

  // Entry j repeats the id of the earlier entry i, the first with that id.
  predicate RepeatsEntry(entries: seq<Entry>, i: nat, j: nat, e: PlanError) {
    && i < j < |entries| && FirstEntry(entries, i, entries[j].id)
    && e == DuplicateId(entries[j].id, entries[i].phase, entries[j].phase)
  }

  lemma RepeatsBefore(entries: seq<Entry>, i: nat, j: nat, e: PlanError)
    requires entries != [] && j < |entries| - 1
    ensures RepeatsEntry(entries[..|entries| - 1], i, j, e) <==> RepeatsEntry(entries, i, j, e)
  {
  }

  lemma LastRepeats(entries: seq<Entry>, n: nat, e: PlanError)
    requires |entries| == n + 1
    ensures var before, last := entries[..n], entries[n];
      (exists i: nat :: RepeatsEntry(entries, i, n, e))
      <==> last.id in Owners(before) && e == DuplicateId(last.id, Owners(before)[last.id], last.phase)
  {
    var before, last := entries[..n], entries[n];
    OwnersCoverIds(before);
    if last.id in Owners(before) {
      OwnerIsFirst(before, last.id);
      var i: nat :| FirstEntry(before, i, last.id) && Owners(before)[last.id] == before[i].phase;
      assert RepeatsEntry(entries, i, n, DuplicateId(last.id, before[i].phase, last.phase));
    }
    if i: nat :| RepeatsEntry(entries, i, n, e) {
      assert EntryIds(before)[i] == last.id;
      assert FirstEntry(before, i, last.id);
      OwnerIsFirst(before, last.id);
    }
  }

  /** The duplicate errors are exactly those of the entries whose id came before, each with the phase of
      the first occurrence and its own. */
  lemma {:induction false} DuplicateErrorsExact(entries: seq<Entry>, e: PlanError)
    ensures e in DuplicateErrors(entries) <==> exists i, j :: RepeatsEntry(entries, i, j, e)
  {
    if entries != [] {
      var n := |entries| - 1;
      DuplicateErrorsExact(entries[..n], e);
      LastRepeats(entries, n, e);
      if i: nat, j: nat :| RepeatsEntry(entries[..n], i, j, e) {
        RepeatsBefore(entries, i, j, e);
      }
      if i: nat, j: nat :| RepeatsEntry(entries, i, j, e) && j < n {
        RepeatsBefore(entries, i, j, e);
      }
    }
  }

  lemma {:induction false} NoDuplicateErrors(entries: seq<Entry>)
    ensures DuplicateErrors(entries) == [] <==> Distinct(EntryIds(entries))
  {
    if entries != [] {
      var before := entries[..|entries| - 1];
      var last := entries[|entries| - 1].id;
      NoDuplicateErrors(before);
      OwnersCoverIds(before);
      var ids := EntryIds(entries);
      assert ids == EntryIds(before) + [last];
      assert last in EntryIds(before) <==> last in Elements(EntryIds(before));
      if last in EntryIds(before) {
        var i :| 0 <= i < |before| && EntryIds(before)[i] == last;
        assert ids[i] == ids[|before|];
      } else {
        assert Distinct(EntryIds(before)) ==> Distinct(ids);
        assert Distinct(ids) ==> Distinct(EntryIds(before)) by {
          assert ids[..|before|] == EntryIds(before);
        }
      }
    }
  }

  lemma {:induction false} EntriesAreTasks(phases: seq<Phase>)
    ensures EntryIds(Entries(phases)) == Ids(AllTasks(phases))
  {
    if phases != [] {
      var before := phases[..|phases| - 1];
      var p := phases[|phases| - 1];
      EntriesAreTasks(before);
      assert EntryIds(Entries(phases)) == EntryIds(Entries(before)) + EntryIds(PhaseEntries(p));
      assert EntryIds(PhaseEntries(p)) == Ids(p.tasks);
      assert Ids(AllTasks(phases)) == Ids(AllTasks(before)) + Ids(p.tasks);
    }
  }

  // ---- Checking dependency references ----

  // What the dependency checks of one phase compare against.
  datatype Scope = Scope(owner: map<string, string>, crossPhase: bool, local: set<Option<string>>, phase: string)

  predicate GoodDependency(s: Scope, dep: string) {
    dep in s.owner && (s.crossPhase || Some(dep) in s.local)
  }

  function DependencyError(s: Scope, task: string, dep: string): (found: seq<PlanError>)
    ensures found == [] <==> GoodDependency(s, dep)
  {
    if dep !in s.owner then [UnknownDependency(s.phase, task, dep)]
    else if !s.crossPhase && Some(dep) !in s.local then [CrossPhaseDependency(s.phase, task, dep, s.owner[dep])]
    else []
  }

  function DependencyErrors(s: Scope, task: string, deps: seq<string>): seq<PlanError> {
    if deps == [] then [] else
      DependencyErrors(s, task, deps[..|deps| - 1]) + DependencyError(s, task, deps[|deps| - 1])
  }

  function TaskErrors(s: Scope, tasks: seq<Task>): seq<PlanError> {
    if tasks == [] then [] else
      var t := tasks[|tasks| - 1];
      TaskErrors(s, tasks[..|tasks| - 1]) + DependencyErrors(s, TaskId(t), t.depends)
  }

  function ScopeOf(owner: map<string, string>, crossPhase: bool, p: Phase): Scope {
    Scope(owner, crossPhase, ExplicitIds(p.tasks), PhaseName(p))
  }

  function ReferenceErrors(owner: map<string, string>, crossPhase: bool, phases: seq<Phase>): seq<PlanError> {
    if phases == [] then [] else
      var p := phases[|phases| - 1];
      ReferenceErrors(owner, crossPhase, phases[..|phases| - 1]) + TaskErrors(ScopeOf(owner, crossPhase, p), p.tasks)
  }

  method CheckDependencies(s: Scope, task: string, deps: seq<string>) returns (errors: seq<PlanError>)
    ensures errors == DependencyErrors(s, task, deps)
  {
    errors := [];
    for i := 0 to |deps|
      invariant errors == DependencyErrors(s, task, deps[..i])
    {
      var dep := deps[i];
      assert deps[..i + 1][..i] == deps[..i];
      if dep !in s.owner {
        errors := errors + [UnknownDependency(s.phase, task, dep)];
      } else if !s.crossPhase && Some(dep) !in s.local {
        errors := errors + [CrossPhaseDependency(s.phase, task, dep, s.owner[dep])];
      }
    }
    assert deps[..|deps|] == deps;
  }

  // ---- Dependency graphs ----

  // A repeated id keeps its last dependency list, as a dictionary assignment does.
  function GraphOf(tasks: seq<Task>): Graph {
    if tasks == [] then map[] else
      var t := tasks[|tasks| - 1];
      GraphOf(tasks[..|tasks| - 1])[TaskId(t) := t.depends]
  }

  lemma {:induction false} GraphCoversIds(tasks: seq<Task>)
    ensures GraphOf(tasks).Keys == Elements(Ids(tasks))
  {
    if tasks != [] {
      var before := tasks[..|tasks| - 1];
      GraphCoversIds(before);
      assert Ids(tasks) == Ids(before) + [TaskId(tasks[|tasks| - 1])];
    }
  }

  lemma {:induction false} GraphOfUnique(tasks: seq<Task>, i: nat)
    requires Distinct(Ids(tasks)) && i < |tasks|
    ensures TaskId(tasks[i]) in GraphOf(tasks) && GraphOf(tasks)[TaskId(tasks[i])] == tasks[i].depends
  {
    var n := |tasks| - 1;
    var before := tasks[..n];
    assert Ids(tasks)[..n] == Ids(before);
    if i < n {
      GraphOfUnique(before, i);
      assert Ids(tasks)[i] != Ids(tasks)[n];
    }
  }

  // Builds the dictionary of dependency lists together with its insertion order.
  method BuildGraph(tasks: seq<Task>) returns (graph: Graph, order: seq<string>)
    ensures graph == GraphOf(tasks)
    ensures Elements(order) == graph.Keys
  {
    graph, order := map[], [];
    for i := 0 to |tasks|
      invariant graph == GraphOf(tasks[..i])
      invariant Elements(order) == graph.Keys
    {
      var tid := TaskId(tasks[i]);
      assert tasks[..i + 1][..i] == tasks[..i];
      if tid !in graph {
        order := order + [tid];
      }
      graph := graph[tid := tasks[i].depends];
    }
    assert tasks[..|tasks|] == tasks;
  }

  // Checks the references of one phase, task by task.
  method CheckTasks(scope: Scope, tasks: seq<Task>) returns (errors: seq<PlanError>)
    ensures errors == TaskErrors(scope, tasks)
  {
    errors := [];
    for j := 0 to |tasks|
      invariant errors == TaskErrors(scope, tasks[..j])
    {
      var found := CheckDependencies(scope, TaskId(tasks[j]), tasks[j].depends);
      errors := errors + found;
      assert tasks[..j + 1][..j] == tasks[..j];
    }
    assert tasks[..|tasks|] == tasks;
  }

  method CheckReferences(owner: map<string, string>, crossPhase: bool, phases: seq<Phase>)
    returns (errors: seq<PlanError>)
    ensures errors == ReferenceErrors(owner, crossPhase, phases)
  {
    errors := [];
    for i := 0 to |phases|
      invariant errors == ReferenceErrors(owner, crossPhase, phases[..i])
    {
      var p := phases[i];
      var scope := ScopeOf(owner, crossPhase, p);
      var found := CheckTasks(scope, p.tasks);
      errors := errors + found;
      assert phases[..i + 1][..i] == phases[..i];
    }
    assert phases[..|phases|] == phases;
  }

  // The error that a bad dependency of a task earns.
  predicate IsDependencyError(s: Scope, task: string, dep: string, e: PlanError) {
    || (dep !in s.owner && e == UnknownDependency(s.phase, task, dep))
    || (dep in s.owner && !s.crossPhase && Some(dep) !in s.local
        && e == CrossPhaseDependency(s.phase, task, dep, s.owner[dep]))
  }

  predicate HasDependencyError(s: Scope, t: Task, e: PlanError) {
    exists d | d in t.depends :: IsDependencyError(s, TaskId(t), d, e)
  }

  predicate HasTaskError(s: Scope, tasks: seq<Task>, e: PlanError) {
    exists t | t in tasks :: HasDependencyError(s, t, e)
  }

  lemma {:induction false} DependencyErrorsExact(s: Scope, task: string, deps: seq<string>, e: PlanError)
    ensures e in DependencyErrors(s, task, deps) <==> exists d | d in deps :: IsDependencyError(s, task, d, e)
  {
    if deps != [] {
      var n := |deps| - 1;
      DependencyErrorsExact(s, task, deps[..n], e);
      assert deps == deps[..n] + [deps[n]];
      assert e in DependencyError(s, task, deps[n]) <==> IsDependencyError(s, task, deps[n], e);
      assert deps[n] in deps && forall d | d in deps[..n] :: d in deps;
    }
  }

  lemma {:induction false} TaskErrorsExact(s: Scope, tasks: seq<Task>, e: PlanError)
    ensures e in TaskErrors(s, tasks) <==> HasTaskError(s, tasks, e)
  {
    if tasks != [] {
      var n := |tasks| - 1;
      TaskErrorsExact(s, tasks[..n], e);
      DependencyErrorsExact(s, TaskId(tasks[n]), tasks[n].depends, e);
      assert tasks == tasks[..n] + [tasks[n]];
      assert tasks[n] in tasks && forall t | t in tasks[..n] :: t in tasks;
    }
  }

  /** The reference errors are exactly those of the bad dependencies: an unknown id, or an id of another
      phase where that is forbidden, each with its phase, its task and the dependency. */
  lemma {:induction false} ReferenceErrorsExact(
    owner: map<string, string>, crossPhase: bool, phases: seq<Phase>, e: PlanError)
    ensures e in ReferenceErrors(owner, crossPhase, phases)
       <==> exists p | p in phases :: HasTaskError(ScopeOf(owner, crossPhase, p), p.tasks, e)
  {
    if phases != [] {
      var n := |phases| - 1;
      ReferenceErrorsExact(owner, crossPhase, phases[..n], e);
      TaskErrorsExact(ScopeOf(owner, crossPhase, phases[n]), phases[n].tasks, e);
      assert phases == phases[..n] + [phases[n]];
      assert phases[n] in phases && forall p | p in phases[..n] :: p in phases;
    }
  }

  lemma {:induction false} NoDependencyErrors(s: Scope, task: string, deps: seq<string>)
    ensures DependencyErrors(s, task, deps) == [] <==> forall d | d in deps :: GoodDependency(s, d)
  {
    if deps != [] {
      var n := |deps| - 1;
      NoDependencyErrors(s, task, deps[..n]);
      assert deps == deps[..n] + [deps[n]];
    }
  }

  predicate GoodTasks(s: Scope, tasks: seq<Task>) {
    forall t, d | t in tasks && d in t.depends :: GoodDependency(s, d)
  }

  lemma {:induction false} NoTaskErrors(s: Scope, tasks: seq<Task>)
    ensures TaskErrors(s, tasks) == [] <==> GoodTasks(s, tasks)
  {
    if tasks != [] {
      var n := |tasks| - 1;
      NoTaskErrors(s, tasks[..n]);
      NoDependencyErrors(s, TaskId(tasks[n]), tasks[n].depends);
      assert tasks == tasks[..n] + [tasks[n]];
    }
  }

  lemma {:induction false} NoReferenceErrors(owner: map<string, string>, crossPhase: bool, phases: seq<Phase>)
    ensures ReferenceErrors(owner, crossPhase, phases) == []
       <==> forall p | p in phases :: GoodTasks(ScopeOf(owner, crossPhase, p), p.tasks)
  {
    if phases != [] {
      var n := |phases| - 1;
      NoReferenceErrors(owner, crossPhase, phases[..n]);
      NoTaskErrors(ScopeOf(owner, crossPhase, phases[n]), phases[n].tasks);
      assert phases == phases[..n] + [phases[n]];
    }
  }

  // ---- Schedules are topological orders ----

  predicate DependenciesKnown(tasks: seq<Task>) {
    forall t, d | t in tasks && d in t.depends :: d in Ids(tasks)
  }

  lemma ScheduleIsTopologicalOrder(tasks: seq<Task>, order: seq<string>)
    requires Distinct(Ids(tasks))
    ensures Schedule(tasks, order) <==> DependenciesKnown(tasks) && TopologicalOrder(GraphOf(tasks), order)
  {
    GraphCoversIds(tasks);
    if Schedule(tasks, order) {
      ScheduleOrdersGraph(tasks, order);
    }
    if DependenciesKnown(tasks) && TopologicalOrder(GraphOf(tasks), order) {
      GraphOrderSchedules(tasks, order);
    }
  }

  lemma ScheduleOrdersGraph(tasks: seq<Task>, order: seq<string>)
    requires Distinct(Ids(tasks)) && Schedule(tasks, order)
    ensures DependenciesKnown(tasks) && DependenciesFirst(GraphOf(tasks), order)
  {
    GraphCoversIds(tasks);
    forall t, d | t in tasks && d in t.depends ensures d in Ids(tasks) {
      assert Before(order, d, TaskId(t));
      assert d in Elements(order);
    }
    var g := GraphOf(tasks);
    forall i | 0 <= i < |order|
      ensures order[i] in g && forall d | d in g[order[i]] && d in g :: d in order[..i]
    {
      assert order[i] in Elements(order);
      var k :| 0 <= k < |tasks| && Ids(tasks)[k] == order[i];
      GraphOfUnique(tasks, k);
      forall d | d in g[order[i]] && d in g ensures d in order[..i] {
        assert Before(order, d, TaskId(tasks[k]));
      }
    }
  }

  lemma GraphOrderSchedules(tasks: seq<Task>, order: seq<string>)
    requires Distinct(Ids(tasks)) && DependenciesKnown(tasks) && TopologicalOrder(GraphOf(tasks), order)
    ensures Schedule(tasks, order)
  {
    GraphCoversIds(tasks);
    forall t, d | t in tasks && d in t.depends ensures Before(order, d, TaskId(t)) {
      var k :| 0 <= k < |tasks| && tasks[k] == t;
      GraphOfUnique(tasks, k);
      assert Ids(tasks)[k] == TaskId(t);
      assert TaskId(t) in Elements(order);
      assert d in Elements(Ids(tasks));
      var j :| 0 <= j < |order| && order[j] == TaskId(t);
      assert d in order[..j];
    }
  }

  lemma DistinctParts(a: seq<string>, b: seq<string>)
    requires Distinct(a + b)
    ensures Distinct(a) && Distinct(b) && Elements(a) !! Elements(b)
  {
    var all := a + b;
    assert forall i | 0 <= i < |a| :: a[i] == all[i];
    assert forall j | 0 <= j < |b| :: b[j] == all[|a| + j];
    assert forall i, j | 0 <= i < |a| && 0 <= j < |b| :: a[i] != b[j];
  }

  lemma SplitUnique(phases: seq<Phase>)
    requires phases != [] && UniqueIds(phases)
    ensures UniqueIds(phases[..|phases| - 1]) && Distinct(Ids(phases[|phases| - 1].tasks))
    ensures Elements(Ids(AllTasks(phases[..|phases| - 1]))) !! Elements(Ids(phases[|phases| - 1].tasks))
  {
    var a := Ids(AllTasks(phases[..|phases| - 1]));
    var b := Ids(phases[|phases| - 1].tasks);
    assert Ids(AllTasks(phases)) == a + b;
    DistinctParts(a, b);
  }

  // Running the phases one after the other schedules the whole plan.
  lemma {:induction false} PhasedScheduleSchedules(phases: seq<Phase>, order: seq<string>)
    requires UniqueIds(phases) && PhasedSchedule(phases, order)
    ensures Schedule(AllTasks(phases), order)
  {
    if phases != [] {
      var n := |phases| - 1;
      var split :| 0 <= split <= |order|
        && PhasedSchedule(phases[..n], order[..split]) && Schedule(phases[n].tasks, order[split..]);
      SplitUnique(phases);
      PhasedScheduleSchedules(phases[..n], order[..split]);
      JoinSchedules(AllTasks(phases[..n]), phases[n].tasks, order[..split], order[split..]);
      assert order == order[..split] + order[split..];
    }
  }

  lemma JoinSchedules(a: seq<Task>, b: seq<Task>, first: seq<string>, second: seq<string>)
    requires Schedule(a, first) && Schedule(b, second)
    requires Elements(Ids(a)) !! Elements(Ids(b))
    ensures Schedule(a + b, first + second)
  {
    var order := first + second;
    forall i, j | 0 <= i < j < |order| ensures order[i] != order[j] {
      if i < |first| <= j {
        assert order[i] in Elements(first) && order[j] in Elements(second);
      }
    }
    assert Ids(a + b) == Ids(a) + Ids(b);
    assert Elements(order) == Elements(first) + Elements(second);
    assert Elements(Ids(a) + Ids(b)) == Elements(Ids(a)) + Elements(Ids(b));
    forall t, d | t in a + b && d in t.depends ensures Before(order, d, TaskId(t)) {
      if t in a {
        assert Before(first, d, TaskId(t));
        var i, j :| 0 <= i < j < |first| && first[i] == d && first[j] == TaskId(t);
        assert order[i] == d && order[j] == TaskId(t);
      } else {
        assert Before(second, d, TaskId(t));
        var i, j :| 0 <= i < j < |second| && second[i] == d && second[j] == TaskId(t);
        assert order[|first| + i] == d && order[|first| + j] == TaskId(t);
      }
    }
  }

  // Phase by phase: a phased schedule exists exactly piece by piece.
  lemma {:induction false} PhasedSchedulePieces(phases: seq<Phase>, order: seq<string>, k: nat)
    requires UniqueIds(phases) && PhasedSchedule(phases, order) && k < |phases|
    ensures Distinct(Ids(phases[k].tasks))
    ensures exists piece :: Schedule(phases[k].tasks, piece)
  {
    var n := |phases| - 1;
    var split :| 0 <= split <= |order|
      && PhasedSchedule(phases[..n], order[..split]) && Schedule(phases[n].tasks, order[split..]);
    SplitUnique(phases);
    if k < n {
      PhasedSchedulePieces(phases[..n], order[..split], k);
    }
  }

  // ---- The validator ----

  function CycleErrors(inPhase: Option<string>, walks: seq<seq<string>>): seq<PlanError> {
    seq(|walks|, i requires 0 <= i < |walks| => CircularDependency(inPhase, walks[i]))
  }

  // A cycle error shows a real cycle, of the whole plan or of the phase it names.
  ghost predicate ShowsCycle(phases: seq<Phase>, plan20: bool, e: PlanError) {
    && e.CircularDependency?
    && if plan20 then e.inPhase.None? && SimpleCycle(GraphOf(AllTasks(phases)), e.walk)
       else exists p | p in phases :: e.inPhase == Some(PhaseName(p)) && SimpleCycle(GraphOf(p.tasks), e.walk)
  }

  // A topological order of the next phase extends a schedule of the phases before it.
  lemma PhaseScheduled(phases: seq<Phase>, p: Phase, earlier: seq<string>, finished: seq<string>)
    requires UniqueIds(phases + [p]) && DependenciesKnown(p.tasks)
    requires UniqueIds(phases) ==> PhasedSchedule(phases, earlier)
    requires TopologicalOrder(GraphOf(p.tasks), finished)
    ensures PhasedSchedule(phases + [p], earlier + finished)
  {
    var all, order := phases + [p], earlier + finished;
    assert all[..|phases|] == phases;
    SplitUnique(all);
    ScheduleIsTopologicalOrder(p.tasks, finished);
    assert order[..|earlier|] == earlier && order[|earlier|..] == finished;
  }

  // The cycle errors of the phases in order, for the given walks of each phase.
  function PhaseCycleErrors(phases: seq<Phase>, walks: seq<seq<seq<string>>>): seq<PlanError>
    requires |walks| == |phases|
  {
    if phases == [] then []
    else
      var n := |phases| - 1;
      PhaseCycleErrors(phases[..n], walks[..n]) + CycleErrors(Some(PhaseName(phases[n])), walks[n])
  }

  // A full report of the cycles of each phase.
  ghost predicate PhaseWalks(phases: seq<Phase>, walks: seq<seq<seq<string>>>) {
    && |walks| == |phases|
    && forall i {:trigger CycleReport(GraphOf(phases[i].tasks), walks[i])} | 0 <= i < |phases| ::
      CycleReport(GraphOf(phases[i].tasks), walks[i])
  }

  ghost predicate PhaseReports(phases: seq<Phase>, errors: seq<PlanError>) {
    exists walks :: PhaseWalks(phases, walks) && errors == PhaseCycleErrors(phases, walks)
  }

  lemma PhaseWalksStep(phases: seq<Phase>, p: Phase, walks: seq<seq<seq<string>>>, found: seq<seq<string>>)
    requires PhaseWalks(phases, walks) && CycleReport(GraphOf(p.tasks), found)
    ensures PhaseWalks(phases + [p], walks + [found])
    ensures PhaseCycleErrors(phases + [p], walks + [found])
         == PhaseCycleErrors(phases, walks) + CycleErrors(Some(PhaseName(p)), found)
  {
    assert (phases + [p])[..|phases|] == phases && (walks + [found])[..|walks|] == walks;
  }

  // The cycle errors of a plan: one report for the whole graph, or one for each phase.
  ghost predicate CyclesReported(plan: Plan, errors: seq<PlanError>) {
    if IsPlan20(plan) then
      exists walks :: CycleReport(GraphOf(AllTasks(plan.phases)), walks) && errors == CycleErrors(None, walks)
    else PhaseReports(plan.phases, errors)
  }

  predicate NoWalks(walks: seq<seq<seq<string>>>) {
    forall w | w in walks :: w == []
  }

  lemma NoWalksFront(walks: seq<seq<seq<string>>>)
    requires walks != []
    ensures NoWalks(walks) <==> NoWalks(walks[..|walks| - 1]) && walks[|walks| - 1] == []
  {
    var front, last := walks[..|walks| - 1], walks[|walks| - 1];
    if NoWalks(walks) {
      assert forall w | w in front :: w in walks;
      assert last in walks;
    }
    if NoWalks(front) && last == [] {
      assert forall w | w in walks :: w in front || w == last;
    }
  }

  lemma {:induction false} NoPhaseCycleErrors(phases: seq<Phase>, walks: seq<seq<seq<string>>>)
    requires |walks| == |phases|
    ensures PhaseCycleErrors(phases, walks) == [] <==> NoWalks(walks)
  {
    if phases != [] {
      var n := |phases| - 1;
      NoPhaseCycleErrors(phases[..n], walks[..n]);
      NoWalksFront(walks);
      assert |CycleErrors(Some(PhaseName(phases[n])), walks[n])| == |walks[n]|;
    }
  }

  lemma AcyclicPhases(phases: seq<Phase>, walks: seq<seq<seq<string>>>)
    requires PhaseWalks(phases, walks)
    ensures NoWalks(walks) <==> forall p | p in phases :: Acyclic(GraphOf(p.tasks))
  {
    forall i | 0 <= i < |phases| ensures walks[i] == [] <==> Acyclic(GraphOf(phases[i].tasks)) {
      assert CycleReport(GraphOf(phases[i].tasks), walks[i]);
    }
    if forall p | p in phases :: Acyclic(GraphOf(p.tasks)) {
      forall i | 0 <= i < |walks| ensures walks[i] == [] {
        assert phases[i] in phases;
      }
    }
    if NoWalks(walks) {
      forall i | 0 <= i < |phases| ensures Acyclic(GraphOf(phases[i].tasks)) {
        assert walks[i] in walks;
      }
    }
  }

  lemma {:induction false} PhaseCyclesShown(phases: seq<Phase>, walks: seq<seq<seq<string>>>, e: PlanError)
    requires PhaseWalks(phases, walks) && e in PhaseCycleErrors(phases, walks)
    ensures ShowsCycle(phases, false, e)
  {
    var n := |phases| - 1;
    assert phases == phases[..n] + [phases[n]];
    if e in PhaseCycleErrors(phases[..n], walks[..n]) {
      PhaseCyclesShown(phases[..n], walks[..n], e);
    } else {
      assert CycleReport(GraphOf(phases[n].tasks), walks[n]);
      assert e.inPhase == Some(PhaseName(phases[n])) && phases[n] in phases;
    }
  }

  function Concatenated(orders: seq<seq<string>>): seq<string> {
    if orders == [] then [] else Concatenated(orders[..|orders| - 1]) + orders[|orders| - 1]
  }

  // A finishing order for each phase, topological when no cycle was found there.
  ghost predicate PhaseOrders(phases: seq<Phase>, walks: seq<seq<seq<string>>>, orders: seq<seq<string>>) {
    && |walks| == |phases| == |orders|
    && forall i | 0 <= i < |phases| && walks[i] == [] :: TopologicalOrder(GraphOf(phases[i].tasks), orders[i])
  }

  // Running the phases in their own orders, one after the other, is a schedule.
  lemma {:induction false} PhaseOrdersSchedule(
    phases: seq<Phase>, walks: seq<seq<seq<string>>>, orders: seq<seq<string>>)
    requires PhaseOrders(phases, walks, orders) && NoWalks(walks)
    requires UniqueIds(phases) && forall p | p in phases :: DependenciesKnown(p.tasks)
    ensures PhasedSchedule(phases, Concatenated(orders))
  {
    if phases != [] {
      var n := |phases| - 1;
      assert phases == phases[..n] + [phases[n]];
      NoWalksFront(walks);
      assert TopologicalOrder(GraphOf(phases[n].tasks), orders[n]);
      SplitUnique(phases);
      PhaseOrdersSchedule(phases[..n], walks[..n], orders[..n]);
      PhaseScheduled(phases[..n], phases[n], Concatenated(orders[..n]), orders[n]);
    }
  }

  method DetectInPhase(p: Phase)
    returns (errors: seq<PlanError>, ghost walks: seq<seq<string>>, ghost finished: seq<string>)
    ensures errors == CycleErrors(Some(PhaseName(p)), walks)
    ensures CycleReport(GraphOf(p.tasks), walks)
    ensures walks == [] ==> TopologicalOrder(GraphOf(p.tasks), finished)
  {
    var graph, keys := BuildGraph(p.tasks);
    var cycles;
    cycles, finished := DetectCycles(graph, keys);
    walks := cycles;
    errors := CycleErrors(Some(PhaseName(p)), cycles);
  }

  // Each phase of a 1.x plan is searched on its own.
  method DetectPerPhase(phases: seq<Phase>) returns (errors: seq<PlanError>, ghost order: seq<string>)
    ensures errors == [] <==> forall p | p in phases :: Acyclic(GraphOf(p.tasks))
    ensures forall e | e in errors :: ShowsCycle(phases, false, e)
    ensures PhaseReports(phases, errors)
    ensures errors == [] && UniqueIds(phases) && (forall p | p in phases :: DependenciesKnown(p.tasks))
        ==> PhasedSchedule(phases, order)
  {
    errors := [];
    ghost var all: seq<seq<seq<string>>> := [];
    ghost var orders: seq<seq<string>> := [];
    for i := 0 to |phases|
      invariant PhaseWalks(phases[..i], all) && errors == PhaseCycleErrors(phases[..i], all)
      invariant PhaseOrders(phases[..i], all, orders)
    {
      var p := phases[i];
      var found, walks, finished := DetectInPhase(p);
      errors := errors + found;
      assert phases[..i + 1] == phases[..i] + [p];
      PhaseWalksStep(phases[..i], p, all, walks);
      all, orders := all + [walks], orders + [finished];
    }
    assert phases[..|phases|] == phases;
    order := Concatenated(orders);
    NoPhaseCycleErrors(phases, all);
    AcyclicPhases(phases, all);
    forall e | e in errors ensures ShowsCycle(phases, false, e) {
      PhaseCyclesShown(phases, all, e);
    }
    if errors == [] && UniqueIds(phases) && forall p | p in phases :: DependenciesKnown(p.tasks) {
      PhaseOrdersSchedule(phases, all, orders);
    }
  }

  lemma {:induction false} AllTasksMembers(phases: seq<Phase>, t: Task)
    ensures t in AllTasks(phases) <==> exists p :: p in phases && t in p.tasks
  {
    if phases != [] {
      var n := |phases| - 1;
      AllTasksMembers(phases[..n], t);
      assert phases == phases[..n] + [phases[n]];
    }
  }

  lemma ExplicitIdsAreWritten(p: Phase, id: string)
    ensures Some(id) in ExplicitIds(p.tasks) <==> WrittenIn(p, id)
  {
  }

  lemma KnownAreOwned(phases: seq<Phase>, id: string)
    ensures id in Owners(Entries(phases)) <==> id in Ids(AllTasks(phases))
  {
    OwnersCoverIds(Entries(phases));
    EntriesAreTasks(phases);
    assert id in Elements(Ids(AllTasks(phases))) <==> id in Ids(AllTasks(phases));
  }

  // What the scope of a phase accepts, in terms of the plan.
  lemma GoodDependencyMeans(phases: seq<Phase>, crossPhase: bool, p: Phase, id: string)
    ensures GoodDependency(ScopeOf(Owners(Entries(phases)), crossPhase, p), id)
       <==> id in Ids(AllTasks(phases)) && (crossPhase || WrittenIn(p, id))
  {
    ExplicitIdsAreWritten(p, id);
    KnownAreOwned(phases, id);
  }

  // No reference error: every dependency is known, and for 1.x belongs to its own phase.
  lemma ReferencesAccepted(phases: seq<Phase>, crossPhase: bool)
    ensures ReferenceErrors(Owners(Entries(phases)), crossPhase, phases) == []
       <==> DependenciesKnown(AllTasks(phases)) && (crossPhase || IntraPhase(phases))
  {
    var owner := Owners(Entries(phases));
    NoReferenceErrors(owner, crossPhase, phases);
    if ReferenceErrors(owner, crossPhase, phases) == [] {
      forall t, d | t in AllTasks(phases) && d in t.depends ensures d in Ids(AllTasks(phases)) {
        AllTasksMembers(phases, t);
        var p :| p in phases && t in p.tasks;
        assert GoodDependency(ScopeOf(owner, crossPhase, p), d);
        GoodDependencyMeans(phases, crossPhase, p, d);
      }
      forall p, t, d | p in phases && t in p.tasks && d in t.depends ensures crossPhase || WrittenIn(p, d) {
        assert GoodDependency(ScopeOf(owner, crossPhase, p), d);
        GoodDependencyMeans(phases, crossPhase, p, d);
      }
    }
    if DependenciesKnown(AllTasks(phases)) && (crossPhase || IntraPhase(phases)) {
      forall p, t, d | p in phases && t in p.tasks && d in t.depends
        ensures GoodDependency(ScopeOf(owner, crossPhase, p), d)
      {
        AllTasksMembers(phases, t);
        GoodDependencyMeans(phases, crossPhase, p, d);
      }
    }
  }

  lemma IntraPhaseKnown(phases: seq<Phase>, p: Phase)
    requires IntraPhase(phases) && p in phases
    ensures DependenciesKnown(p.tasks)
  {
    forall t, d | t in p.tasks && d in t.depends ensures d in Ids(p.tasks) {
      var u :| u in p.tasks && u.id == Some(d);
      var k :| 0 <= k < |p.tasks| && p.tasks[k] == u;
      assert Ids(p.tasks)[k] == d;
    }
  }

  lemma AcceptedPlansAreAcyclic(plan: Plan, order: seq<string>)
    requires Accepts(plan, order)
    ensures DependenciesKnown(AllTasks(plan.phases))
    ensures Acyclic(GraphOf(AllTasks(plan.phases)))
    ensures !IsPlan20(plan) ==> forall p | p in plan.phases :: Acyclic(GraphOf(p.tasks))
  {
    var tasks := AllTasks(plan.phases);
    ScheduleIsTopologicalOrder(tasks, order);
    TopologicalOrderImpliesAcyclic(GraphOf(tasks), order);
    if !IsPlan20(plan) {
      forall p | p in plan.phases ensures Acyclic(GraphOf(p.tasks)) {
        var k :| 0 <= k < |plan.phases| && plan.phases[k] == p;
        PhasedSchedulePieces(plan.phases, order, k);
        var piece :| Schedule(p.tasks, piece);
        ScheduleIsTopologicalOrder(p.tasks, piece);
        TopologicalOrderImpliesAcyclic(GraphOf(p.tasks), piece);
      }
    }
  }

  /** Collects every semantic error of a plan. A plan is accepted exactly when its ids are unique
      and its tasks can be put in one order that respects every dependency; for schema 1.x that
      order also runs phase by phase, with dependencies confined to their phase. */
  method ValidateSemantic(plan: Plan) returns (errors: seq<PlanError>, ghost schedule: seq<string>)
    ensures errors == [] ==> Accepts(plan, schedule)
    ensures (exists order :: Accepts(plan, order)) ==> errors == []
    ensures DuplicateErrors(Entries(plan.phases))
      + ReferenceErrors(Owners(Entries(plan.phases)), IsPlan20(plan), plan.phases) <= errors
    ensures forall e | e in errors[|DuplicateErrors(Entries(plan.phases))
      + ReferenceErrors(Owners(Entries(plan.phases)), IsPlan20(plan), plan.phases)|..] ::
      ShowsCycle(plan.phases, IsPlan20(plan), e)
    ensures CyclesReported(plan, errors[|DuplicateErrors(Entries(plan.phases))
      + ReferenceErrors(Owners(Entries(plan.phases)), IsPlan20(plan), plan.phases)|..])
  {
    var phases := plan.phases;
    var plan20 := IsPlan20(plan);
    var owner, duplicates := CollectTaskIds(phases);
    var references := CheckReferences(owner, plan20, phases);
    NoDuplicateErrors(Entries(phases));
    EntriesAreTasks(phases);
    ReferencesAccepted(phases, plan20);
    var tasks := AllTasks(phases);
    var cycles: seq<PlanError>;
    if plan20 {
      var graph, keys := BuildGraph(tasks);
      var walks;
      walks, schedule := DetectCycles(graph, keys);
      cycles := CycleErrors(None, walks);
    } else {
      cycles, schedule := DetectPerPhase(phases);
    }
    errors := duplicates + references + cycles;
    assert errors[|duplicates + references|..] == cycles;
    if errors == [] {
      if plan20 {
        ScheduleIsTopologicalOrder(tasks, schedule);
      } else {
        forall p | p in phases ensures DependenciesKnown(p.tasks) {
          IntraPhaseKnown(phases, p);
        }
        PhasedScheduleSchedules(phases, schedule);
      }
    }
    forall order | Accepts(plan, order) ensures errors == [] {
      AcceptedPlansAreAcyclic(plan, order);
    }
  }
}
