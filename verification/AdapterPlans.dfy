/** The validators that ship with the adapter: execution plans whose dependencies stay inside a phase,
    checked phase by phase, and grinder plans, whose batches form one graph over all passes. */
module AdapterPlans {
  import opened Options
  import opened Sequences
  import opened DependencyGraphs
  import opened CycleDetection
  import opened PlanSemantics

  // A schema 1.x plan with the given phases.
  function LegacyPlan(phases: seq<Phase>): Plan {
    Plan(None, phases)
  }

  predicate PhaseClean(owner: map<string, string>, p: Phase) {
    TaskErrors(ScopeOf(owner, false, p), p.tasks) == []
  }

  // The errors of the phases in order: for each its reference errors, then its cycles.
  function PhaseErrors(owner: map<string, string>, phases: seq<Phase>, walks: seq<seq<seq<string>>>): seq<PlanError>
    requires |walks| == |phases|
  {
    if phases == [] then []
    else
      var n := |phases| - 1;
      var p := phases[n];
      PhaseErrors(owner, phases[..n], walks[..n])
      + (TaskErrors(ScopeOf(owner, false, p), p.tasks) + CycleErrors(Some(PhaseName(p)), walks[n]))
  }

  ghost predicate PhaseFindings(owner: map<string, string>, phases: seq<Phase>, errors: seq<PlanError>) {
    exists walks :: PhaseWalks(phases, walks) && errors == PhaseErrors(owner, phases, walks)
  }

  lemma PhaseErrorsStep(
    owner: map<string, string>, phases: seq<Phase>, p: Phase, walks: seq<seq<seq<string>>>, found: seq<seq<string>>)
    requires |walks| == |phases|
    ensures PhaseErrors(owner, phases + [p], walks + [found])
         == PhaseErrors(owner, phases, walks)
            + (TaskErrors(ScopeOf(owner, false, p), p.tasks) + CycleErrors(Some(PhaseName(p)), found))
  {
    assert (phases + [p])[..|phases|] == phases && (walks + [found])[..|walks|] == walks;
  }

  lemma {:induction false} NoPhaseErrors(owner: map<string, string>, phases: seq<Phase>, walks: seq<seq<seq<string>>>)
    requires |walks| == |phases|
    ensures PhaseErrors(owner, phases, walks) == []
       <==> (forall p | p in phases :: PhaseClean(owner, p)) && NoWalks(walks)
  {
    if phases != [] {
      var n := |phases| - 1;
      NoPhaseErrors(owner, phases[..n], walks[..n]);
      assert phases[n] in phases && forall p | p in phases[..n] :: p in phases;
      assert forall p | p in phases :: p in phases[..n] || p == phases[n];
      NoWalksFront(walks);
      assert |CycleErrors(Some(PhaseName(phases[n])), walks[n])| == |walks[n]|;
    }
  }

  // What the check knows after the given phases.
  ghost predicate Checked(
    owner: map<string, string>, phases: seq<Phase>, walks: seq<seq<seq<string>>>, orders: seq<seq<string>>,
    errors: seq<PlanError>)
  {
    && PhaseWalks(phases, walks)
    && PhaseOrders(phases, walks, orders)
    && errors == PhaseErrors(owner, phases, walks)
  }

  lemma CheckedStep(
    owner: map<string, string>, phases: seq<Phase>, walks: seq<seq<seq<string>>>, orders: seq<seq<string>>,
    errors: seq<PlanError>, p: Phase, found: seq<seq<string>>, finished: seq<string>)
    requires Checked(owner, phases, walks, orders, errors) && CycleReport(GraphOf(p.tasks), found)
    requires found == [] ==> TopologicalOrder(GraphOf(p.tasks), finished)
    ensures Checked(owner, phases + [p], walks + [found], orders + [finished],
              errors + (TaskErrors(ScopeOf(owner, false, p), p.tasks) + CycleErrors(Some(PhaseName(p)), found)))
  {
    PhaseWalksStep(phases, p, walks, found);
    PhaseErrorsStep(owner, phases, p, walks, found);
  }

  lemma CheckedOutcome(
    owner: map<string, string>, phases: seq<Phase>, walks: seq<seq<seq<string>>>, orders: seq<seq<string>>,
    errors: seq<PlanError>)
    requires Checked(owner, phases, walks, orders, errors)
    ensures PhaseFindings(owner, phases, errors)
    ensures errors == [] <==> forall p | p in phases :: PhaseClean(owner, p) && Acyclic(GraphOf(p.tasks))
    ensures errors == [] && UniqueIds(phases) && (forall p | p in phases :: DependenciesKnown(p.tasks))
        ==> PhasedSchedule(phases, Concatenated(orders))
  {
    NoPhaseErrors(owner, phases, walks);
    AcyclicPhases(phases, walks);
    if errors == [] && UniqueIds(phases) && forall p | p in phases :: DependenciesKnown(p.tasks) {
      PhaseOrdersSchedule(phases, walks, orders);
    }
  }

  // One phase: its references, then its cycles.
  method CheckPhase(owner: map<string, string>, p: Phase)
    returns (errors: seq<PlanError>, ghost walks: seq<seq<string>>, ghost finished: seq<string>)
    ensures errors == TaskErrors(ScopeOf(owner, false, p), p.tasks) + CycleErrors(Some(PhaseName(p)), walks)
    ensures CycleReport(GraphOf(p.tasks), walks)
    ensures walks == [] ==> TopologicalOrder(GraphOf(p.tasks), finished)
  {
    var references := CheckTasks(ScopeOf(owner, false, p), p.tasks);
    var cycles;
    cycles, walks, finished := DetectInPhase(p);
    errors := references + cycles;
  }

  // References and cycles are reported together, one phase after the other.
  method CheckPhases(owner: map<string, string>, phases: seq<Phase>)
    returns (errors: seq<PlanError>, ghost order: seq<string>)
    ensures PhaseFindings(owner, phases, errors)
    ensures errors == [] <==> forall p | p in phases :: PhaseClean(owner, p) && Acyclic(GraphOf(p.tasks))
    ensures errors == [] && UniqueIds(phases) && (forall p | p in phases :: DependenciesKnown(p.tasks))
        ==> PhasedSchedule(phases, order)
  {
    errors := [];
    ghost var all: seq<seq<seq<string>>> := [];
    ghost var orders: seq<seq<string>> := [];
    for i := 0 to |phases|
      invariant Checked(owner, phases[..i], all, orders, errors)
    {
      var p := phases[i];
      var found, walks, finished := CheckPhase(owner, p);
      assert phases[..i + 1] == phases[..i] + [p];
      CheckedStep(owner, phases[..i], all, orders, errors, p, walks, finished);
      errors := errors + found;
      all, orders := all + [walks], orders + [finished];
    }
    assert phases[..|phases|] == phases;
    order := Concatenated(orders);
    CheckedOutcome(owner, phases, all, orders, errors);
  }

  /** An execution plan passes exactly when it passes the dashboard's rules for schema 1.x. */
  method ValidateExecutionPlan(phases: seq<Phase>) returns (errors: seq<PlanError>, ghost schedule: seq<string>)
    ensures DuplicateErrors(Entries(phases)) <= errors
    ensures PhaseFindings(Owners(Entries(phases)), phases, errors[|DuplicateErrors(Entries(phases))|..])
    ensures errors == [] ==> Accepts(LegacyPlan(phases), schedule)
    ensures (exists order :: Accepts(LegacyPlan(phases), order)) ==> errors == []
  {
    var owner, duplicates := CollectTaskIds(phases);
    var found;
    found, schedule := CheckPhases(owner, phases);
    errors := duplicates + found;
    assert errors[|duplicates|..] == found;
    NoDuplicateErrors(Entries(phases));
    EntriesAreTasks(phases);
    PhasesClean(phases, owner);
    if errors == [] {
      forall p | p in phases ensures DependenciesKnown(p.tasks) {
        IntraPhaseKnown(phases, p);
      }
      PhasedScheduleSchedules(phases, schedule);
    }
    forall order | Accepts(LegacyPlan(phases), order) ensures errors == [] {
      AcceptedPlansAreAcyclic(LegacyPlan(phases), order);
    }
  }

  lemma PhasesClean(phases: seq<Phase>, owner: map<string, string>)
    requires owner == Owners(Entries(phases))
    ensures (forall p | p in phases :: PhaseClean(owner, p))
       <==> DependenciesKnown(AllTasks(phases)) && IntraPhase(phases)
  {
    ReferencesAccepted(phases, false);
    NoReferenceErrors(owner, false, phases);
    forall p | p in phases
      ensures PhaseClean(owner, p) <==> GoodTasks(ScopeOf(owner, false, p), p.tasks)
    {
      NoTaskErrors(ScopeOf(owner, false, p), p.tasks);
    }
  }

  /** A grinder plan, with passes for phases and batches for tasks, passes exactly when its batch ids are
      unique and one order of all batches respects every dependency, whichever pass it points to. */
  method ValidateGrinderPlan(passes: seq<Phase>) returns (errors: seq<PlanError>, ghost schedule: seq<string>)
    ensures exists walks ::
      && CycleReport(GraphOf(AllTasks(passes)), walks)
      && errors == DuplicateErrors(Entries(passes))
           + ReferenceErrors(Owners(Entries(passes)), true, passes) + CycleErrors(None, walks)
    ensures errors == [] ==> UniqueIds(passes) && Schedule(AllTasks(passes), schedule)
    ensures UniqueIds(passes) && (exists order :: Schedule(AllTasks(passes), order)) ==> errors == []
  {
    var owner, duplicates := CollectTaskIds(passes);
    var references := CheckReferences(owner, true, passes);
    var graph, keys := BuildGraph(AllTasks(passes));
    var walks;
    walks, schedule := DetectCycles(graph, keys);
    errors := duplicates + references + CycleErrors(None, walks);
    NoDuplicateErrors(Entries(passes));
    EntriesAreTasks(passes);
    ReferencesAccepted(passes, true);
    if errors == [] {
      ScheduleIsTopologicalOrder(AllTasks(passes), schedule);
    }
    forall order | UniqueIds(passes) && Schedule(AllTasks(passes), order) ensures errors == [] {
      ScheduleIsTopologicalOrder(AllTasks(passes), order);
      TopologicalOrderImpliesAcyclic(GraphOf(AllTasks(passes)), order);
    }
  }
}
