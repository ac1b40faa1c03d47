/** How the dashboard's total compares with the cost summary's total on one canonical stream. */
module CostAgreement {
  import opened Options
  import opened Totals
  import opened CostAttribution

  // ---- The two totals ----

  ghost function PhaseTotals(costs: map<string, SessionCosts>): map<string, real> {
    map p | p in costs :: Total(costs[p])
  }

  ghost function DashboardTotal(costs: map<string, SessionCosts>): real {
    Total(PhaseTotals(costs))
  }

  function PipelineCost(s: Session): real {
    if s.phase == PRE_PIPELINE then 0.0 else s.cost
  }

  ghost function PipelineCosts(sessions: map<string, Session>): map<string, real> {
    map k | k in sessions :: PipelineCost(sessions[k])
  }

  // The summary's total less the sessions it files under "(pre-pipeline)".
  ghost function PipelineTotal(sessions: map<string, Session>): real {
    Total(PipelineCosts(sessions))
  }

  lemma DashboardTotalUpdate(costs: map<string, SessionCosts>, phase: string, after: SessionCosts)
    ensures DashboardTotal(costs[phase := after])
         == DashboardTotal(costs) - (if phase in costs then Total(costs[phase]) else 0.0) + Total(after)
  {
    assert PhaseTotals(costs[phase := after]) == PhaseTotals(costs)[phase := Total(after)];
    TotalUpdate(PhaseTotals(costs), phase, Total(after));
  }

  lemma PipelineTotalUpdate(sessions: map<string, Session>, key: string, after: Session)
    ensures PipelineTotal(sessions[key := after])
         == PipelineTotal(sessions) - (if key in sessions then PipelineCost(sessions[key]) else 0.0)
            + PipelineCost(after)
  {
    assert PipelineCosts(sessions[key := after]) == PipelineCosts(sessions)[key := PipelineCost(after)];
    TotalUpdate(PipelineCosts(sessions), key, PipelineCost(after));
  }

  // ---- Canonical streams ----

  // The phase in which an event arrives.
  function PhaseAt(events: seq<Event>, i: nat): string
    requires i <= |events|
  {
    SummaryOf(events[..i]).current
  }

  predicate CanonicalEvent(normalize: string -> string, current: string, e: Event) {
    match e
    case PhaseEvent(name, status) =>
      name !in {"", PRE_PIPELINE} && normalize(name) == name && (status == Some("running") || name == current)
    case Result(session, cost) => session != "" && GetOr(cost, 0.0) >= 0.0
    case Other => true
  }

  /** Every phase is opened by a running event and named in its normal form, every result carries a
      session id, and no cost is negative. */
  ghost predicate Canonical(normalize: string -> string, events: seq<Event>) {
    forall i | 0 <= i < |events| :: CanonicalEvent(normalize, PhaseAt(events, i), events[i])
  }

  lemma CanonicalPrefix(normalize: string -> string, events: seq<Event>)
    requires Canonical(normalize, events) && events != []
    ensures Canonical(normalize, events[..|events| - 1])
    ensures CanonicalEvent(normalize, PhaseAt(events, |events| - 1), events[|events| - 1])
  {
    var front := events[..|events| - 1];
    forall i | 0 <= i < |front| ensures CanonicalEvent(normalize, PhaseAt(front, i), front[i]) {
      assert front[..i] == events[..i];
      assert CanonicalEvent(normalize, PhaseAt(events, i), events[i]);
    }
  }

  // ---- What the two readings have in common ----

  predicate Recorded(costs: map<string, SessionCosts>, phase: string, key: string) {
    phase in costs && key in costs[phase]
  }

  ghost predicate HoldsFullCost(costs: map<string, SessionCosts>, key: string, cost: real) {
    exists p :: Recorded(costs, p, key) && costs[p][key] == cost
  }

  ghost predicate SamePlace(d: Dashboard, s: Summary) {
    && PRE_PIPELINE !in d.costs
    && (if s.current == PRE_PIPELINE then d == EMPTY_DASHBOARD
        else d.current == Some(s.current) && s.current in d.costs)
  }

  ghost predicate WithinSession(d: Dashboard, s: Summary) {
    forall p, k | Recorded(d.costs, p, k) ::
      k in s.sessions && 0.0 < d.costs[p][k] <= s.sessions[k].cost
  }

  ghost predicate SessionsFiled(d: Dashboard, s: Summary) {
    forall k | k in s.sessions ::
      && s.sessions[k].cost >= 0.0
      && (s.current == PRE_PIPELINE ==> s.sessions[k].phase == PRE_PIPELINE)
      && (s.sessions[k].phase != PRE_PIPELINE && s.sessions[k].cost > 0.0 ==>
            HoldsFullCost(d.costs, k, s.sessions[k].cost))
  }

  ghost predicate Agree(d: Dashboard, s: Summary) {
    SamePlace(d, s) && WithinSession(d, s) && SessionsFiled(d, s)
  }

  // A session with cost in this phase also has cost in another one, or began before any phase.
  ghost predicate ChargedTwice(d: Dashboard, s: Summary, p: string, k: string) {
    && Recorded(d.costs, p, k)
    && ((k in s.sessions && s.sessions[k].phase == PRE_PIPELINE)
        || exists q :: Recorded(d.costs, q, k) && q != p)
  }

  ghost predicate Overlap(d: Dashboard, s: Summary) {
    exists p, k :: ChargedTwice(d, s, p, k)
  }

  ghost function Surplus(d: Dashboard, s: Summary): real {
    DashboardTotal(d.costs) - PipelineTotal(s.sessions)
  }

  ghost predicate SurplusIsOverlap(d: Dashboard, s: Summary) {
    Surplus(d, s) >= 0.0 && (Surplus(d, s) > 0.0 <==> Overlap(d, s))
  }

  // ---- One event ----

  // A phase event records nothing, though it may open an empty phase.
  lemma PhaseRecordsNothing(normalize: string -> string, d: Dashboard, e: Event, p: string, k: string)
    requires e.PhaseEvent?
    ensures var after := DashboardStep(d, normalize, e).costs;
      && (Recorded(after, p, k) <==> Recorded(d.costs, p, k))
      && (Recorded(after, p, k) ==> after[p][k] == d.costs[p][k])
  {
  }

  lemma PhaseKeepsAgreement(normalize: string -> string, d: Dashboard, s: Summary, e: Event)
    requires Agree(d, s) && e.PhaseEvent? && CanonicalEvent(normalize, s.current, e)
    ensures Agree(DashboardStep(d, normalize, e), SummaryStep(s, e))
  {
    var d', s' := DashboardStep(d, normalize, e), SummaryStep(s, e);
    forall p, k | Recorded(d'.costs, p, k)
      ensures k in s'.sessions && 0.0 < d'.costs[p][k] <= s'.sessions[k].cost
    {
      PhaseRecordsNothing(normalize, d, e, p, k);
    }
    forall k | k in s.sessions && HoldsFullCost(d.costs, k, s.sessions[k].cost)
      ensures HoldsFullCost(d'.costs, k, s.sessions[k].cost)
    {
      var p :| Recorded(d.costs, p, k) && d.costs[p][k] == s.sessions[k].cost;
      PhaseRecordsNothing(normalize, d, e, p, k);
    }
  }

  lemma PhaseKeepsOverlap(normalize: string -> string, d: Dashboard, s: Summary, e: Event, p: string, k: string)
    requires e.PhaseEvent?
    ensures ChargedTwice(d, s, p, k) <==> ChargedTwice(DashboardStep(d, normalize, e), SummaryStep(s, e), p, k)
  {
    forall q ensures Recorded(d.costs, q, k) <==> Recorded(DashboardStep(d, normalize, e).costs, q, k) {
      PhaseRecordsNothing(normalize, d, e, q, k);
    }
  }

  lemma PhaseKeepsSurplus(normalize: string -> string, d: Dashboard, s: Summary, e: Event)
    requires SurplusIsOverlap(d, s) && e.PhaseEvent?
    ensures SurplusIsOverlap(DashboardStep(d, normalize, e), SummaryStep(s, e))
  {
    var d', s' := DashboardStep(d, normalize, e), SummaryStep(s, e);
    var phase := normalize(e.name);
    if phase !in d.costs {
      DashboardTotalUpdate(d.costs, phase, map[]);
    }
    forall p, k ensures ChargedTwice(d, s, p, k) <==> ChargedTwice(d', s', p, k) {
      PhaseKeepsOverlap(normalize, d, s, e, p, k);
    }
  }

  lemma ResultKeepsAgreement(normalize: string -> string, d: Dashboard, s: Summary, e: Event)
    requires Agree(d, s) && e.Result? && CanonicalEvent(normalize, s.current, e)
    ensures Agree(DashboardStep(d, normalize, e), SummaryStep(s, e))
  {
    var d', s' := DashboardStep(d, normalize, e), SummaryStep(s, e);
    forall p, k | Recorded(d'.costs, p, k)
      ensures k in s'.sessions && 0.0 < d'.costs[p][k] <= s'.sessions[k].cost
    {
      if !(p == s.current && k == e.session) {
        assert Recorded(d.costs, p, k) && d'.costs[p][k] == d.costs[p][k];
      } else if d'.costs[p] == d.costs[p] {
        assert Recorded(d.costs, p, k);
      }
    }
    forall k | k in s'.sessions && s'.sessions[k].phase != PRE_PIPELINE && s'.sessions[k].cost > 0.0
      ensures HoldsFullCost(d'.costs, k, s'.sessions[k].cost)
    {
      if k in s.sessions && s'.sessions[k] == s.sessions[k] {
        var p :| Recorded(d.costs, p, k) && d.costs[p][k] == s.sessions[k].cost;
        assert p == s.current ==> e.session == k ==> GetOr(e.cost, 0.0) <= d.costs[p][k];
        assert Recorded(d'.costs, p, k) && d'.costs[p][k] == s.sessions[k].cost;
      } else {
        assert Recorded(d'.costs, s.current, k);
        assert d'.costs[s.current][k] == s'.sessions[k].cost;
      }
    }
  }

  // How much one result adds to each total.
  lemma ResultAdds(normalize: string -> string, d: Dashboard, s: Summary, e: Event)
    requires Agree(d, s) && e.Result? && CanonicalEvent(normalize, s.current, e) && s.current != PRE_PIPELINE
    ensures var prior := Get(d.costs[s.current], e.session);
            var cost := GetOr(e.cost, 0.0);
            DashboardTotal(DashboardStep(d, normalize, e).costs)
            == DashboardTotal(d.costs) + (if cost > prior then cost - prior else 0.0)
    ensures var cost := GetOr(e.cost, 0.0);
            PipelineTotal(SummaryStep(s, e).sessions) == PipelineTotal(s.sessions)
              + (if e.session !in s.sessions then cost
                 else if s.sessions[e.session].phase == PRE_PIPELINE then 0.0
                 else if cost > s.sessions[e.session].cost then cost - s.sessions[e.session].cost
                 else 0.0)
  {
    var d', s' := DashboardStep(d, normalize, e), SummaryStep(s, e);
    var here := d.costs[s.current];
    DashboardTotalUpdate(d.costs, s.current, d'.costs[s.current]);
    if e.cost.Some? {
      TotalUpdate(here, e.session, e.cost.value);
    }
    PipelineTotalUpdate(s.sessions, e.session, s'.sessions[e.session]);
  }

  lemma OverlapGrows(normalize: string -> string, d: Dashboard, s: Summary, e: Event)
    requires Agree(d, s) && e.Result? && CanonicalEvent(normalize, s.current, e) && Overlap(d, s)
    ensures Overlap(DashboardStep(d, normalize, e), SummaryStep(s, e))
  {
    var d', s' := DashboardStep(d, normalize, e), SummaryStep(s, e);
    var p, k :| ChargedTwice(d, s, p, k);
    if !(s.sessions[k].phase == PRE_PIPELINE) {
      var q :| Recorded(d.costs, q, k) && q != p;
      assert Recorded(d'.costs, q, k);
    }
    assert ChargedTwice(d', s', p, k);
  }

  // A fresh overlap comes from this very result, the first one with a cost for its session here.
  lemma NewOverlap(normalize: string -> string, d: Dashboard, s: Summary, e: Event)
    requires Agree(d, s) && e.Result? && CanonicalEvent(normalize, s.current, e) && s.current != PRE_PIPELINE
    requires !Overlap(d, s)
    ensures var cost := GetOr(e.cost, 0.0);
            Overlap(DashboardStep(d, normalize, e), SummaryStep(s, e)) <==>
              && cost > Get(d.costs[s.current], e.session)
              && e.session in s.sessions
              && (s.sessions[e.session].phase == PRE_PIPELINE
                  || s.sessions[e.session].cost > Get(d.costs[s.current], e.session))
  {
    var d', s' := DashboardStep(d, normalize, e), SummaryStep(s, e);
    var cost, prior, here, key := GetOr(e.cost, 0.0), Get(d.costs[s.current], e.session), s.current, e.session;
    if cost > prior && key in s.sessions {
      assert Recorded(d'.costs, here, key);
      if s.sessions[key].phase == PRE_PIPELINE {
        assert ChargedTwice(d', s', here, key);
      } else if s.sessions[key].cost > prior {
        var q :| Recorded(d.costs, q, key) && d.costs[q][key] == s.sessions[key].cost;
        assert q != here && Recorded(d'.costs, q, key);
        assert ChargedTwice(d', s', here, key);
      }
    }
    if Overlap(d', s') {
      var p, k :| ChargedTwice(d', s', p, k);
      if k != key {
        UntouchedOverlap(normalize, d, s, e, p, k);
      } else if cost <= prior {
        assert d'.costs == d.costs;
        UntouchedOverlap(normalize, d, s, e, p, k);
      } else if key !in s.sessions {
        assert forall q :: !Recorded(d.costs, q, key);
        assert forall q :: Recorded(d'.costs, q, key) ==> q == here;
      } else if s.sessions[key].phase != PRE_PIPELINE && s.sessions[key].cost <= prior {
        var q :| Recorded(d'.costs, q, k) && q != p;
        assert q == here || Recorded(d.costs, q, k);
        assert p == here || Recorded(d.costs, p, k);
        assert Recorded(d.costs, here, key);
        UntouchedOverlap(normalize, d, s, e, p, k);
      }
    }
  }

  lemma UntouchedOverlap(normalize: string -> string, d: Dashboard, s: Summary, e: Event, p: string, k: string)
    requires Agree(d, s) && e.Result? && CanonicalEvent(normalize, s.current, e)
    requires ChargedTwice(DashboardStep(d, normalize, e), SummaryStep(s, e), p, k)
    requires forall q :: Recorded(DashboardStep(d, normalize, e).costs, q, k) ==> Recorded(d.costs, q, k)
    ensures ChargedTwice(d, s, p, k)
  {
    var d', s' := DashboardStep(d, normalize, e), SummaryStep(s, e);
    assert forall q :: Recorded(d'.costs, q, k) <==> Recorded(d.costs, q, k);
    assert k in s.sessions && s'.sessions[k].phase == s.sessions[k].phase;
    if s.sessions[k].phase != PRE_PIPELINE {
      var q :| Recorded(d'.costs, q, k) && q != p;
      assert Recorded(d.costs, q, k);
    }
  }

  lemma EarlyResultKeepsSurplus(normalize: string -> string, d: Dashboard, s: Summary, e: Event)
    requires Agree(d, s) && SurplusIsOverlap(d, s) && e.Result? && CanonicalEvent(normalize, s.current, e)
    requires s.current == PRE_PIPELINE
    ensures SurplusIsOverlap(DashboardStep(d, normalize, e), SummaryStep(s, e))
  {
    var s' := SummaryStep(s, e);
    PipelineTotalUpdate(s.sessions, e.session, s'.sessions[e.session]);
    assert DashboardStep(d, normalize, e) == d == EMPTY_DASHBOARD;
  }

  lemma SurplusKept(normalize: string -> string, d: Dashboard, s: Summary, e: Event)
    requires Agree(d, s) && SurplusIsOverlap(d, s) && e.Result? && CanonicalEvent(normalize, s.current, e)
    requires s.current != PRE_PIPELINE && Overlap(d, s)
    ensures SurplusIsOverlap(DashboardStep(d, normalize, e), SummaryStep(s, e))
  {
    ResultAdds(normalize, d, s, e);
    OverlapGrows(normalize, d, s, e);
    PriorWithinSession(d, s, e.session);
  }

  lemma FreshSurplus(normalize: string -> string, d: Dashboard, s: Summary, e: Event)
    requires Agree(d, s) && SurplusIsOverlap(d, s) && e.Result? && CanonicalEvent(normalize, s.current, e)
    requires s.current != PRE_PIPELINE && !Overlap(d, s)
    ensures SurplusIsOverlap(DashboardStep(d, normalize, e), SummaryStep(s, e))
  {
    ResultAdds(normalize, d, s, e);
    NewOverlap(normalize, d, s, e);
    PriorWithinSession(d, s, e.session);
  }

  lemma PriorWithinSession(d: Dashboard, s: Summary, key: string)
    requires Agree(d, s) && s.current != PRE_PIPELINE
    ensures 0.0 <= Get(d.costs[s.current], key) <= if key in s.sessions then s.sessions[key].cost else 0.0
  {
    assert key in d.costs[s.current] ==> Recorded(d.costs, s.current, key);
  }

  lemma ResultKeepsSurplus(normalize: string -> string, d: Dashboard, s: Summary, e: Event)
    requires Agree(d, s) && SurplusIsOverlap(d, s) && e.Result? && CanonicalEvent(normalize, s.current, e)
    ensures SurplusIsOverlap(DashboardStep(d, normalize, e), SummaryStep(s, e))
  {
    if s.current == PRE_PIPELINE {
      EarlyResultKeepsSurplus(normalize, d, s, e);
    } else if Overlap(d, s) {
      SurplusKept(normalize, d, s, e);
    } else {
      FreshSurplus(normalize, d, s, e);
    }
  }

  lemma {:induction false} ReadingsAgree(normalize: string -> string, events: seq<Event>)
    requires Canonical(normalize, events)
    ensures Agree(DashboardOf(normalize, events), SummaryOf(events))
    ensures SurplusIsOverlap(DashboardOf(normalize, events), SummaryOf(events))
  {
    if events == [] {
      assert PhaseTotals(map[]) == map[];
    } else {
      var n := |events| - 1;
      CanonicalPrefix(normalize, events);
      ReadingsAgree(normalize, events[..n]);
      var d, s, e := DashboardOf(normalize, events[..n]), SummaryOf(events[..n]), events[n];
      match e
      case PhaseEvent(_, _) =>
        PhaseKeepsAgreement(normalize, d, s, e);
        PhaseKeepsSurplus(normalize, d, s, e);
      case Result(_, _) =>
        ResultKeepsAgreement(normalize, d, s, e);
        ResultKeepsSurplus(normalize, d, s, e);
      case Other =>
    }
  }

  // ---- When the totals differ ----

  predicate ResultOf(events: seq<Event>, i: nat, session: string) {
    i < |events| && events[i].Result? && events[i].session == session
  }

  predicate CostlyIn(events: seq<Event>, i: nat, session: string, phase: string)
    requires ResultOf(events, i, session)
  {
    PhaseAt(events, i) == phase && GetOr(events[i].cost, 0.0) > 0.0
  }

  /** Result j charges a session inside a phase, although result i of the same session was charged in
      another phase or came before any phase began. */
  ghost predicate Straddles(events: seq<Event>, i: nat, j: nat, session: string) {
    && ResultOf(events, i, session) && ResultOf(events, j, session)
    && PhaseAt(events, i) != PhaseAt(events, j) && PhaseAt(events, j) != PRE_PIPELINE
    && CostlyIn(events, j, session, PhaseAt(events, j))
    && (PhaseAt(events, i) == PRE_PIPELINE || CostlyIn(events, i, session, PhaseAt(events, i)))
  }

  ghost predicate HasCostlyResult(events: seq<Event>, session: string, phase: string) {
    exists i: nat :: ResultOf(events, i, session) && CostlyIn(events, i, session, phase)
  }

  ghost predicate HasResultIn(events: seq<Event>, session: string, phase: string) {
    exists i: nat :: ResultOf(events, i, session) && PhaseAt(events, i) == phase
  }

  lemma EventBefore(events: seq<Event>, session: string, phase: string)
    requires events != []
    ensures var n := |events| - 1;
      && (HasCostlyResult(events, session, phase) <==>
            HasCostlyResult(events[..n], session, phase)
            || (ResultOf(events, n, session) && CostlyIn(events, n, session, phase)))
      && (HasResultIn(events, session, phase) <==>
            HasResultIn(events[..n], session, phase)
            || (ResultOf(events, n, session) && PhaseAt(events, n) == phase))
  {
    var n := |events| - 1;
    forall i: nat | i < n ensures events[..n][..i] == events[..i] {
    }
    assert forall i: nat | i < n :: PhaseAt(events[..n], i) == PhaseAt(events, i);
    if HasCostlyResult(events[..n], session, phase) {
      var i: nat :| ResultOf(events[..n], i, session) && CostlyIn(events[..n], i, session, phase);
      assert ResultOf(events, i, session) && CostlyIn(events, i, session, phase);
    }
    if HasCostlyResult(events, session, phase) {
      var i: nat :| ResultOf(events, i, session) && CostlyIn(events, i, session, phase);
      assert i == n || (ResultOf(events[..n], i, session) && CostlyIn(events[..n], i, session, phase));
    }
    if HasResultIn(events[..n], session, phase) {
      var i: nat :| ResultOf(events[..n], i, session) && PhaseAt(events[..n], i) == phase;
      assert ResultOf(events, i, session) && PhaseAt(events, i) == phase;
    }
    if HasResultIn(events, session, phase) {
      var i: nat :| ResultOf(events, i, session) && PhaseAt(events, i) == phase;
      assert i == n || (ResultOf(events[..n], i, session) && PhaseAt(events[..n], i) == phase);
    }
  }

  /** A session is recorded in a phase exactly when a result with a cost reached that phase. */
  lemma {:induction false} RecordedResults(
    normalize: string -> string, events: seq<Event>, session: string, phase: string)
    requires Canonical(normalize, events) && phase != PRE_PIPELINE
    ensures Recorded(DashboardOf(normalize, events).costs, phase, session)
       <==> HasCostlyResult(events, session, phase)
  {
    if events != [] {
      var n := |events| - 1;
      CanonicalPrefix(normalize, events);
      RecordedResults(normalize, events[..n], session, phase);
      ReadingsAgree(normalize, events[..n]);
      EventBefore(events, session, phase);
      var d, s := DashboardOf(normalize, events[..n]), SummaryOf(events[..n]);
      if events[n].PhaseEvent? {
        PhaseRecordsNothing(normalize, d, events[n], phase, session);
      } else if Recorded(d.costs, phase, session) {
        assert d.costs[phase][session] > 0.0;
      }
    }
  }

  /** A session is filed before the pipeline exactly when one of its results came before any phase. */
  lemma {:induction false} FiledBeforePipeline(normalize: string -> string, events: seq<Event>, session: string)
    requires Canonical(normalize, events)
    ensures session in SummaryOf(events).sessions && SummaryOf(events).sessions[session].phase == PRE_PIPELINE
       <==> HasResultIn(events, session, PRE_PIPELINE)
  {
    if events != [] {
      var n := |events| - 1;
      CanonicalPrefix(normalize, events);
      FiledBeforePipeline(normalize, events[..n], session);
      ReadingsAgree(normalize, events[..n]);
      EventBefore(events, session, PRE_PIPELINE);
    }
  }

  lemma OverlapIsStraddling(normalize: string -> string, events: seq<Event>)
    requires Canonical(normalize, events)
    ensures Overlap(DashboardOf(normalize, events), SummaryOf(events))
       <==> exists i, j, session :: Straddles(events, i, j, session)
  {
    var d, s := DashboardOf(normalize, events), SummaryOf(events);
    ReadingsAgree(normalize, events);
    if Overlap(d, s) {
      var p, k :| ChargedTwice(d, s, p, k);
      RecordedResults(normalize, events, k, p);
      var j: nat :| ResultOf(events, j, k) && CostlyIn(events, j, k, p);
      FiledBeforePipeline(normalize, events, k);
      if s.sessions[k].phase == PRE_PIPELINE {
        var i: nat :| ResultOf(events, i, k) && PhaseAt(events, i) == PRE_PIPELINE;
        assert Straddles(events, i, j, k);
      } else {
        var q :| Recorded(d.costs, q, k) && q != p;
        RecordedResults(normalize, events, k, q);
        var i: nat :| ResultOf(events, i, k) && CostlyIn(events, i, k, q);
        assert Straddles(events, i, j, k);
      }
    }
    if i: nat, j: nat, k :| Straddles(events, i, j, k) {
      var p := PhaseAt(events, j);
      RecordedResults(normalize, events, k, p);
      assert HasCostlyResult(events, k, p);
      if PhaseAt(events, i) == PRE_PIPELINE {
        FiledBeforePipeline(normalize, events, k);
        assert HasResultIn(events, k, PRE_PIPELINE);
      } else {
        RecordedResults(normalize, events, k, PhaseAt(events, i));
        assert HasCostlyResult(events, k, PhaseAt(events, i));
      }
      assert ChargedTwice(d, s, p, k);
    }
  }

  /** On a canonical stream the dashboard's total is never below the summary's total without its
      pre-pipeline sessions, and it is above it exactly when some session straddles phases. */
  lemma DashboardCoversSummary(normalize: string -> string, events: seq<Event>)
    requires Canonical(normalize, events)
    ensures DashboardTotal(DashboardOf(normalize, events).costs) >= PipelineTotal(SummaryOf(events).sessions)
    ensures DashboardTotal(DashboardOf(normalize, events).costs) == PipelineTotal(SummaryOf(events).sessions)
       <==> !exists i, j, session :: Straddles(events, i, j, session)
  {
    ReadingsAgree(normalize, events);
    OverlapIsStraddling(normalize, events);
  }
}
