/** Where the cost summary files a session, and at what cost, on any stream. */
module SummaryFiling {
  import opened Options
  import opened CostAttribution

  // Event i opens the phase.
  predicate Opens(events: seq<Event>, i: nat, phase: string) {
    i < |events| && events[i] == PhaseEvent(phase, Some("running")) && phase != ""
  }

  // The phase opened last among the first n events, or the time before the pipeline.
  ghost predicate OpenPhase(events: seq<Event>, n: nat, phase: string)
    requires n <= |events|
  {
    || (phase == PRE_PIPELINE && forall i: nat, other | i < n :: !Opens(events, i, other))
    || exists i: nat | i < n :: Opens(events, i, phase) && forall k: nat, other | i < k < n :: !Opens(events, k, other)
  }

  lemma OpenPhaseStep(events: seq<Event>, phase: string, n: nat)
    requires |events| == n + 1
    ensures Opens(events, n, phase) ==> OpenPhase(events, n + 1, phase)
    ensures (forall other :: !Opens(events, n, other)) && OpenPhase(events[..n], n, phase)
        ==> OpenPhase(events, n + 1, phase)
  {
    assert forall i: nat, other | i < n :: Opens(events[..n], i, other) <==> Opens(events, i, other);
  }

  /** Results are filed under the phase opened last by a running event with a name. */
  lemma {:induction false} CurrentIsLastOpened(events: seq<Event>)
    ensures OpenPhase(events, |events|, SummaryOf(events).current)
  {
    if events != [] {
      var n := |events| - 1;
      CurrentIsLastOpened(events[..n]);
      OpenPhaseStep(events, SummaryOf(events).current, n);
    }
  }

  // Event i is a result of the session with this key.
  predicate Keyed(events: seq<Event>, i: nat, key: string) {
    && i < |events| && events[i].Result?
    && key == (if events[i].session != "" then events[i].session else "(no-session)")
  }

  function CostAt(events: seq<Event>, i: nat): real
    requires i < |events| && events[i].Result?
  {
    GetOr(events[i].cost, 0.0)
  }

  // The session began with result i and cost at most what its dearest result did.
  ghost predicate FiledBy(events: seq<Event>, key: string, s: Session, i: nat) {
    && Keyed(events, i, key) && (forall k: nat | k < i :: !Keyed(events, k, key))
    && s.phase == SummaryOf(events[..i]).current
    && s.cost >= 0.0
    && (forall k: nat | Keyed(events, k, key) :: CostAt(events, k) <= s.cost)
    && (s.cost == 0.0 || exists k: nat | Keyed(events, k, key) :: CostAt(events, k) == s.cost)
  }

  lemma KeyedBefore(events: seq<Event>, n: nat, key: string)
    requires |events| == n + 1
    ensures forall i: nat | i < n :: Keyed(events[..n], i, key) <==> Keyed(events, i, key)
    ensures forall i: nat | i < n :: events[..n][i] == events[i] && events[..n][..i] == events[..i]
  {
  }

  lemma FiledOnce(events: seq<Event>, n: nat, key: string, s: Session, i: nat)
    requires |events| == n + 1 && FiledBy(events[..n], key, s, i) && !Keyed(events, n, key)
    ensures FiledBy(events, key, s, i)
  {
    KeyedBefore(events, n, key);
    assert forall k: nat | Keyed(events, k, key) :: k < n;
    if s.cost != 0.0 {
      var k: nat :| Keyed(events[..n], k, key) && CostAt(events[..n], k) == s.cost;
      assert Keyed(events, k, key) && CostAt(events, k) == s.cost;
    }
  }

  lemma FiledAgain(events: seq<Event>, n: nat, key: string, s: Session, i: nat)
    requires |events| == n + 1 && FiledBy(events[..n], key, s, i) && Keyed(events, n, key)
    ensures FiledBy(events, key, s.(cost := if CostAt(events, n) > s.cost then CostAt(events, n) else s.cost), i)
  {
    KeyedBefore(events, n, key);
    if s.cost != 0.0 {
      var k: nat :| Keyed(events[..n], k, key) && CostAt(events[..n], k) == s.cost;
      assert Keyed(events, k, key) && CostAt(events, k) == s.cost;
    }
  }

  lemma FiledFirst(events: seq<Event>, n: nat, key: string)
    requires |events| == n + 1 && Keyed(events, n, key) && forall i: nat | i < n :: !Keyed(events, i, key)
    ensures var cost := if CostAt(events, n) > 0.0 then CostAt(events, n) else 0.0;
      FiledBy(events, key, Session(SummaryOf(events[..n]).current, cost), n)
  {
  }

  /** A session appears in the summary exactly when it has a result; it is filed under the phase that was
      current at its first one, and its cost is the largest of its results, at least zero. */
  lemma {:induction false} SessionsFiledByFirstResult(events: seq<Event>, key: string)
    ensures var sessions := SummaryOf(events).sessions;
      && (key in sessions <==> exists i: nat :: Keyed(events, i, key))
      && (key in sessions ==> exists i: nat :: FiledBy(events, key, sessions[key], i))
  {
    if events != [] {
      var n := |events| - 1;
      var before := SummaryOf(events[..n]).sessions;
      SessionsFiledByFirstResult(events[..n], key);
      KeyedBefore(events, n, key);
      if key in before {
        var i: nat :| FiledBy(events[..n], key, before[key], i);
        assert Keyed(events, i, key);
        if Keyed(events, n, key) {
          FiledAgain(events, n, key, before[key], i);
        } else {
          FiledOnce(events, n, key, before[key], i);
        }
      } else if Keyed(events, n, key) {
        FiledFirst(events, n, key);
      }
    }
  }
}
