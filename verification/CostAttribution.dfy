/** Sums over finite maps, and decimal notation. */
module Totals {
  ghost function SumOver(keys: set<string>, m: map<string, real>): real
    requires keys <= m.Keys
  {
    if keys == {} then 0.0 else
      var k :| k in keys;
      m[k] + SumOver(keys - {k}, m)
  }

  ghost function Total(m: map<string, real>): real {
    SumOver(m.Keys, m)
  }

  function Get(m: map<string, real>, k: string): real {
    if k in m then m[k] else 0.0
  }

  lemma {:induction false} SumTakesAny(keys: set<string>, m: map<string, real>, k: string)
    requires keys <= m.Keys && k in keys
    ensures SumOver(keys, m) == m[k] + SumOver(keys - {k}, m)
  {
    var j :| j in keys && SumOver(keys, m) == m[j] + SumOver(keys - {j}, m);
    if j != k {
      SumTakesAny(keys - {j}, m, k);
      SumTakesAny(keys - {k}, m, j);
      assert keys - {j} - {k} == keys - {k} - {j};
    }
  }

  lemma {:induction false} SumDependsOnKeys(keys: set<string>, m: map<string, real>, n: map<string, real>)
    requires keys <= m.Keys && keys <= n.Keys && forall k | k in keys :: m[k] == n[k]
    ensures SumOver(keys, m) == SumOver(keys, n)
  {
    if keys != {} {
      var k :| k in keys;
      SumTakesAny(keys, m, k);
      SumTakesAny(keys, n, k);
      SumDependsOnKeys(keys - {k}, m, n);
    }
  }

  lemma TotalUpdate(m: map<string, real>, k: string, v: real)
    ensures Total(m[k := v]) == Total(m) - Get(m, k) + v
  {
    var after := m[k := v];
    var others := m.Keys - {k};
    SumTakesAny(after.Keys, after, k);
    assert after.Keys - {k} == others;
    SumDependsOnKeys(others, m, after);
    if k in m {
      SumTakesAny(m.Keys, m, k);
    } else {
      assert others == m.Keys;
    }
  }

  function Digit(d: nat): char
    requires d < 10
  {
    "0123456789"[d]
  }

  function Decimal(n: nat): (s: string)
    ensures n >= 10 ==> |s| >= 2
    ensures n < 10 ==> |s| == 1
  {
    if n < 10 then [Digit(n)] else Decimal(n / 10) + [Digit(n % 10)]
  }

  lemma {:induction false} DecimalInjective(a: nat, b: nat)
    requires Decimal(a) == Decimal(b)
    ensures a == b
  {
    var x, y := Decimal(a), Decimal(b);
    assert x[|x| - 1] == Digit(a % 10) && y[|y| - 1] == Digit(b % 10);
    if a >= 10 && b >= 10 {
      assert x[..|x| - 1] == Decimal(a / 10) && y[..|y| - 1] == Decimal(b / 10);
      DecimalInjective(a / 10, b / 10);
    }
  }
}

/** Two independent readings of one event stream: the dashboard's cost per phase and the cost
    summary's cost per session. Costs are cumulative within a session. */
module CostAttribution {
  import opened Options
  import opened Totals

  datatype Event =
    | PhaseEvent(name: string, status: Option<string>)
    | Result(session: string, cost: Option<real>)   // an absent session id is the empty string
    | Other

  type SessionCosts = map<string, real>

  // ---- The dashboard: the largest cost of each session inside each phase ----

  datatype Dashboard = Dashboard(costs: map<string, SessionCosts>, current: Option<string>)

  const EMPTY_DASHBOARD := Dashboard(map[], None)

  function AnonymousKey(n: nat): string {
    "__anon_" + Decimal(n) + "__"
  }

  // A result without a session id gets a key made from the number of keys already there.
  function KeyFor(costs: SessionCosts, session: string): string {
    if session != "" then session else AnonymousKey(|costs|)
  }

  function Credited(costs: SessionCosts, session: string, cost: Option<real>): SessionCosts {
    if cost.None? then costs
    else
      var key := KeyFor(costs, session);
      if cost.value > Get(costs, key) then costs[key := cost.value] else costs
  }

  function DashboardStep(d: Dashboard, normalize: string -> string, e: Event): Dashboard {
    match e
    case PhaseEvent(name, _) =>
      var phase := normalize(name);
      Dashboard(if phase in d.costs then d.costs else d.costs[phase := map[]], Some(phase))
    case Result(session, cost) =>
      if d.current.Some? && d.current.value in d.costs then
        d.(costs := d.costs[d.current.value := Credited(d.costs[d.current.value], session, cost)])
      else d
    case Other => d
  }

  function DashboardOf(normalize: string -> string, events: seq<Event>): Dashboard {
    if events == [] then EMPTY_DASHBOARD
    else DashboardStep(DashboardOf(normalize, events[..|events| - 1]), normalize, events[|events| - 1])
  }

  // ---- The cost summary: the largest cost of each session, filed under its first phase ----

  const PRE_PIPELINE := "(pre-pipeline)"

  datatype Session = Session(phase: string, cost: real)
  datatype Summary = Summary(sessions: map<string, Session>, current: string)

  const EMPTY_SUMMARY := Summary(map[], PRE_PIPELINE)

  function Absorbed(s: Summary, key: string, cost: real): Summary {
    var before := if key in s.sessions then s.sessions[key] else Session(s.current, 0.0);
    s.(sessions := s.sessions[key := before.(cost := if cost > before.cost then cost else before.cost)])
  }

  function SummaryStep(s: Summary, e: Event): Summary {
    match e
    case PhaseEvent(name, status) => if status == Some("running") && name != "" then s.(current := name) else s
    case Result(session, cost) =>
      Absorbed(s, if session != "" then session else "(no-session)", GetOr(cost, 0.0))
    case Other => s
  }

  function SummaryOf(events: seq<Event>): Summary {
    if events == [] then EMPTY_SUMMARY else SummaryStep(SummaryOf(events[..|events| - 1]), events[|events| - 1])
  }

  method Aggregate(events: seq<Event>) returns (sessions: map<string, Session>)
    ensures sessions == SummaryOf(events).sessions
  {
    sessions := map[];
    var current := PRE_PIPELINE;
    for i := 0 to |events|
      invariant Summary(sessions, current) == SummaryOf(events[..i])
    {
      assert events[..i + 1][..i] == events[..i];
      match events[i]
      case PhaseEvent(name, status) =>
        if status == Some("running") && name != "" {
          current := name;
        }
      case Result(session, cost) =>
        var key := if session != "" then session else "(no-session)";
        if key !in sessions {
          sessions := sessions[key := Session(current, 0.0)];
        }
        var amount := GetOr(cost, 0.0);
        if amount > sessions[key].cost {
          sessions := sessions[key := sessions[key].(cost := amount)];
        }
      case Other =>
    }
    assert events[..|events|] == events;
  }

  // ---- What a phase cost is ----

  datatype Credit = Credit(session: string, cost: real)

  function CreditedAll(credits: seq<Credit>): SessionCosts {
    if credits == [] then map[] else
      var last := credits[|credits| - 1];
      Credited(CreditedAll(credits[..|credits| - 1]), last.session, Some(last.cost))
  }

  // The credits with and those without a session id.
  function NamedPart(credits: seq<Credit>): seq<Credit> {
    if credits == [] then []
    else
      var last := credits[|credits| - 1];
      NamedPart(credits[..|credits| - 1]) + (if last.session != "" then [last] else [])
  }

  function AnonymousPart(credits: seq<Credit>): seq<Credit> {
    if credits == [] then []
    else
      var last := credits[|credits| - 1];
      AnonymousPart(credits[..|credits| - 1]) + (if last.session == "" then [last] else [])
  }

  // The sum of the positive costs.
  function PositiveSum(credits: seq<Credit>): real {
    if credits == [] then 0.0
    else
      var last := credits[|credits| - 1];
      PositiveSum(credits[..|credits| - 1]) + (if last.cost > 0.0 then last.cost else 0.0)
  }

  // Credit i has no session id, and its cost went under this key.
  predicate AnonymousAt(credits: seq<Credit>, i: nat, key: string) {
    && i < |credits| && credits[i].session == "" && credits[i].cost > 0.0
    && key == AnonymousKey(|CreditedAll(credits[..i])|)
  }

  ghost predicate AnonymousUsed(credits: seq<Credit>, key: string) {
    exists i: nat :: AnonymousAt(credits, i, key)
  }

  /** A key that was made up for a result without a session id is also the id of a session with a
      positive cost. */
  ghost predicate KeysClash(credits: seq<Credit>) {
    exists key :: AnonymousUsed(credits, key) && key in CreditedAll(NamedPart(credits))
  }

  // No session id looks like a made-up key.
  ghost predicate NoReservedIds(credits: seq<Credit>) {
    forall c, n: nat | c in credits :: c.session != AnonymousKey(n)
  }

  lemma AnonymousUsedStep(credits: seq<Credit>, c: Credit, key: string)
    ensures AnonymousUsed(credits + [c], key)
       <==> AnonymousUsed(credits, key)
            || (c.session == "" && c.cost > 0.0 && key == AnonymousKey(|CreditedAll(credits)|))
  {
    var all := credits + [c];
    assert forall i: nat | i <= |credits| :: all[..i] == credits[..i];
    assert credits[..|credits|] == credits;
    if i: nat :| AnonymousAt(credits, i, key) {
      assert AnonymousAt(all, i, key);
    }
    if i: nat :| AnonymousAt(all, i, key) {
      assert i == |credits| || AnonymousAt(credits, i, key);
    }
    if c.session == "" && c.cost > 0.0 && key == AnonymousKey(|CreditedAll(credits)|) {
      assert AnonymousAt(all, |credits|, key);
    }
  }

  lemma CreditedStep(credits: seq<Credit>, c: Credit)
    ensures CreditedAll(credits + [c]) == Credited(CreditedAll(credits), c.session, Some(c.cost))
    ensures NamedPart(credits + [c]) == if c.session != "" then NamedPart(credits) + [c] else NamedPart(credits)
    ensures AnonymousPart(credits + [c])
         == if c.session == "" then AnonymousPart(credits) + [c] else AnonymousPart(credits)
    ensures PositiveSum(credits + [c]) == PositiveSum(credits) + (if c.cost > 0.0 then c.cost else 0.0)
  {
    assert (credits + [c])[..|credits|] == credits;
  }

  // m is the largest cost of the session among the credits, or zero when none is positive.
  ghost predicate IsSessionMaximum(credits: seq<Credit>, session: string, m: real) {
    && m >= 0.0
    && (forall c | c in credits && c.session == session :: c.cost <= m)
    && (m == 0.0 || Credit(session, m) in credits)
  }

  /** Whatever else a phase receives, the recorded cost of a session whose id was not made up for
      another result is its maximum, and is recorded only when positive. */
  lemma {:induction false} PhaseKeepsSessionMaxima(credits: seq<Credit>, session: string)
    requires session != "" && !AnonymousUsed(credits, session)
    ensures IsSessionMaximum(credits, session, Get(CreditedAll(credits), session))
    ensures session in CreditedAll(credits) ==> CreditedAll(credits)[session] > 0.0
  {
    if credits != [] {
      var n := |credits| - 1;
      assert credits == credits[..n] + [credits[n]];
      CreditedStep(credits[..n], credits[n]);
      AnonymousUsedStep(credits[..n], credits[n], session);
      PhaseKeepsSessionMaxima(credits[..n], session);
    }
  }

  lemma MaximumIsUnique(a: seq<Credit>, b: seq<Credit>, session: string, m: real, n: real)
    requires forall c: Credit | c.session == session :: c in a <==> c in b
    requires IsSessionMaximum(a, session, m) && IsSessionMaximum(b, session, n)
    ensures m == n
  {
    if m != 0.0 {
      assert Credit(session, m) in b;
    }
    if n != 0.0 {
      assert Credit(session, n) in a;
    }
  }

  lemma {:induction false} NamedPartMembers(credits: seq<Credit>)
    ensures forall c :: c in NamedPart(credits) <==> c in credits && c.session != ""
  {
    if credits != [] {
      var n := |credits| - 1;
      assert credits == credits[..n] + [credits[n]];
      NamedPartMembers(credits[..n]);
    }
  }

  lemma {:induction false} NamedUsesNoAnonymousKeys(credits: seq<Credit>, key: string)
    ensures !AnonymousUsed(NamedPart(credits), key)
  {
    NamedPartMembers(credits);
    assert forall i | 0 <= i < |NamedPart(credits)| :: NamedPart(credits)[i] in NamedPart(credits);
  }

  // A session keeps its maximum among the results with ids, whether or not others are mixed in.
  lemma OwnCostKept(credits: seq<Credit>, session: string)
    requires session != "" && !AnonymousUsed(credits, session)
    ensures Get(CreditedAll(credits), session) == Get(CreditedAll(NamedPart(credits)), session)
  {
    NamedPartMembers(credits);
    NamedUsesNoAnonymousKeys(credits, session);
    PhaseKeepsSessionMaxima(credits, session);
    PhaseKeepsSessionMaxima(NamedPart(credits), session);
    MaximumIsUnique(credits, NamedPart(credits), session,
                    Get(CreditedAll(credits), session), Get(CreditedAll(NamedPart(credits)), session));
  }

  // ---- Results without a session id ----

  // Every key is a given session id or an anonymous key numbered below the number of keys.
  ghost predicate KeysFrom(costs: SessionCosts, ids: set<string>) {
    forall k | k in costs :: k in ids || exists n | 0 <= n < |costs| :: k == AnonymousKey(n)
  }

  lemma AnonymousKeyInjective(a: nat, b: nat)
    requires AnonymousKey(a) == AnonymousKey(b)
    ensures a == b
  {
    var x, y := AnonymousKey(a), AnonymousKey(b);
    assert |x| == |Decimal(a)| + 9 && |y| == |Decimal(b)| + 9;
    assert x[7..|x| - 2] == Decimal(a) && y[7..|y| - 2] == Decimal(b);
    DecimalInjective(a, b);
  }

  lemma CreditKeepsKeys(costs: SessionCosts, ids: set<string>, session: string, cost: Option<real>)
    requires KeysFrom(costs, ids) && (session != "" ==> session in ids)
    ensures KeysFrom(Credited(costs, session, cost), ids)
  {
    var after := Credited(costs, session, cost);
    var key := KeyFor(costs, session);
    if after != costs {
      assert after.Keys == costs.Keys + {key};
      assert |after.Keys| >= |costs.Keys| by {
        if key in costs {
          assert after.Keys == costs.Keys;
        }
      }
      assert key !in costs ==> |after| == |costs| + 1;
      forall k | k in after ensures k in ids || exists n | 0 <= n < |after| :: k == AnonymousKey(n) {
        if k in costs {
          if k !in ids {
            var n :| 0 <= n < |costs| && k == AnonymousKey(n);
            assert 0 <= n < |after|;
          }
        } else if session == "" {
          assert k == AnonymousKey(|costs|) && |costs| < |after|;
        }
      }
    }
  }

  // One result without a session id is added in full exactly when its key is not taken, and it can be
  // taken only by a session id of that very form.
  lemma AnonymousResultsAddUp(costs: SessionCosts, ids: set<string>, cost: real)
    requires KeysFrom(costs, ids) && cost > 0.0
    requires forall k | k in costs :: costs[k] > 0.0
    ensures AnonymousKey(|costs|) !in ids ==> AnonymousKey(|costs|) !in costs
    ensures Total(Credited(costs, "", Some(cost))) == Total(costs) + cost
       <==> AnonymousKey(|costs|) !in costs
  {
    var key := AnonymousKey(|costs|);
    if key in costs && key !in ids {
      var n :| 0 <= n < |costs| && key == AnonymousKey(n);
      AnonymousKeyInjective(|costs|, n);
    }
    TotalUpdate(costs, key, cost);
  }


  // ---- Whole phases ----

  lemma {:induction false} RecordedPositive(credits: seq<Credit>)
    ensures forall k | k in CreditedAll(credits) :: CreditedAll(credits)[k] > 0.0
  {
    if credits != [] {
      RecordedPositive(credits[..|credits| - 1]);
    }
  }

  function Rise(prior: real, cost: real): real {
    if cost > prior then cost - prior else 0.0
  }

  lemma CreditRises(costs: SessionCosts, session: string, cost: real)
    ensures Total(Credited(costs, session, Some(cost))) == Total(costs) + Rise(Get(costs, KeyFor(costs, session)), cost)
  {
    TotalUpdate(costs, KeyFor(costs, session), cost);
  }

  // The costs recorded for results with session ids, had the others not come.
  function NamedCosts(credits: seq<Credit>): SessionCosts {
    CreditedAll(NamedPart(credits))
  }

  function AnonymousSum(credits: seq<Credit>): real {
    PositiveSum(AnonymousPart(credits))
  }

  lemma MixedStep(before: seq<Credit>, c: Credit)
    ensures CreditedAll(before + [c]) == Credited(CreditedAll(before), c.session, Some(c.cost))
    ensures NamedCosts(before + [c])
         == if c.session == "" then NamedCosts(before) else Credited(NamedCosts(before), c.session, Some(c.cost))
    ensures AnonymousSum(before + [c]) == AnonymousSum(before) + (if c.session == "" then Rise(0.0, c.cost) else 0.0)
  {
    CreditedStep(before, c);
    CreditedStep(NamedPart(before), c);
    CreditedStep(AnonymousPart(before), c);
  }

  lemma KeysFromMore(costs: SessionCosts, ids: set<string>, more: set<string>)
    requires KeysFrom(costs, ids) && ids <= more
    ensures KeysFrom(costs, more)
  {
    forall k | k in costs && k !in more ensures exists n | 0 <= n < |costs| :: k == AnonymousKey(n) {
      assert k !in ids;
    }
  }

  /** Every key of a phase is a session id with a positive cost or a made-up key below the number of
      keys, so the next made-up key can only be taken by a session id. */
  lemma {:induction false} KeysAccounted(credits: seq<Credit>)
    ensures KeysFrom(CreditedAll(credits), NamedCosts(credits).Keys)
  {
    if credits != [] {
      var n := |credits| - 1;
      var before, c := credits[..n], credits[n];
      assert credits == before + [c];
      KeysAccounted(before);
      MixedStep(before, c);
      RecordedPositive(before);
      RecordedPositive(NamedPart(before));
      KeysFromMore(CreditedAll(before), NamedCosts(before).Keys, NamedCosts(credits).Keys);
      if c.cost > 0.0 {
        CreditKeepsKeys(CreditedAll(before), NamedCosts(credits).Keys, c.session, Some(c.cost));
      } else {
        NothingCredited(CreditedAll(before), c);
      }
    }
  }

  lemma NothingCredited(costs: SessionCosts, c: Credit)
    requires c.cost <= 0.0 && forall k | k in costs :: costs[k] > 0.0
    ensures Credited(costs, c.session, Some(c.cost)) == costs
  {
  }

  // The next made-up key is taken exactly by a session id with a cost.
  lemma MadeUpKeyTaken(credits: seq<Credit>)
    ensures var key := AnonymousKey(|CreditedAll(credits)|);
      key in CreditedAll(credits) ==> key in NamedCosts(credits)
  {
    var costs := CreditedAll(credits);
    var key := AnonymousKey(|costs|);
    KeysAccounted(credits);
    if key in costs && key !in NamedCosts(credits) {
      var n :| 0 <= n < |costs| && key == AnonymousKey(n);
      AnonymousKeyInjective(|costs|, n);
    }
  }

  lemma CreditedAt(costs: SessionCosts, c: Credit, key: string)
    ensures Get(Credited(costs, c.session, Some(c.cost)), key)
         == if key == KeyFor(costs, c.session) && c.cost > Get(costs, key) then c.cost else Get(costs, key)
  {
  }

  // Nothing recorded for a session id alone gets lost when other results are mixed in.
  lemma {:induction false} MixingOnlyAdds(credits: seq<Credit>, key: string)
    ensures Get(NamedCosts(credits), key) <= Get(CreditedAll(credits), key)
  {
    if credits != [] {
      var n := |credits| - 1;
      var before, c := credits[..n], credits[n];
      assert credits == before + [c];
      MixingOnlyAdds(before, key);
      MixedStep(before, c);
      CreditedAt(CreditedAll(before), c, key);
      CreditedAt(NamedCosts(before), c, key);
    }
  }

  // What a phase would cost if every result without a session id were added in full.
  ghost function FullCost(credits: seq<Credit>): real {
    Total(NamedCosts(credits)) + AnonymousSum(credits)
  }

  ghost predicate ShortExactlyOnClash(credits: seq<Credit>) {
    && Total(CreditedAll(credits)) <= FullCost(credits)
    && (Total(CreditedAll(credits)) == FullCost(credits) <==> !KeysClash(credits))
  }

  lemma {:induction false} UsedKeyRecorded(credits: seq<Credit>, key: string)
    requires AnonymousUsed(credits, key)
    ensures key in CreditedAll(credits)
  {
    var n := |credits| - 1;
    var before, c := credits[..n], credits[n];
    assert credits == before + [c];
    MixedStep(before, c);
    AnonymousUsedStep(before, c, key);
    if AnonymousUsed(before, key) {
      UsedKeyRecorded(before, key);
    }
  }

  lemma NamedResultStep(before: seq<Credit>, c: Credit)
    requires c.session != "" && ShortExactlyOnClash(before)
    ensures ShortExactlyOnClash(before + [c])
  {
    var prior, own := Get(CreditedAll(before), c.session), Get(NamedCosts(before), c.session);
    NamedResultAdds(before, c);
    ClashAfterNamed(before, c);
    MixingOnlyAdds(before, c.session);
    if AnonymousUsed(before, c.session) {
      UsedKeyRecorded(before, c.session);
      RecordedPositive(before);
      assert prior > 0.0;
      if !KeysClash(before) {
        FreshClash(before, c.session);
        assert own == 0.0;
      }
    } else {
      OwnCostKept(before, c.session);
      assert prior == own;
    }
  }

  // What one result with a session id adds, and what it would add without the others.
  lemma NamedResultAdds(before: seq<Credit>, c: Credit)
    requires c.session != ""
    ensures Total(CreditedAll(before + [c]))
         == Total(CreditedAll(before)) + Rise(Get(CreditedAll(before), c.session), c.cost)
    ensures FullCost(before + [c]) == FullCost(before) + Rise(Get(NamedCosts(before), c.session), c.cost)
  {
    MixedStep(before, c);
    CreditRises(CreditedAll(before), c.session, c.cost);
    CreditRises(NamedCosts(before), c.session, c.cost);
  }

  // Without a clash a key is not both made up and recorded for a session.
  lemma FreshClash(credits: seq<Credit>, key: string)
    requires AnonymousUsed(credits, key) && !KeysClash(credits)
    ensures Get(NamedCosts(credits), key) == 0.0
  {
  }

  lemma ClashAfterNamed(before: seq<Credit>, c: Credit)
    requires c.session != ""
    ensures KeysClash(before + [c])
       <==> KeysClash(before)
            || (AnonymousUsed(before, c.session) && c.cost > Get(NamedCosts(before), c.session))
  {
    var after := before + [c];
    MixedStep(before, c);
    forall key ensures AnonymousUsed(after, key) <==> AnonymousUsed(before, key) {
      AnonymousUsedStep(before, c, key);
    }
    if KeysClash(before) {
      var key :| AnonymousUsed(before, key) && key in NamedCosts(before);
      assert AnonymousUsed(after, key) && key in NamedCosts(after);
    }
    if AnonymousUsed(before, c.session) && c.cost > Get(NamedCosts(before), c.session) {
      assert AnonymousUsed(after, c.session) && c.session in NamedCosts(after);
    }
    if KeysClash(after) {
      var key :| AnonymousUsed(after, key) && key in NamedCosts(after);
      assert AnonymousUsed(before, key);
      assert key in NamedCosts(before) || key == c.session;
    }
  }

  lemma AnonymousResultStep(before: seq<Credit>, c: Credit)
    requires c.session == "" && ShortExactlyOnClash(before)
    ensures ShortExactlyOnClash(before + [c])
  {
    var key := AnonymousKey(|CreditedAll(before)|);
    MixedStep(before, c);
    CreditRises(CreditedAll(before), c.session, c.cost);
    RecordedPositive(before);
    ClashAfterAnonymous(before, c);
    RecordedPositive(NamedPart(before));
    MixingOnlyAdds(before, key);
    MadeUpKeyTaken(before);
  }

  lemma ClashAfterAnonymous(before: seq<Credit>, c: Credit)
    requires c.session == ""
    ensures KeysClash(before + [c])
       <==> KeysClash(before)
            || (c.cost > 0.0 && AnonymousKey(|CreditedAll(before)|) in NamedCosts(before))
  {
    var after := before + [c];
    var made := AnonymousKey(|CreditedAll(before)|);
    MixedStep(before, c);
    forall key ensures AnonymousUsed(after, key) <==> AnonymousUsed(before, key) || (c.cost > 0.0 && key == made) {
      AnonymousUsedStep(before, c, key);
    }
    if KeysClash(before) {
      var key :| AnonymousUsed(before, key) && key in NamedCosts(before);
      assert AnonymousUsed(after, key) && key in NamedCosts(after);
    }
    if c.cost > 0.0 && made in NamedCosts(before) {
      assert AnonymousUsed(after, made) && made in NamedCosts(after);
    }
  }

  /** The cost of a phase is the sum of its sessions' maxima plus every positive anonymous cost, if and
      only if no key made up on the way is also the id of a session with a cost; else it is less. */
  lemma {:induction false} PhaseCostIsFullWithoutClash(credits: seq<Credit>)
    ensures Total(CreditedAll(credits)) <= FullCost(credits)
    ensures Total(CreditedAll(credits)) == FullCost(credits) <==> !KeysClash(credits)
  {
    if credits == [] {
      NoKeyClashesInNothing();
    } else {
      var n := |credits| - 1;
      var before, c := credits[..n], credits[n];
      assert credits == before + [c];
      PhaseCostIsFullWithoutClash(before);
      if c.session != "" {
        NamedResultStep(before, c);
      } else {
        AnonymousResultStep(before, c);
      }
    }
  }

  lemma NoKeyClashesInNothing()
    ensures !KeysClash([])
  {
  }

  lemma OrdinaryIdUnused(credits: seq<Credit>, session: string)
    requires NoReservedIds(credits) && exists c :: c in credits && c.session == session
    ensures !AnonymousUsed(credits, session)
  {
    var c :| c in credits && c.session == session;
    forall i: nat ensures !AnonymousAt(credits, i, session) {
      if i < |credits| {
        assert c.session != AnonymousKey(|CreditedAll(credits[..i])|);
      }
    }
  }

  /** Ids that do not look like made-up keys never clash, so then every session keeps its maximum and
      every positive anonymous cost counts in full. */
  lemma OrdinaryIdsNeverClash(credits: seq<Credit>)
    requires NoReservedIds(credits)
    ensures !KeysClash(credits)
    ensures Total(CreditedAll(credits)) == FullCost(credits)
    ensures forall s | s != "" && (exists c :: c in credits && c.session == s) ::
      IsSessionMaximum(credits, s, Get(CreditedAll(credits), s))
  {
    PhaseCostIsFullWithoutClash(credits);
    NamedPartMembers(credits);
    forall key | key in NamedCosts(credits) ensures !AnonymousUsed(credits, key) {
      RecordedFromCredit(NamedPart(credits), key);
      OrdinaryIdUnused(credits, key);
    }
    forall s | s != "" && (exists c :: c in credits && c.session == s)
      ensures IsSessionMaximum(credits, s, Get(CreditedAll(credits), s))
    {
      OrdinaryIdUnused(credits, s);
      PhaseKeepsSessionMaxima(credits, s);
    }
  }

  lemma {:induction false} RecordedFromCredit(credits: seq<Credit>, key: string)
    requires key in CreditedAll(credits) && forall c | c in credits :: c.session != ""
    ensures exists c :: c in credits && c.session == key
  {
    var n := |credits| - 1;
    assert credits == credits[..n] + [credits[n]];
    if key in CreditedAll(credits[..n]) {
      RecordedFromCredit(credits[..n], key);
    } else {
      assert credits[n] in credits && credits[n].session == key;
    }
  }

  // ---- Order and repeats ----

  lemma {:induction false} PositiveSumTakes(credits: seq<Credit>, i: nat)
    requires i < |credits|
    ensures PositiveSum(credits)
         == PositiveSum(credits[..i] + credits[i + 1..]) + (if credits[i].cost > 0.0 then credits[i].cost else 0.0)
  {
    var n := |credits| - 1;
    if i < n {
      PositiveSumTakes(credits[..n], i);
      var rest := credits[..i] + credits[i + 1..];
      assert rest[..n - 1] == credits[..n][..i] + credits[..n][i + 1..] && rest[n - 1] == credits[n];
    } else {
      assert credits[..i] + credits[i + 1..] == credits[..n];
    }
  }

  lemma WithoutOne(s: seq<Credit>, i: nat)
    requires i < |s|
    ensures multiset(s[..i] + s[i + 1..]) == multiset(s) - multiset{s[i]}
  {
    assert s == s[..i] + [s[i]] + s[i + 1..];
  }

  lemma {:induction false} PositiveSumOfMultiset(a: seq<Credit>, b: seq<Credit>)
    requires multiset(a) == multiset(b)
    ensures PositiveSum(a) == PositiveSum(b)
  {
    if a == [] {
      assert |multiset(b)| == 0;
    } else {
      var n := |a| - 1;
      assert a[n] in multiset(b);
      var i :| 0 <= i < |b| && b[i] == a[n];
      WithoutOne(a, n);
      WithoutOne(b, i);
      assert a[..n] + a[n + 1..] == a[..n];
      PositiveSumTakes(b, i);
      PositiveSumOfMultiset(a[..n], b[..i] + b[i + 1..]);
    }
  }

  // Results with session ids alone: the recorded costs depend only on which results came.
  lemma NamedCostsIgnoreOrderAndRepeats(a: seq<Credit>, b: seq<Credit>)
    requires forall c: Credit | c.session != "" :: c in a <==> c in b
    ensures CreditedAll(NamedPart(a)) == CreditedAll(NamedPart(b))
  {
    var p, q := NamedPart(a), NamedPart(b);
    var x, y := CreditedAll(p), CreditedAll(q);
    NamedPartMembers(a);
    NamedPartMembers(b);
    forall s ensures (s in x <==> s in y) && (s in x ==> x[s] == y[s]) {
      if s in x {
        RecordedFromCredit(p, s);
      }
      if s in y {
        RecordedFromCredit(q, s);
      }
      if s != "" {
        NamedUsesNoAnonymousKeys(a, s);
        NamedUsesNoAnonymousKeys(b, s);
        PhaseKeepsSessionMaxima(p, s);
        PhaseKeepsSessionMaxima(q, s);
        MaximumIsUnique(p, q, s, Get(x, s), Get(y, s));
      }
    }
  }

  lemma {:induction false} AllNamed(credits: seq<Credit>)
    requires AnonymousPart(credits) == []
    ensures NamedPart(credits) == credits
  {
    if credits != [] {
      var before, c := credits[..|credits| - 1], credits[|credits| - 1];
      assert credits == before + [c];
      CreditedStep(before, c);
      assert c.session == "" ==> |AnonymousPart(credits)| > 0;
      AllNamed(before);
    }
  }

  /** The cost of a phase does not depend on the order of its results, nor on repeating one that has a
      session id, as long as no made-up key clashes with an id. */
  lemma PhaseCostIgnoresOrderAndRepeats(a: seq<Credit>, b: seq<Credit>)
    requires forall c: Credit | c.session != "" :: c in a <==> c in b
    requires multiset(AnonymousPart(a)) == multiset(AnonymousPart(b))
    requires !KeysClash(a) && !KeysClash(b)
    ensures Total(CreditedAll(a)) == Total(CreditedAll(b))
    ensures forall s | s in NamedCosts(a) :: Get(CreditedAll(a), s) == Get(CreditedAll(b), s)
    ensures AnonymousPart(a) == [] ==> CreditedAll(a) == CreditedAll(b)
  {
    NamedCostsIgnoreOrderAndRepeats(a, b);
    NamedPartMembers(a);
    forall s | s in NamedCosts(a) ensures Get(CreditedAll(a), s) == Get(CreditedAll(b), s) {
      RecordedFromCredit(NamedPart(a), s);
      OwnCostKept(a, s);
      OwnCostKept(b, s);
    }
    if AnonymousPart(a) == [] {
      assert |multiset(AnonymousPart(b))| == 0;
      AllNamed(a);
      AllNamed(b);
    }
    PositiveSumOfMultiset(AnonymousPart(a), AnonymousPart(b));
    PhaseCostIsFullWithoutClash(a);
    PhaseCostIsFullWithoutClash(b);
  }

  // A session that calls itself "__anon_1__" takes the key of the next anonymous result.
  lemma AnonymousKeyCanBeTaken()
    ensures CreditedAll([Credit("__anon_1__", 2.0), Credit("", 1.0)]) == map["__anon_1__" := 2.0]
  {
    var first := [Credit("__anon_1__", 2.0)];
    var both := [Credit("__anon_1__", 2.0), Credit("", 1.0)];
    assert first[..0] == [] && both[..1] == first;
    assert CreditedAll(first) == map["__anon_1__" := 2.0];
    assert |map["__anon_1__" := 2.0]| == 1;
    assert Decimal(1) == "1" && AnonymousKey(1) == "__anon_1__";
  }

  // ---- What the stream credits to a phase ----

  // The phase of the last phase event, whatever its status.
  function CurrentPhase(normalize: string -> string, events: seq<Event>): Option<string> {
    if events == [] then None
    else
      var last := events[|events| - 1];
      if last.PhaseEvent? then Some(normalize(last.name)) else CurrentPhase(normalize, events[..|events| - 1])
  }

  // The results with a cost that arrived while the phase was current.
  function CreditsIn(normalize: string -> string, events: seq<Event>, phase: string): seq<Credit> {
    if events == [] then []
    else
      var before, last := events[..|events| - 1], events[|events| - 1];
      var credits := CreditsIn(normalize, before, phase);
      if last.Result? && last.cost.Some? && CurrentPhase(normalize, before) == Some(phase)
      then credits + [Credit(last.session, last.cost.value)] else credits
  }

  predicate NamesPhaseAt(normalize: string -> string, events: seq<Event>, i: nat, phase: string) {
    i < |events| && events[i].PhaseEvent? && normalize(events[i].name) == phase
  }

  ghost predicate PhaseSeen(normalize: string -> string, events: seq<Event>, phase: string) {
    exists i: nat :: NamesPhaseAt(normalize, events, i, phase)
  }

  lemma PhaseSeenStep(normalize: string -> string, events: seq<Event>, phase: string)
    requires events != []
    ensures PhaseSeen(normalize, events, phase)
       <==> PhaseSeen(normalize, events[..|events| - 1], phase)
            || NamesPhaseAt(normalize, events, |events| - 1, phase)
  {
    var n := |events| - 1;
    if i: nat :| NamesPhaseAt(normalize, events[..n], i, phase) {
      assert NamesPhaseAt(normalize, events, i, phase);
    }
    if i: nat :| NamesPhaseAt(normalize, events, i, phase) {
      assert i == n || NamesPhaseAt(normalize, events[..n], i, phase);
    }
  }

  lemma {:induction false} CurrentPhaseRecorded(normalize: string -> string, events: seq<Event>)
    ensures var d := DashboardOf(normalize, events);
      d.current == CurrentPhase(normalize, events) && (d.current.Some? ==> d.current.value in d.costs)
  {
    if events != [] {
      CurrentPhaseRecorded(normalize, events[..|events| - 1]);
    }
  }

  /** The dashboard has an entry for exactly the phases that the stream names. */
  lemma {:induction false} DashboardHasNamedPhases(normalize: string -> string, events: seq<Event>, phase: string)
    ensures phase in DashboardOf(normalize, events).costs <==> PhaseSeen(normalize, events, phase)
  {
    if events != [] {
      DashboardHasNamedPhases(normalize, events[..|events| - 1], phase);
      PhaseSeenStep(normalize, events, phase);
    }
  }

  // An entry holds these credits; a phase without an entry has none.
  ghost predicate HoldsCredits(costs: map<string, SessionCosts>, phase: string, credits: seq<Credit>) {
    if phase in costs then costs[phase] == CreditedAll(credits) else credits == []
  }

  lemma ResultCredits(normalize: string -> string, d: Dashboard, e: Event, phase: string, credits: seq<Credit>)
    requires HoldsCredits(d.costs, phase, credits) && e.Result? && (d.current.Some? ==> d.current.value in d.costs)
    ensures HoldsCredits(DashboardStep(d, normalize, e).costs, phase,
              if e.cost.Some? && d.current == Some(phase) then credits + [Credit(e.session, e.cost.value)] else credits)
  {
    if e.cost.Some? {
      CreditedStep(credits, Credit(e.session, e.cost.value));
    }
  }

  /** The entry of a phase is what the results that arrived while the phase was current credit. */
  lemma {:induction false} PhaseHoldsItsCredits(normalize: string -> string, events: seq<Event>, phase: string)
    ensures HoldsCredits(DashboardOf(normalize, events).costs, phase, CreditsIn(normalize, events, phase))
  {
    if events != [] {
      var before, last := events[..|events| - 1], events[|events| - 1];
      var d, credits := DashboardOf(normalize, before), CreditsIn(normalize, before, phase);
      PhaseHoldsItsCredits(normalize, before, phase);
      CurrentPhaseRecorded(normalize, before);
      match last
      case PhaseEvent(_, _) =>
        assert CreditedAll([]) == map[];
      case Result(_, _) => ResultCredits(normalize, d, last, phase, credits);
      case Other =>
    }
  }

  // ---- The dashboard loop ----

  method ParseStreamPhases(normalize: string -> string, events: seq<Event>) returns (costs: map<string, SessionCosts>)
    ensures costs == DashboardOf(normalize, events).costs
    ensures forall p | p in costs ::
      && costs[p] == CreditedAll(CreditsIn(normalize, events, p))
      && (Total(costs[p]) == FullCost(CreditsIn(normalize, events, p)) <==> !KeysClash(CreditsIn(normalize, events, p)))
  {
    costs := map[];
    var current: Option<string> := None;
    for i := 0 to |events|
      invariant Dashboard(costs, current) == DashboardOf(normalize, events[..i])
    {
      assert events[..i + 1][..i] == events[..i];
      match events[i]
      case PhaseEvent(name, _) =>
        var phase := normalize(name);
        if phase !in costs {
          costs := costs[phase := map[]];
        }
        current := Some(phase);
      case Result(session, cost) =>
        if current.Some? && current.value in costs && cost.Some? {
          var sessions := costs[current.value];
          var key := if session != "" then session else AnonymousKey(|sessions|);
          if cost.value > Get(sessions, key) {
            sessions := sessions[key := cost.value];
          }
          costs := costs[current.value := sessions];
        }
      case Other =>
    }
    assert events[..|events|] == events;
    forall p | p in costs
      ensures costs[p] == CreditedAll(CreditsIn(normalize, events, p))
      ensures Total(costs[p]) == FullCost(CreditsIn(normalize, events, p))
         <==> !KeysClash(CreditsIn(normalize, events, p))
    {
      PhaseHoldsItsCredits(normalize, events, p);
      PhaseCostIsFullWithoutClash(CreditsIn(normalize, events, p));
    }
  }
}
