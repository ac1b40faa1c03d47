/** How many sessions run at once. Timestamps are numbers that keep their
    textual order; zero stands for the empty one. */
module ConcurrencyMetrics {
  import opened Sequences
  import opened StableSorting

  // ---- Sessions ----

  datatype Stamped = Stamped(sid: string, ts: nat)
  datatype Bounds = Bounds(start: nat, end: nat)
  datatype Session = Session(sid: string, bounds: Bounds)

  function StartOf(s: Session): nat {
    s.bounds.start
  }

  function Widened(b: Bounds, ts: nat): Bounds {
    Bounds(if ts < b.start || b.start == 0 then ts else b.start, if ts > b.end then ts else b.end)
  }

  function BoundsOf(times: seq<nat>): Bounds
    requires times != []
  {
    var last := times[|times| - 1];
    Widened(if |times| == 1 then Bounds(last, last) else BoundsOf(times[..|times| - 1]), last)
  }

  function TimesOf(events: seq<Stamped>, sid: string): seq<nat> {
    if events == [] then []
    else
      var last := events[|events| - 1];
      TimesOf(events[..|events| - 1], sid) + (if last.sid == sid then [last.ts] else [])
  }

  // The session ids in the order in which they first appear.
  function SessionIds(events: seq<Stamped>): seq<string> {
    if events == [] then []
    else
      var ids, last := SessionIds(events[..|events| - 1]), events[|events| - 1].sid;
      if last in ids then ids else ids + [last]
  }

  lemma {:induction false} SessionIdsAreExact(events: seq<Stamped>)
    ensures var ids := SessionIds(events);
      && Distinct(ids)
      && (forall sid :: sid in ids <==> TimesOf(events, sid) != [])
  {
    if events != [] {
      var front, e := events[..|events| - 1], events[|events| - 1];
      SessionIdsAreExact(front);
      var before, ids := SessionIds(front), SessionIds(events);
      assert e.sid !in before ==> forall i | 0 <= i < |before| :: before[i] in before && before[i] != e.sid;
      forall sid ensures sid in ids <==> TimesOf(events, sid) != [] {
        assert sid in ids <==> sid in before || sid == e.sid;
      }
    }
  }

  /** The end of a session is its largest time, and its start is empty exactly when its last time is. */
  lemma {:induction false} BoundsOfTimes(times: seq<nat>)
    requires times != []
    ensures var b := BoundsOf(times);
      && b.end in times && (forall t | t in times :: t <= b.end)
      && b.start in times
      && (b.start == 0 <==> times[|times| - 1] == 0)
  {
    var n := |times| - 1;
    assert times == times[..n] + [times[n]];
    if n > 0 {
      BoundsOfTimes(times[..n]);
    }
  }

  /** A start is the smallest of the times since the last empty one: an event without a time makes the
      session forget when it began. */
  lemma {:induction false} StartIsSmallestSinceEmpty(times: seq<nat>, i: nat)
    requires i < |times| && (i == 0 || times[i - 1] == 0) && 0 !in times[i..]
    ensures BoundsOf(times).start in times[i..]
    ensures forall t | t in times[i..] :: BoundsOf(times).start <= t
  {
    var n := |times| - 1;
    if i < n {
      assert times[..n][i..] == times[i..n] && times[i..] == times[i..n] + [times[n]];
      StartIsSmallestSinceEmpty(times[..n], i);
    } else {
      assert times[i..] == [times[n]];
      if n > 0 {
        BoundsOfTimes(times[..n]);
      }
    }
  }

  function SessionsFor(events: seq<Stamped>, ids: seq<string>): seq<Session>
    requires forall sid | sid in ids :: TimesOf(events, sid) != []
  {
    if ids == [] then []
    else
      var last := ids[|ids| - 1];
      SessionsFor(events, ids[..|ids| - 1]) + [Session(last, BoundsOf(TimesOf(events, last)))]
  }

  function SessionsOf(events: seq<Stamped>): seq<Session> {
    SessionIdsAreExact(events);
    SessionsFor(events, SessionIds(events))
  }

  // A session has an entry once it has an event, with the bounds of its times so far.
  predicate EntryIsExact(events: seq<Stamped>, bounds: map<string, Bounds>, sid: string) {
    var times := TimesOf(events, sid);
    (sid in bounds <==> times != []) && (sid in bounds ==> bounds[sid] == BoundsOf(times))
  }

  ghost predicate Collected(events: seq<Stamped>, ids: seq<string>, bounds: map<string, Bounds>) {
    ids == SessionIds(events) && forall sid :: EntryIsExact(events, bounds, sid)
  }

  lemma TimesStep(events: seq<Stamped>, e: Stamped, sid: string)
    ensures TimesOf(events + [e], sid) == if e.sid == sid then TimesOf(events, sid) + [e.ts] else TimesOf(events, sid)
  {
    assert (events + [e])[..|events|] == events;
  }

  lemma BoundsStep(times: seq<nat>, ts: nat)
    ensures BoundsOf(times + [ts]) == Widened(if times == [] then Bounds(ts, ts) else BoundsOf(times), ts)
  {
    assert (times + [ts])[..|times|] == times;
  }

  function Extended(bounds: map<string, Bounds>, e: Stamped): map<string, Bounds> {
    bounds[e.sid := Widened(if e.sid in bounds then bounds[e.sid] else Bounds(e.ts, e.ts), e.ts)]
  }

  lemma EntryStep(events: seq<Stamped>, e: Stamped, bounds: map<string, Bounds>, sid: string)
    requires EntryIsExact(events, bounds, sid)
    ensures EntryIsExact(events + [e], Extended(bounds, e), sid)
  {
    TimesStep(events, e, sid);
    if sid == e.sid {
      BoundsStep(TimesOf(events, sid), e.ts);
    }
  }

  lemma CollectedStep(events: seq<Stamped>, e: Stamped, ids: seq<string>, bounds: map<string, Bounds>)
    requires Collected(events, ids, bounds)
    ensures Collected(events + [e], if e.sid in bounds then ids else ids + [e.sid], Extended(bounds, e))
  {
    assert (events + [e])[..|events|] == events;
    SessionIdsAreExact(events);
    assert EntryIsExact(events, bounds, e.sid);
    forall sid ensures EntryIsExact(events + [e], Extended(bounds, e), sid) {
      EntryStep(events, e, bounds, sid);
    }
  }

  method CollectBounds(events: seq<Stamped>) returns (ids: seq<string>, bounds: map<string, Bounds>)
    ensures Collected(events, ids, bounds)
  {
    ids, bounds := [], map[];
    for i := 0 to |events|
      invariant Collected(events[..i], ids, bounds)
    {
      assert events[..i + 1] == events[..i] + [events[i]];
      CollectedStep(events[..i], events[i], ids, bounds);
      ghost var extended := Extended(bounds, events[i]);
      var sid, ts := events[i].sid, events[i].ts;
      if sid !in bounds {
        ids := ids + [sid];
        bounds := bounds[sid := Bounds(ts, ts)];
      }
      bounds := bounds[sid := Widened(bounds[sid], ts)];
      assert bounds == extended;
    }
    assert events[..|events|] == events;
  }

  // ---- The sweep over starts and ends ----

  datatype Step = Step(ts: nat, delta: int)

  function TimeOf(s: Step): nat {
    s.ts
  }

  function StepsOf(s: Session): seq<Step> {
    (if s.bounds.start != 0 then [Step(s.bounds.start, 1)] else [])
    + (if s.bounds.end != 0 then [Step(s.bounds.end, -1)] else [])
  }

  function StepsOfAll(sessions: seq<Session>): seq<Step> {
    if sessions == [] then [] else StepsOfAll(sessions[..|sessions| - 1]) + StepsOf(sessions[|sessions| - 1])
  }

  function Sum(steps: seq<Step>): int {
    if steps == [] then 0 else Sum(steps[..|steps| - 1]) + steps[|steps| - 1].delta
  }

  function Swept(sessions: seq<Session>): seq<Step> {
    StablySorted(TimeOf, StepsOfAll(sessions))
  }

  // One point of the timeline: how many sessions run after the step at this time.
  datatype Point = Point(ts: nat, concurrent: int)

  ghost predicate IsTimeline(timeline: seq<Point>, steps: seq<Step>) {
    && |timeline| == |steps|
    && forall i | 0 <= i < |steps| :: timeline[i] == Point(steps[i].ts, Sum(steps[..i + 1]))
  }

  method ListSteps(sessions: seq<Session>) returns (steps: seq<Step>)
    ensures steps == StepsOfAll(sessions)
  {
    steps := [];
    for i := 0 to |sessions|
      invariant steps == StepsOfAll(sessions[..i])
    {
      assert sessions[..i + 1][..i] == sessions[..i];
      var b := sessions[i].bounds;
      ghost var before := steps;
      if b.start != 0 {
        steps := steps + [Step(b.start, 1)];
      }
      if b.end != 0 {
        steps := steps + [Step(b.end, -1)];
      }
      assert steps == before + StepsOf(sessions[i]);
    }
    assert sessions[..|sessions|] == sessions;
  }

  method Sweep(steps: seq<Step>) returns (timeline: seq<Point>)
    ensures IsTimeline(timeline, steps)
  {
    timeline := [];
    var concurrent := 0;
    for i := 0 to |steps|
      invariant concurrent == Sum(steps[..i])
      invariant |timeline| == i
      invariant forall k | 0 <= k < i :: timeline[k] == Point(steps[k].ts, Sum(steps[..k + 1]))
    {
      assert steps[..i + 1][..i] == steps[..i];
      concurrent := concurrent + steps[i].delta;
      timeline := timeline + [Point(steps[i].ts, concurrent)];
    }
    assert steps[..|steps|] == steps;
  }

  method ListSessions(events: seq<Stamped>) returns (found: seq<Session>)
    ensures found == SessionsOf(events)
  {
    var ids, bounds := CollectBounds(events);
    SessionIdsAreExact(events);
    found := [];
    for i := 0 to |ids|
      invariant found == SessionsFor(events, ids[..i])
    {
      assert ids[..i + 1][..i] == ids[..i];
      assert ids[i] in ids && EntryIsExact(events, bounds, ids[i]);
      found := found + [Session(ids[i], bounds[ids[i]])];
    }
    assert ids[..|ids|] == ids;
  }

  method SessionLifecycle(events: seq<Stamped>) returns (sessions: seq<Session>, timeline: seq<Point>)
    ensures sessions == StablySorted(StartOf, SessionsOf(events))
    ensures IsTimeline(timeline, Swept(sessions))
  {
    var found := ListSessions(events);
    sessions := StablySorted(StartOf, found);
    var steps := ListSteps(sessions);
    timeline := Sweep(StablySorted(TimeOf, steps));
  }

  // ---- Why the sweep stays at or above zero ----

  lemma {:induction false} SumConcat(a: seq<Step>, b: seq<Step>)
    ensures Sum(a + b) == Sum(a) + Sum(b)
  {
    if b == [] {
      assert a + b == a;
    } else {
      var n := |b| - 1;
      SumConcat(a, b[..n]);
      assert (a + b)[..|a + b| - 1] == a + b[..n];
    }
  }

  predicate NeverNegative(steps: seq<Step>) {
    forall n | 0 <= n <= |steps| :: Sum(steps[..n]) >= 0
  }

  // The total of a prefix after one insertion.
  lemma InsertedPrefix(s: seq<Step>, x: Step, p: nat, n: nat)
    requires p <= |s| && n <= |s| + 1
    ensures Sum((s[..p] + [x] + s[p..])[..n]) == if n <= p then Sum(s[..n]) else Sum(s[..n - 1]) + x.delta
  {
    var all := s[..p] + [x] + s[p..];
    if n <= p {
      assert all[..n] == s[..n];
    } else {
      assert all[..n] == s[..p] + [x] + s[p..n - 1] && s[..n - 1] == s[..p] + s[p..n - 1];
      SumConcat(s[..p] + [x], s[p..n - 1]);
      SumConcat(s[..p], [x]);
      SumConcat(s[..p], s[p..n - 1]);
      assert [x][..0] == [];
    }
  }

  // A start is inserted before the end of the same session, whatever else has the same time.
  lemma PairKeepsNonNegative(s: seq<Step>, start: nat, end: nat)
    requires Ordered(TimeOf, s) && NeverNegative(s) && start <= end
    ensures NeverNegative(Inserted(TimeOf, Inserted(TimeOf, s, Step(start, 1)), Step(end, -1)))
  {
    var first, second := Step(start, 1), Step(end, -1);
    var p := InsertionPoint(TimeOf, s, first);
    var between := Inserted(TimeOf, s, first);
    InsertedStaysOrdered(s, first);
    var q := InsertionPoint(TimeOf, between, second);
    assert between[p] == first;
    assert p < q;
    forall n | 0 <= n <= |between| + 1
      ensures Sum(Inserted(TimeOf, between, second)[..n]) >= 0
    {
      InsertedPrefix(between, second, q, n);
      InsertedPrefix(s, first, p, if n <= q then n else n - 1);
    }
  }

  lemma InsertedStaysOrdered(s: seq<Step>, x: Step)
    requires Ordered(TimeOf, s)
    ensures Ordered(TimeOf, Inserted(TimeOf, s, x))
  {
    var p := InsertionPoint(TimeOf, s, x);
  }

  // An empty start beside a recorded end: the session contributes an end only.
  predicate Unopened(s: Session) {
    s.bounds.start == 0 && s.bounds.end != 0
  }

  predicate WellBounded(sessions: seq<Session>) {
    forall s | s in sessions :: s.bounds.start <= s.bounds.end
  }

  lemma SortedPair(steps: seq<Step>, a: Step, b: Step)
    ensures StablySorted(TimeOf, steps + [a, b])
         == Inserted(TimeOf, Inserted(TimeOf, StablySorted(TimeOf, steps), a), b)
  {
    assert (steps + [a, b])[..|steps| + 1] == steps + [a];
    assert (steps + [a])[..|steps|] == steps;
  }

  lemma {:induction false} PairedSweepNeverNegative(sessions: seq<Session>)
    requires WellBounded(sessions) && forall s | s in sessions :: !Unopened(s)
    ensures NeverNegative(Swept(sessions))
  {
    if sessions != [] {
      var front, s := sessions[..|sessions| - 1], sessions[|sessions| - 1];
      PairedSweepNeverNegative(front);
      if s.bounds.start != 0 {
        var before := StepsOfAll(front);
        assert StepsOf(s) == [Step(s.bounds.start, 1), Step(s.bounds.end, -1)];
        SortedPair(before, Step(s.bounds.start, 1), Step(s.bounds.end, -1));
        SortedIsOrdered(TimeOf, before);
        PairKeepsNonNegative(Swept(front), s.bounds.start, s.bounds.end);
      } else {
        assert s in sessions && !Unopened(s);
        assert StepsOf(s) == [];
        assert StepsOfAll(sessions) == StepsOfAll(front) + [] == StepsOfAll(front);
      }
    }
  }

  // ---- What the timeline counts ----

  predicate OpenAt(t: nat, s: Session) {
    s.bounds.start != 0 && s.bounds.start <= t < s.bounds.end
  }

  predicate UnopenedBy(t: nat, s: Session) {
    Unopened(s) && s.bounds.end <= t
  }

  function OpenCount(sessions: seq<Session>, t: nat): nat {
    if sessions == [] then 0
    else
      var last := sessions[|sessions| - 1];
      OpenCount(sessions[..|sessions| - 1], t) + (if OpenAt(t, last) then 1 else 0)
  }

  function UnopenedCount(sessions: seq<Session>, t: nat): nat {
    if sessions == [] then 0
    else
      var last := sessions[|sessions| - 1];
      UnopenedCount(sessions[..|sessions| - 1], t) + (if UnopenedBy(t, last) then 1 else 0)
  }

  function SumUpTo(steps: seq<Step>, t: nat): int {
    if steps == [] then 0
    else
      var last := steps[|steps| - 1];
      SumUpTo(steps[..|steps| - 1], t) + (if last.ts <= t then last.delta else 0)
  }

  lemma {:induction false} SumUpToConcat(a: seq<Step>, b: seq<Step>, t: nat)
    ensures SumUpTo(a + b, t) == SumUpTo(a, t) + SumUpTo(b, t)
  {
    if b == [] {
      assert a + b == a;
    } else {
      var n := |b| - 1;
      SumUpToConcat(a, b[..n], t);
      assert (a + b)[..|a + b| - 1] == a + b[..n];
    }
  }

  lemma SumUpToInserted(s: seq<Step>, x: Step, t: nat)
    requires Ordered(TimeOf, s)
    ensures SumUpTo(Inserted(TimeOf, s, x), t) == SumUpTo(s, t) + (if x.ts <= t then x.delta else 0)
  {
    var p := InsertionPoint(TimeOf, s, x);
    var low, high := s[..p], s[p..];
    assert s == low + high;
    SumUpToConcat(low, high, t);
    SumUpToConcat(low, [x], t);
    SumUpToConcat(low + [x], high, t);
    SumUpToOne(x, t);
  }

  lemma SumUpToOne(x: Step, t: nat)
    ensures SumUpTo([x], t) == if x.ts <= t then x.delta else 0
  {
    assert [x][..0] == [];
  }

  // Sorting does not change which steps fall at or before a time.
  lemma {:induction false} SumUpToSorted(steps: seq<Step>, t: nat)
    ensures SumUpTo(StablySorted(TimeOf, steps), t) == SumUpTo(steps, t)
  {
    if steps != [] {
      var front, x := steps[..|steps| - 1], steps[|steps| - 1];
      SumUpToSorted(front, t);
      SortedIsOrdered(TimeOf, front);
      SumUpToInserted(StablySorted(TimeOf, front), x, t);
    }
  }

  lemma {:induction false} StepsUpTo(sessions: seq<Session>, t: nat)
    requires WellBounded(sessions)
    ensures SumUpTo(StepsOfAll(sessions), t) == OpenCount(sessions, t) - UnopenedCount(sessions, t)
  {
    if sessions != [] {
      var front, s := sessions[..|sessions| - 1], sessions[|sessions| - 1];
      StepsUpTo(front, t);
      SumUpToConcat(StepsOfAll(front), StepsOf(s), t);
      StepsOfOneUpTo(s, t);
    }
  }

  lemma StepsOfOneUpTo(s: Session, t: nat)
    requires s.bounds.start <= s.bounds.end
    ensures SumUpTo(StepsOf(s), t) == (if OpenAt(t, s) then 1 else 0) - (if UnopenedBy(t, s) then 1 else 0)
  {
    var a, b := Step(s.bounds.start, 1), Step(s.bounds.end, -1);
    SumUpToOne(a, t);
    SumUpToOne(b, t);
    SumUpToConcat([a], [b], t);
    if s.bounds.start == 0 && s.bounds.end != 0 {
      assert StepsOf(s) == [b];
    } else if s.bounds.start != 0 {
      assert StepsOf(s) == [a] + [b];
    }
  }

  // In time order, the steps up to a time form a prefix.
  lemma {:induction false} PrefixUpTo(steps: seq<Step>, n: nat, t: nat)
    requires n <= |steps|
    requires (forall i | 0 <= i < n :: steps[i].ts <= t) && (forall i | n <= i < |steps| :: t < steps[i].ts)
    ensures SumUpTo(steps, t) == Sum(steps[..n])
  {
    if n < |steps| {
      PrefixUpTo(steps[..|steps| - 1], n, t);
      assert steps[..|steps| - 1][..n] == steps[..n];
    } else if n > 0 {
      PrefixUpTo(steps[..n - 1], n - 1, t);
      assert steps[..n] == steps && steps[..n - 1][..n - 1] == steps[..n - 1];
    }
  }

  lemma SweptInOrder(sessions: seq<Session>)
    ensures var steps := Swept(sessions);
      && (forall i, j | 0 <= i < j < |steps| :: steps[i].ts <= steps[j].ts)
      && multiset(steps) == multiset(StepsOfAll(sessions))
  {
    SortedIsOrdered(TimeOf, StepsOfAll(sessions));
    var steps := Swept(sessions);
    forall i, j | 0 <= i < j < |steps| ensures steps[i].ts <= steps[j].ts {
      assert TimeOf(steps[i]) <= TimeOf(steps[j]);
    }
  }

  lemma SumUpToSwept(sessions: seq<Session>, t: nat)
    requires WellBounded(sessions)
    ensures SumUpTo(Swept(sessions), t) == OpenCount(sessions, t) - UnopenedCount(sessions, t)
  {
    SumUpToSorted(StepsOfAll(sessions), t);
    StepsUpTo(sessions, t);
  }

  /** At the last point of a time, the timeline shows how many sessions are open then, less one for
      every session that has ended by then without a recorded start. */
  lemma TimelineCountsOpenSessions(sessions: seq<Session>, timeline: seq<Point>, i: nat)
    requires WellBounded(sessions) && IsTimeline(timeline, Swept(sessions))
    requires i < |timeline| && (i + 1 < |timeline| ==> timeline[i].ts < timeline[i + 1].ts)
    ensures timeline[i].concurrent == OpenCount(sessions, timeline[i].ts) - UnopenedCount(sessions, timeline[i].ts)
  {
    SweptInOrder(sessions);
    PrefixUpTo(Swept(sessions), i + 1, timeline[i].ts);
    SumUpToSwept(sessions, timeline[i].ts);
  }

  // ---- When the sweep balances ----

  /** The session has a recorded time, but its last event has none. */
  predicate LostItsStart(events: seq<Stamped>, sid: string) {
    var times := TimesOf(events, sid);
    times != [] && times[|times| - 1] == 0 && exists t :: t in times && t > 0
  }

  lemma {:induction false} SessionsForMembers(events: seq<Stamped>, ids: seq<string>, s: Session)
    requires forall sid | sid in ids :: TimesOf(events, sid) != []
    ensures s in SessionsFor(events, ids) <==> s.sid in ids && s.bounds == BoundsOf(TimesOf(events, s.sid))
  {
    if ids != [] {
      SessionsForMembers(events, ids[..|ids| - 1], s);
      assert ids == ids[..|ids| - 1] + [ids[|ids| - 1]];
    }
  }

  lemma SessionMembers(events: seq<Stamped>, s: Session)
    ensures s in StablySorted(StartOf, SessionsOf(events))
       <==> TimesOf(events, s.sid) != [] && s.bounds == BoundsOf(TimesOf(events, s.sid))
  {
    var sessions := SessionsOf(events);
    SessionIdsAreExact(events);
    SessionsForMembers(events, SessionIds(events), s);
    SortedIsOrdered(StartOf, sessions);
    assert s in multiset(StablySorted(StartOf, sessions)) <==> s in multiset(sessions);
  }

  lemma LostStartsAreUnopened(events: seq<Stamped>)
    ensures var sessions := StablySorted(StartOf, SessionsOf(events));
      WellBounded(sessions)
      && ((exists s :: s in sessions && Unopened(s)) <==> exists sid :: LostItsStart(events, sid))
  {
    var sessions := StablySorted(StartOf, SessionsOf(events));
    forall s | s in sessions
      ensures s.bounds.start <= s.bounds.end && (Unopened(s) <==> LostItsStart(events, s.sid))
    {
      SessionMembers(events, s);
      BoundsOfTimes(TimesOf(events, s.sid));
    }
    if sid :| LostItsStart(events, sid) {
      SessionMembers(events, Session(sid, BoundsOf(TimesOf(events, sid))));
    }
  }

  lemma {:induction false} SomeUnopened(sessions: seq<Session>, t: nat)
    requires forall s | s in sessions :: s.bounds.end <= t
    ensures UnopenedCount(sessions, t) == 0 <==> forall s | s in sessions :: !Unopened(s)
    ensures OpenCount(sessions, t) == 0
  {
    if sessions != [] {
      var front := sessions[..|sessions| - 1];
      SomeUnopened(front, t);
      assert sessions == front + [sessions[|sessions| - 1]];
    }
  }

  lemma {:induction false} LatestTime(sessions: seq<Session>) returns (t: nat)
    requires WellBounded(sessions)
    ensures forall s | s in sessions :: s.bounds.end <= t
    ensures forall x | x in StepsOfAll(sessions) :: x.ts <= t
  {
    t := 0;
    if sessions != [] {
      var front, last := sessions[..|sessions| - 1], sessions[|sessions| - 1];
      t := LatestTime(front);
      if last.bounds.end > t {
        t := last.bounds.end;
      }
      assert sessions == front + [last];
    }
  }

  // The whole sweep adds up to minus the number of sessions without a start.
  lemma SweepTotal(sessions: seq<Session>)
    requires WellBounded(sessions)
    ensures Sum(Swept(sessions)) == 0 <==> forall s | s in sessions :: !Unopened(s)
    ensures Sum(Swept(sessions)) <= 0
  {
    var t := LatestTime(sessions);
    var steps := Swept(sessions);
    SweptInOrder(sessions);
    forall i | 0 <= i < |steps| ensures steps[i].ts <= t {
      assert steps[i] in multiset(steps);
    }
    PrefixUpTo(steps, |steps|, t);
    assert steps[..|steps|] == steps;
    SumUpToSwept(sessions, t);
    SomeUnopened(sessions, t);
  }

  /** The sweep over a log never goes below zero exactly when every session that has a time ends with
      an event that has one, and exactly then it also ends at zero. */
  lemma SweepBalances(events: seq<Stamped>)
    ensures var steps := Swept(StablySorted(StartOf, SessionsOf(events)));
      && (NeverNegative(steps) <==> !exists sid :: LostItsStart(events, sid))
      && (Sum(steps) == 0 <==> !exists sid :: LostItsStart(events, sid))
  {
    var sessions := StablySorted(StartOf, SessionsOf(events));
    var steps := Swept(sessions);
    LostStartsAreUnopened(events);
    SweepTotal(sessions);
    if !exists s :: s in sessions && Unopened(s) {
      PairedSweepNeverNegative(sessions);
    } else {
      assert steps[..|steps|] == steps;
    }
  }
}
