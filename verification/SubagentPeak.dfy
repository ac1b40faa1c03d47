/** The peak number of subagents that run at once. Timestamps are numbers that keep their textual order;
    zero stands for the empty one. */
module SubagentPeak {
  import opened Sequences
  import opened StableSorting

  datatype Kind = SubagentStart | SubagentStop | OtherKind
  datatype AgentEvent = AgentEvent(kind: Kind, ts: nat)

  function AgentTime(e: AgentEvent): nat {
    e.ts
  }

  function StartsAndStops(events: seq<AgentEvent>): seq<AgentEvent> {
    if events == [] then []
    else
      var last := events[|events| - 1];
      StartsAndStops(events[..|events| - 1]) + (if last.kind != OtherKind then [last] else [])
  }

  function InTimeOrder(events: seq<AgentEvent>): seq<AgentEvent> {
    StablySorted(AgentTime, StartsAndStops(events))
  }

  function Change(e: AgentEvent): int {
    match e.kind
    case SubagentStart => 1
    case SubagentStop => -1
    case OtherKind => 0
  }

  // Starts minus stops among the events from i up to j.
  function Net(events: seq<AgentEvent>, i: nat, j: nat): int
    requires i <= j <= |events|
  {
    if i == j then 0 else Net(events, i, j - 1) + Change(events[j - 1])
  }

  // The largest net change of any window that ends at n.
  ghost predicate LargestEndingAt(events: seq<AgentEvent>, n: nat, largest: int)
    requires n <= |events|
  {
    && (forall i: nat | i <= n :: Net(events, i, n) <= largest)
    && (exists i: nat :: i <= n && Net(events, i, n) == largest)
  }

  ghost predicate LargestWindow(events: seq<AgentEvent>, n: nat, largest: int)
    requires n <= |events|
  {
    && (forall i: nat, j: nat | i <= j <= n :: Net(events, i, j) <= largest)
    && (exists i: nat, j: nat :: i <= j <= n && Net(events, i, j) == largest)
  }

  lemma LargestEndingNext(events: seq<AgentEvent>, n: nat, largest: nat)
    requires n < |events| && LargestEndingAt(events, n, largest)
    ensures var more := largest + Change(events[n]);
      LargestEndingAt(events, n + 1, if more > 0 then more else 0)
  {
    var i: nat :| i <= n && Net(events, i, n) == largest;
    var more := largest + Change(events[n]);
    assert Net(events, i, n + 1) == more;
    assert Net(events, n + 1, n + 1) == 0;
    var ending := if more > 0 then more else 0;
    var next := n + 1;
    forall k: nat | k <= next ensures Net(events, k, next) <= ending {
      if k <= n {
        assert Net(events, k, next) == Net(events, k, n) + Change(events[n]);
      }
    }
  }

  // The largest window so far, and then the largest one that ends here.
  lemma LargestWindowNext(events: seq<AgentEvent>, n: nat, largest: nat, ending: nat)
    requires n < |events| && LargestWindow(events, n, largest) && LargestEndingAt(events, n + 1, ending)
    ensures LargestWindow(events, n + 1, if ending > largest then ending else largest)
  {
    var a: nat, b: nat :| a <= b <= n && Net(events, a, b) == largest;
    var i: nat :| i <= n + 1 && Net(events, i, n + 1) == ending;
    forall c: nat, d: nat | c <= d <= n + 1
      ensures Net(events, c, d) <= if ending > largest then ending else largest
    {
      if d <= n {
        assert Net(events, c, d) <= largest;
      } else {
        assert Net(events, c, n + 1) <= ending;
      }
    }
  }

  lemma {:induction false} KindsKept(events: seq<AgentEvent>)
    ensures forall e | e in StartsAndStops(events) :: e.kind != OtherKind
  {
    if events != [] {
      KindsKept(events[..|events| - 1]);
    }
  }

  lemma OnlyStartsAndStops(events: seq<AgentEvent>)
    ensures forall i | 0 <= i < |InTimeOrder(events)| :: InTimeOrder(events)[i].kind != OtherKind
  {
    var kept := StartsAndStops(events);
    var sorted := InTimeOrder(events);
    KindsKept(events);
    SortedIsOrdered(AgentTime, kept);
    forall i | 0 <= i < |sorted| ensures sorted[i].kind != OtherKind {
      assert sorted[i] in multiset(sorted);
      assert sorted[i] in multiset(kept);
    }
  }

  // ---- The events that are neither starts nor stops do not matter ----

  lemma KeptAppend(events: seq<AgentEvent>, e: AgentEvent)
    ensures StartsAndStops(events + [e])
         == if e.kind != OtherKind then StartsAndStops(events) + [e] else StartsAndStops(events)
  {
    assert (events + [e])[..|events|] == events;
  }

  lemma {:induction false} KeptAreEvents(events: seq<AgentEvent>)
    ensures forall e | e in StartsAndStops(events) :: e in events
  {
    if events != [] {
      var n := |events| - 1;
      assert events == events[..n] + [events[n]];
      KeptAreEvents(events[..n]);
    }
  }

  lemma {:induction false} KeptInserted(s: seq<AgentEvent>, x: AgentEvent)
    requires Ordered(AgentTime, s)
    ensures StartsAndStops(Inserted(AgentTime, s, x))
         == if x.kind != OtherKind then Inserted(AgentTime, StartsAndStops(s), x) else StartsAndStops(s)
  {
    if s == [] || AgentTime(s[|s| - 1]) <= AgentTime(x) {
      KeptAppend(s, x);
      LastKeptIsEarlier(s, x);
    } else {
      var front, last := s[..|s| - 1], s[|s| - 1];
      assert s == front + [last];
      KeptInserted(front, x);
      KeptAppend(Inserted(AgentTime, front, x), last);
      KeptAppend(front, last);
      if last.kind != OtherKind {
        assert (StartsAndStops(front) + [last])[..|StartsAndStops(front)|] == StartsAndStops(front);
      }
    }
  }

  lemma LastKeptIsEarlier(s: seq<AgentEvent>, x: AgentEvent)
    requires Ordered(AgentTime, s) && (s == [] || AgentTime(s[|s| - 1]) <= AgentTime(x))
    ensures Inserted(AgentTime, StartsAndStops(s), x) == StartsAndStops(s) + [x]
  {
    var kept := StartsAndStops(s);
    KeptAreEvents(s);
    if kept != [] {
      assert kept[|kept| - 1] in kept;
      var i :| 0 <= i < |s| && s[i] == kept[|kept| - 1];
      assert AgentTime(s[i]) <= AgentTime(s[|s| - 1]);
    }
  }

  lemma {:induction false} KeptSorted(events: seq<AgentEvent>)
    ensures StartsAndStops(StablySorted(AgentTime, events)) == InTimeOrder(events)
  {
    if events != [] {
      var front, last := events[..|events| - 1], events[|events| - 1];
      assert events == front + [last];
      KeptSorted(front);
      SortedIsOrdered(AgentTime, front);
      KeptInserted(StablySorted(AgentTime, front), last);
      KeptAppend(front, last);
      if last.kind != OtherKind {
        assert (StartsAndStops(front) + [last])[..|StartsAndStops(front)|] == StartsAndStops(front);
      }
    }
  }

  function NetOf(events: seq<AgentEvent>): int {
    if events == [] then 0 else NetOf(events[..|events| - 1]) + Change(events[|events| - 1])
  }

  lemma {:induction false} NetIsDifference(events: seq<AgentEvent>, i: nat, j: nat)
    requires i <= j <= |events|
    ensures Net(events, i, j) == NetOf(events[..j]) - NetOf(events[..i])
  {
    if i < j {
      NetIsDifference(events, i, j - 1);
      assert events[..j][..j - 1] == events[..j - 1];
    }
  }

  lemma NetOfAppend(events: seq<AgentEvent>, e: AgentEvent)
    ensures NetOf(events + [e]) == NetOf(events) + Change(e)
  {
    assert (events + [e])[..|events|] == events;
  }

  lemma {:induction false} NetOfKept(events: seq<AgentEvent>)
    ensures NetOf(StartsAndStops(events)) == NetOf(events)
  {
    if events != [] {
      var front, last := events[..|events| - 1], events[|events| - 1];
      assert events == front + [last];
      NetOfKept(front);
      KeptAppend(front, last);
      NetOfAppend(front, last);
      NetOfAppend(StartsAndStops(front), last);
    }
  }

  // How many of the first i events are kept.
  function KeptBefore(events: seq<AgentEvent>, i: nat): nat
    requires i <= |events|
  {
    |StartsAndStops(events[..i])|
  }

  lemma {:induction false} KeptPrefix(events: seq<AgentEvent>, i: nat)
    requires i <= |events|
    ensures KeptBefore(events, i) <= |StartsAndStops(events)|
    ensures StartsAndStops(events)[..KeptBefore(events, i)] == StartsAndStops(events[..i])
    decreases |events|
  {
    if i == |events| {
      assert events[..i] == events;
    } else {
      var front := events[..|events| - 1];
      assert front[..i] == events[..i];
      KeptPrefix(front, i);
    }
  }

  lemma {:induction false} KeptBeforeGrows(events: seq<AgentEvent>, i: nat, j: nat)
    requires i <= j <= |events|
    ensures KeptBefore(events, i) <= KeptBefore(events, j)
  {
    KeptPrefix(events[..j], i);
    assert events[..j][..i] == events[..i];
  }

  lemma {:induction false} KeptBeforeHits(events: seq<AgentEvent>, k: nat) returns (i: nat)
    requires k <= |StartsAndStops(events)|
    ensures i <= |events| && KeptBefore(events, i) == k
  {
    if k == |StartsAndStops(events)| {
      i := |events|;
      assert events[..i] == events;
    } else {
      var front := events[..|events| - 1];
      i := KeptBeforeHits(front, k);
      assert front[..i] == events[..i];
    }
  }

  lemma WindowOfKept(events: seq<AgentEvent>, i: nat, j: nat)
    requires i <= j <= |events|
    ensures KeptBefore(events, i) <= KeptBefore(events, j) <= |StartsAndStops(events)|
    ensures Net(StartsAndStops(events), KeptBefore(events, i), KeptBefore(events, j)) == Net(events, i, j)
  {
    KeptBeforeGrows(events, i, j);
    KeptPrefix(events, i);
    KeptPrefix(events, j);
    NetIsDifference(events, i, j);
    NetIsDifference(StartsAndStops(events), KeptBefore(events, i), KeptBefore(events, j));
    NetOfKept(events[..i]);
    NetOfKept(events[..j]);
  }

  lemma WindowsOfKept(events: seq<AgentEvent>, largest: int)
    requires LargestWindow(StartsAndStops(events), |StartsAndStops(events)|, largest)
    ensures LargestWindow(events, |events|, largest)
  {
    forall i: nat, j: nat | i <= j <= |events| ensures Net(events, i, j) <= largest {
      WindowOfKept(events, i, j);
    }
    var a: nat, b: nat :| a <= b <= |StartsAndStops(events)| && Net(StartsAndStops(events), a, b) == largest;
    var j := KeptBeforeHits(events, b);
    KeptPrefix(events, j);
    var i := KeptBeforeHits(events[..j], a);
    assert events[..j][..i] == events[..i];
    WindowOfKept(events, i, j);
  }

  lemma PeakOverAllEvents(events: seq<AgentEvent>, peak: int)
    requires LargestWindow(InTimeOrder(events), |InTimeOrder(events)|, peak)
    ensures var all := StablySorted(AgentTime, events);
            LargestWindow(all, |all|, peak)
  {
    KeptSorted(events);
    WindowsOfKept(StablySorted(AgentTime, events), peak);
  }

  /** The clamped counter finds the largest surplus of starts over stops in any run of consecutive
      events, in time order. */
  method PeakSubagents(events: seq<AgentEvent>) returns (peak: nat)
    ensures LargestWindow(InTimeOrder(events), |InTimeOrder(events)|, peak)
    ensures var all := StablySorted(AgentTime, events);
            LargestWindow(all, |all|, peak)
  {
    var sorted := InTimeOrder(events);
    OnlyStartsAndStops(events);
    var active: nat := 0;
    peak := 0;
    assert Net(sorted, 0, 0) == 0;
    for n := 0 to |sorted|
      invariant LargestEndingAt(sorted, n, active)
      invariant LargestWindow(sorted, n, peak)
    {
      assert sorted[n].kind != OtherKind;
      LargestEndingNext(sorted, n, active);
      LargestWindowNext(sorted, n, peak, if active + Change(sorted[n]) > 0 then active + Change(sorted[n]) else 0);
      if sorted[n].kind == SubagentStart {
        active := active + 1;
        peak := if active > peak then active else peak;
      } else {
        active := if active > 0 then active - 1 else 0;
      }
    }
    PeakOverAllEvents(events, peak);
  }
}
