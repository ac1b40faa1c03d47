/** The registry of shared terminal sessions: one entry per session name with a count of the
    connections that reserved a slot on it. Connections come, evict and go in any interleaving. */
module SubscriberRegistry {
  import opened Options

  type Name = string
  type Pty = nat          // identity of a terminal helper
  type ConnectionId = nat

  const MAX_SUBSCRIBERS: nat := 8

  datatype Entry = Entry(pty: Pty, count: nat)

  // A live connection, with the helper it obtained and whether it reserved a slot.
  datatype Connection = Connection(name: Name, pty: Option<Pty>, reserved: bool)

  datatype Registry = Registry(entries: map<Name, Entry>, live: map<ConnectionId, Connection>, nextPty: Pty)

  datatype Event =
    | Connect(id: ConnectionId, name: Name, factoryWorks: bool)
    | Evict(id: ConnectionId)
    | Finish(id: ConnectionId)

  // Count a connection in, construct the helper on the first one, refuse the ninth.
  function AfterConnect(r: Registry, id: ConnectionId, name: Name, factoryWorks: bool): Registry {
    if id in r.live then r
    else if name in r.entries then
      var e := r.entries[name];
      if e.count >= MAX_SUBSCRIBERS then r
      else r.(entries := r.entries[name := e.(count := e.count + 1)],
              live := r.live[id := Connection(name, Some(e.pty), true)])
    else if factoryWorks then
      Registry(r.entries[name := Entry(r.nextPty, 1)],
               r.live[id := Connection(name, Some(r.nextPty), true)],
               r.nextPty + 1)
    else r.(live := r.live[id := Connection(name, None, false)])
  }

  // Deletes the entry of a connection's session if it still holds that connection's helper.
  function AfterEvict(r: Registry, id: ConnectionId): Registry {
    if id in r.live && OwnEntry(r, id) then r.(entries := r.entries - {r.live[id].name}) else r
  }

  predicate OwnEntry(r: Registry, id: ConnectionId)
    requires id in r.live
  {
    var c := r.live[id];
    c.name in r.entries && c.pty == Some(r.entries[c.name].pty)
  }

  // The final decrement looks the entry up by name alone.
  function AfterFinish(r: Registry, id: ConnectionId): Registry {
    if id !in r.live then r else
      var c := r.live[id];
      var live := r.live - {id};
      if c.reserved && c.name in r.entries then
        var e := r.entries[c.name];
        r.(entries := r.entries[c.name := e.(count := if e.count == 0 then 0 else e.count - 1)], live := live)
      else r.(live := live)
  }

  function Next(r: Registry, e: Event): Registry {
    match e
    case Connect(id, name, factoryWorks) => AfterConnect(r, id, name, factoryWorks)
    case Evict(id) => AfterEvict(r, id)
    case Finish(id) => AfterFinish(r, id)
  }

  function AfterEvents(r: Registry, events: seq<Event>): Registry {
    if events == [] then r else Next(AfterEvents(r, events[..|events| - 1]), events[|events| - 1])
  }

  const EMPTY := Registry(map[], map[], 0)

  // ---- The dictionary as the server updates it ----

  class SessionRegistry {
    var entries: map<Name, Entry>
    var live: map<ConnectionId, Connection>
    var nextPty: Pty

    ghost function View(): Registry
      reads this
    {
      Registry(entries, live, nextPty)
    }

    constructor ()
      ensures View() == EMPTY
    {
      entries, live, nextPty := map[], map[], 0;
    }

    method Reserve(id: ConnectionId, name: Name, factoryWorks: bool) returns (refused: bool)
      requires id !in live
      modifies this
      ensures View() == Next(old(View()), Connect(id, name, factoryWorks))
      ensures refused <==> id !in live
    {
      if name in entries {
        var entry := entries[name];
        if entry.count >= MAX_SUBSCRIBERS {
          return true;
        }
        entries := entries[name := entry.(count := entry.count + 1)];
        live := live[id := Connection(name, Some(entry.pty), true)];
      } else if factoryWorks {
        entries := entries[name := Entry(nextPty, 1)];
        live := live[id := Connection(name, Some(nextPty), true)];
        nextPty := nextPty + 1;
      } else {
        live := live[id := Connection(name, None, false)];
      }
      return false;
    }

    method EvictIfSame(id: ConnectionId)
      requires id in live
      modifies this`entries
      ensures View() == Next(old(View()), Evict(id))
      ensures forall name | name in old(entries) && Some(old(entries)[name].pty) != live[id].pty ::
        name in entries && entries[name] == old(entries)[name]
    {
      var c := live[id];
      if c.name in entries && c.pty == Some(entries[c.name].pty) {
        entries := entries - {c.name};
      }
    }

    method Release(id: ConnectionId)
      requires id in live
      modifies this`entries, this`live
      ensures View() == Next(old(View()), Finish(id))
    {
      var c := live[id];
      if c.reserved && c.name in entries {
        var entry := entries[c.name];
        entries := entries[c.name := entry.(count := if entry.count == 0 then 0 else entry.count - 1)];
      }
      live := live - {id};
    }
  }

  // ---- Counts against live connections ----

  function Holders(live: map<ConnectionId, Connection>, pty: Pty): set<ConnectionId> {
    set id | id in live && live[id].reserved && live[id].pty == Some(pty)
  }

  // Decrements that hit an entry although their connection had reserved on another one, and own
  // decrements that found the count already at zero.
  datatype Ledger = Ledger(stale: map<Pty, nat>, clamped: map<Pty, nat>)

  function At(m: map<Pty, nat>, pty: Pty): nat {
    if pty in m then m[pty] else 0
  }

  // A decrement that will hit an entry its connection never reserved.
  predicate StaleFinish(r: Registry, e: Event) {
    && e.Finish? && e.id in r.live && r.live[e.id].reserved
    && r.live[e.id].name in r.entries && !OwnEntry(r, e.id)
    && r.entries[r.live[e.id].name].count > 0
  }

  predicate ClampedFinish(r: Registry, e: Event) {
    && e.Finish? && e.id in r.live && r.live[e.id].reserved
    && OwnEntry(r, e.id) && r.entries[r.live[e.id].name].count == 0
  }

  function Noted(l: Ledger, r: Registry, e: Event): Ledger {
    if StaleFinish(r, e) then
      var pty := r.entries[r.live[e.id].name].pty;
      l.(stale := l.stale[pty := At(l.stale, pty) + 1])
    else if ClampedFinish(r, e) then
      var pty := r.entries[r.live[e.id].name].pty;
      l.(clamped := l.clamped[pty := At(l.clamped, pty) + 1])
    else l
  }

  function LedgerOf(events: seq<Event>): Ledger {
    if events == [] then Ledger(map[], map[]) else
      var n := |events| - 1;
      Noted(LedgerOf(events[..n]), AfterEvents(EMPTY, events[..n]), events[n])
  }

  // Helpers are handed out once, and a connection holds the helper of its own session name.
  ghost predicate Consistent(r: Registry) {
    && (forall name | name in r.entries :: r.entries[name].pty < r.nextPty && r.entries[name].count <= MAX_SUBSCRIBERS)
    && (forall id | id in r.live && r.live[id].pty.Some? :: r.live[id].pty.value < r.nextPty)
    && (forall id | id in r.live && r.live[id].reserved :: r.live[id].pty.Some?)
    && (forall a, b | a in r.entries && b in r.entries && a != b :: r.entries[a].pty != r.entries[b].pty)
    && (forall id | id in r.live :: OwnSession(r.entries, r.live[id]))
  }

  ghost predicate OwnSession(entries: map<Name, Entry>, c: Connection) {
    forall name | name in entries && c.pty == Some(entries[name].pty) :: c.name == name
  }

  // The exact balance of an entry's count.
  ghost predicate BalancedEntry(live: map<ConnectionId, Connection>, l: Ledger, e: Entry) {
    && e.count + At(l.stale, e.pty) == |Holders(live, e.pty)| + At(l.clamped, e.pty)
    && e.count <= |Holders(live, e.pty)|
  }

  ghost predicate Balanced(r: Registry, l: Ledger) {
    && (forall name | name in r.entries :: BalancedEntry(r.live, l, r.entries[name]))
    && (forall pty | pty in l.stale || pty in l.clamped :: pty < r.nextPty)
  }

  lemma JoinHolders(live: map<ConnectionId, Connection>, id: ConnectionId, c: Connection, pty: Pty)
    requires id !in live
    ensures |Holders(live[id := c], pty)|
         == |Holders(live, pty)| + if c.reserved && c.pty == Some(pty) then 1 else 0
  {
    var after := Holders(live[id := c], pty);
    if c.reserved && c.pty == Some(pty) {
      assert after == Holders(live, pty) + {id};
    } else {
      assert after == Holders(live, pty);
    }
  }

  lemma LeaveHolders(live: map<ConnectionId, Connection>, id: ConnectionId, pty: Pty)
    requires id in live
    ensures |Holders(live - {id}, pty)|
         == |Holders(live, pty)| - if live[id].reserved && live[id].pty == Some(pty) then 1 else 0
  {
    var after := Holders(live - {id}, pty);
    if live[id].reserved && live[id].pty == Some(pty) {
      assert Holders(live, pty) == after + {id};
    } else {
      assert after == Holders(live, pty);
    }
  }

  lemma ConnectConsistent(r: Registry, id: ConnectionId, name: Name, factoryWorks: bool)
    requires Consistent(r)
    ensures Consistent(AfterConnect(r, id, name, factoryWorks))
  {
    var after := AfterConnect(r, id, name, factoryWorks);
    forall i | i in after.live ensures OwnSession(after.entries, after.live[i]) {
      if i in r.live {
        assert OwnSession(r.entries, r.live[i]);
      }
    }
  }

  lemma ConnectBalanced(r: Registry, l: Ledger, id: ConnectionId, name: Name, factoryWorks: bool)
    requires Consistent(r) && Balanced(r, l)
    ensures Balanced(AfterConnect(r, id, name, factoryWorks), l)
  {
    var after := AfterConnect(r, id, name, factoryWorks);
    if id !in r.live && id in after.live {
      forall n | n in after.entries ensures BalancedEntry(after.live, l, after.entries[n]) {
        var e := after.entries[n];
        JoinHolders(r.live, id, after.live[id], e.pty);
        if n == name && name !in r.entries {
          assert Holders(r.live, r.nextPty) == {};
        } else {
          assert BalancedEntry(r.live, l, r.entries[n]);
        }
      }
    }
  }

  lemma EvictStep(r: Registry, l: Ledger, id: ConnectionId)
    requires Consistent(r) && Balanced(r, l)
    ensures Consistent(AfterEvict(r, id)) && Balanced(AfterEvict(r, id), Noted(l, r, Evict(id)))
  {
    var after := AfterEvict(r, id);
    forall i | i in after.live ensures OwnSession(after.entries, after.live[i]) {
      assert OwnSession(r.entries, r.live[i]);
    }
  }

  lemma FinishConsistent(r: Registry, id: ConnectionId)
    requires Consistent(r)
    ensures Consistent(AfterFinish(r, id))
  {
    var after := AfterFinish(r, id);
    assert forall n | n in after.entries :: n in r.entries && after.entries[n].pty == r.entries[n].pty;
    assert forall i | i in after.live :: i in r.live && after.live[i] == r.live[i];
  }

  lemma FinishBalanced(r: Registry, l: Ledger, id: ConnectionId)
    requires Consistent(r) && Balanced(r, l) && id in r.live
    ensures Balanced(AfterFinish(r, id), Noted(l, r, Finish(id)))
  {
    var after := AfterFinish(r, id);
    var noted := Noted(l, r, Finish(id));
    forall n | n in after.entries ensures BalancedEntry(after.live, noted, after.entries[n]) {
      assert BalancedEntry(r.live, l, r.entries[n]);
      LeaveHolders(r.live, id, r.entries[n].pty);
      FinishedEntry(r, l, id, n);
    }
  }

  lemma FinishedEntry(r: Registry, l: Ledger, id: ConnectionId, n: Name)
    requires Consistent(r) && id in r.live && n in r.entries
    requires BalancedEntry(r.live, l, r.entries[n])
    requires |Holders(r.live - {id}, r.entries[n].pty)| == |Holders(r.live, r.entries[n].pty)|
      - if r.live[id].reserved && r.live[id].pty == Some(r.entries[n].pty) then 1 else 0
    ensures n in AfterFinish(r, id).entries
    ensures BalancedEntry(r.live - {id}, Noted(l, r, Finish(id)), AfterFinish(r, id).entries[n])
  {
    var c := r.live[id];
    if !c.reserved || c.name != n {
      // This entry is untouched, and its pty differs from any the ledger changes.
      if c.reserved && c.name in r.entries {
        assert r.entries[c.name].pty != r.entries[n].pty;
      }
    }
  }

  /** In every interleaving: names and helpers are paired one to one, counts stay within 0 and 8, and
      each count is the number of live holders, less the stale decrements, plus the clamped ones; in
      particular it never exceeds the live holders. */
  lemma {:induction false} RunsStayBalanced(events: seq<Event>)
    ensures Consistent(AfterEvents(EMPTY, events))
    ensures Balanced(AfterEvents(EMPTY, events), LedgerOf(events))
  {
    if events != [] {
      var n := |events| - 1;
      var r := AfterEvents(EMPTY, events[..n]);
      var l := LedgerOf(events[..n]);
      RunsStayBalanced(events[..n]);
      match events[n]
      case Connect(id, name, factoryWorks) =>
        ConnectConsistent(r, id, name, factoryWorks);
        ConnectBalanced(r, l, id, name, factoryWorks);
      case Evict(id) => EvictStep(r, l, id);
      case Finish(id) =>
        if id in r.live {
          FinishConsistent(r, id);
          FinishBalanced(r, l, id);
        }
    }
  }

  // Every connection that releases a slot releases it on the entry it reserved, unless that session
  // name has no entry any more.
  ghost predicate NoStaleFinish(events: seq<Event>) {
    forall n | 0 <= n < |events| :: !StaleFinish(AfterEvents(EMPTY, events[..n]), events[n])
  }

  lemma {:induction false} LedgerStaysClean(events: seq<Event>)
    requires NoStaleFinish(events)
    ensures LedgerOf(events) == Ledger(map[], map[])
  {
    if events != [] {
      var n := |events| - 1;
      assert forall k | 0 <= k < n :: events[..n][..k] == events[..k];
      LedgerStaysClean(events[..n]);
      RunsStayBalanced(events[..n]);
      var r := AfterEvents(EMPTY, events[..n]);
      var e := events[n];
      if e.Finish? && e.id in r.live && r.live[e.id].reserved && OwnEntry(r, e.id) {
        assert e.id in Holders(r.live, r.entries[r.live[e.id].name].pty);
      }
    }
  }

  /** Without stale decrements every count is exactly the number of live connections holding a slot
      on that entry, so no more than eight connections share a session. */
  lemma CountsExactWithoutStaleFinish(events: seq<Event>, name: Name)
    requires NoStaleFinish(events)
    requires name in AfterEvents(EMPTY, events).entries
    ensures var r := AfterEvents(EMPTY, events);
      var e := r.entries[name];
      e.count == |Holders(r.live, e.pty)| <= MAX_SUBSCRIBERS
  {
    RunsStayBalanced(events);
    LedgerStaysClean(events);
  }

  ghost predicate CountsExact(r: Registry) {
    forall name | name in r.entries :: r.entries[name].count == |Holders(r.live, r.entries[name].pty)|
  }

  // A stale decrement lowers a count whose holders stay.
  lemma StaleFinishBreaksCount(r: Registry, e: Event)
    requires CountsExact(r) && StaleFinish(r, e)
    ensures !CountsExact(Next(r, e))
  {
    var name := r.live[e.id].name;
    var pty := r.entries[name].pty;
    var after := Next(r, e);
    LeaveHolders(r.live, e.id, pty);
    assert after.entries[name] == Entry(pty, r.entries[name].count - 1);
    assert |Holders(after.live, pty)| == r.entries[name].count;
  }

  // The eviction removes an entry on which a live connection still holds a slot.
  predicate EvictsHeldEntry(r: Registry, e: Event) {
    && e.Evict? && e.id in r.live && OwnEntry(r, e.id)
    && Holders(r.live, r.entries[r.live[e.id].name].pty) != {}
  }

  ghost predicate NoHeldEviction(events: seq<Event>) {
    forall n | 0 <= n < |events| :: !EvictsHeldEntry(AfterEvents(EMPTY, events[..n]), events[n])
  }

  // Every live connection that reserved a slot still finds the entry it reserved on.
  ghost predicate HoldersKeepEntries(r: Registry) {
    forall id | id in r.live && r.live[id].reserved :: OwnEntry(r, id)
  }

  lemma HoldersKeepEntriesStep(r: Registry, e: Event)
    requires Consistent(r) && HoldersKeepEntries(r) && !EvictsHeldEntry(r, e)
    ensures HoldersKeepEntries(Next(r, e))
  {
    var after := Next(r, e);
    forall id | id in after.live && after.live[id].reserved ensures OwnEntry(after, id) {
      if id in r.live {
        assert OwnEntry(r, id);
        assert id in Holders(r.live, r.entries[r.live[id].name].pty);
      }
    }
  }

  lemma {:induction false} HeldEntriesStay(events: seq<Event>)
    requires NoHeldEviction(events)
    ensures HoldersKeepEntries(AfterEvents(EMPTY, events))
  {
    if events != [] {
      var n := |events| - 1;
      NoHeldEvictionPrefix(events, n);
      HeldEntriesStay(events[..n]);
      RunsStayBalanced(events[..n]);
      HoldersKeepEntriesStep(AfterEvents(EMPTY, events[..n]), events[n]);
    }
  }

  lemma NoHeldEvictionPrefix(events: seq<Event>, n: nat)
    requires NoHeldEviction(events) && n <= |events|
    ensures NoHeldEviction(events[..n])
  {
    forall k | 0 <= k < n ensures !EvictsHeldEntry(AfterEvents(EMPTY, events[..n][..k]), events[..n][k]) {
      assert events[..n][..k] == events[..k];
    }
  }

  lemma HoldersAreNeverStale(r: Registry, e: Event)
    requires HoldersKeepEntries(r)
    ensures !StaleFinish(r, e)
  {
  }

  /** If no eviction in a run removes an entry that still has live holders, no release in it is stale,
      and so every count stays exact. */
  lemma HeldEntriesKeepCountsExact(events: seq<Event>)
    requires NoHeldEviction(events)
    ensures NoStaleFinish(events)
  {
    forall n | 0 <= n < |events| ensures !StaleFinish(AfterEvents(EMPTY, events[..n]), events[n]) {
      NoHeldEvictionPrefix(events, n);
      HeldEntriesStay(events[..n]);
      HoldersAreNeverStale(AfterEvents(EMPTY, events[..n]), events[n]);
    }
  }

  lemma CleanRunIsExact(events: seq<Event>)
    requires NoStaleFinish(events)
    ensures CountsExact(AfterEvents(EMPTY, events))
  {
    RunsStayBalanced(events);
    LedgerStaysClean(events);
  }

  /** Every count is exact after every step of a run if and only if no release in it takes a slot of an
      entry that its connection never reserved. */
  lemma CountsExactIffNoStaleFinish(events: seq<Event>)
    ensures (forall n | 0 <= n <= |events| :: CountsExact(AfterEvents(EMPTY, events[..n])))
       <==> NoStaleFinish(events)
  {
    if NoStaleFinish(events) {
      forall n | 0 <= n <= |events| ensures CountsExact(AfterEvents(EMPTY, events[..n])) {
        NoStaleFinishPrefix(events, n);
        CleanRunIsExact(events[..n]);
      }
    } else {
      var n :| 0 <= n < |events| && StaleFinish(AfterEvents(EMPTY, events[..n]), events[n]);
      assert events[..n + 1][..n] == events[..n];
      if CountsExact(AfterEvents(EMPTY, events[..n])) {
        StaleFinishBreaksCount(AfterEvents(EMPTY, events[..n]), events[n]);
        assert !CountsExact(AfterEvents(EMPTY, events[..n + 1]));
      }
    }
  }

  lemma NoStaleFinishPrefix(events: seq<Event>, n: nat)
    requires NoStaleFinish(events) && n <= |events|
    ensures NoStaleFinish(events[..n])
  {
    forall k | 0 <= k < n ensures !StaleFinish(AfterEvents(EMPTY, events[..n][..k]), events[..n][k]) {
      assert events[..n][..k] == events[..k];
    }
  }

  /** A stale decrement does undercount: after an eviction and a reconnect, the first connection's
      release brings the new entry to zero while its only holder is still live. */
  lemma StaleFinishUndercounts(name: Name)
    ensures var r := AfterEvents(EMPTY,
        [Connect(0, name, true), Evict(0), Connect(1, name, true), Finish(0)]);
      name in r.entries && r.entries[name] == Entry(1, 0) && Holders(r.live, 1) == {1}
  {
    var e1, e2, e3 := [Connect(0, name, true)], [Connect(0, name, true), Evict(0)],
      [Connect(0, name, true), Evict(0), Connect(1, name, true)];
    var e4 := [Connect(0, name, true), Evict(0), Connect(1, name, true), Finish(0)];
    assert e1[..0] == [] && e2[..1] == e1 && e3[..2] == e2 && e4[..3] == e3;
    assert AfterEvents(EMPTY, e1) == Registry(map[name := Entry(0, 1)], map[0 := Connection(name, Some(0), true)], 1);
    assert AfterEvents(EMPTY, e2).entries == map[];
    assert AfterEvents(EMPTY, e3).entries == map[name := Entry(1, 1)];
  }

  /** A connection is turned away exactly when its session counts eight connections; otherwise it shares
      the helper of its session, if there is one, and is counted. */
  lemma AdmittedExactlyBelowCap(events: seq<Event>, id: ConnectionId, name: Name, factoryWorks: bool)
    requires id !in AfterEvents(EMPTY, events).live
    ensures var r := AfterEvents(EMPTY, events);
      var after := AfterConnect(r, id, name, factoryWorks);
      && (id in after.live <==> !(name in r.entries && r.entries[name].count == MAX_SUBSCRIBERS))
      && (name in r.entries && id in after.live ==>
            && after.live[id] == Connection(name, Some(r.entries[name].pty), true)
            && after.entries[name] == Entry(r.entries[name].pty, r.entries[name].count + 1))
      && (forall other | other in r.entries && other != name ::
            other in after.entries && after.entries[other] == r.entries[other])
  {
    RunsStayBalanced(events);
  }

  /** Without stale releases a connection is turned away exactly when eight live ones hold a slot of its
      session. */
  lemma AdmittedExactlyBelowEightHolders(events: seq<Event>, id: ConnectionId, name: Name, factoryWorks: bool)
    requires NoStaleFinish(events) && id !in AfterEvents(EMPTY, events).live
    ensures var r := AfterEvents(EMPTY, events);
      id in AfterConnect(r, id, name, factoryWorks).live
      <==> !(name in r.entries && |Holders(r.live, r.entries[name].pty)| == MAX_SUBSCRIBERS)
  {
    AdmittedExactlyBelowCap(events, id, name, factoryWorks);
    CleanRunIsExact(events);
  }

  /** An eviction by the connection whose helper the entry holds removes it, and the next connection to
      that session gets a helper that no live connection has. */
  lemma EvictedSessionIsRebuilt(events: seq<Event>, id: ConnectionId, later: ConnectionId)
    requires var r := AfterEvents(EMPTY, events);
      id in r.live && OwnEntry(r, id) && later !in r.live
    ensures var r := AfterEvents(EMPTY, events);
      var name := r.live[id].name;
      var after := AfterConnect(AfterEvict(r, id), later, name, true);
      && name !in AfterEvict(r, id).entries
      && later in after.live && after.live[later].pty.Some?
      && after.entries[name] == Entry(after.live[later].pty.value, 1)
      && (forall other | other in r.live :: r.live[other].pty != after.live[later].pty)
  {
    RunsStayBalanced(events);
  }
}
