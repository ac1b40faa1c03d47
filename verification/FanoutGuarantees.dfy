/** What a broadcast promises its subscribers, stated without the staging set, the iteration flag or
    the snapshot loop, and then over whole runs. */
module FanoutGuarantees {
  import opened Sequences
  import opened Fanout

  // ---- Which callbacks are served ----

  // snapshot[k] is called unless a callback served before it asked for its removal.
  ghost predicate Served(snapshot: seq<Subscriber>, turns: nat -> Turn, k: nat)
    requires k < |snapshot|
    decreases k
  {
    forall j | 0 <= j < k && Served(snapshot, turns, j) :: Remove(snapshot[k]) !in turns(j).ops
  }

  ghost function ServedFrom(snapshot: seq<Subscriber>, turns: nat -> Turn, i: nat): (r: seq<Subscriber>)
    requires i <= |snapshot|
    decreases |snapshot| - i
  {
    if i == |snapshot| then []
    else if Served(snapshot, turns, i) then [snapshot[i]] + ServedFrom(snapshot, turns, i + 1)
    else ServedFrom(snapshot, turns, i + 1)
  }

  // The registry calls made by the served callbacks, in order.
  ghost function OpsFrom(snapshot: seq<Subscriber>, turns: nat -> Turn, i: nat): seq<Op>
    requires i <= |snapshot|
    decreases |snapshot| - i
  {
    if i == |snapshot| then []
    else if Served(snapshot, turns, i) then turns(i).ops + OpsFrom(snapshot, turns, i + 1)
    else OpsFrom(snapshot, turns, i + 1)
  }

  ghost function RaisersFrom(snapshot: seq<Subscriber>, turns: nat -> Turn, i: nat): set<Subscriber>
    requires i <= |snapshot|
    decreases |snapshot| - i
  {
    if i == |snapshot| then {}
    else if Served(snapshot, turns, i) && turns(i).outcome.Raised? then
      {snapshot[i]} + RaisersFrom(snapshot, turns, i + 1)
    else RaisersFrom(snapshot, turns, i + 1)
  }

  // ---- What a list of calls does to the subscribers of an open registry ----

  // New subscribers join at the end; nobody leaves before the broadcast is over.
  function Grown(subs: seq<Subscriber>, ops: seq<Op>): seq<Subscriber> {
    if ops == [] then subs else
      var before := Grown(subs, ops[..|ops| - 1]);
      match ops[|ops| - 1]
      case Add(cb) => if cb in before then before else before + [cb]
      case _ => before
  }

  // cb was subscribed, at first or by then, when one of the calls removed it.
  predicate Unsubscribed(subs: seq<Subscriber>, ops: seq<Op>, cb: Subscriber) {
    exists p | 0 <= p < |ops| :: ops[p] == Remove(cb) && (cb in subs || Add(cb) in ops[..p])
  }

  lemma {:induction false} GrownMembers(subs: seq<Subscriber>, ops: seq<Op>, cb: Subscriber)
    ensures cb in Grown(subs, ops) <==> cb in subs || Add(cb) in ops
    ensures subs <= Grown(subs, ops)
    ensures Distinct(subs) ==> Distinct(Grown(subs, ops))
  {
    if ops != [] {
      var before := ops[..|ops| - 1];
      GrownMembers(subs, before, cb);
      assert ops == before + [ops[|ops| - 1]];
    }
  }

  lemma {:induction false} OpsOnOpenRegistry(st: State, ops: seq<Op>)
    requires !st.closed && st.iterating && Close !in ops
    ensures AfterOps(st, ops) == st.(subs := Grown(st.subs, ops), pending := AfterOps(st, ops).pending)
    ensures forall cb :: cb in AfterOps(st, ops).pending <==> cb in st.pending || Unsubscribed(st.subs, ops, cb)
  {
    if ops != [] {
      var n := |ops| - 1;
      var before := ops[..n];
      assert ops == before + [ops[n]];
      OpsOnOpenRegistry(st, before);
      forall cb
        ensures cb in AfterOps(st, ops).pending <==> cb in st.pending || Unsubscribed(st.subs, ops, cb)
      {
        GrownMembers(st.subs, before, cb);
        UnsubscribedStep(st.subs, ops, cb);
      }
    }
  }

  lemma UnsubscribedStep(subs: seq<Subscriber>, ops: seq<Op>, cb: Subscriber)
    requires ops != []
    ensures var before := ops[..|ops| - 1];
      Unsubscribed(subs, ops, cb) <==>
        Unsubscribed(subs, before, cb) || (ops[|ops| - 1] == Remove(cb) && (cb in subs || Add(cb) in before))
  {
    var n := |ops| - 1;
    var before := ops[..n];
    if Unsubscribed(subs, before, cb) {
      var p :| 0 <= p < n && before[p] == Remove(cb) && (cb in subs || Add(cb) in before[..p]);
      assert before[..p] == ops[..p];
    }
    if Unsubscribed(subs, ops, cb) {
      var p :| 0 <= p <= n && ops[p] == Remove(cb) && (cb in subs || Add(cb) in ops[..p]);
      if p < n {
        assert before[..p] == ops[..p];
      }
    }
  }

  lemma {:induction false} GrownConcat(subs: seq<Subscriber>, a: seq<Op>, b: seq<Op>)
    ensures Grown(subs, a + b) == Grown(Grown(subs, a), b)
  {
    if b == [] {
      assert a + b == a;
    } else {
      GrownConcat(subs, a, b[..|b| - 1]);
      assert (a + b)[..|a + b| - 1] == a + b[..|b| - 1];
    }
  }

  lemma UnsubscribedConcat(subs: seq<Subscriber>, a: seq<Op>, b: seq<Op>, cb: Subscriber)
    ensures Unsubscribed(subs, a + b, cb) <==> Unsubscribed(subs, a, cb) || Unsubscribed(Grown(subs, a), b, cb)
  {
    GrownMembers(subs, a, cb);
    var all := a + b;
    if Unsubscribed(subs, all, cb) {
      var p :| 0 <= p < |all| && all[p] == Remove(cb) && (cb in subs || Add(cb) in all[..p]);
      if p < |a| {
        assert all[..p] == a[..p];
      } else {
        assert all[..p] == a + b[..p - |a|];
        assert b[p - |a|] == Remove(cb);
      }
    }
    if Unsubscribed(subs, a, cb) {
      var p :| 0 <= p < |a| && a[p] == Remove(cb) && (cb in subs || Add(cb) in a[..p]);
      assert all[..p] == a[..p] && all[p] == a[p];
    }
    if Unsubscribed(Grown(subs, a), b, cb) {
      var p :| 0 <= p < |b| && b[p] == Remove(cb) && (cb in Grown(subs, a) || Add(cb) in b[..p]);
      assert all[..|a| + p] == a + b[..p] && all[|a| + p] == b[p];
    }
  }

  // ---- One broadcast without close or cancellation ----

  predicate CalmTurn(turn: Turn) {
    Close !in turn.ops && !turn.outcome.Cancelled?
  }

  predicate CalmBefore(turns: nat -> Turn, n: nat) {
    forall i: nat | i < n :: CalmTurn(turns(i))
  }

  ghost predicate Calm(turns: nat -> Turn) {
    forall i: nat :: CalmTurn(turns(i))
  }

  // A callback served before turn i asked for the removal of snapshot[k].
  ghost predicate RemovedBefore(snapshot: seq<Subscriber>, turns: nat -> Turn, i: nat, k: nat)
    requires i <= |snapshot| && k < |snapshot|
  {
    exists j | 0 <= j < i :: Served(snapshot, turns, j) && Remove(snapshot[k]) in turns(j).ops
  }

  lemma RemovedByTurn(snapshot: seq<Subscriber>, turns: nat -> Turn, i: nat, k: nat)
    requires i < |snapshot| && k < |snapshot|
    ensures RemovedBefore(snapshot, turns, i + 1, k)
       <==> RemovedBefore(snapshot, turns, i, k)
            || (Served(snapshot, turns, i) && Remove(snapshot[k]) in turns(i).ops)
  {
    if RemovedBefore(snapshot, turns, i, k) {
      var j :| 0 <= j < i && Served(snapshot, turns, j) && Remove(snapshot[k]) in turns(j).ops;
      assert 0 <= j < i + 1;
    }
  }

  // The staging set knows, for each callback still waiting, whether it has been removed.
  ghost predicate StagedExactly(st: State, snapshot: seq<Subscriber>, i: nat, turns: nat -> Turn) {
    && i <= |snapshot| && !st.closed && st.iterating
    && Distinct(snapshot) && snapshot <= st.subs
    && forall k | i <= k < |snapshot| :: snapshot[k] in st.pending <==> RemovedBefore(snapshot, turns, i, k)
  }

  lemma ServedUnlessRemoved(snapshot: seq<Subscriber>, turns: nat -> Turn, i: nat)
    requires i < |snapshot|
    ensures Served(snapshot, turns, i) <==> !RemovedBefore(snapshot, turns, i, i)
  {
  }

  // What one served turn stages, for a callback that is still waiting.
  lemma TurnStages(st: State, snapshot: seq<Subscriber>, i: nat, turns: nat -> Turn, k: nat)
    requires !st.closed && st.iterating && Distinct(snapshot) && snapshot <= st.subs
    requires i < k < |snapshot| && CalmTurn(turns(i))
    ensures snapshot[k] in AfterTurn(st, snapshot[i], turns(i)).pending
       <==> snapshot[k] in st.pending || Remove(snapshot[k]) in turns(i).ops
  {
    var ops := turns(i).ops;
    OpsOnOpenRegistry(st, ops);
    assert snapshot[k] == st.subs[k];
    if Remove(snapshot[k]) in ops {
      var p :| 0 <= p < |ops| && ops[p] == Remove(snapshot[k]);
      assert Unsubscribed(st.subs, ops, snapshot[k]);
    }
  }

  lemma TurnKeepsSubscribers(st: State, cb: Subscriber, turn: Turn)
    requires !st.closed && st.iterating && Close !in turn.ops
    ensures var after := AfterTurn(st, cb, turn);
      !after.closed && after.iterating && st.subs <= after.subs
  {
    OpsOnOpenRegistry(st, turn.ops);
    GrownMembers(st.subs, turn.ops, cb);
  }

  lemma TurnKeepsStaging(st: State, snapshot: seq<Subscriber>, i: nat, turns: nat -> Turn)
    requires StagedExactly(st, snapshot, i, turns)
    requires i < |snapshot| && CalmTurn(turns(i))
    ensures Served(snapshot, turns, i) <==> snapshot[i] !in st.pending
    ensures StagedExactly(if Served(snapshot, turns, i) then AfterTurn(st, snapshot[i], turns(i)) else st,
                          snapshot, i + 1, turns)
  {
    ServedUnlessRemoved(snapshot, turns, i);
    TurnKeepsSubscribers(st, snapshot[i], turns(i));
    var after := if Served(snapshot, turns, i) then AfterTurn(st, snapshot[i], turns(i)) else st;
    forall k | i + 1 <= k < |snapshot|
      ensures snapshot[k] in after.pending <==> RemovedBefore(snapshot, turns, i + 1, k)
    {
      RemovedByTurn(snapshot, turns, i, k);
      TurnStages(st, snapshot, i, turns, k);
    }
  }

  lemma TurnThenRest(subs: seq<Subscriber>, ops: seq<Op>, rest: seq<Op>)
    ensures Grown(subs, ops + rest) == Grown(Grown(subs, ops), rest)
    ensures forall cb :: Unsubscribed(subs, ops + rest, cb)
                    <==> Unsubscribed(subs, ops, cb) || Unsubscribed(Grown(subs, ops), rest, cb)
  {
    GrownConcat(subs, ops, rest);
    forall cb ensures Unsubscribed(subs, ops + rest, cb)
                 <==> Unsubscribed(subs, ops, cb) || Unsubscribed(Grown(subs, ops), rest, cb) {
      UnsubscribedConcat(subs, ops, rest, cb);
    }
  }

  lemma TurnGrows(st: State, cb: Subscriber, turn: Turn)
    requires !st.closed && st.iterating && Close !in turn.ops
    ensures AfterTurn(st, cb, turn).subs == Grown(st.subs, turn.ops)
  {
    OpsOnOpenRegistry(st, turn.ops);
  }

  lemma {:induction false} SweepCalls(st: State, snapshot: seq<Subscriber>, i: nat, turns: nat -> Turn)
    requires StagedExactly(st, snapshot, i, turns) && CalmBefore(turns, |snapshot|)
    ensures var swept := Sweep(st, snapshot, i, turns);
      && swept.called == ServedFrom(snapshot, turns, i)
      && !swept.cancelled
      && !swept.st.closed
      && swept.st.subs == Grown(st.subs, OpsFrom(snapshot, turns, i))
    decreases |snapshot| - i
  {
    if i < |snapshot| {
      TurnKeepsStaging(st, snapshot, i, turns);
      if Served(snapshot, turns, i) {
        var after := AfterTurn(st, snapshot[i], turns(i));
        TurnGrows(st, snapshot[i], turns(i));
        SweepCalls(after, snapshot, i + 1, turns);
        assert Sweep(st, snapshot, i, turns)
          == Prefixed([snapshot[i]], Sweep(after, snapshot, i + 1, turns));
        GrownConcat(st.subs, turns(i).ops, OpsFrom(snapshot, turns, i + 1));
      } else {
        SweepCalls(st, snapshot, i + 1, turns);
      }
    }
  }

  lemma {:induction false} SweepStages(st: State, snapshot: seq<Subscriber>, i: nat, turns: nat -> Turn, cb: Subscriber)
    requires StagedExactly(st, snapshot, i, turns) && CalmBefore(turns, |snapshot|)
    ensures cb in Sweep(st, snapshot, i, turns).st.pending
       <==> cb in st.pending || Unsubscribed(st.subs, OpsFrom(snapshot, turns, i), cb)
            || cb in RaisersFrom(snapshot, turns, i)
    decreases |snapshot| - i
  {
    if i < |snapshot| {
      TurnKeepsStaging(st, snapshot, i, turns);
      if Served(snapshot, turns, i) {
        OpsOnOpenRegistry(st, turns(i).ops);
        SweepStages(AfterTurn(st, snapshot[i], turns(i)), snapshot, i + 1, turns, cb);
        UnsubscribedConcat(st.subs, turns(i).ops, OpsFrom(snapshot, turns, i + 1), cb);
      } else {
        SweepStages(st, snapshot, i + 1, turns, cb);
      }
    }
  }

  lemma SweepServes(st: State, snapshot: seq<Subscriber>, i: nat, turns: nat -> Turn)
    requires StagedExactly(st, snapshot, i, turns) && CalmBefore(turns, |snapshot|)
    ensures var swept := Sweep(st, snapshot, i, turns);
      var ops := OpsFrom(snapshot, turns, i);
      && swept.called == ServedFrom(snapshot, turns, i)
      && !swept.cancelled
      && !swept.st.closed
      && swept.st.subs == Grown(st.subs, ops)
      && forall cb :: cb in swept.st.pending <==>
           cb in st.pending || Unsubscribed(st.subs, ops, cb) || cb in RaisersFrom(snapshot, turns, i)
  {
    SweepCalls(st, snapshot, i, turns);
    forall cb ensures cb in Sweep(st, snapshot, i, turns).st.pending <==>
      || cb in st.pending || Unsubscribed(st.subs, OpsFrom(snapshot, turns, i), cb)
      || cb in RaisersFrom(snapshot, turns, i)
    {
      SweepStages(st, snapshot, i, turns, cb);
    }
  }

  /** A broadcast calls exactly the subscribers present at its start that no earlier callback
      removed, in order; afterwards the registry holds those plus the ones added meanwhile, in
      order, without the removed and the raising ones. */
  lemma BroadcastContract(st: State, turns: nat -> Turn)
    requires StateValid(st) && !st.closed && !st.iterating && CalmBefore(turns, |st.subs|)
    ensures var result := Broadcast(st, turns);
      var ops := OpsFrom(st.subs, turns, 0);
      && result.called == ServedFrom(st.subs, turns, 0)
      && !result.cancelled
      && result.st == State(Without(Grown(st.subs, ops), Sweep(st.(iterating := true), st.subs, 0, turns).st.pending),
                            false, false, {})
      && forall cb :: cb in result.st.subs <==>
           && (cb in st.subs || Add(cb) in ops)
           && !Unsubscribed(st.subs, ops, cb)
           && cb !in RaisersFrom(st.subs, turns, 0)
  {
    var start := st.(iterating := true);
    SweepServes(start, st.subs, 0, turns);
    var ops := OpsFrom(st.subs, turns, 0);
    forall cb ensures cb in Grown(st.subs, ops) <==> cb in st.subs || Add(cb) in ops {
      GrownMembers(st.subs, ops, cb);
    }
  }

  // ---- Closing from inside a callback ----

  lemma {:induction false} OpsOnClosedRegistry(st: State, ops: seq<Op>)
    requires st.closed && st.subs == []
    ensures AfterOps(st, ops) == st || AfterOps(st, ops) == st.(pending := {})
  {
    if ops != [] {
      OpsOnClosedRegistry(st, ops[..|ops| - 1]);
    }
  }

  lemma {:induction false} CloseWins(st: State, ops: seq<Op>)
    requires Close in ops
    ensures AfterOps(st, ops) == State([], true, st.iterating, {})
  {
    var n := |ops| - 1;
    if ops[n] == Close {
      OpsKeepIterating(st, ops[..n]);
    } else {
      assert ops == ops[..n] + [ops[n]];
      CloseWins(st, ops[..n]);
    }
  }

  lemma {:induction false} OpsKeepIterating(st: State, ops: seq<Op>)
    ensures AfterOps(st, ops).iterating == st.iterating
  {
    if ops != [] {
      OpsKeepIterating(st, ops[..|ops| - 1]);
    }
  }

  lemma {:induction false} ClosedSweepServesAll(st: State, snapshot: seq<Subscriber>, i: nat, turns: nat -> Turn)
    requires st.closed && st.subs == [] && i <= |snapshot| && Distinct(snapshot)
    requires forall k | i <= k < |snapshot| :: snapshot[k] !in st.pending
    requires forall k: nat | i <= k < |snapshot| :: !turns(k).outcome.Cancelled?
    ensures var swept := Sweep(st, snapshot, i, turns);
      swept.called == snapshot[i..] && !swept.cancelled && swept.st.closed && swept.st.subs == []
    decreases |snapshot| - i
  {
    if i < |snapshot| {
      OpsOnClosedRegistry(st, turns(i).ops);
      ClosedSweepServesAll(AfterTurn(st, snapshot[i], turns(i)), snapshot, i + 1, turns);
      assert snapshot[i..] == [snapshot[i]] + snapshot[i + 1..];
    }
  }

  /** When a served callback closes the registry, every later subscriber of the snapshot is still
      called, even one whose removal had been staged; afterwards the registry is closed and empty. */
  lemma CloseDuringBroadcast(st: State, snapshot: seq<Subscriber>, k: nat, turns: nat -> Turn)
    requires !st.closed && st.iterating && k < |snapshot| && Distinct(snapshot)
    requires snapshot[k] !in st.pending && Close in turns(k).ops
    requires forall i: nat | k <= i < |snapshot| :: !turns(i).outcome.Cancelled?
    ensures var swept := Sweep(st, snapshot, k, turns);
      swept.called == snapshot[k..] && Settle(swept.st) == State([], true, false, {})
  {
    CloseWins(st, turns(k).ops);
    var after := AfterTurn(st, snapshot[k], turns(k));
    ClosedSweepServesAll(after, snapshot, k + 1, turns);
    assert snapshot[k..] == [snapshot[k]] + snapshot[k + 1..];
  }

  // ---- Broadcasts that are closed or cancelled on the way ----

  lemma {:induction false} ServedPrefix(snapshot: seq<Subscriber>, turns: nat -> Turn, k: nat, j: nat)
    requires j < k <= |snapshot|
    ensures Served(snapshot[..k], turns, j) <==> Served(snapshot, turns, j)
    decreases j
  {
    forall i: nat | i < j ensures Served(snapshot[..k], turns, i) <==> Served(snapshot, turns, i) {
      ServedPrefix(snapshot, turns, k, i);
    }
  }

  // A sweep that nobody cancels before position k goes on from there.
  lemma {:induction false} SweepInTwoParts(st: State, snapshot: seq<Subscriber>, i: nat, k: nat, turns: nat -> Turn)
    requires i <= k <= |snapshot| && CalmBefore(turns, k)
    ensures var first := Sweep(st, snapshot[..k], i, turns);
      Sweep(st, snapshot, i, turns) == Prefixed(first.called, Sweep(first.st, snapshot, k, turns))
    decreases k - i
  {
    if i < k {
      var cb := snapshot[i];
      if cb in st.pending {
        SweepInTwoParts(st, snapshot, i + 1, k, turns);
      } else {
        SweepInTwoParts(AfterTurn(st, cb, turns(i)), snapshot, i + 1, k, turns);
      }
    }
  }

  lemma {:induction false} StagedUpTo(st: State, snapshot: seq<Subscriber>, i: nat, k: nat, turns: nat -> Turn)
    requires i <= k <= |snapshot| && StagedExactly(st, snapshot, i, turns) && CalmBefore(turns, k)
    ensures StagedExactly(Sweep(st, snapshot[..k], i, turns).st, snapshot, k, turns)
    decreases k - i
  {
    if i < k {
      TurnKeepsStaging(st, snapshot, i, turns);
      if Served(snapshot, turns, i) {
        StagedUpTo(AfterTurn(st, snapshot[i], turns(i)), snapshot, i + 1, k, turns);
      } else {
        StagedUpTo(st, snapshot, i + 1, k, turns);
      }
    }
  }

  // The registry when callback k is about to be served, and what the broadcast does from there on.
  lemma BroadcastReaches(st: State, k: nat, turns: nat -> Turn) returns (at: State)
    requires StateValid(st) && !st.closed && !st.iterating && k < |st.subs| && CalmBefore(turns, k)
    ensures StagedExactly(at, st.subs, k, turns)
    ensures var rest := Sweep(at, st.subs, k, turns);
      && Broadcast(st, turns)
         == Swept(Settle(rest.st), ServedFrom(st.subs[..k], turns, 0) + rest.called, rest.cancelled)
      && Sweep(st.(iterating := true), st.subs, 0, turns).st == rest.st
    ensures var ops := OpsFrom(st.subs[..k], turns, 0);
      && at.subs == Grown(st.subs, ops)
      && forall cb :: cb in at.pending <==>
           Unsubscribed(st.subs, ops, cb) || cb in RaisersFrom(st.subs[..k], turns, 0)
  {
    var start := st.(iterating := true);
    var first := Sweep(start, st.subs[..k], 0, turns);
    SweepServes(start, st.subs[..k], 0, turns);
    SweepInTwoParts(start, st.subs, 0, k, turns);
    StagedUpTo(start, st.subs, 0, k, turns);
    at := first.st;
  }

  /** A broadcast whose callback k closes the registry serves the callbacks before k as usual and then
      every one from k on, removed or not, and leaves the registry closed and empty. */
  lemma ClosingBroadcast(st: State, k: nat, turns: nat -> Turn)
    requires StateValid(st) && !st.closed && !st.iterating && k < |st.subs| && CalmBefore(turns, k)
    requires Served(st.subs, turns, k) && Close in turns(k).ops
    requires forall i: nat | k <= i < |st.subs| :: !turns(i).outcome.Cancelled?
    ensures Broadcast(st, turns)
         == Swept(State([], true, false, {}), ServedFrom(st.subs[..k], turns, 0) + st.subs[k..], false)
  {
    var at := BroadcastReaches(st, k, turns);
    ServedUnlessRemoved(st.subs, turns, k);
    CloseDuringBroadcast(at, st.subs, k, turns);
    SweepNotCancelled(at, st.subs, k, turns);
  }

  lemma {:induction false} SweepNotCancelled(st: State, snapshot: seq<Subscriber>, i: nat, turns: nat -> Turn)
    requires i <= |snapshot| && forall k: nat | i <= k < |snapshot| :: !turns(k).outcome.Cancelled?
    ensures !Sweep(st, snapshot, i, turns).cancelled
    decreases |snapshot| - i
  {
    if i < |snapshot| {
      if snapshot[i] in st.pending {
        SweepNotCancelled(st, snapshot, i + 1, turns);
      } else {
        SweepNotCancelled(AfterTurn(st, snapshot[i], turns(i)), snapshot, i + 1, turns);
      }
    }
  }

  /** A broadcast cancelled in callback k still settles the registry: nobody after k is called, and what
      the callbacks up to k subscribed, unsubscribed or closed takes effect. */
  lemma CancelledBroadcast(st: State, k: nat, turns: nat -> Turn)
    requires StateValid(st) && !st.closed && !st.iterating && k < |st.subs| && CalmBefore(turns, k)
    requires Served(st.subs, turns, k) && turns(k).outcome.Cancelled?
    ensures var result := Broadcast(st, turns);
      var ops := OpsFrom(st.subs[..k], turns, 0) + turns(k).ops;
      && result.cancelled
      && result.called == ServedFrom(st.subs[..k], turns, 0) + [st.subs[k]]
      && result.st.closed == (Close in turns(k).ops)
      && !result.st.iterating && result.st.pending == {}
      && (result.st.closed ==> result.st.subs == [])
      && (!result.st.closed ==>
            result.st.subs
            == Without(Grown(st.subs, ops), Sweep(st.(iterating := true), st.subs, 0, turns).st.pending))
      && (!result.st.closed ==> forall cb :: cb in result.st.subs <==>
           && (cb in st.subs || Add(cb) in ops)
           && !Unsubscribed(st.subs, ops, cb)
           && cb !in RaisersFrom(st.subs[..k], turns, 0))
  {
    var at := BroadcastReaches(st, k, turns);
    var before, ops := OpsFrom(st.subs[..k], turns, 0), turns(k).ops;
    ServedUnlessRemoved(st.subs, turns, k);
    if Close in ops {
      CloseWins(at, ops);
    } else {
      OpsOnOpenRegistry(at, ops);
      TurnThenRest(st.subs, before, ops);
      forall cb ensures cb in Grown(st.subs, before + ops) <==> cb in st.subs || Add(cb) in before + ops {
        GrownMembers(st.subs, before + ops, cb);
      }
    }
  }

  // ---- Every behaviour, with closes and cancellations ----

  lemma {:induction false} OpsKeepShape(st: State, ops: seq<Op>)
    requires Distinct(st.subs) && (st.closed ==> st.subs == [])
    ensures Distinct(AfterOps(st, ops).subs)
    ensures AfterOps(st, ops).closed ==> AfterOps(st, ops).subs == []
    ensures st.closed ==> AfterOps(st, ops).closed
    ensures !st.iterating && st.pending == {} ==> AfterOps(st, ops).pending == {}
  {
    if ops != [] {
      OpsKeepShape(st, ops[..|ops| - 1]);
      OpsKeepIterating(st, ops[..|ops| - 1]);
    }
  }

  lemma {:induction false} SweepKeepsShape(st: State, snapshot: seq<Subscriber>, i: nat, turns: nat -> Turn)
    requires i <= |snapshot| && Distinct(st.subs) && (st.closed ==> st.subs == [])
    ensures var after := Sweep(st, snapshot, i, turns).st;
      Distinct(after.subs) && (after.closed ==> after.subs == []) && (st.closed ==> after.closed)
    decreases |snapshot| - i
  {
    if i < |snapshot| {
      if snapshot[i] in st.pending {
        SweepKeepsShape(st, snapshot, i + 1, turns);
      } else {
        OpsKeepShape(st, turns(i).ops);
        SweepKeepsShape(AfterTurn(st, snapshot[i], turns(i)), snapshot, i + 1, turns);
      }
    }
  }

  // ---- Whole runs ----

  datatype Step = Call(op: Op) | Chunk(turns: nat -> Turn)
  datatype Delivery = Delivery(step: nat, cb: Subscriber)

  function AfterStep(st: State, step: Step): State {
    match step
    case Call(op) => AfterOp(st, op)
    case Chunk(turns) => Broadcast(st, turns).st
  }

  function AfterSteps(st: State, steps: seq<Step>): State {
    if |steps| == 0 then st else AfterStep(AfterSteps(st, steps[..|steps| - 1]), steps[|steps| - 1])
  }

  function CalledBy(st: State, step: Step): seq<Subscriber> {
    if step.Chunk? then Broadcast(st, step.turns).called else []
  }

  function Labelled(step: nat, called: seq<Subscriber>): seq<Delivery> {
    seq(|called|, i requires 0 <= i < |called| => Delivery(step, called[i]))
  }

  // Every callback invocation of a run, labelled with the step whose chunk it received.
  function Deliveries(st: State, steps: seq<Step>): seq<Delivery> {
    if |steps| == 0 then [] else
      var n := |steps| - 1;
      Deliveries(st, steps[..n]) + Labelled(n, CalledBy(AfterSteps(st, steps[..n]), steps[n]))
  }

  ghost predicate Idle(st: State) {
    StateValid(st) && !st.iterating
  }

  lemma StepKeepsIdle(st: State, step: Step)
    requires Idle(st)
    ensures Idle(AfterStep(st, step))
    ensures st.closed ==> AfterStep(st, step).closed && CalledBy(st, step) == []
  {
    if step.Chunk? && !st.closed {
      SweepKeepsShape(st.(iterating := true), st.subs, 0, step.turns);
    }
  }

  /** Between steps of any run the registry has no duplicate, no staged removal and no broadcast in
      progress; once closed it stays closed and empty, and nobody is called any more. */
  lemma {:induction false} RunsStayIdle(st: State, steps: seq<Step>)
    requires Idle(st)
    ensures Idle(AfterSteps(st, steps))
    ensures st.closed ==> AfterSteps(st, steps).closed && Deliveries(st, steps) == []
  {
    if |steps| > 0 {
      RunsStayIdle(st, steps[..|steps| - 1]);
      StepKeepsIdle(AfterSteps(st, steps[..|steps| - 1]), steps[|steps| - 1]);
    }
  }

  ghost predicate CalmStep(step: Step) {
    match step
    case Call(op) => !op.Close?
    case Chunk(turns) => Calm(turns)
  }

  ghost predicate CalmRun(steps: seq<Step>) {
    forall n | 0 <= n < |steps| :: CalmStep(steps[n])
  }

  ghost predicate ServedAfter(subs: seq<Subscriber>, turns: nat -> Turn, i: nat, cb: Subscriber) {
    exists k | i <= k < |subs| :: subs[k] == cb && Served(subs, turns, k)
  }

  ghost predicate ServedTo(subs: seq<Subscriber>, turns: nat -> Turn, cb: Subscriber) {
    ServedAfter(subs, turns, 0, cb)
  }

  lemma ServedNowOrLater(subs: seq<Subscriber>, turns: nat -> Turn, i: nat, cb: Subscriber)
    requires Distinct(subs) && i < |subs|
    ensures subs[i] != cb ==> (ServedAfter(subs, turns, i, cb) <==> ServedAfter(subs, turns, i + 1, cb))
    ensures subs[i] == cb ==> !ServedAfter(subs, turns, i + 1, cb)
    ensures subs[i] == cb ==> (ServedAfter(subs, turns, i, cb) <==> Served(subs, turns, i))
  {
    if subs[i] == cb {
      assert forall k | i + 1 <= k < |subs| :: subs[k] != cb;
    }
  }

  lemma {:induction false} ServedOnce(subs: seq<Subscriber>, turns: nat -> Turn, i: nat, cb: Subscriber)
    requires Distinct(subs) && i <= |subs|
    ensures multiset(ServedFrom(subs, turns, i))[cb] == if ServedAfter(subs, turns, i, cb) then 1 else 0
    decreases |subs| - i
  {
    if i < |subs| {
      ServedOnce(subs, turns, i + 1, cb);
      ServedNowOrLater(subs, turns, i, cb);
    }
  }

  lemma {:induction false} LabelledCount(step: nat, called: seq<Subscriber>, d: Delivery)
    ensures multiset(Labelled(step, called))[d] == if d.step == step then multiset(called)[d.cb] else 0
  {
    if called != [] {
      var n := |called| - 1;
      LabelledCount(step, called[..n], d);
      assert called == called[..n] + [called[n]];
      assert Labelled(step, called) == Labelled(step, called[..n]) + [Delivery(step, called[n])];
    }
  }

  lemma {:induction false} CalmRunStaysOpen(st: State, steps: seq<Step>)
    requires Idle(st) && !st.closed && CalmRun(steps)
    ensures Idle(AfterSteps(st, steps)) && !AfterSteps(st, steps).closed
  {
    RunsStayIdle(st, steps);
    if |steps| > 0 {
      var n := |steps| - 1;
      assert CalmStep(steps[n]);
      CalmRunStaysOpen(st, steps[..n]);
      if steps[n].Chunk? {
        BroadcastContract(AfterSteps(st, steps[..n]), steps[n].turns);
      }
    }
  }

  // How often cb must receive the chunk of step n.
  ghost function Expected(st: State, steps: seq<Step>, d: Delivery): nat {
    if d.step < |steps| && steps[d.step].Chunk?
       && ServedTo(AfterSteps(st, steps[..d.step]).subs, steps[d.step].turns, d.cb) then 1 else 0
  }

  lemma StepDelivers(before: State, step: Step, n: nat, d: Delivery)
    requires Idle(before) && !before.closed && CalmStep(step)
    ensures multiset(Labelled(n, CalledBy(before, step)))[d]
         == if d.step == n && step.Chunk? && ServedTo(before.subs, step.turns, d.cb) then 1 else 0
  {
    LabelledCount(n, CalledBy(before, step), d);
    if step.Chunk? {
      BroadcastContract(before, step.turns);
      ServedOnce(before.subs, step.turns, 0, d.cb);
    }
  }

  /** Over a whole run without close or cancellation, a subscriber receives the chunk of a step
      exactly once if it was registered when that broadcast began and not removed before its turn,
      and never otherwise. */
  lemma {:induction false} DeliveredExactlyOnce(st: State, steps: seq<Step>, d: Delivery)
    requires Idle(st) && !st.closed && CalmRun(steps)
    ensures multiset(Deliveries(st, steps))[d] == Expected(st, steps, d)
  {
    if |steps| > 0 {
      var n := |steps| - 1;
      var before := AfterSteps(st, steps[..n]);
      assert CalmStep(steps[n]);
      CalmRunStaysOpen(st, steps[..n]);
      DeliveredExactlyOnce(st, steps[..n], d);
      StepDelivers(before, steps[n], n, d);
      if d.step < n {
        assert steps[..n][..d.step] == steps[..d.step];
      }
    }
  }

  // Chunks reach the callbacks in the order in which they were read.
  lemma {:induction false} DeliveredInOrder(st: State, steps: seq<Step>)
    ensures forall i, j | 0 <= i < j < |Deliveries(st, steps)| ::
      Deliveries(st, steps)[i].step <= Deliveries(st, steps)[j].step
    ensures forall d | d in Deliveries(st, steps) :: d.step < |steps|
  {
    if |steps| > 0 {
      DeliveredInOrder(st, steps[..|steps| - 1]);
    }
  }

  // ---- Subscribing and unsubscribing between broadcasts ----

  // The step never subscribes cb.
  ghost predicate NeverAdds(step: Step, cb: Subscriber) {
    match step
    case Call(op) => op != Op.Add(cb)
    case Chunk(turns) => forall i: nat :: Op.Add(cb) !in turns(i).ops
  }

  lemma {:induction false} OpsDoNotAdd(st: State, ops: seq<Op>, cb: Subscriber)
    requires cb !in st.subs && Op.Add(cb) !in ops
    ensures cb !in AfterOps(st, ops).subs
  {
    if ops != [] {
      var n := |ops| - 1;
      assert ops == ops[..n] + [ops[n]];
      OpsDoNotAdd(st, ops[..n], cb);
    }
  }

  lemma {:induction false} SweepDoesNotAdd(
    st: State, snapshot: seq<Subscriber>, i: nat, turns: nat -> Turn, cb: Subscriber)
    requires i <= |snapshot| && cb !in st.subs && cb !in snapshot
    requires forall k: nat :: Op.Add(cb) !in turns(k).ops
    ensures var swept := Sweep(st, snapshot, i, turns); cb !in swept.st.subs && cb !in swept.called
    decreases |snapshot| - i
  {
    if i < |snapshot| {
      assert snapshot[i] in snapshot;
      if snapshot[i] in st.pending {
        SweepDoesNotAdd(st, snapshot, i + 1, turns, cb);
      } else {
        OpsDoNotAdd(st, turns(i).ops, cb);
        if !turns(i).outcome.Cancelled? {
          SweepDoesNotAdd(AfterTurn(st, snapshot[i], turns(i)), snapshot, i + 1, turns, cb);
        }
      }
    }
  }

  lemma AbsentStaysAbsent(st: State, step: Step, cb: Subscriber)
    requires cb !in st.subs && NeverAdds(step, cb)
    ensures cb !in AfterStep(st, step).subs && cb !in CalledBy(st, step)
  {
    match step
    case Call(op) => OpsDoNotAdd(st, [op], cb); OneOp(st, op);
    case Chunk(turns) =>
      if !st.closed {
        SweepDoesNotAdd(st.(iterating := true), st.subs, 0, turns, cb);
      }
  }

  lemma OneOp(st: State, op: Op)
    ensures AfterOps(st, [op]) == AfterOp(st, op)
  {
    assert [op][..0] == [];
  }

  lemma {:induction false} AbsentGetsNothing(st: State, steps: seq<Step>, cb: Subscriber)
    requires cb !in st.subs && forall n | 0 <= n < |steps| :: NeverAdds(steps[n], cb)
    ensures cb !in AfterSteps(st, steps).subs
    ensures forall d | d in Deliveries(st, steps) :: d.cb != cb
  {
    if |steps| > 0 {
      var n := |steps| - 1;
      AbsentGetsNothing(st, steps[..n], cb);
      AbsentStaysAbsent(AfterSteps(st, steps[..n]), steps[n], cb);
      var called := CalledBy(AfterSteps(st, steps[..n]), steps[n]);
      assert forall i | 0 <= i < |called| :: called[i] in called;
    }
  }

  lemma {:induction false} AfterStepsConcat(st: State, a: seq<Step>, b: seq<Step>)
    ensures AfterSteps(st, a + b) == AfterSteps(AfterSteps(st, a), b)
  {
    if |b| == 0 {
      assert a + b == a;
    } else {
      var n := |b| - 1;
      AfterStepsConcat(st, a, b[..n]);
      assert (a + b)[..|a + b| - 1] == a + b[..n];
    }
  }

  lemma LabelledExact(step: nat, called: seq<Subscriber>, d: Delivery)
    ensures d in Labelled(step, called) <==> d.step == step && d.cb in called
  {
    if d.step == step && d.cb in called {
      var i :| 0 <= i < |called| && called[i] == d.cb;
      assert Labelled(step, called)[i] == d;
    }
  }

  // A delivery of a run is a call made by the step it is labelled with.
  lemma {:induction false} DeliveriesExact(st: State, steps: seq<Step>, d: Delivery)
    ensures d in Deliveries(st, steps)
       <==> d.step < |steps| && d.cb in CalledBy(AfterSteps(st, steps[..d.step]), steps[d.step])
  {
    if |steps| > 0 {
      var n := |steps| - 1;
      DeliveriesExact(st, steps[..n], d);
      LabelledExact(n, CalledBy(AfterSteps(st, steps[..n]), steps[n]), d);
      if d.step < n {
        assert steps[..n][..d.step] == steps[..d.step];
      }
    }
  }

  lemma RunPrefixes(a: seq<Step>, b: seq<Step>, n: nat)
    requires n < |a| + |b|
    ensures n < |a| ==> (a + b)[..n] == a[..n] && (a + b)[n] == a[n]
    ensures n >= |a| ==> (a + b)[..n] == a + b[..n - |a|] && (a + b)[n] == b[n - |a|]
  {
  }

  lemma DeliveriesOfFirstPart(st: State, a: seq<Step>, b: seq<Step>, d: Delivery)
    requires d in Deliveries(st, a + b) && d.step < |a|
    ensures d in Deliveries(st, a)
  {
    RunPrefixes(a, b, d.step);
    DeliveriesExact(st, a + b, d);
    DeliveriesExact(st, a, d);
  }

  // The deliveries of the second part of a run, with their steps counted from its start.
  lemma DeliveriesOfSecondPart(st: State, a: seq<Step>, b: seq<Step>, d: Delivery)
    requires d in Deliveries(st, a + b) && d.step >= |a|
    ensures Delivery(d.step - |a|, d.cb) in Deliveries(AfterSteps(st, a), b)
  {
    var m := d.step - |a|;
    DeliveriesExact(st, a + b, d);
    RunPrefixes(a, b, d.step);
    AfterStepsConcat(st, a, b[..m]);
    DeliveriesExact(AfterSteps(st, a), b, Delivery(m, d.cb));
  }

  lemma RemovedWhenIdle(st: State, cb: Subscriber)
    requires Idle(st)
    ensures cb !in AfterStep(st, Call(Op.Remove(cb))).subs
  {
  }

  /** A callback that unsubscribes between broadcasts receives nothing any more until it is added again. */
  lemma UnsubscribedGetsNothing(st: State, a: seq<Step>, b: seq<Step>, cb: Subscriber, d: Delivery)
    requires Idle(st) && forall n | 0 <= n < |b| :: NeverAdds(b[n], cb)
    requires d in Deliveries(st, a + [Call(Op.Remove(cb))] + b) && d.step > |a|
    ensures d.cb != cb
  {
    var upTo := a + [Call(Op.Remove(cb))];
    assert upTo[..|a|] == a;
    RunsStayIdle(st, a);
    RemovedWhenIdle(AfterSteps(st, a), cb);
    AbsentGetsNothing(AfterSteps(st, upTo), b, cb);
    DeliveriesOfSecondPart(st, upTo, b, d);
    assert Delivery(d.step - |upTo|, d.cb) in Deliveries(AfterSteps(st, upTo), b);
  }

  /** After a close nobody receives anything any more. */
  lemma ClosedDeliversNothing(st: State, a: seq<Step>, b: seq<Step>, d: Delivery)
    requires Idle(st) && d in Deliveries(st, a + [Call(Close)] + b)
    ensures d.step < |a|
  {
    var upTo := a + [Call(Close)];
    assert upTo[..|a|] == a;
    RunsStayIdle(st, a);
    RunsStayIdle(st, upTo);
    RunsStayIdle(AfterSteps(st, upTo), b);
    if d.step < |upTo| {
      DeliveriesOfFirstPart(st, upTo, b, d);
      DeliveriesExact(st, upTo, d);
    } else {
      DeliveriesOfSecondPart(st, upTo, b, d);
    }
  }

  // The step neither removes cb nor closes the registry, and no callback fails in it.
  ghost predicate Spares(step: Step, cb: Subscriber) {
    match step
    case Call(op) => op != Op.Remove(cb) && op != Close
    case Chunk(turns) => forall i: nat ::
      CalmTurn(turns(i)) && Op.Remove(cb) !in turns(i).ops && !turns(i).outcome.Raised?
  }

  lemma {:induction false} NoRaisers(snapshot: seq<Subscriber>, turns: nat -> Turn, i: nat)
    requires i <= |snapshot| && forall k: nat :: !turns(k).outcome.Raised?
    ensures RaisersFrom(snapshot, turns, i) == {}
    decreases |snapshot| - i
  {
    if i < |snapshot| {
      NoRaisers(snapshot, turns, i + 1);
    }
  }

  lemma {:induction false} NoRemovals(snapshot: seq<Subscriber>, turns: nat -> Turn, i: nat, cb: Subscriber)
    requires i <= |snapshot| && forall k: nat :: Op.Remove(cb) !in turns(k).ops
    ensures Op.Remove(cb) !in OpsFrom(snapshot, turns, i)
    decreases |snapshot| - i
  {
    if i < |snapshot| {
      NoRemovals(snapshot, turns, i + 1, cb);
    }
  }

  lemma PresentStaysPresent(st: State, step: Step, cb: Subscriber)
    requires Idle(st) && !st.closed && cb in st.subs && Spares(step, cb)
    ensures Idle(AfterStep(st, step)) && !AfterStep(st, step).closed && cb in AfterStep(st, step).subs
  {
    StepKeepsIdle(st, step);
    if step.Chunk? {
      assert forall i: nat :: CalmTurn(step.turns(i));
      BroadcastContract(st, step.turns);
      NoRaisers(st.subs, step.turns, 0);
      NoRemovals(st.subs, step.turns, 0, cb);
    }
  }

  /** A callback that subscribes to an open registry stays registered as long as nobody removes it, no
      callback fails and nobody closes. */
  lemma {:induction false} SubscribedStays(st: State, b: seq<Step>, cb: Subscriber)
    requires Idle(st) && !st.closed && forall n | 0 <= n < |b| :: Spares(b[n], cb)
    ensures var later := AfterSteps(AfterStep(st, Call(Op.Add(cb))), b);
      Idle(later) && !later.closed && cb in later.subs
  {
    StepKeepsIdle(st, Call(Op.Add(cb)));
    if |b| > 0 {
      var n := |b| - 1;
      SubscribedStays(st, b[..n], cb);
      PresentStaysPresent(AfterSteps(AfterStep(st, Call(Op.Add(cb))), b[..n]), b[n], cb);
    }
  }

  lemma SparedIsServed(subs: seq<Subscriber>, turns: nat -> Turn, cb: Subscriber)
    requires cb in subs && forall i: nat :: Op.Remove(cb) !in turns(i).ops
    ensures ServedTo(subs, turns, cb)
  {
    var k :| 0 <= k < |subs| && subs[k] == cb;
    assert Served(subs, turns, k);
  }

  /** A callback that subscribes to an open registry receives every later chunk exactly once, as long as
      nobody removes it, no callback fails and nobody closes. */
  lemma SubscribedReceives(st: State, b: seq<Step>, cb: Subscriber, n: nat)
    requires Idle(st) && !st.closed && forall k | 0 <= k < |b| :: Spares(b[k], cb)
    requires n < |b| && b[n].Chunk?
    ensures multiset(Deliveries(AfterStep(st, Call(Op.Add(cb))), b))[Delivery(n, cb)] == 1
  {
    var open := AfterStep(st, Call(Op.Add(cb)));
    StepKeepsIdle(st, Call(Op.Add(cb)));
    assert CalmRun(b) by {
      forall k | 0 <= k < |b| ensures CalmStep(b[k]) {
        assert Spares(b[k], cb);
      }
    }
    DeliveredExactlyOnce(open, b, Delivery(n, cb));
    SubscribedStays(st, b[..n], cb);
    assert Spares(b[n], cb);
    SparedIsServed(AfterSteps(open, b[..n]).subs, b[n].turns, cb);
  }
}
