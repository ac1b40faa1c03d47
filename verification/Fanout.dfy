/** Subscriber bookkeeping of a terminal session: callbacks may subscribe, unsubscribe, raise, or
    close the registry while a chunk is being broadcast to them. */
module Fanout {
  import opened Bytes
  import opened Sequences

  // Callbacks are compared by identity only.
  type Subscriber = nat

  // A registry call made by a callback, or by another task while that callback is awaited.
  datatype Op = Add(cb: Subscriber) | Remove(cb: Subscriber) | Close

  datatype Outcome = Returned | Raised | Cancelled

  // What happens while one callback is awaited.
  datatype Turn = Turn(ops: seq<Op>, outcome: Outcome)

  datatype CallResult = Ok | ClosedError | ValueError | KeyError

  datatype State = State(subs: seq<Subscriber>, closed: bool, iterating: bool, pending: set<Subscriber>)

  ghost predicate StateValid(st: State) {
    && Distinct(st.subs)
    && (st.closed ==> st.subs == [])
    && (!st.iterating ==> st.pending == {})
  }

  // ---- Single calls ----

  function AfterAdd(st: State, cb: Subscriber): State {
    if st.closed || cb in st.subs then st else st.(subs := st.subs + [cb])
  }

  // While a broadcast runs a removal is only staged.
  function AfterRemove(st: State, cb: Subscriber): State {
    if st.closed || cb !in st.subs then st
    else if st.iterating then st.(pending := st.pending + {cb})
    else st.(subs := Without(st.subs, {cb}))
  }

  function AfterClose(st: State): State {
    st.(closed := true, subs := [], pending := {})
  }

  function Without(s: seq<Subscriber>, gone: set<Subscriber>): (r: seq<Subscriber>)
    ensures forall x :: x in r <==> x in s && x !in gone
    ensures Distinct(s) ==> Distinct(r)
  {
    if s == [] then [] else
      var n := |s| - 1;
      assert s == s[..n] + [s[n]];
      if s[n] in gone then Without(s[..n], gone) else Without(s[..n], gone) + [s[n]]
  }

  function AfterOp(st: State, op: Op): State {
    match op
    case Add(cb) => AfterAdd(st, cb)
    case Remove(cb) => AfterRemove(st, cb)
    case Close => AfterClose(st)
  }

  function AfterOps(st: State, ops: seq<Op>): State {
    if ops == [] then st else AfterOp(AfterOps(st, ops[..|ops| - 1]), ops[|ops| - 1])
  }

  // ---- One broadcast ----

  datatype Swept = Swept(st: State, called: seq<Subscriber>, cancelled: bool)

  // Serves snapshot[i..]; turns(i) is what happens while snapshot[i] is awaited.
  function Sweep(st: State, snapshot: seq<Subscriber>, i: nat, turns: nat -> Turn): Swept
    requires i <= |snapshot|
    decreases |snapshot| - i
  {
    if i == |snapshot| then Swept(st, [], false)
    else if snapshot[i] in st.pending then Sweep(st, snapshot, i + 1, turns)
    else
      var after := AfterTurn(st, snapshot[i], turns(i));
      if turns(i).outcome.Cancelled? then Swept(after, [snapshot[i]], true)
      else
        var rest := Sweep(after, snapshot, i + 1, turns);
        rest.(called := [snapshot[i]] + rest.called)
  }

  function AfterTurn(st: State, cb: Subscriber, turn: Turn): State {
    var after := AfterOps(st, turn.ops);
    if turn.outcome.Raised? then after.(pending := after.pending + {cb}) else after
  }

  // The cleanup after the last callback.
  function Settle(st: State): State {
    if st.closed then st.(iterating := false, pending := {})
    else st.(subs := Without(st.subs, st.pending), pending := {}, iterating := false)
  }

  function Broadcast(st: State, turns: nat -> Turn): Swept {
    if st.closed then Swept(st, [], false) else
      var swept := Sweep(st.(iterating := true), st.subs, 0, turns);
      swept.(st := Settle(swept.st))
  }

  ghost function Prefixed(called: seq<Subscriber>, rest: Swept): Swept {
    rest.(called := called + rest.called)
  }

  lemma PrefixedStep(st: State, called: seq<Subscriber>, snapshot: seq<Subscriber>, i: nat, turns: nat -> Turn)
    requires i < |snapshot| && snapshot[i] !in st.pending
    ensures var after := AfterTurn(st, snapshot[i], turns(i));
      Prefixed(called, Sweep(st, snapshot, i, turns)) ==
        if turns(i).outcome.Cancelled? then Swept(after, called + [snapshot[i]], true)
        else Prefixed(called + [snapshot[i]], Sweep(after, snapshot, i + 1, turns))
  {
    var rest := Sweep(AfterTurn(st, snapshot[i], turns(i)), snapshot, i + 1, turns).called;
    assert called + ([snapshot[i]] + rest) == (called + [snapshot[i]]) + rest;
  }

  ghost function WithChunk(called: seq<Subscriber>, chunk: Chunk): seq<(Subscriber, Chunk)> {
    seq(|called|, i requires 0 <= i < |called| => (called[i], chunk))
  }

  class FanoutRegistry {
    var subs: seq<Subscriber>
    var closed: bool
    var iterating: bool
    var pendingRemoves: set<Subscriber>

    // Callbacks invoked so far, with their chunk.
    ghost var calls: seq<(Subscriber, Chunk)>

    ghost function View(): State
      reads this
    {
      State(subs, closed, iterating, pendingRemoves)
    }

    ghost predicate Valid()
      reads this
    {
      StateValid(View())
    }

    constructor ()
      ensures View() == State([], false, false, {}) && calls == []
    {
      subs, closed, iterating, pendingRemoves, calls := [], false, false, {}, [];
    }

    method Add(cb: Subscriber) returns (r: CallResult)
      modifies this`subs
      ensures View() == AfterAdd(old(View()), cb)
      ensures r == if old(closed) then ClosedError else if cb in old(subs) then ValueError else Ok
    {
      if closed {
        return ClosedError;
      }
      if cb in subs {
        return ValueError;
      }
      subs := subs + [cb];
      return Ok;
    }

    method Remove(cb: Subscriber) returns (r: CallResult)
      modifies this`subs, this`pendingRemoves
      ensures View() == AfterRemove(old(View()), cb)
      ensures r == if old(closed) then ClosedError else if cb !in old(subs) then KeyError else Ok
    {
      if closed {
        return ClosedError;
      }
      if cb !in subs {
        return KeyError;
      }
      if iterating {
        pendingRemoves := pendingRemoves + {cb};
      } else {
        subs := Without(subs, {cb});
      }
      return Ok;
    }

    method CloseRegistry()
      modifies this`subs, this`closed, this`pendingRemoves
      ensures View() == AfterClose(old(View()))
    {
      closed := true;
      subs := [];
      pendingRemoves := {};
    }

    // The registry calls made while a callback is awaited; a call that fails changes nothing.
    method Interleave(ops: seq<Op>)
      modifies this`subs, this`closed, this`pendingRemoves
      ensures View() == AfterOps(old(View()), ops)
    {
      for i := 0 to |ops|
        invariant View() == AfterOps(old(View()), ops[..i])
      {
        assert ops[..i + 1][..i] == ops[..i];
        match ops[i]
        case Add(cb) => var _ := Add(cb);
        case Remove(cb) => var _ := Remove(cb);
        case Close => CloseRegistry();
      }
      assert ops[..|ops|] == ops;
    }

    // Invokes one callback and stages its removal when it raises.
    method Serve(cb: Subscriber, chunk: Chunk, turn: Turn) returns (cancelled: bool)
      modifies this`subs, this`closed, this`pendingRemoves, this`calls
      ensures View() == AfterTurn(old(View()), cb, turn)
      ensures cancelled == turn.outcome.Cancelled?
      ensures calls == old(calls) + [(cb, chunk)]
    {
      calls := calls + [(cb, chunk)];
      Interleave(turn.ops);
      if turn.outcome.Raised? {
        pendingRemoves := pendingRemoves + {cb};
      }
      cancelled := turn.outcome.Cancelled?;
    }

    method SweepSnapshot(snapshot: seq<Subscriber>, chunk: Chunk, turns: nat -> Turn) returns (cancelled: bool)
      modifies this`subs, this`closed, this`pendingRemoves, this`calls
      ensures var swept := Sweep(old(View()), snapshot, 0, turns);
        && View() == swept.st
        && cancelled == swept.cancelled
        && calls == old(calls) + WithChunk(swept.called, chunk)
    {
      cancelled := false;
      ghost var called: seq<Subscriber> := [];
      ghost var whole := Sweep(View(), snapshot, 0, turns);
      var i := 0;
      while i < |snapshot|
        invariant 0 <= i <= |snapshot|
        invariant whole == Prefixed(called, Sweep(View(), snapshot, i, turns))
        invariant calls == old(calls) + WithChunk(called, chunk)
      {
        if snapshot[i] in pendingRemoves {
          i := i + 1;
          continue;
        }
        ghost var before := View();
        cancelled := Serve(snapshot[i], chunk, turns(i));
        PrefixedStep(before, called, snapshot, i, turns);
        called := called + [snapshot[i]];
        if cancelled {
          return;
        }
        i := i + 1;
      }
    }

    /** Delivers one chunk to the subscribers present when the broadcast begins. */
    method BroadcastChunk(chunk: Chunk, turns: nat -> Turn) returns (cancelled: bool)
      modifies this
      ensures var result := Broadcast(old(View()), turns);
        && View() == result.st
        && cancelled == result.cancelled
        && calls == old(calls) + WithChunk(result.called, chunk)
    {
      cancelled := false;
      if closed {
        return;
      }
      iterating := true;
      cancelled := SweepSnapshot(subs, chunk, turns);
      if closed {
        iterating := false;
        pendingRemoves := {};
      } else {
        subs := Without(subs, pendingRemoves);
        pendingRemoves := {};
        iterating := false;
      }
    }
  }
}
