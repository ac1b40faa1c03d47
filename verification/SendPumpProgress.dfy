/** That the pump goes on: it stops only when it is told to, and whatever is queued gets sent. */
module SendPumpProgress {
  import opened Bytes
  import opened Sequences
  import opened OutBuffer
  import opened SendPump

  // Neither a cancellation nor a broken connection.
  predicate Undisturbed(events: seq<Event>) {
    Cancel !in events && SendBroke !in events
  }

  /** Without a cancellation and a broken connection the pump never stops. */
  lemma {:induction false} StopsOnlyWhenTold(events: seq<Event>)
    requires Undisturbed(events)
    ensures !AfterEvents(FRESH, events).conn.phase.Stopped?
  {
    if events != [] {
      var n := |events| - 1;
      assert events == events[..n] + [events[n]];
      StopsOnlyWhenTold(events[..n]);
    }
  }

  // What becomes of a batch: it is sent if it fits into the buffer.
  function Outcome(batch: Chunk): Flushed {
    Flushed(batch, if |batch| <= HIGH_WATERMARK then Sent else Overflowed)
  }

  function Outcomes(batches: seq<Chunk>): seq<Flushed> {
    if batches == [] then [] else [Outcome(batches[0])] + Outcomes(batches[1..])
  }

  // What becomes of the batch the pump is working on.
  function Pending(p: Phase): seq<Flushed> {
    match p
    case Accumulating(acc) => [Outcome(acc)]
    case Sending(batch) => [Flushed(batch, Sent)]
    case _ => []
  }

  // From here on nothing is offered; steps that are not enabled do not happen.
  const FINISH: seq<Event> := [Flush, Announced, SendDone]

  function Rounds(n: nat): seq<Event> {
    if n == 0 then [] else [Take] + FINISH + Rounds(n - 1)
  }

  ghost predicate Sound(w: World) {
    Accounted(w) && Bounded(w) && !w.conn.phase.Stopped?
  }

  lemma ThreeEvents(w: World, a: Event, b: Event, c: Event)
    ensures AfterEvents(w, [a, b, c]) == Next(Next(Next(w, a), b), c)
  {
    OneMoreEvent(w, [a, b, c], 0);
    OneMoreEvent(w, [a, b, c], 1);
    OneMoreEvent(w, [a, b, c], 2);
    assert [a, b, c][..0] == [] && [a, b, c][..3] == [a, b, c];
  }

  lemma LargeBatchEnds(w: World)
    requires Sound(w) && w.conn.phase.Accumulating? && |w.conn.phase.acc| > HIGH_WATERMARK
    ensures var after := Next(Next(Next(w, Flush), Announced), SendDone);
      && after.conn.phase == Idle && after.conn.queue == w.conn.queue
      && after.trace.flushed == w.trace.flushed + [Flushed(w.conn.phase.acc, Overflowed)]
  {
    LargeBatchFlushed(w);
    var flushed := Next(w, Flush);
    assert Next(flushed, Announced).conn.phase == Idle;
    assert Next(flushed, Announced).trace == flushed.trace;
  }

  lemma LargeBatchFlushed(w: World)
    requires Sound(w) && w.conn.phase.Accumulating? && |w.conn.phase.acc| > HIGH_WATERMARK
    ensures var after := Next(w, Flush);
      && (after.conn.phase == Idle || after.conn.phase == Announcing)
      && after.conn.queue == w.conn.queue && after.conn.out.batches == []
      && after.trace.flushed == w.trace.flushed + [Flushed(w.conn.phase.acc, Overflowed)]
  {
    FlushLargeBatch(w);
    AppendToEmpty(w.conn.out, w.conn.phase.acc);
    OverflowOne(w.conn.phase.acc);
  }

  lemma SmallBatchEnds(w: World)
    requires Sound(w) && w.conn.phase.Accumulating? && |w.conn.phase.acc| <= HIGH_WATERMARK
    ensures var after := Next(Next(Next(w, Flush), Announced), SendDone);
      && after.conn.phase == Idle && after.conn.queue == w.conn.queue
      && after.trace.flushed == w.trace.flushed + [Flushed(w.conn.phase.acc, Sent)]
  {
    FlushSmallBatch(w);
  }

  // The batch at hand is dealt with, and the pump waits for chunks again.
  lemma BatchEnds(w: World)
    requires Sound(w)
    ensures var after := AfterEvents(w, FINISH);
      && Sound(after) && after.conn.phase == Idle && after.conn.queue == w.conn.queue
      && after.trace.flushed == w.trace.flushed + Pending(w.conn.phase)
  {
    ThreeEvents(w, Flush, Announced, SendDone);
    StepAccounts(w, Flush);
    StepAccounts(Next(w, Flush), Announced);
    StepAccounts(Next(Next(w, Flush), Announced), SendDone);
    if w.conn.phase.Accumulating? {
      if |w.conn.phase.acc| <= HIGH_WATERMARK {
        SmallBatchEnds(w);
      } else {
        LargeBatchEnds(w);
      }
    }
  }

  lemma ChunkTaken(w: World)
    requires Sound(w) && w.conn.phase == Idle && w.conn.queue != []
    ensures var taken := Next(w, Take);
      && Sound(taken) && taken.conn.phase == Accumulating(w.conn.queue[0])
      && taken.conn.queue == w.conn.queue[1..] && taken.trace.flushed == w.trace.flushed
  {
    StepAccounts(w, Take);
    assert [] + w.conn.queue[0] == w.conn.queue[0];
  }

  lemma TakeThenFinish(w: World)
    ensures AfterEvents(w, [Take] + FINISH) == AfterEvents(Next(w, Take), FINISH)
  {
    AfterEventsConcat(w, [Take], FINISH);
    OneMoreEvent(w, [Take], 0);
    assert [Take][..0] == [] && [Take][..1] == [Take];
  }

  lemma ChunkEnds(w: World)
    requires Sound(w) && w.conn.phase == Idle && w.conn.queue != []
    ensures var after := AfterEvents(w, [Take] + FINISH);
      && Sound(after) && after.conn.phase == Idle && after.conn.queue == w.conn.queue[1..]
      && after.trace.flushed == w.trace.flushed + [Outcome(w.conn.queue[0])]
  {
    ChunkTaken(w);
    TakeThenFinish(w);
    BatchEnds(Next(w, Take));
  }

  lemma OneRoundMore(w: World, n: nat)
    ensures AfterEvents(w, Rounds(n + 1)) == AfterEvents(AfterEvents(w, [Take] + FINISH), Rounds(n))
  {
    AfterEventsConcat(w, [Take] + FINISH, Rounds(n));
  }

  lemma {:induction false} QueueDrains(w: World)
    requires Sound(w) && w.conn.phase == Idle
    ensures var after := AfterEvents(w, Rounds(|w.conn.queue|));
      && after.conn.phase == Idle && after.conn.queue == []
      && after.trace.flushed == w.trace.flushed + Outcomes(w.conn.queue)
    decreases |w.conn.queue|
  {
    if w.conn.queue != [] {
      ChunkEnds(w);
      QueueDrains(AfterEvents(w, [Take] + FINISH));
      OneRoundMore(w, |w.conn.queue| - 1);
      ConcatAssociates(w.trace.flushed, [Outcome(w.conn.queue[0])], Outcomes(w.conn.queue[1..]));
    }
  }

  /** After any undisturbed run the pump can go on until the queue is empty and it waits again, and then
      it has sent, in order, the batch it had and every queued chunk that fits. */
  lemma EverythingQueuedGetsSent(events: seq<Event>)
    requires Undisturbed(events)
    ensures var w := AfterEvents(FRESH, events);
      var after := AfterEvents(w, FINISH + Rounds(|w.conn.queue|));
      && after.conn.phase == Idle && after.conn.queue == []
      && after.trace.flushed == w.trace.flushed + Pending(w.conn.phase) + Outcomes(w.conn.queue)
  {
    var w := AfterEvents(FRESH, events);
    RunsAccount(events);
    StopsOnlyWhenTold(events);
    BatchEnds(w);
    AfterEventsConcat(w, FINISH, Rounds(|w.conn.queue|));
    QueueDrains(AfterEvents(w, FINISH));
  }

  // ---- What the queue loses ----

  function Lost(departed: seq<Departure>): nat {
    if departed == [] then 0
    else Lost(departed[..|departed| - 1]) + (if departed[|departed| - 1].taken then 0 else 1)
  }

  function OfferCount(events: seq<Event>): nat {
    if events == [] then 0
    else OfferCount(events[..|events| - 1]) + (if events[|events| - 1].Offer? then 1 else 0)
  }

  lemma LostStep(departed: seq<Departure>, d: Departure)
    ensures Lost(departed + [d]) == Lost(departed) + if d.taken then 0 else 1
  {
    assert (departed + [d])[..|departed|] == departed;
  }

  lemma DropStep(w: World, e: Event)
    requires Bounded(w)
    ensures var after := Next(w, e);
      && after.conn.drops - w.conn.drops == Lost(after.trace.departed) - Lost(w.trace.departed)
      && |after.conn.queue| + after.conn.drops <= |w.conn.queue| + w.conn.drops + (if e.Offer? then 1 else 0)
      && (after.conn.drops == w.conn.drops || (e.Offer? && |w.conn.queue| == QUEUE_DEPTH))
  {
    if Enabled(w.conn, e) && w.conn.queue != [] {
      LostStep(w.trace.departed, Departure(w.conn.queue[0], !e.Offer?));
    }
  }

  /** The drop counter of the callback is the number of chunks the queue lost, and the queue loses a
      chunk only for an offer beyond its depth. */
  lemma {:induction false} DropsAreCounted(events: seq<Event>)
    ensures var w := AfterEvents(FRESH, events);
      && w.conn.drops == Lost(w.trace.departed)
      && |w.conn.queue| + w.conn.drops <= OfferCount(events)
      && (OfferCount(events) <= QUEUE_DEPTH ==> w.conn.drops == 0)
  {
    if events != [] {
      var n := |events| - 1;
      var w := AfterEvents(FRESH, events[..n]);
      DropsAreCounted(events[..n]);
      RunsAccount(events[..n]);
      DropStep(w, events[n]);
    }
  }
}
