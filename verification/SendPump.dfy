/** One terminal connection: the bounded queue that the fanout callback fills, the pump that batches
    it, and the outbound buffer. A step is the code between two awaits. */
module SendPump {
  import opened Options
  import opened Bytes
  import opened Sequences
  import opened OutBuffer

  const QUEUE_DEPTH: nat := 32
  const BATCH_THRESHOLD: nat := 4096

  // Where the pump is waiting; Stopped keeps what it held when it was cancelled.
  datatype Phase =
    | Idle
    | Accumulating(acc: Chunk)
    | Announcing
    | Sending(batch: Chunk)
    | Stopped(held: Chunk)

  datatype Connection = Connection(queue: seq<Chunk>, out: Buffer, drops: nat, phase: Phase)

  // How a chunk left the queue, and what became of a batch that left the buffer.
  datatype Departure = Departure(chunk: Chunk, taken: bool)
  datatype Fate = Sent | Overflowed | SendFailed
  datatype Flushed = Flushed(batch: Chunk, fate: Fate)
  datatype Trace = Trace(offered: seq<Chunk>, departed: seq<Departure>, flushed: seq<Flushed>)

  datatype World = World(conn: Connection, trace: Trace)

  const FRESH := World(Connection([], EMPTY_BUFFER, 0, Idle), Trace([], [], []))

  datatype Event = Offer(chunk: Chunk) | Take | TakeMore | Flush | Announced | SendDone | SendBroke | Cancel

  predicate Enabled(c: Connection, e: Event) {
    match e
    case Offer(_) => true
    case Take => c.phase.Idle? && c.queue != []
    case TakeMore => c.phase.Accumulating? && |c.phase.acc| < BATCH_THRESHOLD && c.queue != []
    case Flush => c.phase.Accumulating?
    case Announced => c.phase.Announcing?
    case SendDone => c.phase.Sending?
    case SendBroke => c.phase.Sending? || c.phase.Announcing?
    case Cancel => c.phase.Idle? || c.phase.Accumulating? || c.phase.Announcing?
  }

  // ---- The fanout callback ----

  function AfterOffer(w: World, chunk: Chunk): World {
    var c := w.conn;
    if |c.queue| < QUEUE_DEPTH then
      World(c.(queue := c.queue + [chunk]), w.trace.(offered := w.trace.offered + [chunk]))
    else
      World(c.(queue := c.queue[1..] + [chunk], drops := c.drops + 1),
            w.trace.(offered := w.trace.offered + [chunk],
                     departed := w.trace.departed + [Departure(c.queue[0], false)]))
  }

  // ---- The pump ----

  function AfterTake(w: World, acc: Chunk): World
    requires w.conn.queue != []
  {
    var front := w.conn.queue[0];
    World(w.conn.(queue := w.conn.queue[1..], phase := Accumulating(acc + front)),
          w.trace.(departed := w.trace.departed + [Departure(front, true)]))
  }

  function Overflow(batches: seq<Chunk>): seq<Flushed> {
    if batches == [] then [] else
      Overflow(batches[..|batches| - 1]) + [Flushed(batches[|batches| - 1], Overflowed)]
  }

  // The batches an append pushes out of the buffer.
  function PushedOut(b: Buffer, batch: Chunk): seq<Chunk> {
    if b.bytes + |batch| > HIGH_WATERMARK then Dropped(b.batches + [batch]) else []
  }

  function AfterFlush(w: World): World
    requires w.conn.phase.Accumulating?
  {
    var batch := w.conn.phase.acc;
    var appended := World(w.conn.(out := AfterAppend(w.conn.out, batch)),
                          w.trace.(flushed := w.trace.flushed + Overflow(PushedOut(w.conn.out, batch))));
    if NeedsSentinel(w.conn.out, batch) then appended.(conn := appended.conn.(phase := Announcing))
    else appended.(conn := AfterDrainStep(appended.conn))
  }

  // Pops one batch and starts sending it, or goes back to waiting for chunks.
  function AfterDrainStep(c: Connection): Connection {
    if c.out.batches == [] then c.(phase := Idle)
    else c.(phase := Sending(c.out.batches[0]), out := AfterDrain(c.out))
  }

  function Ended(w: World, fate: Fate, phase: Phase): World
    requires w.conn.phase.Sending?
  {
    World(w.conn.(phase := phase), w.trace.(flushed := w.trace.flushed + [Flushed(w.conn.phase.batch, fate)]))
  }

  // A step that is not enabled does not happen.
  function Next(w: World, e: Event): World {
    if !Enabled(w.conn, e) then w else
      match e
      case Offer(chunk) => AfterOffer(w, chunk)
      case Take => AfterTake(w, [])
      case TakeMore => AfterTake(w, w.conn.phase.acc)
      case Flush => AfterFlush(w)
      case Announced => w.(conn := AfterDrainStep(w.conn))
      case SendDone => Ended(w, Sent, Idle)
      case SendBroke =>
        if w.conn.phase.Sending? then Ended(w, SendFailed, Stopped([])) else w.(conn := w.conn.(phase := Stopped([])))
      case Cancel => w.(conn := w.conn.(phase := Stopped(InHand(w.conn.phase))))
  }

  function InHand(p: Phase): Chunk {
    match p
    case Accumulating(acc) => acc
    case Stopped(held) => held
    case _ => []
  }

  function InFlight(p: Phase): Chunk {
    if p.Sending? then p.batch else []
  }

  function AfterEvents(w: World, events: seq<Event>): World {
    if events == [] then w else Next(AfterEvents(w, events[..|events| - 1]), events[|events| - 1])
  }

  // ---- Every byte is accounted for, in order ----

  function Chunks(departed: seq<Departure>): seq<Chunk> {
    seq(|departed|, i requires 0 <= i < |departed| => departed[i].chunk)
  }

  function Taken(departed: seq<Departure>): seq<Chunk> {
    if departed == [] then [] else
      var d := departed[|departed| - 1];
      Taken(departed[..|departed| - 1]) + if d.taken then [d.chunk] else []
  }

  function Batches(flushed: seq<Flushed>): seq<Chunk> {
    seq(|flushed|, i requires 0 <= i < |flushed| => flushed[i].batch)
  }

  /** The offered chunks are those that left the queue followed by the queue; the bytes of the taken
      ones, in order, are the flushed batches, the batch in flight, the buffer and the accumulator. */
  ghost predicate Accounted(w: World) {
    && Chunks(w.trace.departed) + w.conn.queue == w.trace.offered
    && Joined(Taken(w.trace.departed)) ==
         Joined(Batches(w.trace.flushed)) + InFlight(w.conn.phase) + Joined(w.conn.out.batches) + InHand(w.conn.phase)
  }

  // Between steps the buffer is always empty: each iteration drains what it appended.
  ghost predicate Bounded(w: World) {
    && |w.conn.queue| <= QUEUE_DEPTH
    && w.conn.out.batches == []
    && BufferValid(w.conn.out)
  }

  lemma KeepOrDropOne(batch: Chunk)
    ensures TotalBytes([batch]) == |batch|
    ensures |batch| > HIGH_WATERMARK ==> KeepNewest([batch]) == [] && Dropped([batch]) == [batch]
    ensures |batch| <= HIGH_WATERMARK ==> KeepNewest([batch]) == [batch] && Dropped([batch]) == []
  {
    assert [batch][..0] == [] && [batch][1..] == [];
    assert TotalBytes([batch]) == TotalBytes([]) + |batch|;
    if |batch| > HIGH_WATERMARK {
      assert Dropped([]) == [] && KeepNewest([]) == [];
    }
  }

  // Appending to an empty buffer keeps the batch whole or drops it whole.
  lemma AppendToEmpty(b: Buffer, batch: Chunk)
    requires BufferValid(b) && b.batches == []
    ensures BufferValid(AfterAppend(b, batch))
    ensures NeedsSentinel(b, batch) <==> |batch| > HIGH_WATERMARK && !b.suppressed
    ensures |batch| > HIGH_WATERMARK ==> AfterAppend(b, batch).batches == [] && PushedOut(b, batch) == [batch]
    ensures |batch| <= HIGH_WATERMARK ==>
      && AfterAppend(b, batch).batches == [batch] && PushedOut(b, batch) == []
      && (AfterAppend(b, batch).suppressed ==> b.suppressed)
  {
    AppendKeepsBufferValid(b, batch);
    KeepOrDropOne(batch);
    assert b.batches + [batch] == [batch];
  }

  lemma Departs(departed: seq<Departure>, d: Departure)
    ensures Chunks(departed + [d]) == Chunks(departed) + [d.chunk]
    ensures Taken(departed + [d]) == if d.taken then Taken(departed) + [d.chunk] else Taken(departed)
  {
    assert (departed + [d])[..|departed|] == departed;
  }

  lemma FrontMoves(gone: seq<Chunk>, queue: seq<Chunk>)
    requires queue != []
    ensures gone + [queue[0]] + queue[1..] == gone + queue
  {
    ConcatAssociates(gone, [queue[0]], queue[1..]);
    assert [queue[0]] + queue[1..] == queue;
  }

  lemma OfferStep(w: World, chunk: Chunk)
    requires Accounted(w) && Bounded(w)
    ensures Accounted(AfterOffer(w, chunk)) && Bounded(AfterOffer(w, chunk))
    ensures var q := AfterOffer(w, chunk).conn.queue; q != [] && q[|q| - 1] == chunk
  {
    var after := AfterOffer(w, chunk);
    var gone, queue := Chunks(w.trace.departed), w.conn.queue;
    if |queue| == QUEUE_DEPTH {
      Departs(w.trace.departed, Departure(queue[0], false));
      FrontMoves(gone, queue);
      ConcatAssociates(gone + [queue[0]], queue[1..], [chunk]);
    } else {
      ConcatAssociates(gone, queue, [chunk]);
    }
  }

  lemma TakeStep(w: World, acc: Chunk)
    requires Accounted(w) && Bounded(w) && w.conn.queue != []
    requires InFlight(w.conn.phase) == [] && InHand(w.conn.phase) == acc
    ensures Accounted(AfterTake(w, acc)) && Bounded(AfterTake(w, acc))
  {
    var front := w.conn.queue[0];
    var departed := w.trace.departed + [Departure(front, true)];
    var taken := Taken(w.trace.departed);
    Departs(w.trace.departed, Departure(front, true));
    FrontMoves(Chunks(w.trace.departed), w.conn.queue);
    JoinedAppend(taken, front);
  }

  lemma FlushOne(flushed: seq<Flushed>, f: Flushed)
    ensures Joined(Batches(flushed + [f])) == Joined(Batches(flushed)) + f.batch
  {
    assert Batches(flushed + [f]) == Batches(flushed) + [f.batch];
    JoinedAppend(Batches(flushed), f.batch);
  }

  lemma FlushLargeBatch(w: World)
    requires Accounted(w) && Bounded(w) && w.conn.phase.Accumulating? && |w.conn.phase.acc| > HIGH_WATERMARK
    ensures Accounted(AfterFlush(w)) && Bounded(AfterFlush(w))
    ensures AfterFlush(w).conn.phase == if w.conn.out.suppressed then Idle else Announcing
  {
    var batch := w.conn.phase.acc;
    AppendToEmpty(w.conn.out, batch);
    OverflowOne(batch);
    FlushOne(w.trace.flushed, Flushed(batch, Overflowed));
  }

  lemma OverflowOne(batch: Chunk)
    ensures Overflow([batch]) == [Flushed(batch, Overflowed)]
  {
    assert [batch][..0] == [];
    assert Overflow([batch]) == [] + [Flushed(batch, Overflowed)];
  }

  lemma FlushSmallBatch(w: World)
    requires Accounted(w) && Bounded(w) && w.conn.phase.Accumulating? && |w.conn.phase.acc| <= HIGH_WATERMARK
    ensures Accounted(AfterFlush(w)) && Bounded(AfterFlush(w))
    ensures AfterFlush(w).conn.phase == Sending(w.conn.phase.acc)
    ensures AfterFlush(w).conn.out.suppressed ==> w.conn.out.suppressed
    ensures AfterFlush(w).trace == w.trace
  {
    var batch := w.conn.phase.acc;
    AppendToEmpty(w.conn.out, batch);
    var appended := AfterAppend(w.conn.out, batch);
    AccessKeepsBufferValid(appended, Drain);
    var drained := AfterDrain(appended);
    assert drained.batches == [] by {
      assert [batch][1..] == [];
    }
    assert AfterFlush(w) == World(w.conn.(phase := Sending(batch), out := drained), w.trace) by {
      assert w.trace.flushed + Overflow([]) == w.trace.flushed;
    }
  }

  // A batch above the high watermark is dropped as a whole; any other one is sent at once.
  lemma FlushStep(w: World)
    requires Accounted(w) && Bounded(w) && w.conn.phase.Accumulating?
    ensures Accounted(AfterFlush(w)) && Bounded(AfterFlush(w))
    ensures var batch := w.conn.phase.acc;
      AfterFlush(w).conn.phase ==
        if |batch| <= HIGH_WATERMARK then Sending(batch) else if w.conn.out.suppressed then Idle else Announcing
    ensures |w.conn.phase.acc| <= HIGH_WATERMARK && AfterFlush(w).conn.out.suppressed ==> w.conn.out.suppressed
  {
    if |w.conn.phase.acc| <= HIGH_WATERMARK {
      FlushSmallBatch(w);
    } else {
      FlushLargeBatch(w);
    }
  }

  lemma EndStep(w: World, fate: Fate, phase: Phase)
    requires Accounted(w) && Bounded(w) && w.conn.phase.Sending?
    requires InFlight(phase) == [] && InHand(phase) == []
    ensures Accounted(Ended(w, fate, phase)) && Bounded(Ended(w, fate, phase))
  {
    FlushOne(w.trace.flushed, Flushed(w.conn.phase.batch, fate));
  }

  lemma StepAccounts(w: World, e: Event)
    requires Accounted(w) && Bounded(w)
    ensures Accounted(Next(w, e)) && Bounded(Next(w, e))
  {
    if Enabled(w.conn, e) {
      match e
      case Offer(chunk) => OfferStep(w, chunk);
      case Take => TakeStep(w, []);
      case TakeMore => TakeStep(w, w.conn.phase.acc);
      case Flush => FlushStep(w);
      case SendDone => EndStep(w, Sent, Idle);
      case SendBroke =>
        if w.conn.phase.Sending? {
          EndStep(w, SendFailed, Stopped([]));
        }
      case Announced =>
      case Cancel =>
    }
  }

  /** In every run every offered byte is in exactly one place, the order of arrival is kept, the
      queue holds at most 32 chunks, and the buffer is empty whenever the pump waits. */
  lemma {:induction false} RunsAccount(events: seq<Event>)
    ensures Accounted(AfterEvents(FRESH, events)) && Bounded(AfterEvents(FRESH, events))
  {
    if events == [] {
      assert Taken([]) == [] && Batches([]) == [] && Joined([]) == [];
    } else {
      var n := |events| - 1;
      RunsAccount(events[..n]);
      StepAccounts(AfterEvents(FRESH, events[..n]), events[n]);
    }
  }

  function QueueLost(departed: seq<Departure>): nat {
    if departed == [] then 0 else
      var d := departed[|departed| - 1];
      QueueLost(departed[..|departed| - 1]) + if d.taken then 0 else |d.chunk|
  }

  function FateBytes(flushed: seq<Flushed>, fate: Fate): nat {
    if flushed == [] then 0 else
      var f := flushed[|flushed| - 1];
      FateBytes(flushed[..|flushed| - 1], fate) + if f.fate == fate then |f.batch| else 0
  }

  lemma {:induction false} DepartedBytes(departed: seq<Departure>)
    ensures TotalBytes(Chunks(departed)) == TotalBytes(Taken(departed)) + QueueLost(departed)
  {
    if departed != [] {
      var n := |departed| - 1;
      DepartedBytes(departed[..n]);
      assert Chunks(departed)[..n] == Chunks(departed[..n]);
      var taken := Taken(departed[..n]);
      assert (taken + [departed[n].chunk])[..|taken|] == taken;
      assert Taken(departed) == if departed[n].taken then taken + [departed[n].chunk] else taken;
    }
  }

  lemma {:induction false} FlushedBytes(flushed: seq<Flushed>)
    ensures TotalBytes(Batches(flushed)) ==
      FateBytes(flushed, Sent) + FateBytes(flushed, Overflowed) + FateBytes(flushed, SendFailed)
  {
    if flushed != [] {
      var n := |flushed| - 1;
      FlushedBytes(flushed[..n]);
      assert Batches(flushed)[..n] == Batches(flushed[..n]);
    }
  }

  // Offered bytes are sent, dropped by the queue, dropped by the buffer, lost with a broken send, in
  // flight, held by the pump, or still queued.
  ghost predicate BytesBalance(w: World) {
    TotalBytes(w.trace.offered) ==
      FateBytes(w.trace.flushed, Sent) + QueueLost(w.trace.departed) + FateBytes(w.trace.flushed, Overflowed)
      + FateBytes(w.trace.flushed, SendFailed) + |InFlight(w.conn.phase)| + |InHand(w.conn.phase)|
      + TotalBytes(w.conn.queue)
  }

  lemma AccountedBytesBalance(w: World)
    requires Accounted(w) && Bounded(w)
    ensures BytesBalance(w)
  {
    TotalConcat(Chunks(w.trace.departed), w.conn.queue);
    DepartedBytes(w.trace.departed);
    FlushedBytes(w.trace.flushed);
    TotalIsLength(Taken(w.trace.departed));
    TotalIsLength(Batches(w.trace.flushed));
  }

  /** The bytes balance after every run. */
  lemma ByteBalance(events: seq<Event>)
    ensures BytesBalance(AfterEvents(FRESH, events))
  {
    RunsAccount(events);
    AccountedBytesBalance(AfterEvents(FRESH, events));
  }

  // ---- Bounded chunks never overflow the buffer ----

  ghost predicate SmallChunks(chunks: seq<Chunk>, bound: nat) {
    forall c | c in chunks :: |c| <= bound
  }

  ghost predicate SmallOffers(events: seq<Event>, bound: nat) {
    forall e | e in events && e.Offer? :: |e.chunk| <= bound
  }

  // No notice is pending and no batch exceeds what one more chunk adds to an unfinished one.
  ghost predicate Quiet(c: Connection, bound: nat) {
    && !c.out.suppressed && !c.phase.Announcing?
    && SmallChunks(c.queue, bound)
    && |InHand(c.phase)| < BATCH_THRESHOLD + bound
    && |InFlight(c.phase)| < BATCH_THRESHOLD + bound
  }

  lemma QuietStep(w: World, e: Event, bound: nat)
    requires Accounted(w) && Bounded(w) && Quiet(w.conn, bound)
    requires BATCH_THRESHOLD + bound <= HIGH_WATERMARK + 1
    requires e.Offer? ==> |e.chunk| <= bound
    ensures Quiet(Next(w, e).conn, bound)
  {
    if Enabled(w.conn, e) {
      match e
      case Flush => FlushStep(w);
      case Take => assert w.conn.queue[0] in w.conn.queue;
      case TakeMore => assert w.conn.queue[0] in w.conn.queue;
      case _ =>
    }
  }

  /** If no offered chunk is longer than bound, then no batch exceeds 4095 + bound bytes, and as long
      as such a batch fits under the high watermark no overflow is ever announced. */
  lemma {:induction false} BoundedChunksNeverOverflow(events: seq<Event>, bound: nat)
    requires SmallOffers(events, bound) && BATCH_THRESHOLD + bound <= HIGH_WATERMARK + 1
    ensures Quiet(AfterEvents(FRESH, events).conn, bound)
    ensures FateBytes(AfterEvents(FRESH, events).trace.flushed, Overflowed) == 0
  {
    if events != [] {
      var n := |events| - 1;
      var w := AfterEvents(FRESH, events[..n]);
      BoundedChunksNeverOverflow(events[..n], bound);
      RunsAccount(events[..n]);
      QuietStep(w, events[n], bound);
      NoOverflowStep(w, events[n], bound);
    }
  }

  lemma NoOverflowStep(w: World, e: Event, bound: nat)
    requires Accounted(w) && Bounded(w) && Quiet(w.conn, bound)
    requires BATCH_THRESHOLD + bound <= HIGH_WATERMARK + 1
    ensures FateBytes(Next(w, e).trace.flushed, Overflowed) == FateBytes(w.trace.flushed, Overflowed)
  {
    if Enabled(w.conn, e) {
      var flushed := w.trace.flushed;
      if e.Flush? {
        assert flushed + Overflow([]) == flushed;
      } else if w.conn.phase.Sending? {
        assert forall f :: (flushed + [f])[..|flushed|] == flushed;
      }
    }
  }

  /** With the 4096-byte chunks that the scrollback seeding and the terminal reads produce, every
      batch is at most 8191 bytes. */
  lemma TerminalReadsNeverOverflow(events: seq<Event>)
    requires SmallOffers(events, BATCH_THRESHOLD)
    ensures var c := AfterEvents(FRESH, events).conn;
      |InFlight(c.phase)| <= 8191 && |InHand(c.phase)| <= 8191 && !c.phase.Announcing? && !c.out.suppressed
  {
    BoundedChunksNeverOverflow(events, BATCH_THRESHOLD);
  }

  // A chunk that does not fit on top of an unfinished accumulator overflows the buffer.
  lemma LargerChunksOverflow(w: World, large: Chunk)
    requires Accounted(w) && Bounded(w) && !w.conn.out.suppressed && w.conn.queue == [large]
    requires w.conn.phase.Accumulating? && |w.conn.phase.acc| < BATCH_THRESHOLD
    requires |w.conn.phase.acc| + |large| > HIGH_WATERMARK
    ensures Next(Next(w, TakeMore), Flush).conn.phase == Announcing
  {
    TakeStep(w, w.conn.phase.acc);
    FlushLargeBatch(AfterTake(w, w.conn.phase.acc));
  }

  // The five steps that join a large chunk to an accumulator just below the batch threshold.
  function JoiningRun(small: Chunk, large: Chunk): seq<Event> {
    [Offer(small), Take, Offer(large), TakeMore, Flush]
  }

  lemma JoiningRunSteps(small: Chunk, large: Chunk)
    ensures AfterEvents(FRESH, JoiningRun(small, large))
         == Next(Next(Next(Next(Next(FRESH, Offer(small)), Take), Offer(large)), TakeMore), Flush)
  {
    var run := JoiningRun(small, large);
    OneMoreEvent(FRESH, run, 0);
    OneMoreEvent(FRESH, run, 1);
    OneMoreEvent(FRESH, run, 2);
    OneMoreEvent(FRESH, run, 3);
    OneMoreEvent(FRESH, run, 4);
    assert run[..0] == [] && run[..5] == run;
  }

  lemma OneMoreEvent(w: World, events: seq<Event>, n: nat)
    requires n < |events|
    ensures AfterEvents(w, events[..n + 1]) == Next(AfterEvents(w, events[..n]), events[n])
  {
    assert events[..n + 1][..n] == events[..n];
  }

  lemma {:induction false} AfterEventsConcat(w: World, a: seq<Event>, b: seq<Event>)
    ensures AfterEvents(w, a + b) == AfterEvents(AfterEvents(w, a), b)
  {
    if b == [] {
      assert a + b == a;
    } else {
      AfterEventsConcat(w, a, b[..|b| - 1]);
      assert (a + b)[..|a + b| - 1] == a + b[..|b| - 1];
    }
  }

  // A chunk too long to join an accumulator just below the threshold overflows a fresh connection.
  lemma LongChunkOverflows(small: Chunk, large: Chunk)
    requires |small| == BATCH_THRESHOLD - 1 && |small| + |large| > HIGH_WATERMARK
    ensures AfterEvents(FRESH, JoiningRun(small, large)).conn.phase == Announcing
  {
    var accumulating := Next(Next(Next(FRESH, Offer(small)), Take), Offer(large));
    JoiningRunSteps(small, large);
    assert [] + small == small && [small][1..] == [];
    assert accumulating.conn == Connection([large], EMPTY_BUFFER, 0, Accumulating(small));
  }

  /** No connection ever announces an overflow if and only if the longest chunk still fits on top of an
      accumulator just below the batch threshold. */
  lemma OverflowBoundIsExact(bound: nat)
    ensures (forall events | SmallOffers(events, bound) :: !AfterEvents(FRESH, events).conn.phase.Announcing?)
       <==> BATCH_THRESHOLD + bound <= HIGH_WATERMARK + 1
  {
    if BATCH_THRESHOLD + bound <= HIGH_WATERMARK + 1 {
      forall events | SmallOffers(events, bound)
        ensures !AfterEvents(FRESH, events).conn.phase.Announcing?
      {
        BoundedChunksNeverOverflow(events, bound);
      }
    } else {
      var small, large := Zeros(BATCH_THRESHOLD - 1), Zeros(bound);
      LongChunkOverflows(small, large);
      assert SmallOffers(JoiningRun(small, large), bound);
    }
  }

  function Zeros(n: nat): (c: Chunk)
    ensures |c| == n
  {
    seq(n, _ => 0)
  }

  // ---- Seeding the queue with the terminal's scrollback ----

  function Min(a: nat, b: nat): nat {
    if a < b then a else b
  }

  // Piece i of a scrollback cut at multiples of the batch threshold.
  function Piece(s: Chunk, i: nat): Chunk
    requires i * BATCH_THRESHOLD < |s|
  {
    s[i * BATCH_THRESHOLD..Min((i + 1) * BATCH_THRESHOLD, |s|)]
  }

  // The queue after seeding: the first 32 pieces, or all of them when there are fewer.
  function Seeded(s: Chunk, n: nat): seq<Chunk>
    requires n > 0 ==> (n - 1) * BATCH_THRESHOLD < |s|
  {
    if n == 0 then [] else Seeded(s, n - 1) + [Piece(s, n - 1)]
  }

  function PieceCount(s: Chunk): nat {
    (|s| + BATCH_THRESHOLD - 1) / BATCH_THRESHOLD
  }

  lemma JoinSlices(s: Chunk, a: nat, b: nat)
    requires a <= b <= |s|
    ensures s[..a] + s[a..b] == s[..b]
  {
  }

  /** Seeding keeps the oldest 131072 bytes of the scrollback, whole and in order, in pieces of at most
      4096 bytes. */
  lemma {:induction false} SeededPrefix(s: Chunk, n: nat)
    requires n <= PieceCount(s)
    ensures n > 0 ==> (n - 1) * BATCH_THRESHOLD < |s|
    ensures Joined(Seeded(s, n)) == s[..Min(n * BATCH_THRESHOLD, |s|)]
    ensures SmallChunks(Seeded(s, n), BATCH_THRESHOLD) && |Seeded(s, n)| == n
  {
    if n > 0 {
      SeededPrefix(s, n - 1);
      var before := Seeded(s, n - 1);
      JoinedAppend(before, Piece(s, n - 1));
      JoinSlices(s, (n - 1) * BATCH_THRESHOLD, Min(n * BATCH_THRESHOLD, |s|));
    }
  }

  function Offers(chunks: seq<Chunk>): seq<Event> {
    seq(|chunks|, i requires 0 <= i < |chunks| => Offer(chunks[i]))
  }

  function Queued(chunks: seq<Chunk>): World {
    World(Connection(chunks, EMPTY_BUFFER, 0, Idle), Trace(chunks, [], []))
  }

  // Filling a fresh queue is offering its chunks one by one.
  lemma {:induction false} QueuedIsReached(chunks: seq<Chunk>)
    requires |chunks| <= QUEUE_DEPTH
    ensures AfterEvents(FRESH, Offers(chunks)) == Queued(chunks)
  {
    if chunks != [] {
      var n := |chunks| - 1;
      QueuedIsReached(chunks[..n]);
      assert Offers(chunks)[..n] == Offers(chunks[..n]);
      assert chunks == chunks[..n] + [chunks[n]];
    }
  }

  // What seeding puts into a fresh queue.
  function Scrollback(s: Chunk): seq<Chunk> {
    SeededPrefix(s, Min(PieceCount(s), QUEUE_DEPTH));
    Seeded(s, Min(PieceCount(s), QUEUE_DEPTH))
  }

  lemma ScrollbackIsSmall(s: Chunk)
    ensures |Scrollback(s)| <= QUEUE_DEPTH && SmallChunks(Scrollback(s), BATCH_THRESHOLD)
    ensures Joined(Scrollback(s)) == s[..Min(QUEUE_DEPTH * BATCH_THRESHOLD, |s|)]
  {
    SeededPrefix(s, Min(PieceCount(s), QUEUE_DEPTH));
  }

  /** A connection seeded with scrollback is a state of a run from a fresh one, so whatever happens next
      its chunks and bytes are accounted for, with the scrollback in front. */
  lemma SeededRunsAccount(s: Chunk, events: seq<Event>)
    ensures var w := AfterEvents(Queued(Scrollback(s)), events);
      && w == AfterEvents(FRESH, Offers(Scrollback(s)) + events)
      && Accounted(w) && Bounded(w) && BytesBalance(w)
      && Scrollback(s) <= w.trace.offered
  {
    ScrollbackIsSmall(s);
    QueuedIsReached(Scrollback(s));
    AfterEventsConcat(FRESH, Offers(Scrollback(s)), events);
    RunsAccount(Offers(Scrollback(s)) + events);
    ByteBalance(Offers(Scrollback(s)) + events);
    OfferedGrows(Queued(Scrollback(s)), events);
  }

  lemma {:induction false} OfferedGrows(w: World, events: seq<Event>)
    ensures w.trace.offered <= AfterEvents(w, events).trace.offered
  {
    if events != [] {
      OfferedGrows(w, events[..|events| - 1]);
    }
  }

  /** Neither the scrollback nor reads of at most 4096 bytes after it ever overflow the buffer, and no
      byte of them is dropped there. */
  lemma SeededReadsNeverOverflow(s: Chunk, events: seq<Event>)
    requires SmallOffers(events, BATCH_THRESHOLD)
    ensures var w := AfterEvents(Queued(Scrollback(s)), events);
      && |InFlight(w.conn.phase)| <= 8191 && |InHand(w.conn.phase)| <= 8191
      && !w.conn.phase.Announcing? && !w.conn.out.suppressed
      && FateBytes(w.trace.flushed, Overflowed) == 0
  {
    var seeds := Offers(Scrollback(s));
    ScrollbackIsSmall(s);
    SeededRunsAccount(s, events);
    forall e | e in seeds + events && e.Offer? ensures |e.chunk| <= BATCH_THRESHOLD {
      if e in seeds {
        var i :| 0 <= i < |seeds| && seeds[i] == e;
        assert e.chunk in Scrollback(s);
      }
    }
    BoundedChunksNeverOverflow(seeds + events, BATCH_THRESHOLD);
  }

  // ---- The connection as the server holds it ----

  class TerminalConnection {
    var queue: seq<Chunk>
    var callbackDrops: nat
    var phase: Phase
    const buffer: ByteBuffer
    ghost var trace: Trace

    ghost function View(): World
      reads this, buffer
    {
      World(Connection(queue, buffer.View(), callbackDrops, phase), trace)
    }

    constructor ()
      ensures View() == FRESH && fresh(buffer)
    {
      queue, callbackDrops, phase, trace := [], 0, Idle, Trace([], [], []);
      buffer := new ByteBuffer();
    }

    // The fanout callback: never raises, drops the oldest queued chunk when the queue is full.
    method OnChunk(chunk: Chunk)
      modifies this`queue, this`callbackDrops, this`trace
      ensures View() == Next(old(View()), Offer(chunk))
    {
      if |queue| >= QUEUE_DEPTH {
        trace := trace.(departed := trace.departed + [Departure(queue[0], false)]);
        queue := queue[1..];
        callbackDrops := callbackDrops + 1;
      }
      queue := queue + [chunk];
      trace := trace.(offered := trace.offered + [chunk]);
    }

    // Enqueues the scrollback piece by piece until the queue is full.
    method SeedScrollback(scrollback: Chunk)
      requires queue == [] && trace.offered == []
      modifies this`queue, this`trace
      ensures var n := Min(PieceCount(scrollback), QUEUE_DEPTH);
        && (n > 0 ==> (n - 1) * BATCH_THRESHOLD < |scrollback|)
        && queue == Seeded(scrollback, n)
      ensures trace == old(trace).(offered := queue)
      ensures old(View()) == FRESH ==> View() == Queued(Scrollback(scrollback))
    {
      var i := 0;
      while i * BATCH_THRESHOLD < |scrollback| && |queue| < QUEUE_DEPTH
        invariant i <= Min(PieceCount(scrollback), QUEUE_DEPTH) && |queue| == i
        invariant i > 0 ==> (i - 1) * BATCH_THRESHOLD < |scrollback|
        invariant queue == Seeded(scrollback, i)
        invariant trace == old(trace).(offered := queue)
        decreases QUEUE_DEPTH - |queue|
      {
        queue := queue + [Piece(scrollback, i)];
        trace := trace.(offered := queue);
        i := i + 1;
      }
    }

    method TakeFirst()
      requires Enabled(View().conn, Take)
      modifies this`queue, this`phase, this`trace
      ensures View() == Next(old(View()), Take)
    {
      trace := trace.(departed := trace.departed + [Departure(queue[0], true)]);
      assert [] + queue[0] == queue[0];
      phase := Accumulating(queue[0]);
      queue := queue[1..];
    }

    method TakeMoreChunks()
      requires Enabled(View().conn, TakeMore)
      modifies this`queue, this`phase, this`trace
      ensures View() == Next(old(View()), TakeMore)
    {
      trace := trace.(departed := trace.departed + [Departure(queue[0], true)]);
      phase := Accumulating(phase.acc + queue[0]);
      queue := queue[1..];
    }

    // Appends the accumulated batch and drains one, unless an overflow must be announced first.
    method FlushBatch() returns (announce: bool)
      requires Enabled(View().conn, Flush) && BufferValid(buffer.View())
      modifies this`phase, this`trace, buffer
      ensures View() == Next(old(View()), Flush)
      ensures announce == phase.Announcing?
    {
      var batch := phase.acc;
      trace := trace.(flushed := trace.flushed + Overflow(PushedOut(buffer.View(), batch)));
      announce := buffer.Append(batch);
      if announce {
        phase := Announcing;
      } else {
        DrainStep();
      }
    }

    method DrainStep()
      modifies this`phase, buffer
      ensures View() == old(View()).(conn := AfterDrainStep(old(View()).conn))
    {
      var popped := buffer.DrainOne();
      phase := if popped.Some? then Sending(popped.value) else Idle;
    }

    method FinishSend(delivered: bool)
      requires Enabled(View().conn, SendDone)
      modifies this`phase, this`trace
      ensures View() == Next(old(View()), if delivered then SendDone else SendBroke)
    {
      trace := trace.(flushed := trace.flushed + [Flushed(phase.batch, if delivered then Sent else SendFailed)]);
      phase := if delivered then Idle else Stopped([]);
    }
  }
}
