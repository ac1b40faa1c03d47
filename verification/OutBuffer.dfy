/** The outbound byte buffer of one terminal connection: drop-oldest above the high watermark, one
    overflow notice per episode. */
module OutBuffer {
  import opened Bytes
  import opened Options
  import opened Sequences

  const HIGH_WATERMARK: nat := 65536
  const LOW_WATERMARK: nat := 32768

  datatype Buffer = Buffer(batches: seq<Chunk>, bytes: int, suppressed: bool, droppedInWindow: nat)

  const EMPTY_BUFFER := Buffer([], 0, false, 0)

  // What is kept after dropping the oldest batches until the rest fits.
  function KeepNewest(batches: seq<Chunk>): seq<Chunk> {
    if TotalBytes(batches) <= HIGH_WATERMARK then batches else KeepNewest(batches[1..])
  }

  function Dropped(batches: seq<Chunk>): seq<Chunk> {
    if TotalBytes(batches) <= HIGH_WATERMARK then [] else [batches[0]] + Dropped(batches[1..])
  }

  lemma {:induction false} DroppedThenKept(batches: seq<Chunk>)
    ensures Dropped(batches) + KeepNewest(batches) == batches
  {
    if TotalBytes(batches) > HIGH_WATERMARK {
      DroppedThenKept(batches[1..]);
      assert batches == [batches[0]] + batches[1..];
    }
  }

  lemma {:induction false} KeepNewestFits(batches: seq<Chunk>)
    ensures TotalBytes(KeepNewest(batches)) <= HIGH_WATERMARK
  {
    if TotalBytes(batches) > HIGH_WATERMARK {
      KeepNewestFits(batches[1..]);
    }
  }

  // It is the longest tail that fits.
  lemma {:induction false} KeepNewestLongest(batches: seq<Chunk>, k: nat)
    requires k <= |batches| && TotalBytes(batches[k..]) <= HIGH_WATERMARK
    ensures |batches| - k <= |KeepNewest(batches)|
  {
    assert k == 0 ==> batches[k..] == batches;
    if TotalBytes(batches) > HIGH_WATERMARK {
      assert batches[k..] == batches[1..][k - 1..];
      KeepNewestLongest(batches[1..], k - 1);
    }
  }

  lemma PopOldest(gone: seq<Chunk>, rest: seq<Chunk>)
    requires rest != [] && TotalBytes(rest) > HIGH_WATERMARK
    ensures TotalBytes(gone + [rest[0]]) == TotalBytes(gone) + |rest[0]|
    ensures TotalBytes(rest) == |rest[0]| + TotalBytes(rest[1..])
    ensures KeepNewest(rest) == KeepNewest(rest[1..])
    ensures gone + Dropped(rest) == gone + [rest[0]] + Dropped(rest[1..])
  {
    TotalFront(rest);
    TotalAppend(gone, rest[0]);
    ConcatAssociates(gone, [rest[0]], Dropped(rest[1..]));
  }

  ghost predicate BufferValid(b: Buffer) {
    b.bytes == TotalBytes(b.batches) && (!b.suppressed ==> b.droppedInWindow == 0)
  }

  function AfterAppend(b: Buffer, batch: Chunk): Buffer {
    var all := b.batches + [batch];
    var bytes := b.bytes + |batch|;
    if bytes > HIGH_WATERMARK then
      Buffer(KeepNewest(all), TotalBytes(KeepNewest(all)), true, b.droppedInWindow + TotalBytes(Dropped(all)))
    else if b.suppressed && bytes <= LOW_WATERMARK then Buffer(all, bytes, false, 0)
    else b.(batches := all, bytes := bytes)
  }

  // The caller must announce an overflow: the first one since the buffer was last low.
  predicate NeedsSentinel(b: Buffer, batch: Chunk) {
    b.bytes + |batch| > HIGH_WATERMARK && !b.suppressed
  }

  function AfterDrain(b: Buffer): Buffer {
    if b.batches == [] then b else b.(batches := b.batches[1..], bytes := b.bytes - |b.batches[0]|)
  }

  lemma DropSplitsBytes(batches: seq<Chunk>)
    ensures TotalBytes(batches) == TotalBytes(Dropped(batches)) + TotalBytes(KeepNewest(batches))
  {
    DroppedThenKept(batches);
    TotalConcat(Dropped(batches), KeepNewest(batches));
  }

  class ByteBuffer {
    var batches: seq<Chunk>
    var bytes: int
    var suppressed: bool
    var droppedInWindow: nat

    ghost function View(): Buffer
      reads this
    {
      Buffer(batches, bytes, suppressed, droppedInWindow)
    }

    constructor ()
      ensures View() == EMPTY_BUFFER
    {
      batches, bytes, suppressed, droppedInWindow := [], 0, false, 0;
    }

    method DropOldest()
      requires bytes == TotalBytes(batches)
      modifies this`batches, this`bytes, this`droppedInWindow
      ensures batches == KeepNewest(old(batches)) && bytes == TotalBytes(batches)
      ensures droppedInWindow == old(droppedInWindow) + TotalBytes(Dropped(old(batches)))
    {
      ghost var gone: seq<Chunk> := [];
      while batches != [] && bytes > HIGH_WATERMARK
        invariant bytes == TotalBytes(batches)
        invariant KeepNewest(batches) == KeepNewest(old(batches))
        invariant gone + Dropped(batches) == Dropped(old(batches))
        invariant droppedInWindow == old(droppedInWindow) + TotalBytes(gone)
        decreases |batches|
      {
        PopOldest(gone, batches);
        bytes := bytes - |batches[0]|;
        droppedInWindow := droppedInWindow + |batches[0]|;
        gone := gone + [batches[0]];
        batches := batches[1..];
      }
      assert gone + Dropped(batches) == gone;
    }

    method Append(batch: Chunk) returns (needsSentinel: bool)
      requires BufferValid(View())
      modifies this
      ensures View() == AfterAppend(old(View()), batch)
      ensures needsSentinel == NeedsSentinel(old(View()), batch)
    {
      ghost var all := batches + [batch];
      assert TotalBytes(all) == bytes + |batch| by {
        assert all[..|batches|] == batches;
      }
      batches := batches + [batch];
      bytes := bytes + |batch|;
      needsSentinel := false;
      if bytes > HIGH_WATERMARK {
        DropOldest();
        assert batches == KeepNewest(all) && bytes == TotalBytes(KeepNewest(all));
        if !suppressed {
          suppressed := true;
          needsSentinel := true;
        }
      } else if suppressed && bytes <= LOW_WATERMARK {
        suppressed := false;
        droppedInWindow := 0;
      }
    }

    method DrainOne() returns (sent: Option<Chunk>)
      modifies this`batches, this`bytes
      ensures View() == AfterDrain(old(View()))
      ensures sent == if old(batches) == [] then None else Some(old(batches)[0])
    {
      if batches == [] {
        return None;
      }
      sent := Some(batches[0]);
      bytes := bytes - |batches[0]|;
      batches := batches[1..];
    }
  }

  // ---- Any interleaving of appends and drains ----

  datatype Access = Append(batch: Chunk) | Drain

  function After(b: Buffer, a: Access): Buffer {
    match a
    case Append(batch) => AfterAppend(b, batch)
    case Drain => AfterDrain(b)
  }

  function AfterAll(b: Buffer, accesses: seq<Access>): Buffer {
    if accesses == [] then b else After(AfterAll(b, accesses[..|accesses| - 1]), accesses[|accesses| - 1])
  }

  lemma AppendKeepsBufferValid(b: Buffer, batch: Chunk)
    requires BufferValid(b)
    ensures BufferValid(AfterAppend(b, batch))
    ensures AfterAppend(b, batch).bytes <= HIGH_WATERMARK
  {
    var all := b.batches + [batch];
    assert all[..|b.batches|] == b.batches;
    assert TotalBytes(all) == b.bytes + |batch|;
    if b.bytes + |batch| > HIGH_WATERMARK {
      KeepNewestFits(all);
    }
  }

  /** The byte counter is exact, an append always ends at or below the high watermark, and nothing is
      counted as dropped unless a notice is outstanding. */
  lemma AccessKeepsBufferValid(b: Buffer, a: Access)
    requires BufferValid(b)
    ensures BufferValid(After(b, a))
    ensures a.Append? ==> After(b, a).bytes <= HIGH_WATERMARK
  {
    if a.Append? {
      AppendKeepsBufferValid(b, a.batch);
    } else if b.batches != [] {
      TotalFront(b.batches);
    }
  }

  lemma {:induction false} RunsKeepBufferValid(b: Buffer, accesses: seq<Access>)
    requires BufferValid(b)
    ensures BufferValid(AfterAll(b, accesses))
  {
    if accesses != [] {
      var n := |accesses| - 1;
      RunsKeepBufferValid(b, accesses[..n]);
      AccessKeepsBufferValid(AfterAll(b, accesses[..n]), accesses[n]);
    }
  }

  // Bytes that enter the buffer and never leave it through a drain.
  function LostBytes(b: Buffer, a: Access): int {
    match a
    case Append(batch) => TotalBytes(b.batches) + |batch| - TotalBytes(After(b, a).batches)
    case Drain => 0
  }

  // The notice is withdrawn when an append leaves the buffer at or below the low watermark.
  predicate Resets(b: Buffer, a: Access) {
    a.Append? && b.suppressed && TotalBytes(b.batches) + |a.batch| <= LOW_WATERMARK
  }

  function LostSinceReset(b: Buffer, accesses: seq<Access>): int {
    if accesses == [] then 0 else
      var n := |accesses| - 1;
      var before := AfterAll(b, accesses[..n]);
      if Resets(before, accesses[n]) then 0 else LostSinceReset(b, accesses[..n]) + LostBytes(before, accesses[n])
  }

  lemma DropCounterStep(b: Buffer, a: Access)
    requires BufferValid(b)
    ensures After(b, a).droppedInWindow == if Resets(b, a) then 0 else b.droppedInWindow + LostBytes(b, a)
  {
    if a.Append? {
      var all := b.batches + [a.batch];
      assert all[..|b.batches|] == b.batches;
      DropSplitsBytes(all);
    }
  }

  /** The drop counter reported in a notice is exactly the bytes lost since the last reset. */
  lemma {:induction false} DropCounterExact(accesses: seq<Access>)
    ensures AfterAll(EMPTY_BUFFER, accesses).droppedInWindow == LostSinceReset(EMPTY_BUFFER, accesses)
  {
    if accesses != [] {
      var n := |accesses| - 1;
      DropCounterExact(accesses[..n]);
      RunsKeepBufferValid(EMPTY_BUFFER, accesses[..n]);
      DropCounterStep(AfterAll(EMPTY_BUFFER, accesses[..n]), accesses[n]);
    }
  }

  predicate SentinelAt(b: Buffer, accesses: seq<Access>, i: nat)
    requires i < |accesses|
  {
    accesses[i].Append? && NeedsSentinel(AfterAll(b, accesses[..i]), accesses[i].batch)
  }

  predicate EndsLow(b: Buffer, accesses: seq<Access>, k: nat)
    requires k < |accesses|
  {
    accesses[k].Append? && AfterAll(b, accesses[..k + 1]).bytes <= LOW_WATERMARK
  }

  lemma NoticeOutstanding(b: Buffer, a: Access)
    requires b.suppressed || (a.Append? && NeedsSentinel(b, a.batch))
    ensures After(b, a).suppressed || (a.Append? && After(b, a).bytes <= LOW_WATERMARK && b.suppressed)
  {
  }

  lemma AfterAllStep(b: Buffer, accesses: seq<Access>, n: nat)
    requires n < |accesses|
    ensures AfterAll(b, accesses[..n + 1]) == After(AfterAll(b, accesses[..n]), accesses[n])
  {
    assert accesses[..n + 1][..n] == accesses[..n];
  }

  lemma {:induction false} SuppressedUntilLow(b: Buffer, accesses: seq<Access>, i: nat, j: nat)
    requires i < j <= |accesses| && SentinelAt(b, accesses, i)
    ensures AfterAll(b, accesses[..j]).suppressed || exists k | i < k < j :: EndsLow(b, accesses, k)
    decreases j
  {
    var n := j - 1;
    AfterAllStep(b, accesses, n);
    if i == n {
      NoticeOutstanding(AfterAll(b, accesses[..n]), accesses[n]);
    } else {
      SuppressedUntilLow(b, accesses, i, n);
      if AfterAll(b, accesses[..n]).suppressed {
        NoticeOutstanding(AfterAll(b, accesses[..n]), accesses[n]);
        assert AfterAll(b, accesses[..j]).suppressed || EndsLow(b, accesses, n);
      }
    }
  }

  /** Between two overflow notices some append ended at or below the low watermark. */
  lemma OneNoticePerEpisode(b: Buffer, accesses: seq<Access>, i: nat, j: nat)
    requires i < j < |accesses| && SentinelAt(b, accesses, i) && SentinelAt(b, accesses, j)
    ensures exists k | i < k < j :: EndsLow(b, accesses, k)
  {
    SuppressedUntilLow(b, accesses, i, j);
  }

  // The append at this point does not fit.
  predicate OverflowsAt(accesses: seq<Access>, i: nat)
    requires i < |accesses|
  {
    accesses[i].Append?
    && TotalBytes(AfterAll(EMPTY_BUFFER, accesses[..i]).batches) + |accesses[i].batch| > HIGH_WATERMARK
  }

  // The append at this point leaves everything in the buffer, at or below the low watermark.
  predicate RecoversAt(accesses: seq<Access>, i: nat)
    requires i < |accesses|
  {
    accesses[i].Append?
    && TotalBytes(AfterAll(EMPTY_BUFFER, accesses[..i]).batches) + |accesses[i].batch| <= LOW_WATERMARK
  }

  // Some append before n overflowed, and none has recovered since.
  ghost predicate InEpisode(accesses: seq<Access>, n: nat)
    requires n <= |accesses|
  {
    exists i | 0 <= i < n :: OverflowsAt(accesses, i) && forall k | i < k < n :: !RecoversAt(accesses, k)
  }

  lemma EpisodeStep(accesses: seq<Access>, n: nat)
    requires n < |accesses|
    ensures InEpisode(accesses, n + 1)
       <==> OverflowsAt(accesses, n) || (InEpisode(accesses, n) && !RecoversAt(accesses, n))
  {
    if InEpisode(accesses, n) && !RecoversAt(accesses, n) {
      var i :| 0 <= i < n && OverflowsAt(accesses, i) && forall k | i < k < n :: !RecoversAt(accesses, k);
      assert forall k | i < k < n + 1 :: !RecoversAt(accesses, k);
    }
  }

  lemma SuppressedStep(b: Buffer, a: Access)
    requires BufferValid(b)
    ensures After(b, a).suppressed
       <==> (a.Append? && TotalBytes(b.batches) + |a.batch| > HIGH_WATERMARK)
            || (b.suppressed && !(a.Append? && TotalBytes(b.batches) + |a.batch| <= LOW_WATERMARK))
  {
  }

  lemma {:induction false} SuppressedIsEpisode(accesses: seq<Access>, n: nat)
    requires n <= |accesses|
    ensures AfterAll(EMPTY_BUFFER, accesses[..n]).suppressed <==> InEpisode(accesses, n)
  {
    if n > 0 {
      var before := AfterAll(EMPTY_BUFFER, accesses[..n - 1]);
      SuppressedIsEpisode(accesses, n - 1);
      RunsKeepBufferValid(EMPTY_BUFFER, accesses[..n - 1]);
      AfterAllStep(EMPTY_BUFFER, accesses, n - 1);
      SuppressedStep(before, accesses[n - 1]);
      EpisodeStep(accesses, n - 1);
    }
  }

  /** A notice is due exactly for an append that overflows when no earlier overflow is still open, that is
      when every earlier one was followed by an append that recovered. */
  lemma NoticeExactlyAtEpisodeStart(accesses: seq<Access>, n: nat)
    requires n < |accesses|
    ensures SentinelAt(EMPTY_BUFFER, accesses, n)
       <==> OverflowsAt(accesses, n)
            && forall i | 0 <= i < n && OverflowsAt(accesses, i) :: exists k | i < k < n :: RecoversAt(accesses, k)
  {
    SuppressedIsEpisode(accesses, n);
    RunsKeepBufferValid(EMPTY_BUFFER, accesses[..n]);
  }
}
