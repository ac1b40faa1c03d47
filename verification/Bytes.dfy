/** Byte strings, as read from a terminal and sent to a browser. */
module Bytes {
  import opened Sequences

  newtype byte = x: int | 0 <= x < 256

  type Chunk = seq<byte>

  function Joined(chunks: seq<Chunk>): Chunk {
    if chunks == [] then [] else Joined(chunks[..|chunks| - 1]) + chunks[|chunks| - 1]
  }

  function TotalBytes(chunks: seq<Chunk>): nat {
    if chunks == [] then 0 else TotalBytes(chunks[..|chunks| - 1]) + |chunks[|chunks| - 1]|
  }

  lemma {:induction false} TotalIsLength(chunks: seq<Chunk>)
    ensures TotalBytes(chunks) == |Joined(chunks)|
  {
    if chunks != [] {
      TotalIsLength(chunks[..|chunks| - 1]);
    }
  }

  lemma TotalConcat(a: seq<Chunk>, b: seq<Chunk>)
    ensures TotalBytes(a + b) == TotalBytes(a) + TotalBytes(b)
  {
    JoinedConcat(a, b);
    TotalIsLength(a);
    TotalIsLength(b);
    TotalIsLength(a + b);
  }

  lemma JoinedAppend(chunks: seq<Chunk>, c: Chunk)
    ensures Joined(chunks + [c]) == Joined(chunks) + c
  {
    assert (chunks + [c])[..|chunks|] == chunks;
  }

  lemma TotalAppend(chunks: seq<Chunk>, c: Chunk)
    ensures TotalBytes(chunks + [c]) == TotalBytes(chunks) + |c|
  {
    assert (chunks + [c])[..|chunks|] == chunks;
  }

  lemma TotalFront(chunks: seq<Chunk>)
    requires chunks != []
    ensures TotalBytes(chunks) == |chunks[0]| + TotalBytes(chunks[1..])
  {
    JoinedFront(chunks);
    TotalIsLength(chunks);
    TotalIsLength(chunks[1..]);
  }

  lemma {:induction false} JoinedConcat(a: seq<Chunk>, b: seq<Chunk>)
    ensures Joined(a + b) == Joined(a) + Joined(b)
  {
    if b == [] {
      assert a + b == a;
    } else {
      var n := |b| - 1;
      JoinedConcat(a, b[..n]);
      JoinedAppend(a + b[..n], b[n]);
      assert a + b[..n] + [b[n]] == a + b;
      ConcatAssociates(Joined(a), Joined(b[..n]), b[n]);
    }
  }

  lemma JoinedFront(chunks: seq<Chunk>)
    requires chunks != []
    ensures Joined(chunks) == chunks[0] + Joined(chunks[1..])
  {
    JoinedConcat([chunks[0]], chunks[1..]);
    assert [chunks[0]] + chunks[1..] == chunks;
    assert Joined([chunks[0]]) == chunks[0] by {
      assert [chunks[0]][..0] == [];
    }
  }
}
