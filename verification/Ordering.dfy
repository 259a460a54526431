/** Chunk records in index order. */
module Ordering {
  import opened ManifestState

  /** Strictly increasing indices: sorted, and each chunk once. */
  ghost predicate Increasing(cs: seq<ChunkState>) {
    forall p, q :: 0 <= p < q < |cs| ==> cs[p].index < cs[q].index
  }

  ghost predicate DistinctIndices(cs: seq<ChunkState>) {
    forall p, q :: 0 <= p < q < |cs| ==> cs[p].index != cs[q].index
  }

  function InsertByIndex(c: ChunkState, cs: seq<ChunkState>): seq<ChunkState> {
    if cs == [] || c.index <= cs[0].index then [c] + cs else [cs[0]] + InsertByIndex(c, cs[1..])
  }

  /** sort.Slice by index. */
  function SortByIndex(cs: seq<ChunkState>): seq<ChunkState> {
    if cs == [] then [] else InsertByIndex(cs[0], SortByIndex(cs[1..]))
  }

  lemma {:induction false} InsertMembers(c: ChunkState, cs: seq<ChunkState>, x: ChunkState)
    ensures x in InsertByIndex(c, cs) <==> x == c || x in cs
  {
    if !(cs == [] || c.index <= cs[0].index) {
      InsertMembers(c, cs[1..], x);
      assert cs == [cs[0]] + cs[1..];
    }
  }

  lemma {:induction false} InsertIncreases(c: ChunkState, cs: seq<ChunkState>)
    requires Increasing(cs) && forall p :: 0 <= p < |cs| ==> cs[p].index != c.index
    ensures Increasing(InsertByIndex(c, cs))
  {
    if !(cs == [] || c.index <= cs[0].index) {
      var tail := InsertByIndex(c, cs[1..]);
      InsertIncreases(c, cs[1..]);
      forall q | 0 <= q < |tail|
        ensures cs[0].index < tail[q].index
      {
        InsertMembers(c, cs[1..], tail[q]);
      }
    }
  }

  lemma {:induction false} SortMembers(cs: seq<ChunkState>, x: ChunkState)
    ensures x in SortByIndex(cs) <==> x in cs
  {
    if cs != [] {
      SortMembers(cs[1..], x);
      InsertMembers(cs[0], SortByIndex(cs[1..]), x);
      assert cs == [cs[0]] + cs[1..];
    }
  }

  lemma {:induction false} SortIncreases(cs: seq<ChunkState>)
    requires DistinctIndices(cs)
    ensures Increasing(SortByIndex(cs))
  {
    if cs != [] {
      var tail := SortByIndex(cs[1..]);
      SortIncreases(cs[1..]);
      forall p | 0 <= p < |tail|
        ensures tail[p].index != cs[0].index
      {
        SortMembers(cs[1..], tail[p]);
      }
      InsertIncreases(cs[0], tail);
    }
  }
}
