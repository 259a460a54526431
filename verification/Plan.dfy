/** Chunk geometry: how a file of a given size is cut, and what an exact cut is. */
module Plan {

  newtype byte = x: int | 0 <= x < 256
  type Bytes = seq<byte>

  const MAX_INT64: int := 0x7fff_ffff_ffff_ffff
  const MIB: int := 1024 * 1024

  datatype Chunk = Chunk(index: int, offset: int, size: int, start: int, end: int)

  /** The part of a chunk record that says which bytes it stands for. */
  datatype Extent = Extent(index: int, offset: int, size: int)

  datatype PlanOutcome =
    | Built(chunks: seq<Chunk>)
    | InvalidTotal
    | InvalidChunkSize
    | OffsetOverflow // the loop variable would leave int64

  function AutoChunkSize(totalBytes: int): (size: int)
    ensures size > 0
  {
    if totalBytes < 100 * MIB then 2 * MIB
    else if totalBytes <= 1024 * MIB then 4 * MIB
    else if totalBytes <= 4 * 1024 * MIB then 8 * MIB
    else 16 * MIB
  }

  function ChunkCount(totalBytes: int, chunkSize: int): int {
    if totalBytes <= 0 || chunkSize <= 0 then 0
    else totalBytes / chunkSize + (if totalBytes % chunkSize != 0 then 1 else 0)
  }

  /** The end of the first k extents of an exact cut. */
  function EndOf(es: seq<Extent>, k: nat): int
    requires k <= |es|
  {
    if k == 0 then 0 else es[k - 1].offset + es[k - 1].size
  }

  /** es cuts [0, total) into consecutive nonempty pieces, numbered in order. */
  ghost predicate IsPartition(es: seq<Extent>, total: int) {
    && (forall i :: 0 <= i < |es| ==> es[i].index == i && es[i].size > 0)
    && (forall i {:trigger EndOf(es, i)} :: 0 <= i < |es| ==> es[i].offset == EndOf(es, i))
    && EndOf(es, |es|) == total
  }

  function Extents(chunks: seq<Chunk>): (es: seq<Extent>)
    ensures |es| == |chunks|
    ensures forall i :: 0 <= i < |es| ==> es[i] == Extent(chunks[i].index, chunks[i].offset, chunks[i].size)
  {
    seq(|chunks|, i requires 0 <= i < |chunks| => Extent(chunks[i].index, chunks[i].offset, chunks[i].size))
  }

  lemma {:induction false} EndsIncrease(es: seq<Extent>, total: int, i: nat, j: nat)
    requires IsPartition(es, total)
    requires i <= j <= |es|
    ensures 0 <= EndOf(es, i) && EndOf(es, i) + (j - i) <= EndOf(es, j) <= total
    decreases |es| - i + j
  {
    if j < |es| {
      EndsIncrease'(es, total, j, |es|);
    }
    EndsIncrease'(es, total, i, j);
    EndsIncrease'(es, total, 0, i);
  }

  lemma {:induction false} EndsIncrease'(es: seq<Extent>, total: int, i: nat, j: nat)
    requires IsPartition(es, total)
    requires i <= j <= |es|
    ensures EndOf(es, i) + (j - i) <= EndOf(es, j)
  {
    if i < j {
      EndsIncrease'(es, total, i, j - 1);
      assert es[j - 1].offset == EndOf(es, j - 1);
    }
  }

  ghost predicate Holds(e: Extent, p: int) { e.offset <= p < e.offset + e.size }

  /** Every byte position of the file lies in exactly one piece, and no piece reaches outside. */
  lemma {:induction false} PartitionCoversOnce(es: seq<Extent>, total: int, p: int)
    requires IsPartition(es, total)
    ensures 0 <= p < total <==> exists i :: 0 <= i < |es| && Holds(es[i], p)
    ensures forall i, j :: 0 <= i < j < |es| ==> !(Holds(es[i], p) && Holds(es[j], p))
  {
    forall i | 0 <= i < |es|
      ensures Holds(es[i], p) ==> 0 <= p < total
    {
      EndsIncrease(es, total, i, i + 1);
    }
    if 0 <= p < total {
      var k := FindPiece(es, total, p, |es|);
      assert Holds(es[k], p);
    }
    forall i, j | 0 <= i < j < |es|
      ensures !(Holds(es[i], p) && Holds(es[j], p))
    {
      EndsIncrease(es, total, i + 1, j);
    }
  }

  lemma {:induction false} FindPiece(es: seq<Extent>, total: int, p: int, k: nat) returns (i: nat)
    requires IsPartition(es, total)
    requires k <= |es| && 0 <= p < EndOf(es, k)
    ensures i < k && Holds(es[i], p)
  {
    if EndOf(es, k - 1) <= p {
      i := k - 1;
    } else {
      i := FindPiece(es, total, p, k - 1);
    }
  }

  /**
   * The plan for a file. The loop is the source's, with the one thing Go leaves
   * silent made visible: the step past the last chunk may leave int64.
   */
  method BuildPlan(totalBytes: int, chunkSize: int) returns (r: PlanOutcome)
    requires totalBytes <= MAX_INT64 && chunkSize <= MAX_INT64
    ensures r.InvalidTotal? <==> totalBytes < 0
    ensures r.InvalidChunkSize? <==> totalBytes >= 0 && chunkSize <= 0
    ensures r.OffsetOverflow? <==>
      totalBytes >= 0 && chunkSize > 0 && PlanEnd(totalBytes, chunkSize) > MAX_INT64
    ensures r.Built? ==>
      && |r.chunks| == ChunkCount(totalBytes, chunkSize)
      && IsPartition(Extents(r.chunks), totalBytes)
      && (forall i :: 0 <= i < |r.chunks| ==>
            r.chunks[i].size <= chunkSize && (i < |r.chunks| - 1 ==> r.chunks[i].size == chunkSize))
      && (forall i :: 0 <= i < |r.chunks| ==>
            r.chunks[i].start == r.chunks[i].offset && r.chunks[i].end == r.chunks[i].offset + r.chunks[i].size - 1)
  {
    if totalBytes < 0 {
      return InvalidTotal;
    }
    if chunkSize <= 0 {
      return InvalidChunkSize;
    }
    var chunks, overflow := CutLoop(totalBytes, chunkSize);
    if totalBytes > 0 {
      CountFromLastOffset(totalBytes, chunkSize, |chunks| - 1, chunks[|chunks| - 1].offset);
    }
    if overflow {
      return OffsetOverflow;
    }
    r := Built(chunks);
  }

  /** The loop of BuildPlan; overflow tells that the step past the last chunk left int64. */
  method CutLoop(totalBytes: int, chunkSize: int) returns (chunks: seq<Chunk>, overflow: bool)
    requires 0 <= totalBytes <= MAX_INT64 && 0 < chunkSize
    ensures IsPartition(Extents(chunks), totalBytes)
    ensures totalBytes > 0 ==>
      && chunks != []
      && var last := chunks[|chunks| - 1].offset;
         Multiple(last, |chunks| - 1, chunkSize) && 0 <= last < totalBytes <= last + chunkSize
         && (overflow <==> last + chunkSize > MAX_INT64)
    ensures totalBytes == 0 ==> chunks == [] && !overflow
    ensures forall k :: 0 <= k < |chunks| ==>
      chunks[k].size <= chunkSize && (k < |chunks| - 1 ==> chunks[k].size == chunkSize)
    ensures forall k :: 0 <= k < |chunks| ==>
      chunks[k].start == chunks[k].offset && chunks[k].end == chunks[k].offset + chunks[k].size - 1
  {
    chunks, overflow := [], false;
    var i, offset := 0, 0;
    while offset < totalBytes
      invariant i == |chunks| && 0 <= offset <= MAX_INT64 && Multiple(offset, i, chunkSize)
      invariant i == 0 ==> offset == 0
      invariant i > 0 ==>
        && chunks[i - 1].offset == offset - chunkSize && 0 <= offset - chunkSize < totalBytes
        && Multiple(offset - chunkSize, i - 1, chunkSize)
      invariant IsPartition(Extents(chunks), if offset < totalBytes then offset else totalBytes)
      invariant forall k :: 0 <= k < i ==>
        chunks[k].size <= chunkSize && (k < i - 1 || offset < totalBytes ==> chunks[k].size == chunkSize)
      invariant forall k :: 0 <= k < i ==>
        chunks[k].start == chunks[k].offset && chunks[k].end == chunks[k].offset + chunks[k].size - 1
    {
      var size := chunkSize;
      var remain := totalBytes - offset;
      if remain < size {
        size := remain;
      }
      AppendPiece(chunks, offset, Chunk(i, offset, size, offset, offset + size - 1));
      chunks := chunks + [Chunk(i, offset, size, offset, offset + size - 1)];
      NextMultiple(offset, i, chunkSize);
      if offset + chunkSize > MAX_INT64 {
        overflow := true;
        return;
      }
      i, offset := i + 1, offset + chunkSize;
    }
  }

  lemma {:induction false} AppendPiece(chunks: seq<Chunk>, offset: int, c: Chunk)
    requires IsPartition(Extents(chunks), offset)
    requires c.index == |chunks| && c.offset == offset && c.size > 0
    ensures IsPartition(Extents(chunks + [c]), offset + c.size)
  {
    var es, es' := Extents(chunks), Extents(chunks + [c]);
    assert forall k :: 0 <= k <= |es| ==> EndOf(es', k) == EndOf(es, k);
  }

  ghost predicate Multiple(offset: int, i: int, chunkSize: int) { offset == i * chunkSize }

  lemma {:induction false} NextMultiple(offset: int, i: int, chunkSize: int)
    requires Multiple(offset, i, chunkSize)
    ensures Multiple(offset + chunkSize, i + 1, chunkSize)
  {
  }

  /** The offset just past the last chunk of a plan: the largest value the loop variable takes. */
  function PlanEnd(totalBytes: int, chunkSize: int): int {
    ChunkCount(totalBytes, chunkSize) * chunkSize
  }

  /** If the i-th chunk starts inside the file and the next one would not, there are i + 1 chunks. */
  lemma {:induction false} CountFromLastOffset(totalBytes: int, chunkSize: int, i: nat, offset: int)
    requires 0 < chunkSize && Multiple(offset, i, chunkSize)
    requires 0 <= offset < totalBytes
    ensures offset + chunkSize >= totalBytes ==>
      ChunkCount(totalBytes, chunkSize) == i + 1 && PlanEnd(totalBytes, chunkSize) == offset + chunkSize
  {
    if offset + chunkSize >= totalBytes {
      var q, m := totalBytes / chunkSize, totalBytes % chunkSize;
      NextMultiple(offset, i, chunkSize);
      NextMultiple(offset + chunkSize, i + 1, chunkSize);
      NextMultiple(q * chunkSize, q, chunkSize);
      if q < i {
        MulLe(q + 1, i, chunkSize);
      } else if q > i + 1 {
        MulLe(i + 2, q, chunkSize);
      }
    }
  }

  lemma {:induction false} MulLe(a: int, b: int, c: int)
    requires a <= b && c >= 0
    ensures a * c <= b * c
  {
  }

  /**
   * How many chunks the automatic size makes of a nonempty file: as many as pieces of 2, 4, 8
   * or 16 MiB are needed, by its size.
   */
  lemma {:induction false} AutoChunkCount(totalBytes: int, n: int)
    requires totalBytes > 0 && n == ChunkCount(totalBytes, AutoChunkSize(totalBytes))
    ensures totalBytes < 100 * MIB ==> (n - 1) * 2 * MIB < totalBytes <= n * 2 * MIB
    ensures 100 * MIB <= totalBytes <= 1024 * MIB ==> (n - 1) * 4 * MIB < totalBytes <= n * 4 * MIB
    ensures 1024 * MIB < totalBytes <= 4096 * MIB ==> (n - 1) * 8 * MIB < totalBytes <= n * 8 * MIB
    ensures 4096 * MIB < totalBytes ==> (n - 1) * 16 * MIB < totalBytes <= n * 16 * MIB
    ensures totalBytes <= 4096 * MIB ==> n <= 512
  {
  }

  /** The automatic chunk size keeps a file within a million chunks exactly up to a million 16 MiB pieces. */
  lemma {:induction false} AutoChunkCountBound(totalBytes: int)
    requires totalBytes >= 0
    ensures ChunkCount(totalBytes, AutoChunkSize(totalBytes)) <= 1_000_000 <==> totalBytes <= 1_000_000 * 16 * MIB
  {
  }
}
