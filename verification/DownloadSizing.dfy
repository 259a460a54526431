/** How an internet download is cut: the chunk-count target and the chunk size that meets it. */
module DownloadSizing {
  import opened Plan

  const MAX_CHUNK_SIZE_MB := 1024

  function TargetChunkCount(total: int, initialChannels: int): (n: int)
    ensures 1 <= n <= 6
  {
    if initialChannels <= 1 then
      if total <= 128 * MIB then 1 else 4
    else if total <= 128 * MIB then 1
    else if total <= 512 * MIB then 3
    else 6
  }

  /** int64 addition as the machine does it. */
  function Add64(a: int, b: int): (r: int)
    requires -MAX_INT64 - 1 <= a <= MAX_INT64 && -MAX_INT64 - 1 <= b <= MAX_INT64
    ensures -MAX_INT64 - 1 <= r <= MAX_INT64
    ensures -MAX_INT64 - 1 <= a + b <= MAX_INT64 ==> r == a + b
  {
    if a + b > MAX_INT64 then a + b - 0x1_0000_0000_0000_0000
    else if a + b < -MAX_INT64 - 1 then a + b + 0x1_0000_0000_0000_0000
    else a + b
  }

  /** Division that truncates towards zero. */
  function Quotient(a: int, b: int): (q: int)
    requires b > 0
    ensures a < 0 ==> q <= 0
  {
    if a >= 0 then a / b else -((-a) / b)
  }

  datatype Sizing = Sized(chunkSize: int) | BadRequest | NoLength

  /** The chunk-size computation of prepare, with int64 arithmetic as it is. */
  function ChooseChunkSize(chunkSizeMb: int, total: int, initialChannels: int): Sizing
    requires total <= MAX_INT64
  {
    if chunkSizeMb < 0 || chunkSizeMb > MAX_CHUNK_SIZE_MB then BadRequest
    else if total <= 0 then NoLength
    else
      var asked := if chunkSizeMb * MIB <= 0 then AutoChunkSize(total) else chunkSizeMb * MIB;
      var target := TargetChunkCount(total, initialChannels);
      var capped := Quotient(Add64(Add64(total, target), -1), target);
      Sized(if capped > asked || chunkSizeMb <= 0 then capped else asked)
  }

  /** The chosen size yields a plan, and one of at most the targeted number of chunks. */
  predicate MeetsTarget(chunkSizeMb: int, total: int, initialChannels: int)
    requires total <= MAX_INT64
  {
    var s := ChooseChunkSize(chunkSizeMb, total, initialChannels);
    s.Sized? && s.chunkSize > 0 && ChunkCount(total, s.chunkSize) <= TargetChunkCount(total, initialChannels)
  }

  /** A chunk count is within a bound exactly when that many chunks hold the whole file. */
  lemma {:induction false} CountWithin(total: int, size: int, n: int)
    requires total > 0 && size > 0 && n > 0
    ensures ChunkCount(total, size) <= n <==> size * n >= total
  {
    var q, r := total / size, total % size;
    assert total == size * q + r;
    if n <= q - 1 {
      Scale(size, n, q - 1);
      assert size * (q - 1) == size * q - size;
    } else if n >= q + 1 {
      Scale(size, q + 1, n);
      assert size * (q + 1) == size * q + size;
    }
  }

  lemma {:induction false} Scale(size: int, a: int, b: int)
    requires size > 0 && a <= b
    ensures size * a <= size * b
  {
  }

  lemma {:induction false} CeilingHolds(total: int, n: int)
    requires total > 0 && n > 0
    ensures (total + n - 1) / n * n >= total && (total + n - 1) / n > 0
  {
    var c := (total + n - 1) / n;
    assert total + n - 1 == c * n + (total + n - 1) % n;
  }

  /** Every accepted request stays within the target (never above six) exactly when rounding up fits int64. */
  lemma {:induction false} SizingMeetsTarget(chunkSizeMb: int, total: int, initialChannels: int)
    requires 0 <= chunkSizeMb <= MAX_CHUNK_SIZE_MB && 0 < total <= MAX_INT64
    ensures MeetsTarget(chunkSizeMb, total, initialChannels) <==>
      total + TargetChunkCount(total, initialChannels) - 1 <= MAX_INT64
  {
    var target := TargetChunkCount(total, initialChannels);
    var size := ChooseChunkSize(chunkSizeMb, total, initialChannels).chunkSize;
    if total + target - 1 <= MAX_INT64 {
      CeilingFits(total, target);
      var capped := (total + target - 1) / target;
      assert size >= capped;
      CeilingHolds(total, target);
      Scale(target, capped, size);
      CountWithin(total, size, target);
    } else if size > 0 {
      assert size <= 1024 * MIB;
      Scale(size, target, 6);
      CountWithin(total, size, target);
    }
  }

  lemma {:induction false} CeilingFloor(total: int, n: int)
    requires total > 0 && n > 0
    ensures ((total + n - 1) / n) * (n - 1) <= total + n - 1 - (total + n - 1) / n
  {
    var c := (total + n - 1) / n;
    assert total + n - 1 == c * n + (total + n - 1) % n;
    assert c * (n - 1) == c * n - c;
  }

  /** Left to itself a download larger than 128 MiB is cut in exactly the targeted number of chunks. */
  lemma {:induction false} AutomaticCount(total: int, initialChannels: int)
    requires 128 * MIB < total && total + TargetChunkCount(total, initialChannels) - 1 <= MAX_INT64
    ensures var s := ChooseChunkSize(0, total, initialChannels);
      s.Sized? && s.chunkSize > 0 && ChunkCount(total, s.chunkSize) == TargetChunkCount(total, initialChannels)
  {
    var n := TargetChunkCount(total, initialChannels);
    SizingMeetsTarget(0, total, initialChannels);
    CeilingFits(total, n);
    var c := (total + n - 1) / n;
    CeilingFloor(total, n);
    assert c > n;
    if n > 1 { CountWithin(total, c, n - 1); }
  }

  /**
   * How many chunks a download gets: one up to 128 MiB; above that at most four over one
   * channel, and over more at most three up to 512 MiB and six beyond. Left to itself it gets
   * that many; a requested size is never cut smaller, and is kept when it already meets this.
   */
  ghost predicate CountByCase(chunkSizeMb: int, total: int, initialChannels: int, chunkSize: int, count: int) {
    && (total <= 128 * MIB ==> count == 1)
    && (total > 128 * MIB && initialChannels <= 1 ==> if chunkSizeMb == 0 then count == 4 else 1 <= count <= 4)
    && (128 * MIB < total <= 512 * MIB && initialChannels >= 2 ==>
          if chunkSizeMb == 0 then count == 3 else 1 <= count <= 3)
    && (total > 512 * MIB && initialChannels >= 2 ==> if chunkSizeMb == 0 then count == 6 else 1 <= count <= 6)
    && (chunkSizeMb > 0 ==> chunkSize >= chunkSizeMb * MIB)
  }

  lemma {:induction false} CountByCases(chunkSizeMb: int, total: int, initialChannels: int)
    requires 0 <= chunkSizeMb <= MAX_CHUNK_SIZE_MB && 0 < total
    requires total + TargetChunkCount(total, initialChannels) - 1 <= MAX_INT64
    ensures var size := ChooseChunkSize(chunkSizeMb, total, initialChannels).chunkSize;
      CountByCase(chunkSizeMb, total, initialChannels, size, ChunkCount(total, size))
  {
    SizingMeetsTarget(chunkSizeMb, total, initialChannels);
    if total > 128 * MIB { AutomaticCount(total, initialChannels); }
    var size := ChooseChunkSize(chunkSizeMb, total, initialChannels).chunkSize;
    CountPositive(total, size);
  }

  lemma {:induction false} CountPositive(total: int, size: int)
    requires total > 0 && size > 0
    ensures ChunkCount(total, size) >= 1
  {
    var q, r := total / size, total % size;
    assert total == size * q + r;
    if q < 0 {
      Scale(size, q, -1);
    }
  }

  /** A requested size is kept exactly when it meets the target as it is. */
  lemma {:induction false} RequestKept(chunkSizeMb: int, total: int, initialChannels: int)
    requires 0 < chunkSizeMb <= MAX_CHUNK_SIZE_MB && 0 < total
    requires total + TargetChunkCount(total, initialChannels) - 1 <= MAX_INT64
    ensures ChooseChunkSize(chunkSizeMb, total, initialChannels).chunkSize == chunkSizeMb * MIB <==>
      ChunkCount(total, chunkSizeMb * MIB) <= TargetChunkCount(total, initialChannels)
  {
    var n, asked := TargetChunkCount(total, initialChannels), chunkSizeMb * MIB;
    CeilingFits(total, n);
    CeilingHolds(total, n);
    CountWithin(total, asked, n);
    var c := (total + n - 1) / n;
    if c <= asked {
      Scale(n, c, asked);
    } else {
      CeilingFloor(total, n);
      Scale(n, asked, c - 1);
      assert (c - 1) * n == c * n - n;
    }
  }

  lemma {:induction false} CeilingFits(total: int, target: int)
    requires 0 < total && 1 <= target <= 6 && total + target - 1 <= MAX_INT64
    ensures Quotient(Add64(Add64(total, target), -1), target) == (total + target - 1) / target
  {
  }

  /** The family is not empty: the largest length a server can announce is refused or over-cut. */
  lemma {:induction false} LargestLengthMisses(chunkSizeMb: int, initialChannels: int)
    requires 0 <= chunkSizeMb <= MAX_CHUNK_SIZE_MB
    ensures !MeetsTarget(chunkSizeMb, MAX_INT64, initialChannels)
  {
    SizingMeetsTarget(chunkSizeMb, MAX_INT64, initialChannels);
  }

  /** A plan of the chosen size never runs past int64 either. */
  lemma {:induction false} ChosenSizeBuilds(chunkSizeMb: int, total: int, initialChannels: int)
    requires 0 <= chunkSizeMb <= MAX_CHUNK_SIZE_MB && 0 < total
    requires total + TargetChunkCount(total, initialChannels) - 1 <= MAX_INT64
    ensures PlanEnd(total, ChooseChunkSize(chunkSizeMb, total, initialChannels).chunkSize) <= MAX_INT64
  {
    var target := TargetChunkCount(total, initialChannels);
    var size := ChooseChunkSize(chunkSizeMb, total, initialChannels).chunkSize;
    CeilingFits(total, target);
    SizingMeetsTarget(chunkSizeMb, total, initialChannels);
    Scale(size, ChunkCount(total, size), target);
    if size > 1024 * MIB {
      assert size * target == (total + target - 1) / target * target;
    } else {
      Scale(target, size, 1024 * MIB);
    }
  }

  /** Rounding up past int64 gives no size of its own: the requested one stays, or none. */
  lemma {:induction false} WrappedSize(chunkSizeMb: int, total: int, initialChannels: int)
    requires 0 <= chunkSizeMb <= MAX_CHUNK_SIZE_MB && 0 < total <= MAX_INT64
    requires total + TargetChunkCount(total, initialChannels) - 1 > MAX_INT64
    ensures var size := ChooseChunkSize(chunkSizeMb, total, initialChannels).chunkSize;
      if chunkSizeMb == 0 then size <= 0 else size == chunkSizeMb * MIB
  {
  }

  /** So close below 2^63 no whole number of mebibytes ends, so the plan's last step leaves int64. */
  lemma {:induction false} NoMultipleFits(total: int, mb: int)
    requires MAX_INT64 - 5 < total <= MAX_INT64 && 0 < mb <= MAX_CHUNK_SIZE_MB
    ensures PlanEnd(total, mb * MIB) > MAX_INT64
  {
    var count := ChunkCount(total, mb * MIB);
    CountWithin(total, mb * MIB, count);
    var n := count * mb;
    assert PlanEnd(total, mb * MIB) == n * MIB;
  }

  /** The part of prepare that cuts the file: sizing, then BuildPlan. */
  method Cut(chunkSizeMb: int, total: int, initialChannels: int) returns (sizing: Sizing, plan: PlanOutcome)
    requires total <= MAX_INT64
    ensures sizing.BadRequest? <==> chunkSizeMb < 0 || chunkSizeMb > 1024
    ensures sizing.NoLength? <==> 0 <= chunkSizeMb <= 1024 && total <= 0
    ensures sizing.Sized? && total + TargetChunkCount(total, initialChannels) - 1 <= MAX_INT64 ==>
      plan.Built? && IsPartition(Extents(plan.chunks), total)
      && 1 <= |plan.chunks| <= TargetChunkCount(total, initialChannels)
      && CountByCase(chunkSizeMb, total, initialChannels, sizing.chunkSize, |plan.chunks|)
    ensures sizing.Sized? && total + TargetChunkCount(total, initialChannels) - 1 > MAX_INT64 ==>
      if chunkSizeMb == 0 then plan.InvalidChunkSize? else plan.OffsetOverflow?
  {
    sizing, plan := ChooseChunkSize(chunkSizeMb, total, initialChannels), InvalidTotal;
    if sizing.Sized? {
      plan := BuildPlan(total, sizing.chunkSize);
      if total + TargetChunkCount(total, initialChannels) - 1 <= MAX_INT64 {
        SizingMeetsTarget(chunkSizeMb, total, initialChannels);
        ChosenSizeBuilds(chunkSizeMb, total, initialChannels);
        CountByCases(chunkSizeMb, total, initialChannels);
      } else {
        WrappedSize(chunkSizeMb, total, initialChannels);
        if chunkSizeMb > 0 { NoMultipleFits(total, chunkSizeMb); }
      }
    }
  }
}
