/**
 * Saved transfers coming back after a restart: the chunk-plan check both histories share,
 * and the repair of a download whose part files are not what its manifest says.
 */
module DownloadRestore {
  import opened Plan
  import opened ManifestState
  import opened SessionFiles

  const MAX_CHUNK_ATTEMPTS := 8

  // ---- the chunk-plan check ----

  datatype Verdict = Accepted | InvalidChunkPlan | InvalidChunkStatus | SizeMismatch

  /** Record i continues the plan at offset. */
  predicate PlanFits(c: ChunkState, i: int, offset: int, total: int) {
    && c.index == i && c.offset == offset && 0 < c.size <= total - offset
    && 0 <= c.bytesDone <= c.size && 0 <= c.attempts
  }

  /** The first i records pass the check. */
  ghost predicate FitsUpTo(cs: seq<ChunkState>, total: int, i: nat)
    requires i <= |cs|
  {
    forall j {:trigger EndOf(Geometry(cs), j)} :: 0 <= j < i ==>
      PlanFits(cs[j], j, EndOf(Geometry(cs), j), total) && KnownStatus(cs[j])
  }

  /** What an accepted manifest is: an exact cut of the file, with sensible counts. */
  ghost predicate Sound(cs: seq<ChunkState>, total: int) {
    && IsPartition(Geometry(cs), total)
    && (forall i :: 0 <= i < |cs| ==> 0 <= cs[i].bytesDone <= cs[i].size && 0 <= cs[i].attempts && KnownStatus(cs[i]))
  }

  /** Passing record by record up to the end of the file is being an exact cut. */
  lemma {:induction false} FitsIsSound(cs: seq<ChunkState>, total: int)
    ensures FitsUpTo(cs, total, |cs|) && EndOf(Geometry(cs), |cs|) == total <==> Sound(cs, total)
  {
    var es := Geometry(cs);
    if FitsUpTo(cs, total, |cs|) && EndOf(es, |cs|) == total {
      forall i | 0 <= i < |cs|
        ensures es[i].index == i && es[i].size > 0 && es[i].offset == EndOf(es, i)
        ensures 0 <= cs[i].bytesDone <= cs[i].size && 0 <= cs[i].attempts && KnownStatus(cs[i])
      {
        assert PlanFits(cs[i], i, EndOf(es, i), total);
      }
    }
    if Sound(cs, total) {
      forall i | 0 <= i < |cs|
        ensures PlanFits(cs[i], i, EndOf(es, i), total) && KnownStatus(cs[i])
      {
        EndsIncrease(es, total, i, i + 1);
        assert es[i].offset == EndOf(es, i);
      }
    }
  }

  /**
   * The validation loop of restoreState and validP2PHistoryManifest: what it accepts is
   * exactly the exact cuts, and a rejection names what is wrong with the first bad record.
   */
  method CheckPlan(cs: seq<ChunkState>, total: int) returns (v: Verdict)
    ensures v.Accepted? <==> Sound(cs, total)
    ensures v.InvalidChunkPlan? <==>
      exists i: nat :: i < |cs| && FitsUpTo(cs, total, i) && !PlanFits(cs[i], i, EndOf(Geometry(cs), i), total)
    ensures v.InvalidChunkStatus? <==>
      exists i: nat ::
        && i < |cs| && FitsUpTo(cs, total, i) && PlanFits(cs[i], i, EndOf(Geometry(cs), i), total)
        && !KnownStatus(cs[i])
    ensures v.SizeMismatch? <==> FitsUpTo(cs, total, |cs|) && EndOf(Geometry(cs), |cs|) != total
  {
    FitsIsSound(cs, total);
    var offset := 0;
    var i := 0;
    while i < |cs|
      invariant i <= |cs| && offset == EndOf(Geometry(cs), i)
      invariant FitsUpTo(cs, total, i)
    {
      var c := cs[i];
      if c.index != i || c.offset != offset || c.size <= 0 || c.size > total - offset
        || c.bytesDone < 0 || c.bytesDone > c.size || c.attempts < 0 {
        OnlyFirstBad(cs, total, i);
        return InvalidChunkPlan;
      }
      if c.status.Unknown? {
        OnlyFirstBad(cs, total, i);
        return InvalidChunkStatus;
      }
      FitsOneMore(cs, total, i);
      offset := offset + c.size;
      i := i + 1;
    }
    v := if offset != total then SizeMismatch else Accepted;
  }

  lemma {:induction false} FitsOneMore(cs: seq<ChunkState>, total: int, i: nat)
    requires i < |cs| && FitsUpTo(cs, total, i)
    requires PlanFits(cs[i], i, EndOf(Geometry(cs), i), total) && KnownStatus(cs[i])
    ensures FitsUpTo(cs, total, i + 1) && EndOf(Geometry(cs), i + 1) == cs[i].offset + cs[i].size
  {
    forall j | 0 <= j < i + 1
      ensures PlanFits(cs[j], j, EndOf(Geometry(cs), j), total) && KnownStatus(cs[j])
    {
      if j < i { assert EndOf(Geometry(cs), j) == EndOf(Geometry(cs), j); }
    }
  }

  /** Only one record can be the first bad one. */
  lemma {:induction false} OnlyFirstBad(cs: seq<ChunkState>, total: int, i: nat)
    requires i < |cs| && FitsUpTo(cs, total, i)
    requires !(PlanFits(cs[i], i, EndOf(Geometry(cs), i), total) && KnownStatus(cs[i]))
    ensures !FitsUpTo(cs, total, |cs|)
    ensures forall j: nat :: j < |cs| && j != i ==>
      !(FitsUpTo(cs, total, j) && !(PlanFits(cs[j], j, EndOf(Geometry(cs), j), total) && KnownStatus(cs[j])))
  {
    forall j: nat | i < j <= |cs|
      ensures !FitsUpTo(cs, total, j)
    {
      assert EndOf(Geometry(cs), i) == EndOf(Geometry(cs), i);
    }
  }

  /** Every plan for a nonempty file passes: as a new manifest, and with any statuses and counts in range. */
  lemma {:induction false} PlansPass(cs: seq<ChunkState>, plan: seq<Extent>, total: int)
    requires IsPartition(plan, total) && Geometry(cs) == plan
    requires forall i :: 0 <= i < |cs| ==>
      0 <= cs[i].bytesDone <= cs[i].size && 0 <= cs[i].attempts && KnownStatus(cs[i])
    ensures Sound(cs, total) && (total > 0 ==> cs != [])
  {
  }

  // ---- repair ----

  datatype JobStatus = JobDone | JobCanceled | JobFailed

  datatype Restored = Restored(chunks: seq<ChunkState>, status: JobStatus, doneBytes: int)

  /** What lies beside the manifest: the size of the final file, if any, and of each part file. */
  datatype Files = Files(final: Option<int>, parts: map<int, int>)

  predicate AllDone(cs: seq<ChunkState>) { forall i :: 0 <= i < |cs| ==> cs[i].status.Done? }

  predicate FinalComplete(cs: seq<ChunkState>, total: int, files: Files) {
    files.final == Some(total) && AllDone(cs)
  }

  predicate HasPart(c: ChunkState, files: Files) { c.index in files.parts && files.parts[c.index] == c.size }

  /** A chunk recorded done without its part file goes back to pending. */
  function Repaired(c: ChunkState, files: Files): ChunkState {
    if c.status.Done? && !HasPart(c, files) then c.(status := Pending, bytesDone := 0, lastError := "") else c
  }

  function RepairAll(cs: seq<ChunkState>, files: Files): (r: seq<ChunkState>)
    ensures |r| == |cs| && forall i :: 0 <= i < |cs| ==> r[i] == Repaired(cs[i], files)
  {
    seq(|cs|, i requires 0 <= i < |cs| => Repaired(cs[i], files))
  }

  predicate Exhausted(c: ChunkState) { c.status.Failed? && c.attempts >= MAX_CHUNK_ATTEMPTS }

  /** The records after loading and repairing a saved manifest. */
  function RestoredChunks(saved: seq<ChunkState>, total: int, files: Files): seq<ChunkState> {
    var loaded := NormalizeAll(saved, LOAD_MAX_ATTEMPTS);
    if FinalComplete(loaded, total, files) then loaded else RepairAll(loaded, files)
  }

  ghost function RestoredStatus(saved: seq<ChunkState>, total: int, files: Files): JobStatus {
    var cs := RestoredChunks(saved, total, files);
    if FinalComplete(cs, total, files) then JobDone
    else if exists i :: 0 <= i < |cs| && Exhausted(cs[i]) then JobFailed
    else JobCanceled
  }

  /** The manifest file after a restore: rewritten only when something was repaired. */
  function SavedAfter(saved: seq<ChunkState>, total: int, files: Files): seq<ChunkState> {
    var cs := RestoredChunks(saved, total, files);
    if cs == NormalizeAll(saved, LOAD_MAX_ATTEMPTS) then saved else cs
  }

  /** Loading never changes which chunks are done; repairing never makes the final file complete. */
  lemma {:induction false} CompleteIsStable(saved: seq<ChunkState>, total: int, files: Files)
    ensures FinalComplete(RestoredChunks(saved, total, files), total, files) <==>
      FinalComplete(NormalizeAll(saved, LOAD_MAX_ATTEMPTS), total, files)
  {
    var loaded := NormalizeAll(saved, LOAD_MAX_ATTEMPTS);
    if !FinalComplete(loaded, total, files) && files.final == Some(total) {
      var i :| 0 <= i < |loaded| && !loaded[i].status.Done?;
      assert !RepairAll(loaded, files)[i].status.Done?;
    }
  }

  /**
   * After a restore each done chunk has a part file of exactly its size, unless the final
   * file is already complete; the cut is untouched, and nothing but a done record without
   * its part changed since the manifest was loaded.
   */
  lemma {:induction false} RepairMatchesParts(saved: seq<ChunkState>, total: int, files: Files)
    requires Sound(NormalizeAll(saved, LOAD_MAX_ATTEMPTS), total)
    ensures var cs := RestoredChunks(saved, total, files);
      && Sound(cs, total)
      && ((files.final == Some(total) && forall i :: 0 <= i < |cs| ==> cs[i].status.Done?)
          || forall i :: 0 <= i < |cs| && cs[i].status.Done? ==>
               cs[i].index in files.parts && files.parts[cs[i].index] == cs[i].size)
      && (forall i :: 0 <= i < |cs| ==> var c := NormalizeAll(saved, LOAD_MAX_ATTEMPTS)[i];
            cs[i] != c ==>
              && c.status.Done? && !(c.index in files.parts && files.parts[c.index] == c.size)
              && cs[i] == c.(status := Pending, bytesDone := 0, lastError := ""))
  {
    var loaded := NormalizeAll(saved, LOAD_MAX_ATTEMPTS);
    var cs := RestoredChunks(saved, total, files);
    forall i | 0 <= i < |cs|
      ensures cs[i].Extent() == loaded[i].Extent()
      ensures 0 <= cs[i].bytesDone <= cs[i].size && 0 <= cs[i].attempts && KnownStatus(cs[i])
    {
      assert 0 <= loaded[i].bytesDone <= loaded[i].size;
      assert Geometry(loaded)[i].size > 0;
    }
    assert Geometry(cs) == Geometry(loaded);
    CompleteIsStable(saved, total, files);
  }

  /**
   * What a restored download is called, by its records: done when the final file has the full
   * size and every chunk is done, else failed when a chunk has failed eight times, else
   * canceled. And the manifest file reads back as what was restored.
   */
  lemma {:induction false} StatusByRecords(saved: seq<ChunkState>, total: int, files: Files)
    ensures var cs := RestoredChunks(saved, total, files);
      var complete := files.final == Some(total) && forall i :: 0 <= i < |cs| ==> cs[i].status.Done?;
      var givenUp := exists i :: 0 <= i < |cs| && cs[i].status.Failed? && cs[i].attempts >= 8;
      RestoredStatus(saved, total, files) == if complete then JobDone else if givenUp then JobFailed else JobCanceled
    ensures SavedAfter(saved, total, files) in {saved, RestoredChunks(saved, total, files)}
    ensures NormalizeAll(SavedAfter(saved, total, files), LOAD_MAX_ATTEMPTS) == RestoredChunks(saved, total, files)
  {
    var cs := RestoredChunks(saved, total, files);
    if i :| 0 <= i < |cs| && cs[i].status.Failed? && cs[i].attempts >= 8 {
      assert Exhausted(cs[i]);
    }
    assert NormalizeAll(cs, LOAD_MAX_ATTEMPTS) == cs;
  }

  /** Restoring again, from what the first restore left on disk, changes nothing and says the same. */
  lemma {:induction false} RestoreTwice(saved: seq<ChunkState>, total: int, files: Files)
    ensures var saved' := SavedAfter(saved, total, files);
      && RestoredChunks(saved', total, files) == RestoredChunks(saved, total, files)
      && SavedAfter(saved', total, files) == saved'
      && RestoredStatus(saved', total, files) == RestoredStatus(saved, total, files)
  {
    var loaded := NormalizeAll(saved, LOAD_MAX_ATTEMPTS);
    var cs := RestoredChunks(saved, total, files);
    CompleteIsStable(saved, total, files);
    assert NormalizeAll(cs, LOAD_MAX_ATTEMPTS) == cs;
    if cs != loaded {
      assert RepairAll(cs, files) == cs;
    }
  }

  /** The manifest file after n restarts with the same files beside it. */
  function SavedAfterMany(saved: seq<ChunkState>, total: int, files: Files, n: nat): seq<ChunkState> {
    if n == 0 then saved else SavedAfter(SavedAfterMany(saved, total, files, n - 1), total, files)
  }

  /** However often the agent restarts, every restore after the first finds what the first left. */
  lemma {:induction false} RestoreManyTimes(saved: seq<ChunkState>, total: int, files: Files, n: nat)
    requires n > 0
    ensures SavedAfterMany(saved, total, files, n) == SavedAfter(saved, total, files)
    ensures RestoredChunks(SavedAfterMany(saved, total, files, n), total, files) == RestoredChunks(saved, total, files)
    ensures RestoredStatus(SavedAfterMany(saved, total, files, n), total, files) == RestoredStatus(saved, total, files)
  {
    RestoreTwice(saved, total, files);
    if n > 1 {
      RestoreManyTimes(saved, total, files, n - 1);
    } else {
      assert SavedAfterMany(saved, total, files, 0) == saved;
    }
  }

  /** A saved download, with the files beside it. */
  class SavedDownload {
    const total: int
    var saved: seq<ChunkState>
    var files: Files

    constructor (saved: seq<ChunkState>, total: int, files: Files)
      ensures this.saved == saved && this.total == total && this.files == files
    {
      this.saved, this.total, this.files := saved, total, files;
    }

    /**
     * restoreState from the loaded manifest on: nothing comes back running, what comes back is
     * the repaired manifest, and a manifest is refused and kept when its type, id, source or
     * paths are not this download's (named says they are), when it is not an exact cut, or
     * when a repair it needs cannot be saved.
     */
    method Restore(named: bool, writable: bool) returns (r: Option<Restored>)
      modifies this`saved
      ensures r.Some? <==>
        && named && total > 0 && old(saved) != [] && Sound(NormalizeAll(old(saved), LOAD_MAX_ATTEMPTS), total)
        && (writable || RestoredChunks(old(saved), total, files) == NormalizeAll(old(saved), LOAD_MAX_ATTEMPTS))
      ensures r.Some? ==>
        && r.value.chunks == RestoredChunks(old(saved), total, files)
        && r.value.status == RestoredStatus(old(saved), total, files)
        && 0 <= r.value.doneBytes <= total && (r.value.status.JobDone? ==> r.value.doneBytes == total)
      ensures saved == if r.Some? then SavedAfter(old(saved), total, files) else old(saved)
    {
      var m := new Manifest(saved);
      m.NormalizeForResume(LOAD_MAX_ATTEMPTS);
      if !named || total <= 0 || m.chunks == [] {
        return None;
      }
      var v := CheckPlan(m.chunks, total);
      if !v.Accepted? {
        return None;
      }
      RepairMatchesParts(saved, total, files);
      var ok, finalComplete := Settle(m, writable);
      if !ok {
        return None;
      }
      var summary := Summarize(m, finalComplete);
      r := Some(summary);
    }

    /** Unless the final file is complete, repair the records and save them if any changed. */
    method Settle(m: Manifest, writable: bool) returns (ok: bool, finalComplete: bool)
      requires m.chunks == NormalizeAll(saved, LOAD_MAX_ATTEMPTS)
      modifies m, this`saved
      ensures m.chunks == RestoredChunks(old(saved), total, files)
      ensures ok <==> writable || m.chunks == old(m.chunks)
      ensures saved == if ok then SavedAfter(old(saved), total, files) else old(saved)
      ensures finalComplete <==> FinalComplete(m.chunks, total, files)
    {
      CompleteIsStable(saved, total, files);
      ok, finalComplete := true, false;
      if files.final == Some(total) {
        finalComplete := AllDone(m.chunks);
      }
      if !finalComplete {
        var repaired := Repair(m);
        if repaired && writable {
          saved := m.chunks;
        }
        ok := writable || !repaired;
      }
    }

    method Summarize(m: Manifest, finalComplete: bool) returns (r: Restored)
      requires Sound(m.chunks, total) && total > 0
      requires finalComplete <==> FinalComplete(m.chunks, total, files)
      ensures r.chunks == m.chunks && 0 <= r.doneBytes <= total && (finalComplete ==> r.doneBytes == total)
      ensures r.status == if finalComplete then JobDone
                          else if exists i :: 0 <= i < |m.chunks| && Exhausted(m.chunks[i]) then JobFailed
                          else JobCanceled
    {
      var status := StatusOf(m.chunks, finalComplete);
      var doneBytes := m.DoneBytes(total);
      if finalComplete {
        doneBytes := total;
      }
      r := Restored(m.chunks, status, doneBytes);
    }

    /** A restored download is done, failed or canceled. */
    method StatusOf(cs: seq<ChunkState>, finalComplete: bool) returns (status: JobStatus)
      ensures status == if finalComplete then JobDone
                        else if exists i :: 0 <= i < |cs| && Exhausted(cs[i]) then JobFailed
                        else JobCanceled
    {
      if finalComplete {
        return JobDone;
      }
      var failed := AnyExhausted(cs);
      status := if failed then JobFailed else JobCanceled;
    }

    /** The repair loop, on the loaded manifest in place. */
    method Repair(m: Manifest) returns (repaired: bool)
      modifies m
      ensures m.chunks == RepairAll(old(m.chunks), files)
      ensures repaired <==> m.chunks != old(m.chunks)
    {
      repaired := false;
      var i := 0;
      while i < |m.chunks|
        invariant i <= |m.chunks| == |old(m.chunks)|
        invariant forall k :: 0 <= k < i ==> m.chunks[k] == Repaired(old(m.chunks)[k], files)
        invariant forall k :: i <= k < |m.chunks| ==> m.chunks[k] == old(m.chunks)[k]
        invariant repaired <==> exists k :: 0 <= k < i && m.chunks[k] != old(m.chunks)[k]
      {
        var c := m.chunks[i];
        if c.status.Done? && !(c.index in files.parts && files.parts[c.index] == c.size) {
          m.chunks := m.chunks[i := c.(status := Pending, bytesDone := 0, lastError := "")];
          assert m.chunks[i] != old(m.chunks)[i];
          repaired := true;
        }
        i := i + 1;
      }
    }
  }

  /** The search for a chunk that used up its attempts. */
  method AnyExhausted(cs: seq<ChunkState>) returns (found: bool)
    ensures found <==> exists i :: 0 <= i < |cs| && Exhausted(cs[i])
  {
    found := false;
    var i := 0;
    while i < |cs|
      invariant i <= |cs| && forall k :: 0 <= k < i ==> !Exhausted(cs[k])
    {
      if Exhausted(cs[i]) {
        return true;
      }
      i := i + 1;
    }
  }
}
