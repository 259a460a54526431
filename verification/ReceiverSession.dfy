/**
 * The receiver's session as the program runs it: the directory, the manifest file and the
 * session status, updated in place. Every method keeps a history of machine states, so
 * whatever is proved of the machine's paths holds of this object.
 */
module ReceiverSession {
  import opened Plan
  import opened ManifestState
  import opened Ordering
  import opened SessionFiles
  import opened PartMerge
  import M = ReceiverMachine

  /** The fields of a chunk header that the receiver acts on; no digest comes from older senders. */
  datatype Header = Header(transferId: string, index: nat, offset: int, size: nat, totalBytes: int,
      digest: Option<Bytes>)

  datatype Ack = DoneAck(index: nat, bytes: nat) | HashMismatchAck | NoAck

  /** The receiver's manifest file. */
  datatype RManifest = RManifest(transferId: string, fileName: string, totalBytes: int, chunks: seq<ChunkState>)

  datatype Upserted = Saved(mf: RManifest) | IdentityMismatch | GeometryMismatch

  /** updateReceiverManifestFile: load or create, check identity, mark or append the chunk. */
  function Upsert(old_: Option<RManifest>, name: string, h: Header, written: int): Upserted {
    var mf := if old_.None? then RManifest(h.transferId, name, h.totalBytes, [])
              else old_.value.(chunks := NormalizeAll(old_.value.chunks, LOAD_MAX_ATTEMPTS));
    if mf.transferId != h.transferId || mf.fileName != name || mf.totalBytes != h.totalBytes then IdentityMismatch
    else
      var p := Find(mf.chunks, h.index);
      if p < |mf.chunks| then
        if mf.chunks[p].offset != h.offset || mf.chunks[p].size != h.size then GeometryMismatch
        else Saved(mf.(chunks := mf.chunks[p := DoneWith(mf.chunks[p], written, [])]))
      else
        Saved(mf.(chunks := mf.chunks + [ChunkState(h.index, h.offset, h.size, Done, 0, "", "", written, [])]))
  }

  /** A header a sender of transfer t builds for one of its chunks; older senders give no digest. */
  ghost predicate FromPlan(t: Transfer, transferId: string, h: Header)
    requires Valid(t)
  {
    && h.transferId == transferId && h.totalBytes == |t.source| && h.index < |t.plan|
    && h.offset == t.plan[h.index].offset && h.size == t.plan[h.index].size
    && (h.digest.Some? ==> h.digest.value == Slice(t, h.index))
  }

  ghost predicate RecordOk(t: Transfer, c: ChunkState) {
    c.status.Done? && 0 <= c.index < |t.plan| && c.offset == t.plan[c.index].offset && c.size == t.plan[c.index].size
  }

  /** A manifest recording some chunks of the plan, each once, all done. */
  ghost predicate Records(t: Transfer, transferId: string, mf: RManifest)
    requires Valid(t)
  {
    && mf.transferId == transferId && mf.fileName == t.name && mf.totalBytes == |t.source|
    && mf.chunks != []
    && (forall p :: 0 <= p < |mf.chunks| ==> RecordOk(t, mf.chunks[p]))
    && DistinctIndices(mf.chunks)
  }

  ghost function Indices(cs: seq<ChunkState>): set<int> { set p | 0 <= p < |cs| :: cs[p].index }

  ghost function SavedSet(mf: Option<RManifest>, n: nat): set<nat> {
    if mf.None? then {} else set i: nat | i < n && i in Indices(mf.value.chunks)
  }

  lemma {:induction false} DoneUnchangedByLoad(cs: seq<ChunkState>)
    requires forall p :: 0 <= p < |cs| ==> cs[p].status.Done?
    ensures NormalizeAll(cs, LOAD_MAX_ATTEMPTS) == cs
  {
  }

  /** Recording a chunk of the plan never fails and adds exactly that chunk. */
  lemma {:induction false} UpsertRecords(t: Transfer, transferId: string, mf: Option<RManifest>, h: Header)
    requires Valid(t) && FromPlan(t, transferId, h)
    requires mf.Some? ==> Records(t, transferId, mf.value)
    ensures var u := Upsert(mf, t.name, h, h.size);
      && u.Saved? && Records(t, transferId, u.mf)
      && SavedSet(Some(u.mf), |t.plan|) == SavedSet(mf, |t.plan|) + {h.index}
  {
    var cs := if mf.None? then [] else mf.value.chunks;
    DoneUnchangedByLoad(cs);
    var p := Find(cs, h.index);
    var cs' := if p < |cs| then cs[p := DoneWith(cs[p], h.size, [])]
               else cs + [ChunkState(h.index, h.offset, h.size, Done, 0, "", "", h.size, [])];
    assert Upsert(mf, t.name, h, h.size) == Saved(RManifest(transferId, t.name, |t.source|, cs'));
    UpsertIndices(cs, cs', p, h.index);
    UpsertOk(t, cs, cs', p, h);
    UpsertSaved(t, mf, RManifest(transferId, t.name, |t.source|, cs'), h.index);
  }

  /**
   * When a chunk is recorded, for any manifest on disk and any header: there is none yet, or it
   * is of the same transfer, file and size, and its first record of this index, if it has one,
   * is of the same bytes. Then that record, or a new one at the end, is done, and the others
   * are as they were loaded.
   */
  lemma {:induction false} UpsertExactly(mf: Option<RManifest>, name: string, h: Header, written: int)
    ensures var u := Upsert(mf, name, h, written);
      var same := mf.None?
        || (mf.value.transferId == h.transferId && mf.value.fileName == name && mf.value.totalBytes == h.totalBytes);
      var cs := if mf.None? then [] else mf.value.chunks;
      var p := Find(cs, h.index);
      var fits := p == |cs| || (cs[p].offset == h.offset && cs[p].size == h.size);
      && (u.IdentityMismatch? <==> !same)
      && (u.GeometryMismatch? <==> same && !fits)
      && (u.Saved? ==>
            && u.mf.transferId == h.transferId && u.mf.fileName == name && u.mf.totalBytes == h.totalBytes
            && |u.mf.chunks| == (if p < |cs| then |cs| else |cs| + 1)
            && (var c := u.mf.chunks[p];
                && c.index == h.index && c.offset == h.offset && c.size == h.size
                && c.status.Done? && c.bytesDone == written)
            && forall q :: 0 <= q < |cs| && q != p ==>
                 u.mf.chunks[q] == if cs[q].status.Sending? || (cs[q].status.Failed? && cs[q].attempts < 3)
                                   then cs[q].(status := Pending) else cs[q])
  {
    var cs := if mf.None? then [] else mf.value.chunks;
    FindLoaded(cs, h.index);
  }

  /** Loading moves no record and renames none. */
  lemma {:induction false} FindLoaded(cs: seq<ChunkState>, index: int)
    ensures Find(NormalizeAll(cs, LOAD_MAX_ATTEMPTS), index) == Find(cs, index)
  {
    var ds := NormalizeAll(cs, LOAD_MAX_ATTEMPTS);
    var p, q := Find(cs, index), Find(ds, index);
    assert forall i :: 0 <= i < |cs| ==> ds[i].index == cs[i].index;
  }

  lemma {:induction false} UpsertSaved(t: Transfer, mf: Option<RManifest>, mf': RManifest, index: nat)
    requires index < |t.plan|
    requires forall i: int :: i in Indices(mf'.chunks) <==>
      i in Indices(if mf.None? then [] else mf.value.chunks) || i == index
    ensures SavedSet(Some(mf'), |t.plan|) == SavedSet(mf, |t.plan|) + {index}
  {
  }

  lemma {:induction false} UpsertOk(t: Transfer, cs: seq<ChunkState>, cs': seq<ChunkState>, p: nat, h: Header)
    requires Valid(t) && h.index < |t.plan| && h.offset == t.plan[h.index].offset && h.size == t.plan[h.index].size
    requires (forall q :: 0 <= q < |cs| ==> RecordOk(t, cs[q])) && DistinctIndices(cs)
    requires p == Find(cs, h.index)
    requires cs' == if p < |cs| then cs[p := DoneWith(cs[p], h.size, [])]
                    else cs + [ChunkState(h.index, h.offset, h.size, Done, 0, "", "", h.size, [])]
    ensures (forall q :: 0 <= q < |cs'| ==> RecordOk(t, cs'[q])) && DistinctIndices(cs')
  {
    forall q | 0 <= q < |cs'|
      ensures RecordOk(t, cs'[q])
    {
      if q < |cs| { assert RecordOk(t, cs[q]); }
    }
  }

  lemma {:induction false} UpsertIndices(cs: seq<ChunkState>, cs': seq<ChunkState>, p: nat, index: int)
    requires p <= |cs| && |cs'| == (if p < |cs| then |cs| else |cs| + 1)
    requires forall q :: 0 <= q < |cs| ==> cs'[q].index == cs[q].index
    requires cs'[p].index == index
    ensures forall i: int :: i in Indices(cs') <==> i in Indices(cs) || i == index
  {
    forall i: int
      ensures i in Indices(cs') <==> i in Indices(cs) || i == index
    {
      if i in Indices(cs) {
        var q :| 0 <= q < |cs| && cs[q].index == i;
        assert cs'[q].index == i;
      }
      if i == index {
        assert cs'[p].index == i;
      }
      if i in Indices(cs') {
        var q :| 0 <= q < |cs'| && cs'[q].index == i;
        if q < |cs| { assert cs[q].index == i; }
      }
    }
  }

  // ---- merging in index order ----

  /** The chunk files of these records. */
  function PartsOf(name: string, cs: seq<ChunkState>): (parts: seq<Part>)
    requires Numerable(cs)
    ensures |parts| == |cs|
    ensures forall p :: 0 <= p < |cs| ==> parts[p] == Part(ChunkPath(name, cs[p].index), cs[p].size)
  {
    seq(|cs|, p requires 0 <= p < |cs| => Part(ChunkPath(name, cs[p].index), cs[p].size))
  }

  /** In increasing records, the one numbered k - 1 is the last of those below k. */
  lemma {:induction false} LastBelow(cs: seq<ChunkState>, j: nat, k: nat, p: nat)
    requires j <= |cs| && p < |cs| && Increasing(cs) && cs[p].index == k - 1
    requires forall q :: 0 <= q < j ==> cs[q].index < k
    requires forall q :: j <= q < |cs| ==> cs[q].index >= k
    ensures p == j - 1
  {
    assert p < j;
    assert cs[j - 1].index < k;
  }

  /** The records numbered below k are the first j. */
  ghost predicate SplitsAt(cs: seq<ChunkState>, j: nat, k: nat) {
    && j <= |cs|
    && (forall p :: 0 <= p < j ==> cs[p].index < k)
    && (forall p :: j <= p < |cs| ==> cs[p].index >= k)
  }

  /** The records are of chunks of the plan, in order, and saved is which. */
  ghost predicate ListsSaved(t: Transfer, cs: seq<ChunkState>, saved: set<nat>) {
    && Increasing(cs)
    && Numerable(cs)
    && (forall p :: 0 <= p < |cs| ==> cs[p].index < |t.plan| && cs[p].size == t.plan[cs[p].index].size)
    && (forall p :: 0 <= p < |cs| ==> cs[p].index in saved)
    && (forall i {:trigger Listed(cs, i)} :: i in saved ==> Listed(cs, i))
  }

  ghost predicate Listed(cs: seq<ChunkState>, i: nat) { exists p :: 0 <= p < |cs| && cs[p].index == i }

  /** Chunk k - 1 is recorded: its record is the last of the first j, and the split moves down with it. */
  lemma {:induction false} SplitDown(t: Transfer, cs: seq<ChunkState>, saved: set<nat>, j: nat, k: nat)
    requires ListsSaved(t, cs, saved) && SplitsAt(cs, j, k) && k > 0
    ensures k - 1 in saved ==> j > 0 && cs[j - 1].index == k - 1 && SplitsAt(cs, j - 1, k - 1)
    ensures k - 1 !in saved ==> SplitsAt(cs, j, k - 1)
  {
    if k - 1 in saved {
      assert Listed(cs, k - 1);
      var p :| 0 <= p < |cs| && cs[p].index == k - 1;
      LastBelow(cs, j, k, p);
    } else {
      forall p | 0 <= p < j
        ensures cs[p].index < k - 1
      {
        assert cs[p].index in saved;
      }
    }
  }

  lemma {:induction false} FirstIsBelow(cs: seq<ChunkState>, j: nat, k: nat)
    requires SplitsAt(cs, j, k)
    ensures j > 0 ==> cs[0].index < k
  {
  }

  lemma {:induction false} MergeOneMore(t: Transfer, dir: Dir, cs: seq<ChunkState>, saved: set<nat>, j: nat, k: nat)
    requires Numerable(cs) && 0 < j <= |cs| && 0 < k <= |t.plan| && k - 1 in saved
    requires cs[j - 1].index == k - 1 && cs[j - 1].size == t.plan[k - 1].size
    requires Joined(dir, PartsOf(t.name, cs), j - 1) == Merged(t.name, t.plan, dir, saved, k - 1)
    ensures Joined(dir, PartsOf(t.name, cs), j) == Merged(t.name, t.plan, dir, saved, k)
  {
  }

  /** Merging the sorted records is merging the recorded chunks of the plan in plan order. */
  lemma {:induction false} JoinedIsMerged(t: Transfer, dir: Dir, cs: seq<ChunkState>, saved: set<nat>, j: nat, k: nat)
    requires k <= |t.plan| && ListsSaved(t, cs, saved) && SplitsAt(cs, j, k)
    ensures Joined(dir, PartsOf(t.name, cs), j) == Merged(t.name, t.plan, dir, saved, k)
  {
    hide ChunkPath;
    if k == 0 {
      FirstIsBelow(cs, j, k);
    } else {
      SplitDown(t, cs, saved, j, k);
      if k - 1 in saved {
        JoinedIsMerged(t, dir, cs, saved, j - 1, k - 1);
        MergeOneMore(t, dir, cs, saved, j, k);
      } else {
        JoinedIsMerged(t, dir, cs, saved, j, k - 1);
      }
    }
  }

  /** The same, for a manifest file that records chunks of the plan. */
  lemma {:induction false} SortedMergeIsMerged(t: Transfer, transferId: string, mf: RManifest, dir: Dir)
    requires Valid(t) && Records(t, transferId, mf)
    ensures var cs := SortByIndex(mf.chunks);
      && Numerable(cs)
      && Joined(dir, PartsOf(t.name, cs), |cs|)
         == Merged(t.name, t.plan, dir, SavedSet(Some(mf), |t.plan|), |t.plan|)
  {
    var cs, saved := SortByIndex(mf.chunks), SavedSet(Some(mf), |t.plan|);
    SortIncreases(mf.chunks);
    forall p | 0 <= p < |cs|
      ensures cs[p] in mf.chunks && RecordOk(t, cs[p]) && cs[p].index in saved
    {
      SortMembers(mf.chunks, cs[p]);
    }
    forall i | i in saved
      ensures Listed(cs, i)
    {
      var q :| 0 <= q < |mf.chunks| && mf.chunks[q].index == i;
      SortMembers(mf.chunks, mf.chunks[q]);
      assert mf.chunks[q] in cs;
    }
    JoinedIsMerged(t, dir, cs, saved, |cs|, |t.plan|);
  }

  // ---- the session object ----

  /** Which of its file operations fail in one finalization; stuck files cannot be removed. */
  datatype Faults = Faults(load: bool, removeStale: bool, merge: bool, rename: bool, stat: bool, stuck: set<string>)

  /** What fails for one connection: creating or syncing the temporary, putting it in place, the save, the ack. */
  datatype ChunkFaults = ChunkFaults(create: bool, sync: bool, replace: bool, save: bool, ack: bool)

  datatype Look = Complete | Missing | Stuck

  /** The cleanup of dir left dir': all or, when a file could not be removed, some of what the sweep takes is gone. */
  ghost predicate CleanedTo(t: Transfer, dir: Dir, stuck: set<string>, done: bool, dir': Dir) {
    match t.glob
    case BadPattern => !done && dir' == dir
    case FindsNothing => done && dir' == dir
    case Finds =>
      && (done <==> forall p :: p in dir && Swept(p) ==> p !in stuck)
      && (done ==> dir' == AfterSweep(dir))
      && (forall p :: p in dir' ==> p in dir && dir'[p] == dir[p])
      && (forall p :: p in dir && (!Swept(p) || p in stuck) ==> p in dir')
  }

  /** What a finalization of dir with these recorded chunks leaves behind, and whether it reports done. */
  ghost predicate FinalizedTo(t: Transfer, dir: Dir, saved: set<nat>, f: Faults, done: bool, dir': Dir) {
    if saved == {} || f.load then !done && dir' == dir
    else if t.name in dir && |dir[t.name]| == |t.source| then done && dir' == dir
    else if t.name in dir && f.removeStale then !done && dir' == dir
    else
      var m := Merged(t.name, t.plan, dir - {t.name}, saved, |t.plan|);
      if m.None? || f.merge || f.rename then !done && dir' == dir - {t.name} - {TmpPath(t.name)}
      else
        var published := (dir - {t.name} - {TmpPath(t.name)})[t.name := m.value];
        if f.stat || |m.value| != |t.source| then !done && dir' == published
        else CleanedTo(t, published, f.stuck, done, dir')
  }

  /**
   * The cleanup by names: an entry with no ".chunk" in its name survives it unchanged, whatever
   * else happens; and when the glob finds the session and nothing is stuck, what survives is
   * exactly those entries and the ones whose names end in ".tmp".
   */
  lemma {:induction false} CleanupByName(t: Transfer, dir: Dir, stuck: set<string>, done: bool, dir': Dir, p: string)
    requires CleanedTo(t, dir, stuck, done, dir') && p in dir
    ensures (forall a: string, b: string :: p != a + ".chunk" + b) ==> p in dir' && dir'[p] == dir[p]
    ensures p in dir' ==> dir'[p] == dir[p]
    ensures done && t.glob.Finds? ==>
      (p in dir' <==> (forall a: string, b: string :: p != a + ".chunk" + b) || exists a: string :: p == a + ".tmp")
    ensures !t.glob.Finds? ==> p in dir'
  {
    SweptByName(p);
  }

  /**
   * A finalization by names: apart from the final file and its temporary, an entry with no
   * ".chunk" in its name survives unchanged, and no other entry is new or changed; the
   * temporary survives only a finalization that changes nothing.
   */
  lemma {:induction false} FinalizationByName(t: Transfer, dir: Dir, saved: set<nat>, f: Faults, done: bool, dir': Dir,
      p: string)
    requires FinalizedTo(t, dir, saved, f, done, dir')
    ensures p in dir && p != t.name && p != t.name + ".tmp" ==>
      (forall a: string, b: string :: p != a + ".chunk" + b) ==> p in dir'
    ensures p in dir' && p != t.name ==> p in dir && dir'[p] == dir[p]
    ensures t.name + ".tmp" in dir' ==> dir' == dir
  {
    SweptByName(p);
  }

  /** No file operation fails, and every recorded chunk's file is there. */
  ghost predicate Unhindered(t: Transfer, dir: Dir, saved: set<nat>, f: Faults) {
    && !f.load && !f.removeStale && !f.merge && !f.rename && !f.stat && f.stuck == {} && !t.glob.BadPattern?
    && forall i :: i in saved ==> i < |t.plan| && ChunkPath(t.name, i) in dir
  }

  /**
   * Unhindered, a finalization with anything recorded reports done exactly when the final file
   * was there in full already or no chunk of the plan is missing.
   */
  lemma {:induction false} FinalizationExactly(t: Transfer, dir: Dir, saved: set<nat>, f: Faults, done: bool, dir': Dir)
    requires SessionFiles.Valid(t) && ChunksRight(t, dir) && FinalizedTo(t, dir, saved, f, done, dir')
    requires Unhindered(t, dir, saved, f)
    ensures done <==>
      && saved != {}
      && ((t.name in dir && |dir[t.name]| == |t.source|) || forall i: nat :: i < |t.plan| ==> i in saved)
    ensures done && Safe(t) && !(t.name in dir && |dir[t.name]| == |t.source|) ==>
      t.name in dir' && dir'[t.name] == t.source
  {
    var rest := dir - {t.name};
    forall i: nat | i < |t.plan|
      ensures ChunkPath(t.name, i) in dir <==> ChunkPath(t.name, i) in rest
      ensures ChunkPath(t.name, i) in rest ==> rest[ChunkPath(t.name, i)] == Slice(t, i)
    {
      PathsApart(t.name, i);
    }
    MergedSucceeds(t, rest, saved, |t.plan|);
    SizeCheckIsComplete(t, rest, saved);
    M.PlanNonempty(t);
    hide ChunkPath, Merged;
    if saved != {} && !(t.name in dir && |dir[t.name]| == |t.source|) {
      DoneWhenWhole(t, dir, saved, f, done, dir', Merged(t.name, t.plan, rest, saved, |t.plan|).value);
    }
  }

  lemma {:induction false} DoneWhenWhole(t: Transfer, dir: Dir, saved: set<nat>, f: Faults, done: bool, dir': Dir,
      data: Bytes)
    requires FinalizedTo(t, dir, saved, f, done, dir') && Unhindered(t, dir, saved, f)
    requires saved != {} && !(t.name in dir && |dir[t.name]| == |t.source|)
    requires Merged(t.name, t.plan, dir - {t.name}, saved, |t.plan|) == Some(data)
    ensures done <==> |data| == |t.source|
    ensures done && Safe(t) ==> t.name in dir' && dir'[t.name] == data
  {
    hide Merged;
  }

  class Session {
    ghost const t: Transfer
    const transferId: string
    const name: string
    const totalBytes: int
    const glob: Reach
    var dir: Dir
    var manifest: Option<RManifest>
    var status: M.MergeStatus
    var timerArmed: bool
    var fired: nat // timer callbacks that have started and not yet run
    ghost var conns: map<nat, M.Conn>
    ghost var history: seq<M.RState>

    /** The machine state this object stands for, seen from inside a critical section. */
    ghost function Under(lock: M.Lock, waiting: nat): M.RState
      reads this
    {
      M.RState(dir, SavedSet(manifest, |t.plan|), status, lock, waiting, conns, timerArmed, fired)
    }

    /** The object is at a state the machine can reach from the empty session. */
    ghost predicate ReachedUnder(lock: M.Lock, waiting: nat)
      reads this
    {
      && SessionFiles.Valid(t) && name == t.name && totalBytes == |t.source| && glob == t.glob
      && (manifest.Some? ==> Records(t, transferId, manifest.value))
      && M.IsPath(t, history) && M.Init(history[0]) && history[|history| - 1] == Under(lock, waiting)
    }

    ghost predicate Valid()
      reads this
    {
      ReachedUnder(M.Free, 0)
    }

    constructor (ghost t: Transfer, transferId: string, name: string, totalBytes: int, glob: Reach)
      requires SessionFiles.Valid(t) && name == t.name && totalBytes == |t.source| && glob == t.glob
      ensures Valid() && this.t == t && dir == map[] && manifest.None? && status == M.NoStatus
    {
      this.t, this.transferId, this.name, this.totalBytes, this.glob := t, transferId, name, totalBytes, glob;
      dir, manifest, status, timerArmed, fired := map[], None, M.NoStatus, false, 0;
      conns := map[];
      history := [M.RState(map[], {}, M.NoStatus, M.Free, 0, map[], false, 0)];
    }

    /** The machine took a finalizing step to the state the object is now in. */
    ghost method Finalizing(lock: M.Lock, step: M.RStep)
      requires SessionFiles.Valid(t) && M.IsPath(t, history)
      requires M.FinalizeStep(t, history[|history| - 1], Under(lock, 0), step)
      modifies this`history
      ensures history != [] && history[0] == old(history)[0] && M.IsPath(t, history)
      ensures history[|history| - 1] == Under(lock, 0)
    {
      M.ByFinalize(t, history[|history| - 1], Under(lock, 0), step);
      history := M.Extend(t, history, Under(lock, 0));
    }

    ghost method Handling(lock: M.Lock, waiting: nat, step: M.RStep)
      requires SessionFiles.Valid(t) && M.IsPath(t, history)
      requires M.HandlerStep(t, history[|history| - 1], Under(lock, waiting), step)
      modifies this`history
      ensures history != [] && history[0] == old(history)[0] && M.IsPath(t, history)
      ensures history[|history| - 1] == Under(lock, waiting)
    {
      M.ByHandler(t, history[|history| - 1], Under(lock, waiting), step);
      history := M.Extend(t, history, Under(lock, waiting));
    }

    ghost method Publishing(lock: M.Lock, step: M.RStep)
      requires SessionFiles.Valid(t) && M.IsPath(t, history)
      requires M.PublishStep(t, history[|history| - 1], Under(lock, 0), step)
      modifies this`history
      ensures history != [] && history[0] == old(history)[0] && M.IsPath(t, history)
      ensures history[|history| - 1] == Under(lock, 0)
    {
      M.ByPublish(t, history[|history| - 1], Under(lock, 0), step);
      history := M.Extend(t, history, Under(lock, 0));
    }

    // ---- one connection ----

    /** receiverChunkMatches: the right size, and the right content when the header carries a digest. */
    method FileMatches(path: string, h: Header) returns (matches: bool)
      ensures matches <==> path in dir && |dir[path]| == h.size && (h.digest.Some? ==> dir[path] == h.digest.value)
    {
      if path !in dir || |dir[path]| != h.size {
        return false;
      }
      matches := h.digest.None? || dir[path] == h.digest.value;
    }

    /** updateReceiverManifestFile, under the lock: if it can be saved, record the chunk and set the session pending. */
    method UpdateManifestFile(h: Header, written: int, fails: bool, ghost a: nat) returns (ok: bool)
      requires ReachedUnder(M.PubSave(a), 0) && FromPlan(t, transferId, h) && written == h.size
      requires a in conns && conns[a].idx == h.index
      modifies this`manifest, this`status, this`history, this`conns
      ensures Valid() && ok == !fails && RecordedTo(old(manifest), old(status), ok, h.index, manifest, status)
      ensures conns == old(conns)[a := M.Conn(h.index,
        if ok then M.Recorded(old(conns)[a].phase.Matched?) else M.Closed)]
    {
      UpsertRecords(t, transferId, manifest, h);
      match Upsert(manifest, name, h, written) {
        case Saved(mf) =>
          if fails {
            FailPublish(M.PubSave(a), h.index, a);
            return false;
          }
          manifest := Some(mf);
          Publishing(M.PubStatus(a), M.Save(a));
          status := M.MergePending;
          conns := conns[a := M.Conn(h.index, M.Recorded(conns[a].phase.Matched?))];
          Publishing(M.Free, M.SetPending(a));
          ok := true;
        case _ =>
          assert false;
      }
    }

    /** The chunk was recorded and the session set pending, or neither. */
    ghost predicate RecordedTo(mf: Option<RManifest>, st: M.MergeStatus, ok: bool, index: nat,
        mf': Option<RManifest>, st': M.MergeStatus)
    {
      if ok then st' == M.MergePending && SavedSet(mf', |t.plan|) == SavedSet(mf, |t.plan|) + {index}
      else mf' == mf && st' == st
    }

    /** A file operation of publishing fails: the handler gives up its lock and returns. */
    ghost method FailPublish(lock: M.Lock, index: nat, a: nat)
      requires ReachedUnder(lock, 0) && lock in {M.PubCheck(a), M.PubRename(a), M.PubSave(a)}
      requires a in conns && conns[a].idx == index && index < |t.plan|
      modifies this`history, this`conns
      ensures Valid() && conns == old(conns)[a := M.Conn(index, M.Closed)]
    {
      conns := conns[a := M.Conn(index, M.Closed)];
      Publishing(M.Free, M.PublishError(a));
    }

    /** publishReceiverChunk: under the lock, keep a file that already matches, else replace it; then record it. */
    method Publish(h: Header, data: Bytes, f: ChunkFaults, ghost a: nat) returns (ok: bool)
      requires Valid() && FromPlan(t, transferId, h) && data == Slice(t, h.index)
      requires a in conns && conns[a] == M.Conn(h.index, M.HaveTemp(data))
      modifies this`dir, this`manifest, this`status, this`history, this`conns
      ensures Valid()
      ensures var stored := ChunkMatches(t, old(dir), h.index) || !f.replace;
        && (ok <==> stored && !f.save)
        && dir == if stored then old(dir)[ChunkPath(name, h.index) := data] else old(dir)
      ensures RecordedTo(old(manifest), old(status), ok, h.index, manifest, status)
      ensures conns == old(conns)[a := M.Conn(h.index, if ok then M.Recorded(false) else M.Closed)]
    {
      KeepsChunksRight(t, history, |history| - 1);
      hide M.IsPath, M.Init, ChunkPath, ChunksRight, ChunkMatches, RecordedTo, Records, SavedSet;
      Handling(M.PubCheck(a), 0, M.LockForTemp(a));
      ok := PublishLocked(h, data, f, a);
    }

    method PublishLocked(h: Header, data: Bytes, f: ChunkFaults, ghost a: nat) returns (ok: bool)
      requires ReachedUnder(M.PubCheck(a), 0) && ChunksRight(t, dir)
      requires FromPlan(t, transferId, h) && data == Slice(t, h.index)
      requires a in conns && conns[a] == M.Conn(h.index, M.HaveTemp(data))
      modifies this`dir, this`manifest, this`status, this`history, this`conns
      ensures Valid()
      ensures var stored := ChunkMatches(t, old(dir), h.index) || !f.replace;
        && (ok <==> stored && !f.save)
        && dir == if stored then old(dir)[ChunkPath(name, h.index) := data] else old(dir)
      ensures RecordedTo(old(manifest), old(status), ok, h.index, manifest, status)
      ensures conns == old(conns)[a := M.Conn(h.index, if ok then M.Recorded(false) else M.Closed)]
    {
      MatchIsChunk(t, transferId, dir, h);
      hide M.IsPath, M.Init, ChunkPath, ChunksRight, ChunkMatches, RecordedTo, Records, SavedSet;
      var matches := FileMatches(ChunkPath(name, h.index), h);
      ok := true;
      if matches {
        Publishing(M.PubSave(a), M.Check(a));
      } else {
        ok := Replace(h, data, f.replace, a);
      }
      if ok {
        ok := UpdateManifestFile(h, |data|, f.save, a);
      }
    }

    /** Remove whatever is at the target, then rename the temporary there. */
    method Replace(h: Header, data: Bytes, fails: bool, ghost a: nat) returns (ok: bool)
      requires ReachedUnder(M.PubCheck(a), 0) && FromPlan(t, transferId, h) && !ChunkMatches(t, dir, h.index)
      requires a in conns && conns[a] == M.Conn(h.index, M.HaveTemp(data)) && ChunksRight(t, dir)
      modifies this`dir, this`history, this`conns
      ensures ok == !fails
      ensures ok ==>
        && ReachedUnder(M.PubSave(a), 0) && dir == old(dir)[ChunkPath(name, h.index) := data]
        && conns == old(conns)
      ensures !ok ==> Valid() && dir == old(dir) && conns == old(conns)[a := M.Conn(h.index, M.Closed)]
    {
      M.MismatchMeansAbsent(t, dir, h.index);
      hide ChunkPath, ChunksRight, ChunkMatches;
      var target := ChunkPath(name, h.index);
      dir := dir - {target};
      Publishing(M.PubRename(a), M.Check(a));
      if fails {
        FailPublish(M.PubRename(a), h.index, a);
        return false;
      }
      dir := dir[target := data];
      Publishing(M.PubSave(a), M.Rename(a));
      ok := true;
    }

    /** maybeScheduleReceiverFinalize, at a handler's end: (re)arm the timer unless a merge is running or done. */
    method MaybeSchedule(ghost a: nat)
      requires Valid() && a in conns && M.DueToSchedule(conns[a].phase)
      modifies this`status, this`timerArmed, this`history, this`conns
      ensures Valid()
      ensures var held := old(status) in {M.MergeRunning, M.MergeDone};
        && status == (if held then old(status) else M.MergePending)
        && timerArmed == (!held || old(timerArmed))
      ensures var c := old(conns)[a];
        conns == old(conns)[a := c.(phase := if c.phase.Acked? then M.Acked(true) else M.Closed)]
    {
      conns := conns[a := conns[a].(phase := if conns[a].phase.Acked? then M.Acked(true) else M.Closed)];
      if !(status == M.MergeRunning || status == M.MergeDone) {
        status := M.MergePending;
        timerArmed := true;
      }
      Handling(M.Free, 0, M.Schedule(a));
    }

    /** The timer runs out: its callback starts. */
    method FireTimer()
      requires Valid() && timerArmed
      modifies this`timerArmed, this`fired, this`history
      ensures Valid() && !timerArmed && fired == old(fired) + 1
    {
      timerArmed := false;
      fired := fired + 1;
      Handling(M.Free, 0, M.TimerFires);
    }

    /** ensureReceiverSession: the first connection opens the session. */
    method Ensure(h: Header, ghost a: nat)
      requires Valid() && FromPlan(t, transferId, h) && a !in conns
      modifies this`status, this`history, this`conns
      ensures Valid() && conns == old(conns)[a := M.Conn(h.index, M.Arrived)]
      ensures status == if old(status) == M.NoStatus then M.MergePending else old(status)
    {
      if status == M.NoStatus {
        status := M.MergePending;
      }
      conns := conns[a := M.Conn(h.index, M.Arrived)];
      Handling(M.Free, 0, M.Accept(a, h.index));
    }

    /** The chunk is already on disk: record it, acknowledge it unread, and schedule whether or not the ack got out. */
    method AcknowledgeExisting(h: Header, f: ChunkFaults, ghost a: nat) returns (ack: Ack)
      requires Valid() && FromPlan(t, transferId, h) && ChunkMatches(t, dir, h.index)
      requires a in conns && conns[a] == M.Conn(h.index, M.Arrived)
      modifies this`manifest, this`status, this`timerArmed, this`history, this`conns
      ensures Valid() && RecordedTo(old(manifest), old(status), !f.save, h.index, manifest, status)
      ensures timerArmed == (!f.save || old(timerArmed))
      ensures ack == if !f.save && !f.ack then DoneAck(h.index, h.size) else NoAck
    {
      conns := conns[a := M.Conn(h.index, M.Matched)];
      Handling(M.Free, 0, M.Match(a));
      Handling(M.PubSave(a), 0, M.LockForMatched(a));
      var ok := UpdateManifestFile(h, h.size, f.save, a);
      if ok {
        ack := FinishExisting(h, !f.ack, a);
      } else {
        ack := NoAck;
      }
    }

    method FinishExisting(h: Header, ackWritten: bool, ghost a: nat) returns (ack: Ack)
      requires Valid() && status == M.MergePending
      requires a in conns && conns[a] == M.Conn(h.index, M.Recorded(true))
      modifies this`status, this`timerArmed, this`history, this`conns
      ensures Valid() && status == M.MergePending && timerArmed
      ensures ack == if ackWritten then DoneAck(h.index, h.size) else NoAck
    {
      hide M.IsPath, M.Init;
      if ackWritten {
        conns := conns[a := M.Conn(h.index, M.Acked(false))];
        Handling(M.Free, 0, M.SendAck(a));
        ack := DoneAck(h.index, h.size);
      } else {
        conns := conns[a := M.Conn(h.index, M.AckLost)];
        Handling(M.Free, 0, M.AckFails(a));
        ack := NoAck;
      }
      MaybeSchedule(a);
    }

    /** A chunk just published: acknowledge it and schedule, or return unscheduled when the ack cannot be written. */
    method AcknowledgePublished(h: Header, written: nat, ackWritten: bool, ghost a: nat) returns (ack: Ack)
      requires Valid() && status == M.MergePending
      requires a in conns && conns[a] == M.Conn(h.index, M.Recorded(false))
      modifies this`status, this`timerArmed, this`history, this`conns
      ensures Valid() && status == M.MergePending && timerArmed == (ackWritten || old(timerArmed))
      ensures ack == if ackWritten then DoneAck(h.index, written) else NoAck
    {
      if !ackWritten {
        conns := conns[a := M.Conn(h.index, M.Closed)];
        Handling(M.Free, 0, M.AckFails(a));
        return NoAck;
      }
      conns := conns[a := M.Conn(h.index, M.Acked(false))];
      Handling(M.Free, 0, M.SendAck(a));
      MaybeSchedule(a);
      ack := DoneAck(h.index, written);
    }

    /** The connection ends without an ack of done. */
    ghost method Hangup(index: nat, a: nat)
      requires Valid() && a in conns && conns[a] == M.Conn(index, M.Arrived)
      modifies this`history, this`conns
      ensures Valid() && conns == old(conns)[a := M.Conn(index, M.Closed)]
    {
      conns := conns[a := M.Conn(index, M.Closed)];
      Handling(M.Free, 0, M.Drop(a));
    }

    /**
     * handleConn after the path checks, for a header of the transfer and whatever bytes follow
     * it (without a digest nothing but the transport vouches for them). The file is in place
     * exactly when the chunk was already there or the payload is its content and nothing fails
     * up to the rename; it is recorded if the manifest can also be saved, and then "done" is
     * acknowledged if the ack can be written.
     */
    method Handle(h: Header, payload: Bytes, f: ChunkFaults, ghost a: nat) returns (ack: Ack)
      requires Valid() && FromPlan(t, transferId, h) && a !in conns
      requires h.digest.None? ==> payload <= Slice(t, h.index) || Slice(t, h.index) <= payload
      modifies this`dir, this`manifest, this`status, this`timerArmed, this`history, this`conns
      ensures Valid()
      ensures var present := ChunkMatches(t, old(dir), h.index);
        var stored := present || (Slice(t, h.index) <= payload && !f.create && !f.sync && !f.replace);
        var recorded := stored && !f.save;
        && (ack.DoneAck? <==> recorded && !f.ack)
        && (ack.DoneAck? ==> ack == DoneAck(h.index, h.size))
        && (ack.HashMismatchAck? <==>
              !present && !f.create && h.size <= |payload| && !(Slice(t, h.index) <= payload))
        && dir == (if stored then old(dir)[ChunkPath(name, h.index) := Slice(t, h.index)] else old(dir))
        && RecordedTo(old(manifest), if old(status) == M.NoStatus then M.MergePending else old(status), recorded,
                      h.index, manifest, status)
        && (timerArmed <==> old(timerArmed) || (recorded && (present || !f.ack)))
    {
      KeepsChunksRight(t, history, |history| - 1);
      hide M.IsPath, M.Init, ChunkPath;
      Ensure(h, a);
      var present := FileMatches(ChunkPath(name, h.index), h);
      if present {
        ack := AcknowledgeExisting(h, f, a);
        return;
      }
      if f.create || |payload| < h.size {
        Hangup(h.index, a);
        return NoAck;
      }
      ack := HandlePayload(h, payload[..h.size], f, a);
    }

    /** The payload is in a temporary: check its digest, publish it, acknowledge it. */
    method HandlePayload(h: Header, data: Bytes, f: ChunkFaults, ghost a: nat) returns (ack: Ack)
      requires Valid() && FromPlan(t, transferId, h) && |data| == h.size
      requires a in conns && conns[a] == M.Conn(h.index, M.Arrived)
      requires h.digest.None? ==> data == Slice(t, h.index)
      modifies this`dir, this`manifest, this`status, this`timerArmed, this`history, this`conns
      ensures Valid()
      ensures var good := data == Slice(t, h.index);
        var stored := good && !f.sync && (ChunkMatches(t, old(dir), h.index) || !f.replace);
        var recorded := stored && !f.save;
        && ack == (if recorded && !f.ack then DoneAck(h.index, h.size) else if good then NoAck else HashMismatchAck)
        && dir == (if stored then old(dir)[ChunkPath(name, h.index) := data] else old(dir))
        && RecordedTo(old(manifest), old(status), recorded, h.index, manifest, status)
        && timerArmed == (old(timerArmed) || (recorded && !f.ack))
    {
      hide M.IsPath, M.Init, ChunkPath, ChunkMatches;
      if h.digest.Some? && data != h.digest.value {
        Hangup(h.index, a);
        return HashMismatchAck;
      }
      if f.sync {
        Hangup(h.index, a);
        return NoAck;
      }
      conns := conns[a := M.Conn(h.index, M.HaveTemp(data))];
      Handling(M.Free, 0, M.Receive(a, data));
      var ok := Publish(h, data, f, a);
      if ok {
        ack := AcknowledgePublished(h, |data|, !f.ack, a);
      } else {
        ack := NoAck;
      }
    }

    // ---- finalizing ----

    /** mergeReceiverChunks: append the parts in index order, stopping at the first that does not fit. */
    method MergeChunks(mf: RManifest) returns (out: Option<Bytes>)
      requires SessionFiles.Valid(t) && name == t.name && Records(t, transferId, mf)
      ensures out == Merged(t.name, t.plan, dir, SavedSet(Some(mf), |t.plan|), |t.plan|)
    {
      var cs := SortByIndex(mf.chunks);
      SortedMergeIsMerged(t, transferId, mf, dir);
      out := AppendParts(dir, PartsOf(name, cs));
    }

    /** cleanupReceiverChunks: remove what the glob finds but temporaries, up to the first that cannot be removed. */
    method Cleanup(stuck: set<string>) returns (ok: bool)
      requires ReachedUnder(M.FinClean, 0)
      modifies this`dir, this`history
      ensures ReachedUnder(M.FinClean, 0) && CleanedTo(t, old(dir), stuck, ok, dir)
      ensures ok ==> !glob.BadPattern? && (glob.Finds? ==> dir == AfterSweep(dir))
      ensures forall p :: p in old(dir) && (forall a: string, b: string :: p != a + ".chunk" + b) ==>
        p in dir && dir[p] == old(dir)[p]
      ensures ok && glob.Finds? ==> forall p :: p in old(dir) ==>
        (p in dir <==> (forall a: string, b: string :: p != a + ".chunk" + b) || exists a: string :: p == a + ".tmp")
    {
      ok := RemoveFound(stuck);
      forall p | p in old(dir)
        ensures (forall a: string, b: string :: p != a + ".chunk" + b) ==> p in dir && dir[p] == old(dir)[p]
        ensures ok && glob.Finds? ==>
          (p in dir <==> (forall a: string, b: string :: p != a + ".chunk" + b) || exists a: string :: p == a + ".tmp")
      {
        CleanupByName(t, old(dir), stuck, ok, dir, p);
      }
    }

    method RemoveFile(f: string)
      requires ReachedUnder(M.FinClean, 0) && glob.Finds? && f in dir && Swept(f)
      modifies this`dir, this`history
      ensures ReachedUnder(M.FinClean, 0) && dir == old(dir) - {f}
    {
      hide M.IsPath, M.Init, Swept;
      dir := dir - {f};
      Finalizing(M.FinClean, M.Sweep(f));
    }

    /** The loop over what the glob found. */
    method RemoveFound(stuck: set<string>) returns (ok: bool)
      requires ReachedUnder(M.FinClean, 0)
      modifies this`dir, this`history
      ensures ReachedUnder(M.FinClean, 0) && CleanedTo(t, old(dir), stuck, ok, dir)
      ensures ok ==> !glob.BadPattern? && (glob.Finds? ==> dir == AfterSweep(dir))
    {
      hide M.IsPath, M.Init;
      if glob.BadPattern? {
        return false;
      }
      var files := if glob.Finds? then set p | p in dir && Contains(p, ".chunk") else {};
      while files != {}
        invariant ReachedUnder(M.FinClean, 0)
        invariant files != {} ==> glob.Finds?
        invariant files <= dir.Keys && forall p :: p in files ==> Contains(p, ".chunk")
        invariant dir.Keys <= old(dir).Keys && forall p :: p in dir ==> dir[p] == old(dir)[p]
        invariant glob.Finds? ==> forall p :: p in old(dir) ==> (p in dir <==> !Swept(p) || p in files)
        invariant glob.Finds? ==> forall p :: p in old(dir) && Swept(p) && p in stuck ==> p in files
        invariant !glob.Finds? ==> dir == old(dir)
        decreases files
      {
        var f :| f in files;
        if !HasSuffix(f, ".tmp") {
          if f in stuck {
            return false;
          }
          RemoveFile(f);
        }
        files := files - {f};
      }
      ok := true;
    }

    /**
     * finalizeReceiverSession, as the timer's callback: what it leaves of the directory and
     * whether it reports done follow from the directory, the recorded chunks and which file
     * operations fail. It never arms the timer again.
     */
    method Finalize(f: Faults)
      requires Valid() && fired > 0
      modifies this`dir, this`status, this`fired, this`history
      ensures Valid() && fired == old(fired) - 1
      ensures old(status) in {M.MergeRunning, M.MergeDone} ==> dir == old(dir) && status == old(status)
      ensures old(status) !in {M.MergeRunning, M.MergeDone} ==>
        && FinalizedTo(t, old(dir), SavedSet(manifest, |t.plan|), f, status == M.MergeDone, dir)
        && status in {M.MergeDone, M.MergeFailed}
      ensures forall p :: p in old(dir) && p != name && p != name + ".tmp" ==>
        (forall a: string, b: string :: p != a + ".chunk" + b) ==> p in dir
      ensures forall p :: p in dir && p != name ==> p in old(dir) && dir[p] == old(dir)[p]
      ensures name + ".tmp" in dir ==> dir == old(dir)
      ensures var saved := SavedSet(manifest, |t.plan|);
        old(status) !in {M.MergeRunning, M.MergeDone} && Unhindered(t, old(dir), saved, f) ==>
          (status == M.MergeDone <==>
             && saved != {}
             && ((name in old(dir) && |old(dir)[name]| == totalBytes) || forall i: nat :: i < |t.plan| ==> i in saved))
    {
      KeepsChunksRight(t, history, |history| - 1);
      hide Valid, FinalizedTo, Unhindered, ChunksRight;
      var skipped := MergeUnlessRunning(f);
      if skipped {
        return;
      }
      FinalizationByName(t, old(dir), SavedSet(manifest, |t.plan|), f, status == M.MergeDone, dir, name);
      forall p: string
        ensures p in old(dir) && p != name && p != name + ".tmp" ==>
          (forall a: string, b: string :: p != a + ".chunk" + b) ==> p in dir
        ensures p in dir && p != name ==> p in old(dir) && dir[p] == old(dir)[p]
      {
        FinalizationByName(t, old(dir), SavedSet(manifest, |t.plan|), f, status == M.MergeDone, dir, p);
      }
      if Unhindered(t, old(dir), SavedSet(manifest, |t.plan|), f) {
        FinalizationExactly(t, old(dir), SavedSet(manifest, |t.plan|), f, status == M.MergeDone, dir);
      }
    }

    /** The callback looks at the status first: a running or finished merge is left alone. */
    method MergeUnlessRunning(f: Faults) returns (skipped: bool)
      requires Valid() && fired > 0
      modifies this`dir, this`status, this`fired, this`history
      ensures Valid() && SessionFiles.Valid(t) && name == t.name && totalBytes == |t.source| && fired == old(fired) - 1
      ensures skipped <==> old(status) in {M.MergeRunning, M.MergeDone}
      ensures skipped ==> dir == old(dir) && status == old(status)
      ensures !skipped ==>
        && FinalizedTo(t, old(dir), SavedSet(manifest, |t.plan|), f, status == M.MergeDone, dir)
        && status in {M.MergeDone, M.MergeFailed}
    {
      hide FinalizedTo;
      fired := fired - 1;
      skipped := status == M.MergeRunning || status == M.MergeDone;
      if skipped {
        Handling(M.Free, 0, M.FinalizeStart);
      } else {
        status := M.MergeRunning;
        Handling(M.Free, 1, M.FinalizeStart);
        Finalizing(M.FinLoad, M.FinalizeLock);
        FinalizeLocked(f);
      }
    }

    /** Under the lock: without a manifest there is nothing to merge. */
    method FinalizeLocked(f: Faults)
      requires ReachedUnder(M.FinLoad, 0) && status == M.MergeRunning
      modifies this`dir, this`status, this`history
      ensures Valid() && status in {M.MergeDone, M.MergeFailed}
      ensures FinalizedTo(t, old(dir), SavedSet(manifest, |t.plan|), f, status == M.MergeDone, dir)
    {
      hide M.IsPath, M.Init, CleanedTo;
      if manifest.None? {
        status := M.MergeFailed;
        Finalizing(M.Free, M.Load);
      } else if f.load {
        GiveUp(M.FinLoad, false);
      } else {
        FinalizeLoaded(manifest.value, f);
      }
    }

    /** The manifest is loaded: check it, and go on to the files. */
    method FinalizeLoaded(mf: RManifest, f: Faults)
      requires ReachedUnder(M.FinLoad, 0) && manifest == Some(mf) && status == M.MergeRunning && !f.load
      modifies this`dir, this`status, this`history
      ensures Valid() && status in {M.MergeDone, M.MergeFailed}
      ensures FinalizedTo(t, old(dir), SavedSet(manifest, |t.plan|), f, status == M.MergeDone, dir)
    {
      hide FinalizedTo;
      var complete := ValidateComplete(mf);
      LoadedIsSaved(t, transferId, mf);
      if !complete {
        // every record this session wrote is done, so this check never rejects; whether all
        // chunks are there is left to the size test
        assert false;
      }
      Finalizing(M.FinStat, M.Load);
      FinalizeFiles(mf, f);
    }

    /** failReceiverFinalize after a file operation failed; the merge temporary may have been removed. */
    method GiveUp(ghost lock: M.Lock, removeTmp: bool)
      requires ReachedUnder(lock, 0) && M.InFinalize(lock)
      modifies this`dir, this`status, this`history
      ensures Valid() && status == M.MergeFailed
      ensures dir == if removeTmp then old(dir) - {TmpPath(name)} else old(dir)
    {
      if removeTmp {
        dir := dir - {TmpPath(name)};
      }
      status := M.MergeFailed;
      Finalizing(M.Free, M.FinalizeError(removeTmp));
    }

    /** The part of finalizing after the manifest was accepted. */
    method FinalizeFiles(mf: RManifest, f: Faults)
      requires ReachedUnder(M.FinStat, 0) && manifest == Some(mf) && status == M.MergeRunning && !f.load
      requires SavedSet(manifest, |t.plan|) != {}
      modifies this`dir, this`status, this`history
      ensures Valid() && status in {M.MergeDone, M.MergeFailed}
      ensures FinalizedTo(t, old(dir), SavedSet(manifest, |t.plan|), f, status == M.MergeDone, dir)
    {
      hide M.IsPath, M.Init, CleanedTo;
      var look := LookAtFinal(f.removeStale);
      if look.Missing? {
        var merged := MergeToTmp(mf, f.merge);
        if merged.Some? {
          assert dir - {TmpPath(name)} == old(dir) - {name} - {TmpPath(name)};
          PublishMerged(merged.value, f);
        }
      }
    }

    /** A final file of the right size ends it; one of the wrong size is removed, if it can be. */
    method LookAtFinal(stuck: bool) returns (look: Look)
      requires ReachedUnder(M.FinStat, 0) && status == M.MergeRunning
      modifies this`dir, this`status, this`history
      ensures look.Complete? <==> name in old(dir) && |old(dir)[name]| == totalBytes
      ensures look.Stuck? <==> name in old(dir) && |old(dir)[name]| != totalBytes && stuck
      ensures look.Complete? ==> Valid() && dir == old(dir) && status == M.MergeDone
      ensures look.Stuck? ==> Valid() && dir == old(dir) && status == M.MergeFailed
      ensures look.Missing? ==> ReachedUnder(M.FinMerge, 0) && dir == old(dir) - {name} && status == M.MergeRunning
    {
      if name in dir {
        if |dir[name]| == totalBytes {
          status := M.MergeDone;
          Finalizing(M.Free, M.StatFinal);
          return Complete;
        }
        if stuck {
          GiveUp(M.FinStat, false);
          return Stuck;
        }
      }
      dir := dir - {name};
      assert name !in old(dir) ==> dir == old(dir);
      Finalizing(M.FinMerge, M.StatFinal);
      look := Missing;
    }

    method MergeToTmp(mf: RManifest, fails: bool) returns (merged: Option<Bytes>)
      requires ReachedUnder(M.FinMerge, 0) && manifest == Some(mf) && status == M.MergeRunning
      modifies this`dir, this`status, this`history
      ensures merged == if fails then None else Merged(t.name, t.plan, old(dir), SavedSet(manifest, |t.plan|), |t.plan|)
      ensures merged.None? ==> Valid() && dir == old(dir) - {TmpPath(name)} && status == M.MergeFailed
      ensures merged.Some? ==>
        ReachedUnder(M.FinRename, 0) && dir == old(dir)[TmpPath(name) := merged.value] && status == M.MergeRunning
    {
      if fails {
        GiveUp(M.FinMerge, true);
        return None;
      }
      merged := MergeChunks(mf);
      if merged.None? {
        dir := dir - {TmpPath(name)};
        status := M.MergeFailed;
        Finalizing(M.Free, M.Merge);
      } else {
        dir := dir[TmpPath(name) := merged.value];
        Finalizing(M.FinRename, M.Merge);
      }
    }

    /** Rename the merged temporary into place, check its size, and clean up. */
    method PublishMerged(data: Bytes, f: Faults)
      requires ReachedUnder(M.FinRename, 0) && TmpPath(name) in dir && dir[TmpPath(name)] == data
      modifies this`dir, this`status, this`history
      ensures Valid() && status in {M.MergeDone, M.MergeFailed}
      ensures var done, published := status == M.MergeDone, (old(dir) - {TmpPath(name)})[name := data];
        if f.rename then !done && dir == old(dir) - {TmpPath(name)}
        else if f.stat || |data| != totalBytes then !done && dir == published
        else CleanedTo(t, published, f.stuck, done, dir)
    {
      hide CleanedTo, M.IsPath, M.Init;
      if f.rename {
        GiveUp(M.FinRename, true);
        return;
      }
      dir := (dir - {TmpPath(name)})[name := dir[TmpPath(name)]];
      Finalizing(M.FinSize, M.RenameFinal);
      if f.stat {
        GiveUp(M.FinSize, false);
        return;
      }
      if |dir[name]| != totalBytes {
        status := M.MergeFailed;
        Finalizing(M.Free, M.CheckSize);
        return;
      }
      Finalizing(M.FinClean, M.CheckSize);
      var ok := Cleanup(f.stuck);
      if ok {
        MarkDone();
      } else {
        GiveUp(M.FinClean, false);
      }
    }

    method MarkDone()
      requires ReachedUnder(M.FinClean, 0) && !glob.BadPattern? && (glob.Finds? ==> dir == AfterSweep(dir))
      modifies this`status, this`history
      ensures Valid() && status == M.MergeDone
    {
      status := M.MergeDone;
      Finalizing(M.Free, M.Cleaned);
    }

    /** What the session's own "done" is worth: any sequence of connections and finalizations may have led here. */
    lemma {:induction false} DoneIsSource()
      requires Valid() && Safe(t) && status == M.MergeDone
      ensures name in dir && dir[name] == t.source
    {
      M.InitInv(t, history[0]);
      M.PathKeepsInv(t, history, |history| - 1);
    }

    /** validateReceiverManifestComplete: the three counts it compares. */
    method ValidateComplete(mf: RManifest) returns (complete: bool)
      ensures complete <==> mf.totalBytes > 0 && forall p :: 0 <= p < |mf.chunks| ==> mf.chunks[p].status.Done?
    {
      var done, failed := 0, 0;
      var p := 0;
      while p < |mf.chunks|
        invariant p <= |mf.chunks| && 0 <= failed && done + failed <= p
        invariant done == p <==> forall q :: 0 <= q < p ==> mf.chunks[q].status.Done?
      {
        if mf.chunks[p].status.Done? {
          done := done + 1;
        } else if mf.chunks[p].status.Failed? {
          failed := failed + 1;
        }
        p := p + 1;
      }
      complete := mf.totalBytes > 0 && done == |mf.chunks| && failed == 0;
    }
  }

  /** With the chunk files right, what passes for a match is the chunk, digest or not. */
  lemma {:induction false} MatchIsChunk(t: Transfer, transferId: string, dir: Dir, h: Header)
    requires SessionFiles.Valid(t) && ChunksRight(t, dir) && FromPlan(t, transferId, h)
    ensures var path := ChunkPath(t.name, h.index);
      path in dir && |dir[path]| == h.size && (h.digest.Some? ==> dir[path] == h.digest.value) <==>
        ChunkMatches(t, dir, h.index)
    ensures ChunkMatches(t, dir, h.index) ==>
      dir[ChunkPath(t.name, h.index) := Slice(t, h.index)] == dir
  {
  }

  /** Whatever the name and the cleanup, the chunk files a run leaves are right. */
  lemma {:induction false} KeepsChunksRight(t: Transfer, run: seq<M.RState>, k: nat)
    requires SessionFiles.Valid(t) && M.IsPath(t, run) && M.Init(run[0]) && k < |run|
    ensures ChunksRight(t, run[k].dir)
  {
    M.FilesStayRight(t, run, k);
  }

  /** A manifest file that exists records a chunk, and only done chunks. */
  lemma {:induction false} LoadedIsSaved(t: Transfer, transferId: string, mf: RManifest)
    requires SessionFiles.Valid(t) && Records(t, transferId, mf)
    ensures SavedSet(Some(mf), |t.plan|) != {}
    ensures forall p :: 0 <= p < |mf.chunks| ==> mf.chunks[p].status.Done?
  {
    forall p | 0 <= p < |mf.chunks|
      ensures mf.chunks[p].status.Done?
    {
      assert RecordOk(t, mf.chunks[p]);
    }
    assert RecordOk(t, mf.chunks[0]);
    assert mf.chunks[0].index in SavedSet(Some(mf), |t.plan|);
  }
}
