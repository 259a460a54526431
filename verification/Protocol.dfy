/**
 * The transfer end to end: the sender's pool with its saved manifest, the attempts in
 * flight, and the receiver. Late deliveries, duplicates, lost acks, rejected payloads,
 * early finalization, sender crashes with a restart from whatever was last saved, and
 * receiver crashes are all runs of this machine.
 */
module Protocol {
  import opened Plan
  import opened ManifestState
  import opened SessionFiles
  import S = SenderPool
  import R = ReceiverMachine

  datatype PState = PState(
    s: S.SState,
    disk: seq<ChunkState>, // the manifest the sender last saved
    r: R.RState)

  datatype PStep =
    | SenderStep(step: S.Step)
    | SaveManifest
    | ReceiverStep(rstep: R.RStep)
    | Restart(explicit: bool, workers: nat)

  predicate HasCanceled(cs: seq<ChunkState>) { exists i :: 0 <= i < |cs| && cs[i].status.Canceled? }

  predicate AllDone(cs: seq<ChunkState>) { forall i :: 0 <= i < |cs| ==> cs[i].status.Done? }

  predicate Complete(cs: seq<ChunkState>) { cs != [] && AllDone(cs) }

  /**
   * loadOrCreateManifest on a compatible saved manifest: the records the new run starts
   * from, or None when it would begin a fresh transfer under a new id instead.
   */
  function Reload(disk: seq<ChunkState>, explicit: bool): Option<seq<ChunkState>> {
    var loaded := NormalizeAll(disk, LOAD_MAX_ATTEMPTS);
    if explicit then Some(ActivateAll(loaded, S.MAX_ATTEMPTS))
    else if HasCanceled(loaded) || Complete(loaded) then None
    else Some(loaded)
  }

  /**
   * What a send makes of a saved manifest, read off its records. An explicit resume always
   * continues it. A plain send begins afresh exactly when some record is canceled, or there
   * are records and all are done; otherwise it continues, and a file with chunks then has one
   * that is not done.
   */
  lemma {:induction false} ReloadExactly(disk: seq<ChunkState>)
    ensures Reload(disk, true).Some?
    ensures Reload(disk, false).None? <==>
      || (exists i :: 0 <= i < |disk| && disk[i].status.Canceled?)
      || (disk != [] && forall i :: 0 <= i < |disk| ==> disk[i].status.Done?)
    ensures Reload(disk, false).Some? && disk != [] ==>
      exists i :: 0 <= i < |disk| && i < |Reload(disk, false).value| && !Reload(disk, false).value[i].status.Done?
  {
    var loaded := NormalizeAll(disk, LOAD_MAX_ATTEMPTS);
    forall i | 0 <= i < |disk|
      ensures loaded[i].status.Canceled? <==> disk[i].status.Canceled?
      ensures loaded[i].status.Done? <==> disk[i].status.Done?
    {
      assert loaded[i] == Normalized(disk[i], LOAD_MAX_ATTEMPTS);
    }
    if HasCanceled(loaded) {
      var i :| 0 <= i < |loaded| && loaded[i].status.Canceled?;
      assert disk[i].status.Canceled?;
    }
    if exists i :: 0 <= i < |disk| && disk[i].status.Canceled? {
      var i :| 0 <= i < |disk| && disk[i].status.Canceled?;
      assert loaded[i].status.Canceled?;
    }
    if AllDone(loaded) {
      assert forall i :: 0 <= i < |disk| ==> loaded[i].status.Done?;
    }
    assert (forall i :: 0 <= i < |disk| ==> disk[i].status.Done?) ==> AllDone(loaded);
  }

  /**
   * Each record of a continued transfer: done ones stay, unfinished ones are pending again,
   * and a failed one too while it has had fewer than three attempts; beyond that only an
   * explicit resume takes it up, with a clean count.
   */
  lemma {:induction false} ReloadedRecord(disk: seq<ChunkState>, explicit: bool, i: nat)
    requires i < |disk| && Reload(disk, explicit).Some?
    ensures |Reload(disk, explicit).value| == |disk|
    ensures var c, r := disk[i], Reload(disk, explicit).value[i];
      var givenUp := c.status.Failed? && c.attempts >= 3;
      && r == c.(status := r.status, attempts := r.attempts)
      && r.attempts == (if givenUp && explicit then 0 else c.attempts)
      && (r.status.Pending? <==>
            c.status in {Pending, Sending, Canceled} || (c.status.Failed? && (!givenUp || explicit)))
      && (!r.status.Pending? ==> r == c)
  {
    var n := Normalized(disk[i], LOAD_MAX_ATTEMPTS);
    var loaded := NormalizeAll(disk, LOAD_MAX_ATTEMPTS);
    assert loaded[i] == n;
    if explicit {
      assert Reload(disk, explicit).value[i] == Activated(n, S.MAX_ATTEMPTS);
    } else {
      assert Reload(disk, explicit).value[i] == n;
      assert n.status.Canceled? ==> HasCanceled(loaded);
    }
  }

  /**
   * A transfer the user canceled stays canceled: with any chunk pending or in flight, what the
   * run leaves to be saved makes the next plain send begin a fresh transfer.
   */
  lemma {:induction false} CanceledStaysCanceled(s: S.SState, s': S.SState, i: nat)
    requires S.NextStep(s, s', S.Join) && s.canceled
    requires i < |s.chunks| && (s.chunks[i].status.Pending? || s.chunks[i].status.Sending?)
    ensures s'.outcome == S.CanceledByUser && Reload(s'.chunks, false).None?
  {
    CancelStopsAll(s.chunks, i);
    assert s'.chunks[i].status.Canceled?;
    ReloadExactly(s'.chunks);
  }

  ghost predicate Init(t: Transfer, p: PState)
    requires Valid(t)
  {
    && |p.s.workers| > 0
    && p.s == S.NewRun(Fresh(t.plan), |p.s.workers|, [])
    && p.disk == Fresh(t.plan)
    && R.Init(p.r)
  }

  /** The ack of this attempt arrived, says done, and names its chunk. */
  ghost predicate AckArrived(p: PState, w: nat) {
    && w < |p.s.workers| && p.s.workers[w].Holding?
    && var h := p.s.workers[w];
       h.attempt in p.r.conns && p.r.conns[h.attempt].phase.Acked? && p.r.conns[h.attempt].idx == h.idx
  }

  ghost predicate NextStep(t: Transfer, p: PState, p': PState, step: PStep)
    requires Valid(t)
  {
    match step
    case SenderStep(ss) =>
      && S.NextStep(p.s, p'.s, ss)
      && (ss.Succeed? ==>
            && AckArrived(p, ss.w) && p.s.workers[ss.w].idx < |t.plan|
            && ss.digest == Slice(t, p.s.workers[ss.w].idx))
      && p'.r == p.r
      && p'.disk == if ss.Join? && p'.s.outcome in {S.Succeeded, S.Incomplete} then p'.s.chunks else p.disk
    case SaveManifest =>
      p' == p.(disk := p.s.chunks)
    case ReceiverStep(rs) =>
      && R.NextStep(t, p.r, p'.r, rs)
      && (rs.Accept? ==> rs.a < |p.s.attempts| && p.s.attempts[rs.a] == rs.i)
      && p'.s == p.s && p'.disk == p.disk
    case Restart(explicit, workers) =>
      && workers > 0
      && var cs := Reload(p.disk, explicit);
         cs.Some?
         && p' == p.(s := S.NewRun(cs.value, workers, p.s.attempts), disk := cs.value)
  }

  ghost predicate Next(t: Transfer, p: PState, p': PState)
    requires Valid(t)
  {
    exists step :: NextStep(t, p, p', step)
  }

  ghost predicate StepAt(t: Transfer, run: seq<PState>, k: nat)
    requires Valid(t) && k + 1 < |run|
  {
    Next(t, run[k], run[k + 1])
  }

  ghost predicate IsRun(t: Transfer, run: seq<PState>)
    requires Valid(t)
  {
    run != [] && Init(t, run[0]) && forall k :: 0 <= k < |run| - 1 ==> StepAt(t, run, k)
  }

  // ---- invariant ----

  /** A manifest some run of this transfer may have saved. */
  ghost predicate SavedOk(plan: seq<Extent>, cs: seq<ChunkState>) {
    && Geometry(cs) == plan
    && forall i :: 0 <= i < |cs| ==>
         && cs[i].status in {Pending, Sending, Done, Failed, Canceled}
         && 0 <= cs[i].attempts <= S.MAX_ATTEMPTS
         && (cs[i].status in {Pending, Sending, Canceled} ==> cs[i].attempts < S.MAX_ATTEMPTS)
  }

  /** done in cs implies done in cs'. */
  ghost predicate DoneWithin(cs: seq<ChunkState>, cs': seq<ChunkState>) {
    |cs| == |cs'| && forall i :: 0 <= i < |cs| && cs[i].status.Done? ==> cs'[i].status.Done?
  }

  ghost predicate Inv(t: Transfer, p: PState)
    requires Valid(t)
  {
    && S.Inv(p.s) && R.Inv(t, p.r)
    && SavedOk(t.plan, p.s.chunks) && SavedOk(t.plan, p.disk)
    && DoneWithin(p.disk, p.s.chunks)
    && (forall i: nat :: i < |p.s.chunks| && p.s.chunks[i].status.Done? ==> i in p.r.saved)
    && (forall a :: a in p.r.conns ==> a < |p.s.attempts| && p.s.attempts[a] == p.r.conns[a].idx)
    && (p.s.outcome == S.Succeeded ==> AllDone(p.s.chunks) && AllDone(p.disk))
  }

  /** Every run's own records are ones it could save. */
  lemma {:induction false} ChunksSavable(plan: seq<Extent>, s: S.SState)
    requires S.Shape(s) && Geometry(s.start) == plan
    ensures SavedOk(plan, s.chunks)
  {
    S.ChunksNumbered(s);
    forall i | 0 <= i < |s.chunks|
      ensures s.chunks[i].status in {Pending, Sending, Done, Failed, Canceled}
      ensures 0 <= s.chunks[i].attempts <= S.MAX_ATTEMPTS
      ensures s.chunks[i].status in {Pending, Sending, Canceled} ==> s.chunks[i].attempts < S.MAX_ATTEMPTS
    {
      assert S.ChunkOk(s, i);
    }
  }

  /** One record across a reload. */
  lemma {:induction false} ReloadRecord(c: ChunkState, explicit: bool)
    requires c.status in {Pending, Sending, Done, Failed, Canceled} && 0 <= c.attempts <= S.MAX_ATTEMPTS
    requires c.status in {Pending, Sending, Canceled} ==> c.attempts < S.MAX_ATTEMPTS
    ensures var n := Normalized(c, LOAD_MAX_ATTEMPTS);
      var r := if explicit then Activated(n, S.MAX_ATTEMPTS) else n;
      && r.Extent() == c.Extent() && (r.status.Done? <==> c.status.Done?)
      && 0 <= r.attempts <= S.MAX_ATTEMPTS
      && (r.status.Pending? ==> r.attempts < S.MAX_ATTEMPTS)
      && (r.status.Failed? ==> r.attempts == S.MAX_ATTEMPTS && !explicit)
      && (n.status.Canceled? || r.status in {Pending, Done, Failed})
      && (explicit ==> !r.status.Canceled?)
  {
  }

  /** Whatever was saved, the run that starts from it starts well, and knows the same chunks done. */
  lemma {:induction false} ReloadStarts(t: Transfer, disk: seq<ChunkState>, explicit: bool)
    requires Valid(t) && SavedOk(t.plan, disk) && Reload(disk, explicit).Some?
    ensures var cs := Reload(disk, explicit).value;
      S.StartOk(cs) && SavedOk(t.plan, cs) && DoneWithin(disk, cs) && DoneWithin(cs, disk)
    ensures explicit ==> forall i :: 0 <= i < |disk| ==> !S.Exhausted(Reload(disk, explicit).value[i])
  {
    var cs := Reload(disk, explicit).value;
    var loaded := NormalizeAll(disk, LOAD_MAX_ATTEMPTS);
    forall i | 0 <= i < |disk|
      ensures cs[i].Extent() == t.plan[i] && cs[i].index == i && cs[i].size > 0
      ensures (cs[i].status.Done? <==> disk[i].status.Done?) && 0 <= cs[i].attempts <= S.MAX_ATTEMPTS
      ensures cs[i].status.Pending? ==> cs[i].attempts < S.MAX_ATTEMPTS
      ensures cs[i].status.Failed? ==> cs[i].attempts == S.MAX_ATTEMPTS && !explicit
      ensures cs[i].status in {Pending, Done, Failed}
    {
      assert Geometry(disk)[i] == t.plan[i];
      ReloadRecord(disk[i], explicit);
      assert cs[i] == if explicit then Activated(loaded[i], S.MAX_ATTEMPTS) else loaded[i];
    }
    assert Geometry(cs) == t.plan;
  }

  lemma {:induction false} SenderKeepsDone(t: Transfer, p: PState, p': PState, ss: S.Step)
    requires Valid(t) && Inv(t, p) && NextStep(t, p, p', SenderStep(ss))
    ensures DoneWithin(p.s.chunks, p'.s.chunks)
    ensures forall i: nat :: i < |p'.s.chunks| && p'.s.chunks[i].status.Done? ==> i in p.r.saved
  {
    if p.s.chunks == [] {
      S.StepKeepsChunks(p.s, p'.s, ss);
    }
    forall i: nat | i < |p.s.chunks|
      ensures |p'.s.chunks| == |p.s.chunks|
      ensures p.s.chunks[i].status.Done? ==> p'.s.chunks[i].status.Done?
      ensures p'.s.chunks[i].status.Done? ==> i in p.r.saved
    {
      S.DoneMoves(p.s, p'.s, ss, i);
      if p'.s.chunks[i].status.Done? && !p.s.chunks[i].status.Done? {
        AckedIsSaved(t, p, ss.w);
      }
    }
  }

  /** A sender step moves the attempt log and the saved manifest only in step with the run. */
  lemma {:induction false} SenderFrame(t: Transfer, p: PState, p': PState, ss: S.Step)
    requires Valid(t) && NextStep(t, p, p', SenderStep(ss))
    ensures p'.r == p.r && (p'.disk == p.disk || p'.disk == p'.s.chunks)
    ensures p.s.attempts <= p'.s.attempts
  {
  }

  lemma {:induction false} SenderKeepsInv(t: Transfer, p: PState, p': PState, ss: S.Step)
    requires Valid(t) && Inv(t, p) && NextStep(t, p, p', SenderStep(ss))
    ensures Inv(t, p')
  {
    SenderKeepsDone(t, p, p', ss);
    SuccessMeansDone(t, p, p', ss);
    SenderRunStep(t.plan, p.s, p'.s, ss);
    SenderFrame(t, p, p', ss);
    AssembleSender(t, p, p');
  }

  lemma {:induction false} AssembleSender(t: Transfer, p: PState, p': PState)
    requires Valid(t) && R.Inv(t, p.r) && p'.r == p.r
    requires SavedOk(t.plan, p.disk) && DoneWithin(p.disk, p.s.chunks)
    requires forall a :: a in p.r.conns ==> a < |p.s.attempts| && p.s.attempts[a] == p.r.conns[a].idx
    requires S.Inv(p'.s) && SavedOk(t.plan, p'.s.chunks) && p.s.attempts <= p'.s.attempts
    requires DoneWithin(p.s.chunks, p'.s.chunks)
    requires p'.disk == p.disk || p'.disk == p'.s.chunks
    requires forall i: nat :: i < |p'.s.chunks| && p'.s.chunks[i].status.Done? ==> i in p'.r.saved
    requires p'.s.outcome == S.Succeeded ==> AllDone(p'.s.chunks) && AllDone(p'.disk)
    ensures Inv(t, p')
  {
  }

  /** The sender's own invariants, in the terms the composition needs. */
  lemma {:induction false} SenderRunStep(plan: seq<Extent>, s: S.SState, s': S.SState, ss: S.Step)
    requires S.Inv(s) && S.NextStep(s, s', ss) && SavedOk(plan, s.chunks)
    ensures S.Inv(s') && SavedOk(plan, s'.chunks) && s.attempts <= s'.attempts
  {
    S.StepKeepsInv(s, s', ss);
    S.StepKeepsFrame(s, s', ss);
    S.StepKeepsAttempts(s, s', ss);
    S.ChunksNumbered(s);
    ChunksSavable(plan, s');
  }

  lemma {:induction false} AckedIsSaved(t: Transfer, p: PState, w: nat)
    requires Valid(t) && Inv(t, p) && AckArrived(p, w)
    ensures p.s.workers[w].idx in p.r.saved
  {
    assert R.ConnOk(t, p.r, p.s.workers[w].attempt);
  }

  lemma {:induction false} SuccessMeansDone(t: Transfer, p: PState, p': PState, ss: S.Step)
    requires Valid(t) && Inv(t, p) && NextStep(t, p, p', SenderStep(ss))
    ensures p'.s.outcome == S.Succeeded ==> AllDone(p'.s.chunks) && AllDone(p'.disk)
  {
    if p'.s.outcome == S.Succeeded {
      S.OutcomeByJoin(p.s, p'.s, ss);
    }
  }

  lemma {:induction false} ReceiverKeepsInv(t: Transfer, p: PState, p': PState, rs: R.RStep)
    requires Valid(t) && Safe(t) && Inv(t, p) && NextStep(t, p, p', ReceiverStep(rs))
    ensures Inv(t, p')
  {
    R.StepKeepsInv(t, p.r, p'.r, rs);
    R.StepMonotone(t, p.r, p'.r, rs, 0);
    forall a | a in p'.r.conns
      ensures a < |p'.s.attempts| && p'.s.attempts[a] == p'.r.conns[a].idx
    {
      R.StepMonotone(t, p.r, p'.r, rs, a);
    }
  }

  lemma {:induction false} RestartKeepsInv(t: Transfer, p: PState, p': PState, explicit: bool, workers: nat)
    requires Valid(t) && Inv(t, p) && NextStep(t, p, p', Restart(explicit, workers))
    ensures Inv(t, p')
  {
    ReloadStarts(t, p.disk, explicit);
    AssembleRestart(t, p, p', workers);
  }

  lemma {:induction false} AssembleRestart(t: Transfer, p: PState, p': PState, workers: nat)
    requires Valid(t) && R.Inv(t, p.r) && workers > 0
    requires p' == PState(S.NewRun(p'.disk, workers, p.s.attempts), p'.disk, p.r)
    requires S.StartOk(p'.disk) && SavedOk(t.plan, p'.disk) && DoneWithin(p'.disk, p.disk)
    requires DoneWithin(p.disk, p.s.chunks)
    requires forall i: nat :: i < |p.s.chunks| && p.s.chunks[i].status.Done? ==> i in p.r.saved
    requires forall a :: a in p.r.conns ==> a < |p.s.attempts| && p.s.attempts[a] == p.r.conns[a].idx
    ensures Inv(t, p')
  {
    S.NewRunInv(p'.disk, workers, p.s.attempts);
  }

  lemma {:induction false} StepKeepsInv(t: Transfer, p: PState, p': PState, step: PStep)
    requires Valid(t) && Safe(t) && Inv(t, p) && NextStep(t, p, p', step)
    ensures Inv(t, p')
  {
    match step
    case SenderStep(ss) => SenderKeepsInv(t, p, p', ss);
    case SaveManifest =>
    case ReceiverStep(rs) => ReceiverKeepsInv(t, p, p', rs);
    case Restart(explicit, workers) => RestartKeepsInv(t, p, p', explicit, workers);
  }

  lemma {:induction false} InitInv(t: Transfer, p: PState)
    requires Valid(t) && Init(t, p)
    ensures Inv(t, p)
  {
    var cs := Fresh(t.plan);
    forall i | 0 <= i < |cs|
      ensures cs[i].Extent() == t.plan[i] && cs[i].index == i && cs[i].size > 0
    {
    }
    assert Geometry(cs) == t.plan;
    S.NewRunInv(cs, |p.s.workers|, []);
  }

  lemma {:induction false} NextKeepsInv(t: Transfer, run: seq<PState>, k: nat)
    requires Valid(t) && Safe(t) && IsRun(t, run) && k + 1 < |run|
    ensures Inv(t, run[k]) ==> Inv(t, run[k + 1])
  {
    if Inv(t, run[k]) {
      assert StepAt(t, run, k);
      var step :| NextStep(t, run[k], run[k + 1], step);
      StepKeepsInv(t, run[k], run[k + 1], step);
    }
  }

  lemma {:induction false} RunStartsInv(t: Transfer, run: seq<PState>)
    requires Valid(t) && IsRun(t, run)
    ensures Inv(t, run[0])
  {
    InitInv(t, run[0]);
  }

  lemma {:induction false} RunKeepsInv(t: Transfer, run: seq<PState>, k: nat)
    requires Valid(t) && Safe(t) && IsRun(t, run) && k < |run|
    ensures Inv(t, run[k])
  {
    hide Inv;
    if k == 0 {
      RunStartsInv(t, run);
    } else {
      RunKeepsInv(t, run, k - 1);
      NextKeepsInv(t, run, k - 1);
    }
  }

  // ---- main results ----

  /** One step of a run loses nothing a chunk is safe by. */
  lemma {:induction false} StepKeepsFiles(t: Transfer, run: seq<PState>, k: nat)
    requires Valid(t) && Safe(t) && IsRun(t, run) && k + 1 < |run|
    ensures R.KeepsAll(t, run[k].r.dir, run[k + 1].r.dir)
  {
    RunKeepsInv(t, run, k);
    assert StepAt(t, run, k);
    var step :| NextStep(t, run[k], run[k + 1], step);
    if step.ReceiverStep? {
      R.StepKeepsInv(t, run[k].r, run[k + 1].r, step.rstep);
    }
  }

  /** Once the final file is the source it stays so, through every later step. */
  lemma {:induction false} WholeStays(t: Transfer, run: seq<PState>, j: nat, k: nat)
    requires Valid(t) && Safe(t) && IsRun(t, run) && j <= k < |run|
    requires R.Whole(t, run[j].r.dir)
    ensures R.Whole(t, run[k].r.dir)
  {
    if j < k {
      WholeStays(t, run, j, k - 1);
      StepKeepsFiles(t, run, k - 1);
      assert R.KeepsAll(t, run[k - 1].r.dir, run[k].r.dir);
    }
  }

  /**
   * End-to-end safety: in every run, when the receiver reports the merge done the final
   * file is the source byte for byte, and from then on it stays so.
   */
  lemma {:induction false} DoneMeansSource(t: Transfer, run: seq<PState>, j: nat, k: nat)
    requires Valid(t) && Safe(t) && IsRun(t, run) && j <= k < |run|
    requires run[j].r.status == R.MergeDone
    ensures t.name in run[k].r.dir && run[k].r.dir[t.name] == t.source
  {
    RunKeepsInv(t, run, j);
    WholeStays(t, run, j, k);
  }

  /**
   * Durability order: what the sender's disk calls done, its memory calls done; what its
   * memory calls done, the receiver has recorded; what the receiver has recorded, it holds
   * with the right bytes, as a chunk file or within the finished file.
   */
  lemma {:induction false} DurabilityOrder(t: Transfer, run: seq<PState>, k: nat, i: nat)
    requires Valid(t) && Safe(t) && IsRun(t, run) && k < |run| && i < |t.plan|
    ensures var p := run[k];
      && |p.disk| == |p.s.chunks| == |t.plan|
      && (p.disk[i].status.Done? ==> p.s.chunks[i].status.Done?)
      && (p.s.chunks[i].status.Done? ==> i in p.r.saved)
      && (i in p.r.saved ==>
            || (t.name in p.r.dir && p.r.dir[t.name] == t.source)
            || (ChunkPath(t.name, i) in p.r.dir && p.r.dir[ChunkPath(t.name, i)] == Slice(t, i)))
  {
    RunKeepsInv(t, run, k);
    var p := run[k];
    assert Geometry(p.disk) == t.plan && Geometry(p.s.chunks) == t.plan;
  }

  /** No chunk file ever goes before the final file is the whole source. */
  lemma {:induction false} CleanupIsSafe(t: Transfer, run: seq<PState>, k: nat, i: nat)
    requires Valid(t) && Safe(t) && IsRun(t, run) && k + 1 < |run| && i < |t.plan|
    requires ChunkPath(t.name, i) in run[k].r.dir && ChunkPath(t.name, i) !in run[k + 1].r.dir
    ensures t.name in run[k + 1].r.dir && run[k + 1].r.dir[t.name] == t.source
  {
    StepKeepsFiles(t, run, k);
    assert R.Kept(t, run[k + 1].r.dir, i);
  }

  /** A sender that reports success has every chunk saved as done, and safe with the receiver. */
  lemma {:induction false} SenderSuccessIsDelivery(t: Transfer, run: seq<PState>, k: nat)
    requires Valid(t) && Safe(t) && IsRun(t, run) && k < |run|
    requires run[k].s.outcome == S.Succeeded
    ensures forall i: nat :: i < |t.plan| ==> i in run[k].r.saved && R.Kept(t, run[k].r.dir, i)
  {
    RunKeepsInv(t, run, k);
    assert Geometry(run[k].s.chunks) == t.plan;
  }
}
