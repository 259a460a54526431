/**
 * Whole transfers, from the first chunk to the merge: what a delivered transfer can still
 * reach, the run that delivers any file chunk by chunk, and the two ways such a run can end
 * badly, a lost wake-up and a file name the cleanup takes.
 */
module Delivery {
  import opened Plan
  import opened ManifestState
  import opened SessionFiles
  import opened Protocol
  import S = SenderPool
  import R = ReceiverMachine
  import F = Finalization
  import GlobPattern
  import SessionNames
  import Wire

  // ---- continuations ----

  ghost predicate IsContinuation(t: Transfer, cont: seq<PState>)
    requires Valid(t)
  {
    cont != [] && forall k :: 0 <= k < |cont| - 1 ==> StepAt(t, cont, k)
  }

  ghost predicate LeadsToDone(t: Transfer, p: PState, cont: seq<PState>)
    requires Valid(t)
  {
    IsContinuation(t, cont) && cont[0] == p && cont[|cont| - 1].r.status == R.MergeDone
  }

  /** Whatever sender, receiver, restarts and crashes do from here, some way of doing it ends in done. */
  ghost predicate CanReachDone(t: Transfer, p: PState)
    requires Valid(t)
  {
    exists cont :: LeadsToDone(t, p, cont)
  }

  lemma {:induction false} Extend(t: Transfer, cont: seq<PState>, p: PState, step: PStep) returns (cont': seq<PState>)
    requires Valid(t) && IsContinuation(t, cont) && NextStep(t, cont[|cont| - 1], p, step)
    ensures IsContinuation(t, cont') && cont' == cont + [p] && cont'[0] == cont[0] && cont'[|cont'| - 1] == p
  {
    cont' := cont + [p];
    forall k | 0 <= k < |cont'| - 1
      ensures StepAt(t, cont', k)
    {
      if k < |cont| - 1 {
        assert StepAt(t, cont, k);
      } else {
        assert cont'[k] == cont[k] && cont'[k + 1] == p;
      }
    }
  }

  lemma {:induction false} RunFromInit(t: Transfer, cont: seq<PState>)
    requires Valid(t) && IsContinuation(t, cont) && Init(t, cont[0])
    ensures IsRun(t, cont)
  {
  }

  /** Each connection of the receiver is one the sender opened for that chunk. */
  ghost predicate ConnsOpened(r: R.RState, attempts: seq<nat>) {
    forall a :: a in r.conns ==> a < |attempts| && attempts[a] == r.conns[a].idx
  }

  lemma {:induction false} OpenedBefore(t: Transfer, path: seq<R.RState>, k: nat, attempts: seq<nat>)
    requires Valid(t) && R.IsPath(t, path) && k < |path| && ConnsOpened(path[|path| - 1], attempts)
    ensures ConnsOpened(path[k], attempts)
    decreases |path| - k
  {
    if k + 1 < |path| {
      OpenedBefore(t, path, k + 1, attempts);
      assert R.StepAt(t, path, k);
      var step :| R.NextStep(t, path[k], path[k + 1], step);
      forall a | a in path[k].conns
        ensures a < |attempts| && attempts[a] == path[k].conns[a].idx
      {
        R.StepMonotone(t, path[k], path[k + 1], step, a);
      }
    }
  }

  lemma {:induction false} LiftStep(t: Transfer, p: PState, path: seq<R.RState>, k: nat) returns (step: R.RStep)
    requires Valid(t) && R.IsPath(t, path) && k + 1 < |path| && p.r == path[k]
    requires ConnsOpened(path[|path| - 1], p.s.attempts)
    ensures NextStep(t, p, p.(r := path[k + 1]), ReceiverStep(step))
  {
    assert R.StepAt(t, path, k);
    step :| R.NextStep(t, path[k], path[k + 1], step);
    OpenedBefore(t, path, k + 1, p.s.attempts);
    F.AcceptGrows(t, path[k], path[k + 1], step);
    if step.Accept? { R.StepMonotone(t, path[k], path[k + 1], step, step.a); }
  }

  /** What the receiver does over connections the sender opened is something the two do together. */
  lemma {:induction false} Lift(t: Transfer, cont: seq<PState>, path: seq<R.RState>, k: nat)
    returns (cont': seq<PState>)
    requires Valid(t) && IsContinuation(t, cont) && R.IsPath(t, path) && k < |path|
    requires path[0] == cont[|cont| - 1].r && ConnsOpened(path[|path| - 1], cont[|cont| - 1].s.attempts)
    ensures IsContinuation(t, cont') && cont'[0] == cont[0]
    ensures cont'[|cont'| - 1] == cont[|cont| - 1].(r := path[k])
  {
    if k == 0 {
      cont' := cont;
    } else {
      cont' := Lift(t, cont, path, k - 1);
      var step := LiftStep(t, cont'[|cont'| - 1], path, k - 1);
      cont' := Extend(t, cont', cont[|cont| - 1].(r := path[k]), ReceiverStep(step));
    }
  }

  // ---- what a delivered transfer can still reach ----

  /** Every connection the sender ever opened has reached the receiver and been handled to its end. */
  ghost predicate Settled(p: PState) {
    F.AllReturned(p.r) && forall a: nat :: a < |p.s.attempts| ==> a in p.r.conns
  }

  /** Everything is delivered, nobody will send again, and the receiver cannot finish by itself. */
  ghost predicate Dormant(t: Transfer, p: PState)
    requires Valid(t)
  {
    Inv(t, p) && AllDone(p.s.chunks) && AllDone(p.disk) && Settled(p) && F.Stuck(t, p.r)
  }

  lemma {:induction false} SenderStaysDormant(t: Transfer, p: PState, p': PState, ss: S.Step)
    requires Valid(t) && Dormant(t, p) && NextStep(t, p, p', SenderStep(ss))
    ensures Dormant(t, p')
  {
    SenderKeepsInv(t, p, p', ss);
    SenderKeepsDone(t, p, p', ss);
    hide Inv, F.Stuck, S.NextStep;
    SenderAddsNothing(t, p, p', ss);
  }

  lemma {:induction false} SenderAddsNothing(t: Transfer, p: PState, p': PState, ss: S.Step)
    requires Valid(t) && NextStep(t, p, p', SenderStep(ss)) && AllDone(p.s.chunks) && AllDone(p.disk)
    requires DoneWithin(p.s.chunks, p'.s.chunks)
    ensures p'.r == p.r && p'.s.attempts == p.s.attempts && AllDone(p'.s.chunks) && AllDone(p'.disk)
  {
    NothingToPick(p.s, p'.s, ss);
    SenderFrame(t, p, p', ss);
    hide S.NextStep;
  }

  lemma {:induction false} NothingToPick(s: S.SState, s': S.SState, ss: S.Step)
    requires S.NextStep(s, s', ss) && AllDone(s.chunks)
    ensures s'.attempts == s.attempts
  {
  }

  lemma {:induction false} ReceiverStaysDormant(t: Transfer, p: PState, p': PState, rs: R.RStep)
    requires Valid(t) && Safe(t) && Dormant(t, p) && NextStep(t, p, p', ReceiverStep(rs))
    ensures Dormant(t, p')
  {
    ReceiverKeepsInv(t, p, p', rs);
    ReceiverStaysSettled(t, p, p', rs);
    hide Inv, F.Stuck;
  }

  lemma {:induction false} ReceiverStaysSettled(t: Transfer, p: PState, p': PState, rs: R.RStep)
    requires Valid(t) && R.Inv(t, p.r) && Settled(p) && F.Stuck(t, p.r) && NextStep(t, p, p', ReceiverStep(rs))
    ensures Settled(p') && F.Stuck(t, p'.r) && p'.s == p.s && p'.disk == p.disk
  {
    F.AcceptGrows(t, p.r, p'.r, rs);
    F.StuckStays(t, p.r, p'.r, rs);
    forall a: nat | a < |p'.s.attempts|
      ensures a in p'.r.conns
    {
      R.StepMonotone(t, p.r, p'.r, rs, a);
    }
  }

  lemma {:induction false} RestartStaysDormant(t: Transfer, p: PState, p': PState, explicit: bool, workers: nat)
    requires Valid(t) && Dormant(t, p) && NextStep(t, p, p', Restart(explicit, workers))
    ensures Dormant(t, p')
  {
    RestartKeepsInv(t, p, p', explicit, workers);
    RestartFindsDone(t, p, p', explicit, workers);
    hide Inv, F.Stuck;
  }

  lemma {:induction false} RestartFindsDone(t: Transfer, p: PState, p': PState, explicit: bool, workers: nat)
    requires Valid(t) && Inv(t, p) && AllDone(p.disk) && NextStep(t, p, p', Restart(explicit, workers))
    ensures p'.r == p.r && p'.s.attempts == p.s.attempts && AllDone(p'.s.chunks) && AllDone(p'.disk)
  {
    assert SavedOk(t.plan, p.disk);
    hide Inv;
    ReloadStarts(t, p.disk, explicit);
  }

  lemma {:induction false} StepStaysDormant(t: Transfer, p: PState, p': PState, step: PStep)
    requires Valid(t) && Safe(t) && Dormant(t, p) && NextStep(t, p, p', step)
    ensures Dormant(t, p')
  {
    match step
    case SenderStep(ss) => SenderStaysDormant(t, p, p', ss);
    case SaveManifest =>
    case ReceiverStep(rs) => ReceiverStaysDormant(t, p, p', rs);
    case Restart(explicit, workers) => RestartStaysDormant(t, p, p', explicit, workers);
  }

  lemma {:induction false} NextStaysDormant(t: Transfer, cont: seq<PState>, k: nat)
    requires Valid(t) && Safe(t) && IsContinuation(t, cont) && k + 1 < |cont|
    ensures Dormant(t, cont[k]) ==> Dormant(t, cont[k + 1])
  {
    if Dormant(t, cont[k]) {
      assert StepAt(t, cont, k);
      var step :| NextStep(t, cont[k], cont[k + 1], step);
      StepStaysDormant(t, cont[k], cont[k + 1], step);
    }
  }

  lemma {:induction false} StaysDormant(t: Transfer, cont: seq<PState>, k: nat)
    requires Valid(t) && Safe(t) && IsContinuation(t, cont) && Dormant(t, cont[0]) && k < |cont|
    ensures Dormant(t, cont[k])
  {
    hide Dormant;
    if k > 0 {
      StaysDormant(t, cont, k - 1);
      NextStaysDormant(t, cont, k - 1);
    }
  }

  /**
   * Finishing, exactly: when the sender has reported success and its connections are all
   * handled, the transfer can still reach done if and only if the receiver is done already
   * or has wake-ups enough. Nothing the sender can do later, resuming included, adds one.
   */
  lemma {:induction false} SuccessFinishesExactlyWhenAwake(t: Transfer, run: seq<PState>, k: nat)
    requires Valid(t) && Safe(t) && IsRun(t, run) && k < |run|
    requires run[k].s.outcome == S.Succeeded && Settled(run[k])
    ensures CanReachDone(t, run[k]) <==> run[k].r.status == R.MergeDone || F.WakeUp(t, run[k].r)
  {
    var p := run[k];
    SuccessIsDormantOrAwake(t, run, k);
    hide Dormant, F.WakeUp, Inv;
    if p.r.status == R.MergeDone {
      assert LeadsToDone(t, p, [p]);
    } else if F.WakeUp(t, p.r) {
      SuccessIsSaved(t, run, k);
      AwakeReachesDone(t, p);
    } else {
      DormantForGood(t, p);
    }
  }

  lemma {:induction false} DormantForGood(t: Transfer, p: PState)
    requires Valid(t) && Safe(t) && Dormant(t, p)
    ensures !CanReachDone(t, p)
  {
    hide Dormant;
    if CanReachDone(t, p) {
      var cont :| LeadsToDone(t, p, cont);
      StaysDormant(t, cont, |cont| - 1);
      DormantIsNotDone(t, cont[|cont| - 1]);
    }
  }

  lemma {:induction false} DormantIsNotDone(t: Transfer, p: PState)
    requires Valid(t) && Dormant(t, p)
    ensures p.r.status != R.MergeDone
  {
  }

  lemma {:induction false} SuccessIsDormantOrAwake(t: Transfer, run: seq<PState>, k: nat)
    requires Valid(t) && Safe(t) && IsRun(t, run) && k < |run|
    requires run[k].s.outcome == S.Succeeded && Settled(run[k])
    ensures Inv(t, run[k])
    ensures run[k].r.status == R.MergeDone || F.WakeUp(t, run[k].r) || Dormant(t, run[k])
  {
    RunKeepsInv(t, run, k);
  }

  lemma {:induction false} SuccessIsSaved(t: Transfer, run: seq<PState>, k: nat)
    requires Valid(t) && Safe(t) && IsRun(t, run) && k < |run| && run[k].s.outcome == S.Succeeded
    ensures R.AllSaved(t, run[k].r.saved)
  {
    SenderSuccessIsDelivery(t, run, k);
  }

  lemma {:induction false} AwakeReachesDone(t: Transfer, p: PState)
    requires Valid(t) && Inv(t, p) && R.AllSaved(t, p.r.saved)
    requires F.AllReturned(p.r) && F.WakeUp(t, p.r) && p.r.status != R.MergeDone
    ensures CanReachDone(t, p)
  {
    var path := F.WakeUpFinishes(t, p.r);
    SameConns(t, path, p.s.attempts);
    var cont := Lift(t, [p], path, |path| - 1);
    assert LeadsToDone(t, p, cont);
  }

  /** A path that accepts nothing new keeps the connections the sender's. */
  lemma {:induction false} SameConns(t: Transfer, path: seq<R.RState>, attempts: seq<nat>)
    requires Valid(t) && R.IsPath(t, path) && ConnsOpened(path[0], attempts)
    requires path[|path| - 1].conns.Keys == path[0].conns.Keys
    ensures ConnsOpened(path[|path| - 1], attempts)
  {
    forall a | a in path[|path| - 1].conns
      ensures path[|path| - 1].conns[a].idx == path[0].conns[a].idx
    {
      IdxStays(t, path, |path| - 1, a);
    }
  }

  lemma {:induction false} IdxStays(t: Transfer, path: seq<R.RState>, k: nat, a: nat)
    requires Valid(t) && R.IsPath(t, path) && k < |path| && a in path[0].conns
    ensures a in path[k].conns && path[k].conns[a].idx == path[0].conns[a].idx
  {
    if k > 0 {
      IdxStays(t, path, k - 1, a);
      assert R.StepAt(t, path, k - 1);
      var step :| R.NextStep(t, path[k - 1], path[k], step);
      R.StepMonotone(t, path[k - 1], path[k], step, a);
    }
  }

  // ---- no lost wake-up ----

  ghost predicate SmoothAt(t: Transfer, run: seq<PState>, k: nat)
    requires Valid(t) && k + 1 < |run|
  {
    exists step ::
      NextStep(t, run[k], run[k + 1], step) && (step.ReceiverStep? ==> F.Smooth(run[k].r, step.rstep))
  }

  /** A run in which the receiver never crashes, fails a finalization, or publishes a chunk without its ack. */
  ghost predicate IsSmooth(t: Transfer, run: seq<PState>)
    requires Valid(t)
  {
    forall k :: 0 <= k < |run| - 1 ==> SmoothAt(t, run, k)
  }

  lemma {:induction false} SmoothStaysAwake(t: Transfer, run: seq<PState>, k: nat)
    requires Valid(t) && Safe(t) && IsRun(t, run) && IsSmooth(t, run) && k < |run|
    ensures R.AllSaved(t, run[k].r.saved) ==> F.Awake(run[k].r)
  {
    if k == 0 {
      R.PlanNonempty(t);
      assert 0 !in run[0].r.saved;
    } else {
      SmoothStaysAwake(t, run, k - 1);
      ReceiverInv(t, run, k - 1);
      SmoothNext(t, run, k - 1);
    }
  }

  lemma {:induction false} ReceiverInv(t: Transfer, run: seq<PState>, k: nat)
    requires Valid(t) && Safe(t) && IsRun(t, run) && k < |run|
    ensures R.Inv(t, run[k].r)
  {
    RunKeepsInv(t, run, k);
    hide R.Inv;
  }

  lemma {:induction false} SmoothNext(t: Transfer, run: seq<PState>, k: nat)
    requires Valid(t) && IsSmooth(t, run) && k + 1 < |run| && R.Inv(t, run[k].r)
    requires R.AllSaved(t, run[k].r.saved) ==> F.Awake(run[k].r)
    ensures R.AllSaved(t, run[k + 1].r.saved) ==> F.Awake(run[k + 1].r)
  {
    assert SmoothAt(t, run, k);
    hide R.Inv, F.Awake, R.AllSaved;
    var step :| NextStep(t, run[k], run[k + 1], step) && (step.ReceiverStep? ==> F.Smooth(run[k].r, step.rstep));
    if step.ReceiverStep? {
      F.SmoothKeepsAwake(t, run[k].r, run[k + 1].r, step.rstep);
    }
  }

  /**
   * No lost wake-up: in every smooth run, when the last chunk is recorded and the handlers
   * are through, the session is done, or its timer is set, or a finalization is on its way.
   */
  lemma {:induction false} NoLostWakeUp(t: Transfer, run: seq<PState>, k: nat)
    requires Valid(t) && Safe(t) && IsRun(t, run) && IsSmooth(t, run) && k < |run|
    requires R.AllSaved(t, run[k].r.saved) && F.AllReturned(run[k].r)
    ensures var r := run[k].r;
      r.status == R.MergeDone || r.armed || r.fired > 0 || r.waiting > 0 || R.InFinalize(r.lock)
  {
    SmoothStaysAwake(t, run, k);
    ReceiverInv(t, run, k);
    F.AwakeAtEnd(t, run[k].r);
  }

  /** So a smooth run that the sender finished can be finished by the receiver. */
  lemma {:induction false} SmoothSuccessFinishes(t: Transfer, run: seq<PState>, k: nat)
    requires Valid(t) && Safe(t) && !t.glob.BadPattern? && IsRun(t, run) && IsSmooth(t, run) && k < |run|
    requires run[k].s.outcome == S.Succeeded && Settled(run[k])
    ensures CanReachDone(t, run[k])
  {
    SuccessIsSaved(t, run, k);
    NoLostWakeUp(t, run, k);
    SuccessFinishesExactlyWhenAwake(t, run, k);
  }

  /**
   * And must be: after a smooth run that the sender finished, every way the receiver can go
   * on without something going wrong comes to an end, and that end is done.
   */
  lemma {:induction false} SmoothSuccessEndsInDone(t: Transfer, run: seq<PState>, k: nat, path: seq<R.RState>)
    requires Valid(t) && Safe(t) && !t.glob.BadPattern? && IsRun(t, run) && IsSmooth(t, run) && k < |run|
    requires run[k].s.outcome == S.Succeeded && Settled(run[k])
    requires F.GoesOn(t, path) && path[0] == run[k].r
    ensures F.WorkSteps(t, path, |path| - 1) <= F.Remaining(t, path[0])
    ensures path[|path| - 1].status == R.MergeDone || F.CanWork(t, path[|path| - 1])
  {
    SuccessIsSaved(t, run, k);
    NoLostWakeUp(t, run, k);
    ReceiverInv(t, run, k);
    hide R.Inv, F.GoesOn, F.Remaining;
    F.EveryWayEndsInDone(t, path);
  }

  // ---- a run that delivers any file, chunk by chunk ----

  /** The receiver after the first k chunks came in once each, in order, acked and scheduled. */
  ghost predicate Delivered(t: Transfer, r: R.RState, k: nat)
    requires Valid(t)
  {
    && R.Inv(t, r) && r.lock == R.Free && t.name !in r.dir && R.Quiet(r.status)
    && r.fired == 0 && r.waiting == 0 && (r.armed <==> k > 0)
    && (forall i: nat :: i < k ==> i in r.saved)
    && (forall a: nat :: a in r.conns <==> a < k)
    && (forall a :: a in r.conns ==> r.conns[a] == R.Conn(a, R.Acked(true)))
    && (forall i: nat {:trigger ChunkPath(t.name, i)} :: ChunkPath(t.name, i) in r.dir ==> i < k)
  }

  lemma {:induction false} ReceiveOne(t: Transfer, path: seq<R.RState>, k: nat) returns (path': seq<R.RState>)
    requires Valid(t) && path != [] && R.IsPath(t, path) && k < |t.plan| && Delivered(t, path[|path| - 1], k)
    ensures path' != [] && R.IsPath(t, path') && path'[0] == path[0] && Delivered(t, path'[|path'| - 1], k + 1)
  {
    hide R.Inv, R.IsPath, ChunkPath, Slice;
    var r := path[|path| - 1];
    path' := Arrive(t, path, k);
    path' := PublishOne(t, path', k);
    path' := AckOne(t, path', k);
    AssembleDelivered(t, r, path'[|path'| - 1], k);
  }

  lemma {:induction false} AssembleDelivered(t: Transfer, r: R.RState, r': R.RState, k: nat)
    requires Valid(t) && k < |t.plan| && Delivered(t, r, k) && R.Inv(t, r')
    requires r' == r.(dir := r.dir[ChunkPath(t.name, k) := Slice(t, k)], saved := r.saved + {k},
                      conns := r.conns[k := R.Conn(k, R.Acked(true))], status := R.MergePending, armed := true)
    ensures Delivered(t, r', k + 1)
  {
    hide R.Inv;
    PathsApart(t.name, k);
    forall i: nat | ChunkPath(t.name, i) in r'.dir
      ensures i < k + 1
    {
      if ChunkPath(t.name, i) == ChunkPath(t.name, k) { ChunkPathInjective(t.name, i, k); }
    }
  }

  /** Chunk k comes in over connection k, up to the lock. */
  lemma {:induction false} Arrive(t: Transfer, path: seq<R.RState>, k: nat) returns (path': seq<R.RState>)
    requires Valid(t) && path != [] && R.IsPath(t, path) && k < |t.plan| && R.Inv(t, path[|path| - 1])
    requires var r := path[|path| - 1]; r.lock == R.Free && R.Quiet(r.status) && k !in r.conns
    ensures path' != [] && R.IsPath(t, path') && path'[0] == path[0] && R.Inv(t, path'[|path'| - 1])
    ensures var r, r' := path[|path| - 1], path'[|path'| - 1];
      r' == r.(conns := r.conns[k := R.Conn(k, R.HaveTemp(Slice(t, k)))], lock := R.PubCheck(k), status := r'.status)
      && R.Quiet(r'.status)
  {
    hide R.Inv, R.IsPath, ChunkPath;
    var r := path[|path| - 1];
    var r1 := r.(conns := r.conns[k := R.Conn(k, R.Arrived)],
      status := if r.status == R.NoStatus then R.MergePending else r.status);
    path' := F.Go(t, path, r1, R.Accept(k, k));
    var r2 := R.SetPhase(r1, k, R.HaveTemp(Slice(t, k)));
    path' := F.Go(t, path', r2, R.Receive(k, Slice(t, k)));
    path' := F.Go(t, path', r2.(lock := R.PubCheck(k)), R.LockForTemp(k));
  }

  lemma {:induction false} PublishOne(t: Transfer, path: seq<R.RState>, k: nat) returns (path': seq<R.RState>)
    requires Valid(t) && path != [] && R.IsPath(t, path) && k < |t.plan| && R.Inv(t, path[|path| - 1])
    requires var r := path[|path| - 1];
      && r.lock == R.PubCheck(k) && k in r.conns && r.conns[k] == R.Conn(k, R.HaveTemp(Slice(t, k)))
      && ChunkPath(t.name, k) !in r.dir
    ensures path' != [] && R.IsPath(t, path') && path'[0] == path[0] && R.Inv(t, path'[|path'| - 1])
    ensures var r, r' := path[|path| - 1], path'[|path'| - 1];
      r' == r.(dir := r.dir[ChunkPath(t.name, k) := Slice(t, k)], saved := r.saved + {k},
               conns := r.conns[k := R.Conn(k, R.Recorded(false))], status := R.MergePending, lock := R.Free)
  {
    hide R.Inv, R.IsPath, ChunkPath;
    path' := ReplaceOne(t, path, k);
    path' := RecordOne(t, path', k);
  }

  /** The file: nothing is there to match or remove, and the temporary is renamed into place. */
  lemma {:induction false} ReplaceOne(t: Transfer, path: seq<R.RState>, k: nat) returns (path': seq<R.RState>)
    requires Valid(t) && path != [] && R.IsPath(t, path) && k < |t.plan| && R.Inv(t, path[|path| - 1])
    requires var r := path[|path| - 1];
      && r.lock == R.PubCheck(k) && k in r.conns && r.conns[k] == R.Conn(k, R.HaveTemp(Slice(t, k)))
      && ChunkPath(t.name, k) !in r.dir
    ensures path' != [] && R.IsPath(t, path') && path'[0] == path[0] && R.Inv(t, path'[|path'| - 1])
    ensures var r, r' := path[|path| - 1], path'[|path'| - 1];
      r' == r.(dir := r.dir[ChunkPath(t.name, k) := Slice(t, k)], lock := R.PubSave(k))
  {
    hide R.Inv, R.IsPath, ChunkPath;
    var r := path[|path| - 1];
    assert r.dir - {ChunkPath(t.name, k)} == r.dir;
    var r1 := r.(lock := R.PubRename(k));
    path' := F.Go(t, path, r1, R.Check(k));
    var r2 := r1.(dir := r.dir[ChunkPath(t.name, k) := Slice(t, k)], lock := R.PubSave(k));
    path' := F.Go(t, path', r2, R.Rename(k));
  }

  /** The record. */
  lemma {:induction false} RecordOne(t: Transfer, path: seq<R.RState>, k: nat) returns (path': seq<R.RState>)
    requires Valid(t) && path != [] && R.IsPath(t, path) && k < |t.plan| && R.Inv(t, path[|path| - 1])
    requires var r := path[|path| - 1];
      r.lock == R.PubSave(k) && k in r.conns && r.conns[k] == R.Conn(k, R.HaveTemp(Slice(t, k)))
    ensures path' != [] && R.IsPath(t, path') && path'[0] == path[0] && R.Inv(t, path'[|path'| - 1])
    ensures var r, r' := path[|path| - 1], path'[|path'| - 1];
      r' == r.(saved := r.saved + {k}, conns := r.conns[k := R.Conn(k, R.Recorded(false))],
               status := R.MergePending, lock := R.Free)
  {
    hide R.Inv, R.IsPath, ChunkPath, Slice;
    var r := path[|path| - 1];
    var r1 := r.(saved := r.saved + {k}, lock := R.PubStatus(k));
    path' := F.Go(t, path, r1, R.Save(k));
    var r2 := R.SetPhase(r1, k, R.Recorded(false)).(status := R.MergePending, lock := R.Free);
    path' := F.Go(t, path', r2, R.SetPending(k));
  }

  /** The ack goes out and the finalization is scheduled. */
  lemma {:induction false} AckOne(t: Transfer, path: seq<R.RState>, k: nat) returns (path': seq<R.RState>)
    requires Valid(t) && path != [] && R.IsPath(t, path) && R.Inv(t, path[|path| - 1])
    requires var r := path[|path| - 1];
      k in r.conns && r.conns[k] == R.Conn(k, R.Recorded(false)) && r.status == R.MergePending
    ensures path' != [] && R.IsPath(t, path') && path'[0] == path[0] && R.Inv(t, path'[|path'| - 1])
    ensures var r, r' := path[|path| - 1], path'[|path'| - 1];
      r' == r.(conns := r.conns[k := R.Conn(k, R.Acked(true))], armed := true)
  {
    hide R.Inv, R.IsPath;
    var r := path[|path| - 1];
    var r1 := R.SetPhase(r, k, R.Acked(false));
    path' := F.Go(t, path, r1, R.SendAck(k));
    path' := F.Go(t, path', R.SetPhase(r1, k, R.Acked(true)).(status := R.MergePending, armed := true), R.Schedule(k));
  }

  /** A transfer under way: one worker, the first k chunks sent, acked and done. */
  ghost predicate Sent(t: Transfer, p: PState, k: nat)
    requires Valid(t)
  {
    && k <= |t.plan| && Delivered(t, p.r, k)
    && p.s.workers == [S.Idle] && p.s.outcome == S.Running && !p.s.canceled && !p.s.hard
    && |p.s.credits| == |p.s.chunks| && Geometry(p.s.chunks) == t.plan
    && (forall i :: 0 <= i < k ==> p.s.chunks[i].status.Done?)
    && (forall i :: k <= i < |t.plan| ==> p.s.chunks[i].status.Pending?)
    && |p.s.attempts| == k && forall a :: 0 <= a < k ==> p.s.attempts[a] == a
  }

  /** The worker takes chunk k and streams it. */
  lemma {:induction false} SendChunk(t: Transfer, run: seq<PState>, k: nat) returns (run': seq<PState>)
    requires Valid(t) && IsContinuation(t, run) && k < |t.plan| && Sent(t, run[|run| - 1], k)
    ensures IsContinuation(t, run') && run'[0] == run[0]
    ensures var p, p' := run[|run| - 1], run'[|run'| - 1];
      && p'.r == p.r && p'.disk == p.disk
      && p'.s.workers == [S.Holding(k, "wifi", k, p.s.chunks[k].size, false)]
      && p'.s.chunks == p.s.chunks[k := SendingOn(p.s.chunks[k], "wifi")]
      && p'.s.attempts == p.s.attempts + [k] && p'.s.credits == p.s.credits
      && p'.s.outcome == S.Running && !p'.s.canceled && !p'.s.hard
  {
    var p := run[|run| - 1];
    hide IsContinuation, Delivered;
    var s := p.s;
    assert Geometry(s.chunks)[k].size > 0;
    var s1 := s.(chunks := s.chunks[k := SendingOn(s.chunks[k], "wifi")],
                 inFlight := s.inFlight["wifi" := S.Count(s.inFlight, "wifi") + 1],
                 workers := s.workers[0 := S.Holding(k, "wifi", |s.attempts|, 0, false)],
                 attempts := s.attempts + [k],
                 picks := s.picks + 1);
    assert S.NextStep(s, s1, S.Pick(0, k, "wifi"));
    run' := Extend(t, run, p.(s := s1), SenderStep(S.Pick(0, k, "wifi")));
    var n := s.chunks[k].size;
    var s2 := s1.(workers := s1.workers[0 := S.Holding(k, "wifi", |s.attempts|, n, false)], wifi := s1.wifi + n);
    assert S.NextStep(s1, s2, S.Stream(0, n));
    run' := Extend(t, run', p.(s := s2), SenderStep(S.Stream(0, n)));
  }

  /** The ack says done. */
  lemma {:induction false} FinishChunk(t: Transfer, run: seq<PState>, k: nat) returns (run': seq<PState>)
    requires Valid(t) && IsContinuation(t, run) && k < |t.plan|
    requires var p := run[|run| - 1];
      && |p.s.chunks| == |p.s.credits| == |t.plan| && p.s.chunks[k].size >= 0
      && p.s.outcome == S.Running && !p.s.canceled && !p.s.hard
      && p.s.workers == [S.Holding(k, "wifi", k, p.s.chunks[k].size, false)]
      && k in p.r.conns && p.r.conns[k] == R.Conn(k, R.Acked(true))
    ensures IsContinuation(t, run') && run'[0] == run[0]
    ensures var p, p' := run[|run| - 1], run'[|run'| - 1];
      && p'.r == p.r && p'.disk == p.disk && p'.s.workers == [S.Idle]
      && p'.s.chunks == p.s.chunks[k := DoneWith(p.s.chunks[k], p.s.chunks[k].size, Slice(t, k))]
      && p'.s.attempts == p.s.attempts && |p'.s.credits| == |p.s.credits|
      && p'.s.outcome == S.Running && !p'.s.canceled && !p'.s.hard
  {
    var p := run[|run| - 1];
    hide IsContinuation;
    var s := p.s;
    var s' := s.(chunks := s.chunks[k := DoneWith(s.chunks[k], s.chunks[k].size, Slice(t, k))],
                 inFlight := S.Dec(s.inFlight, "wifi"),
                 workers := s.workers[0 := S.Idle],
                 credits := s.credits[k := S.Credit(S.WifiCounter, s.workers[0].counted)]);
    assert S.NextStep(s, s', S.Succeed(0, Slice(t, k)));
    run' := Extend(t, run, p.(s := s'), SenderStep(S.Succeed(0, Slice(t, k))));
  }

  lemma {:induction false} SendOne(t: Transfer, run: seq<PState>, k: nat) returns (run': seq<PState>)
    requires Valid(t) && IsContinuation(t, run) && k < |t.plan| && Sent(t, run[|run| - 1], k)
    ensures IsContinuation(t, run') && run'[0] == run[0] && Sent(t, run'[|run'| - 1], k + 1)
  {
    var p := run[|run| - 1];
    run' := SendChunk(t, run, k);
    var path := ReceiveOne(t, [p.r], k);
    SentFits(t, p, path[|path| - 1], k);
    hide Delivered, Sent;
    run' := Lift(t, run', path, |path| - 1);
    run' := FinishChunk(t, run', k);
    hide IsContinuation;
    AssembleSent(t, p, run'[|run'| - 1], k);
  }

  /** What the pieces of SendOne need of each other. */
  lemma {:induction false} SentFits(t: Transfer, p: PState, r: R.RState, k: nat)
    requires Valid(t) && Sent(t, p, k) && k < |t.plan| && Delivered(t, r, k + 1)
    ensures ConnsOpened(r, p.s.attempts + [k]) && k in r.conns && r.conns[k] == R.Conn(k, R.Acked(true))
    ensures |p.s.chunks| == |p.s.credits| == |t.plan| && p.s.chunks[k].size >= 0 && |p.s.attempts| == k
  {
    hide R.Inv;
    assert Geometry(p.s.chunks)[k].size > 0;
  }

  lemma {:induction false} AssembleSent(t: Transfer, p: PState, p': PState, k: nat)
    requires Valid(t) && Sent(t, p, k) && k < |t.plan| && Delivered(t, p'.r, k + 1)
    requires p'.s.workers == [S.Idle] && p'.s.attempts == p.s.attempts + [k] && |p'.s.credits| == |p.s.credits|
    requires p'.s.outcome == S.Running && !p'.s.canceled && !p'.s.hard && k < |p.s.chunks|
    requires |p'.s.chunks| == |p.s.chunks| && p'.s.chunks[k].status.Done?
    requires p'.s.chunks[k].Extent() == p.s.chunks[k].Extent()
    requires forall i :: 0 <= i < |p.s.chunks| && i != k ==> p'.s.chunks[i] == p.s.chunks[i]
    ensures Sent(t, p', k + 1)
  {
    hide Delivered;
    assert Geometry(p'.s.chunks) == Geometry(p.s.chunks);
  }

  lemma {:induction false} SendAll(t: Transfer, k: nat) returns (run: seq<PState>)
    requires Valid(t) && k <= |t.plan|
    ensures IsContinuation(t, run) && Init(t, run[0]) && Sent(t, run[|run| - 1], k)
  {
    if k == 0 {
      var cs := Fresh(t.plan);
      run := [PState(S.NewRun(cs, 1, []), cs, R.RState(map[], {}, R.NoStatus, R.Free, 0, map[], false, 0))];
      R.InitInv(t, run[0].r);
      hide R.Inv;
      assert run[0].s.workers == [S.Idle];
      assert Geometry(cs) == t.plan;
      assert Delivered(t, run[0].r, 0);
    } else {
      run := SendAll(t, k - 1);
      run := SendOne(t, run, k - 1);
    }
  }

  /** A transfer sent to the end: the sender has reported success, the receiver's timer is set. */
  ghost predicate AllSent(t: Transfer, p: PState)
    requires Valid(t)
  {
    && Delivered(t, p.r, |t.plan|) && p.s.outcome == S.Succeeded
    && |p.s.attempts| == |t.plan| && (forall a :: 0 <= a < |p.s.attempts| ==> p.s.attempts[a] == a)
  }

  /** Every file can be delivered by a run in which nothing goes wrong. */
  lemma {:induction false} DeliverEverything(t: Transfer) returns (run: seq<PState>)
    requires Valid(t)
    ensures IsContinuation(t, run) && Init(t, run[0]) && AllSent(t, run[|run| - 1])
  {
    run := SendAll(t, |t.plan|);
    var p := run[|run| - 1];
    hide IsContinuation, Delivered;
    var s1 := p.s.(workers := p.s.workers[0 := S.Exited]);
    assert S.NextStep(p.s, s1, S.Exit(0));
    run := Extend(t, run, p.(s := s1), SenderStep(S.Exit(0)));
    var s2 := s1.(outcome := S.Succeeded);
    assert S.NextStep(s1, s2, S.Join);
    run := Extend(t, run, p.(s := s2, disk := s2.chunks), SenderStep(S.Join));
  }

  // ---- the wake-up lost ----

  /**
   * A receiver that dies after the last ack, before its timer fires: the sender has reported
   * success, every chunk is recorded and its file there, and nothing is left to merge them.
   */
  lemma {:induction false} CrashAfterLastAck(t: Transfer) returns (run: seq<PState>)
    requires Valid(t)
    ensures IsRun(t, run)
    ensures var p := run[|run| - 1];
      && p.s.outcome == S.Succeeded && Settled(p)
      && R.AllSaved(t, p.r.saved) && p.r.status != R.MergeDone && !F.WakeUp(t, p.r)
  {
    run := DeliverEverything(t);
    var p := run[|run| - 1];
    hide IsContinuation;
    var r := R.AfterReceiverCrash(p.r);
    assert R.NextStep(t, p.r, r, R.Crash);
    run := Extend(t, run, p.(r := r), ReceiverStep(R.Crash));
    RunFromInit(t, run);
  }

  /** From there no continuation of the transfer reaches done: not by restarts, nor by resuming the sender. */
  lemma {:induction false} DeliveredAndLost(t: Transfer) returns (run: seq<PState>)
    requires Valid(t) && Safe(t)
    ensures IsRun(t, run) && run[|run| - 1].s.outcome == S.Succeeded
    ensures var dir := run[|run| - 1].r.dir;
      forall i: nat {:trigger ChunkPath(t.name, i)} :: i < |t.plan| ==> ChunkPath(t.name, i) in dir || R.Whole(t, dir)
    ensures !CanReachDone(t, run[|run| - 1])
  {
    run := CrashAfterLastAck(t);
    SenderSuccessIsDelivery(t, run, |run| - 1);
    assert forall i: nat {:trigger ChunkPath(t.name, i)} :: i < |t.plan| ==> R.Kept(t, run[|run| - 1].r.dir, i);
    SuccessFinishesExactlyWhenAwake(t, run, |run| - 1);
  }

  // ---- the file taken by its own cleanup ----

  lemma {:induction false} SavedAll(t: Transfer, r: R.RState)
    requires Valid(t) && Delivered(t, r, |t.plan|)
    ensures R.Inv(t, r) && R.AllSaved(t, r.saved) && !R.Whole(t, r.dir) && r.lock == R.Free && r.armed
    ensures r.status != R.MergeDone
  {
    R.PlanNonempty(t);
  }

  /** The receiver's timer fires on a delivered session, and every file operation succeeds. */
  lemma {:induction false} TimerMerges(t: Transfer, path: seq<R.RState>) returns (path': seq<R.RState>)
    requires Valid(t) && path != [] && R.IsPath(t, path) && Delivered(t, path[|path| - 1], |t.plan|)
    requires !t.glob.BadPattern?
    ensures path' != [] && R.IsPath(t, path') && path'[0] == path[0]
    ensures var r, r' := path[|path| - 1], path'[|path'| - 1];
      r'.status == R.MergeDone && r'.conns == r.conns && (!Safe(t) ==> t.name !in r'.dir)
  {
    SavedAll(t, path[|path| - 1]);
    hide R.Inv, R.IsPath;
    path' := F.ToStat(t, path);
    path' := F.FromStat(t, path');
    path' := F.MidToClean(t, path');
    path' := F.CleanupReachesDone(t, path');
  }

  /**
   * For a name the cleanup glob matches there is a run, every chunk acknowledged, the merge
   * started by its timer and no operation failing, that ends in done with the file gone.
   */
  lemma {:induction false} UnsafeNameLosesFile(t: Transfer) returns (run: seq<PState>)
    requires Valid(t) && !Safe(t)
    ensures IsRun(t, run) && run[|run| - 1].s.outcome == S.Succeeded
    ensures run[|run| - 1].r.status == R.MergeDone && t.name !in run[|run| - 1].r.dir
  {
    run := DeliverEverything(t);
    var path := TimerMerges(t, [run[|run| - 1].r]);
    run := Lift(t, run, path, |path| - 1);
    RunFromInit(t, run);
  }

  /** In every run of the whole protocol, done means the final file is the source. */
  ghost predicate DoneIsTrue(t: Transfer)
    requires Valid(t)
  {
    forall run: seq<PState>, k: nat {:trigger IsRun(t, run), run[k]} ::
      IsRun(t, run) && k < |run| && run[k].r.status == R.MergeDone ==> R.Whole(t, run[k].r.dir)
  }

  /**
   * End-to-end safety holds for exactly the transfers whose final file the cleanup glob
   * does not match.
   */
  lemma {:induction false} DoneIsTrueExactlyWhenSafe(t: Transfer)
    requires Valid(t)
    ensures DoneIsTrue(t) <==> Safe(t)
  {
    if Safe(t) {
      forall run: seq<PState>, k: nat | IsRun(t, run) && k < |run| && run[k].r.status == R.MergeDone
        ensures R.Whole(t, run[k].r.dir)
      {
        DoneMeansSource(t, run, k, k);
      }
    } else {
      var run := UnsafeNameLosesFile(t);
      assert run[|run| - 1].r.status == R.MergeDone;
    }
  }

  /**
   * The condition as one can check it: no file of a session whose directory path has an
   * opening bracket is lost, and elsewhere the name decides. The path is the output
   * directory and the session's name; Windows names have no star.
   */
  lemma {:induction false} DoneIsTrueByPath(t: Transfer, outDir: string, id: string)
    requires Valid(t) && Wire.ValidId(id) && '*' !in outDir && '*' !in t.name
    requires t.glob == GlobPattern.ReachOf(outDir + "\\" + SessionNames.SessionName(t.name, id))
    ensures DoneIsTrue(t) <==>
      || '[' in outDir || '[' in t.name
      || (forall a: string, b: string :: t.name != a + ".chunk" + b)
      || (exists a: string :: t.name == a + ".tmp")
  {
    SessionNames.FilterKeeps(id);
    var path := outDir + "\\" + SessionNames.SessionName(t.name, id);
    assert path == outDir + "\\" + t.name + "_" + id;
    assert '[' !in id && '*' !in id;
    assert '*' !in path && ('[' in path <==> '[' in outDir || '[' in t.name);
    GlobPattern.FindsExactlyWithoutBracket(path);
    SweptByName(t.name);
    DoneIsTrueExactlyWhenSafe(t);
  }

  // ---- the same for the receiver alone, whatever its senders do ----

  lemma {:induction false} ReceiveAll(t: Transfer, k: nat) returns (path: seq<R.RState>)
    requires Valid(t) && k <= |t.plan|
    ensures path != [] && R.IsPath(t, path) && R.Init(path[0]) && Delivered(t, path[|path| - 1], k)
  {
    if k == 0 {
      path := [R.RState(map[], {}, R.NoStatus, R.Free, 0, map[], false, 0)];
      R.InitInv(t, path[0]);
      hide R.Inv;
      assert Delivered(t, path[0], 0);
    } else {
      path := ReceiveAll(t, k - 1);
      path := ReceiveOne(t, path, k - 1);
    }
  }

  /** On every path of the receiver, done means the final file is the source. */
  ghost predicate ReceiverDoneIsTrue(t: Transfer)
    requires Valid(t)
  {
    forall path: seq<R.RState>, k: nat {:trigger R.IsPath(t, path), path[k]} ::
      R.IsPath(t, path) && R.Init(path[0]) && k < |path| && path[k].status == R.MergeDone ==> R.Whole(t, path[k].dir)
  }

  lemma {:induction false} ReceiverDoneIsTrueExactlyWhenSafe(t: Transfer)
    requires Valid(t)
    ensures ReceiverDoneIsTrue(t) <==> Safe(t)
  {
    if Safe(t) {
      forall path: seq<R.RState>, k: nat |
        R.IsPath(t, path) && R.Init(path[0]) && k < |path| && path[k].status == R.MergeDone
        ensures R.Whole(t, path[k].dir)
      {
        R.InitInv(t, path[0]);
        R.PathKeepsInv(t, path, k);
      }
    } else {
      var path := ReceiveAll(t, |t.plan|);
      path := TimerMerges(t, path);
      assert path[|path| - 1].status == R.MergeDone;
    }
  }
}
