/**
 * The receiver's side of one transfer as a state machine. A connection handler is a small
 * program; publishing and finalizing run under one lock, and every durable file operation
 * inside it is a step of its own, so a crash can fall between any two of them.
 */
module ReceiverMachine {
  import opened Plan
  import opened SessionFiles

  datatype MergeStatus = NoStatus | MergePending | MergeRunning | MergeDone | MergeFailed

  datatype Phase =
    | Arrived
    | Matched               // the chunk file was seen to match, outside the lock
    | HaveTemp(data: Bytes) // payload received and its digest checked
    | Recorded(existing: bool) // chunk file and manifest are on disk; existing when the file already was
    | Acked(returned: bool) // the "done" ack is on the wire, and the handler may have returned
    | AckLost               // the ack for an existing chunk could not be written; the handler goes on
    | Closed

  datatype Conn = Conn(idx: nat, phase: Phase)

  datatype Lock =
    | Free
    | PubCheck(a: nat) | PubRename(a: nat) | PubSave(a: nat) | PubStatus(a: nat)
    | FinLoad | FinStat | FinMerge | FinRename | FinSize | FinClean

  datatype RState = RState(
    dir: Dir,
    saved: set<nat>,        // chunks recorded done in the receiver's manifest file
    status: MergeStatus,
    lock: Lock,
    waiting: nat,           // finalizers that set "running" and wait for the lock
    conns: map<nat, Conn>,
    armed: bool,            // the finalize timer is set
    fired: nat)             // timer callbacks that have started and not yet looked at the status

  datatype RStep =
    | Accept(a: nat, i: nat)
    | Match(a: nat)
    | Receive(a: nat, data: Bytes)
    | Drop(a: nat)
    | LockForTemp(a: nat)
    | LockForMatched(a: nat)
    | Check(a: nat)
    | Rename(a: nat)
    | Save(a: nat)
    | SetPending(a: nat)
    | PublishError(a: nat)
    | SendAck(a: nat)
    | AckFails(a: nat)
    | Schedule(a: nat)
    | TimerFires
    | FinalizeStart
    | FinalizeLock
    | Load
    | StatFinal
    | WriteTmp(data: Bytes)
    | Merge
    | RenameFinal
    | CheckSize
    | Sweep(path: string)
    | Cleaned
    | FinalizeError(removeTmp: bool)
    | Crash

  ghost predicate At(r: RState, a: nat, t: Transfer) { a in r.conns && r.conns[a].idx < |t.plan| }

  function SetPhase(r: RState, a: nat, phase: Phase): RState
    requires a in r.conns
  {
    r.(conns := r.conns[a := r.conns[a].(phase := phase)])
  }

  function Target(t: Transfer, r: RState, a: nat): string
    requires a in r.conns
  {
    ChunkPath(t.name, r.conns[a].idx)
  }

  function Quiet(status: MergeStatus): bool { status != MergeRunning && status != MergeDone }

  /** The handler has not recorded its chunk. */
  predicate Receiving(phase: Phase) { phase.Arrived? || phase.Matched? || phase.HaveTemp? }

  /** The handler is past its ack and has yet to schedule the finalization. */
  predicate DueToSchedule(phase: Phase) { phase.AckLost? || (phase.Acked? && !phase.returned) }

  /** A restarted receiver knows the directory and nothing else; acks already sent stay sent. */
  function AfterReceiverCrash(r: RState): RState {
    r.(status := NoStatus, lock := Free, waiting := 0, armed := false, fired := 0,
       conns := map a | a in r.conns :: r.conns[a].(phase := if r.conns[a].phase.Acked? then Acked(true) else Closed))
  }

  // ---- handler steps ----

  ghost predicate HandlerStep(t: Transfer, r: RState, r': RState, step: RStep)
    requires Valid(t)
  {
    match step
    case Accept(a, i) =>
      && a !in r.conns && i < |t.plan|
      && r' == r.(conns := r.conns[a := Conn(i, Arrived)],
                  status := if r.status == NoStatus then MergePending else r.status)
    case Match(a) =>
      && At(r, a, t) && r.conns[a].phase.Arrived? && ChunkMatches(t, r.dir, r.conns[a].idx)
      && r' == SetPhase(r, a, Matched)
    case Receive(a, data) =>
      && At(r, a, t) && r.conns[a].phase.Arrived?
      && |data| == t.plan[r.conns[a].idx].size && data == Slice(t, r.conns[a].idx)
      && r' == SetPhase(r, a, HaveTemp(data))
    case Drop(a) =>
      && a in r.conns && Receiving(r.conns[a].phase)
      && !(r.lock in {PubCheck(a), PubRename(a), PubSave(a), PubStatus(a)})
      && r' == SetPhase(r, a, Closed)
    case LockForTemp(a) =>
      && At(r, a, t) && r.conns[a].phase.HaveTemp? && r.lock == Free
      && r' == r.(lock := PubCheck(a))
    case LockForMatched(a) =>
      && At(r, a, t) && r.conns[a].phase.Matched? && r.lock == Free
      && r' == r.(lock := PubSave(a))
    case SendAck(a) =>
      && a in r.conns && r.conns[a].phase.Recorded?
      && r' == SetPhase(r, a, Acked(false))
    case AckFails(a) =>
      && a in r.conns && r.conns[a].phase.Recorded?
      && r' == SetPhase(r, a, if r.conns[a].phase.existing then AckLost else Closed)
    case Schedule(a) =>
      && a in r.conns && DueToSchedule(r.conns[a].phase)
      && var r1 := SetPhase(r, a, if r.conns[a].phase.Acked? then Acked(true) else Closed);
         r' == if Quiet(r.status) then r1.(status := MergePending, armed := true) else r1
    case TimerFires =>
      && r.armed
      && r' == r.(armed := false, fired := r.fired + 1)
    case FinalizeStart =>
      && r.fired > 0
      && var r1 := r.(fired := r.fired - 1);
         r' == if Quiet(r.status) then r1.(status := MergeRunning, waiting := r.waiting + 1) else r1
    case Crash => r' == AfterReceiverCrash(r)
    case _ => false
  }

  // ---- publishing, under the lock ----

  ghost predicate PublishStep(t: Transfer, r: RState, r': RState, step: RStep)
    requires Valid(t)
  {
    match step
    case Check(a) =>
      && At(r, a, t) && r.lock == PubCheck(a)
      && r' == if ChunkMatches(t, r.dir, r.conns[a].idx)
               then r.(lock := PubSave(a))
               else r.(dir := r.dir - {Target(t, r, a)}, lock := PubRename(a))
    case Rename(a) =>
      && At(r, a, t) && r.lock == PubRename(a) && r.conns[a].phase.HaveTemp?
      && r' == r.(dir := r.dir[Target(t, r, a) := r.conns[a].phase.data], lock := PubSave(a))
    case Save(a) =>
      && At(r, a, t) && r.lock == PubSave(a)
      && r' == r.(saved := r.saved + {r.conns[a].idx}, lock := PubStatus(a))
    case SetPending(a) =>
      && At(r, a, t) && r.lock == PubStatus(a)
      && r' == SetPhase(r, a, Recorded(r.conns[a].phase.Matched?)).(status := MergePending, lock := Free)
    case PublishError(a) =>
      && At(r, a, t) && r.lock in {PubCheck(a), PubRename(a), PubSave(a)}
      && r' == SetPhase(r, a, Closed).(lock := Free)
    case _ => false
  }

  // ---- finalizing, under the lock ----

  function FailFinalize(r: RState): RState { r.(status := MergeFailed, lock := Free) }

  function FinishFinalize(r: RState): RState { r.(status := MergeDone, lock := Free) }

  predicate InFinalize(lock: Lock) { lock in {FinLoad, FinStat, FinMerge, FinRename, FinSize, FinClean} }

  ghost predicate FinalizeStep(t: Transfer, r: RState, r': RState, step: RStep)
    requires Valid(t)
  {
    match step
    case FinalizeLock =>
      && r.waiting > 0 && r.lock == Free
      && r' == r.(lock := FinLoad, waiting := r.waiting - 1)
    case Load =>
      && r.lock == FinLoad
      && r' == if r.saved == {} then FailFinalize(r) else r.(lock := FinStat)
    case StatFinal =>
      && r.lock == FinStat
      && r' == if t.name !in r.dir then r.(lock := FinMerge)
               else if |r.dir[t.name]| == |t.source| then FinishFinalize(r)
               else r.(dir := r.dir - {t.name}, lock := FinMerge)
    case WriteTmp(data) =>
      && r.lock == FinMerge
      && r' == r.(dir := r.dir[TmpPath(t.name) := data])
    case Merge =>
      && r.lock == FinMerge
      && var m := Merged(t.name, t.plan, r.dir, r.saved, |t.plan|);
         r' == if m.Some? then r.(dir := r.dir[TmpPath(t.name) := m.value], lock := FinRename)
               else FailFinalize(r.(dir := r.dir - {TmpPath(t.name)}))
    case RenameFinal =>
      && r.lock == FinRename && TmpPath(t.name) in r.dir
      && r' == r.(dir := (r.dir - {TmpPath(t.name)})[t.name := r.dir[TmpPath(t.name)]], lock := FinSize)
    case CheckSize =>
      && r.lock == FinSize
      && r' == if t.name in r.dir && |r.dir[t.name]| == |t.source| then r.(lock := FinClean) else FailFinalize(r)
    case Sweep(path) =>
      && r.lock == FinClean && t.glob.Finds? && path in r.dir && Swept(path)
      && r' == r.(dir := r.dir - {path})
    case Cleaned =>
      && r.lock == FinClean && !t.glob.BadPattern? && (t.glob.Finds? ==> r.dir == AfterSweep(r.dir))
      && r' == FinishFinalize(r)
    case FinalizeError(removeTmp) =>
      && InFinalize(r.lock)
      && r' == FailFinalize(if removeTmp then r.(dir := r.dir - {TmpPath(t.name)}) else r)
    case _ => false
  }

  ghost predicate NextStep(t: Transfer, r: RState, r': RState, step: RStep)
    requires Valid(t)
  {
    HandlerStep(t, r, r', step) || PublishStep(t, r, r', step) || FinalizeStep(t, r, r', step)
  }

  ghost predicate Next(t: Transfer, r: RState, r': RState)
    requires Valid(t)
  {
    exists step :: NextStep(t, r, r', step)
  }

  ghost predicate Init(r: RState) {
    r == RState(map[], {}, NoStatus, Free, 0, map[], false, 0)
  }

  // ---- invariant ----

  /** The final file is there and is the source, byte for byte. */
  ghost predicate Whole(t: Transfer, dir: Dir) { t.name in dir && dir[t.name] == t.source }

  /** Chunk i is safe with the receiver: its file is there, or the merged file is. */
  ghost predicate Kept(t: Transfer, dir: Dir, i: nat) { ChunkPath(t.name, i) in dir || Whole(t, dir) }

  /** A file that is either too short or the source. */
  ghost predicate RightIfFull(t: Transfer, data: Bytes) { |data| == |t.source| ==> data == t.source }

  ghost predicate ConnOk(t: Transfer, r: RState, a: nat)
    requires Valid(t) && a in r.conns
  {
    var c := r.conns[a];
    && c.idx < |t.plan|
    && (c.phase.HaveTemp? ==> c.phase.data == Slice(t, c.idx))
    && (c.phase.Matched? ==> Kept(t, r.dir, c.idx))
    && (c.phase.Recorded? || c.phase.Acked? || c.phase.AckLost? ==> c.idx in r.saved)
  }

  predicate Publishes(phase: Phase) { phase.Matched? || phase.HaveTemp? }

  /** Every chunk of the plan is recorded. */
  ghost predicate AllSaved(t: Transfer, saved: set<nat>) { forall i: nat :: i < |t.plan| ==> i in saved }

  /** A running merge is somewhere on its way. */
  ghost predicate RunningOk(r: RState) { r.status == MergeRunning ==> r.waiting > 0 || InFinalize(r.lock) }

  ghost predicate LockOk(t: Transfer, r: RState)
    requires Valid(t)
  {
    match r.lock
    case PubCheck(a) => a in r.conns && r.conns[a].phase.HaveTemp?
    case PubRename(a) => a in r.conns && r.conns[a].phase.HaveTemp?
    case PubSave(a) => a in r.conns && Publishes(r.conns[a].phase) && Kept(t, r.dir, r.conns[a].idx)
    case PubStatus(a) => a in r.conns && Publishes(r.conns[a].phase) && r.conns[a].idx in r.saved
    case FinMerge => t.name !in r.dir
    case FinRename =>
      && t.name !in r.dir && TmpPath(t.name) in r.dir && RightIfFull(t, r.dir[TmpPath(t.name)])
      && (AllSaved(t, r.saved) ==> r.dir[TmpPath(t.name)] == t.source)
    case FinSize => AllSaved(t, r.saved) ==> Whole(t, r.dir)
    case FinClean => Whole(t, r.dir)
    case _ => true
  }

  ghost predicate Inv(t: Transfer, r: RState)
    requires Valid(t)
  {
    && ChunksRight(t, r.dir)
    && (t.name in r.dir ==> RightIfFull(t, r.dir[t.name]))
    && (forall i :: i in r.saved ==> i < |t.plan| && Kept(t, r.dir, i))
    && (forall a :: a in r.conns ==> ConnOk(t, r, a))
    && LockOk(t, r) && RunningOk(r)
    && (r.status == MergeDone ==> Whole(t, r.dir))
  }

  /** The part of the invariant that only looks at the directory. */
  ghost predicate FilesRight(t: Transfer, dir: Dir)
    requires Valid(t)
  {
    ChunksRight(t, dir) && (t.name in dir ==> RightIfFull(t, dir[t.name]))
  }

  /** dir' has lost nothing a chunk could be safe by. */
  ghost predicate KeepsAll(t: Transfer, dir: Dir, dir': Dir) {
    && (Whole(t, dir) ==> Whole(t, dir'))
    && forall i: nat {:trigger ChunkPath(t.name, i)} :: i < |t.plan| && ChunkPath(t.name, i) in dir ==> Kept(t, dir', i)
  }

  lemma {:induction false} KeptStays(t: Transfer, dir: Dir, dir': Dir, i: nat)
    requires KeepsAll(t, dir, dir') && Kept(t, dir, i) && i < |t.plan|
    ensures Kept(t, dir', i)
  {
    if !Whole(t, dir) {
      assert ChunkPath(t.name, i) in dir;
    }
  }

  lemma {:induction false} PutChunk(t: Transfer, dir: Dir, i: nat)
    requires Valid(t) && FilesRight(t, dir) && i < |t.plan|
    ensures var dir' := dir[ChunkPath(t.name, i) := Slice(t, i)];
      FilesRight(t, dir') && KeepsAll(t, dir, dir') && Kept(t, dir', i)
  {
    var dir' := dir[ChunkPath(t.name, i) := Slice(t, i)];
    PathsApart(t.name, i);
    forall j: nat | j < |t.plan| && ChunkPath(t.name, j) in dir'
      ensures dir'[ChunkPath(t.name, j)] == Slice(t, j)
    {
      if ChunkPath(t.name, j) == ChunkPath(t.name, i) { ChunkPathInjective(t.name, i, j); }
    }
  }

  /** A target removed because it did not match was not there at all. */
  lemma {:induction false} MismatchMeansAbsent(t: Transfer, dir: Dir, i: nat)
    requires Valid(t) && ChunksRight(t, dir) && i < |t.plan| && !ChunkMatches(t, dir, i)
    ensures ChunkPath(t.name, i) !in dir && dir - {ChunkPath(t.name, i)} == dir
  {
  }

  lemma {:induction false} PutTmp(t: Transfer, dir: Dir, data: Bytes)
    requires Valid(t) && FilesRight(t, dir)
    ensures var dir' := dir[TmpPath(t.name) := data];
      FilesRight(t, dir') && KeepsAll(t, dir, dir') && (t.name in dir' <==> t.name in dir)
      && (t.name in dir ==> dir'[t.name] == dir[t.name])
    ensures var dir' := dir - {TmpPath(t.name)};
      FilesRight(t, dir') && KeepsAll(t, dir, dir') && (t.name in dir' <==> t.name in dir)
      && (t.name in dir ==> dir'[t.name] == dir[t.name])
  {
    PathsApart(t.name, 0);
    forall j: nat
      ensures ChunkPath(t.name, j) != TmpPath(t.name)
    {
      PathsApart(t.name, j);
    }
  }

  /** A stale final file is removed only when it is not the source, so nothing safe is lost. */
  lemma {:induction false} DropStaleFinal(t: Transfer, dir: Dir)
    requires Valid(t) && FilesRight(t, dir) && t.name in dir && |dir[t.name]| != |t.source|
    ensures var dir' := dir - {t.name}; FilesRight(t, dir') && KeepsAll(t, dir, dir') && t.name !in dir'
  {
    forall j: nat
      ensures ChunkPath(t.name, j) != t.name
    {
      PathsApart(t.name, j);
    }
  }

  lemma {:induction false} PublishFinal(t: Transfer, dir: Dir)
    requires Valid(t) && FilesRight(t, dir) && t.name !in dir
    requires TmpPath(t.name) in dir && RightIfFull(t, dir[TmpPath(t.name)])
    ensures var dir' := (dir - {TmpPath(t.name)})[t.name := dir[TmpPath(t.name)]];
      FilesRight(t, dir') && KeepsAll(t, dir, dir')
  {
    forall j: nat
      ensures ChunkPath(t.name, j) != t.name && ChunkPath(t.name, j) != TmpPath(t.name)
    {
      PathsApart(t.name, j);
    }
  }

  lemma {:induction false} SweepOne(t: Transfer, dir: Dir, path: string)
    requires Valid(t) && FilesRight(t, dir) && Whole(t, dir) && SafeName(t.name) && Swept(path)
    ensures var dir' := dir - {path}; FilesRight(t, dir') && KeepsAll(t, dir, dir') && Whole(t, dir')
  {
  }

  /** Steps that leave the lock's and the connections' claims about the directory true. */
  lemma {:induction false} FrameInv(t: Transfer, r: RState, r': RState)
    requires Valid(t) && Inv(t, r)
    requires FilesRight(t, r'.dir) && KeepsAll(t, r.dir, r'.dir)
    requires r'.saved == r.saved && r'.conns == r.conns && LockOk(t, r') && RunningOk(r')
    requires r'.status == MergeDone ==> r.status == MergeDone || Whole(t, r'.dir)
    ensures Inv(t, r')
  {
    forall i | i in r'.saved
      ensures i < |t.plan| && Kept(t, r'.dir, i)
    {
      KeptStays(t, r.dir, r'.dir, i);
    }
    forall a | a in r'.conns
      ensures ConnOk(t, r', a)
    {
      assert ConnOk(t, r, a);
      if r.conns[a].phase.Matched? { KeptStays(t, r.dir, r'.dir, r.conns[a].idx); }
    }
  }

  /** Steps that change one connection and leave the files alone. */
  lemma {:induction false} ConnInv(t: Transfer, r: RState, r': RState, a: nat)
    requires Valid(t) && Inv(t, r)
    requires r'.dir == r.dir && r.saved <= r'.saved && a in r'.conns
    requires forall b :: b in r'.conns && b != a ==> b in r.conns && r'.conns[b] == r.conns[b]
    requires forall i :: i in r'.saved ==> i < |t.plan| && Kept(t, r'.dir, i)
    requires ConnOk(t, r', a) && LockOk(t, r') && RunningOk(r')
    requires r'.status == MergeDone ==> r.status == MergeDone
    ensures Inv(t, r')
  {
    forall b | b in r'.conns
      ensures ConnOk(t, r', b)
    {
      if b != a { assert ConnOk(t, r, b); }
    }
  }

  lemma {:induction false} CrashKeepsInv(t: Transfer, r: RState)
    requires Valid(t) && Inv(t, r)
    ensures Inv(t, AfterReceiverCrash(r))
  {
    var r' := AfterReceiverCrash(r);
    forall a | a in r'.conns
      ensures ConnOk(t, r', a)
    {
      assert ConnOk(t, r, a);
    }
  }

  lemma {:induction false} DropKeepsInv(t: Transfer, r: RState, r': RState, a: nat)
    requires Valid(t) && Inv(t, r) && HandlerStep(t, r, r', Drop(a))
    ensures Inv(t, r') && r'.dir == r.dir
  {
    assert ConnOk(t, r, a);
    ConnInv(t, r, r', a);
  }

  lemma {:induction false} AckKeepsInv(t: Transfer, r: RState, r': RState, step: RStep)
    requires Valid(t) && Inv(t, r) && HandlerStep(t, r, r', step) && (step.SendAck? || step.AckFails?)
    ensures Inv(t, r') && r'.dir == r.dir
  {
    assert ConnOk(t, r, step.a);
    ConnInv(t, r, r', step.a);
  }

  lemma {:induction false} ScheduleKeepsInv(t: Transfer, r: RState, r': RState, a: nat)
    requires Valid(t) && Inv(t, r) && HandlerStep(t, r, r', Schedule(a))
    ensures Inv(t, r') && r'.dir == r.dir
  {
    assert ConnOk(t, r, a);
    ConnInv(t, r, r', a);
  }

  lemma {:induction false} LockKeepsInv(t: Transfer, r: RState, r': RState, step: RStep)
    requires Valid(t) && Inv(t, r) && HandlerStep(t, r, r', step)
    requires step.LockForTemp? || step.LockForMatched?
    ensures Inv(t, r') && r'.dir == r.dir
  {
    assert ConnOk(t, r, step.a);
    FrameInv(t, r, r');
  }

  lemma {:induction false} ArrivalKeepsInv(t: Transfer, r: RState, r': RState, step: RStep)
    requires Valid(t) && Inv(t, r) && HandlerStep(t, r, r', step)
    requires step.Accept? || step.Match? || step.Receive?
    ensures Inv(t, r') && r'.dir == r.dir
  {
    ConnInv(t, r, r', step.a);
  }

  lemma {:induction false} HandlerKeepsInv(t: Transfer, r: RState, r': RState, step: RStep)
    requires Valid(t) && Inv(t, r) && HandlerStep(t, r, r', step)
    ensures Inv(t, r')
    ensures KeepsAll(t, r.dir, r'.dir)
  {
    match step
    case Crash => CrashKeepsInv(t, r);
    case Schedule(a) => ScheduleKeepsInv(t, r, r', a);
    case TimerFires => FrameInv(t, r, r');
    case FinalizeStart => FrameInv(t, r, r');
    case LockForTemp(a) => LockKeepsInv(t, r, r', step);
    case LockForMatched(a) => LockKeepsInv(t, r, r', step);
    case Drop(a) => DropKeepsInv(t, r, r', a);
    case SendAck(a) => AckKeepsInv(t, r, r', step);
    case AckFails(a) => AckKeepsInv(t, r, r', step);
    case Accept(a, i) => ArrivalKeepsInv(t, r, r', step);
    case Match(a) => ArrivalKeepsInv(t, r, r', step);
    case Receive(a, data) => ArrivalKeepsInv(t, r, r', step);
    case _ =>
  }

  lemma {:induction false} PublishKeepsInv(t: Transfer, r: RState, r': RState, step: RStep)
    requires Valid(t) && Inv(t, r) && PublishStep(t, r, r', step)
    ensures Inv(t, r')
    ensures KeepsAll(t, r.dir, r'.dir)
  {
    match step
    case Check(a) =>
      if !ChunkMatches(t, r.dir, r.conns[a].idx) {
        MismatchMeansAbsent(t, r.dir, r.conns[a].idx);
      }
      FrameInv(t, r, r');
    case Rename(a) =>
      assert ConnOk(t, r, a);
      PutChunk(t, r.dir, r.conns[a].idx);
      FrameInv(t, r, r');
    case Save(a) =>
      assert ConnOk(t, r, a);
      ConnInv(t, r, r', a);
    case SetPending(a) => ConnInv(t, r, r', a);
    case PublishError(a) => ConnInv(t, r, r', a);
    case _ =>
  }

  lemma {:induction false} StatKeepsInv(t: Transfer, r: RState, r': RState)
    requires Valid(t) && Inv(t, r) && FinalizeStep(t, r, r', StatFinal)
    ensures Inv(t, r') && KeepsAll(t, r.dir, r'.dir)
  {
    if t.name in r.dir && |r.dir[t.name]| != |t.source| {
      DropStaleFinal(t, r.dir);
    }
    FrameInv(t, r, r');
  }

  lemma {:induction false} MergeKeepsInv(t: Transfer, r: RState, r': RState)
    requires Valid(t) && Inv(t, r) && FinalizeStep(t, r, r', Merge)
    ensures Inv(t, r') && KeepsAll(t, r.dir, r'.dir)
  {
    var m := Merged(t.name, t.plan, r.dir, r.saved, |t.plan|);
    SizeCheckIsComplete(t, r.dir, r.saved);
    if AllSaved(t, r.saved) {
      assert r.dir - {t.name} == r.dir;
      MergeGivesSource(t, r, r.dir);
    }
    PutTmp(t, r.dir, if m.Some? then m.value else []);
    FrameInv(t, r, r');
  }

  lemma {:induction false} RenameKeepsInv(t: Transfer, r: RState, r': RState)
    requires Valid(t) && Inv(t, r) && FinalizeStep(t, r, r', RenameFinal)
    ensures Inv(t, r') && KeepsAll(t, r.dir, r'.dir)
  {
    PublishFinal(t, r.dir);
    FrameInv(t, r, r');
  }

  lemma {:induction false} FinalizeErrorKeepsInv(t: Transfer, r: RState, r': RState, removeTmp: bool)
    requires Valid(t) && Inv(t, r) && FinalizeStep(t, r, r', FinalizeError(removeTmp))
    ensures Inv(t, r') && KeepsAll(t, r.dir, r'.dir)
  {
    PutTmp(t, r.dir, []);
    FrameInv(t, r, r');
  }

  lemma {:induction false} FinalizeKeepsInv(t: Transfer, r: RState, r': RState, step: RStep)
    requires Valid(t) && Inv(t, r) && FinalizeStep(t, r, r', step) && (Safe(t) || !step.Sweep?)
    ensures Inv(t, r')
    ensures KeepsAll(t, r.dir, r'.dir)
  {
    match step
    case StatFinal => StatKeepsInv(t, r, r');
    case Merge => MergeKeepsInv(t, r, r');
    case RenameFinal => RenameKeepsInv(t, r, r');
    case FinalizeError(removeTmp) => FinalizeErrorKeepsInv(t, r, r', removeTmp);
    case WriteTmp(data) =>
      PutTmp(t, r.dir, data);
      FrameInv(t, r, r');
    case Sweep(path) =>
      SweepOne(t, r.dir, path);
      FrameInv(t, r, r');
    case FinalizeLock => FrameInv(t, r, r');
    case Load => FrameInv(t, r, r');
    case CheckSize => FrameInv(t, r, r');
    case Cleaned => FrameInv(t, r, r');
    case _ =>
  }

  lemma {:induction false} StepKeepsInv(t: Transfer, r: RState, r': RState, step: RStep)
    requires Valid(t) && Inv(t, r) && NextStep(t, r, r', step) && (Safe(t) || !step.Sweep?)
    ensures Inv(t, r')
    ensures KeepsAll(t, r.dir, r'.dir)
  {
    if HandlerStep(t, r, r', step) {
      HandlerKeepsInv(t, r, r', step);
    } else if PublishStep(t, r, r', step) {
      PublishKeepsInv(t, r, r', step);
    } else {
      FinalizeKeepsInv(t, r, r', step);
    }
  }

  lemma {:induction false} HandlerMonotone(t: Transfer, r: RState, r': RState, step: RStep, a: nat)
    requires Valid(t) && HandlerStep(t, r, r', step)
    ensures r.saved == r'.saved && (a in r.conns ==> a in r'.conns)
    ensures a in r'.conns ==>
      if a in r.conns then r'.conns[a].idx == r.conns[a].idx
      else step.Accept? && step.a == a && r'.conns[a].idx == step.i
  {
  }

  lemma {:induction false} PublishMonotone(t: Transfer, r: RState, r': RState, step: RStep, a: nat)
    requires Valid(t) && PublishStep(t, r, r', step)
    ensures r.saved <= r'.saved
    ensures a in r'.conns <==> a in r.conns
    ensures a in r'.conns ==> r'.conns[a].idx == r.conns[a].idx
  {
  }

  lemma {:induction false} FinalizeMonotone(t: Transfer, r: RState, r': RState, step: RStep)
    requires Valid(t) && FinalizeStep(t, r, r', step)
    ensures r.saved == r'.saved && r.conns == r'.conns
  {
  }

  /** The receiver's record of done chunks only grows, and a connection's chunk is fixed when it is accepted. */
  lemma {:induction false} StepMonotone(t: Transfer, r: RState, r': RState, step: RStep, a: nat)
    requires Valid(t) && NextStep(t, r, r', step)
    ensures r.saved <= r'.saved && (a in r.conns ==> a in r'.conns)
    ensures a in r'.conns ==>
      if a in r.conns then r'.conns[a].idx == r.conns[a].idx
      else step.Accept? && step.a == a && r'.conns[a].idx == step.i
  {
    if HandlerStep(t, r, r', step) {
      HandlerMonotone(t, r, r', step, a);
    } else if PublishStep(t, r, r', step) {
      PublishMonotone(t, r, r', step, a);
    } else {
      FinalizeMonotone(t, r, r', step);
    }
  }

  // ---- runs of the receiver alone ----

  ghost predicate StepAt(t: Transfer, run: seq<RState>, k: nat)
    requires Valid(t) && k + 1 < |run|
  {
    Next(t, run[k], run[k + 1])
  }

  /** A sequence of steps, from any state. */
  ghost predicate IsPath(t: Transfer, run: seq<RState>)
    requires Valid(t)
  {
    run != [] && forall k :: 0 <= k < |run| - 1 ==> StepAt(t, run, k)
  }

  lemma {:induction false} Extend(t: Transfer, run: seq<RState>, r: RState) returns (run': seq<RState>)
    requires Valid(t) && IsPath(t, run) && Next(t, run[|run| - 1], r)
    ensures IsPath(t, run') && run' == run + [r] && run'[|run'| - 1] == r && run'[0] == run[0]
  {
    run' := run + [r];
    forall k | 0 <= k < |run'| - 1
      ensures StepAt(t, run', k)
    {
      if k < |run| - 1 {
        assert StepAt(t, run, k);
      } else {
        assert run'[k] == run[k] && run'[k + 1] == r;
      }
    }
  }

  lemma {:induction false} ByHandler(t: Transfer, r: RState, r': RState, step: RStep)
    requires Valid(t) && HandlerStep(t, r, r', step)
    ensures Next(t, r, r')
  {
    assert NextStep(t, r, r', step);
  }

  lemma {:induction false} ByPublish(t: Transfer, r: RState, r': RState, step: RStep)
    requires Valid(t) && PublishStep(t, r, r', step)
    ensures Next(t, r, r')
  {
    assert NextStep(t, r, r', step);
  }

  lemma {:induction false} ByFinalize(t: Transfer, r: RState, r': RState, step: RStep)
    requires Valid(t) && FinalizeStep(t, r, r', step)
    ensures Next(t, r, r')
  {
    assert NextStep(t, r, r', step);
  }

  lemma {:induction false} NextKeepsInv(t: Transfer, run: seq<RState>, k: nat)
    requires Valid(t) && Safe(t) && IsPath(t, run) && k + 1 < |run|
    ensures Inv(t, run[k]) ==> Inv(t, run[k + 1])
  {
    if Inv(t, run[k]) {
      assert StepAt(t, run, k);
      var step :| NextStep(t, run[k], run[k + 1], step);
      StepKeepsInv(t, run[k], run[k + 1], step);
    }
  }

  lemma {:induction false} PathKeepsInv(t: Transfer, run: seq<RState>, k: nat)
    requires Valid(t) && Safe(t) && IsPath(t, run) && Inv(t, run[0]) && k < |run|
    ensures Inv(t, run[k])
  {
    if k > 0 {
      PathKeepsInv(t, run, k - 1);
      NextKeepsInv(t, run, k - 1);
    }
  }

  lemma {:induction false} InitInv(t: Transfer, r: RState)
    requires Valid(t) && Init(r)
    ensures Inv(t, r)
  {
  }

  /** With every chunk recorded and no full final file, the merge would give the source. */
  lemma {:induction false} MergeGivesSource(t: Transfer, r: RState, dir: Dir)
    requires Valid(t) && Inv(t, r) && AllSaved(t, r.saved) && !Whole(t, r.dir)
    requires dir == r.dir - {t.name}
    ensures Merged(t.name, t.plan, dir, r.saved, |t.plan|) == Some(t.source)
  {
    forall j: nat
      ensures ChunkPath(t.name, j) != t.name
    {
      PathsApart(t.name, j);
    }
    assert ChunksRight(t, dir);
    forall i: nat | i < |t.plan| && i in r.saved
      ensures ChunkPath(t.name, i) in dir
    {
      assert Kept(t, r.dir, i);
    }
    MergedSucceeds(t, dir, r.saved, |t.plan|);
    SizeCheckIsComplete(t, dir, r.saved);
  }

  /** The part of the invariant that holds whatever the cleanup takes. */
  ghost predicate ChunksSafe(t: Transfer, r: RState)
    requires Valid(t)
  {
    && ChunksRight(t, r.dir)
    && forall a :: a in r.conns && r.conns[a].phase.HaveTemp? ==>
         r.conns[a].idx < |t.plan| && r.conns[a].phase.data == Slice(t, r.conns[a].idx)
  }

  lemma {:induction false} OtherFilesKeepChunks(t: Transfer, dir: Dir, path: string, data: Bytes)
    requires Valid(t) && ChunksRight(t, dir) && path in {t.name, TmpPath(t.name)}
    ensures ChunksRight(t, dir[path := data])
  {
    forall j: nat
      ensures ChunkPath(t.name, j) != path
    {
      PathsApart(t.name, j);
    }
  }

  lemma {:induction false} StepKeepsChunks(t: Transfer, r: RState, r': RState, step: RStep)
    requires Valid(t) && ChunksSafe(t, r) && NextStep(t, r, r', step)
    ensures ChunksSafe(t, r')
  {
    if HandlerStep(t, r, r', step) {
      HandlerKeepsChunks(t, r, r', step);
    } else if PublishStep(t, r, r', step) {
      PublishKeepsChunks(t, r, r', step);
    } else {
      FinalizeKeepsChunks(t, r, r', step);
    }
  }

  lemma {:induction false} HandlerKeepsChunks(t: Transfer, r: RState, r': RState, step: RStep)
    requires Valid(t) && ChunksSafe(t, r) && HandlerStep(t, r, r', step)
    ensures ChunksSafe(t, r')
  {
    assert ChunksRight(t, r.dir);
    hide ChunksRight, ChunkPath;
  }

  lemma {:induction false} PublishKeepsChunks(t: Transfer, r: RState, r': RState, step: RStep)
    requires Valid(t) && ChunksSafe(t, r) && PublishStep(t, r, r', step)
    ensures ChunksSafe(t, r')
  {
    if step.Rename? {
      RenameKeepsChunks(t, r.dir, r.conns[step.a].idx);
    }
  }

  lemma {:induction false} RenameKeepsChunks(t: Transfer, dir: Dir, i: nat)
    requires Valid(t) && ChunksRight(t, dir) && i < |t.plan|
    ensures ChunksRight(t, dir[ChunkPath(t.name, i) := Slice(t, i)])
  {
    var dir' := dir[ChunkPath(t.name, i) := Slice(t, i)];
    forall j: nat | j < |t.plan| && ChunkPath(t.name, j) in dir'
      ensures dir'[ChunkPath(t.name, j)] == Slice(t, j)
    {
      if ChunkPath(t.name, j) == ChunkPath(t.name, i) { ChunkPathInjective(t.name, i, j); }
    }
  }

  lemma {:induction false} FinalizeKeepsChunks(t: Transfer, r: RState, r': RState, step: RStep)
    requires Valid(t) && ChunksSafe(t, r) && FinalizeStep(t, r, r', step)
    ensures ChunksSafe(t, r')
  {
    match step
    case WriteTmp(data) => OtherFilesKeepChunks(t, r.dir, TmpPath(t.name), data);
    case Merge =>
      var m := Merged(t.name, t.plan, r.dir, r.saved, |t.plan|);
      OtherFilesKeepChunks(t, r.dir, TmpPath(t.name), if m.Some? then m.value else []);
    case RenameFinal =>
      OtherFilesKeepChunks(t, r.dir - {TmpPath(t.name)}, t.name, r.dir[TmpPath(t.name)]);
    case _ =>
  }

  lemma {:induction false} FilesStayRight(t: Transfer, run: seq<RState>, k: nat)
    requires Valid(t) && IsPath(t, run) && Init(run[0]) && k < |run|
    ensures ChunksSafe(t, run[k])
  {
    if k > 0 {
      FilesStayRight(t, run, k - 1);
      assert StepAt(t, run, k - 1);
      hide ChunksSafe, HandlerStep, PublishStep, FinalizeStep, Init;
      var step :| NextStep(t, run[k - 1], run[k], step);
      StepKeepsChunks(t, run[k - 1], run[k], step);
    }
  }

  lemma {:induction false} PlanNonempty(t: Transfer)
    requires Valid(t)
    ensures |t.plan| > 0
  {
  }
}
