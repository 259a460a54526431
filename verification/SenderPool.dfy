/**
 * The sender's worker pool over one shared manifest, as a state machine. Each step is one
 * critical section of a worker (or one atomic counter update), so a run of the machine is
 * any interleaving of the workers.
 */
module SenderPool {
  import opened Plan
  import opened Sums
  import opened ManifestState

  const MAX_ATTEMPTS := 3

  datatype Worker =
    | Idle
    | Holding(idx: nat, channel: string, attempt: nat, counted: nat, failed: bool) // failed: the send returned an error
    | Exited

  datatype Outcome = Running | CanceledByUser | HardFailed | FlushFailed | Incomplete | Succeeded

  datatype Counter = CableCounter | WifiCounter | NoCounter

  function CounterOf(channel: string): Counter {
    if channel in {"cable", "loopback", "local"} then CableCounter
    else if channel == "wifi" then WifiCounter
    else NoCounter
  }

  /** What a chunk completed in this run has left on the live counters. */
  datatype Credit = Credit(counter: Counter, bytes: nat)

  datatype SState = SState(
    chunks: seq<ChunkState>,
    workers: seq<Worker>,
    inFlight: map<string, nat>,
    cable: int,
    wifi: int,
    canceled: bool,            // the job's context was canceled
    hard: bool,                // hardErr is set
    outcome: Outcome,
    // history of this run
    start: seq<ChunkState>,
    credits: seq<Credit>,
    picks: nat,
    attempts: seq<nat>)        // chunk index of every send attempt ever started

  predicate Retryable(c: ChunkState) {
    c.status.Pending? || (c.status.Failed? && c.attempts < MAX_ATTEMPTS)
  }

  function Count(m: map<string, nat>, k: string): nat { if k in m then m[k] else 0 }

  function Dec(m: map<string, nat>, k: string): map<string, nat> {
    if Count(m, k) > 0 then m[k := m[k] - 1] else m
  }

  function AddTo(s: SState, channel: string, n: int): SState {
    match CounterOf(channel)
    case CableCounter => s.(cable := s.cable + n)
    case WifiCounter => s.(wifi := s.wifi + n)
    case NoCounter => s
  }

  /** The chunk record after an attempt failed: back to pending while attempts are left. */
  function AfterFailure(c: ChunkState, err: string): ChunkState {
    var f := FailedWith(c, err);
    if f.attempts < MAX_ATTEMPTS then f.(status := Pending) else f
  }

  function NewRun(chunks: seq<ChunkState>, workers: nat, attempts: seq<nat>): SState {
    SState(chunks, seq(workers, _ => Idle), map[], 0, 0, false, false, Running,
           chunks, seq(|chunks|, _ => Credit(NoCounter, 0)), 0, attempts)
  }

  datatype Step =
    | Pick(w: nat, i: nat, channel: string)
    | Stream(w: nat, n: nat)
    | Rollback(w: nat)
    | Succeed(w: nat, digest: Digest)
    | Fail(w: nat, err: string)
    | HashFail(w: nat, err: string)
    | Exit(w: nat)
    | UserCancel
    | Join

  ghost predicate HasWorker(s: SState, w: nat) { w < |s.workers| && s.outcome == Running }

  ghost predicate IsHolding(s: SState, w: nat) {
    HasWorker(s, w) && s.workers[w].Holding? && s.workers[w].idx < |s.chunks|
  }

  function Finish(s: SState): Outcome {
    if s.canceled then CanceledByUser
    else if s.hard then HardFailed
    else if forall i :: 0 <= i < |s.chunks| ==> s.chunks[i].status.Done? then Succeeded
    else Incomplete
  }

  /** A worker takes a retryable chunk: MarkAndGetSending and the inFlight increment. */
  ghost predicate PickStep(s: SState, s': SState, w: nat, i: nat, ch: string) {
    && HasWorker(s, w) && s.workers[w].Idle?
    && i < |s.chunks| && Retryable(s.chunks[i])
    && s' == s.(chunks := s.chunks[i := SendingOn(s.chunks[i], ch)],
                inFlight := s.inFlight[ch := Count(s.inFlight, ch) + 1],
                workers := s.workers[w := Holding(i, ch, |s.attempts|, 0, false)],
                attempts := s.attempts + [i],
                picks := s.picks + 1)
  }

  /** progressReader.Read: n more bytes, on the counter of the channel if it has one. */
  ghost predicate StreamStep(s: SState, s': SState, w: nat, n: nat) {
    && IsHolding(s, w)
    && var h := s.workers[w];
       !h.failed && CounterOf(h.channel) != NoCounter && h.counted + n <= s.chunks[h.idx].size
       && s' == AddTo(s.(workers := s.workers[w := h.(counted := h.counted + n)]), h.channel, n)
  }

  /** sendChunkCtx returned nil: everything was written and the ack said done. */
  ghost predicate SucceedStep(s: SState, s': SState, w: nat, digest: Digest) {
    && IsHolding(s, w)
    && var h := s.workers[w];
       h.idx < |s.credits| && !h.failed
       && (CounterOf(h.channel) != NoCounter ==> h.counted == s.chunks[h.idx].size)
       && s' == s.(chunks := s.chunks[h.idx := DoneWith(s.chunks[h.idx], s.chunks[h.idx].size, digest)],
                   inFlight := Dec(s.inFlight, h.channel),
                   workers := s.workers[w := Idle],
                   credits := s.credits[h.idx := Credit(CounterOf(h.channel), h.counted)])
  }

  /** sendChunkCtx failed: on its way out, and outside the lock, it takes its bytes back. */
  ghost predicate RollbackStep(s: SState, s': SState, w: nat) {
    && IsHolding(s, w)
    && var h := s.workers[w];
       !h.failed
       && s' == AddTo(s.(workers := s.workers[w := h.(counted := 0, failed := true)]), h.channel, 0 - h.counted)
  }

  /** Later, under the lock, the chunk goes back, or ends the run. */
  ghost predicate FailStep(s: SState, s': SState, w: nat, err: string) {
    && IsHolding(s, w)
    && var h := s.workers[w];
       var c := AfterFailure(s.chunks[h.idx], err);
       h.failed
       && s' == s.(chunks := s.chunks[h.idx := c],
                   inFlight := Dec(s.inFlight, h.channel),
                   workers := s.workers[w := Idle],
                   hard := s.hard || c.status.Failed?)
  }

  /** The source could not be read for hashing: the run ends. */
  ghost predicate HashFailStep(s: SState, s': SState, w: nat, err: string) {
    && IsHolding(s, w) && s.workers[w].counted == 0 && !s.workers[w].failed
    && var h := s.workers[w];
       s' == s.(chunks := s.chunks[h.idx := FailedWith(s.chunks[h.idx], err)],
                inFlight := Dec(s.inFlight, h.channel),
                workers := s.workers[w := Exited],
                hard := true)
  }

  ghost predicate ExitStep(s: SState, s': SState, w: nat) {
    && HasWorker(s, w) && s.workers[w].Idle?
    && (s.canceled || s.hard || forall i :: 0 <= i < |s.chunks| ==> !Retryable(s.chunks[i]))
    && s' == s.(workers := s.workers[w := Exited])
  }

  /** What follows wg.Wait(); the final manifest write may fail when nothing else stopped the run. */
  ghost predicate JoinStep(s: SState, s': SState) {
    && s.outcome == Running
    && (forall w :: 0 <= w < |s.workers| ==> s.workers[w].Exited?)
    && (s'.outcome == Finish(s) || (!s.canceled && !s.hard && s'.outcome == FlushFailed))
    && s' == s.(outcome := s'.outcome, chunks := if s.canceled then CancelAll(s.chunks) else s.chunks)
  }

  ghost predicate NextStep(s: SState, s': SState, step: Step) {
    match step
    case Pick(w, i, ch) => PickStep(s, s', w, i, ch)
    case Stream(w, n) => StreamStep(s, s', w, n)
    case Succeed(w, digest) => SucceedStep(s, s', w, digest)
    case Rollback(w) => RollbackStep(s, s', w)
    case Fail(w, err) => FailStep(s, s', w, err)
    case HashFail(w, err) => HashFailStep(s, s', w, err)
    case Exit(w) => ExitStep(s, s', w)
    case UserCancel => s' == s.(canceled := true)
    case Join => JoinStep(s, s')
  }

  ghost predicate Next(s: SState, s': SState) { exists step :: NextStep(s, s', step) }

  // ---- weights ----

  ghost function HoldsChunk(i: nat): Worker -> int { (w: Worker) => if w.Holding? && w.idx == i then 1 else 0 }
  ghost function OnChannel(ch: string): Worker -> int { (w: Worker) => if w.Holding? && w.channel == ch then 1 else 0 }
  ghost function CountedOn(k: Counter): Worker -> int {
    (w: Worker) => if w.Holding? && CounterOf(w.channel) == k then w.counted else 0
  }
  ghost function CreditedOn(k: Counter): Credit -> int { (c: Credit) => if c.counter == k then c.bytes else 0 }

  /** Attempts a chunk may still have started in this run. */
  ghost function Left(c: ChunkState): int {
    match c.status
    case Done => 0
    case Sending => MAX_ATTEMPTS - c.attempts - 1
    case _ => MAX_ATTEMPTS - c.attempts
  }

  /** Attempts a chunk may still have finished in this run. */
  ghost function Budget(c: ChunkState): int { if c.status.Done? then 0 else MAX_ATTEMPTS - c.attempts }

  ghost function RestSize(c: ChunkState): int { if c.status.Sending? then 0 else c.size }
  ghost function HeldSize(cs: seq<ChunkState>): Worker -> int {
    (w: Worker) => if w.Holding? && w.idx < |cs| then cs[w.idx].size else 0
  }

  // ---- invariant ----

  /** A manifest a run may begin with: attempts within the limit, nothing held or canceled. */
  ghost predicate StartOk(cs: seq<ChunkState>) {
    && Numbered(cs)
    && (forall i :: 0 <= i < |cs| ==> 0 < cs[i].size && 0 <= cs[i].attempts <= MAX_ATTEMPTS)
    && (forall i :: 0 <= i < |cs| ==> cs[i].status in {Pending, Done, Failed})
    && (forall i :: 0 <= i < |cs| && cs[i].status.Pending? ==> cs[i].attempts < MAX_ATTEMPTS)
    && (forall i :: 0 <= i < |cs| && cs[i].status.Failed? ==> cs[i].attempts == MAX_ATTEMPTS)
  }

  predicate Exhausted(c: ChunkState) { c.status.Failed? && c.attempts == MAX_ATTEMPTS }

  ghost predicate ChunkOk(s: SState, i: nat)
    requires i < |s.chunks| == |s.start|
  {
    var c := s.chunks[i];
    && c.Extent() == s.start[i].Extent()
    && 0 <= s.start[i].attempts <= c.attempts <= MAX_ATTEMPTS
    && c.status in {Pending, Sending, Done, Failed, Canceled}
    && (c.status.Pending? || c.status.Sending? ==> c.attempts < MAX_ATTEMPTS)
    && (c.status.Canceled? ==> s.outcome == CanceledByUser && c.attempts < MAX_ATTEMPTS)
    && (c.status.Failed? && !s.hard ==> c == s.start[i])
    && (Exhausted(s.start[i]) ==> c == s.start[i])
    && (s.start[i].status.Done? ==> c == s.start[i])
  }

  ghost predicate HolderFits(s: SState, w: nat)
    requires w < |s.workers|
  {
    var h := s.workers[w];
    h.Holding? ==>
      && h.idx < |s.chunks|
      && h.counted <= s.chunks[h.idx].size
      && (CounterOf(h.channel) == NoCounter || h.failed ==> h.counted == 0)
  }

  ghost predicate Shape(s: SState) {
    && |s.chunks| == |s.start| == |s.credits| && |s.workers| > 0
    && StartOk(s.start)
    && (forall i :: 0 <= i < |s.chunks| ==> ChunkOk(s, i))
    && (forall w {:trigger s.workers[w]} {:trigger HolderFits(s, w)} :: 0 <= w < |s.workers| ==> HolderFits(s, w))
    && (s.outcome != Running ==> forall w :: 0 <= w < |s.workers| ==> s.workers[w].Exited?)
  }

  ghost predicate AttemptKnown(s: SState, w: nat)
    requires w < |s.workers|
  {
    var h := s.workers[w];
    h.Holding? ==> h.attempt < |s.attempts| && s.attempts[h.attempt] == h.idx
  }

  ghost predicate AttemptsDiffer(s: SState, v: nat, w: nat)
    requires v < w < |s.workers|
  {
    s.workers[v].Holding? && s.workers[w].Holding? ==> s.workers[v].attempt != s.workers[w].attempt
  }

  /** Attempt ids name one holder each, and the log knows the chunk of each attempt. */
  ghost predicate Attempts(s: SState) {
    && (forall w {:trigger s.workers[w]} {:trigger AttemptKnown(s, w)} :: 0 <= w < |s.workers| ==> AttemptKnown(s, w))
    && (forall v, w :: 0 <= v < w < |s.workers| ==> AttemptsDiffer(s, v, w))
  }

  ghost predicate Owned(s: SState, i: nat)
    requires i < |s.chunks|
  {
    SumBy(HoldsChunk(i), s.workers) == if s.chunks[i].status.Sending? then 1 else 0
  }

  /** A chunk is sending exactly while one worker holds it; inFlight counts holders. */
  ghost predicate Ownership(s: SState) {
    && (forall i :: 0 <= i < |s.chunks| ==> Owned(s, i))
    && (forall ch :: Count(s.inFlight, ch) == SumBy(OnChannel(ch), s.workers))
  }

  /** A credit stands for a chunk completed in this run, in full. */
  ghost predicate Credits(s: SState)
    requires |s.chunks| == |s.credits|
  {
    forall i :: 0 <= i < |s.credits| ==> CreditOk(s.credits[i], s.chunks[i])
  }

  ghost predicate CreditOk(credit: Credit, c: ChunkState) {
    if credit.counter == NoCounter then credit.bytes == 0 else c.status.Done? && credit.bytes == c.size
  }

  /** Each counter is what completed chunks left on it plus the partial bytes of live attempts. */
  ghost predicate Balanced(s: SState) {
    && s.cable == SumBy(CreditedOn(CableCounter), s.credits) + SumBy(CountedOn(CableCounter), s.workers)
    && s.wifi == SumBy(CreditedOn(WifiCounter), s.credits) + SumBy(CountedOn(WifiCounter), s.workers)
  }

  /** The sizes of held and unheld chunks together make up the file. */
  ghost predicate SizesKept(s: SState) {
    SumBy(RestSize, s.chunks) + SumBy(HeldSize(s.start), s.workers) == SumBy(SizeOf, s.start)
  }

  ghost predicate Counters(s: SState)
    requires |s.chunks| == |s.credits|
  {
    Credits(s) && Balanced(s) && SizesKept(s)
  }

  ghost predicate Bounded(s: SState) {
    s.picks + SumBy(Left, s.chunks) <= SumBy(Budget, s.start)
  }

  /** While work is left and nothing stopped the run, some worker is still there to take it. */
  ghost predicate Drained(s: SState) {
    s.outcome == Running && !s.canceled && !s.hard && (exists i :: 0 <= i < |s.chunks| && Retryable(s.chunks[i])) ==>
      exists w :: 0 <= w < |s.workers| && !s.workers[w].Exited?
  }

  ghost predicate Inv(s: SState) {
    Shape(s) && Attempts(s) && Ownership(s) && Counters(s) && Bounded(s) && Drained(s)
  }

  // ---- preservation, one conjunct at a time ----

  /** A holder's chunk is marked sending. */
  lemma {:induction false} HolderIsSending(s: SState, w: nat)
    requires Shape(s) && Ownership(s) && w < |s.workers| && s.workers[w].Holding?
    ensures s.chunks[s.workers[w].idx].status.Sending?
    ensures Count(s.inFlight, s.workers[w].channel) >= 1
  {
    var h := s.workers[w];
    assert Owned(s, h.idx);
    SumByAtLeast(HoldsChunk(h.idx), s.workers, w);
    SumByAtLeast(OnChannel(h.channel), s.workers, w);
  }

  predicate IsQuiet(step: Step) { step.Stream? || step.Rollback? || step.Exit? || step.UserCancel? }

  predicate IsRelease(step: Step) { step.Succeed? || step.Fail? || step.HashFail? }

  /** What the three ways of letting go of a chunk have in common. */
  lemma {:induction false} ReleaseFacts(s: SState, s': SState, step: Step)
    requires Shape(s) && Ownership(s) && NextStep(s, s', step) && IsRelease(step)
    ensures IsHolding(s, step.w) && |s'.workers| == |s.workers| && |s'.chunks| == |s.chunks| == |s.start|
    ensures s'.start == s.start && s'.outcome == s.outcome && s'.picks == s.picks && (s.hard ==> s'.hard)
    ensures s'.workers == s.workers[step.w := s'.workers[step.w]] && !s'.workers[step.w].Holding?
    ensures var i := s.workers[step.w].idx; var c := s.chunks[i];
      && s'.chunks == s.chunks[i := s'.chunks[i]]
      && c.status.Sending? && !s'.chunks[i].status.Sending?
      && s'.chunks[i].size == c.size == s.start[i].size
      && Left(s'.chunks[i]) <= Left(c) && Budget(s'.chunks[i]) < Budget(c)
      && ChunkOk(s', i)
  {
    HolderIsSending(s, step.w);
    assert ChunkOk(s, s.workers[step.w].idx);
  }

  /** Steps that leave the manifest and the ownership of its chunks alone. */
  lemma {:induction false} QuietFacts(s: SState, s': SState, step: Step)
    requires Shape(s) && NextStep(s, s', step) && IsQuiet(step)
    ensures s'.chunks == s.chunks && s'.start == s.start && s'.credits == s.credits && s'.picks == s.picks
    ensures s'.inFlight == s.inFlight && s'.outcome == s.outcome && s'.hard == s.hard
    ensures step.UserCancel? ==> s'.workers == s.workers
    ensures !step.UserCancel? ==>
      && step.w < |s.workers| && |s'.workers| == |s.workers|
      && s'.workers == s.workers[step.w := s'.workers[step.w]]
      && var h := s.workers[step.w]; var v := s'.workers[step.w];
         if h.Holding? then v.Holding? && v.idx == h.idx && v.channel == h.channel else !v.Holding?
  {
  }

  lemma {:induction false} PickKeepsOwnership(s: SState, s': SState, w: nat, i: nat, ch: string)
    requires Shape(s) && Ownership(s) && NextStep(s, s', Pick(w, i, ch))
    ensures Ownership(s')
  {
    var h := s'.workers[w];
    assert !s.chunks[i].status.Sending?;
    forall j | 0 <= j < |s'.chunks|
      ensures Owned(s', j)
    {
      assert Owned(s, j);
      SumByUpdate(HoldsChunk(j), s.workers, w, h);
    }
    forall c
      ensures Count(s'.inFlight, c) == SumBy(OnChannel(c), s'.workers)
    {
      SumByUpdate(OnChannel(c), s.workers, w, h);
    }
  }

  /** The common shape of the three ways a worker lets go of its chunk. */
  ghost predicate Releases(s: SState, s': SState, w: nat, v: Worker, c: ChunkState)
    requires IsHolding(s, w)
  {
    var h := s.workers[w];
    && !v.Holding? && !c.status.Sending?
    && s'.workers == s.workers[w := v]
    && s'.chunks == s.chunks[h.idx := c]
    && s'.inFlight == Dec(s.inFlight, h.channel)
  }

  lemma {:induction false} ReleaseKeepsOwnership(s: SState, s': SState, w: nat, v: Worker, c: ChunkState)
    requires Shape(s) && Ownership(s) && IsHolding(s, w) && Releases(s, s', w, v, c)
    ensures Ownership(s')
  {
    HolderIsSending(s, w);
    forall j | 0 <= j < |s'.chunks|
      ensures Owned(s', j)
    {
      assert Owned(s, j);
      SumByUpdate(HoldsChunk(j), s.workers, w, v);
    }
    forall ch
      ensures Count(s'.inFlight, ch) == SumBy(OnChannel(ch), s'.workers)
    {
      SumByUpdate(OnChannel(ch), s.workers, w, v);
    }
  }

  /** A worker that holds nothing before and after, or keeps its chunk and channel, moves no ownership. */
  lemma {:induction false} SameHolderKeepsOwnership(s: SState, s': SState, w: nat, v: Worker)
    requires Ownership(s) && w < |s.workers|
    requires s'.workers == s.workers[w := v] && s'.chunks == s.chunks && s'.inFlight == s.inFlight
    requires var h := s.workers[w];
      if h.Holding? then v.Holding? && v.idx == h.idx && v.channel == h.channel else !v.Holding?
    ensures Ownership(s')
  {
    forall j | 0 <= j < |s'.chunks|
      ensures Owned(s', j)
    {
      assert Owned(s, j);
      SumByUpdate(HoldsChunk(j), s.workers, w, v);
    }
    forall ch
      ensures Count(s'.inFlight, ch) == SumBy(OnChannel(ch), s'.workers)
    {
      SumByUpdate(OnChannel(ch), s.workers, w, v);
    }
  }

  /** After the join nobody holds anything. */
  lemma {:induction false} AllExitedHoldNothing(s: SState)
    requires Shape(s) && Ownership(s)
    requires forall w :: 0 <= w < |s.workers| ==> s.workers[w].Exited?
    ensures forall i :: 0 <= i < |s.chunks| ==> !s.chunks[i].status.Sending?
    ensures forall ch :: Count(s.inFlight, ch) == 0
  {
    forall i | 0 <= i < |s.chunks|
      ensures !s.chunks[i].status.Sending?
    {
      assert Owned(s, i);
      SumByZero(HoldsChunk(i), s.workers);
    }
    forall ch
      ensures Count(s.inFlight, ch) == 0
    {
      SumByZero(OnChannel(ch), s.workers);
    }
  }

  lemma {:induction false} StepKeepsOwnership(s: SState, s': SState, step: Step)
    requires Shape(s) && Ownership(s) && NextStep(s, s', step)
    ensures Ownership(s')
  {
    match step
    case Pick(w, i, ch) => PickKeepsOwnership(s, s', w, i, ch);
    case Stream(w, n) => SameHolderKeepsOwnership(s, s', w, s'.workers[w]);
    case Rollback(w) => SameHolderKeepsOwnership(s, s', w, s'.workers[w]);
    case Succeed(w, digest) => ReleaseKeepsOwnership(s, s', w, Idle, s'.chunks[s.workers[w].idx]);
    case Fail(w, err) => ReleaseKeepsOwnership(s, s', w, Idle, s'.chunks[s.workers[w].idx]);
    case HashFail(w, err) => ReleaseKeepsOwnership(s, s', w, Exited, s'.chunks[s.workers[w].idx]);
    case Exit(w) => SameHolderKeepsOwnership(s, s', w, Exited);
    case UserCancel =>
      assert forall i :: 0 <= i < |s'.chunks| ==> Owned(s, i) == Owned(s', i);
    case Join =>
      AllExitedHoldNothing(s);
      forall i | 0 <= i < |s'.chunks|
        ensures Owned(s', i)
      {
        assert Owned(s, i);
      }
  }

  ghost predicate ChunksOk(s: SState) {
    |s.chunks| == |s.start| && forall i :: 0 <= i < |s.chunks| ==> ChunkOk(s, i)
  }

  lemma {:induction false} SetChunkKeepsChunks(s: SState, s': SState, i: nat)
    requires ChunksOk(s) && i < |s.chunks| == |s'.chunks| && s'.chunks == s.chunks[i := s'.chunks[i]]
    requires s'.start == s.start && s'.outcome == s.outcome && (s.hard ==> s'.hard)
    requires ChunkOk(s', i)
    ensures ChunksOk(s')
  {
    forall j | 0 <= j < |s'.chunks|
      ensures ChunkOk(s', j)
    {
      assert ChunkOk(s, j);
    }
  }

  lemma {:induction false} PickKeepsChunks(s: SState, s': SState, w: nat, i: nat, ch: string)
    requires ChunksOk(s) && PickStep(s, s', w, i, ch) && StartOk(s.start)
    ensures ChunksOk(s')
  {
    assert ChunkOk(s, i);
    SetChunkKeepsChunks(s, s', i);
  }

  lemma {:induction false} QuietKeepsChunks(s: SState, s': SState, step: Step)
    requires Shape(s) && NextStep(s, s', step) && IsQuiet(step)
    ensures ChunksOk(s')
  {
    QuietFacts(s, s', step);
    forall j | 0 <= j < |s'.chunks|
      ensures ChunkOk(s', j)
    {
      assert ChunkOk(s, j);
    }
  }

  lemma {:induction false} StepKeepsChunks(s: SState, s': SState, step: Step)
    requires Shape(s) && Ownership(s) && NextStep(s, s', step)
    ensures ChunksOk(s') && |s'.chunks| == |s.chunks|
    ensures forall i :: 0 <= i < |s'.chunks| ==> s'.chunks[i].size == s.chunks[i].size
  {
    assert ChunksOk(s);
    match step
    case Pick(w, i, ch) => PickKeepsChunks(s, s', w, i, ch);
    case Join => JoinKeepsChunks(s, s');
    case Stream(_, _) => QuietKeepsChunks(s, s', step);
    case Rollback(_) => QuietKeepsChunks(s, s', step);
    case Exit(_) => QuietKeepsChunks(s, s', step);
    case UserCancel => QuietKeepsChunks(s, s', step);
    case _ =>
      ReleaseFacts(s, s', step);
      SetChunkKeepsChunks(s, s', s.workers[step.w].idx);
  }

  lemma {:induction false} JoinKeepsChunks(s: SState, s': SState)
    requires Shape(s) && Ownership(s) && JoinStep(s, s')
    ensures ChunksOk(s') && |s'.chunks| == |s.chunks|
    ensures forall i :: 0 <= i < |s'.chunks| ==> s'.chunks[i].size == s.chunks[i].size
  {
    AllExitedHoldNothing(s);
    forall j | 0 <= j < |s'.chunks|
      ensures ChunkOk(s', j) && s'.chunks[j].size == s.chunks[j].size
    {
      assert ChunkOk(s, j);
    }
  }

  lemma {:induction false} WorkerKeepsHolders(s: SState, s': SState, w: nat, v: Worker)
    requires Shape(s) && w < |s.workers| && s'.workers == s.workers[w := v] && |s'.chunks| == |s.chunks|
    requires forall i :: 0 <= i < |s'.chunks| ==> s'.chunks[i].size == s.chunks[i].size
    requires HolderFits(s', w)
    ensures forall u :: 0 <= u < |s'.workers| ==> HolderFits(s', u)
  {
    forall u | 0 <= u < |s'.workers|
      ensures HolderFits(s', u)
    {
      assert HolderFits(s, u);
    }
  }

  lemma {:induction false} PickKeepsHolders(s: SState, s': SState, w: nat, i: nat, ch: string)
    requires Shape(s) && PickStep(s, s', w, i, ch)
    ensures forall u :: 0 <= u < |s'.workers| ==> HolderFits(s', u)
  {
    assert ChunkOk(s, i);
    WorkerKeepsHolders(s, s', w, s'.workers[w]);
  }

  lemma {:induction false} ReleaseKeepsHolders(s: SState, s': SState, step: Step)
    requires Shape(s) && Ownership(s) && NextStep(s, s', step) && IsRelease(step)
    ensures forall u :: 0 <= u < |s'.workers| ==> HolderFits(s', u)
  {
    ReleaseFacts(s, s', step);
    WorkerKeepsHolders(s, s', step.w, s'.workers[step.w]);
  }

  lemma {:induction false} JoinKeepsHolders(s: SState, s': SState)
    requires Shape(s) && JoinStep(s, s')
    ensures forall u :: 0 <= u < |s'.workers| ==> HolderFits(s', u)
  {
    forall u | 0 <= u < |s'.workers|
      ensures HolderFits(s', u)
    {
      assert s.workers[u].Exited?;
    }
  }

  lemma {:induction false} StepKeepsHolders(s: SState, s': SState, step: Step)
    requires Shape(s) && Ownership(s) && NextStep(s, s', step)
    ensures forall w :: 0 <= w < |s'.workers| ==> HolderFits(s', w)
  {
    match step
    case Pick(w, i, ch) => PickKeepsHolders(s, s', w, i, ch);
    case Join => JoinKeepsHolders(s, s');
    case UserCancel => assert forall w :: 0 <= w < |s.workers| ==> HolderFits(s, w) == HolderFits(s', w);
    case Stream(w, n) =>
      assert HolderFits(s, w);
      WorkerKeepsHolders(s, s', w, s'.workers[w]);
    case Rollback(w) =>
      assert HolderFits(s, w);
      WorkerKeepsHolders(s, s', w, s'.workers[w]);
    case Exit(w) => WorkerKeepsHolders(s, s', w, Exited);
    case _ => ReleaseKeepsHolders(s, s', step);
  }

  lemma {:induction false} StepKeepsFrame(s: SState, s': SState, step: Step)
    requires Shape(s) && NextStep(s, s', step)
    ensures |s'.workers| == |s.workers| && |s'.credits| == |s.credits| && s'.start == s.start
    ensures s'.outcome != Running ==> forall w :: 0 <= w < |s'.workers| ==> s'.workers[w].Exited?
  {
  }

  lemma {:induction false} StepKeepsShape(s: SState, s': SState, step: Step)
    requires Shape(s) && Ownership(s) && NextStep(s, s', step)
    ensures Shape(s')
  {
    StepKeepsChunks(s, s', step);
    StepKeepsHolders(s, s', step);
    StepKeepsFrame(s, s', step);
  }

  lemma {:induction false} WorkerKeepsAttempts(s: SState, s': SState, w: nat, v: Worker)
    requires Attempts(s) && w < |s.workers|
    requires s'.workers == s.workers[w := v] && s.attempts <= s'.attempts
    requires v.Holding? ==>
      && v.attempt < |s'.attempts| && s'.attempts[v.attempt] == v.idx
      && (v.attempt == |s.attempts| || (s.workers[w].Holding? && s.workers[w].attempt == v.attempt))
    ensures Attempts(s')
  {
    forall u | 0 <= u < |s'.workers|
      ensures AttemptKnown(s', u)
    {
      assert AttemptKnown(s, u);
    }
    forall t, u | 0 <= t < u < |s'.workers|
      ensures AttemptsDiffer(s', t, u)
    {
      assert AttemptsDiffer(s, t, u) && AttemptKnown(s, t) && AttemptKnown(s, u);
    }
  }

  lemma {:induction false} StepKeepsAttempts(s: SState, s': SState, step: Step)
    requires Shape(s) && Attempts(s) && NextStep(s, s', step)
    ensures Attempts(s')
    ensures s.attempts <= s'.attempts
  {
    if step.UserCancel? || step.Join? {
      assert forall w :: 0 <= w < |s.workers| ==> AttemptKnown(s, w) == AttemptKnown(s', w);
      assert forall v, w :: 0 <= v < w < |s.workers| ==> AttemptsDiffer(s, v, w) == AttemptsDiffer(s', v, w);
    } else {
      assert AttemptKnown(s, step.w);
      WorkerKeepsAttempts(s, s', step.w, s'.workers[step.w]);
    }
  }

  lemma {:induction false} StepKeepsDrained(s: SState, s': SState, step: Step)
    requires Shape(s) && Drained(s) && NextStep(s, s', step)
    ensures Drained(s')
  {
    match step
    case Exit(w) =>
      if s'.outcome == Running && !s'.canceled && !s'.hard {
        assert forall i :: 0 <= i < |s'.chunks| ==> !Retryable(s'.chunks[i]);
      }
    case Pick(w, i, ch) => assert !s'.workers[w].Exited?;
    case Stream(w, n) => assert !s'.workers[w].Exited?;
    case Rollback(w) => assert !s'.workers[w].Exited?;
    case Succeed(w, digest) => assert !s'.workers[w].Exited?;
    case Fail(w, err) => assert !s'.workers[w].Exited?;
    case _ =>
  }

  lemma {:induction false} SetChunkKeepsBounded(s: SState, s': SState, i: nat, c: ChunkState)
    requires Bounded(s) && i < |s.chunks| && s'.chunks == s.chunks[i := c] && s'.start == s.start
    requires s'.picks - s.picks + Left(c) <= Left(s.chunks[i])
    ensures Bounded(s')
  {
    SumByUpdate(Left, s.chunks, i, c);
  }

  lemma {:induction false} JoinKeepsBounded(s: SState, s': SState)
    requires Shape(s) && Ownership(s) && Bounded(s) && JoinStep(s, s')
    ensures Bounded(s')
  {
    AllExitedHoldNothing(s);
    SumByPointwise(Left, s'.chunks, Left, s.chunks);
  }

  lemma {:induction false} ReleaseKeepsBounded(s: SState, s': SState, step: Step)
    requires Shape(s) && Ownership(s) && Bounded(s) && NextStep(s, s', step) && IsRelease(step)
    ensures Bounded(s')
  {
    ReleaseFacts(s, s', step);
    hide Shape, Ownership, NextStep;
    SetChunkKeepsBounded(s, s', s.workers[step.w].idx, s'.chunks[s.workers[step.w].idx]);
  }

  lemma {:induction false} StepKeepsBounded(s: SState, s': SState, step: Step)
    requires Shape(s) && Ownership(s) && Bounded(s) && NextStep(s, s', step)
    ensures Bounded(s')
  {
    if IsRelease(step) {
      ReleaseKeepsBounded(s, s', step);
    } else if step.Pick? {
      SetChunkKeepsBounded(s, s', step.i, s'.chunks[step.i]);
    } else if step.Join? {
      JoinKeepsBounded(s, s');
    } else {
      QuietFacts(s, s', step);
    }
  }

  // ---- counters ----

  /** Credits survive when every credited chunk keeps its record. */
  lemma {:induction false} SetChunkKeepsCredits(s: SState, s': SState, i: nat)
    requires |s.chunks| == |s.credits| && Credits(s) && i < |s.chunks|
    requires |s'.chunks| == |s.chunks| && s'.chunks == s.chunks[i := s'.chunks[i]]
    requires |s'.credits| == |s.credits| && s'.credits == s.credits[i := s'.credits[i]]
    requires CreditOk(s'.credits[i], s'.chunks[i])
    ensures Credits(s')
  {
    forall j | 0 <= j < |s'.credits|
      ensures CreditOk(s'.credits[j], s'.chunks[j])
    {
      assert CreditOk(s.credits[j], s.chunks[j]);
    }
  }

  lemma {:induction false} SucceedKeepsCredits(s: SState, s': SState, w: nat, digest: Digest)
    requires Shape(s) && Ownership(s) && Credits(s) && SucceedStep(s, s', w, digest)
    ensures Credits(s')
  {
    assert HolderFits(s, w);
    SetChunkKeepsCredits(s, s', s.workers[w].idx);
  }

  lemma {:induction false} ReleaseKeepsCredits(s: SState, s': SState, step: Step)
    requires Shape(s) && Ownership(s) && Credits(s) && NextStep(s, s', step) && (step.Fail? || step.HashFail?)
    ensures Credits(s')
  {
    ReleaseFacts(s, s', step);
    var i := s.workers[step.w].idx;
    assert CreditOk(s.credits[i], s.chunks[i]);
    SetChunkKeepsCredits(s, s', i);
  }

  lemma {:induction false} PickKeepsCredits(s: SState, s': SState, w: nat, i: nat, ch: string)
    requires Shape(s) && Credits(s) && PickStep(s, s', w, i, ch)
    ensures Credits(s')
  {
    assert CreditOk(s.credits[i], s.chunks[i]);
    SetChunkKeepsCredits(s, s', i);
  }

  lemma {:induction false} JoinKeepsCredits(s: SState, s': SState)
    requires Shape(s) && Credits(s) && JoinStep(s, s')
    ensures Credits(s')
  {
    forall j | 0 <= j < |s'.credits|
      ensures CreditOk(s'.credits[j], s'.chunks[j])
    {
      assert CreditOk(s.credits[j], s.chunks[j]);
    }
  }

  lemma {:induction false} StepKeepsCredits(s: SState, s': SState, step: Step)
    requires Shape(s) && Ownership(s) && Credits(s) && NextStep(s, s', step)
    requires |s'.chunks| == |s'.credits|
    ensures Credits(s')
  {
    match step
    case Succeed(w, digest) => SucceedKeepsCredits(s, s', w, digest);
    case Join => JoinKeepsCredits(s, s');
    case Pick(w, i, ch) => PickKeepsCredits(s, s', w, i, ch);
    case Fail(_, _) => ReleaseKeepsCredits(s, s', step);
    case HashFail(_, _) => ReleaseKeepsCredits(s, s', step);
    case _ => QuietFacts(s, s', step);
  }

  /** One worker's record changes, and the counters by as much as its count does. */
  lemma {:induction false} WorkerKeepsBalance(s: SState, s': SState, w: nat, v: Worker)
    requires Balanced(s) && w < |s.workers|
    requires s'.workers == s.workers[w := v] && s'.credits == s.credits
    requires s'.cable - s.cable == CountedOn(CableCounter)(v) - CountedOn(CableCounter)(s.workers[w])
    requires s'.wifi - s.wifi == CountedOn(WifiCounter)(v) - CountedOn(WifiCounter)(s.workers[w])
    ensures Balanced(s')
  {
    SumByUpdate(CountedOn(CableCounter), s.workers, w, v);
    SumByUpdate(CountedOn(WifiCounter), s.workers, w, v);
  }

  /** A completed attempt hands its count over to its chunk. */
  lemma {:induction false} CreditKeepsBalance(s: SState, s': SState, w: nat, i: nat)
    requires Balanced(s) && w < |s.workers| && s.workers[w].Holding? && i < |s.credits|
    requires s.credits[i].bytes == 0
    requires s'.workers == s.workers[w := Idle] && s'.cable == s.cable && s'.wifi == s.wifi
    requires var h := s.workers[w]; s'.credits == s.credits[i := Credit(CounterOf(h.channel), h.counted)]
    ensures Balanced(s')
  {
    var c := s'.credits[i];
    SumByUpdate(CountedOn(CableCounter), s.workers, w, Idle);
    SumByUpdate(CountedOn(WifiCounter), s.workers, w, Idle);
    SumByUpdate(CreditedOn(CableCounter), s.credits, i, c);
    SumByUpdate(CreditedOn(WifiCounter), s.credits, i, c);
  }

  lemma {:induction false} SucceedKeepsBalance(s: SState, s': SState, w: nat, digest: Digest)
    requires Shape(s) && Ownership(s) && Credits(s) && Balanced(s) && SucceedStep(s, s', w, digest)
    ensures Balanced(s')
  {
    HolderIsSending(s, w);
    assert CreditOk(s.credits[s.workers[w].idx], s.chunks[s.workers[w].idx]);
    CreditKeepsBalance(s, s', w, s.workers[w].idx);
  }

  lemma {:induction false} StreamKeepsBalance(s: SState, s': SState, w: nat, n: nat)
    requires Balanced(s) && StreamStep(s, s', w, n)
    ensures Balanced(s')
  {
    WorkerKeepsBalance(s, s', w, s'.workers[w]);
  }

  lemma {:induction false} RollbackKeepsBalance(s: SState, s': SState, w: nat)
    requires Shape(s) && Balanced(s) && RollbackStep(s, s', w)
    ensures Balanced(s')
  {
    assert HolderFits(s, w);
    WorkerKeepsBalance(s, s', w, s'.workers[w]);
  }

  lemma {:induction false} FailKeepsBalance(s: SState, s': SState, w: nat, err: string)
    requires Shape(s) && Balanced(s) && FailStep(s, s', w, err)
    ensures Balanced(s')
  {
    assert HolderFits(s, w);
    WorkerKeepsBalance(s, s', w, Idle);
  }

  lemma {:induction false} StepKeepsBalance(s: SState, s': SState, step: Step)
    requires Shape(s) && Ownership(s) && Credits(s) && Balanced(s) && NextStep(s, s', step)
    ensures Balanced(s')
  {
    match step
    case Succeed(w, digest) => SucceedKeepsBalance(s, s', w, digest);
    case Stream(w, n) => StreamKeepsBalance(s, s', w, n);
    case Rollback(w) => RollbackKeepsBalance(s, s', w);
    case Fail(w, err) => FailKeepsBalance(s, s', w, err);
    case UserCancel =>
    case Join =>
    case Pick(w, _, _) => WorkerKeepsBalance(s, s', w, s'.workers[w]);
    case HashFail(w, _) => WorkerKeepsBalance(s, s', w, Exited);
    case Exit(w) => WorkerKeepsBalance(s, s', w, Exited);
  }

  lemma {:induction false} SizesMove(s: SState, s': SState, w: nat, v: Worker, i: nat, c: ChunkState)
    requires SizesKept(s) && w < |s.workers| && i < |s.chunks|
    requires s'.workers == s.workers[w := v] && s'.chunks == s.chunks[i := c] && s'.start == s.start
    requires HeldSize(s.start)(v) + RestSize(c) == HeldSize(s.start)(s.workers[w]) + RestSize(s.chunks[i])
    ensures SizesKept(s')
  {
    SumByUpdate(HeldSize(s.start), s.workers, w, v);
    SumByUpdate(RestSize, s.chunks, i, c);
  }

  lemma {:induction false} JoinKeepsSizes(s: SState, s': SState)
    requires Shape(s) && Ownership(s) && SizesKept(s) && JoinStep(s, s')
    ensures SizesKept(s')
  {
    AllExitedHoldNothing(s);
    SumByPointwise(RestSize, s'.chunks, RestSize, s.chunks);
    SumByPointwise(RestSize, s.chunks, RestSize, s'.chunks);
  }

  lemma {:induction false} PickKeepsSizes(s: SState, s': SState, w: nat, i: nat, ch: string)
    requires Shape(s) && SizesKept(s) && PickStep(s, s', w, i, ch)
    ensures SizesKept(s')
  {
    assert ChunkOk(s, i);
    SizesMove(s, s', w, s'.workers[w], i, s'.chunks[i]);
  }

  lemma {:induction false} ReleaseKeepsSizes(s: SState, s': SState, step: Step)
    requires Shape(s) && Ownership(s) && SizesKept(s) && NextStep(s, s', step) && IsRelease(step)
    ensures SizesKept(s')
  {
    ReleaseFacts(s, s', step);
    var i := s.workers[step.w].idx;
    SizesMove(s, s', step.w, s'.workers[step.w], i, s'.chunks[i]);
  }

  lemma {:induction false} QuietKeepsSizes(s: SState, s': SState, step: Step)
    requires Shape(s) && SizesKept(s) && NextStep(s, s', step) && IsQuiet(step)
    ensures SizesKept(s')
  {
    QuietFacts(s, s', step);
    if !step.UserCancel? {
      SumByUpdate(HeldSize(s.start), s.workers, step.w, s'.workers[step.w]);
    }
  }

  lemma {:induction false} StepKeepsSizes(s: SState, s': SState, step: Step)
    requires Shape(s) && Ownership(s) && SizesKept(s) && NextStep(s, s', step)
    ensures SizesKept(s')
  {
    match step
    case Pick(w, i, ch) => PickKeepsSizes(s, s', w, i, ch);
    case Join => JoinKeepsSizes(s, s');
    case Stream(_, _) => QuietKeepsSizes(s, s', step);
    case Rollback(_) => QuietKeepsSizes(s, s', step);
    case Exit(_) => QuietKeepsSizes(s, s', step);
    case UserCancel => QuietKeepsSizes(s, s', step);
    case _ => ReleaseKeepsSizes(s, s', step);
  }

  lemma {:induction false} StepKeepsInv(s: SState, s': SState, step: Step)
    requires Inv(s) && NextStep(s, s', step)
    ensures Inv(s')
  {
    StepKeepsShape(s, s', step);
    StepKeepsAttempts(s, s', step);
    StepKeepsOwnership(s, s', step);
    StepKeepsCredits(s, s', step);
    StepKeepsBalance(s, s', step);
    StepKeepsSizes(s, s', step);
    StepKeepsBounded(s, s', step);
    StepKeepsDrained(s, s', step);
  }

  lemma {:induction false} NewRunInv(chunks: seq<ChunkState>, workers: nat, attempts: seq<nat>)
    requires StartOk(chunks) && workers > 0
    ensures Inv(NewRun(chunks, workers, attempts))
  {
    var s := NewRun(chunks, workers, attempts);
    assert !s.workers[0].Exited?;
    forall i | 0 <= i < |s.chunks|
      ensures Owned(s, i)
    {
      SumByZero(HoldsChunk(i), s.workers);
    }
    forall ch
      ensures Count(s.inFlight, ch) == SumBy(OnChannel(ch), s.workers)
    {
      SumByZero(OnChannel(ch), s.workers);
    }
    forall k
      ensures SumBy(CountedOn(k), s.workers) == 0 && SumBy(CreditedOn(k), s.credits) == 0
    {
      SumByZero(CountedOn(k), s.workers);
      SumByZero(CreditedOn(k), s.credits);
    }
    SumByZero(HeldSize(s.start), s.workers);
    SumByPointwise(RestSize, s.chunks, SizeOf, s.start);
    SumByPointwise(SizeOf, s.start, RestSize, s.chunks);
    SumByPointwise(Left, s.chunks, Budget, s.start);
  }

  // ---- runs ----

  /** A run of the pool: any interleaving of its steps, from any manifest a run may begin with. */
  ghost predicate IsRun(run: seq<SState>) {
    && run != []
    && |run[0].workers| > 0 && StartOk(run[0].start)
    && run[0] == NewRun(run[0].start, |run[0].workers|, run[0].attempts)
    && forall k :: 0 <= k < |run| - 1 ==> StepAt(run, k)
  }

  ghost predicate StepAt(run: seq<SState>, k: nat)
    requires k + 1 < |run|
  {
    Next(run[k], run[k + 1])
  }

  lemma {:induction false} RunKeepsInv(run: seq<SState>, k: nat)
    requires IsRun(run) && k < |run|
    ensures Inv(run[k])
  {
    if k == 0 {
      NewRunInv(run[0].start, |run[0].workers|, run[0].attempts);
    } else {
      RunKeepsInv(run, k - 1);
      assert StepAt(run, k - 1);
      var step :| NextStep(run[k - 1], run[k], step);
      StepKeepsInv(run[k - 1], run[k], step);
    }
  }

  ghost predicate Holder(s: SState, w: nat, i: nat) {
    w < |s.workers| && s.workers[w].Holding? && s.workers[w].idx == i
  }

  /** A chunk is sending exactly when one worker, and only one, holds it. */
  lemma {:induction false} ExclusiveOwnership(run: seq<SState>, k: nat, i: nat)
    requires IsRun(run) && k < |run| && i < |run[k].chunks|
    ensures var s := run[k];
      && (s.chunks[i].status.Sending? <==> exists w: nat :: Holder(s, w, i))
      && (forall v: nat, w: nat :: Holder(s, v, i) && Holder(s, w, i) ==> v == w)
      && (s.outcome != Running ==> !s.chunks[i].status.Sending?)
  {
    RunKeepsInv(run, k);
    var s := run[k];
    assert Owned(s, i);
    if s.chunks[i].status.Sending? {
      var w := SumByPositive(HoldsChunk(i), s.workers);
      assert Holder(s, w, i);
    }
    forall w: nat | Holder(s, w, i)
      ensures s.chunks[i].status.Sending?
    {
      SumByAtLeast(HoldsChunk(i), s.workers, w);
    }
    forall v: nat, w: nat | Holder(s, v, i) && Holder(s, w, i) && v < w
      ensures false
    {
      SumByTwo(HoldsChunk(i), s.workers, v, w);
    }
    if s.outcome != Running {
      AllExitedHoldNothing(s);
    }
  }

  lemma {:induction false} ChunksNumbered(s: SState)
    requires Shape(s)
    ensures Numbered(s.chunks) && Geometry(s.chunks) == Geometry(s.start)
  {
    forall j | 0 <= j < |s.chunks|
      ensures s.chunks[j].Extent() == s.start[j].Extent()
    {
      assert ChunkOk(s, j);
    }
  }

  /**
   * inFlight counts the holders of each channel in every reachable state, so the guard on
   * its decrement never bites and it is back to zero after the join; and an index picked
   * from the retryable chunks is always found in the manifest.
   */
  lemma {:induction false} InFlightCountsHolders(run: seq<SState>, k: nat, ch: string)
    requires IsRun(run) && k < |run|
    ensures var s := run[k];
      && Count(s.inFlight, ch) == SumBy(OnChannel(ch), s.workers)
      && (forall w :: 0 <= w < |s.workers| && s.workers[w].Holding? && s.workers[w].channel == ch ==>
            Count(s.inFlight, ch) > 0)
      && (s.outcome != Running ==> Count(s.inFlight, ch) == 0)
      && (forall i :: 0 <= i < |s.chunks| ==> Find(s.chunks, i) == i)
  {
    RunKeepsInv(run, k);
    var s := run[k];
    forall w | 0 <= w < |s.workers| && s.workers[w].Holding?
      ensures Count(s.inFlight, s.workers[w].channel) > 0
    {
      HolderIsSending(s, w);
    }
    if s.outcome != Running {
      AllExitedHoldNothing(s);
    }
    forall i | 0 <= i < |s.chunks|
      ensures Find(s.chunks, i) == i
    {
      ChunksNumbered(s);
      FindNumbered(s.chunks, i);
    }
  }

  /** Nothing in the run changes where it started from. */
  lemma {:induction false} RunKeepsStart(run: seq<SState>, k: nat)
    requires IsRun(run) && k < |run|
    ensures run[k].start == run[0].start && run[0].attempts <= run[k].attempts
  {
    if k > 0 {
      RunKeepsStart(run, k - 1);
      assert StepAt(run, k - 1);
      var step :| NextStep(run[k - 1], run[k], step);
      RunKeepsInv(run, k - 1);
      StepKeepsFrame(run[k - 1], run[k], step);
      StepKeepsAttempts(run[k - 1], run[k], step);
    }
  }

  /**
   * Pool drain. A worker leaves as soon as it sees nothing pending, while others still hold
   * chunks that may fail back to pending. Even so: when all workers are gone with no cancel
   * and no hard error, a chunk is done exactly when it was not exhausted at the start, and
   * the run succeeds exactly when no chunk was.
   */
  lemma {:induction false} PoolDrain(run: seq<SState>, k: nat)
    requires IsRun(run) && k < |run|
    requires run[k].outcome == Succeeded || run[k].outcome == Incomplete
    ensures var s := run[k];
      && |s.chunks| == |run[0].start|
      && (forall i :: 0 <= i < |s.chunks| ==> (s.chunks[i].status.Done? <==> !Exhausted(run[0].start[i])))
      && (s.outcome == Succeeded <==> forall i :: 0 <= i < |run[0].start| ==> !Exhausted(run[0].start[i]))
  {
    var j := JoinOf(run, k);
    RunKeepsStart(run, k);
    RunKeepsStart(run, j);
    RunKeepsInv(run, j);
    var s := run[j];
    AllExitedHoldNothing(s);
    forall i | 0 <= i < |s.chunks|
      ensures s.chunks[i].status.Done? <==> !Exhausted(s.start[i])
    {
      assert ChunkOk(s, i);
      if Retryable(s.chunks[i]) {
        assert false;
      }
    }
  }

  lemma {:induction false} OutcomeByJoin(s: SState, s': SState, step: Step)
    requires NextStep(s, s', step)
    requires s'.outcome == Succeeded || s'.outcome == Incomplete
    ensures JoinStep(s, s') || (s.outcome == s'.outcome && s.chunks == s'.chunks)
  {
  }

  /** The state just before the join that gave this outcome. */
  lemma {:induction false} JoinOf(run: seq<SState>, k: nat) returns (j: nat)
    requires IsRun(run) && k < |run|
    requires run[k].outcome == Succeeded || run[k].outcome == Incomplete
    ensures j < k && run[j].outcome == Running && !run[j].canceled && !run[j].hard
    ensures forall w :: 0 <= w < |run[j].workers| ==> run[j].workers[w].Exited?
    ensures run[k].chunks == run[j].chunks && run[k].outcome == Finish(run[j])
  {
    assert k > 0;
    assert StepAt(run, k - 1);
    var step :| NextStep(run[k - 1], run[k], step);
    OutcomeByJoin(run[k - 1], run[k], step);
    if JoinStep(run[k - 1], run[k]) {
      j := k - 1;
    } else {
      j := JoinOf(run, k - 1);
    }
  }

  /** Bounded work: attempts started in the run never exceed the budget it began with. */
  lemma {:induction false} BoundedWork(run: seq<SState>, k: nat)
    requires IsRun(run) && k < |run|
    ensures run[k].picks <= SumBy(Budget, run[0].start)
    ensures run[k].picks <= MAX_ATTEMPTS * |run[0].start|
    ensures forall i :: 0 <= i < |run[k].chunks| ==> run[k].chunks[i].attempts <= MAX_ATTEMPTS
  {
    RunKeepsInv(run, k);
    RunKeepsStart(run, k);
    var s := run[k];
    forall i | 0 <= i < |s.chunks|
      ensures 0 <= Left(s.chunks[i]) && s.chunks[i].attempts <= MAX_ATTEMPTS
    {
      assert ChunkOk(s, i);
    }
    SumByNonNegative(Left, s.chunks);
    BudgetAtMost(s.start);
  }

  lemma {:induction false} BudgetAtMost(cs: seq<ChunkState>)
    requires forall i :: 0 <= i < |cs| ==> 0 <= cs[i].attempts
    ensures SumBy(Budget, cs) <= MAX_ATTEMPTS * |cs|
  {
    if cs != [] {
      BudgetAtMost(cs[..|cs| - 1]);
    }
  }

  /** Every finished attempt, successful or not, uses up part of what is left to finish. */
  lemma {:induction false} FinishedAttemptsDecrease(run: seq<SState>, k: nat, step: Step)
    requires IsRun(run) && k + 1 < |run| && NextStep(run[k], run[k + 1], step) && IsRelease(step)
    ensures 0 <= SumBy(Budget, run[k + 1].chunks) < SumBy(Budget, run[k].chunks)
  {
    RunKeepsInv(run, k);
    RunKeepsInv(run, k + 1);
    ReleaseDecreasesBudget(run[k], run[k + 1], step);
  }

  lemma {:induction false} ReleaseDecreasesBudget(s: SState, s': SState, step: Step)
    requires Inv(s) && Inv(s') && NextStep(s, s', step) && IsRelease(step)
    ensures 0 <= SumBy(Budget, s'.chunks) < SumBy(Budget, s.chunks)
  {
    ReleaseFacts(s, s', step);
    var i := s.workers[step.w].idx;
    assert ChunkOk(s, i);
    SumByUpdate(Budget, s.chunks, i, s'.chunks[i]);
    forall j | 0 <= j < |s'.chunks|
      ensures 0 <= Budget(s'.chunks[j])
    {
      assert ChunkOk(s', j);
    }
    SumByNonNegative(Budget, s'.chunks);
  }

  ghost function Credited(c: Credit): int { if c.counter == NoCounter then 0 else c.bytes }

  ghost function Live(w: Worker): int {
    if w.Holding? && CounterOf(w.channel) != NoCounter then w.counted else 0
  }

  ghost function ToSend(c: ChunkState): int { if c.status.Done? then 0 else c.size }

  lemma {:induction false} CountersTotal(s: SState)
    requires Inv(s)
    ensures s.cable + s.wifi == SumBy(Credited, s.credits) + SumBy(Live, s.workers)
  {
    SumByAdd(CreditedOn(CableCounter), CreditedOn(WifiCounter), Credited, s.credits);
    SumByAdd(CountedOn(CableCounter), CountedOn(WifiCounter), Live, s.workers);
  }

  /**
   * Progress conservation: the counters always show the chunks completed in this run plus
   * the partial bytes of live attempts, and never more than the file.
   */
  lemma {:induction false} ProgressConservation(run: seq<SState>, k: nat)
    requires IsRun(run) && k < |run|
    ensures var s := run[k];
      && s.cable + s.wifi == SumBy(Credited, s.credits) + SumBy(Live, s.workers)
      && 0 <= s.cable && 0 <= s.wifi && s.cable + s.wifi <= SumBy(SizeOf, run[0].start)
  {
    RunKeepsInv(run, k);
    RunKeepsStart(run, k);
    var s := run[k];
    CountersTotal(s);
    SumByNonNegative(CreditedOn(CableCounter), s.credits);
    SumByNonNegative(CreditedOn(WifiCounter), s.credits);
    SumByNonNegative(CountedOn(CableCounter), s.workers);
    SumByNonNegative(CountedOn(WifiCounter), s.workers);
    CreditsWithinRest(s);
    LiveWithinHeld(s);
  }

  lemma {:induction false} CreditsWithinRest(s: SState)
    requires Inv(s)
    ensures SumBy(Credited, s.credits) <= SumBy(RestSize, s.chunks)
  {
    forall i | 0 <= i < |s.credits|
      ensures Credited(s.credits[i]) <= RestSize(s.chunks[i])
    {
      assert CreditOk(s.credits[i], s.chunks[i]) && ChunkOk(s, i);
    }
    SumByPointwise(Credited, s.credits, RestSize, s.chunks);
  }

  lemma {:induction false} LiveWithinHeld(s: SState)
    requires Inv(s)
    ensures SumBy(Live, s.workers) <= SumBy(HeldSize(s.start), s.workers)
  {
    forall w | 0 <= w < |s.workers|
      ensures Live(s.workers[w]) <= HeldSize(s.start)(s.workers[w])
    {
      assert HolderFits(s, w);
      if s.workers[w].Holding? { assert ChunkOk(s, s.workers[w].idx); }
    }
    SumByMonotone(Live, HeldSize(s.start), s.workers);
  }

  /**
   * A failed attempt costs the chunk one attempt and nothing else: with fewer than three it is
   * pending again and the run goes on; the third leaves it failed and ends the run.
   */
  lemma {:induction false} FailedAttemptRetries(s: SState, s': SState, w: nat, err: string)
    requires NextStep(s, s', Fail(w, err)) && Shape(s) && Ownership(s)
    ensures w < |s.workers| && s.workers[w].Holding? && s.workers[w].idx < |s.chunks| == |s'.chunks|
    ensures var i := s.workers[w].idx; var c, c' := s.chunks[i], s'.chunks[i];
      && c' == c.(status := c'.status, attempts := c.attempts + 1, lastError := err)
      && (c'.attempts < 3 ==> c'.status.Pending? && s'.hard == s.hard)
      && (c'.attempts >= 3 ==> c'.attempts == 3 && c'.status.Failed? && s'.hard)
      && forall j :: 0 <= j < |s.chunks| && j != i ==> s'.chunks[j] == s.chunks[j]
  {
    HeldIsSending(s, w);
    assert ChunkOk(s, s.workers[w].idx);
  }

  /** Some chunk had attempts left when the run began and has used up the third. */
  ghost predicate SomeUsedUp(s: SState) {
    exists i :: 0 <= i < |s.chunks| && i < |s.start| && UsedUp(s.start[i], s.chunks[i])
  }

  ghost predicate UsedUp(before: ChunkState, c: ChunkState) {
    before.attempts < 3 && c.status.Failed? && c.attempts == 3
  }

  ghost predicate NoHashFailAt(run: seq<SState>, j: nat)
    requires j + 1 < |run|
  {
    forall w: nat, err: string {:trigger HashFailStep(run[j], run[j + 1], w, err)} ::
      !HashFailStep(run[j], run[j + 1], w, err)
  }

  lemma {:induction false} FailEarnsHard(s: SState, s': SState, w: nat, err: string)
    requires Shape(s) && Ownership(s) && NextStep(s, s', Fail(w, err)) && s'.start == s.start
    ensures s'.hard ==> s.hard || SomeUsedUp(s')
  {
    FailedAttemptRetries(s, s', w, err);
    var i := s.workers[w].idx;
    assert ChunkOk(s, i);
    if s'.hard && !s.hard {
      assert UsedUp(s'.start[i], s'.chunks[i]);
    }
  }

  lemma {:induction false} OthersKeepHard(s: SState, s': SState, step: Step)
    requires NextStep(s, s', step) && !step.HashFail? && !step.Fail?
    ensures s'.hard == s.hard
  {
  }

  /** A used-up chunk is never taken again, and nothing but a third failure or a hash failure ends a run hard. */
  lemma {:induction false} StepKeepsHardEarned(s: SState, s': SState, step: Step)
    requires Shape(s) && Ownership(s) && NextStep(s, s', step) && !step.HashFail? && s'.start == s.start
    requires s.hard ==> SomeUsedUp(s)
    ensures s'.hard ==> SomeUsedUp(s')
  {
    hide Shape, Ownership, NextStep;
    if s.hard {
      var i :| 0 <= i < |s.chunks| && i < |s.start| && UsedUp(s.start[i], s.chunks[i]);
      UsedUpStays(s, s', step, i);
    } else if step.Fail? {
      FailEarnsHard(s, s', step.w, step.err);
    } else {
      OthersKeepHard(s, s', step);
    }
  }

  lemma {:induction false} UsedUpStays(s: SState, s': SState, step: Step, i: nat)
    requires Shape(s) && Ownership(s) && NextStep(s, s', step)
    requires i < |s.chunks| && s.chunks[i].status.Failed? && s.chunks[i].attempts == 3
    ensures i < |s'.chunks| && s'.chunks[i] == s.chunks[i]
  {
    if IsRelease(step) {
      ReleaseFacts(s, s', step);
    }
  }

  /**
   * Over every run whose source could always be hashed, the run is stopped by an error exactly
   * when some chunk that had attempts left at the start has failed three times: never sooner.
   */
  lemma {:induction false} HardExactlyWhenUsedUp(run: seq<SState>, k: nat)
    requires IsRun(run) && k < |run| && forall j :: 0 <= j < k ==> NoHashFailAt(run, j)
    ensures |run[k].chunks| == |run[0].start|
    ensures run[k].hard <==> exists i ::
      0 <= i < |run[0].start| && run[0].start[i].attempts < 3
      && run[k].chunks[i].status.Failed? && run[k].chunks[i].attempts == 3
  {
    RunKeepsInv(run, k);
    RunKeepsStart(run, k);
    HardIsEarned(run, k);
    var s := run[k];
    forall i | 0 <= i < |s.chunks|
      ensures UsedUp(s.start[i], s.chunks[i]) ==> s.hard
    {
      assert ChunkOk(s, i);
    }
    if s.hard {
      var i :| 0 <= i < |s.chunks| && i < |s.start| && UsedUp(s.start[i], s.chunks[i]);
      assert run[0].start[i].attempts < 3;
    }
  }

  lemma {:induction false} HardIsEarned(run: seq<SState>, k: nat)
    requires IsRun(run) && k < |run| && forall j :: 0 <= j < k ==> NoHashFailAt(run, j)
    ensures run[k].hard ==> SomeUsedUp(run[k])
  {
    hide SomeUsedUp, NoHashFailAt;
    if k > 0 {
      HardIsEarned(run, k - 1);
      assert NoHashFailAt(run, k - 1);
      NextKeepsHardEarned(run, k - 1);
    }
  }

  lemma {:induction false} NextKeepsHardEarned(run: seq<SState>, j: nat)
    requires IsRun(run) && j + 1 < |run| && NoHashFailAt(run, j)
    requires run[j].hard ==> SomeUsedUp(run[j])
    ensures run[j + 1].hard ==> SomeUsedUp(run[j + 1])
  {
    RunKeepsInv(run, j);
    RunKeepsStart(run, j);
    RunKeepsStart(run, j + 1);
    assert StepAt(run, j);
    hide Shape, Ownership, Counters, Bounded, Drained, Attempts, SomeUsedUp, IsRun, NextStep, NoHashFailAt;
    var step :| NextStep(run[j], run[j + 1], step);
    NotHashFail(run, j, step);
    StepKeepsHardEarned(run[j], run[j + 1], step);
  }

  lemma {:induction false} NotHashFail(run: seq<SState>, j: nat, step: Step)
    requires j + 1 < |run| && NextStep(run[j], run[j + 1], step) && NoHashFailAt(run, j)
    ensures !step.HashFail?
  {
  }

  /** So over a manifest cut from a file of total bytes, the counters never show more than the file. */
  lemma {:induction false} ProgressWithinFile(run: seq<SState>, k: nat, total: int)
    requires IsRun(run) && k < |run| && IsPartition(Geometry(run[0].start), total)
    ensures 0 <= run[k].cable + run[k].wifi <= total
  {
    ProgressConservation(run, k);
    SizesUpToEnd(run[0].start, total, |run[0].start|);
    assert run[0].start[..|run[0].start|] == run[0].start;
  }

  /**
   * A failed attempt leaves no trace: once it has rolled back, the counters are what they
   * would be had it never streamed, and the bookkeeping that follows leaves them alone.
   */
  lemma {:induction false} FailedAttemptLeavesNoTrace(run: seq<SState>, k: nat, w: nat, err: string)
    requires IsRun(run) && k + 1 < |run|
    requires RollbackStep(run[k], run[k + 1], w) || FailStep(run[k], run[k + 1], w, err)
    ensures var s, s' := run[k], run[k + 1];
      && s'.credits == s.credits
      && s'.cable + s'.wifi == SumBy(Credited, s.credits) + SumBy(Live, s.workers[w := Idle])
      && (FailStep(s, s', w, err) ==> s'.cable == s.cable && s'.wifi == s.wifi)
  {
    RunKeepsInv(run, k);
    RunKeepsInv(run, k + 1);
    hide IsRun, Inv;
    if RollbackStep(run[k], run[k + 1], w) {
      RollbackLeavesNoTrace(run[k], run[k + 1], w);
    } else {
      FailLeavesNoTrace(run[k], run[k + 1], w, err);
    }
  }

  lemma {:induction false} RollbackLeavesNoTrace(s: SState, s': SState, w: nat)
    requires Inv(s) && Inv(s') && RollbackStep(s, s', w)
    ensures s'.credits == s.credits
    ensures s'.cable + s'.wifi == SumBy(Credited, s.credits) + SumBy(Live, s.workers[w := Idle])
  {
    CountersTotal(s');
    SumByUpdate(Live, s.workers, w, Idle);
    SumByUpdate(Live, s.workers, w, s'.workers[w]);
  }

  lemma {:induction false} FailLeavesNoTrace(s: SState, s': SState, w: nat, err: string)
    requires Inv(s) && Inv(s') && FailStep(s, s', w, err)
    ensures s'.credits == s.credits && s'.cable == s.cable && s'.wifi == s.wifi
    ensures s'.cable + s'.wifi == SumBy(Credited, s.credits) + SumBy(Live, s.workers[w := Idle])
  {
    CountersTotal(s');
  }

  /** If this step takes a chunk, it is for a channel that has a counter. */
  ghost predicate TakesCounted(s: SState, s': SState) {
    forall w: nat, i: nat, ch: string {:trigger PickStep(s, s', w, i, ch)} ::
      PickStep(s, s', w, i, ch) ==> CounterOf(ch) != NoCounter
  }

  /** Every chunk the run has taken so far was taken for a channel that has a counter. */
  ghost predicate CountedPicks(run: seq<SState>, k: nat)
    requires k < |run|
  {
    forall j :: 0 <= j < k ==> TakesCountedAt(run, j)
  }

  ghost predicate TakesCountedAt(run: seq<SState>, j: nat)
    requires j + 1 < |run|
  {
    TakesCounted(run[j], run[j + 1])
  }

  /** Chunks done before the run have no credit, chunks done in it have one on a counter. */
  ghost predicate CreditFits(s: SState, i: nat)
    requires i < |s.chunks| && |s.chunks| == |s.start| == |s.credits|
  {
    && (s.start[i].status.Done? ==> s.chunks[i].status.Done? && s.credits[i].counter == NoCounter)
    && (!s.start[i].status.Done? && s.chunks[i].status.Done? ==> s.credits[i].counter != NoCounter)
  }

  ghost predicate AllCounted(s: SState) {
    && |s.chunks| == |s.start| == |s.credits|
    && (forall w :: 0 <= w < |s.workers| && s.workers[w].Holding? ==> CounterOf(s.workers[w].channel) != NoCounter)
    && (forall i :: 0 <= i < |s.chunks| ==> CreditFits(s, i))
  }

  /** A credit changes only when its chunk gets done, and then to the counter of its holder's channel. */
  lemma {:induction false} CreditMoves(s: SState, s': SState, step: Step, i: nat)
    requires NextStep(s, s', step) && i < |s.credits|
    ensures |s'.credits| == |s.credits| && s'.start == s.start
    ensures s'.credits[i] == s.credits[i]
      || (step.Succeed? && IsHolding(s, step.w) && s.workers[step.w].idx == i
          && s'.credits[i].counter == CounterOf(s.workers[step.w].channel))
    ensures step.Succeed? && s.workers[step.w].idx == i ==>
      s'.credits[i].counter == CounterOf(s.workers[step.w].channel)
  {
  }

  lemma {:induction false} NewHolders(s: SState, s': SState, step: Step, w: nat)
    requires NextStep(s, s', step) && TakesCounted(s, s')
    requires forall v :: 0 <= v < |s.workers| && s.workers[v].Holding? ==> CounterOf(s.workers[v].channel) != NoCounter
    requires w < |s'.workers| && s'.workers[w].Holding?
    ensures CounterOf(s'.workers[w].channel) != NoCounter
  {
    if step.Pick? {
      assert PickStep(s, s', step.w, step.i, step.channel);
    }
  }

  lemma {:induction false} HeldIsSending(s: SState, w: nat)
    requires Shape(s) && Ownership(s) && IsHolding(s, w)
    ensures s.workers[w].idx < |s.chunks| && s.chunks[s.workers[w].idx].status.Sending?
  {
    assert HolderFits(s, w);
    var i := s.workers[w].idx;
    assert Owned(s, i);
    SumByAtLeast(HoldsChunk(i), s.workers, w);
  }

  lemma {:induction false} StepKeepsCounted(s: SState, s': SState, step: Step)
    requires Inv(s) && Inv(s') && NextStep(s, s', step) && TakesCounted(s, s') && AllCounted(s)
    ensures AllCounted(s')
  {
    forall i: nat | i < |s'.chunks|
      ensures CreditFits(s', i)
    {
      CreditMoves(s, s', step, i);
      DoneMoves(s, s', step, i);
      assert CreditFits(s, i);
      if step.Succeed? { HeldIsSending(s, step.w); }
    }
    forall w: nat | w < |s'.workers| && s'.workers[w].Holding?
      ensures CounterOf(s'.workers[w].channel) != NoCounter
    {
      NewHolders(s, s', step, w);
    }
  }

  lemma {:induction false} NextKeepsCounted(run: seq<SState>, j: nat)
    requires IsRun(run) && j + 1 < |run| && TakesCounted(run[j], run[j + 1]) && AllCounted(run[j])
    ensures AllCounted(run[j + 1])
  {
    RunKeepsInv(run, j);
    RunKeepsInv(run, j + 1);
    assert StepAt(run, j);
    hide Inv, NextStep, AllCounted, TakesCounted;
    var step :| NextStep(run[j], run[j + 1], step);
    StepKeepsCounted(run[j], run[j + 1], step);
  }

  lemma {:induction false} RunKeepsCounted(run: seq<SState>, k: nat)
    requires IsRun(run) && k < |run| && CountedPicks(run, k)
    ensures AllCounted(run[k])
  {
    hide AllCounted, TakesCounted;
    if k == 0 {
      StartCounted(run[0]);
    } else {
      RunKeepsCounted(run, k - 1);
      assert TakesCountedAt(run, k - 1);
      NextKeepsCounted(run, k - 1);
    }
  }

  lemma {:induction false} StartCounted(s: SState)
    requires s.start == s.chunks && |s.workers| > 0 && StartOk(s.start) && s == NewRun(s.start, |s.workers|, s.attempts)
    ensures AllCounted(s)
  {
  }

  // ---- the counters by channel ----

  /** A holder's chunk carries the holder's channel in its record. */
  ghost predicate ChannelKept(s: SState, w: nat)
    requires w < |s.workers|
  {
    var h := s.workers[w];
    h.Holding? && h.idx < |s.chunks| ==> s.chunks[h.idx].channel == h.channel
  }

  /** A chunk completed in this run has its credit on the counter of the channel in its record, any other none. */
  ghost predicate CreditNamed(s: SState, i: nat)
    requires i < |s.chunks| && |s.chunks| == |s.start| == |s.credits|
  {
    s.credits[i].counter ==
      if !s.start[i].status.Done? && s.chunks[i].status.Done? then CounterOf(s.chunks[i].channel) else NoCounter
  }

  ghost predicate ByChannel(s: SState) {
    && |s.chunks| == |s.start| == |s.credits|
    && (forall w :: 0 <= w < |s.workers| ==> ChannelKept(s, w))
    && (forall i :: 0 <= i < |s.chunks| ==> CreditNamed(s, i))
  }

  /** Only taking a chunk changes the channel in its record. */
  lemma {:induction false} ChannelMoves(s: SState, s': SState, step: Step, i: nat)
    requires NextStep(s, s', step) && i < |s.chunks|
    ensures |s'.chunks| == |s.chunks|
    ensures s'.chunks[i].channel == if step.Pick? && step.i == i then step.channel else s.chunks[i].channel
  {
  }

  /** Who holds what after a step: the same chunk on the same channel, unless just taken. */
  lemma {:induction false} HolderMoves(s: SState, s': SState, step: Step, w: nat)
    requires NextStep(s, s', step) && w < |s.workers| == |s'.workers| && s'.workers[w].Holding?
    ensures var h, h' := s.workers[w], s'.workers[w];
      if step.Pick? && step.w == w then h'.idx == step.i && h'.channel == step.channel
      else h.Holding? && h'.idx == h.idx && h'.channel == h.channel
  {
  }

  lemma {:induction false} PickedIsFree(s: SState, s': SState, step: Step, w: nat)
    requires Shape(s) && Ownership(s) && NextStep(s, s', step) && step.Pick? && w < |s.workers|
    ensures s.workers[w].Holding? ==> s.workers[w].idx != step.i
  {
    if s.workers[w].Holding? {
      HolderIsSending(s, w);
    }
  }

  lemma {:induction false} StepKeepsChannel(s: SState, s': SState, step: Step, w: nat)
    requires Shape(s) && Ownership(s) && NextStep(s, s', step) && w < |s.workers| == |s'.workers|
    requires ChannelKept(s, w)
    ensures ChannelKept(s', w)
  {
    if s'.workers[w].Holding? && s'.workers[w].idx < |s'.chunks| {
      HolderMoves(s, s', step, w);
      if step.Pick? { PickedIsFree(s, s', step, w); }
      hide Shape, Ownership;
      ChunkCount(s, s', step);
      ChannelMoves(s, s', step, s'.workers[w].idx);
    }
  }

  lemma {:induction false} ChunkCount(s: SState, s': SState, step: Step)
    requires NextStep(s, s', step)
    ensures |s'.chunks| == |s.chunks|
  {
  }

  lemma {:induction false} StepKeepsNamed(s: SState, s': SState, step: Step, i: nat)
    requires Shape(s) && Shape(s') && Ownership(s) && NextStep(s, s', step) && s'.start == s.start
    requires i < |s.chunks| == |s'.chunks| && (forall w :: 0 <= w < |s.workers| ==> ChannelKept(s, w))
    requires CreditNamed(s, i)
    ensures CreditNamed(s', i)
  {
    CreditMoves(s, s', step, i);
    DoneMoves(s, s', step, i);
    ChannelMoves(s, s', step, i);
    assert ChunkOk(s, i) && ChunkOk(s', i);
    if step.Succeed? {
      HeldIsSending(s, step.w);
      assert ChannelKept(s, step.w);
    }
  }

  lemma {:induction false} StepKeepsByChannel(s: SState, s': SState, step: Step)
    requires Shape(s) && Shape(s') && Ownership(s) && NextStep(s, s', step) && s'.start == s.start && ByChannel(s)
    ensures ByChannel(s')
  {
    ChunkCount(s, s', step);
    StepKeepsFrame(s, s', step);
    forall w: nat | w < |s'.workers|
      ensures ChannelKept(s', w)
    {
      StepKeepsChannel(s, s', step, w);
    }
    forall i: nat | i < |s'.chunks|
      ensures CreditNamed(s', i)
    {
      StepKeepsNamed(s, s', step, i);
    }
  }

  lemma {:induction false} RunKeepsByChannel(run: seq<SState>, k: nat)
    requires IsRun(run) && k < |run|
    ensures ByChannel(run[k])
  {
    if k > 0 {
      RunKeepsByChannel(run, k - 1);
      NextKeepsByChannel(run, k - 1);
    }
  }

  lemma {:induction false} NextKeepsByChannel(run: seq<SState>, j: nat)
    requires IsRun(run) && j + 1 < |run| && ByChannel(run[j])
    ensures ByChannel(run[j + 1])
  {
    RunKeepsInv(run, j);
    RunKeepsInv(run, j + 1);
    RunKeepsStart(run, j);
    RunKeepsStart(run, j + 1);
    assert StepAt(run, j);
    hide Shape, Ownership, Counters, Bounded, Drained, Attempts, ByChannel, IsRun, NextStep;
    var step :| NextStep(run[j], run[j + 1], step);
    StepKeepsByChannel(run[j], run[j + 1], step);
  }

  /** The bytes of the first k chunks that this run completed over one of these channels. */
  ghost function CompletedOn(s: SState, channels: set<string>, k: nat): int
    requires k <= |s.chunks| == |s.start|
  {
    if k == 0 then 0
    else
      var c := s.chunks[k - 1];
      CompletedOn(s, channels, k - 1)
      + (if !s.start[k - 1].status.Done? && c.status.Done? && c.channel in channels then c.size else 0)
  }

  /** What a running attempt over one of these channels has put on its counter so far. */
  ghost function StreamedOn(channels: set<string>): Worker -> int {
    (w: Worker) => if w.Holding? && w.channel in channels then w.counted else 0
  }

  lemma {:induction false} CreditedIsCompleted(s: SState, counter: Counter, channels: set<string>, k: nat)
    requires |s.chunks| == |s.credits| && Credits(s) && ByChannel(s) && k <= |s.chunks| && counter != NoCounter
    requires forall ch: string :: ch in channels <==> CounterOf(ch) == counter
    ensures SumBy(CreditedOn(counter), s.credits[..k]) == CompletedOn(s, channels, k)
  {
    if k > 0 {
      CreditedIsCompleted(s, counter, channels, k - 1);
      assert s.credits[..k][..k - 1] == s.credits[..k - 1];
      assert CreditNamed(s, k - 1) && CreditOk(s.credits[k - 1], s.chunks[k - 1]);
    }
  }

  lemma {:induction false} CounterByChannel(s: SState, counter: Counter, channels: set<string>)
    requires |s.chunks| == |s.credits| && Credits(s) && ByChannel(s) && counter != NoCounter
    requires forall ch: string :: ch in channels <==> CounterOf(ch) == counter
    ensures SumBy(CreditedOn(counter), s.credits) == CompletedOn(s, channels, |s.chunks|)
    ensures SumBy(CountedOn(counter), s.workers) == SumBy(StreamedOn(channels), s.workers)
  {
    CreditedIsCompleted(s, counter, channels, |s.chunks|);
    assert s.credits[..|s.chunks|] == s.credits;
    SumByMonotone(CountedOn(counter), StreamedOn(channels), s.workers);
    SumByMonotone(StreamedOn(channels), CountedOn(counter), s.workers);
  }

  /**
   * Each counter belongs to its channels: at any moment of any run it is the size of the chunks
   * this run completed over them, by the channel each chunk's record names, plus what the
   * attempts now running over them have streamed. Any other channel counts nowhere.
   */
  lemma {:induction false} CountersByChannel(run: seq<SState>, k: nat)
    requires IsRun(run) && k < |run|
    ensures var s := run[k]; var n := |s.chunks|;
      && n == |s.start|
      && s.cable == CompletedOn(s, {"cable", "loopback", "local"}, n)
                    + SumBy(StreamedOn({"cable", "loopback", "local"}), s.workers)
      && s.wifi == CompletedOn(s, {"wifi"}, n) + SumBy(StreamedOn({"wifi"}), s.workers)
  {
    RunKeepsInv(run, k);
    RunKeepsByChannel(run, k);
    CounterByChannel(run[k], CableCounter, {"cable", "loopback", "local"});
    CounterByChannel(run[k], WifiCounter, {"wifi"});
  }

  /**
   * At the end of a successful run that took every chunk for a counted channel, the counters
   * show exactly the bytes the run had to send: the file minus what earlier runs had completed.
   */
  lemma {:induction false} ProgressEndsComplete(run: seq<SState>, k: nat)
    requires IsRun(run) && k < |run| && run[k].outcome == Succeeded && CountedPicks(run, k)
    ensures run[k].cable + run[k].wifi == SumBy(ToSend, run[0].start)
  {
    RunKeepsCounted(run, k);
    PoolDrain(run, k);
    RunKeepsInv(run, k);
    RunKeepsStart(run, k);
    var s := run[k];
    CountersTotal(s);
    SumByZero(Live, s.workers);
    forall i | 0 <= i < |s.credits|
      ensures Credited(s.credits[i]) == ToSend(s.start[i])
    {
      assert CreditOk(s.credits[i], s.chunks[i]) && ChunkOk(s, i) && CreditFits(s, i);
    }
    SumByPointwise(Credited, s.credits, ToSend, s.start);
    SumByPointwise(ToSend, s.start, Credited, s.credits);
  }

  /** What a step may do to one chunk's record: done stays done, and only Succeed makes it so. */
  lemma {:induction false} DoneMoves(s: SState, s': SState, step: Step, i: nat)
    requires Shape(s) && Ownership(s) && NextStep(s, s', step) && i < |s.chunks|
    ensures |s'.chunks| == |s.chunks|
    ensures s.chunks[i].status.Done? ==> s'.chunks[i] == s.chunks[i]
    ensures s'.chunks[i].status.Done? && !s.chunks[i].status.Done? ==>
      step.Succeed? && IsHolding(s, step.w) && s.workers[step.w].idx == i
  {
    if IsRelease(step) {
      ReleaseFacts(s, s', step);
    }
  }

  lemma {:induction false} AttemptsGrowByPicks(s: SState, s': SState, step: Step)
    requires NextStep(s, s', step)
    ensures |s'.attempts| - |s.attempts| == s'.picks - s.picks
  {
  }

  /** picks counts the attempts the run has added to the log. */
  lemma {:induction false} PicksAreLogged(run: seq<SState>, k: nat)
    requires IsRun(run) && k < |run|
    ensures |run[k].attempts| - |run[0].attempts| == run[k].picks
  {
    if k > 0 {
      PicksAreLogged(run, k - 1);
      assert StepAt(run, k - 1);
      var step :| NextStep(run[k - 1], run[k], step);
      AttemptsGrowByPicks(run[k - 1], run[k], step);
    }
  }

  /**
   * A file of no bytes has no chunks: the run can only be canceled, fail or succeed without
   * ever starting an attempt, so the receiver never hears of it.
   */
  lemma {:induction false} EmptyFileSucceedsUnsent(run: seq<SState>, k: nat)
    requires IsRun(run) && k < |run| && run[0].start == []
    ensures run[k].picks == 0 && run[k].attempts == run[0].attempts
    ensures run[k].outcome != Incomplete
  {
    RunKeepsStart(run, k);
    BoundedWork(run, k);
    PicksAreLogged(run, k);
    if run[k].outcome == Incomplete {
      PoolDrain(run, k);
    }
  }
}
