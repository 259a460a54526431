/**
 * One send as the program runs it: the shared manifest mutated under the lock, the inFlight
 * map, the two live counters, and the throttled saver. Each method is one critical section
 * of a worker; the history it keeps is a run of the pool's machine, so whatever is proved of
 * every run holds of this object.
 */
module SenderRun {
  import opened Plan
  import opened ManifestState
  import opened Ordering
  import opened SessionFiles
  import P = Protocol
  import S = SenderPool

  const SAVE_INTERVAL := 750 // milliseconds

  /** manifestSaver: writes at most once per interval unless forced; a failed write is remembered. */
  class ManifestSaver {
    var disk: seq<ChunkState>
    var last: Option<int>
    var lastErr: bool

    constructor (disk: seq<ChunkState>)
      ensures this.disk == disk && last.None? && !lastErr
    {
      this.disk, last, lastErr := disk, None, false;
    }

    method Save(chunks: seq<ChunkState>, force: bool, now: int, writable: bool) returns (written: bool)
      modifies this
      ensures written <==> writable && (force || old(last).None? || now - old(last).value >= 750)
      ensures disk == if written then chunks else old(disk)
      ensures last == if written then Some(now) else old(last)
      ensures lastErr ==
        if force || old(last).None? || now - old(last).value >= 750 then !writable else old(lastErr)
    {
      if !force && last.Some? && now - last.value < SAVE_INTERVAL {
        return false;
      }
      if !writable {
        lastErr := true;
        return false;
      }
      disk, last, lastErr := chunks, Some(now), false;
      written := true;
    }

    method Flush(chunks: seq<ChunkState>, now: int, writable: bool) returns (ok: bool)
      modifies this
      ensures ok <==> writable
      ensures disk == if ok then chunks else old(disk)
      ensures lastErr == !ok
    {
      if !writable {
        lastErr := true;
        return false;
      }
      disk, last, lastErr := chunks, Some(now), false;
      ok := true;
    }
  }

  function Retryables(cs: seq<ChunkState>): (r: seq<ChunkState>)
    ensures forall c :: c in r <==> c in cs && S.Retryable(c)
  {
    if cs == [] then []
    else
      var last := cs[|cs| - 1];
      assert cs == cs[..|cs| - 1] + [last];
      Retryables(cs[..|cs| - 1]) + (if S.Retryable(last) then [last] else [])
  }

  lemma {:induction false} RetryablesInOrder(cs: seq<ChunkState>, n: nat)
    requires Numbered(cs) && n <= |cs|
    ensures Increasing(Retryables(cs[..n]))
  {
    if n > 0 {
      RetryablesInOrder(cs, n - 1);
      assert cs[..n][..n - 1] == cs[..n - 1];
      var front := Retryables(cs[..n - 1]);
      forall i | 0 <= i < |front|
        ensures front[i].index < n - 1
      {
        assert front[i] in front;
      }
      assert cs[..n][n - 1].index == n - 1;
    }
  }

  class Run {
    const mf: Manifest
    const saver: ManifestSaver
    var workers: seq<S.Worker>
    var inFlight: map<string, nat>
    var sentCable: int
    var sentWifi: int
    var canceled: bool
    var hardErr: bool
    var outcome: S.Outcome
    ghost var start: seq<ChunkState>
    ghost var credits: seq<S.Credit>
    ghost var picks: nat
    var attempts: seq<nat> // chunk of each connection ever opened, in order
    ghost var history: seq<S.SState>
    ghost var savedAt: nat

    ghost function State(): S.SState
      reads this, mf
    {
      S.SState(mf.chunks, workers, inFlight, sentCable, sentWifi, canceled, hardErr, outcome, start, credits,
        picks, attempts)
    }

    /** This object is where its history, a run of the pool, leads; the saved manifest is one the run went through. */
    ghost predicate Valid()
      reads this, mf, saver
    {
      && history != [] && S.IsRun(history) && history[|history| - 1] == State()
      && savedAt < |history| && saver.disk == history[savedAt].chunks
    }

    constructor (chunks: seq<ChunkState>, workerCount: nat, attempts: seq<nat>)
      requires S.StartOk(chunks) && workerCount > 0
      ensures Valid() && fresh(mf) && fresh(saver) && mf.chunks == chunks && saver.disk == chunks
      ensures workers == seq(workerCount, _ => S.Idle) && start == chunks && outcome == S.Running
    {
      mf := new Manifest(chunks);
      saver := new ManifestSaver(chunks);
      workers := seq(workerCount, _ => S.Idle);
      inFlight, sentCable, sentWifi, canceled, hardErr, outcome := map[], 0, 0, false, false, S.Running;
      start, credits, picks := chunks, seq(|chunks|, _ => S.Credit(S.NoCounter, 0)), 0;
      this.attempts := attempts;
      history := [S.NewRun(chunks, workerCount, attempts)];
      savedAt := 0;
    }

    /** The pool's machine took a step to the state this object is now in. */
    ghost method Took(step: S.Step)
      requires history != [] && S.IsRun(history) && S.NextStep(history[|history| - 1], State(), step)
      requires savedAt < |history| && saver.disk == history[savedAt].chunks
      modifies this`history
      ensures Valid() && |history| == |old(history)| + 1
    {
      ExtendRun(history, State(), step);
      history := history + [State()];
    }

    /** saver.save, right after the step that changed the manifest. */
    method SaveThrottled(force: bool, now: int, writable: bool)
      requires Valid()
      modifies saver, this`savedAt
      ensures Valid()
      ensures var due := force || old(saver.last).None? || now - old(saver.last).value >= 750;
        saver.disk == if due && writable then mf.chunks else old(saver.disk)
    {
      var written := saver.Save(mf.chunks, force, now, writable);
      if written {
        savedAt := |history| - 1;
      }
    }

    /** retryablePending: every chunk a worker may take, in manifest order. */
    method RetryablePending() returns (out: seq<ChunkState>)
      ensures out == Retryables(mf.chunks)
      ensures forall c :: c in out <==>
        c in mf.chunks && (c.status.Pending? || (c.status.Failed? && c.attempts < 3))
      ensures Numbered(mf.chunks) ==> Increasing(out)
      ensures out == [] <==> forall i :: 0 <= i < |mf.chunks| ==> !S.Retryable(mf.chunks[i])
    {
      out := [];
      var i := 0;
      while i < |mf.chunks|
        invariant i <= |mf.chunks| && out == Retryables(mf.chunks[..i])
      {
        var c := mf.chunks[i];
        assert mf.chunks[..i + 1][..i] == mf.chunks[..i];
        if c.status.Pending? || (c.status.Failed? && c.attempts < S.MAX_ATTEMPTS) {
          out := out + [c];
        }
        i := i + 1;
      }
      assert mf.chunks[..i] == mf.chunks;
      if Numbered(mf.chunks) {
        RetryablesInOrder(mf.chunks, |mf.chunks|);
      }
      if out == [] {
        forall k | 0 <= k < |mf.chunks|
          ensures !S.Retryable(mf.chunks[k])
        {
          assert mf.chunks[k] in mf.chunks;
        }
      } else {
        assert out[0] in mf.chunks && S.Retryable(out[0]);
      }
    }

    ghost predicate Working(w: nat)
      reads this, mf
    {
      S.IsHolding(State(), w)
    }

    /**
     * A worker takes chunk i on a channel: mark it sending, count it in flight, maybe save. The
     * lookup always finds it.
     */
    method Take(w: nat, i: nat, channel: string, now: int, writable: bool) returns (found: bool, c: ChunkState)
      requires Valid() && outcome == S.Running && w < |workers| && workers[w].Idle?
      requires i < |mf.chunks| && S.Retryable(mf.chunks[i])
      modifies this, mf, saver
      ensures mf.chunks == old(mf.chunks)[i := SendingOn(old(mf.chunks)[i], channel)]
      ensures Valid() && found && c == mf.chunks[i] && start == old(start)
      ensures inFlight == old(inFlight)[channel := S.Count(old(inFlight), channel) + 1]
      ensures workers == old(workers)[w := S.Holding(i, channel, |old(attempts)|, 0, false)]
      ensures sentCable == old(sentCable) && sentWifi == old(sentWifi)
      ensures canceled == old(canceled) && hardErr == old(hardErr) && outcome == S.Running
    {
      found, c := MarkTaken(w, i, channel);
      SaveThrottled(false, now, writable);
    }

    method MarkTaken(w: nat, i: nat, channel: string) returns (found: bool, c: ChunkState)
      requires Valid() && outcome == S.Running && w < |workers| && workers[w].Idle?
      requires i < |mf.chunks| && S.Retryable(mf.chunks[i])
      modifies mf, this`inFlight, this`workers, this`attempts, this`picks, this`history
      ensures mf.chunks == old(mf.chunks)[i := SendingOn(old(mf.chunks)[i], channel)]
      ensures Valid() && found && c == mf.chunks[i]
      ensures inFlight == old(inFlight)[channel := S.Count(old(inFlight), channel) + 1]
      ensures workers == old(workers)[w := S.Holding(i, channel, |old(attempts)|, 0, false)]
    {
      FindsChunk(history, |history| - 1, i);
      hide S.IsRun, Find, SendingOn, S.Retryable, S.NextStep;
      ghost var was := State();
      found, c := mf.MarkAndGetSending(i, channel);
      BeginAttempt(w, i, channel, was);
    }

    /** The chunk is marked: count it in flight, and the worker holds it. */
    method BeginAttempt(w: nat, i: nat, channel: string, ghost was: S.SState)
      requires history != [] && S.IsRun(history) && history[|history| - 1] == was
      requires savedAt < |history| && saver.disk == history[savedAt].chunks
      requires outcome == S.Running && w < |workers| && workers[w].Idle?
      requires i < |was.chunks| && S.Retryable(was.chunks[i])
      requires State() == was.(chunks := was.chunks[i := SendingOn(was.chunks[i], channel)])
      modifies this`inFlight, this`workers, this`attempts, this`picks, this`history
      ensures Valid()
      ensures inFlight == old(inFlight)[channel := S.Count(old(inFlight), channel) + 1]
      ensures workers == old(workers)[w := S.Holding(i, channel, |old(attempts)|, 0, false)]
    {
      hide S.IsRun, SendingOn, S.Retryable, S.NextStep;
      inFlight := inFlight[channel := S.Count(inFlight, channel) + 1];
      workers := workers[w := S.Holding(i, channel, |attempts|, 0, false)];
      attempts, picks := attempts + [i], picks + 1;
      PickIsStep(was, State(), w, i, channel);
      Took(S.Pick(w, i, channel));
    }

    /** A worker leaves: the run was stopped, or nothing is pending right now. */
    method Leave(w: nat) returns (left: bool)
      requires Valid() && outcome == S.Running && w < |workers| && workers[w].Idle?
      modifies this`workers, this`history
      ensures Valid()
      ensures left <==> canceled || hardErr || forall i :: 0 <= i < |mf.chunks| ==> !S.Retryable(mf.chunks[i])
      ensures workers == if left then old(workers)[w := S.Exited] else old(workers)
    {
      var pending := RetryablePending();
      left := canceled || hardErr || pending == [];
      if left {
        workers := workers[w := S.Exited];
        Took(S.Exit(w));
      }
    }

    method CancelContext()
      requires Valid()
      modifies this`canceled, this`history
      ensures Valid() && canceled
    {
      canceled := true;
      Took(S.UserCancel);
    }

    /** progressReader.Read: n more bytes went out on the worker's channel. */
    method CountBytes(w: nat, n: nat)
      requires Valid() && Working(w) && !workers[w].failed && S.CounterOf(workers[w].channel) != S.NoCounter
      requires workers[w].counted + n <= mf.chunks[workers[w].idx].size
      modifies this`sentCable, this`sentWifi, this`workers, this`history
      ensures Valid()
      ensures var onCable := old(workers)[w].channel in {"cable", "loopback", "local"};
        && sentCable == old(sentCable) + (if onCable then n else 0)
        && sentWifi == old(sentWifi) + (if onCable then 0 else n)
        && (!onCable ==> old(workers)[w].channel == "wifi")
      ensures workers == old(workers)[w := old(workers)[w].(counted := old(workers)[w].counted + n)]
    {
      hide S.IsRun;
      var h := workers[w];
      if h.channel == "cable" || h.channel == "loopback" || h.channel == "local" {
        sentCable := sentCable + n;
      } else {
        sentWifi := sentWifi + n;
      }
      workers := workers[w := h.(counted := h.counted + n)];
      Took(S.Stream(w, n));
    }

    /** The attempt was acknowledged: no longer in flight, done, maybe save. */
    method Complete(w: nat, digest: Digest, now: int, writable: bool)
      requires Valid() && Working(w) && !workers[w].failed
      requires S.CounterOf(workers[w].channel) != S.NoCounter ==> workers[w].counted == mf.chunks[workers[w].idx].size
      modifies this, mf, saver
      ensures Valid() && start == old(start) && sentCable == old(sentCable) && sentWifi == old(sentWifi)
      ensures var i := old(workers)[w].idx;
        mf.chunks == old(mf.chunks)[i := DoneWith(old(mf.chunks)[i], old(mf.chunks)[i].size, digest)]
      ensures workers == old(workers)[w := S.Idle] && inFlight == S.Dec(old(inFlight), old(workers)[w].channel)
    {
      MarkCompleted(w, digest);
      SaveThrottled(false, now, writable);
    }

    method MarkCompleted(w: nat, digest: Digest)
      requires Valid() && Working(w) && !workers[w].failed
      requires S.CounterOf(workers[w].channel) != S.NoCounter ==> workers[w].counted == mf.chunks[workers[w].idx].size
      modifies mf, this`inFlight, this`workers, this`credits, this`history
      ensures Valid()
      ensures var i := old(workers)[w].idx;
        mf.chunks == old(mf.chunks)[i := DoneWith(old(mf.chunks)[i], old(mf.chunks)[i].size, digest)]
      ensures workers == old(workers)[w := S.Idle] && inFlight == S.Dec(old(inFlight), old(workers)[w].channel)
    {
      var h := workers[w];
      FindsChunk(history, |history| - 1, h.idx);
      CreditsAlign(history, |history| - 1);
      hide S.IsRun, Find, S.CounterOf;
      ReleaseInFlight(h.channel);
      mf.MarkDone(h.idx, mf.chunks[h.idx].size, digest);
      workers := workers[w := S.Idle];
      credits := credits[h.idx := S.Credit(S.CounterOf(h.channel), h.counted)];
      Took(S.Succeed(w, digest));
    }

    /** The guarded decrement of inFlight. */
    method ReleaseInFlight(channel: string)
      modifies this`inFlight
      ensures inFlight == S.Dec(old(inFlight), channel)
    {
      if S.Count(inFlight, channel) > 0 {
        inFlight := inFlight[channel := inFlight[channel] - 1];
      }
    }

    /** The send returned an error: progressReader.rollback takes its bytes back, outside the lock. */
    method Rollback(w: nat)
      requires Valid() && Working(w) && !workers[w].failed
      modifies this`sentCable, this`sentWifi, this`workers, this`history
      ensures Valid() && workers == old(workers)[w := old(workers)[w].(counted := 0, failed := true)]
      ensures var h := old(workers)[w];
        && sentCable == old(sentCable) - (if h.channel in {"cable", "loopback", "local"} then h.counted else 0)
        && sentWifi == old(sentWifi) - (if h.channel == "wifi" then h.counted else 0)
    {
      hide S.IsRun;
      var h := workers[w];
      match S.CounterOf(h.channel) {
        case CableCounter => sentCable := sentCable - h.counted;
        case WifiCounter => sentWifi := sentWifi - h.counted;
        case NoCounter =>
      }
      workers := workers[w := h.(counted := 0, failed := true)];
      Took(S.Rollback(w));
    }

    /** Back to pending while attempts are left; otherwise the run fails. */
    method MarkFailure(i: nat, err: string)
      requires i < |mf.chunks| && Find(mf.chunks, i) == i
      modifies mf, this`hardErr
      ensures mf.chunks == old(mf.chunks)[i := S.AfterFailure(old(mf.chunks)[i], err)]
      ensures hardErr == (old(hardErr) || mf.chunks[i].status.Failed?)
      ensures var c, c' := old(mf.chunks)[i], mf.chunks[i];
        && c' == c.(status := c'.status, attempts := c.attempts + 1, lastError := err)
        && (c'.attempts < 3 ==> c'.status.Pending? && hardErr == old(hardErr))
        && (c'.attempts >= 3 ==> c'.status.Failed? && hardErr)
    {
      mf.MarkFailed(i, err);
      if mf.chunks[i].attempts < S.MAX_ATTEMPTS {
        mf.chunks := mf.chunks[i := mf.chunks[i].(status := Pending)];
      } else {
        hardErr := true;
      }
    }

    /** Under the lock again after a failed attempt: the chunk is pending again or ends the run. */
    method FailAttempt(w: nat, err: string, now: int, writable: bool)
      requires Valid() && Working(w) && workers[w].failed
      modifies this, mf, saver
      ensures Valid() && start == old(start) && credits == old(credits)
      ensures sentCable == old(sentCable) && sentWifi == old(sentWifi)
      ensures var h := old(workers)[w];
        && mf.chunks == old(mf.chunks)[h.idx := S.AfterFailure(old(mf.chunks)[h.idx], err)]
        && inFlight == S.Dec(old(inFlight), h.channel)
      ensures workers == old(workers)[w := S.Idle]
      ensures hardErr == (old(hardErr) || mf.chunks[old(workers)[w].idx].status.Failed?)
      ensures var i := old(workers)[w].idx; var c, c' := old(mf.chunks)[i], mf.chunks[i];
        && c' == c.(status := c'.status, attempts := c.attempts + 1, lastError := err)
        && (c'.attempts < 3 ==> c'.status.Pending? && hardErr == old(hardErr))
        && (c'.attempts >= 3 ==> c'.status.Failed? && hardErr)
      ensures hardErr && writable ==> saver.disk == mf.chunks
    {
      RecordFailure(w, err);
      SaveThrottled(hardErr, now, writable);
    }

    method RecordFailure(w: nat, err: string)
      requires Valid() && Working(w) && workers[w].failed
      modifies mf, this`inFlight, this`workers, this`hardErr, this`history
      ensures Valid()
      ensures var h := old(workers)[w];
        && mf.chunks == old(mf.chunks)[h.idx := S.AfterFailure(old(mf.chunks)[h.idx], err)]
        && inFlight == S.Dec(old(inFlight), h.channel)
      ensures workers == old(workers)[w := S.Idle]
      ensures hardErr == (old(hardErr) || mf.chunks[old(workers)[w].idx].status.Failed?)
    {
      var h := workers[w];
      FindsChunk(history, |history| - 1, h.idx);
      hide S.IsRun, Find, S.AfterFailure, S.CounterOf, S.Dec;
      ReleaseInFlight(h.channel);
      MarkFailure(h.idx, err);
      workers := workers[w := S.Idle];
      Took(S.Fail(w, err));
    }

    /** The source could not be hashed: the chunk fails, the run ends, the worker is gone. */
    method FailHash(w: nat, err: string, now: int, writable: bool)
      requires Valid() && Working(w) && workers[w].counted == 0 && !workers[w].failed
      modifies this, mf, saver
      ensures Valid() && hardErr && workers == old(workers)[w := S.Exited]
      ensures var h := old(workers)[w];
        && mf.chunks == old(mf.chunks)[h.idx := FailedWith(old(mf.chunks)[h.idx], err)]
        && inFlight == S.Dec(old(inFlight), h.channel)
      ensures var i := old(workers)[w].idx; var c := old(mf.chunks)[i];
        mf.chunks[i] == c.(status := Failed, attempts := c.attempts + 1, lastError := err)
      ensures writable ==> saver.disk == mf.chunks
    {
      var h := workers[w];
      FindsChunk(history, |history| - 1, h.idx);
      ReleaseInFlight(h.channel);
      mf.MarkFailed(h.idx, err);
      hardErr := true;
      workers := workers[w := S.Exited];
      Took(S.HashFail(w, err));
      SaveThrottled(true, now, writable);
    }

    method AllDone() returns (all: bool)
      ensures all <==> forall i :: 0 <= i < |mf.chunks| ==> mf.chunks[i].status.Done?
    {
      var i := 0;
      while i < |mf.chunks|
        invariant i <= |mf.chunks| && forall k :: 0 <= k < i ==> mf.chunks[k].status.Done?
      {
        if !mf.chunks[i].status.Done? {
          return false;
        }
        i := i + 1;
      }
      all := true;
    }

    /**
     * What follows wg.Wait(): the outcome, decided in the source's order. A reported success
     * is on disk, and it means every chunk is done; without a cancel, a hard error or a
     * failed flush the run reports it exactly when it began with no exhausted chunk.
     */
    method Conclude(now: int, writable: bool)
      requires Valid() && outcome == S.Running
      requires forall w :: 0 <= w < |workers| ==> workers[w].Exited?
      modifies this, mf, saver
      ensures Valid() && start == old(start)
      ensures outcome == S.CanceledByUser <==> old(canceled)
      ensures outcome == S.HardFailed <==> !old(canceled) && old(hardErr)
      ensures outcome == S.FlushFailed <==> !old(canceled) && !old(hardErr) && !writable
      ensures outcome == S.Succeeded <==>
        !old(canceled) && !old(hardErr) && writable && forall i :: 0 <= i < |start| ==> !S.Exhausted(start[i])
      ensures outcome == S.Succeeded ==>
        saver.disk == mf.chunks && forall i :: 0 <= i < |mf.chunks| ==> mf.chunks[i].status.Done?
      ensures mf.chunks == if old(canceled) then CancelAll(old(mf.chunks)) else old(mf.chunks)
      ensures writable ==> saver.disk == mf.chunks
      ensures old(canceled) && writable ==>
        forall i :: 0 <= i < |saver.disk| ==> !saver.disk[i].status.Pending? && !saver.disk[i].status.Sending?
      ensures old(canceled) && writable ==>
        forall i :: 0 <= i < |old(mf.chunks)| && old(mf.chunks)[i].status in {Pending, Sending} ==>
          P.Reload(saver.disk, false).None?
    {
      hide S.IsRun;
      if canceled {
        ghost var was, before := mf.chunks, State();
        mf.MarkCanceledPending();
        outcome := S.CanceledByUser;
        Took(S.Join);
        SaveThrottled(true, now, writable);
        forall i | 0 <= i < |was| && was[i].status in {Pending, Sending}
          ensures P.Reload(mf.chunks, false).None?
        {
          P.CanceledStaysCanceled(before, State(), i);
        }
        return;
      }
      if hardErr {
        outcome := S.HardFailed;
        Took(S.Join);
        SaveThrottled(true, now, writable);
        return;
      }
      FlushAndReport(now, writable);
    }

    /** Nothing stopped the run: flush, then look for a chunk that is not done. */
    method FlushAndReport(now: int, writable: bool)
      requires Valid() && outcome == S.Running && !canceled && !hardErr
      requires forall w :: 0 <= w < |workers| ==> workers[w].Exited?
      modifies saver, this`savedAt, this`outcome, this`history
      ensures Valid() && (writable ==> saver.disk == mf.chunks)
      ensures outcome in {S.FlushFailed, S.Succeeded, S.Incomplete} && (outcome == S.FlushFailed <==> !writable)
      ensures outcome == S.Succeeded <==> writable && forall i :: 0 <= i < |start| ==> !S.Exhausted(start[i])
      ensures outcome == S.Succeeded ==>
        saver.disk == mf.chunks && forall i :: 0 <= i < |mf.chunks| ==> mf.chunks[i].status.Done?
    {
      hide S.IsRun;
      var ok := saver.Flush(mf.chunks, now, writable);
      if ok {
        savedAt := |history| - 1;
      }
      var all := AllDone();
      outcome := if !ok then S.FlushFailed else if all then S.Succeeded else S.Incomplete;
      Took(S.Join);
      if ok {
        SuccessMeansFreshStart(history, |history| - 1);
      }
    }
  }

  lemma {:induction false} SuccessMeansFreshStart(run: seq<S.SState>, k: nat)
    requires S.IsRun(run) && k < |run| && (run[k].outcome == S.Succeeded || run[k].outcome == S.Incomplete)
    ensures run[k].outcome == S.Succeeded <==> forall i :: 0 <= i < |run[k].start| ==> !S.Exhausted(run[k].start[i])
  {
    S.PoolDrain(run, k);
    S.RunKeepsStart(run, k);
  }

  lemma {:induction false} FindsChunk(run: seq<S.SState>, k: nat, i: nat)
    requires S.IsRun(run) && k < |run| && i < |run[k].chunks|
    ensures Find(run[k].chunks, i) == i
  {
    S.InFlightCountsHolders(run, k, "");
  }

  lemma {:induction false} ExtendRun(run: seq<S.SState>, s: S.SState, step: S.Step)
    requires S.IsRun(run) && S.NextStep(run[|run| - 1], s, step)
    ensures S.IsRun(run + [s])
  {
    var run' := run + [s];
    forall k | 0 <= k < |run'| - 1
      ensures S.StepAt(run', k)
    {
      if k < |run| - 1 {
        assert S.StepAt(run, k);
      } else {
        assert run'[k] == run[k] && run'[k + 1] == s;
      }
    }
  }

  lemma {:induction false} CreditsAlign(run: seq<S.SState>, k: nat)
    requires S.IsRun(run) && k < |run|
    ensures |run[k].credits| == |run[k].chunks|
  {
    S.RunKeepsInv(run, k);
  }

  lemma {:induction false} PickIsStep(s: S.SState, s': S.SState, w: nat, i: nat, channel: string)
    requires S.PickStep(s, s', w, i, channel)
    ensures S.NextStep(s, s', S.Pick(w, i, channel))
  {
  }
}
