/**
 * When a fully delivered session gets merged. A merge only ever starts from the timer a
 * handler arms after its ack, so this is about wake-ups: which of them exist, which runs
 * cannot lose the last one, and what a session without one can still reach.
 */
module Finalization {
  import opened Plan
  import opened SessionFiles
  import opened ReceiverMachine

  /** Wake-ups that have not yet looked at the final file. */
  function Pre(r: RState): nat {
    (if r.armed then 1 else 0) + r.fired + r.waiting + (if r.lock in {FinLoad, FinStat} then 1 else 0)
  }

  /** A finalization past that look. */
  function Mid(r: RState): nat { if r.lock in {FinMerge, FinRename, FinSize, FinClean} then 1 else 0 }

  predicate Returned(phase: Phase) { phase.Closed? || (phase.Acked? && phase.returned) }

  /** Every connection accepted so far has been handled to its end. */
  ghost predicate AllReturned(r: RState) { forall a :: a in r.conns ==> Returned(r.conns[a].phase) }

  /**
   * There are wake-ups enough to finish. One is, unless the session's path is a malformed
   * pattern: then every cleanup fails, and it takes one finalization to put the file in
   * place and another to find it there.
   */
  ghost predicate WakeUp(t: Transfer, r: RState) {
    if t.glob.BadPattern? then (if Whole(t, r.dir) then Pre(r) >= 1 else Pre(r) + Mid(r) >= 2)
    else Pre(r) + Mid(r) >= 1
  }

  /** The path leads from r to done without any new connection. */
  ghost predicate ReachesDone(t: Transfer, r: RState, path: seq<RState>)
    requires Valid(t)
  {
    && path != [] && IsPath(t, path) && path[0] == r
    && path[|path| - 1].conns.Keys == r.conns.Keys && path[|path| - 1].status == MergeDone
  }

  ghost predicate CanFinish(t: Transfer, r: RState)
    requires Valid(t)
  {
    exists path :: ReachesDone(t, r, path)
  }

  // ---- finishing ----

  lemma {:induction false} Go(t: Transfer, run: seq<RState>, r: RState, step: RStep) returns (run': seq<RState>)
    requires Valid(t) && run != [] && IsPath(t, run) && Inv(t, run[|run| - 1])
    requires NextStep(t, run[|run| - 1], r, step) && (Safe(t) || !step.Sweep?)
    ensures run' != [] && IsPath(t, run') && run'[0] == run[0] && run'[|run'| - 1] == r && Inv(t, r)
  {
    StepKeepsInv(t, run[|run| - 1], r, step);
    assert Next(t, run[|run| - 1], r);
    run' := Extend(t, run, r);
  }

  /** From a free lock a wake-up gets a finalization to its look at the final file. */
  lemma {:induction false} ToStat(t: Transfer, run: seq<RState>) returns (run': seq<RState>)
    requires Valid(t) && run != [] && IsPath(t, run) && Inv(t, run[|run| - 1])
    requires var r := run[|run| - 1];
      AllSaved(t, r.saved) && r.lock == Free && r.status != MergeDone && (r.armed || r.fired > 0 || r.waiting > 0)
    ensures run' != [] && IsPath(t, run') && run'[0] == run[0] && Inv(t, run'[|run'| - 1])
    ensures var r, r' := run[|run| - 1], run'[|run'| - 1];
      && r'.lock == FinStat && r'.dir == r.dir && r'.saved == r.saved && r'.conns == r.conns && Pre(r') == Pre(r)
  {
    run' := Waiting(t, run);
    hide Inv, IsPath, Whole;
    run' := Started(t, run');
  }

  /** A finalization that waits takes the free lock and loads a manifest that is there. */
  lemma {:induction false} Started(t: Transfer, run: seq<RState>) returns (run': seq<RState>)
    requires Valid(t) && run != [] && IsPath(t, run) && Inv(t, run[|run| - 1])
    requires var r := run[|run| - 1]; AllSaved(t, r.saved) && r.lock == Free && r.waiting > 0
    ensures run' != [] && IsPath(t, run') && run'[0] == run[0] && Inv(t, run'[|run'| - 1])
    ensures run'[|run'| - 1] == run[|run| - 1].(lock := FinStat, waiting := run[|run| - 1].waiting - 1)
  {
    hide Inv, IsPath, Whole;
    var r := run[|run| - 1];
    assert 0 in r.saved by { PlanNonempty(t); }
    var r1 := r.(lock := FinLoad, waiting := r.waiting - 1);
    run' := Go(t, run, r1, FinalizeLock);
    run' := Go(t, run', r1.(lock := FinStat), Load);
  }

  /** A timer or its callback turns into a finalization that waits for the lock. */
  lemma {:induction false} Waiting(t: Transfer, run: seq<RState>) returns (run': seq<RState>)
    requires Valid(t) && run != [] && IsPath(t, run) && Inv(t, run[|run| - 1])
    requires var r := run[|run| - 1];
      r.lock == Free && r.status != MergeDone && (r.armed || r.fired > 0 || r.waiting > 0)
    ensures run' != [] && IsPath(t, run') && run'[0] == run[0] && Inv(t, run'[|run'| - 1])
    ensures var r, r' := run[|run| - 1], run'[|run'| - 1];
      && r'.lock == Free && r'.waiting > 0
      && r'.dir == r.dir && r'.saved == r.saved && r'.conns == r.conns && Pre(r') == Pre(r)
  {
    assert RunningOk(run[|run| - 1]);
    hide Inv, IsPath;
    run' := run;
    var r := run[|run| - 1];
    if r.waiting == 0 {
      if r.fired == 0 {
        run' := Go(t, run', r.(armed := false, fired := 1), TimerFires);
      }
      var c := run'[|run'| - 1];
      run' := Go(t, run', c.(fired := c.fired - 1, status := MergeRunning, waiting := 1), FinalizeStart);
    }
  }

  /** What the look at the final file leads to. */
  lemma {:induction false} FromStat(t: Transfer, run: seq<RState>) returns (run': seq<RState>)
    requires Valid(t) && run != [] && IsPath(t, run) && Inv(t, run[|run| - 1]) && run[|run| - 1].lock == FinStat
    ensures run' != [] && IsPath(t, run') && run'[0] == run[0] && Inv(t, run'[|run'| - 1])
    ensures var r, r' := run[|run| - 1], run'[|run'| - 1];
      && r'.saved == r.saved && r'.conns == r.conns && Pre(r') == Pre(r) - 1
      && if Whole(t, r.dir) then r'.status == MergeDone && r'.dir == r.dir
         else r'.lock == FinMerge && r'.dir == r.dir - {t.name}
  {
    var r := run[|run| - 1];
    assert t.name in r.dir ==> RightIfFull(t, r.dir[t.name]);
    hide Inv, IsPath;
    assert t.name !in r.dir ==> r.dir - {t.name} == r.dir;
    var r' := if t.name !in r.dir then r.(lock := FinMerge)
              else if |r.dir[t.name]| == |t.source| then FinishFinalize(r)
              else r.(dir := r.dir - {t.name}, lock := FinMerge);
    run' := Go(t, run, r', StatFinal);
  }

  /** With every chunk recorded, a merge under way gets the source into place. */
  lemma {:induction false} MidToClean(t: Transfer, run: seq<RState>) returns (run': seq<RState>)
    requires Valid(t) && run != [] && IsPath(t, run) && Inv(t, run[|run| - 1])
    requires var r := run[|run| - 1]; AllSaved(t, r.saved) && Mid(r) == 1
    ensures run' != [] && IsPath(t, run') && run'[0] == run[0] && Inv(t, run'[|run'| - 1])
    ensures var r, r' := run[|run| - 1], run'[|run'| - 1];
      && r'.lock == FinClean && Whole(t, r'.dir)
      && r'.saved == r.saved && r'.conns == r.conns && Pre(r') == Pre(r)
  {
    var lock := run[|run| - 1].lock;
    if lock == FinMerge {
      run' := MergeThere(t, run);
      hide Inv, IsPath;
      run' := RenameToClean(t, run');
    } else if lock == FinRename {
      hide Inv, IsPath;
      run' := RenameToClean(t, run);
    } else if lock == FinSize {
      run' := SizeThere(t, run);
    } else {
      run' := run;
    }
  }

  lemma {:induction false} RenameToClean(t: Transfer, run: seq<RState>) returns (run': seq<RState>)
    requires Valid(t) && run != [] && IsPath(t, run) && Inv(t, run[|run| - 1])
    requires var r := run[|run| - 1]; AllSaved(t, r.saved) && r.lock == FinRename
    ensures run' != [] && IsPath(t, run') && run'[0] == run[0] && Inv(t, run'[|run'| - 1])
    ensures var r, r' := run[|run| - 1], run'[|run'| - 1];
      r' == r.(dir := r'.dir, lock := FinClean) && Whole(t, r'.dir)
  {
    run' := RenameThere(t, run);
    assert LockOk(t, run'[|run'| - 1]);
    hide Inv, IsPath;
    run' := SizeThere(t, run');
  }

  lemma {:induction false} MergeThere(t: Transfer, run: seq<RState>) returns (run': seq<RState>)
    requires Valid(t) && run != [] && IsPath(t, run) && Inv(t, run[|run| - 1])
    requires var r := run[|run| - 1]; AllSaved(t, r.saved) && r.lock == FinMerge
    ensures run' != [] && IsPath(t, run') && run'[0] == run[0] && Inv(t, run'[|run'| - 1])
    ensures var r, r' := run[|run| - 1], run'[|run'| - 1];
      r' == r.(dir := r.dir[TmpPath(t.name) := t.source], lock := FinRename)
  {
    var r := run[|run| - 1];
    assert r.dir - {t.name} == r.dir;
    MergeGivesSource(t, r, r.dir);
    run' := Go(t, run, r.(dir := r.dir[TmpPath(t.name) := t.source], lock := FinRename), Merge);
  }

  lemma {:induction false} RenameThere(t: Transfer, run: seq<RState>) returns (run': seq<RState>)
    requires Valid(t) && run != [] && IsPath(t, run) && Inv(t, run[|run| - 1]) && run[|run| - 1].lock == FinRename
    ensures run' != [] && IsPath(t, run') && run'[0] == run[0] && Inv(t, run'[|run'| - 1])
    ensures var r, r' := run[|run| - 1], run'[|run'| - 1];
      r' == r.(dir := r'.dir, lock := FinSize)
  {
    var r := run[|run| - 1];
    var dir := (r.dir - {TmpPath(t.name)})[t.name := r.dir[TmpPath(t.name)]];
    run' := Go(t, run, r.(dir := dir, lock := FinSize), RenameFinal);
  }

  lemma {:induction false} SizeThere(t: Transfer, run: seq<RState>) returns (run': seq<RState>)
    requires Valid(t) && run != [] && IsPath(t, run) && Inv(t, run[|run| - 1])
    requires var r := run[|run| - 1]; AllSaved(t, r.saved) && r.lock == FinSize
    ensures run' != [] && IsPath(t, run') && run'[0] == run[0] && Inv(t, run'[|run'| - 1])
    ensures run'[|run'| - 1] == run[|run| - 1].(lock := FinClean)
  {
    run' := Go(t, run, run[|run| - 1].(lock := FinClean), CheckSize);
  }

  lemma {:induction false} SweepRest(dir: Dir, path: string)
    requires path in dir && Swept(path)
    ensures AfterSweep(dir - {path}) == AfterSweep(dir) && |dir - {path}| < |dir|
  {
  }

  lemma {:induction false} SweptClean(dir: Dir)
    ensures AfterSweep(AfterSweep(dir)) == AfterSweep(dir)
    ensures (forall p :: p in dir ==> !Swept(p)) ==> AfterSweep(dir) == dir
  {
  }

  /** The cleanup loop: everything the sweep takes goes, nothing else does. */
  lemma {:induction false} SweepAll(t: Transfer, run: seq<RState>) returns (run': seq<RState>)
    requires Valid(t) && t.glob.Finds? && IsPath(t, run) && run[|run| - 1].lock == FinClean
    ensures IsPath(t, run') && run'[0] == run[0]
    ensures var r, r' := run[|run| - 1], run'[|run'| - 1]; r' == r.(dir := AfterSweep(r.dir))
    decreases |run[|run| - 1].dir|
  {
    var r := run[|run| - 1];
    if path :| path in r.dir && Swept(path) {
      var r1 := r.(dir := r.dir - {path});
      ByFinalize(t, r, r1, Sweep(path));
      run' := Extend(t, run, r1);
      SweepRest(r.dir, path);
      run' := SweepAll(t, run');
    } else {
      run' := run;
      SweptClean(r.dir);
    }
  }

  /** From the cleanup to done. */
  lemma {:induction false} CleanupReachesDone(t: Transfer, run: seq<RState>) returns (run': seq<RState>)
    requires Valid(t) && !t.glob.BadPattern? && IsPath(t, run) && run[|run| - 1].lock == FinClean
    ensures IsPath(t, run') && run'[0] == run[0]
    ensures var r, r' := run[|run| - 1], run'[|run'| - 1];
      && r'.status == MergeDone && r'.dir == (if t.glob.Finds? then AfterSweep(r.dir) else r.dir)
      && r'.conns == r.conns
  {
    run' := run;
    if t.glob.Finds? {
      run' := SweepAll(t, run);
      SweptClean(run[|run| - 1].dir);
    }
    var c := run'[|run'| - 1];
    ByFinalize(t, c, FinishFinalize(c), Cleaned);
    run' := Extend(t, run', FinishFinalize(c));
  }

  /** A finalization past its look at the final file: done or, with a malformed pattern, failed with the file there. */
  lemma {:induction false} MidToEnd(t: Transfer, run: seq<RState>) returns (run': seq<RState>)
    requires Valid(t) && run != [] && IsPath(t, run) && Inv(t, run[|run| - 1])
    requires var r := run[|run| - 1]; AllSaved(t, r.saved) && Mid(r) == 1
    ensures run' != [] && IsPath(t, run') && run'[0] == run[0]
    ensures var r, r' := run[|run| - 1], run'[|run'| - 1];
      && r'.conns == r.conns
      && if t.glob.BadPattern?
         then Inv(t, r') && r'.lock == Free && r'.status == MergeFailed && Whole(t, r'.dir)
              && r'.saved == r.saved && Pre(r') == Pre(r)
         else r'.status == MergeDone
  {
    run' := MidToClean(t, run);
    if t.glob.BadPattern? {
      run' := Go(t, run', FailFinalize(run'[|run'| - 1]), FinalizeError(false));
    } else {
      run' := CleanupReachesDone(t, run');
    }
  }

  /** From the look at the final file to done, when it is whole or wake-ups suffice. */
  lemma {:induction false} StatToDone(t: Transfer, run: seq<RState>) returns (run': seq<RState>)
    requires Valid(t) && run != [] && IsPath(t, run) && Inv(t, run[|run| - 1])
    requires var r := run[|run| - 1];
      AllSaved(t, r.saved) && r.lock == FinStat && (t.glob.BadPattern? ==> Whole(t, r.dir) || Pre(r) >= 2)
    ensures run' != [] && IsPath(t, run') && run'[0] == run[0]
    ensures run'[|run'| - 1].status == MergeDone && run'[|run'| - 1].conns == run[|run| - 1].conns
  {
    run' := FromStat(t, run);
    if run'[|run'| - 1].status != MergeDone || run'[|run'| - 1].lock == FinMerge {
      run' := MidToEnd(t, run');
      if t.glob.BadPattern? {
        run' := ToStat(t, run');
        run' := FromStat(t, run');
      }
    }
  }

  /** Wake-ups enough lead to done, whatever earlier or interrupted finalizations left behind. */
  lemma {:induction false} WakeUpFinishes(t: Transfer, r: RState) returns (run: seq<RState>)
    requires Valid(t) && Inv(t, r) && AllSaved(t, r.saved) && AllReturned(r) && WakeUp(t, r) && r.status != MergeDone
    ensures ReachesDone(t, r, run)
  {
    LockIsFinalize(t, r);
    run := [r];
    if Mid(r) == 1 {
      run := MidToEnd(t, run);
      if t.glob.BadPattern? {
        run := ToStat(t, run);
        run := StatToDone(t, run);
      }
    } else {
      if r.lock == FinLoad {
        assert 0 in r.saved by { PlanNonempty(t); }
        run := Go(t, run, r.(lock := FinStat), Load);
      } else if r.lock == Free {
        run := ToStat(t, run);
      }
      run := StatToDone(t, run);
    }
  }

  /** With every handler at its end, nobody is publishing. */
  lemma {:induction false} LockIsFinalize(t: Transfer, r: RState)
    requires Valid(t) && Inv(t, r) && AllReturned(r)
    ensures r.lock == Free || InFinalize(r.lock)
  {
    assert LockOk(t, r);
  }

  // ---- not finishing ----

  /** No handler is left to schedule anything, and the wake-ups do not suffice. */
  ghost predicate Stuck(t: Transfer, r: RState) { AllReturned(r) && r.status != MergeDone && !WakeUp(t, r) }

  lemma {:induction false} HandlerStaysStuck(t: Transfer, r: RState, r': RState, step: RStep)
    requires Valid(t) && Inv(t, r) && Stuck(t, r) && HandlerStep(t, r, r', step) && !step.Accept?
    ensures Stuck(t, r')
  {
  }

  lemma {:induction false} FinalizeStaysStuck(t: Transfer, r: RState, r': RState, step: RStep)
    requires Valid(t) && Inv(t, r) && Stuck(t, r) && FinalizeStep(t, r, r', step)
    ensures Stuck(t, r')
  {
    match step
    case WriteTmp(data) => PutTmp(t, r.dir, data);
    case Merge =>
      var m := Merged(t.name, t.plan, r.dir, r.saved, |t.plan|);
      PutTmp(t, r.dir, if m.Some? then m.value else []);
    case FinalizeError(_) => PutTmp(t, r.dir, []);
    case _ =>
  }

  lemma {:induction false} StuckStays(t: Transfer, r: RState, r': RState, step: RStep)
    requires Valid(t) && Inv(t, r) && Stuck(t, r) && NextStep(t, r, r', step) && !step.Accept?
    ensures Stuck(t, r')
  {
    if HandlerStep(t, r, r', step) {
      HandlerStaysStuck(t, r, r', step);
    } else if PublishStep(t, r, r', step) {
      LockIsFinalize(t, r);
    } else {
      FinalizeStaysStuck(t, r, r', step);
    }
  }

  lemma {:induction false} AcceptGrows(t: Transfer, r: RState, r': RState, step: RStep)
    requires Valid(t) && NextStep(t, r, r', step)
    ensures step.Accept? ==> step.a !in r.conns && step.a in r'.conns
  {
  }

  /** On a path without new connections no step accepts one. */
  lemma {:induction false} NoAccept(t: Transfer, path: seq<RState>, k: nat)
    requires Valid(t) && IsPath(t, path) && k < |path| && path[|path| - 1].conns.Keys <= path[0].conns.Keys
    ensures path[k].conns.Keys <= path[0].conns.Keys
    decreases |path| - k
  {
    if k + 1 < |path| {
      NoAccept(t, path, k + 1);
      assert StepAt(t, path, k);
      var step :| NextStep(t, path[k], path[k + 1], step);
      forall a | a in path[k].conns
        ensures a in path[0].conns
      {
        StepMonotone(t, path[k], path[k + 1], step, a);
      }
    }
  }

  lemma {:induction false} KeysGrow(t: Transfer, path: seq<RState>, k: nat)
    requires Valid(t) && IsPath(t, path) && k < |path|
    ensures path[0].conns.Keys <= path[k].conns.Keys
  {
    if k > 0 {
      KeysGrow(t, path, k - 1);
      assert StepAt(t, path, k - 1);
      var step :| NextStep(t, path[k - 1], path[k], step);
      forall a | a in path[0].conns
        ensures a in path[k].conns
      {
        StepMonotone(t, path[k - 1], path[k], step, a);
      }
    }
  }

  lemma {:induction false} PathStaysStuck(t: Transfer, path: seq<RState>, k: nat)
    requires Valid(t) && Safe(t) && IsPath(t, path) && k < |path| && Inv(t, path[0]) && Stuck(t, path[0])
    requires path[|path| - 1].conns.Keys <= path[0].conns.Keys
    ensures Stuck(t, path[k])
  {
    if k > 0 {
      PathStaysStuck(t, path, k - 1);
      PathKeepsInv(t, path, k - 1);
      NextStaysStuck(t, path, k - 1);
    }
  }

  lemma {:induction false} NextStaysStuck(t: Transfer, path: seq<RState>, k: nat)
    requires Valid(t) && IsPath(t, path) && k + 1 < |path| && Inv(t, path[k]) && Stuck(t, path[k])
    requires path[|path| - 1].conns.Keys <= path[0].conns.Keys
    ensures Stuck(t, path[k + 1])
  {
    assert StepAt(t, path, k);
    var step :| NextStep(t, path[k], path[k + 1], step);
    NoAccept(t, path, k + 1);
    KeysGrow(t, path, k);
    AcceptGrows(t, path[k], path[k + 1], step);
    StuckStays(t, path[k], path[k + 1], step);
  }

  /**
   * Finishing, exactly: with every chunk recorded and every handler at its end, the session
   * can still reach done by itself if and only if it is done already or has wake-ups enough.
   */
  lemma {:induction false} FinishesExactlyWhenAwake(t: Transfer, r: RState)
    requires Valid(t) && Safe(t) && Inv(t, r) && AllSaved(t, r.saved) && AllReturned(r)
    ensures CanFinish(t, r) <==> r.status == MergeDone || WakeUp(t, r)
  {
    if r.status == MergeDone {
      assert ReachesDone(t, r, [r]);
    } else if WakeUp(t, r) {
      var path := WakeUpFinishes(t, r);
    } else if CanFinish(t, r) {
      var path :| ReachesDone(t, r, path);
      PathStaysStuck(t, path, |path| - 1);
    }
  }

  // ---- no lost wake-up ----

  /** Nothing that drops a wake-up: no crash, no failed finalization, no chunk published without its ack. */
  ghost predicate Smooth(r: RState, step: RStep) {
    && !step.Crash? && !step.FinalizeError?
    && (step.AckFails? ==> step.a in r.conns && r.conns[step.a].phase.Recorded? && r.conns[step.a].phase.existing)
  }

  ghost predicate SmoothAt(t: Transfer, run: seq<RState>, k: nat)
    requires Valid(t) && k + 1 < |run|
  {
    exists step :: NextStep(t, run[k], run[k + 1], step) && Smooth(run[k], step)
  }

  predicate Due(phase: Phase) { phase.Recorded? || DueToSchedule(phase) }

  /** Somebody will see to the merge: a timer, a finalization, or a handler on its way to scheduling one. */
  ghost predicate Awake(r: RState) {
    || r.status == MergeDone || Pre(r) + Mid(r) >= 1 || r.lock.PubStatus?
    || exists a :: a in r.conns && Due(r.conns[a].phase)
  }

  lemma {:induction false} HandlerKeepsAwake(t: Transfer, r: RState, r': RState, step: RStep)
    requires Valid(t) && RunningOk(r) && Awake(r) && HandlerStep(t, r, r', step) && Smooth(r, step)
    ensures Awake(r')
  {
    if exists a :: a in r.conns && Due(r.conns[a].phase) {
      var a :| a in r.conns && Due(r.conns[a].phase);
      assert a in r'.conns;
      if Due(r'.conns[a].phase) {
      } else {
        assert step.Schedule? && step.a == a;
      }
    }
  }

  lemma {:induction false} PublishKeepsAwake(t: Transfer, r: RState, r': RState, step: RStep)
    requires Valid(t) && Inv(t, r) && (AllSaved(t, r.saved) ==> Awake(r)) && PublishStep(t, r, r', step)
    ensures AllSaved(t, r'.saved) ==> Awake(r')
  {
    if step.SetPending? {
      assert Due(r'.conns[step.a].phase);
    } else if !step.Save? {
      if a :| a in r.conns && Due(r.conns[a].phase) {
        assert a in r'.conns && Due(r'.conns[a].phase);
      }
    }
  }

  lemma {:induction false} FinalizeKeepsAwake(t: Transfer, r: RState, r': RState, step: RStep)
    requires Valid(t) && Inv(t, r) && AllSaved(t, r.saved) && Awake(r)
    requires FinalizeStep(t, r, r', step) && Smooth(r, step)
    ensures Awake(r')
  {
    PlanNonempty(t);
    assert 0 in r.saved;
    if step.Merge? {
      assert r.dir - {t.name} == r.dir;
      MergeGivesSource(t, r, r.dir);
    }
  }

  lemma {:induction false} SmoothKeepsAwake(t: Transfer, r: RState, r': RState, step: RStep)
    requires Valid(t) && Inv(t, r) && (AllSaved(t, r.saved) ==> Awake(r))
    requires NextStep(t, r, r', step) && Smooth(r, step)
    ensures AllSaved(t, r'.saved) ==> Awake(r')
  {
    if HandlerStep(t, r, r', step) {
      HandlerMonotone(t, r, r', step, 0);
      if AllSaved(t, r.saved) { HandlerKeepsAwake(t, r, r', step); }
    } else if PublishStep(t, r, r', step) {
      PublishKeepsAwake(t, r, r', step);
    } else {
      FinalizeMonotone(t, r, r', step);
      if AllSaved(t, r.saved) { FinalizeKeepsAwake(t, r, r', step); }
    }
  }

  lemma {:induction false} AwakeAtEnd(t: Transfer, r: RState)
    requires Valid(t) && Inv(t, r) && Awake(r) && AllReturned(r)
    ensures r.status == MergeDone || Pre(r) + Mid(r) >= 1
  {
    LockIsFinalize(t, r);
  }

  // ---- every way forward ends in done ----

  /** A step of what is left once the handlers have returned; partial writes of the temporary are told apart. */
  ghost predicate Works(r: RState, step: RStep) { Smooth(r, step) && !step.Accept? && !step.WriteTmp? }

  function LockStage(lock: Lock): nat {
    match lock
    case FinLoad => 6
    case FinStat => 5
    case FinMerge => 4
    case FinRename => 3
    case FinSize => 2
    case FinClean => 1
    case _ => 0
  }

  /** The files the cleanup has before it. */
  ghost function SweptIn(t: Transfer, dir: Dir): set<string> {
    if t.glob.Finds? then set p | p in dir && Swept(p) else {}
  }

  /** How many steps the wake-ups there are can still take. */
  ghost function Remaining(t: Transfer, r: RState): nat {
    (if r.armed then 9 else 0) + 8 * r.fired + 7 * r.waiting + LockStage(r.lock) + |SweptIn(t, r.dir)|
  }

  lemma {:induction false} SweptStays(t: Transfer, dir: Dir, path: string, data: Bytes)
    requires t.glob.Finds? ==> !Swept(path)
    ensures SweptIn(t, dir[path := data]) == SweptIn(t, dir) && SweptIn(t, dir - {path}) == SweptIn(t, dir)
  {
  }

  lemma {:induction false} SweepShrinks(t: Transfer, dir: Dir, path: string)
    requires t.glob.Finds? && path in dir && Swept(path)
    ensures |SweptIn(t, dir - {path})| < |SweptIn(t, dir)|
  {
    assert SweptIn(t, dir - {path}) == SweptIn(t, dir) - {path};
  }

  lemma {:induction false} HandlerWorks(t: Transfer, r: RState, r': RState, step: RStep)
    requires Valid(t) && AllReturned(r) && HandlerStep(t, r, r', step) && Works(r, step)
    ensures AllReturned(r') && Remaining(t, r') < Remaining(t, r)
  {
    hide SweptIn;
  }

  lemma {:induction false} FinalizeWorks(t: Transfer, r: RState, r': RState, step: RStep)
    requires Valid(t) && Safe(t) && AllReturned(r) && FinalizeStep(t, r, r', step) && Smooth(r, step)
    ensures AllReturned(r')
    ensures if step.WriteTmp? then Remaining(t, r') == Remaining(t, r) else Remaining(t, r') < Remaining(t, r)
  {
    TmpNotSwept(t.name);
    hide SweptIn;
    match step
    case StatFinal => SweptStays(t, r.dir, t.name, []);
    case WriteTmp(data) => SweptStays(t, r.dir, TmpPath(t.name), data);
    case Merge =>
      var m := Merged(t.name, t.plan, r.dir, r.saved, |t.plan|);
      SweptStays(t, r.dir, TmpPath(t.name), if m.Some? then m.value else []);
    case RenameFinal =>
      SweptStays(t, r.dir, TmpPath(t.name), []);
      SweptStays(t, r.dir - {TmpPath(t.name)}, t.name, r.dir[TmpPath(t.name)]);
    case Sweep(path) => SweepShrinks(t, r.dir, path);
    case _ =>
  }

  /** Every step but a partial write uses up some of what remains, and handlers that have returned stay so. */
  lemma {:induction false} WorkDecreases(t: Transfer, r: RState, r': RState, step: RStep)
    requires Valid(t) && Safe(t) && Inv(t, r) && AllReturned(r)
    requires NextStep(t, r, r', step) && Smooth(r, step) && !step.Accept?
    ensures AllReturned(r')
    ensures if step.WriteTmp? then Remaining(t, r') == Remaining(t, r) else Remaining(t, r') < Remaining(t, r)
  {
    LockIsFinalize(t, r);
    hide Inv, Remaining, AllReturned;
    if HandlerStep(t, r, r', step) {
      HandlerWorks(t, r, r', step);
    } else if FinalizeStep(t, r, r', step) {
      FinalizeWorks(t, r, r', step);
    }
  }

  /** There is a step to take, and not just another partial write. */
  ghost predicate CanWork(t: Transfer, r: RState)
    requires Valid(t)
  {
    exists r': RState, step: RStep :: NextStep(t, r, r', step) && Works(r, step)
  }

  lemma {:induction false} Able(t: Transfer, r: RState, r': RState, step: RStep)
    requires Valid(t) && NextStep(t, r, r', step) && Works(r, step)
    ensures CanWork(t, r)
  {
  }

  lemma {:induction false} FinalizerCanWork(t: Transfer, r: RState)
    requires Valid(t) && Inv(t, r) && !t.glob.BadPattern? && InFinalize(r.lock)
    ensures CanWork(t, r)
  {
    assert LockOk(t, r);
    hide Inv, LockOk, CanWork, Swept;
    match r.lock
    case FinLoad => Able(t, r, if r.saved == {} then FailFinalize(r) else r.(lock := FinStat), Load);
    case FinStat => StatCanWork(t, r);
    case FinMerge => MergeCanWork(t, r);
    case FinRename => RenameCanWork(t, r);
    case FinSize =>
      Able(t, r, if t.name in r.dir && |r.dir[t.name]| == |t.source| then r.(lock := FinClean) else FailFinalize(r),
           CheckSize);
    case _ => CleanCanWork(t, r);
  }

  lemma {:induction false} StatCanWork(t: Transfer, r: RState)
    requires Valid(t) && r.lock == FinStat
    ensures CanWork(t, r)
  {
    var r' := if t.name !in r.dir then r.(lock := FinMerge)
              else if |r.dir[t.name]| == |t.source| then FinishFinalize(r)
              else r.(dir := r.dir - {t.name}, lock := FinMerge);
    Able(t, r, r', StatFinal);
  }

  lemma {:induction false} MergeCanWork(t: Transfer, r: RState)
    requires Valid(t) && r.lock == FinMerge
    ensures CanWork(t, r)
  {
    var m := Merged(t.name, t.plan, r.dir, r.saved, |t.plan|);
    hide Merged;
    var r' := if m.Some? then r.(dir := r.dir[TmpPath(t.name) := m.value], lock := FinRename)
              else FailFinalize(r.(dir := r.dir - {TmpPath(t.name)}));
    Able(t, r, r', Merge);
  }

  lemma {:induction false} RenameCanWork(t: Transfer, r: RState)
    requires Valid(t) && r.lock == FinRename && TmpPath(t.name) in r.dir
    ensures CanWork(t, r)
  {
    var dir := (r.dir - {TmpPath(t.name)})[t.name := r.dir[TmpPath(t.name)]];
    Able(t, r, r.(dir := dir, lock := FinSize), RenameFinal);
  }

  lemma {:induction false} CleanCanWork(t: Transfer, r: RState)
    requires Valid(t) && !t.glob.BadPattern? && r.lock == FinClean
    ensures CanWork(t, r)
  {
    if t.glob.Finds? && exists path :: path in r.dir && Swept(path) {
      var path :| path in r.dir && Swept(path);
      Able(t, r, r.(dir := r.dir - {path}), Sweep(path));
    } else {
      SweptClean(r.dir);
      Able(t, r, FinishFinalize(r), Cleaned);
    }
  }

  /** While the session is awake and not done, something is left to do. */
  lemma {:induction false} AwakeCanWork(t: Transfer, r: RState)
    requires Valid(t) && Inv(t, r) && !t.glob.BadPattern? && AllReturned(r) && Awake(r) && r.status != MergeDone
    ensures CanWork(t, r)
  {
    LockIsFinalize(t, r);
    AwakeAtEnd(t, r);
    if InFinalize(r.lock) {
      FinalizerCanWork(t, r);
    } else {
      hide Inv, Awake, CanWork;
      WakeUpCanWork(t, r);
    }
  }

  lemma {:induction false} WakeUpCanWork(t: Transfer, r: RState)
    requires Valid(t) && r.lock == Free && (r.armed || r.fired > 0 || r.waiting > 0)
    ensures CanWork(t, r)
  {
    if r.waiting > 0 {
      Able(t, r, r.(lock := FinLoad, waiting := r.waiting - 1), FinalizeLock);
    } else if r.fired > 0 {
      var r1 := r.(fired := r.fired - 1);
      var r' := if Quiet(r.status) then r1.(status := MergeRunning, waiting := r.waiting + 1) else r1;
      Able(t, r, r', FinalizeStart);
    } else {
      Able(t, r, r.(armed := false, fired := r.fired + 1), TimerFires);
    }
  }

  ghost predicate GoesOnAt(t: Transfer, path: seq<RState>, k: nat)
    requires Valid(t) && k + 1 < |path|
  {
    exists step :: NextStep(t, path[k], path[k + 1], step) && Smooth(path[k], step) && !step.Accept?
  }

  /** A continuation without new connections in which nothing goes wrong. */
  ghost predicate GoesOn(t: Transfer, path: seq<RState>)
    requires Valid(t)
  {
    path != [] && forall k :: 0 <= k < |path| - 1 ==> GoesOnAt(t, path, k)
  }

  /** The step from here only wrote some of the merge's temporary. */
  ghost predicate OnlyWrites(t: Transfer, r: RState, r': RState)
    requires Valid(t)
  {
    exists data :: NextStep(t, r, r', WriteTmp(data))
  }

  /** How many of the first k steps did more than that. */
  ghost function WorkSteps(t: Transfer, path: seq<RState>, k: nat): nat
    requires Valid(t) && k < |path|
  {
    if k == 0 then 0 else WorkSteps(t, path, k - 1) + (if OnlyWrites(t, path[k - 1], path[k]) then 0 else 1)
  }

  ghost predicate OnTheWay(t: Transfer, r: RState)
    requires Valid(t)
  {
    Inv(t, r) && AllSaved(t, r.saved) && AllReturned(r) && Awake(r)
  }

  lemma {:induction false} GoesOneOn(t: Transfer, path: seq<RState>, k: nat)
    requires Valid(t) && Safe(t) && GoesOn(t, path) && k + 1 < |path| && OnTheWay(t, path[k])
    ensures OnTheWay(t, path[k + 1])
    ensures Remaining(t, path[k + 1]) + (if OnlyWrites(t, path[k], path[k + 1]) then 0 else 1) <= Remaining(t, path[k])
  {
    assert GoesOnAt(t, path, k);
    hide Inv, Remaining, AllReturned, Awake, Smooth, NextStep, AllSaved;
    var step :| NextStep(t, path[k], path[k + 1], step) && Smooth(path[k], step) && !step.Accept?;
    StepKeepsInv(t, path[k], path[k + 1], step);
    WorkDecreases(t, path[k], path[k + 1], step);
    SavedStays(t, path[k], path[k + 1], step);
    SmoothKeepsAwake(t, path[k], path[k + 1], step);
    if step.WriteTmp? {
      assert step == WriteTmp(step.data);
    }
  }

  lemma {:induction false} SavedStays(t: Transfer, r: RState, r': RState, step: RStep)
    requires Valid(t) && NextStep(t, r, r', step) && AllSaved(t, r.saved)
    ensures AllSaved(t, r'.saved)
  {
    StepMonotone(t, r, r', step, 0);
  }

  lemma {:induction false} GoesFar(t: Transfer, path: seq<RState>, k: nat)
    requires Valid(t) && Safe(t) && GoesOn(t, path) && k < |path| && OnTheWay(t, path[0])
    ensures OnTheWay(t, path[k]) && WorkSteps(t, path, k) + Remaining(t, path[k]) <= Remaining(t, path[0])
  {
    hide OnTheWay, Remaining, GoesOn, OnlyWrites;
    if k > 0 {
      GoesFar(t, path, k - 1);
      GoesOneOn(t, path, k - 1);
    }
  }

  /**
   * Every way forward: from a session with every chunk recorded, every handler returned and a
   * wake-up left, a continuation in which nothing goes wrong takes no more than so many steps,
   * partial writes aside, and as long as it has not come to done it has another one to take.
   * So whichever way it goes, it ends, and it ends in done.
   */
  lemma {:induction false} EveryWayEndsInDone(t: Transfer, path: seq<RState>)
    requires Valid(t) && Safe(t) && !t.glob.BadPattern? && GoesOn(t, path)
    requires var r := path[0];
      Inv(t, r) && AllSaved(t, r.saved) && AllReturned(r) && (r.status == MergeDone || WakeUp(t, r))
    ensures WorkSteps(t, path, |path| - 1) <= Remaining(t, path[0])
    ensures path[|path| - 1].status == MergeDone || CanWork(t, path[|path| - 1])
  {
    GoesFar(t, path, |path| - 1);
    if path[|path| - 1].status != MergeDone {
      AwakeCanWork(t, path[|path| - 1]);
    }
  }
}
