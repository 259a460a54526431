/**
 * The life of a send job: the table of jobs and its records on disk, the goroutine that
 * runs a job, and the managed staging directory a job may own. First as a state machine,
 * then as the object whose methods update the table.
 */
module Jobs {
  import opened Plan
  import opened Decimal
  import opened Pruning

  const MAX_OPERATION_HISTORY := 500

  datatype JobStatus = Running | Canceling | Done | Failed | Canceled

  datatype Job = Job(
    filePath: string, targetAddr: string, cleanupPath: string, startedAt: int,
    status: JobStatus, manifestPath: string, resumeSupported: bool)

  predicate Terminal(j: Job) { j.status in {Done, Failed, Canceled} }

  /** validOperationID: "job-" and digits that fit an int64. */
  predicate ValidJobId(id: string) {
    |id| > 4 && id[..4] == "job-" && AllDigits(id[4..]) && NatValue(id[4..]) <= MAX_INT64
  }

  /**
   * Which ids pass: those a creation makes from its clock, and only "job-" with the digits of
   * such a clock reading after it, so an id never names a file outside the history directory.
   */
  lemma {:induction false} JobIdsAreClockReadings(nanos: int, id: string)
    ensures 0 <= nanos <= MAX_INT64 ==> ValidJobId("job-" + IntText(nanos))
    ensures ValidJobId(id) ==>
      && id[..4] == "job-" && (forall i :: 4 <= i < |id| ==> '0' <= id[i] <= '9')
      && NatValue(id[4..]) < 0x8000_0000_0000_0000
      && '/' !in id && '\\' !in id && '.' !in id
  {
    if 0 <= nanos <= MAX_INT64 {
      NatTextValue(nanos);
      assert ("job-" + IntText(nanos))[4..] == NatText(nanos);
      assert ("job-" + IntText(nanos))[..4] == "job-";
    }
    if ValidJobId(id) {
      assert id == "job-" + id[4..];
      forall i | 4 <= i < |id|
        ensures '0' <= id[i] <= '9'
      {
        assert IsDigit(id[4..][i - 4]);
      }
    }
  }

  function StartedAt(j: Job): int { j.startedAt }

  /** What a restored record's manifest and source file turn out to be. */
  datatype View = Unavailable | AllDone | Resumable | SourceChanged

  /** jobStateFromHistory: whatever the record says, a restored job is done, failed or canceled. */
  function Restore(j: Job, view: View): Job {
    match view
    case Unavailable => j.(status := Failed, resumeSupported := false)
    case AllDone => j.(status := Done, resumeSupported := false)
    case Resumable => j.(status := Canceled, resumeSupported := true)
    case SourceChanged => j.(status := Failed, resumeSupported := false)
  }

  datatype JState = JState(
    jobs: map<string, Job>,
    records: map<string, Job>,   // history files
    staging: set<string>,        // managed staging directories that exist
    runners: multiset<string>,   // goroutines between their start and finishJob
    cleaners: multiset<string>,  // goroutines that finished "done" and have their staging left to remove
    paths: map<string, string>)  // every job ever created, with the staging path its goroutine captured

  datatype Step =
    | Stage(path: string)
    | Create(id: string, job: Job, persisted: bool)
    | Cancel(id: string, persisted: bool)
    | Resume(id: string, persisted: bool)
    | Attach(id: string, manifestPath: string, persisted: bool)
    | Progress(id: string, manifestPath: string, resumable: bool, persisted: bool)
    | Finish(id: string, status: JobStatus, persisted: bool)
    | Clean(id: string, removed: bool)
    | Forget(id: string, stagingOk: bool, recordOk: bool)
    | Restart(views: map<string, View>)

  function Persist(records: map<string, Job>, id: string, j: Job, persisted: bool): map<string, Job> {
    if persisted then records[id := j] else records
  }

  /** The job's status changes, and its record may be written. */
  function SetJob(s: JState, id: string, j: Job, persisted: bool): JState {
    s.(jobs := s.jobs[id := j], records := Persist(s.records, id, j, persisted))
  }

  ghost predicate PrunedTo(s: JState, s': JState) {
    IsPruned(s.jobs, s'.jobs, Terminal, StartedAt, MAX_OPERATION_HISTORY) && s' == s.(jobs := s'.jobs)
  }

  /** Running or canceling. */
  predicate Active(s: JState, id: string) { id in s.jobs && !Terminal(s.jobs[id]) }

  predicate CanResume(s: JState, id: string) {
    && id in s.jobs && s.jobs[id].status in {Canceled, Failed} && s.jobs[id].resumeSupported
    && s.jobs[id].filePath != "" && s.jobs[id].targetAddr != ""
  }

  predicate CanForget(s: JState, id: string) { id in s.jobs && Terminal(s.jobs[id]) }

  function AfterForget(s: JState, id: string, stagingOk: bool, recordOk: bool): JState
    requires CanForget(s, id)
  {
    var path := s.jobs[id].cleanupPath;
    if path != "" && !stagingOk then s
    else
      var s1 := if path != "" then s.(staging := s.staging - {path}) else s;
      if !recordOk then s1 else s1.(records := s1.records - {id}, jobs := s1.jobs - {id})
  }

  function AfterResume(s: JState, id: string, persisted: bool): JState
    requires CanResume(s, id)
  {
    SetJob(s, id, s.jobs[id].(status := Running), persisted).(runners := s.runners + multiset{id})
  }

  /** The table a new process starts with. */
  function RestoredFrom(records: map<string, Job>, views: map<string, View>): map<string, Job>
    requires views.Keys <= records.Keys
  {
    map id | id in views :: Restore(records[id], views[id])
  }

  /** What a progress report changes; it is saved only when it brings the job its first manifest. */
  function AfterProgress(s: JState, id: string, manifestPath: string, resumable: bool, persisted: bool): JState
    requires id in s.jobs
  {
    var j := s.jobs[id];
    SetJob(s, id, j.(manifestPath := if manifestPath != "" then manifestPath else j.manifestPath,
                     resumeSupported := resumable),
           persisted && j.manifestPath == "" && manifestPath != "")
  }

  /** createJob before it prunes. */
  function Created(s: JState, id: string, job: Job, persisted: bool): JState {
    SetJob(s, id, job, persisted).(runners := s.runners + multiset{id}, paths := s.paths[id := job.cleanupPath])
  }

  /** finishJob before it prunes, and the goroutine moving on to its staging after "done". */
  function Finishing(s: JState, id: string, status: JobStatus, persisted: bool): JState
    requires id in s.runners && id in s.paths
  {
    var s1 := if id in s.jobs then SetJob(s, id, s.jobs[id].(status := status), persisted) else s;
    s1.(runners := s.runners - multiset{id},
        cleaners := if status == Done && s.paths[id] != "" then s.cleaners + multiset{id} else s.cleaners)
  }

  ghost predicate NextStep(s: JState, s': JState, step: Step) {
    match step
    case Stage(path) => s' == s.(staging := s.staging + {path})
    case Create(id, job, persisted) =>
      && id !in s.paths && ValidJobId(id) && job.status == Running
      && PrunedTo(Created(s, id, job, persisted), s')
    case Cancel(id, persisted) =>
      s' == if Active(s, id) then SetJob(s, id, s.jobs[id].(status := Canceling), persisted) else s
    case Resume(id, persisted) =>
      s' == if CanResume(s, id) then AfterResume(s, id, persisted) else s
    case Attach(id, manifestPath, persisted) =>
      s' == if manifestPath != "" && id in s.jobs
            then SetJob(s, id, s.jobs[id].(manifestPath := manifestPath), persisted) else s
    case Progress(id, manifestPath, resumable, persisted) =>
      s' == if Active(s, id) then AfterProgress(s, id, manifestPath, resumable, persisted) else s
    case Finish(id, status, persisted) =>
      && id in s.runners && id in s.paths && status in {Done, Failed, Canceled}
      && var s1 := Finishing(s, id, status, persisted);
         if id in s.jobs then PrunedTo(s1, s') else s' == s1
    case Clean(id, removed) =>
      && id in s.cleaners && id in s.paths
      && s' == s.(cleaners := s.cleaners - multiset{id},
        staging := if removed then s.staging - {s.paths[id]} else s.staging)
    case Forget(id, stagingOk, recordOk) =>
      s' == if CanForget(s, id) then AfterForget(s, id, stagingOk, recordOk) else s
    case Restart(views) =>
      && views.Keys <= s.records.Keys && |views| <= MAX_OPERATION_HISTORY
      && s' == s.(jobs := RestoredFrom(s.records, views), runners := multiset{}, cleaners := multiset{})
  }

  ghost predicate Init(s: JState) { s == JState(map[], map[], {}, multiset{}, multiset{}, map[]) }

  // ---- invariant ----

  /** A job has exactly one runner while it is running or canceling, and none otherwise. */
  ghost predicate RunnersRight(s: JState) {
    forall id: string :: s.runners[id] == if Active(s, id) then 1 else 0
  }

  ghost predicate PathsRight(s: JState) {
    && (forall id :: id in s.jobs ==> id in s.paths && s.jobs[id].cleanupPath == s.paths[id])
    && (forall id :: id in s.records ==> id in s.paths && s.records[id].cleanupPath == s.paths[id])
  }

  /** A goroutine left to remove its staging belongs to a job that is done, or gone. */
  ghost predicate CleanersRight(s: JState) {
    forall id: string :: id in s.cleaners ==>
      id in s.paths && s.paths[id] != "" && (id in s.jobs ==> s.jobs[id].status == Done)
  }

  ghost predicate Inv(s: JState) { RunnersRight(s) && PathsRight(s) && CleanersRight(s) }

  lemma {:induction false} PruneKeepsInv(s: JState, s': JState)
    requires Inv(s) && PrunedTo(s, s')
    ensures Inv(s')
    ensures forall id: string :: Active(s, id) ==> Active(s', id) && s'.jobs[id] == s.jobs[id]
  {
    forall id: string
      ensures Active(s', id) <==> Active(s, id)
      ensures Active(s, id) ==> s'.jobs[id] == s.jobs[id]
    {
    }
  }

  lemma {:induction false} CreateKeepsRunners(s: JState, id: string, job: Job, persisted: bool)
    requires RunnersRight(s) && !Active(s, id) && job.status == Running
    ensures RunnersRight(Created(s, id, job, persisted))
  {
    var s1 := Created(s, id, job, persisted);
    forall other: string
      ensures s1.runners[other] == if Active(s1, other) then 1 else 0
    {
      assert s.runners[other] == if Active(s, other) then 1 else 0;
      assert other != id ==> Active(s1, other) == Active(s, other);
    }
  }

  lemma {:induction false} CreateKeepsInv(s: JState, id: string, job: Job, persisted: bool)
    requires Inv(s) && id !in s.paths && job.status == Running
    ensures Inv(Created(s, id, job, persisted))
  {
    CreateKeepsRunners(s, id, job, persisted);
    assert id !in s.cleaners;
  }

  lemma {:induction false} SetKeepsInv(s: JState, s': JState, id: string, j: Job, persisted: bool)
    requires Inv(s) && id in s.jobs && j.cleanupPath == s.jobs[id].cleanupPath && s' == SetJob(s, id, j, persisted)
    requires Terminal(j) == Terminal(s.jobs[id]) && (s.jobs[id].status == Done ==> j.status == Done)
    ensures Inv(s')
  {
    forall other: string
      ensures Active(s', other) == Active(s, other)
    {
    }
  }

  lemma {:induction false} ResumeKeepsInv(s: JState, id: string, persisted: bool)
    requires Inv(s) && CanResume(s, id)
    ensures Inv(AfterResume(s, id, persisted))
  {
    var s' := AfterResume(s, id, persisted);
    forall other: string
      ensures s'.runners[other] == if Active(s', other) then 1 else 0
    {
      assert !Active(s, id);
    }
  }

  lemma {:induction false} FinishKeepsInv(s: JState, id: string, status: JobStatus, persisted: bool)
    requires Inv(s) && id in s.runners && status in {Done, Failed, Canceled}
    ensures id in s.paths && id in s.jobs && Inv(Finishing(s, id, status, persisted))
  {
    assert Active(s, id);
    var s' := Finishing(s, id, status, persisted);
    forall other: string
      ensures s'.runners[other] == if Active(s', other) then 1 else 0
    {
      assert s.runners[other] == if Active(s, other) then 1 else 0;
    }
  }

  lemma {:induction false} ForgetKeepsInv(s: JState, id: string, stagingOk: bool, recordOk: bool)
    requires Inv(s) && CanForget(s, id)
    ensures Inv(AfterForget(s, id, stagingOk, recordOk))
  {
    var s' := AfterForget(s, id, stagingOk, recordOk);
    forall other: string
      ensures Active(s', other) == Active(s, other)
    {
    }
  }

  lemma {:induction false} RestartKeepsInv(s: JState, s': JState, views: map<string, View>)
    requires Inv(s) && NextStep(s, s', Restart(views))
    ensures Inv(s') && forall id :: id in s'.jobs ==> Terminal(s'.jobs[id])
  {
    forall id | id in s'.jobs
      ensures Terminal(s'.jobs[id]) && id in s'.paths && s'.jobs[id].cleanupPath == s'.paths[id]
    {
      assert s'.jobs[id] == Restore(s.records[id], views[id]);
    }
  }

  lemma {:induction false} StepKeepsInv(s: JState, s': JState, step: Step)
    requires Inv(s) && NextStep(s, s', step)
    ensures Inv(s')
  {
    match step
    case Stage(_) =>
    case Create(id, job, persisted) =>
      CreateKeepsInv(s, id, job, persisted);
      PruneKeepsInv(Created(s, id, job, persisted), s');
    case Cancel(id, persisted) =>
      if id in s.jobs && !Terminal(s.jobs[id]) { SetKeepsInv(s, s', id, s'.jobs[id], persisted); }
    case Resume(id, persisted) =>
      if CanResume(s, id) { ResumeKeepsInv(s, id, persisted); }
    case Attach(id, manifestPath, persisted) =>
      if manifestPath != "" && id in s.jobs { SetKeepsInv(s, s', id, s'.jobs[id], persisted); }
    case Progress(id, manifestPath, resumable, persisted) =>
      if Active(s, id) {
        SetKeepsInv(s, s', id, s'.jobs[id], persisted && s.jobs[id].manifestPath == "" && manifestPath != "");
      }
    case Finish(id, status, persisted) =>
      FinishKeepsInv(s, id, status, persisted);
      PruneKeepsInv(Finishing(s, id, status, persisted), s');
    case Clean(id, _) => assert s'.cleaners <= s.cleaners;
    case Forget(id, stagingOk, recordOk) =>
      if CanForget(s, id) { ForgetKeepsInv(s, id, stagingOk, recordOk); }
    case Restart(views) => RestartKeepsInv(s, s', views);
  }

  // ---- runs ----

  ghost predicate Next(s: JState, s': JState) { exists step :: NextStep(s, s', step) }

  ghost predicate StepAt(run: seq<JState>, k: nat)
    requires k + 1 < |run|
  {
    Next(run[k], run[k + 1])
  }

  ghost predicate IsRun(run: seq<JState>) {
    run != [] && Init(run[0]) && forall k :: 0 <= k < |run| - 1 ==> StepAt(run, k)
  }

  lemma {:induction false} RunKeepsInv(run: seq<JState>, k: nat)
    requires IsRun(run) && k < |run|
    ensures Inv(run[k])
  {
    if k > 0 {
      RunKeepsInv(run, k - 1);
      assert StepAt(run, k - 1);
      var step :| NextStep(run[k - 1], run[k], step);
      StepKeepsInv(run[k - 1], run[k], step);
    }
  }

  lemma {:induction false} Extend(run: seq<JState>, s: JState, step: Step) returns (run': seq<JState>)
    requires IsRun(run) && NextStep(run[|run| - 1], s, step)
    ensures IsRun(run') && run' == run + [s]
  {
    run' := run + [s];
    forall k | 0 <= k < |run'| - 1
      ensures StepAt(run', k)
    {
      if k < |run| - 1 {
        assert StepAt(run, k);
      } else {
        assert run'[k] == run[k] && run'[k + 1] == s;
      }
    }
  }

  /**
   * Over every sequence of creations, cancels, resumes, finishes, forgets, prunings and restarts:
   * one runner per active job.
   */
  lemma {:induction false} OneRunnerPerActiveJob(run: seq<JState>, k: nat, id: string)
    requires IsRun(run) && k < |run|
    ensures var s := run[k];
      && (s.runners[id] == 1 <==> id in s.jobs && s.jobs[id].status in {Running, Canceling})
      && s.runners[id] <= 1
  {
    RunKeepsInv(run, k);
    assert run[k].runners[id] == if Active(run[k], id) then 1 else 0;
    if id in run[k].jobs { ActiveStatuses(run[k].jobs[id]); }
  }

  lemma {:induction false} ActiveStatuses(j: Job)
    ensures !Terminal(j) <==> j.status in {Running, Canceling}
  {
    match j.status {
      case Running =>
      case Canceling =>
      case _ =>
    }
  }

  lemma {:induction false} PruneKeepsActive(s: JState, s': JState, id: string)
    requires PrunedTo(s, s') && Active(s, id)
    ensures Active(s', id) && s'.jobs[id] == s.jobs[id]
  {
  }

  lemma {:induction false} CreateKeepsActive(s: JState, s': JState, other: string, job: Job, persisted: bool,
      id: string)
    requires PathsRight(s) && NextStep(s, s', Create(other, job, persisted)) && Active(s, id)
    ensures Active(s', id)
  {
    var s1 := Created(s, other, job, persisted);
    assert other != id;
    PruneKeepsActive(s1, s', id);
  }

  lemma {:induction false} FinishKeepsActive(s: JState, s': JState, other: string, status: JobStatus,
      persisted: bool, id: string)
    requires NextStep(s, s', Finish(other, status, persisted)) && Active(s, id) && other != id
    ensures Active(s', id)
  {
    var s1 := Finishing(s, other, status, persisted);
    assert Active(s1, id);
    if other in s.jobs { PruneKeepsActive(s1, s', id); }
  }

  lemma {:induction false} StepKeepsActive(s: JState, s': JState, step: Step, id: string)
    requires PathsRight(s) && NextStep(s, s', step) && !step.Restart? && Active(s, id)
    ensures Active(s', id) || (step.Finish? && step.id == id)
  {
    if step.Create? {
      CreateKeepsActive(s, s', step.id, step.job, step.persisted, id);
    } else if step.Finish? {
      if step.id != id { FinishKeepsActive(s, s', step.id, step.status, step.persisted, id); }
    } else {
      OtherKeepsActive(s, s', step, id);
    }
  }

  lemma {:induction false} OtherKeepsActive(s: JState, s': JState, step: Step, id: string)
    requires NextStep(s, s', step) && !step.Restart? && !step.Create? && !step.Finish? && Active(s, id)
    ensures Active(s', id)
  {
  }

  /**
   * Whatever happens next short of a restart, a job with a runner stays in the table, and only its
   * own runner ends it.
   */
  lemma {:induction false} RunnerKeepsJob(run: seq<JState>, k: nat, step: Step, id: string)
    requires IsRun(run) && k + 1 < |run| && NextStep(run[k], run[k + 1], step) && !step.Restart?
    requires id in run[k].runners
    ensures Active(run[k], id)
    ensures Active(run[k + 1], id) || (step.Finish? && step.id == id)
  {
    RunKeepsInv(run, k);
    assert run[k].runners[id] == if Active(run[k], id) then 1 else 0;
    StepKeepsActive(run[k], run[k + 1], step, id);
  }

  /** A goroutine that ends finds its job, so the lookup in finishJob never comes back empty. */
  lemma {:induction false} RunnerHasJob(run: seq<JState>, k: nat, id: string)
    requires IsRun(run) && k < |run| && id in run[k].runners
    ensures id in run[k].jobs && id in run[k].paths
  {
    RunKeepsInv(run, k);
    assert run[k].runners[id] == if Active(run[k], id) then 1 else 0;
  }

  /** Managed staging goes only when a job that owns it is done or is being forgotten. */
  lemma {:induction false} StagingOutlivesJob(run: seq<JState>, k: nat, step: Step, path: string)
    requires IsRun(run) && k + 1 < |run| && NextStep(run[k], run[k + 1], step)
    requires path in run[k].staging && path !in run[k + 1].staging
    ensures step.Clean? || step.Forget?
    ensures var s := run[k];
      && step.id in s.paths && s.paths[step.id] == path && !Active(s, step.id)
      && (step.Clean? ==> step.id !in s.jobs || s.jobs[step.id].status == Done)
      && (step.Forget? ==> CanForget(s, step.id))
  {
    RunKeepsInv(run, k);
    RemoverOwns(run[k], run[k + 1], step, path);
  }

  /** Another job with the same staging is about to remove it, or can be forgotten with it. */
  ghost predicate Threatened(s: JState, id: string)
    requires id in s.jobs
  {
    exists other :: other != id && other in s.paths && s.paths[other] == s.jobs[id].cleanupPath
      && (other in s.cleaners || CanForget(s, other))
  }

  ghost predicate LosesNext(s: JState, path: string) {
    exists s': JState, step: Step :: NextStep(s, s', step) && path !in s'.staging
  }

  /**
   * The staging of an active job can go in the next step exactly when another job that names
   * the same directory has its removal pending or is finished and still in the table. Jobs
   * that are gone, or run on, are no threat.
   */
  lemma {:induction false} StagingIsLostExactlyWhenThreatened(run: seq<JState>, k: nat, id: string)
    requires IsRun(run) && k < |run| && Active(run[k], id)
    requires run[k].jobs[id].cleanupPath in run[k].staging && run[k].jobs[id].cleanupPath != ""
    ensures LosesNext(run[k], run[k].jobs[id].cleanupPath) <==> Threatened(run[k], id)
  {
    var s := run[k];
    var path := s.jobs[id].cleanupPath;
    RunKeepsInv(run, k);
    if LosesNext(s, path) {
      var s', step :| NextStep(s, s', step) && path !in s'.staging;
      RemoverOwns(s, s', step, path);
      assert step.id != id && s.paths[step.id] == path;
    }
    if Threatened(s, id) {
      var other :| other != id && other in s.paths && s.paths[other] == path
                   && (other in s.cleaners || CanForget(s, other));
      RemoverExists(s, other, path);
    }
  }

  /** Staging goes only at the hands of a goroutine that finished "done", or with a forgotten job. */
  lemma {:induction false} RemoverOwns(s: JState, s': JState, step: Step, path: string)
    requires Inv(s) && NextStep(s, s', step) && path in s.staging && path !in s'.staging
    ensures step.Clean? || step.Forget?
    ensures step.id in s.paths && s.paths[step.id] == path && !Active(s, step.id)
    ensures step.Clean? ==> step.id in s.cleaners && (step.id !in s.jobs || s.jobs[step.id].status == Done)
    ensures step.Forget? ==> CanForget(s, step.id)
  {
  }

  lemma {:induction false} RemoverExists(s: JState, other: string, path: string)
    requires Inv(s) && path != "" && other in s.paths && s.paths[other] == path
    requires other in s.cleaners || CanForget(s, other)
    ensures LosesNext(s, path)
  {
    if other in s.cleaners {
      var s' := s.(cleaners := s.cleaners - multiset{other}, staging := s.staging - {s.paths[other]});
      assert NextStep(s, s', Clean(other, true)) && path !in s'.staging;
    } else {
      var s' := AfterForget(s, other, true, true);
      assert NextStep(s, s', Forget(other, true, true)) && path !in s'.staging;
    }
  }

  /** So while no other job threatens it, an active job's staging is there after any step. */
  lemma {:induction false} ActiveJobKeepsStaging(run: seq<JState>, k: nat, step: Step, id: string)
    requires IsRun(run) && k + 1 < |run| && NextStep(run[k], run[k + 1], step)
    requires Active(run[k], id) && run[k].jobs[id].cleanupPath in run[k].staging && run[k].jobs[id].cleanupPath != ""
    requires !Threatened(run[k], id)
    ensures run[k].jobs[id].cleanupPath in run[k + 1].staging
  {
    StagingIsLostExactlyWhenThreatened(run, k, id);
    assert NextStep(run[k], run[k + 1], step);
  }

  /** Done is final: short of a restart a done job never runs, fails or is canceled again. */
  lemma {:induction false} DoneIsFinal(run: seq<JState>, k: nat, step: Step, id: string)
    requires IsRun(run) && k + 1 < |run| && NextStep(run[k], run[k + 1], step) && !step.Restart?
    requires id in run[k].jobs && run[k].jobs[id].status == Done
    ensures id in run[k + 1].jobs ==> run[k + 1].jobs[id].status == Done
  {
    RunKeepsInv(run, k);
    assert !Active(run[k], id);
    assert run[k].runners[id] == 0;
  }

  /** After a restart nothing runs, and every job in the table is done, failed or canceled. */
  lemma {:induction false} RestartEndsEverything(run: seq<JState>, k: nat, views: map<string, View>, id: string)
    requires IsRun(run) && k + 1 < |run| && NextStep(run[k], run[k + 1], Restart(views))
    ensures var s := run[k + 1];
      && id !in s.runners
      && (id in s.jobs ==> s.jobs[id].status in {Done, Failed, Canceled})
      && (id in s.jobs <==> id in views)
      && (id in views ==> s.jobs[id] == run[k].records[id].(status := s.jobs[id].status,
                                                            resumeSupported := views[id] == Resumable))
      && (id in views ==> match views[id]
            case AllDone => s.jobs[id].status == Done
            case Resumable => s.jobs[id].status == Canceled
            case _ => s.jobs[id].status == Failed)
      && (CanResume(s, id) <==>
            && id in views && views[id] == Resumable
            && run[k].records[id].filePath != "" && run[k].records[id].targetAddr != "")
  {
    RunKeepsInv(run, k);
    RestartKeepsInv(run[k], run[k + 1], views);
    if id in run[k + 1].jobs {
      assert run[k + 1].jobs[id] == Restore(run[k].records[id], views[id]);
    }
  }

  const STAGED_JOB := Job("/tmp/multisend-pull-1/f", "peer:1", "/tmp/multisend-pull-1", 1, Running, "", true)

  lemma {:induction false} ExampleIds()
    ensures ValidJobId("job-1") && ValidJobId("job-2")
  {
    assert "job-1"[4..] == "1" && "job-2"[4..] == "2";
    assert NatValue("1") == 1 && NatValue("2") == 2 by {
      assert "1"[..0] == "" && "2"[..0] == "";
    }
  }

  /** One job, with its staging. */
  lemma {:induction false} OneStagedJob() returns (run: seq<JState>)
    ensures run != [] && IsRun(run)
    ensures run[|run| - 1] == JState(map["job-1" := STAGED_JOB], map["job-1" := STAGED_JOB],
                                     {STAGED_JOB.cleanupPath}, multiset{"job-1"}, multiset{},
                                     map["job-1" := STAGED_JOB.cleanupPath])
  {
    ExampleIds();
    hide ValidJobId;
    var j := STAGED_JOB;
    var s0 := JState(map[], map[], {}, multiset{}, multiset{}, map[]);
    var s1 := s0.(staging := {j.cleanupPath});
    run := Extend([s0], s1, Stage(j.cleanupPath));
    var s2 := Created(s1, "job-1", j, true);
    SmallTable(s2);
    run := Extend(run, s2, Create("job-1", j, true));
  }

  /**
   * Forgetting is not all-or-nothing: it takes the staging first, so when the record cannot be removed
   * the job stays listed as resumable with what it would send gone.
   */
  lemma {:induction false} HalfForgottenJob() returns (run: seq<JState>, id: string)
    ensures IsRun(run)
    ensures var s := run[|run| - 1];
      CanResume(s, id) && s.jobs[id].cleanupPath != "" && s.jobs[id].cleanupPath !in s.staging
  {
    id := "job-1";
    run := OneStagedJob();
    hide IsRun;
    var s := run[|run| - 1];
    var s1 := Finishing(s, id, Canceled, true);
    SmallTable(s1);
    run := Extend(run, s1, Finish(id, Canceled, true));
    var s2 := AfterForget(s1, id, true, false);
    run := Extend(run, s2, Forget(id, true, false));
  }

  /** Two active jobs that name the same staging directory. */
  ghost predicate ShareStaging(s: JState, first: string, second: string) {
    && first != second && Active(s, first) && Active(s, second) && s.jobs[first].cleanupPath != ""
    && s.jobs[first].cleanupPath == s.jobs[second].cleanupPath && s.jobs[second].cleanupPath in s.staging
  }

  /**
   * Sharing makes the threat real: from any point where two active jobs name the same staging,
   * however many jobs there are, the first can finish and take it away from the second, which
   * runs on.
   */
  lemma {:induction false} SharedStagingIsLost(run: seq<JState>, first: string, second: string)
    returns (run': seq<JState>)
    requires IsRun(run) && ShareStaging(run[|run| - 1], first, second)
    ensures IsRun(run')
    ensures var s := run'[|run'| - 1]; Active(s, second) && s.jobs[second].cleanupPath !in s.staging
  {
    var s := run[|run| - 1];
    RunKeepsInv(run, |run| - 1);
    assert s.runners[first] == if Active(s, first) then 1 else 0;
    var s1 := Finishing(s, first, Done, true);
    assert Active(s1, second) && s1.jobs[second] == s.jobs[second] && first in s1.cleaners;
    var s2 := PrunedState(s1);
    PruneKeepsActive(s1, s2, second);
    run' := Extend(run, s2, Finish(first, Done, true));
    var s3 := s2.(cleaners := s2.cleaners - multiset{first}, staging := s2.staging - {s2.paths[first]});
    run' := Extend(run', s3, Clean(first, true));
  }

  lemma {:induction false} PrunedState(s: JState) returns (s': JState)
    ensures PrunedTo(s, s')
  {
    var kept := PrunedExists(s.jobs, Terminal, StartedAt, MAX_OPERATION_HISTORY);
    s' := s.(jobs := kept);
  }

  lemma {:induction false} JobsCanShareStaging() returns (run: seq<JState>, first: string, second: string)
    ensures IsRun(run) && ShareStaging(run[|run| - 1], first, second)
  {
    first, second := "job-1", "job-2";
    run := OneStagedJob();
    ExampleIds();
    hide IsRun, ValidJobId;
    var s := Created(run[|run| - 1], second, STAGED_JOB, true);
    SmallTable(s);
    run := Extend(run, s, Create(second, STAGED_JOB, true));
  }

  /** A table with few jobs is pruned to itself. */
  lemma {:induction false} SmallTable(s: JState)
    requires |s.jobs| <= MAX_OPERATION_HISTORY
    ensures PrunedTo(s, s)
  {
    SubsetSmall(Finished(s.jobs, Terminal), s.jobs.Keys);
    assert |s.jobs.Keys| == |s.jobs|;
  }

  lemma {:induction false} SubsetSmall(a: set<string>, b: set<string>)
    requires a <= b
    ensures |a| <= |b|
  {
    assert b == a + (b - a);
  }

  // ---- the table as the program keeps it ----

  datatype ResumeResult = Resumed | UnknownJob | NotResumable | NotSafelyResumable | NoRequestContext

  datatype ForgetResult =
    | Forgotten | InvalidId | NoSuchJob | StillActive | HistoryUnavailable | StagingKept | RecordKept

  /** The loop over the history files. */
  method RestoreAll(records: map<string, Job>, views: map<string, View>) returns (restored: map<string, Job>)
    requires views.Keys <= records.Keys
    ensures restored == RestoredFrom(records, views)
  {
    restored := map[];
    var rest := views.Keys;
    while rest != {}
      invariant rest <= views.Keys && restored.Keys == views.Keys - rest
      invariant forall id :: id in restored ==> restored[id] == Restore(records[id], views[id])
      decreases rest
    {
      var id :| id in rest;
      rest := rest - {id};
      restored := restored[id := Restore(records[id], views[id])];
    }
  }

  /** No more jobs are restored than are kept, so pruning after a restart drops none. */
  lemma {:induction false} AllFit(restored: map<string, Job>, views: map<string, View>)
    requires restored.Keys == views.Keys && |views| <= MAX_OPERATION_HISTORY
    ensures |Finished(restored, Terminal)| <= MAX_OPERATION_HISTORY
  {
    SubsetSmall(Finished(restored, Terminal), views.Keys);
    assert |views.Keys| == |views|;
  }

  lemma {:induction false} FewAreKept(jobs: map<string, Job>, kept: map<string, Job>)
    requires IsPruned(jobs, kept, Terminal, StartedAt, MAX_OPERATION_HISTORY)
    requires |Finished(jobs, Terminal)| <= MAX_OPERATION_HISTORY
    ensures kept == jobs
  {
  }

  lemma {:induction false} RestoredIsTerminal(j: Job, view: View)
    ensures Terminal(Restore(j, view))
  {
  }

  lemma {:induction false} FinishIsStep(s: JState, s': JState, id: string, status: JobStatus, persisted: bool)
    requires id in s.jobs && id in s.runners && id in s.paths && status in {Done, Failed, Canceled}
    requires var j := s.jobs[id].(status := status);
      && IsPruned(s.jobs[id := j], s'.jobs, Terminal, StartedAt, MAX_OPERATION_HISTORY)
      && s'.records == if persisted then s.records[id := j] else s.records
    requires s'.runners == s.runners - multiset{id} && s'.staging == s.staging && s'.paths == s.paths
    requires s'.cleaners == if status == Done && s.paths[id] != "" then s.cleaners + multiset{id} else s.cleaners
    ensures NextStep(s, s', Finish(id, status, persisted))
  {
    hide IsPruned;
  }

  lemma {:induction false} ActiveIsKept(jobs: map<string, Job>, kept: map<string, Job>, id: string)
    requires IsPruned(jobs, kept, Terminal, StartedAt, MAX_OPERATION_HISTORY) && id in jobs && !Terminal(jobs[id])
    ensures id in kept && kept[id] == jobs[id]
  {
  }

  class JobTable {
    var jobs: map<string, Job>
    var records: map<string, Job>
    var staging: set<string>
    ghost var runners: multiset<string>
    ghost var cleaners: multiset<string>
    ghost var paths: map<string, string>
    ghost var run: seq<JState>

    ghost function State(): JState
      reads this
    {
      JState(jobs, records, staging, runners, cleaners, paths)
    }

    /** The table is where some run of the machine leads. */
    ghost predicate Valid()
      reads this
    {
      IsRun(run) && run[|run| - 1] == State()
    }

    constructor ()
      ensures Valid() && jobs == map[] && staging == {}
    {
      jobs, records, staging := map[], map[], {};
      runners, cleaners, paths := multiset{}, multiset{}, map[];
      run := [JState(map[], map[], {}, multiset{}, multiset{}, map[])];
    }

    ghost method Took(step: Step)
      requires IsRun(run) && NextStep(run[|run| - 1], State(), step)
      modifies this`run
      ensures Valid()
    {
      run := Extend(run, State(), step);
    }

    method PruneJobs()
      modifies this`jobs
      ensures IsPruned(old(jobs), jobs, Terminal, StartedAt, MAX_OPERATION_HISTORY)
      ensures forall id :: id in jobs ==> id in old(jobs) && jobs[id] == old(jobs)[id]
      ensures forall id, other :: id in old(jobs) && id !in jobs && other in jobs ==>
        && old(jobs)[id].status in {Done, Failed, Canceled}
        && (jobs[other].status in {Done, Failed, Canceled} ==> old(jobs)[id].startedAt <= jobs[other].startedAt)
      ensures jobs == old(jobs) || |set id | id in jobs && jobs[id].status in {Done, Failed, Canceled}| == 500
      ensures |set id | id in old(jobs) && old(jobs)[id].status in {Done, Failed, Canceled}| <= 500 ==>
        jobs == old(jobs)
    {
      ghost var was := jobs;
      jobs := Prune(jobs, Terminal, StartedAt, MAX_OPERATION_HISTORY);
      assert Finished(was, Terminal) == set id | id in was && was[id].status in {Done, Failed, Canceled};
      assert Finished(jobs, Terminal) == set id | id in jobs && jobs[id].status in {Done, Failed, Canceled};
    }

    /** createJob, and the start of its goroutine. */
    method CreateJob(id: string, filePath: string, targetAddr: string, cleanupPath: string, now: int, persisted: bool)
      requires Valid() && id !in paths && ValidJobId(id)
      modifies this`jobs, this`records, this`runners, this`paths, this`run
      ensures Valid() && id in jobs && jobs[id] == Job(filePath, targetAddr, cleanupPath, now, Running, "", true)
      ensures IsPruned(old(jobs)[id := jobs[id]], jobs, Terminal, StartedAt, MAX_OPERATION_HISTORY)
      ensures records == if persisted then old(records)[id := jobs[id]] else old(records)
      ensures runners == old(runners) + multiset{id} && paths == old(paths)[id := cleanupPath]
    {
      hide IsPruned, IsRun;
      var j := Job(filePath, targetAddr, cleanupPath, now, Running, "", true);
      jobs := jobs[id := j];
      if persisted {
        records := records[id := j];
      }
      PruneJobs();
      ActiveIsKept(old(jobs)[id := j], jobs, id);
      runners, paths := runners + multiset{id}, paths[id := cleanupPath];
      Took(Create(id, j, persisted));
    }

    method CancelJob(id: string, persisted: bool) returns (found: bool)
      requires Valid()
      modifies this`jobs, this`records, this`run
      ensures Valid() && (found <==> id in old(jobs))
      ensures jobs == if id in old(jobs) && !Terminal(old(jobs)[id])
                      then old(jobs)[id := old(jobs)[id].(status := Canceling)] else old(jobs)
      ensures records == if id in old(jobs) && !Terminal(old(jobs)[id]) && persisted
                         then old(records)[id := jobs[id]] else old(records)
    {
      found := id in jobs;
      if found && !(jobs[id].status == Done || jobs[id].status == Failed || jobs[id].status == Canceled) {
        jobs := jobs[id := jobs[id].(status := Canceling)];
        if persisted {
          records := records[id := jobs[id]];
        }
      }
      Took(Cancel(id, persisted));
    }

    /** resumeJob: the checks in the source's order, then a new goroutine for the job. */
    method ResumeJob(id: string, persisted: bool) returns (r: ResumeResult)
      requires Valid()
      modifies this`jobs, this`records, this`runners, this`run
      ensures Valid()
      ensures r.UnknownJob? <==> id !in old(jobs)
      ensures r.NotResumable? <==> id in old(jobs) && old(jobs)[id].status !in {Canceled, Failed}
      ensures r.NotSafelyResumable? <==>
        id in old(jobs) && old(jobs)[id].status in {Canceled, Failed} && !old(jobs)[id].resumeSupported
      ensures r.NoRequestContext? <==>
        && id in old(jobs) && old(jobs)[id].status in {Canceled, Failed} && old(jobs)[id].resumeSupported
        && (old(jobs)[id].filePath == "" || old(jobs)[id].targetAddr == "")
      ensures r.Resumed? <==> CanResume(old(State()), id)
      ensures r.Resumed? ==>
        && id in old(jobs) && jobs == old(jobs)[id := old(jobs)[id].(status := Running)]
        && records == (if persisted then old(records)[id := jobs[id]] else old(records))
        && runners == old(runners) + multiset{id}
      ensures !r.Resumed? ==> jobs == old(jobs) && records == old(records) && runners == old(runners)
    {
      r := Resumed;
      if id !in jobs {
        r := UnknownJob;
      } else if jobs[id].status != Canceled && jobs[id].status != Failed {
        r := NotResumable;
      } else if !jobs[id].resumeSupported {
        r := NotSafelyResumable;
      } else if jobs[id].filePath == "" || jobs[id].targetAddr == "" {
        r := NoRequestContext;
      } else {
        jobs := jobs[id := jobs[id].(status := Running)];
        if persisted {
          records := records[id := jobs[id]];
        }
        runners := runners + multiset{id};
      }
      Took(Resume(id, persisted));
    }

    /** setJobManifest: nothing without a path, and never anything but the path. */
    method SetJobManifest(id: string, manifestPath: string, persisted: bool)
      requires Valid()
      modifies this`jobs, this`records, this`run
      ensures Valid()
      ensures var known := manifestPath != "" && id in old(jobs);
        && jobs == (if known then old(jobs)[id := old(jobs)[id].(manifestPath := manifestPath)] else old(jobs))
        && records == (if known && persisted then old(records)[id := jobs[id]] else old(records))
    {
      if manifestPath != "" && id in jobs {
        jobs := jobs[id := jobs[id].(manifestPath := manifestPath)];
        if persisted {
          records := records[id := jobs[id]];
        }
      }
      Took(Attach(id, manifestPath, persisted));
    }

    /** updateJobProgress, the part later decisions depend on: a finished job no longer changes. */
    method UpdateProgress(id: string, manifestPath: string, resumable: bool, persisted: bool)
      requires Valid()
      modifies this`jobs, this`records, this`run
      ensures Valid()
      ensures !(id in old(jobs) && !Terminal(old(jobs)[id])) ==> jobs == old(jobs) && records == old(records)
      ensures id in old(jobs) && !Terminal(old(jobs)[id]) ==>
        var j := old(jobs)[id];
        && id in jobs && jobs == old(jobs)[id := jobs[id]]
        && jobs[id] == j.(manifestPath := jobs[id].manifestPath, resumeSupported := resumable)
        && (jobs[id].manifestPath == "" <==> j.manifestPath == "" && manifestPath == "")
        && (manifestPath != "" ==> jobs[id].manifestPath == manifestPath)
        && (manifestPath == "" ==> jobs[id].manifestPath == j.manifestPath)
        && records == if persisted && j.manifestPath == "" && manifestPath != "" then old(records)[id := jobs[id]]
                      else old(records)
    {
      if id in jobs && !(jobs[id].status == Done || jobs[id].status == Failed || jobs[id].status == Canceled) {
        var attached := jobs[id].manifestPath == "" && manifestPath != "";
        jobs := jobs[id := jobs[id].(resumeSupported := resumable)];
        if manifestPath != "" {
          jobs := jobs[id := jobs[id].(manifestPath := manifestPath)];
        }
        if attached && persisted {
          records := records[id := jobs[id]];
        }
      }
      Took(Progress(id, manifestPath, resumable, persisted));
    }

    /** finishJob, called by the job's goroutine at its end: the job is always still in the table. */
    method FinishJob(id: string, status: JobStatus, persisted: bool)
      requires Valid() && id in runners && status in {Done, Failed, Canceled}
      modifies this`jobs, this`records, this`runners, this`cleaners, this`run
      ensures Valid() && id in old(jobs)
      ensures var j := old(jobs)[id].(status := status);
        && IsPruned(old(jobs)[id := j], jobs, Terminal, StartedAt, MAX_OPERATION_HISTORY)
        && records == if persisted then old(records)[id := j] else old(records)
      ensures runners == old(runners) - multiset{id}
      ensures id in paths && cleaners ==
        if status == Done && paths[id] != "" then old(cleaners) + multiset{id} else old(cleaners)
    {
      RunnerHasJob(run, |run| - 1, id);
      hide IsRun, IsPruned, NextStep;
      ghost var was := State();
      RecordFinish(id, status, persisted);
      EndGoroutine(was, id, status, persisted);
    }

    /** The goroutine of the finished job is over; after "done" it has its staging left to remove. */
    ghost method EndGoroutine(was: JState, id: string, status: JobStatus, persisted: bool)
      requires IsRun(run) && run[|run| - 1] == was && State() == was.(jobs := jobs, records := records)
      requires id in was.jobs && id in was.runners && id in was.paths && status in {Done, Failed, Canceled}
      requires var j := was.jobs[id].(status := status);
        && IsPruned(was.jobs[id := j], jobs, Terminal, StartedAt, MAX_OPERATION_HISTORY)
        && records == if persisted then was.records[id := j] else was.records
      modifies this`runners, this`cleaners, this`run
      ensures Valid() && runners == was.runners - multiset{id}
      ensures cleaners == if status == Done && paths[id] != "" then was.cleaners + multiset{id} else was.cleaners
    {
      hide IsPruned, NextStep;
      runners := runners - multiset{id};
      if status == Done && paths[id] != "" {
        cleaners := cleaners + multiset{id};
      }
      FinishIsStep(was, State(), id, status, persisted);
      Took(Finish(id, status, persisted));
    }

    method RecordFinish(id: string, status: JobStatus, persisted: bool)
      modifies this`jobs, this`records
      ensures id !in old(jobs) ==> jobs == old(jobs) && records == old(records)
      ensures id in old(jobs) ==>
        var j := old(jobs)[id].(status := status);
        && IsPruned(old(jobs)[id := j], jobs, Terminal, StartedAt, MAX_OPERATION_HISTORY)
        && records == if persisted then old(records)[id := j] else old(records)
    {
      if id !in jobs {
        return;
      }
      jobs := jobs[id := jobs[id].(status := status)];
      if persisted {
        records := records[id := jobs[id]];
      }
      PruneJobs();
    }

    /** The end of a goroutine that finished "done": its managed staging goes, if it can be removed. */
    method RemoveStaging(id: string, path: string, removable: bool)
      requires Valid() && id in cleaners && id in paths && paths[id] == path
      modifies this`staging, this`cleaners, this`run
      ensures Valid() && staging == if removable then old(staging) - {path} else old(staging)
    {
      if removable {
        staging := staging - {path};
      }
      cleaners := cleaners - multiset{id};
      Took(Clean(id, removable));
    }

    /** forgetJob: the staging goes first, then the record, then the entry. */
    method ForgetJob(id: string, history: bool, stagingOk: bool, recordOk: bool) returns (r: ForgetResult)
      requires Valid()
      modifies this`jobs, this`records, this`staging, this`run
      ensures Valid()
      ensures r.InvalidId? <==> !ValidJobId(id)
      ensures r.NoSuchJob? <==> ValidJobId(id) && id !in old(jobs)
      ensures r.StillActive? <==> ValidJobId(id) && id in old(jobs) && !Terminal(old(jobs)[id])
      ensures r.HistoryUnavailable? <==> ValidJobId(id) && CanForget(old(State()), id) && !history
      ensures r.StagingKept? <==>
        ValidJobId(id) && CanForget(old(State()), id) && history && old(jobs)[id].cleanupPath != "" && !stagingOk
      ensures r.Forgotten? ==> jobs == old(jobs) - {id} && records == old(records) - {id}
      ensures !r.Forgotten? ==> jobs == old(jobs) && records == old(records)
      ensures r.Forgotten? || r.RecordKept? ==>
        var path := old(jobs)[id].cleanupPath;
        && (r.Forgotten? <==> recordOk)
        && staging == if path == "" then old(staging) else old(staging) - {path}
      ensures !r.Forgotten? && !r.RecordKept? ==> staging == old(staging)
    {
      r := Forgotten;
      if !ValidJobId(id) {
        return InvalidId;
      } else if id !in jobs {
        r := NoSuchJob;
      } else if jobs[id].status != Done && jobs[id].status != Failed && jobs[id].status != Canceled {
        r := StillActive;
      } else if !history {
        r := HistoryUnavailable;
      } else if jobs[id].cleanupPath != "" && !stagingOk {
        r := StagingKept;
      } else {
        if jobs[id].cleanupPath != "" {
          staging := staging - {jobs[id].cleanupPath};
        }
        if recordOk {
          records := records - {id};
          jobs := jobs - {id};
        } else {
          r := RecordKept;
        }
      }
      Took(Forget(id, history && stagingOk, history && recordOk));
    }

    /** A new process: no goroutines, and the table restored from the newest records. */
    method RestoreJobHistory(views: map<string, View>)
      requires Valid() && views.Keys <= records.Keys && |views| <= MAX_OPERATION_HISTORY
      modifies this`jobs, this`runners, this`cleaners, this`run
      ensures Valid() && runners == multiset{} && jobs.Keys == views.Keys
      ensures forall id :: id in jobs ==> jobs[id] == Restore(records[id], views[id]) && Terminal(jobs[id])
    {
      hide IsRun, IsPruned, Restore;
      var restored := RestoreAll(records, views);
      AllFit(restored, views);
      jobs := restored;
      PruneJobs();
      FewAreKept(restored, jobs);
      runners, cleaners := multiset{}, multiset{};
      forall id | id in jobs
        ensures Terminal(jobs[id])
      {
        RestoredIsTerminal(records[id], views[id]);
      }
      Took(Restart(views));
    }
  }
}
