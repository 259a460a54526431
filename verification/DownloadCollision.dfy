/**
 * Two workers of a download with the same chunk: how any configuration gets there, what the
 * merge then publishes, and for which resources that shows.
 */
module DownloadCollision {
  import opened Plan
  import opened ManifestState
  import SessionFiles
  import opened PartMerge
  import opened DownloadRun
  import DM = DownloadMerge
  import DR = DownloadRestore
  import Scheduler
  import StrictSplit

  /** Nothing from outside: no crash, cancel, resume, or reset of a stalled chunk. */
  predicate Calm(step: DStep) { !step.Restart? && !step.Resume? && !step.CancelPending? && !step.ResetStalled? }

  ghost predicate CalmAt(d: Download, run: seq<DState>, j: nat)
    requires Valid(d) && j + 1 < |run|
  {
    exists step :: NextStep(d, run[j], run[j + 1], step) && Calm(step)
  }

  ghost predicate Undisturbed(d: Download, run: seq<DState>)
    requires Valid(d)
  {
    forall j :: 0 <= j < |run| - 1 ==> CalmAt(d, run, j)
  }

  /** A run so far, undisturbed when calm. */
  ghost predicate Played(d: Download, run: seq<DState>, calm: bool)
    requires Valid(d)
  {
    run != [] && IsRun(d, run) && (calm ==> Undisturbed(d, run))
  }

  lemma {:induction false} Go(d: Download, run: seq<DState>, calm: bool, s: DState, step: DStep)
    returns (run': seq<DState>)
    requires Valid(d) && run != [] && Played(d, run, calm)
    requires NextStep(d, run[|run| - 1], s, step) && (calm ==> Calm(step))
    ensures run' != [] && Played(d, run', calm) && run'[|run'| - 1] == s
  {
    run' := run + [s];
    forall j | 0 <= j < |run'| - 1
      ensures StepAt(d, run', j) && (calm ==> CalmAt(d, run', j))
    {
      if j < |run| - 1 {
        assert StepAt(d, run, j) && (calm ==> CalmAt(d, run, j));
      } else {
        assert run'[j] == run[j] && run'[j + 1] == s;
      }
    }
  }

  lemma {:induction false} RunKeepsShape(d: Download, run: seq<DState>, j: nat)
    requires Valid(d) && IsRun(d, run) && j < |run|
    ensures Shape(d, run[j])
  {
    hide Shape, NextStep, Init;
    if j == 0 {
      InitShape(d, run[0]);
    } else {
      RunKeepsShape(d, run, j - 1);
      assert StepAt(d, run, j - 1);
      var step :| NextStep(d, run[j - 1], run[j], step);
      StepKeepsShape(d, run[j - 1], run[j], step);
    }
  }

  lemma {:induction false} InitShape(d: Download, s: DState)
    requires Valid(d) && Init(d, s)
    ensures Shape(d, s)
  {
    SameExtents(d.plan);
  }

  // ---- one worker ----

  lemma {:induction false} NobodyBusy(workers: seq<Worker>, run: nat, channel: string)
    requires forall w :: 0 <= w < |workers| ==> !Carries(workers[w].phase, channel)
    ensures Busy(workers, run, channel) == 0
  {
    if workers != [] {
      NobodyBusy(workers[1..], run, channel);
    }
  }

  lemma {:induction false} BusyOfTwo(a: Worker, b: Worker, run: nat, channel: string)
    ensures Busy([a, b], run, channel) ==
      (if a.run == run && Carries(a.phase, channel) then 1 else 0)
      + (if b.run == run && Carries(b.phase, channel) then 1 else 0)
  {
    assert [a, b][1..] == [b];
    assert [b][1..] == [];
    assert Busy([b], run, channel) == if b.run == run && Carries(b.phase, channel) then 1 else 0;
  }

  /** A worker of the latest run looks while this channel, the only one it finds up, has room. */
  lemma {:induction false} LookOn(d: Download, run: seq<DState>, calm: bool, w: nat, channel: string)
    returns (run': seq<DState>)
    requires Valid(d) && run != [] && Played(d, run, calm) && channel in d.channels
    requires var s := run[|run| - 1];
      && w < |s.workers| && s.workers[w].phase.Idle? && s.workers[w].run < |s.runs|
      && Busy(s.workers, s.workers[w].run, channel) < s.runs[s.workers[w].run].config.limit
      && PendingOf(s.records, |s.records|) != []
    ensures run' != [] && Played(d, run', calm)
    ensures var s := run[|run| - 1];
      run'[|run'| - 1] == SetPhase(s, w, Looking(PendingOf(s.records, |s.records|), {channel}))
  {
    hide Played, Busy, PendingOf;
    var s := run[|run| - 1];
    assert FreeOf(s, s.workers[w].run, {channel}) == {channel};
    var s' := SetPhase(s, w, Looking(PendingOf(s.records, |s.records|), {channel}));
    assert PickStep(d, s, s', Look(w, {channel}));
    run' := Go(d, run, calm, s', Look(w, {channel}));
  }

  /** The runs after run r has picked once more. */
  function Picked(runs: seq<RunInfo>, r: nat): (runs': seq<RunInfo>)
    requires r < |runs|
    ensures |runs'| == |runs| && forall q :: 0 <= q < |runs| ==> runs'[q].config == runs[q].config
  {
    runs[r := runs[r].(picks := runs[r].picks + 1)]
  }

  lemma {:induction false} PickOn(d: Download, run: seq<DState>, calm: bool, w: nat, k: nat, channel: string)
    returns (run': seq<DState>)
    requires Valid(d) && run != [] && Played(d, run, calm)
    requires var s := run[|run| - 1];
      && w < |s.workers| && s.workers[w].phase.Looking? && s.workers[w].run < |s.runs| && k < |s.records|
      && channel in s.workers[w].phase.free
      && Gives(s.runs[s.workers[w].run], s.workers[w].phase.pending, channel, k)
    ensures run' != [] && Played(d, run', calm)
    ensures var s := run[|run| - 1];
      run'[|run'| - 1] == SetPhase(s, w, Marked(k, channel))
                            .(records := s.records[k := SendingOn(s.records[k], channel)],
                              runs := Picked(s.runs, s.workers[w].run))
  {
    hide Played, Gives;
    var s := run[|run| - 1];
    var s' := SetPhase(s, w, Marked(k, channel)).(records := s.records[k := SendingOn(s.records[k], channel)],
                                                 runs := Picked(s.runs, s.workers[w].run));
    assert PickStep(d, s, s', Pick(w, k, channel));
    run' := Go(d, run, calm, s', Pick(w, k, channel));
  }

  /** A worker that has marked a chunk fetches it whole. */
  lemma {:induction false} FetchWhole(d: Download, run: seq<DState>, calm: bool, w: nat, k: nat)
    returns (run': seq<DState>)
    requires Valid(d) && run != [] && Played(d, run, calm)
    requires var s := run[|run| - 1];
      w < |s.workers| && s.workers[w].phase.Marked? && s.workers[w].phase.k == k && k < |d.plan| == |s.records|
    ensures run' != [] && Played(d, run', calm)
    ensures var s := run[|run| - 1];
      run'[|run'| - 1] == SetPhase(s, w, Idle).(records := s.records[k := DoneWith(s.records[k], d.plan[k].size, [])],
                                                parts := s.parts[k := Range(d, k)])
  {
    hide Played;
    var s, n := run[|run| - 1], d.plan[k].size;
    var channel := s.workers[w].phase.channel;
    var s1 := SetPhase(s, w, Writing(k, 0, channel)).(parts := s.parts[k := []]);
    run' := Go(d, run, calm, s1, Create(w));
    assert Overwritten([], 0, Range(d, k)[0..n]) == Range(d, k);
    var s2 := SetPhase(s1, w, Writing(k, n, channel)).(parts := s1.parts[k := Range(d, k)]);
    assert FetchStep(d, s1, s2, Write(w, n));
    run' := Go(d, run', calm, s2, Write(w, n));
    var s3 := SetPhase(s2, w, Idle).(records := s2.records[k := DoneWith(s2.records[k], n, [])]);
    run' := Go(d, run', calm, s3, Finish(w));
    assert s3.workers == SetPhase(s, w, Idle).workers;
    assert s3.parts == s.parts[k := Range(d, k)];
  }

  // ---- what the dispatch gives ----

  lemma {:induction false} FirstExists(p: seq<nat>, plan: StrictSplit.Channels, channel: string, n: nat)
    returns (k: nat)
    requires n < |p| && StrictSplit.Planned(plan, p[n]) == channel
    ensures FirstOn(p, plan, channel, k) && k in p
  {
    if j: nat :| j < n && StrictSplit.Planned(plan, p[j]) == channel {
      k := FirstExists(p, plan, channel, j);
    } else {
      k := p[n];
    }
  }

  /** With something pending, some channel gives a pending chunk: a strict plan's, the channel of any chunk wanted. */
  lemma {:induction false} SomethingGiven(d: Download, r: RunInfo, p: seq<nat>, want: nat)
    returns (channel: string, k: nat)
    requires Valid(d) && r.config in d.configs && want in p && want < |d.plan|
    ensures channel in d.channels && k in p && Gives(r, p, channel, k)
    ensures r.config.strict.Some? ==> channel == StrictSplit.Planned(r.config.strict.value, want)
  {
    match r.config.strict
    case None =>
      channel :| channel in d.channels;
      k := p[r.picks % |p|];
    case Some(plan) =>
      assert Binds(d, plan);
      channel := StrictSplit.Planned(plan, want);
      var n: nat :| n < |p| && p[n] == want;
      k := FirstExists(p, plan, channel, n);
  }

  // ---- a download under way ----

  ghost predicate AllConfigured(s: DState, c: Config) { forall r :: 0 <= r < |s.runs| ==> s.runs[r].config == c }

  /** The latest run has two workers and every run this configuration. */
  ghost predicate TwoWorkers(s: DState, c: Config) {
    && s.runs != [] && |s.workers| == 2 && s.final.None?
    && (forall w :: 0 <= w < 2 ==> s.workers[w].run == |s.runs| - 1)
    && AllConfigured(s, c)
  }

  /** Every chunk but i is pending, untried, or done with its part whole. */
  ghost predicate OthersOk(d: Download, s: DState, i: nat)
    requires Valid(d)
  {
    && |s.records| == |d.plan| && i < |d.plan|
    && forall k: nat :: k < |s.records| && k != i ==>
         || (s.records[k].status.Pending? && s.records[k].attempts == 0)
         || (s.records[k].status.Done? && k in s.parts && s.parts[k] == Range(d, k))
  }

  ghost predicate OthersDone(s: DState, i: nat) {
    forall k: nat :: k < |s.records| && k != i ==> s.records[k].status.Done?
  }

  ghost predicate Fetching(d: Download, s: DState, c: Config, i: nat)
    requires Valid(d)
  {
    TwoWorkers(s, c) && OthersOk(d, s, i)
  }

  ghost function OpenChunks(s: DState): set<nat> { set k: nat | k < |s.records| && Retryable(s.records[k]) }

  lemma {:induction false} FewerOpen(s: DState, s': DState, k: nat)
    requires k in OpenChunks(s) && |s'.records| == |s.records| && !Retryable(s'.records[k])
    requires forall j: nat :: j < |s.records| && j != k && Retryable(s'.records[j]) ==> Retryable(s.records[j])
    ensures |OpenChunks(s')| < |OpenChunks(s)|
  {
    var rest := OpenChunks(s) - {k};
    assert OpenChunks(s') <= rest;
    assert rest == OpenChunks(s') + (rest - OpenChunks(s'));
  }

  /** A worker looks, marks what the channel gives it and fetches that whole. */
  lemma {:induction false} FetchGiven(d: Download, run: seq<DState>, calm: bool, w: nat, channel: string, k: nat)
    returns (run': seq<DState>)
    requires Valid(d) && run != [] && Played(d, run, calm) && channel in d.channels
    requires var s := run[|run| - 1];
      && |s.records| == |d.plan| && w < |s.workers| && s.workers[w].phase.Idle? && s.workers[w].run < |s.runs|
      && Busy(s.workers, s.workers[w].run, channel) < s.runs[s.workers[w].run].config.limit
      && k in PendingOf(s.records, |s.records|)
      && Gives(s.runs[s.workers[w].run], PendingOf(s.records, |s.records|), channel, k)
    ensures run' != [] && Played(d, run', calm)
    ensures var s, s' := run[|run| - 1], run'[|run'| - 1];
      && |s'.records| == |s.records| && s'.records[k].status.Done?
      && s' == s.(records := s.records[k := s'.records[k]], parts := s.parts[k := Range(d, k)],
                  runs := Picked(s.runs, s.workers[w].run))
      && |OpenChunks(s')| < |OpenChunks(s)|
  {
    hide Played, Gives, Busy;
    var s := run[|run| - 1];
    run' := LookOn(d, run, calm, w, channel);
    run' := PickOn(d, run', calm, w, k, channel);
    run' := FetchWhole(d, run', calm, w, k);
    var s' := run'[|run'| - 1];
    assert s'.workers == s.workers;
    FewerOpen(s, s', k);
  }

  /** A chunk other than i fetched whole leaves the download under way. */
  lemma {:induction false} FetchedOther(d: Download, s: DState, s': DState, c: Config, i: nat, k: nat)
    requires Valid(d) && Fetching(d, s, c, i) && k < |s.records| && k != i
    requires |s'.records| == |s.records| && s'.records[k].status.Done?
    requires s' == s.(records := s.records[k := s'.records[k]], parts := s.parts[k := Range(d, k)],
                      runs := Picked(s.runs, |s.runs| - 1))
    ensures Fetching(d, s', c, i) && s'.records[i] == s.records[i]
    ensures i in s.parts ==> i in s'.parts && s'.parts[i] == s.parts[i]
  {
    hide Range;
  }

  ghost predicate BothIdle(s: DState) {
    |s.workers| == 2 && s.workers[0].phase.Idle? && s.workers[1].phase.Idle?
  }

  lemma {:induction false} IdleIsFree(s: DState, c: Config, channel: string)
    requires TwoWorkers(s, c) && BothIdle(s) && c.limit > 0
    ensures Busy(s.workers, s.workers[0].run, channel) < s.runs[s.workers[0].run].config.limit
  {
    NobodyBusy(s.workers, s.workers[0].run, channel);
  }

  // ---- both take the chunk ----

  /** Both workers hold chunk i, and nothing is wrong yet. */
  ghost predicate BothHold(d: Download, s: DState, c: Config, i: nat, channel: string)
    requires Valid(d)
  {
    && Fetching(d, s, c, i)
    && s.workers[0].phase == Marked(i, channel) && s.workers[1].phase == Marked(i, channel)
  }

  /** Both look at the same list. */
  lemma {:induction false} BothLook(d: Download, run: seq<DState>, calm: bool, c: Config, channel: string)
    returns (run': seq<DState>)
    requires Valid(d) && run != [] && Played(d, run, calm) && channel in d.channels && c.limit > 0
    requires var s := run[|run| - 1];
      TwoWorkers(s, c) && BothIdle(s) && PendingOf(s.records, |s.records|) != []
    ensures run' != [] && Played(d, run', calm)
    ensures var s := run[|run| - 1];
      var worker := Worker(|s.runs| - 1, Looking(PendingOf(s.records, |s.records|), {channel}));
      run'[|run'| - 1] == s.(workers := [worker, worker])
  {
    hide Played, PendingOf;
    var s := run[|run| - 1];
    IdleIsFree(s, c, channel);
    run' := LookOn(d, run, calm, 0, channel);
    var s1 := run'[|run'| - 1];
    NobodyBusy(s1.workers, |s.runs| - 1, channel);
    run' := LookOn(d, run', calm, 1, channel);
    var worker := Worker(|s.runs| - 1, Looking(PendingOf(s.records, |s.records|), {channel}));
    assert run'[|run'| - 1].workers == [worker, worker];
  }

  /** A list that gives chunk i to two workers in a row makes both take it. */
  lemma {:induction false} BothTake(d: Download, run: seq<DState>, calm: bool, c: Config, i: nat, channel: string)
    returns (run': seq<DState>)
    requires Valid(d) && run != [] && Played(d, run, calm) && channel in d.channels && c.limit > 0
    requires var s := run[|run| - 1];
      && Fetching(d, s, c, i) && BothIdle(s)
      && var p, r := PendingOf(s.records, |s.records|), |s.runs| - 1;
         p != [] && Gives(s.runs[r], p, channel, i) && Gives(Picked(s.runs, r)[r], p, channel, i)
    ensures run' != [] && Played(d, run', calm) && BothHold(d, run'[|run'| - 1], c, i, channel)
  {
    hide Played, Gives, PendingOf;
    run' := BothLook(d, run, calm, c, channel);
    run' := PickOn(d, run', calm, 0, i, channel);
    run' := PickOn(d, run', calm, 1, i, channel);
  }

  // ---- getting there, chunks bound to channels ----

  /** The first worker fetches, on chunk i's channel, what is bound to it, until chunk i is next. */
  lemma {:induction false} UntilFirst(d: Download, run: seq<DState>, c: Config, i: nat) returns (run': seq<DState>)
    requires Valid(d) && run != [] && Played(d, run, true) && c in d.configs && c.strict.Some?
    requires var s := run[|run| - 1];
      Fetching(d, s, c, i) && BothIdle(s) && s.records[i].status.Pending?
    ensures run' != [] && Played(d, run', true)
    ensures var s, channel := run'[|run'| - 1], StrictSplit.Planned(c.strict.value, i);
      && Fetching(d, s, c, i) && BothIdle(s) && i in PendingOf(s.records, |s.records|)
      && FirstOn(PendingOf(s.records, |s.records|), c.strict.value, channel, i)
    decreases |OpenChunks(run[|run| - 1])|
  {
    hide Played, FirstOn;
    var s := run[|run| - 1];
    var p := PendingOf(s.records, |s.records|);
    assert i in p;
    var channel, k := SomethingGiven(d, s.runs[|s.runs| - 1], p, i);
    if k == i {
      run' := run;
    } else {
      IdleIsFree(s, c, channel);
      run' := FetchGiven(d, run, true, 0, channel, k);
      FetchedOther(d, s, run'[|run'| - 1], c, i, k);
      hide Fetching, Gives, PendingOf, OpenChunks, Range;
      run' := UntilFirst(d, run', c, i);
    }
  }

  lemma {:induction false} StrictBothHold(d: Download, c: Config, i: nat) returns (run: seq<DState>, channel: string)
    requires Valid(d) && c in d.configs && c.strict.Some? && i < |d.plan|
    ensures run != [] && Played(d, run, true) && BothHold(d, run[|run| - 1], c, i, channel)
  {
    run := Started(d, c, i, true);
    run := UntilFirst(d, run, c, i);
    assert Binds(d, c.strict.value);
    channel := StrictSplit.Planned(c.strict.value, i);
    hide Played, FirstOn;
    run := BothTake(d, run, true, c, i, channel);
  }

  lemma {:induction false} Started(d: Download, c: Config, i: nat, calm: bool) returns (run: seq<DState>)
    requires Valid(d) && c in d.configs && i < |d.plan|
    ensures run != [] && Played(d, run, calm)
    ensures var s := run[|run| - 1];
      && Fetching(d, s, c, i) && BothIdle(s) && s.records[i].status.Pending? && s.records[i].attempts == 0
  {
    run := [DState(Fresh(d.plan), Fresh(d.plan), map[], SessionFiles.None, seq(2, _ => Worker(0, Idle)),
                   [RunInfo(c, 0)])];
    assert Init(d, run[0]);
    assert IsRun(d, run) && Undisturbed(d, run);
  }

  // ---- getting there in rotation ----

  /** Only chunk i is left to fetch, and both workers are idle. */
  ghost predicate OneLeft(d: Download, s: DState, c: Config, i: nat)
    requires Valid(d)
  {
    Fetching(d, s, c, i) && BothIdle(s) && Retryable(s.records[i]) && OthersDone(s, i)
  }

  lemma {:induction false} OnlyOnePending(cs: seq<ChunkState>, n: nat, i: nat)
    requires n <= |cs| && i < |cs| && Retryable(cs[i])
    requires forall k: nat :: k < |cs| && k != i ==> !Retryable(cs[k])
    ensures PendingOf(cs, n) == if i < n then [i] else []
  {
    if n > 0 {
      OnlyOnePending(cs, n - 1, i);
    }
  }

  /** A rotation over one chunk gives that chunk every time. */
  lemma {:induction false} LastIsTaken(d: Download, run: seq<DState>, calm: bool, c: Config, i: nat, channel: string)
    returns (run': seq<DState>)
    requires Valid(d) && run != [] && Played(d, run, calm) && channel in d.channels
    requires c in d.configs && c.strict.None? && OneLeft(d, run[|run| - 1], c, i)
    ensures run' != [] && Played(d, run', calm) && BothHold(d, run'[|run'| - 1], c, i, channel)
  {
    var s := run[|run| - 1];
    OnlyOnePending(s.records, |s.records|, i);
    hide Played;
    run' := BothTake(d, run, calm, c, i, channel);
  }

  /** Chunk i is in the first worker's hands, marked and not yet opened. */
  ghost predicate FirstHolds(d: Download, s: DState, c: Config, i: nat, channel: string)
    requires Valid(d)
  {
    && Fetching(d, s, c, i) && s.records[i].status.Sending? && s.records[i].attempts == 0
    && s.workers[0].phase == Marked(i, channel) && s.workers[1].phase.Idle?
  }

  /** The first worker fetches what the rotation gives it until that is chunk i, and marks it. */
  lemma {:induction false} UntilPicked(d: Download, run: seq<DState>, c: Config, i: nat, channel: string)
    returns (run': seq<DState>)
    requires Valid(d) && run != [] && Played(d, run, true) && channel in d.channels
    requires c in d.configs && c.strict.None?
    requires var s := run[|run| - 1];
      Fetching(d, s, c, i) && BothIdle(s) && s.records[i].status.Pending? && s.records[i].attempts == 0
    ensures run' != [] && Played(d, run', true) && FirstHolds(d, run'[|run'| - 1], c, i, channel)
    decreases |OpenChunks(run[|run| - 1])|
  {
    hide Played;
    var s := run[|run| - 1];
    var p, r := PendingOf(s.records, |s.records|), |s.runs| - 1;
    assert i in p;
    var k := p[s.runs[r].picks % |p|];
    assert k in p;
    IdleIsFree(s, c, channel);
    if k == i {
      run' := LookOn(d, run, true, 0, channel);
      run' := PickOn(d, run', true, 0, i, channel);
    } else {
      run' := FetchGiven(d, run, true, 0, channel, k);
      FetchedOther(d, s, run'[|run'| - 1], c, i, k);
      hide Fetching, Gives, PendingOf, OpenChunks, Range;
      run' := UntilPicked(d, run', c, i, channel);
    }
  }

  /** With room beside it, the second worker fetches all the others meanwhile. */
  lemma {:induction false} OthersFetched(d: Download, run: seq<DState>, c: Config, i: nat, channel: string,
      other: string) returns (run': seq<DState>)
    requires Valid(d) && run != [] && Played(d, run, true) && other in d.channels
    requires c in d.configs && c.strict.None? && (other != channel || c.limit > 1)
    requires FirstHolds(d, run[|run| - 1], c, i, channel)
    ensures run' != [] && Played(d, run', true) && FirstHolds(d, run'[|run'| - 1], c, i, channel)
    ensures OthersDone(run'[|run'| - 1], i)
    decreases |OpenChunks(run[|run| - 1])|
  {
    hide Played;
    var s := run[|run| - 1];
    var p, r := PendingOf(s.records, |s.records|), |s.runs| - 1;
    if p == [] {
      run' := run;
      NoneOpen(d, s, i);
    } else {
      var k := p[s.runs[r].picks % |p|];
      assert k in p;
      assert s.workers == [s.workers[0], s.workers[1]];
      BusyOfTwo(s.workers[0], s.workers[1], r, other);
      run' := FetchGiven(d, run, true, 1, other, k);
      FetchedOther(d, s, run'[|run'| - 1], c, i, k);
      hide Fetching, Gives, PendingOf, OpenChunks, Range;
      run' := OthersFetched(d, run', c, i, channel, other);
    }
  }

  lemma {:induction false} NoneOpen(d: Download, s: DState, i: nat)
    requires Valid(d) && OthersOk(d, s, i) && PendingOf(s.records, |s.records|) == []
    ensures OthersDone(s, i)
  {
    forall j: nat | j < |s.records| && j != i
      ensures s.records[j].status.Done?
    {
      assert j !in PendingOf(s.records, |s.records|);
    }
  }

  /** And then the first gives up. */
  lemma {:induction false} GiveUp(d: Download, run: seq<DState>, c: Config, i: nat, channel: string)
    returns (run': seq<DState>)
    requires Valid(d) && run != [] && Played(d, run, true)
    requires FirstHolds(d, run[|run| - 1], c, i, channel) && OthersDone(run[|run| - 1], i)
    ensures run' != [] && Played(d, run', true) && OneLeft(d, run'[|run'| - 1], c, i)
  {
    hide Played;
    var s := run[|run| - 1];
    var s' := SetPhase(s, 0, Idle).(records := s.records[i := Retried(s.records[i], "")]);
    assert FetchStep(d, s, s', Fail(0, ""));
    run' := Go(d, run, true, s', Fail(0, ""));
  }

  /** More than one chunk fits in flight. */
  predicate HasRoom(d: Download, c: Config) { |d.channels| > 1 || c.limit > 1 }

  lemma {:induction false} TwoSlots(d: Download, c: Config) returns (channel: string, other: string)
    requires Valid(d) && HasRoom(d, c)
    ensures channel in d.channels && other in d.channels && (other != channel || c.limit > 1)
  {
    channel :| channel in d.channels;
    if c.limit > 1 {
      other := channel;
    } else {
      assert d.channels != {channel};
      other :| other in d.channels && other != channel;
    }
  }

  lemma {:induction false} RotatingBothHold(d: Download, c: Config, i: nat) returns (run: seq<DState>, channel: string)
    requires Valid(d) && c in d.configs && c.strict.None? && HasRoom(d, c) && i < |d.plan|
    ensures run != [] && Played(d, run, true) && BothHold(d, run[|run| - 1], c, i, channel)
  {
    var other;
    channel, other := TwoSlots(d, c);
    run := Started(d, c, i, true);
    hide Played;
    run := UntilPicked(d, run, c, i, channel);
    run := OthersFetched(d, run, c, i, channel, other);
    run := GiveUp(d, run, c, i, channel);
    run := LastIsTaken(d, run, true, c, i, channel);
  }

  // ---- getting there one chunk at a time, with a restart when the rotation falls on chunk i ----

  lemma {:induction false} PendingDistinct(cs: seq<ChunkState>, n: nat, a: nat, b: nat)
    requires n <= |cs| && a < b < |PendingOf(cs, n)|
    ensures PendingOf(cs, n)[a] != PendingOf(cs, n)[b]
  {
    if n > 0 {
      var q := PendingOf(cs, n - 1);
      if b < |q| {
        PendingDistinct(cs, n - 1, a, b);
      } else if a < |q| {
        assert q[a] in q;
      }
    }
  }

  lemma {:induction false} NextDiffers(cs: seq<ChunkState>, picks: nat)
    requires |PendingOf(cs, |cs|)| > 1
    ensures var p := PendingOf(cs, |cs|); p[picks % |p|] != p[(picks + 1) % |p|]
  {
    var p := PendingOf(cs, |cs|);
    var a, b := picks % |p|, (picks + 1) % |p|;
    Scheduler.RotatedIndex(picks, 1, |p|);
    if a < b { PendingDistinct(cs, |cs|, a, b); } else { PendingDistinct(cs, |cs|, b, a); }
  }

  /** Chunk i untried, both workers idle, the others pending or done. */
  ghost predicate Waiting(d: Download, s: DState, c: Config, i: nat)
    requires Valid(d)
  {
    Fetching(d, s, c, i) && BothIdle(s) && s.records[i].status.Pending? && s.records[i].attempts == 0
  }

  ghost function ResumedRecords(d: Download, s: DState): seq<ChunkState> {
    ActivateAll(DR.RestoredChunks(s.records, |d.resource|, FilesOf(s)), RESUME_MAX_ATTEMPTS)
  }

  /** A record after it was saved, restored and resumed. */
  lemma {:induction false} ResumedRecord(d: Download, s: DState, k: nat)
    requires Valid(d) && Geometry(s.records) == d.plan && k < |s.records| && s.final.None?
    requires s.records[k].status.Done? ==> k in s.parts && s.parts[k] == Range(d, k)
    ensures var cs := ResumedRecords(d, s);
      && |cs| == |s.records|
      && (s.records[k].status.Pending? || s.records[k].status.Done? ==> cs[k] == s.records[k])
      && (s.records[k].status.Sending? ==> cs[k] == s.records[k].(status := Pending))
  {
    assert s.records[k].Extent() == d.plan[k] && d.plan[k].index == k;
    assert !DR.FinalComplete(NormalizeAll(s.records, LOAD_MAX_ATTEMPTS), |d.resource|, FilesOf(s));
  }

  /** The agent saves, crashes, restores and resumes. */
  lemma {:induction false} SaveCrashResume(d: Download, run: seq<DState>, c: Config) returns (run': seq<DState>)
    requires Valid(d) && run != [] && Played(d, run, false) && c in d.configs && run[|run| - 1].final.None?
    ensures run' != [] && Played(d, run', false)
    ensures var s, s' := run[|run| - 1], run'[|run'| - 1];
      s' == s.(records := ResumedRecords(d, s), disk := s'.disk, runs := s.runs + [RunInfo(c, 0)],
               workers := [Worker(|s.runs|, Idle), Worker(|s.runs|, Idle)])
  {
    hide Played, DR.RestoredChunks, DR.SavedAfter, FilesOf;
    var s := run[|run| - 1];
    var s1 := s.(disk := s.records);
    run' := Go(d, run, false, s1, Save);
    SameFiles(s, s1);
    var cs := DR.RestoredChunks(s.records, |d.resource|, FilesOf(s));
    var s2 := s1.(records := cs, disk := DR.SavedAfter(s.records, |d.resource|, FilesOf(s)), workers := []);
    assert JobStep(d, s1, s2, Restart);
    run' := Go(d, run', false, s2, Restart);
    var two := seq(2, _ => Worker(|s.runs|, Idle));
    var s3 := s2.(records := ActivateAll(cs, RESUME_MAX_ATTEMPTS), workers := s2.workers + two,
                  runs := s.runs + [RunInfo(c, 0)]);
    assert JobStep(d, s2, s3, Resume(2, c));
    run' := Go(d, run', false, s3, Resume(2, c));
    assert s3.workers == [Worker(|s.runs|, Idle), Worker(|s.runs|, Idle)];
  }

  lemma {:induction false} SameFiles(s: DState, s': DState)
    requires s'.parts == s.parts && s'.final == s.final
    ensures FilesOf(s') == FilesOf(s)
  {
  }

  /** After that chunk i is pending again, untried, and the others are what they were. */
  lemma {:induction false} CrashAndResume(d: Download, run: seq<DState>, c: Config, i: nat) returns (run': seq<DState>)
    requires Valid(d) && run != [] && Played(d, run, false) && c in d.configs
    requires var s := run[|run| - 1];
      Fetching(d, s, c, i) && s.records[i].status.Sending? && s.records[i].attempts == 0
    ensures run' != [] && Played(d, run', false) && Waiting(d, run'[|run'| - 1], c, i)
    ensures var s, s' := run[|run| - 1], run'[|run'| - 1];
      && |s'.records| == |s.records| && forall k: nat :: k < |s.records| && k != i ==> s'.records[k] == s.records[k]
  {
    RunKeepsShape(d, run, |run| - 1);
    hide Played, ResumedRecords, Range;
    run' := SaveCrashResume(d, run, c);
    ResumeWaits(d, run[|run| - 1], run'[|run'| - 1], c, i);
  }

  lemma {:induction false} ResumeWaits(d: Download, s: DState, s': DState, c: Config, i: nat)
    requires Valid(d) && Fetching(d, s, c, i) && Geometry(s.records) == d.plan
    requires s.records[i].status.Sending? && s.records[i].attempts == 0
    requires s' == s.(records := ResumedRecords(d, s), disk := s'.disk, runs := s.runs + [RunInfo(c, 0)],
                      workers := [Worker(|s.runs|, Idle), Worker(|s.runs|, Idle)])
    ensures Waiting(d, s', c, i) && |s'.records| == |s.records|
    ensures forall k: nat :: k < |s.records| && k != i ==> s'.records[k] == s.records[k]
  {
    forall k: nat | k < |s.records|
      ensures |ResumedRecords(d, s)| == |s.records|
      ensures k != i ==> ResumedRecords(d, s)[k] == s.records[k]
      ensures k == i ==> ResumedRecords(d, s)[k] == s.records[k].(status := Pending)
    {
      ResumedRecord(d, s, k);
    }
    hide ResumedRecords, Range;
  }

  /** One more of the others gets done, whatever the rotation gives. */
  lemma {:induction false} OneMore(d: Download, run: seq<DState>, c: Config, i: nat, channel: string)
    returns (run': seq<DState>)
    requires Valid(d) && run != [] && Played(d, run, false) && channel in d.channels
    requires c in d.configs && c.strict.None?
    requires Waiting(d, run[|run| - 1], c, i) && |PendingOf(run[|run| - 1].records, |d.plan|)| > 1
    ensures run' != [] && Played(d, run', false) && Waiting(d, run'[|run'| - 1], c, i)
    ensures |OpenChunks(run'[|run'| - 1])| < |OpenChunks(run[|run| - 1])|
  {
    hide Played;
    var s := run[|run| - 1];
    var p, r := PendingOf(s.records, |s.records|), |s.runs| - 1;
    var k := p[s.runs[r].picks % |p|];
    assert k in p;
    IdleIsFree(s, c, channel);
    if k != i {
      run' := FetchGiven(d, run, false, 0, channel, k);
      FetchedOther(d, s, run'[|run'| - 1], c, i, k);
      hide Fetching, Gives, PendingOf, OpenChunks, Range;
    } else {
      run' := PassOver(d, run, c, i, channel);
    }
  }

  /** The rotation falls on chunk i: the first marks it, the second fetches the next, and the agent crashes. */
  lemma {:induction false} PassOver(d: Download, run: seq<DState>, c: Config, i: nat, channel: string)
    returns (run': seq<DState>)
    requires Valid(d) && run != [] && Played(d, run, false) && channel in d.channels
    requires c in d.configs && c.strict.None?
    requires Waiting(d, run[|run| - 1], c, i)
    requires var s := run[|run| - 1];
      var p := PendingOf(s.records, |s.records|); |p| > 1 && i == p[s.runs[|s.runs| - 1].picks % |p|]
    ensures run' != [] && Played(d, run', false) && Waiting(d, run'[|run'| - 1], c, i)
    ensures |OpenChunks(run'[|run'| - 1])| < |OpenChunks(run[|run| - 1])|
  {
    hide Played;
    var s := run[|run| - 1];
    var p, r := PendingOf(s.records, |s.records|), |s.runs| - 1;
    var next := p[(s.runs[r].picks + 1) % |p|];
    NextDiffers(s.records, s.runs[r].picks);
    assert next in p;
    hide PendingOf, Gives, Range;
    run' := TakeBoth(d, run, c, i, next, channel);
    run' := CrashAndResume(d, run', c, i);
    hide Fetching;
    FewerOpen(s, run'[|run'| - 1], next);
  }

  lemma {:induction false} TakeBoth(d: Download, run: seq<DState>, c: Config, i: nat, next: nat, channel: string)
    returns (run': seq<DState>)
    requires Valid(d) && run != [] && Played(d, run, false) && channel in d.channels && c.limit > 0
    requires var s := run[|run| - 1];
      && Waiting(d, s, c, i) && next < |d.plan| && next != i
      && var p, r := PendingOf(s.records, |s.records|), |s.runs| - 1;
         p != [] && Gives(s.runs[r], p, channel, i) && Gives(Picked(s.runs, r)[r], p, channel, next)
    ensures run' != [] && Played(d, run', false)
    ensures var s, s' := run[|run| - 1], run'[|run'| - 1];
      && Fetching(d, s', c, i) && s'.records[i].status.Sending? && s'.records[i].attempts == 0
      && s'.records[next].status.Done?
      && |s'.records| == |s.records|
      && forall k: nat :: k < |s.records| && k != i && k != next ==> s'.records[k] == s.records[k]
  {
    hide Played, Gives, PendingOf, Range;
    run' := BothLook(d, run, false, c, channel);
    run' := PickOn(d, run', false, 0, i, channel);
    run' := PickOn(d, run', false, 1, next, channel);
    run' := FetchWhole(d, run', false, 1, next);
  }

  lemma {:induction false} OnlyThat(cs: seq<ChunkState>, i: nat, k: nat)
    requires i in PendingOf(cs, |cs|) && |PendingOf(cs, |cs|)| <= 1 && k != i
    ensures k !in PendingOf(cs, |cs|)
  {
  }

  lemma {:induction false} UntilOneLeft(d: Download, run: seq<DState>, c: Config, i: nat, channel: string)
    returns (run': seq<DState>)
    requires Valid(d) && run != [] && Played(d, run, false) && channel in d.channels
    requires c in d.configs && c.strict.None? && Waiting(d, run[|run| - 1], c, i)
    ensures run' != [] && Played(d, run', false) && OneLeft(d, run'[|run'| - 1], c, i)
    decreases |OpenChunks(run[|run| - 1])|
  {
    hide Played;
    var s := run[|run| - 1];
    if |PendingOf(s.records, |s.records|)| > 1 {
      run' := OneMore(d, run, c, i, channel);
      run' := UntilOneLeft(d, run', c, i, channel);
    } else {
      run' := run;
      forall k: nat | k < |s.records| && k != i
        ensures s.records[k].status.Done?
      {
        OnlyThat(s.records, i, k);
      }
    }
  }

  lemma {:induction false} AnyRotationBothHold(d: Download, c: Config, i: nat)
    returns (run: seq<DState>, channel: string)
    requires Valid(d) && c in d.configs && c.strict.None? && i < |d.plan|
    ensures run != [] && Played(d, run, false) && BothHold(d, run[|run| - 1], c, i, channel)
  {
    channel :| channel in d.channels;
    run := Started(d, c, i, false);
    hide Played;
    run := UntilOneLeft(d, run, c, i, channel);
    run := LastIsTaken(d, run, false, c, i, channel);
  }

  // ---- what comes of it ----

  /** The first has written up to q when the second opens the file anew, and fails. */
  lemma {:induction false} Trample(d: Download, run: seq<DState>, calm: bool, i: nat, q: nat, channel: string)
    returns (run': seq<DState>)
    requires Valid(d) && run != [] && Played(d, run, calm) && i < |d.plan| && 0 < q < d.plan[i].size
    requires var s := run[|run| - 1];
      && i < |s.records| && |s.workers| == 2
      && s.workers[0].phase == Marked(i, channel) && s.workers[1].phase == Marked(i, channel)
    ensures run' != [] && Played(d, run', calm)
    ensures var s, s' := run[|run| - 1], run'[|run'| - 1];
      && |s'.records| == |s.records|
      && s' == s.(workers := [s.workers[0].(phase := Writing(i, q, channel)), s.workers[1].(phase := Idle)],
                  parts := s.parts[i := []], records := s.records[i := s'.records[i]])
  {
    hide Played, Overwritten, Range;
    var s := run[|run| - 1];
    var a, b := s.workers[0], s.workers[1];
    var s1 := s.(workers := [a.(phase := Writing(i, 0, channel)), b], parts := s.parts[i := []]);
    assert s1 == SetPhase(s, 0, Writing(i, 0, channel)).(parts := s.parts[i := []]);
    run' := Go(d, run, calm, s1, Create(0));
    var part := Overwritten([], 0, Range(d, i)[0..q]);
    var s2 := s.(workers := [a.(phase := Writing(i, q, channel)), b], parts := s.parts[i := part]);
    assert s2 == SetPhase(s1, 0, Writing(i, q, channel)).(parts := s1.parts[i := part]);
    assert FetchStep(d, s1, s2, Write(0, q));
    run' := Go(d, run', calm, s2, Write(0, q));
    run' := OpenAndFail(d, run', calm, i, channel);
    assert run'[|run'| - 1].parts == s.parts[i := []];
  }

  lemma {:induction false} OpenAndFail(d: Download, run: seq<DState>, calm: bool, i: nat, channel: string)
    returns (run': seq<DState>)
    requires Valid(d) && run != [] && Played(d, run, calm)
    requires var s := run[|run| - 1];
      i < |s.records| && |s.workers| == 2 && s.workers[1].phase == Marked(i, channel)
    ensures run' != [] && Played(d, run', calm)
    ensures var s, s' := run[|run| - 1], run'[|run'| - 1];
      && |s'.records| == |s.records|
      && s' == s.(workers := [s.workers[0], s.workers[1].(phase := Idle)],
                  parts := s.parts[i := []], records := s.records[i := s'.records[i]])
  {
    hide Played;
    var s := run[|run| - 1];
    var a, b := s.workers[0], s.workers[1];
    var s1 := s.(workers := [a, b.(phase := Writing(i, 0, channel))], parts := s.parts[i := []]);
    assert s1 == SetPhase(s, 1, Writing(i, 0, channel)).(parts := s.parts[i := []]);
    run' := Go(d, run, calm, s1, Create(1));
    var c := Retried(s.records[i], "");
    var s2 := s1.(workers := [a, b.(phase := Idle)], records := s.records[i := c]);
    assert s2 == SetPhase(s1, 1, Idle).(records := s1.records[i := c]);
    run' := Go(d, run', calm, s2, Fail(1, ""));
  }

  /** Then the first goes on where it was: what it had written is a gap now. */
  lemma {:induction false} GoOn(d: Download, run: seq<DState>, calm: bool, i: nat, q: nat, channel: string)
    returns (run': seq<DState>)
    requires Valid(d) && run != [] && Played(d, run, calm) && i < |d.plan| && 0 < q < d.plan[i].size
    requires var s := run[|run| - 1];
      && i < |s.records| && |s.workers| == 2
      && s.workers[0].phase == Writing(i, q, channel) && s.workers[1].phase.Idle?
      && i in s.parts && s.parts[i] == []
    ensures run' != [] && Played(d, run', calm)
    ensures var s, s' := run[|run| - 1], run'[|run'| - 1];
      && |s'.records| == |s.records| && s'.records[i].status.Done? && i in s'.parts
      && s' == s.(workers := [s.workers[0].(phase := Idle), s.workers[1]], parts := s.parts[i := s'.parts[i]],
                  records := s.records[i := s'.records[i]])
      && |s'.parts[i]| == d.plan[i].size && forall x :: 0 <= x < q ==> s'.parts[i][x] == 0
  {
    hide Played;
    var s, n := run[|run| - 1], d.plan[i].size;
    var a, b := s.workers[0], s.workers[1];
    var part := Overwritten([], q, Range(d, i)[q..n]);
    var s1 := s.(workers := [a.(phase := Writing(i, n, channel)), b], parts := s.parts[i := part]);
    assert s1 == SetPhase(s, 0, Writing(i, n, channel)).(parts := s.parts[i := part]);
    assert FetchStep(d, s, s1, Write(0, n - q));
    run' := Go(d, run, calm, s1, Write(0, n - q));
    var c := DoneWith(s.records[i], n, []);
    var s2 := s1.(workers := [a.(phase := Idle), b], records := s.records[i := c]);
    assert s2 == SetPhase(s1, 0, Idle).(records := s1.records[i := c]);
    run' := Go(d, run', calm, s2, Finish(0));
  }

  /** Chunk i is done with a part of full size that has a zero at x. */
  ghost predicate Trampled(d: Download, s: DState, c: Config, i: nat, x: nat)
    requires Valid(d)
  {
    && Fetching(d, s, c, i) && BothIdle(s) && s.records[i].status.Done?
    && x < d.plan[i].size && i in s.parts && |s.parts[i]| == d.plan[i].size && s.parts[i][x] == 0
  }

  lemma {:induction false} ReachTrampled(d: Download, run: seq<DState>, calm: bool, c: Config, i: nat, x: nat,
      channel: string) returns (run': seq<DState>)
    requires Valid(d) && run != [] && Played(d, run, calm) && BothHold(d, run[|run| - 1], c, i, channel)
    requires x + 1 < d.plan[i].size
    ensures run' != [] && Played(d, run', calm) && Trampled(d, run'[|run'| - 1], c, i, x)
  {
    hide Played, Range;
    run' := Trample(d, run, calm, i, x + 1, channel);
    run' := GoOn(d, run', calm, i, x + 1, channel);
  }

  /** The first worker fetches whatever is left. */
  lemma {:induction false} RestFetched(d: Download, run: seq<DState>, calm: bool, c: Config, i: nat, x: nat)
    returns (run': seq<DState>)
    requires Valid(d) && run != [] && Played(d, run, calm) && c in d.configs && Trampled(d, run[|run| - 1], c, i, x)
    ensures run' != [] && Played(d, run', calm)
    ensures Trampled(d, run'[|run'| - 1], c, i, x) && DR.AllDone(run'[|run'| - 1].records)
    decreases |OpenChunks(run[|run| - 1])|
  {
    hide Played;
    var s := run[|run| - 1];
    var p, r := PendingOf(s.records, |s.records|), |s.runs| - 1;
    if p == [] {
      run' := run;
      NoneOpen(d, s, i);
    } else {
      assert p[0] in p;
      var channel, k := SomethingGiven(d, s.runs[r], p, p[0]);
      IdleIsFree(s, c, channel);
      run' := FetchGiven(d, run, calm, 0, channel, k);
      FetchedOther(d, s, run'[|run'| - 1], c, i, k);
      hide Fetching, Gives, PendingOf, OpenChunks, Range;
      run' := RestFetched(d, run', calm, c, i, x);
    }
  }

  lemma {:induction false} NothingPending(cs: seq<ChunkState>, n: nat)
    requires n <= |cs| && DR.AllDone(cs)
    ensures PendingOf(cs, n) == []
  {
    if n > 0 {
      NothingPending(cs, n - 1);
    }
  }

  /** With everything done both workers leave, and the merge publishes what the parts are. */
  lemma {:induction false} LeaveAndMerge(d: Download, run: seq<DState>, calm: bool, c: Config)
    returns (run': seq<DState>)
    requires Valid(d) && run != [] && Played(d, run, calm)
    requires var s, a := run[|run| - 1], Assembled(d.plan, run[|run| - 1].parts, |d.plan|);
      TwoWorkers(s, c) && BothIdle(s) && DR.AllDone(s.records) && a.Some? && |a.value| == |d.resource|
    ensures run' != [] && Played(d, run', calm)
    ensures var s' := run'[|run'| - 1];
      && s'.final == Assembled(d.plan, run[|run| - 1].parts, |d.plan|) && s'.runs == run[|run| - 1].runs
  {
    hide Played, Assembled;
    var s := run[|run| - 1];
    NothingPending(s.records, |s.records|);
    var s1 := SetPhase(s, 0, Exited);
    assert PickStep(d, s, s1, Look(0, {}));
    run' := Go(d, run, calm, s1, Look(0, {}));
    var s2 := SetPhase(s1, 1, Exited);
    assert PickStep(d, s1, s2, Look(1, {}));
    run' := Go(d, run', calm, s2, Look(1, {}));
    var s3 := s2.(final := Assembled(d.plan, s2.parts, |d.plan|));
    assert JobStep(d, s2, s3, Merge(|s.runs| - 1));
    run' := Go(d, run', calm, s3, Merge(|s.runs| - 1));
  }

  /** Parts of the recorded sizes join to a file of the full length that holds each of them at its offset. */
  lemma {:induction false} AssembledHolds(d: Download, parts: map<nat, Bytes>, n: nat, k: nat, x: nat)
    requires Valid(d) && n <= |d.plan| && k < |d.plan| && x < d.plan[k].size
    requires forall i: nat :: i < |d.plan| ==> i in parts && |parts[i]| == d.plan[i].size
    ensures var a := Assembled(d.plan, parts, n);
      && a.Some? && |a.value| == EndOf(d.plan, n)
      && (k < n ==> 0 <= d.plan[k].offset + x < |a.value| && a.value[d.plan[k].offset + x] == parts[k][x])
  {
    if n > 0 {
      AssembledHolds(d, parts, n - 1, k, x);
      assert d.plan[n - 1].offset == EndOf(d.plan, n - 1);
      EndsIncrease(d.plan, |d.resource|, n - 1, n);
      assert d.plan[k].offset == EndOf(d.plan, k);
      EndsIncrease(d.plan, |d.resource|, k, |d.plan|);
    }
  }

  /** What is merged from there is not the resource, though it has its length. */
  lemma {:induction false} TrampledIsWrong(d: Download, s: DState, c: Config, i: nat, x: nat)
    requires Valid(d) && Trampled(d, s, c, i, x) && DR.AllDone(s.records) && Range(d, i)[x] != 0
    ensures var a := Assembled(d.plan, s.parts, |d.plan|);
      a.Some? && |a.value| == |d.resource| && a.value != d.resource
  {
    forall k: nat | k < |d.plan|
      ensures k in s.parts && |s.parts[k]| == d.plan[k].size
    {
      assert s.records[k].status.Done?;
    }
    AssembledHolds(d, s.parts, |d.plan|, i, x);
    RangeAt(d, i, x);
    assert Assembled(d.plan, s.parts, |d.plan|).value[d.plan[i].offset + x] == 0;
  }

  lemma {:induction false} RangeAt(d: Download, k: nat, x: nat)
    requires Valid(d) && k < |d.plan| && x < d.plan[k].size
    ensures 0 <= d.plan[k].offset + x < |d.resource| && Range(d, k)[x] == d.resource[d.plan[k].offset + x]
  {
    EndsIncrease(d.plan, |d.resource|, k, k + 1);
    assert d.plan[k].offset == EndOf(d.plan, k);
  }

  /** The last state has published a file of the resource's length that is not the resource. */
  ghost predicate PublishedWrong(d: Download, run: seq<DState>)
    requires run != []
  {
    var f := run[|run| - 1].final;
    f.Some? && |f.value| == |d.resource| && f.value != d.resource
  }

  lemma {:induction false} CollisionPublishes(d: Download, run: seq<DState>, calm: bool, c: Config, i: nat, x: nat,
      channel: string) returns (run': seq<DState>)
    requires Valid(d) && run != [] && Played(d, run, calm)
    requires c in d.configs && BothHold(d, run[|run| - 1], c, i, channel)
    requires x + 1 < d.plan[i].size && Range(d, i)[x] != 0
    ensures run' != [] && Played(d, run', calm) && PublishedWrong(d, run')
    ensures AllConfigured(run'[|run'| - 1], c)
  {
    hide Played, Range;
    run' := ReachTrampled(d, run, calm, c, i, x, channel);
    run' := RestFetched(d, run', calm, c, i, x);
    TrampledIsWrong(d, run'[|run'| - 1], c, i, x);
    run' := LeaveAndMerge(d, run', calm, c);
  }

  /**
   * Whatever the configuration, and with all runs configured so: two workers hold one chunk,
   * one of them fails, and the file that is published has zeros where the resource has not.
   * Where chunks are bound to channels, or more than one fits in flight, it takes no crash, no
   * cancel and no resume.
   */
  lemma {:induction false} SharedChunkCorrupts(d: Download, c: Config, i: nat, x: nat) returns (run: seq<DState>)
    requires Valid(d) && c in d.configs && i < |d.plan| && x + 1 < d.plan[i].size && Range(d, i)[x] != 0
    ensures run != [] && IsRun(d, run) && PublishedWrong(d, run)
    ensures AllConfigured(run[|run| - 1], c)
    ensures c.strict.Some? || HasRoom(d, c) ==> Undisturbed(d, run)
  {
    hide Range, BothHold, PublishedWrong;
    var calm, channel := c.strict.Some? || HasRoom(d, c), "";
    if c.strict.Some? {
      run, channel := StrictBothHold(d, c, i);
    } else if HasRoom(d, c) {
      run, channel := RotatingBothHold(d, c, i);
    } else {
      run, channel := AnyRotationBothHold(d, c, i);
    }
    run := CollisionPublishes(d, run, calm, c, i, x, channel);
  }

  /** The parts assembled by number are the part files the merge joins. */
  lemma {:induction false} AssembledIsJoined(d: Download, cs: seq<ChunkState>, session: string, files: SessionFiles.Dir,
      parts: map<nat, Bytes>, k: nat)
    requires Valid(d) && Geometry(cs) == d.plan && Numerable(cs) && k <= |cs|
    requires forall i: nat :: i < k ==>
      var path := DM.PartPath(session, cs[i].index);
      (i in parts <==> path in files) && (i in parts ==> parts[i] == files[path])
    ensures Assembled(d.plan, parts, k) == Joined(files, DM.PartsOf(session, cs), k)
  {
    if k > 0 {
      AssembledIsJoined(d, cs, session, files, parts, k - 1);
      assert cs[k - 1].Extent() == d.plan[k - 1];
    }
  }

  /** In every run, what is published is the resource. */
  ghost predicate AlwaysTheResource(d: Download)
    requires Valid(d)
  {
    forall run: seq<DState>, j: nat {:trigger IsRun(d, run), run[j]} ::
      IsRun(d, run) && j < |run| && run[j].final.Some? ==> run[j].final.value == d.resource
  }

  /**
   * Exactly: every run publishes the resource if and only if no chunk has anything but zeros
   * in front of its last byte, so that a gap would not show. That goes for every set of
   * channels and configurations; for every other resource the program can publish a wrong
   * file and report it done.
   */
  lemma {:induction false} AlwaysTheResourceExactly(d: Download)
    requires Valid(d)
    ensures AlwaysTheResource(d) <==> GapsInvisible(d)
  {
    if GapsInvisible(d) {
      forall run: seq<DState>, j: nat | IsRun(d, run) && j < |run| && run[j].final.Some?
        ensures run[j].final.value == d.resource
      {
        RunKeepsMixed(d, run, j);
      }
    } else {
      var c :| c in d.configs;
      var i: nat, x: nat :| i < |d.plan| && x + 1 < d.plan[i].size && Range(d, i)[x] != 0;
      var run := SharedChunkCorrupts(d, c, i, x);
      assert run[|run| - 1].final.Some?;
    }
  }
}
