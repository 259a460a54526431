/**
 * A download from its first request to the published file: workers that look for a pending
 * chunk, mark it and write its part file, with the agent crashing, the user canceling and
 * resuming, and the merge at the end. A worker looks and marks under two separate holds of
 * the lock, so two of them can hold one chunk; both then write the same part file.
 */
module DownloadRun {
  import opened Plan
  import opened ManifestState
  import opened SessionFiles
  import opened PartMerge
  import DM = DownloadMerge
  import DR = DownloadRestore
  import StrictSplit

  /** The attempts a resumed chunk may have used before its count starts again. */
  const RESUME_MAX_ATTEMPTS := 3

  /** How a run dispatches: how many chunks a channel may have in flight, and which are bound to which, if they are. */
  datatype Config = Config(limit: nat, strict: Option<StrictSplit.Channels>)

  /** What is downloaded, how it is cut, the node's channels, and the ways its runs may be configured. */
  datatype Download = Download(plan: seq<Extent>, resource: Bytes, channels: set<string>, configs: set<Config>)

  datatype Phase =
    | Idle
    | Looking(pending: seq<nat>, free: set<string>)  // has seen these chunks pending and these channels free
    | Marked(k: nat, channel: string)                // has marked chunk k and asked for its range
    | Writing(k: nat, pos: nat, channel: string)     // has opened the part file and written pos bytes
    | Exited

  datatype Worker = Worker(run: nat, phase: Phase)

  /** A run of the job: its configuration, and how often its scheduler has picked. */
  datatype RunInfo = RunInfo(config: Config, picks: nat)

  datatype DState = DState(
    records: seq<ChunkState>,
    disk: seq<ChunkState>,   // the manifest last saved
    parts: map<nat, Bytes>,  // part files
    final: Option<Bytes>,    // the published file
    workers: seq<Worker>,
    runs: seq<RunInfo>)

  datatype DStep =
    | Look(w: nat, channels: set<string>)
    | Quit(w: nat)
    | NoChannel(w: nat)
    | Pick(w: nat, k: nat, channel: string)
    | Create(w: nat)
    | Write(w: nat, n: nat)
    | Finish(w: nat)
    | Fail(w: nat, err: string)
    | ResetStalled(k: nat)
    | Save
    | CancelPending
    | Merge(run: nat)
    | Resume(workers: nat, config: Config)
    | Restart

  /** The plan is a cut, there are channels, and a strict plan binds every chunk to one of two that are there. */
  ghost predicate Valid(d: Download) {
    && d.resource != [] && IsPartition(d.plan, |d.resource|)
    && d.channels != {} && d.configs != {}
    && forall c :: c in d.configs ==> c.limit > 0 && (c.strict.Some? ==> Binds(d, c.strict.value))
  }

  /** What BuildStrictPlan gives, on a node that has both channels. */
  predicate Binds(d: Download, plan: StrictSplit.Channels) {
    && {"cable", "wifi"} <= d.channels
    && forall k: nat :: k < |d.plan| ==> StrictSplit.Planned(plan, k) in {"cable", "wifi"}
  }

  /** The bytes chunk k asks for. */
  ghost function Range(d: Download, k: nat): (r: Bytes)
    requires Valid(d) && k < |d.plan|
    ensures |r| == d.plan[k].size > 0
  {
    EndsIncrease(d.plan, |d.resource|, k, k + 1);
    assert d.plan[k].offset == EndOf(d.plan, k);
    d.resource[d.plan[k].offset..d.plan[k].offset + d.plan[k].size]
  }

  predicate Retryable(c: ChunkState) {
    c.status.Pending? || (c.status.Failed? && c.attempts < DR.MAX_CHUNK_ATTEMPTS)
  }

  /** retryPending: the retryable ones of the first n chunks, in order. */
  function PendingOf(cs: seq<ChunkState>, n: nat): (p: seq<nat>)
    requires n <= |cs|
    ensures forall k: nat :: k in p <==> k < n && Retryable(cs[k])
    ensures |p| <= n
  {
    if n == 0 then []
    else if Retryable(cs[n - 1]) then PendingOf(cs, n - 1) + [n - 1]
    else PendingOf(cs, n - 1)
  }

  /** A file after data was written at pos: a gap beyond its end fills with zeros. */
  function Overwritten(file: Bytes, pos: nat, data: Bytes): (r: Bytes)
    ensures |r| == if |file| < pos + |data| then pos + |data| else |file|
    ensures forall i :: 0 <= i < |r| ==>
      r[i] == if pos <= i < pos + |data| then data[i - pos] else if i < |file| then file[i] else 0
  {
    seq(if |file| < pos + |data| then pos + |data| else |file|, i requires 0 <= i =>
      if pos <= i < pos + |data| then data[i - pos] else if i < |file| then file[i] else 0)
  }

  /** The parts of the first k chunks, each of its recorded size, one after another. */
  function Assembled(plan: seq<Extent>, parts: map<nat, Bytes>, k: nat): Option<Bytes>
    requires k <= |plan|
  {
    if k == 0 then Some([])
    else
      var front := Assembled(plan, parts, k - 1);
      if front.Some? && k - 1 in parts && |parts[k - 1]| == plan[k - 1].size then Some(front.value + parts[k - 1])
      else None
  }

  /** What a restore sees beside the manifest. */
  function FilesOf(s: DState): DR.Files {
    DR.Files(if s.final.Some? then Some(|s.final.value|) else None, map k | k in s.parts :: k as int := |s.parts[k]|)
  }

  function SetPhase(s: DState, w: nat, phase: Phase): DState
    requires w < |s.workers|
  {
    s.(workers := s.workers[w := s.workers[w].(phase := phase)])
  }

  /** A failed attempt: back to pending while attempts remain. */
  function Retried(c: ChunkState, err: string): ChunkState {
    var f := FailedWith(c, err);
    if f.attempts < DR.MAX_CHUNK_ATTEMPTS then f.(status := Pending) else f
  }

  ghost predicate Init(d: Download, s: DState) {
    && |s.workers| >= 2 && |s.runs| == 1 && s.runs[0].config in d.configs
    && s == DState(Fresh(d.plan), Fresh(d.plan), map[], None, seq(|s.workers|, _ => Worker(0, Idle)),
                   [RunInfo(s.runs[0].config, 0)])
  }

  /** The worker has a chunk in flight on this channel. */
  predicate Carries(p: Phase, channel: string) { (p.Marked? || p.Writing?) && p.channel == channel }

  /** inFlight of a run: how many of its workers have a chunk in flight on the channel. */
  function Busy(workers: seq<Worker>, run: nat, channel: string): nat {
    if workers == [] then 0
    else
      (if workers[0].run == run && Carries(workers[0].phase, channel) then 1 else 0) + Busy(workers[1..], run, channel)
  }

  /** The channels of those that are up with room for another chunk. */
  function FreeOf(s: DState, run: nat, channels: set<string>): set<string>
    requires run < |s.runs|
  {
    set c | c in channels && Busy(s.workers, run, c) < s.runs[run].config.limit
  }

  /** k is the first of these chunks that the plan binds to the channel. */
  predicate FirstOn(pending: seq<nat>, plan: StrictSplit.Channels, channel: string, k: nat) {
    exists j :: 0 <= j < |pending| && pending[j] == k && StrictSplit.Planned(plan, k) == channel
      && forall i :: 0 <= i < j ==> StrictSplit.Planned(plan, pending[i]) != channel
  }

  /** The chunk the dispatch takes on this channel: the next in rotation, or the first bound to it. */
  predicate Gives(r: RunInfo, pending: seq<nat>, channel: string, k: nat) {
    && pending != []
    && match r.config.strict
       case None => k == pending[r.picks % |pending|]
       case Some(plan) => FirstOn(pending, plan, channel, k)
  }

  // ---- steps ----

  /** Finding a chunk and marking it. */
  ghost predicate PickStep(d: Download, s: DState, s': DState, step: DStep) {
    match step
    case Look(w, channels) =>
      && w < |s.workers| && s.workers[w].phase.Idle? && s.workers[w].run < |s.runs| && channels <= d.channels
      && var p := PendingOf(s.records, |s.records|);
         s' == SetPhase(s, w, if p == [] then Exited else Looking(p, FreeOf(s, s.workers[w].run, channels)))
    case Quit(w) =>
      && w < |s.workers| && s.workers[w].phase.Idle?
      && s' == SetPhase(s, w, Exited)
    case NoChannel(w) =>
      && w < |s.workers| && s.workers[w].phase.Looking?
      && s' == SetPhase(s, w, Idle)
    case Pick(w, k, channel) =>
      && w < |s.workers| && s.workers[w].phase.Looking? && s.workers[w].run < |s.runs|
      && var phase, r := s.workers[w].phase, s.workers[w].run;
         && channel in phase.free && Gives(s.runs[r], phase.pending, channel, k) && k < |s.records|
         && s' == SetPhase(s, w, Marked(k, channel))
                    .(records := s.records[k := SendingOn(s.records[k], channel)],
                      runs := s.runs[r := s.runs[r].(picks := s.runs[r].picks + 1)])
    case _ => false
  }

  /** Fetching it, from a server that honours ranges. */
  ghost predicate FetchStep(d: Download, s: DState, s': DState, step: DStep)
    requires Valid(d)
  {
    match step
    case Create(w) =>
      && w < |s.workers| && s.workers[w].phase.Marked?
      && var k := s.workers[w].phase.k;
         s' == SetPhase(s, w, Writing(k, 0, s.workers[w].phase.channel)).(parts := s.parts[k := []])
    case Write(w, n) =>
      && w < |s.workers| && s.workers[w].phase.Writing? && n > 0
      && var k, pos := s.workers[w].phase.k, s.workers[w].phase.pos;
         && k < |d.plan| && pos + n <= d.plan[k].size && k in s.parts
         && s' == SetPhase(s, w, Writing(k, pos + n, s.workers[w].phase.channel))
                    .(parts := s.parts[k := Overwritten(s.parts[k], pos, Range(d, k)[pos..pos + n])])
    case Finish(w) =>
      && w < |s.workers| && s.workers[w].phase.Writing?
      && var k := s.workers[w].phase.k;
         && k < |d.plan| && k < |s.records| && s.workers[w].phase.pos == d.plan[k].size
         && s' == SetPhase(s, w, Idle).(records := s.records[k := DoneWith(s.records[k], d.plan[k].size, [])])
    case Fail(w, err) =>
      && w < |s.workers| && (s.workers[w].phase.Marked? || s.workers[w].phase.Writing?)
      && var k := s.workers[w].phase.k;
         && k < |s.records|
         && s' == SetPhase(s, w, Idle).(records := s.records[k := Retried(s.records[k], err)])
    case _ => false
  }

  /** Everything else. */
  ghost predicate JobStep(d: Download, s: DState, s': DState, step: DStep)
    requires Valid(d)
  {
    match step
    case ResetStalled(k) =>
      && k < |s.records| && s.records[k].status.Sending?
      && s' == s.(records := s.records[k := s.records[k].(status := Pending, channel := "")])
    case Save =>
      s' == s.(disk := s.records)
    case CancelPending =>
      s' == s.(records := CancelAll(s.records))
    case Merge(run) =>
      && s.final.None? && (forall w :: 0 <= w < |s.workers| && s.workers[w].run == run ==> s.workers[w].phase.Exited?)
      && DR.AllDone(s.records)
      && var a := Assembled(d.plan, s.parts, |d.plan|);
         s' == if a.Some? && |a.value| == |d.resource| then s.(final := a) else s
    case Resume(workers, config) =>
      && s.final.None? && workers >= 2 && config in d.configs
      && s' == s.(records := ActivateAll(s.records, RESUME_MAX_ATTEMPTS),
                  workers := s.workers + seq(workers, _ => Worker(|s.runs|, Idle)),
                  runs := s.runs + [RunInfo(config, 0)])
    case Restart =>
      s' == s.(records := DR.RestoredChunks(s.disk, |d.resource|, FilesOf(s)),
               disk := DR.SavedAfter(s.disk, |d.resource|, FilesOf(s)),
               workers := [])
    case _ => false
  }

  ghost predicate NextStep(d: Download, s: DState, s': DState, step: DStep)
    requires Valid(d)
  {
    PickStep(d, s, s', step) || FetchStep(d, s, s', step) || JobStep(d, s, s', step)
  }

  ghost predicate Next(d: Download, s: DState, s': DState)
    requires Valid(d)
  {
    exists step :: NextStep(d, s, s', step)
  }

  ghost predicate StepAt(d: Download, run: seq<DState>, j: nat)
    requires Valid(d) && j + 1 < |run|
  {
    Next(d, run[j], run[j + 1])
  }

  ghost predicate IsRun(d: Download, run: seq<DState>)
    requires Valid(d)
  {
    run != [] && Init(d, run[0]) && forall j :: 0 <= j < |run| - 1 ==> StepAt(d, run, j)
  }

  // ---- what a worker does, read off the state ----

  /** Workers of this run that have marked a chunk on the channel and not yet let go of it. */
  ghost function InFlight(workers: seq<Worker>, run: nat, channel: string): set<nat> {
    set v: nat | v < |workers| && workers[v].run == run
      && (workers[v].phase.Marked? || workers[v].phase.Writing?) && workers[v].phase.channel == channel
  }

  ghost predicate InOrder(p: seq<nat>) { forall i, j :: 0 <= i < j < |p| ==> p[i] < p[j] }

  lemma {:induction false} BusyOneMore(workers: seq<Worker>, last: Worker, run: nat, channel: string)
    ensures Busy(workers + [last], run, channel)
         == Busy(workers, run, channel) + (if last.run == run && Carries(last.phase, channel) then 1 else 0)
  {
    if workers == [] {
      assert [last][1..] == [];
      assert workers + [last] == [last];
    } else {
      assert (workers + [last])[1..] == workers[1..] + [last];
      BusyOneMore(workers[1..], last, run, channel);
    }
  }

  lemma {:induction false} BusyIsCount(workers: seq<Worker>, run: nat, channel: string)
    ensures Busy(workers, run, channel) == |InFlight(workers, run, channel)|
  {
    if workers != [] {
      var n := |workers| - 1;
      var front, last := workers[..n], workers[n];
      BusyIsCount(front, run, channel);
      BusyOneMore(front, last, run, channel);
      assert workers == front + [last];
      var more := if last.run == run && Carries(last.phase, channel) then {n} else {};
      assert InFlight(workers, run, channel) == InFlight(front, run, channel) + more;
      assert InFlight(front, run, channel) !! more;
    }
  }

  /**
   * A worker that looks leaves when no chunk is pending or failed with fewer than eight
   * attempts; otherwise it has seen exactly those, in order, and the channels that are up and
   * have fewer chunks in flight than the run allows.
   */
  lemma {:induction false} LookSees(d: Download, s: DState, s': DState, w: nat, channels: set<string>)
    requires PickStep(d, s, s', Look(w, channels))
    ensures w < |s.workers| == |s'.workers| && s.workers[w].run < |s.runs|
    ensures var phase, run := s'.workers[w].phase, s.workers[w].run;
      var open := set k: nat | k < |s.records|
        && (s.records[k].status.Pending? || (s.records[k].status.Failed? && s.records[k].attempts < 8));
      if open == {} then phase.Exited?
      else
        && phase.Looking? && phase.pending != []
        && (forall k: nat :: k in phase.pending <==> k in open)
        && InOrder(phase.pending)
        && phase.free == set c | c in channels && |InFlight(s.workers, run, c)| < s.runs[run].config.limit
  {
    var p := PendingOf(s.records, |s.records|);
    PendingInOrder(s.records, |s.records|);
    var open := set k: nat | k < |s.records|
      && (s.records[k].status.Pending? || (s.records[k].status.Failed? && s.records[k].attempts < 8));
    assert forall k: nat :: k in p <==> k in open;
    if open != {} {
      var k :| k in open;
      assert k in p;
    }
    forall c | c in channels
      ensures Busy(s.workers, s.workers[w].run, c) == |InFlight(s.workers, s.workers[w].run, c)|
    {
      BusyIsCount(s.workers, s.workers[w].run, c);
    }
    if p != [] {
      assert p[0] in p;
    }
  }

  lemma {:induction false} PendingInOrder(cs: seq<ChunkState>, n: nat)
    requires n <= |cs|
    ensures InOrder(PendingOf(cs, n))
  {
    if n > 0 {
      PendingInOrder(cs, n - 1);
      var p := PendingOf(cs, n - 1);
      forall i | 0 <= i < |p|
        ensures p[i] < n - 1
      {
        assert p[i] in p;
      }
      assert InOrder(p + [n - 1]);
    }
  }

  /**
   * A worker that picks goes by what it has seen, on a channel it has seen free: the next in
   * rotation, or under a strict plan the first one seen that the plan binds to that channel.
   */
  lemma {:induction false} PickTakes(d: Download, s: DState, s': DState, w: nat, k: nat, channel: string)
    requires PickStep(d, s, s', Pick(w, k, channel))
    ensures w < |s.workers| && s.workers[w].phase.Looking? && s.workers[w].run < |s.runs|
    ensures var phase, r := s.workers[w].phase, s.runs[s.workers[w].run];
      && channel in phase.free && phase.pending != []
      && match r.config.strict
         case None => k == phase.pending[r.picks % |phase.pending|]
         case Some(plan) =>
           && k in phase.pending
           && (channel != "" ==> k in plan && plan[k] == channel)
           && forall i ::
                0 <= i < |phase.pending| && phase.pending[i] in plan && plan[phase.pending[i]] == channel ==>
                exists j :: 0 <= j <= i && phase.pending[j] == k
  {
  }

  /**
   * A fetch that fails costs the chunk one attempt: with fewer than eight it is pending again,
   * and from the eighth on it is failed. The part file stays as far as it got.
   */
  lemma {:induction false} FailedFetchRetries(d: Download, s: DState, s': DState, w: nat, err: string)
    requires Valid(d) && FetchStep(d, s, s', Fail(w, err))
    ensures w < |s.workers| && (s.workers[w].phase.Marked? || s.workers[w].phase.Writing?)
    ensures var k := s.workers[w].phase.k;
      && k < |s.records| == |s'.records|
      && s'.records == s.records[k := s'.records[k]] && s'.parts == s.parts && s'.final == s.final
      && var c, c' := s.records[k], s'.records[k];
         && c' == c.(status := c'.status, attempts := c.attempts + 1, lastError := err)
         && c'.status == if c'.attempts < 8 then Pending else Failed
  {
  }

  /**
   * A resume takes up everything that is not done: canceled, stranded and failed chunks are
   * pending again, and one that had failed three times or more starts with a clean count.
   */
  lemma {:induction false} ResumeTakesUp(d: Download, s: DState, s': DState, workers: nat, config: Config, k: nat)
    requires Valid(d) && JobStep(d, s, s', Resume(workers, config)) && k < |s.records|
    ensures |s'.records| == |s.records| && s'.parts == s.parts && s.final.None?
    ensures var c, c' := s.records[k], s'.records[k];
      && c' == c.(status := c'.status, attempts := c'.attempts)
      && (c'.status.Pending? <==> c.status in {Pending, Sending, Failed, Canceled})
      && (!c'.status.Pending? ==> c' == c)
      && c'.attempts == if c.status.Failed? && c.attempts >= 3 then 0 else c.attempts
  {
    assert s'.records[k] == Activated(s.records[k], RESUME_MAX_ATTEMPTS);
  }

  // ---- shape ----

  predicate Holds(p: Phase, k: nat) { (p.Marked? || p.Writing?) && p.k == k }

  ghost predicate WorkerShape(d: Download, s: DState, w: nat)
    requires w < |s.workers|
  {
    match s.workers[w].phase
    case Looking(p, _) => forall k :: k in p ==> k < |d.plan|
    case Marked(k, _) => k < |d.plan|
    case Writing(k, pos, _) => k < |d.plan| && pos <= d.plan[k].size && k in s.parts
    case _ => true
  }

  ghost predicate Shape(d: Download, s: DState) {
    && Geometry(s.records) == d.plan && Geometry(s.disk) == d.plan
    && (forall w :: 0 <= w < |s.workers| ==> WorkerShape(d, s, w))
    && (forall k :: k in s.parts ==> k < |d.plan|)
  }

  lemma {:induction false} RestoreKeepsGeometry(saved: seq<ChunkState>, total: int, files: DR.Files)
    ensures Geometry(DR.RestoredChunks(saved, total, files)) == Geometry(saved)
    ensures Geometry(DR.SavedAfter(saved, total, files)) == Geometry(saved)
  {
  }

  lemma {:induction false} PickKeepsShape(d: Download, s: DState, s': DState, step: DStep)
    requires Valid(d) && Shape(d, s) && PickStep(d, s, s', step)
    ensures Shape(d, s')
  {
    assert |s.records| == |d.plan|;
    if step.Pick? { assert WorkerShape(d, s, step.w); }
    forall w | 0 <= w < |s'.workers|
      ensures WorkerShape(d, s', w)
    {
      assert WorkerShape(d, s, w);
    }
    SameGeometry(s.records, s'.records);
  }

  lemma {:induction false} SameGeometry(cs: seq<ChunkState>, cs': seq<ChunkState>)
    requires |cs| == |cs'| && forall i :: 0 <= i < |cs| ==> cs'[i].Extent() == cs[i].Extent()
    ensures Geometry(cs') == Geometry(cs)
  {
  }

  lemma {:induction false} FetchKeepsShape(d: Download, s: DState, s': DState, step: DStep)
    requires Valid(d) && Shape(d, s) && FetchStep(d, s, s', step)
    ensures Shape(d, s')
  {
    assert WorkerShape(d, s, step.w);
    forall w | 0 <= w < |s'.workers|
      ensures WorkerShape(d, s', w)
    {
      assert WorkerShape(d, s, w);
    }
    SameGeometry(s.records, s'.records);
  }

  lemma {:induction false} JobKeepsShape(d: Download, s: DState, s': DState, step: DStep)
    requires Valid(d) && Shape(d, s) && JobStep(d, s, s', step)
    ensures Shape(d, s')
  {
    RestoreKeepsGeometry(s.disk, |d.resource|, FilesOf(s));
    if !step.Restart? { SameGeometry(s.records, s'.records); }
    forall w | 0 <= w < |s'.workers|
      ensures WorkerShape(d, s', w)
    {
      if w < |s.workers| { assert WorkerShape(d, s, w); }
    }
  }

  lemma {:induction false} StepKeepsShape(d: Download, s: DState, s': DState, step: DStep)
    requires Valid(d) && Shape(d, s) && NextStep(d, s, s', step)
    ensures Shape(d, s')
  {
    if PickStep(d, s, s', step) {
      PickKeepsShape(d, s, s', step);
    } else if FetchStep(d, s, s', step) {
      FetchKeepsShape(d, s, s', step);
    } else {
      JobKeepsShape(d, s, s', step);
    }
  }

  // ---- the merge, when full parts are right ----

  /** A part file of the full size is the range its chunk asked for. */
  ghost predicate FullIsRight(d: Download, parts: map<nat, Bytes>)
    requires Valid(d)
  {
    forall k: nat :: k < |d.plan| && k in parts && |parts[k]| == d.plan[k].size ==> parts[k] == Range(d, k)
  }

  lemma {:induction false} AssembledPrefix(d: Download, parts: map<nat, Bytes>, k: nat)
    requires Valid(d) && FullIsRight(d, parts) && k <= |d.plan|
    ensures var a := Assembled(d.plan, parts, k);
      0 <= EndOf(d.plan, k) <= |d.resource| && (a.Some? ==> a.value == d.resource[..EndOf(d.plan, k)])
  {
    EndsIncrease(d.plan, |d.resource|, k, |d.plan|);
    if k > 0 {
      AssembledPrefix(d, parts, k - 1);
      EndsIncrease(d.plan, |d.resource|, k - 1, k);
      assert d.plan[k - 1].offset == EndOf(d.plan, k - 1);
      assert d.resource[..EndOf(d.plan, k)] == d.resource[..EndOf(d.plan, k - 1)] + Range(d, k - 1);
    }
  }

  lemma {:induction false} AssembledIsResource(d: Download, parts: map<nat, Bytes>)
    requires Valid(d) && FullIsRight(d, parts)
    ensures var a := Assembled(d.plan, parts, |d.plan|); a.Some? ==> a.value == d.resource
  {
    AssembledPrefix(d, parts, |d.plan|);
    assert d.resource[..|d.resource|] == d.resource;
  }

  // ---- one holder per chunk: parts are prefixes of their ranges ----

  /** No worker takes a chunk that another one holds. */
  ghost predicate TakesFree(s: DState, step: DStep) {
    step.Pick? ==> forall v :: 0 <= v < |s.workers| ==> !Holds(s.workers[v].phase, step.k)
  }

  ghost predicate OneHolder(s: DState) {
    forall v, w, k: nat ::
      0 <= v < |s.workers| && 0 <= w < |s.workers| && Holds(s.workers[v].phase, k) && Holds(s.workers[w].phase, k) ==>
        v == w
  }

  ghost predicate PartIsPrefix(d: Download, s: DState, k: nat)
    requires Valid(d) && k < |d.plan| && k in s.parts
  {
    s.parts[k] <= Range(d, k)
  }

  ghost predicate WriterOk(d: Download, s: DState, w: nat)
    requires Valid(d) && w < |s.workers|
  {
    var p := s.workers[w].phase;
    p.Writing? ==>
      && p.k < |d.plan| && p.pos <= d.plan[p.k].size
      && p.k in s.parts && s.parts[p.k] == Range(d, p.k)[..p.pos]
  }

  /** A chunk recorded done is held by nobody and its part is whole. */
  ghost predicate DoneOk(d: Download, s: DState, k: nat)
    requires Valid(d) && k < |s.records|
  {
    s.records[k].status.Done? ==>
      && k < |d.plan| && k in s.parts && s.parts[k] == Range(d, k)
      && forall w :: 0 <= w < |s.workers| ==> !Holds(s.workers[w].phase, k)
  }

  ghost predicate Inv(d: Download, s: DState)
    requires Valid(d)
  {
    && Shape(d, s) && OneHolder(s)
    && (forall k :: k in s.parts ==> k < |d.plan| && PartIsPrefix(d, s, k))
    && (forall w :: 0 <= w < |s.workers| ==> WriterOk(d, s, w))
    && (s.final.None? ==> forall k :: 0 <= k < |s.records| ==> DoneOk(d, s, k))
    && (s.final.Some? ==> s.final.value == d.resource)
  }

  lemma {:induction false} PickKeepsInv(d: Download, s: DState, s': DState, step: DStep)
    requires Valid(d) && Inv(d, s) && PickStep(d, s, s', step) && TakesFree(s, step)
    ensures Inv(d, s')
  {
    PickKeepsShape(d, s, s', step);
    forall w | 0 <= w < |s'.workers|
      ensures WriterOk(d, s', w)
    {
      assert WriterOk(d, s, w);
    }
    if s'.final.None? {
      forall k | 0 <= k < |s'.records|
        ensures DoneOk(d, s', k)
      {
        assert DoneOk(d, s, k);
      }
    }
    forall k | k in s'.parts
      ensures PartIsPrefix(d, s', k)
    {
      assert PartIsPrefix(d, s, k);
    }
  }

  /** Only the holder's part changes, and to a prefix of its range. */
  lemma {:induction false} PartKeepsInv(d: Download, s: DState, s': DState, w: nat, k: nat, pos: nat, channel: string)
    requires Valid(d) && Inv(d, s) && Shape(d, s')
    requires w < |s.workers| && k < |d.plan| && pos <= d.plan[k].size && Holds(s.workers[w].phase, k)
    requires s' == SetPhase(s, w, Writing(k, pos, channel)).(parts := s.parts[k := Range(d, k)[..pos]])
    ensures Inv(d, s')
  {
    forall v | 0 <= v < |s'.workers|
      ensures WriterOk(d, s', v)
    {
      assert WriterOk(d, s, v);
    }
    if s'.final.None? {
      forall j | 0 <= j < |s'.records|
        ensures DoneOk(d, s', j)
      {
        assert DoneOk(d, s, j);
      }
    }
    forall j | j in s'.parts
      ensures PartIsPrefix(d, s', j)
    {
      if j != k { assert PartIsPrefix(d, s, j); }
    }
  }

  lemma {:induction false} WriteGrows(d: Download, k: nat, pos: nat, n: nat)
    requires Valid(d) && k < |d.plan| && pos + n <= d.plan[k].size
    ensures Overwritten(Range(d, k)[..pos], pos, Range(d, k)[pos..pos + n]) == Range(d, k)[..pos + n]
  {
  }

  /** The holder lets go, and the record of its chunk changes. */
  lemma {:induction false} ReleaseKeepsInv(d: Download, s: DState, s': DState, w: nat, k: nat)
    requires Valid(d) && Inv(d, s) && Shape(d, s')
    requires w < |s.workers| && k < |s.records| && Holds(s.workers[w].phase, k)
    requires s' == SetPhase(s, w, Idle).(records := s.records[k := s'.records[k]]) && |s'.records| == |s.records|
    requires s'.records[k].status.Done? ==> k < |d.plan| && k in s.parts && s.parts[k] == Range(d, k)
    ensures Inv(d, s')
  {
    forall v | 0 <= v < |s'.workers|
      ensures WriterOk(d, s', v)
    {
      assert WriterOk(d, s, v);
    }
    if s'.final.None? {
      forall j | 0 <= j < |s'.records|
        ensures DoneOk(d, s', j)
      {
        assert DoneOk(d, s, j);
      }
    }
    forall j | j in s'.parts
      ensures PartIsPrefix(d, s', j)
    {
      assert PartIsPrefix(d, s, j);
    }
  }

  lemma {:induction false} FetchKeepsInv(d: Download, s: DState, s': DState, step: DStep)
    requires Valid(d) && Inv(d, s) && FetchStep(d, s, s', step)
    ensures Inv(d, s')
  {
    FetchKeepsShape(d, s, s', step);
    var w := step.w;
    assert WorkerShape(d, s, w) && WriterOk(d, s, w);
    var k := s.workers[w].phase.k;
    match step
    case Create(_) =>
      assert Range(d, k)[..0] == [];
      PartKeepsInv(d, s, s', w, k, 0, s.workers[w].phase.channel);
    case Write(_, n) =>
      WriteGrows(d, k, s.workers[w].phase.pos, n);
      PartKeepsInv(d, s, s', w, k, s.workers[w].phase.pos + n, s.workers[w].phase.channel);
    case Finish(_) =>
      assert Range(d, k)[..d.plan[k].size] == Range(d, k);
      ReleaseKeepsInv(d, s, s', w, k);
    case Fail(_, _) => ReleaseKeepsInv(d, s, s', w, k);
    case _ =>
  }

  /** Records that are done after a restore have a part of exactly their size. */
  lemma {:induction false} RestoredHasPart(d: Download, s: DState, k: nat)
    requires Valid(d) && Shape(d, s) && s.final.None? && k < |s.disk|
    ensures var cs := DR.RestoredChunks(s.disk, |d.resource|, FilesOf(s));
      |cs| == |s.disk| && (cs[k].status.Done? ==> k in s.parts && |s.parts[k]| == d.plan[k].size)
  {
    var loaded := NormalizeAll(s.disk, LOAD_MAX_ATTEMPTS);
    assert Geometry(s.disk)[k] == d.plan[k] && d.plan[k].index == k;
    assert loaded[k].Extent() == s.disk[k].Extent();
  }

  lemma {:induction false} RestartKeepsInv(d: Download, s: DState, s': DState)
    requires Valid(d) && Inv(d, s) && JobStep(d, s, s', Restart)
    ensures Inv(d, s')
  {
    JobKeepsShape(d, s, s', Restart);
    forall k | k in s'.parts
      ensures PartIsPrefix(d, s', k)
    {
      assert PartIsPrefix(d, s, k);
    }
    if s'.final.None? {
      forall k | 0 <= k < |s'.records|
        ensures DoneOk(d, s', k)
      {
        assert |s.disk| == |d.plan|;
        RestoredHasPart(d, s, k);
        if s'.records[k].status.Done? { assert PartIsPrefix(d, s, k); }
      }
    }
  }

  lemma {:induction false} PrefixFullIsRight(d: Download, s: DState)
    requires Valid(d) && forall k :: k in s.parts ==> k < |d.plan| && PartIsPrefix(d, s, k)
    ensures FullIsRight(d, s.parts)
  {
    forall k: nat | k < |d.plan| && k in s.parts && |s.parts[k]| == d.plan[k].size
      ensures s.parts[k] == Range(d, k)
    {
      assert PartIsPrefix(d, s, k);
    }
  }

  /** The records change, none of them to done; the rest stays, new workers come idle. */
  lemma {:induction false} RecordsKeepInv(d: Download, s: DState, s': DState)
    requires Valid(d) && Inv(d, s) && Shape(d, s')
    requires s'.parts == s.parts && s'.final == s.final && s.workers <= s'.workers && |s'.records| == |s.records|
    requires forall w :: |s.workers| <= w < |s'.workers| ==> s'.workers[w].phase.Idle?
    requires forall k :: 0 <= k < |s.records| && s'.records[k].status.Done? ==> s.records[k].status.Done?
    ensures Inv(d, s')
  {
    forall w | 0 <= w < |s'.workers|
      ensures WriterOk(d, s', w)
    {
      if w < |s.workers| { assert WriterOk(d, s, w); }
    }
    if s'.final.None? {
      forall k | 0 <= k < |s'.records|
        ensures DoneOk(d, s', k)
      {
        assert DoneOk(d, s, k);
      }
    }
    forall k | k in s'.parts
      ensures PartIsPrefix(d, s', k)
    {
      assert PartIsPrefix(d, s, k);
    }
  }

  lemma {:induction false} JobKeepsInv(d: Download, s: DState, s': DState, step: DStep)
    requires Valid(d) && Inv(d, s) && JobStep(d, s, s', step)
    ensures Inv(d, s')
  {
    if step.Restart? {
      RestartKeepsInv(d, s, s');
    } else if step.Merge? {
      PrefixFullIsRight(d, s);
      AssembledIsResource(d, s.parts);
      MergeKeepsInv(d, s, s', step);
    } else {
      JobKeepsShape(d, s, s', step);
      RecordsKeepInv(d, s, s');
    }
  }

  lemma {:induction false} MergeKeepsInv(d: Download, s: DState, s': DState, step: DStep)
    requires Valid(d) && Inv(d, s) && JobStep(d, s, s', step) && step.Merge?
    requires var a := Assembled(d.plan, s.parts, |d.plan|); a.Some? ==> a.value == d.resource
    ensures Inv(d, s')
  {
    JobKeepsShape(d, s, s', step);
    forall w | 0 <= w < |s'.workers|
      ensures WriterOk(d, s', w)
    {
      assert WriterOk(d, s, w);
    }
    forall k | k in s'.parts
      ensures PartIsPrefix(d, s', k)
    {
      assert PartIsPrefix(d, s, k);
    }
  }

  lemma {:induction false} StepKeepsInv(d: Download, s: DState, s': DState, step: DStep)
    requires Valid(d) && Inv(d, s) && NextStep(d, s, s', step) && TakesFree(s, step)
    ensures Inv(d, s')
  {
    if PickStep(d, s, s', step) {
      PickKeepsInv(d, s, s', step);
    } else if FetchStep(d, s, s', step) {
      FetchKeepsInv(d, s, s', step);
    } else {
      JobKeepsInv(d, s, s', step);
    }
  }

  ghost predicate FreeStepAt(d: Download, run: seq<DState>, j: nat)
    requires Valid(d) && j + 1 < |run|
  {
    exists step :: NextStep(d, run[j], run[j + 1], step) && TakesFree(run[j], step)
  }

  /** A run in which nobody takes a chunk that somebody holds. */
  ghost predicate OneHolderRun(d: Download, run: seq<DState>)
    requires Valid(d)
  {
    IsRun(d, run) && forall j :: 0 <= j < |run| - 1 ==> FreeStepAt(d, run, j)
  }

  lemma {:induction false} InitInv(d: Download, s: DState)
    requires Valid(d) && Init(d, s)
    ensures Inv(d, s)
  {
    SameExtents(d.plan);
  }

  lemma {:induction false} SameExtents(plan: seq<Extent>)
    ensures Geometry(Fresh(plan)) == plan
  {
  }

  lemma {:induction false} RunKeepsInv(d: Download, run: seq<DState>, j: nat)
    requires Valid(d) && OneHolderRun(d, run) && j < |run|
    ensures Inv(d, run[j])
  {
    if j == 0 {
      InitInv(d, run[0]);
    } else {
      RunKeepsInv(d, run, j - 1);
      assert FreeStepAt(d, run, j - 1);
      var step :| NextStep(d, run[j - 1], run[j], step) && TakesFree(run[j - 1], step);
      StepKeepsInv(d, run[j - 1], run[j], step);
    }
  }

  /**
   * With one holder per chunk, whatever crashes, cancels, failed attempts and resumed runs
   * came before, what is published is the resource; and a merge that is reached publishes,
   * so the size test of a restore never lets a wrong part through.
   */
  lemma {:induction false} PublishedIsResource(d: Download, run: seq<DState>, j: nat)
    requires Valid(d) && OneHolderRun(d, run) && j < |run|
    ensures run[j].final.Some? ==> run[j].final.value == d.resource
    ensures run[j].final.None? && DR.AllDone(run[j].records) ==>
      Assembled(d.plan, run[j].parts, |d.plan|) == Some(d.resource)
  {
    RunKeepsInv(d, run, j);
    if run[j].final.None? && DR.AllDone(run[j].records) {
      forall k: nat | k < |d.plan|
        ensures k in run[j].parts && |run[j].parts[k]| == d.plan[k].size
      {
        assert |run[j].records| == |d.plan|;
        assert DoneOk(d, run[j], k);
      }
      AssembledSome(d.plan, run[j].parts, |d.plan|);
      PrefixFullIsRight(d, run[j]);
      AssembledIsResource(d, run[j].parts);
    }
  }

  lemma {:induction false} AssembledSome(plan: seq<Extent>, parts: map<nat, Bytes>, k: nat)
    requires k <= |plan| && forall i: nat :: i < k ==> i in parts && |parts[i]| == plan[i].size
    ensures Assembled(plan, parts, k).Some?
  {
    if k > 0 {
      AssembledSome(plan, parts, k - 1);
    }
  }

  // ---- any run: parts are right up to gaps ----

  /** Each byte of a part is right or a zero of a gap, and its last byte is right. */
  ghost predicate IsMixed(d: Download, k: nat, part: Bytes)
    requires Valid(d) && k < |d.plan|
  {
    && |part| <= d.plan[k].size
    && (forall x :: 0 <= x < |part| ==> part[x] == Range(d, k)[x] || part[x] == 0)
    && (part != [] ==> part[|part| - 1] == Range(d, k)[|part| - 1])
  }

  /** A gap of zeros would not show: nothing but the last byte of a chunk differs from zero. */
  ghost predicate GapsInvisible(d: Download)
    requires Valid(d)
  {
    forall k: nat, x: nat {:trigger Range(d, k)[x]} :: k < |d.plan| && x + 1 < d.plan[k].size ==> Range(d, k)[x] == 0
  }

  ghost predicate MixedInv(d: Download, s: DState)
    requires Valid(d)
  {
    && Shape(d, s)
    && (forall k :: k in s.parts ==> k < |d.plan| && IsMixed(d, k, s.parts[k]))
    && (s.final.Some? ==> s.final.value == d.resource)
  }

  lemma {:induction false} MixedFullIsRight(d: Download, s: DState)
    requires Valid(d) && GapsInvisible(d) && MixedInv(d, s)
    ensures FullIsRight(d, s.parts)
  {
    forall k: nat | k < |d.plan| && k in s.parts && |s.parts[k]| == d.plan[k].size
      ensures s.parts[k] == Range(d, k)
    {
      assert IsMixed(d, k, s.parts[k]);
      forall x | 0 <= x < |s.parts[k]|
        ensures s.parts[k][x] == Range(d, k)[x]
      {
        if x + 1 < d.plan[k].size { assert Range(d, k)[x] == 0; }
      }
    }
  }

  lemma {:induction false} WriteMixes(d: Download, s: DState, s': DState, w: nat, n: nat)
    requires Valid(d) && MixedInv(d, s) && FetchStep(d, s, s', Write(w, n))
    ensures MixedInv(d, s')
  {
    FetchKeepsShape(d, s, s', Write(w, n));
    var k := s.workers[w].phase.k;
    assert IsMixed(d, k, s.parts[k]);
    forall j | j in s'.parts
      ensures IsMixed(d, j, s'.parts[j])
    {
      assert IsMixed(d, j, s.parts[j]);
    }
  }

  lemma {:induction false} StepKeepsMixed(d: Download, s: DState, s': DState, step: DStep)
    requires Valid(d) && GapsInvisible(d) && MixedInv(d, s) && NextStep(d, s, s', step)
    ensures MixedInv(d, s')
  {
    if FetchStep(d, s, s', step) && step.Write? {
      WriteMixes(d, s, s', step.w, step.n);
    } else {
      StepKeepsShape(d, s, s', step);
      if JobStep(d, s, s', step) {
        MixedFullIsRight(d, s);
        AssembledIsResource(d, s.parts);
        hide Shape, GapsInvisible, FullIsRight, Assembled;
        OtherStepMixes(d, s, s', step);
      } else {
        hide Shape, GapsInvisible;
        OtherStepMixes(d, s, s', step);
      }
    }
  }

  /** Only writing and opening change a part, and only the merge publishes. */
  lemma {:induction false} PartsFrame(d: Download, s: DState, s': DState, step: DStep)
    requires Valid(d) && NextStep(d, s, s', step) && !(FetchStep(d, s, s', step) && step.Write?)
    requires JobStep(d, s, s', step) ==>
      var a := Assembled(d.plan, s.parts, |d.plan|); a.Some? ==> a.value == d.resource
    ensures forall j :: j in s'.parts ==> s'.parts[j] == [] || (j in s.parts && s'.parts[j] == s.parts[j])
    ensures s'.final == s.final || s'.final == Some(d.resource)
  {
    hide Assembled;
  }

  lemma {:induction false} EmptyIsMixed(d: Download, k: nat)
    requires Valid(d) && k < |d.plan|
    ensures IsMixed(d, k, [])
  {
  }

  lemma {:induction false} OtherStepMixes(d: Download, s: DState, s': DState, step: DStep)
    requires Valid(d) && MixedInv(d, s) && NextStep(d, s, s', step) && Shape(d, s')
    requires !(FetchStep(d, s, s', step) && step.Write?)
    requires JobStep(d, s, s', step) ==>
      var a := Assembled(d.plan, s.parts, |d.plan|); a.Some? ==> a.value == d.resource
    ensures MixedInv(d, s')
  {
    PartsFrame(d, s, s', step);
    hide NextStep, PickStep, FetchStep, JobStep, Assembled;
    forall j | j in s'.parts
      ensures j < |d.plan| && IsMixed(d, j, s'.parts[j])
    {
      EmptyIsMixed(d, j);
      hide IsMixed;
    }
  }

  lemma {:induction false} InitMixed(d: Download, s: DState)
    requires Valid(d) && Init(d, s)
    ensures MixedInv(d, s)
  {
    SameExtents(d.plan);
  }

  lemma {:induction false} RunKeepsMixed(d: Download, run: seq<DState>, j: nat)
    requires Valid(d) && GapsInvisible(d) && IsRun(d, run) && j < |run|
    ensures MixedInv(d, run[j])
  {
    hide MixedInv, GapsInvisible, NextStep, Init;
    if j == 0 {
      InitMixed(d, run[0]);
    } else {
      RunKeepsMixed(d, run, j - 1);
      assert StepAt(d, run, j - 1);
      var step :| NextStep(d, run[j - 1], run[j], step);
      StepKeepsMixed(d, run[j - 1], run[j], step);
    }
  }
}
