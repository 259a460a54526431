/** The weighted channel scheduler: which channel gets the next chunk, and how long a failing one rests. */
module Scheduler {

  /** Megabits per second. */
  type Speed = r: real | r >= 0.0

  const INITIAL_ESTIMATED_MBPS: Speed := 10.0
  const HYSTERESIS_FACTOR: real := 1.05
  const IDLE_BONUS: real := 1.5

  // clock readings and durations are in nanoseconds; the zero time lies before every reading
  const SECOND: int := 1_000_000_000
  const COOLDOWN: int := 10 * SECOND
  const MAX_COOLDOWN: int := 40 * SECOND

  datatype Channel = Channel(name: string, active: bool, inFlight: nat, mbps30s: Speed)

  datatype State = State(failures: nat, cooldownEnds: int, mbps30s: Speed)

  const ZERO_STATE := State(0, 0, 0.0)

  function StateOf(states: map<string, State>, name: string): State {
    if name in states then states[name] else ZERO_STATE
  }

  predicate Eligible(states: map<string, State>, now: nat, c: Channel) {
    c.active && now >= StateOf(states, c.name).cooldownEnds
  }

  function Estimate(states: map<string, State>, c: Channel): Speed {
    var measured := StateOf(states, c.name).mbps30s;
    var mbps := if measured > c.mbps30s then measured else c.mbps30s;
    if mbps == 0.0 && c.inFlight == 0 then INITIAL_ESTIMATED_MBPS else mbps
  }

  function Score(states: map<string, State>, c: Channel): Speed {
    var mbps := Estimate(states, c);
    ShareNonNegative(mbps, c.inFlight);
    var share := mbps / (c.inFlight + 1) as real;
    if c.inFlight == 0 && mbps > 0.0 then share * IDLE_BONUS else share
  }

  lemma {:induction false} ShareNonNegative(mbps: Speed, inFlight: nat)
    ensures mbps / (inFlight + 1) as real >= 0.0
  {
  }

  /**
   * What a score is worth. Of the reported and the measured rate the greater counts. A busy
   * channel shares it among its chunks and the next one; an idle one has one and a half times
   * it, and with no rate at all counts as ten megabits.
   */
  lemma {:induction false} ScoreIsShare(states: map<string, State>, c: Channel, measured: Speed)
    requires measured == if c.name in states then states[c.name].mbps30s else 0.0
    ensures var score := Score(states, c);
      && (c.inFlight > 0 && c.mbps30s >= measured ==> score * (c.inFlight + 1) as real == c.mbps30s)
      && (c.inFlight > 0 && measured >= c.mbps30s ==> score * (c.inFlight + 1) as real == measured)
      && (c.inFlight == 0 && c.mbps30s >= measured && c.mbps30s > 0.0 ==> score == c.mbps30s * 1.5)
      && (c.inFlight == 0 && measured >= c.mbps30s && measured > 0.0 ==> score == measured * 1.5)
      && (c.inFlight == 0 && c.mbps30s == 0.0 && measured == 0.0 ==> score == 15.0)
  {
    var mbps := Estimate(states, c);
    ShareTimesCount(mbps, c.inFlight);
  }

  lemma {:induction false} ShareTimesCount(mbps: Speed, inFlight: nat)
    ensures mbps / (inFlight + 1) as real * (inFlight + 1) as real == mbps
    ensures inFlight == 0 ==> mbps / (inFlight + 1) as real == mbps
  {
  }

  lemma {:induction false} ShareMonotone(a: real, b: real, inFlight: nat)
    requires a <= b
    ensures a / (inFlight + 1) as real <= b / (inFlight + 1) as real
  {
  }

  /**
   * A channel that reports or measures more scores no less, with one exception: an idle channel
   * nobody has a rate for counts as ten megabits, so a first rate below ten lowers its score.
   */
  lemma {:induction false} ScoreGrowsWithRate(states: map<string, State>, c: Channel, measured: Speed,
      states': map<string, State>, c': Channel, measured': Speed)
    requires measured == if c.name in states then states[c.name].mbps30s else 0.0
    requires measured' == if c'.name in states' then states'[c'.name].mbps30s else 0.0
    requires c'.inFlight == c.inFlight && c.mbps30s <= c'.mbps30s && measured <= measured'
    ensures Score(states, c) <= Score(states', c') <==>
      !(c.inFlight == 0 && c.mbps30s == 0.0 && measured == 0.0
        && (c'.mbps30s > 0.0 || measured' > 0.0) && c'.mbps30s < 10.0 && measured' < 10.0)
  {
    if c.inFlight > 0 {
      ShareMonotone(Estimate(states, c), Estimate(states', c'), c.inFlight);
    } else {
      ScoreIsShare(states, c, measured);
      ScoreIsShare(states', c', measured');
      hide Score;
    }
  }

  /** Such a channel: idle and unknown it scores 15, and after a first report of 2 Mbps it scores 3. */
  lemma {:induction false} FirstReportLowersScore()
    ensures Score(map[], Channel("wifi", true, 0, 0.0)) == 15.0
    ensures Score(map["wifi" := State(0, 0, 2.0)], Channel("wifi", true, 0, 0.0)) == 3.0
  {
    ScoreIsShare(map[], Channel("wifi", true, 0, 0.0), 0.0);
    ScoreIsShare(map["wifi" := State(0, 0, 2.0)], Channel("wifi", true, 0, 0.0), 2.0);
  }

  /** The channel held after looking at the first k, as an index, or -1. */
  function Best(states: map<string, State>, now: nat, cs: seq<Channel>, k: nat): (b: int)
    requires k <= |cs|
    ensures -1 <= b < k && (b >= 0 ==> Eligible(states, now, cs[b]))
  {
    if k == 0 then -1
    else
      var b, c := Best(states, now, cs, k - 1), cs[k - 1];
      if !Eligible(states, now, c) then b
      else if b == -1 then k - 1
      else if cs[b].name != "" && Score(states, c) <= Score(states, cs[b]) * HYSTERESIS_FACTOR then b
      else if Score(states, c) > Score(states, cs[b]) then k - 1
      else b
  }

  /** Channel i is one the scheduler may give a chunk to. */
  ghost predicate Candidate(states: map<string, State>, now: nat, cs: seq<Channel>, i: int) {
    0 <= i < |cs| && Eligible(states, now, cs[i])
  }

  ghost predicate Named(cs: seq<Channel>) { forall i :: 0 <= i < |cs| ==> cs[i].name != "" }

  /** Some channel is chosen exactly when one is active and out of cooldown. */
  lemma {:induction false} BestExists(states: map<string, State>, now: nat, cs: seq<Channel>, k: nat)
    requires k <= |cs|
    ensures Best(states, now, cs, k) >= 0 <==> exists i :: 0 <= i < k && Candidate(states, now, cs, i)
  {
    if k > 0 {
      BestExists(states, now, cs, k - 1);
      if Best(states, now, cs, k) >= 0 {
        assert Candidate(states, now, cs, Best(states, now, cs, k));
      }
    }
  }

  /**
   * The chosen channel strictly beats every candidate listed before it, no candidate listed
   * after it beats it by more than five percent, and it took over only from a channel it
   * beats by more than five percent.
   */
  lemma {:induction false} BestBeats(states: map<string, State>, now: nat, cs: seq<Channel>, k: nat)
    requires k <= |cs| && Named(cs) && Best(states, now, cs, k) >= 0
    ensures var w := Best(states, now, cs, k); var top := Score(states, cs[w]);
      && (forall i :: 0 <= i < w && Candidate(states, now, cs, i) ==> Score(states, cs[i]) < top)
      && (forall i :: w < i < k && Candidate(states, now, cs, i) ==> Score(states, cs[i]) <= top * HYSTERESIS_FACTOR)
      && var held := Best(states, now, cs, w);
         held >= 0 ==> top > Score(states, cs[held]) * HYSTERESIS_FACTOR
  {
    var w, b := Best(states, now, cs, k), Best(states, now, cs, k - 1);
    if b >= 0 {
      BestBeats(states, now, cs, k - 1);
    } else {
      BestExists(states, now, cs, k - 1);
    }
  }

  /** Near scores do not make the choice flap: without a five-percent gain the first candidate keeps it. */
  lemma {:induction false} FirstCandidateStays(states: map<string, State>, now: nat, cs: seq<Channel>, first: nat,
      k: nat)
    requires first < k <= |cs| && Named(cs) && Candidate(states, now, cs, first)
    requires forall i :: 0 <= i < first ==> !Candidate(states, now, cs, i)
    ensures Best(states, now, cs, k) == first <==>
      forall i :: first < i < k && Candidate(states, now, cs, i) ==>
        Score(states, cs[i]) <= Score(states, cs[first]) * HYSTERESIS_FACTOR
  {
    BestExists(states, now, cs, first);
    if k == first + 1 {
    } else {
      FirstCandidateStays(states, now, cs, first, k - 1);
      BestExists(states, now, cs, k);
      BestBeats(states, now, cs, k);
    }
  }

  /** Channels i and j are the ones to choose from, and nothing was measured of either. */
  ghost predicate Between(states: map<string, State>, now: nat, cs: seq<Channel>, i: nat, j: nat) {
    && i < j < |cs| && cs[i].name != "" && cs[j].name != ""
    && (forall k :: 0 <= k < |cs| ==> (Candidate(states, now, cs, k) <==> k == i || k == j))
    && StateOf(states, cs[i].name).mbps30s == 0.0 && StateOf(states, cs[j].name).mbps30s == 0.0
  }

  lemma {:induction false} OnlyBefore(states: map<string, State>, now: nat, cs: seq<Channel>, i: nat, j: nat, k: nat)
    requires Between(states, now, cs, i, j) && k <= |cs|
    ensures k <= i ==> Best(states, now, cs, k) == -1
    ensures i < k <= j ==> Best(states, now, cs, k) == i
    ensures j < k ==> Best(states, now, cs, k) == Best(states, now, cs, j + 1)
  {
    if k > 0 {
      OnlyBefore(states, now, cs, i, j, k - 1);
      assert Candidate(states, now, cs, k - 1) <==> k - 1 == i || k - 1 == j;
    }
  }

  /**
   * Between two channels with the same number of chunks in flight, the later listed is taken
   * exactly when the rate it reports is more than five percent above the earlier one's.
   */
  lemma {:induction false} FasterIsTaken(states: map<string, State>, now: nat, cs: seq<Channel>, i: nat, j: nat)
    requires Between(states, now, cs, i, j) && cs[i].inFlight == cs[j].inFlight
    requires cs[i].inFlight > 0 || (cs[i].mbps30s > 0.0 && cs[j].mbps30s > 0.0)
    ensures Best(states, now, cs, |cs|) == if cs[j].mbps30s > cs[i].mbps30s * 1.05 then j else i
  {
    OnlyBefore(states, now, cs, i, j, j);
    OnlyBefore(states, now, cs, i, j, |cs|);
    LeadDecides(states, now, cs, i, j);
    hide Best, Candidate, Score;
    LeadOfRates(states, cs[i], cs[j]);
  }

  /** Of two channels never measured and equally busy, one scores five percent more exactly when it reports that. */
  lemma {:induction false} LeadOfRates(states: map<string, State>, a: Channel, b: Channel)
    requires StateOf(states, a.name).mbps30s == 0.0 && StateOf(states, b.name).mbps30s == 0.0
    requires a.inFlight == b.inFlight && (a.inFlight > 0 || (a.mbps30s > 0.0 && b.mbps30s > 0.0))
    ensures Score(states, b) > Score(states, a) * 1.05 <==> b.mbps30s > a.mbps30s * 1.05
  {
    ScoreIsShare(states, a, 0.0);
    ScoreIsShare(states, b, 0.0);
    hide Score;
    if a.inFlight > 0 {
      LeadCarries(Score(states, a), a.mbps30s, Score(states, b), b.mbps30s, (a.inFlight + 1) as real);
    }
  }

  lemma {:induction false} LeadDecides(states: map<string, State>, now: nat, cs: seq<Channel>, i: nat, j: nat)
    requires Between(states, now, cs, i, j) && Best(states, now, cs, j) == i
    ensures Best(states, now, cs, j + 1) == if Score(states, cs[j]) > Score(states, cs[i]) * 1.05 then j else i
  {
    assert Candidate(states, now, cs, j);
    hide Score;
  }

  lemma {:induction false} LeadCarries(x: real, a: real, y: real, b: real, n: real)
    requires n >= 1.0 && x * n == a && y * n == b
    ensures y > x * 1.05 <==> b > a * 1.05
  {
    var d := y - x * 1.05;
    assert d * n == b - a * 1.05;
    SameSign(d, n);
  }

  lemma {:induction false} SameSign(d: real, n: real)
    requires n >= 1.0
    ensures d * n > 0.0 <==> d > 0.0
  {
  }

  lemma {:induction false} RotatedIndex(pos: nat, k: nat, n: nat)
    requires k < n
    ensures (pos + k) % n == if pos % n + k < n then pos % n + k else pos % n + k - n
  {
    var q, r := pos / n, pos % n;
    if r + k < n {
      RemainderUnique(pos + k, q, r + k, n);
    } else {
      assert (q + 1) * n == q * n + n;
      RemainderUnique(pos + k, q + 1, r + k - n, n);
    }
  }

  lemma {:induction false} RemainderUnique(x: nat, q: int, r: nat, n: nat)
    requires r < n && x == q * n + r
    ensures x % n == r
  {
    var d := q - x / n;
    assert d * n == q * n - x / n * n;
    AtLeastOnce(d, n);
    AtLeastOnce(-d, n);
  }

  lemma {:induction false} AtLeastOnce(d: int, n: nat)
    ensures d >= 1 ==> d * n >= n
    ensures (-d) * n == -(d * n)
  {
  }

  // ---- reports ----

  function Mbps(bytes: nat, duration: int): Speed
    requires duration > 0
  {
    bytes as real * 8.0 / (duration as real / SECOND as real) / 1_000_000.0
  }

  /** A sample is bits per second over a million, with the duration in nanoseconds. */
  lemma {:induction false} SampleTimesDuration(bytes: nat, duration: int)
    requires duration > 0
    ensures Mbps(bytes, duration) * duration as real == bytes as real * 8000.0
  {
    var d, s := duration as real, SECOND as real;
    var x := d / s;
    assert x * s == d;
    var y := bytes as real * 8.0 / x;
    assert y * x == bytes as real * 8.0;
    assert y * d == y * x * s;
  }

  /** A success too quick for the clock is not counted. */
  function AfterSuccess(st: State, bytes: nat, duration: int): State {
    if duration <= 0 then st
    else
      var mbps := Mbps(bytes, duration);
      State(0, 0, if st.mbps30s == 0.0 then mbps else st.mbps30s * 0.6 + mbps * 0.4)
  }

  /**
   * A success ends every rest. A first sample counts as it is, eight bits a byte over the
   * microseconds it took, and a later one for two fifths of the new rate.
   */
  ghost predicate Sampled(was: State, st: State, bytes: nat, duration: int) {
    && st.failures == 0 && st.cooldownEnds == 0
    && (was.mbps30s == 0.0 ==> st.mbps30s * duration as real == bytes as real * 8000.0)
    && (was.mbps30s > 0.0 ==> (st.mbps30s - was.mbps30s * 0.6) * duration as real == bytes as real * 3200.0)
  }

  lemma {:induction false} SmoothedRate(was: State, bytes: nat, duration: int)
    requires duration > 0
    ensures Sampled(was, AfterSuccess(was, bytes, duration), bytes, duration)
  {
    SampleTimesDuration(bytes, duration);
    var mbps, d := Mbps(bytes, duration), duration as real;
    hide Mbps;
    assert mbps * 0.4 * d == mbps * d * 0.4;
  }

  function Pow2(n: nat): (p: nat)
    ensures p >= 1
  {
    if n == 0 then 1 else 2 * Pow2(n - 1)
  }

  function Min(a: int, b: int): int { if a <= b then a else b }

  /** The rest the f-th consecutive failure earns. */
  function Cooldown(f: nat): int
    requires f >= 3
  {
    Min(COOLDOWN * Pow2(f - 3), MAX_COOLDOWN)
  }

  function AfterFailure(st: State, now: nat): State {
    var f := st.failures + 1;
    State(f, if f >= 3 then now + Cooldown(f) else st.cooldownEnds, st.mbps30s)
  }

  lemma {:induction false} Pow2Monotone(m: nat, n: nat)
    requires m <= n
    ensures Pow2(m) <= Pow2(n)
  {
    if m < n {
      Pow2Monotone(m, n - 1);
    }
  }

  /** The rest never shrinks as failures go on, starts at ten seconds and ends at forty. */
  lemma {:induction false} CooldownMonotone(f: nat, g: nat)
    requires 3 <= f <= g
    ensures COOLDOWN <= Cooldown(f) <= Cooldown(g) <= MAX_COOLDOWN
    ensures Cooldown(f) == MAX_COOLDOWN <==> f >= 5
  {
    Pow2Monotone(f - 3, g - 3);
    if f >= 5 {
      Pow2Monotone(2, f - 3);
    }
    assert Pow2(1) == 2 && Pow2(2) == 4;
  }

  // ---- one channel over a whole run ----

  datatype Event = Success(bytes: nat, duration: int) | Failure(now: nat)

  predicate Counted(e: Event) { e.Success? && e.duration > 0 }

  function Apply(st: State, e: Event): State {
    match e
    case Success(bytes, duration) => AfterSuccess(st, bytes, duration)
    case Failure(now) => AfterFailure(st, now)
  }

  function After(es: seq<Event>): State {
    if es == [] then ZERO_STATE else Apply(After(es[..|es| - 1]), es[|es| - 1])
  }

  lemma {:induction false} AfterOneMore(es: seq<Event>, e: Event)
    ensures After(es + [e]) == Apply(After(es), e)
  {
    assert (es + [e])[..|es|] == es;
  }

  ghost function FailureCount(es: seq<Event>): nat {
    if es == [] then 0 else FailureCount(es[..|es| - 1]) + (if es[|es| - 1].Failure? then 1 else 0)
  }

  /** es[k..] is what happened since the last success that counted, or since the beginning. */
  ghost predicate SinceSuccess(es: seq<Event>, k: nat) {
    && k <= |es|
    && (k == 0 || Counted(es[k - 1]))
    && forall i :: k <= i < |es| ==> !Counted(es[i])
  }

  /** i is the last failure of the run. */
  ghost predicate LastFailure(es: seq<Event>, i: nat) {
    && i < |es| && es[i].Failure?
    && forall j :: i < j < |es| ==> !es[j].Failure?
  }

  /**
   * Over any run of reports, the failure count is the number of failures since the last
   * success that counted; below three there is no cooldown, and from the third on it ends
   * exactly min(10 s * 2^(f - 3), 40 s) after the latest failure.
   */
  lemma {:induction false} CooldownOfRun(es: seq<Event>, k: nat)
    requires SinceSuccess(es, k)
    ensures var st, f := After(es), FailureCount(es[k..]);
      && st.failures == f
      && (f < 3 ==> st.cooldownEnds == 0)
      && (f >= 3 ==> exists i: nat :: LastFailure(es, i) && st.cooldownEnds == es[i].now + Cooldown(f))
  {
    var n := |es| - 1;
    if k == |es| {
      if k > 0 { assert Counted(es[n]); }
    } else {
      var front := es[..n];
      assert SinceSuccess(front, k);
      CooldownOfRun(front, k);
      assert es[k..][..|es[k..]| - 1] == front[k..];
      var f := FailureCount(es[k..]);
      if f >= 3 {
        if es[n].Failure? {
          assert LastFailure(es, n);
        } else {
          var i: nat :| LastFailure(front, i) && After(front).cooldownEnds == front[i].now + Cooldown(f);
          assert LastFailure(es, i);
        }
      }
    }
  }

  /** Every run has such a k, so the previous lemma speaks about every run. */
  lemma {:induction false} SinceSuccessExists(es: seq<Event>) returns (k: nat)
    ensures SinceSuccess(es, k)
  {
    var n := |es| - 1;
    if es == [] || Counted(es[n]) {
      k := |es|;
    } else {
      k := SinceSuccessExists(es[..n]);
    }
  }

  /** The rest after f failures in a row. */
  function Rest(f: nat): int {
    if f < 3 then 0 else if f == 3 then 10 * SECOND else if f == 4 then 20 * SECOND else 40 * SECOND
  }

  /** By its own reports the channel is resting: failures since the last counted success, the latest not long ago. */
  ghost predicate Resting(es: seq<Event>, now: nat) {
    exists k: nat, i: nat ::
      SinceSuccess(es, k) && LastFailure(es, i) && now < es[i].now + Rest(FailureCount(es[k..]))
      && FailureCount(es[k..]) >= 3
  }

  lemma {:induction false} RestIsCooldown(f: nat)
    requires f >= 3
    ensures Rest(f) == Cooldown(f)
  {
    if f >= 5 { Pow2Monotone(2, f - 3); }
    assert Pow2(1) == 2 && Pow2(2) == 4;
  }

  lemma {:induction false} RestingIsCooldown(es: seq<Event>, now: nat)
    ensures Resting(es, now) <==> now < After(es).cooldownEnds
  {
    var k := SinceSuccessExists(es);
    CooldownOfRun(es, k);
    if FailureCount(es[k..]) >= 3 {
      RestIsCooldown(FailureCount(es[k..]));
    }
    if Resting(es, now) {
      var k': nat, i: nat :|
        SinceSuccess(es, k') && LastFailure(es, i) && now < es[i].now + Rest(FailureCount(es[k'..]))
        && FailureCount(es[k'..]) >= 3;
      CooldownOfRun(es, k');
      RestIsCooldown(FailureCount(es[k'..]));
    }
  }

  ghost predicate SamplesWithin(es: seq<Event>, lo: real, hi: real) {
    forall i :: 0 <= i < |es| && Counted(es[i]) ==> lo <= Mbps(es[i].bytes, es[i].duration) <= hi
  }

  /** The smoothed rate lies between the least and the greatest sample reported so far. */
  lemma {:induction false} RateWithinSamples(es: seq<Event>, lo: real, hi: real)
    requires SamplesWithin(es, lo, hi)
    ensures (exists i :: 0 <= i < |es| && Counted(es[i])) ==> lo <= After(es).mbps30s <= hi
    ensures !(exists i :: 0 <= i < |es| && Counted(es[i])) ==> After(es).mbps30s == 0.0
  {
    if es != [] {
      var n := |es| - 1;
      RateWithinSamples(es[..n], lo, hi);
      if !Counted(es[n]) && exists i :: 0 <= i < |es| && Counted(es[i]) {
        var i :| 0 <= i < |es| && Counted(es[i]);
        assert Counted(es[..n][i]);
      }
    }
  }

  ghost function Reported(reports: map<string, seq<Event>>, name: string): seq<Event> {
    if name in reports then reports[name] else []
  }

  /** Each channel's state is what its own reports, and no others, made of it. */
  ghost predicate Reflects(states: map<string, State>, reports: map<string, seq<Event>>) {
    forall name: string :: StateOf(states, name) == After(Reported(reports, name))
  }

  lemma {:induction false} ReportKeepsReflects(
    states: map<string, State>, reports: map<string, seq<Event>>, name: string, e: Event, states': map<string, State>)
    requires Reflects(states, reports)
    requires StateOf(states', name) == Apply(StateOf(states, name), e)
    requires forall other: string :: other != name ==> StateOf(states', other) == StateOf(states, other)
    ensures Reflects(states', reports[name := Reported(reports, name) + [e]])
  {
    AfterOneMore(Reported(reports, name), e);
    var reports' := reports[name := Reported(reports, name) + [e]];
    forall other: string
      ensures StateOf(states', other) == After(Reported(reports', other))
    {
      assert StateOf(states, other) == After(Reported(reports, other));
    }
  }

  /** A successful call: the list it was given and the chunk it returned. */
  datatype PickMade = PickMade(pending: seq<int>, index: int)

  /** Each pick is the chunk its own number points at in the list it was given. */
  ghost predicate InTurn(picks: seq<PickMade>) {
    forall k :: 0 <= k < |picks| ==>
      picks[k].pending != [] && picks[k].index == picks[k].pending[k % |picks[k].pending|]
  }

  /** The n picks from this one on were all given the same list, of n chunks. */
  ghost predicate SameList(picks: seq<PickMade>, from: nat, pending: seq<int>) {
    from + |pending| <= |picks| && forall q :: from <= q < from + |pending| ==> picks[q].pending == pending
  }

  /** What n picks from this one on returned. */
  ghost function Returned(picks: seq<PickMade>, from: nat, n: nat): (r: seq<int>)
    requires from + n <= |picks|
    ensures |r| == n && forall k :: 0 <= k < n ==> r[k] == picks[from + k].index
  {
    seq(n, k requires 0 <= k < n => picks[from + k].index)
  }

  /** Over an unchanged list of n pending chunks, n picks in turn return the list rotated. */
  lemma {:induction false} TurnsRotate(picks: seq<PickMade>, from: nat, pending: seq<int>)
    requires InTurn(picks) && SameList(picks, from, pending) && pending != []
    ensures var n, r := |pending|, Returned(picks, from, |pending|);
      && r == pending[from % n..] + pending[..from % n]
      && multiset(r) == multiset(pending)
  {
    var n, r := |pending|, Returned(picks, from, |pending|);
    forall k | 0 <= k < n
      ensures r[k] == (pending[from % n..] + pending[..from % n])[k]
    {
      assert picks[from + k].pending == pending;
      RotatedIndex(from, k, n);
    }
    assert pending == pending[..from % n] + pending[from % n..];
  }

  class WeightedScheduler {
    const cooldown: int := COOLDOWN
    const maxCooldown: int := MAX_COOLDOWN
    var channelStates: map<string, State>
    var nextChunkPos: nat
    ghost var reports: map<string, seq<Event>>
    ghost var picks: seq<PickMade>

    ghost predicate Valid()
      reads this
    {
      Reflects(channelStates, reports) && nextChunkPos == |picks| && InTurn(picks)
    }

    constructor ()
      ensures Valid() && picks == [] && reports == map[]
    {
      channelStates, nextChunkPos, reports, picks := map[], 0, map[], [];
    }

    /** Active, and by its own reports not resting. */
    ghost predicate Rested(c: Channel, now: nat)
      reads this
    {
      c.active && !Resting(Reported(reports, c.name), now)
    }

    lemma {:induction false} CandidateIsRested(channels: seq<Channel>, now: nat, i: nat)
      requires Valid() && i < |channels|
      ensures Candidate(channelStates, now, channels, i) <==> Rested(channels[i], now)
    {
      var name := channels[i].name;
      RestingIsCooldown(Reported(reports, name), now);
      assert StateOf(channelStates, name) == After(Reported(reports, name));
    }

    lemma {:induction false} SomeCandidateIsRested(channels: seq<Channel>, now: nat)
      requires Valid()
      ensures Best(channelStates, now, channels, |channels|) >= 0 <==>
        exists i :: 0 <= i < |channels| && Rested(channels[i], now)
    {
      BestExists(channelStates, now, channels, |channels|);
      forall i: nat | i < |channels|
        ensures Candidate(channelStates, now, channels, i) <==> Rested(channels[i], now)
      {
        CandidateIsRested(channels, now, i);
      }
      hide Rested, Candidate, Best;
      if exists i :: 0 <= i < |channels| && Rested(channels[i], now) {
        var i :| 0 <= i < |channels| && Rested(channels[i], now);
        assert Candidate(channelStates, now, channels, i);
      }
    }

    /** Score of one channel, as the loop over the channels computes it. */
    method ScoreOf(c: Channel) returns (score: real)
      ensures score == Score(channelStates, c)
    {
      var st := StateOf(channelStates, c.name);
      var currentMbps := c.mbps30s;
      if st.mbps30s > currentMbps {
        currentMbps := st.mbps30s;
      }
      if currentMbps == 0.0 && c.inFlight == 0 {
        currentMbps := INITIAL_ESTIMATED_MBPS;
      }
      score := currentMbps / (c.inFlight + 1) as real;
      if c.inFlight == 0 && currentMbps > 0.0 {
        score := score * IDLE_BONUS;
      }
    }

    /** The loop over the channels. */
    method BestChannel(channels: seq<Channel>, now: nat) returns (bestChannel: string)
      ensures var b := Best(channelStates, now, channels, |channels|);
        bestChannel == if b >= 0 then channels[b].name else ""
    {
      hide Score;
      bestChannel := "";
      var bestScore := -1.0;
      var i := 0;
      ghost var b := -1;
      while i < |channels|
        invariant i <= |channels| && b == Best(channelStates, now, channels, i)
        invariant b == -1 ==> bestChannel == "" && bestScore == -1.0
        invariant b >= 0 ==> bestChannel == channels[b].name && bestScore == Score(channelStates, channels[b])
      {
        var c := channels[i];
        i := i + 1;
        b := Best(channelStates, now, channels, i);
        if !c.active {
          continue;
        }
        var st := StateOf(channelStates, c.name);
        if now < st.cooldownEnds {
          continue;
        }
        var score := ScoreOf(c);
        if bestChannel != "" && score <= bestScore * HYSTERESIS_FACTOR {
          continue;
        }
        if score > bestScore {
          bestScore := score;
          bestChannel := c.name;
        }
      }
    }

    /**
     * A chunk is refused only when nothing is pending or every active channel is resting; else
     * it is the next pending one in rotation. Between two channels equally busy and never
     * measured, the later is taken exactly when it reports over five percent more.
     */
    method NextChunk(pending: seq<int>, channels: seq<Channel>, now: nat)
      returns (index: int, channel: string, ok: bool)
      requires Valid()
      modifies this`nextChunkPos, this`picks
      ensures Valid() && picks == if ok then old(picks) + [PickMade(pending, index)] else old(picks)
      ensures var b := Best(channelStates, now, channels, |channels|);
        && (ok <==> pending != [] && b >= 0 && channels[b].name != "")
        && (ok ==>
              && channel == channels[b].name && index == pending[old(nextChunkPos) % |pending|]
              && nextChunkPos == old(nextChunkPos) + 1)
        && (!ok ==> index == 0 && channel == "" && nextChunkPos == old(nextChunkPos))
      ensures ok ==> exists i :: 0 <= i < |channels| && channels[i].name == channel && Rested(channels[i], now)
      ensures Named(channels) ==> (ok <==> pending != [] && exists i :: 0 <= i < |channels| && Rested(channels[i], now))
      ensures forall i: nat, j: nat :: Between(channelStates, now, channels, i, j) && pending != [] ==>
        channels[i].inFlight == channels[j].inFlight > 0 ==>
          channel == if channels[j].mbps30s > channels[i].mbps30s * 1.05 then channels[j].name else channels[i].name
    {
      if pending == [] {
        return 0, "", false;
      }
      ghost var b := Best(channelStates, now, channels, |channels|);
      SomeCandidateIsRested(channels, now);
      if b >= 0 { CandidateIsRested(channels, now, b); }
      forall i: nat, j: nat | Between(channelStates, now, channels, i, j)
        && channels[i].inFlight == channels[j].inFlight > 0
        ensures b == if channels[j].mbps30s > channels[i].mbps30s * 1.05 then j else i
        ensures channels[i].name != "" && channels[j].name != ""
      {
        FasterIsTaken(channelStates, now, channels, i, j);
      }
      hide Reflects, InTurn, Score, Rested, Between;
      var bestChannel := BestChannel(channels, now);
      if bestChannel == "" {
        return 0, "", false;
      }
      index, channel, ok := pending[nextChunkPos % |pending|], bestChannel, true;
      GrowsInTurn(PickMade(pending, index));
      nextChunkPos := nextChunkPos + 1;
      picks := picks + [PickMade(pending, index)];
    }

    lemma {:induction false} GrowsInTurn(p: PickMade)
      requires Valid() && p.pending != [] && p.index == p.pending[nextChunkPos % |p.pending|]
      ensures InTurn(picks + [p])
    {
    }

    /**
     * Any |pending| successive calls that returned a chunk of this same list, whatever was
     * reported in between, returned every chunk of it exactly once, in rotation.
     */
    lemma {:induction false} PicksRotate(from: nat, pending: seq<int>)
      requires Valid() && SameList(picks, from, pending) && pending != []
      ensures var n, r := |pending|, Returned(picks, from, |pending|);
        && r == pending[from % n..] + pending[..from % n]
        && multiset(r) == multiset(pending)
    {
      TurnsRotate(picks, from, pending);
    }

    method ReportSuccess(channel: string, bytes: nat, duration: int)
      requires Valid()
      modifies this`channelStates, this`reports
      ensures Valid()
      ensures reports == old(reports)[channel := Reported(old(reports), channel) + [Success(bytes, duration)]]
      ensures duration <= 0 ==> channelStates == old(channelStates)
      ensures duration > 0 ==>
        Sampled(StateOf(old(channelStates), channel), StateOf(channelStates, channel), bytes, duration)
      ensures forall name: string :: name != channel ==>
        StateOf(channelStates, name) == StateOf(old(channelStates), name)
    {
      ghost var was, e := channelStates, Success(bytes, duration);
      if duration <= 0 {
        ReportKeepsReflects(was, reports, channel, e, was);
        reports := reports[channel := Reported(reports, channel) + [e]];
        return;
      }
      var st := StateOf(channelStates, channel);
      var mbps := Sample(bytes, duration);
      SmoothedRate(st, bytes, duration);
      hide Mbps, Sampled;
      if st.mbps30s == 0.0 {
        st := st.(mbps30s := mbps);
      } else {
        st := st.(mbps30s := st.mbps30s * 0.6 + mbps * 0.4);
      }
      st := st.(failures := 0, cooldownEnds := 0);
      channelStates := channelStates[channel := st];
      ReportKeepsReflects(was, reports, channel, e, channelStates);
      reports := reports[channel := Reported(reports, channel) + [e]];
    }

    method Sample(bytes: nat, duration: int) returns (mbps: real)
      requires duration > 0
      ensures mbps == Mbps(bytes, duration)
    {
      mbps := bytes as real * 8.0 / (duration as real / SECOND as real) / 1_000_000.0;
    }

    method ReportFailure(channel: string, now: nat)
      requires Valid()
      modifies this`channelStates, this`reports
      ensures Valid() && reports == old(reports)[channel := Reported(old(reports), channel) + [Failure(now)]]
      ensures var was, st := StateOf(old(channelStates), channel), StateOf(channelStates, channel);
        && st.failures == was.failures + 1 && st.mbps30s == was.mbps30s
        && st.cooldownEnds == if st.failures >= 3 then now + Rest(st.failures) else was.cooldownEnds
      ensures forall name: string :: name != channel ==>
        StateOf(channelStates, name) == StateOf(old(channelStates), name)
    {
      var st := StateOf(channelStates, channel);
      st := st.(failures := st.failures + 1);
      if st.failures >= 3 && cooldown > 0 {
        var cd := Backoff(st.failures - 3);
        RestIsCooldown(st.failures);
        st := st.(cooldownEnds := now + cd);
      }
      ghost var was := channelStates;
      channelStates := channelStates[channel := st];
      ReportKeepsReflects(was, reports, channel, Failure(now), channelStates);
      reports := reports[channel := Reported(reports, channel) + [Failure(now)]];
    }

    /** The doubling loop of ReportFailure. */
    method Backoff(steps: nat) returns (cd: int)
      ensures cd == Cooldown(steps + 3)
    {
      cd := cooldown;
      var i := 0;
      while i < steps
        invariant i <= steps && cd == COOLDOWN * Pow2(i) < MAX_COOLDOWN
      {
        cd := cd * 2;
        i := i + 1;
        if maxCooldown > 0 && cd >= maxCooldown {
          cd := maxCooldown;
          Pow2Monotone(i, steps);
          break;
        }
      }
    }
  }
}
