/** The strict split of a download: which chunk is planned on which channel, and who may send it. */
module StrictSplit {
  import opened ManifestState
  import opened Ordering

  type Channels = map<int, string>

  /** A percentage outside 1..99 means an even split. */
  function EffectivePct(cablePct: int): (pct: int)
    ensures 0 < pct < 100
  {
    if cablePct <= 0 || cablePct >= 100 then 50 else cablePct
  }

  datatype Scores = Scores(cable: int, wifi: int)

  predicate TakesCable(s: Scores, pct: int) { s.cable + pct >= s.wifi + (100 - pct) }

  /** The running scores after n chunks. */
  function ScoresAfter(n: nat, pct: int): Scores {
    if n == 0 then Scores(0, 0)
    else
      var s := ScoresAfter(n - 1, pct);
      if TakesCable(s, pct) then Scores(s.cable + pct - 100, s.wifi + (100 - pct))
      else Scores(s.cable + pct, s.wifi + (100 - pct) - 100)
  }

  /** pct percent of n, rounded to the nearest integer. */
  function Share(n: nat, pct: int): int { (n * pct + 50) / 100 }

  /** The scores always sum to zero and carry exactly the rounding error of the share. */
  lemma {:induction false} ScoresAreRoundingError(n: nat, pct: int)
    requires 0 < pct < 100
    ensures var s := ScoresAfter(n, pct);
      && s.cable + s.wifi == 0
      && s.cable == n * pct - 100 * Share(n, pct)
      && -50 <= s.cable < 50
      && (TakesCable(s, pct) <==> Share(n + 1, pct) == Share(n, pct) + 1)
      && (!TakesCable(s, pct) <==> Share(n + 1, pct) == Share(n, pct))
  {
    NextProduct(n, pct);
    if n > 0 {
      NextProduct(n - 1, pct);
      ScoresAreRoundingError(n - 1, pct);
    }
  }

  lemma {:induction false} NextProduct(n: nat, pct: int)
    ensures (n + 1) * pct == n * pct + pct
  {
  }

  ghost predicate On(plan: Channels, index: int, channel: string) { index in plan && plan[index] == channel }

  /** How many of the first n chunks are planned on a channel. */
  ghost function PlannedOn(cs: seq<ChunkState>, n: nat, plan: Channels, channel: string): nat
    requires n <= |cs|
  {
    if n == 0 then 0
    else PlannedOn(cs, n - 1, plan, channel) + (if On(plan, cs[n - 1].index, channel) then 1 else 0)
  }

  lemma {:induction false} PlannedOnSame(cs: seq<ChunkState>, n: nat, plan: Channels, plan': Channels, channel: string)
    requires n <= |cs|
    requires forall k :: 0 <= k < n ==> (On(plan, cs[k].index, channel) <==> On(plan', cs[k].index, channel))
    ensures PlannedOn(cs, n, plan, channel) == PlannedOn(cs, n, plan', channel)
  {
    if n > 0 {
      PlannedOnSame(cs, n - 1, plan, plan', channel);
    }
  }

  ghost predicate ExactAt(ordered: seq<ChunkState>, n: nat, plan: Channels, pct: int)
    requires n <= |ordered|
  {
    PlannedOn(ordered, n, plan, "cable") == Share(n, pct) && PlannedOn(ordered, n, plan, "wifi") == n - Share(n, pct)
  }

  /** Each prefix of up to m chunks, in index order, gives cable its rounded share and wifi the rest. */
  ghost predicate ExactSplit(ordered: seq<ChunkState>, m: nat, plan: Channels, pct: int)
    requires m <= |ordered|
  {
    forall n :: 0 <= n <= m ==> ExactAt(ordered, n, plan, pct)
  }

  /** Planning a later chunk leaves the earlier ones as they were. */
  lemma {:induction false} EarlierStay(ordered: seq<ChunkState>, plan: Channels, i: nat, n: nat, channel: string,
      pct: int)
    requires n <= i < |ordered| && Increasing(ordered) && ExactAt(ordered, n, plan, pct)
    ensures ExactAt(ordered, n, plan[ordered[i].index := channel], pct)
  {
    var plan' := plan[ordered[i].index := channel];
    PlannedOnSame(ordered, n, plan, plan', "cable");
    PlannedOnSame(ordered, n, plan, plan', "wifi");
  }

  /** One more chunk, on the channel its score picks. */
  lemma {:induction false} SplitGrows(ordered: seq<ChunkState>, plan: Channels, i: nat, pct: int, channel: string)
    requires i < |ordered| && Increasing(ordered) && 0 < pct < 100
    requires ExactSplit(ordered, i, plan, pct)
    requires channel == if TakesCable(ScoresAfter(i, pct), pct) then "cable" else "wifi"
    ensures ExactSplit(ordered, i + 1, plan[ordered[i].index := channel], pct)
  {
    var plan' := plan[ordered[i].index := channel];
    forall n | 0 <= n <= i + 1
      ensures ExactAt(ordered, n, plan', pct)
    {
      if n <= i {
        EarlierStay(ordered, plan, i, n, channel, pct);
      } else {
        EarlierStay(ordered, plan, i, i, channel, pct);
        ScoresAreRoundingError(i, pct);
      }
    }
  }

  lemma {:induction false} ProductOfSum(n: nat, m: nat, pct: int)
    ensures (n + m) * pct == n * pct + m * pct
  {
  }

  lemma {:induction false} ShareError(n: nat, pct: int, product: int)
    requires product == n * pct
    ensures -50 <= product - 100 * Share(n, pct) < 50
  {
  }

  /** Any window of m consecutive chunks gives cable its percentage to within one chunk. */
  lemma {:induction false} WindowShare(n: nat, m: nat, pct: int)
    ensures var onCable := Share(n + m, pct) - Share(n, pct);
      -100 < 100 * onCable - m * pct < 100
  {
    ShareError(n, pct, n * pct);
    ShareError(n + m, pct, (n + m) * pct);
    ProductOfSum(n, m, pct);
  }

  ghost predicate HasIndex(cs: seq<ChunkState>, x: int) { exists k :: 0 <= k < |cs| && cs[k].index == x }

  lemma {:induction false} SortedHasIndex(cs: seq<ChunkState>, x: int)
    ensures HasIndex(cs, x) <==> HasIndex(SortByIndex(cs), x)
  {
    var ds := SortByIndex(cs);
    if HasIndex(cs, x) {
      var k :| 0 <= k < |cs| && cs[k].index == x;
      SortMembers(cs, cs[k]);
      assert cs[k] in ds;
    }
    if HasIndex(ds, x) {
      var k :| 0 <= k < |ds| && ds[k].index == x;
      SortMembers(cs, ds[k]);
      assert ds[k] in cs;
    }
  }

  lemma {:induction false} HasIndexGrows(cs: seq<ChunkState>, i: nat, x: int)
    requires i < |cs|
    ensures HasIndex(cs[..i + 1], x) <==> HasIndex(cs[..i], x) || x == cs[i].index
  {
    if HasIndex(cs[..i], x) {
      var k :| 0 <= k < i && cs[..i][k].index == x;
      assert cs[..i + 1][k].index == x;
    }
    assert cs[..i + 1][i] == cs[i];
  }

  /** buildStrictPlan. */
  method BuildStrictPlan(chunks: seq<ChunkState>, cablePct: int) returns (plan: Channels)
    ensures forall x: int :: x in plan <==> HasIndex(chunks, x)
    ensures forall x: int :: x in plan ==> plan[x] == "cable" || plan[x] == "wifi"
    ensures DistinctIndices(chunks) && 1 <= cablePct <= 99 ==>
      ExactSplit(SortByIndex(chunks), |SortByIndex(chunks)|, plan, cablePct)
    ensures DistinctIndices(chunks) && !(1 <= cablePct <= 99) ==>
      ExactSplit(SortByIndex(chunks), |SortByIndex(chunks)|, plan, 50)
  {
    var pct := EffectivePct(cablePct);
    var ordered := SortByIndex(chunks);
    if DistinctIndices(chunks) {
      SortIncreases(chunks);
    }
    plan := map[];
    var cableScore, wifiScore := 0, 0;
    var i := 0;
    while i < |ordered|
      invariant i <= |ordered| && Scores(cableScore, wifiScore) == ScoresAfter(i, pct)
      invariant forall x: int :: x in plan <==> HasIndex(ordered[..i], x)
      invariant forall x: int :: x in plan ==> plan[x] == "cable" || plan[x] == "wifi"
      invariant Increasing(ordered) ==> ExactSplit(ordered, i, plan, pct)
    {
      var c := ordered[i];
      forall x: int
        ensures HasIndex(ordered[..i + 1], x) <==> HasIndex(ordered[..i], x) || x == c.index
      {
        HasIndexGrows(ordered, i, x);
      }
      if Increasing(ordered) {
        SplitGrows(ordered, plan, i, pct, if TakesCable(Scores(cableScore, wifiScore), pct) then "cable" else "wifi");
      }
      cableScore := cableScore + pct;
      wifiScore := wifiScore + (100 - pct);
      if cableScore >= wifiScore {
        plan := plan[c.index := "cable"];
        cableScore := cableScore - 100;
      } else {
        plan := plan[c.index := "wifi"];
        wifiScore := wifiScore - 100;
      }
      i := i + 1;
    }
    assert ordered[..i] == ordered;
    forall x: int
      ensures HasIndex(chunks, x) <==> HasIndex(ordered, x)
    {
      SortedHasIndex(chunks, x);
    }
  }

  /** A missing entry reads as the empty name. */
  function Planned(plan: Channels, index: int): string { if index in plan then plan[index] else "" }

  ghost predicate PlannedPending(pending: seq<ChunkState>, channel: string, plan: Channels, k: int) {
    0 <= k < |pending| && Planned(plan, pending[k].index) == channel
  }

  /** The chunk is the first pending one planned on the channel. */
  ghost predicate FirstPlanned(pending: seq<ChunkState>, channel: string, plan: Channels, index: int) {
    exists k ::
      PlannedPending(pending, channel, plan, k) && index == pending[k].index
      && forall j :: 0 <= j < k ==> !PlannedPending(pending, channel, plan, j)
  }

  /** pickStrictPendingForChannel: the first pending chunk planned on this channel. */
  method PickStrictPendingForChannel(pending: seq<ChunkState>, channel: string, plan: Channels)
    returns (index: int, found: bool)
    ensures found <==> exists k :: PlannedPending(pending, channel, plan, k)
    ensures found ==> FirstPlanned(pending, channel, plan, index)
    ensures found ==> forall j ::
      0 <= j < |pending| && pending[j].index in plan && plan[pending[j].index] == channel ==>
        exists i :: 0 <= i <= j && pending[i].index == index
  {
    var k := 0;
    while k < |pending|
      invariant k <= |pending|
      invariant forall j :: 0 <= j < k ==> !PlannedPending(pending, channel, plan, j)
    {
      if Planned(plan, pending[k].index) == channel {
        assert PlannedPending(pending, channel, plan, k);
        forall j | 0 <= j < |pending| && pending[j].index in plan && plan[pending[j].index] == channel
          ensures exists i :: 0 <= i <= j && pending[i].index == pending[k].index
        {
          assert PlannedPending(pending, channel, plan, j);
          assert k <= j;
        }
        return pending[k].index, true;
      }
      k := k + 1;
    }
    index, found := 0, false;
  }

  datatype Dispatch = Send(index: int, channel: string) | Wait

  /**
   * The strict branch of dispatchOnce, from the scheduler's choice of a channel to the chunk
   * that goes out: it is the first pending one on the channel it is planned on, and the round
   * waits only when the chosen channel has nothing planned and the other cannot help.
   */
  method DispatchStrict(
    pending: seq<ChunkState>, chosen: string, plan: Channels, channels: set<string>, inFlight: map<string, nat>,
      limit: nat)
    returns (d: Dispatch)
    requires "" !in channels
    ensures d.Send? ==>
      && d.channel in channels && d.index in plan && plan[d.index] == d.channel
      && FirstPlanned(pending, d.channel, plan, d.index)
      && (d.channel == chosen
          || (d.channel == (if chosen == "wifi" then "cable" else "wifi")
              && (d.channel in inFlight ==> inFlight[d.channel] < limit)))
    ensures d.Wait? <==>
      if exists k :: PlannedPending(pending, chosen, plan, k) then chosen !in channels
      else
        var other := if chosen == "wifi" then "cable" else "wifi";
        || (other in inFlight && inFlight[other] >= limit)
        || (other !in inFlight && limit == 0)
        || (forall k :: !PlannedPending(pending, other, plan, k))
        || other !in channels
  {
    var channel := chosen;
    var index, found := PickStrictPendingForChannel(pending, chosen, plan);
    if !found {
      channel := if chosen == "wifi" then "cable" else "wifi";
      var busy := if channel in inFlight then inFlight[channel] else 0;
      if busy >= limit {
        return Wait;
      }
      index, found := PickStrictPendingForChannel(pending, channel, plan);
      if !found {
        return Wait;
      }
    }
    if channel !in channels {
      return Wait;
    }
    d := Send(index, channel);
  }
}
