/** The transfer manifest: one record per chunk, and the transitions made on it. */
module ManifestState {
  import opened Plan
  import opened Sums

  datatype Status = Pending | Sending | Done | Failed | Canceled | Unknown(text: string)

  /** SHA-256 is treated as content equality: a digest is the content it stands for. */
  type Digest = Bytes

  datatype ChunkState = ChunkState(
    index: int,
    offset: int,
    size: int,
    status: Status,
    attempts: int,
    lastError: string,
    channel: string,
    bytesDone: int,
    hash: Digest)
  {
    function Extent(): Extent { Plan.Extent(index, offset, size) }
  }

  function Geometry(cs: seq<ChunkState>): (es: seq<Extent>)
    ensures |es| == |cs| && forall i :: 0 <= i < |cs| ==> es[i] == cs[i].Extent()
  {
    seq(|cs|, i requires 0 <= i < |cs| => cs[i].Extent())
  }

  /** A new manifest: one pending record per planned chunk. */
  function Fresh(plan: seq<Extent>): (cs: seq<ChunkState>)
    ensures |cs| == |plan|
    ensures forall i :: 0 <= i < |cs| ==>
      cs[i] == ChunkState(plan[i].index, plan[i].offset, plan[i].size, Pending, 0, "", "", 0, [])
  {
    seq(|plan|, i requires 0 <= i < |plan| =>
      ChunkState(plan[i].index, plan[i].offset, plan[i].size, Pending, 0, "", "", 0, []))
  }

  // ---- transitions of one chunk record ----

  function SendingOn(c: ChunkState, channel: string): ChunkState {
    c.(status := Sending, channel := channel, lastError := "")
  }

  function DoneWith(c: ChunkState, bytes: int, hash: Digest): ChunkState {
    c.(status := Done, bytesDone := bytes, hash := hash)
  }

  function FailedWith(c: ChunkState, err: string): ChunkState {
    c.(status := Failed, attempts := c.attempts + 1, lastError := err)
  }

  function Normalized(c: ChunkState, maxAttempts: int): ChunkState {
    match c.status
    case Sending => c.(status := Pending)
    case Failed => if c.attempts < maxAttempts then c.(status := Pending) else c
    case _ => c
  }

  function Activated(c: ChunkState, maxAttempts: int): ChunkState {
    match c.status
    case Canceled | Sending | Pending => c.(status := Pending)
    case Failed => c.(status := Pending, attempts := if c.attempts >= maxAttempts then 0 else c.attempts)
    case _ => c
  }

  function CanceledIfPending(c: ChunkState): ChunkState {
    if c.status.Pending? || c.status.Sending? then c.(status := Canceled) else c
  }

  // ---- the same transitions on a whole manifest ----

  function NormalizeAll(cs: seq<ChunkState>, maxAttempts: int): (r: seq<ChunkState>)
    ensures |r| == |cs| && forall i :: 0 <= i < |cs| ==> r[i] == Normalized(cs[i], maxAttempts)
  {
    seq(|cs|, i requires 0 <= i < |cs| => Normalized(cs[i], maxAttempts))
  }

  function ActivateAll(cs: seq<ChunkState>, maxAttempts: int): (r: seq<ChunkState>)
    ensures |r| == |cs| && forall i :: 0 <= i < |cs| ==> r[i] == Activated(cs[i], maxAttempts)
  {
    seq(|cs|, i requires 0 <= i < |cs| => Activated(cs[i], maxAttempts))
  }

  function CancelAll(cs: seq<ChunkState>): (r: seq<ChunkState>)
    ensures |r| == |cs| && forall i :: 0 <= i < |cs| ==> r[i] == CanceledIfPending(cs[i])
  {
    seq(|cs|, i requires 0 <= i < |cs| => CanceledIfPending(cs[i]))
  }

  /**
   * A cancel leaves nothing to pick up again: no record stays pending or sending, each that
   * was is canceled and otherwise as it was, and the finished ones are not touched.
   */
  lemma {:induction false} CancelStopsAll(cs: seq<ChunkState>, i: nat)
    requires i < |cs|
    ensures var c := CancelAll(cs)[i];
      && |CancelAll(cs)| == |cs|
      && !c.status.Pending? && !c.status.Sending?
      && (c.status.Canceled? <==> cs[i].status in {Pending, Sending, Canceled})
      && c == cs[i].(status := c.status)
      && (cs[i].status !in {Pending, Sending} ==> c == cs[i])
  {
    assert CancelAll(cs)[i] == CanceledIfPending(cs[i]);
  }

  const LOAD_MAX_ATTEMPTS := 3

  /** What a run finds after the sender process died with cs as the last saved manifest. */
  function AfterCrash(cs: seq<ChunkState>, maxAttempts: int): seq<ChunkState> {
    ActivateAll(NormalizeAll(cs, LOAD_MAX_ATTEMPTS), maxAttempts)
  }

  /** What a run finds after the user canceled at cs and resumed later. */
  function AfterCancel(cs: seq<ChunkState>, maxAttempts: int): seq<ChunkState> {
    ActivateAll(NormalizeAll(CancelAll(cs), LOAD_MAX_ATTEMPTS), maxAttempts)
  }

  predicate KnownStatus(c: ChunkState) { !c.status.Unknown? }

  /**
   * A crash and a cancel are the same event as far as the resumed run can tell, for
   * every manifest and every attempt limit; the records that were done keep everything,
   * the geometry survives, and everything else is sendable again with budget left.
   */
  lemma {:induction false} CrashEqualsCancel(cs: seq<ChunkState>, maxAttempts: int)
    ensures AfterCrash(cs, maxAttempts) == AfterCancel(cs, maxAttempts)
    ensures Geometry(AfterCrash(cs, maxAttempts)) == Geometry(cs)
    ensures forall i :: 0 <= i < |cs| ==>
      var c := AfterCrash(cs, maxAttempts)[i];
      && (cs[i].status.Done? ==> c == cs[i])
      && (!cs[i].status.Done? && KnownStatus(cs[i]) ==> c.status.Pending?)
      && (cs[i].status.Failed? && 0 < maxAttempts && LOAD_MAX_ATTEMPTS <= maxAttempts ==> c.attempts < maxAttempts)
      && (!cs[i].status.Failed? ==> c.attempts == cs[i].attempts)
    ensures NormalizeAll(NormalizeAll(cs, maxAttempts), maxAttempts) == NormalizeAll(cs, maxAttempts)
  {
    forall i | 0 <= i < |cs|
      ensures AfterCrash(cs, maxAttempts)[i] == AfterCancel(cs, maxAttempts)[i]
      ensures NormalizeAll(NormalizeAll(cs, maxAttempts), maxAttempts)[i] == NormalizeAll(cs, maxAttempts)[i]
      ensures Geometry(AfterCrash(cs, maxAttempts))[i] == Geometry(cs)[i]
    {
    }
  }

  datatype Interruption = Crash | Cancel

  /** The manifest after a history of interruptions, each followed by a resume that saves what it starts from. */
  function AfterAll(cs: seq<ChunkState>, history: seq<Interruption>, maxAttempts: int): seq<ChunkState> {
    if history == [] then cs
    else
      var before := AfterAll(cs, history[..|history| - 1], maxAttempts);
      if history[|history| - 1].Crash? then AfterCrash(before, maxAttempts) else AfterCancel(before, maxAttempts)
  }

  /**
   * However often a transfer was interrupted before it could do anything, and how, the outcome is
   * that of one crash.
   */
  lemma {:induction false} InterruptionsCollapse(cs: seq<ChunkState>, history: seq<Interruption>, maxAttempts: int)
    requires history != []
    ensures AfterAll(cs, history, maxAttempts) == AfterCrash(cs, maxAttempts)
  {
    var front := history[..|history| - 1];
    var before := AfterAll(cs, front, maxAttempts);
    CrashEqualsCancel(before, maxAttempts);
    if front != [] {
      InterruptionsCollapse(cs, front, maxAttempts);
      assert AfterCrash(before, maxAttempts) == before;
    }
  }

  // ---- lookup by index ----

  /** The position of the first record with this index, or |cs| when there is none. */
  function Find(cs: seq<ChunkState>, index: int): (p: nat)
    ensures p <= |cs|
    ensures p < |cs| ==> cs[p].index == index
    ensures forall i :: 0 <= i < p ==> cs[i].index != index
  {
    if cs == [] then 0
    else if cs[0].index == index then 0
    else
      var p := Find(cs[1..], index);
      assert forall i :: 1 <= i < |cs| ==> cs[i] == cs[1..][i - 1];
      p + 1
  }

  /** Records numbered by position, as every manifest built from a plan is. */
  ghost predicate Numbered(cs: seq<ChunkState>) {
    forall i :: 0 <= i < |cs| ==> cs[i].index == i
  }

  /** Records whose index can name a file. */
  predicate Numerable(cs: seq<ChunkState>) { forall i :: 0 <= i < |cs| ==> cs[i].index >= 0 }

  lemma {:induction false} FindNumbered(cs: seq<ChunkState>, i: nat)
    requires Numbered(cs) && i < |cs|
    ensures Find(cs, i) == i
  {
    var p := Find(cs, i);
    assert cs[i].index == i;
  }

  predicate IsDone(c: ChunkState) { c.status.Done? }

  function DoneBytesUpTo(cs: seq<ChunkState>, k: nat): int
    requires k <= |cs|
  {
    if k == 0 then 0 else DoneBytesUpTo(cs, k - 1) + (if IsDone(cs[k - 1]) then cs[k - 1].bytesDone else 0)
  }

  ghost function SizeOf(c: ChunkState): int { c.size }

  /** Records whose byte counts stay within their chunk. */
  ghost predicate CountsFit(cs: seq<ChunkState>) {
    forall i :: 0 <= i < |cs| ==> 0 <= cs[i].bytesDone <= cs[i].size
  }

  /** The sizes of an exact cut add up to the file. */
  lemma {:induction false} SizesUpToEnd(cs: seq<ChunkState>, total: int, k: nat)
    requires IsPartition(Geometry(cs), total) && k <= |cs|
    ensures SumBy(SizeOf, cs[..k]) == EndOf(Geometry(cs), k)
  {
    if k > 0 {
      SizesUpToEnd(cs, total, k - 1);
      assert cs[..k][..k - 1] == cs[..k - 1];
      assert Geometry(cs)[k - 1].offset == EndOf(Geometry(cs), k - 1);
    }
  }

  /**
   * Progress read off a manifest over an exact cut never exceeds the file, and is the
   * whole file exactly when every chunk is done in full.
   */
  lemma {:induction false} DoneBytesBounded(cs: seq<ChunkState>, total: int, k: nat)
    requires IsPartition(Geometry(cs), total) && CountsFit(cs)
    requires k <= |cs|
    ensures 0 <= DoneBytesUpTo(cs, k) <= EndOf(Geometry(cs), k)
    ensures DoneBytesUpTo(cs, k) == EndOf(Geometry(cs), k) <==>
      forall i :: 0 <= i < k ==> IsDone(cs[i]) && cs[i].bytesDone == cs[i].size
  {
    if k > 0 {
      DoneBytesBounded(cs, total, k - 1);
      assert Geometry(cs)[k - 1].offset == EndOf(Geometry(cs), k - 1);
    }
  }

  /** The manifest as the program holds it: a slice of records mutated in place. */
  class Manifest {
    var chunks: seq<ChunkState>

    constructor (chunks: seq<ChunkState>)
      ensures this.chunks == chunks
    {
      this.chunks := chunks;
    }

    /** The loop behind chunk(index) and GetChunk. */
    method Locate(index: int) returns (p: nat)
      ensures p == Find(chunks, index)
    {
      p := 0;
      while p < |chunks|
        invariant p <= |chunks|
        invariant forall i :: 0 <= i < p ==> chunks[i].index != index
      {
        if chunks[p].index == index {
          return;
        }
        p := p + 1;
      }
    }

    method MarkAndGetSending(index: int, channel: string) returns (found: bool, c: ChunkState)
      modifies this
      ensures found <==> exists i :: 0 <= i < |old(chunks)| && old(chunks)[i].index == index
      ensures var p := Find(old(chunks), index);
        if found
        then chunks == old(chunks)[p := SendingOn(old(chunks)[p], channel)] && c == chunks[p]
        else chunks == old(chunks)
      ensures found ==>
        c == old(chunks)[Find(old(chunks), index)].(status := Sending, channel := channel, lastError := "")
    {
      var p := Locate(index);
      if p < |chunks| {
        chunks := chunks[p := SendingOn(chunks[p], channel)];
        return true, chunks[p];
      }
      found, c := false, ChunkState(0, 0, 0, Pending, 0, "", "", 0, []);
    }

    method MarkDone(index: int, bytes: int, hash: Digest)
      modifies this
      ensures var p := Find(old(chunks), index);
        chunks == if p < |old(chunks)| then old(chunks)[p := DoneWith(old(chunks)[p], bytes, hash)] else old(chunks)
      ensures var p := Find(old(chunks), index);
        p < |chunks| ==> chunks[p] == old(chunks)[p].(status := Done, bytesDone := bytes, hash := hash)
    {
      var p := Locate(index);
      if p < |chunks| {
        chunks := chunks[p := DoneWith(chunks[p], bytes, hash)];
      }
    }

    method MarkFailed(index: int, err: string)
      modifies this
      ensures var p := Find(old(chunks), index);
        chunks == if p < |old(chunks)| then old(chunks)[p := FailedWith(old(chunks)[p], err)] else old(chunks)
      ensures var p := Find(old(chunks), index);
        p < |chunks| ==>
          chunks[p] == old(chunks)[p].(status := Failed, attempts := old(chunks)[p].attempts + 1, lastError := err)
    {
      var p := Locate(index);
      if p < |chunks| {
        chunks := chunks[p := FailedWith(chunks[p], err)];
      }
    }

    method NormalizeForResume(maxAttempts: int)
      modifies this
      ensures chunks == NormalizeAll(old(chunks), maxAttempts)
      ensures forall k :: 0 <= k < |chunks| ==>
        var c := old(chunks)[k];
        if c.status.Sending? || (c.status.Failed? && c.attempts < maxAttempts) then chunks[k] == c.(status := Pending)
        else chunks[k] == c
    {
      var i := 0;
      while i < |chunks|
        invariant i <= |chunks| == |old(chunks)|
        invariant forall k :: 0 <= k < i ==> chunks[k] == Normalized(old(chunks)[k], maxAttempts)
        invariant forall k :: i <= k < |chunks| ==> chunks[k] == old(chunks)[k]
      {
        var c := chunks[i];
        match c.status {
          case Sending => chunks := chunks[i := c.(status := Pending)];
          case Failed =>
            if c.attempts < maxAttempts {
              chunks := chunks[i := c.(status := Pending)];
            }
          case _ =>
        }
        i := i + 1;
      }
    }

    method ActivateResume(maxAttempts: int)
      modifies this
      ensures chunks == ActivateAll(old(chunks), maxAttempts)
      ensures forall k :: 0 <= k < |chunks| ==>
        var c := old(chunks)[k];
        if c.status.Done? || c.status.Unknown? then chunks[k] == c
        else
          && chunks[k].status.Pending?
          && chunks[k] == c.(status := Pending, attempts := chunks[k].attempts)
          && chunks[k].attempts == if c.status.Failed? && c.attempts >= maxAttempts then 0 else c.attempts
    {
      var i := 0;
      while i < |chunks|
        invariant i <= |chunks| == |old(chunks)|
        invariant forall k :: 0 <= k < i ==> chunks[k] == Activated(old(chunks)[k], maxAttempts)
        invariant forall k :: i <= k < |chunks| ==> chunks[k] == old(chunks)[k]
      {
        var c := chunks[i];
        match c.status {
          case Canceled | Sending | Pending => chunks := chunks[i := c.(status := Pending)];
          case Failed =>
            c := c.(status := Pending);
            if c.attempts >= maxAttempts {
              c := c.(attempts := 0);
            }
            chunks := chunks[i := c];
          case _ =>
        }
        i := i + 1;
      }
    }

    method MarkCanceledPending()
      modifies this
      ensures chunks == CancelAll(old(chunks)) && |chunks| == |old(chunks)|
      ensures forall k :: 0 <= k < |chunks| ==> !chunks[k].status.Pending? && !chunks[k].status.Sending?
      ensures forall k :: 0 <= k < |chunks| ==>
        var c := old(chunks)[k];
        chunks[k] == if c.status.Pending? || c.status.Sending? then c.(status := Canceled) else c
    {
      var i := 0;
      while i < |chunks|
        invariant i <= |chunks| == |old(chunks)|
        invariant forall k :: 0 <= k < i ==> chunks[k] == CanceledIfPending(old(chunks)[k])
        invariant forall k :: i <= k < |chunks| ==> chunks[k] == old(chunks)[k]
      {
        var c := chunks[i];
        if c.status.Pending? || c.status.Sending? {
          chunks := chunks[i := c.(status := Canceled)];
        }
        i := i + 1;
      }
    }

    /** Over an exact cut, the progress of the manifest lies within the file. */
    method DoneBytes(ghost total: int) returns (done: int)
      ensures done == DoneBytesUpTo(chunks, |chunks|)
      ensures IsPartition(Geometry(chunks), total) && CountsFit(chunks) ==>
        && 0 <= done <= total
        && (done == total <==>
              forall i :: 0 <= i < |chunks| ==> IsDone(chunks[i]) && chunks[i].bytesDone == chunks[i].size)
    {
      done := 0;
      var i := 0;
      while i < |chunks|
        invariant i <= |chunks| && done == DoneBytesUpTo(chunks, i)
      {
        if chunks[i].status.Done? {
          done := done + chunks[i].bytesDone;
        }
        i := i + 1;
      }
      if IsPartition(Geometry(chunks), total) && CountsFit(chunks) {
        DoneBytesBounded(chunks, total, |chunks|);
      }
    }
  }
}
