/** The parts of an internet download: the byte range each asks for, and the merge that publishes them. */
module DownloadMerge {
  import opened Plan
  import opened Decimal
  import opened ManifestState
  import opened SessionFiles
  import opened PartMerge

  const PARTIAL_CONTENT := 206

  function PartPath(session: string, index: nat): string { session + "/chunk" + Padded6(index + 1) + ".part" }

  function PartsOf(session: string, cs: seq<ChunkState>): (parts: seq<Part>)
    requires Numerable(cs)
    ensures |parts| == |cs|
    ensures forall i :: 0 <= i < |cs| ==> parts[i] == Part(PartPath(session, cs[i].index), cs[i].size)
  {
    seq(|cs|, i requires 0 <= i < |cs| => Part(PartPath(session, cs[i].index), cs[i].size))
  }

  /** The bytes from first to last, both included (section 14.1.2 of RFC 9110). */
  function ByteRange(resource: Bytes, first: int, last: int): (range: Bytes)
    requires 0 <= first <= last < |resource|
    ensures |range| == last - first + 1
  {
    resource[first..last + 1]
  }

  /** The range header asks for exactly the chunk's bytes, and ranges of an exact cut lie inside the resource. */
  lemma {:induction false} RangeIsChunk(cs: seq<ChunkState>, resource: Bytes, i: nat)
    requires IsPartition(Geometry(cs), |resource|) && i < |cs|
    ensures var first, last := cs[i].offset, cs[i].offset + cs[i].size - 1;
      && 0 <= first <= last < |resource|
      && ByteRange(resource, first, last) == resource[EndOf(Geometry(cs), i)..EndOf(Geometry(cs), i + 1)]
  {
    EndsIncrease(Geometry(cs), |resource|, i, i + 1);
    assert Geometry(cs)[i].offset == EndOf(Geometry(cs), i);
    assert Geometry(cs)[i].size > 0;
  }

  /** Each part file holds the byte range its chunk asked for. */
  ghost predicate HoldsRanges(files: Dir, session: string, cs: seq<ChunkState>, resource: Bytes)
    requires Numerable(cs) && IsPartition(Geometry(cs), |resource|)
  {
    forall i :: 0 <= i < |cs| ==> HoldsRange(files, PartPath(session, cs[i].index), cs[i], resource)
  }

  ghost predicate HoldsRange(files: Dir, path: string, c: ChunkState, resource: Bytes) {
    && 0 <= c.offset <= c.offset + c.size - 1 < |resource|
    && path in files && files[path] == ByteRange(resource, c.offset, c.offset + c.size - 1)
  }

  /** The parts of these chunks are there, each with its range. */
  ghost predicate HoldsAll(files: Dir, session: string, cs: seq<ChunkState>, done: set<nat>, resource: Bytes)
    requires Numerable(cs)
  {
    forall k: nat :: k in done ==> k < |cs| && HoldsRange(files, PartPath(session, cs[k].index), cs[k], resource)
  }

  lemma {:induction false} JoinRange(files: Dir, parts: seq<Part>, j: nat, resource: Bytes, a: int, b: int)
    requires j < |parts| && 0 <= a <= b <= |resource| && Joined(files, parts, j) == Some(resource[..a])
    requires parts[j].path in files && files[parts[j].path] == resource[a..b] && parts[j].size == b - a
    ensures Joined(files, parts, j + 1) == Some(resource[..b])
  {
    assert resource[..a] + resource[a..b] == resource[..b];
  }

  /** The parts of the first k chunks join to the first EndOf(k) bytes. */
  ghost predicate PrefixJoined(files: Dir, session: string, cs: seq<ChunkState>, resource: Bytes, k: nat)
    requires Numerable(cs) && k <= |cs|
  {
    var end := EndOf(Geometry(cs), k);
    0 <= end <= |resource| && Joined(files, PartsOf(session, cs), k) == Some(resource[..end])
  }

  lemma {:induction false} PrefixGrows(files: Dir, session: string, cs: seq<ChunkState>, resource: Bytes, j: nat)
    requires Numerable(cs) && IsPartition(Geometry(cs), |resource|) && HoldsRanges(files, session, cs, resource)
    requires j < |cs| && PrefixJoined(files, session, cs, resource, j)
    ensures PrefixJoined(files, session, cs, resource, j + 1)
  {
    assert HoldsRange(files, PartPath(session, cs[j].index), cs[j], resource);
    RangeIsChunk(cs, resource, j);
    JoinRange(files, PartsOf(session, cs), j, resource, EndOf(Geometry(cs), j), EndOf(Geometry(cs), j + 1));
  }

  lemma {:induction false} PrefixIsResource(files: Dir, session: string, cs: seq<ChunkState>, resource: Bytes, k: nat)
    requires Numerable(cs) && IsPartition(Geometry(cs), |resource|) && HoldsRanges(files, session, cs, resource)
    requires k <= |cs|
    ensures PrefixJoined(files, session, cs, resource, k)
  {
    if k > 0 {
      PrefixIsResource(files, session, cs, resource, k - 1);
      PrefixGrows(files, session, cs, resource, k - 1);
    }
  }

  /** With each part holding the range it asked for, the merge is the remote resource. */
  lemma {:induction false} RangesMakeResource(files: Dir, session: string, cs: seq<ChunkState>, resource: Bytes)
    requires Numerable(cs) && IsPartition(Geometry(cs), |resource|) && HoldsRanges(files, session, cs, resource)
    ensures Joined(files, PartsOf(session, cs), |cs|) == Some(resource)
  {
    PrefixIsResource(files, session, cs, resource, |cs|);
    assert resource[..|resource|] == resource;
  }

  /** Over an exact cut the parts' sizes already add up, so the final size test only guards manifests that are none. */
  lemma {:induction false} JoinedLength(files: Dir, session: string, cs: seq<ChunkState>, total: int, k: nat)
    requires Numerable(cs) && IsPartition(Geometry(cs), total) && k <= |cs|
    ensures var j := Joined(files, PartsOf(session, cs), k);
      j.Some? ==> |j.value| == EndOf(Geometry(cs), k)
  {
    if k > 0 {
      JoinedLength(files, session, cs, total, k - 1);
      assert Geometry(cs)[k - 1].offset == EndOf(Geometry(cs), k - 1);
    }
  }

  /** What came back for chunk k: the status, and the bytes of the body. */
  datatype Response = Response(k: nat, status: int, body: Bytes)

  /** The response makes a whole part. */
  predicate Usable(cs: seq<ChunkState>, r: Response) {
    r.k < |cs| && r.status == PARTIAL_CONTENT && |r.body| >= cs[r.k].size
  }

  /** One of the first n responses makes chunk k whole. */
  ghost predicate UsableFor(responses: seq<Response>, n: nat, cs: seq<ChunkState>, k: nat)
    requires n <= |responses|
  {
    exists j :: 0 <= j < n && responses[j].k == k && Usable(cs, responses[j])
  }

  lemma {:induction false} UsableGrows(responses: seq<Response>, j: nat, cs: seq<ChunkState>)
    requires j < |responses|
    ensures forall k: nat :: UsableFor(responses, j + 1, cs, k) <==>
      UsableFor(responses, j, cs, k) || (responses[j].k == k && Usable(cs, responses[j]))
  {
    forall k: nat
      ensures UsableFor(responses, j + 1, cs, k) <==>
        UsableFor(responses, j, cs, k) || (responses[j].k == k && Usable(cs, responses[j]))
    {
      if UsableFor(responses, j, cs, k) {
        var i :| 0 <= i < j && responses[i].k == k && Usable(cs, responses[i]);
        assert responses[i].k == k;
      }
      if UsableFor(responses, j + 1, cs, k) {
        var i :| 0 <= i < j + 1 && responses[i].k == k && Usable(cs, responses[i]);
        assert i < j || i == j;
      }
    }
  }

  /** A file that is no part of this download. */
  ghost predicate Foreign(session: string, cs: seq<ChunkState>, p: string)
    requires Numerable(cs)
  {
    forall k: nat :: k < |cs| ==> p != PartPath(session, cs[k].index)
  }

  /** A server that honours ranges: a partial-content body starts with the range asked for. */
  ghost predicate Honest(cs: seq<ChunkState>, r: Response, resource: Bytes) {
    && r.k < |cs|
    && 0 <= cs[r.k].offset <= cs[r.k].offset + cs[r.k].size - 1 < |resource|
    && (Usable(cs, r) ==> ByteRange(resource, cs[r.k].offset, cs[r.k].offset + cs[r.k].size - 1) <= r.body)
  }

  ghost predicate AllHonest(cs: seq<ChunkState>, responses: seq<Response>, resource: Bytes) {
    forall j :: 0 <= j < |responses| ==> Honest(cs, responses[j], resource)
  }

  /** Different chunks of an exact cut have different part files. */
  lemma {:induction false} OtherParts(session: string, cs: seq<ChunkState>, k: nat, resource: Bytes)
    requires Numerable(cs) && IsPartition(Geometry(cs), |resource|) && k < |cs|
    ensures forall m: nat :: m < |cs| && m != k ==> PartPath(session, cs[m].index) != PartPath(session, cs[k].index)
  {
    forall m: nat | m < |cs| && m != k
      ensures PartPath(session, cs[m].index) != PartPath(session, cs[k].index)
    {
      assert Geometry(cs)[m].index == m && Geometry(cs)[k].index == k;
      if PartPath(session, cs[m].index) == PartPath(session, cs[k].index) {
        PartPathInjective(session, m, k);
      }
    }
  }

  lemma {:induction false} PartPathInjective(session: string, i: nat, j: nat)
    requires PartPath(session, i) == PartPath(session, j)
    ensures i == j
  {
    var n := |session + "/chunk"|;
    var a, b := PartPath(session, i), PartPath(session, j);
    assert a[n..|a| - |".part"|] == Padded6(i + 1);
    assert b[n..|b| - |".part"|] == Padded6(j + 1);
    Padded6Injective(i + 1, j + 1);
  }

  /** TotalBytes of the manifest. */
  function TotalOf(cs: seq<ChunkState>): int { EndOf(Geometry(cs), |cs|) }

  datatype Outcome = Published | FinalExists | PartUnusable | TotalMismatch | IoError

  /** What others write at the final path: before the first check, while copying, and after the last check. */
  datatype Others = Others(early: Option<Bytes>, copying: Option<Bytes>, late: Option<Bytes>)

  /** Which operations on the temporary fail: creating it, syncing it (or closing or measuring it), renaming it. */
  datatype MergeFaults = MergeFaults(create: bool, sync: bool, rename: bool)

  function Put(files: Dir, path: string, data: Option<Bytes>): Dir {
    if data.Some? then files[path := data.value] else files
  }

  /** The parts fit and have the total length. */
  predicate PartsFit(parts: Option<Bytes>, total: int) { parts.Some? && |parts.value| == total }

  /** The merge gets as far as its rename: the path is free at both checks, the parts fit, nothing has failed. */
  predicate ReachesRename(files: Dir, finalPath: string, parts: Option<Bytes>, total: int, others: Others,
      f: MergeFaults)
  {
    && finalPath !in files && others.early.None? && others.copying.None?
    && PartsFit(parts, total) && !f.create && !f.sync
  }

  /** What a merge of these parts reports. */
  function OutcomeOf(files: Dir, finalPath: string, parts: Option<Bytes>, total: int, others: Others, f: MergeFaults):
    Outcome
  {
    if finalPath in Put(files, finalPath, others.early) then FinalExists
    else if f.create then IoError
    else if parts.None? then PartUnusable
    else if f.sync then IoError
    else if |parts.value| != total then TotalMismatch
    else if others.copying.Some? then FinalExists
    else if f.rename then IoError
    else Published
  }

  /** And the files it leaves: the parts in order at the final path, or just what others wrote. */
  function AfterMerge(files: Dir, finalPath: string, parts: Option<Bytes>, total: int, others: Others, f: MergeFaults):
    Dir
  {
    var before := Put(files, finalPath, others.early);
    if finalPath in before || f.create then before
    else if ReachesRename(files, finalPath, parts, total, others, f) then
      if f.rename then Put(files, finalPath, others.late) else files[finalPath := parts.value]
    else Put(before, finalPath, others.copying)
  }

  /** What was last at the final path without the merge, up to its end. */
  function ForeignFile(files: Dir, finalPath: string, parts: Option<Bytes>, total: int, others: Others,
      f: MergeFaults): Option<Bytes>
  {
    var before := Put(files, finalPath, others.early);
    if finalPath in before then Some(before[finalPath])
    else if f.create then None
    else if others.copying.Some? then others.copying
    else if ReachesRename(files, finalPath, parts, total, others, f) then others.late
    else None
  }

  /** Someone else's file was at the path before the merge ended, and is not there afterwards. */
  ghost predicate Loses(files: Dir, finalPath: string, parts: Option<Bytes>, total: int, others: Others,
      f: MergeFaults)
  {
    var foreign := ForeignFile(files, finalPath, parts, total, others, f);
    var files' := AfterMerge(files, finalPath, parts, total, others, f);
    foreign.Some? && (finalPath !in files' || files'[finalPath] != foreign.value)
  }

  /**
   * A file of someone else's is lost exactly when the parts fit, the path was free at both
   * checks, no operation on the temporary fails, and that file, of other content, appeared
   * after the second check. So every merge that would publish can lose one, and no other
   * merge can, whatever was written before.
   */
  lemma {:induction false} LosesExactlyWhenLate(files: Dir, finalPath: string, parts: Option<Bytes>, total: int,
      early: Option<Bytes>, copying: Option<Bytes>, f: MergeFaults)
    ensures forall late: Option<Bytes> :: Loses(files, finalPath, parts, total, Others(early, copying, late), f) <==>
      && parts.Some? && |parts.value| == total
      && finalPath !in files && early.None? && copying.None?
      && !f.create && !f.sync && !f.rename
      && late.Some? && late.value != parts.value
    ensures (exists late: Option<Bytes> :: Loses(files, finalPath, parts, total, Others(early, copying, late), f)) <==>
      OutcomeOf(files, finalPath, parts, total, Others(early, copying, None), f).Published?
  {
    if OutcomeOf(files, finalPath, parts, total, Others(early, copying, None), f).Published? {
      var late := Some(parts.value + [0]);
      assert Loses(files, finalPath, parts, total, Others(early, copying, late), f);
    }
  }

  class Disk {
    var files: Dir

    constructor ()
      ensures files == map[]
    {
      files := map[];
    }

    /** downloadChunkVia, from the response on: the first size bytes of a 206 body become the part file. */
    method StorePart(path: string, size: nat, status: int, body: Bytes) returns (ok: bool)
      modifies this
      ensures ok <==> status == 206 && |body| >= size
      ensures files == if status != 206 then old(files)
                       else old(files)[path := if |body| >= size then body[..size] else body]
    {
      if status != PARTIAL_CONTENT {
        return false;
      }
      var n := if |body| < size then |body| else size;
      files := files[path := body[..n]];
      assert body[..|body|] == body;
      ok := n == size;
    }

    /**
     * mergeParts, with others free to write the final path before its first check, while it
     * copies, and between its second check and its rename, which replaces whatever is there.
     */
    method MergeParts(finalPath: string, session: string, cs: seq<ChunkState>, total: int, tmpPath: string,
        others: Others, f: MergeFaults)
      returns (r: Outcome)
      requires Numerable(cs) && tmpPath !in files && tmpPath != finalPath
      requires forall i :: 0 <= i < |cs| ==> PartPath(session, cs[i].index) !in {tmpPath, finalPath}
      modifies this
      ensures var parts := Joined(old(files), PartsOf(session, cs), |cs|);
        && r == OutcomeOf(old(files), finalPath, parts, total, others, f)
        && files == AfterMerge(old(files), finalPath, parts, total, others, f)
        && (r.Published? <==>
              && finalPath !in old(files) && others.early.None? && others.copying.None?
              && !f.create && !f.sync && !f.rename
              && parts.Some? && |parts.value| == total)
        && (r.Published? ==> files == old(files)[finalPath := parts.value])
        && (forall p :: p != finalPath ==>
              (p in files <==> p in old(files)) && (p in files ==> files[p] == old(files)[p]))
      ensures var parts := Joined(old(files), PartsOf(session, cs), |cs|);
        var free := finalPath !in old(files) && others.early.None?;
        var copied := free && !f.create && parts.Some? && !f.sync;
        && (r.FinalExists? <==> !free || (copied && |parts.value| == total && others.copying.Some?))
        && (r.PartUnusable? <==> free && !f.create && parts.None?)
        && (r.TotalMismatch? <==> copied && |parts.value| != total)
        && (finalPath in files && !r.Published? ==>
              files[finalPath] == (if finalPath in old(files) && others.early.None? then old(files)[finalPath]
                                   else if others.early.Some? then others.early.value
                                   else if others.copying.Some? then others.copying.value
                                   else if others.late.Some? then others.late.value else []))
        && (!free ==> finalPath in files)
    {
      hide PartPath, Joined;
      files := Put(files, finalPath, others.early);
      if finalPath in files {
        return FinalExists;
      }
      if f.create {
        return IoError;
      }
      ghost var before := Put(files, finalPath, others.copying);
      files := Put(files[tmpPath := []], finalPath, others.copying);
      SameParts(old(files), files, PartsOf(session, cs), |cs|);
      var merged := AppendParts(files, PartsOf(session, cs));
      if merged.None? || f.sync {
        files := files - {tmpPath};
        assert files == before;
        return if merged.None? then PartUnusable else IoError;
      }
      files := files[tmpPath := merged.value];
      r := PublishTmp(finalPath, total, tmpPath, others.late, f.rename, before);
    }

    /** The checks on the merged temporary, and its rename; it is removed when it is not published. */
    method PublishTmp(finalPath: string, total: int, tmpPath: string, late: Option<Bytes>, fails: bool,
        ghost before: Dir)
      returns (r: Outcome)
      requires tmpPath in files && tmpPath != finalPath && tmpPath !in before
      requires files == before[tmpPath := files[tmpPath]]
      modifies this
      ensures r == if |old(files)[tmpPath]| != total then TotalMismatch
                   else if finalPath in before then FinalExists
                   else if fails then IoError else Published
      ensures files == if r.Published? then before[finalPath := old(files)[tmpPath]]
                       else if r.IoError? then Put(before, finalPath, late) else before
    {
      if |files[tmpPath]| != total {
        files := files - {tmpPath};
        return TotalMismatch;
      }
      if finalPath in files {
        files := files - {tmpPath};
        return FinalExists;
      }
      files := Put(files, finalPath, late);
      if fails {
        files := files - {tmpPath};
        assert files == Put(before, finalPath, late);
        return IoError;
      }
      files := (files - {tmpPath})[finalPath := files[tmpPath]];
      r := Published;
    }

    /**
     * The parts of a download still to be done, fetched one after another: each response is for
     * a chunk not yet done, in any order and with any failures, and the parts that are there
     * at the start (start) stay. Against a server that honours ranges, the chunks done are
     * exactly those there at the start or with a usable response, and each part holds its range.
     */
    method FetchParts(session: string, cs: seq<ChunkState>, start: set<nat>, responses: seq<Response>,
        ghost resource: Bytes)
      returns (done: set<nat>)
      requires Numerable(cs) && IsPartition(Geometry(cs), |resource|) && AllHonest(cs, responses, resource)
      requires HoldsAll(files, session, cs, start, resource)
      modifies this
      ensures forall k: nat :: k in done <==> k in start || (k < |cs| && UsableFor(responses, |responses|, cs, k))
      ensures HoldsAll(files, session, cs, done, resource)
      ensures forall p :: Foreign(session, cs, p) ==>
        (p in files <==> p in old(files)) && (p in files ==> files[p] == old(files)[p])
    {
      done := start;
      var j := 0;
      while j < |responses|
        invariant j <= |responses|
        invariant forall k: nat :: k in done <==> k in start || (k < |cs| && UsableFor(responses, j, cs, k))
        invariant HoldsAll(files, session, cs, done, resource)
        invariant forall p :: Foreign(session, cs, p) ==>
          (p in files <==> p in old(files)) && (p in files ==> files[p] == old(files)[p])
      {
        var r := responses[j];
        assert Honest(cs, r, resource);
        UsableGrows(responses, j, cs);
        hide PartPath, HoldsRange, UsableFor, Honest;
        if r.k !in done {
          var ok := FetchPart(session, cs, r, done, resource);
          if ok {
            done := done + {r.k};
          }
        }
        j := j + 1;
      }
    }

    /** One response for a chunk not yet done leaves the parts that are done, and everything else, alone. */
    method FetchPart(session: string, cs: seq<ChunkState>, r: Response, ghost done: set<nat>, ghost resource: Bytes)
      returns (ok: bool)
      requires Numerable(cs) && IsPartition(Geometry(cs), |resource|) && Honest(cs, r, resource) && r.k !in done
      requires HoldsAll(files, session, cs, done, resource)
      modifies this
      ensures ok <==> Usable(cs, r)
      ensures ok ==> HoldsRange(files, PartPath(session, cs[r.k].index), cs[r.k], resource)
      ensures HoldsAll(files, session, cs, done, resource)
      ensures forall p :: p != PartPath(session, cs[r.k].index) ==>
        (p in files <==> p in old(files)) && (p in files ==> files[p] == old(files)[p])
    {
      OtherParts(session, cs, r.k, resource);
      hide PartPath;
      ok := StorePart(PartPath(session, cs[r.k].index), cs[r.k].size, r.status, r.body);
    }

    /**
     * A download run, with the parts found whole at its start: it publishes exactly when the
     * path stayed free up to the last check, every chunk was there or got a usable response,
     * and no operation on the merge's temporary fails; what it publishes is the resource.
     */
    method Download(finalPath: string, session: string, cs: seq<ChunkState>, start: set<nat>, responses: seq<Response>,
        tmpPath: string, others: Others, f: MergeFaults, ghost resource: Bytes)
      returns (published: bool)
      requires Numerable(cs) && IsPartition(Geometry(cs), |resource|) && AllHonest(cs, responses, resource)
      requires HoldsAll(files, session, cs, start, resource)
      requires tmpPath !in files && tmpPath != finalPath
      requires Foreign(session, cs, tmpPath) && Foreign(session, cs, finalPath)
      modifies this
      ensures published ==> finalPath in files && files[finalPath] == resource
      ensures published <==>
        && finalPath !in old(files) && others.early.None? && others.copying.None?
        && !f.create && !f.sync && !f.rename
        && forall k: nat :: k < |cs| ==> k in start || UsableFor(responses, |responses|, cs, k)
    {
      hide PartPath;
      var done := FetchParts(session, cs, start, responses, resource);
      if exists k: nat :: k < |cs| && k !in done {
        return false;
      }
      RangesMakeResource(files, session, cs, resource);
      var r := MergeParts(finalPath, session, cs, TotalOf(cs), tmpPath, others, f);
      published := r.Published?;
    }
  }

  lemma {:induction false} SameParts(files: Dir, files': Dir, parts: seq<Part>, k: nat)
    requires k <= |parts|
    requires forall j :: 0 <= j < k ==>
      (parts[j].path in files <==> parts[j].path in files')
      && (parts[j].path in files ==> files[parts[j].path] == files'[parts[j].path])
    ensures Joined(files, parts, k) == Joined(files', parts, k)
  {
    if k > 0 {
      SameParts(files, files', parts, k - 1);
    }
  }
}
