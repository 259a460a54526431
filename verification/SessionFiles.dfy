/**
 * The receiver's session directory: which names its files have, what the cleanup glob
 * matches, and what a merge of the recorded chunks yields.
 */
module SessionFiles {
  import opened Plan
  import opened Decimal

  /** A directory: file name to content. The manifest file is kept apart. */
  type Dir = map<string, Bytes>

  datatype Option<T> = None | Some(value: T)

  /**
   * What the cleanup's glob does in a session directory, which depends on the directory's
   * own path: read as a pattern it matches itself, or something else, or is malformed.
   */
  datatype Reach = Finds | FindsNothing | BadPattern

  /** One transfer: the sent file's base name, its content, the plan that cuts it, and the reach of its cleanup. */
  datatype Transfer = Transfer(name: string, source: Bytes, plan: seq<Extent>, glob: Reach)

  /** The source is nonempty and the plan is an exact cut of it. */
  ghost predicate Valid(t: Transfer) {
    t.source != [] && IsPartition(t.plan, |t.source|)
  }

  function ChunkPath(name: string, i: nat): string { name + ".chunk" + Padded6(i + 1) }

  function TmpPath(name: string): string { name + ".tmp" }

  predicate OccursAt(s: string, sub: string, i: nat) {
    i + |sub| <= |s| && s[i..i + |sub|] == sub
  }

  predicate Contains(s: string, sub: string) {
    exists i :: 0 <= i <= |s| && OccursAt(s, sub, i)
  }

  predicate HasSuffix(s: string, suffix: string) {
    |suffix| <= |s| && s[|s| - |suffix|..] == suffix
  }

  /** What cleanup removes: everything the glob *.chunk* matches, except temporaries. */
  predicate Swept(path: string) { Contains(path, ".chunk") && !HasSuffix(path, ".tmp") }

  /** The name of the sent file is one the cleanup leaves alone. */
  predicate SafeName(name: string) { !Swept(name) }

  /** The cleanup of this transfer's session leaves the final file alone. */
  predicate Safe(t: Transfer) { t.glob.Finds? ==> SafeName(t.name) }

  /** A directory after every file the sweep takes is gone. */
  function AfterSweep(dir: Dir): (swept: Dir)
    ensures forall p :: p in swept <==> p in dir && !Swept(p)
    ensures forall p :: p in swept ==> swept[p] == dir[p]
  {
    map p | p in dir && !Swept(p) :: dir[p]
  }

  /**
   * The sweep in terms of the name alone: it takes the names with ".chunk" somewhere in them,
   * save those that end in ".tmp".
   */
  lemma {:induction false} SweptByName(path: string)
    ensures Swept(path) <==>
      (exists a: string, b: string :: path == a + ".chunk" + b) && !(exists a: string :: path == a + ".tmp")
  {
    if Contains(path, ".chunk") {
      var i :| 0 <= i <= |path| && OccursAt(path, ".chunk", i);
      assert path == path[..i] + ".chunk" + path[i + 6..];
    }
    if a: string, b: string :| path == a + ".chunk" + b {
      assert path[|a|..|a| + 6] == ".chunk";
      assert OccursAt(path, ".chunk", |a|);
    }
    if HasSuffix(path, ".tmp") {
      assert path == path[..|path| - 4] + ".tmp";
    }
    if a: string :| path == a + ".tmp" {
      assert path[|path| - 4..] == ".tmp";
    }
  }

  lemma {:induction false} ChunkPathInjective(name: string, i: nat, j: nat)
    requires ChunkPath(name, i) == ChunkPath(name, j)
    ensures i == j
  {
    var n := |name + ".chunk"|;
    assert ChunkPath(name, i)[n..] == Padded6(i + 1);
    assert ChunkPath(name, j)[n..] == Padded6(j + 1);
    Padded6Injective(i + 1, j + 1);
  }

  /** The file of a chunk is the name, ".chunk", and the chunk's number from one, in at least six digits. */
  lemma {:induction false} ChunkPathReads(name: string, i: nat)
    ensures exists digits: string ::
      && ChunkPath(name, i) == name + ".chunk" + digits
      && |digits| >= 6 && AllDigits(digits) && NatValue(digits) == i + 1
  {
    Padded6Value(i + 1);
    assert ChunkPath(name, i) == name + ".chunk" + Padded6(i + 1);
  }

  lemma {:induction false} ChunkPathSwept(name: string, i: nat)
    ensures Swept(ChunkPath(name, i))
  {
    var p, digits := ChunkPath(name, i), Padded6(i + 1);
    Padded6Value(i + 1);
    assert p == name + ".chunk" + digits;
    assert OccursAt(p, ".chunk", |name|);
    EndsInDigit(p, digits, name + ".chunk");
  }

  lemma {:induction false} EndsInDigit(p: string, digits: string, front: string)
    requires p == front + digits && digits != [] && AllDigits(digits)
    ensures !HasSuffix(p, ".tmp")
  {
    assert p[|p| - 1] == digits[|digits| - 1];
    assert |p| >= 4 ==> p[|p| - 4..][3] == p[|p| - 1];
  }

  /** Chunk files, the final file and its temporary never share a name; the sweep takes exactly the chunk files. */
  lemma {:induction false} PathsApart(name: string, i: nat)
    ensures ChunkPath(name, i) != name && ChunkPath(name, i) != TmpPath(name) && name != TmpPath(name)
    ensures Swept(ChunkPath(name, i)) && !Swept(TmpPath(name))
  {
    ChunkPathSwept(name, i);
    TmpNotSwept(name);
    assert |ChunkPath(name, i)| > |name| && |TmpPath(name)| > |name|;
  }

  lemma {:induction false} TmpNotSwept(name: string)
    ensures !Swept(TmpPath(name))
  {
    var p := TmpPath(name);
    assert p[|p| - |".tmp"|..] == ".tmp";
  }

  /** The bytes of the source that chunk i stands for. */
  ghost function Slice(t: Transfer, i: nat): (s: Bytes)
    requires Valid(t) && i < |t.plan|
    ensures |s| == t.plan[i].size
  {
    EndsIncrease(t.plan, |t.source|, i, i + 1);
    t.source[t.plan[i].offset..t.plan[i].offset + t.plan[i].size]
  }

  /** receiverChunkMatches with a digest: right length and right content. */
  ghost predicate ChunkMatches(t: Transfer, dir: Dir, i: nat)
    requires Valid(t) && i < |t.plan|
  {
    var p := ChunkPath(t.name, i);
    p in dir && |dir[p]| == t.plan[i].size && dir[p] == Slice(t, i)
  }

  /** What merging the recorded chunks among the first k yields, or None when it fails. */
  function Merged(name: string, plan: seq<Extent>, dir: Dir, saved: set<nat>, k: nat): Option<Bytes>
    requires k <= |plan|
  {
    if k == 0 then Some([])
    else
      var front := Merged(name, plan, dir, saved, k - 1);
      var p := ChunkPath(name, k - 1);
      if front.None? || k - 1 !in saved then front
      else if p in dir && |dir[p]| == plan[k - 1].size then Some(front.value + dir[p])
      else None
  }

  /** Whatever chunk files are present hold the right bytes. */
  ghost predicate ChunksRight(t: Transfer, dir: Dir)
    requires Valid(t)
  {
    forall i: nat {:trigger ChunkPath(t.name, i)} :: i < |t.plan| && ChunkPath(t.name, i) in dir ==>
      dir[ChunkPath(t.name, i)] == Slice(t, i)
  }

  /**
   * The size check is a sound and complete test of completeness: merging the recorded
   * chunks gives a file of the full length exactly when every chunk of the plan is
   * recorded, and then the file is the source.
   */
  lemma {:induction false} MergedPrefix(t: Transfer, dir: Dir, saved: set<nat>, k: nat)
    requires Valid(t) && ChunksRight(t, dir) && k <= |t.plan|
    ensures var m := Merged(t.name, t.plan, dir, saved, k);
      m.Some? ==>
        && |m.value| <= EndOf(t.plan, k) <= |t.source|
        && (|m.value| == EndOf(t.plan, k) <==> forall i: nat :: i < k ==> i in saved)
        && (|m.value| == EndOf(t.plan, k) ==> m.value == t.source[..EndOf(t.plan, k)])
  {
    EndsIncrease(t.plan, |t.source|, k, |t.plan|);
    if k > 0 {
      MergedPrefix(t, dir, saved, k - 1);
      EndsIncrease(t.plan, |t.source|, k - 1, k);
      SliceExtends(t, k - 1);
      var m := Merged(t.name, t.plan, dir, saved, k);
      if m.Some? && k - 1 in saved {
        assert dir[ChunkPath(t.name, k - 1)] == Slice(t, k - 1);
      }
    }
  }

  lemma {:induction false} SliceExtends(t: Transfer, i: nat)
    requires Valid(t) && i < |t.plan|
    ensures 0 <= EndOf(t.plan, i) && EndOf(t.plan, i) + t.plan[i].size == EndOf(t.plan, i + 1) <= |t.source|
    ensures t.source[..EndOf(t.plan, i + 1)] == t.source[..EndOf(t.plan, i)] + Slice(t, i)
  {
    EndsIncrease(t.plan, |t.source|, i, i + 1);
    assert t.plan[i].offset == EndOf(t.plan, i);
  }

  lemma {:induction false} SizeCheckIsComplete(t: Transfer, dir: Dir, saved: set<nat>)
    requires Valid(t) && ChunksRight(t, dir)
    ensures var m := Merged(t.name, t.plan, dir, saved, |t.plan|);
      m.Some? ==>
        && (|m.value| == |t.source| <==> forall i: nat :: i < |t.plan| ==> i in saved)
        && (|m.value| == |t.source| ==> m.value == t.source)
  {
    MergedPrefix(t, dir, saved, |t.plan|);
    assert t.source[..|t.source|] == t.source;
  }

  /** A merge whose recorded chunks are all present does not fail. */
  lemma {:induction false} MergedSucceeds(t: Transfer, dir: Dir, saved: set<nat>, k: nat)
    requires Valid(t) && ChunksRight(t, dir) && k <= |t.plan|
    requires forall i: nat :: i < k && i in saved ==> ChunkPath(t.name, i) in dir
    ensures Merged(t.name, t.plan, dir, saved, k).Some?
  {
    if k > 0 {
      MergedSucceeds(t, dir, saved, k - 1);
      if k - 1 in saved {
        assert dir[ChunkPath(t.name, k - 1)] == Slice(t, k - 1);
      }
    }
  }

  /** A merge fails exactly on a recorded chunk whose file is missing or not of the chunk's size. */
  lemma {:induction false} MergedExactly(name: string, plan: seq<Extent>, dir: Dir, saved: set<nat>, k: nat)
    requires k <= |plan|
    ensures Merged(name, plan, dir, saved, k).Some? <==>
      forall i: nat {:trigger ChunkPath(name, i)} :: i < k && i in saved ==>
        ChunkPath(name, i) in dir && |dir[ChunkPath(name, i)]| == plan[i].size
  {
    hide ChunkPath;
    if k > 0 {
      MergedExactly(name, plan, dir, saved, k - 1);
    }
  }

  /** A proper subset of the plan is always caught by the size test. */
  lemma {:induction false} ProperSubsetFails(t: Transfer, dir: Dir, saved: set<nat>, missing: nat)
    requires Valid(t) && ChunksRight(t, dir)
    requires missing < |t.plan| && missing !in saved
    ensures var m := Merged(t.name, t.plan, dir, saved, |t.plan|);
      m.None? || |m.value| < |t.source|
  {
    MergedPrefix(t, dir, saved, |t.plan|);
  }
}
