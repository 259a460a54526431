/** Appending part files one after another, each checked against its recorded size. */
module PartMerge {
  import opened Plan
  import opened SessionFiles

  datatype Part = Part(path: string, size: int)

  predicate Fits(dir: Dir, part: Part) { part.path in dir && |dir[part.path]| == part.size }

  /** What appending the first j parts gives, or None when one is missing or of the wrong size. */
  function Joined(dir: Dir, parts: seq<Part>, j: nat): Option<Bytes>
    requires j <= |parts|
  {
    if j == 0 then Some([])
    else
      var front := Joined(dir, parts, j - 1);
      if front.Some? && Fits(dir, parts[j - 1]) then Some(front.value + dir[parts[j - 1].path]) else None
  }

  /** Once a part does not fit, the merge has failed. */
  lemma {:induction false} JoinedStops(dir: Dir, parts: seq<Part>, j: nat, k: nat)
    requires j <= k <= |parts| && Joined(dir, parts, j).None?
    ensures Joined(dir, parts, k).None?
  {
    if j < k {
      JoinedStops(dir, parts, j, k - 1);
    }
  }

  /** The copy loop of both merges. */
  method AppendParts(dir: Dir, parts: seq<Part>) returns (out: Option<Bytes>)
    ensures out == Joined(dir, parts, |parts|)
    ensures out.Some? <==>
      forall j :: 0 <= j < |parts| ==> parts[j].path in dir && |dir[parts[j].path]| == parts[j].size
  {
    var data: Bytes := [];
    var j := 0;
    while j < |parts|
      invariant j <= |parts| && Joined(dir, parts, j) == Some(data)
      invariant forall k :: 0 <= k < j ==> Fits(dir, parts[k])
    {
      var part := parts[j];
      if part.path !in dir || |dir[part.path]| != part.size {
        JoinedStops(dir, parts, j + 1, |parts|);
        return None;
      }
      data := data + dir[part.path];
      j := j + 1;
    }
    out := Some(data);
  }
}
