/** Forgetting all but the newest finished jobs, as the send and the download histories both do. */
module Pruning {

  datatype Entry = Entry(id: string, startedAt: int)

  ghost predicate DistinctIds(es: seq<Entry>) { forall j, k :: 0 <= j < k < |es| ==> es[j].id != es[k].id }

  ghost predicate NewestFirst(es: seq<Entry>) {
    forall j, k :: 0 <= j < k < |es| ==> es[j].startedAt >= es[k].startedAt
  }

  function InsertNewest(e: Entry, es: seq<Entry>): seq<Entry> {
    if es == [] || e.startedAt >= es[0].startedAt then [e] + es else [es[0]] + InsertNewest(e, es[1..])
  }

  /** sort.Slice by start time, newest first. */
  function SortNewest(es: seq<Entry>): seq<Entry> {
    if es == [] then [] else InsertNewest(es[0], SortNewest(es[1..]))
  }

  lemma {:induction false} InsertMembers(e: Entry, es: seq<Entry>, x: Entry)
    ensures x in InsertNewest(e, es) <==> x == e || x in es
    ensures |InsertNewest(e, es)| == |es| + 1
  {
    if !(es == [] || e.startedAt >= es[0].startedAt) {
      InsertMembers(e, es[1..], x);
      assert es == [es[0]] + es[1..];
    }
  }

  lemma {:induction false} InsertOrders(e: Entry, es: seq<Entry>)
    requires NewestFirst(es) && DistinctIds(es) && forall k :: 0 <= k < |es| ==> es[k].id != e.id
    ensures NewestFirst(InsertNewest(e, es)) && DistinctIds(InsertNewest(e, es))
  {
    if !(es == [] || e.startedAt >= es[0].startedAt) {
      var tail := InsertNewest(e, es[1..]);
      InsertOrders(e, es[1..]);
      forall k | 0 <= k < |tail|
        ensures es[0].startedAt >= tail[k].startedAt && es[0].id != tail[k].id
      {
        InsertMembers(e, es[1..], tail[k]);
      }
    }
  }

  lemma {:induction false} SortMembers(es: seq<Entry>, x: Entry)
    ensures x in SortNewest(es) <==> x in es
    ensures |SortNewest(es)| == |es|
  {
    if es != [] {
      SortMembers(es[1..], x);
      InsertMembers(es[0], SortNewest(es[1..]), x);
      assert es == [es[0]] + es[1..];
    }
  }

  lemma {:induction false} SortOrders(es: seq<Entry>)
    requires DistinctIds(es)
    ensures NewestFirst(SortNewest(es)) && DistinctIds(SortNewest(es))
  {
    if es != [] {
      var tail := SortNewest(es[1..]);
      SortOrders(es[1..]);
      forall k | 0 <= k < |tail|
        ensures tail[k].id != es[0].id
      {
        SortMembers(es[1..], tail[k]);
      }
      InsertOrders(es[0], tail);
    }
  }

  /** Some entry from lo up to hi has this id. */
  ghost predicate Within(es: seq<Entry>, lo: nat, hi: nat, id: string)
    requires lo <= hi <= |es|
  {
    exists k :: lo <= k < hi && es[k].id == id
  }

  /** A set listed once each by the first n entries has n members. */
  lemma {:induction false} CountListed(es: seq<Entry>, n: nat, ids: set<string>)
    requires DistinctIds(es) && n <= |es|
    requires forall id: string :: id in ids <==> Within(es, 0, n, id)
    ensures |ids| == n
  {
    if n == 0 {
      assert ids == {};
    } else {
      var last := es[n - 1].id;
      assert Within(es, 0, n, last);
      forall id: string
        ensures id in ids - {last} <==> Within(es, 0, n - 1, id)
      {
        if Within(es, 0, n - 1, id) {
          var k :| 0 <= k < n - 1 && es[k].id == id;
          assert Within(es, 0, n, id);
        }
      }
      CountListed(es, n - 1, ids - {last});
    }
  }

  ghost function Finished<J(!new)>(jobs: map<string, J>, terminal: J -> bool): set<string> {
    set id | id in jobs && terminal(jobs[id])
  }

  /**
   * kept is jobs with all but the limit newest finished jobs forgotten: unfinished jobs all
   * stay, and no forgotten job started after a finished one that is kept.
   */
  ghost predicate IsPruned<J(!new)>(
    jobs: map<string, J>, kept: map<string, J>, terminal: J -> bool, startedAt: J -> int, limit: nat)
  {
    && (forall id :: id in kept ==> id in jobs && kept[id] == jobs[id])
    && (forall id :: id in jobs && !terminal(jobs[id]) ==> id in kept)
    && (if |Finished(jobs, terminal)| <= limit then kept == jobs else |Finished(kept, terminal)| == limit)
    && (forall id, other :: id in jobs && id !in kept && other in kept && terminal(kept[other]) ==>
          startedAt(jobs[id]) <= startedAt(kept[other]))
  }

  lemma {:induction false} OldestExists<J(!new)>(jobs: map<string, J>, startedAt: J -> int, ids: set<string>)
    returns (oldest: string)
    requires ids != {} && ids <= jobs.Keys
    ensures oldest in ids && forall id :: id in ids ==> startedAt(jobs[oldest]) <= startedAt(jobs[id])
    decreases |ids|
  {
    oldest :| oldest in ids;
    var rest := ids - {oldest};
    if rest != {} {
      var other := OldestExists(jobs, startedAt, rest);
      if startedAt(jobs[other]) < startedAt(jobs[oldest]) {
        oldest := other;
      }
    }
  }

  /** Every table can be pruned. */
  lemma {:induction false} PrunedExists<J(!new)>(jobs: map<string, J>, terminal: J -> bool, startedAt: J -> int,
      limit: nat) returns (kept: map<string, J>)
    ensures IsPruned(jobs, kept, terminal, startedAt, limit)
    decreases |Finished(jobs, terminal)|
  {
    var finished := Finished(jobs, terminal);
    if |finished| <= limit {
      kept := jobs;
    } else {
      assert finished != {};
      var oldest := OldestExists(jobs, startedAt, finished);
      assert Finished(jobs - {oldest}, terminal) == finished - {oldest};
      kept := PrunedExists(jobs - {oldest}, terminal, startedAt, limit);
    }
  }

  /** es lists the finished jobs, each once, with its start time. */
  ghost predicate Lists<J(!new)>(es: seq<Entry>, jobs: map<string, J>, terminal: J -> bool, startedAt: J -> int) {
    && DistinctIds(es)
    && (forall id: string :: id in jobs && terminal(jobs[id]) <==> Within(es, 0, |es|, id))
    && (forall k :: 0 <= k < |es| ==> es[k].id in jobs && es[k].startedAt == startedAt(jobs[es[k].id]))
  }

  lemma {:induction false} WithinGrows(es: seq<Entry>, e: Entry, id: string)
    ensures Within(es + [e], 0, |es| + 1, id) <==> Within(es, 0, |es|, id) || id == e.id
  {
    if Within(es, 0, |es|, id) {
      var k :| 0 <= k < |es| && es[k].id == id;
      assert (es + [e])[k].id == id;
    }
    assert (es + [e])[|es|] == e;
  }

  /** The finished jobs, in whatever order the map gives them. */
  method Collect<J(!new)>(jobs: map<string, J>, terminal: J -> bool, startedAt: J -> int) returns (es: seq<Entry>)
    ensures Lists(es, jobs, terminal, startedAt)
  {
    es := [];
    var rest := jobs.Keys;
    while rest != {}
      invariant rest <= jobs.Keys && DistinctIds(es)
      invariant forall id: string :: id in jobs && id !in rest && terminal(jobs[id]) <==> Within(es, 0, |es|, id)
      invariant forall k :: 0 <= k < |es| ==>
        es[k].id in jobs && es[k].id !in rest && es[k].startedAt == startedAt(jobs[es[k].id])
      decreases rest
    {
      var id :| id in rest;
      rest := rest - {id};
      if terminal(jobs[id]) {
        var e := Entry(id, startedAt(jobs[id]));
        forall other: string
          ensures Within(es + [e], 0, |es| + 1, other) <==> Within(es, 0, |es|, other) || other == id
        {
          WithinGrows(es, e, other);
        }
        es := es + [e];
      }
    }
  }

  lemma {:induction false} SortLists<J(!new)>(es: seq<Entry>, jobs: map<string, J>, terminal: J -> bool,
      startedAt: J -> int)
    requires Lists(es, jobs, terminal, startedAt)
    ensures Lists(SortNewest(es), jobs, terminal, startedAt) && NewestFirst(SortNewest(es)) && |SortNewest(es)| == |es|
  {
    var sorted := SortNewest(es);
    SortOrders(es);
    SortMembers(es, Entry("", 0));
    forall id: string
      ensures id in jobs && terminal(jobs[id]) <==> Within(sorted, 0, |sorted|, id)
    {
      SameWithin(es, id);
    }
    forall k | 0 <= k < |sorted|
      ensures sorted[k].id in jobs && sorted[k].startedAt == startedAt(jobs[sorted[k].id])
    {
      SortMembers(es, sorted[k]);
    }
  }

  lemma {:induction false} SameWithin(es: seq<Entry>, id: string)
    ensures var sorted := SortNewest(es); Within(es, 0, |es|, id) <==> Within(sorted, 0, |sorted|, id)
  {
    var sorted := SortNewest(es);
    if Within(es, 0, |es|, id) {
      var k :| 0 <= k < |es| && es[k].id == id;
      SortMembers(es, es[k]);
      assert es[k] in sorted;
    }
    if Within(sorted, 0, |sorted|, id) {
      var k :| 0 <= k < |sorted| && sorted[k].id == id;
      SortMembers(es, sorted[k]);
      assert sorted[k] in es;
    }
  }

  method Prune<J(!new)>(jobs: map<string, J>, terminal: J -> bool, startedAt: J -> int, limit: nat)
    returns (kept: map<string, J>)
    ensures IsPruned(jobs, kept, terminal, startedAt, limit)
  {
    var es := Collect(jobs, terminal, startedAt);
    CountListed(es, |es|, Finished(jobs, terminal));
    if |es| <= limit {
      return jobs;
    }
    var sorted := SortNewest(es);
    SortLists(es, jobs, terminal, startedAt);
    kept := jobs;
    var k := limit;
    while k < |sorted|
      invariant limit <= k <= |sorted|
      invariant forall id: string :: id in kept <==> id in jobs && !Within(sorted, limit, k, id)
      invariant forall id :: id in kept ==> kept[id] == jobs[id]
    {
      kept := kept - {sorted[k].id};
      k := k + 1;
    }
    KeptIsPruned(jobs, kept, terminal, startedAt, limit, sorted);
  }

  /** Dropping everything from position limit on of the sorted list is the pruning asked for. */
  lemma {:induction false} KeptIsPruned<J(!new)>(
    jobs: map<string, J>, kept: map<string, J>, terminal: J -> bool, startedAt: J -> int, limit: nat,
      sorted: seq<Entry>)
    requires Lists(sorted, jobs, terminal, startedAt) && NewestFirst(sorted)
    requires limit < |sorted| == |Finished(jobs, terminal)|
    requires forall id: string :: id in kept <==> id in jobs && !Within(sorted, limit, |sorted|, id)
    requires forall id :: id in kept ==> kept[id] == jobs[id]
    ensures IsPruned(jobs, kept, terminal, startedAt, limit)
  {
    forall id: string
      ensures id in Finished(kept, terminal) <==> Within(sorted, 0, limit, id)
    {
      FinishedIsFront(jobs, kept, terminal, startedAt, limit, sorted, id);
    }
    CountListed(sorted, limit, Finished(kept, terminal));
    forall id | id in jobs && id !in kept
      ensures terminal(jobs[id])
    {
      var k :| limit <= k < |sorted| && sorted[k].id == id;
      assert Within(sorted, 0, |sorted|, id);
    }
    forall id, other | id in jobs && id !in kept && other in kept && terminal(kept[other])
      ensures startedAt(jobs[id]) <= startedAt(kept[other])
    {
      var d :| limit <= d < |sorted| && sorted[d].id == id;
      assert other in Finished(kept, terminal);
      var k :| 0 <= k < limit && sorted[k].id == other;
      assert sorted[k].startedAt >= sorted[d].startedAt;
    }
  }

  lemma {:induction false} FinishedIsFront<J(!new)>(
    jobs: map<string, J>, kept: map<string, J>, terminal: J -> bool, startedAt: J -> int, limit: nat,
      sorted: seq<Entry>, id: string)
    requires Lists(sorted, jobs, terminal, startedAt) && limit < |sorted|
    requires forall id: string :: id in kept <==> id in jobs && !Within(sorted, limit, |sorted|, id)
    requires forall id :: id in kept ==> kept[id] == jobs[id]
    ensures id in Finished(kept, terminal) <==> Within(sorted, 0, limit, id)
  {
    if id in Finished(kept, terminal) {
      assert Within(sorted, 0, |sorted|, id);
      var k :| 0 <= k < |sorted| && sorted[k].id == id;
      assert k < limit;
    }
    if Within(sorted, 0, limit, id) {
      var k :| 0 <= k < limit && sorted[k].id == id;
      assert Within(sorted, 0, |sorted|, id);
    }
  }
}
