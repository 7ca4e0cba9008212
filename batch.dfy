/**
 * Planning and collating one batch of minutely diffs, shared by
 * src/commands/feed/feed.ts and src/main.ts: which sequence numbers a round
 * fetches (`processingLoop`, `processFromTo`) and the order in which the
 * changesets they yield are sent (`flatMap`/`reduce` followed by
 * `sort(sortById)`).
 */
module Batch {
  import opened Wrappers
  import opened Types
  import opened Helpers

  /** The most sequences fetched per round (`requestCount`). */
  const RequestCount: nat := 5

  /**
   * One turn of `processingLoop`: nothing to do when `last` has caught up with
   * `latest`, otherwise the inclusive range `(start, end)` of at most
   * `RequestCount` sequences following `last`.
   */
  function PlanBatch(last: nat, latest: nat): (r: Option<(nat, nat)>)
    ensures r.None? <==> latest <= last
    ensures r.Some? ==> r.value.0 == last + 1 && r.value.0 <= r.value.1 <= latest
    ensures r.Some? ==> r.value.1 - r.value.0 + 1 <= RequestCount
    ensures r.Some? ==> r.value.1 == latest || r.value.1 - r.value.0 + 1 == RequestCount
  {
    if last < latest then
      var clampedDiff := if latest - last < RequestCount then latest - last else RequestCount;
      Some((last + 1, last + clampedDiff))
    else None
  }

  /** `processFromTo(start, end)`: the sequence numbers fetched, in the order their results are listed. */
  function SequencesFromTo(start: nat, end: nat): (r: seq<int>)
    ensures start <= end ==> |r| == end - start + 1
    ensures start > end ==> r == []
    ensures forall i :: 0 <= i < |r| ==> r[i] == start + i
    ensures forall x :: x in r <==> start <= x <= end
  {
    if start <= end then
      RangeMembers(start, end - start + 1);
      Range(start, end - start + 1)
    else []
  }

  lemma RangeMembers(start: int, size: nat)
    ensures forall x :: x in Range(start, size) <==> start <= x < start + size
  {
    var r := Range(start, size);
    forall x | start <= x < start + size
      ensures x in r
    {
      assert r[x - start] == x;
    }
  }

  /** Changesets in non-decreasing numeric id order: what `sortById` asks of the sort. */
  predicate SortedById(s: seq<ChangesetDetails>) {
    forall i, j :: 0 <= i < j < |s| ==> s[i].id <= s[j].id
  }

  /** Place `x` before the first element whose id is not smaller, as a stable sort does for an earlier element. */
  function Insert(x: ChangesetDetails, s: seq<ChangesetDetails>): (r: seq<ChangesetDetails>)
    ensures multiset(r) == multiset(s) + multiset{x}
    decreases |s|
  {
    if |s| == 0 || x.id <= s[0].id then [x] + s
    else
      assert s == [s[0]] + s[1..];
      [s[0]] + Insert(x, s[1..])
  }

  /** Inserting into a sorted list keeps it sorted. */
  lemma {:induction false} InsertSorted(x: ChangesetDetails, s: seq<ChangesetDetails>)
    requires SortedById(s)
    ensures SortedById(Insert(x, s))
    decreases |s|
  {
    if |s| > 0 && x.id > s[0].id {
      var rest := Insert(x, s[1..]);
      InsertSorted(x, s[1..]);
      assert rest[0] == x || rest[0] == s[1];
      var r := [s[0]] + rest;
      forall i, j | 0 <= i < j < |r|
        ensures r[i].id <= r[j].id
      {
        assert r[j] == rest[j - 1];
        if i > 0 {
          assert r[i] == rest[i - 1];
        } else {
          assert rest[0].id <= rest[j - 1].id;
        }
      }
    }
  }

  /** `Array.prototype.sort(sortById)`: a stable sort by ascending numeric id. */
  function SortById(s: seq<ChangesetDetails>): (r: seq<ChangesetDetails>)
    ensures SortedById(r)
    ensures multiset(r) == multiset(s)
    decreases |s|
  {
    if |s| == 0 then []
    else
      assert s == [s[0]] + s[1..];
      InsertSorted(s[0], SortById(s[1..]));
      Insert(s[0], SortById(s[1..]))
  }

  /** The changesets of a list carrying id `k`, in list order. */
  function WithId(s: seq<ChangesetDetails>, k: nat): seq<ChangesetDetails> {
    if |s| == 0 then []
    else (if s[0].id == k then [s[0]] else []) + WithId(s[1..], k)
  }

  lemma {:induction false} InsertStable(x: ChangesetDetails, s: seq<ChangesetDetails>, k: nat)
    ensures WithId(Insert(x, s), k) == WithId([x] + s, k)
    decreases |s|
  {
    if |s| > 0 && x.id > s[0].id {
      InsertStable(x, s[1..], k);
      assert ([s[0]] + Insert(x, s[1..]))[1..] == Insert(x, s[1..]);
      assert ([x] + s[1..])[1..] == s[1..];
      assert ([x] + s)[1..] == s;
    }
  }

  /** Changesets with equal ids keep their relative order: the sort is stable. */
  lemma {:induction false} SortByIdStable(s: seq<ChangesetDetails>, k: nat)
    ensures WithId(SortById(s), k) == WithId(s, k)
    decreases |s|
  {
    if |s| > 0 {
      SortByIdStable(s[1..], k);
      InsertStable(s[0], SortById(s[1..]), k);
      assert ([s[0]] + SortById(s[1..]))[1..] == SortById(s[1..]);
    }
  }

  /** The batch's changesets in the order they are sent: per-sequence results concatenated, then sorted. */
  function Collate(results: seq<seq<ChangesetDetails>>): (r: seq<ChangesetDetails>)
    ensures SortedById(r)
    ensures multiset(r) == multiset(Concat(results))
  {
    SortById(Concat(results))
  }

  lemma {:induction false} ConcatMembers(results: seq<seq<ChangesetDetails>>, c: ChangesetDetails)
    ensures c in Concat(results) <==> exists i :: 0 <= i < |results| && c in results[i]
    decreases |results|
  {
    if |results| > 0 {
      var init := results[..|results| - 1];
      ConcatMembers(init, c);
      if c in Concat(init) {
        var i :| 0 <= i < |init| && c in init[i];
        assert results[i] == init[i];
      }
      if exists i :: 0 <= i < |results| && c in results[i] {
        var i :| 0 <= i < |results| && c in results[i];
        if i < |init| {
          assert init[i] == results[i];
        }
      }
    }
  }

  /**
   * There is no deduplication across sequences: a changeset reported by two
   * different sequences of the batch is sent twice.
   */
  lemma {:induction false} CollateKeepsRepeats(results: seq<seq<ChangesetDetails>>, c: ChangesetDetails, i: nat, j: nat)
    requires i < j < |results|
    requires c in results[i] && c in results[j]
    ensures multiset(Collate(results))[c] >= 2
    decreases |results|
  {
    var init := results[..|results| - 1];
    var last := results[|results| - 1];
    assert Concat(results) == Concat(init) + last;
    if j == |results| - 1 {
      ConcatMembers(init, c);
      assert init[i] == results[i];
      assert multiset(Concat(init))[c] >= 1;
      assert multiset(last)[c] >= 1;
    } else {
      assert init[i] == results[i] && init[j] == results[j];
      CollateKeepsRepeats(init, c, i, j);
    }
  }
}
