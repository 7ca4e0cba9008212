/**
 * `mergeLoops` of src/commands/bounds/merge_loops.ts: chain the outer ways of
 * a boundary relation into closed loops by matching endpoints. A way whose
 * last point continues the chain is reversed in place. The successor search
 * ignores the ways already used, so the inner `while (1)` need not end; each
 * chain is given `fuel` successor steps and the result says whether every
 * chain closed within them.
 */
module MergeLoops {
  import opened Wrappers
  import opened PointInside

  function Last(g: seq<Point>): Point
    requires |g| > 0
  {
    g[|g| - 1]
  }

  /** `Array.prototype.reverse`. */
  function Reverse(g: seq<Point>): (r: seq<Point>)
    ensures |r| == |g|
    ensures forall i :: 0 <= i < |g| ==> r[i] == g[|g| - 1 - i]
    decreases |g|
  {
    if |g| == 0 then [] else [g[|g| - 1]] + Reverse(g[..|g| - 1])
  }

  lemma ReverseReverse(g: seq<Point>)
    ensures Reverse(Reverse(g)) == g
  {
    assert forall i :: 0 <= i < |g| ==> Reverse(Reverse(g))[i] == g[i];
  }

  /** Every way has a point: the search reads the first and last point of each. */
  predicate NonEmptyWays(ways: seq<seq<Point>>) {
    forall k :: 0 <= k < |ways| ==> |ways[k]| > 0
  }

  function Endpoint(g: seq<Point>, atEnd: bool): Point
    requires |g| > 0
  {
    if atEnd then Last(g) else g[0]
  }

  /** `members.findIndex`, from index `k` on, for a way other than `cur` whose first (or last) point is `end`. */
  function FindIndex(ways: seq<seq<Point>>, cur: nat, end: Point, atEnd: bool, k: nat): (r: Option<nat>)
    requires NonEmptyWays(ways)
    ensures r.Some? ==> k <= r.value < |ways| && r.value != cur
    decreases |ways| - k
  {
    if k >= |ways| then None
    else if k != cur && Endpoint(ways[k], atEnd) == end then Some(k)
    else FindIndex(ways, cur, end, atEnd, k + 1)
  }

  /** The index found is the first one from `k` on, other than `cur`, whose endpoint is `end`; none when there is no such index. */
  lemma {:induction false} FindIndexIsFirst(ways: seq<seq<Point>>, cur: nat, end: Point, atEnd: bool, k: nat)
    requires NonEmptyWays(ways)
    ensures var r := FindIndex(ways, cur, end, atEnd, k);
      r.Some? ==> Endpoint(ways[r.value], atEnd) == end
    ensures var r := FindIndex(ways, cur, end, atEnd, k);
      r.Some? ==> forall j :: k <= j < r.value && j != cur ==> Endpoint(ways[j], atEnd) != end
    ensures var r := FindIndex(ways, cur, end, atEnd, k);
      r.None? ==> forall j :: k <= j < |ways| && j != cur ==> Endpoint(ways[j], atEnd) != end
    decreases |ways| - k
  {
    if k < |ways| && !(k != cur && Endpoint(ways[k], atEnd) == end) {
      FindIndexIsFirst(ways, cur, end, atEnd, k + 1);
    }
  }

  /** The way that continues the chain after `cur`, and whether it is appended reversed. */
  function Successor(ways: seq<seq<Point>>, cur: nat): (r: Option<(nat, bool)>)
    requires NonEmptyWays(ways) && cur < |ways|
    ensures r.Some? ==> r.value.0 < |ways| && r.value.0 != cur
  {
    var end := Last(ways[cur]);
    match FindIndex(ways, cur, end, false, 0)
    case Some(k) => Some((k, false))
    case None =>
      match FindIndex(ways, cur, end, true, 0)
      case Some(k) => Some((k, true))
      case None => None
  }

  /**
   * The successor is the first other way starting where `cur` ends; only
   * when there is none, the first other way ending there, to be reversed;
   * and there is none exactly when no other way has an endpoint there.
   */
  lemma SuccessorIsFirstMatch(ways: seq<seq<Point>>, cur: nat)
    requires NonEmptyWays(ways) && cur < |ways|
    ensures var r, end := Successor(ways, cur), Last(ways[cur]);
      r.Some? && !r.value.1 ==>
        (ways[r.value.0][0] == end
         && forall j :: 0 <= j < r.value.0 && j != cur ==> ways[j][0] != end)
    ensures var r, end := Successor(ways, cur), Last(ways[cur]);
      r.Some? && r.value.1 ==>
        (Last(ways[r.value.0]) == end
         && (forall j :: 0 <= j < |ways| && j != cur ==> ways[j][0] != end)
         && (forall j :: 0 <= j < r.value.0 && j != cur ==> Last(ways[j]) != end))
    ensures var r, end := Successor(ways, cur), Last(ways[cur]);
      r.None? <==> forall j :: 0 <= j < |ways| && j != cur ==> ways[j][0] != end && Last(ways[j]) != end
  {
    FindIndexIsFirst(ways, cur, Last(ways[cur]), false, 0);
    FindIndexIsFirst(ways, cur, Last(ways[cur]), true, 0);
  }

  /**
   * Consecutive ways of a chain meet end to start: the successor, turned the
   * way the chain appends it, starts at the point where `cur` ends.
   */
  lemma SuccessorMeets(ways: seq<seq<Point>>, cur: nat)
    requires NonEmptyWays(ways) && cur < |ways|
    ensures var r := Successor(ways, cur);
      r.Some? ==> (if r.value.1 then Reverse(ways[r.value.0]) else ways[r.value.0])[0] == Last(ways[cur])
  {
    SuccessorIsFirstMatch(ways, cur);
  }

  /** The ways after a chain, the points it collected and the ways it visited. */
  datatype ChainState = ChainState(ways: seq<seq<Point>>, list: seq<Point>, visited: seq<nat>)

  /** Visiting way `next`: reverse it in place if asked, then collect its points (all of them for the first way, all but the first otherwise). */
  function Visit(ways: seq<seq<Point>>, start: nat, next: nat, invert: bool, list: seq<Point>, visited: seq<nat>): (r: ChainState)
    requires NonEmptyWays(ways) && next < |ways|
    ensures |r.ways| == |ways| && NonEmptyWays(r.ways)
    ensures r.visited == visited + [next]
    ensures list <= r.list
  {
    var g := if invert then Reverse(ways[next]) else ways[next];
    var list' := list + if next == start then g else g[1..];
    ChainState(ways[next := g], list', visited + [next])
  }

  /** What follows a visit: the chain ends, runs out of fuel, or goes on with a way, reversed or not. */
  datatype Step = Ends | OutOfFuel | Continue(way: nat, invert: bool)

  function NextStep(ways: seq<seq<Point>>, start: nat, next: nat, fuel: nat): (r: Step)
    requires NonEmptyWays(ways) && next < |ways|
    ensures r.Continue? ==> r.way < |ways| && fuel > 0
  {
    match Successor(ways, next)
    case None => Ends
    case Some((k, inv)) =>
      if k == start then Ends
      else if fuel == 0 then OutOfFuel
      else Continue(k, inv)
  }

  /**
   * The `while (1)` loop from way `next` on. The second component says
   * whether the chain ended (no successor, or back at `start`) within `fuel`
   * steps.
   */
  function Chain(ways: seq<seq<Point>>, start: nat, next: nat, invert: bool, list: seq<Point>, visited: seq<nat>, fuel: nat): (r: (ChainState, bool))
    requires NonEmptyWays(ways) && next < |ways|
    ensures |r.0.ways| == |ways| && NonEmptyWays(r.0.ways)
    ensures list <= r.0.list && visited + [next] <= r.0.visited
    decreases fuel
  {
    var s := Visit(ways, start, next, invert, list, visited);
    match NextStep(s.ways, start, next, fuel)
    case Ends => (s, true)
    case OutOfFuel => (s, false)
    case Continue(k, inv) =>
      var r := Chain(s.ways, start, k, inv, s.list, s.visited, fuel - 1);
      r
  }

  /** A closed list whose first point repeats its last loses the first. */
  function CloseLoop(list: seq<Point>): seq<Point> {
    if |list| > 1 && list[0] == Last(list) then list[1..] else list
  }

  datatype MergeResult = MergeResult(ways: seq<seq<Point>>, merged: seq<seq<Point>>, complete: bool)

  /** The `for` loop of `mergeLoops` from way `i` on. */
  function MergeFrom(ways: seq<seq<Point>>, i: nat, processed: seq<nat>, merged: seq<seq<Point>>, complete: bool, fuel: nat): MergeResult
    requires NonEmptyWays(ways) && i <= |ways|
    decreases |ways| - i
  {
    if i == |ways| then MergeResult(ways, merged, complete)
    else if i in processed then MergeFrom(ways, i + 1, processed, merged, complete, fuel)
    else
      var (c, finished) := Chain(ways, i, i, false, [], [], fuel);
      var merged' := if |c.list| > 0 then merged + [CloseLoop(c.list)] else merged;
      MergeFrom(c.ways, i + 1, processed + c.visited, merged', complete && finished, fuel)
  }

  /** `mergeLoops(members)`, each chain limited to `fuel` successor steps. */
  function MergeLoopsSpec(ways: seq<seq<Point>>, fuel: nat): MergeResult
    requires NonEmptyWays(ways)
  {
    MergeFrom(ways, 0, [], [], true, fuel)
  }

  /** Each way ends a chain either as it was or reversed. */
  predicate OriginalOrReversed(before: seq<seq<Point>>, after: seq<seq<Point>>) {
    |after| == |before|
    && forall k :: 0 <= k < |before| ==> after[k] == before[k] || after[k] == Reverse(before[k])
  }

  /** One turn of the chain: it stops after the visit unless the next step continues it. */
  lemma ChainUnfold(ways: seq<seq<Point>>, start: nat, next: nat, invert: bool, list: seq<Point>, visited: seq<nat>, fuel: nat)
    requires NonEmptyWays(ways) && next < |ways|
    ensures var s := Visit(ways, start, next, invert, list, visited);
      var st := NextStep(s.ways, start, next, fuel);
      && (!st.Continue? ==> Chain(ways, start, next, invert, list, visited, fuel).0 == s)
      && (st.Continue? ==> Chain(ways, start, next, invert, list, visited, fuel) == Chain(s.ways, start, st.way, st.invert, s.list, s.visited, fuel - 1))
  {
  }

  lemma VisitReverses(ways: seq<seq<Point>>, start: nat, next: nat, invert: bool, list: seq<Point>, visited: seq<nat>)
    requires NonEmptyWays(ways) && next < |ways|
    ensures OriginalOrReversed(ways, Visit(ways, start, next, invert, list, visited).ways)
  {
  }

  lemma OriginalOrReversedTransitive(a: seq<seq<Point>>, b: seq<seq<Point>>, c: seq<seq<Point>>)
    requires OriginalOrReversed(a, b) && OriginalOrReversed(b, c)
    ensures OriginalOrReversed(a, c)
  {
    forall j | 0 <= j < |a|
      ensures c[j] == a[j] || c[j] == Reverse(a[j])
    {
      ReverseReverse(a[j]);
    }
  }

  /** A chain changes the ways only by reversing some of them. */
  lemma {:induction false} ChainWays(ways: seq<seq<Point>>, start: nat, next: nat, invert: bool, list: seq<Point>, visited: seq<nat>, fuel: nat)
    requires NonEmptyWays(ways) && next < |ways|
    ensures OriginalOrReversed(ways, Chain(ways, start, next, invert, list, visited, fuel).0.ways)
    decreases fuel
  {
    var s := Visit(ways, start, next, invert, list, visited);
    var st := NextStep(s.ways, start, next, fuel);
    ChainUnfold(ways, start, next, invert, list, visited, fuel);
    VisitReverses(ways, start, next, invert, list, visited);
    if st.Continue? {
      ChainWays(s.ways, start, st.way, st.invert, s.list, s.visited, fuel - 1);
      var r := Chain(s.ways, start, st.way, st.invert, s.list, s.visited, fuel - 1).0;
      OriginalOrReversedTransitive(ways, s.ways, r.ways);
    }
  }

  /** A chain begins with every point of its first way, in order, and visits that way first. */
  lemma ChainStartsWithFirstWay(ways: seq<seq<Point>>, i: nat, fuel: nat)
    requires NonEmptyWays(ways) && i < |ways|
    ensures var r := Chain(ways, i, i, false, [], [], fuel).0;
      ways[i] <= r.list && [i] <= r.visited
  {
    var s := Visit(ways, i, i, false, [], []);
    assert s.list == ways[i];
    ChainUnfold(ways, i, i, false, [], [], fuel);
  }

  /** A way not yet processed starts a chain whose points, closed, make the next loop. */
  lemma MergeFromChain(ways: seq<seq<Point>>, i: nat, processed: seq<nat>, merged: seq<seq<Point>>, complete: bool, fuel: nat)
    requires NonEmptyWays(ways) && i < |ways| && i !in processed
    ensures var (c, finished) := Chain(ways, i, i, false, [], [], fuel);
      MergeFrom(ways, i, processed, merged, complete, fuel)
      == MergeFrom(c.ways, i + 1, processed + c.visited, if |c.list| > 0 then merged + [CloseLoop(c.list)] else merged, complete && finished, fuel)
  {
  }

  /** The `for` loop keeps every loop non-empty, adds at most one loop per way and only reverses ways. */
  lemma {:induction false} MergeFromShape(ways: seq<seq<Point>>, i: nat, processed: seq<nat>, merged: seq<seq<Point>>, complete: bool, fuel: nat)
    requires NonEmptyWays(ways) && i <= |ways|
    requires forall l :: l in merged ==> |l| > 0
    ensures var r := MergeFrom(ways, i, processed, merged, complete, fuel);
      && OriginalOrReversed(ways, r.ways)
      && merged <= r.merged && |r.merged| <= |merged| + (|ways| - i)
      && (forall l :: l in r.merged ==> |l| > 0)
    decreases |ways| - i
  {
    var r := MergeFrom(ways, i, processed, merged, complete, fuel);
    if i == |ways| {
      assert OriginalOrReversed(ways, r.ways);
    } else if i in processed {
      MergeFromShape(ways, i + 1, processed, merged, complete, fuel);
    } else {
      var (c, finished) := Chain(ways, i, i, false, [], [], fuel);
      MergeFromChain(ways, i, processed, merged, complete, fuel);
      ChainWays(ways, i, i, false, [], [], fuel);
      var merged' := if |c.list| > 0 then merged + [CloseLoop(c.list)] else merged;
      MergeFromShape(c.ways, i + 1, processed + c.visited, merged', complete && finished, fuel);
      OriginalOrReversedTransitive(ways, c.ways, r.ways);
      assert merged <= merged';
    }
  }

  /**
   * The result of `mergeLoops`: every loop is non-empty, there are at most as
   * many loops as ways, and every way's geometry is left as it was or reversed.
   */
  lemma MergeLoopsShape(ways: seq<seq<Point>>, fuel: nat)
    requires NonEmptyWays(ways)
    ensures OriginalOrReversed(ways, MergeLoopsSpec(ways, fuel).ways)
    ensures |MergeLoopsSpec(ways, fuel).merged| <= |ways|
    ensures forall l :: l in MergeLoopsSpec(ways, fuel).merged ==> |l| > 0
  {
    MergeFromShape(ways, 0, [], [], true, fuel);
  }

  /**
   * The successor search on one ring of three ways, the second and third
   * drawn against the chain's direction. This is a worked instance; the
   * guarantees for every input are `ChainWays` and `MergeLoopsShape`.
   */
  lemma RingSuccessors(a: Point, b: Point, c: Point)
    requires a != b && b != c && a != c
    ensures Successor([[a, b], [c, b], [a, c]], 0) == Some((1, true))
    ensures Successor([[a, b], [b, c], [a, c]], 1) == Some((2, true))
    ensures Successor([[a, b], [b, c], [c, a]], 2) == Some((0, false))
  {
    var ways := [[a, b], [c, b], [a, c]];
    assert FindIndex(ways, 0, b, false, 3) == None;
    assert FindIndex(ways, 0, b, false, 2) == None;
    assert FindIndex(ways, 0, b, false, 1) == None;
    assert FindIndex(ways, 0, b, false, 0) == None;
    assert FindIndex(ways, 0, b, true, 1) == Some(1);
    assert FindIndex(ways, 0, b, true, 0) == Some(1);
    var w1 := [[a, b], [b, c], [a, c]];
    assert FindIndex(w1, 1, c, false, 3) == None;
    assert FindIndex(w1, 1, c, false, 2) == None;
    assert FindIndex(w1, 1, c, false, 1) == None;
    assert FindIndex(w1, 1, c, false, 0) == None;
    assert FindIndex(w1, 1, c, true, 2) == Some(2);
    assert FindIndex(w1, 1, c, true, 1) == Some(2);
    assert FindIndex(w1, 1, c, true, 0) == Some(2);
    assert FindIndex([[a, b], [b, c], [c, a]], 2, a, false, 0) == Some(0);
  }

  /**
   * The chain from the first way of that ring reverses the other two and
   * comes back to the start: an instance of what `ChainWays` states for
   * every input.
   */
  lemma RingChain(a: Point, b: Point, c: Point)
    requires a != b && b != c && a != c
    ensures Chain([[a, b], [c, b], [a, c]], 0, 0, false, [], [], 2)
      == (ChainState([[a, b], [b, c], [c, a]], [a, b, c, a], [0, 1, 2]), true)
  {
    RingSuccessors(a, b, c);
    var ways, w1, w2 := [[a, b], [c, b], [a, c]], [[a, b], [b, c], [a, c]], [[a, b], [b, c], [c, a]];
    assert Visit(ways, 0, 0, false, [], []) == ChainState(ways, [a, b], [0]);
    assert Reverse([c, b]) == [b, c];
    assert ways[1 := [b, c]] == w1;
    assert Visit(ways, 0, 1, true, [a, b], [0]) == ChainState(w1, [a, b, c], [0, 1]);
    assert Reverse([a, c]) == [c, a];
    assert w1[2 := [c, a]] == w2;
    assert Visit(w1, 0, 2, true, [a, b, c], [0, 1]) == ChainState(w2, [a, b, c, a], [0, 1, 2]);
    assert Chain(w1, 0, 2, true, [a, b, c], [0, 1], 0) == (ChainState(w2, [a, b, c, a], [0, 1, 2]), true);
    assert Chain(ways, 0, 1, true, [a, b], [0], 1) == Chain(w1, 0, 2, true, [a, b, c], [0, 1], 0);
  }

  /** Once every remaining way has been processed, the `for` loop changes nothing more. */
  lemma {:induction false} MergeFromAllProcessed(ways: seq<seq<Point>>, i: nat, processed: seq<nat>, merged: seq<seq<Point>>, complete: bool, fuel: nat)
    requires NonEmptyWays(ways) && i <= |ways|
    requires forall k :: i <= k < |ways| ==> k in processed
    ensures MergeFrom(ways, i, processed, merged, complete, fuel) == MergeResult(ways, merged, complete)
    decreases |ways| - i
  {
    if i < |ways| {
      MergeFromAllProcessed(ways, i + 1, processed, merged, complete, fuel);
    }
  }

  /** When the chain from the first way closes and visits every way, `mergeLoops` returns that one loop. */
  lemma SingleChainMerge(ways: seq<seq<Point>>, fuel: nat, c: ChainState)
    requires NonEmptyWays(ways) && |ways| > 0
    requires Chain(ways, 0, 0, false, [], [], fuel) == (c, true)
    requires |c.list| > 0 && forall k :: 0 <= k < |ways| ==> k in c.visited
    ensures MergeLoopsSpec(ways, fuel) == MergeResult(c.ways, [CloseLoop(c.list)], true)
  {
    MergeFromChain(ways, 0, [], [], true, fuel);
    var none: seq<nat>, noLoops: seq<seq<Point>> := [], [];
    assert none + c.visited == c.visited;
    assert noLoops + [CloseLoop(c.list)] == [CloseLoop(c.list)];
    MergeFromAllProcessed(c.ways, 1, c.visited, [CloseLoop(c.list)], true, fuel);
  }

  /**
   * `mergeLoops` on a ring of three distinct points split into three ways:
   * the ways drawn backwards are reversed in place, and the one loop it
   * returns drops the repeated start point. This pins one concrete result;
   * the guarantees for every input are `MergeLoopsShape` and
   * `MergeLoopsInPlace`.
   */
  lemma RingOfThreeWays(a: Point, b: Point, c: Point)
    requires a != b && b != c && a != c
    ensures MergeLoopsSpec([[a, b], [c, b], [a, c]], 2) == MergeResult([[a, b], [b, c], [c, a]], [[b, c, a]], true)
  {
    var ways := [[a, b], [c, b], [a, c]];
    var ring := ChainState([[a, b], [b, c], [c, a]], [a, b, c, a], [0, 1, 2]);
    assert NonEmptyWays(ways);
    assert forall k :: 0 <= k < |ways| ==> k in ring.visited;
    RingChain(a, b, c);
    SingleChainMerge(ways, 2, ring);
    assert CloseLoop(ring.list) == [b, c, a];
  }

  /**
   * The `while (1)` loop of `mergeLoops` for the chain starting at way
   * `start`: reverses ways in place as it goes and returns the collected
   * points, the ways it visited (pushed onto `processed`) and whether the chain
   * ended within `fuel` steps.
   */
  method TraceChain(members: array<seq<Point>>, start: nat, fuel: nat) returns (list: seq<Point>, visited: seq<nat>, finished: bool)
    requires NonEmptyWays(members[..]) && start < members.Length
    modifies members
    ensures (ChainState(members[..], list, visited), finished) == Chain(old(members[..]), start, start, false, [], [], fuel)
  {
    list := [];
    visited := [];
    finished := false;
    var next: nat := start;
    var invert := false;
    var steps := fuel;
    while true
      invariant NonEmptyWays(members[..]) && next < members.Length
      invariant Chain(members[..], start, next, invert, list, visited, steps) == Chain(old(members[..]), start, start, false, [], [], fuel)
      decreases steps
    {
      ghost var before := members[..];
      ghost var remaining := Chain(before, start, next, invert, list, visited, steps);
      ghost var visit := Visit(before, start, next, invert, list, visited);
      var geom := members[next];
      if invert {
        geom := Reverse(geom);
        members[next] := geom;
      }
      assert members[..] == before[next := geom];
      list := list + if next == start then geom else geom[1..];
      visited := visited + [next];
      assert visit == ChainState(members[..], list, visited);
      var end := Last(members[next]);
      var toBeNext := FindIndex(members[..], next, end, false, 0);
      invert := false;
      if toBeNext.None? {
        toBeNext := FindIndex(members[..], next, end, true, 0);
        invert := true;
      }
      assert Successor(members[..], next) == if toBeNext.None? then None else Some((toBeNext.value, invert));
      if toBeNext.None? || toBeNext.value == start {
        finished := true;
        assert remaining == (ChainState(members[..], list, visited), true);
        return;
      }
      if steps == 0 {
        assert remaining == (ChainState(members[..], list, visited), false);
        return;
      }
      next := toBeNext.value;
      steps := steps - 1;
    }
  }

  /**
   * `mergeLoops` on the members' geometries, updated in place; `complete` is
   * false when some chain did not end within `fuel` steps, where the source
   * loops forever.
   */
  method MergeLoopsInPlace(members: array<seq<Point>>, fuel: nat) returns (merged: seq<seq<Point>>, complete: bool)
    requires NonEmptyWays(members[..])
    modifies members
    ensures MergeResult(members[..], merged, complete) == MergeLoopsSpec(old(members[..]), fuel)
  {
    merged := [];
    complete := true;
    var processed: seq<nat> := [];
    for i := 0 to members.Length
      invariant NonEmptyWays(members[..])
      invariant MergeFrom(members[..], i, processed, merged, complete, fuel) == MergeLoopsSpec(old(members[..]), fuel)
    {
      if i in processed {
        continue;
      }
      ghost var before, merged0 := members[..], merged;
      MergeFromChain(before, i, processed, merged, complete, fuel);
      var list, visited, finished := TraceChain(members, i, fuel);
      processed := processed + visited;
      if |list| > 0 {
        if |list| > 1 && list[0] == list[|list| - 1] {
          merged := merged + [list[1..]];
        } else {
          merged := merged + [list];
        }
      }
      assert merged == if |list| > 0 then merged0 + [CloseLoop(list)] else merged0;
      complete := complete && finished;
    }
  }
}
