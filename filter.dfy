/**
 * The spatial filter of src/commands/feed/feed.ts: `inBounds` and the
 * `startElement: node` handler that fills the `filteredChangesets` map while
 * the diff is streamed. The map's values, in insertion order, are what the
 * handler hands on (`Array.from(filteredChangesets.values())`).
 */
module Filter {
  import opened Types

  /** `inBounds`: strictly inside the rectangle; a point on an edge is outside. */
  predicate InBounds(b: Bounds, lat: real, lon: real) {
    lat < b.top && lat > b.bottom && lon < b.right && lon > b.left
  }

  predicate NodeInBounds(b: Bounds, n: NodeMeta) {
    InBounds(b, n.lat, n.lon)
  }

  /**
   * The map after the handler has seen `nodes` in stream order: a node is
   * recorded when its changeset is not yet a key and it lies in bounds.
   */
  function FirstSightings(b: Bounds, nodes: seq<NodeMeta>): (r: seq<FilteredNode>)
    decreases |nodes|
  {
    if |nodes| == 0 then []
    else
      var prev := FirstSightings(b, nodes[..|nodes| - 1]);
      var n := nodes[|nodes| - 1];
      if n.changeset !in Ids(prev) && NodeInBounds(b, n) then prev + [Sighting(n)] else prev
  }

  /** Node `j` is the first in-bounds node of its changeset in the stream. */
  predicate FirstInBoundsAt(b: Bounds, nodes: seq<NodeMeta>, j: int) {
    0 <= j < |nodes| && NodeInBounds(b, nodes[j])
    && forall k :: 0 <= k < j ==> !(nodes[k].changeset == nodes[j].changeset && NodeInBounds(b, nodes[k]))
  }

  /**
   * The handler of `getBoundedChangesetsFromSequenceStream`, run over the
   * whole stream: the has/set pair on a map that starts empty.
   */
  method BoundedChangesetsFromStream(b: Bounds, nodes: seq<NodeMeta>) returns (filtered: seq<FilteredNode>)
    ensures filtered == FirstSightings(b, nodes)
  {
    var keys: set<nat> := {};
    filtered := [];
    for i := 0 to |nodes|
      invariant filtered == FirstSightings(b, nodes[..i])
      invariant keys == Ids(filtered)
    {
      var node := nodes[i];
      assert nodes[..i + 1][..i] == nodes[..i];
      if node.changeset !in keys {
        if InBounds(b, node.lat, node.lon) {
          filtered := filtered + [Sighting(node)];
          keys := keys + {node.changeset};
        }
      }
    }
    assert nodes[..|nodes|] == nodes;
  }

  /** The keys are exactly the changesets that have at least one node strictly inside the rectangle. */
  lemma {:induction false} FirstSightingsKeys(b: Bounds, nodes: seq<NodeMeta>, c: nat)
    ensures c in Ids(FirstSightings(b, nodes))
        <==> exists j :: 0 <= j < |nodes| && nodes[j].changeset == c && NodeInBounds(b, nodes[j])
    decreases |nodes|
  {
    if |nodes| > 0 {
      var init := nodes[..|nodes| - 1];
      FirstSightingsKeys(b, init, c);
      var prev := FirstSightings(b, init);
      var n := nodes[|nodes| - 1];
      if c in Ids(FirstSightings(b, nodes)) {
        if c in Ids(prev) {
          var j :| 0 <= j < |init| && init[j].changeset == c && NodeInBounds(b, init[j]);
          assert nodes[j] == init[j];
        } else {
          assert FirstSightings(b, nodes) == prev + [Sighting(n)];
          assert nodes[|nodes| - 1].changeset == c;
        }
      } else {
        forall j | 0 <= j < |nodes| && nodes[j].changeset == c
          ensures !NodeInBounds(b, nodes[j])
        {
          if j < |init| {
            assert init[j] == nodes[j];
          }
        }
      }
    }
  }

  /** Each changeset is recorded at most once: the values of a map keyed by changeset. */
  lemma {:induction false} FirstSightingsDistinct(b: Bounds, nodes: seq<NodeMeta>)
    ensures DistinctIds(FirstSightings(b, nodes))
    decreases |nodes|
  {
    if |nodes| > 0 {
      var prev := FirstSightings(b, nodes[..|nodes| - 1]);
      FirstSightingsDistinct(b, nodes[..|nodes| - 1]);
      var n := nodes[|nodes| - 1];
      if n.changeset !in Ids(prev) && NodeInBounds(b, n) {
        var r := prev + [Sighting(n)];
        forall i, j | 0 <= i < j < |r|
          ensures r[i].changeset != r[j].changeset
        {
          if j == |prev| {
            assert r[i] in prev;
          }
        }
      }
    }
  }

  /** The last node is the first in-bounds node of its changeset iff the handler records it. */
  lemma FirstInBoundsLast(b: Bounds, nodes: seq<NodeMeta>)
    requires |nodes| > 0
    ensures var n := nodes[|nodes| - 1];
      (FirstInBoundsAt(b, nodes, |nodes| - 1)
       <==> n.changeset !in Ids(FirstSightings(b, nodes[..|nodes| - 1])) && NodeInBounds(b, n))
  {
    var init := nodes[..|nodes| - 1];
    var n := nodes[|nodes| - 1];
    FirstSightingsKeys(b, init, n.changeset);
    if NodeInBounds(b, n) && !FirstInBoundsAt(b, nodes, |nodes| - 1) {
      var k :| 0 <= k < |init| && nodes[k].changeset == n.changeset && NodeInBounds(b, nodes[k]);
      assert init[k] == nodes[k];
    }
  }

  /** Whether an earlier node is a first in-bounds node does not depend on the nodes after it. */
  lemma FirstInBoundsInit(b: Bounds, nodes: seq<NodeMeta>, j: int)
    requires 0 <= j < |nodes| - 1
    ensures FirstInBoundsAt(b, nodes, j) == FirstInBoundsAt(b, nodes[..|nodes| - 1], j)
  {
    var init := nodes[..|nodes| - 1];
    assert forall k :: 0 <= k <= j ==> nodes[k] == init[k];
  }

  /**
   * First match wins: an entry is recorded exactly for the first in-bounds
   * node of each changeset, with that node's timestamp; later nodes of the
   * same changeset never overwrite it.
   */
  lemma {:induction false} FirstSightingsFirstWins(b: Bounds, nodes: seq<NodeMeta>, f: FilteredNode)
    ensures f in FirstSightings(b, nodes)
        <==> exists j :: FirstInBoundsAt(b, nodes, j) && f == Sighting(nodes[j])
    decreases |nodes|
  {
    if |nodes| > 0 {
      var init := nodes[..|nodes| - 1];
      var last := |nodes| - 1;
      var prev := FirstSightings(b, init);
      FirstSightingsFirstWins(b, init, f);
      FirstInBoundsLast(b, nodes);
      var step := FirstInBoundsAt(b, nodes, last);
      assert FirstSightings(b, nodes) == if step then prev + [Sighting(nodes[last])] else prev;
      if f in FirstSightings(b, nodes) {
        if f in prev {
          var j :| FirstInBoundsAt(b, init, j) && f == Sighting(init[j]);
          FirstInBoundsInit(b, nodes, j);
          assert FirstInBoundsAt(b, nodes, j) && f == Sighting(nodes[j]);
        } else {
          assert FirstInBoundsAt(b, nodes, last) && f == Sighting(nodes[last]);
        }
      }
      if exists j :: FirstInBoundsAt(b, nodes, j) && f == Sighting(nodes[j]) {
        var j :| FirstInBoundsAt(b, nodes, j) && f == Sighting(nodes[j]);
        if j < last {
          FirstInBoundsInit(b, nodes, j);
          assert FirstInBoundsAt(b, init, j) && f == Sighting(init[j]);
        }
      }
    }
  }
}
