/**
 * The older spatial filter of src/main.ts: `filterNodesToChangeset` folded over
 * the `create`, `modify` and `delete` blocks of a decoded osmChange document
 * (`getBoundedChangesetsFromSequenceXML`). Each fold step copies the map and
 * returns as soon as it has inserted one entry, so a block contributes at most
 * one changeset.
 */
module LegacyFilter {
  import opened Wrappers
  import opened Types
  import opened Filter

  /** A `<create>`, `<modify>` or `<delete>` block; its node list may be absent. */
  datatype NodeSet = NodeSet(node: Option<seq<NodeMeta>>)

  /** The `osmChange` element: each kind of block may be absent. */
  datatype OsmChange = OsmChange(createBlocks: Option<seq<NodeSet>>, modifyBlocks: Option<seq<NodeSet>>, deleteBlocks: Option<seq<NodeSet>>)

  /** A node that the fold step would insert: its changeset is not yet a key and it is strictly in bounds. */
  predicate Qualifies(b: Bounds, filtered: seq<FilteredNode>, n: NodeMeta) {
    n.changeset !in Ids(filtered) && NodeInBounds(b, n)
  }

  predicate FirstQualifyingAt(b: Bounds, filtered: seq<FilteredNode>, nodes: seq<NodeMeta>, j: int) {
    0 <= j < |nodes| && Qualifies(b, filtered, nodes[j])
    && forall k :: 0 <= k < j ==> !Qualifies(b, filtered, nodes[k])
  }

  /**
   * The map returned by one fold step over a node list: the old entries, then
   * at most one new entry.
   */
  function AddFirstSighting(b: Bounds, filtered: seq<FilteredNode>, nodes: seq<NodeMeta>): (r: seq<FilteredNode>)
    ensures |filtered| <= |r| <= |filtered| + 1
    ensures r[..|filtered|] == filtered
    decreases |nodes|
  {
    if |nodes| == 0 then filtered
    else if Qualifies(b, filtered, nodes[0]) then filtered + [Sighting(nodes[0])]
    else AddFirstSighting(b, filtered, nodes[1..])
  }

  function NodeSetSightings(b: Bounds, filtered: seq<FilteredNode>, nodes: NodeSet): seq<FilteredNode> {
    match nodes.node
    case None => filtered
    case Some(ns) => AddFirstSighting(b, filtered, ns)
  }

  /** `Array.prototype.reduce(filterNodesToChangeset, filtered)` over a list of blocks. */
  function FoldBlocks(b: Bounds, filtered: seq<FilteredNode>, blocks: seq<NodeSet>): (r: seq<FilteredNode>)
    ensures |filtered| <= |r| <= |filtered| + |blocks|
    ensures r[..|filtered|] == filtered
    decreases |blocks|
  {
    if |blocks| == 0 then filtered
    else
      var next := NodeSetSightings(b, filtered, blocks[0]);
      var r := FoldBlocks(b, next, blocks[1..]);
      assert r[..|filtered|] == r[..|next|][..|filtered|];
      r
  }

  function FoldKind(b: Bounds, filtered: seq<FilteredNode>, blocks: Option<seq<NodeSet>>): seq<FilteredNode> {
    match blocks
    case None => filtered
    case Some(bs) => FoldBlocks(b, filtered, bs)
  }

  /** The map's values after folding create, then modify, then delete. */
  function SequenceChangesets(b: Bounds, xml: OsmChange): seq<FilteredNode> {
    FoldKind(b, FoldKind(b, FoldKind(b, [], xml.createBlocks), xml.modifyBlocks), xml.deleteBlocks)
  }

  /** `filterNodesToChangeset`: scan the nodes and stop at the first insertion. */
  method FilterNodesToChangeset(b: Bounds, filtered: seq<FilteredNode>, nodes: NodeSet) returns (r: seq<FilteredNode>)
    ensures r == NodeSetSightings(b, filtered, nodes)
  {
    if nodes.node.Some? {
      var ns := nodes.node.value;
      for i := 0 to |ns|
        invariant AddFirstSighting(b, filtered, ns[i..]) == AddFirstSighting(b, filtered, ns)
      {
        assert ns[i..][1..] == ns[i + 1..];
        var node := ns[i];
        if node.changeset !in Ids(filtered) {
          if InBounds(b, node.lat, node.lon) {
            return filtered + [Sighting(node)];
          }
        }
      }
    }
    return filtered;
  }

  /** `getBoundedChangesetsFromSequenceXML`, up to the detail lookups. */
  method BoundedChangesetsFromSequenceXml(b: Bounds, xml: OsmChange) returns (filtered: seq<FilteredNode>)
    ensures filtered == SequenceChangesets(b, xml)
  {
    filtered := [];
    filtered := ReduceBlocks(b, filtered, xml.createBlocks);
    filtered := ReduceBlocks(b, filtered, xml.modifyBlocks);
    filtered := ReduceBlocks(b, filtered, xml.deleteBlocks);
  }

  /** One guarded `reduce` of the fold: an absent block list leaves the map as it is. */
  method ReduceBlocks(b: Bounds, init: seq<FilteredNode>, blocks: Option<seq<NodeSet>>) returns (filtered: seq<FilteredNode>)
    ensures filtered == FoldKind(b, init, blocks)
  {
    filtered := init;
    if blocks.Some? {
      var bs := blocks.value;
      for i := 0 to |bs|
        invariant FoldBlocks(b, filtered, bs[i..]) == FoldBlocks(b, init, bs)
      {
        assert bs[i..][1..] == bs[i + 1..];
        filtered := FilterNodesToChangeset(b, filtered, bs[i]);
      }
    }
  }

  /**
   * One fold step inserts exactly the first qualifying node of the list, with
   * its own timestamp, and leaves the map unchanged when no node qualifies.
   */
  lemma {:induction false} AddFirstSightingFirst(b: Bounds, filtered: seq<FilteredNode>, nodes: seq<NodeMeta>)
    ensures (forall j :: 0 <= j < |nodes| ==> !Qualifies(b, filtered, nodes[j]))
            ==> AddFirstSighting(b, filtered, nodes) == filtered
    ensures forall j :: (FirstQualifyingAt(b, filtered, nodes, j)
        ==> AddFirstSighting(b, filtered, nodes) == filtered + [Sighting(nodes[j])])
    decreases |nodes|
  {
    if |nodes| > 0 {
      AddFirstSightingFirst(b, filtered, nodes[1..]);
      forall j | FirstQualifyingAt(b, filtered, nodes, j)
        ensures AddFirstSighting(b, filtered, nodes) == filtered + [Sighting(nodes[j])]
      {
        if j > 0 {
          assert FirstQualifyingAt(b, filtered, nodes[1..], j - 1) by {
            forall k | 0 <= k < j - 1
              ensures !Qualifies(b, filtered, nodes[1..][k])
            {
              assert nodes[1..][k] == nodes[k + 1];
            }
          }
        }
      }
      if forall j :: 0 <= j < |nodes| ==> !Qualifies(b, filtered, nodes[j]) {
        assert forall j :: 0 <= j < |nodes| - 1 ==> nodes[1..][j] == nodes[j + 1];
      }
    }
  }

  /** A fold step never records a changeset twice. */
  lemma {:induction false} AddFirstSightingDistinct(b: Bounds, filtered: seq<FilteredNode>, nodes: seq<NodeMeta>)
    requires DistinctIds(filtered)
    ensures DistinctIds(AddFirstSighting(b, filtered, nodes))
    decreases |nodes|
  {
    if |nodes| > 0 && !Qualifies(b, filtered, nodes[0]) {
      AddFirstSightingDistinct(b, filtered, nodes[1..]);
    } else if |nodes| > 0 {
      var r := filtered + [Sighting(nodes[0])];
      forall i, j | 0 <= i < j < |r|
        ensures r[i].changeset != r[j].changeset
      {
        if j == |filtered| {
          assert r[i] in filtered;
        }
      }
    }
  }

  /** A whole fold never records a changeset twice. */
  lemma {:induction false} FoldBlocksDistinct(b: Bounds, filtered: seq<FilteredNode>, blocks: seq<NodeSet>)
    requires DistinctIds(filtered)
    ensures DistinctIds(FoldBlocks(b, filtered, blocks))
    decreases |blocks|
  {
    if |blocks| > 0 {
      if blocks[0].node.Some? {
        AddFirstSightingDistinct(b, filtered, blocks[0].node.value);
      }
      FoldBlocksDistinct(b, NodeSetSightings(b, filtered, blocks[0]), blocks[1..]);
    }
  }

  /** The map built from a whole document holds each changeset once. */
  lemma SequenceChangesetsDistinct(b: Bounds, xml: OsmChange)
    ensures DistinctIds(SequenceChangesets(b, xml))
  {
    var c := FoldKind(b, [], xml.createBlocks);
    if xml.createBlocks.Some? { FoldBlocksDistinct(b, [], xml.createBlocks.value); }
    var m := FoldKind(b, c, xml.modifyBlocks);
    if xml.modifyBlocks.Some? { FoldBlocksDistinct(b, c, xml.modifyBlocks.value); }
    if xml.deleteBlocks.Some? { FoldBlocksDistinct(b, m, xml.deleteBlocks.value); }
  }

  /** Every recorded changeset has a node strictly inside the rectangle in one of the folded blocks. */
  lemma {:induction false} AddFirstSightingSound(b: Bounds, filtered: seq<FilteredNode>, nodes: seq<NodeMeta>, f: FilteredNode)
    requires f in AddFirstSighting(b, filtered, nodes) && f !in filtered
    ensures exists j :: 0 <= j < |nodes| && NodeInBounds(b, nodes[j]) && f == Sighting(nodes[j])
    decreases |nodes|
  {
    if !Qualifies(b, filtered, nodes[0]) {
      AddFirstSightingSound(b, filtered, nodes[1..], f);
      var j :| 0 <= j < |nodes[1..]| && NodeInBounds(b, nodes[1..][j]) && f == Sighting(nodes[1..][j]);
      assert nodes[j + 1] == nodes[1..][j];
    } else {
      assert f == Sighting(nodes[0]);
    }
  }

  /** The counterexample input: one `<create>` block with an in-bounds node of changeset 1 and one of changeset 2. */
  function TwoChangesetBlock(): OsmChange {
    OsmChange(Some([NodeSet(Some([NodeMeta(1, "t1", 0.5, 0.5), NodeMeta(2, "t2", 0.5, 0.5)]))]), None, None)
  }

  /**
   * As written, the fold drops the second changeset of a block; the streaming
   * filter of src/commands/feed/feed.ts keeps both for the same nodes.
   */
  lemma OneChangesetPerBlock()
    ensures SequenceChangesets(Bounds(1.0, 0.0, 0.0, 1.0), TwoChangesetBlock()) == [FilteredNode(1, "t1")]
    ensures FirstSightings(Bounds(1.0, 0.0, 0.0, 1.0), [NodeMeta(1, "t1", 0.5, 0.5), NodeMeta(2, "t2", 0.5, 0.5)])
         == [FilteredNode(1, "t1"), FilteredNode(2, "t2")]
  {
    var b := Bounds(1.0, 0.0, 0.0, 1.0);
    var nodes := [NodeMeta(1, "t1", 0.5, 0.5), NodeMeta(2, "t2", 0.5, 0.5)];
    assert AddFirstSighting(b, [], nodes) == [FilteredNode(1, "t1")];
    assert nodes[..1] == [nodes[0]];
    assert FirstSightings(b, nodes[..1]) == [FilteredNode(1, "t1")];
  }
}
