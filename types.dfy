/**
 * The records the feed passes between its stages (src/types.d.ts). Changeset
 * ids are compared through `parseInt`, so they are naturals here;
 * coordinates come out of `parseFloat` and are only compared, so they are reals.
 */
module Types {
  import opened Wrappers

  /** One `<node>` of a diff: its changeset, timestamp and position. */
  datatype NodeMeta = NodeMeta(changeset: nat, timestamp: string, lat: real, lon: real)

  /** The first in-bounds sighting of a changeset within one diff. */
  datatype FilteredNode = FilteredNode(changeset: nat, timestamp: string)

  /** `elements[0]` of the changeset-detail response. */
  datatype ChangesetElement = ChangesetElement(
    uid: nat,
    user: string,
    changesCount: nat,
    tags: Option<map<string, string>>)

  /** A changeset enriched with its author and summary. */
  datatype ChangesetDetails = ChangesetDetails(
    id: nat,
    uid: nat,
    username: string,
    count: nat,
    comment: string,
    time: string)

  /** The rectangle of the settings file: `top`, `bottom`, `left`, `right`. */
  datatype Bounds = Bounds(top: real, bottom: real, left: real, right: real)

  function Sighting(n: NodeMeta): FilteredNode {
    FilteredNode(n.changeset, n.timestamp)
  }

  /** The keys of a changeset map whose values are listed in insertion order. */
  function Ids(fs: seq<FilteredNode>): set<nat> {
    set f | f in fs :: f.changeset
  }

  /** No changeset occurs twice: the values of a map keyed by changeset. */
  predicate DistinctIds(fs: seq<FilteredNode>) {
    forall i, j :: 0 <= i < j < |fs| ==> fs[i].changeset != fs[j].changeset
  }
}
