/**
 * The array layout shared by the bottom-level (per-mesh) and top-level (per-scene)
 * hierarchies: for N >= 1 leaves, an array of 2N - 1 nodes whose last N slots,
 * [N - 1, 2N - 2], hold the leaves in order and whose first N - 1 slots are left to the
 * external builder.
 */
module Accel {
  import opened Geometry
  import opened DeviceBuffers

  /** kernel::AccelNode; its layout belongs to the external builder and is not modelled. */
  type NodeRecord = nat

  /** The arguments of `kernel::BuildAccel` besides the two device arrays. */
  datatype BuildRequest = BuildRequest(merged: Bbox, count: nat)

  /** `count * 2 - 1`, defined only for count >= 1 (the unsigned expression wraps at 0). */
  function NodeCount(count: nat): (r: nat)
    requires count >= 1
    ensures r + 1 == 2 * count
    ensures r >= count
  {
    count * 2 - 1
  }

  /** `nodes` is a node array for `leaves`: 2N - 1 entries, leaf i at index N - 1 + i. */
  predicate HoldsLeaves(nodes: seq<Bbox>, leaves: seq<Bbox>)
    requires |leaves| >= 1
  {
    |nodes| == NodeCount(|leaves|) && nodes[|leaves| - 1..] == leaves
  }

  /** The leaf slots are exactly the last N: index N - 1 + i is leaf i. */
  lemma HoldsLeavesAt(nodes: seq<Bbox>, leaves: seq<Bbox>, i: nat)
    requires |leaves| >= 1 && HoldsLeaves(nodes, leaves) && i < |leaves|
    ensures nodes[|leaves| - 1 + i] == leaves[i]
  {
    assert nodes[|leaves| - 1..][i] == leaves[i];
  }

  /**
   * `kernel::BuildAccel(nodes, bboxes, merged, count)`, an external routine: its node
   * output is not modelled and the boxes it computes for the internal nodes are
   * `internal`. It writes the internal slots [0, count - 2] of the box array and no others.
   */
  method ExternalBuild(bboxes: CuBuffer<Bbox>, request: BuildRequest, internal: seq<Bbox>)
    requires request.count >= 1
    requires |bboxes.contents| == NodeCount(request.count)
    requires |internal| == request.count - 1
    modifies bboxes
    ensures bboxes.contents == internal + old(bboxes.contents)[request.count - 1..]
  {
    bboxes.SetData(internal + bboxes.contents[request.count - 1..]);
  }

  /** The builder leaves the leaves where they were. */
  lemma BuildKeepsLeaves(before: seq<Bbox>, internal: seq<Bbox>, leaves: seq<Bbox>)
    requires |leaves| >= 1 && |internal| == |leaves| - 1
    requires HoldsLeaves(before, leaves)
    ensures HoldsLeaves(internal + before[|leaves| - 1..], leaves)
    ensures (internal + before[|leaves| - 1..])[..|leaves| - 1] == internal
  {
    var after := internal + before[|leaves| - 1..];
    assert after[|leaves| - 1..] == before[|leaves| - 1..];
  }
}
