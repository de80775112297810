/**
 * A triangle mesh: host attribute arrays, their device copies under the grow-only
 * policy, the object-space box, the vertex normals and texture coordinates computed when
 * the file supplies none, and the bottom-level hierarchy (one leaf per triangle).
 *
 * The floating-point parts of the computed attributes (face normal, normalisation,
 * spherical projection) are parameters; the loops that apply them are modelled.
 */
module Meshes {
  import opened Geometry
  import opened DeviceBuffers
  import opened Accel

  /** kernel::TriMesh: the device arrays of the four attributes and the triangle count. */
  datatype TriMesh = TriMesh(
    positions: CuBuffer<Vec3>, normals: CuBuffer<Vec3>, texcoords: CuBuffer<Vec2>,
    indices: CuBuffer<nat>, numTriangles: nat)

  /** kernel::Geometry of type eTriMesh: a pointer to the mesh's TriMesh record. */
  datatype GeometryRef = TriMeshGeometry(record: CuBuffer<TriMesh>)

  /** kernel::AccelBottom: the node and box arrays and the geometry they cover. */
  datatype AccelBottom = AccelBottom(nodes: CuBuffer<NodeRecord>, bboxes: CuBuffer<Bbox>, geometry: GeometryRef)

  /** The host-side attributes of a mesh. */
  datatype MeshData = MeshData(
    positions: seq<Vec3>, normals: seq<Vec3>, texcoords: seq<Vec2>, indices: seq<nat>, bbox: Bbox)

  /** The eight owned device buffers, null when never created. */
  datatype MeshBuffers = MeshBuffers(
    geometry: CuBuffer?<TriMesh>, positions: CuBuffer?<Vec3>, normals: CuBuffer?<Vec3>,
    texcoords: CuBuffer?<Vec2>, indices: CuBuffer?<nat>, accel: CuBuffer?<AccelBottom>,
    nodes: CuBuffer?<NodeRecord>, bboxes: CuBuffer?<Bbox>)

  predicate IndicesInRange(indices: seq<nat>, n: nat) {
    forall k | 0 <= k < |indices| :: indices[k] < n
  }

  /** Leaf box of triangle i: min and max over its three corners. */
  function LeafBox(positions: seq<Vec3>, indices: seq<nat>, i: nat): Bbox
    requires IndicesInRange(indices, |positions|) && i < |indices| / 3
  {
    TriangleBox(positions[indices[3 * i]], positions[indices[3 * i + 1]], positions[indices[3 * i + 2]])
  }

  function LeafBoxes(positions: seq<Vec3>, indices: seq<nat>): (r: seq<Bbox>)
    requires IndicesInRange(indices, |positions|)
    ensures |r| == |indices| / 3
  {
    seq(|indices| / 3, i requires 0 <= i < |indices| / 3 => LeafBox(positions, indices, i))
  }

  /**
   * The merged box handed to the builder, the mesh box, contains every leaf box once
   * the mesh box is the fold over the positions.
   */
  lemma MeshBoxEnclosesLeaves(positions: seq<Vec3>, indices: seq<nat>, i: nat)
    requires IndicesInRange(indices, |positions|) && i < |indices| / 3
    ensures Encloses(Bounds(positions), LeafBox(positions, indices, i))
  {
    BoundsEnclosesTriangle(positions, indices[3 * i], indices[3 * i + 1], indices[3 * i + 2]);
  }

  // ----- the computed attributes -----

  function Add(a: Vec3, b: Vec3): Vec3 {
    Vec3(a.x + b.x, a.y + b.y, a.z + b.z)
  }

  /** std::vector::resize: keep the first n entries, pad with `fill`. */
  function Resize<T>(s: seq<T>, n: nat, fill: T): (r: seq<T>)
    ensures |r| == n
    ensures forall k | 0 <= k < n :: r[k] == if k < |s| then s[k] else fill
  {
    if n <= |s| then s[..n] else s + seq(n - |s|, _ => fill)
  }

  /** Add n to entry k. */
  function AddAt(s: seq<Vec3>, k: nat, n: Vec3): seq<Vec3>
    requires k < |s|
  {
    s[k := Add(s[k], n)]
  }

  /** The face normal of triangle t under `faceNormal`. */
  function FaceNormal(positions: seq<Vec3>, indices: seq<nat>, faceNormal: (Vec3, Vec3, Vec3) -> Vec3, t: nat): Vec3
    requires IndicesInRange(indices, |positions|) && 3 * t + 2 < |indices|
  {
    faceNormal(positions[indices[3 * t]], positions[indices[3 * t + 1]], positions[indices[3 * t + 2]])
  }

  /** The normal array after the first t triangles have added their face normal to each corner. */
  function Accumulated(start: seq<Vec3>, positions: seq<Vec3>, indices: seq<nat>,
                       faceNormal: (Vec3, Vec3, Vec3) -> Vec3, t: nat): (r: seq<Vec3>)
    requires |start| == |positions| && IndicesInRange(indices, |positions|) && 3 * t <= |indices|
    ensures |r| == |positions|
    decreases t
  {
    if t == 0 then start
    else
      var prev := Accumulated(start, positions, indices, faceNormal, t - 1);
      var n := FaceNormal(positions, indices, faceNormal, t - 1);
      var i := 3 * (t - 1);
      AddAt(AddAt(AddAt(prev, indices[i], n), indices[i + 1], n), indices[i + 2], n)
  }

  /** What one vertex receives from triangle t: the face normal once per corner that is v. */
  function CornerShare(indices: seq<nat>, v: nat, t: nat, n: Vec3): Vec3
    requires 3 * t + 2 < |indices|
  {
    Add(Add(if indices[3 * t] == v then n else Zero3, if indices[3 * t + 1] == v then n else Zero3),
        if indices[3 * t + 2] == v then n else Zero3)
  }

  /** Everything vertex v receives from the first t triangles. */
  function Contribution(positions: seq<Vec3>, indices: seq<nat>, faceNormal: (Vec3, Vec3, Vec3) -> Vec3,
                        v: nat, t: nat): Vec3
    requires IndicesInRange(indices, |positions|) && 3 * t <= |indices|
    decreases t
  {
    if t == 0 then Zero3
    else Add(Contribution(positions, indices, faceNormal, v, t - 1),
             CornerShare(indices, v, t - 1, FaceNormal(positions, indices, faceNormal, t - 1)))
  }

  /** Per vertex, the accumulated normal is its start value plus the normals of the faces using it. */
  lemma AccumulatedAt(start: seq<Vec3>, positions: seq<Vec3>, indices: seq<nat>,
                      faceNormal: (Vec3, Vec3, Vec3) -> Vec3, t: nat, v: nat)
    requires |start| == |positions| && IndicesInRange(indices, |positions|) && 3 * t <= |indices|
    requires v < |positions|
    ensures Accumulated(start, positions, indices, faceNormal, t)[v]
         == Add(start[v], Contribution(positions, indices, faceNormal, v, t))
  {
    var k := 0;
    while k < t
      invariant k <= t
      invariant Accumulated(start, positions, indices, faceNormal, k)[v]
             == Add(start[v], Contribution(positions, indices, faceNormal, v, k))
    {
      k := k + 1;
      AccumulatedStep(start, positions, indices, faceNormal, k, v);
    }
  }

  /** Triangle t - 1 adds its corner share to vertex v. */
  lemma AccumulatedStep(start: seq<Vec3>, positions: seq<Vec3>, indices: seq<nat>,
                        faceNormal: (Vec3, Vec3, Vec3) -> Vec3, t: nat, v: nat)
    requires |start| == |positions| && IndicesInRange(indices, |positions|) && 0 < t && 3 * t <= |indices|
    requires v < |positions|
    ensures Accumulated(start, positions, indices, faceNormal, t)[v]
         == Add(Accumulated(start, positions, indices, faceNormal, t - 1)[v],
                CornerShare(indices, v, t - 1, FaceNormal(positions, indices, faceNormal, t - 1)))
  {
    var prev := Accumulated(start, positions, indices, faceNormal, t - 1);
    var n := FaceNormal(positions, indices, faceNormal, t - 1);
    var i := 3 * (t - 1);
    var next := AddAt(AddAt(AddAt(prev, indices[i], n), indices[i + 1], n), indices[i + 2], n);
    assert Accumulated(start, positions, indices, faceNormal, t) == next;
    AddAtThrice(prev, indices[i], indices[i + 1], indices[i + 2], n, v);
  }

  /** Three additions of n, at a, b and c, as seen from entry v. */
  lemma AddAtThrice(s: seq<Vec3>, a: nat, b: nat, c: nat, n: Vec3, v: nat)
    requires a < |s| && b < |s| && c < |s| && v < |s|
    ensures AddAt(AddAt(AddAt(s, a, n), b, n), c, n)[v]
         == Add(s[v], Add(Add(if a == v then n else Zero3, if b == v then n else Zero3), if c == v then n else Zero3))
  {
  }

  /** A vertex that no triangle uses keeps its starting value. */
  lemma {:induction false} UnusedVertexUntouched(start: seq<Vec3>, positions: seq<Vec3>, indices: seq<nat>,
                                                 faceNormal: (Vec3, Vec3, Vec3) -> Vec3, t: nat, v: nat)
    requires |start| == |positions| && IndicesInRange(indices, |positions|) && 3 * t <= |indices|
    requires v < |positions|
    requires forall k | 0 <= k < 3 * t :: indices[k] != v
    ensures Accumulated(start, positions, indices, faceNormal, t)[v] == start[v]
    decreases t
  {
    if t > 0 {
      UnusedVertexUntouched(start, positions, indices, faceNormal, t - 1, v);
      assert indices[3 * (t - 1)] != v && indices[3 * (t - 1) + 1] != v && indices[3 * (t - 1) + 2] != v;
    }
  }

  /** The final pass of CalcNormals: every accumulated normal normalized in place. */
  function Normalized(s: seq<Vec3>, normalize: Vec3 -> Vec3): (r: seq<Vec3>)
    ensures |r| == |s|
  {
    if |s| == 0 then [] else Normalized(s[..|s| - 1], normalize) + [normalize(s[|s| - 1])]
  }

  lemma {:induction false} NormalizedAt(s: seq<Vec3>, normalize: Vec3 -> Vec3, k: nat)
    requires k < |s|
    ensures Normalized(s, normalize)[k] == normalize(s[k])
  {
    if k < |s| - 1 {
      NormalizedAt(s[..|s| - 1], normalize, k);
    }
  }

  /** A sequence that normalizes s entry by entry is Normalized(s). */
  lemma {:induction false} NormalizedPointwise(r: seq<Vec3>, s: seq<Vec3>, normalize: Vec3 -> Vec3)
    requires |r| == |s| && forall k | 0 <= k < |s| :: r[k] == normalize(s[k])
    ensures r == Normalized(s, normalize)
  {
    if |s| > 0 {
      NormalizedPointwise(r[..|r| - 1], s[..|s| - 1], normalize);
      assert r == r[..|r| - 1] + [r[|r| - 1]];
    }
  }

  /** The texcoords CalcTexcoords computes: every position projected against the box. */
  function Projected(positions: seq<Vec3>, bbox: Bbox, project: (Vec3, Bbox) -> Vec2): (r: seq<Vec2>)
    ensures |r| == |positions|
  {
    if |positions| == 0 then []
    else Projected(positions[..|positions| - 1], bbox, project) + [project(positions[|positions| - 1], bbox)]
  }

  /** A sequence that projects the positions entry by entry is their Projected sequence. */
  lemma {:induction false} ProjectedPointwise(r: seq<Vec2>, positions: seq<Vec3>, bbox: Bbox, project: (Vec3, Bbox) -> Vec2)
    requires |r| == |positions| && forall k | 0 <= k < |positions| :: r[k] == project(positions[k], bbox)
    ensures r == Projected(positions, bbox, project)
  {
    if |positions| > 0 {
      ProjectedPointwise(r[..|r| - 1], positions[..|positions| - 1], bbox, project);
      assert r == r[..|r| - 1] + [r[|r| - 1]];
    }
  }

  /** The normals CalcNormals leaves for the given prior normals. */
  function ComputedNormals(prior: seq<Vec3>, positions: seq<Vec3>, indices: seq<nat>,
                           faceNormal: (Vec3, Vec3, Vec3) -> Vec3, normalize: Vec3 -> Vec3): (r: seq<Vec3>)
    requires |indices| % 3 == 0 && IndicesInRange(indices, |positions|)
    ensures |r| == |positions|
  {
    Normalized(Accumulated(Resize(prior, |positions|, Zero3), positions, indices, faceNormal, |indices| / 3), normalize)
  }

  /** For a mesh without prior normals, vertex v's normal is the normalised sum of its faces' normals. */
  lemma ComputedNormalAt(positions: seq<Vec3>, indices: seq<nat>,
                         faceNormal: (Vec3, Vec3, Vec3) -> Vec3, normalize: Vec3 -> Vec3, v: nat)
    requires |indices| % 3 == 0 && IndicesInRange(indices, |positions|) && v < |positions|
    ensures ComputedNormals([], positions, indices, faceNormal, normalize)[v]
         == normalize(Contribution(positions, indices, faceNormal, v, |indices| / 3))
  {
    var start := Resize([], |positions|, Zero3);
    AccumulatedAt(start, positions, indices, faceNormal, |indices| / 3, v);
    NormalizedAt(Accumulated(start, positions, indices, faceNormal, |indices| / 3), normalize, v);
  }

  class Mesh {
    var positions: seq<Vec3>
    var normals: seq<Vec3>
    var texcoords: seq<Vec2>
    var indices: seq<nat>
    var bbox: Bbox

    var geometryBuffer: CuBuffer?<TriMesh>
    var positionsBuffer: CuBuffer?<Vec3>
    var normalsBuffer: CuBuffer?<Vec3>
    var texcoordsBuffer: CuBuffer?<Vec2>
    var indicesBuffer: CuBuffer?<nat>
    var accelBuffer: CuBuffer?<AccelBottom>
    var accelNodesBuffer: CuBuffer?<NodeRecord>
    var accelBboxesBuffer: CuBuffer?<Bbox>

    function Attributes(): MeshData
      reads this
    {
      MeshData(positions, normals, texcoords, indices, bbox)
    }

    function Buffers(): MeshBuffers
      reads this
    {
      MeshBuffers(geometryBuffer, positionsBuffer, normalsBuffer, texcoordsBuffer, indicesBuffer,
                  accelBuffer, accelNodesBuffer, accelBboxesBuffer)
    }

    /**
     * The box is the fold over the current positions, and every attribute buffer that
     * exists holds the current attribute array (the two vec3 buffers are distinct objects,
     * as two unique_ptr members are).
     */
    predicate Valid()
      reads this, positionsBuffer, normalsBuffer, texcoordsBuffer, indicesBuffer
    {
      && bbox == Bounds(positions)
      && (positionsBuffer != null ==> positionsBuffer.contents == positions)
      && (normalsBuffer != null ==> normalsBuffer.contents == normals)
      && (texcoordsBuffer != null ==> texcoordsBuffer.contents == texcoords)
      && (indicesBuffer != null ==> indicesBuffer.contents == indices)
      && (positionsBuffer != null && normalsBuffer != null ==> positionsBuffer != normalsBuffer)
    }

    /** Every attribute buffer BuildAccel dereferences exists. */
    predicate Uploaded()
      reads this
    {
      positionsBuffer != null && normalsBuffer != null && texcoordsBuffer != null && indicesBuffer != null
    }

    /** A default-constructed mesh: no attributes, no buffers. */
    constructor ()
      ensures Valid()
      ensures positions == [] && normals == [] && texcoords == [] && indices == []
      ensures Buffers() == MeshBuffers(null, null, null, null, null, null, null, null)
    {
      positions, normals, texcoords, indices := [], [], [], [];
      bbox := EmptyBox;
      geometryBuffer, positionsBuffer, normalsBuffer, texcoordsBuffer := null, null, null, null;
      indicesBuffer, accelBuffer, accelNodesBuffer, accelBboxesBuffer := null, null, null, null;
    }

    /** Mesh::SetPositions: replace the positions, refold the box, upload. */
    method SetPositions(ps: seq<Vec3>)
      requires Valid()
      modifies this, positionsBuffer
      ensures Valid()
      ensures Attributes() == old(Attributes()).(positions := ps, bbox := Bounds(ps))
      ensures Buffers() == old(Buffers()).(positions := positionsBuffer)
      ensures NeedsRealloc(old(CapacityOf(positionsBuffer)), |ps|) ==> fresh(positionsBuffer)
      ensures !NeedsRealloc(old(CapacityOf(positionsBuffer)), |ps|) ==> positionsBuffer == old(positionsBuffer)
      ensures positionsBuffer != null && positionsBuffer.size == CapacityAfter(old(CapacityOf(positionsBuffer)), |ps|)
    {
      var box := EmptyBox;
      for i := 0 to |ps|
        invariant box == Bounds(ps[..i])
      {
        assert ps[..i + 1][..i] == ps[..i];
        box := MergePoint(box, ps[i]);
      }
      assert ps[..|ps|] == ps;
      positions := ps;
      bbox := box;
      positionsBuffer := Upload(positionsBuffer, |ps|, ps);
    }

    /** Mesh::SetNormals */
    method SetNormals(ns: seq<Vec3>)
      requires Valid()
      modifies this, normalsBuffer
      ensures Valid()
      ensures Attributes() == old(Attributes()).(normals := ns)
      ensures Buffers() == old(Buffers()).(normals := normalsBuffer)
      ensures NeedsRealloc(old(CapacityOf(normalsBuffer)), |ns|) ==> fresh(normalsBuffer)
      ensures !NeedsRealloc(old(CapacityOf(normalsBuffer)), |ns|) ==> normalsBuffer == old(normalsBuffer)
      ensures normalsBuffer != null && normalsBuffer.size == CapacityAfter(old(CapacityOf(normalsBuffer)), |ns|)
    {
      normals := ns;
      normalsBuffer := Upload(normalsBuffer, |ns|, ns);
    }

    /** Mesh::SetTexcoords */
    method SetTexcoords(uvs: seq<Vec2>)
      requires Valid()
      modifies this, texcoordsBuffer
      ensures Valid()
      ensures Attributes() == old(Attributes()).(texcoords := uvs)
      ensures Buffers() == old(Buffers()).(texcoords := texcoordsBuffer)
      ensures NeedsRealloc(old(CapacityOf(texcoordsBuffer)), |uvs|) ==> fresh(texcoordsBuffer)
      ensures !NeedsRealloc(old(CapacityOf(texcoordsBuffer)), |uvs|) ==> texcoordsBuffer == old(texcoordsBuffer)
      ensures texcoordsBuffer != null && texcoordsBuffer.size == CapacityAfter(old(CapacityOf(texcoordsBuffer)), |uvs|)
    {
      texcoords := uvs;
      texcoordsBuffer := Upload(texcoordsBuffer, |uvs|, uvs);
    }

    /** Mesh::SetIndices */
    method SetIndices(ids: seq<nat>)
      requires Valid()
      modifies this, indicesBuffer
      ensures Valid()
      ensures Attributes() == old(Attributes()).(indices := ids)
      ensures Buffers() == old(Buffers()).(indices := indicesBuffer)
      ensures NeedsRealloc(old(CapacityOf(indicesBuffer)), |ids|) ==> fresh(indicesBuffer)
      ensures !NeedsRealloc(old(CapacityOf(indicesBuffer)), |ids|) ==> indicesBuffer == old(indicesBuffer)
      ensures indicesBuffer != null && indicesBuffer.size == CapacityAfter(old(CapacityOf(indicesBuffer)), |ids|)
    {
      indices := ids;
      indicesBuffer := Upload(indicesBuffer, |ids|, ids);
    }

    /**
     * Mesh::CalcNormals as written: resize to one normal per position, add each face's
     * normal to its three corners, normalise every entry. No device buffer is touched.
     */
    method CalcNormalsAsWritten(faceNormal: (Vec3, Vec3, Vec3) -> Vec3, normalize: Vec3 -> Vec3)
      requires |indices| % 3 == 0 && IndicesInRange(indices, |positions|)
      modifies this
      ensures Attributes() == old(Attributes()).(normals := normals)
      ensures Buffers() == old(Buffers())
      ensures normals == ComputedNormals(old(normals), positions, indices, faceNormal, normalize)
      ensures |normals| == |positions|
    {
      var start := Resize(normals, |positions|, Zero3);
      var summed := AccumulateFaces(start, faceNormal);
      normals := NormalizeAll(summed, normalize);
    }

    /** The face loop of CalcNormals: each face's normal added to its three corners. */
    method AccumulateFaces(start: seq<Vec3>, faceNormal: (Vec3, Vec3, Vec3) -> Vec3) returns (acc: seq<Vec3>)
      requires |start| == |positions| && |indices| % 3 == 0 && IndicesInRange(indices, |positions|)
      ensures acc == Accumulated(start, positions, indices, faceNormal, |indices| / 3)
    {
      acc := start;
      var i := 0;
      ghost var f := 0;
      while i < |indices|
        invariant i == 3 * f && i <= |indices|
        invariant acc == Accumulated(start, positions, indices, faceNormal, f)
      {
        var n := faceNormal(positions[indices[i]], positions[indices[i + 1]], positions[indices[i + 2]]);
        acc := acc[indices[i] := Add(acc[indices[i]], n)];
        acc := acc[indices[i + 1] := Add(acc[indices[i + 1]], n)];
        acc := acc[indices[i + 2] := Add(acc[indices[i + 2]], n)];
        i, f := i + 3, f + 1;
      }
      assert f == |indices| / 3;
    }

    /** The normalisation loop of CalcNormals. */
    static method NormalizeAll(summed: seq<Vec3>, normalize: Vec3 -> Vec3) returns (acc: seq<Vec3>)
      ensures acc == Normalized(summed, normalize)
    {
      acc := summed;
      for k := 0 to |acc|
        invariant |acc| == |summed|
        invariant forall j | 0 <= j < k :: acc[j] == normalize(summed[j])
        invariant forall j | k <= j < |acc| :: acc[j] == summed[j]
      {
        acc := acc[k := normalize(acc[k])];
      }
      NormalizedPointwise(acc, summed, normalize);
    }

    /**
     * Mesh::CalcTexcoords as written: one coordinate per position, the spherical projection
     * of the position about the box centroid. No device buffer is touched.
     */
    method CalcTexcoordsAsWritten(project: (Vec3, Bbox) -> Vec2)
      modifies this
      ensures |texcoords| == |positions|
      ensures forall i | 0 <= i < |positions| :: texcoords[i] == project(positions[i], bbox)
      ensures Attributes() == old(Attributes()).(texcoords := texcoords)
      ensures Buffers() == old(Buffers())
    {
      var uvs := Resize(texcoords, |positions|, Zero2);
      for i := 0 to |positions|
        invariant |uvs| == |positions|
        invariant forall j | 0 <= j < i :: uvs[j] == project(positions[j], bbox)
      {
        uvs := uvs[i := project(positions[i], bbox)];
      }
      texcoords := uvs;
    }

    /** CalcNormals followed by the upload the setters perform. */
    method CalcNormals(faceNormal: (Vec3, Vec3, Vec3) -> Vec3, normalize: Vec3 -> Vec3)
      requires Valid()
      requires |indices| % 3 == 0 && IndicesInRange(indices, |positions|)
      modifies this, normalsBuffer
      ensures Valid()
      ensures Attributes() == old(Attributes()).(normals := normals)
      ensures Buffers() == old(Buffers()).(normals := normalsBuffer)
      ensures normals == ComputedNormals(old(normals), positions, indices, faceNormal, normalize)
      ensures normalsBuffer != null
    {
      CalcNormalsAsWritten(faceNormal, normalize);
      normalsBuffer := Upload(normalsBuffer, |normals|, normals);
    }

    /** CalcTexcoords followed by the upload the setters perform. */
    method CalcTexcoords(project: (Vec3, Bbox) -> Vec2)
      requires Valid()
      modifies this, texcoordsBuffer
      ensures Valid()
      ensures |texcoords| == |positions|
      ensures forall i | 0 <= i < |positions| :: texcoords[i] == project(positions[i], bbox)
      ensures Attributes() == old(Attributes()).(texcoords := texcoords)
      ensures Buffers() == old(Buffers()).(texcoords := texcoordsBuffer)
      ensures texcoordsBuffer != null
    {
      CalcTexcoordsAsWritten(project);
      texcoordsBuffer := Upload(texcoordsBuffer, |texcoords|, texcoords);
    }

    /**
     * The host array `accel_bboxes` of BuildAccel: 2T - 1 value-initialised boxes, the
     * box of triangle i written at T - 1 + i.
     */
    method FillHostBoxes() returns (boxes: seq<Bbox>)
      requires IndicesInRange(indices, |positions|) && |indices| / 3 >= 1
      ensures HoldsLeaves(boxes, LeafBoxes(positions, indices))
      ensures forall k | 0 <= k < |indices| / 3 - 1 :: boxes[k] == ZeroBox
    {
      var t := |indices| / 3;
      var a := new Bbox[NodeCount(t)](_ => ZeroBox);
      for i := 0 to t
        invariant forall k | 0 <= k < t - 1 :: a[k] == ZeroBox
        invariant forall j | 0 <= j < i :: a[t - 1 + j] == LeafBox(positions, indices, j)
      {
        var i0, i1, i2 := indices[3 * i], indices[3 * i + 1], indices[3 * i + 2];
        a[t - 1 + i] := TriangleBox(positions[i0], positions[i1], positions[i2]);
      }
      boxes := a[..];
      assert boxes[t - 1..] == LeafBoxes(positions, indices);
    }

    /**
     * Upload the host box array and reserve the node array, both under the grow-only
     * policy, then run the builder on them.
     */
    method BuildHierarchy(host: seq<Bbox>, leaves: seq<Bbox>, merged: Bbox, internal: seq<Bbox>)
      requires |leaves| >= 1 && HoldsLeaves(host, leaves) && |internal| == |leaves| - 1
      modifies this`accelBboxesBuffer, this`accelNodesBuffer, accelBboxesBuffer
      ensures accelBboxesBuffer != null && accelNodesBuffer != null
      ensures accelBboxesBuffer.contents == internal + leaves
      ensures HoldsLeaves(accelBboxesBuffer.contents, leaves)
      ensures NeedsRealloc(old(CapacityOf(accelBboxesBuffer)), |host|) ==> fresh(accelBboxesBuffer)
      ensures accelBboxesBuffer.size == CapacityAfter(old(CapacityOf(accelBboxesBuffer)), |host|)
      ensures NeedsRealloc(old(CapacityOf(accelNodesBuffer)), |host|) ==> fresh(accelNodesBuffer)
      ensures !NeedsRealloc(old(CapacityOf(accelNodesBuffer)), |host|) ==> accelNodesBuffer == old(accelNodesBuffer)
      ensures accelNodesBuffer.size == CapacityAfter(old(CapacityOf(accelNodesBuffer)), |host|)
    {
      var bboxes := Upload(accelBboxesBuffer, |host|, host);
      var nodes := Reserve(accelNodesBuffer, |host|);
      accelBboxesBuffer, accelNodesBuffer := bboxes, nodes;
      ExternalBuild(bboxes, BuildRequest(merged, |leaves|), internal);
      BuildKeepsLeaves(host, internal, leaves);
      assert host[|leaves| - 1..] == leaves;
    }

    /** The TriMesh and AccelBottom records: created on the first build, overwritten later. */
    method StoreRecords(t: nat)
      requires Uploaded() && accelNodesBuffer != null && accelBboxesBuffer != null
      modifies this`geometryBuffer, this`accelBuffer, geometryBuffer, accelBuffer
      ensures geometryBuffer != null && accelBuffer != null
      ensures geometryBuffer.contents == [TriMesh(positionsBuffer, normalsBuffer, texcoordsBuffer, indicesBuffer, t)]
      ensures accelBuffer.contents == [AccelBottom(accelNodesBuffer, accelBboxesBuffer, TriMeshGeometry(geometryBuffer))]
      ensures old(geometryBuffer) == null ==> fresh(geometryBuffer)
      ensures old(geometryBuffer) != null ==> geometryBuffer == old(geometryBuffer)
      ensures old(accelBuffer) == null ==> fresh(accelBuffer)
      ensures old(accelBuffer) != null ==> accelBuffer == old(accelBuffer)
    {
      geometryBuffer := Store(geometryBuffer, 1, TriMesh(positionsBuffer, normalsBuffer, texcoordsBuffer, indicesBuffer, t));
      accelBuffer := Store(accelBuffer, 1, AccelBottom(accelNodesBuffer, accelBboxesBuffer, TriMeshGeometry(geometryBuffer)));
    }

    /**
     * Mesh::BuildAccel: T = |indices| / 3 leaves laid out in a 2T - 1 box array, uploaded
     * under the grow-only policy; a node array reserved under the same policy; the builder
     * run with the mesh box as merged box; the TriMesh and AccelBottom records created on
     * the first build and overwritten afterwards. `internal` is what the builder computes
     * for the internal nodes.
     */
    method BuildAccel(internal: seq<Bbox>) returns (request: BuildRequest)
      requires Valid() && Uploaded()
      requires IndicesInRange(indices, |positions|) && |indices| / 3 >= 1
      requires |internal| == |indices| / 3 - 1
      modifies this`accelBboxesBuffer, this`accelNodesBuffer, this`geometryBuffer, this`accelBuffer
      modifies accelBboxesBuffer, geometryBuffer, accelBuffer
      ensures Valid() && Uploaded()
      ensures Attributes() == old(Attributes())
      ensures Buffers() == old(Buffers()).(geometry := geometryBuffer, accel := accelBuffer,
                                           nodes := accelNodesBuffer, bboxes := accelBboxesBuffer)
      ensures request == BuildRequest(bbox, |indices| / 3)
      ensures forall i | 0 <= i < |indices| / 3 :: Encloses(request.merged, LeafBox(positions, indices, i))
      ensures accelBboxesBuffer != null && accelNodesBuffer != null && geometryBuffer != null && accelBuffer != null
      ensures HoldsLeaves(accelBboxesBuffer.contents, LeafBoxes(positions, indices))
      ensures accelBboxesBuffer.contents[..|indices| / 3 - 1] == internal
      ensures accelBboxesBuffer.size == CapacityAfter(old(CapacityOf(accelBboxesBuffer)), NodeCount(|indices| / 3))
      ensures accelNodesBuffer.size == CapacityAfter(old(CapacityOf(accelNodesBuffer)), NodeCount(|indices| / 3))
      ensures geometryBuffer.contents == [TriMesh(positionsBuffer, normalsBuffer, texcoordsBuffer, indicesBuffer, |indices| / 3)]
      ensures accelBuffer.contents == [AccelBottom(accelNodesBuffer, accelBboxesBuffer, TriMeshGeometry(geometryBuffer))]
      ensures old(geometryBuffer) != null ==> geometryBuffer == old(geometryBuffer)
      ensures old(accelBuffer) != null ==> accelBuffer == old(accelBuffer)
    {
      var t := |indices| / 3;
      var leaves := LeafBoxes(positions, indices);
      var host := FillHostBoxes();
      BuildHierarchy(host, leaves, bbox, internal);
      assert (internal + leaves)[..t - 1] == internal;
      request := BuildRequest(bbox, t);
      forall i | 0 <= i < t
        ensures Encloses(request.merged, LeafBox(positions, indices, i))
      {
        MeshBoxEnclosesLeaves(positions, indices, i);
      }
      StoreRecords(t);
    }
  }

  /**
   * The loader's path for a file without normals, with CalcNormals as written: the mesh
   * ends with no normal buffer, so the TriMesh record BuildAccel writes has nothing to
   * point at.
   */
  method NormalsNeverUploaded(faceNormal: (Vec3, Vec3, Vec3) -> Vec3, normalize: Vec3 -> Vec3)
    returns (m: Mesh)
    ensures m.Valid() && m.normalsBuffer == null && !m.Uploaded()
    ensures |m.normals| == |m.positions| == 3
  {
    m := new Mesh();
    m.SetPositions([Zero3, Vec3(1.0, 0.0, 0.0), Vec3(0.0, 1.0, 0.0)]);
    m.SetIndices([0, 1, 2]);
    assert m.normals == [] && m.normalsBuffer == null;
    m.CalcNormalsAsWritten(faceNormal, normalize);
  }
}
