/**
 * The OBJ loader: faces of every shape are grouped by material id into one object per
 * distinct id, the (vertex, normal, texcoord) triples of each object are de-duplicated
 * into a compact vertex list plus an index list, material id -1 maps to a trailing
 * default material, and texture images are widened to RGBA.
 *
 * The parser itself is not modelled: its result (or its failure) is the input.
 */
module ObjLoading {
  import opened Options
  import opened Geometry
  import opened Materials
  import M = Meshes
  import opened TextureLoading

  /** tinyobj stores indices and material ids as C `int`. */
  newtype int32 = x: int | -0x8000_0000 <= x < 0x8000_0000

  // ---------------------------------------------------------------- hashing

  /** HashCombine over 64-bit size_t: every `+` and shift wraps around. */
  function HashCombine(seed: bv64, v: bv64): bv64 {
    seed ^ (v + 0x9e3779b9 + (seed << 6) + (seed >> 2))
  }

  /** Recovers the combined value from the seed and the result. */
  function Uncombine(seed: bv64, h: bv64): bv64 {
    (h ^ seed) - (seed >> 2) - (seed << 6) - 0x9e3779b9
  }

  /** The wrap-around identity behind UncombineInverts, on the unfolded expression. */
  lemma XorAddCancel(seed: bv64, v: bv64)
    ensures ((seed ^ (v + 0x9e3779b9 + (seed << 6) + (seed >> 2))) ^ seed) - (seed >> 2) - (seed << 6) - 0x9e3779b9 == v
  {
  }

  lemma UncombineUnfolded(seed: bv64, v: bv64)
    ensures Uncombine(seed, seed ^ (v + 0x9e3779b9 + (seed << 6) + (seed >> 2))) == v
  {
    XorAddCancel(seed, v);
  }

  lemma UncombineOfHash(seed: bv64, v: bv64)
    ensures Uncombine(seed, HashCombine(seed, v)) == Uncombine(seed, seed ^ (v + 0x9e3779b9 + (seed << 6) + (seed >> 2)))
  {
  }

  /** For a fixed seed HashCombine loses nothing: Uncombine undoes it. */
  lemma UncombineInverts(seed: bv64, v: bv64)
    ensures Uncombine(seed, HashCombine(seed, v)) == v
  {
    UncombineOfHash(seed, v);
    UncombineUnfolded(seed, v);
  }

  /** So HashCombine is injective in the combined value. */
  lemma HashCombineInjective(seed: bv64, v: bv64, w: bv64)
    requires HashCombine(seed, v) == HashCombine(seed, w)
    ensures v == w
  {
    UncombineInverts(seed, v);
    UncombineInverts(seed, w);
  }

  const Word: int := 0x1_0000_0000_0000_0000

  /** std::hash<int>: the value converted to size_t, i.e. taken modulo 2^64. */
  function IntHash(x: int32): bv64 {
    ((x as int) % Word) as bv64
  }

  /** One tinyobj::index_t: position, normal and texcoord index (-1 when absent). */
  datatype ObjIndex = ObjIndex(vertex: int32, normal: int32, texcoord: int32)

  /** operator== on index_t / ObjIndex: the three indices agree. */
  function SameIndex(a: ObjIndex, b: ObjIndex): (r: bool)
    ensures r <==> a == b
  {
    a.vertex == b.vertex && a.normal == b.normal && a.texcoord == b.texcoord
  }

  /** std::hash<ObjIndex>: the vertex hash, combined with the normal and texcoord hashes. */
  function ObjHash(i: ObjIndex): bv64 {
    HashCombine(HashCombine(IntHash(i.vertex), IntHash(i.normal)), IntHash(i.texcoord))
  }

  /**
   * Two indices that agree in vertex and normal share a hash only when their texcoord
   * hashes agree: the last combining step never introduces a collision.
   */
  lemma ObjHashLastStepInjective(a: ObjIndex, b: ObjIndex)
    requires a.vertex == b.vertex && a.normal == b.normal && ObjHash(a) == ObjHash(b)
    ensures IntHash(a.texcoord) == IntHash(b.texcoord)
  {
    HashCombineInjective(HashCombine(IntHash(a.vertex), IntHash(a.normal)), IntHash(a.texcoord), IntHash(b.texcoord));
  }

  // ---------------------------------------------------------------- parsed input

  /** tinyobj::attrib_t: flat float arrays, three per position/normal, two per texcoord. */
  datatype Attribs = Attribs(vertices: seq<real>, normals: seq<real>, texcoords: seq<real>)

  /** tinyobj::shape_t: a name, three indices per face and one material id per face. */
  datatype Shape = Shape(name: string, indices: seq<ObjIndex>, materialIds: seq<int32>)

  /**
   * The parts of tinyobj::material_t the Material class of this snapshot can hold: the
   * name, the emission colour, and the decoded emissive texture when the material names one.
   */
  datatype MaterialDesc = MaterialDesc(name: string, emission: Vec3, emissiveTexture: Option<Image>)

  datatype ObjFile = ObjFile(attribs: Attribs, shapes: seq<Shape>, materials: seq<MaterialDesc>)

  /** A position, normal and texcoord as FetchVertexData writes them. */
  datatype VertexData = VertexData(pos: Vec3, norm: Vec3, uv: Vec2)

  /**
   * The reads FetchVertexData performs as written are inside the arrays. With the file's
   * normals present it reads every corner's normal, including a corner written without
   * `/vn`, whose index is -1; likewise for texcoords.
   */
  predicate ReadableAsWritten(attribs: Attribs, c: ObjIndex, hasNormal: bool, hasUv: bool) {
    && 0 <= c.vertex as int && 3 * c.vertex as int + 2 < |attribs.vertices|
    && (hasNormal ==> 0 <= c.normal as int && 3 * c.normal as int + 2 < |attribs.normals|)
    && (hasUv ==> 0 <= c.texcoord as int && 2 * c.texcoord as int + 1 < |attribs.texcoords|)
  }

  /** FetchVertexData as written, defined where its reads are inside the arrays. */
  function FetchAsWritten(attribs: Attribs, c: ObjIndex, hasNormal: bool, hasUv: bool): VertexData
    requires ReadableAsWritten(attribs, c, hasNormal, hasUv)
  {
    var p := 3 * c.vertex as int;
    var pos := Vec3(attribs.vertices[p], attribs.vertices[p + 1], attribs.vertices[p + 2]);
    var norm :=
      if hasNormal then
        var q := 3 * c.normal as int;
        Vec3(attribs.normals[q], attribs.normals[q + 1], attribs.normals[q + 2])
      else Zero3;
    var uv :=
      if hasUv then
        var t := 2 * c.texcoord as int;
        Vec2(attribs.texcoords[t], attribs.texcoords[t + 1])
      else Zero2;
    VertexData(pos, norm, uv)
  }

  /** What the corrected fetch reads is in range; a corner without a normal or texcoord reads none. */
  predicate ValidCorner(attribs: Attribs, c: ObjIndex, hasNormal: bool, hasUv: bool) {
    && 0 <= c.vertex as int && 3 * c.vertex as int + 2 < |attribs.vertices|
    && (hasNormal && 0 <= c.normal as int ==> 3 * c.normal as int + 2 < |attribs.normals|)
    && (hasUv && 0 <= c.texcoord as int ==> 2 * c.texcoord as int + 1 < |attribs.texcoords|)
  }

  /**
   * FetchVertexData, corrected: a normal or texcoord the file lacks, or that the corner
   * does not name (index -1), is zero-filled.
   */
  function Fetch(attribs: Attribs, c: ObjIndex, hasNormal: bool, hasUv: bool): (r: VertexData)
    requires ValidCorner(attribs, c, hasNormal, hasUv)
    ensures r.pos == Vec3(attribs.vertices[3 * c.vertex as int], attribs.vertices[3 * c.vertex as int + 1],
                          attribs.vertices[3 * c.vertex as int + 2])
    ensures !hasNormal || c.normal < 0 ==> r.norm == Zero3
    ensures !hasUv || c.texcoord < 0 ==> r.uv == Zero2
    ensures hasNormal && 0 <= c.normal ==>
      r.norm == Vec3(attribs.normals[3 * c.normal as int], attribs.normals[3 * c.normal as int + 1],
                     attribs.normals[3 * c.normal as int + 2])
    ensures hasUv && 0 <= c.texcoord ==>
      r.uv == Vec2(attribs.texcoords[2 * c.texcoord as int], attribs.texcoords[2 * c.texcoord as int + 1])
  {
    var p := 3 * c.vertex as int;
    var pos := Vec3(attribs.vertices[p], attribs.vertices[p + 1], attribs.vertices[p + 2]);
    var norm :=
      if hasNormal && 0 <= c.normal then
        var q := 3 * c.normal as int;
        Vec3(attribs.normals[q], attribs.normals[q + 1], attribs.normals[q + 2])
      else Zero3;
    var uv :=
      if hasUv && 0 <= c.texcoord then
        var t := 2 * c.texcoord as int;
        Vec2(attribs.texcoords[t], attribs.texcoords[t + 1])
      else Zero2;
    VertexData(pos, norm, uv)
  }

  /** Wherever the fetch as written stays inside the arrays, the corrected one agrees with it. */
  lemma FetchExtendsAsWritten(attribs: Attribs, c: ObjIndex, hasNormal: bool, hasUv: bool)
    requires ReadableAsWritten(attribs, c, hasNormal, hasUv)
    ensures ValidCorner(attribs, c, hasNormal, hasUv)
    ensures Fetch(attribs, c, hasNormal, hasUv) == FetchAsWritten(attribs, c, hasNormal, hasUv)
  {
  }

  /**
   * A file that mixes `f 1//1 2//1 3//1` with `f 1 2 3`: it has normals, so the second
   * face's corners, whose normal index is -1, are read at normals[-3] as written. The
   * corrected loader accepts the file and zero-fills those normals.
   */
  lemma MixedNormalsOverread()
    ensures var attribs := Attribs([0.0, 0.0, 0.0, 1.0, 0.0, 0.0, 0.0, 1.0, 0.0], [0.0, 0.0, 1.0], []);
            var bare := ObjIndex(0, -1, -1);
            var corners := [ObjIndex(0, 0, -1), ObjIndex(1, 0, -1), ObjIndex(2, 0, -1), bare, ObjIndex(1, -1, -1), ObjIndex(2, -1, -1)];
            var file := ObjFile(attribs, [Shape("s", corners, [-1, -1])], []);
            && HasNormals(file)
            && !ReadableAsWritten(attribs, bare, HasNormals(file), HasTexcoords(file))
            && FileOk(file, HasNormals(file), HasTexcoords(file))
            && Fetch(attribs, bare, HasNormals(file), HasTexcoords(file)).norm == Zero3
  {
    var attribs := Attribs([0.0, 0.0, 0.0, 1.0, 0.0, 0.0, 0.0, 1.0, 0.0], [0.0, 0.0, 1.0], []);
    var bare := ObjIndex(0, -1, -1);
    var corners := [ObjIndex(0, 0, -1), ObjIndex(1, 0, -1), ObjIndex(2, 0, -1), bare, ObjIndex(1, -1, -1), ObjIndex(2, -1, -1)];
    var shape := Shape("s", corners, [-1, -1]);
    assert FaceCount(shape) == 2;
    assert forall k | 0 <= k < 6 :: 0 <= corners[k].vertex <= 2 && corners[k].normal <= 0;
  }

  function FaceCount(shape: Shape): nat {
    |shape.indices| / 3
  }

  /** What the loader demands of a shape: a material id per face, ids below the material
   *  count, and every corner of every full face readable. */
  predicate ShapeOk(attribs: Attribs, shape: Shape, materialCount: nat, hasNormal: bool, hasUv: bool) {
    && FaceCount(shape) <= |shape.materialIds|
    && (forall f | 0 <= f < FaceCount(shape) :: shape.materialIds[f] as int < materialCount)
    && (forall k | 0 <= k < 3 * FaceCount(shape) :: ValidCorner(attribs, shape.indices[k], hasNormal, hasUv))
  }

  predicate FileOk(file: ObjFile, hasNormal: bool, hasUv: bool) {
    forall s | 0 <= s < |file.shapes| ::
      ShapeOk(file.attribs, file.shapes[s], |file.materials|, hasNormal, hasUv)
  }

  function FaceCorners(shape: Shape, f: nat): (r: seq<ObjIndex>)
    requires f < FaceCount(shape)
    ensures |r| == 3
  {
    shape.indices[3 * f..3 * f + 3]
  }

  /** The corners of the faces below f whose material id is `id`, in face order. */
  function CornersWith(shape: Shape, id: int32, f: nat): (r: seq<ObjIndex>)
    requires f <= FaceCount(shape) && f <= |shape.materialIds|
  {
    if f == 0 then []
    else CornersWith(shape, id, f - 1) + (if shape.materialIds[f - 1] == id then FaceCorners(shape, f - 1) else [])
  }

  /** The ids used by the faces below f. */
  function IdsBelow(shape: Shape, f: nat): set<int32>
    requires f <= |shape.materialIds|
  {
    set g | 0 <= g < f :: shape.materialIds[g]
  }

  /** The object name: shape name, a dash, then the material name or "default". */
  function ObjectName(shapeName: string, id: int32, materials: seq<MaterialDesc>): (r: string)
    requires id as int < |materials|
    ensures id < 0 ==> r == shapeName + "-default"
    ensures id >= 0 ==> r == shapeName + "-" + materials[id].name
  {
    shapeName + "-" + (if id < 0 then "default" else materials[id].name)
  }

  /** Material id -1 (any negative id) selects the trailing default slot. */
  function MaterialSlot(id: int32, materialCount: nat): (r: nat)
    requires id as int < materialCount
    ensures r <= materialCount
    ensures r == materialCount <==> id < 0
    ensures id >= 0 ==> r == id as int
  {
    if id < 0 then materialCount else id as int
  }

  // ---------------------------------------------------------------- de-duplication

  /** The per-object record LoadObjScene accumulates (the scene object is its name). */
  datatype MeshData = MeshData(
    positions: seq<Vec3>, normals: seq<Vec3>, texcoords: seq<Vec2>, indices: seq<nat>,
    indexMap: map<ObjIndex, nat>, materialId: int32, name: string)

  function NewObject(id: int32, name: string): MeshData {
    MeshData([], [], [], [], map[], id, name)
  }

  /** Triple c has a vertex, and that vertex holds what FetchVertexData reads for c. */
  predicate Stored(indexMap: map<ObjIndex, nat>, positions: seq<Vec3>, normals: seq<Vec3>, texcoords: seq<Vec2>,
                   c: ObjIndex, attribs: Attribs, hasNormal: bool, hasUv: bool) {
    && ValidCorner(attribs, c, hasNormal, hasUv)
    && c in indexMap && indexMap[c] < |positions|
    && var v := Fetch(attribs, c, hasNormal, hasUv);
    && var i := indexMap[c];
    && positions[i] == v.pos
    && (hasNormal ==> i < |normals| && normals[i] == v.norm)
    && (hasUv ==> i < |texcoords| && texcoords[i] == v.uv)
  }

  /**
   * The vertex table: one vertex per key of index_map, distinct keys on distinct
   * vertices, each vertex holding what was fetched for its triple, and normals and
   * texcoords in lockstep with positions when the file has them (absent otherwise).
   */
  predicate VertexTable(indexMap: map<ObjIndex, nat>, positions: seq<Vec3>, normals: seq<Vec3>, texcoords: seq<Vec2>,
                        attribs: Attribs, hasNormal: bool, hasUv: bool) {
    && |positions| == |indexMap|
    && (forall c | c in indexMap :: Stored(indexMap, positions, normals, texcoords, c, attribs, hasNormal, hasUv))
    && (forall a, b | a in indexMap && b in indexMap && a != b :: indexMap[a] != indexMap[b])
    && |normals| == (if hasNormal then |positions| else 0)
    && |texcoords| == (if hasUv then |positions| else 0)
  }

  /** The index list: one entry per corner fed, the vertex of that corner's triple. */
  predicate IndexList(indexMap: map<ObjIndex, nat>, indices: seq<nat>, corners: seq<ObjIndex>) {
    && (forall c | c in indexMap :: c in corners)
    && |indices| == |corners|
    && (forall k | 0 <= k < |corners| :: corners[k] in indexMap && indices[k] == indexMap[corners[k]])
  }

  /** The state after feeding `corners` through the de-duplicating loop. */
  predicate Deduped(d: MeshData, corners: seq<ObjIndex>, attribs: Attribs, hasNormal: bool, hasUv: bool) {
    && VertexTable(d.indexMap, d.positions, d.normals, d.texcoords, attribs, hasNormal, hasUv)
    && IndexList(d.indexMap, d.indices, corners)
  }

  /** One corner of the inner loop: reuse the triple's vertex, or fetch and append a new one. */
  function AddCorner(d: MeshData, c: ObjIndex, attribs: Attribs, hasNormal: bool, hasUv: bool): MeshData
    requires ValidCorner(attribs, c, hasNormal, hasUv)
  {
    if c in d.indexMap then d.(indices := d.indices + [d.indexMap[c]])
    else
      var v := Fetch(attribs, c, hasNormal, hasUv);
      var k := |d.positions|;
      d.(indexMap := d.indexMap[c := k],
         positions := d.positions + [v.pos],
         normals := if hasNormal then d.normals + [v.norm] else d.normals,
         texcoords := if hasUv then d.texcoords + [v.uv] else d.texcoords,
         indices := d.indices + [k])
  }

  /** A new triple appended as vertex |positions| keeps the table consistent. */
  lemma VertexTableExtend(indexMap: map<ObjIndex, nat>, positions: seq<Vec3>, normals: seq<Vec3>, texcoords: seq<Vec2>,
                          c: ObjIndex, attribs: Attribs, hasNormal: bool, hasUv: bool)
    requires VertexTable(indexMap, positions, normals, texcoords, attribs, hasNormal, hasUv)
    requires c !in indexMap && ValidCorner(attribs, c, hasNormal, hasUv)
    ensures
      var v := Fetch(attribs, c, hasNormal, hasUv);
      VertexTable(indexMap[c := |positions|], positions + [v.pos],
                  if hasNormal then normals + [v.norm] else normals,
                  if hasUv then texcoords + [v.uv] else texcoords, attribs, hasNormal, hasUv)
  {
    var v := Fetch(attribs, c, hasNormal, hasUv);
    var m := indexMap[c := |positions|];
    var ps := positions + [v.pos];
    var ns := if hasNormal then normals + [v.norm] else normals;
    var ts := if hasUv then texcoords + [v.uv] else texcoords;
    forall x | x in m
      ensures Stored(m, ps, ns, ts, x, attribs, hasNormal, hasUv)
    {
      if x != c {
        assert Stored(indexMap, positions, normals, texcoords, x, attribs, hasNormal, hasUv);
      }
    }
    forall a, b | a in m && b in m && a != b
      ensures m[a] != m[b]
    {
      if a == c {
        assert Stored(indexMap, positions, normals, texcoords, b, attribs, hasNormal, hasUv);
      } else if b == c {
        assert Stored(indexMap, positions, normals, texcoords, a, attribs, hasNormal, hasUv);
      }
    }
  }

  lemma IndexListExtend(indexMap: map<ObjIndex, nat>, indices: seq<nat>, corners: seq<ObjIndex>, c: ObjIndex, k: nat)
    requires IndexList(indexMap, indices, corners)
    requires c in indexMap ==> k == indexMap[c]
    ensures IndexList(indexMap[c := k], indices + [k], corners + [c])
  {
  }

  lemma AddCornerKeepsDeduped(d: MeshData, corners: seq<ObjIndex>, c: ObjIndex, attribs: Attribs, hasNormal: bool, hasUv: bool)
    requires Deduped(d, corners, attribs, hasNormal, hasUv) && ValidCorner(attribs, c, hasNormal, hasUv)
    ensures Deduped(AddCorner(d, c, attribs, hasNormal, hasUv), corners + [c], attribs, hasNormal, hasUv)
  {
    if c in d.indexMap {
      IndexListExtend(d.indexMap, d.indices, corners, c, d.indexMap[c]);
      assert d.indexMap[c := d.indexMap[c]] == d.indexMap;
    } else {
      VertexTableExtend(d.indexMap, d.positions, d.normals, d.texcoords, c, attribs, hasNormal, hasUv);
      IndexListExtend(d.indexMap, d.indices, corners, c, |d.positions|);
    }
  }

  /**
   * One pass of the corner loop body: look the triple up in index_map, append a vertex
   * only when it is new, then append the triple's vertex index.
   */
  method InsertCorner(d: MeshData, ghost corners: seq<ObjIndex>, c: ObjIndex, ghost fed: seq<ObjIndex>,
                      attribs: Attribs, hasNormal: bool, hasUv: bool)
    returns (e: MeshData)
    requires Deduped(d, corners, attribs, hasNormal, hasUv) && ValidCorner(attribs, c, hasNormal, hasUv)
    requires fed == corners + [c]
    ensures e.materialId == d.materialId && e.name == d.name
    ensures Deduped(e, fed, attribs, hasNormal, hasUv)
  {
    AddCornerKeepsDeduped(d, corners, c, attribs, hasNormal, hasUv);
    e := AddCorner(d, c, attribs, hasNormal, hasUv);
  }

  /**
   * What the de-duplicated object guarantees: every index is a vertex, the vertex of
   * corner k holds what was fetched for corner k, and there are exactly as many vertices
   * as distinct triples.
   */
  lemma DedupedRoundTrip(d: MeshData, corners: seq<ObjIndex>, attribs: Attribs, hasNormal: bool, hasUv: bool, k: nat)
    requires Deduped(d, corners, attribs, hasNormal, hasUv) && k < |corners|
    ensures ValidCorner(attribs, corners[k], hasNormal, hasUv)
    ensures d.indices[k] < |d.positions|
    ensures d.positions[d.indices[k]] == Fetch(attribs, corners[k], hasNormal, hasUv).pos
    ensures hasNormal ==> d.normals[d.indices[k]] == Fetch(attribs, corners[k], hasNormal, hasUv).norm
    ensures hasUv ==> d.texcoords[d.indices[k]] == Fetch(attribs, corners[k], hasNormal, hasUv).uv
  {
    assert Stored(d.indexMap, d.positions, d.normals, d.texcoords, corners[k], attribs, hasNormal, hasUv);
  }

  /** One vertex per distinct triple among the corners fed. */
  lemma DedupedVertexCount(d: MeshData, corners: seq<ObjIndex>, attribs: Attribs, hasNormal: bool, hasUv: bool)
    requires Deduped(d, corners, attribs, hasNormal, hasUv)
    ensures |d.positions| == |set c | c in corners|
  {
    assert d.indexMap.Keys == set c | c in corners;
    assert |d.indexMap.Keys| == |d.indexMap|;
  }

  /** All object vertices are referenced through in-range indices (what Mesh::SetIndices needs). */
  lemma DedupedIndicesInRange(d: MeshData, corners: seq<ObjIndex>, attribs: Attribs, hasNormal: bool, hasUv: bool)
    requires Deduped(d, corners, attribs, hasNormal, hasUv)
    ensures M.IndicesInRange(d.indices, |d.positions|)
  {
    forall k | 0 <= k < |d.indices|
      ensures d.indices[k] < |d.positions|
    {
      assert Stored(d.indexMap, d.positions, d.normals, d.texcoords, corners[k], attribs, hasNormal, hasUv);
    }
  }

  /**
   * An object of `shape` after the faces below f: a material id the file has, the name
   * built from it, and exactly the corners of the faces below f with that id, de-duplicated.
   */
  predicate ObjectAfter(d: MeshData, shape: Shape, file: ObjFile, hasNormal: bool, hasUv: bool, f: nat)
    requires f <= FaceCount(shape) && f <= |shape.materialIds|
  {
    && d.materialId as int < |file.materials|
    && d.name == ObjectName(shape.name, d.materialId, file.materials)
    && Deduped(d, CornersWith(shape, d.materialId, f), file.attribs, hasNormal, hasUv)
  }

  /** The object of material `id` in `shape`: its name, and the corners of exactly its faces. */
  predicate ShapeObject(d: MeshData, shape: Shape, file: ObjFile, hasNormal: bool, hasUv: bool)
    requires FaceCount(shape) <= |shape.materialIds|
  {
    ObjectAfter(d, shape, file, hasNormal, hasUv, FaceCount(shape))
  }

  /**
   * Corner i of the slice starting at lo, fed after `before` and the corners ahead of it;
   * `next` is the advanced corner cursor.
   */
  method InsertSliceCorner(d: MeshData, ghost before: seq<ObjIndex>, s: seq<ObjIndex>, lo: nat, i: nat,
                           attribs: Attribs, hasNormal: bool, hasUv: bool)
    returns (e: MeshData, next: nat)
    requires lo + i < |s| && ValidCorner(attribs, s[lo + i], hasNormal, hasUv)
    requires Deduped(d, before + s[lo..lo + i], attribs, hasNormal, hasUv)
    ensures next == i + 1
    ensures e.materialId == d.materialId && e.name == d.name
    ensures Deduped(e, before + s[lo..lo + next], attribs, hasNormal, hasUv)
  {
    next := i + 1;
    SnocSlice(before, s, lo, i, next);
    e := InsertCorner(d, before + s[lo..lo + i], s[lo + i], before + s[lo..lo + next], attribs, hasNormal, hasUv);
  }

  /**
   * The inner `for i < 3` loop for face f: its three corners go, in order, through the
   * de-duplicating step.
   */
  method AddFace(d: MeshData, ghost before: seq<ObjIndex>, shape: Shape, f: nat, attribs: Attribs, hasNormal: bool, hasUv: bool)
    returns (e: MeshData)
    requires 3 * f + 3 <= |shape.indices|
    requires forall k | 3 * f <= k < 3 * f + 3 :: ValidCorner(attribs, shape.indices[k], hasNormal, hasUv)
    requires Deduped(d, before, attribs, hasNormal, hasUv)
    ensures e.materialId == d.materialId && e.name == d.name
    ensures Deduped(e, before + shape.indices[3 * f..3 * f + 3], attribs, hasNormal, hasUv)
  {
    e := d;
    var lo := 3 * f;
    assert before + shape.indices[lo..lo] == before;
    var i := 0;
    while i < 3
      invariant i <= 3
      invariant e.materialId == d.materialId && e.name == d.name
      invariant Deduped(e, before + shape.indices[lo..lo + i], attribs, hasNormal, hasUv)
    {
      e, i := InsertSliceCorner(e, before, shape.indices, lo, i, attribs, hasNormal, hasUv);
    }
  }

  lemma FaceInBounds(shape: Shape, f: nat)
    requires f < FaceCount(shape)
    ensures 3 * f + 3 <= |shape.indices|
  {
  }

  lemma SnocSlice<T>(before: seq<T>, s: seq<T>, lo: nat, i: nat, next: nat)
    requires lo + i < |s| && next == i + 1
    ensures before + s[lo..lo + i] + [s[lo + i]] == before + s[lo..lo + next]
  {
    assert s[lo..lo + next] == s[lo..lo + i] + [s[lo + i]];
  }

  lemma CornersWithSame(shape: Shape, f: nat)
    requires f < FaceCount(shape) && f < |shape.materialIds|
    ensures CornersWith(shape, shape.materialIds[f], f + 1)
         == CornersWith(shape, shape.materialIds[f], f) + shape.indices[3 * f..3 * f + 3]
  {
  }

  lemma CornersWithOther(shape: Shape, id: int32, f: nat)
    requires f < FaceCount(shape) && f < |shape.materialIds| && shape.materialIds[f] != id
    ensures CornersWith(shape, id, f + 1) == CornersWith(shape, id, f)
  {
  }

  /** An id no face below f uses has no corners yet. */
  lemma {:induction false} CornersWithUnused(shape: Shape, id: int32, f: nat)
    requires f <= FaceCount(shape) && f <= |shape.materialIds| && id !in IdsBelow(shape, f)
    ensures CornersWith(shape, id, f) == []
  {
    if f > 0 {
      assert shape.materialIds[f - 1] in IdsBelow(shape, f);
      assert IdsBelow(shape, f - 1) <= IdsBelow(shape, f);
      CornersWithUnused(shape, id, f - 1);
    }
  }

  /** The objects of the current shape (from index `start` on) after the faces below f. */
  predicate ShapeObjects(out: seq<MeshData>, start: nat, shape: Shape, file: ObjFile, hasNormal: bool, hasUv: bool, f: nat)
    requires f <= FaceCount(shape) && f <= |shape.materialIds|
  {
    forall j | start <= j < |out| :: ObjectAfter(out[j], shape, file, hasNormal, hasUv, f)
  }

  /** objects_map: each id seen so far maps to the one object (from `start` on) holding it. */
  predicate ObjectsMapOk(objectsMap: map<int32, nat>, out: seq<MeshData>, start: nat, ids: set<int32>) {
    && start <= |out|
    && objectsMap.Keys == ids
    && (forall id | id in objectsMap :: start <= objectsMap[id] < |out| && out[objectsMap[id]].materialId == id)
    && (forall j | start <= j < |out| :: out[j].materialId in objectsMap && objectsMap[out[j].materialId] == j)
  }

  /** A new object for an unseen id is registered at the end. */
  lemma MapOkAppend(objectsMap: map<int32, nat>, out: seq<MeshData>, start: nat, ids: set<int32>, d: MeshData,
                    ids2: set<int32>)
    requires ObjectsMapOk(objectsMap, out, start, ids) && d.materialId !in objectsMap
    requires ids2 == ids + {d.materialId}
    ensures ObjectsMapOk(objectsMap[d.materialId := |out|], out + [d], start, ids2)
  {
    var out2 := out + [d];
    assert forall j | start <= j < |out| :: out2[j] == out[j];
  }

  /** Replacing an object by one with the same id keeps the map. */
  lemma MapOkUpdate(objectsMap: map<int32, nat>, out: seq<MeshData>, start: nat, ids: set<int32>, j: nat, d: MeshData)
    requires ObjectsMapOk(objectsMap, out, start, ids) && start <= j < |out| && d.materialId == out[j].materialId
    ensures ObjectsMapOk(objectsMap, out[j := d], start, ids)
    ensures forall k | start <= k < |out| && k != j :: out[k].materialId != d.materialId
  {
  }

  lemma IdsBelowNext(shape: Shape, f: nat)
    requires f < |shape.materialIds|
    ensures IdsBelow(shape, f + 1) == IdsBelow(shape, f) + {shape.materialIds[f]}
  {
  }

  /** A fresh object for an id no earlier face uses is already an object after those faces. */
  lemma NewObjectAfter(shape: Shape, file: ObjFile, hasNormal: bool, hasUv: bool, f: nat, id: int32)
    requires f <= FaceCount(shape) && f <= |shape.materialIds|
    requires id as int < |file.materials| && id !in IdsBelow(shape, f)
    ensures ObjectAfter(NewObject(id, ObjectName(shape.name, id, file.materials)), shape, file, hasNormal, hasUv, f)
  {
    CornersWithUnused(shape, id, f);
  }

  lemma ShapeObjectsAppend(out: seq<MeshData>, start: nat, shape: Shape, file: ObjFile, hasNormal: bool, hasUv: bool,
                           f: nat, d: MeshData)
    requires f <= FaceCount(shape) && f <= |shape.materialIds|
    requires ShapeObjects(out, start, shape, file, hasNormal, hasUv, f)
    requires ObjectAfter(d, shape, file, hasNormal, hasUv, f)
    ensures ShapeObjects(out + [d], start, shape, file, hasNormal, hasUv, f)
  {
    forall j | start <= j < |out| + 1
      ensures ObjectAfter((out + [d])[j], shape, file, hasNormal, hasUv, f)
    {
      if j < |out| {
        assert (out + [d])[j] == out[j];
      }
    }
  }

  /** Face f changes only the object of its own id; the others stay objects after face f + 1. */
  lemma ShapeObjectsUpdate(out: seq<MeshData>, start: nat, shape: Shape, file: ObjFile, hasNormal: bool, hasUv: bool,
                           f: nat, j: nat, d: MeshData)
    requires f < FaceCount(shape) && f < |shape.materialIds|
    requires ShapeObjects(out, start, shape, file, hasNormal, hasUv, f)
    requires start <= j < |out|
    requires forall k | start <= k < |out| && k != j :: out[k].materialId != shape.materialIds[f]
    requires ObjectAfter(d, shape, file, hasNormal, hasUv, f + 1)
    ensures ShapeObjects(out[j := d], start, shape, file, hasNormal, hasUv, f + 1)
  {
    var updated := out[j := d];
    forall k | start <= k < |updated|
      ensures ObjectAfter(updated[k], shape, file, hasNormal, hasUv, f + 1)
    {
      if k != j {
        assert ObjectAfter(out[k], shape, file, hasNormal, hasUv, f);
        CornersWithOther(shape, out[k].materialId, f);
      }
    }
  }

  /**
   * The objects_map lookup of face f: an id met for the first time gets a new, empty
   * object named after the shape and the material.
   */
  method OpenObject(out: seq<MeshData>, objectsMap: map<int32, nat>, start: nat, shape: Shape, file: ObjFile,
                    hasNormal: bool, hasUv: bool, f: nat)
    returns (out2: seq<MeshData>, map2: map<int32, nat>)
    requires f < FaceCount(shape) <= |shape.materialIds| && shape.materialIds[f] as int < |file.materials|
    requires ObjectsMapOk(objectsMap, out, start, IdsBelow(shape, f))
    requires ShapeObjects(out, start, shape, file, hasNormal, hasUv, f)
    ensures |out2| >= |out| && out2[..start] == out[..start]
    ensures ObjectsMapOk(map2, out2, start, IdsBelow(shape, f + 1))
    ensures ShapeObjects(out2, start, shape, file, hasNormal, hasUv, f)
  {
    var id := shape.materialIds[f];
    IdsBelowNext(shape, f);
    if id !in objectsMap {
      out2, map2 := AppendObject(out, objectsMap, start, shape, file, hasNormal, hasUv, f);
    } else {
      out2, map2 := out, objectsMap;
      assert IdsBelow(shape, f + 1) == IdsBelow(shape, f);
    }
  }

  /** A material id met for the first time: a new, empty object named after the shape and the material. */
  method AppendObject(out: seq<MeshData>, objectsMap: map<int32, nat>, start: nat, shape: Shape, file: ObjFile,
                      hasNormal: bool, hasUv: bool, f: nat)
    returns (out2: seq<MeshData>, map2: map<int32, nat>)
    requires f < FaceCount(shape) <= |shape.materialIds| && shape.materialIds[f] as int < |file.materials|
    requires shape.materialIds[f] !in objectsMap
    requires ObjectsMapOk(objectsMap, out, start, IdsBelow(shape, f))
    requires ShapeObjects(out, start, shape, file, hasNormal, hasUv, f)
    ensures |out2| == |out| + 1 && out2[..|out|] == out
    ensures ObjectsMapOk(map2, out2, start, IdsBelow(shape, f + 1))
    ensures ShapeObjects(out2, start, shape, file, hasNormal, hasUv, f)
  {
    var id := shape.materialIds[f];
    IdsBelowNext(shape, f);
    var created := NewObject(id, ObjectName(shape.name, id, file.materials));
    NewObjectAfter(shape, file, hasNormal, hasUv, f, id);
    ShapeObjectsAppend(out, start, shape, file, hasNormal, hasUv, f, created);
    MapOkAppend(objectsMap, out, start, IdsBelow(shape, f), created, IdsBelow(shape, f + 1));
    out2 := out + [created];
    map2 := objectsMap[id := |out|];
  }

  /** The corner loop of face f, run on the object of the face's material id. */
  method FeedFace(out: seq<MeshData>, objectsMap: map<int32, nat>, start: nat, shape: Shape, file: ObjFile,
                  hasNormal: bool, hasUv: bool, f: nat)
    returns (out2: seq<MeshData>)
    requires ShapeOk(file.attribs, shape, |file.materials|, hasNormal, hasUv) && f < FaceCount(shape)
    requires ObjectsMapOk(objectsMap, out, start, IdsBelow(shape, f + 1))
    requires ShapeObjects(out, start, shape, file, hasNormal, hasUv, f)
    ensures |out2| == |out| && out2[..start] == out[..start]
    ensures ObjectsMapOk(objectsMap, out2, start, IdsBelow(shape, f + 1))
    ensures ShapeObjects(out2, start, shape, file, hasNormal, hasUv, f + 1)
  {
    var id := shape.materialIds[f];
    assert id in IdsBelow(shape, f + 1);
    var j := objectsMap[id];
    FaceInBounds(shape, f);
    assert ObjectAfter(out[j], shape, file, hasNormal, hasUv, f);
    var data := AddFace(out[j], CornersWith(shape, id, f), shape, f, file.attribs, hasNormal, hasUv);
    CornersWithSame(shape, f);
    MapOkUpdate(objectsMap, out, start, IdsBelow(shape, f + 1), j, data);
    ShapeObjectsUpdate(out, start, shape, file, hasNormal, hasUv, f, j, data);
    out2 := out[j := data];
    assert out2[..start] == out[..start];
  }

  /** One iteration of the face loop: the object of face f looked up or opened, then fed. */
  method LoadFace(out: seq<MeshData>, objectsMap: map<int32, nat>, start: nat, shape: Shape, file: ObjFile,
                  hasNormal: bool, hasUv: bool, f: nat)
    returns (out2: seq<MeshData>, map2: map<int32, nat>)
    requires ShapeOk(file.attribs, shape, |file.materials|, hasNormal, hasUv) && f < FaceCount(shape)
    requires ObjectsMapOk(objectsMap, out, start, IdsBelow(shape, f))
    requires ShapeObjects(out, start, shape, file, hasNormal, hasUv, f)
    ensures |out2| >= |out| && out2[..start] == out[..start]
    ensures ObjectsMapOk(map2, out2, start, IdsBelow(shape, f + 1))
    ensures ShapeObjects(out2, start, shape, file, hasNormal, hasUv, f + 1)
  {
    assert shape.materialIds[f] as int < |file.materials|;
    var withObject;
    withObject, map2 := OpenObject(out, objectsMap, start, shape, file, hasNormal, hasUv, f);
    out2 := FeedFace(withObject, map2, start, shape, file, hasNormal, hasUv, f);
  }

  /**
   * The face loop of one shape, appending to `meshData`: one new object per distinct
   * material id of the shape (found through the shape-local objects_map), each holding
   * exactly the faces with its id; objects of earlier shapes are untouched.
   */
  method LoadShape(meshData: seq<MeshData>, shape: Shape, file: ObjFile, hasNormal: bool, hasUv: bool)
    returns (out: seq<MeshData>)
    requires ShapeOk(file.attribs, shape, |file.materials|, hasNormal, hasUv)
    ensures |meshData| <= |out| && out[..|meshData|] == meshData
    ensures forall j | |meshData| <= j < |out| :: ShapeObject(out[j], shape, file, hasNormal, hasUv)
    ensures forall j1, j2 | |meshData| <= j1 < j2 < |out| :: out[j1].materialId != out[j2].materialId
    ensures (set j | |meshData| <= j < |out| :: out[j].materialId) == IdsBelow(shape, FaceCount(shape))
  {
    var objectsMap: map<int32, nat> := map[];
    out := meshData;
    var n := FaceCount(shape);
    for f := 0 to n
      invariant |meshData| <= |out| && out[..|meshData|] == meshData
      invariant ObjectsMapOk(objectsMap, out, |meshData|, IdsBelow(shape, f))
      invariant ShapeObjects(out, |meshData|, shape, file, hasNormal, hasUv, f)
    {
      out, objectsMap := LoadFace(out, objectsMap, |meshData|, shape, file, hasNormal, hasUv, f);
    }
    DistinctObjects(out, objectsMap, |meshData|, IdsBelow(shape, n));
  }

  /** One object per id: distinct objects have distinct ids, and the ids are exactly the map's. */
  lemma DistinctObjects(out: seq<MeshData>, objectsMap: map<int32, nat>, start: nat, ids: set<int32>)
    requires ObjectsMapOk(objectsMap, out, start, ids)
    ensures forall j1, j2 | start <= j1 < j2 < |out| :: out[j1].materialId != out[j2].materialId
    ensures (set j | start <= j < |out| :: out[j].materialId) == ids
  {
    forall id | id in objectsMap
      ensures id in (set j | start <= j < |out| :: out[j].materialId)
    {
      assert out[objectsMap[id]].materialId == id;
    }
  }

  // ---------------------------------------------------------------- all shapes

  /**
   * Objects lo .. hi-1 are the objects of one shape: one per distinct material id of its
   * faces, each holding exactly the faces with its id.
   */
  predicate ShapeRange(objs: seq<MeshData>, lo: nat, hi: nat, shape: Shape, file: ObjFile, hasNormal: bool, hasUv: bool) {
    && lo <= hi <= |objs|
    && FaceCount(shape) <= |shape.materialIds|
    && (forall j | lo <= j < hi :: ShapeObject(objs[j], shape, file, hasNormal, hasUv))
    && (forall j1, j2 | lo <= j1 < j2 < hi :: objs[j1].materialId != objs[j2].materialId)
    && (set j | lo <= j < hi :: objs[j].materialId) == IdsBelow(shape, FaceCount(shape))
  }

  /** Appending objects leaves the range of an earlier shape as it was. */
  lemma ShapeRangePrefix(objs: seq<MeshData>, more: seq<MeshData>, lo: nat, hi: nat, shape: Shape, file: ObjFile,
                         hasNormal: bool, hasUv: bool)
    requires ShapeRange(objs, lo, hi, shape, file, hasNormal, hasUv)
    requires |objs| <= |more| && more[..|objs|] == objs
    ensures ShapeRange(more, lo, hi, shape, file, hasNormal, hasUv)
  {
    forall j | lo <= j < hi
      ensures more[j] == objs[j]
    {
      assert more[..|objs|][j] == more[j];
    }
    assert (set j | lo <= j < hi :: more[j].materialId) == (set j | lo <= j < hi :: objs[j].materialId);
  }

  /** What the mesh and material blocks need of an object: whole triangles over its own
   *  vertices, and a material id the file has (or the default). */
  predicate MeshReady(d: MeshData, materialCount: nat) {
    |d.indices| % 3 == 0 && M.IndicesInRange(d.indices, |d.positions|) && d.materialId as int < materialCount
  }

  /**
   * The grouping pass of LoadObjScene: the shapes in file order, each appending its own
   * objects. `bounds[s] .. bounds[s + 1]` are the objects of shape s.
   */
  method GroupFaces(file: ObjFile, hasNormal: bool, hasUv: bool) returns (meshData: seq<MeshData>, ghost bounds: seq<nat>)
    requires FileOk(file, hasNormal, hasUv)
    ensures |bounds| == |file.shapes| + 1 && bounds[0] == 0 && bounds[|file.shapes|] == |meshData|
    ensures forall s | 0 <= s < |file.shapes| ::
      ShapeRange(meshData, bounds[s], bounds[s + 1], file.shapes[s], file, hasNormal, hasUv)
    ensures forall j | 0 <= j < |meshData| :: MeshReady(meshData[j], |file.materials|)
  {
    meshData := [];
    bounds := [0];
    for s := 0 to |file.shapes|
      invariant |bounds| == s + 1 && bounds[0] == 0 && bounds[s] == |meshData|
      invariant forall t | 0 <= t < s ::
        ShapeRange(meshData, bounds[t], bounds[t + 1], file.shapes[t], file, hasNormal, hasUv)
      invariant forall j | 0 <= j < |meshData| :: MeshReady(meshData[j], |file.materials|)
    {
      var shape := file.shapes[s];
      assert ShapeOk(file.attribs, shape, |file.materials|, hasNormal, hasUv);
      var out := LoadShape(meshData, shape, file, hasNormal, hasUv);
      forall t | 0 <= t < s
        ensures ShapeRange(out, bounds[t], bounds[t + 1], file.shapes[t], file, hasNormal, hasUv)
      {
        ShapeRangePrefix(meshData, out, bounds[t], bounds[t + 1], file.shapes[t], file, hasNormal, hasUv);
      }
      forall j | 0 <= j < |out|
        ensures MeshReady(out[j], |file.materials|)
      {
        if j < |meshData| {
          assert out[..|meshData|][j] == out[j];
        } else {
          ObjectIsMesh(out[j], shape, file, hasNormal, hasUv);
        }
      }
      bounds := bounds + [|out|];
      meshData := out;
    }
  }

  /** Corners come in whole faces. */
  lemma {:induction false} CornersWithWholeFaces(shape: Shape, id: int32, f: nat)
    requires f <= FaceCount(shape) && f <= |shape.materialIds|
    ensures |CornersWith(shape, id, f)| % 3 == 0
  {
    if f > 0 {
      CornersWithWholeFaces(shape, id, f - 1);
    }
  }

  /** An object's index list is whole triangles over its own vertices: what Mesh needs. */
  lemma ObjectIsMesh(d: MeshData, shape: Shape, file: ObjFile, hasNormal: bool, hasUv: bool)
    requires FaceCount(shape) <= |shape.materialIds|
    requires ShapeObject(d, shape, file, hasNormal, hasUv)
    ensures |d.indices| % 3 == 0 && M.IndicesInRange(d.indices, |d.positions|)
    ensures hasNormal ==> |d.normals| == |d.positions|
    ensures hasUv ==> |d.texcoords| == |d.positions|
  {
    var corners := CornersWith(shape, d.materialId, FaceCount(shape));
    CornersWithWholeFaces(shape, d.materialId, FaceCount(shape));
    DedupedIndicesInRange(d, corners, file.attribs, hasNormal, hasUv);
  }

  // ---------------------------------------------------------------- meshes and materials

  /**
   * The attributes LoadObjScene gives the mesh of one object: the de-duplicated positions
   * and indices, the file's normals and texcoords when it has them, computed ones otherwise.
   */
  function ExpectedMesh(d: MeshData, hasNormal: bool, hasUv: bool,
                        faceNormal: (Vec3, Vec3, Vec3) -> Vec3, normalize: Vec3 -> Vec3,
                        project: (Vec3, Bbox) -> Vec2): M.MeshData
    requires |d.indices| % 3 == 0 && M.IndicesInRange(d.indices, |d.positions|)
  {
    var bbox := Bounds(d.positions);
    M.MeshData(
      d.positions,
      if hasNormal then d.normals else M.ComputedNormals([], d.positions, d.indices, faceNormal, normalize),
      if hasUv then d.texcoords else M.Projected(d.positions, bbox, project),
      d.indices,
      bbox)
  }

  /** A mesh holding `expected`, with every attribute on the device. */
  predicate MeshHolds(mesh: M.Mesh, expected: M.MeshData)
    reads mesh, mesh.positionsBuffer, mesh.normalsBuffer, mesh.texcoordsBuffer, mesh.indicesBuffer
  {
    mesh.Valid() && mesh.Uploaded() && mesh.Attributes() == expected
  }

  /** Mesh k holds the attributes LoadObjScene gives object k, for every k. */
  predicate MeshesBuilt(meshes: seq<M.Mesh>, meshData: seq<MeshData>, hasNormal: bool, hasUv: bool,
                        faceNormal: (Vec3, Vec3, Vec3) -> Vec3, normalize: Vec3 -> Vec3, project: (Vec3, Bbox) -> Vec2)
    requires forall j | 0 <= j < |meshData| :: |meshData[j].indices| % 3 == 0 && M.IndicesInRange(meshData[j].indices, |meshData[j].positions|)
    reads set k | 0 <= k < |meshes| :: meshes[k]
    reads set k | 0 <= k < |meshes| :: meshes[k].positionsBuffer
    reads set k | 0 <= k < |meshes| :: meshes[k].normalsBuffer
    reads set k | 0 <= k < |meshes| :: meshes[k].texcoordsBuffer
    reads set k | 0 <= k < |meshes| :: meshes[k].indicesBuffer
  {
    && |meshes| == |meshData|
    && forall k {:trigger MeshHolds(meshes[k], ExpectedMesh(meshData[k], hasNormal, hasUv, faceNormal, normalize, project))}
         | 0 <= k < |meshes| :: MeshHolds(meshes[k], ExpectedMesh(meshData[k], hasNormal, hasUv, faceNormal, normalize, project))
  }

  lemma MeshesBuiltAppend(meshes: seq<M.Mesh>, meshData: seq<MeshData>, mesh: M.Mesh, d: MeshData, hasNormal: bool, hasUv: bool,
                          faceNormal: (Vec3, Vec3, Vec3) -> Vec3, normalize: Vec3 -> Vec3, project: (Vec3, Bbox) -> Vec2)
    requires forall j | 0 <= j < |meshData| :: |meshData[j].indices| % 3 == 0 && M.IndicesInRange(meshData[j].indices, |meshData[j].positions|)
    requires |d.indices| % 3 == 0 && M.IndicesInRange(d.indices, |d.positions|)
    requires MeshesBuilt(meshes, meshData, hasNormal, hasUv, faceNormal, normalize, project)
    requires MeshHolds(mesh, ExpectedMesh(d, hasNormal, hasUv, faceNormal, normalize, project))
    ensures MeshesBuilt(meshes + [mesh], meshData + [d], hasNormal, hasUv, faceNormal, normalize, project)
  {
    var longer, data := meshes + [mesh], meshData + [d];
    assert forall k | 0 <= k < |meshes| :: longer[k] == meshes[k] && data[k] == meshData[k];
  }

  /** The normals step of the mesh block: the file's normals when it has them, else computed. */
  method AttachNormals(mesh: M.Mesh, normals: seq<Vec3>, hasNormal: bool,
                       faceNormal: (Vec3, Vec3, Vec3) -> Vec3, normalize: Vec3 -> Vec3)
    requires mesh.Valid() && mesh.normals == []
    requires |mesh.indices| % 3 == 0 && M.IndicesInRange(mesh.indices, |mesh.positions|)
    modifies mesh, mesh.normalsBuffer
    ensures mesh.Valid() && mesh.normalsBuffer != null
    ensures mesh.Attributes() == old(mesh.Attributes()).(normals := mesh.normals)
    ensures mesh.Buffers() == old(mesh.Buffers()).(normals := mesh.normalsBuffer)
    ensures hasNormal ==> mesh.normals == normals
    ensures !hasNormal ==> mesh.normals == M.ComputedNormals([], mesh.positions, mesh.indices, faceNormal, normalize)
  {
    if hasNormal {
      mesh.SetNormals(normals);
    } else {
      mesh.CalcNormals(faceNormal, normalize);
    }
  }

  /** The texcoords step of the mesh block: the file's texcoords when it has them, else projected. */
  method AttachTexcoords(mesh: M.Mesh, texcoords: seq<Vec2>, hasUv: bool, project: (Vec3, Bbox) -> Vec2)
    requires mesh.Valid()
    modifies mesh, mesh.texcoordsBuffer
    ensures mesh.Valid() && mesh.texcoordsBuffer != null
    ensures mesh.Attributes() == old(mesh.Attributes()).(texcoords := mesh.texcoords)
    ensures mesh.Buffers() == old(mesh.Buffers()).(texcoords := mesh.texcoordsBuffer)
    ensures hasUv ==> mesh.texcoords == texcoords
    ensures !hasUv ==> mesh.texcoords == M.Projected(mesh.positions, mesh.bbox, project)
  {
    if hasUv {
      mesh.SetTexcoords(texcoords);
    } else {
      mesh.CalcTexcoords(project);
      M.ProjectedPointwise(mesh.texcoords, mesh.positions, mesh.bbox, project);
    }
  }

  /** The mesh block of LoadObjScene for one object. */
  method BuildMesh(d: MeshData, hasNormal: bool, hasUv: bool,
                   faceNormal: (Vec3, Vec3, Vec3) -> Vec3, normalize: Vec3 -> Vec3, project: (Vec3, Bbox) -> Vec2)
    returns (mesh: M.Mesh)
    requires |d.indices| % 3 == 0 && M.IndicesInRange(d.indices, |d.positions|)
    ensures fresh(mesh)
    ensures MeshHolds(mesh, ExpectedMesh(d, hasNormal, hasUv, faceNormal, normalize, project))
  {
    mesh := new M.Mesh();
    mesh.SetPositions(d.positions);
    mesh.SetIndices(d.indices);
    AttachNormals(mesh, d.normals, hasNormal, faceNormal, normalize);
    AttachTexcoords(mesh, d.texcoords, hasUv, project);
  }

  /** A material copied from the file: its emission, its emissive texture's handle if any. */
  predicate MaterialFrom(m: Material, desc: MaterialDesc, handle: nat)
    reads m
  {
    && m.emission == desc.emission && m.color == DefaultColor
    && m.emissionMap == (if desc.emissiveTexture.Some? then Some(handle) else None)
    && m.colorMap == None && m.buffer == null
  }

  /** The trailing default material: a default-constructed one. */
  predicate DefaultMaterial(m: Material)
    reads m
  {
    m.emission == Zero3 && m.color == DefaultColor && m.emissionMap == None && m.colorMap == None && m.buffer == null
  }

  /** The emissive texture a material description asks for has been decoded. */
  predicate TexturesDecoded(descs: seq<MaterialDesc>) {
    forall i | 0 <= i < |descs| :: descs[i].emissiveTexture.Some? ==> Decoded(descs[i].emissiveTexture.value)
  }

  /** The texture created for a material: one exactly when it names an emissive texture. */
  predicate TextureFrom(texture: Option<TextureUpload>, desc: MaterialDesc)
    requires desc.emissiveTexture.Some? ==> Decoded(desc.emissiveTexture.value)
  {
    && texture.Some? == desc.emissiveTexture.Some?
    && (texture.Some? ==> TextureOf(texture.value, desc.emissiveTexture.value))
  }

  /** One iteration of the material block: a new material copied from `desc`. */
  method CopyMaterial(desc: MaterialDesc, handle: nat) returns (mat: Material, texture: Option<TextureUpload>)
    requires desc.emissiveTexture.Some? ==> Decoded(desc.emissiveTexture.value)
    ensures fresh(mat) && MaterialFrom(mat, desc, handle) && TextureFrom(texture, desc)
  {
    mat := new Material();
    mat.emission := desc.emission;
    texture := None;
    if desc.emissiveTexture.Some? {
      var upload := LoadTexture(desc.emissiveTexture.value);
      texture := Some(upload);
      mat.emissionMap := Some(handle);
    }
  }

  /**
   * The material block of LoadObjScene: one new material per file material, holding its
   * emission and its emissive texture (the texture object CUDA creates for material i is
   * `handles[i]`), then a default material in the last slot.
   */
  method BuildMaterials(descs: seq<MaterialDesc>, handles: seq<nat>)
    returns (materials: seq<Material>, textures: seq<Option<TextureUpload>>)
    requires |handles| == |descs| && TexturesDecoded(descs)
    ensures |materials| == |descs| + 1 && |textures| == |descs|
    ensures forall i | 0 <= i < |materials| :: fresh(materials[i])
    ensures forall i, j | 0 <= i < j < |materials| :: materials[i] != materials[j]
    ensures forall i | 0 <= i < |descs| :: MaterialFrom(materials[i], descs[i], handles[i])
    ensures forall i | 0 <= i < |descs| :: TextureFrom(textures[i], descs[i])
    ensures DefaultMaterial(materials[|descs|]) && !materials[|descs|].IsEmissive()
  {
    materials := [];
    textures := [];
    for i := 0 to |descs|
      invariant |materials| == i && |textures| == i
      invariant forall k | 0 <= k < i :: fresh(materials[k])
      invariant forall k1, k2 | 0 <= k1 < k2 < i :: materials[k1] != materials[k2]
      invariant forall k | 0 <= k < i :: MaterialFrom(materials[k], descs[k], handles[k])
      invariant forall k | 0 <= k < i :: TextureFrom(textures[k], descs[k])
    {
      var mat, texture := CopyMaterial(descs[i], handles[i]);
      materials := materials + [mat];
      textures := textures + [texture];
    }
    var fallback := new Material();
    materials := materials + [fallback];
  }

  /** One iteration of the mesh loop: the mesh of object d, built and appended. */
  method AppendMesh(meshes: seq<M.Mesh>, meshData: seq<MeshData>, d: MeshData, hasNormal: bool, hasUv: bool,
                    faceNormal: (Vec3, Vec3, Vec3) -> Vec3, normalize: Vec3 -> Vec3, project: (Vec3, Bbox) -> Vec2)
    returns (mesh: M.Mesh)
    requires forall j | 0 <= j < |meshData| :: |meshData[j].indices| % 3 == 0 && M.IndicesInRange(meshData[j].indices, |meshData[j].positions|)
    requires |d.indices| % 3 == 0 && M.IndicesInRange(d.indices, |d.positions|)
    requires MeshesBuilt(meshes, meshData, hasNormal, hasUv, faceNormal, normalize, project)
    ensures fresh(mesh)
    ensures MeshesBuilt(meshes + [mesh], meshData + [d], hasNormal, hasUv, faceNormal, normalize, project)
  {
    mesh := BuildMesh(d, hasNormal, hasUv, faceNormal, normalize, project);
    MeshesBuiltAppend(meshes, meshData, mesh, d, hasNormal, hasUv, faceNormal, normalize, project);
  }

  /** The mesh loop of LoadObjScene: one new mesh per object, in object order. */
  method BuildMeshes(meshData: seq<MeshData>, hasNormal: bool, hasUv: bool,
                     faceNormal: (Vec3, Vec3, Vec3) -> Vec3, normalize: Vec3 -> Vec3, project: (Vec3, Bbox) -> Vec2)
    returns (meshes: seq<M.Mesh>)
    requires forall j | 0 <= j < |meshData| :: |meshData[j].indices| % 3 == 0 && M.IndicesInRange(meshData[j].indices, |meshData[j].positions|)
    ensures forall k | 0 <= k < |meshes| :: fresh(meshes[k])
    ensures MeshesBuilt(meshes, meshData, hasNormal, hasUv, faceNormal, normalize, project)
    ensures forall k1, k2 | 0 <= k1 < k2 < |meshes| :: meshes[k1] != meshes[k2]
  {
    meshes := [];
    for j := 0 to |meshData|
      invariant |meshes| == j
      invariant forall k | 0 <= k < j :: fresh(meshes[k])
      invariant MeshesBuilt(meshes, meshData[..j], hasNormal, hasUv, faceNormal, normalize, project)
      invariant forall k1, k2 | 0 <= k1 < k2 < j :: meshes[k1] != meshes[k2]
    {
      var mesh := AppendMesh(meshes, meshData[..j], meshData[j], hasNormal, hasUv, faceNormal, normalize, project);
      assert meshData[..j + 1] == meshData[..j] + [meshData[j]];
      meshes := meshes + [mesh];
    }
    assert meshData[..|meshData|] == meshData;
  }

  // ---------------------------------------------------------------- the whole loader

  /** A scene object the loader creates: its name, its mesh and its (possibly shared) material. */
  datatype LoadedObject = LoadedObject(name: string, mesh: M.Mesh, material: Material)

  function HasNormals(file: ObjFile): bool {
    |file.attribs.normals| != 0
  }

  function HasTexcoords(file: ObjFile): bool {
    |file.attribs.texcoords| != 0
  }

  /** The material loop of LoadObjScene: object j gets the material of its id's slot. */
  method Attach(meshData: seq<MeshData>, meshes: seq<M.Mesh>, materials: seq<Material>, materialCount: nat)
    returns (objects: seq<LoadedObject>)
    requires |meshes| == |meshData| && |materials| == materialCount + 1
    requires forall j | 0 <= j < |meshData| :: meshData[j].materialId as int < materialCount
    ensures |objects| == |meshData|
    ensures forall k | 0 <= k < |objects| ::
      objects[k] == LoadedObject(meshData[k].name, meshes[k], materials[MaterialSlot(meshData[k].materialId, materialCount)])
  {
    objects := [];
    for j := 0 to |meshData|
      invariant |objects| == j
      invariant forall k | 0 <= k < j ::
        objects[k] == LoadedObject(meshData[k].name, meshes[k], materials[MaterialSlot(meshData[k].materialId, materialCount)])
    {
      var slot := MaterialSlot(meshData[j].materialId, materialCount);
      objects := objects + [LoadedObject(meshData[j].name, meshes[j], materials[slot])];
    }
  }

  /** What LoadObjScene relies on from the parser and the texture decoder. */
  predicate Loadable(file: ObjFile, handles: seq<nat>) {
    && FileOk(file, HasNormals(file), HasTexcoords(file))
    && |handles| == |file.materials|
    && TexturesDecoded(file.materials)
  }

  /**
   * The mesh, material and attach blocks of LoadObjScene for the grouped objects `meshData`
   * and the file's materials `descs`.
   */
  method BuildObjects(meshData: seq<MeshData>, descs: seq<MaterialDesc>, handles: seq<nat>, hasNormal: bool, hasUv: bool,
                      faceNormal: (Vec3, Vec3, Vec3) -> Vec3, normalize: Vec3 -> Vec3, project: (Vec3, Bbox) -> Vec2)
    returns (objects: seq<LoadedObject>, materials: seq<Material>, textures: seq<Option<TextureUpload>>)
    requires forall j | 0 <= j < |meshData| ::
      |meshData[j].indices| % 3 == 0 && M.IndicesInRange(meshData[j].indices, |meshData[j].positions|)
      && meshData[j].materialId as int < |descs|
    requires |handles| == |descs| && TexturesDecoded(descs)
    ensures |materials| == |descs| + 1 && |textures| == |descs|
    ensures forall i | 0 <= i < |materials| :: fresh(materials[i])
    ensures forall i, j | 0 <= i < j < |materials| :: materials[i] != materials[j]
    ensures forall i | 0 <= i < |descs| :: MaterialFrom(materials[i], descs[i], handles[i])
    ensures forall i | 0 <= i < |descs| :: TextureFrom(textures[i], descs[i])
    ensures DefaultMaterial(materials[|descs|])
    ensures |objects| == |meshData|
    ensures forall j | 0 <= j < |objects| :: objects[j].name == meshData[j].name && fresh(objects[j].mesh)
    ensures forall j | 0 <= j < |objects| ::
      MeshHolds(objects[j].mesh, ExpectedMesh(meshData[j], hasNormal, hasUv, faceNormal, normalize, project))
    ensures forall j1, j2 | 0 <= j1 < j2 < |objects| :: objects[j1].mesh != objects[j2].mesh
    ensures forall j | 0 <= j < |objects| ::
      objects[j].material == materials[MaterialSlot(meshData[j].materialId, |descs|)]
  {
    var meshes := BuildMeshes(meshData, hasNormal, hasUv, faceNormal, normalize, project);
    materials, textures := BuildMaterials(descs, handles);
    assert MeshesBuilt(meshes, meshData, hasNormal, hasUv, faceNormal, normalize, project);
    objects := Attach(meshData, meshes, materials, |descs|);
  }

  /**
   * LoadObjScene past a successful parse. The objects are those of the grouping pass, in
   * order: each with its own new mesh built from its de-duplicated data, and the material of
   * its id's slot, where objects of the same slot share one material.
   */
  method LoadFile(file: ObjFile, handles: seq<nat>,
                  faceNormal: (Vec3, Vec3, Vec3) -> Vec3, normalize: Vec3 -> Vec3, project: (Vec3, Bbox) -> Vec2)
    returns (objects: seq<LoadedObject>, materials: seq<Material>, textures: seq<Option<TextureUpload>>,
             ghost groups: seq<MeshData>, ghost bounds: seq<nat>)
    requires Loadable(file, handles)
    ensures |bounds| == |file.shapes| + 1 && bounds[0] == 0 && bounds[|file.shapes|] == |groups|
    ensures forall s | 0 <= s < |file.shapes| ::
      ShapeRange(groups, bounds[s], bounds[s + 1], file.shapes[s], file, HasNormals(file), HasTexcoords(file))
    ensures forall j | 0 <= j < |groups| ::
      |groups[j].indices| % 3 == 0 && M.IndicesInRange(groups[j].indices, |groups[j].positions|)
      && groups[j].materialId as int < |file.materials|
    ensures |materials| == |file.materials| + 1 && |textures| == |file.materials|
    ensures forall i | 0 <= i < |materials| :: fresh(materials[i])
    ensures forall i, j | 0 <= i < j < |materials| :: materials[i] != materials[j]
    ensures forall i | 0 <= i < |file.materials| :: MaterialFrom(materials[i], file.materials[i], handles[i])
    ensures forall i | 0 <= i < |file.materials| :: TextureFrom(textures[i], file.materials[i])
    ensures DefaultMaterial(materials[|file.materials|])
    ensures |objects| == |groups|
    ensures forall j | 0 <= j < |objects| :: objects[j].name == groups[j].name && fresh(objects[j].mesh)
    ensures forall j | 0 <= j < |objects| ::
      MeshHolds(objects[j].mesh, ExpectedMesh(groups[j], HasNormals(file), HasTexcoords(file), faceNormal, normalize, project))
    ensures forall j1, j2 | 0 <= j1 < j2 < |objects| :: objects[j1].mesh != objects[j2].mesh
    ensures forall j | 0 <= j < |objects| ::
      objects[j].material == materials[MaterialSlot(groups[j].materialId, |file.materials|)]
  {
    var meshData;
    meshData, bounds := GroupFaces(file, HasNormals(file), HasTexcoords(file));
    groups := meshData;
    objects, materials, textures :=
      BuildObjects(meshData, file.materials, handles, HasNormals(file), HasTexcoords(file), faceNormal, normalize, project);
  }

  /**
   * LoadObjScene: a failed parse (`parsed == None`) returns false and creates nothing. On
   * success the objects are the grouping pass's objects `groups`, in shape order, each with
   * its own new mesh holding its de-duplicated data and the material of its id's slot.
   */
  method LoadObjScene(parsed: Option<ObjFile>, handles: seq<nat>,
                      faceNormal: (Vec3, Vec3, Vec3) -> Vec3, normalize: Vec3 -> Vec3, project: (Vec3, Bbox) -> Vec2)
    returns (ok: bool, objects: seq<LoadedObject>, materials: seq<Material>, textures: seq<Option<TextureUpload>>,
             ghost groups: seq<MeshData>, ghost bounds: seq<nat>)
    requires parsed.Some? ==> Loadable(parsed.value, handles)
    ensures ok == parsed.Some?
    ensures !ok ==> objects == [] && materials == [] && textures == [] && groups == []
    ensures ok ==> |materials| == |parsed.value.materials| + 1 && |textures| == |parsed.value.materials|
    ensures ok ==> forall i | 0 <= i < |parsed.value.materials| ::
      MaterialFrom(materials[i], parsed.value.materials[i], handles[i]) && TextureFrom(textures[i], parsed.value.materials[i])
    ensures ok ==> DefaultMaterial(materials[|parsed.value.materials|])
    ensures ok ==> |bounds| == |parsed.value.shapes| + 1 && bounds[0] == 0 && bounds[|parsed.value.shapes|] == |groups|
    ensures ok ==> forall s | 0 <= s < |parsed.value.shapes| ::
      ShapeRange(groups, bounds[s], bounds[s + 1], parsed.value.shapes[s], parsed.value,
                 HasNormals(parsed.value), HasTexcoords(parsed.value))
    ensures ok ==> forall j | 0 <= j < |groups| ::
      |groups[j].indices| % 3 == 0 && M.IndicesInRange(groups[j].indices, |groups[j].positions|)
      && groups[j].materialId as int < |parsed.value.materials|
    ensures |objects| == |groups|
    ensures forall j | 0 <= j < |objects| :: objects[j].name == groups[j].name && fresh(objects[j].mesh)
    ensures ok ==> forall j | 0 <= j < |objects| ::
      MeshHolds(objects[j].mesh,
                ExpectedMesh(groups[j], HasNormals(parsed.value), HasTexcoords(parsed.value), faceNormal, normalize, project))
    ensures forall j1, j2 | 0 <= j1 < j2 < |objects| :: objects[j1].mesh != objects[j2].mesh
    ensures ok ==> forall j | 0 <= j < |objects| ::
      objects[j].material == materials[MaterialSlot(groups[j].materialId, |parsed.value.materials|)]
  {
    if parsed.None? {
      return false, [], [], [], [], [];
    }
    objects, materials, textures, groups, bounds := LoadFile(parsed.value, handles, faceNormal, normalize, project);
    ok := true;
  }
}
