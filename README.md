# cuda-path-tracer host core, in Dafny

This project models the host side of a CUDA path tracer. That is everything it does on
the CPU before and between kernel launches:

- **The scene store.** A `ComponentStorage` per component type is a bump allocator over
  4096-byte blocks whose slots are an owner pointer followed by the component. A `Scene`
  registers one storage per type. `SceneObject`s map component types to their components.
  `Scene::ForEach` joins the first type's storage with the other types an object holds.
- **The path tracer's buffers.** `PathTracer` flattens the joined scene into a top-level
  hierarchy of `2N - 1` nodes (leaves in `[N - 1, 2N - 2]`), an instance list and a light
  list of the emissive instances. Its per-frame `Update` counts accumulated samples.
- **Meshes.** The attribute setters keep a grow-only device copy of each array and a
  bounding box. `CalcNormals` and `CalcTexcoords` compute missing attributes. `BuildAccel`
  lays out the bottom-level hierarchy with one leaf per triangle.
- **Device buffers.** Every owner applies the same policy: reallocate only when the buffer
  is absent or too small, otherwise overwrite it in place.
- **The OBJ loader.** It groups each shape's faces by material into objects and
  de-duplicates `(vertex, normal, texcoord)` triples into a vertex table and an index list.
  It builds each object's mesh and copies the materials; material id -1 goes to a trailing
  default material. Its texture loader expands decoded images to RGBA8. `HashCombine` is
  the 64-bit hash combiner of its index map.
- **Materials.** The emissive test and the create-once, overwrite-later record buffer.
- **The command line.** The option scan, the BSDF name lookup, the headless sample count
  and the progress cadence.

Modules, one file each:

| file | module | source |
|---|---|---|
| `options.dfy` | `Options` | an `Option` type |
| `geometry.dfy` | `Geometry` | vectors, boxes, the min/max fold |
| `device.dfy` | `DeviceBuffers` | `CuBuffer` and the grow-only policy |
| `accel.dfy` | `Accel` | the leaf layout and the external builder |
| `storage.dfy` | `Storage` | `ComponentStorage` |
| `scene.dfy` | `SceneGraph` | `Scene`, `SceneObject` and the join |
| `material.dfy` | `Materials` | `Material` |
| `mesh.dfy` | `Meshes` | `Mesh` |
| `pathtracer.dfy` | `PathTracing` | `PathTracer` |
| `texture.dfy` | `TextureLoading` | `LoadTexture` |
| `loader.dfy` | `ObjLoading` | `LoadObjScene` and its helpers |
| `cli.dfy` | `CommandLine` | `main`'s argument handling |

What the code updates in place is a class:

- `ComponentStorage`, with blocks of slot owners and `block_offset_`;
- `Scene` and `SceneObject`;
- `Mesh`, `Material`, `PathTracer` and `CuBuffer`.

A reallocated device buffer is a `fresh` object. An overwritten one is the same object
with new contents. Each loop is a method with invariants, proved against a function that
specifies it. The properties are proved about those functions.

Coordinates are reals: on the host, boxes are only copied, compared and folded with
min/max. Three floating-point parts are parameters of the model:

- the face normal;
- the normalisation;
- the spherical texture projection.

Two more are read over reals, and their rounding is not captured: the emissive test
and the light-selection pdf (see "## Left out").

The sources disagree with each other in places. The model follows the `.cpp` files:

- `src/pathtracer/pathtracer.hpp` declares neither `film_` nor `ShowUi`, while
  `src/pathtracer/pathtracer.cpp` uses both.
- `src/scene/loader.cpp` writes `Material` fields that `src/scene/material.hpp` does not
  declare.

## Model

| member | source | states |
|---|---|---|
| `Storage.ComponentStorage.Init` | src/scene/core.hpp:41-57 | the stride is `sizeof(T) + sizeof(void*)`, the offset starts at 4096 with no blocks (so the first allocation opens a block), the destructor hook is always set, the update and UI hooks exactly when T has those members |
| `Storage.ComponentStorage.Allocate` | src/scene/core.cpp:44-54 | a new block is opened iff `block_offset_ + size_ > 4096`; the returned address is the slot start plus 8; the slot list grows by exactly one slot owned by the caller; earlier blocks are unchanged; the offset stays within the block |
| `Storage.BlockSlots` | src/scene/core.hpp:88 | the j-th slot of a block carries its owner and the payload address `j * stride + 8` |
| `Storage.ComponentStorage.WalkBlock` | src/scene/core.hpp:87-90 | the inner loop visits the slot offsets of one block below the bound, in increasing order |
| `Storage.ComponentStorage.TraverseBlocks` | src/scene/core.hpp:83-91 | the loop nest visits blocks in list order, bounding the last one by `block_offset_` and the others by the given bound |
| `Storage.ComponentStorage.ForEachInnerAsWritten` | src/scene/core.hpp:81-104 | the traversal as written: the last block is bounded by `block_offset_`, every other block by 4096 |
| `Storage.ComponentStorage.ForEachInner` | src/scene/core.hpp:81-104 | every written slot is visited exactly once, in allocation order, with its owner and its payload address |
| `Storage.WalkExact` | src/scene/core.hpp:87-90 | a block walked up to its slot count times the stride yields exactly its slots |
| `Storage.WalkFullExact` | src/scene/core.hpp:85-91 | full blocks walked up to the last whole slot yield exactly their slots |
| `Storage.TraversalExact` | src/scene/core.hpp:81-104 | bounding full blocks by the last whole slot makes the traversal equal to the slot list |
| `Storage.AsWrittenFullBlock` | src/scene/core.hpp:86-87 | walking a full block up to 4096 yields its slots when the stride divides 4096, and otherwise one more visit with no owner, whose payload would run past the block |
| `Storage.AsWrittenVisitsPhantom` | src/scene/core.hpp:86-90 | with stride 24, the as-written traversal visits payload 4088 with no owner, which is not a slot |
| `Storage.AllSlotsLength` | src/scene/core.cpp:58 | every full block holds `4096 / stride` slots |
| `Storage.CountFormula` | src/scene/core.cpp:56-59 | `block_offset_ / stride + (blocks - 1) * (4096 / stride)` is the number of written slots |
| `Storage.ComponentStorage.Count` | src/scene/core.cpp:56-59 | the corrected count equals the number of written slots |
| `Storage.CountAsWrittenUndercounts` | src/scene/core.cpp:56-59 | as written, one slot of stride 16 is counted as 0 |
| `Storage.CountAsWrittenOvercounts` | src/scene/core.cpp:56-59 | as written, 100 one-slot blocks of stride 4000 are counted as 101 |
| `Storage.CountAsWrittenSingleBlock` | src/scene/core.cpp:56-59 | as written, a single block of n > 0 slots is counted as fewer than n |
| `Storage.ComponentStorage.Update` | src/scene/core.cpp:32-36 | corrected (via `Storage.ComponentStorage.ForEachInner`): with an update hook, every slot's payload is updated once in traversal order; without one, nothing is |
| `Storage.ComponentStorage.DestroyBlocks` | src/scene/core.cpp:15-30 | the destructor loop: nothing without a hook or blocks; otherwise the last block below `block_offset_` first, then the other blocks up to the bound |
| `Storage.ComponentStorage.DestroyAsWritten` | src/scene/core.cpp:15-30 | the destructor as written, with full blocks bounded by 4096 |
| `Storage.ComponentStorage.Destroy` | src/scene/core.cpp:15-30 | the corrected destructor destroys every written payload exactly once (a permutation of the slots), the last block first |
| `Storage.DestroyOrderExact` | src/scene/core.cpp:15-30 | the destruction order is the last block's payloads followed by the other blocks', a permutation of all payloads |
| `SceneGraph.AddComponentKeepsConsistency` | src/scene/core.hpp:141-151 | recording a new slot in the storage and in the object's map keeps storages and maps consistent |
| `SceneGraph.AddObjectKeepsConsistency` | src/scene/core.cpp:66-71 | appending an object with no components keeps storages and maps consistent |
| `SceneGraph.DistinctOwnersCount` | src/scene/core.hpp:166 | a storage whose slots have pairwise distinct owners has as many owners as slots |
| `SceneGraph.SlotCountIsHolders` | src/scene/core.hpp:124-131 | in a consistent scene, a type's slot count is the number of objects holding that type |
| `SceneGraph.Lookups` | src/scene/core.hpp:223 | the looked-up addresses of the other types are, in order, the object's components of those types |
| `SceneGraph.JoinSound` | src/scene/core.hpp:213-244 | every joined row is a slot of the first type whose owner holds all the other types, with those components |
| `SceneGraph.JoinComplete` | src/scene/core.hpp:213-244 | every first-type slot whose owner holds all the other types yields a row |
| `SceneGraph.JoinOrdered` | src/scene/core.hpp:213-244 | rows come in the first storage's slot order |
| `SceneGraph.JoinExact` | src/scene/core.hpp:213-244 | in a consistent scene an object gets a row iff it holds the first type and all the others |
| `SceneGraph.JoinOncePerObject` | src/scene/core.hpp:213-244 | no object gets two rows |
| `SceneGraph.JoinSingleType` | src/scene/core.hpp:215-218 | with no other types, the join visits every slot of the storage |
| `SceneGraph.ClampIndex` | src/scene/core.cpp:79 | the UI index is clamped into `[0, objects - 1]` |
| `SceneGraph.SceneObject.constructor` | src/scene/core.hpp:206 | a new object has its name and no components |
| `SceneGraph.SceneObject.GetComponent` | src/scene/core.hpp:175-182 | the component's address if the object holds the type, none otherwise |
| `SceneGraph.SceneObject.HasComponent` | src/scene/core.hpp:184-187 | true iff the object holds the type |
| `SceneGraph.SceneObject.HasComponents` | src/scene/core.hpp:188-195 | true iff the object holds every listed type |
| `SceneGraph.Enumerate` | src/scene/core.cpp:88 | the hash map's iteration visits every registered type exactly once |
| `SceneGraph.Scene.constructor` | src/scene/core.hpp:153-156 | an empty, consistent scene with UI index 0 |
| `SceneGraph.Scene.AddObject` | src/scene/core.cpp:66-71 | appends exactly one new object with the given name and no components; everything else is unchanged and consistency is kept |
| `SceneGraph.Scene.Count` | src/scene/core.hpp:124-131 | corrected (via `Storage.ComponentStorage.Count`): 0 for an unregistered type; otherwise the number of objects holding the type |
| `SceneGraph.Scene.AddComponent` | src/scene/core.hpp:163-173 | a duplicate returns null and changes nothing; otherwise the storage is registered on first use, one slot owned by the object is appended and recorded in its map, and the address is returned; the object list and the UI selection are unchanged |
| `SceneGraph.Scene.Attach` | src/scene/core.hpp:141-151 | allocates the slot, registers the storage only on first use, and records the slot in the object's map; the object list and the UI selection are unchanged |
| `SceneGraph.Scene.AttachStorage` | src/scene/core.hpp:144-149 | finds or inserts the type's storage and allocates one slot in it |
| `SceneGraph.Scene.GrowStorage` | src/scene/core.hpp:149 | allocation in an existing storage appends one slot to it and leaves the others unchanged |
| `SceneGraph.Scene.AddStorage` | src/scene/core.hpp:145-149 | the first use of a type creates and initialises a new storage holding one slot |
| `SceneGraph.Scene.AttachObject` | src/scene/core.hpp:168 | the object's map gains the type with the slot's address |
| `SceneGraph.Scene.ForEach` | src/scene/core.hpp:213-244 | corrected (via `Storage.ComponentStorage.ForEachInner`): nothing for an unregistered first type; otherwise exactly the join's rows, in storage order |
| `SceneGraph.Scene.Update` | src/scene/core.cpp:87-91 | each registered storage runs its update exactly once |
| `SceneGraph.Scene.SelectUiObject` | src/scene/core.cpp:77-79 | the selected index is the request, clamped into the object range |
| `DeviceBuffers.CuBuffer.Create` | src/cuda_helpers/buffer.cpp:7-12 | a buffer of the given capacity holding the initial data |
| `DeviceBuffers.CuBuffer.Allocate` | src/cuda_helpers/buffer.cpp:7-12 | a buffer of the given capacity with no data |
| `DeviceBuffers.CuBuffer.SetData` | src/cuda_helpers/buffer.cpp:18-20 | an in-place upload replaces the contents and keeps the capacity |
| `DeviceBuffers.CapacityAfter` | src/scene/mesh.cpp:14-19 | the capacity after an upload covers the data and never shrinks; a reallocation happens iff the capacity changes, and then it is exactly the size required |
| `DeviceBuffers.Upload` | src/scene/mesh.cpp:14-19 | absent or too small: a fresh buffer; otherwise the same one; either way it holds the data |
| `DeviceBuffers.Reserve` | src/pathtracer/pathtracer.cpp:129-132 | the node buffer is reallocated, empty, only when absent or too small |
| `DeviceBuffers.Store` | src/scene/material.cpp:20-24 | a single record is created on first use and overwritten afterwards |
| `DeviceBuffers.MaxOfBounds` | src/pathtracer/pathtracer.cpp:116-121 | the largest upload size bounds every upload size and is one of them |
| `DeviceBuffers.CapacityIsLargestUpload` | src/pathtracer/pathtracer.cpp:116-121 | after a series of uploads, the capacity is the largest size uploaded |
| `DeviceBuffers.ReallocatesOnNewMaximum` | src/pathtracer/pathtracer.cpp:117-118 | an upload larger than every earlier one reallocates |
| `DeviceBuffers.CapacityNeverShrinks` | src/pathtracer/pathtracer.cpp:116-121 | capacity is monotone over a series of uploads |
| `Accel.NodeCount` | src/pathtracer/pathtracer.cpp:102 | `2N - 1` nodes, at least N |
| `Accel.HoldsLeavesAt` | src/pathtracer/pathtracer.cpp:105 | leaf i sits in node `N - 1 + i` |
| `Accel.ExternalBuild` | src/pathtracer/pathtracer.cpp:134-138 | the external builder writes only the first `N - 1` nodes |
| `Accel.BuildKeepsLeaves` | src/pathtracer/pathtracer.cpp:134-138 | after the build the leaves are still in place and the internal nodes are the builder's |
| `Geometry.MergeAllLower` | src/pathtracer/pathtracer.cpp:107-114 | each lower coordinate of the fold is at most the sentinel and at most every box's |
| `Geometry.MergeAllAttained` | src/pathtracer/pathtracer.cpp:107-114 | each coordinate of the fold is the sentinel or is attained by some box |
| `Geometry.MergeAllEncloses` | src/pathtracer/pathtracer.cpp:107-114 | the merged box encloses every box |
| `Geometry.MergeAllTight` | src/pathtracer/pathtracer.cpp:107-114 | over a non-empty list of finite boxes, every coordinate of the merged box comes from some box |
| `Geometry.MergeAllOrderIndependent` | src/pathtracer/pathtracer.cpp:107-114 | the merged box depends only on the set of boxes, not on their order |
| `Geometry.MergeAllBelow` | src/pathtracer/pathtracer.cpp:107-114 | for two lists holding the same boxes, each coordinate of one merge is bounded by the other's (so they are equal) |
| `Geometry.PointBoxes` | src/scene/mesh.cpp:10-12 | each point becomes a degenerate box |
| `Geometry.BoundsIsMergeAll` | src/scene/mesh.cpp:9-12 | folding `Merge(point)` from the empty box equals merging the points' degenerate boxes |
| `Geometry.BoundsContains` | src/scene/mesh.cpp:9-12 | the mesh box contains every position |
| `Geometry.BoundsEnclosesTriangle` | src/scene/mesh.cpp:96-97 | the mesh box encloses the box of any triangle of its positions |
| `Geometry.TriangleBoxTight` | src/scene/mesh.cpp:96-97 | a triangle's box contains its corners, and each of its six bounds is a corner coordinate (component-wise min/max) |
| `Meshes.LeafBoxes` | src/scene/mesh.cpp:89-98 | one leaf box per triangle |
| `Meshes.MeshBoxEnclosesLeaves` | src/scene/mesh.cpp:111-114 | the merged box handed to the builder encloses every leaf |
| `Meshes.Resize` | src/scene/mesh.cpp:56 | the resized array keeps its prefix and fills the rest |
| `Meshes.AccumulatedAt` | src/scene/mesh.cpp:57-65 | after the face loop, each vertex holds its start value plus the normals of the faces that use it, once per corner |
| `Meshes.UnusedVertexUntouched` | src/scene/mesh.cpp:57-65 | a vertex no face uses keeps its start value |
| `Meshes.NormalizedAt` | src/scene/mesh.cpp:66-68 | each entry of the normalised array is the normalisation of the entry |
| `Meshes.NormalizedPointwise` | src/scene/mesh.cpp:66-68 | an array equal pointwise to the normalisations is the normalised array |
| `Meshes.ProjectedPointwise` | src/scene/mesh.cpp:73-81 | an array equal pointwise to the projections of the positions is the projected array |
| `Meshes.ComputedNormalAt` | src/scene/mesh.cpp:55-69 | a computed normal is the normalised sum of the normals of the faces around the vertex |
| `Meshes.Mesh.constructor` | src/scene/mesh.hpp:40-54 | empty attributes and no device buffers |
| `Meshes.Mesh.SetPositions` | src/scene/mesh.cpp:7-20 | the positions are replaced, the box becomes their bounds, and the buffer is reallocated iff absent or too small; nothing else changes |
| `Meshes.Mesh.SetNormals` | src/scene/mesh.cpp:22-31 | the normals are replaced and uploaded under the grow-only policy; nothing else changes |
| `Meshes.Mesh.SetTexcoords` | src/scene/mesh.cpp:33-42 | the texcoords are replaced and uploaded under the grow-only policy; nothing else changes |
| `Meshes.Mesh.SetIndices` | src/scene/mesh.cpp:44-53 | the indices are replaced and uploaded under the grow-only policy; nothing else changes |
| `Meshes.Mesh.AccumulateFaces` | src/scene/mesh.cpp:57-65 | the face loop computes the accumulated face normals |
| `Meshes.Mesh.NormalizeAll` | src/scene/mesh.cpp:66-68 | the second loop normalises every entry |
| `Meshes.Mesh.CalcNormalsAsWritten` | src/scene/mesh.cpp:55-69 | as written: the normals become the computed normals, one per position, and no buffer changes |
| `Meshes.Mesh.CalcTexcoordsAsWritten` | src/scene/mesh.cpp:71-82 | as written: one texcoord per position, the projection of that position against the box, and no buffer changes |
| `Meshes.Mesh.CalcNormals` | src/scene/mesh.cpp:55-69 | corrected: the computed normals, uploaded to a normal buffer |
| `Meshes.Mesh.CalcTexcoords` | src/scene/mesh.cpp:71-82 | corrected: the projected texcoords, uploaded to a texcoord buffer |
| `Meshes.Mesh.FillHostBoxes` | src/scene/mesh.cpp:88-98 | a `2T - 1` array with triangle i's box at `T - 1 + i` and zero boxes before |
| `Meshes.Mesh.BuildHierarchy` | src/scene/mesh.cpp:99-120 | the box and node buffers follow the grow-only policy and, after the build, hold the leaves after the builder's internal nodes |
| `Meshes.Mesh.StoreRecords` | src/scene/mesh.cpp:123-148 | the geometry and accel records are created on first use, overwritten afterwards, and point at the mesh's buffers |
| `Meshes.Mesh.BuildAccel` | src/scene/mesh.cpp:84-149 | T = indices / 3 triangles; the merged box is the mesh box and encloses every leaf; leaves sit at `[T - 1, 2T - 2]`; buffers grow only; the records point at the attribute buffers; the attributes are unchanged |
| `Meshes.NormalsNeverUploaded` | src/scene/mesh.cpp:55-69 | a mesh whose normals come from the as-written `CalcNormals` has no normal buffer, so the record `BuildAccel` writes has nothing to point at |
| `Materials.SquaresPositive` | src/scene/material.cpp:27-29 | `dot(e, e) > 0` iff some component of e is nonzero |
| `Materials.IsEmissiveColor` | src/scene/material.cpp:27-29 | an emission is emissive iff it is not zero |
| `Materials.TextureHandle` | src/scene/material.cpp:12 | an absent map contributes handle 0 |
| `Materials.Material.constructor` | src/scene/material.hpp:18-24 | zero emission, colour 0.5, no maps, no buffer, so not emissive |
| `Materials.Material.IsEmissive` | src/scene/material.cpp:27-29 | emissive iff the emission is not zero |
| `Materials.Material.BuildBuffer` | src/scene/material.cpp:7-25 | the record buffer is created on the first call and overwritten afterwards, holding the current record; the material's values are unchanged |
| `PathTracing.WorldBoxes` | src/pathtracer/pathtracer.cpp:87-93 | one world box per drawable |
| `PathTracing.TopInstances` | src/pathtracer/pathtracer.cpp:94-98 | one top-level instance per drawable |
| `PathTracing.LightsOfCount` | src/pathtracer/pathtracer.cpp:171-192 | the light list is as long as the number of emissive instances |
| `PathTracing.LightsOfMembers` | src/pathtracer/pathtracer.cpp:171-182 | a light is in the list iff some instance carries it |
| `PathTracing.NextSpp` | src/pathtracer/pathtracer.cpp:29-35 | the counter after one frame stays a 32-bit value |
| `PathTracing.SppCountsFrames` | src/pathtracer/pathtracer.cpp:29-35 | without resizes, the counter adds one per frame, modulo 2^32 |
| `PathTracing.SppCountsSinceResize` | src/pathtracer/pathtracer.cpp:29-35 | the counter is the number of frames since the last resize, modulo 2^32 |
| `PathTracing.InstanceUploadOverreads` | src/pathtracer/pathtracer.cpp:122-126 | the copy as written (`InstanceCopyAsWritten`, `2N - 1` records from the N-element list) is exact for one instance and reads past the end of the list from two on |
| `PathTracing.MaxDepthArg` | src/pathtracer/pathtracer.cpp:54 | the depth cast to `uint32_t`: unchanged when non-negative, plus 2^32 when negative |
| `PathTracing.LightPdf` | src/pathtracer/pathtracer.cpp:45 | 0 with no lights, otherwise the reciprocal of the light count |
| `PathTracing.PathTracer.constructor` | src/pathtracer/pathtracer.cpp:11 | depth -1, zero counters and no buffers |
| `PathTracing.PathTracer.ResetAccumelation` | src/pathtracer/pathtracer.cpp:71-73 | the counter is reset to 0 |
| `PathTracing.PathTracer.ShowUi` | src/pathtracer/pathtracer.cpp:60-69 | a depth edit sets the depth; an edit or a reset press resets the counter; nothing else changes |
| `PathTracing.PathTracer.Update` | src/pathtracer/pathtracer.cpp:24-58 | no camera or no lights: nothing changes and nothing launches; otherwise a resize resets the counter, the counter advances, and the launch carries the buffers, the light pdf, the film size and the counter |
| `PathTracing.PathTracer.LayoutLeaves` | src/pathtracer/pathtracer.cpp:104-105 | `2N - 1` zero boxes with the leaves copied to `[N - 1, 2N - 2]` |
| `PathTracing.PathTracer.MergeLeafSlots` | src/pathtracer/pathtracer.cpp:107-114 | the loop computes the merged box of the leaf slots |
| `PathTracing.PathTracer.Collect` | src/pathtracer/pathtracer.cpp:83-100 | the visitor pushes each drawable's world box and instance, in visit order |
| `PathTracing.PathTracer.UploadTop` | src/pathtracer/pathtracer.cpp:116-132 | the box, instance and node buffers follow the grow-only policy; the instance buffer is sized by the N instances |
| `PathTracing.PathTracer.BuildAccel` | src/pathtracer/pathtracer.cpp:75-150 | corrected (via `PathTracing.PathTracer.UploadTop`): N >= 1 drawables (the empty join is handled by `BuildBuffers`): the builder gets the merged world box and N; leaves sit at `[N - 1, 2N - 2]`; the instance buffer holds the N instances; buffers grow only; the accel record points at the three buffers |
| `PathTracing.PathTracer.CollectInstances` | src/pathtracer/pathtracer.cpp:157-188 | one instance per object in order with its geometry and material; a light iff the material is emissive, with a new light record holding geometry, material and transform; the light list is the emissive instances' lights in order |
| `PathTracing.PathTracer.BuildInstancesAndLights` | src/pathtracer/pathtracer.cpp:152-207 | the instance buffer holds one instance per object; each emissive instance's light points at a new record holding its geometry, material and transform; the light buffer holds exactly the emissive instances' lights; `num_lights_` counts them and equals the number of light records; both buffers grow only |
| `PathTracing.PathTracer.PickCamera` | src/pathtracer/pathtracer.cpp:16-19 | the last camera visited supplies the camera buffer |
| `PathTracing.PathTracer.BuildShading` | src/pathtracer/pathtracer.cpp:15-21 | the last camera wins; shading instance i carries row i's geometry and material and has a light iff that material is emissive, whose record holds row i's geometry, material and transform; the light list is the lit instances in order and `num_lights_` its length; the counter and depth are unchanged |
| `PathTracing.PathTracer.BuildBuffers` | src/pathtracer/pathtracer.cpp:13-22 | corrected (via `PathTracing.PathTracer.BuildTop` and `PathTracing.PathTracer.BuildAccel`): for the empty join no hierarchy is built, the top-level buffers stay as they were, and there are no lights. Otherwise both passes read the same join rows, so top-level instance i and shading instance i are row i; `TopLevel` holds (the leaves are the rows' world boxes at `[N - 1, 2N - 2]` behind the builder's internal nodes, the top-level instances are the rows' in order, the accel record points at the three buffers). Shading instance i carries row i's geometry and material, and has a light iff that material is emissive, whose record holds row i's geometry, material and transform; the light list is the lit instances in order and `num_lights_` its length; the last camera wins; the counter and depth are unchanged |
| `PathTracing.PathTracer.BuildTop` | src/pathtracer/pathtracer.cpp:13 | corrected: nothing for the empty join; otherwise the builder's request for the rows and `TopLevel` for their drawables |
| `PathTracing.PathTracer.UploadShading` | src/pathtracer/pathtracer.cpp:194-207 | the instance and light buffers hold exactly the given lists, under the grow-only policy |
| `PathTracing.EmptyJoinNodeCount` | src/pathtracer/pathtracer.cpp:76-77 | the `uint32_t` node count as written agrees with `2N - 1` for N >= 1 and wraps to 2^32 - 1 for the empty join, as does the leaf offset `num_instances - 1` |
| `ObjLoading.UncombineInverts` | src/scene/loader.cpp:16-19 | with the seed known, `HashCombine` can be inverted (64-bit wrap-around) |
| `ObjLoading.HashCombineInjective` | src/scene/loader.cpp:16-19 | for a fixed seed, distinct values give distinct hashes |
| `ObjLoading.ObjHashLastStepInjective` | src/scene/loader.cpp:80-88 | two indices with the same hash and the same first two components have texcoords with the same hash |
| `ObjLoading.SameIndex` | src/scene/loader.cpp:67-77 | equal iff vertex, normal and texcoord indices are all equal |
| `ObjLoading.Fetch` | src/scene/loader.cpp:21-39 | corrected: the position is read at `3 * vertex`; the normal at `3 * normal` when the file has normals and the corner names one, zero otherwise; the texcoord likewise at `2 * texcoord` |
| `ObjLoading.FetchExtendsAsWritten` | src/scene/loader.cpp:21-39 | wherever the reads as written stay inside the arrays, the corrected fetch accepts the corner and returns what the source reads |
| `ObjLoading.MixedNormalsOverread` | src/scene/loader.cpp:26-29 | a file with normals and a face written without `/vn`: as written that corner's normal is read at index -3; the corrected loader accepts the file and zero-fills it |
| `ObjLoading.ObjectName` | src/scene/loader.cpp:127-128 | `shape-default` for id -1, `shape-<material name>` otherwise |
| `ObjLoading.MaterialSlot` | src/scene/loader.cpp:202 | id -1 maps to the trailing slot `in_materials.size()`, other ids to themselves |
| `ObjLoading.AddCornerKeepsDeduped` | src/scene/loader.cpp:139-155 | adding a corner keeps the vertex table and index list de-duplicated |
| `ObjLoading.InsertCorner` | src/scene/loader.cpp:141-154 | one corner: a new vertex only for an unseen triple, and one index appended |
| `ObjLoading.DedupedRoundTrip` | src/scene/loader.cpp:142-154 | corner k's index is in range and the vertex it names holds the position, normal and texcoord fetched for corner k |
| `ObjLoading.DedupedVertexCount` | src/scene/loader.cpp:141-146 | an object holds exactly as many vertices as distinct triples |
| `ObjLoading.DedupedIndicesInRange` | src/scene/loader.cpp:154 | every index is below the vertex count |
| `ObjLoading.AddFace` | src/scene/loader.cpp:139-155 | a face feeds its three corners in order |
| `ObjLoading.CornersWithUnused` | src/scene/loader.cpp:120-136 | an id not seen yet has no corners |
| `ObjLoading.CornersWithWholeFaces` | src/scene/loader.cpp:139-155 | an object gets corners three at a time |
| `ObjLoading.OpenObject` | src/scene/loader.cpp:123-136 | finds the object of the face's material id, creating it the first time the id appears in the shape |
| `ObjLoading.AppendObject` | src/scene/loader.cpp:126-134 | a new object with the id and its name is appended and mapped |
| `ObjLoading.FeedFace` | src/scene/loader.cpp:137-155 | the face's corners go to its object and no other |
| `ObjLoading.LoadFace` | src/scene/loader.cpp:120-156 | one face step keeps the objects-map invariant and earlier shapes' objects |
| `ObjLoading.LoadShape` | src/scene/loader.cpp:117-157 | one object per distinct material id of the shape, ids pairwise distinct, each holding that id's faces de-duplicated; earlier objects unchanged |
| `ObjLoading.DistinctObjects` | src/scene/loader.cpp:118-136 | the objects map gives pairwise distinct ids, exactly the ids seen |
| `ObjLoading.GroupFaces` | src/scene/loader.cpp:115-157 | the shapes' objects in shape order, each whole-face, in range and with a material id below the material count |
| `ObjLoading.ObjectIsMesh` | src/scene/loader.cpp:139-155 | an object's indices come in threes and are in range, and present normals and texcoords run in lockstep with the positions |
| `ObjLoading.AttachNormals` | src/scene/loader.cpp:163-167 | corrected (via `Meshes.Mesh.CalcNormals`): the file's normals when it has them, computed normals otherwise, uploaded either way |
| `ObjLoading.AttachTexcoords` | src/scene/loader.cpp:168-172 | corrected (via `Meshes.Mesh.CalcTexcoords`): the file's texcoords when it has them, projected ones otherwise, uploaded either way |
| `ObjLoading.BuildMesh` | src/scene/loader.cpp:160-172 | corrected (via `Meshes.Mesh.CalcNormals` and `Meshes.Mesh.CalcTexcoords`, and `ObjLoading.Fetch` for corners without `/vn` or `/vt`): a new mesh holding exactly the expected attributes, all on the device |
| `ObjLoading.AppendMesh` | src/scene/loader.cpp:159-175 | corrected (via `Meshes.Mesh.CalcNormals` and `Meshes.Mesh.CalcTexcoords`, and `ObjLoading.Fetch` for corners without `/vn` or `/vt`): one more object gets its own new mesh |
| `ObjLoading.BuildMeshes` | src/scene/loader.cpp:159-175 | corrected (via `Meshes.Mesh.CalcNormals` and `Meshes.Mesh.CalcTexcoords`, and `ObjLoading.Fetch` for corners without `/vn` or `/vt`): one new, distinct mesh per object holding its expected attributes |
| `ObjLoading.CopyMaterial` | src/scene/loader.cpp:179-196 | corrected (via `TextureLoading.LoadTexture`): a new material with the file's emission, and an RGBA emissive texture exactly when the material names one |
| `ObjLoading.BuildMaterials` | src/scene/loader.cpp:177-198 | corrected (via `TextureLoading.LoadTexture`): one new material per file material, in order, then a default, non-emissive one in the last slot |
| `ObjLoading.Attach` | src/scene/loader.cpp:200-204 | object j gets the material of its id's slot |
| `ObjLoading.BuildObjects` | src/scene/loader.cpp:159-204 | corrected (via `ObjLoading.Fetch`, `Meshes.Mesh.CalcNormals`, `Meshes.Mesh.CalcTexcoords` and `TextureLoading.LoadTexture`): meshes, materials and their attachment together |
| `ObjLoading.LoadFile` | src/scene/loader.cpp:103-206 | corrected (via `ObjLoading.Fetch`, `Meshes.Mesh.CalcNormals`, `Meshes.Mesh.CalcTexcoords` and `TextureLoading.LoadTexture`): after a successful parse: the grouped objects in shape order, each with its own new mesh and the material of its slot |
| `ObjLoading.LoadObjScene` | src/scene/loader.cpp:90-207 | corrected (via `ObjLoading.LoadFile`): true iff the parse succeeded; on failure nothing is created. On success: the grouping pass's objects in shape order, one per (shape, material id), each with its name, its own new mesh (meshes pairwise distinct) holding the de-duplicated positions, normals, texcoords and indices, and the material of its id's slot; one material per file material copied from it, then the default |
| `TextureLoading.ExpandedAt` | src/scene/loader.cpp:51-56 | the four output bytes of texel i are its RGBA conversion |
| `TextureLoading.ExpandedOpaque` | src/scene/loader.cpp:55 | the alpha of an expanded texel without alpha is 255 |
| `TextureLoading.ExpandedRgbaIdentity` | src/scene/loader.cpp:48 | expanding a four-channel image changes nothing |
| `TextureLoading.StripAlphaRoundTrip` | src/scene/loader.cpp:51-56 | dropping the alpha of an expanded RGB image gives back the image |
| `TextureLoading.ExpandTexels` | src/scene/loader.cpp:50-56 | the loop writes the expansion of every texel |
| `TextureLoading.ExpandAsWritten` | src/scene/loader.cpp:48-56 | as written: four channels pass through, anything else is read as three bytes per texel |
| `TextureLoading.GreyImageOverreads` | src/scene/loader.cpp:51-54 | for a grey or grey-alpha image, three bytes per texel is more than the image holds |
| `TextureLoading.ExpandToRgba` | src/scene/loader.cpp:48-56 | corrected: each texel is converted by its own channel count, four bytes per texel |
| `TextureLoading.LoadTexture` | src/scene/loader.cpp:41-63 | an sRGB texture of the image's extent, 4 * width bytes per row, holding the RGBA expansion |
| `CommandLine.Apply` | src/main.cpp:29-39 | a recognised flag sets its field; `-o` and `--output` set the capture name; other tokens change nothing |
| `CommandLine.BsdfIndex` | src/main.cpp:41-48 | the index of the BSDF name, or 2 when the name is unknown |
| `CommandLine.ParseArgs` | src/main.cpp:9-48 | usage iff fewer than three arguments; a flag with no value fails; otherwise the options the scan from argument 3 yields, with the BSDF index looked up |
| `CommandLine.AppendedOptionWins` | src/main.cpp:28-40 | a flag appended with its value is applied last |
| `CommandLine.TrailingFlagFails` | src/main.cpp:28-40 | a flag appended without its value makes the scan fail |
| `CommandLine.OutputAlias` | src/main.cpp:35-36 | renaming an `-o` in option position to `--output` does not change the scan |
| `CommandLine.HeadlessSpp` | src/main.cpp:122 | `min(uint32(max_spp), 65536)`: a negative value gives 65536 |
| `CommandLine.HeadlessRun` | src/main.cpp:123-128 | one update per sample and a progress line after every 16th, carrying the sample count |

## Left out

- The OBJ, JSON and XML parsers and the image decoder are not modelled. Their output is the
  input of the model: an `ObjFile` value, whose parse may fail, and an `Image` value that the
  decoder has produced. A decode that fails is not modelled (see the next line).
- TextureLoading.LoadTexture and ObjLoading.LoadObjScene: a texture file that cannot be opened or
  decoded is excluded by the precondition `TexturesDecoded` (part of `Loadable`). In that case
  `stbi_load` returns a null pointer and leaves the width, height and channel count unset, and
  src/scene/loader.cpp:45-58 still reads those uninitialised sizes, indexes the null data and
  passes it to the texture constructor; that undefined behaviour has no Dafny counterpart.
- Texture objects are not modelled. The handle CUDA returns for material i's texture is a
  parameter.
- Floating-point work is not modelled: `GetTransform`, the matrix inverse and transpose, the
  face normal, the normalisation and the spherical projection. Transforms are opaque values,
  and the three functions are parameters.
- `ObjLoading.LoadObjScene`: the `diffuse`, `specular`, `ior` and `shininess` fields and
  `SetChanged` are left out. `src/scene/material.hpp` declares none of them. The emission
  and its emissive texture are modelled; the diffuse and specular textures are not.
- `ObjLoading.LoadObjScene`: the scene objects it creates are returned as a list of
  (name, mesh, material) values. They are not inserted into a `SceneGraph.Scene`.
- Index widths are not modelled: `uint32_t` mesh indices and `int` OBJ indices are unbounded
  naturals.
- `CommandLine.Apply`: `std::atoi` is a parameter.
- `CommandLine.ParseArgs`: a flag in the last position makes the source read `argv[argc]`
  (a null pointer). The model reports this as `MissingValue`.
- `main` calls `LoadObjScene` with a third argument that the loader does not take. The
  file-existence checks, the window, the film and the `.exr` capture are I/O and are not
  modelled.
- `kernel::BuildAccel` and `kernel::PathTracer::Render` are external CUDA code. The builder
  is a method that may write only the internal nodes; the render is the returned parameter
  record.
- `CameraComponent::BuildBuffer` is not part of this model. The camera buffers the visitor
  reads are an input.
- ImGui widgets are not modelled. `ShowUi` is reduced to its "edited ⇒ reset" rule, and
  `Scene::ShowUi` to its index clamp.
- The global scene pointer `g_scene` is process-wide state used only by UI callbacks, so it
  is not modelled.
- `Storage.ComponentStorage.Update`: the hook's effect on a payload is not modelled. The
  method returns the payload addresses it visits, in order.
- `PathTracing.LightPdf`: `1.0f / num_lights_` is read over reals. The float reciprocal's
  rounding is not captured: for three lights the float pdf times 3 is not exactly 1.
- `PathTracing.PathTracer.BuildBuffers`: the BuildAccel visitor's call of each mesh's own
  `Mesh::BuildAccel` is not performed. Each row's `accel` and `geometry` buffers are taken
  to be the records that `Meshes.Mesh.BuildAccel` leaves for that mesh.
- `PathTracing.PathTracer.BuildAccel`: it is called only for a non-empty join.
  `PathTracing.PathTracer.BuildBuffers` handles the empty join (see "## Findings").
- `PathTracing.PathTracer.BuildBuffers`: the Mesh-and-Material join is an input, one
  `JoinedObject` row per visited object. It is not computed by `SceneGraph.Scene.ForEach`,
  because the model's storages do not hold component payloads.
- `Materials.Material.IsEmissive` and `Materials.IsEmissiveColor`: the test
  `dot(emission, emission) > 0` is read over reals. Float underflow is not captured: an
  emission such as (1e-23, 0, 0) has a dot product that rounds to 0 in float, so the source
  treats it as not emissive while the model gives it a light. NaN components are not
  captured either.
- The rows marked "corrected (via …)" under "## Model" describe members that compose the
  corrected form of a defect listed under "## Findings". They do not reproduce the
  source's behaviour on the inputs that show the defect.
- `SceneGraph.Scene.Update`: `std::unordered_map` iteration order is unspecified. The model
  proves only that every storage is visited exactly once.

## Findings

| source | as written | input that shows it | evidently intended | confidence | as-written member | corrected member |
|---|---|---|---|---|---|---|
| src/scene/core.cpp:56-59 | `Count` divides by `size_ + sizeof(void*)`, but `size_` already includes the pointer | a component of 8 bytes (stride 16) with one slot: `16 / 24 + 0 = 0` | divide by `size_`: `block_offset_ / size_ + (blocks - 1) * (4096 / size_)` | high, not executed | `Storage.CountAsWrittenUndercounts` | `Storage.ComponentStorage.Count` |
| src/scene/core.hpp:86-90 | full blocks are walked up to 4096, past the last whole slot | stride 24 (a 16-byte component), 171 slots: the walk visits offset 4080, whose owner was never written and whose payload ends at byte 4104; the destructor (src/scene/core.cpp:24-27) walks full blocks the same way, and `Storage.ComponentStorage.Destroy` is its corrected form | stop at the last whole slot, `4096 / size_ * size_` | high, not executed | `Storage.AsWrittenVisitsPhantom` | `Storage.ComponentStorage.ForEachInner` |
| src/pathtracer/pathtracer.cpp:122-126 | the instance buffer is sized, and copied from, `2N - 1` records of an N-element vector | two mesh objects: three records are read from a vector of two | `N` records | high, not executed | `PathTracing.InstanceUploadOverreads` | `PathTracing.PathTracer.UploadTop` |
| src/pathtracer/pathtracer.cpp:76-77 | with no Mesh-and-Material object, `num_instances * 2 - 1` wraps in `uint32_t`, the box vector is sized 2^32 - 1 and the leaf copy starts at the wrapped `num_instances - 1` (lines 102-105) | an OBJ file with no faces, loaded through a scene file that adds only the camera; `main` then calls `BuildBuffers` | skip the hierarchy when there are no instances (no lights, so nothing renders) | medium, not executed | `PathTracing.EmptyJoinNodeCount` | `PathTracing.PathTracer.BuildBuffers` |
| src/scene/mesh.cpp:55-69 | `CalcNormals` fills the host array but never creates the device buffer that `BuildAccel` reads at line 125 | an OBJ file without normals: one triangle leaves `normals_buffer_` null; `CalcTexcoords` (lines 71-82) likewise never uploads, and `Meshes.Mesh.CalcTexcoords` is its corrected form | upload as `SetNormals` does | high, not executed | `Meshes.NormalsNeverUploaded` | `Meshes.Mesh.CalcNormals` |
| src/scene/loader.cpp:26-35 | when the file has any normals, every corner's normal is read at `3 * normal_index`, including a corner written without `/vn`, whose index is -1; texcoords likewise | a file with `f 1//1 2//1 3//1` and `f 1 2 3`: the second face's normals are read at index -3 | zero-fill a normal or texcoord the corner does not name | medium, not executed | `ObjLoading.MixedNormalsOverread` | `ObjLoading.Fetch` |
| src/scene/loader.cpp:48-56 | every image that is not four-channel is read as three bytes per texel | a 1x1 grey PNG: one byte, three read | convert by the image's own channel count (or decode to four components) | high, not executed | `TextureLoading.GreyImageOverreads` | `TextureLoading.LoadTexture` |
