/**
 * The path tracer's host side: flattening the joined scene into the top-level hierarchy,
 * the instance list and the light list, and the per-frame accumulation state machine.
 *
 * The scene joins (Mesh with Material) are inputs: each visited object arrives as the
 * values the visitor reads from it. World transforms are opaque; the film is reduced to
 * its width and height; the renderer kernel receives a parameter record.
 */
module PathTracing {
  import opened Options
  import opened Geometry
  import opened DeviceBuffers
  import opened Accel
  import opened Meshes
  import opened Materials

  /** 2^32: `uint32_t` counters wrap here. */
  const U32: nat := 0x1_0000_0000

  /** A world matrix (glm::mat4); its arithmetic is not modelled. */
  type Transform = seq<real>

  /** kernel camera record; CameraComponent::BuildBuffer is not part of this model. */
  type CameraRecord = nat

  /** What the BuildAccel visitor reads from one Mesh-and-Material object, after building its mesh. */
  datatype Drawable = Drawable(accel: CuBuffer<AccelBottom>, worldBox: Bbox, transform: Transform)

  /** kernel::AccelTop::Instance (the inverse transform is not modelled). */
  datatype TopInstance = TopInstance(accel: CuBuffer<AccelBottom>, transform: Transform)

  /** kernel::AccelTop */
  datatype AccelTop = AccelTop(nodes: CuBuffer<NodeRecord>, bboxes: CuBuffer<Bbox>, instances: CuBuffer<TopInstance>)

  /** What the BuildInstancesAndLights visitor reads from one Mesh-and-Material object. */
  datatype Shaded = Shaded(geometry: CuBuffer<TriMesh>, material: Material, transform: Transform)

  /**
   * One row of the Mesh-and-Material join: everything either visitor of BuildBuffers
   * reads from that object. Both visitors walk the same join, so they see the same rows.
   */
  datatype JoinedObject = JoinedObject(
    accel: CuBuffer<AccelBottom>, worldBox: Bbox, geometry: CuBuffer<TriMesh>, material: Material, transform: Transform)

  /** The BuildAccel visitor's view of the rows. */
  function DrawablesOf(rows: seq<JoinedObject>): (r: seq<Drawable>)
    ensures |r| == |rows|
    ensures forall i | 0 <= i < |rows| :: r[i].accel == rows[i].accel && r[i].transform == rows[i].transform
  {
    seq(|rows|, i requires 0 <= i < |rows| => Drawable(rows[i].accel, rows[i].worldBox, rows[i].transform))
  }

  /** Top-level instance i is built from row i. */
  lemma TopInstancesOfRows(rows: seq<JoinedObject>)
    ensures forall i | 0 <= i < |rows| :: TopInstances(DrawablesOf(rows))[i] == TopInstance(rows[i].accel, rows[i].transform)
  {
  }

  /** The BuildInstancesAndLights visitor's view of the rows. */
  function ShadedOf(rows: seq<JoinedObject>): (r: seq<Shaded>)
    ensures |r| == |rows|
    ensures forall i | 0 <= i < |rows| :: r[i].material == rows[i].material && r[i].transform == rows[i].transform
  {
    seq(|rows|, i requires 0 <= i < |rows| => Shaded(rows[i].geometry, rows[i].material, rows[i].transform))
  }

  /** kernel::GeometryLight (the inverse-transpose is not modelled). */
  datatype GeometryLight = GeometryLight(geometry: GeometryRef, material: Material, transform: Transform)

  /** kernel::Light of type eGeometry: a pointer to its GeometryLight record. */
  datatype LightRef = GeometryLightRef(record: CuBuffer<GeometryLight>)

  /** kernel::Instance: geometry, material, and a light pointer that is null (None) unless emissive. */
  datatype Instance = Instance(geometry: GeometryRef, material: Material, light: Option<LightRef>)

  /** kernel::PathTracer::Params */
  datatype RenderParams = RenderParams(
    camera: CuBuffer<CameraRecord>, lights: CuBuffer<LightRef>, numLights: nat, pdf: real,
    instances: CuBuffer<Instance>, accel: CuBuffer<AccelTop>,
    width: nat, height: nat, spp: nat, maxDepth: nat)

  function WorldBoxes(items: seq<Drawable>): (r: seq<Bbox>)
    ensures |r| == |items|
  {
    seq(|items|, i requires 0 <= i < |items| => items[i].worldBox)
  }

  function TopInstances(items: seq<Drawable>): (r: seq<TopInstance>)
    ensures |r| == |items|
  {
    seq(|items|, i requires 0 <= i < |items| => TopInstance(items[i].accel, items[i].transform))
  }

  /** The light pointers of an instance list, in order, skipping the null ones. */
  function LightsOf(instances: seq<Instance>): seq<LightRef> {
    if instances == [] then []
    else
      var rest := LightsOf(instances[..|instances| - 1]);
      var last := instances[|instances| - 1];
      if last.light.Some? then rest + [last.light.value] else rest
  }

  /** The instances that carry a light. */
  function LitCount(instances: seq<Instance>): nat {
    |LitBelow(instances, |instances|)|
  }

  /** The lit instances among the first n. */
  function LitBelow(instances: seq<Instance>, n: nat): set<nat> {
    set i: nat | i < n && i < |instances| && instances[i].light.Some?
  }

  lemma LitBelowStep(instances: seq<Instance>, n: nat)
    requires n < |instances|
    ensures |LitBelow(instances, n + 1)| == |LitBelow(instances, n)| + (if instances[n].light.Some? then 1 else 0)
  {
    if instances[n].light.Some? {
      assert LitBelow(instances, n + 1) == LitBelow(instances, n) + {n};
    } else {
      assert LitBelow(instances, n + 1) == LitBelow(instances, n);
    }
  }

  lemma LitBelowPrefix(instances: seq<Instance>, n: nat)
    requires n <= |instances|
    ensures LitBelow(instances[..n], n) == LitBelow(instances, n)
  {
  }

  /** The light list has one entry per instance with a light. */
  lemma {:induction false} LightsOfCount(instances: seq<Instance>)
    ensures |LightsOf(instances)| == LitCount(instances)
  {
    if instances != [] {
      var n := |instances| - 1;
      LightsOfCount(instances[..n]);
      LitBelowPrefix(instances, n);
      LitBelowStep(instances, n);
      assert LitCount(instances) == |LitBelow(instances, n + 1)|;
      assert LitCount(instances[..n]) == |LitBelow(instances[..n], n)|;
    }
  }

  /** Each light-list entry is some instance's light, and every instance's light is listed. */
  lemma {:induction false} LightsOfMembers(instances: seq<Instance>)
    ensures forall l :: l in LightsOf(instances) <==> exists i | 0 <= i < |instances| :: instances[i].light == Some(l)
  {
    if instances != [] {
      var n := |instances| - 1;
      LightsOfMembers(instances[..n]);
      assert forall i | 0 <= i < n :: instances[..n][i] == instances[i];
    }
  }

  lemma LightsOfSnoc(instances: seq<Instance>, inst: Instance)
    ensures LightsOf(instances + [inst]) == LightsOf(instances) + (if inst.light.Some? then [inst.light.value] else [])
  {
    assert (instances + [inst])[..|instances|] == instances;
  }

  // ----- the sample counter -----

  /** One rendered frame: restart at 1 after a film resize, otherwise count on, wrapping at 2^32. */
  function NextSpp(spp: nat, resized: bool): (r: nat)
    ensures r < U32
  {
    if resized then 1 else (spp + 1) % U32
  }

  /** The counter after a run of rendered frames, `resized[k]` telling whether frame k saw a resize. */
  function SppAfter(spp: nat, resized: seq<bool>): nat {
    if resized == [] then spp else NextSpp(SppAfter(spp, resized[..|resized| - 1]), resized[|resized| - 1])
  }

  lemma ModSucc(a: nat)
    ensures (a % U32 + 1) % U32 == (a + 1) % U32
  {
  }

  /** Without a resize the counter counts frames modulo 2^32. */
  lemma {:induction false} SppCountsFrames(spp: nat, resized: seq<bool>)
    requires spp < U32
    requires forall k | 0 <= k < |resized| :: !resized[k]
    ensures SppAfter(spp, resized) == (spp + |resized|) % U32
  {
    if resized != [] {
      var n := |resized| - 1;
      SppCountsFrames(spp, resized[..n]);
      ModSucc(spp + n);
    }
  }

  /** After a resize the counter counts the frames since the last resizing one, which counts as 1. */
  lemma {:induction false} SppCountsSinceResize(spp: nat, resized: seq<bool>, k: nat)
    requires k < |resized| && resized[k]
    requires forall j | k < j < |resized| :: !resized[j]
    ensures SppAfter(spp, resized) == (|resized| - k) % U32
  {
    var n := |resized| - 1;
    if n != k {
      SppCountsSinceResize(spp, resized[..n], k);
      ModSucc(n - k);
    }
  }

  // ----- the top-level instance buffer -----

  /**
   * `num_instances * 2 - 1` as written, in `uint32_t` arithmetic (for counts below 2^31,
   * as any scene has): it wraps to 2^32 - 1 when the join is empty.
   */
  function NodeCountAsWritten(n: nat): (r: nat)
    ensures r < U32
  {
    (2 * n - 1) % U32
  }

  /**
   * For a non-empty join the as-written count is the node count; for the empty join
   * BuildAccel as written sizes its box vector at 2^32 - 1 and offsets its leaf copy by
   * the wrapped `num_instances - 1`.
   */
  lemma EmptyJoinNodeCount(n: nat)
    requires n < U32 / 2
    ensures n >= 1 ==> NodeCountAsWritten(n) == NodeCount(n)
    ensures n == 0 ==> NodeCountAsWritten(n) == U32 - 1 && (n - 1) % U32 == U32 - 1
  {
  }

  /** Records the instance upload copies as written: `num_accel_nodes`, i.e. 2N - 1. */
  function InstanceRecordsAsWritten(n: nat): nat
    requires n >= 1
  {
    NodeCount(n)
  }

  /**
   * The instance upload as written: `instance_buffer_size` covers 2N - 1 records, copied
   * from the N-element instance list. None when that copy reads past the list's end.
   */
  function InstanceCopyAsWritten(tops: seq<TopInstance>): Option<seq<TopInstance>>
    requires |tops| >= 1
  {
    var count := InstanceRecordsAsWritten(|tops|);
    if count <= |tops| then Some(tops[..count]) else None
  }

  /** The copy as written is exact for one instance and reads past the list from two on. */
  lemma InstanceUploadOverreads(tops: seq<TopInstance>)
    requires |tops| >= 1
    ensures |tops| == 1 ==> InstanceCopyAsWritten(tops) == Some(tops)
    ensures |tops| >= 2 ==> InstanceCopyAsWritten(tops) == None
  {
    assert tops[..|tops|] == tops;
  }

  /** `static_cast<uint32_t>(max_depth_)`: two's-complement reinterpretation. */
  function MaxDepthArg(maxDepth: int): (r: nat)
    ensures r < U32
    ensures 0 <= maxDepth < U32 ==> r == maxDepth
    ensures -(U32 as int) <= maxDepth < 0 ==> r == maxDepth + U32
  {
    maxDepth % U32
  }

  /** `num_lights_ != 0 ? 1.0f / num_lights_ : 0.0f`, over reals. */
  function LightPdf(numLights: nat): (r: real)
    ensures numLights == 0 ==> r == 0.0
    ensures numLights > 0 ==> r > 0.0 && r * (numLights as real) == 1.0
  {
    if numLights != 0 then 1.0 / (numLights as real) else 0.0
  }

  class PathTracer {
    var maxDepth: int
    var currSpp: nat
    var lastWidth: nat
    var lastHeight: nat

    var accelBuffer: CuBuffer?<AccelTop>
    var accelNodesBuffer: CuBuffer?<NodeRecord>
    var accelBboxesBuffer: CuBuffer?<Bbox>
    var accelInstancesBuffer: CuBuffer?<TopInstance>

    var instancesBuffer: CuBuffer?<Instance>
    var lightsBuffer: CuBuffer?<LightRef>
    var numLights: nat
    var geoLightBuffers: seq<CuBuffer<GeometryLight>>

    var cameraBuffer: CuBuffer?<CameraRecord>

    /**
     * The counter is a uint32, and once there are lights the buffers Update dereferences
     * exist (BuildBuffers creates them together).
     */
    predicate Valid()
      reads this
    {
      && currSpp < U32
      && (numLights != 0 ==> accelBuffer != null && instancesBuffer != null && lightsBuffer != null)
    }

    /** A fresh tracer: depth -1, nothing accumulated, no buffers, no lights, no camera. */
    constructor ()
      ensures Valid()
      ensures maxDepth == -1 && currSpp == 0 && lastWidth == 0 && lastHeight == 0
      ensures numLights == 0 && geoLightBuffers == [] && cameraBuffer == null
      ensures accelBuffer == null && accelNodesBuffer == null && accelBboxesBuffer == null
      ensures accelInstancesBuffer == null && instancesBuffer == null && lightsBuffer == null
    {
      maxDepth, currSpp, lastWidth, lastHeight := -1, 0, 0, 0;
      accelBuffer, accelNodesBuffer, accelBboxesBuffer, accelInstancesBuffer := null, null, null, null;
      instancesBuffer, lightsBuffer, numLights, geoLightBuffers := null, null, 0, [];
      cameraBuffer := null;
    }

    /** PathTracer::ResetAccumelation */
    method ResetAccumelation()
      modifies this`currSpp
      ensures currSpp == 0
    {
      currSpp := 0;
    }

    /**
     * PathTracer::ShowUi: the two widgets' results are inputs. An edit of the depth or a
     * press of the reset button restarts accumulation; otherwise the counter is kept.
     */
    method ShowUi(depthEdited: bool, newDepth: int, resetPressed: bool)
      modifies this`maxDepth, this`currSpp
      ensures maxDepth == if depthEdited then newDepth else old(maxDepth)
      ensures currSpp == if depthEdited || resetPressed then 0 else old(currSpp)
    {
      var changed := false;
      if depthEdited {
        maxDepth := newDepth;
        changed := true;
      }
      changed := changed || resetPressed;
      if changed {
        ResetAccumelation();
      }
    }

    /**
     * PathTracer::Update for a film of the given size: nothing without a camera or
     * without lights; otherwise a resize restarts the counter, the counter advances and
     * the kernel is launched with the parameters returned.
     */
    method Update(width: nat, height: nat) returns (launched: Option<RenderParams>)
      requires Valid()
      modifies this`currSpp, this`lastWidth, this`lastHeight
      ensures Valid()
      ensures cameraBuffer == null || numLights == 0 ==>
        launched == None && currSpp == old(currSpp) && lastWidth == old(lastWidth) && lastHeight == old(lastHeight)
      ensures cameraBuffer != null && numLights != 0 ==>
        && lastWidth == width && lastHeight == height
        && currSpp == NextSpp(old(currSpp), width != old(lastWidth) || height != old(lastHeight))
        && launched == Some(RenderParams(cameraBuffer, lightsBuffer, numLights, LightPdf(numLights),
                                         instancesBuffer, accelBuffer, width, height, currSpp, MaxDepthArg(maxDepth)))
    {
      if cameraBuffer == null || numLights == 0 {
        return None;
      }
      if width != lastWidth || height != lastHeight {
        ResetAccumelation();
        lastWidth := width;
        lastHeight := height;
      }
      currSpp := (currSpp + 1) % U32;
      launched := Some(RenderParams(cameraBuffer, lightsBuffer, numLights, LightPdf(numLights),
                                    instancesBuffer, accelBuffer, width, height, currSpp, MaxDepthArg(maxDepth)));
    }

    /** The leaf array of BuildAccel: 2N - 1 value-initialised boxes, the leaves copied to [N - 1, 2N - 2]. */
    static method LayoutLeaves(leaves: seq<Bbox>) returns (nodes: seq<Bbox>)
      requires |leaves| >= 1
      ensures HoldsLeaves(nodes, leaves)
      ensures forall k | 0 <= k < |leaves| - 1 :: nodes[k] == ZeroBox
    {
      var n := |leaves|;
      var a := new Bbox[NodeCount(n)](_ => ZeroBox);
      for i := 0 to n
        invariant forall k | 0 <= k < n - 1 :: a[k] == ZeroBox
        invariant forall j | 0 <= j < i :: a[n - 1 + j] == leaves[j]
      {
        a[n - 1 + i] := leaves[i];
      }
      nodes := a[..];
      assert nodes[n - 1..] == leaves;
    }

    /** The merge loop of BuildAccel, over the leaf slots of the node array. */
    static method MergeLeafSlots(nodes: seq<Bbox>, n: nat) returns (merged: Bbox)
      requires n >= 1 && |nodes| == NodeCount(n)
      ensures merged == MergeAll(nodes[n - 1..])
    {
      merged := EmptyBox;
      for i := 0 to n
        invariant merged == MergeAll(nodes[n - 1..n - 1 + i])
      {
        assert nodes[n - 1..n - 1 + i + 1][..i] == nodes[n - 1..n - 1 + i];
        merged := Merge(merged, nodes[n - 1 + i]);
      }
      assert nodes[n - 1..n - 1 + n] == nodes[n - 1..];
    }

    /** The visitor of BuildAccel: push each object's world box and instance record. */
    static method Collect(items: seq<Drawable>) returns (leaves: seq<Bbox>, tops: seq<TopInstance>)
      ensures leaves == WorldBoxes(items) && tops == TopInstances(items)
    {
      leaves, tops := [], [];
      for i := 0 to |items|
        invariant leaves == WorldBoxes(items[..i]) && tops == TopInstances(items[..i])
      {
        leaves := leaves + [items[i].worldBox];
        tops := tops + [TopInstance(items[i].accel, items[i].transform)];
      }
      assert items[..|items|] == items;
    }

    /** Upload boxes and instances, reserve nodes, all under the grow-only policy. */
    method UploadTop(nodes: seq<Bbox>, tops: seq<TopInstance>)
      requires |tops| >= 1 && |nodes| == NodeCount(|tops|)
      modifies this`accelBboxesBuffer, this`accelInstancesBuffer, this`accelNodesBuffer
      modifies accelBboxesBuffer, accelInstancesBuffer
      ensures accelBboxesBuffer != null && accelInstancesBuffer != null && accelNodesBuffer != null
      ensures accelBboxesBuffer.contents == nodes && accelInstancesBuffer.contents == tops
      ensures NeedsRealloc(old(CapacityOf(accelBboxesBuffer)), |nodes|) ==> fresh(accelBboxesBuffer)
      ensures !NeedsRealloc(old(CapacityOf(accelBboxesBuffer)), |nodes|) ==> accelBboxesBuffer == old(accelBboxesBuffer)
      ensures accelBboxesBuffer.size == CapacityAfter(old(CapacityOf(accelBboxesBuffer)), |nodes|)
      ensures NeedsRealloc(old(CapacityOf(accelInstancesBuffer)), |tops|) ==> fresh(accelInstancesBuffer)
      ensures !NeedsRealloc(old(CapacityOf(accelInstancesBuffer)), |tops|) ==> accelInstancesBuffer == old(accelInstancesBuffer)
      ensures accelInstancesBuffer.size == CapacityAfter(old(CapacityOf(accelInstancesBuffer)), |tops|)
      ensures NeedsRealloc(old(CapacityOf(accelNodesBuffer)), |nodes|) ==> fresh(accelNodesBuffer)
      ensures !NeedsRealloc(old(CapacityOf(accelNodesBuffer)), |nodes|) ==> accelNodesBuffer == old(accelNodesBuffer)
      ensures accelNodesBuffer.size == CapacityAfter(old(CapacityOf(accelNodesBuffer)), |nodes|)
    {
      assert nodes[..|nodes|] == nodes && tops[..|tops|] == tops;
      accelBboxesBuffer := Upload(accelBboxesBuffer, |nodes|, nodes);
      accelInstancesBuffer := Upload(accelInstancesBuffer, |tops|, tops);
      accelNodesBuffer := Reserve(accelNodesBuffer, |nodes|);
    }

    /**
     * PathTracer::BuildAccel over the Mesh-and-Material objects in visit order, with the
     * instance upload sized to the N instances. `internal` is what the builder computes
     * for the internal nodes. Returns the merged box and count handed to the builder.
     */
    method BuildAccel(items: seq<Drawable>, internal: seq<Bbox>) returns (request: BuildRequest)
      requires |items| >= 1 && |internal| == |items| - 1
      modifies this`accelBboxesBuffer, this`accelInstancesBuffer, this`accelNodesBuffer, this`accelBuffer
      modifies accelBboxesBuffer, accelInstancesBuffer, accelBuffer
      ensures request == BuildRequest(MergeAll(WorldBoxes(items)), |items|)
      ensures accelBboxesBuffer != null && accelInstancesBuffer != null && accelNodesBuffer != null && accelBuffer != null
      ensures HoldsLeaves(accelBboxesBuffer.contents, WorldBoxes(items))
      ensures accelBboxesBuffer.contents[..|items| - 1] == internal
      ensures accelInstancesBuffer.contents == TopInstances(items)
      ensures accelBboxesBuffer.size == CapacityAfter(old(CapacityOf(accelBboxesBuffer)), NodeCount(|items|))
      ensures accelInstancesBuffer.size == CapacityAfter(old(CapacityOf(accelInstancesBuffer)), |items|)
      ensures accelNodesBuffer.size == CapacityAfter(old(CapacityOf(accelNodesBuffer)), NodeCount(|items|))
      ensures accelBuffer.contents == [AccelTop(accelNodesBuffer, accelBboxesBuffer, accelInstancesBuffer)]
      ensures old(accelBuffer) == null ==> fresh(accelBuffer)
      ensures old(accelBuffer) != null ==> accelBuffer == old(accelBuffer)
    {
      var leaves, tops := Collect(items);
      var n := |tops|;
      var nodes := LayoutLeaves(leaves);
      var merged := MergeLeafSlots(nodes, n);
      assert nodes[n - 1..] == leaves;
      UploadTop(nodes, tops);
      request := BuildRequest(merged, n);
      ExternalBuild(accelBboxesBuffer, request, internal);
      assert accelInstancesBuffer.contents == tops;
      BuildKeepsLeaves(nodes, internal, leaves);
      assert HoldsLeaves(accelBboxesBuffer.contents, leaves) && accelBboxesBuffer.contents[..n - 1] == internal;
      accelBuffer := Store(accelBuffer, 1, AccelTop(accelNodesBuffer, accelBboxesBuffer, accelInstancesBuffer));
      assert accelInstancesBuffer.contents == tops;
      assert HoldsLeaves(accelBboxesBuffer.contents, leaves) && accelBboxesBuffer.contents[..n - 1] == internal;
    }

    /**
     * The visitor of BuildInstancesAndLights: one instance per object, and for each
     * emissive one a fresh GeometryLight record whose pointer goes into the instance and
     * the light list.
     */
    static method CollectInstances(items: seq<Shaded>)
      returns (instances: seq<Instance>, lights: seq<LightRef>, records: seq<CuBuffer<GeometryLight>>)
      ensures |instances| == |items| && |records| == |lights|
      ensures forall i | 0 <= i < |items| ::
        && instances[i].geometry == TriMeshGeometry(items[i].geometry)
        && instances[i].material == items[i].material
        && (instances[i].light.Some? <==> items[i].material.IsEmissive())
      ensures forall i | 0 <= i < |items| && instances[i].light.Some? ::
        instances[i].light.value.record.contents
          == [GeometryLight(TriMeshGeometry(items[i].geometry), items[i].material, items[i].transform)]
      ensures lights == LightsOf(instances)
      ensures forall k | 0 <= k < |lights| :: lights[k] == GeometryLightRef(records[k]) && fresh(records[k])
    {
      instances, lights, records := [], [], [];
      for i := 0 to |items|
        invariant |instances| == i && |records| == |lights|
        invariant forall j | 0 <= j < i ::
          && instances[j].geometry == TriMeshGeometry(items[j].geometry)
          && instances[j].material == items[j].material
          && (instances[j].light.Some? <==> items[j].material.IsEmissive())
        invariant forall j | 0 <= j < i && instances[j].light.Some? ::
          instances[j].light.value.record.contents
            == [GeometryLight(TriMeshGeometry(items[j].geometry), items[j].material, items[j].transform)]
        invariant lights == LightsOf(instances)
        invariant forall k | 0 <= k < |lights| :: lights[k] == GeometryLightRef(records[k]) && fresh(records[k])
      {
        var geometry := TriMeshGeometry(items[i].geometry);
        var inst := Instance(geometry, items[i].material, None);
        if items[i].material.IsEmissive() {
          var record := new CuBuffer.Create(1, [GeometryLight(geometry, items[i].material, items[i].transform)]);
          inst := inst.(light := Some(GeometryLightRef(record)));
          lights := lights + [inst.light.value];
          records := records + [record];
        }
        LightsOfSnoc(instances, inst);
        instances := instances + [inst];
      }
    }

    /**
     * PathTracer::BuildInstancesAndLights: the light records are replaced by one fresh
     * record per emissive object, the light count set, and the instance and light lists
     * uploaded under the grow-only policy.
     */
    method BuildInstancesAndLights(items: seq<Shaded>)
      modifies this`geoLightBuffers, this`numLights, this`instancesBuffer, this`lightsBuffer
      modifies instancesBuffer, lightsBuffer
      ensures instancesBuffer != null && lightsBuffer != null
      ensures |instancesBuffer.contents| == |items|
      ensures forall i | 0 <= i < |items| ::
        && instancesBuffer.contents[i].geometry == TriMeshGeometry(items[i].geometry)
        && instancesBuffer.contents[i].material == items[i].material
        && (instancesBuffer.contents[i].light.Some? <==> items[i].material.IsEmissive())
      ensures forall i | 0 <= i < |items| && instancesBuffer.contents[i].light.Some? ::
        instancesBuffer.contents[i].light.value.record.contents
          == [GeometryLight(TriMeshGeometry(items[i].geometry), items[i].material, items[i].transform)]
      ensures lightsBuffer.contents == LightsOf(instancesBuffer.contents)
      ensures numLights == |lightsBuffer.contents| == |geoLightBuffers|
      ensures numLights == LitCount(instancesBuffer.contents)
      ensures forall k | 0 <= k < numLights :: lightsBuffer.contents[k] == GeometryLightRef(geoLightBuffers[k])
      ensures forall k | 0 <= k < numLights :: fresh(geoLightBuffers[k])
      ensures instancesBuffer.size == CapacityAfter(old(CapacityOf(instancesBuffer)), |items|)
      ensures lightsBuffer.size == CapacityAfter(old(CapacityOf(lightsBuffer)), numLights)
    {
      geoLightBuffers := [];
      var instances, lights, records := CollectInstances(items);
      geoLightBuffers := records;
      numLights := |lights|;
      LightsOfCount(instances);
      UploadShading(instances, lights);
    }

    /** The two grow-only uploads of BuildInstancesAndLights. */
    method UploadShading(instances: seq<Instance>, lights: seq<LightRef>)
      modifies this`instancesBuffer, this`lightsBuffer, instancesBuffer, lightsBuffer
      ensures instancesBuffer != null && lightsBuffer != null
      ensures instancesBuffer.contents == instances && lightsBuffer.contents == lights
      ensures instancesBuffer.size == CapacityAfter(old(CapacityOf(instancesBuffer)), |instances|)
      ensures lightsBuffer.size == CapacityAfter(old(CapacityOf(lightsBuffer)), |lights|)
    {
      assert instances[..|instances|] == instances && lights[..|lights|] == lights;
      instancesBuffer := Upload(instancesBuffer, |instances|, instances);
      lightsBuffer := Upload(lightsBuffer, |lights|, lights);
    }

    /** The camera visitor of BuildBuffers: each camera's record becomes the current one. */
    method PickCamera(cameras: seq<CuBuffer<CameraRecord>>)
      modifies this`cameraBuffer
      ensures cameraBuffer == if cameras == [] then old(cameraBuffer) else cameras[|cameras| - 1]
    {
      for i := 0 to |cameras|
        invariant cameraBuffer == if i == 0 then old(cameraBuffer) else cameras[i - 1]
      {
        cameraBuffer := cameras[i];
      }
    }

    /** What BuildAccel leaves in the top-level buffers for the given drawables. */
    predicate TopLevel(drawables: seq<Drawable>, internal: seq<Bbox>)
      reads this, accelBboxesBuffer, accelInstancesBuffer, accelBuffer
    {
      && |drawables| >= 1
      && accelBboxesBuffer != null && accelInstancesBuffer != null && accelNodesBuffer != null && accelBuffer != null
      && HoldsLeaves(accelBboxesBuffer.contents, WorldBoxes(drawables))
      && accelBboxesBuffer.contents[..|drawables| - 1] == internal
      && accelInstancesBuffer.contents == TopInstances(drawables)
      && accelBuffer.contents == [AccelTop(accelNodesBuffer, accelBboxesBuffer, accelInstancesBuffer)]
    }

    /**
     * The second half of BuildBuffers over the join rows: the camera visitor (the last
     * camera visited wins), then the instances and lights.
     */
    method BuildShading(rows: seq<JoinedObject>, cameras: seq<CuBuffer<CameraRecord>>)
      modifies this`cameraBuffer, this`geoLightBuffers, this`numLights, this`instancesBuffer, this`lightsBuffer
      modifies instancesBuffer, lightsBuffer
      ensures cameraBuffer == if cameras == [] then old(cameraBuffer) else cameras[|cameras| - 1]
      ensures lightsBuffer != null && instancesBuffer != null
      ensures |instancesBuffer.contents| == |rows|
      ensures forall i | 0 <= i < |rows| ::
        && instancesBuffer.contents[i].geometry == TriMeshGeometry(rows[i].geometry)
        && instancesBuffer.contents[i].material == rows[i].material
        && (instancesBuffer.contents[i].light.Some? <==> rows[i].material.IsEmissive())
      ensures forall i | 0 <= i < |rows| && instancesBuffer.contents[i].light.Some? ::
        instancesBuffer.contents[i].light.value.record.contents
          == [GeometryLight(TriMeshGeometry(rows[i].geometry), rows[i].material, rows[i].transform)]
      ensures lightsBuffer.contents == LightsOf(instancesBuffer.contents)
      ensures numLights == |lightsBuffer.contents| == LitCount(instancesBuffer.contents)
      ensures currSpp == old(currSpp) && maxDepth == old(maxDepth)
    {
      PickCamera(cameras);
      BuildInstancesAndLights(ShadedOf(rows));
    }

    /**
     * PathTracer::BuildBuffers, corrected for the empty join: the top-level hierarchy
     * (skipped when no object has a mesh and a material, where the source's node count
     * wraps), then the camera and the instances and lights. Hierarchy and instances come
     * from the same Mesh-and-Material join, so top-level instance i and shading instance i
     * are the same object.
     */
    method BuildBuffers(rows: seq<JoinedObject>, internal: seq<Bbox>, cameras: seq<CuBuffer<CameraRecord>>)
      returns (request: Option<BuildRequest>)
      requires Valid()
      requires rows != [] ==> |internal| == |rows| - 1
      modifies this`accelBboxesBuffer, this`accelInstancesBuffer, this`accelNodesBuffer, this`accelBuffer
      modifies this`cameraBuffer, this`geoLightBuffers, this`numLights, this`instancesBuffer, this`lightsBuffer
      modifies accelBboxesBuffer, accelInstancesBuffer, accelBuffer, instancesBuffer, lightsBuffer
      ensures Valid()
      ensures rows == [] ==> request == None && numLights == 0
      ensures rows == [] ==> accelBuffer == old(accelBuffer) && accelBboxesBuffer == old(accelBboxesBuffer)
      ensures rows == [] ==> accelInstancesBuffer == old(accelInstancesBuffer) && accelNodesBuffer == old(accelNodesBuffer)
      ensures rows != [] ==> request == Some(BuildRequest(MergeAll(WorldBoxes(DrawablesOf(rows))), |rows|))
      ensures rows != [] ==> TopLevel(DrawablesOf(rows), internal)
      ensures cameraBuffer == if cameras == [] then old(cameraBuffer) else cameras[|cameras| - 1]
      ensures lightsBuffer != null && instancesBuffer != null
      ensures |instancesBuffer.contents| == |rows|
      ensures forall i | 0 <= i < |rows| ::
        && instancesBuffer.contents[i].geometry == TriMeshGeometry(rows[i].geometry)
        && instancesBuffer.contents[i].material == rows[i].material
        && (instancesBuffer.contents[i].light.Some? <==> rows[i].material.IsEmissive())
      ensures forall i | 0 <= i < |rows| && instancesBuffer.contents[i].light.Some? ::
        instancesBuffer.contents[i].light.value.record.contents
          == [GeometryLight(TriMeshGeometry(rows[i].geometry), rows[i].material, rows[i].transform)]
      ensures lightsBuffer.contents == LightsOf(instancesBuffer.contents)
      ensures numLights == |lightsBuffer.contents| == LitCount(instancesBuffer.contents)
      ensures currSpp == old(currSpp) && maxDepth == old(maxDepth)
    {
      request := BuildTop(rows, internal);
      BuildShading(rows, cameras);
      if rows == [] {
        assert LitBelow(instancesBuffer.contents, 0) == {};
      }
    }

    /** The hierarchy half of BuildBuffers: nothing for the empty join, BuildAccel otherwise. */
    method BuildTop(rows: seq<JoinedObject>, internal: seq<Bbox>) returns (request: Option<BuildRequest>)
      requires rows != [] ==> |internal| == |rows| - 1
      modifies this`accelBboxesBuffer, this`accelInstancesBuffer, this`accelNodesBuffer, this`accelBuffer
      modifies accelBboxesBuffer, accelInstancesBuffer, accelBuffer
      ensures rows == [] ==> request == None
      ensures rows == [] ==> accelBuffer == old(accelBuffer) && accelBboxesBuffer == old(accelBboxesBuffer)
      ensures rows == [] ==> accelInstancesBuffer == old(accelInstancesBuffer) && accelNodesBuffer == old(accelNodesBuffer)
      ensures rows != [] ==> request == Some(BuildRequest(MergeAll(WorldBoxes(DrawablesOf(rows))), |rows|))
      ensures rows != [] ==> TopLevel(DrawablesOf(rows), internal)
    {
      if rows == [] {
        request := None;
      } else {
        var r := BuildAccel(DrawablesOf(rows), internal);
        request := Some(r);
      }
    }
  }
}
