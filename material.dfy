/**
 * Materials: the emissive test that decides light-list membership, and the device
 * record a material builds once and overwrites afterwards.
 *
 * Textures are represented by their texture-object handle; an absent map is `None`.
 */
module Materials {
  import opened Options
  import opened Geometry
  import opened DeviceBuffers

  lemma SquarePositive(a: real)
    requires a != 0.0
    ensures a * a > 0.0
  {
    if a < 0.0 {
      assert a * a > 0.0;
    }
  }

  lemma SquareNonNegative(a: real)
    ensures a * a >= 0.0
  {
    if a < 0.0 {
      assert a * a > 0.0;
    }
  }

  /** A sum of three squares is positive exactly when one of the terms is nonzero. */
  lemma SquaresPositive(x: real, y: real, z: real)
    ensures x * x + y * y + z * z > 0.0 <==> (x != 0.0 || y != 0.0 || z != 0.0)
  {
    SquareNonNegative(x);
    SquareNonNegative(y);
    SquareNonNegative(z);
    if x != 0.0 {
      SquarePositive(x);
    } else if y != 0.0 {
      SquarePositive(y);
    } else if z != 0.0 {
      SquarePositive(z);
    }
  }

  /** `glm::dot(emission, emission) > 0`: over reals, some emission component is nonzero. */
  function IsEmissiveColor(emission: Vec3): (r: bool)
    ensures r <==> emission != Zero3
  {
    SquaresPositive(emission.x, emission.y, emission.z);
    emission.x * emission.x + emission.y * emission.y + emission.z * emission.z > 0.0
  }

  /** The handle written for an optional texture map: the texture object, or 0 when absent. */
  function TextureHandle(texture: Option<nat>): (r: nat)
    ensures texture.None? ==> r == 0
    ensures texture.Some? ==> r == texture.value
  {
    texture.GetOr(0)
  }

  /** kernel::LambertMaterial: emission and color, each a value and a texture handle. */
  datatype MaterialRecord = MaterialRecord(emission: Vec3, emissionTexture: nat, color: Vec3, colorTexture: nat)

  /** The default base color, glm::vec3(0.5f). */
  const DefaultColor: Vec3 := Vec3(0.5, 0.5, 0.5)

  class Material {
    var emission: Vec3
    var color: Vec3
    var emissionMap: Option<nat>
    var colorMap: Option<nat>
    /** buffer_: null until the first BuildBuffer. */
    var buffer: CuBuffer?<MaterialRecord>

    /** A default-constructed material: no emission, grey, no maps, no record. */
    constructor ()
      ensures emission == Zero3 && color == DefaultColor
      ensures emissionMap == None && colorMap == None && buffer == null
      ensures !IsEmissive()
    {
      emission := Zero3;
      color := DefaultColor;
      emissionMap := None;
      colorMap := None;
      buffer := null;
    }

    /** Material::IsEmissive */
    function IsEmissive(): (r: bool)
      reads this
      ensures r <==> emission != Zero3
    {
      IsEmissiveColor(emission)
    }

    /** The record BuildBuffer uploads: the current values, absent maps as handle 0. */
    function Record(): MaterialRecord
      reads this
    {
      MaterialRecord(emission, TextureHandle(emissionMap), color, TextureHandle(colorMap))
    }

    /**
     * Material::BuildBuffer: the record buffer is created on the first call and
     * overwritten in place on every later one; either way it holds the current record.
     */
    method BuildBuffer()
      modifies this, buffer
      ensures old(buffer) == null ==> fresh(buffer) && buffer.size == 1
      ensures old(buffer) != null ==> buffer == old(buffer)
      ensures buffer != null && buffer.contents == [Record()]
      ensures emission == old(emission) && color == old(color)
      ensures emissionMap == old(emissionMap) && colorMap == old(colorMap)
    {
      var data := Record();
      buffer := Store(buffer, 1, data);
    }
  }
}
