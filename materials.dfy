// The material record of src/material.rs.

module Materials {
  import opened Wrappers
  import opened Colors

  /** A loaded texture; its type is defined outside the files modelled here. */
  type Texture(==, !new)

  /**
   * A surface material: a diffuse colour, a specular exponent, four albedo
   * weights (diffuse, specular, reflective, refractive), a refractive index,
   * one optional texture per box face and an optional normal map.
   */
  datatype Material = Material(
    diffuse: Color,
    specular: real,
    albedo: seq<real>,
    refractiveIndex: real,
    textures: seq<Option<Texture>>,
    normalMap: Option<Texture>)
  {
    /** The shape every constructor gives: four albedo weights, six texture slots. */
    predicate Valid()
    {
      |albedo| == 4 && |textures| == 6
    }
  }

  /** `Material::new`: the array arguments are copied into the record. */
  function New(
    diffuse: Color, specular: real, albedo: seq<real>, refractiveIndex: real,
    textures: seq<Option<Texture>>, normalMap: Option<Texture>): (m: Material)
    requires |albedo| == 4 && |textures| == 6
    ensures m.Valid()
    ensures forall i :: 0 <= i < 4 ==> m.albedo[i] == albedo[i]
    ensures m.diffuse == diffuse && m.specular == specular
    ensures m.refractiveIndex == refractiveIndex
    ensures m.textures == textures && m.normalMap == normalMap
  {
    Material(diffuse, specular, albedo, refractiveIndex, textures, normalMap)
  }

  /** `Material::black`: black, untextured and with every weight zero. */
  function Black(): (m: Material)
    ensures m.Valid()
    ensures m.diffuse == Color(0, 0, 0) && m.specular == 0.0 && m.refractiveIndex == 0.0
    ensures forall i :: 0 <= i < 4 ==> m.albedo[i] == 0.0
    ensures forall i :: 0 <= i < 6 ==> m.textures[i] == None
    ensures m.normalMap == None
  {
    Material(Color(0, 0, 0), 0.0, [0.0, 0.0, 0.0, 0.0], 0.0, [None, None, None, None, None, None], None)
  }
}
