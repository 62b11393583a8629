// The hit record shared by the intersection routine and the shader
// (`Intersect` of ray_intersect.rs, which is not part of this model).

module Intersections {
  import opened Linalg
  import opened Materials

  /**
   * The result of one ray/object test: no hit (`Intersect::empty()`), or the
   * hit point, the surface normal there, the ray parameter of the hit and the
   * material of the object hit.
   */
  datatype Intersect =
    | Miss
    | Hit(point: Vec3, normal: Vec3, distance: real, material: Material)
}
