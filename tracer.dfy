// The shading kernel of src/main.rs: shadow rays, nearest-hit selection,
// recursive shading with reflection and refraction, and the pixel loop.

module Tracer {
  import opened Wrappers
  import opened Linalg
  import opened Colors
  import opened Materials
  import opened Intersections
  import opened Cubes
  import opened Lights
  import opened Optics

  /**
   * What the kernel calls but does not define: the floating-point library,
   * the colour arithmetic of color.rs, and the ray/object test
   * `object.ray_intersect(origin, direction, eye)`: the `RayIntersect`
   * implementation that main.rs calls, whose source is not part of this model.
   */
  datatype Env = Env(
    math: Math,
    colors: ColorOps,
    hitTest: (Cube, Vec3, Vec3, Vec3) -> Intersect)

  /** The camera of camera.rs: its position and its rotation into world space. */
  datatype Camera = Camera(eye: Vec3, baseChange: Vec3 -> Vec3)

  /**
   * What the kernel relies on from its collaborators: the square-root and
   * square laws, and a hit test that, like `Cube::ray_intersect`, reports
   * hits at a non-negative distance carrying the object's own material.
   */
  ghost predicate Sound(env: Env)
  {
    SqrtLaw(env.math) && SquareLaw(env.math) &&
    forall c: Cube, o: Vec3, d: Vec3, e: Vec3 :: env.hitTest(c, o, d, e).Hit? ==>
      0.0 <= env.hitTest(c, o, d, e).distance && env.hitTest(c, o, d, e).material == c.material
  }

  /**
   * Every object's material was built by `Material::new` or `Material::black`
   * (four albedo weights) and has a positive refractive index.
   */
  predicate SceneReady(objects: seq<Cube>)
  {
    forall k :: 0 <= k < |objects| ==>
      objects[k].material.Valid() && 0.0 < objects[k].material.refractiveIndex
  }

  /** A hit the shader can light: it indexes `albedo[0..3]` and divides by the index. */
  predicate Shadable(hit: Intersect)
  {
    hit.Hit? && hit.material.Valid() && 0.0 < hit.material.refractiveIndex
  }

  // ---------------------------------------------------------------- shadows

  /** Object `c` blocks the shadow ray: it is hit closer than the light. */
  predicate Occludes(env: Env, c: Cube, origin: Vec3, dir: Vec3, eye: Vec3, lightDistance: real)
  {
    var h := env.hitTest(c, origin, dir, eye);
    h.Hit? && h.distance < lightDistance
  }

  /**
   * The first object, from position `i` on in list order, that blocks the
   * shadow ray; not the nearest one.
   */
  function FirstOccluder(env: Env, objects: seq<Cube>, origin: Vec3, dir: Vec3, eye: Vec3,
                         lightDistance: real, i: nat): (r: Option<nat>)
    requires i <= |objects|
    ensures r.Some? ==>
      && i <= r.value < |objects|
      && Occludes(env, objects[r.value], origin, dir, eye, lightDistance)
      && forall j :: i <= j < r.value ==> !Occludes(env, objects[j], origin, dir, eye, lightDistance)
    ensures r.None? ==>
      forall j :: i <= j < |objects| ==> !Occludes(env, objects[j], origin, dir, eye, lightDistance)
    decreases |objects| - i
  {
    if i == |objects| then None
    else if Occludes(env, objects[i], origin, dir, eye, lightDistance) then Some(i)
    else FirstOccluder(env, objects, origin, dir, eye, lightDistance, i + 1)
  }

  /**
   * The shadow factor of `cast_shadow` for the light at `lightPos`: 0 when
   * no object blocks the shadow ray before the light, otherwise
   * `1 - min((d / light_distance)^2, 1)` for the hit distance `d` of the
   * first blocking object. It lies in [0, 1].
   */
  function ShadowFactor(env: Env, hit: Intersect, lightPos: Vec3, objects: seq<Cube>, eye: Vec3): (s: real)
    requires Sound(env) && hit.Hit?
    ensures 0.0 <= s <= 1.0
  {
    var m := env.math;
    var lightDir := m.normalize(Sub(lightPos, hit.point));
    var lightDistance := Magnitude(m, Sub(lightPos, hit.point));
    var origin := OffsetOrigin(hit, lightDir);
    match FirstOccluder(env, objects, origin, lightDir, eye, lightDistance, 0)
    case None => 0.0
    case Some(k) =>
      var d := env.hitTest(objects[k], origin, lightDir, eye).distance;
      Falloff(m, d, lightDistance)
  }

  /** A point is in shadow (factor above 0) exactly when some object blocks its shadow ray. */
  lemma ShadowIffOccluded(env: Env, hit: Intersect, lightPos: Vec3, objects: seq<Cube>, eye: Vec3)
    requires Sound(env) && hit.Hit?
    ensures var lightDir := env.math.normalize(Sub(lightPos, hit.point));
      var lightDistance := Magnitude(env.math, Sub(lightPos, hit.point));
      var origin := OffsetOrigin(hit, lightDir);
      0.0 < ShadowFactor(env, hit, lightPos, objects, eye) <==>
        exists j :: 0 <= j < |objects| && Occludes(env, objects[j], origin, lightDir, eye, lightDistance)
  {
  }

  /**
   * The soft-shadow strength for an occluder at distance `d` in front of a
   * light at distance `lightDistance`: `1 - min((d / lightDistance)^2, 1)`,
   * positive and at most 1.
   */
  function Falloff(m: Math, d: real, lightDistance: real): (f: real)
    requires SquareLaw(m) && 0.0 <= d < lightDistance
    ensures 0.0 < f <= 1.0
  {
    RatioBelowOne(d, lightDistance);
    var ratio := d / lightDistance;
    SquareBelow(ratio, 1.0);
    SquareNonNegative(ratio);
    1.0 - Min(m.powf(ratio, 2.0), 1.0)
  }

  /**
   * `cast_shadow`: scans the objects in order and stops at the first one hit
   * closer than the light.
   */
  method CastShadow(env: Env, hit: Intersect, light: Light, objects: seq<Cube>, camera: Camera)
    returns (s: real)
    requires Sound(env) && hit.Hit?
    ensures s == ShadowFactor(env, hit, light.position, objects, camera.eye)
  {
    var m := env.math;
    var lightDir := m.normalize(Sub(light.position, hit.point));
    var lightDistance := Magnitude(m, Sub(light.position, hit.point));
    var origin := OffsetOrigin(hit, lightDir);
    ghost var first := FirstOccluder(env, objects, origin, lightDir, camera.eye, lightDistance, 0);
    s := 0.0;
    var k := 0;
    while k < |objects|
      invariant 0 <= k <= |objects|
      invariant first == FirstOccluder(env, objects, origin, lightDir, camera.eye, lightDistance, k)
      invariant s == 0.0
    {
      var shadowHit := env.hitTest(objects[k], origin, lightDir, camera.eye);
      if shadowHit.Hit? && shadowHit.distance < lightDistance {
        assert first == Some(k);
        var ratio := shadowHit.distance / lightDistance;
        s := 1.0 - Min(m.powf(ratio, 2.0), 1.0);
        assert s == Falloff(m, shadowHit.distance, lightDistance);
        return;
      }
      k := k + 1;
    }
    assert first == None;
  }

  // ------------------------------------------------------------ nearest hit

  /**
   * The object among the first `n` whose hit `cast_ray` keeps: a hitting
   * object of least distance, and the earliest of those, because a later hit
   * replaces the current one only when strictly closer. None exactly when no
   * object is hit.
   */
  function NearestIndex(env: Env, objects: seq<Cube>, origin: Vec3, dir: Vec3, eye: Vec3, n: nat): (r: Option<nat>)
    requires n <= |objects|
    ensures r.None? <==> forall j :: 0 <= j < n ==> env.hitTest(objects[j], origin, dir, eye).Miss?
    ensures r.Some? ==> r.value < n && env.hitTest(objects[r.value], origin, dir, eye).Hit?
    ensures r.Some? ==> forall j :: 0 <= j < n && env.hitTest(objects[j], origin, dir, eye).Hit? ==>
      env.hitTest(objects[r.value], origin, dir, eye).distance <= env.hitTest(objects[j], origin, dir, eye).distance
    ensures r.Some? ==> forall j :: 0 <= j < r.value && env.hitTest(objects[j], origin, dir, eye).Hit? ==>
      env.hitTest(objects[r.value], origin, dir, eye).distance < env.hitTest(objects[j], origin, dir, eye).distance
  {
    if n == 0 then None
    else
      var p := NearestIndex(env, objects, origin, dir, eye, n - 1);
      var h := env.hitTest(objects[n - 1], origin, dir, eye);
      if h.Hit? && (p.None? || h.distance < env.hitTest(objects[p.value], origin, dir, eye).distance)
      then Some(n - 1)
      else p
  }

  /** The hit record `cast_ray` holds after testing the first `n` objects. */
  function NearestUpTo(env: Env, objects: seq<Cube>, origin: Vec3, dir: Vec3, eye: Vec3, n: nat): Intersect
    requires n <= |objects|
  {
    match NearestIndex(env, objects, origin, dir, eye, n)
    case None => Miss
    case Some(k) => env.hitTest(objects[k], origin, dir, eye)
  }

  /** One step of the scan: a later hit replaces the held one only when strictly closer. */
  lemma NearestStep(env: Env, objects: seq<Cube>, origin: Vec3, dir: Vec3, eye: Vec3, n: nat)
    requires n < |objects|
    ensures var held := NearestUpTo(env, objects, origin, dir, eye, n);
      var h := env.hitTest(objects[n], origin, dir, eye);
      NearestUpTo(env, objects, origin, dir, eye, n + 1) ==
        if h.Hit? && (held.Miss? || h.distance < held.distance) then h else held
  {
  }

  /** The hit `cast_ray` shades: the nearest over all objects. */
  function Nearest(env: Env, objects: seq<Cube>, origin: Vec3, dir: Vec3, eye: Vec3): Intersect
  {
    NearestUpTo(env, objects, origin, dir, eye, |objects|)
  }

  /** In a ready scene the nearest hit carries a material the shader can use. */
  lemma NearestShadable(env: Env, objects: seq<Cube>, origin: Vec3, dir: Vec3, eye: Vec3)
    requires Sound(env) && SceneReady(objects)
    ensures Nearest(env, objects, origin, dir, eye).Hit? ==> Shadable(Nearest(env, objects, origin, dir, eye))
  {
    var r := NearestIndex(env, objects, origin, dir, eye, |objects|);
    if r.Some? {
      var c := objects[r.value];
      assert env.hitTest(c, origin, dir, eye).material == c.material;
    }
  }

  // ---------------------------------------------------------------- shading

  /**
   * The direct term of one light, `diffuse + specular`: the material's
   * diffuse colour and the light's colour, each weighted by its albedo, by
   * the clamped cosine or the Phong highlight, and by the unshadowed light
   * intensity.
   */
  function DirectLight(env: Env, origin: Vec3, hit: Intersect, lightPos: Vec3, lightColor: Color,
                       intensity: real, shadow: real): Color
    requires hit.Hit? && hit.material.Valid()
  {
    var m := env.math;
    var ops := env.colors;
    var mat := hit.material;
    var lightDir := m.normalize(Sub(lightPos, hit.point));
    var viewDir := m.normalize(Sub(origin, hit.point));
    var reflectDir := m.normalize(Reflect(Neg(lightDir), hit.normal));
    var lightIntensity := LightIntensity(intensity, shadow);
    var diffuseIntensity := DiffuseIntensity(hit.normal, lightDir);
    var diffuse := ops.scale(ops.scale(ops.scale(mat.diffuse, mat.albedo[0]), diffuseIntensity), lightIntensity);
    var specularIntensity := m.powf(Max(Dot(viewDir, reflectDir), 0.0), mat.specular);
    var specular := ops.scale(ops.scale(ops.scale(lightColor, mat.albedo[1]), specularIntensity), lightIntensity);
    ops.add(diffuse, specular)
  }

  /**
   * `light.intensity * (1 - shadow_intensity)`: for a shadow factor in
   * [0, 1] it lies between 0 and the light's intensity, and a fully
   * shadowed light gives nothing.
   */
  function LightIntensity(intensity: real, shadow: real): (li: real)
    ensures 0.0 <= intensity && 0.0 <= shadow <= 1.0 ==> 0.0 <= li <= intensity
    ensures shadow == 1.0 ==> li == 0.0
    ensures shadow == 0.0 ==> li == intensity
  {
    if 0.0 <= intensity && 0.0 <= shadow <= 1.0 then
      MulLeRight(0.0, 1.0 - shadow, intensity);
      MulLeRight(1.0 - shadow, 1.0, intensity);
      intensity * (1.0 - shadow)
    else
      intensity * (1.0 - shadow)
  }

  /** The diffuse weight `normal . light_dir` clamped below by 0 and above by 1. */
  function DiffuseIntensity(normal: Vec3, lightDir: Vec3): (d: real)
    ensures 0.0 <= d <= 1.0
    ensures 0.0 <= Dot(normal, lightDir) <= 1.0 ==> d == Dot(normal, lightDir)
  {
    Min(Max(Dot(normal, lightDir), 0.0), 1.0)
  }

  /**
   * A light whose shadow ray is fully blocked contributes exactly what a
   * light of zero intensity would: its shadow factor cancels the intensity.
   */
  lemma DirectLightShadowed(env: Env, origin: Vec3, hit: Intersect, lightPos: Vec3, lightColor: Color,
                            intensity: real)
    requires hit.Hit? && hit.material.Valid()
    ensures DirectLight(env, origin, hit, lightPos, lightColor, intensity, 1.0) ==
            DirectLight(env, origin, hit, lightPos, lightColor, 0.0, 0.0)
  {
    assert LightIntensity(intensity, 1.0) == LightIntensity(0.0, 0.0);
  }

  /** Weight of the reflected ray: the Fresnel term `kr` scaled by the material's reflectivity albedo. */
  function Reflectivity(kr: real, albedo: real): real
  {
    kr * albedo
  }

  /** Weight of the refracted ray: the share of light the Fresnel term `kr` leaves to transmission,
      scaled by the material's transparency albedo. */
  function Transparency(kr: real, albedo: real): real
  {
    (1.0 - kr) * albedo
  }

  /**
   * One light's update of `final_color`: the direct term weighted by what
   * reflection and transmission leave over, plus the reflected and refracted
   * colours weighted by their shares, added in the program's order.
   */
  function Accumulate(ops: ColorOps, acc: Color, direct: Color, reflectivity: real, transparency: real,
                      reflectColor: Color, refractColor: Color): Color
  {
    ops.add(ops.add(ops.add(acc, ops.scale(direct, 1.0 - reflectivity - transparency)),
                    ops.scale(reflectColor, reflectivity)),
            ops.scale(refractColor, transparency))
  }

  /**
   * The colour `cast_ray` returns for the ray from `origin` along `dir` at
   * recursion `depth`: the skybox beyond depth 3 or when nothing is hit,
   * otherwise the contributions of all lights summed from black.
   */
  function Shade(env: Env, camera: Camera, origin: Vec3, dir: Vec3, objects: seq<Cube>,
                 lights: seq<Light>, depth: nat): (c: Color)
    requires Sound(env) && SceneReady(objects)
    reads lights
    ensures depth > 3 ==> c == SKYBOX_COLOR
    ensures (forall j :: 0 <= j < |objects| ==> env.hitTest(objects[j], origin, dir, camera.eye).Miss?) ==>
      c == SKYBOX_COLOR
    ensures (&& depth <= 3 && |lights| == 0
             && exists j :: 0 <= j < |objects| && env.hitTest(objects[j], origin, dir, camera.eye).Hit?) ==>
      c == env.colors.black
    decreases 4 - depth, 3, 0
  {
    if depth > 3 then SKYBOX_COLOR
    else
      var hit := Nearest(env, objects, origin, dir, camera.eye);
      if hit.Miss? then SKYBOX_COLOR
      else
        NearestShadable(env, objects, origin, dir, camera.eye);
        LightSum(env, camera, origin, dir, hit, objects, lights, depth, |lights|)
  }

  /** `final_color` after the first `n` lights, starting from black. */
  function LightSum(env: Env, camera: Camera, origin: Vec3, dir: Vec3, hit: Intersect, objects: seq<Cube>,
                    lights: seq<Light>, depth: nat, n: nat): Color
    requires Sound(env) && SceneReady(objects) && Shadable(hit) && depth <= 3 && n <= |lights|
    reads lights
    decreases 4 - depth, 2, n
  {
    if n == 0 then env.colors.black
    else
      var acc := LightSum(env, camera, origin, dir, hit, objects, lights, depth, n - 1);
      LightStep(env, camera, origin, dir, hit, objects, lights, depth, n - 1, acc)
  }

  /**
   * The body of the light loop of `cast_ray` for light `j`: shadow, direct
   * term, Fresnel split, and the reflected and refracted rays traced one
   * level deeper from origins moved off the surface. A colour that is not
   * traced stays `Color::green()`, with weight zero.
   */
  function LightStep(env: Env, camera: Camera, origin: Vec3, dir: Vec3, hit: Intersect, objects: seq<Cube>,
                     lights: seq<Light>, depth: nat, j: nat, acc: Color): Color
    requires Sound(env) && SceneReady(objects) && Shadable(hit) && depth <= 3 && j < |lights|
    reads lights
    decreases 4 - depth, 1, 2
  {
    var light := lights[j];
    var shadow := ShadowFactor(env, hit, light.position, objects, camera.eye);
    LightFresnel(env, camera, dir, hit, objects, lights, depth, acc,
                 DirectLight(env, origin, hit, light.position, light.color, light.intensity, shadow),
                 Fresnel(env.math, dir, hit.normal, hit.material.refractiveIndex))
  }

  /** Splits the light left after the direct term between the reflected and the refracted ray,
      by the Fresnel term `kr` and the material's albedo. */
  function LightFresnel(env: Env, camera: Camera, dir: Vec3, hit: Intersect, objects: seq<Cube>,
                        lights: seq<Light>, depth: nat, acc: Color, direct: Color, kr: real): Color
    requires Sound(env) && SceneReady(objects) && Shadable(hit) && depth <= 3
    reads lights
    decreases 4 - depth, 1, 1
  {
    LightTerms(env, camera, hit, objects, lights, depth, acc, direct,
               Reflectivity(kr, hit.material.albedo[2]), Transparency(kr, hit.material.albedo[3]),
               env.math.normalize(Reflect(dir, hit.normal)),
               Refract(env.math, dir, hit.normal, hit.material.refractiveIndex))
  }

  /** The part of one light's contribution that does not depend on the light: the secondary rays,
      weighted by the Fresnel term `kr`, added to the running colour with the direct term. */
  function LightTerms(env: Env, camera: Camera, hit: Intersect, objects: seq<Cube>, lights: seq<Light>,
                      depth: nat, acc: Color, direct: Color, reflectivity: real, transparency: real,
                      reflectDir: Vec3, refractDir: Vec3): Color
    requires Sound(env) && SceneReady(objects) && Shadable(hit) && depth <= 3
    reads lights
    decreases 4 - depth, 1, 0
  {
    var reflectColor := Secondary(env, camera, hit, reflectDir, reflectivity, objects, lights, depth);
    var refractColor := Secondary(env, camera, hit, refractDir, transparency, objects, lights, depth);
    Accumulate(env.colors, acc, direct, reflectivity, transparency, reflectColor, refractColor)
  }

  /** A secondary ray from just off the hit point, traced one level deeper when its weight is positive;
      a zero weight yields `Color::green` without tracing. */
  function Secondary(env: Env, camera: Camera, hit: Intersect, newDir: Vec3, weight: real,
                     objects: seq<Cube>, lights: seq<Light>, depth: nat): Color
    requires Sound(env) && SceneReady(objects) && hit.Hit? && depth <= 3
    reads lights
    decreases 4 - depth, 0, 0
  {
    if weight > 0.0 then Shade(env, camera, OffsetOrigin(hit, newDir), newDir, objects, lights, depth + 1)
    else env.colors.green
  }

  /** A secondary ray whose weight is not positive is never traced: its colour is `Color::green()`. */
  lemma SecondaryUntraced(env: Env, camera: Camera, hit: Intersect, newDir: Vec3, weight: real,
                          objects: seq<Cube>, lights: seq<Light>, depth: nat)
    requires Sound(env) && SceneReady(objects) && hit.Hit? && depth <= 3 && weight <= 0.0
    ensures Secondary(env, camera, hit, newDir, weight, objects, lights, depth) == env.colors.green
  {
  }

  /**
   * For a Fresnel term in [0, 1] and non-negative albedo weights, the
   * reflected and refracted shares are bounded by their albedo weights, and
   * total internal reflection (`kr == 1`) leaves nothing to the refracted ray.
   */
  lemma FresnelWeights(kr: real, reflectAlbedo: real, refractAlbedo: real)
    requires 0.0 <= kr <= 1.0 && 0.0 <= reflectAlbedo && 0.0 <= refractAlbedo
    ensures 0.0 <= Reflectivity(kr, reflectAlbedo) <= reflectAlbedo
    ensures 0.0 <= Transparency(kr, refractAlbedo) <= refractAlbedo
    ensures kr == 1.0 ==> Transparency(kr, refractAlbedo) == 0.0
  {
    MulLeRight(0.0, kr, reflectAlbedo);
    MulLeRight(kr, 1.0, reflectAlbedo);
    MulLeRight(0.0, 1.0 - kr, refractAlbedo);
    MulLeRight(1.0 - kr, 1.0, refractAlbedo);
  }

  /**
   * Under total internal reflection (`kr == 1`, which `fresnel` returns when
   * `sint >= 1`) the light step traces only the reflected ray: the refracted
   * colour stays `Color::green()` with weight zero.
   */
  lemma TotalReflectionSkipsRefraction(env: Env, camera: Camera, dir: Vec3, hit: Intersect, objects: seq<Cube>,
                                       lights: seq<Light>, depth: nat, acc: Color, direct: Color)
    requires Sound(env) && SceneReady(objects) && Shadable(hit) && depth <= 3
    ensures LightFresnel(env, camera, dir, hit, objects, lights, depth, acc, direct, 1.0) ==
            Accumulate(env.colors, acc, direct, hit.material.albedo[2], 0.0,
                       Secondary(env, camera, hit, env.math.normalize(Reflect(dir, hit.normal)),
                                 hit.material.albedo[2], objects, lights, depth),
                       env.colors.green)
  {
    var reflectDir := env.math.normalize(Reflect(dir, hit.normal));
    var refractDir := Refract(env.math, dir, hit.normal, hit.material.refractiveIndex);
    assert Reflectivity(1.0, hit.material.albedo[2]) == hit.material.albedo[2];
    assert Transparency(1.0, hit.material.albedo[3]) == 0.0;
    LightTermsUnfold(env, camera, hit, objects, lights, depth, acc, direct,
                     hit.material.albedo[2], 0.0, reflectDir, refractDir);
  }

  /** One unfolding of `LightTerms`, with an untraced refracted ray of weight zero. */
  lemma LightTermsUnfold(env: Env, camera: Camera, hit: Intersect, objects: seq<Cube>, lights: seq<Light>,
                         depth: nat, acc: Color, direct: Color, reflectivity: real, transparency: real,
                         reflectDir: Vec3, refractDir: Vec3)
    requires Sound(env) && SceneReady(objects) && Shadable(hit) && depth <= 3 && transparency <= 0.0
    ensures LightTerms(env, camera, hit, objects, lights, depth, acc, direct, reflectivity, transparency,
                       reflectDir, refractDir) ==
            Accumulate(env.colors, acc, direct, reflectivity, transparency,
                       Secondary(env, camera, hit, reflectDir, reflectivity, objects, lights, depth),
                       env.colors.green)
  {
    SecondaryUntraced(env, camera, hit, refractDir, transparency, objects, lights, depth);
  }

  /**
   * Reference definition for a matte surface (no reflectivity and no
   * transparency albedo): each light adds only its shadowed direct term,
   * with the two untraced colours at weight zero.
   */
  function DirectSum(env: Env, camera: Camera, origin: Vec3, hit: Intersect, objects: seq<Cube>,
                     lights: seq<Light>, n: nat): Color
    requires Sound(env) && Shadable(hit) && n <= |lights|
    reads lights
  {
    if n == 0 then env.colors.black
    else
      var light := lights[n - 1];
      var shadow := ShadowFactor(env, hit, light.position, objects, camera.eye);
      Accumulate(env.colors, DirectSum(env, camera, origin, hit, objects, lights, n - 1),
                 DirectLight(env, origin, hit, light.position, light.color, light.intensity, shadow),
                 0.0, 0.0, env.colors.green, env.colors.green)
  }

  /**
   * On a matte surface (`albedo[2] == albedo[3] == 0`, as for every material
   * of the shipped scene) the light loop never casts a secondary ray: the sum
   * over the lights is the sum of their direct terms.
   */
  lemma {:induction false} MatteLightSum(env: Env, camera: Camera, origin: Vec3, dir: Vec3, hit: Intersect,
                                         objects: seq<Cube>, lights: seq<Light>, depth: nat, n: nat)
    requires Sound(env) && SceneReady(objects) && Shadable(hit) && depth <= 3 && n <= |lights|
    requires hit.material.albedo[2] == 0.0 && hit.material.albedo[3] == 0.0
    ensures LightSum(env, camera, origin, dir, hit, objects, lights, depth, n) ==
            DirectSum(env, camera, origin, hit, objects, lights, n)
  {
    if n > 0 {
      MatteLightSum(env, camera, origin, dir, hit, objects, lights, depth, n - 1);
      var light := lights[n - 1];
      var acc := DirectSum(env, camera, origin, hit, objects, lights, n - 1);
      var shadow := ShadowFactor(env, hit, light.position, objects, camera.eye);
      var direct := DirectLight(env, origin, hit, light.position, light.color, light.intensity, shadow);
      var kr := Fresnel(env.math, dir, hit.normal, hit.material.refractiveIndex);
      var reflectDir := env.math.normalize(Reflect(dir, hit.normal));
      var refractDir := Refract(env.math, dir, hit.normal, hit.material.refractiveIndex);
      assert Reflectivity(kr, hit.material.albedo[2]) == 0.0;
      assert Transparency(kr, hit.material.albedo[3]) == 0.0;
      calc {
        LightSum(env, camera, origin, dir, hit, objects, lights, depth, n);
        LightStep(env, camera, origin, dir, hit, objects, lights, depth, n - 1, acc);
        LightFresnel(env, camera, dir, hit, objects, lights, depth, acc, direct, kr);
        LightTerms(env, camera, hit, objects, lights, depth, acc, direct, 0.0, 0.0, reflectDir, refractDir);
        { LightTermsUnfold(env, camera, hit, objects, lights, depth, acc, direct, 0.0, 0.0,
                           reflectDir, refractDir);
          SecondaryUntraced(env, camera, hit, reflectDir, 0.0, objects, lights, depth); }
        Accumulate(env.colors, acc, direct, 0.0, 0.0, env.colors.green, env.colors.green);
      }
    }
  }

  method CastRay(env: Env, origin: Vec3, dir: Vec3, objects: seq<Cube>, lights: seq<Light>,
                 depth: nat, camera: Camera) returns (c: Color)
    requires Sound(env) && SceneReady(objects)
    ensures c == Shade(env, camera, origin, dir, objects, lights, depth)
    decreases 4 - depth, 2
  {
    if depth > 3 {
      return SKYBOX_COLOR;
    }
    var intersect := Miss;
    var i := 0;
    while i < |objects|
      invariant 0 <= i <= |objects|
      invariant intersect == NearestUpTo(env, objects, origin, dir, camera.eye, i)
    {
      var h := env.hitTest(objects[i], origin, dir, camera.eye);
      NearestStep(env, objects, origin, dir, camera.eye, i);
      if h.Hit? && (intersect.Miss? || h.distance < intersect.distance) {
        intersect := h;
      }
      i := i + 1;
    }
    if intersect.Miss? {
      return SKYBOX_COLOR;
    }
    NearestShadable(env, objects, origin, dir, camera.eye);
    var finalColor := env.colors.black;
    for j := 0 to |lights|
      invariant finalColor == LightSum(env, camera, origin, dir, intersect, objects, lights, depth, j)
    {
      finalColor := ShadeLight(env, camera, origin, dir, intersect, objects, lights, depth, j, finalColor);
    }
    return finalColor;
  }

  /**
   * The body of the light loop of `cast_ray` for light `j`: adds the light's
   * contribution to `acc`, tracing the reflected and refracted rays one
   * level deeper when they have a positive weight.
   */
  method ShadeLight(env: Env, camera: Camera, origin: Vec3, dir: Vec3, intersect: Intersect, objects: seq<Cube>,
                    lights: seq<Light>, depth: nat, j: nat, acc: Color) returns (c: Color)
    requires Sound(env) && SceneReady(objects) && Shadable(intersect) && depth <= 3 && j < |lights|
    ensures c == LightStep(env, camera, origin, dir, intersect, objects, lights, depth, j, acc)
    decreases 4 - depth, 1, 2
  {
    var light := lights[j];
    var shadow := CastShadow(env, intersect, light, objects, camera);
    var direct := DirectLight(env, origin, intersect, light.position, light.color, light.intensity, shadow);
    var kr := Fresnel(env.math, dir, intersect.normal, intersect.material.refractiveIndex);
    c := ShadeFresnel(env, camera, dir, intersect, objects, lights, depth, acc, direct, kr);
  }

  /** Computes the weights and directions of the two secondary rays. */
  method ShadeFresnel(env: Env, camera: Camera, dir: Vec3, intersect: Intersect, objects: seq<Cube>,
                      lights: seq<Light>, depth: nat, acc: Color, direct: Color, kr: real) returns (c: Color)
    requires Sound(env) && SceneReady(objects) && Shadable(intersect) && depth <= 3
    ensures c == LightFresnel(env, camera, dir, intersect, objects, lights, depth, acc, direct, kr)
    decreases 4 - depth, 1, 1
  {
    var reflectDir := env.math.normalize(Reflect(dir, intersect.normal));
    var refractDir := Refract(env.math, dir, intersect.normal, intersect.material.refractiveIndex);
    var reflectivity := Reflectivity(kr, intersect.material.albedo[2]);
    var transparency := Transparency(kr, intersect.material.albedo[3]);
    c := ShadeTerms(env, camera, intersect, objects, lights, depth, acc, direct, reflectivity, transparency,
                    reflectDir, refractDir);
  }

  /** Traces the reflected and the refracted ray of one light step and adds them to `acc`. */
  method ShadeTerms(env: Env, camera: Camera, intersect: Intersect, objects: seq<Cube>, lights: seq<Light>,
                    depth: nat, acc: Color, direct: Color, reflectivity: real, transparency: real,
                    reflectDir: Vec3, refractDir: Vec3) returns (c: Color)
    requires Sound(env) && SceneReady(objects) && Shadable(intersect) && depth <= 3
    ensures c == LightTerms(env, camera, intersect, objects, lights, depth, acc, direct, reflectivity, transparency,
                            reflectDir, refractDir)
    decreases 4 - depth, 1, 0
  {
    var reflectColor := TraceSecondary(env, camera, intersect, reflectDir, reflectivity, objects, lights, depth);
    var refractColor := TraceSecondary(env, camera, intersect, refractDir, transparency, objects, lights, depth);
    c := Accumulate(env.colors, acc, direct, reflectivity, transparency, reflectColor, refractColor);
  }

  /**
   * The reflected or refracted ray of the light loop: cast one level deeper
   * from the hit point moved off the surface, only when its weight is
   * positive; the colour stays `Color::green()` otherwise.
   */
  method TraceSecondary(env: Env, camera: Camera, hit: Intersect, newDir: Vec3, weight: real,
                        objects: seq<Cube>, lights: seq<Light>, depth: nat) returns (c: Color)
    requires Sound(env) && SceneReady(objects) && hit.Hit? && depth <= 3
    ensures c == Secondary(env, camera, hit, newDir, weight, objects, lights, depth)
    decreases 4 - depth, 0
  {
    c := env.colors.green;
    if weight > 0.0 {
      var newOrigin := OffsetOrigin(hit, newDir);
      c := CastRay(env, newOrigin, newDir, objects, lights, depth + 1, camera);
    }
  }

  // -------------------------------------------------------------- rendering

  /** The f32 value of pi. */
  const PI: real := 3.14159265358979323846

  /** Field of view of the primary rays, `PI / 3`. */
  const FOV: real := PI / 3.0

  /** Column `x` mapped to the screen: `2x / width - 1`, in [-1, 1). */
  function ScreenX(x: nat, width: nat): (sx: real)
    requires x < width
    ensures -1.0 <= sx < 1.0
  {
    DoubleRatio(x as real, width as real);
    (2.0 * x as real) / width as real - 1.0
  }

  /** Row `y` mapped to the screen, upwards: `-2y / height + 1`, in (-1, 1]. */
  function ScreenY(y: nat, height: nat): (sy: real)
    requires y < height
    ensures -1.0 < sy <= 1.0
  {
    DoubleRatio(y as real, height as real);
    -(2.0 * y as real) / height as real + 1.0
  }

  /** `2a / b` and `-2a / b` lie in [0, 2) and (-2, 0] when `0 <= a < b`. */
  lemma DoubleRatio(a: real, b: real)
    requires 0.0 <= a < b
    ensures 0.0 <= (2.0 * a) / b < 2.0 && -2.0 < -(2.0 * a) / b <= 0.0
  {
    RatioBelowOne(a, b);
    assert (2.0 * a) / b == 2.0 * (a / b);
    assert -(2.0 * a) / b == -2.0 * (a / b);
  }

  /**
   * The un-normalised camera-space direction through pixel `(x, y)`: the
   * screen position scaled by the aspect ratio and by `scale`, at depth -1.
   * For a non-negative scale it lies in the view rectangle
   * `[-aspect * scale, aspect * scale) x (-scale, scale]` at `z = -1`, and
   * the left column and the top row sit on its edges.
   */
  function CameraRay(x: nat, y: nat, width: nat, height: nat, scale: real): (v: Vec3)
    requires x < width && y < height
    ensures v.z == -1.0
    ensures 0.0 <= scale ==>
      -((width as real / height as real) * scale) <= v.x <= (width as real / height as real) * scale &&
      -scale <= v.y <= scale
    ensures x == 0 ==> v.x == -((width as real / height as real) * scale)
    ensures y == 0 ==> v.y == scale
  {
    var aspectRatio := width as real / height as real;
    var sx := ScreenX(x, width);
    var sy := ScreenY(y, height);
    assert 0.0 < aspectRatio;
    if 0.0 <= scale then
      MulLeRight(-1.0, sx, aspectRatio * scale);
      MulLeRight(sx, 1.0, aspectRatio * scale);
      MulLeRight(-1.0, sy, scale);
      MulLeRight(sy, 1.0, scale);
      assert sx * aspectRatio * scale == sx * (aspectRatio * scale);
      Vec3(sx * aspectRatio * scale, sy * scale, -1.0)
    else
      Vec3(sx * aspectRatio * scale, sy * scale, -1.0)
  }

  /**
   * The world-space direction of the primary ray through pixel `(x, y)`:
   * the camera-space ray for `scale = tan(FOV / 2)`, normalised and rotated
   * by the camera.
   */
  function PrimaryDirection(m: Math, camera: Camera, x: nat, y: nat, width: nat, height: nat): Vec3
    requires x < width && y < height
  {
    camera.baseChange(m.normalize(CameraRay(x, y, width, height, m.tan(FOV * 0.5))))
  }

  /** The colour value `render` stores for pixel `(x, y)`: a primary ray from the eye at depth 0. */
  function PixelValue(env: Env, camera: Camera, objects: seq<Cube>, lights: seq<Light>,
                      x: nat, y: nat, width: nat, height: nat): int
    requires Sound(env) && SceneReady(objects) && x < width && y < height
    reads lights
  {
    var dir := PrimaryDirection(env.math, camera, x, y, width, height);
    env.colors.toHex(Shade(env, camera, camera.eye, dir, objects, lights, 0))
  }

  /** Row `y` of the screen, left to right. */
  function Row(width: nat, y: nat): seq<(nat, nat)>
  {
    seq(width, x => (x, y))
  }

  /** The pixels of the first `height` rows in the order `render` visits them. */
  function RowMajor(width: nat, height: nat): seq<(nat, nat)>
  {
    if height == 0 then [] else RowMajor(width, height - 1) + Row(width, height - 1)
  }

  /** Row-major order has one entry per pixel of the screen. */
  lemma {:induction false} RowMajorLength(width: nat, height: nat)
    ensures |RowMajor(width, height)| == width * height
  {
    if height > 0 {
      RowMajorLength(width, height - 1);
      assert width * (height - 1) + width == width * height;
    }
  }

  /** Every entry of row-major order is a pixel of the screen, and no pixel occurs twice. */
  lemma {:induction false} RowMajorDistinct(width: nat, height: nat)
    ensures forall i :: 0 <= i < |RowMajor(width, height)| ==>
      RowMajor(width, height)[i].0 < width && RowMajor(width, height)[i].1 < height
    ensures forall i, j :: 0 <= i < j < |RowMajor(width, height)| ==>
      RowMajor(width, height)[i] != RowMajor(width, height)[j]
  {
    if height > 0 {
      RowMajorDistinct(width, height - 1);
      var prev := RowMajor(width, height - 1);
      var all := RowMajor(width, height);
      assert all == prev + Row(width, height - 1);
      forall i | |prev| <= i < |all|
        ensures all[i] == (i - |prev|, height - 1)
      {
      }
    }
  }

  /** Pixel `(x, y)` is entry `y * width + x` of row-major order. */
  lemma {:induction false} RowMajorPosition(width: nat, height: nat, x: nat, y: nat)
    requires x < width && y < height
    ensures y * width + x < |RowMajor(width, height)| && RowMajor(width, height)[y * width + x] == (x, y)
  {
    RowMajorLength(width, height - 1);
    var prev := RowMajor(width, height - 1);
    assert RowMajor(width, height) == prev + Row(width, height - 1);
    if y < height - 1 {
      RowMajorPosition(width, height - 1, x, y);
    } else {
      assert y * width + x == |prev| + x;
    }
  }

  /**
   * `render`: visits the pixels row by row, top to bottom and left to right,
   * and stores in each the colour of the primary ray through it. `order`
   * records the visits.
   */
  method Render(env: Env, framebuffer: array2<int>, objects: seq<Cube>, camera: Camera, lights: seq<Light>)
    returns (ghost order: seq<(nat, nat)>)
    requires Sound(env) && SceneReady(objects)
    modifies framebuffer
    ensures order == RowMajor(framebuffer.Length0, framebuffer.Length1)
    ensures forall x, y :: 0 <= x < framebuffer.Length0 && 0 <= y < framebuffer.Length1 ==>
      framebuffer[x, y] == PixelValue(env, camera, objects, lights, x, y, framebuffer.Length0, framebuffer.Length1)
  {
    var width := framebuffer.Length0;
    var height := framebuffer.Length1;
    order := [];
    for y := 0 to height
      invariant order == RowMajor(width, y)
      invariant forall x', y' :: 0 <= x' < width && 0 <= y' < y ==>
        framebuffer[x', y'] == PixelValue(env, camera, objects, lights, x', y', width, height)
    {
      for x := 0 to width
        invariant order == RowMajor(width, y) + Row(width, y)[..x]
        invariant forall x', y' :: 0 <= x' < width && 0 <= y' < y ==>
          framebuffer[x', y'] == PixelValue(env, camera, objects, lights, x', y', width, height)
        invariant forall x' :: 0 <= x' < x ==>
          framebuffer[x', y] == PixelValue(env, camera, objects, lights, x', y, width, height)
      {
        var dir := PrimaryDirection(env.math, camera, x, y, width, height);
        var pixelColor := CastRay(env, camera.eye, dir, objects, lights, 0, camera);
        framebuffer[x, y] := env.colors.toHex(pixelColor);
        order := order + [(x, y)];
        assert Row(width, y)[..x + 1] == Row(width, y)[..x] + [(x, y)];
      }
      assert Row(width, y)[..width] == Row(width, y);
    }
  }
}
