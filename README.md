# Ray-tracing kernel of a cube renderer, in Dafny

This project models the core of a small Rust ray tracer that draws a scene of
axis-aligned cubes lit by point lights. The arithmetic is over Dafny `real`
instead of `f32`. The parts modelled are:

- `src/cube.rs`: the slab ray/box test `Cube::ray_intersect`.
- `src/main.rs`, the shading kernel:
  - the vector helpers `offset_origin`, `reflect`, `refract` and `fresnel`;
  - `cast_shadow`, which scans the objects for the first occluder;
  - `cast_ray`, which caps the recursion depth, keeps the nearest hit, sums
    the lights and recurses for reflection and refraction;
  - `render`, which visits every pixel in row-major order.
- `src/texture.rs`: `apply_texture`.
- `src/light.rs`: `Light::new`, the day-phase classifier `light_condition`,
  and the in-place `update_position_orbit`.
- `src/material.rs`: the `Material` record, `Material::new` and
  `Material::black`.

The transcendental functions (`sqrt`, `powf`, `tan`, `sin`, `cos`,
`normalize`) are fields of a `Math` record. Only two laws are assumed about
them, as preconditions:

- `SqrtLaw`: `sqrt(x) >= 0` and `sqrt(x)^2 == x` for `x >= 0`.
- `SquareLaw`: `powf(x, 2) == x * x`.

Some collaborators have source files that are not part of this model:

- colour arithmetic and `to_hex` (color.rs);
- `Camera::base_change` and `camera.eye` (camera.rs);
- the three-argument hit test `RayIntersect::ray_intersect` that main.rs calls.

These are passed in as values (`Tracer.Env`, `Tracer.Camera`). The hit test
is assumed to behave like `Cube::ray_intersect` in the two ways the kernel
relies on (`Tracer.Sound`):

- a hit is at a non-negative distance;
- a hit carries the cube's own material.

`Light` is a class because the orbit update rewrites its position in place.
Functions that shade therefore read the lights. The framebuffer is an
`array2<int>` that `Render` writes.

The kernel's loops and recursion are methods proved against functions:

- `CastShadow` against `ShadowFactor`.
- `CastRay` against `Shade`.
- `Render` against `PixelValue` and `RowMajor`.

The loop bodies of `cast_ray` are split into the methods `ShadeLight`,
`ShadeFresnel`, `ShadeTerms` and `TraceSecondary`. Each is proved against the
matching function `LightStep`, `LightFresnel`, `LightTerms` or `Secondary`.

## Model

| member | source | states |
|---|---|---|
| Optics.OffsetOrigin | src/main.rs:29-36 | the origin moves by exactly `ORIGIN_BIAS` times the normal, to the side the direction points into: `dot(result - point, direction) >= 0` |
| Optics.ReflectFlipsNormal | src/main.rs:38-40 | for a unit normal `n`, `reflect(v, n) . n == -(v . n)` |
| Optics.ReflectInvolution | src/main.rs:38-40 | for a unit normal, reflecting twice gives back the incident vector |
| Optics.RefractFacing | src/main.rs:42-55 | for a unit incident vector and unit normal, `refract` is the transmission step about the normal that faces the ray: the normal itself, or its negation when `cosi < 0`. The index ratio is `eta_t`, or `1/eta_t` when `cosi < 0` (`RefractRatio`), and the cosine against the chosen normal is non-negative |
| Optics.TransmitSnell | src/main.rs:57-63 | when `k < 0` the result is `reflect(incident, n_normal)`; otherwise it is a unit vector on the far side of the surface (`r . n = -sqrt(k) <= 0`), and its tangential part is `eta` times the incident's (Snell's law) |
| Optics.ReflectanceTerm | src/main.rs:77-79 | each of `rs^2` and `rp^2` is in [0, 1] when both cosines are non-negative and not both zero |
| Optics.Fresnel | src/main.rs:66-81 | `kr` lies in [0, 1] for `ior > 0`, and is exactly 1 under total internal reflection (`sint >= 1`) |
| Cubes.BoxSlabs | src/cube.rs:18-61 | a point of the ray is inside the box exactly when its parameter lies in all three slabs |
| Cubes.RayIntersect | src/cube.rs:14-72 | a hit has `distance == t_min >= 0` and `point = origin + direction * t_min`; its normal is `normalize(point - center)` and its material is the cube's. For a proper box a hit is where the ray's line first enters the box, so the point lies in `[center - dims, center + dims]`. A miss means the line enters at no `t >= 0`, which covers a box behind the origin and an origin inside the box |
| Textures.FloorOfRoot | src/texture.rs:23 | for `s = sqrt(n)` with `n >= 1`, `floor(s) >= 1` and `floor(s)^2 <= n < (floor(s)+1)^2` |
| Textures.TextureWidth | src/texture.rs:23 | the grid width `floor(sqrt(len))` is at least 1 and `width * width <= len` |
| Textures.TexelCoord | src/texture.rs:24-25 | the clamped column or row is in `[0, width-1]`; it is `floor(s)` inside that range, 0 below it and `width-1` above it |
| Textures.TexelIndex | src/texture.rs:24-27 | the index `x + y * width` is below `width * width` |
| Textures.NearestTexel | src/texture.rs:24-27 | inside the grid the index is `floor(u*w) + floor(v*w) * w` |
| Textures.TexelIndexOnto | src/texture.rs:24-27 | grid cell `(x, y)` is looked up at `(x/w, y/w)` and gives index `x + y*w` |
| Textures.ApplyTexture | src/texture.rs:22-28 | for a non-empty texture the lookup never goes out of bounds: the result is `texture[x + y*width]`, one of the first `width*width` texels |
| Textures.EveryTexelReachable | src/texture.rs:23-27 | each of the first `width*width` texels is returned for some `(u, v)` |
| Lights.Light.constructor | src/light.rs:14-20 | `new` stores position, colour and intensity unchanged |
| Lights.Light.LightCondition | src/light.rs:22-36 | Dia iff `20 <= y < 40`; Amanecer iff `0 <= y < 20` and `x > 0`; Atardecer iff `0 <= y < 20` and `x <= 0`; Noche iff `y < 0` or `y >= 40`; exactly one phase per position; it reads and changes no field |
| Lights.Light.UpdatePositionOrbit | src/light.rs:38-46 | `x = center.x + radius*cos(angle)` and `y = center.y + radius*sin(angle)`; `z`, colour and intensity keep their old values |
| Materials.New | src/material.rs:16-32 | the result has exactly four albedo entries equal in order to the argument, plus six texture slots; diffuse, specular, refractive index, textures and normal map are stored unchanged |
| Materials.Black | src/material.rs:34-43 | zero diffuse colour, specular 0, refractive index 0, four zero albedo weights, six empty texture slots and no normal map |
| Tracer.FirstOccluder | src/main.rs:95-102 | the scan result is the first object in list order that is hit closer than the light, with none before it; None means no object from the start position on blocks the light |
| Tracer.Falloff | src/main.rs:98-99 | `1 - min((d / light_distance)^2, 1)` is in (0, 1] for an occluder in front of the light |
| Tracer.ShadowFactor | src/main.rs:83-105 | the shadow intensity is in [0, 1]; it is 0 when no object blocks the light, and otherwise is computed from the first blocking object, not the nearest |
| Tracer.ShadowIffOccluded | src/main.rs:89-104 | the shadow intensity is positive exactly when some object is hit closer than the light |
| Tracer.CastShadow | src/main.rs:83-105 | the loop with its `break` returns exactly `ShadowFactor` |
| Tracer.NearestIndex | src/main.rs:119-128 | the kept hit has minimal distance among all hits; an earlier object with a hit at that distance beats a later one (strict `<`); no hit at all exactly when every object misses |
| Tracer.NearestStep | src/main.rs:122-127 | one iteration of the scan replaces the held hit only by a strictly closer one (a missing hit stands for `zbuffer = INFINITY`) |
| Tracer.NearestShadable | src/main.rs:119-132 | in a scene of valid materials the nearest hit has a material with four albedo weights and a positive index |
| Tracer.Shade | src/main.rs:107-173 | the colour is the skybox when `depth > 3` or when no object is hit, and black for a hit when there are no lights; the recursion at `depth + 1` terminates, since `4 - depth` decreases |
| Tracer.CastRay | src/main.rs:107-173 | the depth check, the nearest-hit loop and the light loop compute exactly `Shade` |
| Tracer.LightIntensity | src/main.rs:142 | `intensity * (1 - shadow)` lies in [0, intensity] for a shadow factor in [0, 1]; it is 0 for a fully shadowed light and the full intensity for an unshadowed one |
| Tracer.DiffuseIntensity | src/main.rs:144 | the clamped cosine is in [0, 1], and equals `normal . light_dir` when that is already in [0, 1] |
| Tracer.DirectLightShadowed | src/main.rs:137-148 | the diffuse plus specular term of a fully shadowed light equals that of a light with zero intensity |
| Tracer.FresnelWeights | src/main.rs:152-160 | for `kr` in [0, 1] and non-negative albedo weights, `0 <= reflectivity <= albedo[2]` and `0 <= transparency <= albedo[3]`; `kr == 1` gives transparency 0 |
| Tracer.SecondaryUntraced | src/main.rs:151-165 | a reflected or refracted ray whose weight is not positive is not cast: its colour is `Color::green()` |
| Tracer.TotalReflectionSkipsRefraction | src/main.rs:149-169 | with `kr == 1` (which `fresnel` returns under total internal reflection) the light step traces only the reflected ray with weight `albedo[2]`; the refracted colour is green with weight 0 |
| Tracer.MatteLightSum | src/main.rs:134-172 | for a material with `albedo[2] == albedo[3] == 0`, as in every material of the shipped scene, the light loop casts no secondary ray. `final_color` is the sum of the lights' direct terms (`DirectSum`), each blended with the untraced green colours at weight 0 |
| Tracer.ShadeLight | src/main.rs:136-149 | one iteration of the light loop: shadow, then the diffuse and specular terms, then the Fresnel term. The result is `LightStep`, to which `DirectLightShadowed` and `MatteLightSum` apply |
| Tracer.ShadeFresnel | src/main.rs:149-165 | reflectivity `kr * albedo[2]` and transparency `(1 - kr) * albedo[3]`, with the bounds of `FresnelWeights`; the normalised reflected direction and the refracted direction. The result is `LightFresnel`, to which `TotalReflectionSkipsRefraction` applies |
| Tracer.ShadeTerms | src/main.rs:151-169 | the two secondary colours are blended into `final_color` in the program's order. The result is `LightTerms` |
| Tracer.TraceSecondary | src/main.rs:151-165 | a secondary ray is cast one level deeper from the offset origin only when its weight is positive. The result is `Secondary`, which is green otherwise (`SecondaryUntraced`) |
| Tracer.CameraRay | src/main.rs:178-190 | the camera-space ray has `z = -1`. For a non-negative `tan(fov/2)` its `x` lies within `aspect * scale` of 0 and its `y` within `scale`; the left column and the top row lie on the edges of that rectangle |
| Tracer.ScreenX | src/main.rs:184 | `2x / width - 1` lies in [-1, 1) |
| Tracer.ScreenY | src/main.rs:185 | `-2y / height + 1` lies in (-1, 1] |
| Tracer.RowMajorLength | src/main.rs:182-183 | row-major order has `width * height` entries |
| Tracer.RowMajorDistinct | src/main.rs:182-183 | every entry of row-major order is on the screen, and no pixel appears twice |
| Tracer.RowMajorPosition | src/main.rs:182-183 | pixel `(x, y)` is entry `y * width + x` of row-major order |
| Tracer.Render | src/main.rs:175-200 | pixels are visited in row-major order. Every pixel is set to `to_hex` of the primary ray's colour, cast from `camera.eye` at depth 0, along `PrimaryDirection` (the rotated, normalised `CameraRay`). The visiting order is a ghost sequence `order` that `Render` appends each visited pixel to; its final value is proved equal to `RowMajor`, so with the three lemmas above every pixel is written exactly once |

## Left out

- Floating point: the model computes over reals. Rounding, infinities and NaN are not modelled.
- Cubes.RayIntersect: requires non-zero direction components. With a zero component `f32` division gives infinities, which reals do not have.
- Cubes.RayIntersect: the box-containment and first-entry properties are stated for boxes with non-negative half-extents.
- Optics.Fresnel: requires `ior > 0`. Every material of the shipped scene has `refractive_index = 0.0`, which divides by zero in `fresnel`. Tracer.SceneReady carries this requirement to `Shade`, `CastRay` and `Render`, so those exclude `Material::black`-style scenes.
- Tracer.Shade: states the skybox cases and the no-light case. The general value is the per-light sum `LightSum`. It is related to the direct terms alone (`MatteLightSum`) only for materials without reflectivity and transparency; the lighting terms are not related to any physical model.
- Transcendental functions (`sqrt`, `powf`, `tan`, `sin`, `cos`, `normalize`) are uninterpreted. Only the square-root and square laws are assumed.
- Colour arithmetic, `to_hex`, `Color::black`/`green`, `Camera::base_change` and the framebuffer's `set_current_color`/`point` live in files that are not part of this model. They are parameters.
- The three-argument `ray_intersect(origin, direction, eye)` that main.rs calls is not part of this model. Its source differs from the two-argument `Cube::ray_intersect`. The kernel takes it as a parameter that is only assumed to give non-negative distances and the cube's material.
- `refract` is evaluated unconditionally in the model; main.rs calls it only when the transparency is positive. The value is the same.
- `main`: the window, key polling, sleeping, the literal scene and the texture loading. All of this is I/O and configuration.
- `load_texture`: image decoding.
- `Display for Light`, and the printing done by `light_condition`. The model returns the phase instead.
- Back-face culling, face indices, UV mapping and normal maps: none of these exist in `src/cube.rs`.
