// The axis-aligned box of src/cube.rs and its slab-method ray test.

module Cubes {
  import opened Linalg
  import opened Materials
  import opened Intersections

  /** A box given by its centre and its half-extents on each axis. */
  datatype Cube = Cube(center: Vec3, dimX: real, dimY: real, dimZ: real, material: Material)
  {
    /** Half-extents that describe a box (possibly flat), not an inverted one. */
    predicate Proper()
    {
      0.0 <= dimX && 0.0 <= dimY && 0.0 <= dimZ
    }

    /** `center - (dim_x, dim_y, dim_z)`: the low corner. */
    function Lo(): Vec3 { Sub(center, Vec3(dimX, dimY, dimZ)) }

    /** `center + (dim_x, dim_y, dim_z)`: the high corner. */
    function Hi(): Vec3 { Add(center, Vec3(dimX, dimY, dimZ)) }
  }

  /** `p` lies between the corners `lo` and `hi` on every axis. */
  ghost predicate Within(lo: Vec3, hi: Vec3, p: Vec3)
  {
    lo.x <= p.x <= hi.x && lo.y <= p.y <= hi.y && lo.z <= p.z <= hi.z
  }

  /** `p` lies in the closed box. */
  ghost predicate InBox(c: Cube, p: Vec3)
  {
    Within(c.Lo(), c.Hi(), p)
  }

  /**
   * `t` is where the ray's line enters the box: the point at `t` is in the box
   * and no point of the line before it is.
   */
  ghost predicate FirstEntry(c: Cube, origin: Vec3, direction: Vec3, t: real)
  {
    InBox(c, At(origin, direction, t)) &&
    forall s :: s < t ==> !InBox(c, At(origin, direction, s))
  }

  /** Smaller of the two ray parameters at which one coordinate equals `lo` or `hi`. */
  function SlabEntry(lo: real, hi: real, o: real, d: real): real
    requires d != 0.0
  {
    Min((lo - o) / d, (hi - o) / d)
  }

  /** Larger of the two ray parameters at which one coordinate equals `lo` or `hi`. */
  function SlabExit(lo: real, hi: real, o: real, d: real): real
    requires d != 0.0
  {
    Max((lo - o) / d, (hi - o) / d)
  }

  /** Comparing a quotient `n / d` with `t` is comparing `n` with `d * t`. */
  lemma QuotientBounds(n: real, d: real, t: real)
    requires d != 0.0
    ensures 0.0 < d ==> (n / d <= t <==> n <= d * t) && (t <= n / d <==> d * t <= n)
    ensures d < 0.0 ==> (n / d <= t <==> d * t <= n) && (t <= n / d <==> n <= d * t)
  {
    var q := n / d;
    assert q * d == n;
    if 0.0 < d {
      if q <= t { MulLeRight(q, t, d); }
      if t <= q { MulLeRight(t, q, d); }
      if n <= d * t { MulLeRight(n, d * t, 1.0 / d); }
      if d * t <= n { MulLeRight(d * t, n, 1.0 / d); }
    } else {
      if q <= t { MulLeRight(q, t, -d); }
      if t <= q { MulLeRight(t, q, -d); }
      if d * t <= n { MulLeRight(d * t, n, -1.0 / d); }
      if n <= d * t { MulLeRight(n, d * t, -1.0 / d); }
    }
  }

  /** `t` lies between the entry and exit parameters of one axis. */
  predicate InSlab(lo: real, hi: real, o: real, d: real, t: real)
    requires d != 0.0
  {
    SlabEntry(lo, hi, o, d) <= t <= SlabExit(lo, hi, o, d)
  }

  /**
   * The slab of one axis is exactly the set of parameters at which that
   * coordinate of the ray lies in `[lo, hi]`.
   */
  lemma SlabAxis(lo: real, hi: real, o: real, d: real, t: real, c: real)
    requires d != 0.0 && lo <= hi && c == o + d * t
    ensures InSlab(lo, hi, o, d, t) <==> lo <= c <= hi
  {
    QuotientBounds(lo - o, d, t);
    QuotientBounds(hi - o, d, t);
    QuotientBounds(lo - o, d, (hi - o) / d);
  }

  /** A point of the ray is in the box exactly when its parameter is in all three slabs. */
  lemma BoxSlabs(lo: Vec3, hi: Vec3, origin: Vec3, direction: Vec3, t: real)
    requires lo.x <= hi.x && lo.y <= hi.y && lo.z <= hi.z
    requires direction.x != 0.0 && direction.y != 0.0 && direction.z != 0.0
    ensures Within(lo, hi, At(origin, direction, t)) <==>
      InSlab(lo.x, hi.x, origin.x, direction.x, t) &&
      InSlab(lo.y, hi.y, origin.y, direction.y, t) &&
      InSlab(lo.z, hi.z, origin.z, direction.z, t)
  {
    var p := At(origin, direction, t);
    SlabAxis(lo.x, hi.x, origin.x, direction.x, t, p.x);
    SlabAxis(lo.y, hi.y, origin.y, direction.y, t, p.y);
    SlabAxis(lo.z, hi.z, origin.z, direction.z, t, p.z);
  }

  /**
   * `Cube::ray_intersect`: the slab test. It reports a hit exactly when the
   * ray's line enters the box at a non-negative parameter, at that parameter;
   * a box behind the origin, or one that contains the origin, is a miss. The
   * normal is the normalised vector from the centre to the hit point, and the
   * material is the cube's own. Direction components must be non-zero.
   */
  method RayIntersect(m: Math, cube: Cube, origin: Vec3, direction: Vec3) returns (hit: Intersect)
    requires direction.x != 0.0 && direction.y != 0.0 && direction.z != 0.0
    ensures hit.Hit? ==> 0.0 <= hit.distance && hit.point == At(origin, direction, hit.distance)
    ensures hit.Hit? ==> hit.normal == m.normalize(Sub(hit.point, cube.center)) && hit.material == cube.material
    ensures cube.Proper() && hit.Hit? ==> FirstEntry(cube, origin, direction, hit.distance)
    ensures cube.Proper() && hit.Hit? ==> InBox(cube, hit.point)
    ensures cube.Proper() && hit.Miss? ==> forall t :: 0.0 <= t ==> !FirstEntry(cube, origin, direction, t)
  {
    var lo := cube.Lo();
    var hi := cube.Hi();
    ghost var ex, xx := SlabEntry(lo.x, hi.x, origin.x, direction.x), SlabExit(lo.x, hi.x, origin.x, direction.x);
    ghost var ey, xy := SlabEntry(lo.y, hi.y, origin.y, direction.y), SlabExit(lo.y, hi.y, origin.y, direction.y);
    ghost var ez, xz := SlabEntry(lo.z, hi.z, origin.z, direction.z), SlabExit(lo.z, hi.z, origin.z, direction.z);

    var tMin := (lo.x - origin.x) / direction.x;
    var tMax := (hi.x - origin.x) / direction.x;
    if tMin > tMax {
      tMin, tMax := tMax, tMin;
    }
    assert tMin == ex && tMax == xx && tMin <= tMax;

    var tyMin := (lo.y - origin.y) / direction.y;
    var tyMax := (hi.y - origin.y) / direction.y;
    if tyMin > tyMax {
      tyMin, tyMax := tyMax, tyMin;
    }
    assert tyMin == ey && tyMax == xy && tyMin <= tyMax;

    if tMin > tyMax || tyMin > tMax {
      // The x and y slabs are disjoint.
      if cube.Proper() {
        forall t | 0.0 <= t ensures !FirstEntry(cube, origin, direction, t) {
          BoxSlabs(lo, hi, origin, direction, t);
        }
      }
      return Miss;
    }

    if tyMin > tMin {
      tMin := tyMin;
    }
    if tyMax < tMax {
      tMax := tyMax;
    }
    assert tMin == Max(ex, ey) && tMax == Min(xx, xy) && tMin <= tMax;

    var tzMin := (lo.z - origin.z) / direction.z;
    var tzMax := (hi.z - origin.z) / direction.z;
    if tzMin > tzMax {
      tzMin, tzMax := tzMax, tzMin;
    }
    assert tzMin == ez && tzMax == xz && tzMin <= tzMax;

    if tMin > tzMax || tzMin > tMax {
      // The z slab is disjoint from the running interval.
      if cube.Proper() {
        forall t | 0.0 <= t ensures !FirstEntry(cube, origin, direction, t) {
          BoxSlabs(lo, hi, origin, direction, t);
        }
      }
      return Miss;
    }

    ghost var before := tMin;
    if tzMin > tMin {
      tMin := tzMin;
    }
    if tzMax < tMax {
      tMax := tzMax;
    }
    // The running interval only shrank and is not empty.
    assert before <= tMin <= tMax;
    assert tMin == Max(Max(ex, ey), ez) && tMax == Min(Min(xx, xy), xz);

    if tMin < 0.0 {
      // The line enters the box behind the origin (the box is behind it or holds it).
      if cube.Proper() {
        BoxSlabs(lo, hi, origin, direction, tMin);
        forall t | 0.0 <= t ensures !FirstEntry(cube, origin, direction, t) {
          assert tMin < t;
        }
      }
      return Miss;
    }

    var point := Add(origin, Scale(direction, tMin));
    var normal := m.normalize(Sub(point, cube.center));
    var distance := tMin;
    if cube.Proper() {
      BoxSlabs(lo, hi, origin, direction, tMin);
      forall s | s < tMin ensures !InBox(cube, At(origin, direction, s)) {
        BoxSlabs(lo, hi, origin, direction, s);
      }
    }
    hit := Hit(point, normal, distance, cube.material);
  }
}
