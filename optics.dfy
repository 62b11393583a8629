// The vector helpers of src/main.rs: origin bias, reflection, refraction
// and the Fresnel reflectance.

module Optics {
  import opened Linalg
  import opened Intersections

  /** Distance a secondary ray's origin is moved off the surface. */
  const ORIGIN_BIAS: real := 0.0001

  /**
   * `offset_origin`: the hit point moved by `ORIGIN_BIAS` along the normal,
   * towards the side `direction` points into, so that the new ray does not
   * start inside the surface it leaves.
   */
  function OffsetOrigin(hit: Intersect, direction: Vec3): (p: Vec3)
    requires hit.Hit?
    ensures Sub(p, hit.point) == Scale(hit.normal, ORIGIN_BIAS) ||
            Sub(p, hit.point) == Neg(Scale(hit.normal, ORIGIN_BIAS))
    ensures Dot(Sub(p, hit.point), direction) >= 0.0
  {
    var offset := Scale(hit.normal, ORIGIN_BIAS);
    BiasedDot(hit.normal, direction);
    if Dot(direction, hit.normal) < 0.0 then Sub(hit.point, offset) else Add(hit.point, offset)
  }

  /** The bias offset's component along `d` has the sign of `n . d`. */
  lemma BiasedDot(n: Vec3, d: Vec3)
    ensures Dot(Scale(n, ORIGIN_BIAS), d) == ORIGIN_BIAS * Dot(d, n)
    ensures Dot(Neg(Scale(n, ORIGIN_BIAS)), d) == -ORIGIN_BIAS * Dot(d, n)
  {
  }

  /** `reflect`: mirrors `incident` about the plane with normal `normal`. */
  function Reflect(incident: Vec3, normal: Vec3): Vec3
  {
    Sub(incident, Scale(normal, 2.0 * Dot(incident, normal)))
  }

  lemma DotSubScale(v: Vec3, n: Vec3, k: real, w: Vec3)
    ensures Dot(Sub(v, Scale(n, k)), w) == Dot(v, w) - k * Dot(n, w)
  {
  }

  /** Reflection about a unit normal flips the normal component. */
  lemma ReflectFlipsNormal(v: Vec3, n: Vec3)
    requires Dot(n, n) == 1.0
    ensures Dot(Reflect(v, n), n) == -Dot(v, n)
  {
    DotSubScale(v, n, 2.0 * Dot(v, n), n);
  }

  /** Reflecting twice about the same unit normal gives back the vector. */
  lemma ReflectInvolution(v: Vec3, n: Vec3)
    requires Dot(n, n) == 1.0
    ensures Reflect(Reflect(v, n), n) == v
  {
    ReflectFlipsNormal(v, n);
  }

  /** The unit normal that faces the incident ray: `normal`, or its negation from inside. */
  function FacingNormal(incident: Vec3, normal: Vec3): Vec3
  {
    if -Clamp(Dot(incident, normal), -1.0, 1.0) < 0.0 then Neg(normal) else normal
  }

  /** The index ratio used by `refract`: `eta_t` entering, `1 / eta_t` leaving. */
  function RefractRatio(incident: Vec3, normal: Vec3, etaT: real): real
    requires etaT != 0.0
  {
    if -Clamp(Dot(incident, normal), -1.0, 1.0) < 0.0 then 1.0 / etaT else etaT
  }

  /**
   * `refract`: the transmitted direction by Snell's law. The cosine is
   * clamped to [-1, 1]; a ray leaving the medium (cosine below 0) uses the
   * inverse index and the negated normal; when the discriminant `k` is
   * negative (total internal reflection) the ray is reflected about that
   * normal instead.
   */
  function Refract(m: Math, incident: Vec3, normal: Vec3, etaT: real): Vec3
    requires etaT != 0.0
  {
    var cosi := -Clamp(Dot(incident, normal), -1.0, 1.0);
    var nCosi := if cosi < 0.0 then -cosi else cosi;
    var eta := if cosi < 0.0 then 1.0 / etaT else etaT;
    var nNormal := if cosi < 0.0 then Neg(normal) else normal;
    Transmit(m, incident, nNormal, eta, nCosi)
  }

  /**
   * The second half of `refract`, once the normal faces the ray: the
   * discriminant `k`, then the mirror direction under total internal
   * reflection or the transmitted direction otherwise.
   */
  function Transmit(m: Math, incident: Vec3, nNormal: Vec3, eta: real, nCosi: real): Vec3
  {
    var k := 1.0 - eta * eta * (1.0 - nCosi * nCosi);
    if k < 0.0 then Reflect(incident, nNormal)
    else Add(Scale(incident, eta), Scale(nNormal, eta * nCosi - m.sqrt(k)))
  }

  /** Lagrange's identity for the dot product. */
  lemma Lagrange(a: Vec3, b: Vec3)
    ensures Dot(a, a) * Dot(b, b) - Dot(a, b) * Dot(a, b) ==
      (a.y * b.z - a.z * b.y) * (a.y * b.z - a.z * b.y) +
      (a.z * b.x - a.x * b.z) * (a.z * b.x - a.x * b.z) +
      (a.x * b.y - a.y * b.x) * (a.x * b.y - a.y * b.x)
  {
  }

  lemma SquareNonNegative(x: real)
    ensures 0.0 <= x * x
  {
    if x < 0.0 {
      MulLeRight(x, 0.0, -x);
    }
  }

  /** The dot product of two unit vectors lies in [-1, 1]. */
  lemma UnitDotBounds(a: Vec3, b: Vec3)
    requires Dot(a, a) == 1.0 && Dot(b, b) == 1.0
    ensures -1.0 <= Dot(a, b) <= 1.0
  {
    Lagrange(a, b);
    SquareNonNegative(a.y * b.z - a.z * b.y);
    SquareNonNegative(a.z * b.x - a.x * b.z);
    SquareNonNegative(a.x * b.y - a.y * b.x);
    var d := Dot(a, b);
    assert d * d <= 1.0;
    if d > 1.0 {
      SquareBelow(1.0, d);
    }
    if d < -1.0 {
      SquareBelow(1.0, -d);
    }
  }

  /**
   * For unit vectors, `refract` is `Transmit` about the normal that faces the
   * ray (a unit vector, `normal` or its negation), with the index ratio of
   * `RefractRatio` and a non-negative cosine against that normal.
   */
  lemma RefractFacing(m: Math, i: Vec3, n: Vec3, etaT: real)
    requires etaT != 0.0 && Dot(i, i) == 1.0 && Dot(n, n) == 1.0
    ensures var nn := FacingNormal(i, n);
      (nn == n || nn == Neg(n)) && Dot(nn, nn) == 1.0 && 0.0 <= -Dot(i, nn) &&
      Refract(m, i, n, etaT) == Transmit(m, i, nn, RefractRatio(i, n, etaT), -Dot(i, nn))
  {
    UnitDotBounds(i, n);
    var d := Dot(i, n);
    assert Clamp(d, -1.0, 1.0) == d;
    DotNeg(i, n);
  }

  /**
   * Snell's law for the second half of `refract`, given a unit incident
   * direction and a unit normal facing it: under total internal reflection
   * the result is the mirror direction; otherwise it is a unit vector on the
   * far side of the surface whose tangential part is the incident tangential
   * part scaled by the index ratio.
   */
  lemma TransmitSnell(m: Math, i: Vec3, nn: Vec3, eta: real, c: real)
    requires SqrtLaw(m) && Dot(i, i) == 1.0 && Dot(nn, nn) == 1.0 && c == -Dot(i, nn)
    ensures var k := 1.0 - eta * eta * (1.0 - c * c);
      var r := Transmit(m, i, nn, eta, c);
      (k < 0.0 ==> r == Reflect(i, nn)) &&
      (0.0 <= k ==>
        Dot(r, r) == 1.0 && Dot(r, nn) == -m.sqrt(k) && Dot(r, nn) <= 0.0 &&
        Sub(r, Scale(nn, Dot(r, nn))) == Scale(Sub(i, Scale(nn, Dot(i, nn))), eta))
  {
    var k := 1.0 - eta * eta * (1.0 - c * c);
    var s := m.sqrt(k);
    var a := eta * c - s;
    var r := Transmit(m, i, nn, eta, c);
    if 0.0 <= k {
      assert r == Add(Scale(i, eta), Scale(nn, a));
      assert s * s == k;
      DotCombination(i, nn, eta, a, nn);
      assert Dot(r, nn) == -s;
      DotCombination(i, nn, eta, a, i);
      assert Dot(i, r) == eta - a * c by {
        assert Dot(r, i) == eta * Dot(i, i) + a * Dot(nn, i);
        assert Dot(nn, i) == Dot(i, nn);
      }
      DotCombination(i, nn, eta, a, r);
      assert Dot(r, r) == eta * Dot(i, r) + a * Dot(nn, r);
      assert Dot(nn, r) == -s;
      assert a * (eta * c + s) == eta * eta * c * c - k;
    }
  }

  lemma DotNeg(u: Vec3, v: Vec3)
    ensures Dot(u, Neg(v)) == -Dot(u, v)
  {
  }

  /** The dot product is linear in its first argument. */
  lemma DotCombination(u: Vec3, v: Vec3, p: real, q: real, w: Vec3)
    ensures Dot(Add(Scale(u, p), Scale(v, q)), w) == p * Dot(u, w) + q * Dot(v, w)
    ensures Dot(w, Add(Scale(u, p), Scale(v, q))) == p * Dot(w, u) + q * Dot(w, v)
  {
  }

  /**
   * The sine of the transmission angle in `fresnel`, from the clamped
   * incidence cosine and the index ratio `1 / ior`.
   */
  function TransmissionSine(m: Math, incident: Vec3, normal: Vec3, ior: real): real
    requires ior != 0.0
  {
    var cosi := Clamp(Dot(incident, normal), -1.0, 1.0);
    1.0 / ior * m.sqrt(1.0 - cosi * cosi)
  }

  /** `((a - b) / (a + b))^2` lies in [0, 1] for non-negative `a` and `b`. */
  lemma ReflectanceTerm(a: real, b: real)
    requires 0.0 <= a && 0.0 <= b && 0.0 < a + b
    ensures 0.0 <= ((a - b) / (a + b)) * ((a - b) / (a + b)) <= 1.0
  {
    var q := (a - b) / (a + b);
    QuotientTimes(a - b, a + b);
    if q > 1.0 {
      MulStrictRight(1.0, q, a + b);
      assert false;
    }
    if q < -1.0 {
      MulStrictRight(q, -1.0, a + b);
      assert false;
    }
    if 0.0 <= q {
      SquareLe(q, 1.0);
    } else {
      SquareLe(-q, 1.0);
    }
  }

  /**
   * `fresnel`: the fraction of light reflected at the surface. It is exactly
   * 1 under total internal reflection (transmission sine at least 1) and
   * otherwise the mean of the s- and p-polarised reflectances; it always lies
   * in [0, 1]. The refractive index must be positive.
   */
  function Fresnel(m: Math, incident: Vec3, normal: Vec3, ior: real): (kr: real)
    requires SqrtLaw(m) && 0.0 < ior
    ensures 0.0 <= kr <= 1.0
    ensures TransmissionSine(m, incident, normal, ior) >= 1.0 ==> kr == 1.0
  {
    var cosi := Clamp(Dot(incident, normal), -1.0, 1.0);
    var etai := 1.0;
    var etat := ior;
    var sint := etai / etat * m.sqrt(1.0 - cosi * cosi);
    assert sint == TransmissionSine(m, incident, normal, ior);
    if sint >= 1.0 then 1.0
    else
      var cost := m.sqrt(1.0 - sint * sint);
      var cosi := if cosi < 0.0 then -cosi else cosi;
      assert 0.0 <= sint by {
        MulLeRight(0.0, m.sqrt(1.0 - cosi * cosi), 1.0 / ior);
      }
      assert 0.0 < cost by {
        SquareBelow(sint, 1.0);
        assert cost * cost == 1.0 - sint * sint;
      }
      var rs := ((etat * cosi) - (etai * cost)) / ((etat * cosi) + (etai * cost));
      var rp := ((etai * cosi) - (etat * cost)) / ((etai * cosi) + (etat * cost));
      ReflectanceTerm(etat * cosi, etai * cost);
      ReflectanceTerm(etai * cosi, etat * cost);
      (rs * rs + rp * rp) / 2.0
  }
}
