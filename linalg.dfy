// Vectors of reals standing for nalgebra_glm::Vec3, and the transcendental
// helpers of the renderer kept uninterpreted.

module Wrappers {
  datatype Option<T> = None | Some(value: T)
}

module Linalg {

  /** A 3-component vector: a position, a direction or a normal. */
  datatype Vec3 = Vec3(x: real, y: real, z: real)

  function Add(a: Vec3, b: Vec3): Vec3 { Vec3(a.x + b.x, a.y + b.y, a.z + b.z) }

  function Sub(a: Vec3, b: Vec3): Vec3 { Vec3(a.x - b.x, a.y - b.y, a.z - b.z) }

  function Neg(a: Vec3): Vec3 { Vec3(-a.x, -a.y, -a.z) }

  /** `v * s`: every component scaled by `s`. */
  function Scale(v: Vec3, s: real): Vec3 { Vec3(v.x * s, v.y * s, v.z * s) }

  function Dot(a: Vec3, b: Vec3): real { a.x * b.x + a.y * b.y + a.z * b.z }

  function Min(a: real, b: real): real { if a <= b then a else b }

  function Max(a: real, b: real): real { if a >= b then a else b }

  /** `f32::clamp(lo, hi)` for `lo <= hi`. */
  function Clamp(s: real, lo: real, hi: real): real
    requires lo <= hi
  {
    if s < lo then lo else if s > hi then hi else s
  }

  /**
   * The floating-point library functions the renderer calls. They are not
   * modelled; each is a total function of its argument, and the proofs rely
   * only on the laws stated below.
   */
  datatype Math = Math(
    sqrt: real -> real,
    powf: (real, real) -> real,
    tan: real -> real,
    sin: real -> real,
    cos: real -> real,
    normalize: Vec3 -> Vec3)

  /** `f32::sqrt` on non-negative arguments: the non-negative square root. */
  ghost predicate SqrtLaw(m: Math)
  {
    forall x: real :: 0.0 <= x ==> 0.0 <= m.sqrt(x) && m.sqrt(x) * m.sqrt(x) == x
  }

  /** `f32::powf(x, 2.0)` is the square of `x`. */
  ghost predicate SquareLaw(m: Math)
  {
    forall x: real :: m.powf(x, 2.0) == x * x
  }

  /** `Vec3::magnitude`: the Euclidean length. */
  function Magnitude(m: Math, v: Vec3): real
  {
    m.sqrt(Dot(v, v))
  }

  /** Point reached after travelling `t` along `direction` from `origin`. */
  function At(origin: Vec3, direction: Vec3, t: real): Vec3
  {
    Add(origin, Scale(direction, t))
  }

  // Monotonicity of multiplication, which the solver does not find unaided.

  lemma MulLeRight(a: real, b: real, c: real)
    requires a <= b && 0.0 <= c
    ensures a * c <= b * c
  {
  }

  lemma MulStrictRight(a: real, b: real, c: real)
    requires a < b && 0.0 < c
    ensures a * c < b * c
  {
  }

  lemma SquareLe(a: real, b: real)
    requires 0.0 <= a <= b
    ensures a * a <= b * b
  {
    MulLeRight(a, b, a);
    MulLeRight(a, b, b);
    calc { a * a; <= b * a; == a * b; <= b * b; }
  }

  lemma SquareBelow(s: real, t: real)
    requires 0.0 <= s < t
    ensures s * s < t * t
  {
    MulLeRight(s, t, s);
    MulStrictRight(s, t, t);
    calc { s * s; <= t * s; == s * t; < t * t; }
  }

  lemma QuotientTimes(x: real, y: real)
    requires y != 0.0
    ensures (x / y) * y == x
  {
  }

  /** `a / b` lies in [0, 1) when `0 <= a < b`. */
  lemma RatioBelowOne(a: real, b: real)
    requires 0.0 <= a < b
    ensures 0.0 <= a / b < 1.0
  {
    var q := a / b;
    QuotientTimes(a, b);
    if q < 0.0 {
      MulStrictRight(q, 0.0, b);
      assert false;
    }
    if 1.0 <= q {
      MulLeRight(1.0, q, b);
      assert false;
    }
  }
}
