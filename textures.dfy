// Nearest-texel lookup of src/texture.rs (`apply_texture`).

module Textures {
  import opened Linalg
  import opened Colors

  lemma IntSquare(w: int)
    ensures (w * w) as real == (w as real) * (w as real)
  {
  }
  /** The floor of a root of `n >= 1` is the integer square root of `n`. */
  lemma {:induction false} FloorOfRoot(s: real, n: nat)
    requires 0.0 <= s && s * s == n as real && 1 <= n
    ensures 1 <= s.Floor
    ensures s.Floor * s.Floor <= n < (s.Floor + 1) * (s.Floor + 1)
  {
    var w := s.Floor;
    var rw := w as real;
    assert rw <= s < rw + 1.0;
    assert 0 <= w;
    SquareLe(rw, s);
    SquareBelow(s, rw + 1.0);
    IntSquare(w);
    IntSquare(w + 1);
    assert (w + 1) as real == rw + 1.0;
    assert w * w <= n;
    assert n < (w + 1) * (w + 1);
  }

  /**
   * The side of the square texel grid, `(len as f32).sqrt() as usize`: the
   * largest `w` with `w * w <= len`.
   */
  function TextureWidth(m: Math, n: nat): (w: nat)
    requires SqrtLaw(m) && 1 <= n
    ensures 1 <= w && w * w <= n < (w + 1) * (w + 1)
  {
    var s := m.sqrt(n as real);
    FloorOfRoot(s, n);
    s.Floor
  }

  /**
   * One texel coordinate, `(s).clamp(0.0, width - 1.0) as usize`: the floor
   * of `s` where it lies on the grid, clamped to the first or last column
   * elsewhere.
   */
  function TexelCoord(s: real, w: nat): (c: nat)
    requires 1 <= w
    ensures c <= w - 1
    ensures 0.0 <= s <= (w - 1) as real ==> c == s.Floor
    ensures s < 0.0 ==> c == 0
    ensures (w - 1) as real < s ==> c == w - 1
  {
    Clamp(s, 0.0, (w - 1) as real).Floor
  }

  /**
   * `x + y * width` for the clamped coordinates of `(u, v)`: always one of
   * the first `w * w` positions.
   */
  function TexelIndex(w: nat, u: real, v: real): (i: nat)
    requires 1 <= w
    ensures i < w * w
  {
    var x := TexelCoord(u * w as real, w);
    var y := TexelCoord(v * w as real, w);
    assert y * w <= (w - 1) * w;
    x + y * w
  }

  /** Every cell `(x, y)` of the grid is addressed by `(x / w, y / w)`. */
  lemma TexelIndexOnto(w: nat, x: nat, y: nat)
    requires x < w && y < w
    ensures TexelIndex(w, x as real / w as real, y as real / w as real) == x + y * w
  {
    var u, v := x as real / w as real, y as real / w as real;
    CoordOfCell(x, w);
    CoordOfCell(y, w);
    assert TexelCoord(u * w as real, w) == x;
    assert TexelCoord(v * w as real, w) == y;
    assert TexelIndex(w, u, v) == TexelCoord(u * w as real, w) + TexelCoord(v * w as real, w) * w;
  }

  /** Column `i % w` and row `i / w` of position `i` in a `w` by `w` grid. */
  lemma CellOfIndex(i: nat, w: nat)
    requires 1 <= w && i < w * w
    ensures i % w < w && i / w < w && i == i % w + (i / w) * w
  {
    var y := i / w;
    if y >= w {
      MulLeInt(w, y, w);
    }
  }

  lemma MulLeInt(a: nat, b: nat, c: nat)
    requires a <= b
    ensures a * c <= b * c
  {
  }

  /** The coordinate `c / w` scaled back by `w` lands on cell `c`. */
  lemma CoordOfCell(c: nat, w: nat)
    requires c < w
    ensures TexelCoord((c as real / w as real) * w as real, w) == c
  {
    var rw := w as real;
    assert (c as real / rw) * rw == c as real;
  }

  /**
   * `apply_texture`: the texel at the clamped grid position of `(u, v)`.
   * The texture must be non-empty: for an empty one the clamp bounds are
   * `(0, -1)` and the lookup panics.
   */
  function ApplyTexture(m: Math, texture: seq<Color>, u: real, v: real): (c: Color)
    requires SqrtLaw(m) && 1 <= |texture|
    ensures var w := TextureWidth(m, |texture|);
      w * w <= |texture| && c in texture[..w * w] && c == texture[TexelIndex(w, u, v)]
  {
    var w := TextureWidth(m, |texture|);
    var i := TexelIndex(w, u, v);
    assert texture[..w * w][i] == texture[i];
    texture[i]
  }

  /** Inside the grid the lookup is nearest-texel: the floors of `u * w` and `v * w`. */
  lemma NearestTexel(w: nat, u: real, v: real)
    requires 1 <= w
    requires 0.0 <= u * w as real <= (w - 1) as real && 0.0 <= v * w as real <= (w - 1) as real
    ensures TexelIndex(w, u, v) == (u * w as real).Floor + (v * w as real).Floor * w
  {
    assert TexelIndex(w, u, v) == TexelCoord(u * w as real, w) + TexelCoord(v * w as real, w) * w;
  }

  /** Every one of the first `w * w` texels is returned for some `(u, v)`. */
  lemma EveryTexelReachable(m: Math, texture: seq<Color>, i: nat)
    requires SqrtLaw(m) && 1 <= |texture|
    requires var w := TextureWidth(m, |texture|); i < w * w
    ensures exists u, v :: ApplyTexture(m, texture, u, v) == texture[i]
  {
    var w := TextureWidth(m, |texture|);
    CellOfIndex(i, w);
    var x, y := i % w, i / w;
    TexelIndexOnto(w, x, y);
    var u, v := x as real / w as real, y as real / w as real;
    assert ApplyTexture(m, texture, u, v) == texture[i];
  }
}
