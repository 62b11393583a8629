// Colours as the renderer stores them, and the colour arithmetic of
// color.rs, which is not part of this model and is passed in as functions.

module Colors {

  type Channel = c: int | 0 <= c < 256

  /** `Color::new(r, g, b)` with 8-bit channels. */
  datatype Color = Color(r: Channel, g: Channel, b: Channel)

  /** The background colour returned for rays that hit nothing. */
  const SKYBOX_COLOR: Color := Color(68, 142, 228)

  /**
   * The operations of color.rs that the shader uses: `Color + Color`,
   * `Color * f32`, `to_hex`, `Color::black()` and `Color::green()`.
   */
  datatype ColorOps = ColorOps(
    add: (Color, Color) -> Color,
    scale: (Color, real) -> Color,
    toHex: Color -> int,
    black: Color,
    green: Color)
}
