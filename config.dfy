/** The compile-time configuration of the driver (the `#define`s of main.c). */
module Config {

  /** Width of one line of text, in plotter units. */
  const LINE_WIDTH: real := 100.0

  /** Inclusive bounds of the scale the user may enter. */
  const SCALE_MIN: real := 4.0
  const SCALE_MAX: real := 10.0

  /** Number of records in the font table. */
  const LINE_COUNT: nat := 1027

  /** Advance of one character cell in font units (the font is monospaced). */
  const CHAR_WIDTH: real := 18.0

  /** Fixed gutter added to the line pitch (negative: lines go downwards). */
  const LINE_SPACING: real := -5.0

  /** The X value that marks a record as a glyph header. */
  const SENTINEL_X: real := 999.0
}
