/**
 * The androidx Palette library's result, as far as the colour code reads
 * it: each of the seven target swatches is found in the image or not. The
 * quantiser that finds them is not part of this model.
 */
module AndroidPalette {
  import opened Wrappers
  import opened Argb

  datatype Palette = Palette(
    dominant: Option<Color>,
    vibrant: Option<Color>,
    darkVibrant: Option<Color>,
    lightVibrant: Option<Color>,
    muted: Option<Color>,
    darkMuted: Option<Color>,
    lightMuted: Option<Color>)

  /** A palette in which no swatch was found (for instance, an empty image). */
  const Empty := Palette(None, None, None, None, None, None, None)
}
