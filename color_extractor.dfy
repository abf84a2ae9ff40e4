/**
 * `ColorExtractor` (songper/colorextractor): the three-stop gradient and
 * the light/dark flag derived from an album cover's palette.
 */
module SongperColorExtractor {
  import opened Wrappers
  import opened Argb
  import opened Hsv
  import opened AndroidPalette

  datatype GradientColors = GradientColors(startColor: Color, midColor: Color, endColor: Color, isLight: bool)

  /**
   * `palette.getDarkVibrantColor(palette.getDominantColor(Color.BLACK))`:
   * the dark-vibrant swatch, else the dominant swatch, else black.
   */
  function BaseColor(palette: Palette): (c: Color)
    ensures palette.darkVibrant.Some? ==> c == palette.darkVibrant.value
    ensures palette.darkVibrant.None? && palette.dominant.Some? ==> c == palette.dominant.value
    ensures palette.darkVibrant.None? && palette.dominant.None? ==> c == Black
  {
    palette.darkVibrant.GetOr(palette.dominant.GetOr(Black))
  }

  /** `extractColors`: the base colour, its mid and darker shades, and whether it is light. */
  function ExtractColors(conv: HsvConversion, palette: Palette): (g: GradientColors)
    ensures g.startColor == BaseColor(palette)
    ensures g.isLight <==> Luma1000(BaseColor(palette)) > 127500 || IsDoubleTie(BaseColor(palette))
  {
    var dominantColor := BaseColor(palette);
    IsColorLightInIntegers(dominantColor);
    GradientColors(dominantColor, CreateMidColor(conv, dominantColor), CreateDarkerColor(conv, dominantColor),
                   IsColorLight(dominantColor))
  }

  /**
   * The gradient darkens from start to end: mid and end keep the start's
   * hue and saturation, and end value <= mid value <= start value (for a
   * conversion that reproduces the two shades).
   */
  lemma GradientDarkens(conv: HsvConversion, palette: Palette)
    requires InRange(conv.toHsv(BaseColor(palette)))
    requires RoundTrips(conv, MidShade(conv.toHsv(BaseColor(palette))))
    requires RoundTrips(conv, DarkShade(conv.toHsv(BaseColor(palette))))
    ensures var g := ExtractColors(conv, palette);
            var start, mid, end := conv.toHsv(g.startColor), conv.toHsv(g.midColor), conv.toHsv(g.endColor);
            && mid.h == end.h == start.h && mid.s == end.s == start.s
            && 0.0 <= end.v <= mid.v <= start.v
  {
    ShadesOrdered(conv.toHsv(BaseColor(palette)));
  }

  /**
   * With no swatches every stop is derived from black and the result is
   * not light; since black has value 0, scaling the value leaves it black.
   */
  lemma NoSwatchesIsBlack(conv: HsvConversion)
    ensures var g := ExtractColors(conv, Empty);
            && g.startColor == Black
            && g.midColor == CreateMidColor(conv, Black)
            && g.endColor == CreateDarkerColor(conv, Black)
            && !g.isLight
            && (conv.toHsv(Black).v == 0.0 && conv.fromHsv(conv.toHsv(Black)) == Black ==>
                  g.midColor == Black && g.endColor == Black)
  {
    var h := conv.toHsv(Black);
    assert h.v == 0.0 ==> MidShade(h) == h && DarkShade(h) == h;
    BlackIsDarkWhiteIsLight();
  }
}
