/**
 * `GradientUtils` (sonicover/universalfunctions): three-stop gradients
 * built from an `AppColorPalette` in one of five styles.
 */
module SonicoverGradientGenerator {
  import opened Argb
  import opened Hsv
  import opened KotlinNumbers
  import opened SonicoverColorPaletteManager

  /**
   * The gradient stops, and `colors`, the array handed to the drawable,
   * which defaults to the three stops in order.
   */
  datatype GradientColors = GradientColors(startColor: Color, midColor: Color, endColor: Color, colors: seq<Color>)
  {
    function ToIntArray(): (a: seq<Color>)
      ensures a == colors
    {
      colors
    }
  }

  /** The constructor call with `colors` left at its default. */
  function Stops(startColor: Color, midColor: Color, endColor: Color): (g: GradientColors)
    ensures g.startColor == startColor && g.midColor == midColor && g.endColor == endColor
    ensures g.ToIntArray() == [startColor, midColor, endColor]
  {
    GradientColors(startColor, midColor, endColor, [startColor, midColor, endColor])
  }

  datatype GradientStyle = DarkToDarker | VibrantToMuted | LightToDark | Monochromatic | Complementary

  /** The style used when the caller gives none. */
  const DefaultStyle := DarkToDarker

  /** `createGradientFromPalette`: one builder per style. */
  function CreateGradientFromPalette(conv: HsvConversion, palette: AppColorPalette, style: GradientStyle): (g: GradientColors)
    ensures style == DarkToDarker ==> g == CreateDarkGradient(conv, palette.dominantColor)
    ensures style == VibrantToMuted ==> g == CreateVibrantToMutedGradient(palette)
    ensures style == LightToDark ==> g == CreateLightToDarkGradient(palette)
    ensures style == Monochromatic ==> g == CreateMonochromaticGradient(conv, palette.dominantColor)
    ensures style == Complementary ==> g == CreateComplementaryGradient(conv, palette.vibrantColor)
    ensures g.ToIntArray() == [g.startColor, g.midColor, g.endColor]
  {
    match style
    case DarkToDarker => CreateDarkGradient(conv, palette.dominantColor)
    case VibrantToMuted => CreateVibrantToMutedGradient(palette)
    case LightToDark => CreateLightToDarkGradient(palette)
    case Monochromatic => CreateMonochromaticGradient(conv, palette.dominantColor)
    case Complementary => CreateComplementaryGradient(conv, palette.vibrantColor)
  }

  /** Called without a style, `createGradientFromPalette` darkens the dominant colour. */
  lemma DefaultStyleIsDarkGradient(conv: HsvConversion, palette: AppColorPalette)
    ensures CreateGradientFromPalette(conv, palette, DefaultStyle) == CreateDarkGradient(conv, palette.dominantColor)
  {
  }

  /** The base colour, then its 0.8 and 0.5 value shades. */
  function CreateDarkGradient(conv: HsvConversion, baseColor: Color): (g: GradientColors)
    ensures g.startColor == baseColor
    ensures g.ToIntArray() == [g.startColor, g.midColor, g.endColor]
    ensures var h := conv.toHsv(baseColor);
            InRange(h) && RoundTrips(conv, MidShade(h)) && RoundTrips(conv, DarkShade(h)) ==>
              var mid, end := conv.toHsv(g.midColor), conv.toHsv(g.endColor);
              && mid.h == end.h == h.h && mid.s == end.s == h.s
              && mid.v == h.v * 0.8 && end.v == h.v * 0.5
              && 0.0 <= end.v <= mid.v <= h.v
  {
    Stops(baseColor, CreateMidColor(conv, baseColor), CreateDarkerColor(conv, baseColor))
  }

  function CreateVibrantToMutedGradient(palette: AppColorPalette): (g: GradientColors)
    ensures g.ToIntArray() == [palette.vibrantColor, palette.mutedColor, palette.darkMutedColor]
  {
    Stops(palette.vibrantColor, palette.mutedColor, palette.darkMutedColor)
  }

  function CreateLightToDarkGradient(palette: AppColorPalette): (g: GradientColors)
    ensures g.ToIntArray() == [palette.lightVibrantColor, palette.vibrantColor, palette.darkVibrantColor]
  {
    Stops(palette.lightVibrantColor, palette.vibrantColor, palette.darkVibrantColor)
  }

  /** A lighter shade, the base colour itself, a darker shade. */
  function CreateMonochromaticGradient(conv: HsvConversion, baseColor: Color): (g: GradientColors)
    ensures g.midColor == baseColor
    ensures g.ToIntArray() == [g.startColor, g.midColor, g.endColor]
    ensures var h := conv.toHsv(baseColor);
            InRange(h) && RoundTrips(conv, Lightened(h)) && RoundTrips(conv, DarkShade(h)) ==>
              var start, end := conv.toHsv(g.startColor), conv.toHsv(g.endColor);
              && start.h == end.h == h.h && start.s == end.s == h.s
              && end.v <= h.v <= start.v <= 1.0
  {
    Stops(CreateLighterColor(conv, baseColor), baseColor, CreateDarkerColor(conv, baseColor))
  }

  /** The base colour, an even blend of it with its complement, the complement. */
  function CreateComplementaryGradient(conv: HsvConversion, baseColor: Color): (g: GradientColors)
    ensures g.startColor == baseColor
    ensures g.midColor == BlendColors(baseColor, g.endColor, 0.5)
    ensures g.ToIntArray() == [g.startColor, g.midColor, g.endColor]
    ensures var h := conv.toHsv(baseColor);
            InRange(h) && RoundTrips(conv, Complemented(h)) ==>
              var end := conv.toHsv(g.endColor);
              && end.s == h.s && end.v == h.v && 0.0 <= end.h < 360.0
              && end.h == if h.h < 180.0 then h.h + 180.0 else h.h - 180.0
  {
    var complementary := GetComplementaryColor(conv, baseColor);
    var midColor := BlendColors(baseColor, complementary, 0.5);
    Stops(baseColor, midColor, complementary)
  }

  /** `(c1 * ratio + c2 * (1 - ratio)).toInt()` for one channel. */
  function BlendChannel(c1: Byte, c2: Byte, ratio: real): (r: Byte)
    requires 0.0 <= ratio <= 1.0
    ensures c1 <= c2 ==> c1 <= r <= c2
    ensures c2 <= c1 ==> c2 <= r <= c1
  {
    var x := c1 as real * ratio + c2 as real * (1.0 - ratio);
    BlendBetween(c1, c2, ratio, x);
    assert x >= 0.0;
    var n := Trunc(x);
    assert n as real <= x < n as real + 1.0;
    n
  }

  lemma BlendBetween(c1: Byte, c2: Byte, ratio: real, x: real)
    requires 0.0 <= ratio <= 1.0
    requires x == c1 as real * ratio + c2 as real * (1.0 - ratio)
    ensures c1 <= c2 ==> c1 as real <= x <= c2 as real
    ensures c2 <= c1 ==> c2 as real <= x <= c1 as real
  {
    if c1 <= c2 {
      Convex(c1 as real, c2 as real, ratio, x);
    } else {
      assert x == c2 as real * (1.0 - ratio) + c1 as real * (1.0 - (1.0 - ratio));
      Convex(c2 as real, c1 as real, 1.0 - ratio, x);
    }
  }

  /** A weighted mean of two values lies between them. */
  lemma Convex(lo: real, hi: real, t: real, x: real)
    requires lo <= hi && 0.0 <= t <= 1.0
    requires x == lo * t + hi * (1.0 - t)
    ensures lo <= x <= hi
  {
    var d := hi - lo;
    assert x == hi - d * t;
    assert 0.0 <= d * t <= d;
  }

  /**
   * `blendColors`: each RGB channel taken `ratio` from the first colour and
   * the rest from the second, truncated; the result is opaque.
   */
  function BlendColors(color1: Color, color2: Color, ratio: real): (c: Color)
    requires 0.0 <= ratio <= 1.0
    ensures Alpha(c) == 0xFF
    ensures BetweenChannel(Red(c), Red(color1), Red(color2))
    ensures BetweenChannel(Green(c), Green(color1), Green(color2))
    ensures BetweenChannel(Blue(c), Blue(color1), Blue(color2))
  {
    FromRgb(BlendChannel(Red(color1), Red(color2), ratio),
            BlendChannel(Green(color1), Green(color2), ratio),
            BlendChannel(Blue(color1), Blue(color2), ratio))
  }

  predicate BetweenChannel(x: int, a: int, b: int)
  {
    (a <= x <= b) || (b <= x <= a)
  }

  /**
   * At ratio 0.5 the blend is exact: each channel is the mean of the two,
   * rounded down, so blending is symmetric.
   */
  lemma EvenBlend(color1: Color, color2: Color)
    ensures var c := BlendColors(color1, color2, 0.5);
            && Red(c) == (Red(color1) + Red(color2)) / 2
            && Green(c) == (Green(color1) + Green(color2)) / 2
            && Blue(c) == (Blue(color1) + Blue(color2)) / 2
    ensures BlendColors(color1, color2, 0.5) == BlendColors(color2, color1, 0.5)
  {
    EvenChannel(Red(color1), Red(color2));
    EvenChannel(Green(color1), Green(color2));
    EvenChannel(Blue(color1), Blue(color2));
  }

  lemma EvenChannel(a: Byte, b: Byte)
    ensures BlendChannel(a, b, 0.5) == (a + b) / 2 == BlendChannel(b, a, 0.5)
  {
    var x := a as real * 0.5 + b as real * (1.0 - 0.5);
    assert x == (a + b) as real / 2.0;
    var k := (a + b) / 2;
    assert k as real <= x < k as real + 1.0;
  }
}
