/**
 * `ColorPaletteManager` (sonicover/universalfunctions): the seven palette
 * colours of an album cover, each falling back to a fixed default, and the
 * `AppColorPalette` getters the screens use.
 */
module SonicoverColorPaletteManager {
  import opened Wrappers
  import opened Argb
  import opened AndroidPalette

  /** The palette record with its convenience getters. */
  datatype AppColorPalette = AppColorPalette(
    dominantColor: Color,
    vibrantColor: Color,
    darkVibrantColor: Color,
    lightVibrantColor: Color,
    mutedColor: Color,
    darkMutedColor: Color,
    lightMutedColor: Color,
    isLight: bool)
  {
    function PrimaryColor(): (c: Color)
      ensures c == dominantColor
    {
      dominantColor
    }

    function AccentColor(): (c: Color)
      ensures c == vibrantColor
    {
      vibrantColor
    }

    /** The light muted colour behind a light palette, the dark muted one otherwise. */
    function BackgroundColor(): (c: Color)
      ensures isLight ==> c == lightMutedColor
      ensures !isLight ==> c == darkMutedColor
    {
      if isLight then lightMutedColor else darkMutedColor
    }

    /** Black text on a light palette, white text otherwise. */
    function TextColor(): (c: Color)
      ensures c == Black <==> isLight
      ensures c == White <==> !isLight
    {
      TextColorOn(isLight)
    }
  }

  /** The fallbacks used for a dark cover. */
  const DefaultDarkColors: map<string, Color> := map[
    "dominant" := Hex(0x2C2C2C),
    "vibrant" := Hex(0xFF6B35),
    "darkVibrant" := Hex(0xCC5429),
    "lightVibrant" := Hex(0xFF8C69),
    "muted" := Hex(0x8A8A8A),
    "darkMuted" := Hex(0x4A4A4A),
    "lightMuted" := Hex(0xCCCCCC)]

  /** The fallbacks used for a light cover. */
  const DefaultLightColors: map<string, Color> := map[
    "dominant" := Hex(0xF5F5F5),
    "vibrant" := Hex(0xFF6B35),
    "darkVibrant" := Hex(0xCC5429),
    "lightVibrant" := Hex(0xFF8C69),
    "muted" := Hex(0xCCCCCC),
    "darkMuted" := Hex(0x999999),
    "lightMuted" := Hex(0xF0F0F0)]

  /**
   * `extractColorsFromImage`: every swatch the palette found, and for the
   * missing ones a default: the light-cover entry for the two light
   * swatches, the dark-cover entry for the other five. Whether the result
   * is light is decided by the dominant colour alone.
   */
  function ExtractColorsFromImage(palette: Palette): (p: AppColorPalette)
    ensures palette.dominant.Some? ==> p.dominantColor == palette.dominant.value
    ensures palette.vibrant.Some? ==> p.vibrantColor == palette.vibrant.value
    ensures palette.darkVibrant.Some? ==> p.darkVibrantColor == palette.darkVibrant.value
    ensures palette.lightVibrant.Some? ==> p.lightVibrantColor == palette.lightVibrant.value
    ensures palette.muted.Some? ==> p.mutedColor == palette.muted.value
    ensures palette.darkMuted.Some? ==> p.darkMutedColor == palette.darkMuted.value
    ensures palette.lightMuted.Some? ==> p.lightMutedColor == palette.lightMuted.value
    ensures p.isLight <==> Luma1000(p.dominantColor) > 127500 || IsDoubleTie(p.dominantColor)
  {
    var dominantColor := palette.dominant.GetOr(DefaultDarkColors["dominant"]);
    IsColorLightInIntegers(dominantColor);
    AppColorPalette(
      dominantColor,
      palette.vibrant.GetOr(DefaultDarkColors["vibrant"]),
      palette.darkVibrant.GetOr(DefaultDarkColors["darkVibrant"]),
      palette.lightVibrant.GetOr(DefaultLightColors["lightVibrant"]),
      palette.muted.GetOr(DefaultDarkColors["muted"]),
      palette.darkMuted.GetOr(DefaultDarkColors["darkMuted"]),
      palette.lightMuted.GetOr(DefaultLightColors["lightMuted"]),
      IsColorLight(dominantColor))
  }

  /**
   * The fallback for each missing swatch: #2C2C2C, #FF6B35, #CC5429,
   * #FF8C69, #8A8A8A, #4A4A4A and #F0F0F0. Only the two light swatches
   * take the light-cover entries; for `lightVibrant` the two tables agree,
   * for `lightMuted` they do not.
   */
  lemma MissingSwatchesFallBack(palette: Palette)
    ensures var p := ExtractColorsFromImage(palette);
            && (palette.dominant.None? ==> p.dominantColor == 0xFF2C2C2C)
            && (palette.vibrant.None? ==> p.vibrantColor == 0xFFFF6B35)
            && (palette.darkVibrant.None? ==> p.darkVibrantColor == 0xFFCC5429)
            && (palette.lightVibrant.None? ==> p.lightVibrantColor == 0xFFFF8C69)
            && (palette.muted.None? ==> p.mutedColor == 0xFF8A8A8A)
            && (palette.darkMuted.None? ==> p.darkMutedColor == 0xFF4A4A4A)
            && (palette.lightMuted.None? ==> p.lightMutedColor == 0xFFF0F0F0)
            && DefaultLightColors["lightMuted"] != DefaultDarkColors["lightMuted"]
  {
  }

  /**
   * What the screens read from an extracted palette: the primary colour is
   * the dominant swatch (or its default), the accent the vibrant one, and
   * the text and background follow the dominant colour's lightness.
   */
  lemma ScreenColors(palette: Palette)
    ensures var p := ExtractColorsFromImage(palette);
            var light := Luma1000(p.PrimaryColor()) > 127500 || IsDoubleTie(p.PrimaryColor());
            && p.PrimaryColor() == palette.dominant.GetOr(0xFF2C2C2C)
            && p.AccentColor() == palette.vibrant.GetOr(0xFFFF6B35)
            && (p.TextColor() == Black <==> light)
            && (p.TextColor() == White <==> !light)
            && p.BackgroundColor() == if light then palette.lightMuted.GetOr(0xFFF0F0F0)
                                      else palette.darkMuted.GetOr(0xFF4A4A4A)
  {
    MissingSwatchesFallBack(palette);
  }

  /** Two palettes with the same dominant swatch agree on `isLight`, whatever their other swatches. */
  lemma LightnessFollowsDominant(a: Palette, b: Palette)
    requires a.dominant == b.dominant
    ensures ExtractColorsFromImage(a).isLight == ExtractColorsFromImage(b).isLight
  {
  }

  /** Without a dominant swatch the cover counts as dark, so the text is white. */
  lemma NoDominantIsDark(palette: Palette)
    requires palette.dominant.None?
    ensures var p := ExtractColorsFromImage(palette);
            p.dominantColor == 0xFF2C2C2C && !p.isLight && p.TextColor() == White
            && p.BackgroundColor() == p.darkMutedColor
  {
    var c: Color := 0xFF2C2C2C;
    assert Red(c) == 0x2C && Green(c) == 0x2C && Blue(c) == 0x2C;
    assert Luma1000(c) == 44000;
  }
}
