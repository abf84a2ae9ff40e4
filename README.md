# Sonicover / Songper wallpaper core in Dafny

Sonicover (also called Songper) is an Android app. It watches the track
playing on a Spotify account and, whenever the album art changes, turns
the art into a lock-screen wallpaper. This project models the parts of the
app that carry logic, and proves what they promise:

- **Title wrapping** (`splitTextIntoLines`, present three times):
  - a title holding `" to "` is cut at its first `" to "` into two fixed lines;
  - any other title longer than 15 characters is wrapped greedily, word by word, after Kotlin's `split(" ")`, which keeps empty words;
  - lengths are Kotlin's `length`, in UTF-16 code units: a character outside the Basic Multilingual Plane counts twice.
- **Design A's circular text:**
  - how many copies of the title fit on a ring (`max(1, trunc(1.3·π·r / w))`);
  - the repeated text the StringBuilder loop builds;
  - the even spacing of the UTF-16 code units around the circle, one `drawTextOnPath` call each;
  - the eight ring radii and their paints.
- **Colours:**
  - ARGB colour ints with byte channels;
  - the luminance test `1 - (0.299R + 0.587G + 0.114B) / 255` against 0.5 in Double, proved equal to `299R + 587G + 114B` against 127500 except for the one colour, #DA3AF8, that sits exactly on 127500 and which Double rounding makes light;
  - the dominant-colour histogram over pixels with alpha at least 128;
  - the HSV value and hue adjustments;
  - the palette fallbacks;
  - the five gradient styles and the channel blend.
- **"Now playing" state machines:**
  - two `SpotifyViewModel`s, the background worker and the foreground service;
  - each poll tick takes the Spotify API response as input and requests a wallpaper only when the album-art URL differs from the last one seen;
  - each one updates that last URL by its own rule: only when a regeneration is requested, unconditionally (null included), or only after a successful wallpaper call;
  - login and logout, and design-tag dispatch ("A", "B", anything else).

Modelling choices:

- The Android HSV conversion is a parameter record `Hsv.HsvConversion`. A property that needs the conversion to reproduce a triple states that per triple (`Hsv.RoundTrips`).
- The androidx Palette is a record of seven `Option` swatches.
- `Paint.measureText` is a parameter.
- Network calls and the wallpaper manager are method parameters carrying their outcome, as an `Outcome` (`Ok` or `Failed(message)`).
- Shared preferences are a `map<string, string>`.
- Requested platform actions are appended to a ghost log.
- Each view-model class exposes a ghost `State()` snapshot. Its methods state the whole new state as an update of the old one.
- The companion object of `songper/viewmodel/SpotifyViewModel.kt` is a class of its own, `SonicoverSpotifyViewModel.Companion`, which every view model instance references, so the current track is shared between instances.

Files, one module each:

- `wrappers.dfy`, `int_arith.dfy`: shared helpers.
- `kotlin_text.dfy`: Kotlin's `split`, `joinToString`, `indexOf`, `contains`, `split(limit = 2)` and `length` in UTF-16 code units.
- `kotlin_numbers.dfy`: `toInt()` truncation and saturation, float `%`.
- `title_wrap.dfy`: the wrap algorithm and its properties.
- `sonicover_design_b.dfy`, `songper_design_c.dfy`, `songper_design_d.dfy`: the three copies of the wrap.
- `design_a.dfy`, `art_layout.dfy`: Design A and the art placement.
- `argb.dfy`, `hsv.dfy`, `palette.dfy`: colours, HSV and the palette record.
- `wallpaper_util.dfy`: `songper/Model/WallpaperUtil.kt`.
- `color_extractor.dfy`, `color_palette_manager.dfy`, `gradient_generator.dfy`: the colour code.
- `spotify_model.dfy`: the records of `Model/User.kt` and the shared response and action types.
- `sonicover_spotify_view_model.dfy`: `songper/viewmodel/SpotifyViewModel.kt`.
- `sonicover_main_view_model.dfy`: `songper/viewmodel/MainViewModel.kt`.
- `songper_main_view_model.dfy`: `songper/viewModel/MainViewModel.kt`.
- `songper_foreground_service.dfy`: `songper/viewModel/SpotifyForegroundService.kt`.

## Model

| member | source | states |
|---|---|---|
| TitleWrap.WrapTitle | app/src/main/java/com/example/sonicover/design/DesignB.kt:104-134 | The loop with its two early returns yields exactly `TitleLines(text)`. Past the early returns, that is the per-word step folded over `split(" ")`, with the last line kept only when non-empty. Both 15-character tests measure `length` in UTF-16 code units. |
| SonicoverDesignB.SplitTextIntoLines | app/src/main/java/com/example/sonicover/design/DesignB.kt:104-134 | Equals `TitleLines`. On the wrap path no line is empty, and a line over 15 UTF-16 code units has no space. The result is empty iff the title is longer than 15 characters and all spaces. |
| SongperDesignC.SplitTextIntoLines | app/src/main/java/com/example/songper/design/DesignC.kt:122-152 | The same function as in DesignB, with the same guarantees. |
| SongperDesignD.SplitTextIntoLines | app/src/main/java/com/example/songper/design/DesignD.kt:131-161 | The same function as in DesignB, with the same guarantees. |
| TitleWrap.ConnectorCut | app/src/main/java/com/example/sonicover/design/DesignB.kt:106-109 | A title containing " to " gives exactly two lines: the text before its FIRST " to " plus " need time to", then the text after it. This holds whatever the title's length. |
| TitleWrap.ShortTitleUnchanged | app/src/main/java/com/example/sonicover/design/DesignB.kt:112 | A title without " to " of at most 15 characters is returned as one unchanged line. |
| TitleWrap.LongLineIsOneWord | app/src/main/java/com/example/sonicover/design/DesignB.kt:118-127 | On the wrap path every line is within 15 characters or is a single word of the title (contains no space). |
| TitleWrap.WrappedLinesNonEmpty | app/src/main/java/com/example/sonicover/design/DesignB.kt:119-131 | On the wrap path no returned line is empty. |
| TitleWrap.LinesRebuildTitle | app/src/main/java/com/example/sonicover/design/DesignB.kt:114-133 | Without " to " and without empty words, joining the lines with single spaces gives back the title. |
| TitleWrap.WrapIsGreedy | app/src/main/java/com/example/sonicover/design/DesignB.kt:121-126 | With no empty words, each line plus " " plus the next line's first word exceeds 15 characters. |
| TitleWrap.EmptyResult | app/src/main/java/com/example/sonicover/design/DesignB.kt:112-133 | The result is the empty list iff the title is longer than 15 characters and consists solely of spaces. |
| KotlinText.Split | app/src/main/java/com/example/sonicover/design/DesignB.kt:114 | `split(" ")` gives at least one piece, and no piece contains the delimiter. |
| KotlinText.JoinSplit | app/src/main/java/com/example/sonicover/design/DesignB.kt:114 | Joining the pieces of a split with the delimiter gives back the text. |
| KotlinText.SplitJoin | app/src/main/java/com/example/sonicover/design/DesignB.kt:114 | Splitting delimiter-free pieces joined by the delimiter gives back the pieces. This is the inverse direction. |
| KotlinText.IndexOfFrom | app/src/main/java/com/example/sonicover/design/DesignB.kt:106 | Finds the first occurrence at or after `from`, or reports that there is none. |
| KotlinText.ContainsMeansOccurs | app/src/main/java/com/example/sonicover/design/DesignB.kt:106 | `contains` holds iff the pattern occurs at some index. |
| KotlinText.Utf16Append | app/src/main/java/com/example/sonicover/design/DesignB.kt:121 | The UTF-16 code units of a concatenation are those of the parts, in order. |
| KotlinText.LengthAppend | app/src/main/java/com/example/sonicover/design/DesignB.kt:121 | `(a + b).length` is `a.length + b.length`. |
| KotlinText.LengthOfBmp | app/src/main/java/com/example/sonicover/design/DesignB.kt:112 | `length` is at least the number of characters, and equals it, with each code unit being the character, when all characters are in the BMP. |
| KotlinText.SplitLimit2 | app/src/main/java/com/example/sonicover/design/DesignB.kt:107 | Gives two parts iff the pattern occurs, else one. Joining the parts with the pattern restores the text. The first part has no occurrence. |
| SongperDesignA.CalculateOptimalRepetitions | app/src/main/java/com/example/songper/Design/DesignA.kt:105-118 | The count is at least 1. Unless it is 1, that many copies of the width of title + "  " fit in 1.3·π·r. Unless it is Int.MAX_VALUE, one more copy does not fit. |
| SongperDesignA.RepetitionsIsFloor | app/src/main/java/com/example/songper/Design/DesignA.kt:107-117 | For a positive width, the count is max(1, ⌊1.3·π·r / w⌋) whenever that floor fits in an Int. |
| SongperDesignA.BuildRepeatedText | app/src/main/java/com/example/songper/Design/DesignA.kt:134-141 | The StringBuilder loop builds exactly `Repeated(text, repetitions)`. |
| SongperDesignA.DrawCircularText | app/src/main/java/com/example/songper/Design/DesignA.kt:120-165 | One glyph per UTF-16 code unit of `Repeated(text, repetitions)`: unit i is drawn at offset `CharOffset(r, len, i)`, where len is the `length` in code units. |
| SongperDesignA.RepeatedUnits | app/src/main/java/com/example/songper/Design/DesignA.kt:143-144 | In UTF-16 code units the repeated text is n·length(text) + n − 1 long. |
| SongperDesignA.BmpTitleOneGlyphPerCharacter | app/src/main/java/com/example/songper/Design/DesignA.kt:155-163 | When every character of the title is in the BMP, the code units are the characters, so there is one glyph per character. |
| SongperDesignA.RepeatedLength | app/src/main/java/com/example/songper/Design/DesignA.kt:135-144 | For n ≥ 1 the repeated text has length n·\|text\| + n − 1. |
| SongperDesignA.RepeatedAt | app/src/main/java/com/example/songper/Design/DesignA.kt:135-143 | Character i is a separating space when i mod (\|text\|+1) = \|text\|, otherwise `text[i mod (\|text\|+1)]`. There is no trailing separator. |
| SongperDesignA.RepeatedIsJoin | app/src/main/java/com/example/songper/Design/DesignA.kt:135-143 | The repeated text is n copies of the title joined by single spaces. |
| SongperDesignA.OffsetsSpreadOverOneTurn | app/src/main/java/com/example/songper/Design/DesignA.kt:147-163 | The first character is at −π·r. Neighbours are 2π·r / len apart. Every offset lies in [−π·r, π·r). |
| SongperDesignA.StartOffsetIsTop | app/src/main/java/com/example/songper/Design/DesignA.kt:153 | The start offset −90·r·π/90 equals −π·r. |
| SongperDesignA.CreateDesignARings | app/src/main/java/com/example/songper/Design/DesignA.kt:59-96 | There are exactly 8 rings, at baseRadius + 60, 150, …, 810, with strictly increasing radii. Only ring 0 uses the 50-pt paint. Text is black iff the palette is light. Each ring's count is `CalculateOptimalRepetitions` for its radius and paint, and is at least 1. |
| ArtLayout.FortyPercent | app/src/main/java/com/example/songper/Design/DesignA.kt:50 | `(w * 0.4).toInt()` is ⌊2w/5⌋ and lies within [0, w] (for w in Int range). |
| ArtLayout.Centered | app/src/main/java/com/example/songper/Design/DesignA.kt:51-52 | The square's centre is the screen's centre. A side within the screen puts the square entirely on screen. |
| ArtLayout.HalfShorterSide | app/src/main/java/com/example/songper/Model/WallpaperUtil.kt:58 | `minOf(w, h) / 2` is half of one side, and at most half of either side. |
| KotlinNumbers.Trunc | app/src/main/java/com/example/songper/Design/DesignA.kt:113 | Rounds toward zero: the result is within one of x, on x's side of zero. |
| KotlinNumbers.ToInt | app/src/main/java/com/example/songper/Design/DesignA.kt:113 | The result lies in the Int range, and equals the truncation whenever that is in range (saturation otherwise). |
| KotlinNumbers.Rem360 | app/src/main/java/com/example/songper/Model/WallpaperUtil.kt:78 | Float `% 360` lies in [0, 360) for non-negative x and in (−360, 0] for negative x. |
| Argb.FromRgb | app/src/main/java/com/example/sonicover/universalfunctions/GradientGenerator.kt:140 | `Color.rgb` is opaque, and reading back the channels gives r, g and b. |
| Argb.Hex | app/src/main/java/com/example/sonicover/universalfunctions/ColorPalleteManager.kt:31-47 | `"#RRGGBB".toColorInt()` is opaque and has the given RGB bits. |
| Argb.TextColorOn | app/src/main/java/com/example/songper/Design/DesignA.kt:61 | Black iff light, white iff not light. |
| Argb.IsColorLightInIntegers | app/src/main/java/com/example/songper/colorextractor/ColorExtractor.kt:63-66 | `isColorLight` iff 299R + 587G + 114B > 127500, or the colour is #DA3AF8 (`IsDoubleTie`), which lies on 127500 with exact darkness 0.5 but Double darkness 0.4999999999999999. |
| Argb.BlackIsDarkWhiteIsLight | app/src/main/java/com/example/songper/colorextractor/ColorExtractor.kt:63-66 | Black is not light; white is light. |
| SongperWallpaperUtil.IsDarkColorInIntegers | app/src/main/java/com/example/songper/Model/WallpaperUtil.kt:84-89 | `isDarkColor` iff 299R + 587G + 114B ≤ 127500 and the colour is not #DA3AF8, i.e. exactly when `isColorLight` does not hold. Black is dark; white is not. |
| Hsv.MidShade | app/src/main/java/com/example/songper/colorextractor/ColorExtractor.kt:48 | Hue and saturation are kept. The value only shrinks, and an in-range triple stays in range. |
| Hsv.DarkShade | app/src/main/java/com/example/songper/colorextractor/ColorExtractor.kt:58 | Hue and saturation are kept. The value only shrinks, and an in-range triple stays in range. |
| Hsv.Lightened | app/src/main/java/com/example/sonicover/universalfunctions/GradientGenerator.kt:124 | Hue and saturation are kept. The value is at most 1, and at least the old value when that was in [0, 1]. |
| Hsv.Complemented | app/src/main/java/com/example/songper/Model/WallpaperUtil.kt:78 | Saturation and value are kept. The hue is in [0, 360) whenever the old hue is at least −180. |
| Hsv.ComplementIsOpposite | app/src/main/java/com/example/sonicover/universalfunctions/GradientGenerator.kt:131 | For a hue in [0, 360) the new hue is h + 180 below 180 and h − 180 otherwise. |
| Hsv.ComplementTwice | app/src/main/java/com/example/songper/Model/WallpaperUtil.kt:78 | Shifting an in-range hue by 180° twice gives back the original triple. |
| Hsv.ShadesOrdered | app/src/main/java/com/example/songper/colorextractor/ColorExtractor.kt:43-61 | The mid and dark shades keep hue and saturation, and darker.v ≤ mid.v ≤ v. |
| Hsv.CreateMidColor | app/src/main/java/com/example/songper/colorextractor/ColorExtractor.kt:43-51 | Same hue and saturation, value × 0.8 (for a conversion that reproduces the shade). |
| Hsv.CreateDarkerColor | app/src/main/java/com/example/songper/colorextractor/ColorExtractor.kt:53-61 | Same hue and saturation, value × 0.5 (for a conversion that reproduces the shade). |
| Hsv.CreateLighterColor | app/src/main/java/com/example/sonicover/universalfunctions/GradientGenerator.kt:121-126 | Same hue and saturation. The value is 1 or v × 1.3, never above 1, and never below v. |
| Hsv.GetComplementaryColor | app/src/main/java/com/example/songper/Model/WallpaperUtil.kt:75-80 | Same saturation and value. An in-range hue moves by exactly half a turn and stays in [0, 360). |
| SongperWallpaperUtil.CountedInRowMembers | app/src/main/java/com/example/songper/Model/WallpaperUtil.kt:21-23 | A row contributes exactly its pixels with alpha ≥ 128. |
| SongperWallpaperUtil.OpaquePixelsMembers | app/src/main/java/com/example/songper/Model/WallpaperUtil.kt:20-28 | A colour is counted iff its alpha is ≥ 128 and it occurs in some row. |
| SongperWallpaperUtil.HistogramCounts | app/src/main/java/com/example/songper/Model/WallpaperUtil.kt:26 | The map's keys are exactly the colours that occur, each with its number of occurrences. |
| SongperWallpaperUtil.CountColors | app/src/main/java/com/example/songper/Model/WallpaperUtil.kt:20-28 | The nested loops build exactly the histogram of the pixels with alpha ≥ 128, in scan order. |
| SongperWallpaperUtil.MostFrequent | app/src/main/java/com/example/songper/Model/WallpaperUtil.kt:33 | `maxByOrNull` gives nothing iff the map is empty. Otherwise it gives a key whose count no other key exceeds. |
| SongperWallpaperUtil.GetDominantColor | app/src/main/java/com/example/songper/Model/WallpaperUtil.kt:14-34 | With no pixel of alpha ≥ 128 the result is BLACK. Otherwise it is such a pixel's colour, occurring at least as often as any other. |
| SongperWallpaperUtil.TransparentNeverCounted | app/src/main/java/com/example/songper/Model/WallpaperUtil.kt:23 | A colour with alpha < 128 never gets a count. |
| SongperWallpaperUtil.CustomArtPlacement | app/src/main/java/com/example/songper/Model/WallpaperUtil.kt:58-63 | The art side is half the shorter screen side. The square is centred and lies entirely on screen. |
| SongperColorExtractor.BaseColor | app/src/main/java/com/example/songper/colorextractor/ColorExtractor.kt:24-26 | The dark-vibrant swatch if present, else the dominant swatch, else BLACK. |
| SongperColorExtractor.ExtractColors | app/src/main/java/com/example/songper/colorextractor/ColorExtractor.kt:20-38 | The start colour is the base colour. `isLight` holds iff the base colour's 299R + 587G + 114B exceeds 127500 or the base colour is #DA3AF8. |
| SongperColorExtractor.GradientDarkens | app/src/main/java/com/example/songper/colorextractor/ColorExtractor.kt:28-35 | Mid and end keep the start's hue and saturation, and end.v ≤ mid.v ≤ start.v. |
| SongperColorExtractor.NoSwatchesIsBlack | app/src/main/java/com/example/songper/colorextractor/ColorExtractor.kt:24-36 | With no swatches, start is BLACK and `isLight` is false. Mid and end are BLACK too when the conversion maps black to value 0 and back. |
| SonicoverColorPaletteManager.ExtractColorsFromImage | app/src/main/java/com/example/sonicover/universalfunctions/ColorPalleteManager.kt:51-74 | Each present swatch is used as is. `isLight` holds iff the dominant colour's 299R + 587G + 114B exceeds 127500 or the dominant colour is #DA3AF8. |
| SonicoverColorPaletteManager.MissingSwatchesFallBack | app/src/main/java/com/example/sonicover/universalfunctions/ColorPalleteManager.kt:30-60 | Each missing swatch takes its default. Only `lightVibrant` and `lightMuted` come from the light table, and the two tables differ on `lightMuted`. |
| SonicoverColorPaletteManager.LightnessFollowsDominant | app/src/main/java/com/example/sonicover/universalfunctions/ColorPalleteManager.kt:62 | Palettes with the same dominant swatch agree on `isLight`. |
| SonicoverColorPaletteManager.NoDominantIsDark | app/src/main/java/com/example/sonicover/universalfunctions/ColorPalleteManager.kt:54-62 | With no dominant swatch the dominant colour is #2C2C2C, the palette is not light, the text is white and the background is dark-muted. |
| SonicoverColorPaletteManager.ScreenColors | app/src/main/java/com/example/sonicover/universalfunctions/ColorPalleteManager.kt:20-23 | On an extracted palette the primary colour is the dominant swatch or #2C2C2C, and the accent is the vibrant swatch or #FF6B35. The text is black iff the primary colour is light. The background is light-muted (default #F0F0F0) iff light, otherwise dark-muted (default #4A4A4A). |
| SonicoverColorPaletteManager.AppColorPalette.PrimaryColor | app/src/main/java/com/example/sonicover/universalfunctions/ColorPalleteManager.kt:20 | The primary colour is the dominant colour. |
| SonicoverColorPaletteManager.AppColorPalette.AccentColor | app/src/main/java/com/example/sonicover/universalfunctions/ColorPalleteManager.kt:21 | The accent colour is the vibrant colour. |
| SonicoverColorPaletteManager.AppColorPalette.BackgroundColor | app/src/main/java/com/example/sonicover/universalfunctions/ColorPalleteManager.kt:22 | Light-muted when light, dark-muted otherwise. |
| SonicoverColorPaletteManager.AppColorPalette.TextColor | app/src/main/java/com/example/sonicover/universalfunctions/ColorPalleteManager.kt:23 | Black iff light, white iff not. |
| SonicoverGradientGenerator.Stops | app/src/main/java/com/example/sonicover/universalfunctions/GradientGenerator.kt:7-14 | With `colors` defaulted, `toIntArray()` is [start, mid, end]. |
| SonicoverGradientGenerator.CreateGradientFromPalette | app/src/main/java/com/example/sonicover/universalfunctions/GradientGenerator.kt:30-41 | Each of the five styles goes to its own builder, on dominant, the palette or vibrant as the source does. The array is always the three stops. |
| SonicoverGradientGenerator.DefaultStyleIsDarkGradient | app/src/main/java/com/example/sonicover/universalfunctions/GradientGenerator.kt:30-35 | Without a style argument the gradient is the dark gradient of the dominant colour. |
| SonicoverGradientGenerator.CreateDarkGradient | app/src/main/java/com/example/sonicover/universalfunctions/GradientGenerator.kt:44-53 | Start is the base. Mid and end keep hue and saturation with value × 0.8 and × 0.5, so end.v ≤ mid.v ≤ base.v. |
| SonicoverGradientGenerator.CreateVibrantToMutedGradient | app/src/main/java/com/example/sonicover/universalfunctions/GradientGenerator.kt:55-61 | The stops are (vibrant, muted, darkMuted). |
| SonicoverGradientGenerator.CreateLightToDarkGradient | app/src/main/java/com/example/sonicover/universalfunctions/GradientGenerator.kt:63-69 | The stops are (lightVibrant, vibrant, darkVibrant). |
| SonicoverGradientGenerator.CreateMonochromaticGradient | app/src/main/java/com/example/sonicover/universalfunctions/GradientGenerator.kt:71-80 | Mid is the base. Start and end keep hue and saturation, with end.v ≤ base.v ≤ start.v ≤ 1. |
| SonicoverGradientGenerator.CreateComplementaryGradient | app/src/main/java/com/example/sonicover/universalfunctions/GradientGenerator.kt:82-91 | Start is the base and mid is the even blend of start and end. The end's hue is the opposite of the base's, in [0, 360), with saturation and value kept. |
| SonicoverGradientGenerator.BlendChannel | app/src/main/java/com/example/sonicover/universalfunctions/GradientGenerator.kt:137 | For a ratio in [0, 1] the blended channel lies between the two inputs. |
| SonicoverGradientGenerator.BlendColors | app/src/main/java/com/example/sonicover/universalfunctions/GradientGenerator.kt:135-141 | The result is opaque, and each channel lies between the inputs' channels. |
| SonicoverGradientGenerator.EvenBlend | app/src/main/java/com/example/sonicover/universalfunctions/GradientGenerator.kt:135-141 | At ratio 0.5 each channel is (c1 + c2) div 2 exactly, and the blend is symmetric. |
| SonicoverGradientGenerator.EvenChannel | app/src/main/java/com/example/sonicover/universalfunctions/GradientGenerator.kt:137 | One channel at ratio 0.5 is the rounded-down mean, in either order. |
| SpotifyModel.GetString | app/src/main/java/com/example/songper/viewModel/SpotifyForegroundService.kt:52 | `getString(key, null)` is non-null iff the key is stored, and then it is the stored value. |
| SpotifyModel.FirstImageUrl | app/src/main/java/com/example/songper/viewmodel/SpotifyViewModel.kt:92 | `images.firstOrNull()?.url` is null iff there is no image. Otherwise it is the first image's URL. |
| SpotifyModel.ShownName | app/src/main/java/com/example/songper/viewmodel/SpotifyViewModel.kt:191 | The display name if there is one, else the user id. |
| SpotifyModel.ArtistNames | app/src/main/java/com/example/songper/viewModel/MainViewModel.kt:184 | The artists' names, one per artist, in order. |
| SonicoverSpotifyViewModel.SongName | app/src/main/java/com/example/songper/viewmodel/SpotifyViewModel.kt:73 | The current track's name, or "Unknown Song" when there is no track. |
| SonicoverSpotifyViewModel.Companion.constructor | app/src/main/java/com/example/songper/viewmodel/SpotifyViewModel.kt:48-53 | The companion object starts with no current track. |
| SonicoverSpotifyViewModel.SpotifyViewModel.constructor | app/src/main/java/com/example/songper/viewmodel/SpotifyViewModel.kt:28-55 | Logged out, everything null, polling interval 100, and the device's stored preferences. The track is whatever the shared companion object holds; creating a view model does not reset it. |
| SonicoverSpotifyViewModel.SpotifyViewModel.Initialize | app/src/main/java/com/example/songper/viewmodel/SpotifyViewModel.kt:112-114 | Only the context becomes available. |
| SonicoverSpotifyViewModel.SpotifyViewModel.UpdateWallpaperWithCurrentTrack | app/src/main/java/com/example/songper/viewmodel/SpotifyViewModel.kt:68-81 | Requests a wallpaper of the selected design, titled with `SongName`, iff there is an album-art URL and a context. No field changes. |
| SonicoverSpotifyViewModel.SpotifyViewModel.UpdateWallpaperDesign | app/src/main/java/com/example/songper/viewmodel/SpotifyViewModel.kt:57-66 | Stores the tag as `selectedDesign`, and under "selected_design" when there is a context. Then it requests regeneration in the new design under the same condition. |
| SonicoverSpotifyViewModel.SpotifyViewModel.StartPollingCurrentTrack | app/src/main/java/com/example/songper/viewmodel/SpotifyViewModel.kt:83-85 | The previous job is cancelled and one new job runs. |
| SonicoverSpotifyViewModel.SpotifyViewModel.PollTick | app/src/main/java/com/example/songper/viewmodel/SpotifyViewModel.kt:86-107 | No token, or no item: no state change. A failed call sets only "Failed to fetch current track: …". With an item, the shared `currentlyPlaying` and `albumArtUrl` are set. A regeneration is requested, and the last URL moved, iff there is a context and a non-null URL ≠ the last one. |
| SonicoverSpotifyViewModel.SpotifyViewModel.PollLoop | app/src/main/java/com/example/songper/viewmodel/SpotifyViewModel.kt:85-109 | Over any sequence of responses, no two consecutive regeneration requests share a URL. The first request differs from the last URL seen before the loop, and the last URL seen ends as the last one requested. |
| SonicoverSpotifyViewModel.SpotifyViewModel.SetPollingInterval | app/src/main/java/com/example/songper/viewmodel/SpotifyViewModel.kt:116-122 | Stores the interval, and restarts polling iff logged in. |
| SonicoverSpotifyViewModel.SpotifyViewModel.FetchUserData | app/src/main/java/com/example/songper/viewmodel/SpotifyViewModel.kt:187-198 | Keeps the token. A profile sets the shown name, logs in and starts polling. A failure sets "Failed to fetch user data: …" and logs out. |
| SonicoverSpotifyViewModel.SpotifyViewModel.HandleLoginResult | app/src/main/java/com/example/songper/viewmodel/SpotifyViewModel.kt:144-170 | A token is stored under "access_token" and becomes the access token, and the foreground service is started. With a profile: logged in, the name shown, one new polling job. Without one: logged out, "Failed to fetch user data: …", name and polling unchanged. A start failure overrides the error with "Login failed: …". Nothing else changes. An error response gives "Login failed: …" and anything else "Login canceled", with nothing else changed. |
| SonicoverSpotifyViewModel.SpotifyViewModel.UpdateWallpaper | app/src/main/java/com/example/songper/viewmodel/SpotifyViewModel.kt:201-214 | One wallpaper request. Success clears the error and failure records it. `isSettingWallpaper` is false afterwards. |
| SonicoverSpotifyViewModel.SpotifyViewModel.OnLogout | app/src/main/java/com/example/songper/viewmodel/SpotifyViewModel.kt:216-233 | Polling stops. Token, login, name, track, URL and last URL are reset. With a context, the service is stopped and the preferences cleared. |
| SonicoverMainViewModel.ChooseRenderer | app/src/main/java/com/example/songper/viewmodel/MainViewModel.kt:46-72 | Design A iff the tag is "A", design B iff "B", and the default renderer for every other tag or none. The title is the song name or "Unknown Song". |
| SonicoverMainViewModel.SetCustomWallpaperFromUrl | app/src/main/java/com/example/songper/viewmodel/MainViewModel.kt:35-87 | The call fails iff an exception occurred, carrying its message. Otherwise it succeeds with the chosen renderer. |
| SonicoverMainViewModel.DefaultArtPlacement | app/src/main/java/com/example/songper/viewmodel/MainViewModel.kt:120-122 | The side is ⌊2w/5⌋, centred. It lies within the width, and within the height when the screen is that tall. |
| SonicoverMainViewModel.CreateCircularMask | app/src/main/java/com/example/songper/viewmodel/MainViewModel.kt:135-156 | The output keeps the source size. The circle is centred with radius half the shorter side, inside the bitmap. |
| SonicoverMainViewModel.SpotifyBackgroundWorker.constructor | app/src/main/java/com/example/songper/viewmodel/MainViewModel.kt:205-210 | The worker reads the device's stored preferences. |
| SonicoverMainViewModel.SpotifyBackgroundWorker.DoWork | app/src/main/java/com/example/songper/viewmodel/MainViewModel.kt:212-239 | No token or a failed call gives failure, with nothing changed. Otherwise the result is success. A new non-null URL (≠ the stored last URL) is rendered in the stored design ("default" when none). It is stored only when setting the wallpaper succeeded. |
| SongperMainViewModel.RequiredPermissions | app/src/main/java/com/example/songper/viewModel/MainViewModel.kt:35-46 | From SDK 28 (P) on: [SET_WALLPAPER, READ_EXTERNAL_STORAGE, WRITE_EXTERNAL_STORAGE]. Before that, READ_EXTERNAL_STORAGE is not asked for. |
| SongperMainViewModel.AllGranted | app/src/main/java/com/example/songper/viewModel/MainViewModel.kt:49-51 | `all` holds iff every element satisfies the test. |
| SongperMainViewModel.AnyNeedsRationale | app/src/main/java/com/example/songper/viewModel/MainViewModel.kt:55-57 | `any` holds iff some element satisfies the test. |
| SongperMainViewModel.HasPermissions | app/src/main/java/com/example/songper/viewModel/MainViewModel.kt:48-52 | Holds iff every required permission is granted. |
| SongperMainViewModel.ShouldShowRationale | app/src/main/java/com/example/songper/viewModel/MainViewModel.kt:54-58 | Holds iff some required permission needs a rationale. |
| SongperMainViewModel.NowPlayingText | app/src/main/java/com/example/songper/viewModel/MainViewModel.kt:184 | "<name> by <artist>" for one artist, and "<name> by " for none. |
| SongperMainViewModel.SpotifyViewModel.constructor | app/src/main/java/com/example/songper/viewModel/MainViewModel.kt:121-137 | Logged out, not busy, everything null. |
| SongperMainViewModel.SpotifyViewModel.Initialize | app/src/main/java/com/example/songper/viewModel/MainViewModel.kt:139-141 | Only the context becomes available. |
| SongperMainViewModel.SpotifyViewModel.StartPollingCurrentTrack | app/src/main/java/com/example/songper/viewModel/MainViewModel.kt:176-178 | The previous job is cancelled and one new job runs. |
| SongperMainViewModel.SpotifyViewModel.UpdateWallpaper | app/src/main/java/com/example/songper/viewModel/MainViewModel.kt:206-219 | Sets the album art as the wallpaper. Success clears the error and failure gives "Failed to set wallpaper: …". The busy flag is false afterwards. |
| SongperMainViewModel.SpotifyViewModel.PollTick | app/src/main/java/com/example/songper/viewModel/MainViewModel.kt:179-201 | No token or no item: no change. A failure sets the fetch error. With an item, the text becomes "<name> by <artists>" and the URL the first image's. When the URL differs from the last one, the wallpaper is set only with a URL and a context, but the last URL becomes the new one (null included) in every case. |
| SongperMainViewModel.SpotifyViewModel.FetchUserData | app/src/main/java/com/example/songper/viewModel/MainViewModel.kt:163-174 | Keeps the token. A profile logs in and starts polling. A failure sets "Failed to fetch user data: …" and leaves the user logged out. |
| SongperMainViewModel.SpotifyViewModel.HandleLoginResult | app/src/main/java/com/example/songper/viewModel/MainViewModel.kt:143-161 | A token fetches the profile. An error gives "Login failed: …" and anything else "Login canceled". |
| SongperMainViewModel.SpotifyViewModel.OnLogout | app/src/main/java/com/example/songper/viewModel/MainViewModel.kt:221-229 | Polling stops. Token, login flag, name, track text, URL and last URL are reset. Nothing is requested. |
| SongperForegroundService.SpotifyForegroundService.constructor | app/src/main/java/com/example/songper/viewModel/SpotifyForegroundService.kt:15-19 | A running service with no polling job, over the stored preferences. |
| SongperForegroundService.SpotifyForegroundService.OnStartCommand | app/src/main/java/com/example/songper/viewModel/SpotifyForegroundService.kt:38-44 | START_SERVICE starts polling and STOP_SERVICE stops it. Anything else, or no action, changes nothing. The answer is always START_STICKY. |
| SongperForegroundService.SpotifyForegroundService.StartPolling | app/src/main/java/com/example/songper/viewModel/SpotifyForegroundService.kt:46-48 | Cancels the old job before launching one new job. |
| SongperForegroundService.SpotifyForegroundService.StopPolling | app/src/main/java/com/example/songper/viewModel/SpotifyForegroundService.kt:78-82 | The job is cancelled and the service stops. |
| SongperForegroundService.SpotifyForegroundService.PollTick | app/src/main/java/com/example/songper/viewModel/SpotifyForegroundService.kt:50-72 | No stored token, or a failed call: nothing changes. A non-null first-image URL ≠ the stored last URL is requested, and stored only when the request succeeded. |
| SongperForegroundService.SpotifyForegroundService.PollLoop | app/src/main/java/com/example/songper/viewModel/SpotifyForegroundService.kt:46-76 | The log only grows. When every wallpaper call succeeds, no two consecutive requests share a URL, the first differs from the stored URL, and the stored URL ends as the last one requested. |

## Left out

- Everything drawn on the canvas is left out: gradients, shaders, `drawTextOnPath`, circle masking, blur and the other designs' tessellation. Design A's brightening of the dominant colour by +50 per channel is also left out. The model stops at the numbers handed to these calls.
- Floating point. Geometry and HSV arithmetic are over exact reals; the luminance test's Double rounding is modelled through its one effect, the colour #DA3AF8 (`Argb.IsDoubleTie`). Float rounding of `1.3 * PI * r`, of `2 * PI * r / len` and of the HSV factors is not modelled; `Math.PI.toFloat()` is its exact float value.
- Android's `Color.colorToHSV` / `HSVToColor` are a parameter, not a bit-exact conversion. Their rounding through 8-bit channels is why the HSV properties assume `RoundTrips`. The androidx Palette quantiser is left out; its result is a record of optional swatches. `Bitmap.createScaledBitmap` (the 24×24 downscale before counting) is left out; the histogram works on the given pixel rows.
- `Paint.measureText` is a parameter.
- SongperDesignA.CalculateOptimalRepetitions: requires a positive measured width. A zero width, which would divide by zero in float, is not modelled.
- Network and platform calls are inputs to the methods: the Spotify API, URL downloads, `WallpaperManager.setBitmap`, the authorization SDK, notification channels, WorkManager scheduling (`startBackgroundWork`), and the service's `onCreate`/`onDestroy`/`onBind`. Their outcomes are `Outcome` values.
- Coroutines. A launched coroutine is modelled as running to completion where it is launched, and `delay` is left out. A polling loop is a sequence of ticks, one response per tick; cancellation is the `polling` flag and a job counter. `onCleared` only cancels the job and is not modelled.
- SonicoverSpotifyViewModel.SpotifyViewModel.UpdateWallpaperWithCurrentTrack: the catch block is not modelled. `setCustomWallpaperFromUrl` catches every exception itself and returns a result, which this caller ignores, so the catch never runs.
- The `nowPlaying` field of `songper/viewmodel/SpotifyViewModel.kt` is never written and is not modelled.
- SonicoverGradientGenerator.BlendChannel: requires the ratio in [0, 1]. The only caller passes 0.5; other ratios would let `toInt()` leave the byte range.
- SonicoverGradientGenerator.BlendColors: requires the ratio in [0, 1], for the same reason.
- SonicoverMainViewModel.DefaultArtPlacement: requires the screen width to be within the Int range, so that `(w * 0.4).toInt()` does not saturate.
- SongperForegroundService.SpotifyForegroundService.PollLoop: the no-repeat property is stated only when every wallpaper call succeeds. After a failure the same URL is requested again by design, because the stored URL is not updated.
- SongperMainViewModel.NowPlayingText: the text is stated for tracks with no artist or one artist. With several artists it is the names joined by ", ", as `Join` defines.
- `createGradientDrawable` and the `getStartColor`/`getMidColor`/`getEndColor` accessors of `GradientColors` are left out: rendering and plain field reads.
- `setWallpaperFromUrl` of `songper/viewModel/MainViewModel.kt` (download to a cache file, then set) is the `result` parameter of `UpdateWallpaper`.
- Logging (`Log.d`, `Log.e`) is left out.
