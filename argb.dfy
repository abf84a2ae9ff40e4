/**
 * Android colour ints: 0xAARRGGBB, one byte per channel. The model reads
 * them as unsigned 32-bit values (Kotlin stores them in a signed Int, so
 * opaque colours are negative there; only the bit pattern matters).
 */
module Argb {
  import opened IntArith

  type Byte = x: int | 0 <= x < 0x100
  type Color = x: int | 0 <= x < 0x1_0000_0000

  function Alpha(c: Color): Byte { c / 0x100_0000 }
  function Red(c: Color): Byte { (c / 0x1_0000) % 0x100 }
  function Green(c: Color): Byte { (c / 0x100) % 0x100 }
  function Blue(c: Color): Byte { c % 0x100 }

  /** `Color.argb(a, r, g, b)` for in-range channels. */
  function FromArgb(a: Byte, r: Byte, g: Byte, b: Byte): (c: Color)
    ensures Alpha(c) == a && Red(c) == r && Green(c) == g && Blue(c) == b
  {
    var c := a * 0x100_0000 + r * 0x1_0000 + g * 0x100 + b;
    ChannelsOf(a, r, g, b, c);
    c
  }

  lemma ChannelsOf(a: Byte, r: Byte, g: Byte, b: Byte, c: int)
    requires c == a * 0x100_0000 + r * 0x1_0000 + g * 0x100 + b
    ensures 0 <= c < 0x1_0000_0000
    ensures c / 0x100_0000 == a
    ensures (c / 0x1_0000) % 0x100 == r
    ensures (c / 0x100) % 0x100 == g
    ensures c % 0x100 == b
  {
    DivModOfSum(a, r * 0x1_0000 + g * 0x100 + b, 0x100_0000);
    DivModOfSum(a * 0x100 + r, g * 0x100 + b, 0x1_0000);
    DivModOfSum(a, r, 0x100);
    DivModOfSum(a * 0x1_0000 + r * 0x100 + g, b, 0x100);
    DivModOfSum(a * 0x100 + r, g, 0x100);
    DivModOfSum(c / 0x100, b, 0x100);
  }

  /** `Color.rgb(r, g, b)`: fully opaque. */
  function FromRgb(r: Byte, g: Byte, b: Byte): (c: Color)
    ensures Alpha(c) == 0xFF && Red(c) == r && Green(c) == g && Blue(c) == b
  {
    FromArgb(0xFF, r, g, b)
  }

  const Black: Color := 0xFF00_0000
  const White: Color := 0xFFFF_FFFF

  /** `"#RRGGBB".toColorInt()`: a six-digit hex colour is fully opaque. */
  function Hex(rgb: int): (c: Color)
    requires 0 <= rgb < 0x100_0000
    ensures Alpha(c) == 0xFF && c % 0x100_0000 == rgb
  {
    0xFF00_0000 + rgb
  }

  /** Text colour chosen against a background: black on light, white on dark. */
  function TextColorOn(isLight: bool): (c: Color)
    ensures c == Black <==> isLight
    ensures c == White <==> !isLight
  {
    if isLight then Black else White
  }

  /** 1000 times the perceived luminance 0.299R + 0.587G + 0.114B, as an integer. */
  function Luma1000(c: Color): int
  {
    299 * Red(c) + 587 * Green(c) + 114 * Blue(c)
  }

  /** `1 - (0.299R + 0.587G + 0.114B) / 255`, the darkness both palette helpers compute, in exact arithmetic. */
  function Darkness(c: Color): real
  {
    1.0 - (0.299 * Red(c) as real + 0.587 * Green(c) as real + 0.114 * Blue(c) as real) / 255.0
  }

  /**
   * The one colour on which the Double computation of the darkness falls on
   * the other side of one half: for #DA3AF8 the exact darkness is 0.5
   * (299R + 587G + 114B is exactly 127500), but IEEE-754 double arithmetic,
   * evaluated left to right as written, rounds it to 0.4999999999999999.
   * For every other red, green and blue the rounded value and the exact
   * value compare alike with 0.5.
   */
  predicate IsDoubleTie(c: Color)
  {
    Red(c) == 0xDA && Green(c) == 0x3A && Blue(c) == 0xF8
  }

  /** `isColorLight`: the darkness, computed in Double, is below one half. */
  predicate IsColorLight(c: Color)
  {
    Darkness(c) < 0.5 || IsDoubleTie(c)
  }

  /**
   * In integers: light exactly when 299R + 587G + 114B exceeds 127500, or
   * for the one colour that sits on 127500 and rounds to light.
   */
  lemma IsColorLightInIntegers(c: Color)
    ensures IsColorLight(c) <==> Luma1000(c) > 127500 || IsDoubleTie(c)
    ensures IsDoubleTie(c) ==> Luma1000(c) == 127500 && Darkness(c) == 0.5
  {
    var l := 0.299 * Red(c) as real + 0.587 * Green(c) as real + 0.114 * Blue(c) as real;
    assert l * 1000.0 == Luma1000(c) as real;
  }

  lemma BlackIsDarkWhiteIsLight()
    ensures !IsColorLight(Black) && IsColorLight(White)
  {
    IsColorLightInIntegers(Black);
    IsColorLightInIntegers(White);
  }
}
