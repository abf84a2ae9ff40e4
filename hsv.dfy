/**
 * HSV colour adjustments. Android's `Color.colorToHSV` and
 * `Color.HSVToColor` are not modelled bit for bit: a conversion pair is a
 * parameter, and each helper reads a colour's HSV triple, changes one
 * component and converts back.
 */
module Hsv {
  import opened Argb
  import opened KotlinNumbers

  /** Hue in degrees, saturation and value in [0, 1]. */
  datatype Hsv = Hsv(h: real, s: real, v: real)

  /** `Color.colorToHSV` and `Color.HSVToColor`. */
  datatype HsvConversion = HsvConversion(toHsv: Color -> Hsv, fromHsv: Hsv -> Color)

  /** The ranges `colorToHSV` produces. */
  predicate InRange(c: Hsv)
  {
    0.0 <= c.h < 360.0 && 0.0 <= c.s <= 1.0 && 0.0 <= c.v <= 1.0
  }

  const MidDarknessFactor := 0.8
  const DarkerFactor := 0.5
  const LighterFactor := 1.3

  /** `hsv[2] *= MID_DARKNESS_FACTOR`: a slightly darker shade of the same hue. */
  function MidShade(c: Hsv): (r: Hsv)
    ensures r.h == c.h && r.s == c.s
    ensures InRange(c) ==> InRange(r) && r.v <= c.v
  {
    c.(v := c.v * MidDarknessFactor)
  }

  /** `hsv[2] *= DARKER_FACTOR`: a much darker shade of the same hue. */
  function DarkShade(c: Hsv): (r: Hsv)
    ensures r.h == c.h && r.s == c.s
    ensures InRange(c) ==> InRange(r) && r.v <= c.v
  {
    c.(v := c.v * DarkerFactor)
  }

  /** `hsv[2] = (hsv[2] * 1.3f).coerceAtMost(1.0f)`: brighter, but never past 1. */
  function Lightened(c: Hsv): (r: Hsv)
    ensures r.h == c.h && r.s == c.s
    ensures r.v <= 1.0
    ensures 0.0 <= c.v <= 1.0 ==> c.v <= r.v
    ensures InRange(c) ==> InRange(r)
  {
    c.(v := MinReal(c.v * LighterFactor, 1.0))
  }

  /** `hsv[0] = (hsv[0] + 180) % 360`: the opposite hue. */
  function Complemented(c: Hsv): (r: Hsv)
    ensures r.s == c.s && r.v == c.v
    ensures c.h >= -180.0 ==> 0.0 <= r.h < 360.0
    ensures InRange(c) ==> InRange(r)
  {
    c.(h := Rem360(c.h + 180.0))
  }

  /** Shifting the hue twice by 180 degrees gives back the colour. */
  lemma ComplementTwice(c: Hsv)
    requires 0.0 <= c.h < 360.0
    ensures Complemented(Complemented(c)) == c
  {
    var once := Rem360(c.h + 180.0);
    ComplementIsOpposite(c);
    assert Rem360(once + 180.0) == c.h by {
      assert Trunc((once + 180.0) / 360.0) == (if c.h < 180.0 then 1 else 0);
    }
  }

  /**
   * The conversion reproduces the triple `h` exactly: converting it to a
   * colour and back gives `h` again. Android's conversion rounds through
   * 8-bit channels, so this is stated per triple, where a property needs it.
   */
  predicate RoundTrips(conv: HsvConversion, h: Hsv)
  {
    conv.toHsv(conv.fromHsv(h)) == h
  }

  /** `createMidColor`: the same hue and saturation, value times 0.8. */
  function CreateMidColor(conv: HsvConversion, c: Color): (r: Color)
    ensures var h := conv.toHsv(c);
            RoundTrips(conv, MidShade(h)) ==>
              conv.toHsv(r).h == h.h && conv.toHsv(r).s == h.s && conv.toHsv(r).v == h.v * 0.8
  {
    conv.fromHsv(MidShade(conv.toHsv(c)))
  }

  /** `createDarkerColor`: the same hue and saturation, value times 0.5. */
  function CreateDarkerColor(conv: HsvConversion, c: Color): (r: Color)
    ensures var h := conv.toHsv(c);
            RoundTrips(conv, DarkShade(h)) ==>
              conv.toHsv(r).h == h.h && conv.toHsv(r).s == h.s && conv.toHsv(r).v == h.v * 0.5
  {
    conv.fromHsv(DarkShade(conv.toHsv(c)))
  }

  /** `createLighterColor`: the same hue and saturation, value times 1.3 but at most 1. */
  function CreateLighterColor(conv: HsvConversion, c: Color): (r: Color)
    ensures var h := conv.toHsv(c);
            RoundTrips(conv, Lightened(h)) ==>
              && conv.toHsv(r).h == h.h && conv.toHsv(r).s == h.s
              && conv.toHsv(r).v <= 1.0
              && (conv.toHsv(r).v == 1.0 || conv.toHsv(r).v == h.v * 1.3)
              && (0.0 <= h.v <= 1.0 ==> h.v <= conv.toHsv(r).v)
  {
    conv.fromHsv(Lightened(conv.toHsv(c)))
  }

  /** `getComplementaryColor`: the opposite hue, saturation and value kept. */
  function GetComplementaryColor(conv: HsvConversion, c: Color): (r: Color)
    ensures var h := conv.toHsv(c);
            RoundTrips(conv, Complemented(h)) ==>
              && conv.toHsv(r).s == h.s && conv.toHsv(r).v == h.v
              && (0.0 <= h.h < 360.0 ==>
                    0.0 <= conv.toHsv(r).h < 360.0 &&
                    conv.toHsv(r).h == if h.h < 180.0 then h.h + 180.0 else h.h - 180.0)
  {
    var r := conv.fromHsv(Complemented(conv.toHsv(c)));
    ComplementIsOpposite(conv.toHsv(c));
    r
  }

  /** On an in-range hue the shift adds or removes half a turn. */
  lemma ComplementIsOpposite(c: Hsv)
    ensures 0.0 <= c.h < 360.0 ==>
              Complemented(c).h == if c.h < 180.0 then c.h + 180.0 else c.h - 180.0
  {
    if 0.0 <= c.h < 360.0 {
      assert Trunc((c.h + 180.0) / 360.0) == (if c.h < 180.0 then 0 else 1);
    }
  }

  /**
   * The mid and darker shades keep the colour's hue and saturation, and
   * their values are ordered: darker <= mid <= original.
   */
  lemma ShadesOrdered(c: Hsv)
    requires InRange(c)
    ensures var mid := MidShade(c);
            var darker := DarkShade(c);
            && mid.h == darker.h == c.h && mid.s == darker.s == c.s
            && darker.v <= mid.v <= c.v
            && InRange(mid) && InRange(darker)
  {
  }
}
