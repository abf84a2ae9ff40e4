/**
 * Placement of the album-art square on the wallpaper, shared by the
 * renderers: a side length and a top-left corner that centres it.
 */
module ArtLayout {
  import opened KotlinNumbers

  /** The art's top-left corner (float pixels) and its side (int pixels). */
  datatype Placement = Placement(left: real, top: real, side: int)

  /** `left = (screenWidth - side) / 2f`, `top = (screenHeight - side) / 2f`. */
  function Centered(width: nat, height: nat, side: int): (p: Placement)
    ensures p.side == side
    ensures p.left + side as real / 2.0 == width as real / 2.0
    ensures p.top + side as real / 2.0 == height as real / 2.0
    ensures 0 <= side <= width ==> 0.0 <= p.left && p.left + side as real <= width as real
    ensures 0 <= side <= height ==> 0.0 <= p.top && p.top + side as real <= height as real
  {
    Placement((width - side) as real / 2.0, (height - side) as real / 2.0, side)
  }

  /** `(screenWidth * 0.4).toInt()`: two fifths of the width, rounded down. */
  function FortyPercent(width: nat): (side: int)
    ensures width <= IntMax ==> side == 2 * width / 5 && 0 <= side <= width
  {
    var x := width as real * 0.4;
    var k := 2 * width / 5;
    assert k as real <= x < k as real + 1.0;
    ToInt(x)
  }

  /** `minOf(screenWidth, screenHeight) / 2`: half the shorter side. */
  function HalfShorterSide(width: nat, height: nat): (side: nat)
    ensures side <= width && side <= height
    ensures 2 * side <= width && 2 * side <= height
    ensures side == width / 2 || side == height / 2
  {
    (if width <= height then width else height) / 2
  }
}
