/**
 * `WallpaperUtil` (songper/Model): the custom wallpaper's background colour,
 * chosen as the most frequent opaque colour of the downscaled album art,
 * the dark/light test, and where the art goes on the screen.
 */
module SongperWallpaperUtil {
  import opened Wrappers
  import opened Argb
  import ArtLayout

  /** Pixels with a lower alpha are treated as transparent and skipped. */
  const MinCountedAlpha := 128

  predicate Counted(c: Color)
  {
    Alpha(c) >= MinCountedAlpha
  }

  /** The counted pixels of one row, left to right. */
  function CountedInRow(row: seq<Color>): seq<Color>
  {
    if row == [] then []
    else
      var last := row[|row| - 1];
      CountedInRow(row[..|row| - 1]) + (if Counted(last) then [last] else [])
  }

  /** The counted pixels in scan order: top row first, each row left to right. */
  function OpaquePixels(rows: seq<seq<Color>>): seq<Color>
  {
    if rows == [] then [] else OpaquePixels(rows[..|rows| - 1]) + CountedInRow(rows[|rows| - 1])
  }

  /** A row keeps exactly its counted colours. */
  lemma {:induction false} CountedInRowMembers(row: seq<Color>, c: Color)
    ensures c in CountedInRow(row) <==> c in row && Counted(c)
    decreases |row|
  {
    if row != [] {
      var front := row[..|row| - 1];
      CountedInRowMembers(front, c);
      assert row == front + [row[|row| - 1]];
    }
  }

  /** A colour is among the counted pixels iff it is opaque enough and occurs in some row. */
  lemma {:induction false} OpaquePixelsMembers(rows: seq<seq<Color>>, c: Color)
    ensures c in OpaquePixels(rows) <==> Counted(c) && exists y :: 0 <= y < |rows| && c in rows[y]
    decreases |rows|
  {
    if rows != [] {
      var front := rows[..|rows| - 1];
      OpaquePixelsMembers(front, c);
      CountedInRowMembers(rows[|rows| - 1], c);
      assert forall y :: 0 <= y < |front| ==> front[y] == rows[y];
    }
  }

  /** The colour counts of `pixels`, adding one pixel at a time. */
  function Histogram(pixels: seq<Color>): map<Color, nat>
  {
    if pixels == [] then map[]
    else
      var m := Histogram(pixels[..|pixels| - 1]);
      var last := pixels[|pixels| - 1];
      m[last := (if last in m then m[last] else 0) + 1]
  }

  lemma HistogramSnoc(pixels: seq<Color>, c: Color)
    ensures var m := Histogram(pixels);
            Histogram(pixels + [c]) == m[c := (if c in m then m[c] else 0) + 1]
  {
    assert (pixels + [c])[..|pixels|] == pixels;
  }

  /** The histogram holds exactly the colours that occur, each with its number of occurrences. */
  lemma {:induction false} HistogramCounts(pixels: seq<Color>)
    ensures forall c :: c in Histogram(pixels) <==> c in multiset(pixels)
    ensures forall c :: c in Histogram(pixels) ==> Histogram(pixels)[c] == multiset(pixels)[c]
    decreases |pixels|
  {
    if pixels != [] {
      var front, last := pixels[..|pixels| - 1], pixels[|pixels| - 1];
      assert pixels == front + [last];
      HistogramCounts(front);
      assert multiset(pixels) == multiset(front) + multiset{last};
    }
  }

  lemma CountedInRowSnoc(row: seq<Color>, x: nat)
    requires x < |row|
    ensures CountedInRow(row[..x + 1]) == CountedInRow(row[..x]) + (if Counted(row[x]) then [row[x]] else [])
  {
    assert row[..x + 1][..x] == row[..x];
  }

  lemma OpaquePixelsSnoc(rows: seq<seq<Color>>, y: nat)
    requires y < |rows|
    ensures OpaquePixels(rows[..y + 1]) == OpaquePixels(rows[..y]) + CountedInRow(rows[y])
  {
    assert rows[..y + 1][..y] == rows[..y];
  }

  /**
   * The counting loops of `getDominantColor`: rows top to bottom, each
   * row left to right, skipping pixels with alpha below 128 and adding one
   * to the counted colour's entry.
   */
  method CountColors(rows: seq<seq<Color>>) returns (colorMap: map<Color, nat>)
    ensures colorMap == Histogram(OpaquePixels(rows))
  {
    colorMap := map[];
    for y := 0 to |rows|
      invariant colorMap == Histogram(OpaquePixels(rows[..y]))
    {
      var row := rows[y];
      assert OpaquePixels(rows[..y]) + CountedInRow(row[..0]) == OpaquePixels(rows[..y]);
      for x := 0 to |row|
        invariant colorMap == Histogram(OpaquePixels(rows[..y]) + CountedInRow(row[..x]))
      {
        var color := row[x];
        CountedInRowSnoc(row, x);
        if Alpha(color) < MinCountedAlpha {
          assert CountedInRow(row[..x + 1]) == CountedInRow(row[..x]);
          continue;
        }
        HistogramSnoc(OpaquePixels(rows[..y]) + CountedInRow(row[..x]), color);
        assert OpaquePixels(rows[..y]) + CountedInRow(row[..x + 1])
            == OpaquePixels(rows[..y]) + CountedInRow(row[..x]) + [color];
        colorMap := colorMap[color := (if color in colorMap then colorMap[color] else 0) + 1];
      }
      assert row[..|row|] == row;
      OpaquePixelsSnoc(rows, y);
    }
    assert rows[..|rows|] == rows;
  }

  /**
   * `colorMap.maxByOrNull { it.value }?.key`: a key with the largest count,
   * or nothing for an empty map. Which of several equally frequent colours
   * wins depends on the hash map's iteration order, so any may be chosen.
   */
  method MostFrequent(colorMap: map<Color, nat>) returns (r: Option<Color>)
    ensures r.None? <==> colorMap == map[]
    ensures r.Some? ==> r.value in colorMap && forall k :: k in colorMap ==> colorMap[k] <= colorMap[r.value]
  {
    var keys := colorMap.Keys;
    var best := 0;
    r := None;
    while keys != {}
      invariant keys <= colorMap.Keys
      invariant r.None? ==> keys == colorMap.Keys
      invariant r.Some? ==> r.value in colorMap && best == colorMap[r.value]
      invariant r.Some? ==> forall k :: k in colorMap && k !in keys ==> colorMap[k] <= best
      decreases keys
    {
      var k :| k in keys;
      if r.None? || colorMap[k] > best {
        r := Some(k);
        best := colorMap[k];
      }
      keys := keys - {k};
    }
    if r.None? {
      assert colorMap.Keys == {};
      assert colorMap == map[];
    }
  }

  /**
   * `getDominantColor` on the downscaled pixels: black when no pixel is
   * opaque enough, otherwise a counted colour that occurs at least as often
   * as any other counted colour.
   */
  method GetDominantColor(rows: seq<seq<Color>>) returns (c: Color)
    ensures OpaquePixels(rows) == [] ==> c == Black
    ensures OpaquePixels(rows) != [] ==>
              && Counted(c)
              && c in OpaquePixels(rows)
              && forall d :: multiset(OpaquePixels(rows))[d] <= multiset(OpaquePixels(rows))[c]
  {
    var colorMap := CountColors(rows);
    var top := MostFrequent(colorMap);
    ghost var pixels := OpaquePixels(rows);
    HistogramCounts(pixels);
    if pixels == [] {
      assert colorMap == map[];
    } else {
      assert pixels[0] in multiset(pixels);
      assert pixels[0] in colorMap;
    }
    c := top.GetOr(Black);
    OpaquePixelsMembers(rows, c);
    if top.Some? {
      forall d
        ensures multiset(pixels)[d] <= multiset(pixels)[c]
      {
        if d in colorMap {
        }
      }
    }
  }

  /** A pixel with alpha below 128 never influences the count. */
  lemma TransparentNeverCounted(rows: seq<seq<Color>>, c: Color)
    requires Alpha(c) < MinCountedAlpha
    ensures c !in Histogram(OpaquePixels(rows))
  {
    HistogramCounts(OpaquePixels(rows));
    OpaquePixelsMembers(rows, c);
  }

  /** `isDarkColor`: the darkness, computed in Double, is at least one half (see `Argb.IsDoubleTie`). */
  predicate IsDarkColor(c: Color)
  {
    Darkness(c) >= 0.5 && !IsDoubleTie(c)
  }

  /**
   * In integers, a colour is dark iff 299R + 587G + 114B <= 127500 and it is
   * not the one colour on 127500 that rounds to light, which is exactly when
   * the colour extractor does not call it light. Black is dark, white is not.
   */
  lemma IsDarkColorInIntegers(c: Color)
    ensures IsDarkColor(c) <==> Luma1000(c) <= 127500 && !IsDoubleTie(c)
    ensures IsDarkColor(c) <==> !IsColorLight(c)
    ensures IsDarkColor(Black) && !IsDarkColor(White)
  {
    IsColorLightInIntegers(c);
    BlackIsDarkWhiteIsLight();
  }

  /**
   * `createCustomWallpaperBitmap`'s layout: an art square of half the
   * shorter screen side, centred, and so entirely on screen.
   */
  function CustomArtPlacement(screenWidth: nat, screenHeight: nat): (p: ArtLayout.Placement)
    ensures 2 * p.side <= screenWidth && 2 * p.side <= screenHeight
    ensures p.side == screenWidth / 2 || p.side == screenHeight / 2
    ensures 0.0 <= p.left && p.left + p.side as real <= screenWidth as real
    ensures 0.0 <= p.top && p.top + p.side as real <= screenHeight as real
    ensures p.left + p.side as real / 2.0 == screenWidth as real / 2.0
    ensures p.top + p.side as real / 2.0 == screenHeight as real / 2.0
  {
    ArtLayout.Centered(screenWidth, screenHeight, ArtLayout.HalfShorterSide(screenWidth, screenHeight))
  }
}
