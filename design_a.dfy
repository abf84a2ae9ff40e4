/**
 * Design A: the song title written around eight concentric rings that
 * surround a circular crop of the album art. The model covers the layout
 * arithmetic: how many copies of the title fit on a ring, the repeated
 * text, where each character goes along the circle, and the ring radii.
 * Text widths come from the platform's font metrics and are a parameter.
 */
module SongperDesignA {
  import opened Argb
  import opened KotlinNumbers
  import opened KotlinText
  import opened IntArith
  import ArtLayout

  /** `Math.PI.toFloat()`, exactly: the float nearest to pi. */
  const Pi: real := 3.1415927410125732421875

  /** The share of the circumference the repeated title may take up. */
  const CircumferenceFactor := 1.3

  /** Ring radii beyond half the art size, innermost first. */
  const RingOffsets: seq<real> := [60.0, 150.0, 260.0, 380.0, 500.0, 610.0, 720.0, 810.0]

  const OuterTextSize := 50.0
  const InnerTextSize := 45.0

  /** The parts of an Android `Paint` that the layout depends on. */
  datatype Paint = Paint(color: Color, textSize: real)

  /** `paint.measureText(s)`: the advance width of `s` drawn with `paint`. */
  type Measure = (Paint, string) -> real

  /** The string whose width sets the spacing: the title and two spaces. */
  function Spaced(text: string): string
  {
    text + "  "
  }

  /**
   * `calculateOptimalRepetitions`: how many copies of the title fit in 1.3
   * times pi times the radius; at least one.
   */
  function CalculateOptimalRepetitions(radius: real, text: string, paint: Paint, measureText: Measure): (n: int)
    requires measureText(paint, Spaced(text)) > 0.0
    ensures n >= 1
    ensures n == 1 || n as real * measureText(paint, Spaced(text)) <= CircumferenceFactor * Pi * radius
    ensures n == IntMax || CircumferenceFactor * Pi * radius < (n + 1) as real * measureText(paint, Spaced(text))
  {
    var circumference := CircumferenceFactor * Pi * radius;
    var textWidth := measureText(paint, Spaced(text));
    var natural := ToInt(circumference / textWidth);
    FitsBounds(circumference, textWidth, natural);
    if natural > 1 then natural else 1
  }

  lemma FitsBounds(circumference: real, textWidth: real, natural: int)
    requires textWidth > 0.0 && natural == ToInt(circumference / textWidth)
    ensures natural >= 1 ==> natural as real * textWidth <= circumference
    ensures natural < IntMax ==> circumference < (natural + 1) as real * textWidth
  {
    var q := circumference / textWidth;
    if natural >= 1 {
      assert natural as real <= q by {
        assert q >= 0.0 && natural <= Trunc(q);
      }
      QuotientAbove(circumference, textWidth, natural as real);
    }
    if natural < IntMax {
      NextAbove(q, natural);
      QuotientBelow(circumference, textWidth, (natural + 1) as real);
    }
  }

  lemma QuotientAbove(c: real, w: real, k: real)
    requires w > 0.0 && k <= c / w
    ensures k * w <= c
  {
    var q := c / w;
    assert q * w == c;
    MulMono(k, q, w);
  }

  lemma QuotientBelow(c: real, w: real, k: real)
    requires w > 0.0 && c / w < k
    ensures c < k * w
  {
    var q := c / w;
    assert q * w == c;
    MulStrict(q, k, w);
  }

  /** The truncated quotient, clamped to the Int range, is above `q` once one is added (unless clamped at the top). */
  lemma NextAbove(q: real, natural: int)
    requires natural == ToInt(q) && natural < IntMax
    ensures q < (natural + 1) as real
  {
    var t := Trunc(q);
    if q >= 0.0 {
      assert natural == t;
    } else if t >= IntMin {
      assert natural == t && q <= t as real;
    } else {
      assert natural == IntMin && q < t as real + 1.0;
    }
  }

  lemma MulMono(a: real, b: real, m: real)
    requires a <= b && m > 0.0
    ensures a * m <= b * m
  {
  }

  lemma MulStrict(a: real, b: real, m: real)
    requires a < b && m > 0.0
    ensures a * m < b * m
  {
  }

  /** The count is max(1, floor(1.3 pi r / w)), as long as that fits in an Int. */
  lemma RepetitionsIsFloor(radius: real, text: string, paint: Paint, measureText: Measure)
    requires measureText(paint, Spaced(text)) > 0.0
    ensures var q := CircumferenceFactor * Pi * radius / measureText(paint, Spaced(text));
            q.Floor <= IntMax ==>
              CalculateOptimalRepetitions(radius, text, paint, measureText) == if q.Floor > 1 then q.Floor else 1
  {
  }

  /** `text` repeated `n` times with single spaces between the copies. */
  function Repeated(text: string, n: int): string
    decreases n
  {
    if n <= 0 then "" else if n == 1 then text else Repeated(text, n - 1) + " " + text
  }

  /** The first loop of `drawCircularText`: the copies appended to a StringBuilder. */
  method BuildRepeatedText(text: string, repetitions: int) returns (repeatedText: string)
    ensures repeatedText == Repeated(text, repetitions)
  {
    repeatedText := "";
    var i := 0;
    while i < repetitions
      invariant 0 <= i <= (if repetitions > 0 then repetitions else 0)
      invariant repeatedText == Repeated(text, i) + (if 0 < i < repetitions then " " else "")
    {
      repeatedText := repeatedText + text;
      if i < repetitions - 1 {
        repeatedText := repeatedText + " ";
      }
      i := i + 1;
    }
  }

  /**
   * `drawCircularText`: the repeated text is built, then the second loop
   * places UTF-16 code unit `i` of it at `i` spacings past the top of the
   * circle.
   */
  method DrawCircularText(radius: real, text: string, repetitions: int) returns (glyphs: seq<Glyph>)
    ensures |glyphs| == Length(Repeated(text, repetitions))
    ensures forall i :: 0 <= i < |glyphs| ==>
              glyphs[i] == Glyph(Utf16(Repeated(text, repetitions))[i], CharOffset(radius, |glyphs|, i))
  {
    var repeatedText := BuildRepeatedText(text, repetitions);
    var units := Utf16(repeatedText);
    var repeatedTextLength := |units|;
    var circumference := 2.0 * Pi * radius;
    var charSpacing := if repeatedTextLength > 0 then circumference / repeatedTextLength as real else 0.0;
    var startOffset := -90.0 * radius * Pi / 90.0;
    glyphs := [];
    for k := 0 to repeatedTextLength
      invariant |glyphs| == k
      invariant forall j :: 0 <= j < k ==>
                  glyphs[j] == Glyph(units[j], CharOffset(radius, repeatedTextLength, j))
    {
      glyphs := glyphs + [Glyph(units[k], startOffset + k as real * charSpacing)];
    }
  }

  /**
   * One `drawTextOnPath` call: a one-code-unit string (half of a surrogate
   * pair for a character outside the BMP) and its distance along the circle.
   */
  datatype Glyph = Glyph(unit: int, offset: real)

  /** Where character `i` of `len` goes: from -pi r, in steps of 2 pi r / len. */
  function CharOffset(radius: real, len: nat, i: nat): real
    requires len > 0
  {
    -Pi * radius + i as real * (2.0 * Pi * radius / len as real)
  }

  // ---------------------------------------------------------------------
  // The repeated text

  lemma {:induction false} RepeatedLength(text: string, n: int)
    requires n >= 1
    ensures |Repeated(text, n)| == n * |text| + n - 1
    decreases n
  {
    if n > 1 {
      RepeatedLength(text, n - 1);
    }
  }

  /** Measured in UTF-16 code units, the repeated text has the same shape. */
  lemma {:induction false} RepeatedUnits(text: string, n: int)
    requires n >= 1
    ensures Length(Repeated(text, n)) == n * Length(text) + n - 1
    decreases n
  {
    if n > 1 {
      RepeatedUnits(text, n - 1);
      LengthAppend(Repeated(text, n - 1), " ");
      LengthAppend(Repeated(text, n - 1) + " ", text);
    }
  }

  /**
   * When every character of the title lies in the BMP, each glyph is one
   * character of the repeated text: the code units are the characters.
   */
  lemma BmpTitleOneGlyphPerCharacter(text: string, n: int)
    requires n >= 1
    requires forall i :: 0 <= i < |text| ==> InBmp(text[i])
    ensures var r := Repeated(text, n);
            Length(r) == |r| && forall i :: 0 <= i < |r| ==> Utf16(r)[i] == r[i] as int
  {
    var r := Repeated(text, n);
    forall i | 0 <= i < |r| ensures InBmp(r[i]) {
      RepeatedAt(text, n, i);
    }
    LengthOfBmp(r);
  }

  /**
   * Character `i` of the repeated text: every (|text| + 1)-th character is a
   * separating space, the others cycle through the title.
   */
  lemma {:induction false} RepeatedAt(text: string, n: int, i: nat)
    requires n >= 1
    requires i < |Repeated(text, n)|
    ensures var period := |text| + 1;
            Repeated(text, n)[i] == if i % period == |text| then ' ' else text[i % period]
    decreases n
  {
    var period := |text| + 1;
    RepeatedLength(text, n);
    if n > 1 {
      var before := Repeated(text, n - 1);
      RepeatedLength(text, n - 1);
      assert |before| == (n - 1) * period - 1;
      if i < |before| {
        RepeatedAt(text, n - 1, i);
      } else {
        var j := i - (n - 1) * period;
        assert -1 <= j < |text|;
        ModOfShift(n - 1, period, j);
      }
    } else {
      assert i < |text|;
      assert i % period == i;
    }
  }

  lemma ModOfShift(k: nat, period: nat, j: int)
    requires period >= 1 && -1 <= j < period - 1
    requires k >= 1
    ensures (k * period + j) % period == if j == -1 then period - 1 else j
  {
    if j == -1 {
      assert k * period - 1 == (k - 1) * period + (period - 1);
      DivModOfSum(k - 1, period - 1, period);
    } else {
      DivModOfSum(k, j, period);
    }
  }

  /** The repeated text is `n` copies of the title joined by single spaces. */
  lemma {:induction false} RepeatedIsJoin(text: string, n: int)
    requires n >= 1
    ensures Repeated(text, n) == Join(seq(n, _ => text), " ")
    decreases n
  {
    if n > 1 {
      RepeatedIsJoin(text, n - 1);
      assert seq(n, _ => text) == seq(n - 1, _ => text) + [text];
      JoinAppend(seq(n - 1, _ => text), [text], " ");
    }
  }

  // ---------------------------------------------------------------------
  // Character positions

  /**
   * The first character sits at -pi r (the top of the circle, where the
   * path starts), consecutive characters are the same distance apart, and
   * all of them lie within one turn: in [-pi r, pi r).
   */
  lemma OffsetsSpreadOverOneTurn(radius: real, len: nat, i: nat)
    requires radius > 0.0 && len > 0 && i < len
    ensures CharOffset(radius, len, 0) == -Pi * radius
    ensures i + 1 < len ==> CharOffset(radius, len, i + 1) - CharOffset(radius, len, i) == 2.0 * Pi * radius / len as real
    ensures -Pi * radius <= CharOffset(radius, len, i) < Pi * radius
  {
    var spacing := 2.0 * Pi * radius / len as real;
    assert spacing > 0.0;
    assert spacing * len as real == 2.0 * Pi * radius;
    MulMono(0.0, i as real, spacing);
    MulStrict(i as real, len as real, spacing);
    assert (i + 1) as real * spacing == i as real * spacing + spacing;
  }

  /** The source's start offset, `-90f * radius * PI / 90f`, is -pi r. */
  lemma StartOffsetIsTop(radius: real)
    ensures -90.0 * radius * Pi / 90.0 == -Pi * radius
  {
  }

  // ---------------------------------------------------------------------
  // The rings of createDesignA

  /** The paint of the innermost ring of text. */
  function TextPaint(isLight: bool): Paint
  {
    Paint(TextColorOn(isLight), OuterTextSize)
  }

  /** The paint of the other seven rings. */
  function InnerTextPaint(isLight: bool): Paint
  {
    Paint(TextColorOn(isLight), InnerTextSize)
  }

  /** One ring of text: its radius, its paint and how many titles go round it. */
  datatype Ring = Ring(radius: real, paint: Paint, repetitions: int)

  /** Half the album-art side, the radius the rings are measured from. */
  function BaseRadius(screenWidth: nat): real
  {
    ArtLayout.FortyPercent(screenWidth) as real / 2.0
  }

  /**
   * The ring loop of `createDesignA`: eight rings at fixed distances beyond
   * half the art size; the first (innermost) ring uses the 50-point paint,
   * the others the 45-point one; the text is black on a light palette and
   * white otherwise.
   */
  method CreateDesignARings(screenWidth: nat, songName: string, isLight: bool, measureText: Measure)
    returns (rings: seq<Ring>)
    requires measureText(TextPaint(isLight), Spaced(songName)) > 0.0
    requires measureText(InnerTextPaint(isLight), Spaced(songName)) > 0.0
    ensures |rings| == |RingOffsets| == 8
    ensures forall i :: 0 <= i < |rings| ==> rings[i].radius == BaseRadius(screenWidth) + RingOffsets[i]
    ensures forall i :: 0 <= i < |rings| - 1 ==> rings[i].radius < rings[i + 1].radius
    ensures forall i :: 0 <= i < |rings| ==>
              rings[i].paint == if i == 0 then TextPaint(isLight) else InnerTextPaint(isLight)
    ensures forall i :: 0 <= i < |rings| ==>
              (rings[i].paint.textSize == OuterTextSize <==> i == 0) &&
              (rings[i].paint.color == Black <==> isLight)
    ensures forall i :: 0 <= i < |rings| ==>
              rings[i].repetitions >= 1 &&
              rings[i].repetitions == CalculateOptimalRepetitions(rings[i].radius, songName, rings[i].paint, measureText)
  {
    var artSize := ArtLayout.FortyPercent(screenWidth);
    var baseRadius := artSize as real / 2.0;
    var circleRadii := seq(|RingOffsets|, i requires 0 <= i < |RingOffsets| => baseRadius + RingOffsets[i]);
    var textPaint := TextPaint(isLight);
    var innerTextPaint := InnerTextPaint(isLight);
    rings := [];
    for i := 0 to |circleRadii|
      invariant |rings| == i
      invariant forall j :: 0 <= j < i ==>
                  rings[j] == Ring(circleRadii[j], if j == 0 then textPaint else innerTextPaint,
                                   CalculateOptimalRepetitions(circleRadii[j], songName,
                                     if j == 0 then textPaint else innerTextPaint, measureText))
    {
      var currentRadius := circleRadii[i];
      var paint := if i == 0 then textPaint else innerTextPaint;
      var optimalRepetitions := CalculateOptimalRepetitions(currentRadius, songName, paint, measureText);
      rings := rings + [Ring(currentRadius, paint, optimalRepetitions)];
    }
  }
}
