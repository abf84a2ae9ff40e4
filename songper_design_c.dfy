/**
 * The title wrapping of `WallpaperDesignC`, whose private `splitTextIntoLines` is
 * the same text as in the other text-centred designs; the algorithm and
 * its properties live in TitleWrap.
 */
module SongperDesignC {
  import TitleWrap
  import KotlinText

  /** `WallpaperDesignC.splitTextIntoLines`. */
  method SplitTextIntoLines(text: string) returns (lines: seq<string>)
    ensures lines == TitleWrap.TitleLines(text)
    ensures TitleWrap.OnWrapPath(text) ==>
              forall l :: l in lines ==> l != "" && (KotlinText.Length(l) <= TitleWrap.MaxLineLength || ' ' !in l)
    ensures lines == [] <==>
              |text| > TitleWrap.MaxLineLength && forall i :: 0 <= i < |text| ==> text[i] == ' '
  {
    lines := TitleWrap.WrapTitle(text);
    TitleWrap.EmptyResult(text);
    if TitleWrap.OnWrapPath(text) {
      TitleWrap.WrappedLinesNonEmpty(text);
      TitleWrap.LongLineIsOneWord(text);
    }
  }
}
