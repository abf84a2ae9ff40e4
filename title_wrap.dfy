/**
 * Title line-wrapping shared by the text-centred wallpaper designs: a title
 * holding " to " is broken at its first " to " into two fixed lines; any
 * other title longer than 15 characters is wrapped greedily, word by word,
 * at a 15-character soft limit. Lengths are Kotlin's `length`, in UTF-16
 * code units, so a character outside the BMP counts twice.
 */
module TitleWrap {
  import opened Wrappers
  import opened KotlinText

  const MaxLineLength := 15
  const Connector := " to "
  const ConnectorSuffix := " need time to"

  /** The loop's two variables: the finished lines and the line being filled. */
  datatype WrapState = WrapState(lines: seq<string>, current: string)

  /** One iteration of the word loop. */
  function Place(st: WrapState, word: string): WrapState
  {
    if st.current == "" then st.(current := word)
    else if Length(st.current + " " + word) <= MaxLineLength then st.(current := st.current + " " + word)
    else WrapState(st.lines + [st.current], word)
  }

  function PlaceAll(st: WrapState, words: seq<string>): WrapState
    decreases |words|
  {
    if words == [] then st else PlaceAll(Place(st, words[0]), words[1..])
  }

  /** After the loop: the line being filled is kept only when it is not empty. */
  function Flush(st: WrapState): seq<string>
  {
    if st.current != "" then st.lines + [st.current] else st.lines
  }

  function WrapWords(words: seq<string>): seq<string>
  {
    Flush(PlaceAll(WrapState([], ""), words))
  }

  /** The lines `splitTextIntoLines` returns for `text`. */
  function TitleLines(text: string): seq<string>
  {
    if Contains(text, Connector) then
      var parts := SplitLimit2(text, Connector);
      [parts[0] + ConnectorSuffix, parts[1]]
    else if Length(text) <= MaxLineLength then [text]
    else WrapWords(Split(text, ' '))
  }

  /** The title is wrapped word by word (neither of the two early returns applies). */
  predicate OnWrapPath(text: string)
  {
    !Contains(text, Connector) && Length(text) > MaxLineLength
  }

  /** No leading, trailing or doubled spaces: `split(" ")` yields no empty word. */
  predicate NoEmptyWords(text: string)
  {
    forall w :: w in Split(text, ' ') ==> w != ""
  }

  /** The first word of a line. */
  function FirstWord(line: string): string
  {
    Split(line, ' ')[0]
  }

  /** The next line's first word would not have fitted on this one. */
  predicate Greedy(line: string, next: string)
  {
    Length(line + " " + FirstWord(next)) > MaxLineLength
  }

  /**
   * The loop of `splitTextIntoLines`, with its two early returns: a mutable
   * list of finished lines and a current line, updated once per word.
   */
  method WrapTitle(text: string) returns (lines: seq<string>)
    ensures lines == TitleLines(text)
  {
    if Contains(text, Connector) {
      var parts := SplitLimit2(text, Connector);
      return [parts[0] + ConnectorSuffix, parts[1]];
    }
    if Length(text) <= MaxLineLength {
      return [text];
    }
    var words := Split(text, ' ');
    lines := [];
    var currentLine := "";
    for k := 0 to |words|
      invariant PlaceAll(WrapState(lines, currentLine), words[k..]) == PlaceAll(WrapState([], ""), words)
    {
      assert words[k..][1..] == words[k + 1..];
      var word := words[k];
      if currentLine == "" {
        currentLine := word;
      } else if Length(currentLine + " " + word) <= MaxLineLength {
        currentLine := currentLine + " " + word;
      } else {
        lines := lines + [currentLine];
        currentLine := word;
      }
    }
    if currentLine != "" {
      lines := lines + [currentLine];
    }
  }

  // ---------------------------------------------------------------------
  // The two early returns

  /**
   * A title holding " to " becomes exactly two lines, cut at the FIRST
   * " to ": the text before it followed by " need time to", then the text
   * after it. The check comes before the length check, so short titles are
   * cut too.
   */
  lemma ConnectorCut(text: string)
    requires Contains(text, Connector)
    ensures var i := IndexOf(text, Connector).value;
            && (forall k :: 0 <= k < i ==> !OccursAt(text, Connector, k))
            && TitleLines(text) == [text[..i] + ConnectorSuffix, text[i + |Connector|..]]
  {
    var i := IndexOf(text, Connector).value;
    var parts := SplitLimit2(text, Connector);
    assert text == text[..i] + Connector + text[i + |Connector|..];
    assert parts == [text[..i], text[i + |Connector|..]];
  }

  /** A title without " to " of at most 15 characters is one unchanged line. */
  lemma ShortTitleUnchanged(text: string)
    requires !Contains(text, Connector) && Length(text) <= MaxLineLength
    ensures TitleLines(text) == [text]
  {
  }

  // ---------------------------------------------------------------------
  // Line length: only a single word may exceed the limit

  /** A line is within the limit or is one of the title's words. */
  predicate Fits(line: string, words: seq<string>)
  {
    Length(line) <= MaxLineLength || line in words
  }

  predicate AllFit(st: WrapState, words: seq<string>)
  {
    Fits(st.current, words) && forall l :: l in st.lines ==> Fits(l, words)
  }

  lemma {:induction false} PlaceAllFits(st: WrapState, rest: seq<string>, words: seq<string>)
    requires AllFit(st, words)
    requires forall w :: w in rest ==> w in words
    ensures AllFit(PlaceAll(st, rest), words)
    decreases |rest|
  {
    if rest != [] {
      assert rest[0] in words;
      var next := Place(st, rest[0]);
      assert next.lines <= st.lines + [st.current];
      forall w | w in rest[1..] ensures w in words { assert w in rest; }
      PlaceAllFits(next, rest[1..], words);
    }
  }

  /**
   * On the wrap path every line made of two or more words stays within 15
   * characters: a line that is longer is a single word of the title, with no
   * space in it.
   */
  lemma {:induction false} LongLineIsOneWord(text: string)
    requires OnWrapPath(text)
    ensures forall l :: l in TitleLines(text) ==>
              Length(l) <= MaxLineLength || (l in Split(text, ' ') && ' ' !in l)
  {
    var words := Split(text, ' ');
    PlaceAllFits(WrapState([], ""), words, words);
    forall l | l in TitleLines(text)
      ensures Length(l) <= MaxLineLength || (l in words && ' ' !in l)
    {
      if Length(l) > MaxLineLength {
        assert l in words;
        var i :| 0 <= i < |words| && words[i] == l;
      }
    }
  }

  // ---------------------------------------------------------------------
  // No line is empty

  lemma {:induction false} PlaceAllKeepsLinesNonEmpty(st: WrapState, rest: seq<string>)
    requires forall l :: l in st.lines ==> l != ""
    ensures forall l :: l in PlaceAll(st, rest).lines ==> l != ""
    decreases |rest|
  {
    if rest != [] {
      PlaceAllKeepsLinesNonEmpty(Place(st, rest[0]), rest[1..]);
    }
  }

  /** On the wrap path no returned line is empty. */
  lemma {:induction false} WrappedLinesNonEmpty(text: string)
    requires OnWrapPath(text)
    ensures forall l :: l in TitleLines(text) ==> l != ""
  {
    PlaceAllKeepsLinesNonEmpty(WrapState([], ""), Split(text, ' '));
  }

  // ---------------------------------------------------------------------
  // Reconstruction: the lines joined by single spaces give back the title

  lemma {:induction false} PlaceAllJoins(st: WrapState, rest: seq<string>)
    requires st.current != ""
    requires forall w :: w in rest ==> w != ""
    ensures PlaceAll(st, rest).current != ""
    ensures Join(Flush(PlaceAll(st, rest)), " ") == Join(st.lines + [st.current] + rest, " ")
    decreases |rest|
  {
    if rest == [] {
      assert st.lines + [st.current] + rest == st.lines + [st.current];
    } else {
      var w := rest[0];
      var next := Place(st, w);
      assert rest[0] in rest;
      forall v | v in rest[1..] ensures v != "" { assert v in rest; }
      PlaceAllJoins(next, rest[1..]);
      if Length(st.current + " " + w) <= MaxLineLength {
        JoinPieces(st.lines, st.current, w, rest[1..]);
        assert st.lines + [st.current] + [w] + rest[1..] == st.lines + [st.current] + rest;
      } else {
        assert next.lines + [next.current] + rest[1..] == st.lines + [st.current] + rest;
      }
    }
  }

  /** Merging two neighbouring parts with a space between them does not change the join. */
  lemma {:induction false} JoinPieces(before: seq<string>, x: string, y: string, after: seq<string>)
    ensures Join(before + [x + " " + y] + after, " ") == Join(before + [x] + [y] + after, " ")
    decreases |before|
  {
    if before == [] {
      assert ([x + " " + y] + after)[1..] == after;
      assert ([x] + [y] + after)[1..] == [y] + after;
      assert ([y] + after)[1..] == after;
      assert [] + [x + " " + y] + after == [x + " " + y] + after;
      assert [] + [x] + [y] + after == [x] + [y] + after;
    } else {
      JoinPieces(before[1..], x, y, after);
      assert (before + [x + " " + y] + after)[1..] == before[1..] + [x + " " + y] + after;
      assert (before + [x] + [y] + after)[1..] == before[1..] + [x] + [y] + after;
    }
  }

  /**
   * When the title has no empty words and no " to ", joining the lines with
   * single spaces gives back the title: no word is lost, reordered or split.
   */
  lemma {:induction false} LinesRebuildTitle(text: string)
    requires !Contains(text, Connector)
    requires NoEmptyWords(text)
    ensures Join(TitleLines(text), " ") == text
  {
    if Length(text) > MaxLineLength {
      var words := Split(text, ' ');
      assert words[0] in words;
      assert words == [words[0]] + words[1..];
      forall v | v in words[1..] ensures v != "" { assert v in words; }
      PlaceAllJoins(WrapState([], words[0]), words[1..]);
      assert [] + [words[0]] + words[1..] == words;
      JoinSplit(text, ' ');
    }
  }

  // ---------------------------------------------------------------------
  // Greediness

  lemma {:induction false} FirstWordOfExtended(line: string, w: string)
    ensures FirstWord(line + " " + w) == FirstWord(line)
  {
    SplitAround(line, w, ' ');
    assert line + " " + w == line + [' '] + w;
  }

  lemma {:induction false} FirstWordOfWord(w: string)
    requires ' ' !in w
    ensures FirstWord(w) == w
  {
    SplitWithoutDelimiter(w, ' ');
  }

  /** Every finished line is followed by a line whose first word did not fit on it. */
  predicate GreedyState(st: WrapState)
  {
    && (forall i :: 0 <= i < |st.lines| - 1 ==> Greedy(st.lines[i], st.lines[i + 1]))
    && (|st.lines| > 0 ==> st.current != "" && Greedy(st.lines[|st.lines| - 1], st.current))
    && (st.current == "" ==> st.lines == [])
  }

  lemma {:induction false} PlaceAllGreedy(st: WrapState, rest: seq<string>)
    requires GreedyState(st)
    requires forall w :: w in rest ==> w != "" && ' ' !in w
    ensures GreedyState(PlaceAll(st, rest))
    decreases |rest|
  {
    if rest != [] {
      var w := rest[0];
      assert w in rest;
      var next := Place(st, w);
      if st.current == "" {
      } else if Length(st.current + " " + w) <= MaxLineLength {
        FirstWordOfExtended(st.current, w);
      } else {
        FirstWordOfWord(w);
        assert next.lines[|next.lines| - 1] == st.current;
      }
      forall v | v in rest[1..] ensures v != "" && ' ' !in v { assert v in rest; }
      PlaceAllGreedy(next, rest[1..]);
    }
  }

  /**
   * The wrap is greedy: when the title has no empty words, the first word of
   * each line would have pushed the previous line past 15 characters.
   */
  lemma {:induction false} WrapIsGreedy(text: string)
    requires OnWrapPath(text)
    requires NoEmptyWords(text)
    ensures var lines := TitleLines(text);
            forall i :: 0 <= i < |lines| - 1 ==> Greedy(lines[i], lines[i + 1])
  {
    var words := Split(text, ' ');
    forall v | v in words ensures v != "" && ' ' !in v {
      var i :| 0 <= i < |words| && words[i] == v;
    }
    PlaceAllGreedy(WrapState([], ""), words);
  }

  // ---------------------------------------------------------------------
  // When the result is empty

  lemma {:induction false} PlaceAllEmptyWords(st: WrapState, rest: seq<string>)
    requires st == WrapState([], "")
    requires forall w :: w in rest ==> w == ""
    ensures PlaceAll(st, rest) == st
    decreases |rest|
  {
    if rest != [] {
      assert rest[0] in rest;
      forall v | v in rest[1..] ensures v == "" { assert v in rest; }
      PlaceAllEmptyWords(Place(st, rest[0]), rest[1..]);
    }
  }

  lemma {:induction false} PlaceAllKeepsSomething(st: WrapState, rest: seq<string>)
    requires st.lines != [] || st.current != ""
    ensures PlaceAll(st, rest).lines != [] || PlaceAll(st, rest).current != ""
    decreases |rest|
  {
    if rest != [] {
      PlaceAllKeepsSomething(Place(st, rest[0]), rest[1..]);
    }
  }

  lemma {:induction false} WrapWordsEmpty(words: seq<string>)
    ensures WrapWords(words) == [] <==> forall w :: w in words ==> w == ""
    decreases |words|
  {
    var start := WrapState([], "");
    if forall w :: w in words ==> w == "" {
      PlaceAllEmptyWords(start, words);
    } else {
      var j :| 0 <= j < |words| && words[j] != "";
      var k := FirstNonEmpty(words, j);
      assert PlaceAll(start, words[..k]) == start by {
        forall w | w in words[..k] ensures w == "" {
          var i :| 0 <= i < k && words[..k][i] == w;
        }
        PlaceAllEmptyWords(start, words[..k]);
      }
      PlaceAllSplit(start, words[..k], words[k..]);
      assert words[..k] + words[k..] == words;
      assert words[k..][1..] == words[k + 1..];
      PlaceAllKeepsSomething(Place(start, words[k]), words[k + 1..]);
    }
  }

  /** The index of the first non-empty word. */
  function FirstNonEmpty(words: seq<string>, j: nat): (k: nat)
    requires j < |words| && words[j] != ""
    ensures k <= j && words[k] != ""
    ensures forall i :: 0 <= i < k ==> words[i] == ""
    decreases j
  {
    if j == 0 || (forall i :: 0 <= i < j ==> words[i] == "") then j
    else
      var i :| 0 <= i < j && words[i] != "";
      FirstNonEmpty(words, i)
  }

  lemma {:induction false} PlaceAllSplit(st: WrapState, a: seq<string>, b: seq<string>)
    ensures PlaceAll(st, a + b) == PlaceAll(PlaceAll(st, a), b)
    decreases |a|
  {
    if a == [] {
      assert a + b == b;
    } else {
      assert (a + b)[0] == a[0];
      assert (a + b)[1..] == a[1..] + b;
      PlaceAllSplit(Place(st, a[0]), a[1..], b);
    }
  }

  /** Every piece of `split(" ")` is empty exactly when the text is all spaces. */
  lemma {:induction false} EmptyWordsOnlyForSpaces(s: string)
    ensures (forall w :: w in Split(s, ' ') ==> w == "") <==> (forall i :: 0 <= i < |s| ==> s[i] == ' ')
    decreases |s|
  {
    if s != [] {
      EmptyWordsOnlyForSpaces(s[1..]);
      var rest := Split(s[1..], ' ');
      if s[0] == ' ' {
        assert Split(s, ' ') == [""] + rest;
        if forall i :: 0 <= i < |s| ==> s[i] == ' ' {
          forall i | 0 <= i < |s[1..]| ensures s[1..][i] == ' ' { assert s[1..][i] == s[i + 1]; }
        } else {
          var i :| 0 <= i < |s| && s[i] != ' ';
          assert s[1..][i - 1] != ' ';
          var w :| w in rest && w != "";
          assert w in Split(s, ' ');
        }
      } else {
        assert Split(s, ' ')[0] in Split(s, ' ');
      }
    }
  }

  /** A title of only spaces never contains " to ". */
  lemma SpacesHaveNoConnector(text: string)
    requires forall i :: 0 <= i < |text| ==> text[i] == ' '
    ensures !Contains(text, Connector)
  {
    forall k ensures !OccursAt(text, Connector, k) {
      if 0 <= k && k + |Connector| <= |text| {
        assert text[k..k + |Connector|][1] == ' ';
      }
    }
    ContainsMeansOccurs(text, Connector);
  }

  /**
   * The result is an empty list exactly when the title is longer than 15
   * characters and consists solely of spaces.
   */
  lemma {:induction false} EmptyResult(text: string)
    ensures TitleLines(text) == [] <==>
              |text| > MaxLineLength && forall i :: 0 <= i < |text| ==> text[i] == ' '
  {
    EmptyWordsOnlyForSpaces(text);
    WrapWordsEmpty(Split(text, ' '));
    if forall i :: 0 <= i < |text| ==> text[i] == ' ' {
      SpacesHaveNoConnector(text);
      LengthOfBmp(text);
    }
  }
}
