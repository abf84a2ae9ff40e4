/**
 * The parts of Kotlin's string library that the wallpaper code relies on:
 * `split` on a one-character delimiter (which keeps empty pieces),
 * `joinToString`, `indexOf`, `contains` and `split(delimiter, limit = 2)`,
 * and `length`, which counts UTF-16 code units.
 */
module KotlinText {
  import opened Wrappers

  /** `parts.joinToString(sep)`: the parts with `sep` between neighbours. */
  function Join(parts: seq<string>, sep: string): string
  {
    if |parts| == 0 then ""
    else if |parts| == 1 then parts[0]
    else parts[0] + sep + Join(parts[1..], sep)
  }

  /**
   * `s.split(d)` for a one-character delimiter: cut at every occurrence of
   * `d`, keeping the empty pieces that leading, trailing or doubled
   * delimiters produce (Kotlin, unlike Java, does not drop trailing ones).
   */
  function Split(s: string, d: char): (pieces: seq<string>)
    ensures |pieces| >= 1
    ensures forall i :: 0 <= i < |pieces| ==> d !in pieces[i]
    decreases |s|
  {
    if s == [] then [""]
    else
      var rest := Split(s[1..], d);
      if s[0] == d then [""] + rest
      else [[s[0]] + rest[0]] + rest[1..]
  }

  lemma {:induction false} JoinAppend(a: seq<string>, b: seq<string>, sep: string)
    requires |a| >= 1 && |b| >= 1
    ensures Join(a + b, sep) == Join(a, sep) + sep + Join(b, sep)
    decreases |a|
  {
    if |a| == 1 {
      assert (a + b)[1..] == b;
    } else {
      assert (a + b)[1..] == a[1..] + b;
      JoinAppend(a[1..], b, sep);
    }
  }

  /** Gluing a prefix onto the first part glues it onto the joined text. */
  lemma {:induction false} JoinPrependToFirst(x: string, parts: seq<string>, sep: string)
    requires |parts| >= 1
    ensures Join([x + parts[0]] + parts[1..], sep) == x + Join(parts, sep)
  {
    var glued := [x + parts[0]] + parts[1..];
    if |parts| > 1 {
      assert glued[1..] == parts[1..];
    }
  }

  /** Splitting then joining gives back the text. */
  lemma {:induction false} JoinSplit(s: string, d: char)
    ensures Join(Split(s, d), [d]) == s
    decreases |s|
  {
    if s != [] {
      var rest := Split(s[1..], d);
      JoinSplit(s[1..], d);
      if s[0] == d {
        assert ([""] + rest)[1..] == rest;
        assert Join([""] + rest, [d]) == "" + [d] + Join(rest, [d]);
      } else {
        JoinPrependToFirst([s[0]], rest, [d]);
      }
    }
  }

  /** A text free of the delimiter splits into itself. */
  lemma {:induction false} SplitWithoutDelimiter(w: string, d: char)
    requires d !in w
    ensures Split(w, d) == [w]
    decreases |w|
  {
    if w != [] {
      SplitWithoutDelimiter(w[1..], d);
      assert [w[0]] + w[1..] == w;
    }
  }

  /** Splitting distributes over a delimiter: the pieces of both sides, side by side. */
  lemma {:induction false} SplitAround(a: string, b: string, d: char)
    ensures Split(a + [d] + b, d) == Split(a, d) + Split(b, d)
    decreases |a|
  {
    var s := a + [d] + b;
    if a == [] {
      assert s[1..] == b;
    } else {
      assert s[1..] == a[1..] + [d] + b;
      SplitAround(a[1..], b, d);
    }
  }

  /** Joining delimiter-free pieces then splitting gives back the pieces. */
  lemma {:induction false} SplitJoin(parts: seq<string>, d: char)
    requires |parts| >= 1
    requires forall i :: 0 <= i < |parts| ==> d !in parts[i]
    ensures Split(Join(parts, [d]), d) == parts
    decreases |parts|
  {
    if |parts| == 1 {
      SplitWithoutDelimiter(parts[0], d);
    } else {
      SplitWithoutDelimiter(parts[0], d);
      SplitJoin(parts[1..], d);
      SplitAround(parts[0], Join(parts[1..], [d]), d);
      assert [parts[0]] + parts[1..] == parts;
    }
  }

  /** `pat` occurs in `s` starting at index `k`. */
  predicate OccursAt(s: string, pat: string, k: int)
  {
    0 <= k && k + |pat| <= |s| && s[k..k + |pat|] == pat
  }

  /** `s.indexOf(pat, from)`: the first occurrence at or after `from`. */
  function IndexOfFrom(s: string, pat: string, from: nat): (r: Option<nat>)
    ensures r.Some? ==> from <= r.value && OccursAt(s, pat, r.value)
    ensures r.Some? ==> forall k :: from <= k < r.value ==> !OccursAt(s, pat, k)
    ensures r.None? ==> forall k :: from <= k ==> !OccursAt(s, pat, k)
    decreases |s| - from
  {
    if from + |pat| > |s| then None
    else if s[from..from + |pat|] == pat then Some(from)
    else IndexOfFrom(s, pat, from + 1)
  }

  function IndexOf(s: string, pat: string): Option<nat>
  {
    IndexOfFrom(s, pat, 0)
  }

  /** `s.contains(pat)`, which Kotlin computes as `indexOf(pat) >= 0`. */
  predicate Contains(s: string, pat: string)
  {
    IndexOf(s, pat).Some?
  }

  lemma ContainsMeansOccurs(s: string, pat: string)
    ensures Contains(s, pat) <==> exists k :: OccursAt(s, pat, k)
  {
    if Contains(s, pat) {
      assert OccursAt(s, pat, IndexOf(s, pat).value);
    }
  }

  /**
   * `s.split(pat, limit = 2)`: cut at the first occurrence of `pat` only.
   * The first part never contains `pat`, and joining the parts with `pat`
   * gives back `s`.
   */
  function SplitLimit2(s: string, pat: string): (parts: seq<string>)
    requires |pat| > 0
    ensures |parts| == if Contains(s, pat) then 2 else 1
    ensures Join(parts, pat) == s
    ensures forall k :: !OccursAt(parts[0], pat, k)
  {
    match IndexOf(s, pat)
    case None => [s]
    case Some(i) =>
      var parts := [s[..i], s[i + |pat|..]];
      assert s == s[..i] + pat + s[i + |pat|..];
      forall k | OccursAt(parts[0], pat, k) ensures false {
        assert s[k..k + |pat|] == parts[0][k..k + |pat|];
        assert OccursAt(s, pat, k);
      }
      parts
  }

  // ---------------------------------------------------------------------
  // UTF-16: what `length` and indexing count

  /** A Basic Multilingual Plane character is one UTF-16 code unit. */
  predicate InBmp(c: char)
  {
    c as int < 0x1_0000
  }

  /** The UTF-16 code units of one character: a surrogate pair above the BMP. */
  function CodeUnits(c: char): (units: seq<int>)
    ensures |units| == if InBmp(c) then 1 else 2
    ensures forall u :: u in units ==> 0 <= u < 0x1_0000
  {
    var v := c as int;
    if v < 0x1_0000 then [v]
    else [0xD800 + (v - 0x1_0000) / 0x400, 0xDC00 + (v - 0x1_0000) % 0x400]
  }

  /** A Kotlin string as the JVM holds it: its UTF-16 code units. */
  function Utf16(s: string): seq<int>
    decreases |s|
  {
    if s == [] then [] else CodeUnits(s[0]) + Utf16(s[1..])
  }

  /** `s.length`: the number of UTF-16 code units. */
  function Length(s: string): nat
  {
    |Utf16(s)|
  }

  lemma {:induction false} Utf16Append(a: string, b: string)
    ensures Utf16(a + b) == Utf16(a) + Utf16(b)
    decreases |a|
  {
    if a == [] {
      assert a + b == b;
    } else {
      assert (a + b)[0] == a[0];
      assert (a + b)[1..] == a[1..] + b;
      Utf16Append(a[1..], b);
      assert CodeUnits(a[0]) + (Utf16(a[1..]) + Utf16(b)) == (CodeUnits(a[0]) + Utf16(a[1..])) + Utf16(b);
    }
  }

  /** `length` is additive over concatenation. */
  lemma LengthAppend(a: string, b: string)
    ensures Length(a + b) == Length(a) + Length(b)
  {
    Utf16Append(a, b);
  }

  /**
   * `length` counts every character at least once and counts exactly the
   * characters when all of them lie in the BMP; then the code units are the
   * characters themselves.
   */
  lemma {:induction false} LengthOfBmp(s: string)
    ensures Length(s) >= |s|
    ensures (forall i :: 0 <= i < |s| ==> InBmp(s[i])) ==>
              Length(s) == |s| && forall i :: 0 <= i < |s| ==> Utf16(s)[i] == s[i] as int
    decreases |s|
  {
    if s != [] {
      LengthOfBmp(s[1..]);
      if forall i :: 0 <= i < |s| ==> InBmp(s[i]) {
        assert forall i :: 0 <= i < |s[1..]| ==> InBmp(s[1..][i]) by {
          forall i | 0 <= i < |s[1..]| ensures InBmp(s[1..][i]) { assert s[1..][i] == s[i + 1]; }
        }
        forall i | 0 <= i < |s| ensures Utf16(s)[i] == s[i] as int {
          if i > 0 { assert s[1..][i - 1] == s[i]; }
        }
      }
    }
  }
}
