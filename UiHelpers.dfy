/** The non-widget logic of app/ui_helpers.py: cropping to the centred
    square, the two-line heading of an image section, and the removal of
    stale results from the session state. */
module UiHelpers {
  import opened Types

  // ---------------------------------------------------------------------
  // crop_center_square
  // ---------------------------------------------------------------------

  function Min(a: nat, b: nat): nat {
    if a <= b then a else b
  }

  /** min(h, w): the side of the kept square. */
  function Side<T>(img: Grid<T>): nat {
    Min(|img|, Width(img))
  }

  /** (h - min_dim) // 2: rows dropped above the square. */
  function Top<T>(img: Grid<T>): nat {
    (|img| - Side(img)) / 2
  }

  /** (w - min_dim) // 2: columns dropped left of the square. */
  function Left<T>(img: Grid<T>): nat {
    (Width(img) - Side(img)) / 2
  }

  /** img[top:top + min_dim, left:left + min_dim]. The element type is left
      open, so a trailing channel axis passes through untouched. */
  function CropCenterSquare<T>(img: Grid<T>): (out: Grid<T>)
    requires IsRect(img)
    ensures |out| == Side(img) && IsRect(out) && Width(out) == Side(img)
    ensures forall i, j :: 0 <= i < |out| && 0 <= j < |out[i]| ==>
      out[i][j] == img[Top(img) + i][Left(img) + j]
  {
    var k, top, left := Side(img), Top(img), Left(img);
    seq(k, i requires 0 <= i < k => img[top + i][left..left + k])
  }

  /** The offsets keep the square inside the image. */
  lemma CropInBounds<T>(img: Grid<T>)
    ensures Top(img) + Side(img) <= |img|
    ensures Left(img) + Side(img) <= Width(img)
  {
  }

  /** The square is centred: on each axis the margin removed before it is at
      most the margin removed after it, and at most one smaller. */
  lemma CropCentered<T>(img: Grid<T>)
    ensures Top(img) <= |img| - Side(img) - Top(img) <= Top(img) + 1
    ensures Left(img) <= Width(img) - Side(img) - Left(img) <= Left(img) + 1
  {
  }

  /** A square image comes back unchanged. */
  lemma CropSquareUnchanged<T>(img: Grid<T>)
    requires IsRect(img) && |img| == Width(img)
    ensures CropCenterSquare(img) == img
  {
    var out := CropCenterSquare(img);
    forall i | 0 <= i < |img| ensures out[i] == img[i] {
      assert |out[i]| == |img[i]|;
    }
  }

  /** Cropping twice is cropping once. */
  lemma CropIdempotent<T>(img: Grid<T>)
    requires IsRect(img)
    ensures CropCenterSquare(CropCenterSquare(img)) == CropCenterSquare(img)
  {
    CropSquareUnchanged(CropCenterSquare(img));
  }

  /** Channels of one image share their shape, and so do their crops. */
  lemma CropSameShape<X, Y>(a: Grid<X>, b: Grid<Y>)
    requires IsRect(a) && IsRect(b) && SameShape(a, b)
    ensures SameShape(CropCenterSquare(a), CropCenterSquare(b))
  {
    assert Width(a) == Width(b);
  }

  // ---------------------------------------------------------------------
  // str.strip and the heading split of render_image_section
  // ---------------------------------------------------------------------

  /** Python's str.isspace for one character. */
  predicate IsSpace(c: char) {
    var n := c as int;
    (9 <= n <= 13) || (28 <= n <= 32) || n == 0x85 || n == 0xA0 || n == 0x1680
    || (0x2000 <= n <= 0x200A) || n == 0x2028 || n == 0x2029 || n == 0x202F
    || n == 0x205F || n == 0x3000
  }

  /** Number of whitespace characters that open s. */
  function Leading(s: string): (n: nat)
    ensures n <= |s|
    ensures forall k :: 0 <= k < n ==> IsSpace(s[k])
    ensures n == |s| || !IsSpace(s[n])
    decreases |s|
  {
    if |s| > 0 && IsSpace(s[0]) then
      var m := Leading(s[1..]);
      assert forall k :: 1 <= k < m + 1 ==> s[k] == s[1..][k - 1];
      m + 1
    else 0
  }

  /** Number of whitespace characters that close s. */
  function Trailing(s: string): (n: nat)
    ensures n <= |s|
    ensures forall k :: |s| - n <= k < |s| ==> IsSpace(s[k])
    ensures n == |s| || !IsSpace(s[|s| - n - 1])
    decreases |s|
  {
    if |s| > 0 && IsSpace(s[|s| - 1]) then
      var m := Trailing(s[..|s| - 1]);
      assert forall k :: |s| - 1 - m <= k < |s| - 1 ==> s[k] == s[..|s| - 1][k];
      m + 1
    else 0
  }

  /** str.strip(): the infix left after dropping the leading whitespace and
      then the trailing whitespace of the rest. Neither end of it is a
      space, and everything after it is whitespace. */
  function Strip(s: string): (r: string)
    ensures r == [] || (!IsSpace(r[0]) && !IsSpace(r[|r| - 1]))
    ensures Leading(s) + |r| <= |s| && r == s[Leading(s)..Leading(s) + |r|]
    ensures forall k :: Leading(s) + |r| <= k < |s| ==> IsSpace(s[k])
  {
    var a := Leading(s);
    var rest := s[a..];
    var e := a + |rest| - Trailing(rest);
    assert forall k :: e <= k < |s| ==> s[k] == rest[k - a];
    assert e > a ==> s[e - 1] == rest[|rest| - Trailing(rest) - 1];
    s[a..e]
  }

  /** The strip is the only infix s[i..j] with whitespace before and after
      it that is empty or has non-space ends. */
  lemma StripUnique(s: string, i: nat, j: nat)
    requires i <= j <= |s|
    requires forall k :: 0 <= k < i ==> IsSpace(s[k])
    requires forall k :: j <= k < |s| ==> IsSpace(s[k])
    requires i == j || (!IsSpace(s[i]) && !IsSpace(s[j - 1]))
    ensures Strip(s) == s[i..j]
  {
    var r, a := Strip(s), Leading(s);
    var e := a + |r|;
    if i < j {
      assert !IsSpace(s[i]) && a <= i;
      assert a == i;
      assert |r| > 0;
      assert s[e - 1] == r[|r| - 1] && !IsSpace(s[j - 1]);
      assert e == j;
    } else {
      assert forall k :: 0 <= k < |s| ==> IsSpace(s[k]);
    }
  }

  /** A string that neither starts nor ends with whitespace is its own strip. */
  lemma StripTrimmed(s: string)
    requires s == [] || (!IsSpace(s[0]) && !IsSpace(s[|s| - 1]))
    ensures Strip(s) == s
  {
    StripUnique(s, 0, |s|);
    assert s[0..|s|] == s;
  }

  lemma StripIdempotent(s: string)
    ensures Strip(Strip(s)) == Strip(s)
  {
    StripTrimmed(Strip(s));
  }

  /** The characters of s that are not whitespace, in order. */
  function Unspaced(s: string): (r: string)
    ensures |r| <= |s|
    ensures forall k :: 0 <= k < |r| ==> !IsSpace(r[k])
  {
    if |s| == 0 then []
    else if IsSpace(s[0]) then Unspaced(s[1..])
    else [s[0]] + Unspaced(s[1..])
  }

  lemma {:induction false} UnspacedConcat(a: string, b: string)
    ensures Unspaced(a + b) == Unspaced(a) + Unspaced(b)
    decreases |a|
  {
    if |a| > 0 {
      assert (a + b)[1..] == a[1..] + b;
      UnspacedConcat(a[1..], b);
    } else {
      assert a + b == b;
    }
  }

  lemma {:induction false} UnspacedOfSpaces(s: string)
    requires forall k :: 0 <= k < |s| ==> IsSpace(s[k])
    ensures Unspaced(s) == []
    decreases |s|
  {
    if |s| > 0 {
      UnspacedOfSpaces(s[1..]);
    }
  }

  /** Stripping removes whitespace only. */
  lemma UnspacedStrip(s: string)
    ensures Unspaced(Strip(s)) == Unspaced(s)
  {
    var r := Strip(s);
    var a := Leading(s);
    var pre, post := s[..a], s[a + |r|..];
    assert s == pre + r + post;
    UnspacedOfSpaces(pre);
    UnspacedOfSpaces(post);
    UnspacedConcat(pre + r, post);
    UnspacedConcat(pre, r);
  }

  /** Index of the first occurrence of c (what str.split(c, 1) splits at). */
  function FirstIndexOf(s: string, c: char): (r: Option<nat>)
    ensures r.Some? <==> c in s
    ensures r.Some? ==> r.value < |s| && s[r.value] == c && c !in s[..r.value]
  {
    if |s| == 0 then None
    else if s[0] == c then Some(0)
    else match FirstIndexOf(s[1..], c)
      case None => None
      case Some(k) =>
        assert s[..k + 1] == [s[0]] + s[1..][..k];
        Some(k + 1)
  }

  /** The two lines of the heading drawn above an image. */
  datatype TitleLines = TitleLines(line1: string, line2: string)

  /** The heading split of render_image_section: with both '(' and ')'
      anywhere in the title, the title is cut at its first '('; otherwise it
      stays on line 1 and line 2 is empty. */
  function SplitTitle(title: string): (r: TitleLines)
    ensures !('(' in title && ')' in title) ==> r.line1 == title && r.line2 == ""
  {
    if '(' in title && ')' in title then
      var p := FirstIndexOf(title, '(').value;
      TitleLines(Strip(title[..p]), "(" + Strip(title[p + 1..]))
    else TitleLines(title, "")
  }

  /** With both '(' and ')' present, line 1 is the stripped text before the
      first '(' and line 2 is '(' followed by the stripped rest. */
  lemma SplitTitleAtFirstParen(title: string)
    requires '(' in title && ')' in title
    ensures exists p :: (0 <= p < |title| && title[p] == '(' && '(' !in title[..p]
      && SplitTitle(title) == TitleLines(Strip(title[..p]), "(" + Strip(title[p + 1..])))
  {
    var p := FirstIndexOf(title, '(').value;
    assert title[p] == '(' && '(' !in title[..p];
  }

  /** Every character of a strip comes from the original. */
  lemma StripFrom(s: string, c: char)
    requires c in Strip(s)
    ensures c in s
  {
    var r, a := Strip(s), Leading(s);
    var k :| 0 <= k < |r| && r[k] == c;
    assert s[a + k] == c;
  }

  lemma UnspacedAroundParen(pre: string, post: string)
    ensures Unspaced(Strip(pre) + ("(" + Strip(post))) == Unspaced(pre + ("(" + post))
  {
    assert !IsSpace('(');
    UnspacedConcat(Strip(pre), "(" + Strip(post));
    UnspacedConcat("(", Strip(post));
    UnspacedConcat(pre, "(" + post);
    UnspacedConcat("(", post);
    UnspacedStrip(pre);
    UnspacedStrip(post);
  }

  /** The split loses nothing but whitespace: line 1 holds no '(' and line 2
      starts with it, and together they spell the title. */
  lemma SplitTitleKeepsText(title: string)
    requires '(' in title && ')' in title
    ensures var r := SplitTitle(title);
      '(' !in r.line1 && |r.line2| > 0 && r.line2[0] == '('
      && Unspaced(r.line1 + r.line2) == Unspaced(title)
  {
    var p := FirstIndexOf(title, '(').value;
    var pre, post := title[..p], title[p + 1..];
    assert title == pre + ("(" + post);
    if '(' in Strip(pre) {
      StripFrom(pre, '(');
    }
    UnspacedAroundParen(pre, post);
  }

  /** A title built as prefix + "(" + rest, with no '(' in the prefix and a
      ')' in the rest, splits at that '('. */
  lemma SplitTitleAt(prefix: string, rest: string)
    requires '(' !in prefix && ')' in rest
    ensures SplitTitle(prefix + "(" + rest) == TitleLines(Strip(prefix), "(" + Strip(rest))
  {
    var title := prefix + "(" + rest;
    assert title[|prefix|] == '(';
    assert ')' in title by {
      var k :| 0 <= k < |rest| && rest[k] == ')';
      assert title[|prefix| + 1 + k] == ')';
    }
    var p := FirstIndexOf(title, '(').value;
    assert forall k :: 0 <= k < |prefix| ==> title[k] == prefix[k];
    assert p == |prefix|;
    assert title[..p] == prefix;
    assert title[p + 1..] == rest;
  }

  // ---------------------------------------------------------------------
  // clear_previous_results
  // ---------------------------------------------------------------------

  /** The session keys that hold computed results and their distances. */
  const ResultKeys: seq<string> := ["gray_outs", "rgb_outs", "r_outs", "g_outs", "b_outs", "z_vals"]

  /** The session state once every result key is gone. */
  function WithoutResults<V>(m: map<string, V>): (r: map<string, V>)
    ensures forall k :: k in r <==> k in m && k !in ResultKeys
    ensures forall k :: k in r ==> r[k] == m[k]
  {
    map k | k in m && k !in ResultKeys :: m[k]
  }

  /** Clearing again changes nothing. */
  lemma WithoutResultsIdempotent<V>(m: map<string, V>)
    ensures WithoutResults(WithoutResults(m)) == WithoutResults(m)
  {
  }

  /** The mutable session state of the app (st.session_state). */
  class Session<V> {
    var state: map<string, V>

    constructor (initial: map<string, V>)
      ensures state == initial
    {
      state := initial;
    }

    /** clear_previous_results: pops each result key, present or not. */
    method ClearPreviousResults()
      modifies this
      ensures state == WithoutResults(old(state))
    {
      for i := 0 to |ResultKeys|
        invariant state == old(state) - (set k | k in ResultKeys[..i])
      {
        state := state - {ResultKeys[i]};
        assert ResultKeys[..i + 1] == ResultKeys[..i] + [ResultKeys[i]];
      }
      assert ResultKeys[..|ResultKeys|] == ResultKeys;
    }
  }
}
