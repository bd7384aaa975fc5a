/**
 * The word counter of the writing exercise:
 *
 *   essayText.trim().split(/\s+/).filter(w => w.length > 0).length
 *
 * modelled step by step (trim, split on white-space runs, drop empty
 * pieces, count), and proved equal to an independent definition, the
 * number of maximal runs of non-white-space characters.
 */
module Words {

  /** The characters that JavaScript's `\s` and `String.prototype.trim`
      treat as white space: the WhiteSpace and LineTerminator code points
      of ECMAScript (tab, line feed, vertical tab, form feed, carriage
      return, space, no-break space, ogham space mark, the spaces
      U+2000..U+200A, line and paragraph separators, narrow no-break space,
      medium mathematical space, ideographic space, byte order mark).
      Letters, digits, apostrophes and hyphens are not white space, so
      they stay inside a word. */
  predicate IsSpace(c: char)
    ensures c == ' ' || c == '\t' || c == '\n' || c == '\r' ==> IsSpace(c)
    ensures 'a' <= c <= 'z' || 'A' <= c <= 'Z' || '0' <= c <= '9' || c == '\'' || c == '-' ==> !IsSpace(c)
  {
    var n := c as int;
    (0x09 <= n <= 0x0D) || n == 0x20 || n == 0xA0 || n == 0x1680
    || (0x2000 <= n <= 0x200A) || n == 0x2028 || n == 0x2029
    || n == 0x202F || n == 0x205F || n == 0x3000 || n == 0xFEFF
  }

  predicate AllSpace(s: string) {
    forall k :: 0 <= k < |s| ==> IsSpace(s[k])
  }

  predicate NoSpace(s: string) {
    forall k :: 0 <= k < |s| ==> !IsSpace(s[k])
  }

  /** Every position of `s` in `[lo, hi)` holds white space. */
  predicate SpaceBetween(s: string, lo: nat, hi: nat)
    requires hi <= |s|
  {
    forall k :: lo <= k < hi ==> IsSpace(s[k])
  }

  // ---------------------------------------------------------------------
  // The counter as the component computes it
  // ---------------------------------------------------------------------

  /** The first position at or after `i` that does not hold white space
      (or `|s|`): the end of the white-space run starting at `i`. */
  function SkipSpace(s: string, i: nat): (j: nat)
    requires i <= |s|
    ensures i <= j <= |s|
    ensures forall k :: i <= k < j ==> IsSpace(s[k])
    ensures j < |s| ==> !IsSpace(s[j])
    decreases |s| - i
  {
    if i < |s| && IsSpace(s[i]) then SkipSpace(s, i + 1) else i
  }

  /** The start of the white-space run that ends at `j`, going back no
      further than `lo`. */
  function SkipSpaceBack(s: string, lo: nat, j: nat): (e: nat)
    requires lo <= j <= |s|
    ensures lo <= e <= j
    ensures forall k :: e <= k < j ==> IsSpace(s[k])
    ensures e > lo ==> !IsSpace(s[e - 1])
    decreases j
  {
    if j > lo && IsSpace(s[j - 1]) then SkipSpaceBack(s, lo, j - 1) else j
  }

  /** The bounds of `s.trim()`: everything before the start and from the end
      on is white space, and a non-empty result starts and ends with
      something else. */
  function TrimBounds(s: string): (b: (nat, nat))
    ensures b.0 <= b.1 <= |s|
    ensures forall k :: 0 <= k < b.0 ==> IsSpace(s[k])
    ensures forall k :: b.1 <= k < |s| ==> IsSpace(s[k])
    ensures b.0 < b.1 ==> !IsSpace(s[b.0]) && !IsSpace(s[b.1 - 1])
  {
    var i := SkipSpace(s, 0);
    (i, SkipSpaceBack(s, i, |s|))
  }

  /** `String.prototype.trim`: the slice of `s` left when the white space
      at both ends is removed. */
  function Trim(s: string): (r: string)
    ensures exists a, b :: 0 <= a <= b <= |s| && r == s[a..b] && SpaceBetween(s, 0, a) && SpaceBetween(s, b, |s|)
    ensures r == [] || (!IsSpace(r[0]) && !IsSpace(r[|r| - 1]))
    ensures r == [] <==> AllSpace(s)
  {
    var b := TrimBounds(s);
    assert SpaceBetween(s, 0, b.0) && SpaceBetween(s, b.1, |s|);
    if b.0 == b.1 then
      assert s[b.0..b.1] == [];
      []
    else
      assert !IsSpace(s[b.0]);
      s[b.0..b.1]
  }

  /** The first white-space position at or after `i` (or `|s|`): the end of
      the piece starting at `i`. */
  function FirstSpace(s: string, i: nat): (j: nat)
    requires i <= |s|
    ensures i <= j <= |s|
    ensures forall k :: i <= k < j ==> !IsSpace(s[k])
    ensures j < |s| ==> IsSpace(s[j])
    decreases |s| - i
  {
    if i == |s| || IsSpace(s[i]) then i else FirstSpace(s, i + 1)
  }

  /** `s[i..].split(/\s+/)`, as the pieces of `s` from `i` on. */
  function SplitFrom(s: string, i: nat): (pieces: seq<string>)
    requires i <= |s|
    ensures |pieces| >= 1
    ensures forall p :: p in pieces ==> NoSpace(p)
    decreases |s| - i
  {
    var j := FirstSpace(s, i);
    if j == |s| then
      [s[i..]]
    else
      [s[i..j]] + SplitFrom(s, SkipSpace(s, j))
  }

  /** `s.split(/\s+/)`: the pieces between maximal runs of white space, in
      order, with an empty piece before a leading run and after a trailing
      run, and `[""]` for the empty string. */
  function Split(s: string): (pieces: seq<string>)
    ensures |pieces| >= 1
    ensures forall p :: p in pieces ==> NoSpace(p)
  {
    SplitFrom(s, 0)
  }

  /** `.filter(w => w.length > 0)`: the non-empty pieces, in order. */
  function NonEmpty(pieces: seq<string>): (r: seq<string>)
    ensures |r| <= |pieces|
    ensures forall p :: p in r ==> p != [] && p in pieces
    ensures forall p :: p in pieces && p != [] ==> p in r
  {
    if pieces == [] then []
    else (if pieces[0] != [] then [pieces[0]] else []) + NonEmpty(pieces[1..])
  }

  /** The word count shown in the writing exercise's badge: 0 exactly for
      an empty or all-white-space text. */
  function WordCount(text: string): (n: nat)
    ensures n == 0 <==> AllSpace(text)
  {
    SplitTrimmedNoEmpty(text);
    |NonEmpty(Split(Trim(text)))|
  }

  // ---------------------------------------------------------------------
  // Splitting undone: the pieces woven back with the white space between
  // ---------------------------------------------------------------------

  /** The pieces with the separators between them put back:
      `pieces[0] + gaps[0] + pieces[1] + ... + pieces[|gaps|]`. */
  function Weave(pieces: seq<string>, gaps: seq<string>): string
    requires |pieces| == |gaps| + 1
    decreases |gaps|
  {
    if gaps == [] then pieces[0] else pieces[0] + gaps[0] + Weave(pieces[1..], gaps[1..])
  }

  /** The white-space runs `s[i..].split(/\s+/)` splits at, in order. */
  function GapsFrom(s: string, i: nat): (gaps: seq<string>)
    requires i <= |s|
    ensures |gaps| + 1 == |SplitFrom(s, i)|
    ensures forall g :: g in gaps ==> g != [] && AllSpace(g)
    decreases |s| - i
  {
    var j := FirstSpace(s, i);
    if j == |s| then
      []
    else
      var m := SkipSpace(s, j);
      assert s[j] == s[j..m][0];
      [s[j..m]] + GapsFrom(s, m)
  }

  /** Splitting loses nothing: the pieces from `i` on, woven back with the
      non-empty white-space runs between them, give back `s[i..]`. */
  lemma {:induction false} SplitFromWeave(s: string, i: nat)
    requires i <= |s|
    ensures Weave(SplitFrom(s, i), GapsFrom(s, i)) == s[i..]
    decreases |s| - i
  {
    var j := FirstSpace(s, i);
    if j < |s| {
      var m := SkipSpace(s, j);
      var pieces, gaps := SplitFrom(s, i), GapsFrom(s, i);
      assert pieces == [s[i..j]] + SplitFrom(s, m);
      assert gaps == [s[j..m]] + GapsFrom(s, m);
      assert pieces[1..] == SplitFrom(s, m) && gaps[1..] == GapsFrom(s, m);
      SplitFromWeave(s, m);
      assert Weave(pieces, gaps) == s[i..j] + s[j..m] + s[m..];
      SliceThree(s, i, j, m);
    }
  }

  lemma SliceThree(s: string, i: nat, j: nat, m: nat)
    requires i <= j <= m <= |s|
    ensures s[i..] == s[i..j] + s[j..m] + s[m..]
  {
    assert s[i..] == s[i..j] + s[j..];
    assert s[j..] == s[j..m] + s[m..];
  }

  /** Every piece but the first and the last is non-empty: two white-space
      runs are never split at as two separators. */
  lemma {:induction false} SplitFromInnerNonEmpty(s: string, i: nat)
    requires i <= |s|
    ensures forall k :: 0 < k < |SplitFrom(s, i)| - 1 ==> SplitFrom(s, i)[k] != []
    decreases |s| - i
  {
    var j := FirstSpace(s, i);
    if j < |s| {
      var m := SkipSpace(s, j);
      var pieces, rest := SplitFrom(s, i), SplitFrom(s, m);
      SplitFromInnerNonEmpty(s, m);
      assert pieces == [s[i..j]] + rest;
      if m < |s| {
        var f := FirstSpace(s, m);
        if f == |s| {
          assert rest == [s[m..]];
        } else {
          assert rest == [s[m..f]] + SplitFrom(s, SkipSpace(s, f));
        }
        assert rest[0] != [];
      } else {
        assert rest == [s[m..]];
      }
      assert |pieces| == |rest| + 1;
      forall k | 0 < k < |pieces| - 1 ensures pieces[k] != [] {
        assert pieces[k] == rest[k - 1];
        if k == 1 {
          assert m < |s|;
        } else {
          assert 0 < k - 1 < |rest| - 1;
          assert rest[k - 1] != [];
        }
      }
    }
  }

  /** `s.split(/\s+/)` taken back: the pieces, which hold no white space
      and are non-empty except possibly the first and the last, woven
      with the non-empty white-space runs between them, are `s`. */
  lemma SplitRoundTrip(s: string)
    ensures |Split(s)| == |GapsFrom(s, 0)| + 1
    ensures Weave(Split(s), GapsFrom(s, 0)) == s
    ensures forall k :: 0 < k < |Split(s)| - 1 ==> Split(s)[k] != []
  {
    SplitFromWeave(s, 0);
    SplitFromInnerNonEmpty(s, 0);
    assert s[0..] == s;
  }

  // ---------------------------------------------------------------------
  // The reference definition: maximal non-white-space runs
  // ---------------------------------------------------------------------

  /** Number of positions in `[i, hi)` at which a non-white-space run
      starts, when the character before position `i` was white space
      (`afterSpace`) or not. */
  function RunsBetween(s: string, i: nat, hi: nat, afterSpace: bool): nat
    requires i <= hi <= |s|
    decreases hi - i
  {
    if i == hi then 0
    else (if afterSpace && !IsSpace(s[i]) then 1 else 0) + RunsBetween(s, i + 1, hi, IsSpace(s[i]))
  }

  /** Number of maximal runs of non-white-space characters in `s`. */
  function Runs(s: string): nat {
    RunsBetween(s, 0, |s|, true)
  }

  // ---------------------------------------------------------------------
  // Lemmas
  // ---------------------------------------------------------------------

  /** Counting over a range split at `m`: the second part starts after the
      character at `m - 1`. */
  lemma {:induction false} RunsBetweenSplit(s: string, i: nat, m: nat, hi: nat, afterSpace: bool)
    requires i <= m <= hi <= |s|
    ensures RunsBetween(s, i, hi, afterSpace)
         == RunsBetween(s, i, m, afterSpace) + RunsBetween(s, m, hi, if m == i then afterSpace else IsSpace(s[m - 1]))
    decreases m - i
  {
    if i < m {
      RunsBetweenSplit(s, i + 1, m, hi, IsSpace(s[i]));
    }
  }

  /** Counting over a range of `s` is counting over that slice. */
  lemma {:induction false} RunsBetweenSlice(s: string, i: nat, hi: nat, afterSpace: bool)
    requires i <= hi <= |s|
    ensures RunsBetween(s[i..hi], 0, hi - i, afterSpace) == RunsBetween(s, i, hi, afterSpace)
    decreases hi - i
  {
    if i < hi {
      RunsBetweenSlice(s, i + 1, hi, IsSpace(s[i]));
      RunsBetweenShift(s[i..hi], 1, hi - i, IsSpace(s[i]));
      assert s[i..hi][1..] == s[i + 1..hi];
    }
  }

  /** Dropping the first character of a string shifts the range by one. */
  lemma {:induction false} RunsBetweenShift(s: string, i: nat, hi: nat, afterSpace: bool)
    requires 1 <= i <= hi <= |s|
    ensures RunsBetween(s[1..], i - 1, hi - 1, afterSpace) == RunsBetween(s, i, hi, afterSpace)
    decreases hi - i
  {
    if i < hi {
      RunsBetweenShift(s, i + 1, hi, IsSpace(s[i]));
    }
  }

  /** White space starts no run. */
  lemma {:induction false} RunsBetweenAllSpace(s: string, i: nat, hi: nat, afterSpace: bool)
    requires i <= hi <= |s|
    requires forall k :: i <= k < hi ==> IsSpace(s[k])
    ensures RunsBetween(s, i, hi, afterSpace) == 0
    decreases hi - i
  {
    if i < hi {
      RunsBetweenAllSpace(s, i + 1, hi, true);
    }
  }

  /** A range without white space is one run if it follows white space, and
      continues the current run otherwise. */
  lemma {:induction false} RunsBetweenNoSpace(s: string, i: nat, hi: nat, afterSpace: bool)
    requires i <= hi <= |s|
    requires forall k :: i <= k < hi ==> !IsSpace(s[k])
    ensures RunsBetween(s, i, hi, afterSpace) == if i < hi && afterSpace then 1 else 0
    decreases hi - i
  {
    if i < hi {
      RunsBetweenNoSpace(s, i + 1, hi, false);
    }
  }

  /** A range after white space without runs is all white space. */
  lemma {:induction false} NoRunsAllSpace(s: string, i: nat, hi: nat)
    requires i <= hi <= |s|
    requires RunsBetween(s, i, hi, true) == 0
    ensures forall k :: i <= k < hi ==> IsSpace(s[k])
    decreases hi - i
  {
    if i < hi {
      NoRunsAllSpace(s, i + 1, hi);
    }
  }

  /** Filtering distributes over concatenation, so it keeps the order and
      the multiplicity of the non-empty pieces. */
  lemma {:induction false} NonEmptyConcat(a: seq<string>, b: seq<string>)
    ensures NonEmpty(a + b) == NonEmpty(a) + NonEmpty(b)
    decreases |a|
  {
    if a == [] {
      assert a + b == b;
    } else {
      assert (a + b)[1..] == a[1..] + b;
      NonEmptyConcat(a[1..], b);
    }
  }

  lemma {:induction false} NonEmptyCons(p: string, rest: seq<string>)
    ensures |NonEmpty([p] + rest)| == (if p != [] then 1 else 0) + |NonEmpty(rest)|
  {
    assert ([p] + rest)[1..] == rest;
  }

  /** Splitting from `i` on white-space runs and dropping empty pieces
      leaves one piece per maximal non-white-space run from `i` on. */
  lemma {:induction false} SplitCountsRuns(s: string, i: nat)
    requires i <= |s|
    ensures |NonEmpty(SplitFrom(s, i))| == RunsBetween(s, i, |s|, true)
    decreases |s| - i
  {
    var j := FirstSpace(s, i);
    RunsBetweenSplit(s, i, j, |s|, true);
    RunsBetweenNoSpace(s, i, j, true);
    if j == |s| {
      assert |NonEmpty([s[i..]])| == (if i < j then 1 else 0) by {
        NonEmptyCons(s[i..], []);
      }
    } else {
      var m := SkipSpace(s, j);
      NonEmptyCons(s[i..j], SplitFrom(s, m));
      SplitCountsRuns(s, m);
      var p := if j == i then true else IsSpace(s[j - 1]);
      RunsBetweenSplit(s, j, m, |s|, p);
      RunsBetweenAllSpace(s, j, m, p);
    }
  }

  /** Trimming never changes the number of runs. */
  lemma TrimKeepsRuns(s: string)
    ensures Runs(Trim(s)) == Runs(s)
  {
    var b := TrimBounds(s);
    RunsBetweenSplit(s, 0, b.0, |s|, true);
    RunsBetweenAllSpace(s, 0, b.0, true);
    RunsBetweenSplit(s, b.0, b.1, |s|, true);
    var p := if b.1 == b.0 then true else IsSpace(s[b.1 - 1]);
    RunsBetweenAllSpace(s, b.1, |s|, p);
    if b.0 < b.1 {
      RunsBetweenSlice(s, b.0, b.1, true);
    } else {
      RunsBetweenAllSpace(s, 0, |s|, true);
    }
  }

  /** The word counter counts the maximal non-white-space runs of the text. */
  lemma WordCountIsRuns(text: string)
    ensures WordCount(text) == Runs(text)
  {
    SplitCountsRuns(Trim(text), 0);
    TrimKeepsRuns(text);
  }

  /** A non-empty text without white space is one word. */
  lemma WordCountOneWord(text: string)
    requires text != [] && NoSpace(text)
    ensures WordCount(text) == 1
  {
    WordCountIsRuns(text);
    RunsBetweenNoSpace(text, 0, |text|, true);
  }

  /** Two texts joined by a white-space character have as many runs as the
      two texts together. */
  lemma RunsJoin(a: string, c: char, b: string)
    requires IsSpace(c)
    ensures Runs(a + [c] + b) == Runs(a) + Runs(b)
  {
    var x := a + [c] + b;
    assert x[0..|a|] == a && x[|a| + 1..|x|] == b;
    RunsBetweenSplit(x, 0, |a|, |x|, true);
    RunsBetweenSlice(x, 0, |a|, true);
    var p := if |a| == 0 then true else IsSpace(x[|a| - 1]);
    RunsBetweenSplit(x, |a|, |a| + 1, |x|, p);
    RunsBetweenAllSpace(x, |a|, |a| + 1, p);
    RunsBetweenSlice(x, |a| + 1, |x|, true);
  }

  /** Joining two texts with a white-space character adds their counts. */
  lemma WordCountJoin(a: string, c: char, b: string)
    requires IsSpace(c)
    ensures WordCount(a + [c] + b) == WordCount(a) + WordCount(b)
  {
    WordCountIsRuns(a + [c] + b);
    WordCountIsRuns(a);
    WordCountIsRuns(b);
    RunsJoin(a, c, b);
  }

  /** Splitting from a non-white-space position of a text that does not end
      in white space yields no empty piece. */
  lemma {:induction false} SplitFromNoEmpty(s: string, i: nat)
    requires i < |s| && !IsSpace(s[i]) && !IsSpace(s[|s| - 1])
    ensures forall p :: p in SplitFrom(s, i) ==> p != []
    decreases |s| - i
  {
    var j := FirstSpace(s, i);
    if j < |s| {
      var m := SkipSpace(s, j);
      assert m < |s|;
      SplitFromNoEmpty(s, m);
    }
  }

  /** After trimming, the split yields no empty piece unless the text was
      blank, so the filter only removes the `[""]` of a blank text. */
  lemma SplitTrimmedNoEmpty(text: string)
    ensures AllSpace(text) ==> Split(Trim(text)) == [[]]
    ensures !AllSpace(text) ==> forall p :: p in Split(Trim(text)) ==> p != []
  {
    var t := Trim(text);
    if t != [] {
      SplitFromNoEmpty(t, 0);
    } else {
      assert t[0..] == [];
    }
  }
}
