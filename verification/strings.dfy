/**
  The Python string operations the keyword normaliser relies on:
  `str.lower`, `str.strip`, `in`, `str.startswith` and `str.replace`,
  written out on `seq<char>`.
 */
module Strings {

  // ---------------------------------------------------------------------
  // Case folding (`str.lower`, on the ASCII letters)
  // ---------------------------------------------------------------------

  predicate IsUpper(c: char)
  {
    'A' <= c <= 'Z'
  }

  function LowerChar(c: char): char
  {
    if IsUpper(c) then (c as int + 32) as char else c
  }

  function Lower(s: string): (r: string)
    ensures |r| == |s|
    ensures forall i :: 0 <= i < |r| ==> !IsUpper(r[i])
    ensures forall i :: 0 <= i < |s| && !IsUpper(s[i]) ==> r[i] == s[i]
    ensures forall i :: 0 <= i < |s| && IsUpper(s[i]) ==>
      'a' <= r[i] <= 'z' && r[i] as int - 'a' as int == s[i] as int - 'A' as int
  {
    seq(|s|, i requires 0 <= i < |s| => LowerChar(s[i]))
  }

  /** Applying `Lower` to every element of a list, as `[x.lower() for x in xs]`. */
  function LowerAll(xs: seq<string>): (r: seq<string>)
    ensures |r| == |xs|
    ensures forall i :: 0 <= i < |xs| ==> r[i] == Lower(xs[i])
  {
    seq(|xs|, i requires 0 <= i < |xs| => Lower(xs[i]))
  }

  /** A string without upper-case letters is its own lowercase form. */
  lemma LowerNoUpper(s: string)
    requires forall i :: 0 <= i < |s| ==> !IsUpper(s[i])
    ensures Lower(s) == s
  {
  }

  // ---------------------------------------------------------------------
  // Whitespace and `str.strip()`
  // ---------------------------------------------------------------------

  /** The characters for which Python's `str.isspace` holds. */
  predicate IsSpace(c: char)
  {
    || c == ' '
    || '\t' <= c <= '\r'
    || '\U{1c}' <= c <= '\U{1f}'
    || c == '\U{85}' || c == '\U{a0}' || c == '\U{1680}'
    || '\U{2000}' <= c <= '\U{200a}'
    || c == '\U{2028}' || c == '\U{2029}' || c == '\U{202f}'
    || c == '\U{205f}' || c == '\U{3000}'
  }

  /** Neither end of `s` is whitespace. */
  predicate IsStripped(s: string)
  {
    s == [] || (!IsSpace(s[0]) && !IsSpace(s[|s| - 1]))
  }

  /** Every character of `t` is whitespace. */
  predicate AllSpace(t: string)
  {
    forall i :: 0 <= i < |t| ==> IsSpace(t[i])
  }

  function StripLeft(s: string): (r: string)
    ensures |r| <= |s| && r == s[|s| - |r|..]
    ensures AllSpace(s[..|s| - |r|])
    ensures r == [] || !IsSpace(r[0])
    decreases |s|
  {
    if s != [] && IsSpace(s[0]) then
      var r := StripLeft(s[1..]);
      assert s[..|s| - |r|] == [s[0]] + s[1..][..|s| - 1 - |r|];
      r
    else s
  }

  function StripRight(s: string): (r: string)
    ensures |r| <= |s| && r == s[..|r|]
    ensures AllSpace(s[|r|..])
    ensures r == [] || !IsSpace(r[|r| - 1])
    decreases |s|
  {
    if s != [] && IsSpace(s[|s| - 1]) then
      var r := StripRight(s[..|s| - 1]);
      assert s[|r|..] == s[..|s| - 1][|r|..] + [s[|s| - 1]];
      r
    else s
  }

  /** `r` is `s` with `a` leading and some trailing whitespace characters removed. */
  predicate TrimmedAt(s: string, r: string, a: int)
  {
    && 0 <= a <= |s| - |r|
    && s[a..a + |r|] == r
    && AllSpace(s[..a])
    && AllSpace(s[a + |r|..])
  }

  /** `s.strip()`: `s` without its leading and trailing whitespace. */
  function Strip(s: string): (r: string)
    ensures IsStripped(r)
    ensures exists a :: TrimmedAt(s, r, a)
  {
    StripTrims(s);
    StripRight(StripLeft(s))
  }

  /** Stripping the left, then the right, trims at the length of the leading whitespace. */
  lemma StripTrims(s: string)
    ensures TrimmedAt(s, StripRight(StripLeft(s)), |s| - |StripLeft(s)|)
  {
    TrimmedTwice(s, StripLeft(s), StripRight(StripLeft(s)));
  }

  /** A suffix after leading whitespace, then its prefix before trailing whitespace, is a trim. */
  lemma TrimmedTwice(s: string, l: string, r: string)
    requires |l| <= |s| && l == s[|s| - |l|..] && AllSpace(s[..|s| - |l|])
    requires |r| <= |l| && r == l[..|r|] && AllSpace(l[|r|..])
    ensures TrimmedAt(s, r, |s| - |l|)
  {
    var a := |s| - |l|;
    assert s[a..a + |r|] == r;
    assert s[a + |r|..] == l[|r|..];
  }

  // ---------------------------------------------------------------------
  // Substrings: `s.startswith(p)` and `p in s`
  // ---------------------------------------------------------------------

  predicate StartsWith(s: string, p: string)
  {
    |p| <= |s| && s[..|p|] == p
  }

  /** `p in s`: `p` occurs in `s` at some position (the empty string everywhere). */
  predicate Contains(s: string, p: string)
    decreases |s|
  {
    StartsWith(s, p) || (s != [] && Contains(s[1..], p))
  }

  // ---------------------------------------------------------------------
  // `s.replace(pat, rep)`
  // ---------------------------------------------------------------------

  /**
    Python's `str.replace`: every occurrence of `pat`, scanned from the left
    and without overlaps, becomes `rep`. An empty `pat` occurs before every
    character and at the end, so `rep` is inserted at each of those places.
   */
  function ReplaceAll(s: string, pat: string, rep: string): string
    decreases |s|
  {
    if pat == [] then
      if s == [] then rep else rep + [s[0]] + ReplaceAll(s[1..], pat, rep)
    else if s == [] then []
    else if StartsWith(s, pat) then rep + ReplaceAll(s[|pat|..], pat, rep)
    else [s[0]] + ReplaceAll(s[1..], pat, rep)
  }

  /** Replacing a pattern that does not occur leaves the string as it was. */
  lemma {:induction false} ReplaceAbsent(s: string, pat: string, rep: string)
    requires pat != [] && !Contains(s, pat)
    ensures ReplaceAll(s, pat, rep) == s
    decreases |s|
  {
    if s != [] {
      ReplaceAbsent(s[1..], pat, rep);
    }
  }

  /** A shorter replacement never lengthens the string, and shortens it when the pattern occurs. */
  lemma {:induction false} ReplaceShrinks(s: string, pat: string, rep: string)
    requires |rep| < |pat|
    ensures |ReplaceAll(s, pat, rep)| <= |s|
    ensures Contains(s, pat) ==> |ReplaceAll(s, pat, rep)| < |s|
    decreases |s|
  {
    if s == [] {
    } else if StartsWith(s, pat) {
      ReplaceShrinks(s[|pat|..], pat, rep);
    } else {
      ReplaceShrinks(s[1..], pat, rep);
    }
  }

  // ---------------------------------------------------------------------
  // Collapsing runs of spaces
  // ---------------------------------------------------------------------

  const DoubleSpace: string := "  "
  const Space: string := " "

  /** The characters of `s` other than ' ', in order. */
  function NonSpaces(s: string): string
    decreases |s|
  {
    if s == [] then [] else (if s[0] == ' ' then [] else [s[0]]) + NonSpaces(s[1..])
  }

  /** One pass of `s.replace('  ', ' ')` removes only spaces. */
  lemma {:induction false} HalveKeepsNonSpaces(s: string)
    ensures NonSpaces(ReplaceAll(s, DoubleSpace, Space)) == NonSpaces(s)
    decreases |s|
  {
    var r := ReplaceAll(s, DoubleSpace, Space);
    if s == [] {
    } else if StartsWith(s, DoubleSpace) {
      HalveKeepsNonSpaces(s[2..]);
      assert r == Space + ReplaceAll(s[2..], DoubleSpace, Space);
      assert r[1..] == ReplaceAll(s[2..], DoubleSpace, Space);
      assert s[1..][1..] == s[2..];
    } else {
      HalveKeepsNonSpaces(s[1..]);
      assert r[1..] == ReplaceAll(s[1..], DoubleSpace, Space);
    }
  }

  /** One pass of `s.replace('  ', ' ')` keeps a last character that is not a space. */
  lemma {:induction false} HalveKeepsLast(s: string)
    requires s != [] && s[|s| - 1] != ' '
    ensures var r := ReplaceAll(s, DoubleSpace, Space); r != [] && r[|r| - 1] == s[|s| - 1]
    decreases |s|
  {
    if StartsWith(s, DoubleSpace) {
      HalveKeepsLast(s[2..]);
    } else if |s| > 1 {
      HalveKeepsLast(s[1..]);
    }
  }

  /**
    Every maximal run of spaces in `s` shortened to a single space, read
    from the left: a space directly followed by another space is dropped.
   */
  function Squeeze(s: string): string
    decreases |s|
  {
    if |s| <= 1 then s
    else if s[0] == ' ' && s[1] == ' ' then Squeeze(s[1..])
    else [s[0]] + Squeeze(s[1..])
  }

  /** Squeezing a string with one more character in front. */
  lemma SqueezeCons(c: char, t: string)
    ensures Squeeze([c] + t) == if c == ' ' && t != [] && t[0] == ' ' then Squeeze(t) else [c] + Squeeze(t)
  {
    assert ([c] + t)[1..] == t;
  }

  /** A string without a double space is its own squeeze. */
  lemma {:induction false} SqueezeNoDouble(s: string)
    requires !Contains(s, DoubleSpace)
    ensures Squeeze(s) == s
    decreases |s|
  {
    if |s| > 1 {
      assert !StartsWith(s, DoubleSpace);
      SqueezeNoDouble(s[1..]);
    }
  }

  /** One pass of `replace('  ', ' ')` starts with a space exactly when the string does. */
  lemma HalveHead(s: string)
    ensures var r := ReplaceAll(s, DoubleSpace, Space);
      (r != [] && r[0] == ' ') <==> (s != [] && s[0] == ' ')
  {
  }

  /** One pass of `replace('  ', ' ')` does not change the squeeze. */
  lemma {:induction false} HalveKeepsSqueeze(s: string)
    ensures Squeeze(ReplaceAll(s, DoubleSpace, Space)) == Squeeze(s)
    decreases |s|
  {
    if s != [] {
      if StartsWith(s, DoubleSpace) {
        var t := s[2..];
        assert s[..2] == DoubleSpace;
        assert s[0] == ' ' && s[1] == ' ';
        HalveKeepsSqueeze(t);
        HalveHead(t);
        assert ReplaceAll(s, DoubleSpace, Space) == [' '] + ReplaceAll(t, DoubleSpace, Space);
        SqueezeCons(' ', ReplaceAll(t, DoubleSpace, Space));
        assert s[1..] == [' '] + t;
        SqueezeCons(' ', t);
      } else {
        var t := s[1..];
        HalveKeepsSqueeze(t);
        HalveHead(t);
        assert ReplaceAll(s, DoubleSpace, Space) == [s[0]] + ReplaceAll(t, DoubleSpace, Space);
        SqueezeCons(s[0], ReplaceAll(t, DoubleSpace, Space));
        assert s == [s[0]] + t;
        SqueezeCons(s[0], t);
      }
    }
  }

  /** A string with no whitespace at all comes out of `Tidy` unchanged. */
  lemma {:induction false} TidyNoSpace(s: string)
    requires forall i :: 0 <= i < |s| ==> !IsSpace(s[i])
    ensures Tidy(s) == s
  {
    if s != [] {
      assert StripLeft(s) == s;
      assert StripRight(s) == s;
    }
    SqueezeNoSpace(s);
  }

  lemma {:induction false} SqueezeNoSpace(s: string)
    requires forall i :: 0 <= i < |s| ==> !IsSpace(s[i])
    ensures Squeeze(s) == s
    decreases |s|
  {
    if |s| > 1 {
      assert !IsSpace(s[0]);
      SqueezeNoSpace(s[1..]);
    }
  }

  /**
    The effect of `while '  ' in t: t = t.replace('  ', ' ')`: replace
    double spaces until none is left.
   */
  function CollapseSpaces(s: string): (r: string)
    ensures r == Squeeze(s)
    ensures !Contains(r, DoubleSpace)
    ensures NonSpaces(r) == NonSpaces(s)
    decreases |s|
  {
    if Contains(s, DoubleSpace) then
      ReplaceShrinks(s, DoubleSpace, Space);
      HalveKeepsNonSpaces(s);
      HalveKeepsSqueeze(s);
      CollapseSpaces(ReplaceAll(s, DoubleSpace, Space))
    else
      SqueezeNoDouble(s);
      s
  }

  /** Collapsing spaces keeps both ends of a string whose ends are not spaces. */
  lemma {:induction false} CollapseKeepsEnds(s: string)
    requires s != [] && s[0] != ' ' && s[|s| - 1] != ' '
    ensures var r := CollapseSpaces(s); r != [] && r[0] == s[0] && r[|r| - 1] == s[|s| - 1]
    decreases |s|
  {
    if Contains(s, DoubleSpace) {
      var t := ReplaceAll(s, DoubleSpace, Space);
      ReplaceShrinks(s, DoubleSpace, Space);
      assert !StartsWith(s, DoubleSpace);
      HalveKeepsLast(s);
      CollapseKeepsEnds(t);
    }
  }

  /** What a rewrite is turned into: stripped, then double spaces collapsed. */
  function Tidy(s: string): (r: string)
    ensures r == Squeeze(Strip(s))
    ensures IsStripped(r) && !Contains(r, DoubleSpace)
    ensures NonSpaces(r) == NonSpaces(Strip(s))
  {
    var t := Strip(s);
    if t == [] then t else CollapseKeepsEnds(t); CollapseSpaces(t)
  }
}
