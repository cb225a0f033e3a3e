/** The two Python string operations the collectors rely on: `str.split()`
    with no separator and `str.strip()` with no argument. Both treat exactly
    the characters for which `str.isspace()` holds as whitespace. */
module Text {

  /** The characters Python's `str.isspace()` accepts. */
  predicate IsSpace(c: char) {
    || c == '\t' || c == '\n' || c == '\U{000B}' || c == '\U{000C}' || c == '\r'
    || ('\U{001C}' <= c <= '\U{001F}')
    || c == ' ' || c == '\U{0085}' || c == '\U{00A0}' || c == '\U{1680}'
    || ('\U{2000}' <= c <= '\U{200A}')
    || c == '\U{2028}' || c == '\U{2029}' || c == '\U{202F}' || c == '\U{205F}'
    || c == '\U{3000}'
  }

  ghost predicate AllSpace(s: string) {
    forall i :: 0 <= i < |s| ==> IsSpace(s[i])
  }

  ghost predicate NoSpace(s: string) {
    forall i :: 0 <= i < |s| ==> !IsSpace(s[i])
  }

  /** The non-whitespace characters of `s`, in order. */
  function NonSpace(s: string): string {
    if |s| == 0 then [] else (if IsSpace(s[0]) then [] else [s[0]]) + NonSpace(s[1..])
  }

  /** Concatenation of a list of strings, `"".join(parts)`. */
  function Concat(parts: seq<string>): string {
    if |parts| == 0 then [] else parts[0] + Concat(parts[1..])
  }

  /** Length of the run of whitespace at the start of `s`. */
  function LeadingSpace(s: string): (n: nat)
    ensures n <= |s|
    ensures AllSpace(s[..n])
    ensures n < |s| ==> !IsSpace(s[n])
  {
    if |s| == 0 || !IsSpace(s[0]) then 0 else 1 + LeadingSpace(s[1..])
  }

  /** Length of the run of whitespace at the end of `s`. */
  function TrailingSpace(s: string): (n: nat)
    ensures n <= |s|
    ensures AllSpace(s[|s| - n..])
    ensures n < |s| ==> !IsSpace(s[|s| - n - 1])
  {
    if |s| == 0 || !IsSpace(s[|s| - 1]) then 0
    else
      var n := TrailingSpace(s[..|s| - 1]);
      assert s[..|s| - 1][|s| - 1 - n..] + [s[|s| - 1]] == s[|s| - n - 1..];
      1 + n
  }

  /** Length of the run of non-whitespace at the start of `s`. */
  function WordLength(s: string): (n: nat)
    ensures n <= |s|
    ensures NoSpace(s[..n])
    ensures n < |s| ==> IsSpace(s[n])
  {
    if |s| == 0 || IsSpace(s[0]) then 0 else 1 + WordLength(s[1..])
  }

  /** Python's `s.strip()`: drops leading and trailing whitespace and keeps
      everything in between. */
  function Strip(s: string): (r: string)
    ensures |r| <= |s|
    ensures |r| == 0 || (!IsSpace(r[0]) && !IsSpace(r[|r| - 1]))
  {
    var t := s[LeadingSpace(s)..];
    t[..|t| - TrailingSpace(t)]
  }

  /** Python's `s.split()`: the maximal runs of non-whitespace, in order. */
  function Split(s: string): (r: seq<string>)
    ensures forall k :: 0 <= k < |r| ==> |r[k]| > 0 && NoSpace(r[k])
    decreases |s|
  {
    if |s| == 0 then []
    else if IsSpace(s[0]) then Split(s[1..])
    else
      var n := WordLength(s);
      [s[..n]] + Split(s[n..])
  }

  lemma {:induction false} NonSpaceAppend(a: string, b: string)
    ensures NonSpace(a + b) == NonSpace(a) + NonSpace(b)
    decreases |a|
  {
    if |a| == 0 {
      assert a + b == b;
    } else {
      assert (a + b)[1..] == a[1..] + b;
      NonSpaceAppend(a[1..], b);
    }
  }

  lemma {:induction false} NonSpaceAllSpace(s: string)
    requires AllSpace(s)
    ensures NonSpace(s) == []
    decreases |s|
  {
    if |s| > 0 {
      NonSpaceAllSpace(s[1..]);
    }
  }

  lemma {:induction false} NonSpaceNoSpace(s: string)
    requires NoSpace(s)
    ensures NonSpace(s) == s
    decreases |s|
  {
    if |s| > 0 {
      NonSpaceNoSpace(s[1..]);
    }
  }

  /** The tokens of `s.split()` are, end to end, exactly the non-whitespace
      characters of `s`: splitting loses only whitespace. */
  lemma {:induction false} SplitKeepsText(s: string)
    ensures Concat(Split(s)) == NonSpace(s)
    decreases |s|
  {
    if |s| == 0 {
    } else if IsSpace(s[0]) {
      SplitKeepsText(s[1..]);
    } else {
      var n := WordLength(s);
      assert s == s[..n] + s[n..];
      NonSpaceAppend(s[..n], s[n..]);
      NonSpaceNoSpace(s[..n]);
      SplitKeepsText(s[n..]);
      assert Split(s) == [s[..n]] + Split(s[n..]);
    }
  }

  /** WordLength is the one length whose prefix is free of whitespace and
      is followed by whitespace or the end. */
  lemma {:induction false} WordLengthIs(s: string, n: nat)
    requires n <= |s| && NoSpace(s[..n]) && (n < |s| ==> IsSpace(s[n]))
    ensures WordLength(s) == n
    decreases n
  {
    if n > 0 {
      assert s[1..][..n - 1] == s[1..n];
      WordLengthIs(s[1..], n - 1);
    }
  }

  /** The string made of `words` with whitespace runs between and around
      them: `gaps[0] + words[0] + gaps[1] + … + words[n-1] + gaps[n]`. */
  function Layout(words: seq<string>, gaps: seq<string>): string
    requires |gaps| == |words| + 1
    decreases |words|
  {
    if |words| == 0 then gaps[0] else gaps[0] + words[0] + Layout(words[1..], gaps[1..])
  }

  /** The gaps of a layout: all whitespace, and never empty between two words. */
  ghost predicate Gaps(words: seq<string>, gaps: seq<string>) {
    && |gaps| == |words| + 1
    && (forall k :: 0 <= k < |gaps| ==> AllSpace(gaps[k]))
    && (forall k :: 0 < k < |words| ==> |gaps[k]| > 0)
  }

  /** `split()` takes every maximal run of non-whitespace as one token: the
      words of a layout come back exactly, whatever whitespace runs separate
      them and whatever whitespace stands before and after. */
  lemma {:induction false} SplitLayout(words: seq<string>, gaps: seq<string>)
    requires forall k :: 0 <= k < |words| ==> |words[k]| > 0 && NoSpace(words[k])
    requires Gaps(words, gaps)
    ensures Split(Layout(words, gaps)) == words
    decreases |words|
  {
    if |words| == 0 {
      SplitSkipsSpace(gaps[0], []);
      assert gaps[0] + [] == gaps[0];
    } else {
      var rest := Layout(words[1..], gaps[1..]);
      assert Gaps(words[1..], gaps[1..]) by {
        assert forall k :: 0 <= k < |gaps| - 1 ==> gaps[1..][k] == gaps[k + 1];
      }
      SplitLayout(words[1..], gaps[1..]);
      LayoutStartsWithSpace(words[1..], gaps[1..]);
      SplitWord(words[0], rest);
      SplitSkipsSpace(gaps[0], words[0] + rest);
      assert gaps[0] + words[0] + rest == gaps[0] + (words[0] + rest);
    }
  }

  /** A layout whose first gap is whitespace is empty or starts with whitespace. */
  lemma LayoutStartsWithSpace(words: seq<string>, gaps: seq<string>)
    requires |gaps| == |words| + 1 && AllSpace(gaps[0])
    requires |words| > 0 ==> |gaps[0]| > 0
    ensures var s := Layout(words, gaps); |s| == 0 || IsSpace(s[0])
  {
    if |words| > 0 {
      assert Layout(words, gaps)[0] == gaps[0][0];
    }
  }

  /** Leading whitespace yields no token. */
  lemma {:induction false} SplitSkipsSpace(g: string, t: string)
    requires AllSpace(g)
    ensures Split(g + t) == Split(t)
    decreases |g|
  {
    if |g| == 0 {
      assert g + t == t;
    } else {
      assert (g + t)[0] == g[0];
      assert (g + t)[1..] == g[1..] + t;
      SplitSkipsSpace(g[1..], t);
    }
  }

  /** A word followed by whitespace or the end is one token. */
  lemma SplitWord(w: string, t: string)
    requires |w| > 0 && NoSpace(w)
    requires |t| == 0 || IsSpace(t[0])
    ensures Split(w + t) == [w] + Split(t)
  {
    var s := w + t;
    assert s[0] == w[0];
    assert s[..|w|] == w;
    assert s[|w|..] == t;
    WordLengthIs(s, |w|);
  }

  lemma {:induction false} LeadingSpaceIs(s: string, n: nat)
    requires n <= |s| && AllSpace(s[..n]) && (n < |s| ==> !IsSpace(s[n]))
    ensures LeadingSpace(s) == n
    decreases n
  {
    if n > 0 {
      assert s[1..][..n - 1] == s[1..n];
      LeadingSpaceIs(s[1..], n - 1);
    }
  }

  lemma {:induction false} TrailingSpaceIs(s: string, n: nat)
    requires n <= |s| && AllSpace(s[|s| - n..]) && (n < |s| ==> !IsSpace(s[|s| - n - 1]))
    ensures TrailingSpace(s) == n
    decreases n
  {
    if n > 0 {
      var p := s[..|s| - 1];
      assert p[|p| - (n - 1)..] == s[|s| - n..|s| - 1];
      if n - 1 < |p| {
        assert p[|p| - (n - 1) - 1] == s[|s| - n - 1];
      }
      TrailingSpaceIs(p, n - 1);
    }
  }

  /** `strip()` returns the unique slice `s[i..j]` that has only whitespace
      outside it and none at either of its ends. */
  lemma StripIsTheTrimmedSlice(s: string, i: nat, j: nat)
    requires i <= j <= |s|
    requires AllSpace(s[..i]) && AllSpace(s[j..])
    requires i < j ==> !IsSpace(s[i]) && !IsSpace(s[j - 1])
    ensures Strip(s) == s[i..j]
  {
    if i == j {
      StripAllSpace(s, i);
    } else {
      StripAroundText(s, i, j);
    }
  }

  /** A string that is whitespace on both sides of `i` strips to nothing. */
  lemma StripAllSpace(s: string, i: nat)
    requires i <= |s| && AllSpace(s[..i]) && AllSpace(s[i..])
    ensures Strip(s) == []
  {
    assert AllSpace(s) by {
      forall k | 0 <= k < |s| ensures IsSpace(s[k]) {
        if k < i { assert s[..i][k] == s[k]; } else { assert s[i..][k - i] == s[k]; }
      }
    }
    assert s[..|s|] == s;
    LeadingSpaceIs(s, |s|);
  }

  /** With text between `i` and `j`, stripping cuts exactly at `i` and `j`. */
  lemma StripAroundText(s: string, i: nat, j: nat)
    requires i < j <= |s|
    requires AllSpace(s[..i]) && AllSpace(s[j..])
    requires !IsSpace(s[i]) && !IsSpace(s[j - 1])
    ensures Strip(s) == s[i..j]
  {
    LeadingSpaceIs(s, i);
    var t := s[i..];
    var n := |s| - j;
    assert |t| - n == j - i;
    assert t[j - i..] == s[j..];
    assert t[j - i - 1] == s[j - 1];
    TrailingSpaceIs(t, n);
    assert t[..j - i] == s[i..j];
  }

  /** Stripping removes whitespace only. */
  lemma StripKeepsText(s: string)
    ensures NonSpace(Strip(s)) == NonSpace(s)
  {
    var t := s[LeadingSpace(s)..];
    NonSpaceAfterSpace(s, LeadingSpace(s));
    NonSpaceBeforeSpace(t, |t| - TrailingSpace(t));
  }

  /** Whitespace in front adds nothing to the text. */
  lemma NonSpaceAfterSpace(s: string, i: nat)
    requires i <= |s| && AllSpace(s[..i])
    ensures NonSpace(s[i..]) == NonSpace(s)
  {
    assert s == s[..i] + s[i..];
    NonSpaceAppend(s[..i], s[i..]);
    NonSpaceAllSpace(s[..i]);
  }

  /** Whitespace behind adds nothing to the text. */
  lemma NonSpaceBeforeSpace(s: string, j: nat)
    requires j <= |s| && AllSpace(s[j..])
    ensures NonSpace(s[..j]) == NonSpace(s)
  {
    assert s == s[..j] + s[j..];
    NonSpaceAppend(s[..j], s[j..]);
    NonSpaceAllSpace(s[j..]);
    assert NonSpace(s[..j]) + [] == NonSpace(s[..j]);
  }

  /** Stripping twice changes nothing more. */
  lemma StripIdempotent(s: string)
    ensures Strip(Strip(s)) == Strip(s)
  {
    var r := Strip(s);
    StripIsTheTrimmedSlice(r, 0, |r|);
    assert r[0..|r|] == r;
  }
}
