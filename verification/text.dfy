/**
 String primitives the page relies on, with Python's meaning: `str.strip()`
 with no argument, `str.splitlines()`, `str.startswith`, the substring test
 `p in s`, and the ASCII part of `str.lower()` / `str.capitalize()`.
 */
module Text {

  /** Python's `str.isspace` for one code point: the characters `str.strip()`
      removes when called without an argument. */
  predicate IsSpace(c: char) {
    || ('\t' <= c <= '\r')
    || ('\U{1C}' <= c <= '\U{1F}')
    || c == ' ' || c == '\U{85}' || c == '\U{A0}' || c == '\U{1680}'
    || ('\U{2000}' <= c <= '\U{200A}')
    || c == '\U{2028}' || c == '\U{2029}' || c == '\U{202F}' || c == '\U{205F}'
    || c == '\U{3000}'
  }

  predicate AllSpace(s: string) {
    forall i :: 0 <= i < |s| ==> IsSpace(s[i])
  }

  /** Leading whitespace removed. */
  function TrimLeft(s: string): (r: string)
    ensures |r| <= |s| && r == s[|s| - |r|..]
    ensures r == [] || !IsSpace(r[0])
    ensures AllSpace(s[..|s| - |r|])
  {
    if s != [] && IsSpace(s[0]) then
      var r := TrimLeft(s[1..]);
      assert s[..|s| - |r|] == [s[0]] + s[1..][..|s| - 1 - |r|];
      r
    else s
  }

  /** Trailing whitespace removed. */
  function TrimRight(s: string): (r: string)
    ensures |r| <= |s| && r == s[..|r|]
    ensures r == [] || !IsSpace(r[|r| - 1])
    ensures AllSpace(s[|r|..])
  {
    if s != [] && IsSpace(s[|s| - 1]) then
      var r := TrimRight(s[..|s| - 1]);
      assert s[|r|..] == s[..|s| - 1][|r|..] + [s[|s| - 1]];
      r
    else s
  }

  /** `r` is a stretch of `s` with nothing but whitespace before and after it. */
  ghost predicate WhitespaceAround(s: string, r: string) {
    exists i :: 0 <= i <= |s| - |r| && r == s[i..i + |r|] && AllSpace(s[..i]) && AllSpace(s[i + |r|..])
  }

  /** Python's `s.strip()`: the stretch of `s` left once the leading and the
      trailing whitespace are cut off. */
  function Strip(s: string): (r: string)
    ensures |r| <= |s|
    ensures r == [] || (!IsSpace(r[0]) && !IsSpace(r[|r| - 1]))
    ensures WhitespaceAround(s, r)
  {
    var l := TrimLeft(s);
    var r := TrimRight(l);
    TrimmedStretch(s, l, r);
    r
  }

  /** A prefix `r` of a suffix `l` of `s`, where both cut-off parts are
      whitespace, is a stretch of `s` with only whitespace around it. */
  lemma TrimmedStretch(s: string, l: string, r: string)
    requires |l| <= |s| && l == s[|s| - |l|..] && AllSpace(s[..|s| - |l|])
    requires |r| <= |l| && r == l[..|r|] && AllSpace(l[|r|..])
    ensures WhitespaceAround(s, r)
  {
    var i := |s| - |l|;
    assert r == s[i..i + |r|];
    assert l[|r|..] == s[i + |r|..];
  }

  /** `not s.strip()` holds exactly when every character of `s` is whitespace. */
  lemma StripEmptyIff(s: string)
    ensures Strip(s) == [] <==> AllSpace(s)
  {
    var l := TrimLeft(s);
    if Strip(s) == [] {
      assert AllSpace(l[0..]);
      assert l == [];
      assert s[..|s|] == s;
    } else {
      var r := Strip(s);
      assert r == l[..|r|] && l == s[|s| - |l|..];
      assert !IsSpace(r[0]) && r[0] == s[|s| - |l|];
    }
  }

  /** A string that neither begins nor ends with whitespace is its own strip. */
  lemma StripKeepsTrimmed(s: string)
    requires s == [] || (!IsSpace(s[0]) && !IsSpace(s[|s| - 1]))
    ensures Strip(s) == s
  {
    assert TrimLeft(s) == s;
    assert TrimRight(s) == s;
  }

  /** Stripping is idempotent. */
  lemma StripIdempotent(s: string)
    ensures Strip(Strip(s)) == Strip(s)
  {
    var t := Strip(s);
    assert t == [] || (!IsSpace(t[0]) && !IsSpace(t[|t| - 1]));
    StripKeepsTrimmed(t);
  }

  predicate StartsWith(s: string, p: string) {
    |p| <= |s| && s[..|p|] == p
  }

  /** Python's `p in s`: some suffix of `s` starts with `p`. */
  predicate Contains(s: string, p: string)
    decreases |s|
  {
    StartsWith(s, p) || (s != [] && Contains(s[1..], p))
  }

  /** The recursive substring test agrees with "there is a position where `p` occurs". */
  lemma {:induction false} ContainsIff(s: string, p: string)
    ensures Contains(s, p) <==> exists i :: 0 <= i <= |s| && StartsWith(s[i..], p)
    decreases |s|
  {
    if StartsWith(s, p) {
      assert s[0..] == s;
    } else if s == [] {
    } else {
      ContainsIff(s[1..], p);
      if Contains(s, p) {
        var j :| 0 <= j <= |s| - 1 && StartsWith(s[1..][j..], p);
        assert s[1..][j..] == s[j + 1..];
      } else {
        forall i | 0 <= i <= |s| ensures !StartsWith(s[i..], p) {
          if i > 0 {
            assert s[1..][i - 1..] == s[i..];
          } else {
            assert s[0..] == s;
          }
        }
      }
    }
  }

  /** A marker found in `s` is still found once text is appended after `s`. */
  lemma {:induction false} ContainsAppendRight(s: string, t: string, p: string)
    requires Contains(s, p)
    ensures Contains(s + t, p)
    decreases |s|
  {
    if StartsWith(s, p) {
      assert (s + t)[..|p|] == s[..|p|];
    } else {
      assert (s + t)[1..] == s[1..] + t;
      ContainsAppendRight(s[1..], t, p);
    }
  }

  /** A marker found in `t` is still found once text is put in front of `t`. */
  lemma {:induction false} ContainsAppendLeft(s: string, t: string, p: string)
    requires Contains(t, p)
    ensures Contains(s + t, p)
    decreases |s|
  {
    if s == [] {
      assert s + t == t;
    } else {
      assert (s + t)[1..] == s[1..] + t;
      ContainsAppendLeft(s[1..], t, p);
    }
  }

  /** The characters Python's `str.splitlines` treats as line boundaries
      (`"\r\n"` counts as one boundary, see `SplitLines`). */
  predicate IsLineBreak(c: char) {
    || c == '\n' || c == '\r' || c == '\U{0B}' || c == '\U{0C}'
    || c == '\U{1C}' || c == '\U{1D}' || c == '\U{1E}' || c == '\U{85}'
    || c == '\U{2028}' || c == '\U{2029}'
  }

  /** Index of the first line boundary of `s`, or `|s|` when there is none. */
  function FirstBreak(s: string): (k: nat)
    ensures k <= |s|
    ensures k < |s| ==> IsLineBreak(s[k])
    ensures forall i :: 0 <= i < k ==> !IsLineBreak(s[i])
  {
    if s == [] || IsLineBreak(s[0]) then 0 else 1 + FirstBreak(s[1..])
  }

  /** Python's `s.splitlines()`: the lines without their terminators; a
      final terminator does not start an extra empty line. */
  function SplitLines(s: string): (lines: seq<string>)
    decreases |s|
  {
    if s == [] then []
    else
      var k := FirstBreak(s);
      if k == |s| then [s]
      else [s[..k]] + SplitLines(AfterBreak(s, k))
  }

  /** What follows the boundary at index `k`: two characters for `"\r\n"`, one otherwise. */
  function AfterBreak(s: string, k: nat): (rest: string)
    requires k < |s|
    ensures |rest| < |s| - k
  {
    if s[k] == '\r' && k + 1 < |s| && s[k + 1] == '\n' then s[k + 2..] else s[k + 1..]
  }

  /** What follows a boundary is a suffix of the text. */
  lemma AfterBreakIsSuffix(s: string, k: nat)
    requires k < |s|
    ensures AfterBreak(s, k) == s[|s| - |AfterBreak(s, k)|..]
  {
  }

  /** No line holds a boundary character. */
  lemma {:induction false} LinesHaveNoBreaks(s: string)
    ensures forall l :: l in SplitLines(s) ==> forall i :: 0 <= i < |l| ==> !IsLineBreak(l[i])
    decreases |s|
  {
    if s != [] && FirstBreak(s) < |s| {
      LinesHaveNoBreaks(AfterBreak(s, FirstBreak(s)));
    }
  }

  /** Position `i` of `s` begins a line: the start of the text or right after a boundary character. */
  predicate LineStart(s: string, i: int) {
    0 <= i <= |s| && (i == 0 || IsLineBreak(s[i - 1]))
  }

  /** `any(line.startswith(p) for line in s.splitlines())`. */
  predicate SomeLineStartsWith(s: string, p: string) {
    exists l :: l in SplitLines(s) && StartsWith(l, p)
  }

  /** `p` occurs at a position of `s` where a line begins. */
  ghost predicate PrefixAtLineStart(s: string, p: string) {
    exists i :: LineStart(s, i) && StartsWith(s[i..], p)
  }

  /** A line of `s` that starts with `p` sits at a line start of `s`. */
  lemma {:induction false} LineToPosition(s: string, p: string, l: string) returns (i: int)
    requires l in SplitLines(s) && StartsWith(l, p)
    ensures LineStart(s, i) && StartsWith(s[i..], p)
    decreases |s|, 1
  {
    var k := FirstBreak(s);
    if k == |s| {
      i := 0;
      OnlyLineAtStart(s, p, l);
    } else if l == s[..k] {
      i := 0;
      FirstLineAtStart(s, p, k);
    } else {
      SplitLinesBroken(s);
      assert l in SplitLines(AfterBreak(s, k));
      i := LaterLineToPosition(s, k, p, l);
    }
  }

  /** A line of what follows a boundary is found by recursion on that rest. */
  lemma {:induction false} LaterLineToPosition(s: string, k: nat, p: string, l: string) returns (i: int)
    requires k < |s| && IsLineBreak(s[k])
    requires l in SplitLines(AfterBreak(s, k)) && StartsWith(l, p)
    ensures LineStart(s, i) && StartsWith(s[i..], p)
    decreases |s|, 0
  {
    var j := LineToPosition(AfterBreak(s, k), p, l);
    i := LineStartAfterBreak(s, k, p, j);
  }

  /** Text without a boundary is one line, or none when it is empty. */
  lemma SplitLinesUnbroken(s: string)
    requires FirstBreak(s) == |s|
    ensures SplitLines(s) == if s == [] then [] else [s]
  {
  }

  /** Text with a boundary splits into the part before it and the lines of what follows it. */
  lemma SplitLinesBroken(s: string)
    requires FirstBreak(s) < |s|
    ensures SplitLines(s) == [s[..FirstBreak(s)]] + SplitLines(AfterBreak(s, FirstBreak(s)))
  {
  }

  /** In text without a boundary, a line that starts with `p` puts `p` at the start of the text. */
  lemma OnlyLineAtStart(s: string, p: string, l: string)
    requires FirstBreak(s) == |s| && l in SplitLines(s) && StartsWith(l, p)
    ensures StartsWith(s[0..], p)
  {
    SplitLinesUnbroken(s);
    assert s[0..] == s;
  }

  /** A first line that starts with `p` puts `p` at the start of the text. */
  lemma FirstLineAtStart(s: string, p: string, k: nat)
    requires k <= |s| && StartsWith(s[..k], p)
    ensures LineStart(s, 0) && StartsWith(s[0..], p)
  {
    assert s[0..] == s;
    assert s[..|p|] == s[..k][..|p|];
  }

  /** A line start of what follows a boundary, where `p` occurs, is such a position of the whole text. */
  lemma LineStartAfterBreak(s: string, k: nat, p: string, j: int) returns (i: int)
    requires k < |s| && IsLineBreak(s[k])
    requires LineStart(AfterBreak(s, k), j) && StartsWith(AfterBreak(s, k)[j..], p)
    ensures i == |s| - |AfterBreak(s, k)| + j
    ensures LineStart(s, i) && StartsWith(s[i..], p)
  {
    var rest := AfterBreak(s, k);
    AfterBreakIsSuffix(s, k);
    i := |s| - |rest| + j;
    assert rest[j..] == s[i..];
    if j > 0 {
      assert rest[j - 1] == s[i - 1];
    }
  }

  /** Conversely, `p` at a line start of `s` is the beginning of one of its lines,
      provided `p` holds no line boundary. */
  lemma {:induction false} PositionToLine(s: string, p: string, i: int)
    requires p != [] && forall j :: 0 <= j < |p| ==> !IsLineBreak(p[j])
    requires LineStart(s, i) && StartsWith(s[i..], p)
    ensures SomeLineStartsWith(s, p)
    decreases |s|
  {
    var k := FirstBreak(s);
    assert s[i..][0] == p[0];
    if i == 0 {
      assert s[0..] == s;
      assert k >= |p| by {
        forall j | 0 <= j < |p| ensures !IsLineBreak(s[j]) {
          assert s[j] == s[..|p|][j];
        }
      }
      if k == |s| {
        assert SplitLines(s) == [s];
      } else {
        assert s[..k][..|p|] == s[..|p|];
        assert s[..k] in SplitLines(s);
      }
    } else {
      var rest := AfterBreak(s, k);
      AfterBreakIsSuffix(s, k);
      var off := |s| - |rest|;
      assert k <= i - 1;
      assert off <= i;
      var j := i - off;
      assert rest[j..] == s[i..];
      if j > 0 {
        assert rest[j - 1] == s[i - 1];
      }
      PositionToLine(rest, p, j);
      var l :| l in SplitLines(rest) && StartsWith(l, p);
      SplitLinesBroken(s);
      assert l in SplitLines(s);
    }
  }

  /** For a prefix free of line breaks (such as `"ID:"`), some line of `s` starts with `p`
      exactly when `p` occurs at a line start of `s`: the position-based reading of the check. */
  lemma SomeLineStartsWithIff(s: string, p: string)
    requires p != [] && forall j :: 0 <= j < |p| ==> !IsLineBreak(p[j])
    ensures SomeLineStartsWith(s, p) <==> PrefixAtLineStart(s, p)
  {
    if SomeLineStartsWith(s, p) {
      var l :| l in SplitLines(s) && StartsWith(l, p);
      var i := LineToPosition(s, p, l);
    }
    if PrefixAtLineStart(s, p) {
      var i :| LineStart(s, i) && StartsWith(s[i..], p);
      PositionToLine(s, p, i);
    }
  }

  function ToLowerChar(c: char): (d: char)
  {
    if 'A' <= c <= 'Z' then (c as int + 32) as char else c
  }

  function ToUpperChar(c: char): (d: char)
  {
    if 'a' <= c <= 'z' then (c as int - 32) as char else c
  }

  /** The ASCII part of Python's `s.lower()`. */
  function Lower(s: string): (r: string)
    ensures |r| == |s|
    ensures forall i :: 0 <= i < |s| ==> r[i] == ToLowerChar(s[i])
  {
    seq(|s|, i requires 0 <= i < |s| => ToLowerChar(s[i]))
  }

  /** The ASCII part of Python's `s.capitalize()`: first character upper-cased, the rest lower-cased. */
  function Capitalize(s: string): (r: string)
    ensures |r| == |s|
    ensures s != [] ==> r[0] == ToUpperChar(s[0]) && r[1..] == Lower(s[1..])
  {
    if s == [] then [] else [ToUpperChar(s[0])] + Lower(s[1..])
  }

  predicate IsLowerWord(s: string) {
    forall i :: 0 <= i < |s| ==> 'a' <= s[i] <= 'z'
  }

  /** Lower-casing a capitalized lower-case word gives the word back: the
      round trip between a service key and the label shown for it. */
  lemma LowerCapitalize(s: string)
    requires IsLowerWord(s)
    ensures Lower(Capitalize(s)) == s
    ensures s != [] ==> 'A' <= Capitalize(s)[0] <= 'Z'
  {
    var c := Capitalize(s);
    forall i | 0 <= i < |s| ensures Lower(c)[i] == s[i] {
      if i > 0 {
        assert c[i] == c[1..][i - 1] == Lower(s[1..])[i - 1];
      }
    }
  }

  /** A word that is already capitalized is its own capitalization, and so
      is the capitalization of its lower-cased form. */
  lemma CapitalizedWord(s: string)
    requires s != [] && 'A' <= s[0] <= 'Z' && IsLowerWord(s[1..])
    ensures Capitalize(s) == s
    ensures IsLowerWord(Lower(s)) && Capitalize(Lower(s)) == s
  {
    var l := Lower(s);
    forall i | 1 <= i < |s| ensures l[i] == s[i] && Lower(s[1..])[i - 1] == s[i] {
      assert s[1..][i - 1] == s[i];
    }
    assert Lower(s[1..]) == s[1..];
    assert l[1..] == s[1..];
    assert Lower(l[1..]) == s[1..];
  }
}
