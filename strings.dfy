/** The pieces of Python's `str` behaviour the pipeline relies on:
    substring tests, `replace`, `strip`, splitting at single whitespace
    characters, and decimal digit strings. */
module Strings {

  /** `\d` (ASCII digits). */
  predicate IsDigit(c: char) { '0' <= c <= '9' }

  /** `\w` (ASCII letters, digits and the underscore). */
  predicate IsWordChar(c: char) {
    ('a' <= c <= 'z') || ('A' <= c <= 'Z') || IsDigit(c) || c == '_'
  }

  /** The characters that both `\s` and `str.strip()` treat as whitespace. */
  predicate IsSpace(c: char) {
    ('\t' <= c <= '\r') || ('\U{1C}' <= c <= ' ') || c == '\U{85}' || c == '\U{A0}'
    || c == '\U{1680}' || ('\U{2000}' <= c <= '\U{200A}') || c == '\U{2028}'
    || c == '\U{2029}' || c == '\U{202F}' || c == '\U{205F}' || c == '\U{3000}'
  }

  predicate AllDigits(s: string) {
    forall i | 0 <= i < |s| :: IsDigit(s[i])
  }

  predicate StartsWith(s: string, p: string) {
    |p| <= |s| && s[..|p|] == p
  }

  /** Python's `p in s`. */
  predicate Contains(s: string, p: string)
    decreases |s|
  {
    StartsWith(s, p) || (|s| > 0 && Contains(s[1..], p))
  }

  lemma {:induction false} ContainsLength(s: string, p: string)
    requires Contains(s, p)
    ensures |p| <= |s|
  {
    if !StartsWith(s, p) {
      ContainsLength(s[1..], p);
    }
  }

  lemma {:induction false} ContainsOfSuffix(a: string, p: string)
    ensures Contains(a + p, p)
    decreases |a|
  {
    if a == [] {
      assert (a + p)[..|p|] == p;
    } else {
      ContainsOfSuffix(a[1..], p);
      assert (a + p)[1..] == a[1..] + p;
    }
  }

  /** A prefix of a string that starts with `p` is either too short for `p`
      or starts with `p` too. */
  lemma StartsWithPrefix(s: string, t: string, p: string)
    requires StartsWith(s, t) && StartsWith(t, p)
    ensures StartsWith(s, p)
  {
    assert s[..|p|] == t[..|p|];
  }

  /** Starting with `h + w` is starting with `h` and then with `w`. */
  lemma StartsWithConcat(s: string, h: string, w: string)
    ensures StartsWith(s, h + w) <==> StartsWith(s, h) && StartsWith(s[|h|..], w)
  {
    if StartsWith(s, h + w) {
      assert s[..|h|] == (h + w)[..|h|] == h;
      assert s[|h|..][..|w|] == s[..|h + w|][|h|..] == w;
    }
    if StartsWith(s, h) && StartsWith(s[|h|..], w) {
      assert s[..|h + w|] == s[..|h|] + s[|h|..][..|w|];
    }
  }

  lemma {:induction false} ContainsChar(s: string, c: char)
    ensures Contains(s, [c]) <==> c in s
  {
    if |s| > 0 {
      ContainsChar(s[1..], c);
      assert s == [s[0]] + s[1..];
    }
  }

  // ---------------------------------------------------------------------
  // str.replace and str.split

  /** Python's `s.replace(pat, rep)` for a non-empty `pat`: each occurrence,
      found left to right without overlapping, becomes `rep`. */
  function Replace(s: string, pat: string, rep: string): string
    requires |pat| > 0
    decreases |s|
  {
    if |s| < |pat| then s
    else if s[..|pat|] == pat then rep + Replace(s[|pat|..], pat, rep)
    else [s[0]] + Replace(s[1..], pat, rep)
  }

  /** Python's `s.split(sep)` for a non-empty `sep`: the reference definition
      for `Replace` (`s.replace(p, r) == r.join(s.split(p))`). */
  function SplitOn(s: string, sep: string): (r: seq<string>)
    requires |sep| > 0
    ensures |r| >= 1
    decreases |s|
  {
    if |s| < |sep| then [s]
    else if s[..|sep|] == sep then [""] + SplitOn(s[|sep|..], sep)
    else var t := SplitOn(s[1..], sep); [[s[0]] + t[0]] + t[1..]
  }

  /** Python's `sep.join(ps)`. */
  function Join(ps: seq<string>, sep: string): string
    requires |ps| >= 1
    decreases |ps|
  {
    if |ps| == 1 then ps[0] else ps[0] + sep + Join(ps[1..], sep)
  }

  lemma {:induction false} JoinSplit(s: string, sep: string)
    requires |sep| > 0
    ensures Join(SplitOn(s, sep), sep) == s
    decreases |s|
  {
    if |s| < |sep| {
    } else if s[..|sep|] == sep {
      var t := SplitOn(s[|sep|..], sep);
      JoinSplit(s[|sep|..], sep);
      JoinAfterEmpty(t, sep);
      assert s == sep + s[|sep|..];
    } else {
      var t := SplitOn(s[1..], sep);
      JoinSplit(s[1..], sep);
      JoinAfterChar(s[0], t, sep);
      assert s == [s[0]] + s[1..];
    }
  }

  /** Joining after an empty first piece puts a separator in front. */
  lemma JoinAfterEmpty(t: seq<string>, sep: string)
    requires |t| >= 1
    ensures Join([""] + t, sep) == sep + Join(t, sep)
  {
    var r := [""] + t;
    assert r[1..] == t;
    assert "" + sep == sep;
  }

  /** Joining after one more character at the front of the first piece
      puts that character in front. */
  lemma JoinAfterChar(c: char, t: seq<string>, sep: string)
    requires |t| >= 1
    ensures Join([[c] + t[0]] + t[1..], sep) == [c] + Join(t, sep)
  {
    var r := [[c] + t[0]] + t[1..];
    assert r[0] == [c] + t[0] && r[1..] == t[1..];
    if |t| > 1 {
      var j := Join(t[1..], sep);
      ConcatAssoc([c] + t[0], sep, j);
      ConcatAssoc([c], t[0], sep + j);
      ConcatAssoc(t[0], sep, j);
    }
  }

  lemma {:induction false} ReplaceIsJoinOfSplit(s: string, pat: string, rep: string)
    requires |pat| > 0
    ensures Replace(s, pat, rep) == Join(SplitOn(s, pat), rep)
    decreases |s|
  {
    if |s| < |pat| {
    } else if s[..|pat|] == pat {
      ReplaceIsJoinOfSplit(s[|pat|..], pat, rep);
      JoinAfterEmpty(SplitOn(s[|pat|..], pat), rep);
    } else {
      ReplaceIsJoinOfSplit(s[1..], pat, rep);
      JoinAfterChar(s[0], SplitOn(s[1..], pat), rep);
    }
  }

  lemma {:induction false} SplitHeadIsPrefix(s: string, sep: string)
    requires |sep| > 0
    ensures StartsWith(s, SplitOn(s, sep)[0])
    decreases |s|
  {
    if |s| < |sep| {
    } else if s[..|sep|] == sep {
    } else {
      SplitHeadIsPrefix(s[1..], sep);
      var h := SplitOn(s[1..], sep)[0];
      assert s[..|h| + 1] == [s[0]] + s[1..][..|h|];
    }
  }

  /** Every piece of the split is free of the separator: the scan missed no
      occurrence. */
  lemma {:induction false} SplitPiecesLackSeparator(s: string, sep: string)
    requires |sep| > 0
    ensures forall i | 0 <= i < |SplitOn(s, sep)| :: !Contains(SplitOn(s, sep)[i], sep)
    decreases |s|
  {
    var r := SplitOn(s, sep);
    if |s| < |sep| {
      if Contains(s, sep) { ContainsLength(s, sep); }
    } else if s[..|sep|] == sep {
      SplitPiecesLackSeparator(s[|sep|..], sep);
      assert !Contains("", sep) by {
        if Contains("", sep) { ContainsLength("", sep); }
      }
      assert forall i | 1 <= i < |r| :: r[i] == SplitOn(s[|sep|..], sep)[i - 1];
    } else {
      var t := SplitOn(s[1..], sep);
      SplitPiecesLackSeparator(s[1..], sep);
      SplitHeadIsPrefix(s[1..], sep);
      var h := [s[0]] + t[0];
      assert StartsWith(s, h) by {
        assert s[..|h|] == [s[0]] + s[1..][..|t[0]|];
      }
      if StartsWith(h, sep) {
        StartsWithPrefix(s, h, sep);
        assert false;
      }
      assert h[1..] == t[0];
      assert !Contains(h, sep);
      assert forall i | 1 <= i < |r| :: r[i] == t[i];
    }
  }

  lemma {:induction false} ReplaceAbsent(s: string, pat: string, rep: string)
    requires |pat| > 0 && !Contains(s, pat)
    ensures Replace(s, pat, rep) == s
    decreases |s|
  {
    if |s| >= |pat| {
      ReplaceAbsent(s[1..], pat, rep);
      assert s == [s[0]] + s[1..];
    }
  }

  lemma {:induction false} ReplaceLength(s: string, pat: string, rep: string)
    requires |pat| > 0 && |rep| <= |pat|
    ensures |Replace(s, pat, rep)| <= |s|
    decreases |s|
  {
    if |s| < |pat| {
    } else if s[..|pat|] == pat {
      ReplaceLength(s[|pat|..], pat, rep);
    } else {
      ReplaceLength(s[1..], pat, rep);
    }
  }

  /** Every character of the result comes from the input or from `rep`. */
  lemma {:induction false} ReplaceChars(s: string, pat: string, rep: string, c: char)
    requires |pat| > 0 && c in Replace(s, pat, rep)
    ensures c in s || c in rep
    decreases |s|
  {
    if |s| < |pat| {
    } else if s[..|pat|] == pat {
      if c !in rep {
        ReplaceChars(s[|pat|..], pat, rep, c);
        assert s[|pat|..] == s[|pat|..|s|];
      }
    } else {
      if c != s[0] {
        ReplaceChars(s[1..], pat, rep, c);
      }
    }
  }

  /** Replacing a single character by a text without it leaves no copy of it. */
  lemma {:induction false} ReplaceRemovesChar(s: string, c: char, rep: string)
    requires c !in rep
    ensures c !in Replace(s, [c], rep)
    decreases |s|
  {
    if |s| >= 1 {
      ReplaceRemovesChar(s[1..], c, rep);
    }
  }

  /** One character for another: a pointwise map. */
  lemma {:induction false} ReplaceCharPointwise(s: string, c: char, d: char)
    ensures |Replace(s, [c], [d])| == |s|
    ensures forall i | 0 <= i < |s| :: Replace(s, [c], [d])[i] == (if s[i] == c then d else s[i])
    decreases |s|
  {
    if |s| >= 1 {
      ReplaceCharPointwise(s[1..], c, d);
    }
  }

  /** A text free of both characters that occurs before the map occurs after it. */
  lemma {:induction false} ReplaceCharKeepsOccurrence(s: string, c: char, d: char, p: string)
    requires c !in p && Contains(s, p)
    ensures Contains(Replace(s, [c], [d]), p)
    decreases |s|
  {
    var r := Replace(s, [c], [d]);
    ReplaceCharPointwise(s, c, d);
    if StartsWith(s, p) {
      assert r[..|p|] == s[..|p|] by {
        forall i | 0 <= i < |p| ensures r[i] == s[i] {
          assert s[i] == p[i];
        }
      }
    } else {
      ReplaceCharKeepsOccurrence(s[1..], c, d, p);
      assert r[1..] == Replace(s[1..], [c], [d]);
    }
  }

  /** An occurrence at the front is replaced, and the scan goes on after it. */
  lemma ReplaceAtMatch(pat: string, b: string, rep: string)
    requires |pat| > 0
    ensures Replace(pat + b, pat, rep) == rep + Replace(b, pat, rep)
  {
    var s := pat + b;
    assert s[..|pat|] == pat;
    assert s[|pat|..] == b;
  }

  /** Replacing a character that only the middle part holds. */
  lemma ReplaceCharInMiddle(a: string, b: string, c: string, ch: char, rep: string)
    requires ch !in a && ch !in c
    ensures Replace(a + b + c, [ch], rep) == a + Replace(b, [ch], rep) + c
  {
    ReplaceFreeTail(b, c, ch, rep);
    ReplaceFreeHead(a, b + c, ch, rep);
    ConcatAssoc(a, b, c);
    ConcatAssoc(a, Replace(b, [ch], rep), c);
  }

  lemma ConcatAssoc<T>(a: seq<T>, b: seq<T>, c: seq<T>)
    ensures (a + b) + c == a + (b + c)
  {
  }

  lemma ReplaceFreeTail(b: string, c: string, ch: char, rep: string)
    requires ch !in c
    ensures Replace(b + c, [ch], rep) == Replace(b, [ch], rep) + c
  {
    ContainsChar(c, ch);
    ReplaceAbsent(c, [ch], rep);
    SingleNoStraddle(b, [ch]);
    ReplaceAppend(b, c, [ch], rep);
  }

  lemma ReplaceFreeHead(a: string, x: string, ch: char, rep: string)
    requires ch !in a
    ensures Replace(a + x, [ch], rep) == a + Replace(x, [ch], rep)
  {
    ContainsChar(a, ch);
    ReplaceAbsent(a, [ch], rep);
    SingleNoStraddle(a, [ch]);
    ReplaceAppend(a, x, [ch], rep);
  }

  /** No occurrence of a single character can straddle a seam. */
  lemma SingleNoStraddle(a: string, pat: string)
    requires |pat| == 1
    ensures NoStraddle(a, pat)
  {
  }

  /** No suffix of `a` is a proper, non-empty prefix of `pat`: an occurrence
      cannot straddle the end of `a`. */
  predicate NoStraddle(a: string, pat: string) {
    forall k | 0 < k < |pat| && k <= |a| :: a[|a| - k..] != pat[..k]
  }

  lemma NoStraddleTail(a: string, pat: string, n: nat)
    requires NoStraddle(a, pat) && n <= |a|
    ensures NoStraddle(a[n..], pat)
  {
    var a' := a[n..];
    forall k | 0 < k < |pat| && k <= |a'| ensures a'[|a'| - k..] != pat[..k] {
      assert a'[|a'| - k..] == a[|a| - k..];
    }
  }

  lemma StartOfAppend(a: string, b: string, pat: string)
    ensures StartsWith(a + b, pat) && |a| <= |pat| ==> pat[..|a|] == a
  {
    assert (a + b)[..|a|] == a;
  }

  lemma ShortNoStraddle(a: string, b: string, pat: string)
    requires 0 < |a| < |pat| && NoStraddle(a, pat)
    ensures !StartsWith(a + b, pat)
  {
    assert a[|a| - |a|..] == a;
    StartOfAppend(a, b, pat);
  }

  /** Replacing in a concatenation replaces in each part, when no
      occurrence straddles the seam. */
  lemma {:induction false} ReplaceAppend(a: string, b: string, pat: string, rep: string)
    requires |pat| > 0 && NoStraddle(a, pat)
    ensures Replace(a + b, pat, rep) == Replace(a, pat, rep) + Replace(b, pat, rep)
    decreases |a|
  {
    if |a| == 0 {
      assert a + b == b;
    } else if |a| >= |pat| && a[..|pat|] == pat {
      var a' := a[|pat|..];
      NoStraddleTail(a, pat, |pat|);
      ReplaceAppend(a', b, pat, rep);
      FrontOfAppend(a, b, |pat|);
      ConcatAssoc(rep, Replace(a', pat, rep), Replace(b, pat, rep));
    } else {
      NoStraddleTail(a, pat, 1);
      ReplaceAppend(a[1..], b, pat, rep);
      ReplaceAppendNoMatch(a, b, pat, rep);
    }
  }

  /** The first `n` characters of `a + b` are those of `a`, and the rest is
      what follows them in `a`, then `b`. */
  lemma FrontOfAppend(a: string, b: string, n: nat)
    requires n <= |a|
    ensures (a + b)[..n] == a[..n] && (a + b)[n..] == a[n..] + b
  {
  }

  lemma ReplaceAppendNoMatch(a: string, b: string, pat: string, rep: string)
    requires |pat| > 0 && NoStraddle(a, pat) && |a| > 0
    requires !(|a| >= |pat| && a[..|pat|] == pat)
    requires NoStraddle(a[1..], pat)
    requires Replace(a[1..] + b, pat, rep) == Replace(a[1..], pat, rep) + Replace(b, pat, rep)
    ensures Replace(a + b, pat, rep) == Replace(a, pat, rep) + Replace(b, pat, rep)
  {
    var s := a + b;
    FrontOfAppend(a, b, 1);
    assert [a[0]] + a[1..] == a;
    if |a| < |pat| {
      ShortNoStraddle(a, b, pat);
      ShortUnchanged(a[1..], pat, rep);
      if |s| >= |pat| {
        ConcatAssoc([a[0]], a[1..], Replace(b, pat, rep));
      }
    } else {
      FrontOfAppend(a, b, |pat|);
      ConcatAssoc([a[0]], Replace(a[1..], pat, rep), Replace(b, pat, rep));
    }
  }

  lemma ShortUnchanged(s: string, pat: string, rep: string)
    requires 0 < |pat| && |s| < |pat|
    ensures Replace(s, pat, rep) == s
  {
  }

  // ---------------------------------------------------------------------
  // str.strip and re.split("\s", ...)

  /** Number of leading whitespace characters. */
  function LeadingSpaces(s: string): (n: nat)
    ensures n <= |s|
    ensures forall i | 0 <= i < n :: IsSpace(s[i])
    ensures n == |s| || !IsSpace(s[n])
    decreases |s|
  {
    if |s| > 0 && IsSpace(s[0]) then 1 + LeadingSpaces(s[1..]) else 0
  }

  /** Number of trailing whitespace characters. */
  function TrailingSpaces(s: string): (n: nat)
    ensures n <= |s|
    ensures forall i | |s| - n <= i < |s| :: IsSpace(s[i])
    ensures n == |s| || !IsSpace(s[|s| - n - 1])
    decreases |s|
  {
    if |s| > 0 && IsSpace(s[|s| - 1]) then 1 + TrailingSpaces(s[..|s| - 1]) else 0
  }

  /** Python's `s.strip()`. */
  function Strip(s: string): string {
    var t := s[LeadingSpaces(s)..];
    t[..|t| - TrailingSpaces(t)]
  }

  /** `Strip` removes exactly the whitespace run at each end. */
  lemma StripSpec(s: string)
    ensures var i, r := LeadingSpaces(s), Strip(s);
      && i + |r| <= |s|
      && s[i..i + |r|] == r
      && (forall k | i + |r| <= k < |s| :: IsSpace(s[k]))
    ensures var r := Strip(s); r == [] || (!IsSpace(r[0]) && !IsSpace(r[|r| - 1]))
  {
    var i := LeadingSpaces(s);
    var t := s[i..];
    var r := Strip(s);
    assert s[i..i + |r|] == r;
    forall k | i + |r| <= k < |s| ensures IsSpace(s[k]) {
      assert s[k] == t[k - i];
    }
  }

  /** Python's `re.split("\s", s)`: a cut at every whitespace character, so
      runs of whitespace leave empty tokens. */
  function SplitAtSpaces(s: string): (r: seq<string>)
    ensures |r| >= 1
    decreases |s|
  {
    if s == [] then [""]
    else if IsSpace(s[0]) then [""] + SplitAtSpaces(s[1..])
    else var t := SplitAtSpaces(s[1..]); [[s[0]] + t[0]] + t[1..]
  }

  /** The whitespace characters of `s`, in order. */
  function SpacesOf(s: string): seq<char>
    decreases |s|
  {
    if s == [] then [] else (if IsSpace(s[0]) then [s[0]] else []) + SpacesOf(s[1..])
  }

  /** Tokens interleaved with the single characters that separated them. */
  function Interleave(tokens: seq<string>, seps: seq<char>): string
    requires |tokens| == |seps| + 1
    decreases |seps|
  {
    if seps == [] then tokens[0] else tokens[0] + [seps[0]] + Interleave(tokens[1..], seps[1..])
  }

  /** The split has one more token than there are whitespace characters, no
      token holds whitespace, and putting the separators back yields `s`. */
  lemma SplitAtSpacesSpec(s: string)
    ensures |SplitAtSpaces(s)| == |SpacesOf(s)| + 1
    ensures forall i, j | 0 <= i < |SplitAtSpaces(s)| && 0 <= j < |SplitAtSpaces(s)[i]| :: !IsSpace(SplitAtSpaces(s)[i][j])
    ensures Interleave(SplitAtSpaces(s), SpacesOf(s)) == s
  {
    SplitAtSpacesRejoin(s);
    SplitAtSpacesFree(s);
    var r := SplitAtSpaces(s);
    forall i, j | 0 <= i < |r| && 0 <= j < |r[i]|
      ensures !IsSpace(r[i][j])
    {
      assert SpaceFree(r[i]);
    }
  }

  predicate SpaceFree(t: string) {
    forall j | 0 <= j < |t| :: !IsSpace(t[j])
  }

  lemma {:induction false} SplitAtSpacesCount(s: string)
    ensures |SplitAtSpaces(s)| == |SpacesOf(s)| + 1
    decreases |s|
  {
    if s != [] {
      SplitAtSpacesCount(s[1..]);
    }
  }

  lemma {:induction false} SplitAtSpacesFree(s: string)
    ensures forall i | 0 <= i < |SplitAtSpaces(s)| :: SpaceFree(SplitAtSpaces(s)[i])
    decreases |s|
  {
    if s != [] {
      var t := SplitAtSpaces(s[1..]);
      SplitAtSpacesFree(s[1..]);
      var r := SplitAtSpaces(s);
      if IsSpace(s[0]) {
        assert r[1..] == t;
        forall i | 0 <= i < |r|
          ensures SpaceFree(r[i])
        {
          if i > 0 {
            assert r[i] == t[i - 1];
          }
        }
      } else {
        assert r[0] == [s[0]] + t[0];
        assert SpaceFree(t[0]);
        forall i | 0 <= i < |r|
          ensures SpaceFree(r[i])
        {
          if i > 0 {
            assert r[i] == t[i];
          }
        }
      }
    }
  }

  lemma {:induction false} SplitAtSpacesRejoin(s: string)
    ensures |SplitAtSpaces(s)| == |SpacesOf(s)| + 1
    ensures Interleave(SplitAtSpaces(s), SpacesOf(s)) == s
    decreases |s|
  {
    SplitAtSpacesCount(s);
    if s != [] {
      var t := SplitAtSpaces(s[1..]);
      var seps := SpacesOf(s[1..]);
      SplitAtSpacesRejoin(s[1..]);
      assert s == [s[0]] + s[1..];
      if IsSpace(s[0]) {
        assert SpacesOf(s) == [s[0]] + seps;
        InterleaveAfterSeparator(s[0], t, seps);
      } else {
        assert SpacesOf(s) == seps;
        InterleaveAfterChar(s[0], t, seps);
      }
    }
  }

  lemma InterleaveAfterSeparator(c: char, t: seq<string>, seps: seq<char>)
    requires |t| == |seps| + 1
    ensures Interleave([""] + t, [c] + seps) == [c] + Interleave(t, seps)
  {
    assert ([""] + t)[1..] == t;
    assert ([c] + seps)[1..] == seps;
    assert "" + [c] == [c];
  }

  lemma InterleaveAfterChar(c: char, t: seq<string>, seps: seq<char>)
    requires |t| == |seps| + 1
    ensures Interleave([[c] + t[0]] + t[1..], seps) == [c] + Interleave(t, seps)
  {
    var r := [[c] + t[0]] + t[1..];
    assert r[0] == [c] + t[0] && r[1..] == t[1..];
    if seps != [] {
      ConcatAssoc([c] + t[0], [seps[0]], Interleave(t[1..], seps[1..]));
      ConcatAssoc([c], t[0], [seps[0]] + Interleave(t[1..], seps[1..]));
      ConcatAssoc(t[0], [seps[0]], Interleave(t[1..], seps[1..]));
    }
  }

  // ---------------------------------------------------------------------
  // Decimal digit strings

  /** Length of the longest run of digits at the start of `s`. */
  function DigitRun(s: string): (n: nat)
    ensures n <= |s| && AllDigits(s[..n]) && (n == |s| || !IsDigit(s[n]))
    decreases |s|
  {
    if |s| > 0 && IsDigit(s[0]) then
      var n := 1 + DigitRun(s[1..]);
      assert s[..n] == [s[0]] + s[1..][..n - 1];
      n
    else 0
  }

  /** Length of the longest run of word characters at the start of `s`. */
  function WordRun(s: string): (n: nat)
    ensures n <= |s| && AllWordChars(s[..n]) && (n == |s| || !IsWordChar(s[n]))
    decreases |s|
  {
    if |s| > 0 && IsWordChar(s[0]) then
      var n := 1 + WordRun(s[1..]);
      assert s[..n] == [s[0]] + s[1..][..n - 1];
      n
    else 0
  }

  predicate AllWordChars(s: string) {
    forall i | 0 <= i < |s| :: IsWordChar(s[i])
  }


  function DigitValue(c: char): nat
    requires IsDigit(c)
  {
    c as int - '0' as int
  }

  function DigitChar(d: nat): (c: char)
    requires d < 10
    ensures IsDigit(c) && DigitValue(c) == d
  {
    ('0' as int + d) as char
  }

  /** The number a string of decimal digits denotes (leading zeros allowed). */
  function DecimalValue(s: string): nat
    requires AllDigits(s)
    decreases |s|
  {
    if s == [] then 0 else DecimalValue(s[..|s| - 1]) * 10 + DigitValue(s[|s| - 1])
  }

  /** Python's `str(n)` for a natural number. */
  function NatToString(n: nat): (r: string)
    ensures |r| >= 1 && AllDigits(r)
  {
    if n < 10 then [DigitChar(n)] else NatToString(n / 10) + [DigitChar(n % 10)]
  }

  lemma {:induction false} DecimalValueOfNatToString(n: nat)
    ensures DecimalValue(NatToString(n)) == n
  {
    if n >= 10 {
      DecimalValueOfNatToString(n / 10);
      var r := NatToString(n);
      assert r[..|r| - 1] == NatToString(n / 10);
    }
  }

  lemma NatToStringInjective(m: nat, n: nat)
    requires NatToString(m) == NatToString(n)
    ensures m == n
  {
    DecimalValueOfNatToString(m);
    DecimalValueOfNatToString(n);
  }
}
