/** The regular expressions that describe atoms, restricted to the one
    grammar every atom type uses: a literal name, `\(`, placeholders
    separated by `,` (each `\d*` or `\w+`), `\)`. A pattern is kept as its
    name and placeholder list; `Render` gives the regex text. This module
    also models the three `str.replace` calls that turn that text into a
    capture template, matching as `re.match` and `re.search` do for these
    expressions, and Python's `int()` on a captured group. */
module AtomPattern {
  import opened Strings
  import opened Wrappers

  datatype Placeholder = Digits | Word

  datatype Pattern = Pattern(name: string, placeholders: seq<Placeholder>)

  /** Names are literal word characters, so they hold no regex syntax. */
  predicate WellFormed(p: Pattern) {
    forall i | 0 <= i < |p.name| :: IsWordChar(p.name[i])
  }

  // ---------------------------------------------------------------------
  // Regex text

  function PlaceholderText(ph: Placeholder): string {
    match ph
    case Digits => "\\d*"
    case Word => "\\w+"
  }

  /** Placeholder texts joined by `sep`. */
  function Body(phs: seq<Placeholder>, sep: string): string
    decreases |phs|
  {
    if phs == [] then ""
    else if |phs| == 1 then PlaceholderText(phs[0])
    else PlaceholderText(phs[0]) + sep + Body(phs[1..], sep)
  }

  /** The regex text, as `get_regex` returns it. */
  function Render(p: Pattern): string {
    p.name + "\\(" + Body(p.placeholders, ",") + "\\)"
  }

  /** `regex.replace("(", "((").replace("\)", ")\)").replace(",", "),(")`. */
  function CaptureTemplate(regex: string): string {
    Replace(Replace(Replace(regex, "(", "(("), "\\)", ")\\)"), ",", "),(")
  }

  /** A capture group: around one placeholder, or empty (`()`). */
  type Group = Option<Placeholder>

  function GroupText(g: Group): string {
    match g
    case None => ""
    case Some(ph) => PlaceholderText(ph)
  }

  /** Groups `(g1),(g2),...` joined by commas. */
  function GroupList(gs: seq<Group>): string
    decreases |gs|
  {
    if gs == [] then ""
    else if |gs| == 1 then "(" + GroupText(gs[0]) + ")"
    else "(" + GroupText(gs[0]) + ")," + GroupList(gs[1..])
  }

  /** The regex text of a name followed by capture groups. */
  function RenderGroups(name: string, gs: seq<Group>): string {
    name + "\\(" + GroupList(gs) + "\\)"
  }

  function Wrap(phs: seq<Placeholder>): (gs: seq<Group>)
    ensures |gs| == |phs| && forall i | 0 <= i < |phs| :: gs[i] == Some(phs[i])
    decreases |phs|
  {
    if phs == [] then [] else [Some(phs[0])] + Wrap(phs[1..])
  }

  /** The groups of the capture template: one per placeholder; a pattern
      without placeholders gets one empty group, because the rewrite turns
      `\(\)` into `\(()\)`. */
  function CaptureGroups(phs: seq<Placeholder>): seq<Group> {
    if phs == [] then [None] else Wrap(phs)
  }

  // Facts about the characters of the pieces, for the rewrite proof.

  lemma {:induction false} BodyChars(phs: seq<Placeholder>, sep: string, c: char)
    requires c in Body(phs, sep)
    ensures c in "\\d*w+" || c in sep
    decreases |phs|
  {
    if |phs| > 1 {
      var t := PlaceholderText(phs[0]);
      if c !in t && c !in sep {
        assert c in Body(phs[1..], sep);
        BodyChars(phs[1..], sep, c);
      }
    }
  }

  lemma BodyLastChar(phs: seq<Placeholder>, sep: string)
    requires phs != []
    ensures var b := Body(phs, sep); |b| > 0 && b[|b| - 1] != '\\'
    decreases |phs|
  {
    if |phs| > 1 { BodyLastChar(phs[1..], sep); }
  }

  lemma CharAbsent(s: string, c: char, p: string, k: nat)
    requires k < |p| && p[k] == c && c !in s
    ensures !Contains(s, p)
  {
    if Contains(s, p) { ContainsHasChar(s, p, k); }
  }

  lemma {:induction false} ContainsHasChar(s: string, p: string, k: nat)
    requires Contains(s, p) && k < |p|
    ensures p[k] in s
    decreases |s|
  {
    if StartsWith(s, p) {
      assert s[k] == p[k];
    } else {
      ContainsHasChar(s[1..], p, k);
    }
  }

  lemma NoStraddleLast(a: string, pat: string)
    requires |pat| == 2 && (a == [] || a[|a| - 1] != pat[0])
    ensures NoStraddle(a, pat)
  {
    forall k | 0 < k < |pat| && k <= |a| ensures a[|a| - k..] != pat[..k] {
      assert k == 1;
      assert a[|a| - k..][0] == a[|a| - 1];
    }
  }

  /** The third replacement turns the commas of the body into `),(`. */
  lemma {:induction false} CommasBecomeGroupSeparators(phs: seq<Placeholder>)
    ensures Replace(Body(phs, ","), ",", "),(") == Body(phs, "),(")
    decreases |phs|
  {
    if phs == [] {
    } else {
      var t := PlaceholderText(phs[0]);
      PlaceholderSyntax(phs[0]);
      if |phs| == 1 {
        ContainsChar(t, ',');
        ReplaceAbsent(t, ",", "),(");
      } else {
        var rest := Body(phs[1..], ",");
        ConcatAssoc(t, ",", rest);
        ReplaceFreeHead(t, "," + rest, ',', "),(");
        ReplaceAtMatch(",", rest, "),(");
        CommasBecomeGroupSeparators(phs[1..]);
        ConcatAssoc(t, "),(", Body(phs[1..], "),("));
      }
    }
  }

  /** A placeholder's text holds none of the characters the rewrite looks for. */
  lemma PlaceholderSyntax(ph: Placeholder)
    ensures var t := PlaceholderText(ph); ',' !in t && '(' !in t && ')' !in t
  {
  }

  lemma {:induction false} GroupListOfWrap(phs: seq<Placeholder>)
    requires phs != []
    ensures GroupList(Wrap(phs)) == "(" + Body(phs, "),(") + ")"
    decreases |phs|
  {
    if |phs| > 1 {
      var t := PlaceholderText(phs[0]);
      var b' := Body(phs[1..], "),(");
      GroupListOfWrap(phs[1..]);
      assert Wrap(phs)[1..] == Wrap(phs[1..]);
      assert GroupList(Wrap(phs)) == "(" + t + ")," + GroupList(Wrap(phs[1..]));
      SeparatorLiteral();
      GroupRegroup("(", t, "),", b', ")");
    }
  }

  lemma SeparatorLiteral()
    ensures ")," + "(" == "),("
  {
  }

  lemma GroupRegroup(o: string, t: string, cc: string, b: string, c: string)
    ensures o + t + cc + (o + b + c) == o + (t + (cc + o) + b) + c
  {
    ConcatAssoc(o + t + cc, o + b, c);
    ConcatAssoc(o + t, cc, o + b);
    ConcatAssoc(cc, o, b);
    ConcatAssoc(o + t, cc + o, b);
    ConcatAssoc(o, t, cc + o);
    ConcatAssoc(o, t + (cc + o), b);
  }

  /** Word characters include none of the regex syntax the rewrite touches. */
  lemma NameHasNoSyntax(n: string)
    requires forall i | 0 <= i < |n| :: IsWordChar(n[i])
    ensures '(' !in n && ')' !in n && ',' !in n && '\\' !in n
  {
  }

  /** First replacement: only the escaped opening parenthesis changes. */
  lemma OpeningRewrite(n: string, b: string)
    requires '(' !in n && '(' !in b
    ensures Replace(n + "\\(" + b + "\\)", "(", "((") == n + "\\((" + b + "\\)"
  {
    OpeningLiterals();
    Regroup(n, b, "\\", "(", "\\)");
    Regroup(n, b, "\\", "((", "\\)");
    ReplaceCharInMiddle(n + "\\", "(", b + "\\)", '(', "((");
  }

  lemma OpeningLiterals()
    ensures "\\(" == "\\" + "(" && "\\((" == "\\" + "(("
    ensures '(' !in "\\" && '(' !in "\\)"
    ensures Replace("(", "(", "((") == "(("
  {
  }

  lemma Regroup(n: string, b: string, x: string, y: string, z: string)
    ensures n + (x + y) + b + z == (n + x) + y + (b + z)
  {
  }

  /** Second replacement: only the closing `\)` changes. */
  lemma ClosingRewrite(a: string)
    requires ')' !in a && (a == [] || a[|a| - 1] != '\\')
    ensures Replace(a + "\\)", "\\)", ")\\)") == a + ")\\)"
  {
    NoStraddleLast(a, "\\)");
    ReplaceAppend(a, "\\)", "\\)", ")\\)");
    assert Replace("\\)", "\\)", ")\\)") == ")\\)";
    CharAbsent(a, ')', "\\)", 1);
    ReplaceAbsent(a, "\\)", ")\\)");
  }

  /** Third replacement: commas occur only in the body. */
  lemma CommaRewrite(h: string, b: string)
    requires ',' !in h
    ensures Replace(h + b + ")\\)", ",", "),(") == h + Replace(b, ",", "),(") + ")\\)"
  {
    assert ',' !in ")\\)";
    ReplaceCharInMiddle(h, b, ")\\)", ',', "),(");
  }

  /** The three replacements on `name\(body\)`, for a name and a body
      free of the characters they look for. */
  lemma TemplateOfParts(n: string, b: string)
    requires '(' !in n && ')' !in n && ',' !in n && '\\' !in n && '(' !in b && ')' !in b
    requires b == [] || b[|b| - 1] != '\\'
    ensures CaptureTemplate(n + "\\(" + b + "\\)") == n + "\\((" + Replace(b, ",", "),(") + ")\\)"
  {
    var h := n + "\\((";
    var a := h + b;
    CharsOfOpened(n, b);
    OpeningRewrite(n, b);
    ClosingRewrite(a);
    CommaRewrite(h, b);
  }

  lemma CharsOfOpened(n: string, b: string)
    requires ')' !in n && '\\' !in n && ')' !in b
    requires b == [] || b[|b| - 1] != '\\'
    ensures var a := n + "\\((" + b; ')' !in a && a[|a| - 1] != '\\'
    ensures n + "\\((" + b + "\\)" == (n + "\\((" + b) + "\\)"
  {
    var a := n + "\\((" + b;
    if b == [] { assert a[|a| - 1] == '('; } else { assert a[|a| - 1] == b[|b| - 1]; }
    assert a == n + ("\\((" + b);
  }

  /** The rewrite in `get_args` does what it is for: in the regex text of a
      pattern it puts one capture group around each placeholder, in order;
      a pattern with no placeholders gets one empty group. */
  lemma RewriteYieldsCaptureGroups(p: Pattern)
    requires WellFormed(p)
    ensures CaptureTemplate(Render(p)) == RenderGroups(p.name, CaptureGroups(p.placeholders))
  {
    var n, phs := p.name, p.placeholders;
    var b := Body(phs, ",");
    NameHasNoSyntax(n);
    assert '(' !in b && ')' !in b by {
      if '(' in b { BodyChars(phs, ",", '('); }
      if ')' in b { BodyChars(phs, ",", ')'); }
    }
    if phs != [] { BodyLastChar(phs, ","); }
    TemplateOfParts(n, b);
    CommasBecomeGroupSeparators(phs);
    var b' := Body(phs, "),(");
    BracketLiterals();
    if phs != [] {
      GroupListOfWrap(phs);
      BracketRegroup(n, "\\(", "(", b', ")", "\\)");
    } else {
      assert GroupList(CaptureGroups(phs)) == "(" + "" + ")";
      BracketRegroup(n, "\\(", "(", "", ")", "\\)");
    }
  }

  lemma BracketLiterals()
    ensures "\\((" == "\\(" + "(" && ")\\)" == ")" + "\\)"
  {
  }

  lemma BracketRegroup(n: string, x: string, o: string, b: string, c: string, y: string)
    ensures n + (x + o) + b + (c + y) == n + x + (o + b + c) + y
  {
    ConcatAssoc(n + (x + o) + b, c, y);
    ConcatAssoc(n, x, o);
    ConcatAssoc(n + x, o, b);
    ConcatAssoc(n + x, o + b, c);
  }

  // ---------------------------------------------------------------------
  // Matching

  /** What a group of each kind captures: `\d*` any run of digits, `\w+` a
      non-empty run of word characters, `()` nothing. */
  predicate Captures(g: Group, t: string) {
    match g
    case None => t == ""
    case Some(Digits) => AllDigits(t)
    case Some(Word) => |t| > 0 && AllWordChars(t)
  }

  function RunLength(g: Group, s: string): (n: nat)
    ensures n <= |s|
  {
    match g
    case None => 0
    case Some(Digits) => DigitRun(s)
    case Some(Word) => WordRun(s)
  }

  /** Match `(g1),(g2),...\)` against the start of `s`, returning the text
      each group captured. Each placeholder is followed by `,` or `)`, which
      neither `\d` nor `\w` admits, so the greedy run is the only one that
      can succeed: no backtracking is needed. */
  function MatchGroupList(gs: seq<Group>, s: string): (r: Option<seq<string>>)
    requires |gs| >= 1
    ensures r.Some? ==> |r.value| == |gs|
    decreases |gs|
  {
    var n := RunLength(gs[0], s);
    if gs[0] == Some(Word) && n == 0 then None
    else if n < |s| && |gs| == 1 && s[n] == ')' then Some([s[..n]])
    else if n < |s| && |gs| > 1 && s[n] == ',' then
      match MatchGroupList(gs[1..], s[n + 1..])
      case None => None
      case Some(rest) => Some([s[..n]] + rest)
    else None
  }

  function MatchGroups(gs: seq<Group>, s: string): (r: Option<seq<string>>)
    ensures r.Some? ==> |r.value| == |gs|
  {
    if gs == [] then (if |s| > 0 && s[0] == ')' then Some([]) else None)
    else MatchGroupList(gs, s)
  }

  /** Match `name\(...\)` at the very start of `s` (`re.match`). */
  function MatchAt(name: string, gs: seq<Group>, s: string): (r: Option<seq<string>>)
    ensures r.Some? ==> |r.value| == |gs|
  {
    if StartsWith(s, name + "(") then MatchGroups(gs, s[|name| + 1..]) else None
  }

  /** `re.match(Render(p), token)`: the token has a prefix the pattern accepts. */
  predicate Matches(p: Pattern, token: string) {
    MatchAt(p.name, Wrap(p.placeholders), token).Some?
  }

  /** `re.search` for the capture template: the leftmost match. */
  function Search(name: string, gs: seq<Group>, s: string): (r: Option<seq<string>>)
    ensures r.Some? ==> |r.value| == |gs|
    decreases |s|
  {
    var here := MatchAt(name, gs, s);
    if here.Some? then here
    else if s == [] then None
    else Search(name, gs, s[1..])
  }

  /** The text a matching prefix spells: the name, the captured texts
      between parentheses and commas. */
  function Spelled(name: string, texts: seq<string>): string {
    name + "(" + (if texts == [] then "" else Join(texts, ",")) + ")"
  }

  lemma {:induction false} DigitRunStops(s: string, t: string)
    requires AllDigits(t) && |t| < |s| && s[..|t|] == t && !IsDigit(s[|t|])
    ensures DigitRun(s) == |t|
    decreases |t|
  {
    if t != [] {
      assert s[0] == t[0];
      assert s[1..][..|t| - 1] == t[1..];
      DigitRunStops(s[1..], t[1..]);
    }
  }

  lemma {:induction false} WordRunStops(s: string, t: string)
    requires AllWordChars(t) && |t| < |s| && s[..|t|] == t && !IsWordChar(s[|t|])
    ensures WordRun(s) == |t|
    decreases |t|
  {
    if t != [] {
      assert s[0] == t[0];
      assert s[1..][..|t| - 1] == t[1..];
      WordRunStops(s[1..], t[1..]);
    }
  }

  /** A group's greedy run ends at the separator after its text. */
  lemma RunStopsAtSeparator(g: Group, s: string, t: string)
    requires Captures(g, t) && |t| < |s| && s[..|t|] == t && !IsWordChar(s[|t|])
    ensures RunLength(g, s) == |t|
  {
    match g
    case None =>
    case Some(Digits) => DigitRunStops(s, t);
    case Some(Word) => WordRunStops(s, t);
  }

  lemma {:induction false} MatchGroupListSound(gs: seq<Group>, s: string)
    requires |gs| >= 1 && MatchGroupList(gs, s).Some?
    ensures var r := MatchGroupList(gs, s).value;
      && (forall i | 0 <= i < |gs| :: Captures(gs[i], r[i]))
      && StartsWith(s, Join(r, ",") + ")")
    decreases |gs|
  {
    var n := RunLength(gs[0], s);
    var r := MatchGroupList(gs, s).value;
    assert r[0] == s[..n];
    if |gs| > 1 {
      var s' := s[n + 1..];
      MatchGroupListSound(gs[1..], s');
      var r' := MatchGroupList(gs[1..], s').value;
      assert r[1..] == r';
      assert forall i | 1 <= i < |gs| :: r[i] == r'[i - 1];
      var h := s[..n] + ",";
      JoinClosed(r, ",", ")");
      assert s[..n + 1] == h;
      StartsWithConcat(s, h, Join(r', ",") + ")");
    } else {
      assert s[n..][..1] == ")";
      StartsWithConcat(s, s[..n], ")");
    }
  }

  /** A join of two or more texts, closed: the first text and separator,
      then the closed join of the rest. */
  lemma JoinClosed(r: seq<string>, sep: string, close: string)
    requires |r| >= 2
    ensures Join(r, sep) + close == (r[0] + sep) + (Join(r[1..], sep) + close)
  {
    ConcatAssoc(r[0] + sep, Join(r[1..], sep), close);
  }

  lemma {:induction false} MatchGroupListComplete(gs: seq<Group>, s: string, texts: seq<string>)
    requires |gs| >= 1 && |texts| == |gs|
    requires forall i | 0 <= i < |gs| :: Captures(gs[i], texts[i])
    requires StartsWith(s, Join(texts, ",") + ")")
    ensures MatchGroupList(gs, s) == Some(texts)
    decreases |gs|
  {
    var t := texts[0];
    if |gs| > 1 {
      var w' := Join(texts[1..], ",") + ")";
      JoinClosed(texts, ",", ")");
      StartsWithConcat(s, t + ",", w');
      StartsWithConcat(s, t, ",");
      assert s[|t|] == s[|t|..][..1][0] == ',';
      RunStopsAtSeparator(gs[0], s, t);
      MatchGroupListComplete(gs[1..], s[|t| + 1..], texts[1..]);
      assert [t] + texts[1..] == texts;
    } else {
      assert Join(texts, ",") == t;
      StartsWithConcat(s, t, ")");
      assert s[|t|] == s[|t|..][..1][0] == ')';
      RunStopsAtSeparator(gs[0], s, t);
      assert texts == [t];
    }
  }

  /** The matcher is exact: at the start of a token it succeeds precisely
      when the token begins with the name, `(`, one text per group of that
      group's kind joined by commas, and `)`; and those texts are what the
      groups capture. */
  lemma MatchAtIsExact(name: string, gs: seq<Group>, s: string, texts: seq<string>)
    ensures MatchAt(name, gs, s).Some? ==>
      var r := MatchAt(name, gs, s).value;
      && (forall i | 0 <= i < |gs| :: Captures(gs[i], r[i]))
      && StartsWith(s, Spelled(name, r))
    ensures |texts| == |gs| && (forall i | 0 <= i < |gs| :: Captures(gs[i], texts[i]))
            && StartsWith(s, Spelled(name, texts))
            ==> MatchAt(name, gs, s) == Some(texts)
  {
    if MatchAt(name, gs, s).Some? {
      MatchAtSound(name, gs, s);
    }
    if |texts| == |gs| && (forall i | 0 <= i < |gs| :: Captures(gs[i], texts[i])) && StartsWith(s, Spelled(name, texts)) {
      MatchAtComplete(name, gs, s, texts);
    }
  }

  /** The spelling of a match is its opening `name(` followed by the rest. */
  function SpelledRest(texts: seq<string>): string {
    if texts == [] then ")" else Join(texts, ",") + ")"
  }

  lemma SpelledSplit(name: string, texts: seq<string>)
    ensures Spelled(name, texts) == (name + "(") + SpelledRest(texts)
  {
    var x := if texts == [] then "" else Join(texts, ",");
    ConcatAssoc(name + "(", x, ")");
    if texts == [] {
      assert x + ")" == ")";
    }
  }

  lemma MatchAtSound(name: string, gs: seq<Group>, s: string)
    requires MatchAt(name, gs, s).Some?
    ensures var r := MatchAt(name, gs, s).value;
      && (forall i | 0 <= i < |gs| :: Captures(gs[i], r[i]))
      && StartsWith(s, Spelled(name, r))
  {
    var h := name + "(";
    var r := MatchAt(name, gs, s).value;
    SpelledSplit(name, r);
    StartsWithConcat(s, h, SpelledRest(r));
    assert StartsWith(s, h);
    var t := s[|h|..];
    if gs != [] {
      MatchGroupListSound(gs, t);
    } else {
      assert t[..1] == [t[0]] == ")";
    }
  }

  lemma MatchAtComplete(name: string, gs: seq<Group>, s: string, texts: seq<string>)
    requires |texts| == |gs| && (forall i | 0 <= i < |gs| :: Captures(gs[i], texts[i]))
    requires StartsWith(s, Spelled(name, texts))
    ensures MatchAt(name, gs, s) == Some(texts)
  {
    var h := name + "(";
    SpelledSplit(name, texts);
    StartsWithConcat(s, h, SpelledRest(texts));
    var t := s[|h|..];
    if gs != [] {
      MatchGroupListComplete(gs, t, texts);
    } else {
      assert t[..1] == ")";
      assert t[0] == ')';
    }
  }

  /** Grouping does not change what is matched: the capture template
      accepts exactly the tokens the pattern accepts (adding one empty group
      to a pattern without placeholders), and with the same texts. */
  lemma TemplateMatchesLikePattern(p: Pattern, token: string)
    ensures MatchAt(p.name, CaptureGroups(p.placeholders), token).Some? <==> Matches(p, token)
    ensures p.placeholders != [] ==>
      MatchAt(p.name, CaptureGroups(p.placeholders), token) == MatchAt(p.name, Wrap(p.placeholders), token)
    ensures p.placeholders == [] && Matches(p, token) ==>
      MatchAt(p.name, CaptureGroups(p.placeholders), token) == Some([""])
  {
    if p.placeholders == [] && StartsWith(token, p.name + "(") {
      var s := token[|p.name| + 1..];
      if |s| > 0 && s[0] == ')' {
        assert MatchGroupList([None], s) == Some([s[..0]]);
      }
    }
  }

  /** A match at the start is the leftmost one, and `search` finds no
      match in a text shorter than the shortest spelling. */
  lemma SearchFindsMatchAtStart(name: string, gs: seq<Group>, s: string)
    requires MatchAt(name, gs, s).Some?
    ensures Search(name, gs, s) == MatchAt(name, gs, s)
  {
  }

  // ---------------------------------------------------------------------
  // int() on a captured group

  /** The strings of word characters that Python's `int()` accepts: digits,
      with single underscores allowed between two digits. */
  predicate IsIntLiteral(s: string) {
    && |s| > 0 && IsDigit(s[0]) && IsDigit(s[|s| - 1])
    && (forall i | 0 <= i < |s| :: IsDigit(s[i]) || s[i] == '_')
    && (forall i | 0 <= i < |s| - 1 :: s[i] == '_' ==> s[i + 1] != '_')
  }

  function DropUnderscores(s: string): (r: string)
    requires forall i | 0 <= i < |s| :: IsDigit(s[i]) || s[i] == '_'
    ensures AllDigits(r)
    decreases |s|
  {
    if s == [] then []
    else (if s[0] == '_' then [] else [s[0]]) + DropUnderscores(s[1..])
  }

  /** Python's `int(s)` for a string of word characters. */
  function ParseInt(s: string): Option<int> {
    if IsIntLiteral(s) then Some(DecimalValue(DropUnderscores(s))) else None
  }

  lemma {:induction false} DropUnderscoresOfDigits(s: string)
    requires AllDigits(s)
    ensures DropUnderscores(s) == s
    decreases |s|
  {
    if s != [] { DropUnderscoresOfDigits(s[1..]); }
  }

  /** On a run of digits `int()` succeeds exactly when the run is not empty,
      and gives the run's decimal value. */
  lemma ParseIntOfDigits(s: string)
    requires AllDigits(s)
    ensures ParseInt(s) == if s == [] then None else Some(DecimalValue(s))
  {
    if s != [] { DropUnderscoresOfDigits(s); }
  }

  /** An argument extracted from an atom: a number or a text. */
  datatype Arg = IntArg(n: int) | StrArg(text: string)

  /** One iteration of the `get_args` loop: `int(each) * scaling`, or the
      group itself when `int()` raises `ValueError`. */
  function ConvertGroup(g: string, scaling: int): Arg {
    match ParseInt(g)
    case Some(i) => IntArg(i * scaling)
    case None => StrArg(g)
  }

  /** The texts the capture template's groups take from the leftmost
      match in `token`. */
  function Groups(p: Pattern, token: string): Option<seq<string>> {
    Search(p.name, CaptureGroups(p.placeholders), token)
  }

  /** The arguments `get_args` returns. */
  function ArgsOf(p: Pattern, token: string, scaling: int): (r: Result<seq<Arg>>)
    ensures r.Failure? <==> Groups(p, token).None?
    ensures r.Failure? ==> r.error == NoMatch
    ensures r.Success? ==> |r.value| == |Groups(p, token).value| == |CaptureGroups(p.placeholders)|
  {
    match Groups(p, token)
    case None => Failure(NoMatch)
    case Some(groups) => Success(seq(|groups|, i requires 0 <= i < |groups| => ConvertGroup(groups[i], scaling)))
  }

  /** For a token the pattern matches, `get_args` returns one value per
      placeholder, in placeholder order, taken from the texts the token
      spells out after the name: a digit placeholder gives that run's
      decimal value times `scaling`, or "" for the empty run; a word
      placeholder gives a number when `int()` accepts the text and the text
      itself otherwise. */
  lemma ArgsOfMatchedToken(p: Pattern, token: string, scaling: int)
    requires Matches(p, token) && |p.placeholders| > 0
    ensures Groups(p, token).Some?
    ensures var texts := Groups(p, token).value;
      var args := ArgsOf(p, token, scaling).value;
      && StartsWith(token, Spelled(p.name, texts))
      && |args| == |p.placeholders|
      && (forall i | 0 <= i < |args| && p.placeholders[i] == Digits ::
          AllDigits(texts[i]) && args[i] == (if texts[i] == "" then StrArg("") else IntArg(DecimalValue(texts[i]) * scaling)))
      && (forall i | 0 <= i < |args| && p.placeholders[i] == Word ::
          && |texts[i]| > 0 && AllWordChars(texts[i])
          && (IsIntLiteral(texts[i]) ==> args[i] == IntArg(DecimalValue(DropUnderscores(texts[i])) * scaling))
          && (!IsIntLiteral(texts[i]) ==> args[i] == StrArg(texts[i])))
  {
    var gs := CaptureGroups(p.placeholders);
    TemplateMatchesLikePattern(p, token);
    SearchFindsMatchAtStart(p.name, gs, token);
    MatchAtIsExact(p.name, gs, token, []);
    var texts := Groups(p, token).value;
    forall i | 0 <= i < |p.placeholders| && p.placeholders[i] == Digits
      ensures AllDigits(texts[i])
      ensures ConvertGroup(texts[i], scaling) == if texts[i] == "" then StrArg("") else IntArg(DecimalValue(texts[i]) * scaling)
    {
      assert gs[i] == Some(Digits);
      ParseIntOfDigits(texts[i]);
    }
    forall i | 0 <= i < |p.placeholders| && p.placeholders[i] == Word
      ensures |texts[i]| > 0 && AllWordChars(texts[i])
    {
      assert gs[i] == Some(Word);
    }
  }

  /** A pattern without placeholders still yields one value: the empty
      group of its capture template captures "", which `int()` rejects. */
  lemma ArgsOfBareName(name: string, token: string, scaling: int)
    requires Matches(Pattern(name, []), token)
    ensures ArgsOf(Pattern(name, []), token, scaling) == Success([StrArg("")])
  {
    var p := Pattern(name, []);
    TemplateMatchesLikePattern(p, token);
    SearchFindsMatchAtStart(name, [None], token);
    assert Groups(p, token) == Some([""]);
    assert ConvertGroup("", scaling) == StrArg("");
    var args := ArgsOf(p, token, scaling).value;
    assert |args| == 1 && args[0] == ConvertGroup("", scaling);
    assert args == [StrArg("")];
  }
}
