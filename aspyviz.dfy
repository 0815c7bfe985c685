/** The text handling of the renderer's entry point: cutting solver output
    into answer sets, cutting an answer set into atom tokens, and choosing
    a fresh directory name for the rendered images. */
module AspyViz {
  import opened Wrappers
  import opened Strings
  import opened ClingoText

  // ---------------------------------------------------------------------
  // extract_models

  /** The metadata before the first marker, and the answer sets. */
  datatype Models = Models(metadata: string, answerSets: seq<string>)

  /** The output with every line break turned into a space, as it is cut. */
  function Flattened(output: string): string {
    Replace(output, "\n", " ")
  }

  /** `extract_models`: reject output without the satisfiability text, then
      cut the flattened output at the markers; the first segment is the
      metadata, the last one (after the final marker) is dropped. */
  function ExtractModels(output: string): Result<Models> {
    if !Contains(output, Satisfiable) then Failure(UnsatisfiableInput)
    else
      var segments := CutAtMarkers(Flattened(output)).segments;
      Success(Models(segments[0], if |segments| >= 2 then segments[1..|segments| - 1] else []))
  }

  /** Every character of a segment occurs in the text that was cut. */
  lemma {:induction false} SegmentChars(s: string, i: nat, c: char)
    requires i < |CutAtMarkers(s).segments| && c in CutAtMarkers(s).segments[i]
    ensures c in s
    decreases |s|
  {
    if s != [] {
      var m := MarkerLength(s);
      if m > 0 {
        SegmentChars(s[m..], i - 1, c);
      } else {
        var rest := CutAtMarkers(s[1..]);
        if i == 0 {
          if c != s[0] {
            SegmentChars(s[1..], 0, c);
          }
        } else {
          SegmentChars(s[1..], i, c);
        }
      }
    }
  }

  /** `extract_models` fails, with the unsatisfiable-input error, exactly
      when the satisfiability text is absent. Otherwise there is at least
      one marker; the metadata is the text before the first one; the
      answer sets are the segments between consecutive markers, one fewer
      than the markers; no answer set holds a line break or a marker; one
      that follows an answer header does not begin with a digit, since the
      header took the whole answer number; and
      segments and markers together give back the flattened output. */
  lemma ExtractModelsSpec(output: string)
    ensures ExtractModels(output).Failure? <==> !Contains(output, Satisfiable)
    ensures ExtractModels(output).Failure? ==> ExtractModels(output).error == UnsatisfiableInput
    ensures ExtractModels(output).Success? ==>
      var c := CutAtMarkers(Flattened(output));
      var m := ExtractModels(output).value;
      && |c.markers| >= 1
      && |m.answerSets| == |c.markers| - 1
      && m.metadata == c.segments[0]
      && StartsWith(Flattened(output), m.metadata)
      && (forall i | 0 <= i < |m.answerSets| :: m.answerSets[i] == c.segments[i + 1])
      && (forall i | 0 <= i < |m.answerSets| :: '\n' !in m.answerSets[i])
      && (forall i | 0 <= i < |m.answerSets| ::
            !Contains(m.answerSets[i], Satisfiable) && !Contains(m.answerSets[i], AnswerHeader))
      && (forall i | 0 <= i < |m.answerSets| ::
            StartsWith(c.markers[i], AnswerHeader) ==> DigitFreeStart(m.answerSets[i]))
      && Rejoin(c.segments, c.markers) == Flattened(output)
  {
    if Contains(output, Satisfiable) {
      ExtractModelsShape(output);
      AnswerSetsOneLine(output);
      AnswerSetsAfterMarkers(output);
    }
  }

  /** The cut behind a successful `extract_models`: where the metadata and
      the answer sets come from. */
  lemma ExtractModelsShape(output: string)
    requires Contains(output, Satisfiable)
    ensures var c := CutAtMarkers(Flattened(output));
      var m := ExtractModels(output).value;
      && |c.markers| >= 1
      && |m.answerSets| == |c.markers| - 1
      && m.metadata == c.segments[0]
      && StartsWith(Flattened(output), m.metadata)
      && (forall i | 0 <= i < |m.answerSets| :: m.answerSets[i] == c.segments[i + 1])
      && Rejoin(c.segments, c.markers) == Flattened(output)
  {
    var f := Flattened(output);
    ReplaceCharKeepsOccurrence(output, '\n', ' ', Satisfiable);
    SatisfiableGivesMarker(f);
    FirstSegmentIsPrefix(f);
    CutRejoins(f);
  }

  lemma AnswerSetsOneLine(output: string)
    requires Contains(output, Satisfiable)
    ensures var m := ExtractModels(output).value;
      forall i | 0 <= i < |m.answerSets| :: '\n' !in m.answerSets[i]
  {
    var f := Flattened(output);
    ExtractModelsShape(output);
    ReplaceRemovesChar(output, '\n', " ");
    var m := ExtractModels(output).value;
    forall i | 0 <= i < |m.answerSets| ensures '\n' !in m.answerSets[i] {
      if '\n' in m.answerSets[i] {
        SegmentChars(f, i + 1, '\n');
      }
    }
  }

  lemma AnswerSetsAfterMarkers(output: string)
    requires Contains(output, Satisfiable)
    ensures var c := CutAtMarkers(Flattened(output));
      var m := ExtractModels(output).value;
      && |m.answerSets| == |c.markers| - 1
      && (forall i | 0 <= i < |m.answerSets| ::
            !Contains(m.answerSets[i], Satisfiable) && !Contains(m.answerSets[i], AnswerHeader))
      && (forall i | 0 <= i < |m.answerSets| ::
            StartsWith(c.markers[i], AnswerHeader) ==> DigitFreeStart(m.answerSets[i]))
  {
    var f := Flattened(output);
    ExtractModelsShape(output);
    SegmentsHoldNoMarker(f);
    AnswerSegmentsStartWithoutDigit(f);
  }

  /** The guard is a substring test, so the output of an unsatisfiable
      problem passes it: `UNSATISFIABLE` yields the metadata `UN` and no
      answer set instead of the error. */
  lemma UnsatisfiableOutputPassesGuard()
    ensures ExtractModels("UNSATISFIABLE") == Success(Models("UN", []))
  {
    UnsatisfiableFlattened();
    UnsatisfiableCut();
  }

  lemma UnsatisfiableFlattened()
    ensures Contains("UNSATISFIABLE", Satisfiable)
    ensures Flattened("UNSATISFIABLE") == "UNSATISFIABLE"
  {
    UnsatisfiableSpelling();
    ContainsOfSuffix("UN", Satisfiable);
    NoBreakFlattens("UNSATISFIABLE");
  }

  lemma UnsatisfiableSpelling()
    ensures "UNSATISFIABLE" == "UN" + Satisfiable && '\n' !in "UNSATISFIABLE"
    ensures "UNSATISFIABLE" == ['U'] + "NSATISFIABLE" && "NSATISFIABLE" == ['N'] + Satisfiable
    ensures ['U'] + "N" == "UN" && ['N'] + "" == "N"
  {
  }

  /** Output without line breaks is cut as it is. */
  lemma NoBreakFlattens(s: string)
    requires '\n' !in s
    ensures Flattened(s) == s
  {
    ContainsChar(s, '\n');
    ReplaceAbsent(s, "\n", " ");
  }

  lemma UnsatisfiableCut()
    ensures CutAtMarkers("UNSATISFIABLE").segments == ["UN", ""]
  {
    UnsatisfiableSpelling();
    SatisfiableCut();
    PlainCharCut('N', Satisfiable, ["", ""]);
    PlainCharCut('U', "NSATISFIABLE", ["N", ""]);
  }

  /** Cutting a text that starts with a character no marker starts with:
      that character joins the first segment of the rest. */
  lemma PlainCharCut(ch: char, rest: string, segments: seq<string>)
    requires ch != Satisfiable[0] && ch != AnswerHeader[0]
    requires CutAtMarkers(rest).segments == segments && |segments| == 2
    ensures CutAtMarkers([ch] + rest).segments == [[ch] + segments[0], segments[1]]
  {
    var s := [ch] + rest;
    assert s[1..] == rest;
    assert !StartsWith(s, Satisfiable) && !StartsWith(s, AnswerHeader) by {
      assert s[0] == ch;
    }
    CutStep(s);
  }

  lemma SatisfiableCut()
    ensures CutAtMarkers(Satisfiable).segments == ["", ""]
  {
    assert MarkerLength(Satisfiable) == |Satisfiable|;
    assert Satisfiable[|Satisfiable|..] == [];
  }

  // ---------------------------------------------------------------------
  // extract_atoms

  /** `extract_atoms`: strip, then split at every single whitespace character. */
  function ExtractAtoms(model: string): seq<string> {
    SplitAtSpaces(Strip(model))
  }

  /** No token holds whitespace; there is one token more than there are
      whitespace characters in the stripped text (so empty tokens between
      adjacent whitespace are kept); and the tokens, rejoined with those
      characters, give the stripped text back. */
  lemma ExtractAtomsSpec(model: string)
    ensures var ts := ExtractAtoms(model);
      && |ts| == |SpacesOf(Strip(model))| + 1
      && (forall i, j | 0 <= i < |ts| && 0 <= j < |ts[i]| :: !IsSpace(ts[i][j]))
      && Interleave(ts, SpacesOf(Strip(model))) == Strip(model)
  {
    SplitAtSpacesSpec(Strip(model));
  }

  // ---------------------------------------------------------------------
  // generate_directory_name

  /** The default directory: the title (or `PyVizOutput`) and the
      timestamp under the root, with every space removed. */
  function DefaultDirectory(title: string, rootDir: string, timestamp: string): (d: string)
    ensures ' ' !in d
  {
    ReplaceRemovesChar(rootDir + "/" + (if title != "" then title + "-" + timestamp else "PyVizOutput-" + timestamp), ' ', "");
    Replace(rootDir + "/" + (if title != "" then title + "-" + timestamp else "PyVizOutput-" + timestamp), " ", "")
  }

  /** The name tried on the `count`-th collision. */
  function Suffixed(base: string, count: nat): string {
    base + "[" + NatToString(count) + "]"
  }

  /** Distinct counts give distinct names. */
  lemma SuffixedDistinct(base: string, m: nat, n: nat)
    ensures m != n ==> Suffixed(base, m) != Suffixed(base, n)
  {
    if Suffixed(base, m) == Suffixed(base, n) {
      var sm, sn := NatToString(m), NatToString(n);
      assert |sm| == |sn|;
      assert sm == Suffixed(base, m)[|base| + 1..|base| + 1 + |sm|];
      assert sn == Suffixed(base, n)[|base| + 1..|base| + 1 + |sn|];
      NatToStringInjective(m, n);
    }
  }

  lemma SuffixedHasNoSpace(base: string, n: nat)
    requires ' ' !in base
    ensures ' ' !in Suffixed(base, n)
  {
    var d := NatToString(n);
    assert forall i | 0 <= i < |d| :: IsDigit(d[i]);
  }

  /** `generate_directory_name`, with the clock reading passed in as
      `timestamp` and the file system as the set of existing paths: the
      default name if it is free, otherwise `name[n]` for the least `n >= 1`
      that is free. The search ends because the set is finite. */
  method GenerateDirectoryName(title: string, rootDir: string, timestamp: string, existing: set<string>)
    returns (directory: string)
    ensures directory !in existing && ' ' !in directory
    ensures var base := DefaultDirectory(title, rootDir, timestamp);
      && (base !in existing ==> directory == base)
      && (base in existing ==> exists n: nat | 1 <= n ::
            directory == Suffixed(base, n) && forall m: nat | 1 <= m < n :: Suffixed(base, m) in existing)
  {
    directory := DefaultDirectory(title, rootDir, timestamp);
    if directory in existing {
      var base := directory;
      var count := 1;
      var newDir := Suffixed(base, count);
      ghost var tried: set<string> := {};
      while newDir in existing
        invariant count >= 1 && newDir == Suffixed(base, count)
        invariant tried == set m: nat | 1 <= m < count :: Suffixed(base, m)
        invariant tried <= existing && |tried| == count - 1
        decreases |existing| - |tried|
      {
        forall m: nat | 1 <= m < count ensures Suffixed(base, m) != newDir {
          SuffixedDistinct(base, m, count);
        }
        tried := tried + {newDir};
        count := count + 1;
        newDir := Suffixed(base, count);
        assert tried == set m: nat | 1 <= m < count :: Suffixed(base, m);
        assert |tried| <= |existing| by { SubsetCardinality(tried, existing); }
      }
      directory := newDir;
      SuffixedHasNoSpace(base, count);
      assert 1 <= count && directory == Suffixed(base, count);
    }
  }

  lemma SubsetCardinality<T>(a: set<T>, b: set<T>)
    requires a <= b
    ensures |a| <= |b|
  {
    assert b == a + (b - a);
  }
}
