/** Cutting solver output at its two kinds of marker, as
    `re.split(r"SATISFIABLE|Answer: \d*", text)` does: the alternatives are
    tried in that order at each position, the leftmost match wins, `\d*`
    takes every digit that follows, and no match is empty. */
module ClingoText {
  import opened Strings

  const Satisfiable := "SATISFIABLE"
  const AnswerHeader := "Answer: "

  /** Length of the marker that starts `s`, 0 when none does. */
  function MarkerLength(s: string): (n: nat)
    ensures n <= |s|
    ensures n > 0 <==> StartsWith(s, Satisfiable) || StartsWith(s, AnswerHeader)
  {
    if StartsWith(s, Satisfiable) then |Satisfiable|
    else if StartsWith(s, AnswerHeader) then |AnswerHeader| + DigitRun(s[|AnswerHeader|..])
    else 0
  }

  /** What a marker looks like: the satisfiability line, or an answer
      header with every digit after it. */
  predicate IsMarker(m: string) {
    m == Satisfiable || (StartsWith(m, AnswerHeader) && AllDigits(m[|AnswerHeader|..]))
  }

  /** The segments `re.split` returns and, beside them, the markers it cut out. */
  datatype Cut = Cut(segments: seq<string>, markers: seq<string>)

  function CutAtMarkers(s: string): (c: Cut)
    ensures |c.segments| == |c.markers| + 1
    decreases |s|
  {
    if s == [] then Cut([""], [])
    else
      var m := MarkerLength(s);
      if m > 0 then
        var rest := CutAtMarkers(s[m..]);
        Cut([""] + rest.segments, [s[..m]] + rest.markers)
      else
        var rest := CutAtMarkers(s[1..]);
        Cut([[s[0]] + rest.segments[0]] + rest.segments[1..], rest.markers)
  }

  /** Segments interleaved with the markers between them. */
  function Rejoin(segments: seq<string>, markers: seq<string>): string
    requires |segments| == |markers| + 1
    decreases |markers|
  {
    if markers == [] then segments[0]
    else segments[0] + markers[0] + Rejoin(segments[1..], markers[1..])
  }

  lemma {:induction false} FirstSegmentIsPrefix(s: string)
    ensures StartsWith(s, CutAtMarkers(s).segments[0])
    decreases |s|
  {
    if s != [] && MarkerLength(s) == 0 {
      FirstSegmentIsPrefix(s[1..]);
      var h := CutAtMarkers(s[1..]).segments[0];
      assert s[..|h| + 1] == [s[0]] + s[1..][..|h|];
    }
  }

  /** The marker found at the start of `s` has the marker's shape, and an
      answer header takes every digit that follows it. */
  lemma MarkerShape(s: string)
    requires MarkerLength(s) > 0
    ensures IsMarker(s[..MarkerLength(s)])
    ensures StartsWith(s[..MarkerLength(s)], AnswerHeader) ==>
      MarkerLength(s) == |s| || !IsDigit(s[MarkerLength(s)])
  {
    var m := MarkerLength(s);
    if StartsWith(s, Satisfiable) {
      assert s[..m][0] == 'S' != AnswerHeader[0];
    } else {
      var k := |AnswerHeader|;
      assert s[..m][k..] == s[k..][..DigitRun(s[k..])];
      assert s[..m][..k] == s[..k];
      if m < |s| {
        assert s[m] == s[k..][DigitRun(s[k..])];
      }
    }
  }

  /** The text does not begin with a digit. */
  predicate DigitFreeStart(t: string) {
    t == [] || !IsDigit(t[0])
  }

  /** The segment after an answer header never begins with a digit: the
      digits of the answer number all belong to the marker. */
  lemma {:induction false} AnswerTakesAllDigits(s: string, i: nat)
    requires i < |CutAtMarkers(s).markers| && StartsWith(CutAtMarkers(s).markers[i], AnswerHeader)
    ensures DigitFreeStart(CutAtMarkers(s).segments[i + 1])
    decreases |s|
  {
    var m := MarkerLength(s);
    CutStep(s);
    if m > 0 {
      var rest := CutAtMarkers(s[m..]);
      if i == 0 {
        MarkerShape(s);
        FirstSegmentIsPrefix(s[m..]);
        var h := rest.segments[0];
        if h != [] {
          assert h[0] == s[m..][0] == s[m];
        }
      } else {
        AnswerTakesAllDigits(s[m..], i - 1);
      }
    } else {
      AnswerTakesAllDigits(s[1..], i);
    }
  }

  /** Every segment that follows an answer header starts without a digit. */
  lemma AnswerSegmentsStartWithoutDigit(s: string)
    ensures forall i | 0 <= i < |CutAtMarkers(s).markers| ::
      StartsWith(CutAtMarkers(s).markers[i], AnswerHeader) ==> DigitFreeStart(CutAtMarkers(s).segments[i + 1])
  {
    var c := CutAtMarkers(s);
    forall i | 0 <= i < |c.markers| && StartsWith(c.markers[i], AnswerHeader)
      ensures DigitFreeStart(c.segments[i + 1])
    {
      AnswerTakesAllDigits(s, i);
    }
  }

  /** Every marker the cut removes has the marker's shape. */
  lemma {:induction false} MarkersAreMarkers(s: string)
    ensures forall i | 0 <= i < |CutAtMarkers(s).markers| :: IsMarker(CutAtMarkers(s).markers[i])
    decreases |s|
  {
    if s != [] {
      var m := MarkerLength(s);
      var c := CutAtMarkers(s);
      if m > 0 {
        MarkersAreMarkers(s[m..]);
        MarkerShape(s);
        assert forall i | 1 <= i < |c.markers| :: c.markers[i] == CutAtMarkers(s[m..]).markers[i - 1];
      } else {
        MarkersAreMarkers(s[1..]);
      }
    }
  }

  /** The cut loses nothing: putting the markers back between the segments
      gives the text again. */
  lemma {:induction false} CutRejoins(s: string)
    ensures Rejoin(CutAtMarkers(s).segments, CutAtMarkers(s).markers) == s
    decreases |s|
  {
    if s != [] {
      var m := MarkerLength(s);
      CutStep(s);
      if m > 0 {
        var rest := CutAtMarkers(s[m..]);
        CutRejoins(s[m..]);
        RejoinAfterMarker(s[..m], rest.segments, rest.markers);
        assert s == s[..m] + s[m..];
      } else {
        var rest := CutAtMarkers(s[1..]);
        CutRejoins(s[1..]);
        RejoinAfterChar(s[0], rest.segments, rest.markers);
        assert s == [s[0]] + s[1..];
      }
    }
  }

  /** One step of the cut: a marker at the front opens an empty segment,
      any other character joins the first segment of the rest. */
  lemma CutStep(s: string)
    requires s != []
    ensures var m := MarkerLength(s);
      m > 0 ==>
        var rest := CutAtMarkers(s[m..]);
        CutAtMarkers(s) == Cut([""] + rest.segments, [s[..m]] + rest.markers)
    ensures var m := MarkerLength(s);
      m == 0 ==>
        var rest := CutAtMarkers(s[1..]);
        CutAtMarkers(s) == Cut([[s[0]] + rest.segments[0]] + rest.segments[1..], rest.markers)
  {
  }

  lemma RejoinAfterMarker(marker: string, segments: seq<string>, markers: seq<string>)
    requires |segments| == |markers| + 1
    ensures Rejoin([""] + segments, [marker] + markers) == marker + Rejoin(segments, markers)
  {
    var ss, ms := [""] + segments, [marker] + markers;
    assert ss[1..] == segments && ms[1..] == markers;
    assert Rejoin(ss, ms) == "" + marker + Rejoin(segments, markers);
    assert "" + marker == marker;
  }

  lemma RejoinAfterChar(ch: char, segments: seq<string>, markers: seq<string>)
    requires |segments| == |markers| + 1
    ensures Rejoin([[ch] + segments[0]] + segments[1..], markers) == [ch] + Rejoin(segments, markers)
  {
    var ss := [[ch] + segments[0]] + segments[1..];
    assert ss[0] == [ch] + segments[0] && ss[1..] == segments[1..];
    if markers != [] {
      var tail := Rejoin(segments[1..], markers[1..]);
      ConcatAssoc([ch] + segments[0], markers[0], tail);
      ConcatAssoc([ch], segments[0], markers[0] + tail);
      ConcatAssoc(segments[0], markers[0], tail);
    }
  }

  /** No segment contains either marker text: the leftmost scan found
      every marker. */
  lemma {:induction false} SegmentsHoldNoMarker(s: string)
    ensures forall i | 0 <= i < |CutAtMarkers(s).segments| ::
      !Contains(CutAtMarkers(s).segments[i], Satisfiable) && !Contains(CutAtMarkers(s).segments[i], AnswerHeader)
    decreases |s|
  {
    NothingInEmpty(Satisfiable);
    NothingInEmpty(AnswerHeader);
    if s != [] {
      var m := MarkerLength(s);
      CutStep(s);
      if m > 0 {
        var rest := CutAtMarkers(s[m..]);
        SegmentsHoldNoMarker(s[m..]);
        FreeCons("", rest.segments);
      } else {
        var rest := CutAtMarkers(s[1..]);
        SegmentsHoldNoMarker(s[1..]);
        FirstSegmentIsPrefix(s[1..]);
        var h := [s[0]] + rest.segments[0];
        assert StartsWith(s, h) by {
          assert s[..|h|] == [s[0]] + s[1..][..|rest.segments[0]|];
        }
        NotStartingShorter(s, h, Satisfiable);
        NotStartingShorter(s, h, AnswerHeader);
        assert h[1..] == rest.segments[0];
        FreeCons(h, rest.segments[1..]);
      }
    }
  }

  /** Neither marker text occurs in `t`. */
  predicate Free(t: string) {
    !Contains(t, Satisfiable) && !Contains(t, AnswerHeader)
  }

  lemma FreeCons(h: string, ts: seq<string>)
    requires Free(h) && forall i | 0 <= i < |ts| :: Free(ts[i])
    ensures forall i | 0 <= i < |[h] + ts| :: Free(([h] + ts)[i])
  {
  }

  lemma NothingInEmpty(p: string)
    requires |p| > 0
    ensures !Contains("", p)
  {
  }

  lemma NotStartingShorter(s: string, h: string, p: string)
    requires StartsWith(s, h) && !StartsWith(s, p)
    ensures !StartsWith(h, p)
  {
    if StartsWith(h, p) { StartsWithPrefix(s, h, p); }
  }

  /** A text holding the satisfiability line yields at least one marker. */
  lemma {:induction false} SatisfiableGivesMarker(s: string)
    requires Contains(s, Satisfiable)
    ensures |CutAtMarkers(s).markers| >= 1
    decreases |s|
  {
    if MarkerLength(s) == 0 {
      SatisfiableGivesMarker(s[1..]);
    }
  }
}
