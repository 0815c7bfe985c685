/** The first renderer, `main.py`'s `render`: tokens are tested against a
    road pattern and then a boundary pattern, their coordinates are the
    first four digit runs of the token, the centroid averages both end
    points of every object (repeats included), and the lines are drawn in
    token order before the title and the raw answer-set text. Its
    `extract_answer_sets` and `extract_atoms` are the same code as
    `extract_models` and `extract_atoms` of the newer renderer and are
    modelled there. */
module LegacyMain {
  import opened Wrappers
  import opened Strings
  import opened AtomPattern
  import opened Canvas
  import opened Atoms
  import opened Centroid
  import opened AspyViz
  import opened Render

  const RoadPattern: Pattern := Pattern("road", Four)
  const BoundaryPattern: Pattern := Pattern("boundary", Four)

  // ---------------------------------------------------------------------
  // re.findall(r"\d+", token)

  /** The maximal runs of digits in `s`, left to right. */
  function DigitRuns(s: string): (runs: seq<string>)
    ensures forall i | 0 <= i < |runs| :: |runs[i]| > 0 && AllDigits(runs[i])
    decreases |s|
  {
    if s == [] then []
    else if IsDigit(s[0]) then [s[..DigitRun(s)]] + DigitRuns(s[DigitRun(s)..])
    else DigitRuns(s[1..])
  }

  /** The digits of `s`, in order. */
  function DigitsOf(s: string): string
    decreases |s|
  {
    if s == [] then [] else (if IsDigit(s[0]) then [s[0]] else []) + DigitsOf(s[1..])
  }

  function Concat(ss: seq<string>): string
    decreases |ss|
  {
    if ss == [] then [] else ss[0] + Concat(ss[1..])
  }

  lemma {:induction false} DigitsOfAppend(a: string, b: string)
    ensures DigitsOf(a + b) == DigitsOf(a) + DigitsOf(b)
    decreases |a|
  {
    if a != [] {
      assert (a + b)[1..] == a[1..] + b;
      DigitsOfAppend(a[1..], b);
    } else {
      assert a + b == b;
    }
  }

  lemma {:induction false} DigitsOfDigits(t: string)
    requires AllDigits(t)
    ensures DigitsOf(t) == t
    decreases |t|
  {
    if t != [] {
      DigitsOfDigits(t[1..]);
      assert t == [t[0]] + t[1..];
    }
  }

  /** Joined together, the runs are exactly the digits of the text. */
  lemma {:induction false} DigitRunsSpec(s: string)
    ensures Concat(DigitRuns(s)) == DigitsOf(s)
    decreases |s|
  {
    if s != [] {
      if IsDigit(s[0]) {
        var n := DigitRun(s);
        DigitRunsSpec(s[n..]);
        assert s == s[..n] + s[n..];
        DigitsOfAppend(s[..n], s[n..]);
        DigitsOfDigits(s[..n]);
      } else {
        DigitRunsSpec(s[1..]);
      }
    }
  }

  /** A text without digits adds no run. */
  lemma {:induction false} DigitRunsSkip(a: string, b: string)
    requires forall i | 0 <= i < |a| :: !IsDigit(a[i])
    ensures DigitRuns(a + b) == DigitRuns(b)
    decreases |a|
  {
    if a != [] {
      assert (a + b)[1..] == a[1..] + b;
      DigitRunsSkip(a[1..], b);
    } else {
      assert a + b == b;
    }
  }

  /** A run of digits followed by a non-digit is one run. */
  lemma DigitRunsRun(t: string, b: string)
    requires |t| > 0 && AllDigits(t) && |b| > 0 && !IsDigit(b[0])
    ensures DigitRuns(t + b) == [t] + DigitRuns(b)
  {
    var s := t + b;
    assert s[..|t|] == t && s[|t|] == b[0];
    DigitRunStops(s, t);
    assert s[|t|..] == b;
  }

  /** A run of digits, then a separator that is no digit. */
  lemma RunThenSeparator(t: string, sep: string, b: string)
    requires |t| > 0 && AllDigits(t) && |sep| == 1 && !IsDigit(sep[0])
    ensures DigitRuns(t + (sep + b)) == [t] + DigitRuns(b)
  {
    DigitRunsRun(t, sep + b);
    DigitRunsSkip(sep, b);
  }

  /** The digit runs of the argument list of a spelled-out atom with no
      empty argument are its arguments. */
  lemma {:induction false} DigitRunsOfArguments(texts: seq<string>, rest: string)
    requires |texts| >= 1
    requires forall i | 0 <= i < |texts| :: |texts[i]| > 0 && AllDigits(texts[i])
    ensures DigitRuns(Join(texts, ",") + ")" + rest) == texts + DigitRuns(rest)
    decreases |texts|
  {
    var t0 := texts[0];
    if |texts| == 1 {
      assert Join(texts, ",") == t0 && texts == [t0];
      ConcatAssoc(t0, ")", rest);
      RunThenSeparator(t0, ")", rest);
    } else {
      var more := texts[1..];
      var tail := Join(more, ",") + ")" + rest;
      JoinStep(texts, tail, rest);
      RunThenSeparator(t0, ",", tail);
      DigitRunsOfArguments(more, rest);
      ConcatAssoc([t0], more, DigitRuns(rest));
      assert texts == [t0] + more;
    }
  }

  lemma JoinStep(texts: seq<string>, tail: string, rest: string)
    requires |texts| >= 2 && tail == Join(texts[1..], ",") + ")" + rest
    ensures Join(texts, ",") + ")" + rest == texts[0] + ("," + tail)
  {
    var j := Join(texts[1..], ",");
    assert Join(texts, ",") == texts[0] + "," + j;
    Regroup(texts[0], ",", j, ")", rest);
  }

  lemma Regroup(a: string, b: string, c: string, d: string, e: string)
    ensures a + b + c + d + e == a + (b + (c + d + e))
  {
    ConcatAssoc(a + b + c, d, e);
    ConcatAssoc(a + b, c, d + e);
    ConcatAssoc(a, b, c + (d + e));
    ConcatAssoc(c, d, e);
  }

  /** The same for the whole spelled-out atom, whose name holds no digit. */
  lemma DigitRunsOfSpelled(name: string, texts: seq<string>, rest: string)
    requires forall i | 0 <= i < |name| :: !IsDigit(name[i])
    requires |texts| >= 1
    requires forall i | 0 <= i < |texts| :: |texts[i]| > 0 && AllDigits(texts[i])
    ensures DigitRuns(Spelled(name, texts) + rest) == texts + DigitRuns(rest)
  {
    var args := Join(texts, ",") + ")" + rest;
    assert Spelled(name, texts) + rest == (name + "(") + args;
    DigitRunsSkip(name + "(", args);
    DigitRunsOfArguments(texts, rest);
  }

  /** `x1, y1, x2, y2 = int(matches[0]), …, int(matches[3])`: fewer than
      four runs raise `IndexError`; runs after the fourth are ignored. */
  function FindallArgs(token: string): Result<(int, int, int, int)> {
    var runs := DigitRuns(token);
    if |runs| < 4 then Failure(IndexError)
    else Success((DecimalValue(runs[0]), DecimalValue(runs[1]), DecimalValue(runs[2]), DecimalValue(runs[3])))
  }

  /** When a road or boundary token spells out four non-empty numbers, the
      first renderer reads the same coordinates as `get_args` of the newer
      one does at scaling 1. */
  lemma FindallAgreesWithGetArgs(p: Pattern, token: string)
    requires p == RoadPattern || p == BoundaryPattern
    requires Matches(p, token)
    requires forall i | 0 <= i < 4 :: Groups(p, token).value[i] != ""
    ensures var args := ArgsOf(p, token, 1).value;
      && |args| == 4
      && (forall i | 0 <= i < 4 :: args[i].IntArg?)
      && FindallArgs(token) == Success((args[0].n, args[1].n, args[2].n, args[3].n))
  {
    LinePatternShape(p);
    FindallOfFourNumbers(p, token);
  }

  /** Both line patterns hold four numbers after a name without digits. */
  lemma LinePatternShape(p: Pattern)
    requires p == RoadPattern || p == BoundaryPattern
    ensures |p.placeholders| == 4 && forall i | 0 <= i < 4 :: p.placeholders[i] == Digits
    ensures forall i | 0 <= i < |p.name| :: !IsDigit(p.name[i])
  {
  }

  lemma FindallOfFourNumbers(p: Pattern, token: string)
    requires |p.placeholders| == 4 && forall i | 0 <= i < 4 :: p.placeholders[i] == Digits
    requires forall i | 0 <= i < |p.name| :: !IsDigit(p.name[i])
    requires Matches(p, token)
    requires forall i | 0 <= i < 4 :: Groups(p, token).value[i] != ""
    ensures var args := ArgsOf(p, token, 1).value;
      && |args| == 4
      && (forall i | 0 <= i < 4 :: args[i].IntArg?)
      && FindallArgs(token) == Success((args[0].n, args[1].n, args[2].n, args[3].n))
  {
    ArgsOfMatchedToken(p, token, 1);
    var texts := Groups(p, token).value;
    var args := ArgsOf(p, token, 1).value;
    assert |texts| == 4;
    forall i | 0 <= i < 4 ensures |texts[i]| > 0 && AllDigits(texts[i]) && args[i] == IntArg(DecimalValue(texts[i])) {
      assert p.placeholders[i] == Digits;
    }
    var spelled := Spelled(p.name, texts);
    assert token == spelled + token[|spelled|..];
    DigitRunsOfSpelled(p.name, texts, token[|spelled|..]);
    FindallOfRuns(token, texts, DigitRuns(token[|spelled|..]));
  }

  lemma FindallOfRuns(token: string, texts: seq<string>, rest: seq<string>)
    requires |texts| == 4 && (forall i | 0 <= i < 4 :: AllDigits(texts[i])) && DigitRuns(token) == texts + rest
    ensures FindallArgs(token) ==
      Success((DecimalValue(texts[0]), DecimalValue(texts[1]), DecimalValue(texts[2]), DecimalValue(texts[3])))
  {
    assert forall i | 0 <= i < 4 :: DigitRuns(token)[i] == texts[i];
  }

  // ---------------------------------------------------------------------
  // The token loop

  datatype LineKind = RoadLine | BoundaryLine

  /** An entry of `objects_list`. */
  datatype CityObject = CityObject(kind: LineKind, x1: int, y1: int, x2: int, y2: int)

  /** One iteration of the token loop: road first, then boundary; any
      other token is reported and dropped. */
  function ObjectOf(token: string): Result<Option<CityObject>> {
    if Matches(RoadPattern, token) then
      match FindallArgs(token)
      case Failure(e) => Failure(e)
      case Success(c) => Success(Some(CityObject(RoadLine, c.0, c.1, c.2, c.3)))
    else if Matches(BoundaryPattern, token) then
      match FindallArgs(token)
      case Failure(e) => Failure(e)
      case Success(c) => Success(Some(CityObject(BoundaryLine, c.0, c.1, c.2, c.3)))
    else Success(None)
  }

  /** What each token's iteration gives. */
  function Classified(tokens: seq<string>): (rs: seq<Result<Option<CityObject>>>)
    ensures |rs| == |tokens| && forall i | 0 <= i < |tokens| :: rs[i] == ObjectOf(tokens[i])
  {
    seq(|tokens|, i requires 0 <= i < |tokens| => ObjectOf(tokens[i]))
  }

  /** The loop over those results: objects in order, stopping at the first
      error. */
  function Gather(rs: seq<Result<Option<CityObject>>>): Result<seq<CityObject>>
    decreases |rs|
  {
    if rs == [] then Success([])
    else
      match Gather(rs[..|rs| - 1])
      case Failure(e) => Failure(e)
      case Success(objs) =>
        match rs[|rs| - 1]
        case Failure(e) => Failure(e)
        case Success(None) => Success(objs)
        case Success(Some(o)) => Success(objs + [o])
  }

  function Collect(tokens: seq<string>): Result<seq<CityObject>> {
    Gather(Classified(tokens))
  }

  /** The tokens either pattern matches, in token order. */
  function Mapped(tokens: seq<string>): seq<string>
    decreases |tokens|
  {
    if tokens == [] then []
    else
      var last := tokens[|tokens| - 1];
      Mapped(tokens[..|tokens| - 1]) + (if Matches(RoadPattern, last) || Matches(BoundaryPattern, last) then [last] else [])
  }

  lemma {:induction false} GatherFails(rs: seq<Result<Option<CityObject>>>)
    ensures Gather(rs).Success? <==> forall i | 0 <= i < |rs| :: rs[i].Success?
    ensures Gather(rs).Failure? ==> exists i | 0 <= i < |rs| :: rs[i].Failure? && rs[i].error == Gather(rs).error
    decreases |rs|
  {
    if rs != [] {
      var init := rs[..|rs| - 1];
      GatherFails(init);
      forall i | 0 <= i < |init| ensures rs[i] == init[i] {}
    }
  }

  /** No token is both a road and a boundary, so testing roads first
      decides nothing. */
  lemma RoadOrBoundary(token: string)
    ensures !(Matches(RoadPattern, token) && Matches(BoundaryPattern, token))
  {
    if Matches(RoadPattern, token) {
      MatchStartsWithName(RoadPattern, token);
      assert token[0] == 'r';
    }
    if Matches(BoundaryPattern, token) {
      MatchStartsWithName(BoundaryPattern, token);
      assert token[0] == 'b';
    }
  }

  /** The token loop raises `IndexError` exactly when a road or boundary
      token holds fewer than four digit runs. Otherwise it keeps, in
      token order, one object per mapped token: a road when the road
      pattern matched, a boundary otherwise, with the token's first four
      digit runs as coordinates. */
  lemma CollectSpec(tokens: seq<string>)
    ensures Collect(tokens).Success? <==>
      forall i | 0 <= i < |tokens| :: Matches(RoadPattern, tokens[i]) || Matches(BoundaryPattern, tokens[i]) ==> |DigitRuns(tokens[i])| >= 4
    ensures Collect(tokens).Failure? ==> Collect(tokens).error == IndexError
    ensures Collect(tokens).Success? ==>
      var objs := Collect(tokens).value;
      var mapped := Mapped(tokens);
      && |objs| == |mapped|
      && forall i | 0 <= i < |objs| ::
           && (objs[i].kind == RoadLine <==> Matches(RoadPattern, mapped[i]))
           && FindallArgs(mapped[i]) == Success((objs[i].x1, objs[i].y1, objs[i].x2, objs[i].y2))
  {
    var rs := Classified(tokens);
    GatherFails(rs);
    forall i | 0 <= i < |tokens|
      ensures rs[i].Success? <==> (Matches(RoadPattern, tokens[i]) || Matches(BoundaryPattern, tokens[i]) ==> |DigitRuns(tokens[i])| >= 4)
      ensures rs[i].Failure? ==> rs[i].error == IndexError
    {
      ObjectOfSpec(tokens[i]);
    }
    CollectKeepsMapped(tokens);
  }

  /** One token: it raises `IndexError` when it is a road or boundary with
      fewer than four digit runs; an unmapped token gives no object; a
      mapped one gives a road exactly when the road pattern matches, with
      its first four digit runs. */
  lemma ObjectOfSpec(token: string)
    ensures ObjectOf(token).Success? <==>
      (Matches(RoadPattern, token) || Matches(BoundaryPattern, token) ==> |DigitRuns(token)| >= 4)
    ensures ObjectOf(token).Failure? ==> ObjectOf(token).error == IndexError
    ensures ObjectOf(token) == Success(None) <==> !(Matches(RoadPattern, token) || Matches(BoundaryPattern, token))
    ensures ObjectOf(token).Success? && ObjectOf(token).value.Some? ==>
      var o := ObjectOf(token).value.value;
      && (o.kind == RoadLine <==> Matches(RoadPattern, token))
      && FindallArgs(token) == Success((o.x1, o.y1, o.x2, o.y2))
  {
  }

  /** The objects match the mapped tokens, one by one. */
  predicate ObjectsMatch(objs: seq<CityObject>, mapped: seq<string>) {
    && |objs| == |mapped|
    && forall i | 0 <= i < |objs| ::
         && (objs[i].kind == RoadLine <==> Matches(RoadPattern, mapped[i]))
         && FindallArgs(mapped[i]) == Success((objs[i].x1, objs[i].y1, objs[i].x2, objs[i].y2))
  }

  lemma ObjectsMatchAppend(objs: seq<CityObject>, mapped: seq<string>, o: CityObject, token: string)
    requires ObjectsMatch(objs, mapped)
    requires o.kind == RoadLine <==> Matches(RoadPattern, token)
    requires FindallArgs(token) == Success((o.x1, o.y1, o.x2, o.y2))
    ensures ObjectsMatch(objs + [o], mapped + [token])
  {
  }

  /** One more token: the loop goes on from where it stood after the
      tokens before it. */
  lemma CollectStep(tokens: seq<string>)
    requires tokens != []
    ensures var init, last := tokens[..|tokens| - 1], tokens[|tokens| - 1];
      Collect(tokens) ==
        match Collect(init)
        case Failure(e) => Failure(e)
        case Success(objs) =>
          match ObjectOf(last)
          case Failure(e) => Failure(e)
          case Success(None) => Success(objs)
          case Success(Some(o)) => Success(objs + [o])
  {
    var init := tokens[..|tokens| - 1];
    assert Classified(tokens)[..|tokens| - 1] == Classified(init);
  }

  lemma {:induction false} CollectKeepsMapped(tokens: seq<string>)
    ensures Collect(tokens).Success? ==> ObjectsMatch(Collect(tokens).value, Mapped(tokens))
    decreases |tokens|
  {
    if tokens != [] && Collect(tokens).Success? {
      var init, last := tokens[..|tokens| - 1], tokens[|tokens| - 1];
      CollectStep(tokens);
      CollectKeepsMapped(init);
      ObjectOfSpec(last);
      var o := ObjectOf(last).value;
      if o.Some? {
        ObjectsMatchAppend(Collect(init).value, Mapped(init), o.value, last);
      }
    }
  }

  // ---------------------------------------------------------------------
  // The centroid

  function SumX(objs: seq<CityObject>): int
    decreases |objs|
  {
    if objs == [] then 0 else SumX(objs[..|objs| - 1]) + objs[|objs| - 1].x1 + objs[|objs| - 1].x2
  }

  function SumY(objs: seq<CityObject>): int
    decreases |objs|
  {
    if objs == [] then 0 else SumY(objs[..|objs| - 1]) + objs[|objs| - 1].y1 + objs[|objs| - 1].y2
  }

  /** `summed_x / points_count, summed_y / points_count`, two points per
      object. */
  function LegacyCentroid(objs: seq<CityObject>): Result<(real, real)> {
    if |objs| == 0 then Failure(ZeroDivision)
    else Success((SumX(objs) as real / (2 * |objs|) as real, SumY(objs) as real / (2 * |objs|) as real))
  }

  /** Both end points of every object, repeats kept. */
  function Endpoints(objs: seq<CityObject>): (pts: seq<Point>)
    ensures |pts| == 2 * |objs|
    decreases |objs|
  {
    if objs == [] then []
    else
      var o := objs[|objs| - 1];
      Endpoints(objs[..|objs| - 1]) + [Point(IntArg(o.x1), IntArg(o.y1)), Point(IntArg(o.x2), IntArg(o.y2))]
  }

  lemma EndpointTotals(objs: seq<CityObject>)
    ensures AllNumbers(Xs(Endpoints(objs))) && AllNumbers(Ys(Endpoints(objs)))
    ensures Total(Xs(Endpoints(objs))) == SumX(objs) as real
    ensures Total(Ys(Endpoints(objs))) == SumY(objs) as real
  {
    EndpointXs(objs);
    EndpointYs(objs);
  }

  lemma {:induction false} EndpointXs(objs: seq<CityObject>)
    ensures AllNumbers(Xs(Endpoints(objs))) && Total(Xs(Endpoints(objs))) == SumX(objs) as real
    decreases |objs|
  {
    if objs != [] {
      var init, o := objs[..|objs| - 1], objs[|objs| - 1];
      EndpointXs(init);
      var pair := [Point(IntArg(o.x1), IntArg(o.y1)), Point(IntArg(o.x2), IntArg(o.y2))];
      XsAppend(Endpoints(init), pair);
      assert Xs(pair) == [IntArg(o.x1), IntArg(o.x2)];
      PairStep(Xs(Endpoints(init)), o.x1, o.x2);
    }
  }

  lemma {:induction false} EndpointYs(objs: seq<CityObject>)
    ensures AllNumbers(Ys(Endpoints(objs))) && Total(Ys(Endpoints(objs))) == SumY(objs) as real
    decreases |objs|
  {
    if objs != [] {
      var init, o := objs[..|objs| - 1], objs[|objs| - 1];
      EndpointYs(init);
      var pair := [Point(IntArg(o.x1), IntArg(o.y1)), Point(IntArg(o.x2), IntArg(o.y2))];
      YsAppend(Endpoints(init), pair);
      assert Ys(pair) == [IntArg(o.y1), IntArg(o.y2)];
      PairStep(Ys(Endpoints(init)), o.y1, o.y2);
    }
  }

  /** Appending two numbers keeps a list numeric and adds them to its total. */
  lemma PairStep(prev: seq<Arg>, a: int, b: int)
    requires AllNumbers(prev)
    ensures AllNumbers(prev + [IntArg(a), IntArg(b)])
    ensures Total(prev + [IntArg(a), IntArg(b)]) == Total(prev) + (a as real + b as real)
  {
    TotalAppend(prev, [IntArg(a), IntArg(b)]);
    TotalPair(a, b);
  }

  lemma TotalPair(a: int, b: int)
    ensures Total([IntArg(a), IntArg(b)]) == a as real + b as real
  {
    var s := [IntArg(a), IntArg(b)];
    assert s[..1] == [IntArg(a)];
    assert s[..1][..0] == [];
    assert Total(s[..1]) == a as real;
  }

  /** The first renderer's centroid is the mean of all end points with
      repeats counted, where the newer one averages each distinct point
      once. */
  lemma LegacyCentroidCountsRepeats(objs: seq<CityObject>)
    ensures LegacyCentroid(objs) == Centroid.Centroid(Endpoints(objs))
  {
    EndpointTotals(objs);
    CentroidSpec(Endpoints(objs));
  }

  /** Two roads sharing an end point: counting the shared point twice
      gives the centre x = 1.5, the newer renderer's per-distinct-point
      mean gives 2. */
  lemma RepeatsMoveTheCentre()
    ensures var objs := [CityObject(RoadLine, 0, 0, 2, 0), CityObject(RoadLine, 0, 0, 4, 0)];
      && LegacyCentroid(objs) == Success((1.5, 0.0))
      && Centroid.Centroid(AddPoints([], Endpoints(objs))) == Success((2.0, 0.0))
  {
    var objs := [CityObject(RoadLine, 0, 0, 2, 0), CityObject(RoadLine, 0, 0, 4, 0)];
    assert objs[..1] == [objs[0]];
    assert [objs[0]][..0] == [];
    assert SumX(objs) == 6 && SumY(objs) == 0;
    assert LegacyCentroid(objs) == Success((6.0 / 4.0, 0.0 / 4.0));
    var p0, p2, p4 := Point(IntArg(0), IntArg(0)), Point(IntArg(2), IntArg(0)), Point(IntArg(4), IntArg(0));
    assert Endpoints(objs) == [p0, p2, p0, p4];
    DistinctOfLine(p0, p2, p4);
    CentroidOfLine(p0, p2, p4);
  }

  lemma DistinctOfLine(p0: Point, p2: Point, p4: Point)
    requires p0 == Point(IntArg(0), IntArg(0)) && p2 == Point(IntArg(2), IntArg(0)) && p4 == Point(IntArg(4), IntArg(0))
    ensures AddPoints([], [p0, p2, p0, p4]) == [p0, p2, p4]
  {
    var ps := [p0, p2, p0, p4];
    assert ps[..3] == [p0, p2, p0];
    assert ps[..3][..2] == [p0, p2];
    assert ps[..3][..2][..1] == [p0];
    assert ps[..3][..2][..1][..0] == [];
    assert AddPoints([], [p0]) == [p0];
    assert AddPoints([], [p0, p2]) == [p0, p2];
    assert AddPoints([], [p0, p2, p0]) == [p0, p2];
    assert p4 !in [p0, p2];
  }

  lemma CentroidOfLine(p0: Point, p2: Point, p4: Point)
    requires p0 == Point(IntArg(0), IntArg(0)) && p2 == Point(IntArg(2), IntArg(0)) && p4 == Point(IntArg(4), IntArg(0))
    ensures Centroid.Centroid([p0, p2, p4]) == Success((2.0, 0.0))
  {
    var pts := [p0, p2, p4];
    assert Xs(pts) == [IntArg(0), IntArg(2)] + [IntArg(4)];
    assert Ys(pts) == [IntArg(0), IntArg(0)] + [IntArg(0)];
    TotalPair(0, 2);
    TotalPair(0, 0);
    CentroidSpec(pts);
  }

  // ---------------------------------------------------------------------
  // render

  /** The line of one object: grey and width 5 for a road, red and width
      2 for a boundary, shifted by the offset. */
  function LineFor(o: CityObject, xAdj: real, yAdj: real): Primitive {
    Line(o.x1 as real + xAdj, o.y1 as real + yAdj, o.x2 as real + xAdj, o.y2 as real + yAdj,
         if o.kind == RoadLine then "grey" else "red", if o.kind == RoadLine then 5.0 else 2.0)
  }

  function Lines(objs: seq<CityObject>, xAdj: real, yAdj: real): (ls: seq<Primitive>)
    ensures |ls| == |objs| && forall i | 0 <= i < |objs| :: ls[i] == LineFor(objs[i], xAdj, yAdj)
  {
    seq(|objs|, i requires 0 <= i < |objs| => LineFor(objs[i], xAdj, yAdj))
  }

  /** The raw answer set, printed in the corner. */
  function RawText(answerSet: string): Primitive {
    Text(answerSet, 9.0, 10.0, 10.0)
  }

  /** What `render` appends to the drawing, and how it ends. */
  function LegacyRendered(answerSet: string, title: string): Emission {
    match Collect(ExtractAtoms(answerSet))
    case Failure(e) => Emission([Background], Fail(e))
    case Success(objs) =>
      match LegacyCentroid(objs)
      case Failure(e) => Emission([Background], Fail(e))
      case Success(c) =>
        Emission([Background] + Lines(objs, Offset(c).0, Offset(c).1) + [TitleText(title), RawText(answerSet)], Pass)
  }

  /** The token loop of `render`. */
  method CollectObjects(atoms: seq<string>) returns (r: Result<seq<CityObject>>)
    ensures r == Collect(atoms)
  {
    ghost var rs := Classified(atoms);
    var objects: seq<CityObject> := [];
    var t := 0;
    while t < |atoms|
      invariant 0 <= t <= |atoms|
      invariant Gather(rs[..t]) == Success(objects)
    {
      var each := atoms[t];
      assert rs[..t + 1][..t] == rs[..t];
      if Matches(RoadPattern, each) {
        var matches := FindallArgs(each);
        if matches.Failure? {
          GatherFailurePersists(rs, t + 1);
          return Failure(matches.error);
        }
        var c := matches.value;
        objects := objects + [CityObject(RoadLine, c.0, c.1, c.2, c.3)];
      } else if Matches(BoundaryPattern, each) {
        var matches := FindallArgs(each);
        if matches.Failure? {
          GatherFailurePersists(rs, t + 1);
          return Failure(matches.error);
        }
        var c := matches.value;
        objects := objects + [CityObject(BoundaryLine, c.0, c.1, c.2, c.3)];
      }
      t := t + 1;
    }
    assert rs[..t] == rs;
    return Success(objects);
  }

  lemma {:induction false} GatherFailurePersists(rs: seq<Result<Option<CityObject>>>, d: nat)
    requires d <= |rs| && Gather(rs[..d]).Failure?
    ensures Gather(rs) == Gather(rs[..d])
    decreases |rs| - d
  {
    if d < |rs| {
      var init := rs[..|rs| - 1];
      assert init[..d] == rs[..d];
      GatherFailurePersists(init, d);
    } else {
      assert rs[..d] == rs;
    }
  }

  /** The accumulating loop of `render`: two points per object. */
  method SumEndpoints(objs: seq<CityObject>) returns (r: Result<(real, real)>)
    ensures r == LegacyCentroid(objs)
  {
    var summedX, summedY, pointsCount := 0, 0, 0;
    var i := 0;
    while i < |objs|
      invariant 0 <= i <= |objs|
      invariant summedX == SumX(objs[..i]) && summedY == SumY(objs[..i]) && pointsCount == 2 * i
    {
      assert objs[..i + 1][..i] == objs[..i];
      pointsCount := pointsCount + 2;
      summedX := summedX + objs[i].x1;
      summedX := summedX + objs[i].x2;
      summedY := summedY + objs[i].y1;
      summedY := summedY + objs[i].y2;
      i := i + 1;
    }
    assert objs[..i] == objs;
    if pointsCount == 0 {
      return Failure(ZeroDivision);
    }
    return Success((summedX as real / pointsCount as real, summedY as real / pointsCount as real));
  }

  /** The draw loop of `render`: one line per object, in token order. */
  method DrawLines(drawing: Drawing, objs: seq<CityObject>, xAdj: real, yAdj: real)
    modifies drawing
    ensures drawing.elements == old(drawing.elements) + Lines(objs, xAdj, yAdj)
    ensures drawing.pixelScale == old(drawing.pixelScale)
    ensures drawing.width == old(drawing.width) && drawing.height == old(drawing.height)
  {
    var i := 0;
    while i < |objs|
      invariant 0 <= i <= |objs|
      invariant drawing.elements == old(drawing.elements) + Lines(objs[..i], xAdj, yAdj)
      invariant drawing.pixelScale == old(drawing.pixelScale)
      invariant drawing.width == old(drawing.width) && drawing.height == old(drawing.height)
    {
      assert Lines(objs[..i + 1], xAdj, yAdj) == Lines(objs[..i], xAdj, yAdj) + [LineFor(objs[i], xAdj, yAdj)];
      drawing.Append(LineFor(objs[i], xAdj, yAdj));
      i := i + 1;
    }
    assert objs[..i] == objs;
  }

  /** `render` on a drawing: it appends exactly what `LegacyRendered`
      describes and reports how it ended. */
  method LegacyRender(drawing: Drawing, answerSet: string, title: string) returns (outcome: Outcome)
    modifies drawing
    ensures drawing.elements == old(drawing.elements) + LegacyRendered(answerSet, title).prims
    ensures outcome == LegacyRendered(answerSet, title).outcome
    ensures drawing.pixelScale == 1.0
    ensures drawing.width == old(drawing.width) && drawing.height == old(drawing.height)
  {
    ghost var start := drawing.elements;
    drawing.Append(Background);
    drawing.SetPixelScale(1.0);
    assert drawing.elements == start + [Background];
    var atoms := ExtractAtoms(answerSet);
    var objects := CollectObjects(atoms);
    if objects.Failure? {
      return Fail(objects.error);
    }
    var centroid := SumEndpoints(objects.value);
    if centroid.Failure? {
      return Fail(centroid.error);
    }
    var adj := Offset(centroid.value);
    ghost var ls := Lines(objects.value, adj.0, adj.1);
    LegacyRenderedPass(answerSet, title, objects.value, centroid.value);
    DrawLines(drawing, objects.value, adj.0, adj.1);
    drawing.Append(TitleText(title));
    drawing.Append(RawText(answerSet));
    TrailLayout(start, ls, TitleText(title), RawText(answerSet));
    return Pass;
  }

  /** What `LegacyRendered` draws once the token loop and the centroid
      both succeed. */
  lemma LegacyRenderedPass(answerSet: string, title: string, objs: seq<CityObject>, c: (real, real))
    requires Collect(ExtractAtoms(answerSet)) == Success(objs) && LegacyCentroid(objs) == Success(c)
    ensures LegacyRendered(answerSet, title).outcome == Pass
    ensures LegacyRendered(answerSet, title).prims ==
      [Background] + Lines(objs, Offset(c).0, Offset(c).1) + [TitleText(title), RawText(answerSet)]
  {
  }

  /** The elements after the background, the lines and the two texts are
      the old ones followed by the pass's primitives. */
  lemma TrailLayout(start: seq<Primitive>, ls: seq<Primitive>, t1: Primitive, t2: Primitive)
    ensures (start + [Background] + ls) + [t1] + [t2] == start + ([Background] + ls + [t1, t2])
  {
    assert [Background] + ls + [t1, t2] == [Background] + ls + [t1] + [t2];
  }

  // ---------------------------------------------------------------------
  // Properties of render

  /** The first renderer completes exactly when the token loop does and
      some token was mapped; it then draws the background, one line per
      mapped token in token order, the title and the raw answer set.
      Otherwise only the background is drawn, and the error is
      `IndexError` from the token loop or the division by zero. */
  lemma LegacyRenderedSpec(answerSet: string, title: string)
    ensures var e := LegacyRendered(answerSet, title);
      var objs := Collect(ExtractAtoms(answerSet));
      && 1 <= |e.prims| && e.prims[0] == Background
      && (e.outcome == Pass <==> objs.Success? && objs.value != [])
      && (objs.Failure? ==> e == Emission([Background], Fail(IndexError)))
      && (objs.Success? && objs.value == [] ==> e == Emission([Background], Fail(ZeroDivision)))
      && (e.outcome == Pass ==>
            var adj := Offset(LegacyCentroid(objs.value).value);
            && |e.prims| == |objs.value| + 3
            && (forall i | 0 <= i < |objs.value| :: e.prims[i + 1] == LineFor(objs.value[i], adj.0, adj.1))
            && e.prims[|objs.value| + 1] == TitleText(title)
            && e.prims[|objs.value| + 2] == RawText(answerSet))
  {
    var objs := Collect(ExtractAtoms(answerSet));
    CollectSpec(ExtractAtoms(answerSet));
    if objs.Success? && objs.value != [] {
      var adj := Offset(LegacyCentroid(objs.value).value);
      PrimsLayout(Lines(objs.value, adj.0, adj.1), TitleText(title), RawText(answerSet));
    }
  }

  /** Where each primitive of a successful pass sits. */
  lemma PrimsLayout(ls: seq<Primitive>, t1: Primitive, t2: Primitive)
    ensures var p := [Background] + ls + [t1, t2];
      && |p| == |ls| + 3 && p[0] == Background
      && (forall i | 0 <= i < |ls| :: p[i + 1] == ls[i])
      && p[|ls| + 1] == t1 && p[|ls| + 2] == t2
  {
  }

  /** The offset moves the mean of all end points, repeats counted, to the
      canvas centre. */
  lemma LegacyCentres(objs: seq<CityObject>)
    requires objs != []
    ensures var adj := Offset(LegacyCentroid(objs).value);
      var pts := Endpoints(objs);
      && RealTotal(Shifted(Xs(pts), adj.0)) / |pts| as real == CentreX
      && RealTotal(Shifted(Ys(pts), adj.1)) / |pts| as real == CentreY
  {
    LegacyCentroidCountsRepeats(objs);
    EndpointTotals(objs);
    CentroidSpec(Endpoints(objs));
    OffsetMovesToCentre(Endpoints(objs));
  }
}
