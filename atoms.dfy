/** The atom types that ship with the renderer: for each, its pattern, its
    name, its arity, its draw order, the reference points it contributes
    to the centroid, and the primitive it draws. */
module Atoms {
  import opened Wrappers
  import opened Strings
  import opened AtomPattern
  import opened Canvas

  datatype AtomKind =
    | Road | MainRoad | Boundary | Intersect | Ingress | Plot | SubPlot | SideRoad | SubIntersect

  const Four: seq<Placeholder> := [Digits, Digits, Digits, Digits]
  const Two: seq<Placeholder> := [Digits, Digits]

  /** `get_regex`, as a pattern. */
  function PatternOf(k: AtomKind): Pattern {
    match k
    case Road => Pattern("road", Four)
    case MainRoad => Pattern("main_road", Four)
    case Boundary => Pattern("boundary", Four)
    case Intersect => Pattern("intersect", Two)
    case Ingress => Pattern("ingress_point", Two)
    case Plot => Pattern("plot", Four)
    case SubPlot => Pattern("sub_plot", Four + [Word])
    case SideRoad => Pattern("side_road", Four)
    case SubIntersect => Pattern("sub_intersect", Two)
  }

  /** `get_name`: the pattern's name, except for the ingress point. */
  function NameOf(k: AtomKind): string {
    match k
    case Ingress => "ingress"
    case _ => PatternOf(k).name
  }

  /** The `cardinality` attribute. */
  function Cardinality(k: AtomKind): nat {
    match k
    case Intersect | Ingress | SubIntersect => 2
    case SubPlot => 5
    case _ => 4
  }

  /** `get_order`: higher orders are drawn later, on top. */
  function GetOrder(k: AtomKind): int {
    match k
    case Boundary | Plot => 0
    case SubPlot => 3
    case Road | MainRoad | SideRoad => 4
    case SubIntersect => 5
    case Ingress => 6
    case Intersect => 7
  }

  /** `validate_cardinality`: the arity check, with the message it raises. */
  function ValidateCardinality(params: seq<Arg>, cardinality: nat, name: string): (r: Outcome)
    ensures r == Pass <==> |params| == cardinality
    ensures r.Fail? ==> r.error == CardinalityError(|params|, name, cardinality, "draw")
  {
    if |params| != cardinality then Fail(CardinalityError(|params|, name, cardinality, "draw")) else Pass
  }

  /** A reference point: a pair of extracted arguments, numbers or not. */
  datatype Point = Point(x: Arg, y: Arg)

  /** `get_points`: the corners or end points of four-coordinate atoms, the
      single position of two-coordinate ones. */
  function GetPoints(k: AtomKind, params: seq<Arg>): Result<seq<Point>> {
    match ValidateCardinality(params, Cardinality(k), NameOf(k))
    case Fail(e) => Failure(e)
    case Pass =>
      if Cardinality(k) == 2 then Success([Point(params[0], params[1])])
      else Success([Point(params[0], params[1]), Point(params[2], params[3])])
  }

  // Python arithmetic on an extracted argument: a string operand raises.

  function Shift(a: Arg, adj: real): Result<real> {
    match a
    case IntArg(n) => Success(n as real + adj)
    case StrArg(_) => Failure(TypeError)
  }

  function Span(lo: Arg, hi: Arg, margin: int): Result<real> {
    if lo.IntArg? && hi.IntArg? then Success((hi.n - lo.n - 2 * margin) as real) else Failure(TypeError)
  }

  /** The `sub_plot` colour rule. */
  function SubplotFill(assignment: Arg): (fill: string)
    ensures assignment == StrArg("urban") ==> fill == "#D3D3D3"
    ensures assignment == StrArg("green_space") ==> fill == "green"
    ensures assignment != StrArg("urban") && assignment != StrArg("green_space") ==> fill == ""
  {
    if assignment == StrArg("urban") then "#D3D3D3"
    else if assignment == StrArg("green_space") then "green"
    else ""
  }

  function LineOf(params: seq<Arg>, xAdj: real, yAdj: real, stroke: string, width: real): Result<Primitive>
    requires |params| >= 4
  {
    match (Shift(params[0], xAdj), Shift(params[1], yAdj), Shift(params[2], xAdj), Shift(params[3], yAdj))
    case (Success(x1), Success(y1), Success(x2), Success(y2)) => Success(Line(x1, y1, x2, y2, stroke, width))
    case _ => Failure(TypeError)
  }

  /** A `plot` or `sub_plot` rectangle: inset by a margin of 1 on every side. */
  function RectOf(params: seq<Arg>, xAdj: real, yAdj: real, fill: string): Result<Primitive>
    requires |params| >= 4
  {
    match (Shift(params[0], xAdj + 1.0), Shift(params[1], yAdj + 1.0),
           Span(params[0], params[2], 1), Span(params[1], params[3], 1))
    case (Success(x), Success(y), Success(w), Success(h)) => Success(Rect(x, y, w, h, fill, ""))
    case _ => Failure(TypeError)
  }

  /** `draw`: the arity check, then the primitive at the extracted
      coordinates shifted by `(xAdj, yAdj)`. */
  function Draw(k: AtomKind, params: seq<Arg>, xAdj: real, yAdj: real): Result<Primitive> {
    match ValidateCardinality(params, Cardinality(k), NameOf(k))
    case Fail(e) => Failure(e)
    case Pass =>
      match k
      case Road | MainRoad => LineOf(params, xAdj, yAdj, "grey", 6.0)
      case SideRoad => LineOf(params, xAdj, yAdj, "grey", 3.0)
      case Boundary => LineOf(params, xAdj, yAdj, "red", 2.0)
      case Plot => RectOf(params, xAdj, yAdj, "green")
      case SubPlot => RectOf(params, xAdj, yAdj, SubplotFill(params[4]))
      case Intersect =>
        (match (Shift(params[0], xAdj), Shift(params[1], yAdj))
         case (Success(x), Success(y)) => Success(Circle(x, y, 2.0, "white", ""))
         case _ => Failure(TypeError))
      case Ingress =>
        (match (Shift(params[0], xAdj), Shift(params[1], yAdj))
         case (Success(x), Success(y)) => Success(Circle(x, y, 1.0, "", "green"))
         case _ => Failure(TypeError))
      case SubIntersect =>
        match (Shift(params[0], xAdj), Shift(params[1], yAdj))
        case (Success(x), Success(y)) => Success(Rect(x, y, 2.0, 2.0, "", "white"))
        case _ => Failure(TypeError)
  }

  /** `get_args`: the loop over the capture groups of the leftmost match,
      appending `int(group) * scaling` or the group itself. */
  method GetArgs(p: Pattern, token: string, scaling: int) returns (r: Result<seq<Arg>>)
    ensures r == ArgsOf(p, token, scaling)
  {
    var capture := Groups(p, token);
    if capture.None? {
      return Failure(NoMatch);
    }
    var groups := capture.value;
    var output: seq<Arg> := [];
    var i := 0;
    while i < |groups|
      invariant 0 <= i <= |groups|
      invariant |output| == i
      invariant forall j | 0 <= j < i :: output[j] == ConvertGroup(groups[j], scaling)
    {
      var each := groups[i];
      var parsed := ParseInt(each);
      if parsed.Some? {
        output := output + [IntArg(parsed.value * scaling)];
      } else {
        output := output + [StrArg(each)];
      }
      i := i + 1;
    }
    assert output == seq(|groups|, j requires 0 <= j < |groups| => ConvertGroup(groups[j], scaling));
    return Success(output);
  }

  // ---------------------------------------------------------------------
  // Properties

  /** Every shipped pattern is well formed, and its placeholder count is
      the arity its atom checks for. */
  lemma ShippedPatternsFitArity(k: AtomKind)
    ensures WellFormed(PatternOf(k))
    ensures |PatternOf(k).placeholders| == Cardinality(k)
  {
    var n := PatternOf(k).name;
    assert forall i | 0 <= i < |n| :: IsWordChar(n[i]) by {
      match k
      case Road =>
      case MainRoad =>
      case Boundary =>
      case Intersect =>
      case Ingress =>
      case Plot =>
      case SubPlot =>
      case SideRoad =>
      case SubIntersect =>
    }
  }

  /** The arguments `get_args` extracts from a token the atom's pattern
      matches never fail the arity check, so `get_points` succeeds on them. */
  lemma MatchedTokenPassesValidation(k: AtomKind, token: string, scaling: int)
    requires Matches(PatternOf(k), token)
    ensures ArgsOf(PatternOf(k), token, scaling).Success?
    ensures ValidateCardinality(ArgsOf(PatternOf(k), token, scaling).value, Cardinality(k), NameOf(k)) == Pass
    ensures GetPoints(k, ArgsOf(PatternOf(k), token, scaling).value).Success?
  {
    ShippedPatternsFitArity(k);
    ArgsOfMatchedToken(PatternOf(k), token, scaling);
  }

  /** `get_points` fails exactly on an arity mismatch, and otherwise pairs
      the leading arguments: two points for four coordinates (and for
      `sub_plot`, whose fifth argument is not a coordinate), one for two. */
  lemma GetPointsShape(k: AtomKind, params: seq<Arg>)
    ensures GetPoints(k, params).Failure? <==> |params| != Cardinality(k)
    ensures GetPoints(k, params).Failure? ==>
      GetPoints(k, params).error == CardinalityError(|params|, NameOf(k), Cardinality(k), "draw")
    ensures |params| == Cardinality(k) == 2 ==> GetPoints(k, params).value == [Point(params[0], params[1])]
    ensures |params| == Cardinality(k) >= 4 ==>
      GetPoints(k, params).value == [Point(params[0], params[1]), Point(params[2], params[3])]
  {
  }

  /** Which primitive each kind draws, with its style. */
  predicate Styled(k: AtomKind, q: Primitive, params: seq<Arg>)
    requires |params| == Cardinality(k)
  {
    match k
    case Road | MainRoad => q.Line? && q.stroke == "grey" && q.strokeWidth == 6.0
    case SideRoad => q.Line? && q.stroke == "grey" && q.strokeWidth == 3.0
    case Boundary => q.Line? && q.stroke == "red" && q.strokeWidth == 2.0
    case Plot => q.Rect? && q.fill == "green" && q.stroke == ""
    case SubPlot => q.Rect? && q.fill == SubplotFill(params[4]) && q.stroke == ""
    case Intersect => q.Circle? && q.r == 2.0 && q.fill == "white" && q.stroke == ""
    case Ingress => q.Circle? && q.r == 1.0 && q.fill == "" && q.stroke == "green"
    case SubIntersect => q.Rect? && q.width == 2.0 && q.height == 2.0 && q.fill == "" && q.stroke == "white"
  }

  predicate IsNumber(a: Arg) { a.IntArg? }

  function Value(a: Arg): real {
    if a.IntArg? then a.n as real else 0.0
  }

  /** The geometry `draw` promises: lines and circles sit at the reference
      points shifted by `(xAdj, yAdj)`; rectangles of plots start one unit
      inside the first corner and are two units smaller than the corners'
      span; the small intersection square sits at its point. */
  predicate DrawnAt(k: AtomKind, q: Primitive, params: seq<Arg>, xAdj: real, yAdj: real)
    requires |params| == Cardinality(k)
  {
    var pts := GetPoints(k, params).value;
    match k
    case Road | MainRoad | SideRoad | Boundary =>
      q.Line? && q.x1 == Value(pts[0].x) + xAdj && q.y1 == Value(pts[0].y) + yAdj
      && q.x2 == Value(pts[1].x) + xAdj && q.y2 == Value(pts[1].y) + yAdj
    case Plot | SubPlot =>
      q.Rect? && q.x == Value(pts[0].x) + xAdj + 1.0 && q.y == Value(pts[0].y) + yAdj + 1.0
      && q.width == Value(pts[1].x) - Value(pts[0].x) - 2.0 && q.height == Value(pts[1].y) - Value(pts[0].y) - 2.0
    case Intersect | Ingress =>
      q.Circle? && q.cx == Value(pts[0].x) + xAdj && q.cy == Value(pts[0].y) + yAdj
    case SubIntersect =>
      q.Rect? && q.x == Value(pts[0].x) + xAdj && q.y == Value(pts[0].y) + yAdj
  }

  /** `draw` succeeds exactly when the arity is right and every coordinate
      is a number (the fifth `sub_plot` argument may be anything); the
      arity error comes first, before any parameter is read; and what it
      draws is the kind's styled primitive at its reference points. */
  lemma DrawSpec(k: AtomKind, params: seq<Arg>, xAdj: real, yAdj: real)
    ensures |params| != Cardinality(k) ==>
      Draw(k, params, xAdj, yAdj) == Failure(CardinalityError(|params|, NameOf(k), Cardinality(k), "draw"))
    ensures |params| == Cardinality(k) ==>
      (Draw(k, params, xAdj, yAdj).Success? <==> forall i | 0 <= i < 4 && i < |params| :: IsNumber(params[i]))
    ensures |params| == Cardinality(k) && Draw(k, params, xAdj, yAdj).Success? ==>
      Styled(k, Draw(k, params, xAdj, yAdj).value, params) && DrawnAt(k, Draw(k, params, xAdj, yAdj).value, params, xAdj, yAdj)
    ensures |params| == Cardinality(k) && Draw(k, params, xAdj, yAdj).Failure? ==>
      Draw(k, params, xAdj, yAdj).error == TypeError
  {
    if |params| == Cardinality(k) {
      if Cardinality(k) == 2 {
        assert (forall i | 0 <= i < 4 && i < |params| :: IsNumber(params[i])) <==> IsNumber(params[0]) && IsNumber(params[1]);
      } else {
        assert (forall i | 0 <= i < 4 && i < |params| :: IsNumber(params[i]))
          <==> IsNumber(params[0]) && IsNumber(params[1]) && IsNumber(params[2]) && IsNumber(params[3]);
      }
    }
  }

  /** Shifting the offset shifts the drawing: `draw` depends on the offset
      only through a translation. */
  lemma DrawTranslates(k: AtomKind, params: seq<Arg>, xAdj: real, yAdj: real, dx: real, dy: real)
    ensures Draw(k, params, xAdj, yAdj).Success? <==> Draw(k, params, xAdj + dx, yAdj + dy).Success?
    ensures Draw(k, params, xAdj, yAdj).Success? ==>
      Draw(k, params, xAdj + dx, yAdj + dy).value == Translate(Draw(k, params, xAdj, yAdj).value, dx, dy)
  {
    if |params| == Cardinality(k) {
      match k
      case Road | MainRoad => LineTranslates(params, xAdj, yAdj, "grey", 6.0, dx, dy);
      case SideRoad => LineTranslates(params, xAdj, yAdj, "grey", 3.0, dx, dy);
      case Boundary => LineTranslates(params, xAdj, yAdj, "red", 2.0, dx, dy);
      case Plot => RectTranslates(params, xAdj, yAdj, "green", dx, dy);
      case SubPlot => RectTranslates(params, xAdj, yAdj, SubplotFill(params[4]), dx, dy);
      case Intersect => ShiftTranslates(params[0], xAdj, dx); ShiftTranslates(params[1], yAdj, dy);
      case Ingress => ShiftTranslates(params[0], xAdj, dx); ShiftTranslates(params[1], yAdj, dy);
      case SubIntersect => ShiftTranslates(params[0], xAdj, dx); ShiftTranslates(params[1], yAdj, dy);
    }
  }

  /** Shifting by a larger offset adds the difference to the coordinate. */
  lemma ShiftTranslates(a: Arg, adj: real, d: real)
    ensures Shift(a, adj + d).Success? == Shift(a, adj).Success?
    ensures Shift(a, adj).Success? ==> Shift(a, adj + d).value == Shift(a, adj).value + d
  {
  }

  lemma LineTranslates(params: seq<Arg>, xAdj: real, yAdj: real, stroke: string, width: real, dx: real, dy: real)
    requires |params| >= 4
    ensures LineOf(params, xAdj, yAdj, stroke, width).Success? <==> LineOf(params, xAdj + dx, yAdj + dy, stroke, width).Success?
    ensures LineOf(params, xAdj, yAdj, stroke, width).Success? ==>
      LineOf(params, xAdj + dx, yAdj + dy, stroke, width).value == Translate(LineOf(params, xAdj, yAdj, stroke, width).value, dx, dy)
  {
    ShiftTranslates(params[0], xAdj, dx);
    ShiftTranslates(params[1], yAdj, dy);
    ShiftTranslates(params[2], xAdj, dx);
    ShiftTranslates(params[3], yAdj, dy);
  }

  lemma RectTranslates(params: seq<Arg>, xAdj: real, yAdj: real, fill: string, dx: real, dy: real)
    requires |params| >= 4
    ensures RectOf(params, xAdj, yAdj, fill).Success? <==> RectOf(params, xAdj + dx, yAdj + dy, fill).Success?
    ensures RectOf(params, xAdj, yAdj, fill).Success? ==>
      RectOf(params, xAdj + dx, yAdj + dy, fill).value == Translate(RectOf(params, xAdj, yAdj, fill).value, dx, dy)
  {
    assert xAdj + dx + 1.0 == (xAdj + 1.0) + dx;
    assert yAdj + dy + 1.0 == (yAdj + 1.0) + dy;
    ShiftTranslates(params[0], xAdj + 1.0, dx);
    ShiftTranslates(params[1], yAdj + 1.0, dy);
  }

  /** The layering the orders give: plots and boundaries at the bottom,
      then sub-plots, roads, sub-intersections, ingress points, and
      intersections on top. */
  lemma OrderLayers()
    ensures GetOrder(Boundary) == GetOrder(Plot) < GetOrder(SubPlot)
    ensures GetOrder(SubPlot) < GetOrder(Road) == GetOrder(MainRoad) == GetOrder(SideRoad)
    ensures GetOrder(Road) < GetOrder(SubIntersect) < GetOrder(Ingress) < GetOrder(Intersect)
    ensures GetOrder(Boundary) == 0 && GetOrder(SubPlot) == 3 && GetOrder(Road) == 4
    ensures GetOrder(SubIntersect) == 5 && GetOrder(Ingress) == 6 && GetOrder(Intersect) == 7
  {
  }

  /** Distinct kinds have distinct patterns, so each registers under a key
      of its own. */
  lemma PatternsDistinct(j: AtomKind, k: AtomKind)
    requires j != k
    ensures PatternOf(j) != PatternOf(k)
  {
  }
}
