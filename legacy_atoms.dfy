/** The earlier atom library `AtomSmasher/Atoms.py`: roads, boundaries
    and intersections, with the shared arity check of the newer library
    but other widths, colours and draw orders, and no argument extraction
    of its own. */
module LegacyAtoms {
  import opened Wrappers
  import opened AtomPattern
  import opened Canvas
  import opened Atoms

  datatype Kind = RoadAtom | BoundaryAtom | IntersectAtom

  /** The `regex` attribute, as a pattern. */
  function PatternOf(k: Kind): Pattern {
    match k
    case RoadAtom => Pattern("road", Four)
    case BoundaryAtom => Pattern("boundary", Four)
    case IntersectAtom => Pattern("intersect", Two)
  }

  /** The `name` attribute, which `get_name` returns. */
  function NameOf(k: Kind): string {
    PatternOf(k).name
  }

  function Cardinality(k: Kind): nat {
    match k
    case IntersectAtom => 2
    case _ => 4
  }

  /** `get_order`: the boundary keeps the default 0. */
  function GetOrder(k: Kind): int {
    match k
    case BoundaryAtom => 0
    case RoadAtom => 1
    case IntersectAtom => 2
  }

  /** `get_points`: the arity check, then both end points of a line or the
      single position of an intersection. */
  function GetPoints(k: Kind, params: seq<Arg>): Result<seq<Point>> {
    match ValidateCardinality(params, Cardinality(k), NameOf(k))
    case Fail(e) => Failure(e)
    case Pass =>
      if k == IntersectAtom then Success([Point(params[0], params[1])])
      else Success([Point(params[0], params[1]), Point(params[2], params[3])])
  }

  /** `draw`: the arity check, then the primitive shifted by `(xAdj, yAdj)`. */
  function Draw(k: Kind, params: seq<Arg>, xAdj: real, yAdj: real): Result<Primitive> {
    match ValidateCardinality(params, Cardinality(k), NameOf(k))
    case Fail(e) => Failure(e)
    case Pass =>
      match k
      case RoadAtom => LineOf(params, xAdj, yAdj, "grey", 5.0)
      case BoundaryAtom => LineOf(params, xAdj, yAdj, "red", 2.0)
      case IntersectAtom =>
        match (Shift(params[0], xAdj), Shift(params[1], yAdj))
        case (Success(x), Success(y)) => Success(Circle(x, y, 1.0, "", "blue"))
        case _ => Failure(TypeError)
  }

  // ---------------------------------------------------------------------
  // Properties

  /** Each pattern has as many placeholders as its atom's arity. */
  lemma PatternsFitArity(k: Kind)
    ensures |PatternOf(k).placeholders| == Cardinality(k)
  {
  }

  /** Both `get_points` and `draw` reject a wrong parameter count with the
      arity error before reading any parameter; with the right count,
      `get_points` pairs the coordinates in order. */
  lemma GetPointsSpec(k: Kind, params: seq<Arg>)
    ensures GetPoints(k, params).Failure? <==> |params| != Cardinality(k)
    ensures |params| != Cardinality(k) ==>
      && GetPoints(k, params) == Failure(CardinalityError(|params|, NameOf(k), Cardinality(k), "draw"))
      && forall xAdj: real, yAdj: real :: Draw(k, params, xAdj, yAdj) == Failure(CardinalityError(|params|, NameOf(k), Cardinality(k), "draw"))
    ensures |params| == Cardinality(k) == 2 ==> GetPoints(k, params).value == [Point(params[0], params[1])]
    ensures |params| == Cardinality(k) == 4 ==>
      GetPoints(k, params).value == [Point(params[0], params[1]), Point(params[2], params[3])]
  {
  }

  /** `draw` succeeds exactly on numeric coordinates, and then draws a
      grey line of width 5 for a road, a red line of width 2 for a
      boundary, and a blue circle of radius 1 for an intersection, at the
      reference points shifted by `(xAdj, yAdj)`. */
  lemma DrawSpec(k: Kind, params: seq<Arg>, xAdj: real, yAdj: real)
    requires |params| == Cardinality(k)
    ensures Draw(k, params, xAdj, yAdj).Success? <==> forall i | 0 <= i < |params| :: IsNumber(params[i])
    ensures Draw(k, params, xAdj, yAdj).Failure? ==> Draw(k, params, xAdj, yAdj).error == TypeError
    ensures Draw(k, params, xAdj, yAdj).Success? ==>
      var q := Draw(k, params, xAdj, yAdj).value;
      var pts := GetPoints(k, params).value;
      match k
      case RoadAtom =>
        && q.Line? && q.stroke == "grey" && q.strokeWidth == 5.0
        && q.x1 == Value(pts[0].x) + xAdj && q.y1 == Value(pts[0].y) + yAdj
        && q.x2 == Value(pts[1].x) + xAdj && q.y2 == Value(pts[1].y) + yAdj
      case BoundaryAtom =>
        && q.Line? && q.stroke == "red" && q.strokeWidth == 2.0
        && q.x1 == Value(pts[0].x) + xAdj && q.y1 == Value(pts[0].y) + yAdj
        && q.x2 == Value(pts[1].x) + xAdj && q.y2 == Value(pts[1].y) + yAdj
      case IntersectAtom =>
        && q.Circle? && q.r == 1.0 && q.fill == "" && q.stroke == "blue"
        && q.cx == Value(pts[0].x) + xAdj && q.cy == Value(pts[0].y) + yAdj
  {
    if Cardinality(k) == 2 {
      assert (forall i | 0 <= i < |params| :: IsNumber(params[i])) <==> IsNumber(params[0]) && IsNumber(params[1]);
    } else {
      assert (forall i | 0 <= i < |params| :: IsNumber(params[i]))
        <==> IsNumber(params[0]) && IsNumber(params[1]) && IsNumber(params[2]) && IsNumber(params[3]);
    }
  }

  /** Boundaries are drawn first, then roads, then intersections. */
  lemma OrderLayers()
    ensures GetOrder(BoundaryAtom) < GetOrder(RoadAtom) < GetOrder(IntersectAtom)
  {
  }

  /** Against the newer library: a boundary is drawn exactly as there, a
      road as there but one unit narrower, and both have the same points. */
  lemma AgreesWithNewerLines(params: seq<Arg>, xAdj: real, yAdj: real)
    ensures Draw(BoundaryAtom, params, xAdj, yAdj) == Atoms.Draw(Boundary, params, xAdj, yAdj)
    ensures GetPoints(BoundaryAtom, params) == Atoms.GetPoints(Boundary, params)
    ensures GetPoints(RoadAtom, params) == Atoms.GetPoints(Road, params)
    ensures Draw(RoadAtom, params, xAdj, yAdj).Success? <==> Atoms.Draw(Road, params, xAdj, yAdj).Success?
    ensures Draw(RoadAtom, params, xAdj, yAdj).Success? ==>
      var q := Atoms.Draw(Road, params, xAdj, yAdj).value;
      Draw(RoadAtom, params, xAdj, yAdj).value == Line(q.x1, q.y1, q.x2, q.y2, q.stroke, 5.0)
  {
  }
}
