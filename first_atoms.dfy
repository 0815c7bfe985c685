/** The first atom library `atoms/Atoms.py`: roads and boundaries, each
    with its own inline arity check, and no draw order. */
module FirstAtoms {
  import opened Wrappers
  import opened AtomPattern
  import opened Canvas
  import opened Atoms
  import LegacyAtoms

  datatype Kind = RoadAtom | BoundaryAtom

  function NameOf(k: Kind): string {
    match k
    case RoadAtom => "road"
    case BoundaryAtom => "boundary"
  }

  const Cardinality: nat := 4

  /** `get_points`: its arity message speaks of extracting coordinates. */
  function GetPoints(k: Kind, params: seq<Arg>): Result<seq<Point>> {
    if |params| != Cardinality then Failure(CardinalityError(|params|, NameOf(k), Cardinality, "extract coords for"))
    else Success([Point(params[0], params[1]), Point(params[2], params[3])])
  }

  /** `draw`: the line between the two end points, shifted. */
  function Draw(k: Kind, params: seq<Arg>, xAdj: real, yAdj: real): Result<Primitive> {
    if |params| != Cardinality then Failure(CardinalityError(|params|, NameOf(k), Cardinality, "draw"))
    else
      match k
      case RoadAtom => LineOf(params, xAdj, yAdj, "grey", 5.0)
      case BoundaryAtom => LineOf(params, xAdj, yAdj, "red", 2.0)
  }

  function Later(k: Kind): LegacyAtoms.Kind {
    match k
    case RoadAtom => LegacyAtoms.RoadAtom
    case BoundaryAtom => LegacyAtoms.BoundaryAtom
  }

  /** Both operations raise exactly on a parameter count other than four,
      before reading a parameter; `draw` then gives the line from
      `(p0 + xAdj, p1 + yAdj)` to `(p2 + xAdj, p3 + yAdj)` when the four
      coordinates are numbers, and `get_points` the two end points. */
  lemma DrawSpec(k: Kind, params: seq<Arg>, xAdj: real, yAdj: real)
    ensures GetPoints(k, params).Failure? <==> |params| != 4
    ensures Draw(k, params, xAdj, yAdj).Failure? && Draw(k, params, xAdj, yAdj).error.CardinalityError? <==> |params| != 4
    ensures |params| != 4 ==>
      && GetPoints(k, params).error == CardinalityError(|params|, NameOf(k), 4, "extract coords for")
      && Draw(k, params, xAdj, yAdj).error == CardinalityError(|params|, NameOf(k), 4, "draw")
    ensures |params| == 4 ==>
      && GetPoints(k, params).value == [Point(params[0], params[1]), Point(params[2], params[3])]
      && (Draw(k, params, xAdj, yAdj).Success? <==>
            IsNumber(params[0]) && IsNumber(params[1]) && IsNumber(params[2]) && IsNumber(params[3]))
      && (Draw(k, params, xAdj, yAdj).Success? ==>
            var q := Draw(k, params, xAdj, yAdj).value;
            && q.Line?
            && q.x1 == Value(params[0]) + xAdj && q.y1 == Value(params[1]) + yAdj
            && q.x2 == Value(params[2]) + xAdj && q.y2 == Value(params[3]) + yAdj)
  {
  }

  /** The later library draws these two atoms identically and finds the same
      points; only the arity message of `get_points` changed, to the one
      `validate_cardinality` raises. */
  lemma SameAsLater(k: Kind, params: seq<Arg>, xAdj: real, yAdj: real)
    ensures Draw(k, params, xAdj, yAdj) == LegacyAtoms.Draw(Later(k), params, xAdj, yAdj)
    ensures GetPoints(k, params).Success? <==> LegacyAtoms.GetPoints(Later(k), params).Success?
    ensures GetPoints(k, params).Success? ==> GetPoints(k, params) == LegacyAtoms.GetPoints(Later(k), params)
    ensures GetPoints(k, params).Failure? ==>
      var e := LegacyAtoms.GetPoints(Later(k), params).error;
      GetPoints(k, params).error == CardinalityError(e.received, e.atomName, e.expected, "extract coords for")
  {
  }
}
