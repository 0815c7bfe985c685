/** `calculate_centroid`: the mean of the reference points, computed with
    Python's `sum` over the extracted arguments, so a text argument raises
    `TypeError` and an empty list raises `ZeroDivisionError`. The mean is
    exact (a `real`), not a float. */
module Centroid {
  import opened Wrappers
  import opened AtomPattern
  import opened Atoms

  function Xs(pts: seq<Point>): (xs: seq<Arg>)
    ensures |xs| == |pts| && forall i | 0 <= i < |pts| :: xs[i] == pts[i].x
  {
    seq(|pts|, i requires 0 <= i < |pts| => pts[i].x)
  }

  function Ys(pts: seq<Point>): (ys: seq<Arg>)
    ensures |ys| == |pts| && forall i | 0 <= i < |pts| :: ys[i] == pts[i].y
  {
    seq(|pts|, i requires 0 <= i < |pts| => pts[i].y)
  }

  /** Python's `sum` over a list of arguments, left to right from 0. */
  function SumArgs(args: seq<Arg>): Result<int>
    decreases |args|
  {
    if args == [] then Success(0)
    else match SumArgs(args[..|args| - 1])
      case Failure(e) => Failure(e)
      case Success(s) =>
        var a := args[|args| - 1];
        if a.IntArg? then Success(s + a.n) else Failure(TypeError)
  }

  /** `(sum(xs) / len(xs), sum(ys) / len(ys))`. */
  function Centroid(pts: seq<Point>): Result<(real, real)> {
    match SumArgs(Xs(pts))
    case Failure(e) => Failure(e)
    case Success(sx) =>
      match SumArgs(Ys(pts))
      case Failure(e) => Failure(e)
      case Success(sy) =>
        if |pts| == 0 then Failure(ZeroDivision)
        else Success((sx as real / |pts| as real, sy as real / |pts| as real))
  }

  /** `calculate_centroid`: one loop collecting the coordinates, then the sums. */
  method CalculateCentroid(renderPoints: seq<Point>) returns (r: Result<(real, real)>)
    ensures r == Centroid(renderPoints)
  {
    var xs: seq<Arg> := [];
    var ys: seq<Arg> := [];
    var i := 0;
    while i < |renderPoints|
      invariant 0 <= i <= |renderPoints|
      invariant xs == Xs(renderPoints[..i]) && ys == Ys(renderPoints[..i])
    {
      xs := xs + [renderPoints[i].x];
      ys := ys + [renderPoints[i].y];
      i := i + 1;
    }
    assert renderPoints[..i] == renderPoints;
    var sx := SumArgs(xs);
    if sx.Failure? {
      return Failure(sx.error);
    }
    var sy := SumArgs(ys);
    if sy.Failure? {
      return Failure(sy.error);
    }
    if |xs| == 0 {
      return Failure(ZeroDivision);
    }
    return Success((sx.value as real / |xs| as real, sy.value as real / |ys| as real));
  }

  // ---------------------------------------------------------------------
  // Reference definitions

  predicate AllNumbers(args: seq<Arg>) {
    forall i | 0 <= i < |args| :: args[i].IntArg?
  }

  function Total(args: seq<Arg>): real
    decreases |args|
  {
    if args == [] then 0.0 else Total(args[..|args| - 1]) + Value(args[|args| - 1])
  }

  /** `sum` fails exactly on a list holding a text, and otherwise is the total. */
  lemma {:induction false} SumArgsSpec(args: seq<Arg>)
    ensures SumArgs(args).Success? <==> AllNumbers(args)
    ensures SumArgs(args).Failure? ==> SumArgs(args).error == TypeError
    ensures SumArgs(args).Success? ==> SumArgs(args).value as real == Total(args)
    decreases |args|
  {
    if args != [] {
      var init := args[..|args| - 1];
      SumArgsSpec(init);
      assert AllNumbers(args) <==> AllNumbers(init) && args[|args| - 1].IntArg?;
    }
  }

  /** The centroid fails with `TypeError` when a coordinate is a text, with
      `ZeroDivisionError` when there are no points, and otherwise is the
      mean of the coordinates. */
  lemma CentroidSpec(pts: seq<Point>)
    ensures Centroid(pts).Failure? <==> !AllNumbers(Xs(pts)) || !AllNumbers(Ys(pts)) || pts == []
    ensures !AllNumbers(Xs(pts)) || !AllNumbers(Ys(pts)) ==> Centroid(pts) == Failure(TypeError)
    ensures pts == [] ==> Centroid(pts) == Failure(ZeroDivision)
    ensures Centroid(pts).Success? ==>
      Centroid(pts).value == (Total(Xs(pts)) / |pts| as real, Total(Ys(pts)) / |pts| as real)
  {
    SumArgsSpec(Xs(pts));
    SumArgsSpec(Ys(pts));
  }

  lemma {:induction false} TotalBounds(args: seq<Arg>, lo: real, hi: real)
    requires Within(args, lo, hi)
    ensures |args| as real * lo <= Total(args) <= |args| as real * hi
    decreases |args|
  {
    if args != [] {
      var init, last := args[..|args| - 1], args[|args| - 1];
      WithinPrefix(args, lo, hi);
      TotalBounds(init, lo, hi);
      TotalBoundsStep(args, lo, hi);
    }
  }

  lemma TotalBoundsStep(args: seq<Arg>, lo: real, hi: real)
    requires args != []
    requires var init := args[..|args| - 1]; |init| as real * lo <= Total(init) <= |init| as real * hi
    requires lo <= Value(args[|args| - 1]) <= hi
    ensures |args| as real * lo <= Total(args) <= |args| as real * hi
  {
    var init := args[..|args| - 1];
    assert Total(args) == Total(init) + Value(args[|args| - 1]);
    BoundStep(Total(init), Value(args[|args| - 1]), |init| as real, |args| as real, lo, hi);
  }

  predicate Within(args: seq<Arg>, lo: real, hi: real) {
    forall i | 0 <= i < |args| :: lo <= Value(args[i]) <= hi
  }

  lemma WithinPrefix(args: seq<Arg>, lo: real, hi: real)
    requires args != [] && Within(args, lo, hi)
    ensures Within(args[..|args| - 1], lo, hi) && lo <= Value(args[|args| - 1]) <= hi
  {
    var init := args[..|args| - 1];
    forall i | 0 <= i < |init| ensures lo <= Value(init[i]) <= hi {
      assert init[i] == args[i];
    }
  }

  lemma BoundStep(t: real, v: real, m: real, n: real, lo: real, hi: real)
    requires m * lo <= t <= m * hi && lo <= v <= hi && n == m + 1.0
    ensures n * lo <= t + v <= n * hi
  {
    assert n * lo == m * lo + lo;
    assert n * hi == m * hi + hi;
  }

  lemma MeanBounds(t: real, n: nat, lo: real, hi: real)
    requires n > 0 && n as real * lo <= t <= n as real * hi
    ensures lo <= t / n as real <= hi
  {
    var m := n as real;
    assert t / m * m == t;
  }

  /** The mean of numbers lying within bounds lies within them too. */
  lemma MeanWithin(args: seq<Arg>, lo: real, hi: real)
    requires |args| > 0
    requires forall i | 0 <= i < |args| :: lo <= Value(args[i]) <= hi
    ensures lo <= Total(args) / |args| as real <= hi
  {
    TotalBounds(args, lo, hi);
    MeanBounds(Total(args), |args|, lo, hi);
  }

  /** The centroid lies within any bounds all the points lie within. */
  lemma CentroidWithinBounds(pts: seq<Point>, xlo: real, xhi: real, ylo: real, yhi: real)
    requires Centroid(pts).Success?
    requires forall i | 0 <= i < |pts| :: xlo <= Value(pts[i].x) <= xhi && ylo <= Value(pts[i].y) <= yhi
    ensures xlo <= Centroid(pts).value.0 <= xhi && ylo <= Centroid(pts).value.1 <= yhi
  {
    CentroidSpec(pts);
    MeanWithin(Xs(pts), xlo, xhi);
    MeanWithin(Ys(pts), ylo, yhi);
  }

  // ---------------------------------------------------------------------
  // The order of the points does not matter

  lemma {:induction false} TotalAppend(a: seq<Arg>, b: seq<Arg>)
    ensures Total(a + b) == Total(a) + Total(b)
    decreases |b|
  {
    if b != [] {
      var b0, e := b[..|b| - 1], b[|b| - 1];
      TotalAppend(a, b0);
      assert (a + b)[..|a + b| - 1] == a + b0;
      assert (a + b)[|a + b| - 1] == e;
      calc {
        Total(a + b);
        Total(a + b0) + Value(e);
        Total(a) + Total(b0) + Value(e);
        Total(a) + Total(b);
      }
    } else {
      assert a + b == a;
    }
  }

  /** Taking one element out of a sequence takes it out of its multiset. */
  lemma RemoveAt<T>(s: seq<T>, k: nat)
    requires k < |s|
    ensures s == s[..k] + [s[k]] + s[k + 1..]
    ensures multiset(s[..k] + s[k + 1..]) == multiset(s) - multiset{s[k]}
  {
    assert s == s[..k] + [s[k]] + s[k + 1..];
  }

  /** The last element of `a` occurs in `b`, and without it the two are
      still permutations of each other. */
  lemma MatchLast<T>(a: seq<T>, b: seq<T>) returns (k: nat)
    requires a != [] && multiset(a) == multiset(b)
    ensures k < |b| && b[k] == a[|a| - 1]
    ensures multiset(a[..|a| - 1]) == multiset(b[..k] + b[k + 1..])
  {
    var e := a[|a| - 1];
    assert e in multiset(b);
    k :| 0 <= k < |b| && b[k] == e;
    RemoveAt(a, |a| - 1);
    RemoveAt(b, k);
    assert a[..|a| - 1] + a[|a|..] == a[..|a| - 1];
  }

  lemma {:induction false} TotalPermutation(a: seq<Arg>, b: seq<Arg>)
    requires multiset(a) == multiset(b)
    ensures Total(a) == Total(b)
    decreases |a|
  {
    if a == [] {
      assert b == [];
    } else {
      var k := MatchLast(a, b);
      var e := b[k];
      TotalPermutation(a[..|a| - 1], b[..k] + b[k + 1..]);
      assert Total(a) == Total(a[..|a| - 1]) + Value(e);
      RemoveAt(b, k);
      assert b == b[..k] + ([e] + b[k + 1..]);
      TotalAppend(b[..k], [e] + b[k + 1..]);
      TotalAppend([e], b[k + 1..]);
      TotalAppend(b[..k], b[k + 1..]);
      assert Total([e]) == Value(e) by { assert [e][..0] == []; }
    }
  }

  lemma {:induction false} AllNumbersPermutation(a: seq<Arg>, b: seq<Arg>)
    requires multiset(a) == multiset(b) && AllNumbers(a)
    ensures AllNumbers(b)
  {
    forall i | 0 <= i < |b| ensures b[i].IntArg? {
      assert b[i] in multiset(a);
    }
  }

  lemma XsAppend(a: seq<Point>, b: seq<Point>)
    ensures Xs(a + b) == Xs(a) + Xs(b)
  {
  }

  lemma YsAppend(a: seq<Point>, b: seq<Point>)
    ensures Ys(a + b) == Ys(a) + Ys(b)
  {
  }

  lemma {:induction false} XsPermutation(p: seq<Point>, q: seq<Point>)
    requires multiset(p) == multiset(q)
    ensures multiset(Xs(p)) == multiset(Xs(q))
    decreases |p|
  {
    if p == [] {
      assert q == [];
    } else {
      var k := MatchLast(p, q);
      var e := q[k];
      XsPermutation(p[..|p| - 1], q[..k] + q[k + 1..]);
      RemoveAt(q, k);
      XsAppend(p[..|p| - 1], [e]);
      assert p[..|p| - 1] + [e] == p;
      XsAppend(q[..k], [e]);
      XsAppend(q[..k] + [e], q[k + 1..]);
      XsAppend(q[..k], q[k + 1..]);
    }
  }

  lemma {:induction false} YsPermutation(p: seq<Point>, q: seq<Point>)
    requires multiset(p) == multiset(q)
    ensures multiset(Ys(p)) == multiset(Ys(q))
    decreases |p|
  {
    if p == [] {
      assert q == [];
    } else {
      var k := MatchLast(p, q);
      var e := q[k];
      YsPermutation(p[..|p| - 1], q[..k] + q[k + 1..]);
      RemoveAt(q, k);
      YsAppend(p[..|p| - 1], [e]);
      assert p[..|p| - 1] + [e] == p;
      YsAppend(q[..k], [e]);
      YsAppend(q[..k] + [e], q[k + 1..]);
      YsAppend(q[..k], q[k + 1..]);
    }
  }

  /** The points come from a set, whose iteration order Python leaves
      open; any order gives the same centroid. */
  lemma CentroidPermutation(p: seq<Point>, q: seq<Point>)
    requires multiset(p) == multiset(q)
    ensures Centroid(p) == Centroid(q)
  {
    XsPermutation(p, q);
    YsPermutation(p, q);
    CentroidSpec(p);
    CentroidSpec(q);
    assert |p| == |multiset(p)| == |q|;
    if AllNumbers(Xs(p)) { AllNumbersPermutation(Xs(p), Xs(q)); }
    if AllNumbers(Xs(q)) { AllNumbersPermutation(Xs(q), Xs(p)); }
    if AllNumbers(Ys(p)) { AllNumbersPermutation(Ys(p), Ys(q)); }
    if AllNumbers(Ys(q)) { AllNumbersPermutation(Ys(q), Ys(p)); }
    TotalPermutation(Xs(p), Xs(q));
    TotalPermutation(Ys(p), Ys(q));
  }

  // ---------------------------------------------------------------------
  // Centring

  /** The coordinates, each moved by `adj`. */
  function Shifted(args: seq<Arg>, adj: real): (r: seq<real>)
    ensures |r| == |args| && forall i | 0 <= i < |args| :: r[i] == Value(args[i]) + adj
  {
    seq(|args|, i requires 0 <= i < |args| => Value(args[i]) + adj)
  }

  function RealTotal(s: seq<real>): real
    decreases |s|
  {
    if s == [] then 0.0 else RealTotal(s[..|s| - 1]) + s[|s| - 1]
  }

  lemma {:induction false} ShiftedTotal(args: seq<Arg>, adj: real)
    ensures RealTotal(Shifted(args, adj)) == Total(args) + |args| as real * adj
    decreases |args|
  {
    if args != [] {
      var init := args[..|args| - 1];
      ShiftedTotal(init, adj);
      assert Shifted(args, adj)[..|args| - 1] == Shifted(init, adj);
    }
  }

  lemma ShiftedMean(s: real, t: real, n: real, adj: real, target: real)
    requires n > 0.0 && s == t + n * adj && adj == target - t / n
    ensures s / n == target
  {
    assert n * (t / n) == t;
    assert s == n * target;
  }

  /** Moving every coordinate of one axis by the target minus the mean puts
      the mean of the moved coordinates at the target. */
  lemma AxisOffset(args: seq<Arg>, adj: real, target: real)
    requires |args| > 0 && adj == target - Total(args) / |args| as real
    ensures RealTotal(Shifted(args, adj)) / |args| as real == target
  {
    ShiftedTotal(args, adj);
    ShiftedMean(RealTotal(Shifted(args, adj)), Total(args), |args| as real, adj, target);
  }

  /** Moving every point by the canvas centre minus the centroid puts the
      mean of the moved points at the canvas centre. */
  lemma OffsetCentres(pts: seq<Point>, cx: real, cy: real)
    requires Centroid(pts).Success?
    ensures var c := Centroid(pts).value;
      && RealTotal(Shifted(Xs(pts), cx - c.0)) / |pts| as real == cx
      && RealTotal(Shifted(Ys(pts), cy - c.1)) / |pts| as real == cy
  {
    CentroidSpec(pts);
    AxisOffset(Xs(pts), cx - Centroid(pts).value.0, cx);
    AxisOffset(Ys(pts), cy - Centroid(pts).value.1, cy);
  }
}
