/** `render_model`: one answer set becomes a list of primitives appended to
    a drawing. Each token is bound to the first registry entry whose
    pattern matches at its start; the bound atoms' reference points are
    collected without duplicates and averaged; the offset that moves that
    mean to the canvas centre is applied to every atom, drawn in a stable
    order of `get_order`; a title, and optionally the answer-set text,
    close the drawing. The first error raised stops the pass. */
module Render {
  import opened Wrappers
  import opened Strings
  import opened AtomPattern
  import opened Canvas
  import opened Atoms
  import opened AtomImporter
  import opened Centroid
  import opened AspyViz

  const CanvasWidth: real := 500.0
  const CanvasHeight: real := 500.0
  const CentreX: real := CanvasWidth / 2.0
  const CentreY: real := CanvasHeight / 2.0
  const TitleFontSize: real := CanvasHeight / 50.0
  const PixelScale: real := 1.0

  /** The white background covering the canvas. */
  const Background: Primitive := Rect(0.0, 0.0, CanvasWidth, CanvasHeight, "white", "")

  function TitleText(title: string): Primitive {
    Text(title, TitleFontSize, 5.0, CanvasWidth - TitleFontSize)
  }

  /** The answer set printed one atom per line. */
  function AtomText(answerSet: string): Primitive {
    Text("Atoms:" + Replace(answerSet, " ", "\n"), 9.0, 5.0, CanvasHeight * 0.8)
  }

  // ---------------------------------------------------------------------
  // Binding tokens to atoms

  /** The position of the first entry, in key order, whose pattern matches
      at the start of the token; the registry's length when none does. */
  function LookupIndex(reg: Registry, token: string): (i: nat)
    ensures i <= |reg|
    ensures i < |reg| ==> Matches(reg[i].key, token)
    ensures forall j | 0 <= j < i :: !Matches(reg[j].key, token)
    decreases |reg|
  {
    if reg == [] then 0
    else if Matches(reg[0].key, token) then 0
    else
      var i := 1 + LookupIndex(reg[1..], token);
      assert forall j | 1 <= j < i :: reg[j] == reg[1..][j - 1];
      i
  }

  /** A matched token, the instance it is bound to, and its arguments. */
  datatype Bound = Bound(token: string, atom: Instance, args: seq<Arg>)

  /** One iteration of the token loop: no binding for an unmatched token;
      otherwise `get_args` with the instance's own pattern, then
      `get_points`, either of which may raise. */
  function Bind(reg: Registry, token: string, scaling: int): Result<Option<Bound>> {
    var i := LookupIndex(reg, token);
    if i == |reg| then Success(None)
    else
      var atom := reg[i].atom;
      match ArgsOf(PatternOf(atom.kind), token, scaling)
      case Failure(e) => Failure(e)
      case Success(args) =>
        match GetPoints(atom.kind, args)
        case Failure(e) => Failure(e)
        case Success(_) => Success(Some(Bound(token, atom, args)))
  }

  /** The reference points of a bound atom (none if `get_points` raises). */
  function BoundPoints(b: Bound): seq<Point> {
    match GetPoints(b.atom.kind, b.args)
    case Success(ps) => ps
    case Failure(_) => []
  }

  /** `points_set.add(point)`: a point already present is not added again. */
  function AddPoint(points: seq<Point>, p: Point): seq<Point> {
    if p in points then points else points + [p]
  }

  function AddPoints(points: seq<Point>, ps: seq<Point>): seq<Point>
    decreases |ps|
  {
    if ps == [] then points else AddPoint(AddPoints(points, ps[..|ps| - 1]), ps[|ps| - 1])
  }

  /** What the token loop has gathered: the bound atoms in token order
      (`atoms_and_orders`), and the reference points (`points_set`) in
      first-insertion order. */
  datatype Pre = Pre(bound: seq<Bound>, points: seq<Point>)

  /** The token loop over `tokens`. */
  function Preprocess(reg: Registry, tokens: seq<string>, scaling: int): Result<Pre>
    decreases |tokens|
  {
    if tokens == [] then Success(Pre([], []))
    else
      match Preprocess(reg, tokens[..|tokens| - 1], scaling)
      case Failure(e) => Failure(e)
      case Success(pre) =>
        match Bind(reg, tokens[|tokens| - 1], scaling)
        case Failure(e) => Failure(e)
        case Success(None) => Success(pre)
        case Success(Some(b)) => Success(Pre(pre.bound + [b], AddPoints(pre.points, BoundPoints(b))))
  }

  // Reference definitions

  predicate Distinct<T(==)>(s: seq<T>) {
    forall i, j | 0 <= i < j < |s| :: s[i] != s[j]
  }

  /** The tokens some registry pattern matches, in token order. */
  function MatchedTokens(reg: Registry, tokens: seq<string>): seq<string>
    decreases |tokens|
  {
    if tokens == [] then []
    else
      var last := tokens[|tokens| - 1];
      MatchedTokens(reg, tokens[..|tokens| - 1]) + (if LookupIndex(reg, last) < |reg| then [last] else [])
  }

  /** All reference points of the bound atoms, duplicates included. */
  function PointsOf(bs: seq<Bound>): seq<Point>
    decreases |bs|
  {
    if bs == [] then [] else PointsOf(bs[..|bs| - 1]) + BoundPoints(bs[|bs| - 1])
  }

  /** A registry whose every instance is filed under its own pattern, as
      `load_atoms` builds it. */
  predicate Filed(reg: Registry) {
    forall i | 0 <= i < |reg| :: reg[i].key == PatternOf(reg[i].atom.kind)
  }

  // ---------------------------------------------------------------------
  // Properties of binding

  /** A token is bound to the first matching entry's instance, with the
      arguments `get_args` extracts using that instance's pattern, as many
      as its arity; an unmatched token is not bound and raises nothing. */
  lemma BindSpec(reg: Registry, token: string, scaling: int)
    ensures Bind(reg, token, scaling) == Success(None) <==> LookupIndex(reg, token) == |reg|
    ensures Bind(reg, token, scaling).Success? && Bind(reg, token, scaling).value.Some? ==>
      var b := Bind(reg, token, scaling).value.value;
      && LookupIndex(reg, token) < |reg|
      && b.token == token && b.atom == reg[LookupIndex(reg, token)].atom
      && ArgsOf(PatternOf(b.atom.kind), token, scaling) == Success(b.args)
      && |b.args| == Cardinality(b.atom.kind)
      && GetPoints(b.atom.kind, b.args) == Success(BoundPoints(b))
    ensures Bind(reg, token, scaling).Failure? ==>
      var atom := reg[LookupIndex(reg, token)].atom;
      && LookupIndex(reg, token) < |reg|
      && (ArgsOf(PatternOf(atom.kind), token, scaling).Failure? ||
          GetPoints(atom.kind, ArgsOf(PatternOf(atom.kind), token, scaling).value).Failure?)
  {
    var i := LookupIndex(reg, token);
    if i < |reg| {
      var atom := reg[i].atom;
      var args := ArgsOf(PatternOf(atom.kind), token, scaling);
      if args.Success? {
        GetPointsShape(atom.kind, args.value);
      }
    }
  }

  /** In a filed registry, binding a token never raises: the instance's
      own pattern matched, so its arguments fit its arity. */
  lemma FiledBindSucceeds(reg: Registry, token: string, scaling: int)
    requires Filed(reg)
    ensures Bind(reg, token, scaling).Success?
  {
    var i := LookupIndex(reg, token);
    if i < |reg| {
      MatchedTokenPassesValidation(reg[i].atom.kind, token, scaling);
    }
  }

  /** A pattern matches only tokens that begin with its name and `(`. */
  lemma MatchStartsWithName(p: Pattern, token: string)
    requires Matches(p, token)
    ensures StartsWith(token, p.name + "(")
  {
  }

  lemma SameOpening(t: string, a: string, b: string)
    requires StartsWith(t, a + "(") && StartsWith(t, b + "(") && '(' !in a && '(' !in b
    ensures a == b
  {
    ParenPosition(t, a);
    ParenPosition(t, b);
    assert t[..|a|] == a && t[..|b|] == b;
  }

  /** The first `(` of a text that starts with a name free of `(` and
      then `(` is the one after the name. */
  lemma ParenPosition(t: string, a: string)
    requires StartsWith(t, a + "(") && '(' !in a
    ensures t[|a|] == '(' && forall k | 0 <= k < |a| :: t[k] != '('
  {
    assert forall k | 0 <= k <= |a| :: t[k] == (a + "(")[k];
  }

  lemma NamesDistinct(j: AtomKind, k: AtomKind)
    requires j != k
    ensures PatternOf(j).name != PatternOf(k).name
  {
  }

  /** No token is matched by the patterns of two different shipped kinds. */
  lemma OneKindMatches(j: AtomKind, k: AtomKind, token: string)
    requires Matches(PatternOf(j), token) && Matches(PatternOf(k), token)
    ensures j == k
  {
    ShippedPatternsFitArity(j);
    ShippedPatternsFitArity(k);
    NameHasNoSyntax(PatternOf(j).name);
    NameHasNoSyntax(PatternOf(k).name);
    MatchStartsWithName(PatternOf(j), token);
    MatchStartsWithName(PatternOf(k), token);
    SameOpening(token, PatternOf(j).name, PatternOf(k).name);
    if j != k {
      NamesDistinct(j, k);
    }
  }

  /** In a filed registry without repeated keys at most one entry matches
      a token, so the first match is the only one. */
  lemma LookupUnique(reg: Registry, token: string, i: nat)
    requires Filed(reg) && DistinctKeys(reg)
    requires i < |reg| && Matches(reg[i].key, token)
    ensures LookupIndex(reg, token) == i
  {
    var l := LookupIndex(reg, token);
    if l != i {
      OneKindMatches(reg[l].atom.kind, reg[i].atom.kind, token);
    }
  }

  /** Hence binding does not depend on the order of the dict's keys: two
      filed registries holding the same entries bind every token alike. */
  lemma BindIgnoresKeyOrder(r1: Registry, r2: Registry, token: string, scaling: int)
    requires Filed(r1) && DistinctKeys(r1) && Filed(r2) && DistinctKeys(r2)
    requires forall e :: e in r1 <==> e in r2
    ensures Bind(r1, token, scaling) == Bind(r2, token, scaling)
  {
    var i1, i2 := LookupIndex(r1, token), LookupIndex(r2, token);
    if i1 < |r1| {
      assert r1[i1] in r2;
      var k :| 0 <= k < |r2| && r2[k] == r1[i1];
      LookupUnique(r2, token, k);
      assert r2[i2].atom == r1[i1].atom;
    }
    if i2 < |r2| {
      assert r2[i2] in r1;
      var k :| 0 <= k < |r1| && r1[k] == r2[i2];
      LookupUnique(r1, token, k);
    }
  }

  // ---------------------------------------------------------------------
  // Properties of the token loop

  /** Adding points keeps what was there, adds what was missing, and adds
      nothing twice. */
  lemma {:induction false} AddPointsSpec(s: seq<Point>, ps: seq<Point>)
    ensures forall x :: x in AddPoints(s, ps) <==> x in s || x in ps
    ensures Distinct(s) ==> Distinct(AddPoints(s, ps))
    ensures |s| <= |AddPoints(s, ps)| && AddPoints(s, ps)[..|s|] == s
    decreases |ps|
  {
    if ps != [] {
      var init := ps[..|ps| - 1];
      AddPointsSpec(s, init);
      assert ps == init + [ps[|ps| - 1]];
    }
  }

  lemma {:induction false} AddPointsAppend(s: seq<Point>, a: seq<Point>, b: seq<Point>)
    ensures AddPoints(s, a + b) == AddPoints(AddPoints(s, a), b)
    decreases |b|
  {
    if b == [] {
      assert a + b == a;
    } else {
      AddPointsAppend(s, a, b[..|b| - 1]);
      assert (a + b)[..|a + b| - 1] == a + b[..|b| - 1];
    }
  }

  lemma {:induction false} PointsOfAppend(a: seq<Bound>, b: Bound)
    ensures PointsOf(a + [b]) == PointsOf(a) + BoundPoints(b)
  {
    assert (a + [b])[..|a|] == a;
  }

  /** Once a prefix of the tokens raises, the whole loop raises the same. */
  lemma {:induction false} PreprocessFailurePersists(reg: Registry, tokens: seq<string>, t: nat, scaling: int)
    requires t <= |tokens| && Preprocess(reg, tokens[..t], scaling).Failure?
    ensures Preprocess(reg, tokens, scaling) == Preprocess(reg, tokens[..t], scaling)
    decreases |tokens| - t
  {
    if t < |tokens| {
      var init := tokens[..|tokens| - 1];
      assert init[..t] == tokens[..t];
      PreprocessFailurePersists(reg, init, t, scaling);
    } else {
      assert tokens[..t] == tokens;
    }
  }

  /** The token loop raises exactly when binding some token raises, and
      then with the error of the first such token. Otherwise it binds the
      matched tokens, in token order, each as `Bind` does; and its points
      are every bound atom's reference points with repeats dropped. */
  lemma PreprocessSpec(reg: Registry, tokens: seq<string>, scaling: int)
    ensures Preprocess(reg, tokens, scaling).Success? <==> AllBind(reg, tokens, scaling)
    ensures Preprocess(reg, tokens, scaling).Failure? ==>
      exists k | 0 <= k < |tokens| ::
        && Bind(reg, tokens[k], scaling).Failure?
        && Preprocess(reg, tokens, scaling).error == Bind(reg, tokens[k], scaling).error
        && forall j | 0 <= j < k :: Bind(reg, tokens[j], scaling).Success?
    ensures Preprocess(reg, tokens, scaling).Success? ==>
      var pre := Preprocess(reg, tokens, scaling).value;
      var matched := MatchedTokens(reg, tokens);
      && |pre.bound| == |matched|
      && (forall i | 0 <= i < |matched| ::
            pre.bound[i].token == matched[i] && Bind(reg, matched[i], scaling) == Success(Some(pre.bound[i])))
      && pre.points == AddPoints([], PointsOf(pre.bound))
  {
    PreprocessSucceeds(reg, tokens, scaling);
    PreprocessFirstError(reg, tokens, scaling);
    PreprocessBinds(reg, tokens, scaling);
  }

  lemma {:induction false} PreprocessSucceeds(reg: Registry, tokens: seq<string>, scaling: int)
    ensures Preprocess(reg, tokens, scaling).Success? <==> AllBind(reg, tokens, scaling)
    decreases |tokens|
  {
    if tokens != [] {
      PreprocessSucceeds(reg, tokens[..|tokens| - 1], scaling);
      PreprocessStep(reg, tokens, scaling);
      AllBindStep(reg, tokens, scaling);
    }
  }

  /** Every token binds without raising. */
  predicate AllBind(reg: Registry, tokens: seq<string>, scaling: int) {
    forall i | 0 <= i < |tokens| :: Bind(reg, tokens[i], scaling).Success?
  }

  lemma AllBindStep(reg: Registry, tokens: seq<string>, scaling: int)
    requires tokens != []
    ensures AllBind(reg, tokens, scaling) <==>
      AllBind(reg, tokens[..|tokens| - 1], scaling) && Bind(reg, tokens[|tokens| - 1], scaling).Success?
  {
    var init := tokens[..|tokens| - 1];
    assert forall i | 0 <= i < |init| :: tokens[i] == init[i];
  }

  /** One more token: the loop succeeds when the loop before it did and
      the new token binds. */
  lemma PreprocessStep(reg: Registry, tokens: seq<string>, scaling: int)
    requires tokens != []
    ensures Preprocess(reg, tokens, scaling).Success? <==>
      Preprocess(reg, tokens[..|tokens| - 1], scaling).Success? && Bind(reg, tokens[|tokens| - 1], scaling).Success?
  {
  }

  lemma {:induction false} PreprocessFirstError(reg: Registry, tokens: seq<string>, scaling: int)
    ensures Preprocess(reg, tokens, scaling).Failure? ==>
      exists k | 0 <= k < |tokens| :: FailsFirstAt(reg, tokens, scaling, k, Preprocess(reg, tokens, scaling).error)
    decreases |tokens|
  {
    if tokens != [] {
      var init, last := tokens[..|tokens| - 1], tokens[|tokens| - 1];
      var r := Preprocess(reg, init, scaling);
      PreprocessStepFailure(reg, tokens, scaling);
      if r.Failure? {
        PreprocessFirstError(reg, init, scaling);
        var k :| 0 <= k < |init| && FailsFirstAt(reg, init, scaling, k, r.error);
        FailsFirstAtExtends(reg, tokens, scaling, k, r.error);
      } else if Bind(reg, last, scaling).Failure? {
        PreprocessSucceeds(reg, init, scaling);
        FailsFirstAtLast(reg, tokens, scaling);
      }
    }
  }

  /** Token `k` is the first whose binding raises, and it raises `e`. */
  predicate FailsFirstAt(reg: Registry, tokens: seq<string>, scaling: int, k: nat, e: Error)
    requires k < |tokens|
  {
    && Bind(reg, tokens[k], scaling).Failure?
    && e == Bind(reg, tokens[k], scaling).error
    && forall j | 0 <= j < k :: Bind(reg, tokens[j], scaling).Success?
  }

  lemma PreprocessStepFailure(reg: Registry, tokens: seq<string>, scaling: int)
    requires tokens != []
    ensures var r := Preprocess(reg, tokens[..|tokens| - 1], scaling);
      r.Failure? ==> Preprocess(reg, tokens, scaling) == r
    ensures var r, b := Preprocess(reg, tokens[..|tokens| - 1], scaling), Bind(reg, tokens[|tokens| - 1], scaling);
      r.Success? && b.Failure? ==> Preprocess(reg, tokens, scaling) == Failure(b.error)
  {
  }

  lemma FailsFirstAtExtends(reg: Registry, tokens: seq<string>, scaling: int, k: nat, e: Error)
    requires k < |tokens| - 1 && FailsFirstAt(reg, tokens[..|tokens| - 1], scaling, k, e)
    ensures FailsFirstAt(reg, tokens, scaling, k, e)
  {
    var init := tokens[..|tokens| - 1];
    forall j | 0 <= j <= k ensures tokens[j] == init[j] {}
  }

  lemma FailsFirstAtLast(reg: Registry, tokens: seq<string>, scaling: int)
    requires tokens != [] && AllBind(reg, tokens[..|tokens| - 1], scaling)
    requires Bind(reg, tokens[|tokens| - 1], scaling).Failure?
    ensures FailsFirstAt(reg, tokens, scaling, |tokens| - 1, Bind(reg, tokens[|tokens| - 1], scaling).error)
  {
    var init := tokens[..|tokens| - 1];
    forall j | 0 <= j < |init| ensures Bind(reg, tokens[j], scaling).Success? {
      assert tokens[j] == init[j];
    }
  }

  lemma {:induction false} PreprocessBinds(reg: Registry, tokens: seq<string>, scaling: int)
    ensures Preprocess(reg, tokens, scaling).Success? ==>
      var pre := Preprocess(reg, tokens, scaling).value;
      var matched := MatchedTokens(reg, tokens);
      && |pre.bound| == |matched|
      && (forall i | 0 <= i < |matched| ::
            pre.bound[i].token == matched[i] && Bind(reg, matched[i], scaling) == Success(Some(pre.bound[i])))
      && pre.points == AddPoints([], PointsOf(pre.bound))
    decreases |tokens|
  {
    if tokens != [] && Preprocess(reg, tokens, scaling).Success? {
      var init, last := tokens[..|tokens| - 1], tokens[|tokens| - 1];
      PreprocessBinds(reg, init, scaling);
      PreprocessStepSuccess(reg, tokens, scaling);
      BindShape(reg, last, scaling);
      var pre := Preprocess(reg, init, scaling).value;
      var b := Bind(reg, last, scaling).value;
      if b.Some? {
        BindsMatchedAppend(reg, scaling, pre.bound, MatchedTokens(reg, init), b.value);
        PointsOfAppend(pre.bound, b.value);
        AddPointsAppend([], PointsOf(pre.bound), BoundPoints(b.value));
      }
    }
  }

  /** The bound atoms are the matched tokens, each bound as `Bind` does. */
  predicate BindsMatched(reg: Registry, scaling: int, bound: seq<Bound>, matched: seq<string>) {
    && |bound| == |matched|
    && forall i | 0 <= i < |matched| ::
         bound[i].token == matched[i] && Bind(reg, matched[i], scaling) == Success(Some(bound[i]))
  }

  lemma BindsMatchedAppend(reg: Registry, scaling: int, bound: seq<Bound>, matched: seq<string>, b: Bound)
    requires BindsMatched(reg, scaling, bound, matched) && Bind(reg, b.token, scaling) == Success(Some(b))
    ensures BindsMatched(reg, scaling, bound + [b], matched + [b.token])
  {
  }

  /** How one more token extends a successful loop. */
  lemma PreprocessStepSuccess(reg: Registry, tokens: seq<string>, scaling: int)
    requires tokens != []
    ensures var r, b := Preprocess(reg, tokens[..|tokens| - 1], scaling), Bind(reg, tokens[|tokens| - 1], scaling);
      r.Success? && b.Success? ==>
        Preprocess(reg, tokens, scaling) ==
          if b.value.None? then r
          else Success(Pre(r.value.bound + [b.value.value], AddPoints(r.value.points, BoundPoints(b.value.value))))
  {
  }

  /** An unmatched token binds to nothing; a bound atom keeps its token. */
  lemma BindShape(reg: Registry, token: string, scaling: int)
    ensures Bind(reg, token, scaling) == Success(None) <==> LookupIndex(reg, token) == |reg|
    ensures Bind(reg, token, scaling).Success? && Bind(reg, token, scaling).value.Some? ==>
      Bind(reg, token, scaling).value.value.token == token
  {
  }

  /** The points the loop collects hold no repeats and are exactly the
      reference points of the bound atoms. */
  lemma PointsAreDistinctUnion(reg: Registry, tokens: seq<string>, scaling: int)
    requires Preprocess(reg, tokens, scaling).Success?
    ensures var pre := Preprocess(reg, tokens, scaling).value;
      && Distinct(pre.points)
      && forall p :: p in pre.points <==> p in PointsOf(pre.bound)
  {
    PreprocessSpec(reg, tokens, scaling);
    AddPointsSpec([], PointsOf(Preprocess(reg, tokens, scaling).value.bound));
  }

  /** Unmatched tokens contribute nothing: the loop over the matched
      tokens alone gives the same result. */
  lemma {:induction false} UnmatchedTokensIrrelevant(reg: Registry, tokens: seq<string>, scaling: int)
    ensures Preprocess(reg, tokens, scaling) == Preprocess(reg, MatchedTokens(reg, tokens), scaling)
    decreases |tokens|
  {
    if tokens != [] {
      var init, last := tokens[..|tokens| - 1], tokens[|tokens| - 1];
      UnmatchedTokensIrrelevant(reg, init, scaling);
      var m := MatchedTokens(reg, init);
      if LookupIndex(reg, last) < |reg| {
        assert MatchedTokens(reg, tokens) == m + [last];
        assert (m + [last])[..|m|] == m;
      } else {
        assert MatchedTokens(reg, tokens) == m;
        BindSpec(reg, last, scaling);
      }
    }
  }

  /** With a filed registry the token loop never raises. */
  lemma FiledPreprocessSucceeds(reg: Registry, tokens: seq<string>, scaling: int)
    requires Filed(reg)
    ensures Preprocess(reg, tokens, scaling).Success?
  {
    PreprocessSpec(reg, tokens, scaling);
    forall i | 0 <= i < |tokens| ensures Bind(reg, tokens[i], scaling).Success? {
      FiledBindSucceeds(reg, tokens[i], scaling);
    }
  }

  /** The token loop does not depend on the dict's key order. */
  lemma {:induction false} PreprocessIgnoresKeyOrder(r1: Registry, r2: Registry, tokens: seq<string>, scaling: int)
    requires Filed(r1) && DistinctKeys(r1) && Filed(r2) && DistinctKeys(r2)
    requires forall e :: e in r1 <==> e in r2
    ensures Preprocess(r1, tokens, scaling) == Preprocess(r2, tokens, scaling)
    decreases |tokens|
  {
    if tokens != [] {
      PreprocessIgnoresKeyOrder(r1, r2, tokens[..|tokens| - 1], scaling);
      BindIgnoresKeyOrder(r1, r2, tokens[|tokens| - 1], scaling);
    }
  }

  // ---------------------------------------------------------------------
  // `atoms_and_orders.sort(key=get_order)`: a stable sort

  function Key(b: Bound): int {
    GetOrder(b.atom.kind)
  }

  /** One step of a stable insertion: `x` goes after every element whose
      key is not greater than its own. */
  function Insert(s: seq<Bound>, x: Bound): seq<Bound>
    decreases |s|
  {
    if s == [] || Key(s[|s| - 1]) <= Key(x) then s + [x]
    else Insert(s[..|s| - 1], x) + [s[|s| - 1]]
  }

  function SortByOrder(s: seq<Bound>): seq<Bound>
    decreases |s|
  {
    if s == [] then [] else Insert(SortByOrder(s[..|s| - 1]), s[|s| - 1])
  }

  predicate SortedByOrder(s: seq<Bound>) {
    forall i, j | 0 <= i < j < |s| :: Key(s[i]) <= Key(s[j])
  }

  /** The elements of order `o`, in their original order. */
  function WithOrder(s: seq<Bound>, o: int): seq<Bound>
    decreases |s|
  {
    if s == [] then []
    else WithOrder(s[..|s| - 1], o) + (if Key(s[|s| - 1]) == o then [s[|s| - 1]] else [])
  }

  lemma WithOrderSnoc(s: seq<Bound>, x: Bound, o: int)
    ensures WithOrder(s + [x], o) == WithOrder(s, o) + (if Key(x) == o then [x] else [])
  {
    assert (s + [x])[..|s|] == s;
  }

  lemma {:induction false} InsertElements(s: seq<Bound>, x: Bound)
    ensures multiset(Insert(s, x)) == multiset(s) + multiset{x}
    decreases |s|
  {
    if !(s == [] || Key(s[|s| - 1]) <= Key(x)) {
      var init := s[..|s| - 1];
      InsertElements(init, x);
      assert s == init + [s[|s| - 1]];
    }
  }

  lemma {:induction false} InsertSorted(s: seq<Bound>, x: Bound)
    requires SortedByOrder(s)
    ensures SortedByOrder(Insert(s, x))
    decreases |s|
  {
    if !(s == [] || Key(s[|s| - 1]) <= Key(x)) {
      var init, last := s[..|s| - 1], s[|s| - 1];
      InsertSorted(init, x);
      InsertElements(init, x);
      var t := Insert(init, x);
      forall i | 0 <= i < |t| ensures Key(t[i]) <= Key(last) {
        assert t[i] in multiset(init) + multiset{x};
        if t[i] in init {
          var k :| 0 <= k < |init| && init[k] == t[i];
          assert s[k] == init[k];
        }
      }
    }
  }

  /** Inserting into a sorted sequence leaves the elements of every order
      in their order, with `x` last among its own. */
  lemma {:induction false} InsertStable(s: seq<Bound>, x: Bound, o: int)
    requires SortedByOrder(s)
    ensures WithOrder(Insert(s, x), o) == WithOrder(s, o) + (if Key(x) == o then [x] else [])
    decreases |s|
  {
    if s == [] || Key(s[|s| - 1]) <= Key(x) {
      WithOrderSnoc(s, x, o);
    } else {
      var init, last := s[..|s| - 1], s[|s| - 1];
      InsertStable(init, x, o);
      WithOrderSnoc(Insert(init, x), last, o);
      assert s == init + [last];
      WithOrderSnoc(init, last, o);
    }
  }

  /** The sort returns the same atoms, ordered by `get_order`, and atoms
      of equal order keep their relative order: Python's sort is stable. */
  lemma {:induction false} SortByOrderSpec(s: seq<Bound>)
    ensures SortedByOrder(SortByOrder(s))
    ensures multiset(SortByOrder(s)) == multiset(s)
    ensures forall o :: WithOrder(SortByOrder(s), o) == WithOrder(s, o)
    decreases |s|
  {
    if s != [] {
      var init, last := s[..|s| - 1], s[|s| - 1];
      SortByOrderSpec(init);
      InsertSorted(SortByOrder(init), last);
      InsertElements(SortByOrder(init), last);
      assert s == init + [last];
      forall o ensures WithOrder(SortByOrder(s), o) == WithOrder(s, o) {
        InsertStable(SortByOrder(init), last, o);
      }
    }
  }

  // ---------------------------------------------------------------------
  // Drawing the sorted atoms

  /** What a statement sequence appended to the drawing, and whether it ran
      to the end or raised. */
  datatype Emission = Emission(prims: seq<Primitive>, outcome: Outcome)

  /** What `draw` returns for each atom, in turn. */
  function Drawn(bs: seq<Bound>, xAdj: real, yAdj: real): (rs: seq<Result<Primitive>>)
    ensures |rs| == |bs|
    ensures forall i | 0 <= i < |bs| :: rs[i] == Draw(bs[i].atom.kind, bs[i].args, xAdj, yAdj)
  {
    seq(|bs|, i requires 0 <= i < |bs| => Draw(bs[i].atom.kind, bs[i].args, xAdj, yAdj))
  }

  /** The draw loop over the results of `draw`: each primitive is appended
      in turn, until one call raises. */
  function Emit(rs: seq<Result<Primitive>>): Emission
    decreases |rs|
  {
    if rs == [] then Emission([], Pass)
    else
      var e := Emit(rs[..|rs| - 1]);
      if e.outcome.Fail? then e
      else
        match rs[|rs| - 1]
        case Failure(err) => Emission(e.prims, Fail(err))
        case Success(q) => Emission(e.prims + [q], Pass)
  }

  function DrawAll(bs: seq<Bound>, xAdj: real, yAdj: real): Emission {
    Emit(Drawn(bs, xAdj, yAdj))
  }

  /** The loop appends the primitives of the leading calls that succeed, in
      order; it runs to the end exactly when every call succeeds, and
      otherwise stops with the error of the first one that raises. */
  lemma {:induction false} EmitSpec(rs: seq<Result<Primitive>>)
    ensures var e := Emit(rs);
      && |e.prims| <= |rs|
      && (forall i | 0 <= i < |e.prims| :: rs[i] == Success(e.prims[i]))
      && (e.outcome == Pass <==> |e.prims| == |rs|)
      && (e.outcome.Fail? ==> rs[|e.prims|] == Failure(e.outcome.error))
    decreases |rs|
  {
    if rs != [] {
      var init := rs[..|rs| - 1];
      EmitSpec(init);
      var e := Emit(init);
      forall i | 0 <= i < |e.prims| ensures rs[i] == init[i] {}
    }
  }

  /** Drawing the sorted atoms: the primitives of the leading atoms that
      draw, stopping with the error of the first that does not. */
  lemma DrawAllSpec(bs: seq<Bound>, xAdj: real, yAdj: real)
    ensures var e := DrawAll(bs, xAdj, yAdj);
      && |e.prims| <= |bs|
      && (forall i | 0 <= i < |e.prims| :: Draw(bs[i].atom.kind, bs[i].args, xAdj, yAdj) == Success(e.prims[i]))
      && (e.outcome == Pass <==> |e.prims| == |bs|)
      && (e.outcome.Fail? ==> Draw(bs[|e.prims|].atom.kind, bs[|e.prims|].args, xAdj, yAdj) == Failure(e.outcome.error))
  {
    EmitSpec(Drawn(bs, xAdj, yAdj));
  }

  /** One more call after a run of successes: it is appended, or its
      error ends the loop. */
  lemma EmitStep(rs: seq<Result<Primitive>>, d: nat)
    requires d < |rs| && Emit(rs[..d]).outcome == Pass
    ensures rs[d].Success? ==> Emit(rs[..d + 1]) == Emission(Emit(rs[..d]).prims + [rs[d].value], Pass)
    ensures rs[d].Failure? ==> Emit(rs[..d + 1]) == Emission(Emit(rs[..d]).prims, Fail(rs[d].error))
  {
    assert rs[..d + 1][..d] == rs[..d];
  }

  /** Once a prefix of the calls raises, the whole loop raises the same. */
  lemma {:induction false} EmitFailurePersists(rs: seq<Result<Primitive>>, d: nat)
    requires d <= |rs| && Emit(rs[..d]).outcome.Fail?
    ensures Emit(rs) == Emit(rs[..d])
    decreases |rs| - d
  {
    if d < |rs| {
      var init := rs[..|rs| - 1];
      assert init[..d] == rs[..d];
      EmitFailurePersists(init, d);
    } else {
      assert rs[..d] == rs;
    }
  }

  // ---------------------------------------------------------------------
  // render_model

  /** The offset that moves a centroid to the canvas centre. */
  function Offset(c: (real, real)): (real, real) {
    (CentreX - c.0, CentreY - c.1)
  }

  /** What `render_model` appends to the drawing, and how it ends: the
      background first; then, unless the token loop or the centroid raises,
      the sorted atoms until one fails to draw; then the title and, when
      asked for, the answer-set text. */
  function RenderedModel(reg: Registry, answerSet: string, title: string, scaling: int, renderAtomText: bool): Emission {
    RenderedFrom(Preprocess(reg, ExtractAtoms(answerSet), scaling), answerSet, title, renderAtomText)
  }

  /** The rendering after the token loop, from what that loop returned. */
  function RenderedFrom(pre: Result<Pre>, answerSet: string, title: string, renderAtomText: bool): Emission {
    match pre
    case Failure(e) => Emission([Background], Fail(e))
    case Success(p) =>
      match Centroid.Centroid(p.points)
      case Failure(e) => Emission([Background], Fail(e))
      case Success(c) =>
        var l := Layered(p.bound, Offset(c), answerSet, title, renderAtomText);
        Emission([Background] + l.prims, l.outcome)
  }

  /** What follows the centroid: the atoms in draw order, then, unless one
      of them raised, the title and the optional answer-set text. */
  function Layered(bound: seq<Bound>, adj: (real, real), answerSet: string, title: string, renderAtomText: bool): Emission {
    var d := DrawAll(SortByOrder(bound), adj.0, adj.1);
    if d.outcome.Fail? then d
    else Emission(d.prims + [TitleText(title)] + (if renderAtomText then [AtomText(answerSet)] else []), Pass)
  }

  /** The inner loop over the registry's keys, ending at the first key
      that matches, followed by `get_args` and `get_points`. */
  method BindToken(reg: Registry, token: string, scaling: int) returns (r: Result<Option<Bound>>)
    ensures r == Bind(reg, token, scaling)
  {
    var j := 0;
    while j < |reg|
      invariant 0 <= j <= |reg|
      invariant forall k | 0 <= k < j :: !Matches(reg[k].key, token)
    {
      if Matches(reg[j].key, token) {
        assert LookupIndex(reg, token) == j;
        var atom := reg[j].atom;
        var matches := GetArgs(PatternOf(atom.kind), token, scaling);
        if matches.Failure? {
          return Failure(matches.error);
        }
        var points := GetPoints(atom.kind, matches.value);
        if points.Failure? {
          return Failure(points.error);
        }
        return Success(Some(Bound(token, atom, matches.value)));
      }
      j := j + 1;
    }
    assert LookupIndex(reg, token) == |reg|;
    return Success(None);
  }

  /** The loop adding a bound atom's points to `points_set`. */
  method AddAll(points: seq<Point>, ps: seq<Point>) returns (r: seq<Point>)
    ensures r == AddPoints(points, ps)
  {
    r := points;
    var i := 0;
    while i < |ps|
      invariant 0 <= i <= |ps|
      invariant r == AddPoints(points, ps[..i])
    {
      assert ps[..i + 1][..i] == ps[..i];
      if ps[i] !in r {
        r := r + [ps[i]];
      }
      i := i + 1;
    }
    assert ps[..i] == ps;
  }

  /** The token loop of `render_model`: bind each token, collect the
      points of each bound atom, and stop at the first error. */
  method PreprocessTokens(reg: Registry, atoms: seq<string>, scaling: int) returns (r: Result<Pre>)
    ensures r == Preprocess(reg, atoms, scaling)
  {
    var bound: seq<Bound> := [];
    var points: seq<Point> := [];
    var t := 0;
    while t < |atoms|
      invariant 0 <= t <= |atoms|
      invariant Preprocess(reg, atoms[..t], scaling) == Success(Pre(bound, points))
    {
      var b := BindToken(reg, atoms[t], scaling);
      assert atoms[..t + 1][..t] == atoms[..t];
      if b.Failure? {
        PreprocessFailurePersists(reg, atoms, t + 1, scaling);
        return Failure(b.error);
      }
      if b.value.Some? {
        points := AddAll(points, BoundPoints(b.value.value));
        bound := bound + [b.value.value];
      }
      t := t + 1;
    }
    assert atoms[..t] == atoms;
    return Success(Pre(bound, points));
  }

  /** The draw loop of `render_model`: append each atom's primitive, and
      stop at the first atom that fails to draw. */
  method DrawAtoms(drawing: Drawing, sorted: seq<Bound>, xAdj: real, yAdj: real) returns (outcome: Outcome)
    modifies drawing
    ensures drawing.elements == old(drawing.elements) + DrawAll(sorted, xAdj, yAdj).prims
    ensures outcome == DrawAll(sorted, xAdj, yAdj).outcome
    ensures drawing.pixelScale == old(drawing.pixelScale)
    ensures drawing.width == old(drawing.width) && drawing.height == old(drawing.height)
  {
    ghost var rs := Drawn(sorted, xAdj, yAdj);
    var d := 0;
    while d < |sorted|
      invariant 0 <= d <= |sorted|
      invariant Emit(rs[..d]).outcome == Pass
      invariant drawing.elements == old(drawing.elements) + Emit(rs[..d]).prims
      invariant drawing.pixelScale == old(drawing.pixelScale)
      invariant drawing.width == old(drawing.width) && drawing.height == old(drawing.height)
    {
      var each := sorted[d];
      var svg := Draw(each.atom.kind, each.args, xAdj, yAdj);
      EmitStep(rs, d);
      if svg.Failure? {
        EmitFailurePersists(rs, d + 1);
        return Fail(svg.error);
      }
      ConcatAssoc(old(drawing.elements), Emit(rs[..d]).prims, [svg.value]);
      drawing.Append(svg.value);
      d := d + 1;
    }
    assert rs[..d] == rs;
    return Pass;
  }

  /** The part of `render_model` after the centroid: sort, draw, and
      caption. */
  method DrawModel(drawing: Drawing, bound: seq<Bound>, adj: (real, real), answerSet: string, title: string, renderAtomText: bool)
    returns (outcome: Outcome)
    modifies drawing
    ensures drawing.elements == old(drawing.elements) + Layered(bound, adj, answerSet, title, renderAtomText).prims
    ensures outcome == Layered(bound, adj, answerSet, title, renderAtomText).outcome
    ensures drawing.pixelScale == old(drawing.pixelScale)
    ensures drawing.width == old(drawing.width) && drawing.height == old(drawing.height)
  {
    var sorted := SortByOrder(bound);
    outcome := DrawAtoms(drawing, sorted, adj.0, adj.1);
    if outcome.Fail? {
      return;
    }
    drawing.Append(TitleText(title));
    if renderAtomText {
      drawing.Append(AtomText(answerSet));
    }
  }

  /** `render_model` on a drawing: it appends exactly what `RenderedModel`
      describes, sets the pixel scale, and reports how it ended. */
  method RenderModel(reg: Registry, drawing: Drawing, answerSet: string, title: string, scaling: int, renderAtomText: bool)
    returns (outcome: Outcome)
    modifies drawing
    ensures drawing.elements == old(drawing.elements) + RenderedModel(reg, answerSet, title, scaling, renderAtomText).prims
    ensures outcome == RenderedModel(reg, answerSet, title, scaling, renderAtomText).outcome
    ensures drawing.pixelScale == PixelScale
    ensures drawing.width == old(drawing.width) && drawing.height == old(drawing.height)
  {
    ghost var start := drawing.elements;
    drawing.Append(Background);
    drawing.SetPixelScale(PixelScale);
    assert drawing.elements == start + [Background];
    var atoms := ExtractAtoms(answerSet);
    var pre := PreprocessTokens(reg, atoms, scaling);
    if pre.Failure? {
      return Fail(pre.error);
    }
    var centroid := CalculateCentroid(pre.value.points);
    if centroid.Failure? {
      return Fail(centroid.error);
    }
    ghost var before := drawing.elements;
    outcome := DrawModel(drawing, pre.value.bound, Offset(centroid.value), answerSet, title, renderAtomText);
    ghost var l := Layered(pre.value.bound, Offset(centroid.value), answerSet, title, renderAtomText);
    assert RenderedModel(reg, answerSet, title, scaling, renderAtomText) == Emission([Background] + l.prims, l.outcome);
    assert drawing.elements == before + l.prims;
    ConcatAssoc(start, [Background], l.prims);
  }

  // ---------------------------------------------------------------------
  // Properties of render_model

  /** When binding a token raises, only the background is drawn, and the
      pass ends with the error of the first token whose binding raises. */
  lemma TokenErrorStopsRender(reg: Registry, answerSet: string, title: string, scaling: int, renderAtomText: bool)
    ensures var tokens := ExtractAtoms(answerSet);
      var e := RenderedModel(reg, answerSet, title, scaling, renderAtomText);
      Preprocess(reg, tokens, scaling).Failure? ==>
        && e.prims == [Background]
        && exists k | 0 <= k < |tokens| ::
             && Bind(reg, tokens[k], scaling).Failure?
             && e.outcome == Fail(Bind(reg, tokens[k], scaling).error)
             && forall j | 0 <= j < k :: Bind(reg, tokens[j], scaling).Success?
  {
    PreprocessFirstError(reg, ExtractAtoms(answerSet), scaling);
  }

  /** When the token loop succeeds but the centroid cannot be taken, only
      the background is drawn: with no reference point the division by
      zero raises, and with a text coordinate the sum does. */
  lemma CentroidErrorStopsRender(reg: Registry, answerSet: string, title: string, scaling: int, renderAtomText: bool)
    ensures var pre := Preprocess(reg, ExtractAtoms(answerSet), scaling);
      var e := RenderedModel(reg, answerSet, title, scaling, renderAtomText);
      pre.Success? ==>
        && (pre.value.points == [] ==> e == Emission([Background], Fail(ZeroDivision)))
        && (!AllNumbers(Xs(pre.value.points)) || !AllNumbers(Ys(pre.value.points)) ==> e == Emission([Background], Fail(TypeError)))
  {
    var pre := Preprocess(reg, ExtractAtoms(answerSet), scaling);
    if pre.Success? {
      CentroidSpec(pre.value.points);
    }
  }

  /** After the centroid, the bound atoms are drawn in `get_order` order
      (a permutation of the token order, stable among equal orders), each
      shifted by the offset; the pass completes exactly when every one of
      them draws, and then the title follows, with the answer-set text last
      when asked for; otherwise it stops with the error of the first atom
      that does not draw. */
  lemma LayeredSpec(bound: seq<Bound>, adj: (real, real), answerSet: string, title: string, renderAtomText: bool)
    ensures var sorted := SortByOrder(bound);
      var l := Layered(bound, adj, answerSet, title, renderAtomText);
      && SortedByOrder(sorted) && multiset(sorted) == multiset(bound)
      && (forall o :: WithOrder(sorted, o) == WithOrder(bound, o))
      && (l.outcome == Pass <==>
            forall i | 0 <= i < |sorted| :: Draw(sorted[i].atom.kind, sorted[i].args, adj.0, adj.1).Success?)
      && (l.outcome == Pass ==>
            && |l.prims| == |sorted| + (if renderAtomText then 2 else 1)
            && (forall i | 0 <= i < |sorted| :: Draw(sorted[i].atom.kind, sorted[i].args, adj.0, adj.1) == Success(l.prims[i]))
            && l.prims[|sorted|] == TitleText(title)
            && (renderAtomText ==> l.prims[|sorted| + 1] == AtomText(answerSet)))
      && (l.outcome.Fail? ==>
            && |l.prims| < |sorted|
            && (forall i | 0 <= i < |l.prims| :: Draw(sorted[i].atom.kind, sorted[i].args, adj.0, adj.1) == Success(l.prims[i]))
            && Draw(sorted[|l.prims|].atom.kind, sorted[|l.prims|].args, adj.0, adj.1) == Failure(l.outcome.error))
  {
    SortByOrderSpec(bound);
    DrawAllSpec(SortByOrder(bound), adj.0, adj.1);
  }

  /** With no token mapped to an atom there is no reference point, so the
      pass draws the background and raises the division by zero. */
  lemma NothingMatchedDividesByZero(reg: Registry, answerSet: string, title: string, scaling: int, renderAtomText: bool)
    requires MatchedTokens(reg, ExtractAtoms(answerSet)) == []
    ensures RenderedModel(reg, answerSet, title, scaling, renderAtomText) == Emission([Background], Fail(ZeroDivision))
  {
    UnmatchedTokensIrrelevant(reg, ExtractAtoms(answerSet), scaling);
    CentroidSpec([]);
  }

  /** A bound atom of a shipped kind contributes at least one point. */
  lemma BoundHasPoints(reg: Registry, token: string, scaling: int)
    requires Bind(reg, token, scaling).Success? && Bind(reg, token, scaling).value.Some?
    ensures |BoundPoints(Bind(reg, token, scaling).value.value)| >= 1
  {
    var b := Bind(reg, token, scaling).value.value;
    BindSpec(reg, token, scaling);
    GetPointsShape(b.atom.kind, b.args);
  }

  lemma {:induction false} PointsOfEmpty(bs: seq<Bound>)
    requires forall i | 0 <= i < |bs| :: |BoundPoints(bs[i])| >= 1
    ensures PointsOf(bs) == [] <==> bs == []
    decreases |bs|
  {
    if bs != [] {
      assert |BoundPoints(bs[|bs| - 1])| >= 1;
    }
  }

  /** In a filed registry, the division by zero is raised exactly when no
      token is mapped to an atom. */
  lemma FiledZeroDivisionIffNothingMatched(reg: Registry, answerSet: string, title: string, scaling: int, renderAtomText: bool)
    requires Filed(reg)
    ensures RenderedModel(reg, answerSet, title, scaling, renderAtomText).outcome == Fail(ZeroDivision)
      <==> MatchedTokens(reg, ExtractAtoms(answerSet)) == []
  {
    var tokens := ExtractAtoms(answerSet);
    FiledPreprocessSucceeds(reg, tokens, scaling);
    PreprocessSpec(reg, tokens, scaling);
    var pre := Preprocess(reg, tokens, scaling).value;
    var matched := MatchedTokens(reg, tokens);
    forall i | 0 <= i < |pre.bound| ensures |BoundPoints(pre.bound[i])| >= 1 {
      BoundHasPoints(reg, matched[i], scaling);
    }
    PointsOfEmpty(pre.bound);
    AddPointsSpec([], PointsOf(pre.bound));
    assert pre.points == [] <==> PointsOf(pre.bound) == [] by {
      if PointsOf(pre.bound) != [] {
        assert PointsOf(pre.bound)[0] in pre.points;
      }
    }
    CentroidSpec(pre.points);
    if Centroid.Centroid(pre.points).Success? {
      var adj := Offset(Centroid.Centroid(pre.points).value);
      var l := Layered(pre.bound, adj, answerSet, title, renderAtomText);
      LayeredSpec(pre.bound, adj, answerSet, title, renderAtomText);
      if l.outcome.Fail? {
        var sorted := SortByOrder(pre.bound);
        DrawSpec(sorted[|l.prims|].atom.kind, sorted[|l.prims|].args, adj.0, adj.1);
      }
    }
  }

  /** The offset applied to every atom moves the mean of the collected
      reference points to the canvas centre. */
  lemma RenderCentres(reg: Registry, answerSet: string, scaling: int)
    ensures var pre := Preprocess(reg, ExtractAtoms(answerSet), scaling);
      pre.Success? && Centroid.Centroid(pre.value.points).Success? ==>
        var pts := pre.value.points;
        var adj := Offset(Centroid.Centroid(pts).value);
        && RealTotal(Shifted(Xs(pts), adj.0)) / |pts| as real == CentreX
        && RealTotal(Shifted(Ys(pts), adj.1)) / |pts| as real == CentreY
  {
    var pre := Preprocess(reg, ExtractAtoms(answerSet), scaling);
    if pre.Success? && Centroid.Centroid(pre.value.points).Success? {
      OffsetMovesToCentre(pre.value.points);
    }
  }

  lemma OffsetMovesToCentre(pts: seq<Point>)
    requires Centroid.Centroid(pts).Success?
    ensures var adj := Offset(Centroid.Centroid(pts).value);
      && RealTotal(Shifted(Xs(pts), adj.0)) / |pts| as real == CentreX
      && RealTotal(Shifted(Ys(pts), adj.1)) / |pts| as real == CentreY
  {
    OffsetCentres(pts, CentreX, CentreY);
  }

  /** The order in which the set of points is listed does not matter: any
      listing of the collected points without repeats has the same
      centroid. */
  lemma PointOrderIrrelevant(reg: Registry, answerSet: string, scaling: int, listing: seq<Point>)
    requires Preprocess(reg, ExtractAtoms(answerSet), scaling).Success?
    requires Distinct(listing)
    requires forall p :: p in listing <==> p in Preprocess(reg, ExtractAtoms(answerSet), scaling).value.points
    ensures Centroid.Centroid(listing) == Centroid.Centroid(Preprocess(reg, ExtractAtoms(answerSet), scaling).value.points)
  {
    var pts := Preprocess(reg, ExtractAtoms(answerSet), scaling).value.points;
    PointsAreDistinctUnion(reg, ExtractAtoms(answerSet), scaling);
    DistinctSameElements(listing, pts);
    CentroidPermutation(listing, pts);
  }

  /** Two repeat-free sequences with the same elements are permutations of
      each other. */
  lemma DistinctSameElements<T>(a: seq<T>, b: seq<T>)
    requires Distinct(a) && Distinct(b) && forall x :: x in a <==> x in b
    ensures multiset(a) == multiset(b)
  {
    forall x ensures multiset(a)[x] == multiset(b)[x] {
      DistinctCount(a, x);
      DistinctCount(b, x);
    }
  }

  lemma {:induction false} DistinctCount<T>(a: seq<T>, x: T)
    requires Distinct(a)
    ensures multiset(a)[x] == if x in a then 1 else 0
    decreases |a|
  {
    if a != [] {
      var init := a[..|a| - 1];
      assert a == init + [a[|a| - 1]];
      assert Distinct(init);
      assert a[|a| - 1] !in init;
      DistinctCount(init, x);
    }
  }

  /** The pass does not depend on the dict's key order. */
  lemma RenderIgnoresKeyOrder(r1: Registry, r2: Registry, answerSet: string, title: string, scaling: int, renderAtomText: bool)
    requires Filed(r1) && DistinctKeys(r1) && Filed(r2) && DistinctKeys(r2)
    requires forall e :: e in r1 <==> e in r2
    ensures RenderedModel(r1, answerSet, title, scaling, renderAtomText) == RenderedModel(r2, answerSet, title, scaling, renderAtomText)
  {
    PreprocessIgnoresKeyOrder(r1, r2, ExtractAtoms(answerSet), scaling);
  }
}
