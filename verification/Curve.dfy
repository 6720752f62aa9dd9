/** The focus curve (server/src/nocs/focus/curve.py). */
module Curve {
  import opened Common

  // A hyperbola fitted to the points. Reals stand for floats; the square root, the least
  // squares and the linear solver are parameters.

  ghost predicate IsSqrt(root: real -> real) {
    forall x {:trigger root(x)} :: x >= 0.0 ==> root(x) >= 0.0 && root(x) * root(x) == x
  }

  datatype Hyperbola = Hyperbola(a: real, b: real, c: real)

  function Value(h: Hyperbola, x: real, root: real -> real): real
    requires h.b != 0.0
  {
    h.a * root(1.0 + Square((x - h.c) / h.b))
  }

  function Square(x: real): real {
    x * x
  }

  function DistanceFor(h: Hyperbola, hfr: real, root: real -> real): real
    requires h.a != 0.0
  {
    var ratio := hfr / h.a;
    if ratio > 1.0 then h.b * root(ratio * ratio - 1.0) else 0.0
  }

  lemma RootUnique(x: real, y: real)
    requires x >= 0.0 && y >= 0.0 && x * x == y * y
    ensures x == y
  {
    if x < y {
      SquareGrows(x, y);
    } else if y < x {
      SquareGrows(y, x);
    }
  }

  lemma SquareGrows(x: real, y: real)
    requires 0.0 <= x < y
    ensures x * x < y * y
  {
    var d := y - x;
    assert x * d >= 0.0 && d * d > 0.0;
    assert y * y == x * x + 2.0 * (x * d) + d * d;
  }

  // A distance of b·q away from the focus the curve is as high as the root of 1 + q².
  lemma HeightAt(h: Hyperbola, s: real, d: real, q: real, ratio: real, root: real -> real)
    requires IsSqrt(root) && h.a > 0.0 && h.b > 0.0 && (s == 1.0 || s == -1.0)
    requires d == h.b * q && ratio >= 1.0 && q * q == ratio * ratio - 1.0
    ensures Value(h, h.c + s * d, root) == h.a * ratio
  {
    OffsetOverScale(h.c, s, h.b, q);
    var w := ((h.c + s * d) - h.c) / h.b;
    assert Square(w) == q * q;
    assert 1.0 + Square(w) == ratio * ratio >= 0.0 by { NotNegative(ratio); }
    var r := root(ratio * ratio);
    assert r >= 0.0 && r * r == ratio * ratio;
    RootUnique(r, ratio);
  }

  lemma NotNegative(x: real)
    ensures x * x >= 0.0
  {
  }

  // One step to the side of the focus that `s` (1 or -1) tells, the curve has exactly the
  // height asked for, at every height from its lowest one up; below it there is no distance.
  lemma ReachesHeight(h: Hyperbola, hfr: real, s: real, root: real -> real)
    requires IsSqrt(root) && h.a > 0.0 && h.b > 0.0 && (s == 1.0 || s == -1.0)
    ensures hfr >= h.a ==> Value(h, h.c + s * DistanceFor(h, hfr, root), root) == hfr
    ensures hfr <= h.a ==> DistanceFor(h, hfr, root) == 0.0
    ensures DistanceFor(h, hfr, root) >= 0.0
  {
    var ratio, d := hfr / h.a, DistanceFor(h, hfr, root);
    if hfr > h.a {
      RatioAboveOne(hfr, h.a);
      SquareAboveOne(ratio);
      ReachesAbove(h, s, d, root(ratio * ratio - 1.0), ratio, root);
    } else {
      RatioAtMostOne(hfr, h.a);
      Lowest(h, root);
      assert s * d == 0.0;
    }
  }

  lemma ReachesAbove(h: Hyperbola, s: real, d: real, q: real, ratio: real, root: real -> real)
    requires IsSqrt(root) && h.a > 0.0 && h.b > 0.0 && (s == 1.0 || s == -1.0)
    requires ratio * ratio - 1.0 >= 0.0 && ratio >= 1.0 && q == root(ratio * ratio - 1.0) && d == h.b * q
    ensures d >= 0.0 && Value(h, h.c + s * d, root) == h.a * ratio
  {
    HeightAt(h, s, d, q, ratio, root);
  }

  lemma Lowest(h: Hyperbola, root: real -> real)
    requires IsSqrt(root) && h.b > 0.0
    ensures Value(h, h.c, root) == h.a
  {
    assert Square((h.c - h.c) / h.b) == 0.0;
    assert root(1.0) >= 0.0 && root(1.0) * root(1.0) == 1.0 * 1.0;
    RootUnique(root(1.0), 1.0);
  }

  lemma RatioAboveOne(x: real, a: real)
    requires a > 0.0 && x > a
    ensures x / a > 1.0 && a * (x / a) == x
  {
    assert a * (x / a) == x;
  }

  lemma RatioAtMostOne(x: real, a: real)
    requires a > 0.0 && x <= a
    ensures x / a <= 1.0
    ensures a * (x / a) == x
  {
    assert a * (x / a) == x;
  }

  lemma SquareAboveOne(ratio: real)
    requires ratio > 1.0
    ensures ratio * ratio - 1.0 >= 0.0
  {
    assert (ratio - 1.0) * (ratio + 1.0) > 0.0;
  }

  lemma OffsetOverScale(c: real, s: real, b: real, q: real)
    requires b > 0.0 && (s == 1.0 || s == -1.0)
    ensures ((c + s * (b * q)) - c) / b == s * q
    ensures (s * q) * (s * q) == q * q
  {
    assert (c + s * (b * q)) - c == (s * q) * b;
    assert ((s * q) * b) / b == s * q;
  }

  // -- the first fit, from least squares on the squares -------------------------------------

  // `qa`, `qb`, `qc` solve y² = qa·u² + qb·u + qc in the least squares sense.
  function LinearFit(y: seq<real>, qa: real, qb: real, qc: real, root: real -> real): Option<Hyperbola>
    requires y != []
    requires qa > 0.0 ==> root(qa) != 0.0
  {
    if !(qa > 0.0) then None
    else
      var c := -qb / (2.0 * qa);
      var aSquared := qc - qb * qb / (4.0 * qa);
      var a := if aSquared > 0.0 then root(aSquared) else Smallest(y);
      Some(Hyperbola(a, a / root(qa), c))
  }

  lemma PositiveRoot(x: real, root: real -> real)
    requires IsSqrt(root) && x > 0.0
    ensures root(x) > 0.0
  {
    assert root(x) * root(x) == x;
  }

  // A first fit exists exactly for a parabola that opens upwards, and is a proper curve.
  lemma LinearFitPositive(y: seq<real>, qa: real, qb: real, qc: real, root: real -> real)
    requires IsSqrt(root) && y != [] && forall v :: v in y ==> v > 0.0
    ensures qa > 0.0 ==> root(qa) != 0.0
    ensures LinearFit(y, qa, qb, qc, root).Some? <==> qa > 0.0
    ensures qa > 0.0 ==> LinearFit(y, qa, qb, qc, root).value.a > 0.0 && LinearFit(y, qa, qb, qc, root).value.b > 0.0
  {
    if qa > 0.0 {
      PositiveRoot(qa, root);
      var aSquared := qc - qb * qb / (4.0 * qa);
      if aSquared > 0.0 {
        PositiveRoot(aSquared, root);
      }
      var f := LinearFit(y, qa, qb, qc, root).value;
      assert f.b * root(qa) == f.a;
    }
  }

  // The focus is at the parabola's lowest point and the arms rise as steeply as its own, also
  // where it dips below zero; there the curve starts from the lowest HFR.
  lemma LinearFitIs(y: seq<real>, qa: real, qb: real, qc: real, root: real -> real)
    requires IsSqrt(root) && y != [] && qa > 0.0 && root(qa) != 0.0
    ensures var f, lowest := LinearFit(y, qa, qb, qc, root).value, qc - qb * qb / (4.0 * qa);
            && 2.0 * qa * f.c + qb == 0.0 && f.b * root(qa) == f.a
            && (if lowest > 0.0 then f.a >= 0.0 && f.a * f.a == lowest else f.a in y && forall v :: v in y ==> f.a <= v)
  {
    var f := LinearFit(y, qa, qb, qc, root).value;
    assert f.c * (2.0 * qa) == -qb;
  }

  // Where the parabola stays above zero, its curve squares to it exactly.
  lemma LinearFitIsParabola(y: seq<real>, qa: real, qb: real, qc: real, root: real -> real, u: real)
    requires IsSqrt(root) && y != [] && qa > 0.0 && root(qa) != 0.0
    requires qc - qb * qb / (4.0 * qa) > 0.0 && root(qc - qb * qb / (4.0 * qa)) > 0.0 && root(qa) > 0.0
    ensures var f := LinearFit(y, qa, qb, qc, root).value;
            f.b != 0.0 && Value(f, u, root) * Value(f, u, root) == qa * u * u + qb * u + qc
  {
    var f := LinearFit(y, qa, qb, qc, root).value;
    var r := root(qa);
    assert f.b * r == f.a;
    var w := (u - f.c) / f.b;
    assert w * f.b == u - f.c;
    ParabolaOf(f.a, f.b, f.c, r, qa, qb, qc, u, w);
    var v := root(1.0 + w * w);
    assert 1.0 + w * w >= 0.0 by { assert w * w >= 0.0; }
    assert v * v == 1.0 + w * w;
    assert (f.a * v) * (f.a * v) == (f.a * f.a) * (v * v);
  }

  lemma ParabolaOf(a: real, b: real, c: real, r: real, qa: real, qb: real, qc: real, u: real, w: real)
    requires qa > 0.0 && r > 0.0 && r * r == qa && b * r == a && w * b == u - c
    requires c == -qb / (2.0 * qa) && a * a == qc - qb * qb / (4.0 * qa)
    ensures (a * a) * (1.0 + w * w) == qa * u * u + qb * u + qc
  {
    assert a * w == r * (u - c) by {
      assert a * w == (b * r) * w == r * (w * b);
    }
    assert (a * w) * (a * w) == (r * r) * ((u - c) * (u - c));
    assert (a * a) * (w * w) == (a * w) * (a * w);
    assert (a * a) * (1.0 + w * w) == a * a + (a * a) * (w * w);
    assert 2.0 * qa * c == -qb;
    SquareCompleted(qa, qb, qc, c, u);
  }

  lemma SquareCompleted(qa: real, qb: real, qc: real, c: real, u: real)
    requires qa > 0.0 && c == -qb / (2.0 * qa)
    ensures qc - qb * qb / (4.0 * qa) + qa * ((u - c) * (u - c)) == qa * u * u + qb * u + qc
  {
    assert 2.0 * qa * c == -qb;
    assert qb * qb / (4.0 * qa) == qa * (c * c) by {
      assert (2.0 * qa * c) * (2.0 * qa * c) == 4.0 * qa * (qa * (c * c));
      assert qb * qb == 4.0 * qa * (qa * (c * c));
    }
    assert (u - c) * (u - c) == u * u - 2.0 * (c * u) + c * c;
    assert qa * ((u - c) * (u - c)) == qa * (u * u) - 2.0 * qa * c * u + qa * (c * c);
  }

  // -- the refinement ---------------------------------------------------------------------------

  function Cost(h: Hyperbola, u: seq<real>, y: seq<real>, root: real -> real): real
    requires h.b != 0.0 && |u| == |y|
    decreases u
  {
    if u == [] then 0.0
    else
      var residual := y[0] - Value(h, u[0], root);
      residual * residual + Cost(h, u[1..], y[1..], root)
  }

  const ITERATIONS := 30
  // The damping is a power of ten: 10^-3 at first, tried while below 10^6.
  const FIRST_DAMPING := -3
  const LAST_DAMPING := 6

  predicate Proper(h: Hyperbola) {
    h.a > 0.0 && h.b > 0.0
  }

  // np.linalg.solve with this damping of the normal equations; None is LinAlgError.
  type Solver = (Hyperbola, int) -> Option<(real, real, real)>

  function Moved(h: Hyperbola, step: (real, real, real)): Hyperbola {
    Hyperbola(h.a + step.0, Common.Abs(h.b + step.1), h.c + step.2)
  }

  // The step with this damping gives a proper curve that fits better.
  predicate Improves(h: Hyperbola, damping: int, u: seq<real>, y: seq<real>, root: real -> real, solve: Solver)
    requires Proper(h) && |u| == |y|
  {
    && solve(h, damping).Some?
    && var next := Moved(h, solve(h, damping).value);
       Proper(next) && Cost(next, u, y, root) < Cost(h, u, y, root)
  }

  // The first damping from this one on that does, if any below the last.
  function FirstImproving(h: Hyperbola, damping: int, u: seq<real>, y: seq<real>, root: real -> real, solve: Solver): (d: int)
    requires Proper(h) && |u| == |y| && damping <= LAST_DAMPING
    ensures damping <= d <= LAST_DAMPING && (d < LAST_DAMPING ==> Improves(h, d, u, y, root, solve))
    ensures forall k :: damping <= k < d ==> !Improves(h, k, u, y, root, solve)
    decreases LAST_DAMPING - damping
  {
    if damping == LAST_DAMPING || Improves(h, damping, u, y, root, solve) then damping
    else FirstImproving(h, damping + 1, u, y, root, solve)
  }

  predicate Converged(cost: real, newCost: real) {
    cost - newCost < 0.000000000001 * MaxReal(cost, 0.000000000001)
  }

  // Where the refinement ends, with this damping and so many iterations left.
  function Refined(h: Hyperbola, damping: int, left: nat, u: seq<real>, y: seq<real>, root: real -> real, solve: Solver): Hyperbola
    requires Proper(h) && |u| == |y| && damping <= LAST_DAMPING
    decreases left
  {
    var d := FirstImproving(h, damping, u, y, root, solve);
    if left == 0 || d == LAST_DAMPING then h
    else
      var next := Moved(h, solve(h, d).value);
      if Converged(Cost(h, u, y, root), Cost(next, u, y, root)) then next
      else Refined(next, d - 1, left - 1, u, y, root, solve)
  }

  lemma RefinedStep(h: Hyperbola, damping: int, left: nat, u: seq<real>, y: seq<real>, root: real -> real, solve: Solver, d: int)
    requires Proper(h) && |u| == |y| && damping <= LAST_DAMPING && left > 0
    requires d == FirstImproving(h, damping, u, y, root, solve)
    ensures d == LAST_DAMPING ==> Refined(h, damping, left, u, y, root, solve) == h
    ensures d < LAST_DAMPING ==>
              var next := Moved(h, solve(h, d).value);
              && Proper(next)
              && Refined(h, damping, left, u, y, root, solve)
                 == if Converged(Cost(h, u, y, root), Cost(next, u, y, root)) then next
                    else Refined(next, d - 1, left - 1, u, y, root, solve)
  {
  }

  // It never gets worse, and gives up the curve it has only if no damping left improves it.
  lemma {:induction false} RefinedImproves(
      h: Hyperbola, damping: int, left: nat, u: seq<real>, y: seq<real>, root: real -> real, solve: Solver)
    requires Proper(h) && |u| == |y| && damping <= LAST_DAMPING
    ensures var r := Refined(h, damping, left, u, y, root, solve);
            && Proper(r) && (r == h || Cost(r, u, y, root) < Cost(h, u, y, root))
            && (r == h <==> left == 0 || forall d :: damping <= d < LAST_DAMPING ==> !Improves(h, d, u, y, root, solve))
    decreases left
  {
    var d := FirstImproving(h, damping, u, y, root, solve);
    if left > 0 && d < LAST_DAMPING {
      var next := Moved(h, solve(h, d).value);
      if !Converged(Cost(h, u, y, root), Cost(next, u, y, root)) {
        RefinedImproves(next, d - 1, left - 1, u, y, root, solve);
      }
    }
  }

  ghost predicate PassesThrough(h: Hyperbola, u: seq<real>, y: seq<real>, root: real -> real)
    requires h.b != 0.0 && |u| == |y|
  {
    forall i :: 0 <= i < |u| ==> Value(h, u[i], root) == y[i]
  }

  // No curve costs less than one through all the points, and only those cost nothing.
  lemma {:induction false} CostZeroIff(h: Hyperbola, u: seq<real>, y: seq<real>, root: real -> real)
    requires h.b != 0.0 && |u| == |y|
    ensures Cost(h, u, y, root) >= 0.0
    ensures Cost(h, u, y, root) == 0.0 <==> PassesThrough(h, u, y, root)
    decreases u
  {
    if u != [] {
      CostZeroIff(h, u[1..], y[1..], root);
      var residual := y[0] - Value(h, u[0], root);
      var square, rest := residual * residual, Cost(h, u[1..], y[1..], root);
      SquareZeroIff(residual, square);
      FirstAndRest(h, u, y, root);
      assert Cost(h, u, y, root) == square + rest;
      assert square + rest == 0.0 <==> square == 0.0 && rest == 0.0;
    }
  }

  lemma MirroredSquare(x: real)
    ensures (-x) * (-x) == x * x
  {
  }

  lemma SquareZeroIff(x: real, square: real)
    requires square == x * x
    ensures square >= 0.0 && (square == 0.0 <==> x == 0.0)
  {
    if x > 0.0 {
      SquareGrows(0.0, x);
    } else if x < 0.0 {
      SquareGrows(0.0, -x);
      MirroredSquare(x);
    }
  }

  lemma FirstAndRest(h: Hyperbola, u: seq<real>, y: seq<real>, root: real -> real)
    requires h.b != 0.0 && |u| == |y| && u != []
    ensures PassesThrough(h, u, y, root) <==> Value(h, u[0], root) == y[0] && PassesThrough(h, u[1..], y[1..], root)
  {
    if Value(h, u[0], root) == y[0] && PassesThrough(h, u[1..], y[1..], root) {
      forall i | 0 <= i < |u| ensures Value(h, u[i], root) == y[i] {
        if i > 0 { assert u[1..][i - 1] == u[i] && y[1..][i - 1] == y[i]; }
      }
    }
    if PassesThrough(h, u, y, root) {
      forall i | 0 <= i < |u[1..]| ensures Value(h, u[1..][i], root) == y[1..][i] {
        assert u[1..][i] == u[i + 1] && y[1..][i] == y[i + 1];
      }
    }
  }

  // The step that leads from one curve to another, or to its mirror image.
  ghost predicate Leads(step: (real, real, real), h: Hyperbola, next: Hyperbola) {
    && step.0 == next.a - h.a && step.2 == next.c - h.c
    && (step.1 == next.b - h.b || step.1 == -next.b - h.b)
  }

  lemma LeadsThere(h: Hyperbola, next: Hyperbola, step: (real, real, real))
    requires Proper(next) && Leads(step, h, next)
    ensures Moved(h, step) == next
  {
  }

  // With this damping the solver's step leads there, to a proper curve that costs less.
  ghost predicate StepTaken(h: Hyperbola, next: Hyperbola, d: int, u: seq<real>, y: seq<real>, root: real -> real, solve: Solver)
    requires |u| == |y|
  {
    && Proper(h) && next.a > 0.0 && next.b > 0.0 && Cost(next, u, y, root) < Cost(h, u, y, root)
    && solve(h, d).Some? && Leads(solve(h, d).value, h, next)
  }

  lemma ImprovesIff(h: Hyperbola, d: int, u: seq<real>, y: seq<real>, root: real -> real, solve: Solver)
    requires Proper(h) && |u| == |y|
    ensures Improves(h, d, u, y, root, solve) <==> exists next :: StepTaken(h, next, d, u, y, root, solve)
  {
    if Improves(h, d, u, y, root, solve) {
      assert StepTaken(h, Moved(h, solve(h, d).value), d, u, y, root, solve);
    }
    if next :| StepTaken(h, next, d, u, y, root, solve) {
      LeadsThere(h, next, solve(h, d).value);
    }
  }

  // None of these dampings has a step to take (ImprovesIff).
  ghost predicate NoneTaken(h: Hyperbola, first: int, last: int, u: seq<real>, y: seq<real>, root: real -> real, solve: Solver)
    requires Proper(h) && |u| == |y|
  {
    forall d :: first <= d < last ==> !Improves(h, d, u, y, root, solve)
  }

  // A gain of less than a millionth of a millionth.
  ghost predicate SmallGain(h: Hyperbola, next: Hyperbola, u: seq<real>, y: seq<real>, root: real -> real)
    requires h.b != 0.0 && next.b != 0.0 && |u| == |y|
  {
    var cost := Cost(h, u, y, root);
    (cost - Cost(next, u, y, root)) * 1000000000000.0 < (if cost > 0.000000000001 then cost else 0.000000000001)
  }

  lemma GainIs(cost: real, newCost: real)
    ensures Converged(cost, newCost) <==>
              (cost - newCost) * 1000000000000.0 < (if cost > 0.000000000001 then cost else 0.000000000001)
  {
  }

  lemma SmallGainIs(h: Hyperbola, next: Hyperbola, u: seq<real>, y: seq<real>, root: real -> real)
    requires h.b != 0.0 && next.b != 0.0 && |u| == |y|
    ensures SmallGain(h, next, u, y, root) <==> Converged(Cost(h, u, y, root), Cost(next, u, y, root))
  {
    GainIs(Cost(h, u, y, root), Cost(next, u, y, root));
  }

  // A walk from curve to curve that ends at `r`, with the damping of each step: the least that
  // has a step to take, from the first one on, and then from a tenth of the one before. It ends
  // after a small gain, after the most steps there may be, or with no step left to take.
  ghost predicate Walk(
      way: seq<Hyperbola>, dampings: seq<int>, first: int, most: nat, r: Hyperbola,
      u: seq<real>, y: seq<real>, root: real -> real, solve: Solver)
    requires |u| == |y|
    decreases dampings
  {
    way != [] && Proper(way[0]) && (
      if dampings == [] then way == [r] && (most == 0 || NoneTaken(r, first, LAST_DAMPING, u, y, root, solve))
      else
        && most > 0 && |way| > 1 && first <= dampings[0] < LAST_DAMPING
        && StepTaken(way[0], way[1], dampings[0], u, y, root, solve)
        && NoneTaken(way[0], first, dampings[0], u, y, root, solve)
        && if SmallGain(way[0], way[1], u, y, root) then way[1..] == [r] && |dampings| == 1
           else Walk(way[1..], dampings[1..], dampings[0] - 1, most - 1, r, u, y, root, solve))
  }

  lemma StepsMore(
      h: Hyperbola, r: Hyperbola, way: seq<Hyperbola>, dampings: seq<int>, d: int, first: int, most: nat,
      u: seq<real>, y: seq<real>, root: real -> real, solve: Solver)
    requires |u| == |y| && first <= d < LAST_DAMPING && most > 0 && way != []
    requires StepTaken(h, way[0], d, u, y, root, solve) && NoneTaken(h, first, d, u, y, root, solve)
    requires if SmallGain(h, way[0], u, y, root) then way == [r] && dampings == []
             else Walk(way, dampings, d - 1, most - 1, r, u, y, root, solve)
    ensures Walk([h] + way, [d] + dampings, first, most, r, u, y, root, solve)
  {
    TailOf(h, way);
    TailOf(d, dampings);
  }

  // The refinement is such a walk.
  lemma {:induction false} RefinedWalks(
      h: Hyperbola, damping: int, left: nat, u: seq<real>, y: seq<real>, root: real -> real, solve: Solver)
      returns (way: seq<Hyperbola>, dampings: seq<int>)
    requires Proper(h) && |u| == |y| && damping <= LAST_DAMPING
    ensures way != [] && way[0] == h
    ensures Walk(way, dampings, damping, left, Refined(h, damping, left, u, y, root, solve), u, y, root, solve)
    decreases left
  {
    var d := FirstImproving(h, damping, u, y, root, solve);
    if left == 0 || d == LAST_DAMPING {
      way, dampings := [h], [];
    } else {
      var next := Moved(h, solve(h, d).value);
      RefinedStep(h, damping, left, u, y, root, solve, d);
      SmallGainIs(h, next, u, y, root);
      var rest, more := [next], [];
      if !SmallGain(h, next, u, y, root) {
        rest, more := RefinedWalks(next, d - 1, left - 1, u, y, root, solve);
      }
      StepsMore(h, Refined(h, damping, left, u, y, root, solve), rest, more, d, damping, left, u, y, root, solve);
      way, dampings := [h] + rest, [d] + more;
    }
  }

  // A curve through all the points is not left.
  lemma ExactStays(h: Hyperbola, damping: int, left: nat, u: seq<real>, y: seq<real>, root: real -> real, solve: Solver)
    requires Proper(h) && |u| == |y| && damping <= LAST_DAMPING && PassesThrough(h, u, y, root)
    ensures Refined(h, damping, left, u, y, root, solve) == h
  {
    CostZeroIff(h, u, y, root);
    RefinedImproves(h, damping, left, u, y, root, solve);
    CostZeroIff(Refined(h, damping, left, u, y, root, solve), u, y, root);
  }

  // If the first step the solver gives leads to a curve through all the points, that is the
  // result, unless the curve there was goes through them too.
  lemma ExactStepTaken(h: Hyperbola, next: Hyperbola, damping: int, left: nat, u: seq<real>, y: seq<real>, root: real -> real, solve: Solver)
    requires Proper(h) && Proper(next) && |u| == |y| && damping < LAST_DAMPING && left > 0
    requires PassesThrough(next, u, y, root) && !PassesThrough(h, u, y, root)
    requires solve(h, damping).Some? && Leads(solve(h, damping).value, h, next)
    ensures Refined(h, damping, left, u, y, root, solve) == next
  {
    LeadsThere(h, next, solve(h, damping).value);
    CostZeroIff(h, u, y, root);
    CostZeroIff(next, u, y, root);
    assert Improves(h, damping, u, y, root, solve);
    RefinedStep(h, damping, left, u, y, root, solve, damping);
    ExactStays(next, damping - 1, left - 1, u, y, root, solve);
  }

  // Whatever steps the solver gives (or refuses), the refinement ends within a fixed number of
  // solves, where `Refined` says (RefinedImproves): with a proper curve that fits no worse than
  // the one it started from, which it returns exactly if no damping improves that one.
  method Refine(u: seq<real>, y: seq<real>, start: Hyperbola, root: real -> real, solve: Solver)
    returns (h: Hyperbola, solves: nat)
    requires Proper(start) && |u| == |y|
    ensures h == Refined(start, FIRST_DAMPING, ITERATIONS, u, y, root, solve)
    ensures Proper(h) && Cost(h, u, y, root) <= Cost(start, u, y, root)
    ensures h == start <==> forall d :: FIRST_DAMPING <= d < LAST_DAMPING ==> !Improves(start, d, u, y, root, solve)
    ensures solves <= LAST_DAMPING - FIRST_DAMPING + 2 * ITERATIONS
  {
    RefinedImproves(start, FIRST_DAMPING, ITERATIONS, u, y, root, solve);
    h, solves := RefineSteps(u, y, start, FIRST_DAMPING, ITERATIONS, root, solve);
  }

  method RefineSteps(u: seq<real>, y: seq<real>, start: Hyperbola, first: int, iterations: nat, root: real -> real, solve: Solver)
    returns (h: Hyperbola, solves: nat)
    requires Proper(start) && |u| == |y| && first <= LAST_DAMPING
    ensures h == Refined(start, first, iterations, u, y, root, solve)
    ensures solves <= LAST_DAMPING - first + 2 * iterations
  {
    h, solves := start, 0;
    var cost := Cost(h, u, y, root);
    var damping := first;
    ghost var steps := 0;
    ghost var whole := Refined(start, first, iterations, u, y, root, solve);
    for iteration := 0 to iterations
      invariant Proper(h) && cost == Cost(h, u, y, root) && damping <= LAST_DAMPING
      invariant Refined(h, damping, iterations - iteration, u, y, root, solve) == whole
      invariant steps <= iteration && solves == damping - first + 2 * steps
    {
      var improved, converged, next, newCost, tries;
      improved, converged, next, newCost, damping, tries := RefineOnce(h, cost, damping, u, y, root, solve, iterations - iteration);
      solves := solves + tries;
      if !improved {
        break;
      }
      steps := steps + 1;
      h, cost := next, newCost;
      if converged {
        break;
      }
    }
  }

  // One step, if any damping gives one, and what is left to do after it.
  method RefineOnce(h: Hyperbola, cost: real, first: int, u: seq<real>, y: seq<real>, root: real -> real, solve: Solver, ghost left: nat)
    returns (improved: bool, converged: bool, next: Hyperbola, newCost: real, damping: int, tries: nat)
    requires Proper(h) && |u| == |y| && cost == Cost(h, u, y, root) && first <= LAST_DAMPING && left > 0
    ensures damping <= LAST_DAMPING && tries == damping - first + (if improved then 2 else 0)
    ensures improved ==> Proper(next) && newCost == Cost(next, u, y, root)
    ensures Refined(h, first, left, u, y, root, solve)
         == if !improved then h else if converged then next else Refined(next, damping, left - 1, u, y, root, solve)
  {
    ghost var d := FirstImproving(h, first, u, y, root, solve);
    RefinedStep(h, first, left, u, y, root, solve, d);
    improved, next, newCost, damping, tries := TryDampings(h, cost, first, u, y, root, solve, d);
    converged := improved && Converged(cost, newCost);
  }

  // The inner loop: ever more damping until a step improves the curve.
  method TryDampings(h: Hyperbola, cost: real, first: int, u: seq<real>, y: seq<real>, root: real -> real, solve: Solver, ghost d: int)
    returns (improved: bool, next: Hyperbola, newCost: real, damping: int, tries: nat)
    requires Proper(h) && |u| == |y| && cost == Cost(h, u, y, root) && first <= LAST_DAMPING
    requires d == FirstImproving(h, first, u, y, root, solve)
    ensures if d == LAST_DAMPING then !improved && tries == d - first && damping == d
            else
              && improved && tries == d - first + 1 && damping == d - 1
              && next == Moved(h, solve(h, d).value) && newCost == Cost(next, u, y, root)
  {
    improved, next, newCost, damping, tries := false, h, cost, first, 0;
    while damping < LAST_DAMPING
      invariant first <= damping <= LAST_DAMPING && tries == damping - first
      invariant FirstImproving(h, damping, u, y, root, solve) == d
      decreases LAST_DAMPING - damping
    {
      var step := solve(h, damping);
      tries := tries + 1;
      if step.Some? {
        next := Moved(h, step.value);
        if Proper(next) {
          newCost := Cost(next, u, y, root);
          if newCost < cost {
            improved, damping := true, damping - 1;
            return;
          }
        }
      }
      damping := damping + 1;
    }
  }

  // -- the whole fit ---------------------------------------------------------------------------------

  // The curve in focuser steps of one in scaled positions has the same heights at them.
  lemma ScalesBack(h: Hyperbola, origin: real, span: real, x: real, root: real -> real)
    requires Proper(h) && span > 0.0
    ensures var wide := Hyperbola(h.a, h.b * span, h.c * span + origin);
            && Proper(wide)
            && Value(wide, x, root) == Value(h, (x - origin) / span, root)
  {
    var wide := Hyperbola(h.a, h.b * span, h.c * span + origin);
    assert h.b * span > 0.0;
    var t := (x - origin) / span;
    assert t * span == x - origin;
    var offset := t - h.c;
    assert x - wide.c == t * span - h.c * span == offset * span;
    SameRatio(offset, h.b, span);
    var q := offset / h.b;
    assert (x - wide.c) / wide.b == q;
  }

  lemma SameRatio(p: real, q: real, s: real)
    requires q > 0.0 && s > 0.0
    ensures q * s > 0.0 && (p * s) / (q * s) == p / q
  {
    var r := p / q;
    assert r * q == p;
    assert r * (q * s) == p * s;
  }
}
