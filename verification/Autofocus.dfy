/** The autofocus run. */
module Autofocus {
  import opened Common
  import opened Sweep
  import Gears = Backlash

  // Sweep, extend until the curve turns, fit, move and check
  // (server/src/nocs/focus/autofocus.py).

  datatype Options = Options(
    step: int, points: int, direction: Direction, overshoot: Option<int>, extension: int, criteria: Criteria,
    worse: real, maximum: Option<int>)

  // A position's frames, measured; the position is the focuser's.
  datatype Measure = Measure(hfr: Option<real>, stars: int)

  datatype Outcome =
    | Focused(best: int)
    | GaveUp(problem: Problem, overshoot: Option<int>)
    | Invalid(error: SweepError)
    | Broken  // a move failed

  // An overshoot left open is one step.
  function Approaching(o: Options): Gears.Approaching {
    Gears.Approaching(o.direction, if o.overshoot.Some? then o.overshoot.value else o.step, o.maximum)
  }

  function Planned(start: int, o: Options): Result<seq<int>, SweepError> {
    SweepPositions(start, o.step, o.points, o.direction, o.maximum)
  }

  lemma PlannedMarches(start: int, o: Options, p: seq<int>)
    requires Planned(start, o) == Ok(p)
    ensures o.step > 0 && |p| == o.points && p != [] && Marches(p, o.step, o.direction)
    ensures forall t :: t in p ==> InTravel(t, o.maximum)
  {
    SweepFits(start, o.step, o.points, o.direction, o.maximum);
  }

  predicate HasStars(m: Measure, criteria: Criteria) {
    m.hfr.Some? && m.stars >= criteria.minStars
  }

  // -- the points of a run -------------------------------------------------------------------

  // What the frames of the nth position show; the first frame is number 0.
  type Frames = (nat, int) -> Measure

  // The points of these positions, in the order taken.
  function Measured(visited: seq<int>, measure: Frames): (r: seq<Point>)
    ensures |r| == |visited|
    ensures forall i :: 0 <= i < |r| ==> r[i] == PointAt(visited[i], measure(i + 1, visited[i]))
  {
    seq(|visited|, i requires 0 <= i < |visited| => PointAt(visited[i], measure(i + 1, visited[i])))
  }

  function PointAt(position: int, m: Measure): Point {
    Point(position, m.hfr, m.stars)
  }

  // As the run keeps them: each is put where it belongs by position.
  function Taken(visited: seq<int>, measure: Frames): (r: seq<Point>)
    ensures |r| == |visited|
  {
    if visited == [] then []
    else
      var n := |visited| - 1;
      InsertPoint(Taken(visited[..n], measure), PointAt(visited[n], measure(n + 1, visited[n])))
  }

  lemma TakenStep(visited: seq<int>, next: int, measure: Frames)
    ensures Taken(visited + [next], measure)
         == InsertPoint(Taken(visited, measure), PointAt(next, measure(|visited| + 1, next)))
  {
    assert (visited + [next])[..|visited|] == visited;
  }

  // That is all of them, sorted.
  lemma {:induction false} TakenSorts(visited: seq<int>, measure: Frames)
    ensures Taken(visited, measure) == SortPoints(Measured(visited, measure))
  {
    if visited != [] {
      var n := |visited| - 1;
      TakenSorts(visited[..n], measure);
      assert Measured(visited, measure)[..n] == Measured(visited[..n], measure);
    }
  }

  // The points lie `step` apart from `low` on, in order.
  ghost predicate Progression(points: seq<Point>, low: int, step: int) {
    forall i :: 0 <= i < |points| ==> points[i].position == low + i * step
  }

  lemma {:induction false} InsertAtEnd(points: seq<Point>, p: Point)
    requires forall q :: q in points ==> q.position <= p.position
    ensures InsertPoint(points, p) == points + [p]
  {
    if points != [] {
      InsertAtEnd(points[1..], p);
      assert points == [points[0]] + points[1..];
    }
  }

  lemma AddAbove(points: seq<Point>, low: int, step: int, p: Point)
    requires step > 0 && Progression(points, low, step) && p.position == low + |points| * step
    ensures InsertPoint(points, p) == points + [p]
    ensures Progression(InsertPoint(points, p), low, step)
  {
    forall q | q in points ensures q.position <= p.position {
      var i :| 0 <= i < |points| && points[i] == q;
      StepsBetween(step, i, |points|);
    }
    InsertAtEnd(points, p);
  }

  lemma AddBelow(points: seq<Point>, low: int, step: int, p: Point)
    requires step > 0 && Progression(points, low, step) && p.position == low - step
    ensures InsertPoint(points, p) == [p] + points
    ensures Progression(InsertPoint(points, p), low - step, step)
  {
    forall i | 0 <= i < |points| + 1 ensures ([p] + points)[i].position == low - step + i * step {
      NextStep(step, i, 0);
    }
  }

  lemma EndsOf(points: seq<Point>, low: int, step: int)
    requires step > 0 && points != [] && Progression(points, low, step)
    ensures Edge(Positions(points), Inward) == low
    ensures Edge(Positions(points), Outward) == low + (|points| - 1) * step
    ensures forall p :: p in points ==> low <= p.position <= low + (|points| - 1) * step
  {
    var positions := Positions(points);
    forall i | 0 <= i < |points| ensures low <= positions[i] <= low + (|points| - 1) * step {
      StepsBetween(step, i, |points| - 1);
    }
    EdgeIsExtreme(positions, Inward);
    EdgeIsExtreme(positions, Outward);
    assert positions[0] in positions && positions[|points| - 1] in positions;
  }

  // -- the order they are judged in --------------------------------------------------------------

  // One more position, and its point.
  lemma MeasuredStep(visited: seq<int>, measure: Frames) returns (before: seq<int>, p: Point)
    requires visited != []
    ensures before == visited[..|visited| - 1] && p == PointAt(visited[|visited| - 1], measure(|visited|, visited[|visited| - 1]))
    ensures Measured(visited, measure) == Measured(before, measure) + [p]
    ensures Taken(visited, measure) == InsertPoint(Taken(before, measure), p)
  {
    var n := |visited| - 1;
    before, p := visited[..n], PointAt(visited[n], measure(n + 1, visited[n]));
    assert visited == before + [visited[n]];
    TakenStep(before, visited[n], measure);
  }

  // An outward sweep is judged in the order taken.
  lemma {:induction false} OutwardOrder(visited: seq<int>, measure: Frames, step: int)
    requires visited != [] && step > 0 && Marches(visited, step, Outward)
    ensures Taken(visited, measure) == Measured(visited, measure)
    ensures Progression(Taken(visited, measure), visited[0], step)
    decreases visited
  {
    var before, p := MeasuredStep(visited, measure);
    if before == [] {
      assert Measured(before, measure) == [] && Taken(before, measure) == [];
    } else {
      OutwardOrder(before, measure, step);
      MarchAt(visited, step, Outward, |before|);
      AddAbove(Taken(before, measure), visited[0], step, p);
    }
  }

  // An inward one from its far end, where its last points are.
  lemma {:induction false} InwardOrder(visited: seq<int>, measure: Frames, step: int)
    requires visited != [] && step > 0 && Marches(visited, step, Inward)
    ensures Taken(visited, measure) == Backwards(Measured(visited, measure))
    ensures Progression(Taken(visited, measure), visited[|visited| - 1], step)
    decreases visited
  {
    var before, p := MeasuredStep(visited, measure);
    if before == [] {
      assert Measured(before, measure) == [] && Taken(before, measure) == [];
    } else {
      var last := visited[|visited| - 1];
      InwardOrder(before, measure, step);
      assert before[|before| - 1] == last + step;
      AddBelow(Taken(before, measure), last + step, step, p);
      BackwardsStep(Measured(before, measure), p);
    }
  }

  lemma JudgedOrder(visited: seq<int>, measure: Frames, step: int, direction: Direction) returns (low: int)
    requires visited != [] && step > 0 && Marches(visited, step, direction)
    ensures Taken(visited, measure)
         == if direction == Outward then Measured(visited, measure) else Backwards(Measured(visited, measure))
    ensures Progression(Taken(visited, measure), low, step)
  {
    if direction == Outward {
      OutwardOrder(visited, measure, step);
      low := visited[0];
    } else {
      InwardOrder(visited, measure, step);
      low := visited[|visited| - 1];
    }
  }

  function Backwards(points: seq<Point>): (r: seq<Point>)
    ensures |r| == |points| && forall i :: 0 <= i < |r| ==> r[i] == points[|points| - 1 - i]
  {
    seq(|points|, i requires 0 <= i < |points| => points[|points| - 1 - i])
  }

  lemma BackwardsStep(points: seq<Point>, p: Point)
    ensures Backwards(points + [p]) == [p] + Backwards(points)
  {
  }

  lemma {:induction false} MarchAt(p: seq<int>, step: int, direction: Direction, i: nat)
    requires Marches(p, step, direction) && i < |p|
    ensures p[i] == p[0] + Sign(direction) * (i * step)
  {
    if i > 0 {
      MarchAt(p, step, direction, i - 1);
      NextStep(step, i, 0);
    }
  }

  // A sweep moving inward with its first four points at one HFR.
  const INWARD_SWEEP: seq<int> := seq(6, i => 700 - 100 * i)

  function StuckAtFirst(n: nat, position: int): Measure {
    Measure(Some(if position >= 400 then 8.0 else if position == 300 then 5.0 else 2.0), 50)
  }

  // In the order taken that is a plateau, but the points are judged from the other end.
  lemma InwardPlateauUnseen()
    ensures Marches(INWARD_SWEEP, 100, Inward)
    ensures FindPlateau(Measured(INWARD_SWEEP, StuckAtFirst), DEFAULT_CRITERIA).Some?
    ensures FindPlateau(Taken(INWARD_SWEEP, StuckAtFirst), DEFAULT_CRITERIA) == None
  {
    var points := Measured(INWARD_SWEEP, StuckAtFirst);
    InwardOrder(INWARD_SWEEP, StuckAtFirst, 100);
    PlateauOfFour(points);
    NoPlateauAt(Backwards(points));
  }

  lemma PlateauOfFour(points: seq<Point>)
    requires |points| == 6 && forall i :: 0 <= i < 6 ==> points[i].stars == 50
    requires forall i :: 0 <= i < 6 ==> points[i].hfr == Some(if i <= 3 then 8.0 else if i == 4 then 5.0 else 2.0)
    ensures FindPlateau(points, DEFAULT_CRITERIA).Some?
  {
    PlateauOfAll(points, DEFAULT_CRITERIA);
    FlatFour(Hfrs(points));
    PlateauFound(points, DEFAULT_CRITERIA, 4);
  }

  lemma FlatFour(hfrs: seq<real>)
    requires |hfrs| == 6 && forall i :: 0 <= i < 6 ==> hfrs[i] == if i <= 3 then 8.0 else if i == 4 then 5.0 else 2.0
    ensures FlatCount(hfrs, 0.08, 1) == 4 && Steepens(hfrs, 4)
  {
    FlatCountExact(hfrs, 0.08, 1);
    var after := hfrs[3..Min(7, |hfrs|)];
    assert after == [8.0, 5.0, 2.0] && after[1..] == [5.0, 2.0] && after[1..][1..] == [2.0];
    assert Changes(after) == 3.0 + Changes(after[1..]) == 6.0;
    TimesIs(0.0, 2);
    TimesIs(PLATEAU_CONTRAST * 6.0, 3);
  }

  lemma NoPlateauAt(points: seq<Point>)
    requires |points| == 6 && forall i :: 0 <= i < 6 ==> points[i].hfr.Some? && points[i].stars == 50
    requires points[0].hfr == Some(2.0) && points[1].hfr == Some(5.0)
    ensures FindPlateau(points, DEFAULT_CRITERIA) == None
  {
    PlateauOfAll(points, DEFAULT_CRITERIA);
    FlatCountExact(Hfrs(points), 0.08, 1);
    if FindPlateau(points, DEFAULT_CRITERIA).Some? {
      PlateauMeans(points, DEFAULT_CRITERIA);
    }
  }

  // -- the verdict on them -------------------------------------------------------------------------

  // The position a step beyond the points on one side.
  function NextOut(points: seq<Point>, side: Direction, o: Options): int
    requires points != []
  {
    Edge(Positions(points), side) + Sign(side) * o.step
  }

  // A side is open while the budget and the travel allow a point there.
  predicate Open(points: seq<Point>, side: Direction, left: int, o: Options)
    requires points != []
  {
    left > 0 && InTravel(NextOut(points, side, o), o.maximum)
  }

  function OpenSides(points: seq<Point>, inward: int, outward: int, o: Options): set<Direction>
    requires points != []
  {
    (if Open(points, Inward, inward, o) then {Inward} else {}) + (if Open(points, Outward, outward, o) then {Outward} else {})
  }

  // assess, as far as the run depends on it: a verdict on points, with the sides that are open.
  type Judge = (seq<Point>, set<Direction>) -> Verdict

  // It tells one of three: points to add on an open side, a fit whose focus lies among the
  // points, or a problem.
  ghost predicate Decides(judge: Judge) {
    forall points: seq<Point>, sides: set<Direction> :: Decided(points, sides, judge(points, sides))
  }

  ghost predicate Decided(points: seq<Point>, sides: set<Direction>, v: Verdict) {
    && (v.extend.Some? ==> v.extend.value in sides && v.fit == None)
    && (v.fit.Some? ==> exists a, b :: a in points && b in points && a.position as real <= v.fit.value.c <= b.position as real)
    && (v.fit == None && v.extend == None ==> v.problem.Some? && v.problem.value !in {NoStars, Worse})
  }

  function Assessing(criteria: Criteria, fitter: seq<Point> -> Option<Fit>): Judge
    requires Workable(criteria)
  {
    (points, sides) => Assess(points, criteria, sides, fitter)
  }

  lemma AssessingDecides(criteria: Criteria, fitter: seq<Point> -> Option<Fit>)
    requires Workable(criteria)
    ensures Decides(Assessing(criteria, fitter))
  {
    forall points: seq<Point>, sides: set<Direction> ensures Decided(points, sides, Assessing(criteria, fitter)(points, sides)) {
      AssessDecides(points, criteria, sides, fitter);
      if Assess(points, criteria, sides, fitter).fit.Some? {
        var a, b := FitLiesWithin(points, criteria, sides, fitter);
      }
    }
  }

  function Judged(points: seq<Point>, inward: int, outward: int, o: Options, judge: Judge): Verdict
    requires points != []
  {
    judge(points, OpenSides(points, inward, outward, o))
  }

  lemma OneBeyond(points: seq<Point>, side: Direction, o: Options)
    requires points != []
    ensures Beyond(Edge(Positions(points), side), side, o.step, 1, 1, o.maximum)
         == if InTravel(NextOut(points, side, o), o.maximum) then [NextOut(points, side, o)] else []
  {
    var edge := Edge(Positions(points), side);
    BeyondStep(edge, side, o.step, 1, 1, o.maximum, NextOut(points, side, o));
    assert Beyond(edge, side, o.step, 2, 1, o.maximum) == [];
  }

  // -- the run when no move fails ---------------------------------------------------------------------

  // The positions whose frames it takes before it ends, and the verdict that ends it.
  datatype Sweeping = Sweeping(visited: seq<int>, verdict: Verdict)

  ghost function Turned(
      visited: seq<int>, inward: int, outward: int, o: Options, measure: Frames, judge: Judge)
    : (r: Sweeping)
    requires Decides(judge) && visited != []
    ensures r.verdict.extend == None
    ensures r.verdict.fit == None ==> r.verdict.problem.Some? && r.verdict.problem.value !in {NoStars, Worse}
    decreases Max(0, inward) + Max(0, outward)
  {
    var points := Taken(visited, measure);
    var v := Judged(points, inward, outward, o, judge);
    if v.extend == None then Sweeping(visited, v)
    else
      var side := v.extend.value;
      Turned(visited + [NextOut(points, side, o)], inward - (if side == Inward then 1 else 0),
             outward - (if side == Outward then 1 else 0), o, measure, judge)
  }

  lemma {:induction false} TurnedGoesOn(visited: seq<int>, inward: int, outward: int, o: Options, measure: Frames, judge: Judge)
    requires Decides(judge) && visited != []
    ensures visited <= Turned(visited, inward, outward, o, measure, judge).visited
    decreases Max(0, inward) + Max(0, outward)
  {
    var points := Taken(visited, measure);
    var v := Judged(points, inward, outward, o, judge);
    if v.extend.Some? {
      var below := if v.extend == Some(Inward) then 1 else 0;
      TurnedGoesOn(visited + [NextOut(points, v.extend.value, o)], inward - below, outward - (1 - below), o, measure, judge);
    }
  }

  lemma TurnedStep(
      visited: seq<int>, inward: int, outward: int, o: Options, measure: Frames, judge: Judge,
      v: Verdict, added: seq<int>)
    requires Decides(judge) && visited != [] && v == Judged(Taken(visited, measure), inward, outward, o, judge)
    requires added == if v.extend.Some? then [NextOut(Taken(visited, measure), v.extend.value, o)] else []
    ensures Turned(visited, inward, outward, o, measure, judge)
         == if v.extend == None then Sweeping(visited, v)
            else Turned(visited + added, inward - (if v.extend == Some(Inward) then 1 else 0),
                        outward - (if v.extend == Some(Outward) then 1 else 0), o, measure, judge)
    ensures v.extend.Some? ==>
              && (if v.extend == Some(Inward) then inward else outward) > 0 && v.fit == None
              && InTravel(NextOut(Taken(visited, measure), v.extend.value, o), o.maximum)
  {
  }

  ghost function SweptUntilTurned(start: int, o: Options, measure: Frames, judge: Judge): (r: Sweeping)
    requires Decides(judge) && Planned(start, o).Ok?
    ensures Planned(start, o).value <= r.visited && r.verdict.extend == None
    ensures r.verdict.fit == None ==> r.verdict.problem.Some? && r.verdict.problem.value !in {NoStars, Worse}
  {
    PlannedMarches(start, o, Planned(start, o).value);
    TurnedGoesOn(Planned(start, o).value, o.extension, o.extension, o, measure, judge);
    Turned(Planned(start, o).value, o.extension, o.extension, o, measure, judge)
  }

  // How a verdict ends the sweeps: a fit leaves the end to the last frame.
  function Conclusion(v: Verdict): Option<Outcome>
    requires v.fit == None ==> v.problem.Some?
  {
    if v.fit.Some? then None else Some(GaveUp(v.problem.value, v.overshoot))
  }

  // At most so many positions inside the travel, whose points are one even progression.
  ghost predicate Even(visited: seq<int>, low: int, most: int, o: Options, measure: Frames) {
    && 0 < |visited| <= most && (forall t :: t in visited ==> InTravel(t, o.maximum))
    && Progression(Taken(visited, measure), low, o.step)
  }

  // So many steps.
  function Steps(k: nat, step: int): int {
    if k == 0 then 0 else Steps(k - 1, step) + step
  }

  lemma {:induction false} StepsIs(k: nat, step: int)
    ensures Steps(k, step) == k * step
  {
    if k > 0 {
      StepsIs(k - 1, step);
      NextStep(step, k, 0);
    }
  }

  // What was spent of the budgets, neither overdrawn, is the points added at either end.
  ghost predicate Spent(count: nat, low: int, inward: int, outward: int, count': nat, low': int, inner: int, outer: int, step: int) {
    && Min(inward, 0) <= inner <= inward && Min(outward, 0) <= outer <= outward
    && low' == low - Steps(inward - inner, step) && count' == count + (inward - inner) + (outward - outer)
  }

  lemma SpentOne(count: nat, low: int, inward: int, outward: int, inner: int, outer: int, count': nat, low': int, inner': int, outer': int, step: int)
    requires (inner == inward - 1 && outer == outward && inward > 0) || (inner == inward && outer == outward - 1 && outward > 0)
    requires Spent(count + 1, if inner < inward then low - step else low, inner, outer, count', low', inner', outer', step)
    ensures Spent(count, low, inward, outward, count', low', inner', outer', step)
  {
  }

  // What is visited is an even progression, one point for each turn of the loop at most; the
  // verdict is on it, with what is left of the budgets.
  lemma {:induction false} TurnedKeeps(
      visited: seq<int>, low: int, inward: int, outward: int, most: int, o: Options, measure: Frames, judge: Judge)
      returns (lowest: int, inner: int, outer: int)
    requires Decides(judge) && o.step > 0 && |visited| + Max(0, inward) + Max(0, outward) <= most
    requires Even(visited, low, most, o, measure)
    ensures var r := Turned(visited, inward, outward, o, measure, judge);
            && Even(r.visited, lowest, most, o, measure)
            && r.verdict == Judged(Taken(r.visited, measure), inner, outer, o, judge)
            && Spent(|visited|, low, inward, outward, |r.visited|, lowest, inner, outer, o.step)
    decreases Max(0, inward) + Max(0, outward)
  {
    var points := Taken(visited, measure);
    var v := Judged(points, inward, outward, o, judge);
    if v.extend == None {
      TurnedStep(visited, inward, outward, o, measure, judge, v, []);
      lowest, inner, outer := low, inward, outward;
    } else {
      var next := NextOut(points, v.extend.value, o);
      TurnedStep(visited, inward, outward, o, measure, judge, v, [next]);
      var lower := OneMore(visited, low, v.extend.value, most, o, measure);
      var less := if v.extend == Some(Inward) then inward - 1 else inward;
      var fewer := if v.extend == Some(Outward) then outward - 1 else outward;
      var r := Turned(visited + [next], less, fewer, o, measure, judge);
      lowest, inner, outer := TurnedKeeps(visited + [next], lower, less, fewer, most, o, measure, judge);
      SpentOne(|visited|, low, inward, outward, less, fewer, |r.visited|, lowest, inner, outer, o.step);
    }
  }

  lemma OneMore(visited: seq<int>, low: int, side: Direction, most: int, o: Options, measure: Frames)
    returns (lower: int)
    requires o.step > 0 && Even(visited, low, most, o, measure) && |visited| < most
    requires InTravel(NextOut(Taken(visited, measure), side, o), o.maximum)
    ensures lower == if side == Inward then low - o.step else low
    ensures Even(visited + [NextOut(Taken(visited, measure), side, o)], lower, most, o, measure)
  {
    var points := Taken(visited, measure);
    var next := NextOut(points, side, o);
    EndsOf(points, low, o.step);
    TakenStep(visited, next, measure);
    var p := PointAt(next, measure(|visited| + 1, next));
    if side == Outward {
      NextStep(o.step, |points|, 0);
      AddAbove(points, low, o.step, p);
      lower := low;
    } else {
      AddBelow(points, low, o.step, p);
      lower := low - o.step;
    }
  }

  // The loop of sweeps always ends, after at most one sweep and one more point for each the
  // budgets allow, with a fit whose focus lies among the points or with a named problem. The
  // points are one even progression inside the travel, the planned ones visited first.
  lemma RunEnds(start: int, o: Options, measure: Frames, judge: Judge, p: seq<int>, r: Sweeping) returns (low: int)
    requires Decides(judge) && Planned(start, o) == Ok(p) && r == SweptUntilTurned(start, o, measure, judge)
    ensures p <= r.visited && Even(r.visited, low, o.points + 2 * Max(0, o.extension), o, measure)
    ensures o.step > 0 && FitOrProblem(r.verdict, low, low + (|r.visited| - 1) * o.step)
  {
    PlannedMarches(start, o, p);
    low := SweepEnds(p, o, measure, judge, r);
  }

  lemma BudgetsOf(p: seq<int>, o: Options, measure: Frames, judge: Judge, r: Sweeping)
    returns (planned: int, low: int, inner: int, outer: int)
    requires Decides(judge) && p != [] && |p| == o.points && o.step > 0 && Marches(p, o.step, o.direction)
    requires forall t :: t in p ==> InTravel(t, o.maximum)
    requires r == Turned(p, o.extension, o.extension, o, measure, judge)
    ensures Progression(Taken(p, measure), planned, o.step)
    ensures Even(r.visited, low, o.points + 2 * Max(0, o.extension), o, measure)
    ensures Spent(o.points, planned, o.extension, o.extension, |r.visited|, low, inner, outer, o.step)
    ensures r.verdict == Judged(Taken(r.visited, measure), inner, outer, o, judge)
  {
    planned := JudgedOrder(p, measure, o.step, o.direction);
    low, inner, outer := TurnedKeeps(p, planned, o.extension, o.extension, o.points + 2 * Max(0, o.extension), o, measure, judge);
  }

  lemma SweepEnds(p: seq<int>, o: Options, measure: Frames, judge: Judge, r: Sweeping) returns (low: int)
    requires Decides(judge) && p != [] && |p| == o.points && o.step > 0 && Marches(p, o.step, o.direction)
    requires forall t :: t in p ==> InTravel(t, o.maximum)
    requires r == Turned(p, o.extension, o.extension, o, measure, judge)
    ensures Even(r.visited, low, o.points + 2 * Max(0, o.extension), o, measure)
    ensures FitOrProblem(r.verdict, low, low + (|r.visited| - 1) * o.step)
  {
    var planned, i, j;
    planned, low, i, j := BudgetsOf(p, o, measure, judge, r);
    JudgedBetween(r.visited, low, i, j, o, measure, judge);
  }

  ghost predicate FitOrProblem(v: Verdict, low: int, high: int) {
    && (v.fit.Some? ==> low as real <= v.fit.value.c <= high as real)
    && (v.fit == None && v.extend == None ==> v.problem.Some? && v.problem.value !in {NoStars, Worse})
  }

  lemma JudgedBetween(visited: seq<int>, low: int, inward: int, outward: int, o: Options, measure: Frames, judge: Judge)
    requires Decides(judge) && o.step > 0 && visited != [] && Progression(Taken(visited, measure), low, o.step)
    ensures FitOrProblem(Judged(Taken(visited, measure), inward, outward, o, judge), low, low + (|visited| - 1) * o.step)
  {
    var points := Taken(visited, measure);
    assert Decided(points, OpenSides(points, inward, outward, o), Judged(points, inward, outward, o, judge));
    if Judged(points, inward, outward, o, judge).fit.Some? {
      FitBetween(points, low, inward, outward, o, judge);
    }
  }

  lemma FitBetween(points: seq<Point>, low: int, inward: int, outward: int, o: Options, judge: Judge)
    requires Decides(judge) && o.step > 0 && points != [] && Progression(points, low, o.step)
    requires Judged(points, inward, outward, o, judge).fit.Some?
    ensures var c := Judged(points, inward, outward, o, judge).fit.value.c;
            low as real <= c <= (low + (|points| - 1) * o.step) as real
  {
    assert Decided(points, OpenSides(points, inward, outward, o), Judged(points, inward, outward, o, judge));
    EndsOf(points, low, o.step);
    Between(points, low, low + (|points| - 1) * o.step, Judged(points, inward, outward, o, judge).fit.value.c);
  }

  lemma Between(points: seq<Point>, low: int, high: int, c: real)
    requires forall p :: p in points ==> low <= p.position <= high
    requires exists a, b :: a in points && b in points && a.position as real <= c <= b.position as real
    ensures low as real <= c <= high as real
  {
  }

  // -- where points are added --------------------------------------------------------------------------

  // One step beyond the outermost of the positions on that side.
  ghost predicate StepBeyond(next: int, positions: seq<int>, side: Direction, step: int) {
    if side == Inward then next + step in positions && forall t :: t in positions ==> next + step <= t
    else next - step in positions && forall t :: t in positions ==> t <= next - step
  }

  lemma NextIsBeyond(points: seq<Point>, side: Direction, o: Options)
    requires points != []
    ensures StepBeyond(NextOut(points, side, o), Positions(points), side, o.step)
  {
    EdgeIsExtreme(Positions(points), side);
  }

  // The positions of the points taken are those visited.
  lemma TakenPositions(visited: seq<int>, measure: Frames)
    ensures forall t :: t in Positions(Taken(visited, measure)) <==> t in visited
  {
    var all := Measured(visited, measure);
    var points := Taken(visited, measure);
    TakenSorts(visited, measure);
    SortPointsSorts(all);
    forall t ensures t in Positions(points) <==> t in visited {
      if t in Positions(points) {
        var i :| 0 <= i < |points| && Positions(points)[i] == t;
        assert points[i] in all;
      }
      if t in visited {
        var i :| 0 <= i < |visited| && visited[i] == t;
        assert all[i] in multiset(all) && all[i] in points;
        var k :| 0 <= k < |points| && points[k] == all[i];
        assert Positions(points)[k] == t;
      }
    }
  }

  // The judge asked for the point on that side, of the points there were, with some sides open.
  ghost predicate AskedFor(visited: seq<int>, next: int, side: Direction, sides: set<Direction>, o: Options, measure: Frames, judge: Judge) {
    side in sides && judge(Taken(visited, measure), sides).extend == Some(side) && StepBeyond(next, visited, side, o.step)
  }

  lemma AddedNext(visited: seq<int>, inward: int, outward: int, o: Options, measure: Frames, judge: Judge, side: Direction)
    requires Decides(judge) && visited != [] && Judged(Taken(visited, measure), inward, outward, o, judge).extend == Some(side)
    ensures var points := Taken(visited, measure);
            AskedFor(visited, NextOut(points, side, o), side, OpenSides(points, inward, outward, o), o, measure, judge)
  {
    var points := Taken(visited, measure);
    var sides := OpenSides(points, inward, outward, o);
    assert Decided(points, sides, judge(points, sides));
    NextIsBeyond(points, side, o);
    TakenPositions(visited, measure);
  }

  // Every position after the planned ones is one step beyond those before it, on the side where
  // the judge asked for more.
  lemma {:induction false} AddedWhereAsked(
      visited: seq<int>, inward: int, outward: int, o: Options, measure: Frames, judge: Judge, r: Sweeping, k: nat)
    returns (side: Direction, sides: set<Direction>)
    requires Decides(judge) && visited != [] && r == Turned(visited, inward, outward, o, measure, judge)
    requires |visited| <= k < |r.visited|
    ensures AskedFor(r.visited[..k], r.visited[k], side, sides, o, measure, judge)
    decreases Max(0, inward) + Max(0, outward)
  {
    var points := Taken(visited, measure);
    var v := Judged(points, inward, outward, o, judge);
    if v.extend == None {
      TurnedStep(visited, inward, outward, o, measure, judge, v, []);
      assert false;
    }
    side := v.extend.value;
    var next := NextOut(points, side, o);
    TurnedStep(visited, inward, outward, o, measure, judge, v, [next]);
    var less := if side == Inward then inward - 1 else inward;
    var fewer := if side == Outward then outward - 1 else outward;
    TurnedGoesOn(visited + [next], less, fewer, o, measure, judge);
    if k == |visited| {
      sides := OpenSides(points, inward, outward, o);
      AddedNext(visited, inward, outward, o, measure, judge, side);
      assert r.visited[..k] == visited && r.visited[k] == next;
    } else {
      side, sides := AddedWhereAsked(visited + [next], less, fewer, o, measure, judge, r, k);
    }
  }

  lemma AddedInRun(start: int, o: Options, measure: Frames, judge: Judge, p: seq<int>, r: Sweeping, k: nat)
    returns (side: Direction, sides: set<Direction>)
    requires Decides(judge) && Planned(start, o) == Ok(p) && r == SweptUntilTurned(start, o, measure, judge)
    requires |p| <= k < |r.visited|
    ensures p <= r.visited && AskedFor(r.visited[..k], r.visited[k], side, sides, o, measure, judge)
  {
    PlannedMarches(start, o, p);
    side, sides := AddedWhereAsked(p, o.extension, o.extension, o, measure, judge, r, k);
  }

  // -- when it gives up because the curve does not turn -----------------------------------------------

  // On that side no point may be added: the budget is spent, or the next one lies outside the
  // travel. The planned points go from `planned` on.
  ghost predicate Closed(side: Direction, planned: int, low: int, high: int, o: Options) {
    if side == Inward then low == planned - Max(0, o.extension) * o.step || !InTravel(low - o.step, o.maximum)
    else high == planned + (o.points - 1) * o.step + Max(0, o.extension) * o.step || !InTravel(high + o.step, o.maximum)
  }

  lemma HighIs(points: nat, more: int, extra: int, planned: int, low: int, count: int, step: int)
    requires more >= 0 && count == points + more + extra && low == planned - Steps(more, step)
    ensures low + (count - 1) * step == planned + (points - 1) * step + extra * step
  {
    StepsIs(more, step);
    assert (count - 1) * step == (points - 1) * step + more * step + extra * step;
  }

  lemma ClosedAt(points: seq<Point>, side: Direction, planned: int, low: int, high: int, inner: int, outer: int, o: Options)
    requires o.step > 0 && points != [] && Progression(points, low, o.step) && !Open(points, side, if side == Inward then inner else outer, o)
    requires o.points >= 0 && Spent(o.points, planned, o.extension, o.extension, |points|, low, inner, outer, o.step)
    requires high == low + Steps(|points| - 1, o.step)
    ensures Closed(side, planned, low, high, o)
  {
    EndsOf(points, low, o.step);
    StepsIs(|points| - 1, o.step);
    HighIs(o.points, o.extension - inner, o.extension - outer, planned, low, |points|, o.step);
    StepsIs(Max(0, o.extension), o.step);
  }

  // The lowest HFR among the points that count.
  lemma SomeLowest(usable: seq<Point>) returns (i: nat)
    requires usable != [] && forall p :: p in usable ==> p.hfr.Some?
    ensures LowestAt(usable, i)
  {
    var hfrs := Hfrs(usable);
    i := IndexOf(hfrs, Smallest(hfrs));
    forall k | 0 <= k < i ensures usable[i].hfr.value < usable[k].hfr.value {
      assert hfrs[..i][k] == hfrs[k] && hfrs[k] in hfrs;
    }
    forall k | 0 <= k < |usable| ensures usable[i].hfr.value <= usable[k].hfr.value {
      assert hfrs[k] in hfrs;
    }
  }

  lemma ClosedBeside(points: seq<Point>, usable: seq<Point>, i: nat, planned: int, low: int, high: int, inner: int, outer: int, o: Options)
    requires points != [] && high == low + Steps(|points| - 1, o.step) && o.step > 0 && points != [] && Progression(points, low, o.step) && i < |usable|
    requires o.points >= 0 && Spent(o.points, planned, o.extension, o.extension, |points|, low, inner, outer, o.step)
    requires if i < o.criteria.minSidePoints then !Open(points, Inward, inner, o)
             else |usable| - 1 - i < o.criteria.minSidePoints && !Open(points, Outward, outer, o)
    ensures ShortSideClosed(usable, i, planned, low, high, o)
  {
    ClosedAt(points, if i < o.criteria.minSidePoints then Inward else Outward, planned, low, high, inner, outer, o);
  }

  // Fewer points than needed lie on a side of the lowest HFR where none may be added any more.
  ghost predicate ShortSideClosed(usable: seq<Point>, i: nat, planned: int, low: int, high: int, o: Options) {
    || (i < o.criteria.minSidePoints && Closed(Inward, planned, low, high, o))
    || (|usable| - 1 - i < o.criteria.minSidePoints && Closed(Outward, planned, low, high, o))
  }

  // The points taken, from `low` to `high`, and those of them that count: on the short side of the
  // lowest HFR none may be added.
  ghost predicate NoMoreBeside(points: seq<Point>, planned: int, low: int, high: int, usable: seq<Point>, i: nat, o: Options) {
    && points != [] && Progression(points, low, o.step) && high == low + Steps(|points| - 1, o.step)
    && Counted(usable, points, o.criteria) && LowestAt(usable, i) && ShortSideClosed(usable, i, planned, low, high, o)
  }

  lemma GivesUpAt(points: seq<Point>, planned: int, low: int, inner: int, outer: int, o: Options, fitter: seq<Point> -> Option<Fit>)
    returns (high: int, usable: seq<Point>, i: nat)
    requires Workable(o.criteria) && o.step > 0 && points != [] && Progression(points, low, o.step)
    requires Judged(points, inner, outer, o, Assessing(o.criteria, fitter)).problem == Some(NotTurning)
    requires o.points >= 0 && Spent(o.points, planned, o.extension, o.extension, |points|, low, inner, outer, o.step)
    ensures NoMoreBeside(points, planned, low, high, usable, i, o)
  {
    high := low + Steps(|points| - 1, o.step);
    usable, i := NotTurningAt(points, inner, outer, o, fitter);
    ClosedBeside(points, usable, i, planned, low, high, inner, outer, o);
  }

  // A run gives up because the curve does not turn only then.
  lemma NotTurningMeans(
      start: int, o: Options, measure: Frames, fitter: seq<Point> -> Option<Fit>, judge: Judge, p: seq<int>, r: Sweeping)
    returns (planned: int, low: int, high: int, usable: seq<Point>, i: nat)
    requires Workable(o.criteria) && Decides(judge) && judge == Assessing(o.criteria, fitter)
    requires Planned(start, o) == Ok(p) && r == SweptUntilTurned(start, o, measure, judge)
    requires r.verdict.problem == Some(NotTurning)
    ensures Progression(Taken(p, measure), planned, o.step)
    ensures NoMoreBeside(Taken(r.visited, measure), planned, low, high, usable, i, o)
  {
    PlannedMarches(start, o, p);
    var inner, outer;
    planned, low, inner, outer := BudgetsOf(p, o, measure, judge, r);
    high, usable, i := GivesUpAt(Taken(r.visited, measure), planned, low, inner, outer, o, fitter);
  }

  lemma NotTurningAt(points: seq<Point>, inner: int, outer: int, o: Options, fitter: seq<Point> -> Option<Fit>) returns (usable: seq<Point>, i: nat)
    requires Workable(o.criteria) && points != []
    requires Judged(points, inner, outer, o, Assessing(o.criteria, fitter)).problem == Some(NotTurning)
    ensures Counted(usable, points, o.criteria) && LowestAt(usable, i)
    ensures if i < o.criteria.minSidePoints then !Open(points, Inward, inner, o)
            else |usable| - 1 - i < o.criteria.minSidePoints && !Open(points, Outward, outer, o)
  {
    usable := SortPoints(Filter(points, o.criteria));
    InOrderCounted(points, o.criteria);
    TooFewIff(points, o.criteria, OpenSides(points, inner, outer, o), fitter, usable);
    i := SomeLowest(usable);
    AssessIs(points, o.criteria, OpenSides(points, inner, outer, o), fitter, usable, i);
  }

  // Where the focuser goes, frame by frame, and how that ends.
  function Route(r: Sweeping): seq<int> {
    r.visited + (if r.verdict.fit.Some? then [Round(r.verdict.fit.value.c)] else [])
  }

  // The last frame is good: it has stars, and is not larger than the limit.
  predicate Good(last: Measure, limit: real, criteria: Criteria) {
    HasStars(last, criteria) && last.hfr.value <= limit
  }

  function Limit(first: Measure, o: Options): real
    requires first.hfr.Some?
  {
    first.hfr.value * (1.0 + o.worse)
  }

  function Ending(r: Sweeping, limit: real, o: Options, measure: Frames): Outcome
    requires r.verdict.fit == None ==> r.verdict.problem.Some?
  {
    if r.verdict.fit.Some? then
      var best := Round(r.verdict.fit.value.c);
      if Good(measure(|r.visited| + 1, best), limit, o.criteria) then Focused(best) else GaveUp(Worse, None)
    else Conclusion(r.verdict).value
  }

  // How a run without failures ends, and where: with a fit, at the position nearest to it, focused
  // exactly if the last frame has stars enough and its HFR is above the first one's by no more
  // than the part allowed; else worse. Without one, with the verdict's problem.
  lemma EndingIs(r: Sweeping, first: Measure, o: Options, measure: Frames)
    requires (r.verdict.fit == None ==> r.verdict.problem.Some?) && first.hfr.Some?
    ensures var ending, route := Ending(r, Limit(first, o), o, measure), Route(r);
            if r.verdict.fit == None then ending == GaveUp(r.verdict.problem.value, r.verdict.overshoot) && route == r.visited
            else
              && |route| == |r.visited| + 1 && r.visited <= route
              && var best := route[|r.visited|];
                 var last := measure(|route|, best);
                 && -0.5 <= best as real - r.verdict.fit.value.c <= 0.5
                 && ending == (if last.hfr.Some? && last.stars >= o.criteria.minStars
                                  && last.hfr.value - first.hfr.value <= o.worse * first.hfr.value
                               then Focused(best) else GaveUp(Worse, None))
  {
    if r.verdict.fit.Some? {
      RoundNearest(r.verdict.fit.value.c);
      WorseBy(first.hfr.value, o.worse);
    }
  }

  lemma WorseBy(hfr: real, worse: real)
    ensures hfr * (1.0 + worse) == hfr + worse * hfr
  {
  }

  lemma RoundWithin(c: real, a: int, b: int)
    requires a as real <= c <= b as real
    ensures a <= Round(c) <= b
  {
  }

  lemma BetweenInTravel(points: seq<Point>, low: int, step: int, best: int, maximum: Option<int>)
    requires step > 0 && points != [] && Progression(points, low, step) && low <= best <= low + (|points| - 1) * step
    requires forall p :: p in points ==> InTravel(p.position, maximum)
    ensures InTravel(best, maximum)
  {
    assert points[0] in points && points[|points| - 1] in points;
    assert points[0].position == low + 0 * step;
  }

  lemma TakenIn(visited: seq<int>, measure: Frames, maximum: Option<int>)
    requires forall t :: t in visited ==> InTravel(t, maximum)
    ensures forall p :: p in Taken(visited, measure) ==> p.position in visited && InTravel(p.position, maximum)
  {
    var all := Measured(visited, measure);
    TakenSorts(visited, measure);
    SortPointsSorts(all);
    forall p | p in Taken(visited, measure) ensures p.position in visited {
      assert p in all;
    }
  }

  // Every run whose moves arrive ends at a focus between its points or with a named problem,
  // and no move of it leaves the travel.
  lemma RouteKeeps(start: int, o: Options, measure: Frames, judge: Judge, limit: real) returns (low: int)
    requires Decides(judge) && Planned(start, o).Ok?
    ensures var r := SweptUntilTurned(start, o, measure, judge);
            var points, route, ending := Taken(r.visited, measure), Route(r), Ending(r, limit, o, measure);
            && Planned(start, o).value <= r.visited <= route && |route| <= o.points + 2 * Max(0, o.extension) + 1
            && (forall t :: t in route ==> InTravel(t, o.maximum))
            && (forall m :: m in Gears.Trip(start, route, Approaching(o)) ==> InTravel(m, o.maximum))
            && Progression(points, low, o.step)
            && (ending.Focused? || (ending.GaveUp? && ending.problem != NoStars))
            && (ending.Focused? ==> ending.best == route[|route| - 1] && low <= ending.best <= low + (|points| - 1) * o.step)
  {
    var r := SweptUntilTurned(start, o, measure, judge);
    low := RunEnds(start, o, measure, judge, Planned(start, o).value, r);
    if r.verdict.fit.Some? {
      var points := Taken(r.visited, measure);
      RoundWithin(r.verdict.fit.value.c, low, low + (|points| - 1) * o.step);
      TakenIn(r.visited, measure, o.maximum);
      BetweenInTravel(points, low, o.step, Round(r.verdict.fit.value.c), o.maximum);
    }
    Gears.TripInTravel(start, Route(r), Approaching(o));
  }

  // The gear's slack is behind the motor at every point of a run and at its best focus, from
  // whatever it was at the start: exactly when the sweep's first point is not where the run
  // starts and has room for the overshoot, if all the positions after the sweep have it too.
  lemma RunTakesUp(start: int, o: Options, measure: Frames, judge: Judge, slack: real, p: seq<int>, route: seq<int>)
    requires Decides(judge) && Planned(start, o) == Ok(p) && route == Route(SweptUntilTurned(start, o, measure, judge))
    requires slack > 0.0 && InTravel(start, o.maximum)
    requires forall i :: |p| <= i < |route| ==> Gears.Room(route[i], Approaching(o), slack)
    ensures p != []
    ensures (forall lag :: 0.0 <= lag <= slack ==> Gears.AllEngaged(Gears.Gear(start, lag), route, Approaching(o), slack))
      <==> p[0] != start && Gears.Room(p[0], Approaching(o), slack)
  {
    var low := RouteKeeps(start, o, measure, judge, 0.0);
    var more := route[|p|..];
    assert route == p + more;
    forall t | t in more ensures InTravel(t, o.maximum) && Gears.Room(t, Approaching(o), slack) {
      var i :| 0 <= i < |more| && more[i] == t;
      assert route[|p| + i] == t;
    }
    Gears.RunTakesUp(start, o.step, o.points, Approaching(o), more, slack);
  }

  // -- the run ---------------------------------------------------------------------------------------

  // The first `n` of the motor's moves get where they should.
  ghost predicate Arrive(arrives: nat -> bool, n: nat) {
    forall k: nat :: k < n ==> arrives(k)
  }

  // The moves are those for `targets`, and all arrived.
  ghost predicate Made(start: int, targets: seq<int>, a: Gears.Approaching, moves: seq<int>, arrives: nat -> bool) {
    moves == Gears.Trip(start, targets, a) && Arrive(arrives, |moves|)
  }

  // They are those for `targets` up to one that did not arrive.
  ghost predicate BrokeOff(start: int, targets: seq<int>, a: Gears.Approaching, moves: seq<int>, arrives: nat -> bool) {
    moves < Gears.Trip(start, targets, a) && Arrive(arrives, |moves|) && !arrives(|moves|)
  }

  lemma BrokeOffEarlier(start: int, targets: seq<int>, more: seq<int>, a: Gears.Approaching, moves: seq<int>, arrives: nat -> bool)
    requires BrokeOff(start, targets, a, moves, arrives) && targets <= more
    ensures BrokeOff(start, more, a, moves, arrives)
  {
    assert more == targets + more[|targets|..];
    Gears.TripSplit(start, targets, more[|targets|..], a);
  }

  lemma StepTowards(first: seq<int>, queue: seq<int>, i: nat)
    requires i < |queue|
    ensures (first + queue[..i]) + [queue[i]] == first + queue[..i + 1]
    ensures (first + queue[..i]) + [queue[i]] <= first + queue && first <= first + queue[..i] < first + queue
  {
    TakeStep(queue, i);
    SplitAt(queue, i);
  }

  class Run {
    const options: Options
    const startPosition: int
    var position: int
    var points: seq<Point>
    var fit: Option<Fit>
    var moves: seq<int>    // all the motor's moves
    var visited: seq<int>  // the positions whose frames were taken

    constructor (options: Options, startPosition: int)
      ensures this.options == options && this.startPosition == startPosition && position == startPosition
      ensures points == [] && fit == None && moves == [] && visited == []
    {
      this.options, this.startPosition, position := options, startPosition, startPosition;
      points, fit, moves, visited := [], None, [], [];
    }

    // All the moves so far were made for the positions visited, and arrived.
    ghost predicate Here(arrives: nat -> bool)
      reads this
    {
      position == Gears.Last(startPosition, visited) && Made(startPosition, visited, Approaching(options), moves, arrives)
    }

    // The moves so far are those for `targets` up to one that did not arrive.
    ghost predicate Stuck(targets: seq<int>, arrives: nat -> bool)
      reads this
    {
      BrokeOff(startPosition, targets, Approaching(options), moves, arrives)
    }

    // `arrives` says of the nth move whether the focuser gets there.
    method MoveTo(target: int, arrives: nat -> bool) returns (ok: bool)
      requires Here(arrives)
      modifies this`position, this`moves
      ensures ok ==> position == target && Made(startPosition, visited + [target], Approaching(options), moves, arrives)
      ensures !ok ==> Stuck(visited + [target], arrives)
    {
      var a := Approaching(options);
      var path := Approach(position, target, a.direction, a.overshoot, a.maximum);
      ghost var trip := moves;
      Gears.TripStep(startPosition, visited, target, a);
      for i := 0 to |path|
        invariant moves == trip + path[..i] && Arrive(arrives, |moves|)
        invariant i > 0 ==> position == path[i - 1]
      {
        StepTowards(trip, path, i);
        if !arrives(|moves|) {
          return false;
        }
        moves := moves + [path[i]];
        position := path[i];
      }
      TakeAll(path);
      return true;
    }

    // One point: there, and its frames.
    method TakePoint(target: int, arrives: nat -> bool, measure: Frames) returns (ok: bool)
      requires Here(arrives) && points == Taken(visited, measure)
      modifies this`position, this`moves, this`points, this`visited
      ensures points == Taken(visited, measure) && fit == old(fit)
      ensures ok ==> Here(arrives) && visited == old(visited) + [target]
      ensures !ok ==> Stuck(visited + [target], arrives) && visited == old(visited)
    {
      ok := MoveTo(target, arrives);
      if ok {
        var p := PointAt(target, measure(|visited| + 1, target));
        TakenStep(visited, target, measure);
        points, visited := InsertPoint(points, p), visited + [target];
      }
    }

    // Takes the queue's points, up to a move that fails.
    method TakePoints(queue: seq<int>, arrives: nat -> bool, measure: Frames) returns (ok: bool)
      requires Here(arrives) && points == Taken(visited, measure)
      modifies this`position, this`moves, this`points, this`visited
      ensures points == Taken(visited, measure) && fit == old(fit)
      ensures ok ==> Here(arrives) && visited == old(visited) + queue
      ensures !ok ==> Stuck(old(visited) + queue, arrives) && old(visited) <= visited < old(visited) + queue
    {
      ghost var first := visited;
      for i := 0 to |queue|
        invariant Here(arrives) && points == Taken(visited, measure) && visited == first + queue[..i] && fit == old(fit)
      {
        StepTowards(first, queue, i);
        var took := TakePoint(queue[i], arrives, measure);
        if !took {
          BrokeOffEarlier(startPosition, visited + [queue[i]], first + queue, Approaching(options), moves, arrives);
          return false;
        }
      }
      TakeAll(queue);
      return true;
    }

    // The verdict on the points so far, and the point to add for it.
    method Judge(inward: int, outward: int, judge: Judge) returns (verdict: Verdict, added: seq<int>)
      requires Decides(judge) && points != []
      ensures verdict == Judged(points, inward, outward, options, judge)
      ensures added == if verdict.extend.Some? then [NextOut(points, verdict.extend.value, options)] else []
    {
      var below := Extension(Positions(points), Inward, options.step, 1, options.maximum);
      var above := Extension(Positions(points), Outward, options.step, 1, options.maximum);
      OneBeyond(points, Inward, options);
      OneBeyond(points, Outward, options);
      var sides := {};
      if inward > 0 && below != [] {
        sides := sides + {Inward};
      }
      if outward > 0 && above != [] {
        sides := sides + {Outward};
      }
      assert sides == OpenSides(points, inward, outward, options);
      verdict := judge(points, sides);
      added := if verdict.extend == Some(Inward) then below else if verdict.extend == Some(Outward) then above else [];
    }

    // What was visited and how it ended is what `r` says, or it broke off at a move on the way.
    ghost predicate Concluded(r: Sweeping, ended: Option<Outcome>, arrives: nat -> bool)
      requires r.verdict.fit == None ==> r.verdict.problem.Some?
      reads this
    {
      if ended == Some(Broken) then Stuck(r.visited, arrives) && visited < r.visited && fit == None
      else Here(arrives) && visited == r.visited && fit == r.verdict.fit && ended == Conclusion(r.verdict)
    }

    // The loop of sweeps: it visits what `SweptUntilTurned` says, and ends with its verdict, or
    // at the first move that does not arrive.
    method SweepUntilTurned(arrives: nat -> bool, measure: Frames, judge: Judge)
      returns (ended: Option<Outcome>)
      requires Decides(judge) && Here(arrives) && points == [] && visited == [] && fit == None
      modifies this
      ensures points == Taken(visited, measure)
      ensures Planned(startPosition, options).Err? ==>
                ended == Some(Invalid(Planned(startPosition, options).error)) && moves == [] && visited == []
      ensures Planned(startPosition, options).Ok? ==>
                Concluded(SweptUntilTurned(startPosition, options, measure, judge), ended, arrives)
    {
      var planned := SweepPositions(startPosition, options.step, options.points, options.direction, options.maximum);
      if planned.Err? {
        return Some(Invalid(planned.error));
      }
      PlannedMarches(startPosition, options, planned.value);
      ended := SweepFrom(planned.value, arrives, measure, judge);
    }

    // What the run will have visited, and the verdict then, once it has taken the queue.
    ghost predicate Ahead(queue: seq<int>, inward: int, outward: int, measure: Frames, judge: Judge, r: Sweeping)
      requires Decides(judge)
      reads this
    {
      visited + queue != [] && Turned(visited + queue, inward, outward, options, measure, judge) == r
    }

    method SweepFrom(first: seq<int>, arrives: nat -> bool, measure: Frames, judge: Judge)
      returns (ended: Option<Outcome>)
      requires Decides(judge) && Here(arrives) && points == [] && visited == [] && fit == None && first != []
      modifies this
      ensures points == Taken(visited, measure)
      ensures Concluded(Turned(first, options.extension, options.extension, options, measure, judge), ended, arrives)
    {
      var queue, inward, outward := first, options.extension, options.extension;
      ghost var r := Turned(first, inward, outward, options, measure, judge);
      assert visited + first == first;
      while true
        invariant points == Taken(visited, measure) && Here(arrives) && fit == None && queue != []
        invariant Ahead(queue, inward, outward, measure, judge, r)
        decreases Max(0, inward) + Max(0, outward)
      {
        var going, done, added, inner, outer := Turn(queue, inward, outward, arrives, measure, judge, r);
        if !going {
          return done;
        }
        queue, inward, outward := added, inner, outer;
      }
    }

    // One turn of the loop: the queue's points, and what the verdict on them says to do.
    method Turn(
        queue: seq<int>, inward: int, outward: int, arrives: nat -> bool, measure: Frames, judge: Judge, ghost r: Sweeping)
      returns (going: bool, ended: Option<Outcome>, added: seq<int>, inner: int, outer: int)
      requires Decides(judge) && Here(arrives) && points == Taken(visited, measure) && fit == None && queue != []
      requires Ahead(queue, inward, outward, measure, judge, r)
      modifies this
      ensures points == Taken(visited, measure)
      ensures going ==>
                && Here(arrives) && fit == None && added != [] && Ahead(added, inner, outer, measure, judge, r)
                && Max(0, inner) + Max(0, outer) < Max(0, inward) + Max(0, outward)
      ensures !going ==> Concluded(r, ended, arrives)
    {
      ghost var before := visited;
      var took := TakePoints(queue, arrives, measure);
      if took {
        going, ended, added, inner, outer := Act(inward, outward, arrives, measure, judge);
      } else {
        TurnedGoesOn(before + queue, inward, outward, options, measure, judge);
        BrokeOffEarlier(startPosition, before + queue, r.visited, Approaching(options), moves, arrives);
        going, ended, added, inner, outer := false, Some(Broken), [], inward, outward;
      }
    }

    // What the verdict on the points says to do.
    method Act(inward: int, outward: int, arrives: nat -> bool, ghost measure: Frames, judge: Judge)
      returns (going: bool, ended: Option<Outcome>, added: seq<int>, inner: int, outer: int)
      requires Decides(judge) && Here(arrives) && points == Taken(visited, measure) && fit == None && points != []
      modifies this`fit
      ensures var r := Turned(visited, inward, outward, options, measure, judge);
              if going then
                && fit == None && added != []
                && Turned(visited + added, inner, outer, options, measure, judge) == r
                && Max(0, inner) + Max(0, outer) < Max(0, inward) + Max(0, outward)
              else ended != Some(Broken) && Concluded(r, ended, arrives)
    {
      going, ended, inner, outer := false, None, inward, outward;
      var verdict;
      verdict, added := Judge(inward, outward, judge);
      TurnedStep(visited, inward, outward, options, measure, judge, verdict, added);
      if verdict.fit.Some? {
        fit := verdict.fit;
      } else if verdict.extend == None {
        ended := Some(GaveUp(verdict.problem.value, verdict.overshoot));
      } else {
        going := true;
        if verdict.extend.value == Inward {
          inner := inner - |added|;
        } else {
          outer := outer - |added|;
        }
      }
    }

    // How a whole run may end. Without stars at the start nothing moves, nor with a sweep that
    // cannot be planned. Else the moves are those of the route: all of them, and the end is as
    // `Ending` says (RouteKeeps); or up to the first that does not arrive.
    ghost predicate Finished(outcome: Outcome, start: Measure, arrives: nat -> bool, measure: Frames, judge: Judge)
      requires Decides(judge)
      reads this
    {
      if !HasStars(start, options.criteria) then
        outcome == GaveUp(NoStars, None) && moves == [] && visited == []
      else if Planned(startPosition, options).Err? then
        outcome == Invalid(Planned(startPosition, options).error) && moves == [] && visited == []
      else
        var r := SweptUntilTurned(startPosition, options, measure, judge);
        if outcome == Broken then Stuck(Route(r), arrives) && visited < Route(r) && points == Taken(visited, measure)
        else
          && Here(arrives) && visited == Route(r) && fit == r.verdict.fit && points == Taken(r.visited, measure)
          && outcome == Ending(r, Limit(start, options), options, measure)
    }

    // The whole run, with the verdicts of `assess` and any curve fit.
    method Focus(arrives: nat -> bool, measure: Frames, fitter: seq<Point> -> Option<Fit>)
      returns (outcome: Outcome, start: Measure, final: Option<Measure>)
      requires Workable(options.criteria) && Here(arrives) && points == [] && visited == [] && fit == None
      modifies this
      ensures start == measure(0, startPosition)
      ensures Decides(Assessing(options.criteria, fitter))
      ensures Finished(outcome, start, arrives, measure, Assessing(options.criteria, fitter))
      ensures outcome.Focused? ==> position == outcome.best && final == Some(measure(|visited|, position))
    {
      AssessingDecides(options.criteria, fitter);
      outcome, start, final := FocusWith(arrives, measure, Assessing(options.criteria, fitter));
    }

    method FocusWith(arrives: nat -> bool, measure: Frames, judge: Judge)
      returns (outcome: Outcome, start: Measure, final: Option<Measure>)
      requires Decides(judge) && Here(arrives) && points == [] && visited == [] && fit == None
      modifies this
      ensures start == measure(0, startPosition) && Finished(outcome, start, arrives, measure, judge)
      ensures outcome.Focused? ==> position == outcome.best && final == Some(measure(|visited|, position))
    {
      final := None;
      start := measure(0, startPosition);
      if !HasStars(start, options.criteria) {
        outcome := GaveUp(NoStars, None);
        return;
      }
      var ended := SweepUntilTurned(arrives, measure, judge);
      if Planned(startPosition, options).Err? {
        outcome := ended.value;
        return;
      }
      ghost var r := SweptUntilTurned(startPosition, options, measure, judge);
      if ended.Some? {
        outcome := ended.value;
        if outcome == Broken {
          BrokeOffEarlier(startPosition, r.visited, Route(r), Approaching(options), moves, arrives);
        }
        return;
      }
      outcome, final := Settle(Round(fit.value.c), Limit(start, options), arrives, measure);
    }

    // To the best focus, and a last frame there.
    method Settle(best: int, limit: real, arrives: nat -> bool, measure: Frames)
      returns (outcome: Outcome, final: Option<Measure>)
      requires Here(arrives)
      modifies this`visited, this`position, this`moves
      ensures outcome == Broken ==> Stuck(old(visited) + [best], arrives) && visited == old(visited) && final == None
      ensures outcome != Broken ==>
                && Here(arrives) && visited == old(visited) + [best] && final == Some(measure(|visited|, best))
                && outcome == if Good(final.value, limit, options.criteria) then Focused(best) else GaveUp(Worse, None)
    {
      var arrived := MoveTo(best, arrives);
      if !arrived {
        return Broken, None;
      }
      visited := visited + [best];
      var last := measure(|visited|, best);
      if !HasStars(last, options.criteria) || last.hfr.value > limit {
        return GaveUp(Worse, None), Some(last);
      }
      return Focused(best), Some(last);
    }
  }
}
