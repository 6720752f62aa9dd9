/** What a plateau tells of the slack. */
module Plateaus {
  import opened Common
  import opened Sweep
  import opened Gears = Backlash

  // For HFRs that depend on where the optics are, what the plateau at the start of a sweep
  // (server/src/nocs/focus/sweep.py) tells of the slack, and when the overshoot suggested for
  // it is enough.

  lemma AlongMisses(g: Gear, target: int, direction: Direction, slack: real)
    requires Possible(g, slack) && Ahead(g.motor, target, direction) >= 0
    ensures Missing(MoveTo(g, target, slack), direction, slack)
         == MaxReal(0.0, Missing(g, direction, slack) - Ahead(g.motor, target, direction) as real)
    ensures Ahead(g.motor, target, direction) as real <= Missing(g, direction, slack) ==> Optics(MoveTo(g, target, slack)) == Optics(g)
  {
  }

  // Where the optics are at each of the targets.
  function Watch(g: Gear, targets: seq<int>, a: Approaching, slack: real): (r: seq<real>)
    requires Possible(g, slack)
    ensures |r| == |targets|
    decreases targets
  {
    if targets == [] then []
    else
      var there := GoTo(g, targets[0], a, slack);
      [Optics(there)] + Watch(there, targets[1..], a, slack)
  }

  // Every HFR there is depends on where the optics were.
  ghost predicate Shown(points: seq<Point>, optics: seq<real>, hfr: real -> real) {
    && |points| == |optics|
    && forall i :: 0 <= i < |points| && points[i].hfr.Some? ==> points[i].hfr.value == hfr(optics[i])
  }

  ghost predicate Forward(points: seq<Point>, direction: Direction) {
    forall i, j :: 0 <= i < j < |points| ==> Ahead(points[i].position, points[j].position, direction) > 0
  }

  lemma GoAlong(g: Gear, target: int, a: Approaching, slack: real)
    requires Possible(g, slack) && Ahead(g.motor, target, a.direction) >= 0
    ensures GoTo(g, target, a, slack) == MoveTo(g, target, slack)
  {
    assert Follow(g, [target], slack) == Follow(MoveTo(g, target, slack), [], slack);
  }

  lemma WatchAlong(g: Gear, points: seq<Point>, a: Approaching, slack: real, k: nat)
    requires Possible(g, slack) && k < |points| && Ahead(g.motor, points[0].position, a.direction) >= 0
    ensures var there := MoveTo(g, points[0].position, slack);
            Watch(g, Positions(points), a, slack)[k]
            == if k == 0 then Optics(there) else Watch(there, Positions(points[1..]), a, slack)[k - 1]
  {
    GoAlong(g, points[0].position, a, slack);
    assert Positions(points)[1..] == Positions(points[1..]);
  }

  lemma TwoMoves(g: Gear, first: int, target: int, direction: Direction, slack: real)
    requires Possible(g, slack) && Ahead(g.motor, first, direction) >= 0 && Ahead(first, target, direction) >= 0
    ensures MoveTo(MoveTo(g, first, slack), target, slack) == MoveTo(g, target, slack)
  {
  }

  lemma ForwardTail(points: seq<Point>, direction: Direction, k: nat)
    requires Forward(points, direction) && 0 < k < |points|
    ensures Forward(points[1..], direction) && points[1..][k - 1] == points[k]
    ensures Ahead(points[0].position, points[1].position, direction) > 0 && Ahead(points[0].position, points[k].position, direction) > 0
  {
  }

  // Going forward, each point is reached as if by one move.
  lemma {:induction false} WatchForward(g: Gear, points: seq<Point>, a: Approaching, slack: real, k: nat)
    requires Possible(g, slack) && k < |points| && Forward(points, a.direction)
    requires Ahead(g.motor, points[0].position, a.direction) >= 0
    ensures Watch(g, Positions(points), a, slack)[k] == Optics(MoveTo(g, points[k].position, slack))
    decreases points
  {
    WatchAlong(g, points, a, slack, k);
    if k > 0 {
      var first := points[0].position;
      ForwardTail(points, a.direction, k);
      TwoMoves(g, first, points[k].position, a.direction, slack);
      WatchForward(MoveTo(g, first, slack), points[1..], a, slack, k - 1);
    }
  }

  // A point whose HFR is off the first one's lies beyond what was missing at the first.
  lemma OffThePlateau(g: Gear, points: seq<Point>, a: Approaching, slack: real, hfr: real -> real, k: nat)
    requires Possible(g, slack) && k < |points| && Forward(points, a.direction) && g.motor == points[0].position
    requires Shown(points, Watch(g, Positions(points), a, slack), hfr)
    requires points[0].hfr.Some? && points[k].hfr.Some? && points[k].hfr != points[0].hfr
    ensures Missing(g, a.direction, slack) < Ahead(points[0].position, points[k].position, a.direction) as real
  {
    if Missing(g, a.direction, slack) >= Ahead(points[0].position, points[k].position, a.direction) as real {
      WatchForward(g, points, a, slack, k);
      WatchForward(g, points, a, slack, 0);
      AlongMisses(g, points[k].position, a.direction, slack);
    }
  }

  ghost predicate Sound(criteria: Criteria) {
    criteria.plateauPoints >= 2 && criteria.plateauTolerance >= 0.0
  }

  // The HFRs of points that all count.
  ghost predicate AllCount(points: seq<Point>, criteria: Criteria) {
    forall p :: p in points ==> Usable(p, criteria) && p.hfr.value >= 0.0
  }

  lemma NotBelow(x: real, y: real)
    requires x >= 0.0 && y >= 0.0
    ensures x * y >= 0.0
  {
  }

  // The point after a plateau is off its first one.
  lemma PlateauEnds(points: seq<Point>, criteria: Criteria, n: nat)
    requires Sound(criteria) && points != [] && AllCount(points, criteria)
    requires n == FlatCount(Hfrs(points), criteria.plateauTolerance, 1) < |points|
    ensures points[n].hfr != points[0].hfr
  {
    var hfrs := Hfrs(points);
    FlatCountExact(hfrs, criteria.plateauTolerance, 1);
    assert points[0] in points;
    NotBelow(criteria.plateauTolerance, hfrs[0]);
  }

  lemma {:induction false} MarchBetween(p: seq<int>, step: nat, direction: Direction, i: nat, j: nat)
    requires step > 0 && Marches(p, step, direction) && i < j < |p|
    ensures p[j] == p[i] + Sign(direction) * ((j - i) * step) && (j - i) * step > 0
  {
    if j > i + 1 {
      MarchBetween(p, step, direction, i, j - 1);
      assert (j - i) * step == (j - 1 - i) * step + step;
    }
  }

  lemma Apart(from: int, to: int, direction: Direction, distance: nat)
    requires to == from + Sign(direction) * distance
    ensures AbsInt(to - from) == distance == Ahead(from, to, direction)
  {
  }

  lemma MarchSpan(points: seq<Point>, step: nat, direction: Direction, n: nat)
    requires step > 0 && Marches(Positions(points), step, direction) && 0 < n < |points|
    ensures AbsInt(points[n].position - points[0].position) == n * step == Ahead(points[0].position, points[n].position, direction)
  {
    MarchBetween(Positions(points), step, direction, 0, n);
    Apart(points[0].position, points[n].position, direction, n * step);
  }

  lemma MarchesForward(points: seq<Point>, step: nat, direction: Direction)
    requires step > 0 && Marches(Positions(points), step, direction)
    ensures Forward(points, direction)
  {
    forall i, j | 0 <= i < j < |points| ensures Ahead(points[i].position, points[j].position, direction) > 0 {
      MarchBetween(Positions(points), step, direction, i, j);
    }
  }

  function Span(n: nat, step: nat): nat {
    if n == 0 then 0 else (n - 1) * step
  }

  // Evenly apart in the order taken.
  lemma MarchPlateau(points: seq<Point>, step: nat, direction: Direction, n: nat)
    requires step > 0 && Marches(Positions(points), step, direction) && 2 <= n < |points|
    ensures AbsInt(points[n - 1].position - points[0].position) == Span(n, step)
    ensures AbsInt(points[1].position - points[0].position) == step
  {
    MarchSpan(points, step, direction, n - 1);
    MarchSpan(points, step, direction, 1);
  }

  // Of points that all count a plateau is followed by one that is off it.
  lemma PlateauThenOff(points: seq<Point>, criteria: Criteria, n: nat)
    requires Sound(criteria) && points != [] && AllCount(points, criteria)
    requires PlateauAmong(points, criteria).Some? && PlateauAmong(points, criteria).value.count == n
    ensures 2 <= n <= |points| - 2 && points[n].hfr != points[0].hfr
    ensures var span, step := AbsInt(points[n - 1].position - points[0].position), AbsInt(points[1].position - points[0].position);
            PlateauAmong(points, criteria) == Some(Plateau(n, span, Suggested(span, step)))
  {
    PlateauMeans(points, criteria);
    PlateauEnds(points, criteria, n);
  }

  // Then what was missing at the first point is less than the steps to the one off it.
  lemma OffBoundsMissing(g: Gear, points: seq<Point>, step: nat, a: Approaching, slack: real, hfr: real -> real, n: nat)
    requires step > 0 && 0 < n < |points| && Marches(Positions(points), step, a.direction)
    requires Possible(g, slack) && g.motor == points[0].position
    requires Shown(points, Watch(g, Positions(points), a, slack), hfr)
    requires points[0].hfr.Some? && points[n].hfr.Some? && points[n].hfr != points[0].hfr
    ensures Missing(g, a.direction, slack) < (n * step) as real
  {
    MarchesForward(points, step, a.direction);
    OffThePlateau(g, points, a, slack, hfr, n);
    MarchSpan(points, step, a.direction, n);
  }

  // Arriving at the first point first changes nothing.
  lemma WatchFrom(g: Gear, points: seq<Point>, a: Approaching, slack: real)
    requires Possible(g, slack) && points != []
    ensures Watch(GoTo(g, points[0].position, a, slack), Positions(points), a, slack) == Watch(g, Positions(points), a, slack)
  {
    var there := GoTo(g, points[0].position, a, slack);
    GoAlong(there, points[0].position, a, slack);
  }

  // -- sweeps and what they show --------------------------------------------------------------

  // A sweep planned around where the focuser stands.
  datatype Plan = Plan(centre: int, step: nat, count: int, a: Approaching)

  function Planned(w: Plan): Result<seq<int>, SweepError> {
    SweepPositions(w.centre, w.step, w.count, w.a.direction, w.a.maximum)
  }

  predicate Fits(w: Plan) {
    Planned(w).Ok? && InTravel(w.centre, w.a.maximum)
  }

  function First(w: Plan): int
    requires Fits(w)
  {
    Planned(w).value[0]
  }

  // How far back from where the focuser stands the first point lies.
  function Distance(w: Plan): int
    requires Fits(w)
  {
    Ahead(First(w), w.centre, w.a.direction)
  }

  // By how far the first point is passed.
  function Passing(w: Plan): nat
    requires Fits(w)
  {
    Passed(First(w), w.a)
  }

  lemma PlanFits(w: Plan)
    requires Fits(w)
    ensures |Planned(w).value| == w.count >= 3 && w.step > 0 && Marches(Planned(w).value, w.step, w.a.direction)
    ensures Distance(w) >= 0 && InTravel(First(w), w.a.maximum)
  {
    SweepFits(w.centre, w.step, w.count, w.a.direction, w.a.maximum);
    StepsBetween(w.step, 1, w.count - 1);
    SweepStart(w.centre, Planned(w).value, w.step * (w.count - 1), w.a);
  }

  // What is still missing at the first point, of what was missing before.
  function Left(distance: int, passed: int, missing: real, slack: real): real {
    if distance == 0 then missing
    else MaxReal(0.0, MinReal(slack, missing + (passed + distance) as real) - passed as real)
  }

  lemma LeftOnArrival(g: Gear, target: int, a: Approaching, slack: real)
    requires Possible(g, slack) && InTravel(target, a.maximum) && Ahead(g.motor, target, a.direction) <= 0
    ensures Missing(GoTo(g, target, a, slack), a.direction, slack)
         == Left(-Ahead(g.motor, target, a.direction), Passed(target, a), Missing(g, a.direction, slack), slack)
  {
    if Ahead(g.motor, target, a.direction) == 0 {
      GoAlong(g, target, a, slack);
    } else {
      AgainstMisses(g, target, a, slack);
    }
  }

  lemma BackAndForth(from: int, to: int, direction: Direction)
    ensures Ahead(to, from, direction) == -Ahead(from, to, direction)
  {
  }

  lemma MissingAtFirst(w: Plan, g: Gear, slack: real)
    requires Fits(w) && Possible(g, slack) && g.motor == w.centre
    ensures Missing(GoTo(g, First(w), w.a, slack), w.a.direction, slack)
         == Left(Distance(w), Passing(w), Missing(g, w.a.direction, slack), slack)
  {
    PlanFits(w);
    BackAndForth(w.centre, First(w), w.a.direction);
    LeftOnArrival(g, First(w), w.a, slack);
  }

  // Of points that all count, the first `n` are a plateau.
  ghost predicate HasPlateau(points: seq<Point>, n: nat, criteria: Criteria) {
    && Sound(criteria) && AllCount(points, criteria)
    && PlateauAmong(points, criteria).Some? && PlateauAmong(points, criteria).value.count == n
  }

  // What a sweep saw: how far the optics lagged before it, its points in the order taken, and
  // the HFR as it depends on the optics.
  datatype Sight = Sight(lag: real, points: seq<Point>, hfr: real -> real)

  // The planned sweep through this slack, from any lag; all its points count.
  ghost predicate Swept(s: Sight, w: Plan, slack: real, criteria: Criteria) {
    && Fits(w) && Planned(w) == Ok(Positions(s.points)) && AllCount(s.points, criteria)
    && 0.0 <= s.lag <= slack
    && Shown(s.points, Watch(Gear(w.centre, s.lag), Positions(s.points), w.a, slack), s.hfr)
  }

  // It showed a plateau of `n` points.
  ghost predicate Sees(s: Sight, w: Plan, slack: real, n: nat, criteria: Criteria) {
    Swept(s, w, slack, criteria) && HasPlateau(s.points, n, criteria)
  }

  // The overshoot suggested for a plateau of `n` points.
  function Suggestion(n: nat, step: nat): int {
    Suggested(Span(n, step), step)
  }

  // What is left missing at the first point is less than the steps to the one off the plateau.
  lemma LeftIsLess(s: Sight, w: Plan, slack: real, n: nat, criteria: Criteria)
    requires Swept(s, w, slack, criteria) && 0 < n < |s.points| && s.points[n].hfr != s.points[0].hfr
    ensures Left(Distance(w), Passing(w), Missing(Gear(w.centre, s.lag), w.a.direction, slack), slack) < (n * w.step) as real
  {
    assert s.points[0] in s.points && s.points[n] in s.points;
    var before := Gear(w.centre, s.lag);
    PlanFits(w);
    WatchFrom(before, s.points, w.a, slack);
    MissingAtFirst(w, before, slack);
    OffBoundsMissing(GoTo(before, First(w), w.a, slack), s.points, w.step, w.a, slack, s.hfr, n);
  }

  lemma PlateauSeen(points: seq<Point>, w: Plan, n: nat, criteria: Criteria)
    requires Fits(w) && Planned(w) == Ok(Positions(points)) && HasPlateau(points, n, criteria)
    ensures 2 <= n < |points| && points[n].hfr != points[0].hfr && n * w.step > 0
    ensures PlateauAmong(points, criteria) == Some(Plateau(n, Span(n, w.step), Suggestion(n, w.step)))
  {
    PlanFits(w);
    PlateauThenOff(points, criteria, n);
    MarchPlateau(points, w.step, w.a.direction, n);
    TwoSteps(n, w.step);
  }

  // Whatever was missing before: coming from far enough, all the slack lay ahead of the motor
  // when it came forward, so the plateau bounds it.
  lemma FarBoundsSlack(distance: int, passed: nat, missing: real, slack: real, length: nat)
    requires Left(distance, passed, missing, slack) < length as real && 0.0 <= missing && 0 < length
    ensures length <= distance ==> slack < (passed + length) as real
  {
  }

  // The plateau of a sweep that comes from at least its length back bounds the slack by the
  // passing and its length; its overshoot is made from the length alone.
  lemma PlateauBoundsSlack(s: Sight, w: Plan, slack: real, n: nat, criteria: Criteria)
    requires Sees(s, w, slack, n, criteria)
    ensures n * w.step <= Distance(w) ==> slack < (Passing(w) + n * w.step) as real
    ensures n >= 2 && PlateauAmong(s.points, criteria) == Some(Plateau(n, Span(n, w.step), Suggestion(n, w.step)))
  {
    PlateauSeen(s.points, w, n, criteria);
    LeftIsLess(s, w, slack, n, criteria);
    var missing := Missing(Gear(w.centre, s.lag), w.a.direction, slack);
    FarBoundsSlack(Distance(w), Passing(w), missing, slack, n * w.step);
  }

  lemma TwoSteps(n: nat, step: nat)
    requires n >= 2
    ensures 2 * step <= n * step
  {
    assert n * step == 2 * step + (n - 2) * step;
  }

  // -- every sweep shows a plateau as long as what it leaves missing ------------------------------

  // The lag at which this much is missing.
  function Lag(direction: Direction, missing: real, slack: real): real {
    if direction == Outward then slack - missing else missing
  }

  // The HFR of optics that are in focus until they leave `still` in the approach direction.
  function Leaving(still: real, direction: Direction, off: real): real -> real {
    x => if (if direction == Outward then x <= still else x >= still) then 1.0 else off
  }

  // Points of which the first `n` show the optics where they are at the first one.
  function PlateauPoints(p: seq<int>, n: nat, criteria: Criteria): (r: seq<Point>)
    ensures |r| == |p| && Positions(r) == p
    ensures forall i :: 0 <= i < |r| ==> r[i].stars == criteria.minStars
    ensures forall i :: 0 <= i < |r| ==> r[i].hfr == Some(if i < n then 1.0 else 2.0 + criteria.plateauTolerance)
  {
    seq(|p|, i requires 0 <= i < |p| => Point(p[i], Some(if i < n then 1.0 else 2.0 + criteria.plateauTolerance), criteria.minStars))
  }

  // A sweep with this much missing beforehand.
  function Sighting(w: Plan, n: nat, missing: real, slack: real, criteria: Criteria): Sight
    requires Fits(w) && 0.0 <= missing <= slack
  {
    var lag := Lag(w.a.direction, missing, slack);
    var there := GoTo(Gear(w.centre, lag), First(w), w.a, slack);
    Sight(lag, PlateauPoints(Planned(w).value, n, criteria), Leaving(Optics(there), w.a.direction, 2.0 + criteria.plateauTolerance))
  }

  lemma FlatFor(hfrs: seq<real>, n: nat, tolerance: real)
    requires tolerance >= 0.0 && 0 < n < |hfrs|
    requires forall i :: 0 <= i < |hfrs| ==> hfrs[i] == if i < n then 1.0 else 2.0 + tolerance
    ensures FlatCount(hfrs, tolerance, 1) == n
  {
    FlatCountExact(hfrs, tolerance, 1);
    assert Abs(hfrs[n] - hfrs[0]) > tolerance * hfrs[0];
  }

  lemma {:induction false} NoChanges(values: seq<real>, x: real)
    requires forall i :: 0 <= i < |values| ==> values[i] == x
    ensures Changes(values) == 0.0
  {
    if |values| >= 2 {
      NoChanges(values[1..], x);
    }
  }

  lemma SteepAt(hfrs: seq<real>, n: nat, off: real)
    requires 2 <= n <= |hfrs| - 2 && off >= 2.0
    requires forall i :: 0 <= i < |hfrs| ==> hfrs[i] == if i < n then 1.0 else off
    ensures Steepens(hfrs, n)
  {
    var end := Min(n + 3, |hfrs|);
    var after := hfrs[n - 1..end];
    assert after[1..] == hfrs[n..end];
    assert Changes(after) == (off - 1.0) + Changes(after[1..]);
    NoChanges(hfrs[n..end], off);
    TimesIs(0.0, |after| - 1);
    TimesIs(PLATEAU_CONTRAST * (off - 1.0), n - 1);
  }

  lemma PlateauOfPoints(p: seq<int>, n: nat, criteria: Criteria)
    requires Sound(criteria) && criteria.plateauPoints <= n <= |p| - 2
    ensures HasPlateau(PlateauPoints(p, n, criteria), n, criteria)
  {
    var points := PlateauPoints(p, n, criteria);
    FlatFor(Hfrs(points), n, criteria.plateauTolerance);
    SteepAt(Hfrs(points), n, 2.0 + criteria.plateauTolerance);
    PlateauFound(points, criteria, n);
  }

  // Forward the optics stay where they are for what is missing, and no further.
  lemma LeavesBeyond(g: Gear, target: int, direction: Direction, slack: real, off: real)
    requires Possible(g, slack) && Ahead(g.motor, target, direction) >= 0
    ensures Leaving(Optics(g), direction, off)(Optics(MoveTo(g, target, slack)))
         == if Ahead(g.motor, target, direction) as real <= Missing(g, direction, slack) then 1.0 else off
  {
  }

  lemma PointShown(there: Gear, points: seq<Point>, step: nat, a: Approaching, n: nat, slack: real, off: real, k: nat)
    requires Possible(there, slack) && step > 0 && n >= 1 && k < |points| && Marches(Positions(points), step, a.direction)
    requires there.motor == points[0].position
    requires Span(n, step) as real <= Missing(there, a.direction, slack) < (n * step) as real
    ensures Leaving(Optics(there), a.direction, off)(Watch(there, Positions(points), a, slack)[k]) == if k < n then 1.0 else off
  {
    MarchesForward(points, step, a.direction);
    WatchForward(there, points, a, slack, k);
    if k > 0 { MarchSpan(points, step, a.direction, k); }
    LeavesBeyond(there, points[k].position, a.direction, slack, off);
    if k < n { StepsBetween(step, k, n - 1); } else { StepsBetween(step, n, k); }
  }

  lemma PointsShown(there: Gear, points: seq<Point>, step: nat, a: Approaching, n: nat, slack: real, off: real)
    requires Possible(there, slack) && step > 0 && n >= 1 && points != [] && Marches(Positions(points), step, a.direction)
    requires there.motor == points[0].position
    requires Span(n, step) as real <= Missing(there, a.direction, slack) < (n * step) as real
    requires forall i :: 0 <= i < |points| ==> points[i].hfr == Some(if i < n then 1.0 else off)
    ensures Shown(points, Watch(there, Positions(points), a, slack), Leaving(Optics(there), a.direction, off))
  {
    forall k | 0 <= k < |points|
      ensures Leaving(Optics(there), a.direction, off)(Watch(there, Positions(points), a, slack)[k]) == if k < n then 1.0 else off
    {
      PointShown(there, points, step, a, n, slack, off, k);
    }
  }

  lemma ShownFrom(before: Gear, points: seq<Point>, step: nat, a: Approaching, n: nat, slack: real, off: real)
    requires Possible(before, slack) && step > 0 && n >= 1 && points != [] && Marches(Positions(points), step, a.direction)
    requires Span(n, step) as real <= Missing(GoTo(before, points[0].position, a, slack), a.direction, slack) < (n * step) as real
    requires forall i :: 0 <= i < |points| ==> points[i].hfr == Some(if i < n then 1.0 else off)
    ensures var there := GoTo(before, points[0].position, a, slack);
            Shown(points, Watch(before, Positions(points), a, slack), Leaving(Optics(there), a.direction, off))
  {
    WatchFrom(before, points, a, slack);
    PointsShown(GoTo(before, points[0].position, a, slack), points, step, a, n, slack, off);
  }

  lemma PointsSeen(before: Gear, p: seq<int>, step: nat, a: Approaching, n: nat, slack: real, criteria: Criteria)
    requires Possible(before, slack) && Sound(criteria) && criteria.plateauPoints <= n <= |p| - 2
    requires step > 0 && Marches(p, step, a.direction)
    requires Span(n, step) as real <= Missing(GoTo(before, p[0], a, slack), a.direction, slack) < (n * step) as real
    ensures var points, still := PlateauPoints(p, n, criteria), Optics(GoTo(before, p[0], a, slack));
            && HasPlateau(points, n, criteria)
            && Shown(points, Watch(before, p, a, slack), Leaving(still, a.direction, 2.0 + criteria.plateauTolerance))
  {
    PlateauOfPoints(p, n, criteria);
    ShownFrom(before, PlateauPoints(p, n, criteria), step, a, n, slack, 2.0 + criteria.plateauTolerance);
  }

  lemma SightingSeen(w: Plan, n: nat, missing: real, slack: real, criteria: Criteria)
    requires Fits(w) && Sound(criteria) && criteria.plateauPoints <= n <= w.count - 2 && 0.0 <= missing <= slack
    requires Span(n, w.step) as real <= Left(Distance(w), Passing(w), missing, slack) < (n * w.step) as real
    ensures Sees(Sighting(w, n, missing, slack, criteria), w, slack, n, criteria)
  {
    var before := Gear(w.centre, Lag(w.a.direction, missing, slack));
    PlanFits(w);
    MissingAtFirst(w, before, slack);
    PointsSeen(before, Planned(w).value, w.step, w.a, n, slack, criteria);
  }

  // -- when the suggestion is enough ---------------------------------------------------------------

  ghost predicate TakesUpAllSeen(w: Plan, n: nat, criteria: Criteria) {
    forall s: Sight, slack: real :: Sees(s, w, slack, n, criteria) ==> slack <= Suggestion(n, w.step) as real
  }

  // For a plateau longer than the way back to the first point, any slack will do: if the gear
  // was engaged before, the way back is all that is missing.
  lemma NearBoundsNothing(w: Plan, n: nat, criteria: Criteria, slack: real)
    requires Fits(w) && Sound(criteria) && criteria.plateauPoints <= n <= w.count - 2
    requires n * w.step > Distance(w) && slack >= (Passing(w) + n * w.step) as real
    ensures exists s :: Sees(s, w, slack, n, criteria)
  {
    PlanFits(w);
    assert n * w.step == Span(n, w.step) + w.step;
    var missing := Max(0, Span(n, w.step) - Distance(w)) as real;
    SightingSeen(w, n, missing, slack, criteria);
    assert Sees(Sighting(w, n, missing, slack, criteria), w, slack, n, criteria);
  }

  // Else one just short of the bound does, if all of it is missing.
  lemma FarShows(w: Plan, n: nat, criteria: Criteria, slack: real)
    requires Fits(w) && Sound(criteria) && criteria.plateauPoints <= n <= w.count - 2 && 0 < Distance(w)
    requires (Passing(w) + Span(n, w.step)) as real <= slack < (Passing(w) + n * w.step) as real
    ensures exists s :: Sees(s, w, slack, n, criteria)
  {
    SightingSeen(w, n, slack, slack, criteria);
    assert Sees(Sighting(w, n, slack, slack, criteria), w, slack, n, criteria);
  }

  // The suggested overshoot takes up every slack under which a planned sweep shows a plateau
  // of `n` points, whatever the gear was like before, exactly when it is no less than the
  // passing and the plateau with a step, and the first point lies at least as far back.
  lemma SuggestionTakesUp(w: Plan, n: nat, criteria: Criteria)
    requires Fits(w) && Sound(criteria) && criteria.plateauPoints <= n <= w.count - 2
    ensures TakesUpAllSeen(w, n, criteria) <==> Passing(w) + n * w.step <= Suggestion(n, w.step) && n * w.step <= Distance(w)
  {
    var suggested, top := Suggestion(n, w.step), Passing(w) + n * w.step;
    PlanFits(w);
    assert n * w.step == Span(n, w.step) + w.step;
    if n * w.step > Distance(w) {
      var slack := Max(top, suggested + 1) as real;
      NearBoundsNothing(w, n, criteria, slack);
    } else if top > suggested {
      FarShows(w, n, criteria, top as real - 0.5);
    } else {
      forall s: Sight, slack: real | Sees(s, w, slack, n, criteria) ensures slack <= suggested as real {
        PlateauBoundsSlack(s, w, slack, n, criteria);
      }
    }
  }

  // The first condition holds for a passing of at most half the plateau and a step; the
  // overshoot's default, one step, is.
  lemma HalfSuffices(passed: nat, n: nat, step: nat)
    requires n >= 2
    ensures passed <= step ==> 2 * passed <= n * step
    ensures 2 * passed <= n * step ==> passed + n * step <= Suggestion(n, step)
  {
    assert Span(n, step) + step == n * step;
    TwoSteps(n, step);
  }

  lemma Doubled(step: int, n: int)
    ensures (2 * n) * step == 2 * (n * step)
  {
  }

  // From the middle of a sweep to its first point.
  function HalfOf(step: int, steps: int): int {
    step * steps / 2
  }

  lemma FirstHalf(step: nat, steps: nat, n: nat)
    requires step > 0
    ensures n * step <= HalfOf(step, steps) <==> 2 * n <= steps
  {
    if 2 * n <= steps {
      StepsBetween(step, 2 * n, steps);
    } else {
      StepsBetween(step, steps + 1, 2 * n);
      NextStep(step, steps + 1, 0);
    }
    Doubled(step, n);
  }

  lemma BothHold(passing: nat, distance: int, n: nat, step: nat, steps: nat)
    requires step > 0 && n >= 2 && passing <= step && distance == HalfOf(step, steps)
    ensures passing + n * step <= Suggestion(n, step) && n * step <= distance <==> 2 * n <= steps
  {
    HalfSuffices(passing, n, step);
    FirstHalf(step, steps, n);
  }

  lemma HowFarBack(first: int, centre: int, half: int)
    requires first == centre - half
    ensures Ahead(first, centre, Outward) == half
  {
  }

  // So at the default overshoot an outward sweep away from the travel's ends suggests enough
  // exactly for plateaus that end in its first half: of nine points, for at most four.
  lemma FirstHalfSuffices(w: Plan, n: nat, criteria: Criteria)
    requires Fits(w) && Sound(criteria) && criteria.plateauPoints <= n <= w.count - 2
    requires w.a.direction == Outward && w.a.overshoot <= w.step && First(w) == w.centre - HalfOf(w.step, w.count - 1)
    ensures TakesUpAllSeen(w, n, criteria) <==> 2 * n <= w.count - 1
  {
    var half := HalfOf(w.step, w.count - 1);
    SuggestionTakesUp(w, n, criteria);
    PlanFits(w);
    HowFarBack(First(w), w.centre, half);
    BothHold(Passing(w), half, n, w.step, w.count - 1);
  }

  // Then the next sweep finds the optics at one offset at all its points, if the travel has
  // room for the suggested overshoot behind the first.
  lemma TriedAgain(s: Sight, w: Plan, slack: real, n: nat, criteria: Criteria, next: Plan)
    requires Sees(s, w, slack, n, criteria) && slack > 0.0
    requires Passing(w) + n * w.step <= Suggestion(n, w.step) && n * w.step <= Distance(w)
    requires Fits(next) && next.a == w.a.(overshoot := Suggestion(n, w.step))
    requires First(next) != next.centre && Room(First(next), next.a, next.a.overshoot as real)
    ensures forall lag :: 0.0 <= lag <= slack ==> AllEngaged(Gear(next.centre, lag), Planned(next).value, next.a, slack)
  {
    PlateauBoundsSlack(s, w, slack, n, criteria);
    SweepTakesUp(next.centre, next.step, next.count, next.a, slack);
    RoomPasses(First(next), next.a, slack);
  }

  // A plateau is seen and the overshoot suggested for it is not enough, wherever the gear is.
  ghost predicate FallsShort(s: Sight, w: Plan, slack: real, p: Plateau) {
    && Sees(s, w, slack, p.count, DEFAULT_CRITERIA) && FindPlateau(s.points, DEFAULT_CRITERIA) == Some(p)
    && forall lag :: 0.0 <= lag <= slack ==>
         !AllEngaged(Gear(w.centre, lag), Planned(w).value, w.a.(overshoot := p.overshoot), slack)
  }

  lemma NotEngagedAgain(w: Plan, a: Approaching, lag: real, slack: real)
    requires Fits(w) && Distance(w) > 0 && 0.0 <= lag <= slack
    requires a == w.a.(overshoot := a.overshoot) && slack > MaxReal(0.0, a.overshoot as real)
    ensures !AllEngaged(Gear(w.centre, lag), Planned(w).value, a, slack)
  {
    PlanFits(w);
    AgainstTakesUp(Gear(w.centre, lag), First(w), a, slack);
  }

  lemma SightingFallsShort(w: Plan, n: nat, missing: real, slack: real)
    requires Fits(w) && 3 <= n <= w.count - 2 && 0.0 <= missing <= slack && Distance(w) > 0
    requires Span(n, w.step) as real <= Left(Distance(w), Passing(w), missing, slack) < (n * w.step) as real
    requires slack > Suggestion(n, w.step) as real
    ensures FallsShort(Sighting(w, n, missing, slack, DEFAULT_CRITERIA), w, slack, Plateau(n, Span(n, w.step), Suggestion(n, w.step)))
  {
    var s := Sighting(w, n, missing, slack, DEFAULT_CRITERIA);
    SightingSeen(w, n, missing, slack, DEFAULT_CRITERIA);
    PlateauBoundsSlack(s, w, slack, n, DEFAULT_CRITERIA);
    PlateauOfAll(s.points, DEFAULT_CRITERIA);
    var a := w.a.(overshoot := Suggestion(n, w.step));
    forall lag | 0.0 <= lag <= slack ensures !AllEngaged(Gear(w.centre, lag), Planned(w).value, a, slack) {
      NotEngagedAgain(w, a, lag, slack);
    }
  }

  // Half as much again, where that is a whole number of tens below a thousand.
  lemma SuggestedOf(span: nat, step: nat)
    requires 100 <= 3 * (span + step) / 2 < 1000 && 3 * (span + step) % 20 == 0
    ensures Suggested(span, step) == 3 * (span + step) / 2
  {
    var tens := 3 * (span + step) / 20;
    var value := 1.5 * (span + step) as real;
    assert value == (10 * tens) as real;
    assert value / 10.0 == tens as real;
    assert value.Floor == 10 * tens;
    assert Ceiling(tens as real) == tens;
    assert RoundUp(value / 10.0) == tens;
  }

  // Outward, away from the travel's ends.
  lemma FallingShort(w: Plan, low: int, n: nat, missing: real, slack: real, suggested: int) returns (s: Sight)
    requires w.step > 0 && w.a.direction == Outward && w.a.maximum == None && 3 <= n <= w.count - 2
    requires low == w.centre - w.step * (w.count - 1) / 2 && 0 <= low < w.centre
    requires 0.0 <= missing <= slack
    requires ((n - 1) * w.step) as real <= Left(w.centre - low, Min(Max(w.a.overshoot, 0), low), missing, slack) < (n * w.step) as real
    requires suggested == 3 * (n * w.step) / 2 && 100 <= suggested < 1000 && 3 * (n * w.step) % 20 == 0 && slack > suggested as real
    ensures Fits(w) && First(w) == low && Passing(w) == Min(Max(w.a.overshoot, 0), low) && s.lag == slack - missing
    ensures FallsShort(s, w, slack, Plateau(n, (n - 1) * w.step, suggested))
  {
    SweepFits(w.centre, w.step, w.count, w.a.direction, w.a.maximum);
    assert First(w) == low + 0 * w.step;
    assert n * w.step == Span(n, w.step) + w.step;
    SuggestedOf(Span(n, w.step), w.step);
    SightingFallsShort(w, n, missing, slack);
    s := Sighting(w, n, missing, slack, DEFAULT_CRITERIA);
  }

  // Each condition fails on its own. At the default options, nine points and one step past:
  // from an engaged gear with a slack of 2000, the way back of 400 is missing at the first
  // point and five points show a plateau. 750 steps are suggested, which leave 1250.
  lemma EngagedFallsShort() returns (w: Plan, s: Sight)
    ensures w == Plan(50000, 100, 9, Approaching(Outward, 100, None)) && s.lag == 2000.0
    ensures Fits(w) && First(w) == 49600 && Passing(w) + 5 * 100 <= 750
    ensures FallsShort(s, w, 2000.0, Plateau(5, 400, 750))
  {
    w := Plan(50000, 100, 9, Approaching(Outward, 100, None));
    s := FallingShort(w, 49600, 5, 0.0, 2000.0, 750);
  }

  // With 1000 steps past and a slack of 1100 all missing, 100 are left; points 30 steps apart
  // show a plateau of four. 180 steps are suggested, which leave 920.
  lemma MoreWasPassed() returns (w: Plan, s: Sight)
    ensures w == Plan(1120, 30, 9, Approaching(Outward, 1000, None)) && s.lag == 0.0
    ensures Fits(w) && First(w) == 1000 && 4 * 30 <= Distance(w)
    ensures FallsShort(s, w, 1100.0, Plateau(4, 90, 180))
  {
    w := Plan(1120, 30, 9, Approaching(Outward, 1000, None));
    s := FallingShort(w, 1000, 4, 1100.0, 1100.0, 180);
  }
}
