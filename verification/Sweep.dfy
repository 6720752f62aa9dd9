/** Where a sweep goes and the verdict on it (server/src/nocs/focus/sweep.py). */
module Sweep {
  import opened Common

  datatype Direction = Outward | Inward

  function Sign(d: Direction): int {
    if d == Outward then 1 else -1
  }

  predicate InTravel(position: int, maximum: Option<int>) {
    0 <= position && (maximum.Some? ==> position <= maximum.value)
  }

  // -- the positions ----------------------------------------------------------------------

  datatype SweepError = StepNotPositive | TooFewPoints | DoesNotFit

  function LowEnd(centre: int, width: nat, maximum: Option<int>): int {
    var low := centre - width / 2;
    Max(if maximum.Some? then Min(low, maximum.value - width) else low, 0)
  }

  function SweepPositions(centre: int, step: int, count: int, direction: Direction, maximum: Option<int>): Result<seq<int>, SweepError> {
    if step <= 0 then Err(StepNotPositive)
    else if count < 3 then Err(TooFewPoints)
    else
      var width := step * (count - 1);
      if maximum.Some? && width > maximum.value then Err(DoesNotFit)
      else
        var low := LowEnd(centre, width, maximum);
        Ok(if direction == Outward
           then seq(count, i => low + i * step)
           else seq(count, i => low + (count - 1 - i) * step))
  }

  // The positions taken one after the other, `step` apart in the direction of travel.
  ghost predicate Marches(positions: seq<int>, step: int, direction: Direction) {
    forall i :: 0 < i < |positions| ==> positions[i] == positions[i - 1] + Sign(direction) * step
  }

  // `count` positions from `low` to `low + width`, within the travel.
  ghost predicate Spans(p: seq<int>, low: int, width: int, count: int, maximum: Option<int>) {
    && |p| == count && 0 <= low && (maximum.Some? ==> low + width <= maximum.value)
    && forall i :: 0 <= i < count ==> low <= p[i] <= low + width
  }

  // Its middle is the wanted centre, or as near as the travel lets it.
  ghost predicate Placed(low: int, centre: int, width: int, maximum: Option<int>) {
    || low == centre - width / 2
    || (low == 0 && centre - width / 2 < 0)
    || (maximum.Some? && low + width == maximum.value && centre - width / 2 > low)
  }

  // The lowest of the sweep's positions.
  function LowOf(p: seq<int>): int
    requires p != []
  {
    Min(p[0], p[|p| - 1])
  }

  lemma LowEndPlaced(centre: int, width: nat, maximum: Option<int>)
    requires maximum.Some? ==> width <= maximum.value
    ensures var low := LowEnd(centre, width, maximum);
            Placed(low, centre, width, maximum) && 0 <= low && (maximum.Some? ==> low + width <= maximum.value)
  {
  }

  lemma OutwardSweep(low: int, step: int, count: int, width: int, p: seq<int>)
    requires step > 0 && count >= 3 && width == step * (count - 1) && |p| == count
    requires forall i :: 0 <= i < count ==> p[i] == low + i * step
    ensures Marches(p, step, Outward) && p[0] == low && p[count - 1] == low + width && width > 0
    ensures forall i :: 0 <= i < count ==> low <= p[i] <= low + width
  {
    forall i | 0 <= i < count ensures low <= p[i] <= low + width {
      StepsBetween(step, i, count - 1);
    }
    forall i | 0 < i < count ensures p[i] == p[i - 1] + step {
      NextStep(step, i, count);
    }
    StepsBetween(step, 1, count - 1);
  }

  lemma InwardSweep(low: int, step: int, count: int, width: int, p: seq<int>)
    requires step > 0 && count >= 3 && width == step * (count - 1) && |p| == count
    requires forall i :: 0 <= i < count ==> p[i] == low + (count - 1 - i) * step
    ensures Marches(p, step, Inward) && p[0] == low + width && p[count - 1] == low && width > 0
    ensures forall i :: 0 <= i < count ==> low <= p[i] <= low + width
  {
    forall i | 0 <= i < count ensures low <= p[i] <= low + width {
      StepsBetween(step, i, count - 1);
    }
    forall i | 0 < i < count ensures p[i] == p[i - 1] - step {
      NextStep(step, i, count);
    }
    StepsBetween(step, 1, count - 1);
  }

  // A sweep has all its points, marching the approach direction inside the travel, and its
  // middle is off the wanted centre only where the travel ends.
  lemma SweepFits(centre: int, step: int, count: int, direction: Direction, maximum: Option<int>)
    ensures SweepPositions(centre, step, count, direction, maximum).Ok? <==>
              step > 0 && count >= 3 && (maximum.Some? ==> step * (count - 1) <= maximum.value)
    ensures SweepPositions(centre, step, count, direction, maximum).Ok? ==>
              var p := SweepPositions(centre, step, count, direction, maximum).value;
              var width := step * (count - 1);
              && |p| == count && Marches(p, step, direction)
              && p[0] == (if direction == Outward then LowOf(p) else LowOf(p) + width)
              && Spans(p, LowOf(p), width, count, maximum) && Placed(LowOf(p), centre, width, maximum)
  {
    if step > 0 && count >= 3 && (maximum.Some? ==> step * (count - 1) <= maximum.value) {
      var p := SweepPositions(centre, step, count, direction, maximum).value;
      var width := step * (count - 1);
      StepsBetween(step, 0, count - 1);
      LowEndPlaced(centre, width, maximum);
      if direction == Outward {
        OutwardSweep(LowEnd(centre, width, maximum), step, count, width, p);
      } else {
        InwardSweep(LowEnd(centre, width, maximum), step, count, width, p);
      }
    }
  }

  lemma StepsBetween(step: int, i: int, n: int)
    requires 0 < step && 0 <= i <= n
    ensures 0 <= i * step <= n * step && 0 <= (n - i) * step <= n * step
  {
    assert (n - i) * step >= 0;
    assert n * step == (n - i) * step + i * step;
  }

  lemma NextStep(step: int, i: int, count: int)
    ensures i * step == (i - 1) * step + step
    ensures (count - 1 - i) * step == (count - 1 - (i - 1)) * step - step
  {
  }

  function Edge(positions: seq<int>, towards: Direction): int
    requires positions != []
  {
    if |positions| == 1 then positions[0]
    else
      var rest := Edge(positions[1..], towards);
      if towards == Outward then Max(positions[0], rest) else Min(positions[0], rest)
  }

  lemma {:induction false} EdgeIsExtreme(positions: seq<int>, towards: Direction)
    requires positions != []
    ensures Edge(positions, towards) in positions
    ensures forall p :: p in positions ==> p * Sign(towards) <= Edge(positions, towards) * Sign(towards)
  {
    if |positions| > 1 {
      EdgeIsExtreme(positions[1..], towards);
      assert positions == [positions[0]] + positions[1..];
    }
  }

  // The positions from the `i`th beyond `edge` on, until the travel or the count ends.
  function Beyond(edge: int, towards: Direction, step: int, i: int, count: int, maximum: Option<int>): seq<int>
    decreases count - i
  {
    var position := edge + Sign(towards) * i * step;
    if i > count || !InTravel(position, maximum) then []
    else [position] + Beyond(edge, towards, step, i + 1, count, maximum)
  }

  lemma BeyondStep(edge: int, towards: Direction, step: int, i: int, count: int, maximum: Option<int>, position: int)
    requires i <= count && position == edge + Sign(towards) * i * step
    ensures Beyond(edge, towards, step, i, count, maximum)
         == if InTravel(position, maximum) then [position] + Beyond(edge, towards, step, i + 1, count, maximum) else []
  {
  }

  lemma OneAdded(edge: int, towards: Direction, step: int, i: int, count: int, maximum: Option<int>, position: int, added: seq<int>)
    requires i <= count && position == edge + Sign(towards) * i * step
    ensures added + Beyond(edge, towards, step, i, count, maximum)
         == if InTravel(position, maximum) then (added + [position]) + Beyond(edge, towards, step, i + 1, count, maximum) else added
  {
    BeyondStep(edge, towards, step, i, count, maximum, position);
    var rest := Beyond(edge, towards, step, i + 1, count, maximum);
    assert (added + [position]) + rest == added + ([position] + rest);
  }

  method Extension(positions: seq<int>, towards: Direction, step: int, count: int, maximum: Option<int>) returns (added: seq<int>)
    requires positions != []
    ensures added == Beyond(Edge(positions, towards), towards, step, 1, count, maximum)
  {
    var edge := Edge(positions, towards);
    added := [];
    var i := 1;
    ghost var all := Beyond(edge, towards, step, 1, count, maximum);
    while i <= count
      invariant 1 <= i
      invariant added + Beyond(edge, towards, step, i, count, maximum) == all
      decreases count - i
    {
      var position := edge + Sign(towards) * i * step;
      OneAdded(edge, towards, step, i, count, maximum, position, added);
      if !InTravel(position, maximum) {
        break;
      }
      added := added + [position];
      i := i + 1;
    }
  }

  // As many positions as the count and the travel allow, each a step further out.
  lemma {:induction false} BeyondExact(edge: int, towards: Direction, step: int, i: int, count: int, maximum: Option<int>)
    ensures var added := Beyond(edge, towards, step, i, count, maximum);
            && |added| <= Max(0, count - i + 1)
            && (forall k :: 0 <= k < |added| ==> added[k] == edge + Sign(towards) * (i + k) * step && InTravel(added[k], maximum))
            && (|added| < count - i + 1 ==> !InTravel(edge + Sign(towards) * (i + |added|) * step, maximum))
    decreases count - i
  {
    var position := edge + Sign(towards) * i * step;
    if i <= count && InTravel(position, maximum) {
      BeyondExact(edge, towards, step, i + 1, count, maximum);
    }
  }

  // -- the moves to a position ---------------------------------------------------------------

  function Approach(current: int, target: int, direction: Direction, overshoot: int, maximum: Option<int>): seq<int> {
    if overshoot <= 0 || target == current || (target - current) * Sign(direction) > 0 then [target]
    else
      var wanted := Max(target - Sign(direction) * overshoot, 0);
      var beyond := if maximum.Some? then Min(wanted, maximum.value) else wanted;
      if beyond == target then [target] else [beyond, target]
  }

  // -- judging the points ----------------------------------------------------------------------

  datatype Point = Point(position: int, hfr: Option<real>, stars: int)

  datatype Criteria = Criteria(
    minStars: int, minPoints: int, minSidePoints: int, minRSquared: real, minContrast: real,
    plateauPoints: int, plateauTolerance: real)

  const DEFAULT_CRITERIA := Criteria(10, 5, 2, 0.8, 1.2, 3, 0.08)
  const PLATEAU_CONTRAST := 0.25

  datatype Problem = NoStars | TooFewStars | NotTurning | Flat | BadFit | Worse | Backlash

  // What the curve fit tells: its best position and R².
  datatype Fit = Fit(c: real, rSquared: real)

  datatype Verdict = Verdict(fit: Option<Fit>, extend: Option<Direction>, problem: Option<Problem>, overshoot: Option<int>)

  function Positions(points: seq<Point>): (r: seq<int>)
    ensures |r| == |points| && forall i :: 0 <= i < |r| ==> r[i] == points[i].position
  {
    seq(|points|, i requires 0 <= i < |points| => points[i].position)
  }

  predicate Usable(p: Point, criteria: Criteria) {
    p.hfr.Some? && p.stars >= criteria.minStars
  }

  function Filter(points: seq<Point>, criteria: Criteria): (r: seq<Point>)
    ensures forall p :: p in r ==> Usable(p, criteria) && p in points
    ensures |r| <= |points|
  {
    if points == [] then []
    else (if Usable(points[0], criteria) then [points[0]] else []) + Filter(points[1..], criteria)
  }

  // sorted by position; points at one position keep their order
  function InsertPoint(sorted: seq<Point>, p: Point): (r: seq<Point>)
    ensures |r| == |sorted| + 1
  {
    if sorted == [] || p.position < sorted[0].position then [p] + sorted
    else [sorted[0]] + InsertPoint(sorted[1..], p)
  }

  function SortPoints(points: seq<Point>): seq<Point> {
    if points == [] then [] else InsertPoint(SortPoints(points[..|points| - 1]), points[|points| - 1])
  }

  ghost predicate ByPosition(points: seq<Point>) {
    forall i, j :: 0 <= i < j < |points| ==> points[i].position <= points[j].position
  }

  lemma {:induction false} InsertPointAdds(sorted: seq<Point>, p: Point)
    ensures multiset(InsertPoint(sorted, p)) == multiset(sorted) + multiset{p}
    ensures forall x :: x in InsertPoint(sorted, p) ==> x == p || x in sorted
  {
    if sorted != [] && p.position >= sorted[0].position {
      InsertPointAdds(sorted[1..], p);
      assert sorted == [sorted[0]] + sorted[1..];
    }
  }

  lemma {:induction false} InsertPointSorts(sorted: seq<Point>, p: Point)
    requires ByPosition(sorted)
    ensures ByPosition(InsertPoint(sorted, p))
  {
    if sorted != [] && p.position >= sorted[0].position {
      InsertPointSorts(sorted[1..], p);
      InsertPointAdds(sorted[1..], p);
      forall x | x in sorted[1..] ensures sorted[0].position <= x.position {
      }
    }
  }

  lemma {:induction false} SortPointsSorts(points: seq<Point>)
    ensures ByPosition(SortPoints(points)) && multiset(SortPoints(points)) == multiset(points)
    ensures |SortPoints(points)| == |points|
    ensures forall p :: p in SortPoints(points) <==> p in points
  {
    if points != [] {
      var n := |points| - 1;
      SortPointsSorts(points[..n]);
      InsertPointAdds(SortPoints(points[..n]), points[n]);
      InsertPointSorts(SortPoints(points[..n]), points[n]);
      TakeStep(points, n);
      TakeAll(points);
    }
    SameMembers(SortPoints(points), points);
  }

  lemma SameMembers(a: seq<Point>, b: seq<Point>)
    requires multiset(a) == multiset(b)
    ensures |a| == |b| && forall p :: p in a <==> p in b
  {
    assert |multiset(a)| == |multiset(b)|;
    forall p ensures p in a <==> p in b {
      assert p in multiset(a) <==> p in multiset(b);
    }
  }

  function Hfrs(usable: seq<Point>): (r: seq<real>)
    requires forall p :: p in usable ==> p.hfr.Some?
    ensures |r| == |usable| && forall i :: 0 <= i < |r| ==> r[i] == usable[i].hfr.value
  {
    seq(|usable|, i requires 0 <= i < |usable| => usable[i].hfr.value)
  }

  function IndexOf(values: seq<real>, v: real): (i: nat)
    requires v in values
    ensures i < |values| && values[i] == v && v !in values[..i]
  {
    if values[0] == v then 0
    else
      assert values == [values[0]] + values[1..];
      var i := IndexOf(values[1..], v) + 1;
      assert values[..i] == [values[0]] + values[1..][..i - 1];
      i
  }

  // -- the plateau of a backlash that is not taken up ---------------------------------------------

  // How many values at the front stay near the first one.
  function FlatCount(hfrs: seq<real>, tolerance: real, count: nat): (n: nat)
    requires 0 < count <= |hfrs|
    ensures count <= n <= |hfrs|
    decreases |hfrs| - count
  {
    if count == |hfrs| || Abs(hfrs[count] - hfrs[0]) > tolerance * hfrs[0] then count
    else FlatCount(hfrs, tolerance, count + 1)
  }

  function Changes(values: seq<real>): real {
    if |values| < 2 then 0.0 else Abs(values[1] - values[0]) + Changes(values[1..])
  }

  // How many decimal digits it has.
  function Digits(value: nat): (d: nat)
    ensures d >= 1
  {
    if value < 10 then 1 else 1 + Digits(value / 10)
  }

  function Ceiling(x: real): int {
    -((-x).Floor)
  }

  // Up to two significant digits (RoundUpIs).
  function RoundUp(value: real): int
    requires value >= 0.0
    decreases value.Floor
  {
    if value < 100.0 then Ceiling(value) else 10 * RoundUp(value / 10.0)
  }

  lemma CeilingBounds(x: real)
    ensures x <= Ceiling(x) as real < x + 1.0
  {
  }

  // Never below the value, and off by less than a tenth of it (or less than one).
  lemma {:induction false} RoundUpCovers(value: real)
    requires value >= 0.0
    ensures value <= RoundUp(value) as real
    ensures RoundUp(value) as real < value + (if value < 100.0 then 1.0 else value / 10.0)
    decreases value.Floor
  {
    if value < 100.0 {
      CeilingBounds(value);
    } else {
      RoundUpCovers(value / 10.0);
    }
  }

  // The multiple of a power of ten that keeps two of the integer part's digits.
  lemma {:induction false} RoundUpIs(value: real)
    requires value >= 0.0
    ensures var unit := Power10(Max(0, Digits(value.Floor) - 2));
            RoundUp(value) == Ceiling(value / unit as real) * unit
    decreases value.Floor
  {
    if value < 100.0 {
      assert Digits(value.Floor) <= 2;
      assert Power10(0) == 1;
    } else {
      var tenth := value / 10.0;
      RoundUpIs(tenth);
      TenthOfFloor(value);
      DigitsAbove(value.Floor);
      var unit := Power10(Max(0, Digits(tenth.Floor) - 2));
      assert Power10(Max(0, Digits(value.Floor) - 2)) == 10 * unit;
      DividedTwice(value, unit);
      TenTimes(Ceiling(tenth / unit as real), unit);
    }
  }

  lemma TenthOfFloor(value: real)
    requires value >= 0.0
    ensures (value / 10.0).Floor == value.Floor / 10
  {
  }

  lemma DigitsAbove(value: nat)
    requires value >= 100
    ensures Digits(value) == 1 + Digits(value / 10) && Digits(value / 10) >= 2
  {
    assert value / 10 >= 10;
  }

  lemma DividedTwice(value: real, unit: nat)
    requires unit > 0
    ensures value / (10 * unit) as real == value / 10.0 / unit as real
  {
    var q := value / 10.0 / unit as real;
    assert q * unit as real == value / 10.0;
    assert q * (10 * unit) as real == 10.0 * (q * unit as real);
  }

  lemma TenTimes(a: int, unit: nat)
    ensures 10 * (a * unit) == a * (10 * unit)
  {
  }

  datatype Plateau = Plateau(count: nat, span: int, overshoot: int)

  function AbsInt(x: int): nat {
    if x < 0 then -x else x
  }

  // Half as much again as the plateau and one step more.
  function Suggested(span: nat, step: nat): (overshoot: int)
    ensures 1.5 * (span + step) as real <= overshoot as real
  {
    RoundUpCovers(1.5 * (span + step) as real);
    RoundUp(1.5 * (span + step) as real)
  }

  function Times(x: real, n: nat): real {
    if n == 0 then 0.0 else x + Times(x, n - 1)
  }

  // The change within is small against that of the next points (SteepensIs).
  predicate Steepens(hfrs: seq<real>, count: nat)
    requires 2 <= count <= |hfrs| - 2
  {
    var after := hfrs[count - 1..Min(count + 3, |hfrs|)];
    Times(Abs(hfrs[count - 1] - hfrs[0]), |after| - 1) < Times(PLATEAU_CONTRAST * Changes(after), count - 1)
  }

  lemma {:induction false} TimesIs(x: real, n: nat)
    ensures Times(x, n) == x * n as real
  {
    if n > 0 {
      TimesIs(x, n - 1);
      assert x * n as real == x * (n - 1) as real + x;
    }
  }

  // The change per step within the plateau is less than a quarter of that after it.
  lemma SteepensIs(hfrs: seq<real>, count: nat)
    requires 2 <= count <= |hfrs| - 2
    ensures var after := hfrs[count - 1..Min(count + 3, |hfrs|)];
            Steepens(hfrs, count) <==>
              Abs(hfrs[count - 1] - hfrs[0]) / (count - 1) as real < PLATEAU_CONTRAST * (Changes(after) / (|after| - 1) as real)
  {
    var after := hfrs[count - 1..Min(count + 3, |hfrs|)];
    var change, later := Abs(hfrs[count - 1] - hfrs[0]), Changes(after);
    TimesIs(change, |after| - 1);
    TimesIs(PLATEAU_CONTRAST * later, count - 1);
    Quotients(change, PLATEAU_CONTRAST * later, (count - 1) as real, (|after| - 1) as real);
    assert PLATEAU_CONTRAST * (later / (|after| - 1) as real) == PLATEAU_CONTRAST * later / (|after| - 1) as real;
  }

  lemma Quotients(a: real, b: real, m: real, n: real)
    requires m > 0.0 && n > 0.0
    ensures a / m < b / n <==> a * n < b * m
  {
    var p, q := a / m, b / n;
    assert p * m == a && q * n == b;
    var k := m * n;
    assert k > 0.0;
    assert a * n == p * k && b * m == q * k;
    Scaling(p, q, k);
  }

  lemma Scaling(p: real, q: real, k: real)
    requires k > 0.0
    ensures p < q <==> p * k < q * k
  {
    assert (q - p) * k == q * k - p * k;
    if p < q { assert (q - p) * k > 0.0; }
    if p >= q { assert (p - q) * k >= 0.0; }
  }

  // The verdict on the first `count` usable points.
  function PlateauOf(usable: seq<Point>, count: nat, criteria: Criteria): (r: Option<Plateau>)
    requires forall p :: p in usable ==> p.hfr.Some?
    requires criteria.plateauPoints >= 2 && |usable| > criteria.plateauPoints && 0 < count <= |usable|
  {
    if count < criteria.plateauPoints || count > |usable| - 2 then None
    else if !Steepens(Hfrs(usable), count) then None
    else
      var span := AbsInt(usable[count - 1].position - usable[0].position);
      var step := AbsInt(usable[1].position - usable[0].position);
      Some(Plateau(count, span, Suggested(span, step)))
  }

  // plateau, for the points that count.
  function PlateauAmong(usable: seq<Point>, criteria: Criteria): Option<Plateau>
    requires criteria.plateauPoints >= 2 && forall p :: p in usable ==> p.hfr.Some?
  {
    if |usable| <= criteria.plateauPoints then None
    else PlateauOf(usable, FlatCount(Hfrs(usable), criteria.plateauTolerance, 1), criteria)
  }

  function FindPlateau(points: seq<Point>, criteria: Criteria): Option<Plateau>
    requires criteria.plateauPoints >= 2
  {
    PlateauAmong(Filter(points, criteria), criteria)
  }

  method CountFlat(hfrs: seq<real>, tolerance: real) returns (count: nat)
    requires hfrs != []
    ensures count == FlatCount(hfrs, tolerance, 1)
  {
    count := 1;
    while count < |hfrs|
      invariant 0 < count <= |hfrs|
      invariant FlatCount(hfrs, tolerance, count) == FlatCount(hfrs, tolerance, 1)
    {
      if Abs(hfrs[count] - hfrs[0]) > tolerance * hfrs[0] {
        break;
      }
      count := count + 1;
    }
  }

  lemma {:induction false} FlatCountExact(hfrs: seq<real>, tolerance: real, count: nat)
    requires 0 < count <= |hfrs|
    ensures var n := FlatCount(hfrs, tolerance, count);
            && count <= n <= |hfrs|
            && (forall i :: count <= i < n ==> Abs(hfrs[i] - hfrs[0]) <= tolerance * hfrs[0])
            && (n < |hfrs| ==> Abs(hfrs[n] - hfrs[0]) > tolerance * hfrs[0])
    decreases |hfrs| - count
  {
    if count < |hfrs| && Abs(hfrs[count] - hfrs[0]) <= tolerance * hfrs[0] {
      FlatCountExact(hfrs, tolerance, count + 1);
    }
  }

  lemma PlateauIs(usable: seq<Point>, count: nat, criteria: Criteria)
    requires forall p :: p in usable ==> p.hfr.Some?
    requires criteria.plateauPoints >= 2 && |usable| > criteria.plateauPoints && 0 < count <= |usable|
    requires PlateauOf(usable, count, criteria).Some?
    ensures criteria.plateauPoints <= count <= |usable| - 2
    ensures var p := PlateauOf(usable, count, criteria).value;
            && p.count == count && p.span == AbsInt(usable[count - 1].position - usable[0].position)
            && p.overshoot == Suggested(p.span, AbsInt(usable[1].position - usable[0].position))
  {
  }

  // A plateau is the whole run of near-equal values at the front (FlatCountExact), long
  // enough, with at least two points after it; its overshoot covers the run and one step
  // more by half again.
  lemma PlateauMeans(usable: seq<Point>, criteria: Criteria)
    requires criteria.plateauPoints >= 2 && usable != [] && forall p :: p in usable ==> p.hfr.Some?
    requires PlateauAmong(usable, criteria).Some?
    ensures var n := FlatCount(Hfrs(usable), criteria.plateauTolerance, 1);
            var p := PlateauAmong(usable, criteria).value;
            && p.count == n && criteria.plateauPoints <= n <= |usable| - 2
            && p.span == AbsInt(usable[n - 1].position - usable[0].position)
            && p.overshoot == Suggested(p.span, AbsInt(usable[1].position - usable[0].position))
            && 1.5 * (p.span + AbsInt(usable[1].position - usable[0].position)) as real <= p.overshoot as real
  {
    PlateauIs(usable, FlatCount(Hfrs(usable), criteria.plateauTolerance, 1), criteria);
  }

  // And such a run is one.
  lemma PlateauFound(usable: seq<Point>, criteria: Criteria, n: nat)
    requires criteria.plateauPoints >= 2 && usable != [] && forall p :: p in usable ==> p.hfr.Some?
    requires n == FlatCount(Hfrs(usable), criteria.plateauTolerance, 1) && criteria.plateauPoints <= n <= |usable| - 2
    requires Steepens(Hfrs(usable), n)
    ensures PlateauAmong(usable, criteria).Some? && PlateauAmong(usable, criteria).value.count == n
  {
  }

  // All points counting, none are left out.
  lemma {:induction false} AllUsable(points: seq<Point>, criteria: Criteria)
    requires forall p :: p in points ==> Usable(p, criteria)
    ensures Filter(points, criteria) == points
  {
    if points != [] {
      assert points[0] in points;
      AllUsable(points[1..], criteria);
    }
  }

  lemma PlateauOfAll(points: seq<Point>, criteria: Criteria)
    requires criteria.plateauPoints >= 2
    requires forall p :: p in points ==> p.hfr.Some? && p.stars >= criteria.minStars
    ensures FindPlateau(points, criteria) == PlateauAmong(points, criteria)
  {
    AllUsable(points, criteria);
  }

  // -- the verdict ------------------------------------------------------------------------------------

  predicate Workable(criteria: Criteria) {
    criteria.minPoints >= 1 && criteria.plateauPoints >= 2
  }

  function Fails(problem: Problem): Verdict {
    Verdict(None, None, Some(problem), None)
  }

  // Points that have contrast and no plateau: more on the side where the lowest HFR is too near
  // the end, else the fit; None is FitError.
  function SideOrFit(usable: seq<Point>, lowest: nat, criteria: Criteria, canExtend: set<Direction>, fitted: Option<Fit>): Verdict
    requires lowest < |usable|
  {
    if lowest < criteria.minSidePoints then
      if Inward in canExtend then Verdict(None, Some(Inward), None, None) else Fails(NotTurning)
    else if |usable| - 1 - lowest < criteria.minSidePoints then
      if Outward in canExtend then Verdict(None, Some(Outward), None, None) else Fails(NotTurning)
    else
      match fitted
      case None => Fails(BadFit)
      case Some(f) =>
        if !(usable[0].position as real <= f.c <= usable[|usable| - 1].position as real) then Fails(BadFit)
        else if f.rSquared < criteria.minRSquared then Fails(BadFit)
        else Verdict(Some(f), None, None, None)
  }

  predicate HasContrast(hfrs: seq<real>, times: real)
    requires hfrs != []
  {
    Largest(hfrs) >= Smallest(hfrs) * times
  }

  // The verdict on the points that count, in order; `found` is the plateau in the points as they
  // were given.
  function AssessUsable(usable: seq<Point>, found: Option<Plateau>, criteria: Criteria, canExtend: set<Direction>, fitted: Option<Fit>): Verdict
    requires Workable(criteria) && forall p :: p in usable ==> p.hfr.Some?
  {
    if |usable| < criteria.minPoints then Fails(TooFewStars)
    else
      var hfrs := Hfrs(usable);
      var contrast := HasContrast(hfrs, criteria.minContrast);
      if contrast && found.Some? then Verdict(None, None, Some(Backlash), Some(found.value.overshoot))
      else if !contrast then Fails(Flat)
      else SideOrFit(usable, IndexOf(hfrs, Smallest(hfrs)), criteria, canExtend, fitted)
  }

  // `fit` stands for fit_hyperbola.
  function Assess(points: seq<Point>, criteria: Criteria, canExtend: set<Direction>, fit: seq<Point> -> Option<Fit>): Verdict
    requires Workable(criteria)
  {
    var usable := SortPoints(Filter(points, criteria));
    SortPointsSorts(Filter(points, criteria));
    AssessUsable(usable, FindPlateau(points, criteria), criteria, canExtend, fit(usable))
  }

  // Every verdict is one of three: a fit whose focus lies among the points taken, points to
  // add on a side that may still be extended, or a problem.
  lemma AssessDecides(points: seq<Point>, criteria: Criteria, canExtend: set<Direction>, fit: seq<Point> -> Option<Fit>)
    requires Workable(criteria)
    ensures var v := Assess(points, criteria, canExtend, fit);
            && (v.extend.Some? ==> v.extend.value in canExtend && v.fit == None && v.problem == None)
            && (v.fit.Some? ==> v.extend == None && v.problem == None)
            && (v.fit == None && v.extend == None ==> v.problem.Some? && v.problem.value !in {NoStars, Worse})
            && (v.overshoot.Some? <==> v.problem == Some(Backlash))
  {
  }

  // The points that count, all of them.
  lemma {:induction false} FilterExact(points: seq<Point>, criteria: Criteria, p: Point)
    ensures multiset(Filter(points, criteria))[p]
         == if p.hfr.Some? && p.stars >= criteria.minStars then multiset(points)[p] else 0
  {
    if points != [] {
      FilterExact(points[1..], criteria, p);
      assert points == [points[0]] + points[1..];
    }
  }

  // Those by position: in order, each as often as it is among the points.
  ghost predicate Counted(usable: seq<Point>, points: seq<Point>, criteria: Criteria) {
    && ByPosition(usable) && (forall p :: p in usable ==> p.hfr.Some?)
    && forall p :: multiset(usable)[p] == if p.hfr.Some? && p.stars >= criteria.minStars then multiset(points)[p] else 0
  }

  lemma InOrderCounted(points: seq<Point>, criteria: Criteria)
    ensures Counted(SortPoints(Filter(points, criteria)), points, criteria)
  {
    SortPointsSorts(Filter(points, criteria));
    forall p ensures multiset(SortPoints(Filter(points, criteria)))[p] == multiset(Filter(points, criteria))[p] {
    }
    forall p ensures multiset(Filter(points, criteria))[p]
      == if p.hfr.Some? && p.stars >= criteria.minStars then multiset(points)[p] else 0
    {
      FilterExact(points, criteria, p);
    }
  }

  lemma WithoutFirst(a: seq<Point>, b: seq<Point>)
    requires a != [] && b != [] && multiset(a) == multiset(b) && a[0] == b[0]
    ensures multiset(a[1..]) == multiset(b[1..])
  {
    assert a == [a[0]] + a[1..] && b == [b[0]] + b[1..];
    assert multiset(a[1..]) == multiset(a) - multiset{a[0]} && multiset(b[1..]) == multiset(b) - multiset{b[0]};
  }

  lemma FirstOfSorted(a: seq<Point>, b: seq<Point>)
    requires a != [] && b != [] && a[0] in b && b[0] in a && ByPosition(a) && ByPosition(b)
    requires forall i :: 0 < i < |a| ==> a[0].position != a[i].position
    ensures a[0] == b[0]
  {
    var i :| 0 <= i < |a| && a[i] == b[0];
    var j :| 0 <= j < |b| && b[j] == a[0];
    assert a[0].position <= a[i].position && b[0].position <= b[j].position;
  }

  // Of points at different positions there is only one such list.
  lemma {:induction false} CountedOnce(a: seq<Point>, b: seq<Point>)
    requires multiset(a) == multiset(b) && ByPosition(a) && ByPosition(b)
    requires forall i, j :: 0 <= i < j < |a| ==> a[i].position != a[j].position
    ensures a == b
  {
    SameMembers(a, b);
    if a != [] {
      assert a[0] in a && b[0] in b;
      FirstOfSorted(a, b);
      WithoutFirst(a, b);
      CountedOnce(a[1..], b[1..]);
      assert a == [a[0]] + a[1..] && b == [b[0]] + b[1..];
    }
  }

  // The first one whose HFR no other is below.
  ghost predicate LowestAt(usable: seq<Point>, i: nat)
    requires forall p :: p in usable ==> p.hfr.Some?
  {
    && i < |usable|
    && (forall k :: 0 <= k < |usable| ==> usable[i].hfr.value <= usable[k].hfr.value)
    && forall k :: 0 <= k < i ==> usable[i].hfr.value < usable[k].hfr.value
  }

  ghost predicate Reaches(usable: seq<Point>, bound: real)
    requires forall p :: p in usable ==> p.hfr.Some?
  {
    exists k :: 0 <= k < |usable| && usable[k].hfr.value >= bound
  }

  // Some HFR is so many times the lowest.
  ghost predicate Contrasts(usable: seq<Point>, i: nat, times: real)
    requires i < |usable| && forall p :: p in usable ==> p.hfr.Some?
  {
    Reaches(usable, usable[i].hfr.value * times)
  }

  // A fit that is good enough.
  predicate Accepts(usable: seq<Point>, f: Fit, criteria: Criteria)
    requires usable != []
  {
    && usable[0].position as real <= f.c <= usable[|usable| - 1].position as real
    && f.rSquared >= criteria.minRSquared
  }

  // Which of the verdicts on contrast it is.
  ghost predicate ContrastFits(v: Verdict, enough: bool, contrast: bool, found: Option<Plateau>) {
    && (v.problem == Some(TooFewStars) <==> !enough)
    && (v.problem == Some(Flat) <==> enough && !contrast)
    && (v.problem == Some(Backlash) <==> enough && contrast && found.Some?)
    && (v.overshoot == if v.problem == Some(Backlash) then Some(found.value.overshoot) else None)
  }

  // Which of the others, with i points below the lowest; `clear` when none of those on contrast.
  ghost predicate SideFits(v: Verdict, clear: bool, usable: seq<Point>, i: nat, criteria: Criteria, canExtend: set<Direction>, fitted: Option<Fit>)
    requires i < |usable|
  {
    var below, above := i < criteria.minSidePoints, |usable| - 1 - i < criteria.minSidePoints;
    var accepted := fitted.Some? && Accepts(usable, fitted.value, criteria);
    && (v.extend == Some(Inward) <==> clear && below && Inward in canExtend)
    && (v.extend == Some(Outward) <==> clear && !below && above && Outward in canExtend)
    && (v.problem == Some(NotTurning) <==> clear && if below then Inward !in canExtend else above && Outward !in canExtend)
    && (v.fit == if clear && !below && !above && accepted then fitted else None)
    && (v.problem == Some(BadFit) <==> clear && !below && !above && !accepted)
  }

  // The verdict on points that count, with the lowest HFR at i: there are i points below its
  // position.
  ghost predicate VerdictFits(v: Verdict, usable: seq<Point>, i: nat, found: Option<Plateau>, criteria: Criteria, canExtend: set<Direction>, fitted: Option<Fit>)
    requires (forall p :: p in usable ==> p.hfr.Some?) && LowestAt(usable, i)
  {
    var enough, contrast := |usable| >= criteria.minPoints, Contrasts(usable, i, criteria.minContrast);
    && ContrastFits(v, enough, contrast, found)
    && SideFits(v, enough && contrast && found == None, usable, i, criteria, canExtend, fitted)
  }

  lemma LowestIs(usable: seq<Point>, i: nat)
    requires (forall p :: p in usable ==> p.hfr.Some?) && LowestAt(usable, i)
    ensures Smallest(Hfrs(usable)) == usable[i].hfr.value
  {
    assert Hfrs(usable)[i] in Hfrs(usable);
  }

  lemma LowestIndex(usable: seq<Point>, i: nat)
    requires (forall p :: p in usable ==> p.hfr.Some?) && LowestAt(usable, i)
    ensures var hfrs := Hfrs(usable);
            hfrs != [] && IndexOf(hfrs, Smallest(hfrs)) == i
  {
    var hfrs := Hfrs(usable);
    LowestIs(usable, i);
    var j := IndexOf(hfrs, Smallest(hfrs));
  }

  lemma LargestReaches(usable: seq<Point>, bound: real)
    requires usable != [] && forall p :: p in usable ==> p.hfr.Some?
    ensures Reaches(usable, bound) <==> Largest(Hfrs(usable)) >= bound
  {
    var hfrs := Hfrs(usable);
    forall k | 0 <= k < |usable| ensures usable[k].hfr.value <= Largest(hfrs) {
      assert hfrs[k] in hfrs;
    }
    var top :| 0 <= top < |hfrs| && hfrs[top] == Largest(hfrs);
  }

  lemma HasContrastAt(hfrs: seq<real>, times: real, least: real, bound: real)
    requires hfrs != [] && least == Smallest(hfrs) && bound == least * times
    ensures HasContrast(hfrs, times) <==> Largest(hfrs) >= bound
  {
  }

  lemma ContrastsAt(usable: seq<Point>, i: nat, times: real, bound: real)
    requires i < |usable| && (forall p :: p in usable ==> p.hfr.Some?) && bound == usable[i].hfr.value * times
    ensures Contrasts(usable, i, times) <==> Reaches(usable, bound)
  {
  }

  lemma HighIsContrast(usable: seq<Point>, times: real, least: real, bound: real)
    requires usable != [] && (forall p :: p in usable ==> p.hfr.Some?)
    requires least == Smallest(Hfrs(usable)) && bound == least * times
    ensures Reaches(usable, bound) <==> HasContrast(Hfrs(usable), times)
  {
    LargestReaches(usable, bound);
    HasContrastAt(Hfrs(usable), times, least, bound);
  }

  lemma ContrastIs(usable: seq<Point>, i: nat, times: real, least: real, bound: real)
    requires i < |usable| && (forall p :: p in usable ==> p.hfr.Some?)
    requires least == usable[i].hfr.value == Smallest(Hfrs(usable)) && bound == least * times
    ensures Contrasts(usable, i, times) <==> HasContrast(Hfrs(usable), times)
  {
    HighIsContrast(usable, times, least, bound);
    ContrastsAt(usable, i, times, bound);
  }

  lemma SideOrFitIs(usable: seq<Point>, i: nat, criteria: Criteria, canExtend: set<Direction>, fitted: Option<Fit>)
    requires i < |usable|
    ensures SideFits(SideOrFit(usable, i, criteria, canExtend, fitted), true, usable, i, criteria, canExtend, fitted)
    ensures ContrastFits(SideOrFit(usable, i, criteria, canExtend, fitted), true, true, None)
  {
  }

  lemma NeitherSideNorFit(v: Verdict, usable: seq<Point>, i: nat, criteria: Criteria, canExtend: set<Direction>, fitted: Option<Fit>)
    requires i < |usable| && v.fit == None && v.extend == None && v.problem.Some? && v.problem.value in {TooFewStars, Flat, Backlash}
    ensures SideFits(v, false, usable, i, criteria, canExtend, fitted)
  {
  }

  lemma UsableIn(usable: seq<Point>, i: nat, found: Option<Plateau>, criteria: Criteria, canExtend: set<Direction>, fitted: Option<Fit>, contrast: bool)
    requires Workable(criteria) && (forall p :: p in usable ==> p.hfr.Some?) && LowestAt(usable, i)
    requires contrast == HasContrast(Hfrs(usable), criteria.minContrast)
    ensures AssessUsable(usable, found, criteria, canExtend, fitted)
         == if |usable| < criteria.minPoints then Fails(TooFewStars)
            else if contrast && found.Some? then Verdict(None, None, Some(Backlash), Some(found.value.overshoot))
            else if !contrast then Fails(Flat)
            else SideOrFit(usable, i, criteria, canExtend, fitted)
  {
    LowestIndex(usable, i);
  }

  lemma UsableFits(usable: seq<Point>, i: nat, found: Option<Plateau>, criteria: Criteria, canExtend: set<Direction>, fitted: Option<Fit>, contrast: bool)
    requires Workable(criteria) && (forall p :: p in usable ==> p.hfr.Some?) && LowestAt(usable, i)
    requires contrast == HasContrast(Hfrs(usable), criteria.minContrast)
    ensures var v, enough := AssessUsable(usable, found, criteria, canExtend, fitted), |usable| >= criteria.minPoints;
            && ContrastFits(v, enough, contrast, found)
            && SideFits(v, enough && contrast && found == None, usable, i, criteria, canExtend, fitted)
  {
    UsableIn(usable, i, found, criteria, canExtend, fitted, contrast);
    if |usable| >= criteria.minPoints && contrast && found == None {
      SideOrFitIs(usable, i, criteria, canExtend, fitted);
    } else {
      NeitherSideNorFit(AssessUsable(usable, found, criteria, canExtend, fitted), usable, i, criteria, canExtend, fitted);
    }
  }

  lemma UsableIs(usable: seq<Point>, i: nat, found: Option<Plateau>, criteria: Criteria, canExtend: set<Direction>, fitted: Option<Fit>, bound: real)
    requires Workable(criteria) && (forall p :: p in usable ==> p.hfr.Some?) && LowestAt(usable, i)
    requires bound == usable[i].hfr.value * criteria.minContrast
    ensures VerdictFits(AssessUsable(usable, found, criteria, canExtend, fitted), usable, i, found, criteria, canExtend, fitted)
  {
    LowestIs(usable, i);
    ContrastIs(usable, i, criteria.minContrast, usable[i].hfr.value, bound);
    UsableFits(usable, i, found, criteria, canExtend, fitted, HasContrast(Hfrs(usable), criteria.minContrast));
  }

  // What the verdict says, each of its kinds exactly when.
  lemma AssessIs(points: seq<Point>, criteria: Criteria, canExtend: set<Direction>, fit: seq<Point> -> Option<Fit>, usable: seq<Point>, i: nat)
    requires Workable(criteria) && usable == SortPoints(Filter(points, criteria))
    requires (forall p :: p in usable ==> p.hfr.Some?) && LowestAt(usable, i)
    ensures VerdictFits(Assess(points, criteria, canExtend, fit), usable, i, FindPlateau(points, criteria), criteria, canExtend, fit(usable))
  {
    UsableIs(usable, i, FindPlateau(points, criteria), criteria, canExtend, fit(usable), usable[i].hfr.value * criteria.minContrast);
  }

  // Of fewer points than needed the verdict is that, even of none.
  lemma TooFewIff(points: seq<Point>, criteria: Criteria, canExtend: set<Direction>, fit: seq<Point> -> Option<Fit>, usable: seq<Point>)
    requires Workable(criteria) && Counted(usable, points, criteria)
    ensures Assess(points, criteria, canExtend, fit).problem == Some(TooFewStars) <==> |usable| < criteria.minPoints
  {
    var sorted := SortPoints(Filter(points, criteria));
    InOrderCounted(points, criteria);
    SameCounts(sorted, usable, points, criteria);
    OnlyTooFew(sorted, FindPlateau(points, criteria), criteria, canExtend, fit(sorted));
  }

  lemma SameCounts(a: seq<Point>, b: seq<Point>, points: seq<Point>, criteria: Criteria)
    requires Counted(a, points, criteria) && Counted(b, points, criteria)
    ensures multiset(a) == multiset(b) && |a| == |b|
  {
    forall p ensures multiset(a)[p] == multiset(b)[p] {
    }
    assert multiset(a) == multiset(b);
    SameMembers(a, b);
  }

  lemma OnlyTooFew(usable: seq<Point>, found: Option<Plateau>, criteria: Criteria, canExtend: set<Direction>, fitted: Option<Fit>)
    requires Workable(criteria) && forall p :: p in usable ==> p.hfr.Some?
    ensures AssessUsable(usable, found, criteria, canExtend, fitted).problem == Some(TooFewStars) <==> |usable| < criteria.minPoints
  {
  }

  // For points at different positions.
  lemma AssessCounted(points: seq<Point>, criteria: Criteria, canExtend: set<Direction>, fit: seq<Point> -> Option<Fit>, usable: seq<Point>, i: nat)
    requires Workable(criteria) && Counted(usable, points, criteria) && LowestAt(usable, i)
    requires forall a, b :: 0 <= a < b < |usable| ==> usable[a].position != usable[b].position
    ensures VerdictFits(Assess(points, criteria, canExtend, fit), usable, i, FindPlateau(points, criteria), criteria, canExtend, fit(usable))
  {
    var sorted := SortPoints(Filter(points, criteria));
    InOrderCounted(points, criteria);
    SameCounts(usable, sorted, points, criteria);
    CountedOnce(usable, sorted);
    AssessIs(points, criteria, canExtend, fit, usable, i);
  }

  // A fit is passed on only from between the outermost usable points.
  lemma FitOfAssess(points: seq<Point>, criteria: Criteria, canExtend: set<Direction>, fit: seq<Point> -> Option<Fit>, usable: seq<Point>)
    requires Workable(criteria) && Assess(points, criteria, canExtend, fit).fit.Some?
    requires usable == SortPoints(Filter(points, criteria))
    ensures usable != []
    ensures var c := Assess(points, criteria, canExtend, fit).fit.value.c;
            usable[0].position as real <= c <= usable[|usable| - 1].position as real
  {
    InOrderCounted(points, criteria);
    FitOfUsable(usable, FindPlateau(points, criteria), criteria, canExtend, fit(usable));
  }

  lemma FitOfUsable(usable: seq<Point>, found: Option<Plateau>, criteria: Criteria, canExtend: set<Direction>, fitted: Option<Fit>)
    requires Workable(criteria) && (forall p :: p in usable ==> p.hfr.Some?)
    requires AssessUsable(usable, found, criteria, canExtend, fitted).fit.Some?
    ensures usable != []
    ensures var c := AssessUsable(usable, found, criteria, canExtend, fitted).fit.value.c;
            usable[0].position as real <= c <= usable[|usable| - 1].position as real
  {
  }

  lemma FitLiesWithin(points: seq<Point>, criteria: Criteria, canExtend: set<Direction>, fit: seq<Point> -> Option<Fit>) returns (a: Point, b: Point)
    requires Workable(criteria) && Assess(points, criteria, canExtend, fit).fit.Some?
    ensures a in points && b in points
    ensures a.position as real <= Assess(points, criteria, canExtend, fit).fit.value.c <= b.position as real
  {
    var usable := SortPoints(Filter(points, criteria));
    FitOfAssess(points, criteria, canExtend, fit, usable);
    a, b := usable[0], usable[|usable| - 1];
    SortedFrom(points, criteria, usable, a);
    SortedFrom(points, criteria, usable, b);
  }

  lemma SortedFrom(points: seq<Point>, criteria: Criteria, usable: seq<Point>, p: Point)
    requires usable == SortPoints(Filter(points, criteria)) && p in usable
    ensures p in points
  {
    SortPointsSorts(Filter(points, criteria));
  }
}
