/** Gear slack and the moves that take it up. */
module Backlash {
  import opened Common
  import opened Sweep

  // When the approach of a focus run (server/src/nocs/focus/sweep.py, autofocus.py) puts the
  // optics at one constant offset from the motor at every target, whatever the slack at first.

  // `lag` is how far the optics stay behind a motor moving outward, 0..slack.
  datatype Gear = Gear(motor: int, lag: real)

  predicate Possible(g: Gear, slack: real) {
    0.0 <= g.lag <= slack
  }

  // The optics follow only once the slack is used up (a play operator).
  function MoveTo(g: Gear, position: int, slack: real): (r: Gear)
    requires Possible(g, slack)
    ensures Possible(r, slack) && r.motor == position
  {
    Gear(position, MinReal(MaxReal(g.lag + (position - g.motor) as real, 0.0), slack))
  }

  function Optics(g: Gear): real {
    g.motor as real - g.lag
  }

  // All the slack lies behind a motor that moves in `direction`: the optics are where it says,
  // less the same amount everywhere.
  predicate Engaged(g: Gear, direction: Direction, slack: real) {
    Optics(g) == g.motor as real - (if direction == Outward then slack else 0.0)
  }

  function Follow(g: Gear, moves: seq<int>, slack: real): (r: Gear)
    requires Possible(g, slack)
    ensures Possible(r, slack) && (moves != [] ==> r.motor == moves[|moves| - 1])
    decreases moves
  {
    if moves == [] then g else Follow(MoveTo(g, moves[0], slack), moves[1..], slack)
  }

  // How one run approaches its targets.
  datatype Approaching = Approaching(direction: Direction, overshoot: int, maximum: Option<int>)

  function GoTo(g: Gear, target: int, a: Approaching, slack: real): (r: Gear)
    requires Possible(g, slack)
    ensures Possible(r, slack) && r.motor == target
  {
    Follow(g, Approach(g.motor, target, a.direction, a.overshoot, a.maximum), slack)
  }

  // How far a move towards `target` from the wrong side goes past it, within the travel.
  function Passed(target: int, a: Approaching): int {
    Max(0, if a.direction == Outward then Min(a.overshoot, target)
           else if a.maximum.Some? then Min(a.overshoot, a.maximum.value - target)
           else a.overshoot)
  }

  function Ahead(from: int, target: int, direction: Direction): int {
    (target - from) * Sign(direction)
  }

  // How much of the slack the motor has still to take up, moving in `direction`.
  function Missing(g: Gear, direction: Direction, slack: real): real {
    if direction == Outward then slack - g.lag else g.lag
  }

  // What a move against the approach direction leaves missing: going back brings slack behind
  // the motor as far as there is any, and coming forward takes up what was passed.
  lemma AgainstMisses(g: Gear, target: int, a: Approaching, slack: real)
    requires Possible(g, slack) && InTravel(target, a.maximum)
    requires Ahead(g.motor, target, a.direction) < 0
    ensures var passed := Passed(target, a);
            Missing(GoTo(g, target, a, slack), a.direction, slack)
            == MaxReal(0.0, MinReal(slack, Missing(g, a.direction, slack) + (passed - Ahead(g.motor, target, a.direction)) as real) - passed as real)
  {
    var moves := Approach(g.motor, target, a.direction, a.overshoot, a.maximum);
    var passed := Passed(target, a);
    if passed == 0 {
      assert moves == [target];
      assert Follow(g, moves, slack) == Follow(MoveTo(g, target, slack), [], slack);
    } else {
      var beyond := target - Sign(a.direction) * passed;
      assert moves == [beyond, target];
      var back := MoveTo(g, beyond, slack);
      assert moves[1..] == [target];
      assert Follow(g, moves, slack) == Follow(back, [target], slack) == Follow(MoveTo(back, target, slack), [], slack);
    }
  }

  lemma EngagedMisses(g: Gear, direction: Direction, slack: real)
    ensures Engaged(g, direction, slack) <==> Missing(g, direction, slack) == 0.0
  {
  }

  // So it ends engaged exactly when it passes the target by the whole slack, whatever the
  // slack was before.
  lemma AgainstTakesUp(g: Gear, target: int, a: Approaching, slack: real)
    requires Possible(g, slack) && InTravel(target, a.maximum)
    requires Ahead(g.motor, target, a.direction) < 0
    ensures Engaged(GoTo(g, target, a, slack), a.direction, slack) <==> Passed(target, a) as real >= slack
  {
    AgainstMisses(g, target, a, slack);
    EngagedMisses(GoTo(g, target, a, slack), a.direction, slack);
  }

  // A move in the approach direction ends engaged exactly when it covers what is missing.
  lemma AlongTakesUp(g: Gear, target: int, a: Approaching, slack: real)
    requires Possible(g, slack) && Ahead(g.motor, target, a.direction) >= 0
    ensures Engaged(GoTo(g, target, a, slack), a.direction, slack) <==>
              Ahead(g.motor, target, a.direction) as real >= (if a.direction == Outward then slack - g.lag else g.lag)
  {
    assert Follow(g, [target], slack) == Follow(MoveTo(g, target, slack), [], slack);
  }

  // -- whole runs ---------------------------------------------------------------------------

  // Engaged at every target, starting with this slack.
  predicate AllEngaged(g: Gear, targets: seq<int>, a: Approaching, slack: real)
    requires Possible(g, slack)
    decreases targets
  {
    targets == [] || (
      var there := GoTo(g, targets[0], a, slack);
      Engaged(there, a.direction, slack) && AllEngaged(there, targets[1..], a, slack))
  }

  // Every target reached against the approach direction is passed by at least the slack.
  predicate PassesEnough(from: int, targets: seq<int>, a: Approaching, slack: real)
    decreases targets
  {
    targets == [] || (
      && (Ahead(from, targets[0], a.direction) < 0 ==> Passed(targets[0], a) as real >= slack)
      && PassesEnough(targets[0], targets[1..], a, slack))
  }

  // The first target is reached by a move that takes up any slack: past it and back, or the
  // slack's length straight to it.
  predicate StartsWell(from: int, target: int, a: Approaching, slack: real) {
    if Ahead(from, target, a.direction) < 0 then Passed(target, a) as real >= slack
    else Ahead(from, target, a.direction) as real >= slack
  }

  lemma {:induction false} EngagedStays(g: Gear, targets: seq<int>, a: Approaching, slack: real)
    requires Possible(g, slack) && Engaged(g, a.direction, slack)
    requires forall t :: t in targets ==> InTravel(t, a.maximum)
    ensures AllEngaged(g, targets, a, slack) <==> PassesEnough(g.motor, targets, a, slack)
    decreases targets
  {
    if targets != [] {
      var there := GoTo(g, targets[0], a, slack);
      if Ahead(g.motor, targets[0], a.direction) < 0 {
        AgainstTakesUp(g, targets[0], a, slack);
      } else {
        AlongTakesUp(g, targets[0], a, slack);
      }
      if Engaged(there, a.direction, slack) {
        EngagedStays(there, targets[1..], a, slack);
      }
    }
  }

  // The optics sit at the same offset at every target from any starting slack, exactly when
  // the first move takes up any slack and later moves against the direction pass by enough.
  lemma SlackDefeated(from: int, targets: seq<int>, a: Approaching, slack: real)
    requires slack >= 0.0 && targets != []
    requires forall t :: t in targets ==> InTravel(t, a.maximum)
    ensures (forall lag :: 0.0 <= lag <= slack ==> AllEngaged(Gear(from, lag), targets, a, slack))
      <==> StartsWell(from, targets[0], a, slack) && PassesEnough(targets[0], targets[1..], a, slack)
  {
    var good := StartsWell(from, targets[0], a, slack) && PassesEnough(targets[0], targets[1..], a, slack);
    if good {
      forall lag | 0.0 <= lag <= slack ensures AllEngaged(Gear(from, lag), targets, a, slack) {
        FromAnySlack(from, lag, targets, a, slack);
      }
    } else {
      var worst := if a.direction == Outward then 0.0 else slack;
      if AllEngaged(Gear(from, worst), targets, a, slack) {
        FromWorstSlack(from, worst, targets, a, slack);
      }
      assert !AllEngaged(Gear(from, worst), targets, a, slack);
    }
  }

  lemma FromAnySlack(from: int, lag: real, targets: seq<int>, a: Approaching, slack: real)
    requires 0.0 <= lag <= slack && targets != []
    requires forall t :: t in targets ==> InTravel(t, a.maximum)
    requires StartsWell(from, targets[0], a, slack) && PassesEnough(targets[0], targets[1..], a, slack)
    ensures AllEngaged(Gear(from, lag), targets, a, slack)
  {
    var g := Gear(from, lag);
    if Ahead(from, targets[0], a.direction) < 0 {
      AgainstTakesUp(g, targets[0], a, slack);
    } else {
      AlongTakesUp(g, targets[0], a, slack);
    }
    EngagedStays(GoTo(g, targets[0], a, slack), targets[1..], a, slack);
  }

  lemma FromWorstSlack(from: int, lag: real, targets: seq<int>, a: Approaching, slack: real)
    requires slack >= 0.0 && lag == (if a.direction == Outward then 0.0 else slack) && targets != []
    requires forall t :: t in targets ==> InTravel(t, a.maximum)
    requires AllEngaged(Gear(from, lag), targets, a, slack)
    ensures StartsWell(from, targets[0], a, slack) && PassesEnough(targets[0], targets[1..], a, slack)
  {
    var g := Gear(from, lag);
    if Ahead(from, targets[0], a.direction) < 0 {
      AgainstTakesUp(g, targets[0], a, slack);
    } else {
      AlongTakesUp(g, targets[0], a, slack);
    }
    EngagedStays(GoTo(g, targets[0], a, slack), targets[1..], a, slack);
  }

  // -- the sweep --------------------------------------------------------------------------------

  lemma {:induction false} MarchNeedsNoOvershoot(targets: seq<int>, step: int, a: Approaching, slack: real)
    requires targets != [] && step > 0 && Marches(targets, step, a.direction)
    ensures PassesEnough(targets[0], targets[1..], a, slack)
    decreases targets
  {
    if |targets| > 1 {
      forall i | 0 < i < |targets[1..]| ensures targets[1..][i] == targets[1..][i - 1] + Sign(a.direction) * step {
        assert targets[i + 1] == targets[i] + Sign(a.direction) * step;
      }
      MarchNeedsNoOvershoot(targets[1..], step, a, slack);
    }
  }

  lemma SweepStart(centre: int, p: seq<int>, width: int, a: Approaching)
    requires p != [] && width >= 1 && Spans(p, LowOf(p), width, |p|, a.maximum) && Placed(LowOf(p), centre, width, a.maximum)
    requires InTravel(centre, a.maximum)
    requires a.direction == Outward ==> p[0] == LowOf(p)
    requires a.direction == Inward ==> p[0] == LowOf(p) + width
    ensures Ahead(centre, p[0], a.direction) <= 0 && forall t :: t in p ==> InTravel(t, a.maximum)
  {
  }

  // A sweep around the focuser's position never starts ahead of it; so every point is taken
  // up exactly when its first one is passed by the slack, or there is no slack at all.
  lemma SweepTakesUp(centre: int, step: int, count: int, a: Approaching, slack: real)
    requires SweepPositions(centre, step, count, a.direction, a.maximum).Ok? && slack >= 0.0
    requires InTravel(centre, a.maximum)
    ensures var p := SweepPositions(centre, step, count, a.direction, a.maximum).value;
            && p != [] && Ahead(centre, p[0], a.direction) <= 0
            && ((forall lag :: 0.0 <= lag <= slack ==> AllEngaged(Gear(centre, lag), p, a, slack))
                <==> slack == 0.0 || (p[0] != centre && Passed(p[0], a) as real >= slack))
  {
    SweepFits(centre, step, count, a.direction, a.maximum);
    var p := SweepPositions(centre, step, count, a.direction, a.maximum).value;
    var width := step * (count - 1);
    StepsBetween(step, 1, count - 1);
    SweepStart(centre, p, width, a);
    SlackDefeated(centre, p, a, slack);
    MarchNeedsNoOvershoot(p, step, a, slack);
  }

  // From the inner end of the travel an outward sweep's first point is where the focuser
  // stands: no move is made, and its slack is not taken up.
  lemma SweepFromTravelEnd()
    ensures var a := Approaching(Outward, 100, Some(50000));
            var p := SweepPositions(0, 100, 9, Outward, Some(50000)).value;
            p[0] == 0 && !AllEngaged(Gear(0, 0.0), p, a, 50.0)
  {
    var a := Approaching(Outward, 100, Some(50000));
    var p := SweepPositions(0, 100, 9, Outward, Some(50000)).value;
    assert p[0] == 0;
    AlongTakesUp(Gear(0, 0.0), 0, a, 50.0);
  }

  // -- a run that goes on after its sweep ---------------------------------------------------------

  // The motor's moves for these targets, one after the other.
  function Trip(from: int, targets: seq<int>, a: Approaching): seq<int>
    decreases targets
  {
    if targets == [] then []
    else Approach(from, targets[0], a.direction, a.overshoot, a.maximum) + Trip(targets[0], targets[1..], a)
  }

  function Last(from: int, targets: seq<int>): int {
    if targets == [] then from else targets[|targets| - 1]
  }

  lemma {:induction false} TripSplit(from: int, first: seq<int>, rest: seq<int>, a: Approaching)
    ensures Trip(from, first + rest, a) == Trip(from, first, a) + Trip(Last(from, first), rest, a)
    decreases first
  {
    if first == [] {
      assert first + rest == rest;
    } else {
      assert (first + rest)[1..] == first[1..] + rest;
      TripSplit(first[0], first[1..], rest, a);
    }
  }

  lemma TripStep(from: int, targets: seq<int>, next: int, a: Approaching)
    ensures Trip(from, targets + [next], a)
         == Trip(from, targets, a) + Approach(Last(from, targets), next, a.direction, a.overshoot, a.maximum)
  {
    TripSplit(from, targets, [next], a);
    assert Trip(next, [], a) == [];
    assert [next][1..] == [];
  }

  // No move on the way leaves the travel.
  lemma {:induction false} TripInTravel(from: int, targets: seq<int>, a: Approaching)
    requires forall t :: t in targets ==> InTravel(t, a.maximum)
    ensures forall m :: m in Trip(from, targets, a) ==> InTravel(m, a.maximum)
    decreases targets
  {
    if targets != [] {
      TripInTravel(targets[0], targets[1..], a);
      assert targets[0] in targets;
    }
  }

  lemma {:induction false} FollowSplit(g: Gear, first: seq<int>, rest: seq<int>, slack: real)
    requires Possible(g, slack)
    ensures Follow(g, first + rest, slack) == Follow(Follow(g, first, slack), rest, slack)
    decreases first
  {
    if first == [] {
      assert first + rest == rest;
    } else {
      assert (first + rest)[1..] == first[1..] + rest;
      FollowSplit(MoveTo(g, first[0], slack), first[1..], rest, slack);
    }
  }

  // Engaged at every target means: after the moves made for the first `k` of them, for all k.
  lemma {:induction false} EngagedAfterMoves(g: Gear, targets: seq<int>, a: Approaching, slack: real)
    requires Possible(g, slack)
    ensures AllEngaged(g, targets, a, slack) <==>
              forall k :: 0 < k <= |targets| ==> Engaged(Follow(g, Trip(g.motor, targets[..k], a), slack), a.direction, slack)
    decreases targets
  {
    if targets != [] {
      var there := GoTo(g, targets[0], a, slack);
      var rest := targets[1..];
      forall k | 0 < k <= |targets|
        ensures Follow(g, Trip(g.motor, targets[..k], a), slack) == Follow(there, Trip(targets[0], rest[..k - 1], a), slack)
      {
        assert targets[..k][1..] == rest[..k - 1];
        FollowSplit(g, Approach(g.motor, targets[0], a.direction, a.overshoot, a.maximum), Trip(targets[0], rest[..k - 1], a), slack);
      }
      assert Follow(there, Trip(targets[0], rest[..0], a), slack) == there;
      EngagedAfterMoves(there, rest, a, slack);
      if AllEngaged(there, rest, a, slack) && Engaged(there, a.direction, slack) {
        forall k | 0 < k <= |targets| ensures Engaged(Follow(g, Trip(g.motor, targets[..k], a), slack), a.direction, slack) {
          if k > 1 {
            assert Engaged(Follow(there, Trip(there.motor, rest[..k - 1], a), slack), a.direction, slack);
          }
        }
      } else if forall k :: 0 < k <= |targets| ==> Engaged(Follow(g, Trip(g.motor, targets[..k], a), slack), a.direction, slack) {
        assert Engaged(Follow(g, Trip(g.motor, targets[..1], a), slack), a.direction, slack);
        forall k | 0 < k <= |rest| ensures Engaged(Follow(there, Trip(there.motor, rest[..k], a), slack), a.direction, slack) {
          assert Engaged(Follow(g, Trip(g.motor, targets[..k + 1], a), slack), a.direction, slack);
        }
      }
    }
  }

  // The overshoot is at least the slack, and so is the travel behind the target.
  predicate Room(target: int, a: Approaching, slack: real) {
    && a.overshoot as real >= slack
    && (if a.direction == Outward then target as real >= slack
        else a.maximum.Some? ==> (a.maximum.value - target) as real >= slack)
  }

  lemma RoomPasses(target: int, a: Approaching, slack: real)
    requires slack > 0.0
    ensures Passed(target, a) as real >= slack <==> Room(target, a, slack)
  {
  }

  lemma {:induction false} MorePasses(from: int, more: seq<int>, a: Approaching, slack: real)
    requires slack >= 0.0 && forall t :: t in more ==> slack == 0.0 || Room(t, a, slack)
    ensures PassesEnough(from, more, a, slack)
    decreases more
  {
    if more != [] {
      assert more[0] in more;
      if slack > 0.0 { RoomPasses(more[0], a, slack); }
      MorePasses(more[0], more[1..], a, slack);
    }
  }

  lemma {:induction false} MarchThenMore(targets: seq<int>, more: seq<int>, step: int, a: Approaching, slack: real)
    requires targets != [] && step > 0 && Marches(targets, step, a.direction)
    requires slack >= 0.0 && forall t :: t in more ==> slack == 0.0 || Room(t, a, slack)
    ensures PassesEnough(targets[0], (targets + more)[1..], a, slack)
    decreases targets
  {
    if |targets| == 1 {
      assert (targets + more)[1..] == more;
      MorePasses(targets[0], more, a, slack);
    } else {
      var rest := targets[1..];
      forall i | 0 < i < |rest| ensures rest[i] == rest[i - 1] + Sign(a.direction) * step {
        assert targets[i + 1] == targets[i] + Sign(a.direction) * step;
      }
      MarchThenMore(rest, more, step, a, slack);
      assert (targets + more)[1..] == rest + more;
      assert targets[1] == targets[0] + Sign(a.direction) * step;
    }
  }

  // A run that makes its planned sweep and then goes anywhere with room for its overshoot:
  // the optics sit at one offset at all its targets, from any slack, exactly when the sweep's
  // first point is not where the focuser stands and has that room too.
  lemma RunTakesUp(centre: int, step: int, count: int, a: Approaching, more: seq<int>, slack: real)
    requires SweepPositions(centre, step, count, a.direction, a.maximum).Ok? && slack > 0.0
    requires InTravel(centre, a.maximum)
    requires forall t :: t in more ==> InTravel(t, a.maximum) && Room(t, a, slack)
    ensures var p := SweepPositions(centre, step, count, a.direction, a.maximum).value;
            && p != []
            && ((forall lag :: 0.0 <= lag <= slack ==> AllEngaged(Gear(centre, lag), p + more, a, slack))
                <==> p[0] != centre && Room(p[0], a, slack))
  {
    SweepFits(centre, step, count, a.direction, a.maximum);
    var p := SweepPositions(centre, step, count, a.direction, a.maximum).value;
    var width := step * (count - 1);
    StepsBetween(step, 1, count - 1);
    SweepStart(centre, p, width, a);
    SlackDefeated(centre, p + more, a, slack);
    MarchThenMore(p, more, step, a, slack);
    RoomPasses(p[0], a, slack);
    assert (p + more)[0] == p[0];
  }
}
