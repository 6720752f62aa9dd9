/** The exposure control of server/src/nocs/calibration/flats.py. */
module Flats {
  import opened Common

  // One filter's loop, on a panel or the twilight sky, and when it is sure to succeed. Reals
  // stand for floats.

  const FULL_SCALE: real := 65535.0
  const SATURATED: real := 0.95 * FULL_SCALE
  const DARK: real := 0.01 * FULL_SCALE
  const MAX_MISSES := 8

  datatype Phase = Dusk | Dawn

  // Flats of the sky are taken in a twilight, flats of a panel in none.
  datatype Plan = Plan(phase: Option<Phase>, count: nat, target: real, tolerance: real, minExposure: real, maxExposure: real) {
    predicate Sky() {
      phase.Some?
    }
  }

  // What the plan's own validation guarantees.
  predicate ValidPlan(p: Plan) {
    && 0.1 * FULL_SCALE <= p.target <= 0.9 * FULL_SCALE
    && 0.0 < p.tolerance <= 0.5
    && 0.0 < p.minExposure < p.maxExposure
  }

  function Band(p: Plan): real {
    p.tolerance * (if p.Sky() then 2.0 else 1.0) * FULL_SCALE
  }

  predicate InBand(p: Plan, level: real) {
    Abs(level - p.target) <= Band(p)
  }

  function Clamp(p: Plan, exposure: real): real {
    MinReal(MaxReal(exposure, p.minExposure), p.maxExposure)
  }

  // The light a frame measured: its signal without the pedestal, by the second.
  function Brightness(level: real, exposure: real, pedestal: real): real
    requires exposure > 0.0
  {
    MaxReal(level - pedestal, 0.0) / exposure
  }

  // next_exposure for light whose brightness changes by `factor` until the next frame (1 on
  // a panel).
  function NextExposure(exposure: real, level: real, pedestal: real, target: real, factor: real): real
    requires exposure > 0.0 && factor > 0.0
  {
    if level >= SATURATED then exposure / 10.0
    else if level - pedestal < DARK then exposure * 10.0
    else
      assert Brightness(level, exposure, pedestal) > 0.0 by { PositiveQuotient(level - pedestal, exposure); }
      assert Brightness(level, exposure, pedestal) * factor > 0.0;
      (target - pedestal) / (Brightness(level, exposure, pedestal) * factor)
  }

  lemma PositiveQuotient(a: real, b: real)
    requires a > 0.0 && b > 0.0
    ensures a / b > 0.0
  {
    assert (a / b) * b == a;
  }

  // A frame neither clipped nor black aims at the target: with the light it measured, changed by
  // the factor, the next frame lies there. Else the search goes by steps of ten.
  lemma AimsAtTarget(exposure: real, level: real, pedestal: real, target: real, factor: real)
    requires exposure > 0.0 && factor > 0.0
    ensures var next := NextExposure(exposure, level, pedestal, target, factor);
            if level >= SATURATED then next * 10.0 == exposure
            else if level - pedestal < DARK then next == exposure * 10.0
            else pedestal + (level - pedestal) / exposure * factor * next == target
  {
    if level < SATURATED && level - pedestal >= DARK {
      PositiveQuotient(level - pedestal, exposure);
      var light := (level - pedestal) / exposure * factor;
      assert Brightness(level, exposure, pedestal) * factor == light > 0.0;
      Divided(target - pedestal, light);
    }
  }

  lemma Divided(a: real, b: real)
    requires b != 0.0
    ensures b * (a / b) == a
  {
  }

  datatype Reach = Reachable | TooDark | TooBright

  // _out_of_reach
  function OutOfReach(p: Plan, exposure: real, level: real, wanted: real): Reach {
    if level < p.target - Band(p) && exposure >= p.maxExposure && wanted > p.maxExposure then TooDark
    else if level > p.target + Band(p) && exposure <= p.minExposure && wanted < p.minExposure then TooBright
    else if p.Sky() && wanted > p.maxExposure then TooDark
    else if p.Sky() && wanted < p.minExposure then TooBright
    else Reachable
  }

  // -- one filter's loop --------------------------------------------------------------------

  datatype State = Going | Done | Stopped | Failed

  // `kept` and `unlinked` count the shots; `misses` those out of the band in a row.
  datatype Progress = Progress(exposure: real, done: nat, misses: nat, kept: nat, unlinked: nat, state: State)

  // What the outside world answers to one frame: its level, how the sky's light changes until
  // the next one (told from two kept frames), and whether the sky is still open.
  datatype Answer = Answer(level: real, factor: real, skyOpen: bool)

  predicate ValidAnswer(p: Plan, a: Answer) {
    a.factor > 0.0 && (!p.Sky() ==> a.factor == 1.0)
  }

  // Waiting helps where dusk is still too bright, and where dawn is still too dark.
  predicate TimeHelps(p: Plan, wanted: real, exposure: real) {
    match p.phase
    case None => false
    case Some(Dusk) => wanted < exposure
    case Some(Dawn) => wanted > exposure
  }

  function Begin(exposure: real): Progress {
    Progress(exposure, 0, 0, 0, 0, Going)
  }

  // The exposure for the next frame. Without two kept frames the light is taken as steady.
  function Wanted(p: Plan, pedestal: real, exposure: real, a: Answer, kept: nat): real
    requires exposure > 0.0 && a.factor > 0.0
  {
    NextExposure(exposure, a.level, pedestal, p.target, if kept >= 2 then a.factor else 1.0)
  }

  // One turn of the loop, with the exposure clamped to the limits first.
  function Turn(p: Plan, pedestal: real, g: Progress, a: Answer): Progress
    requires ValidPlan(p) && ValidAnswer(p, a)
  {
    var exposure := Clamp(p, g.exposure);
    var hit := InBand(p, a.level);
    var counted := if hit then g.(done := g.done + 1, misses := 0, kept := g.kept + 1)
                   else g.(misses := g.misses + 1, unlinked := g.unlinked + 1);
    var wanted := Wanted(p, pedestal, exposure, a, counted.kept);
    if OutOfReach(p, exposure, a.level, wanted) != Reachable then
      if TimeHelps(p, wanted, exposure) then
        if a.skyOpen then counted.(exposure := wanted) else counted.(exposure := exposure, state := Failed)
      else if p.Sky() && counted.done > 0 then counted.(exposure := wanted, state := Stopped)
      else counted.(exposure := exposure, state := Failed)
    else if counted.misses >= MAX_MISSES then counted.(exposure := exposure, state := Failed)
    else counted.(exposure := wanted)
  }

  // A turn takes one frame: kept when its level is in the band, else unlinked.
  lemma TurnCounts(p: Plan, pedestal: real, g: Progress, a: Answer)
    requires ValidPlan(p) && ValidAnswer(p, a) && g.state == Going
    ensures var t := Turn(p, pedestal, g, a);
            && t.kept == g.kept + (if InBand(p, a.level) then 1 else 0)
            && t.done == g.done + (if InBand(p, a.level) then 1 else 0)
            && t.unlinked == g.unlinked + (if InBand(p, a.level) then 0 else 1)
            && t.misses == (if InBand(p, a.level) then 0 else g.misses + 1)
            && (InBand(p, a.level) <==>
                  var off := (if p.Sky() then 2.0 * p.tolerance else p.tolerance) * FULL_SCALE;
                  p.target - off <= a.level <= p.target + off)
            && (t.state == Going && t.misses >= MAX_MISSES ==>
                  a.skyOpen && TimeHelps(p, Wanted(p, pedestal, Clamp(p, g.exposure), a, t.kept), Clamp(p, g.exposure)))
            && t.state != Done
            && (!p.Sky() && InBand(p, a.level) ==> t.state == Going)
  {
  }

  // How a turn ends the filter. On the sky, when the exposure wanted is beyond a limit: waiting
  // helps at dawn for light that is too dim and at dusk for light too bright, and fails once the
  // sky closed; where it does not help the filter stops with what it has, or fails without any.
  // Within the limits, and on a panel, eight misses in a row fail; a panel also fails where its
  // frame was too dim at the longest exposure, or too bright at the shortest, and a better one
  // would be beyond it.
  lemma TurnEnds(p: Plan, pedestal: real, g: Progress, a: Answer)
    requires ValidPlan(p) && ValidAnswer(p, a) && g.state == Going
    ensures var e, t := Clamp(p, g.exposure), Turn(p, pedestal, g, a);
            var wanted := Wanted(p, pedestal, e, a, t.kept);
            var dim, bright := wanted > p.maxExposure, wanted < p.minExposure;
            && (t.state == Stopped <==> t.done > 0 && ((dim && p.phase == Some(Dusk)) || (bright && p.phase == Some(Dawn))))
            && (t.state == Failed <==>
                if p.Sky() && (dim || bright) then
                  if (dim && p.phase == Some(Dawn)) || (bright && p.phase == Some(Dusk)) then !a.skyOpen else t.done == 0
                else
                  || t.misses >= MAX_MISSES
                  || (!InBand(p, a.level) && a.level < p.target && e == p.maxExposure && dim)
                  || (!InBand(p, a.level) && a.level > p.target && e == p.minExposure && bright))
            && t.exposure == (if t.state == Failed then e else wanted)
  {
  }

  // The loop over the answers of the outside world, until it ends or they run out.
  method Filter(p: Plan, pedestal: real, start: real, answers: seq<Answer>) returns (g: Progress, taken: seq<real>)
    requires ValidPlan(p) && forall a :: a in answers ==> ValidAnswer(p, a)
    ensures |taken| <= |answers| && g == Run(p, pedestal, Begin(start), answers)
    ensures |taken| == g.kept + g.unlinked && g.kept == g.done <= p.count
    ensures forall e :: e in taken ==> p.minExposure <= e <= p.maxExposure
    ensures g.state == Going ==> |taken| == |answers|
  {
    g, taken := Begin(start), [];
    while g.state == Going && g.done < p.count && |taken| < |answers|
      invariant |taken| <= |answers| && |taken| == g.kept + g.unlinked && g.kept == g.done <= p.count
      invariant forall e :: e in taken ==> p.minExposure <= e <= p.maxExposure
      invariant Run(p, pedestal, g, answers[|taken|..]) == Run(p, pedestal, Begin(start), answers)
      decreases |answers| - |taken|
    {
      var rest := answers[|taken|..];
      TurnCounts(p, pedestal, g, rest[0]);
      assert rest[1..] == answers[|taken| + 1..];
      taken := taken + [Clamp(p, g.exposure)];
      g := Turn(p, pedestal, g, rest[0]);
    }
    if g.state == Going && g.done >= p.count {
      g := g.(state := Done);
    }
  }

  function Run(p: Plan, pedestal: real, g: Progress, answers: seq<Answer>): Progress
    requires ValidPlan(p) && forall a :: a in answers ==> ValidAnswer(p, a)
    decreases answers
  {
    if g.state != Going then g
    else if g.done >= p.count then g.(state := Done)
    else if answers == [] then g
    else Run(p, pedestal, Turn(p, pedestal, g, answers[0]), answers[1..])
  }

  // A panel's filter ends within MAX_MISSES frames for each one wanted.
  lemma {:induction false} PanelEnds(p: Plan, pedestal: real, g: Progress, answers: seq<Answer>)
    requires ValidPlan(p) && !p.Sky() && forall a :: a in answers ==> ValidAnswer(p, a)
    requires g.state == Going && g.misses < MAX_MISSES && g.done <= p.count
    ensures var r := Run(p, pedestal, g, answers);
            && (r.state == Going ==> |answers| < MAX_MISSES * (p.count - g.done) - g.misses)
            && (r.state == Done <==> r.done == p.count)
    decreases answers
  {
    if g.done < p.count && answers != [] {
      TurnCounts(p, pedestal, g, answers[0]);
      var t := Turn(p, pedestal, g, answers[0]);
      if t.state == Going {
        PanelEnds(p, pedestal, t, answers[1..]);
      }
    }
  }

  // How a filter with all its frames ends is decided by the one that completes them: done if
  // the exposure for one more would be within the limits, or if waiting would help and the sky
  // is open; failed if waiting would help but the twilight closed; stopped otherwise.
  ghost predicate EndsAs(p: Plan, wanted: real, skyOpen: bool, state: State) {
    && (state == Done <==>
        || p.minExposure <= wanted <= p.maxExposure || !p.Sky()
        || (skyOpen && (if wanted > p.maxExposure then p.phase == Some(Dawn) else p.phase == Some(Dusk))))
    && (state == Failed <==>
        && !skyOpen && ((wanted > p.maxExposure && p.phase == Some(Dawn)) || (wanted < p.minExposure && p.phase == Some(Dusk))))
    && (state == Stopped <==>
        (wanted > p.maxExposure && p.phase == Some(Dusk)) || (wanted < p.minExposure && p.phase == Some(Dawn)))
    && state != Going
  }

  lemma LastTurn(p: Plan, pedestal: real, g: Progress, a: Answer)
    requires ValidPlan(p) && ValidAnswer(p, a) && g.state == Going && g.done + 1 == p.count && InBand(p, a.level)
    requires g.kept == g.done
    ensures var wanted := Wanted(p, pedestal, Clamp(p, g.exposure), a, p.count);
            EndsAs(p, wanted, a.skyOpen, Run(p, pedestal, Turn(p, pedestal, g, a), []).state)
  {
    var t := Turn(p, pedestal, g, a);
    assert t.done == p.count && t.kept == p.count;
  }

  // Over every run with any answers: the frame that completes the filter, and how it ends.
  lemma {:induction false} CompleteEnds(p: Plan, pedestal: real, g: Progress, answers: seq<Answer>)
    returns (k: nat, last: Progress)
    requires ValidPlan(p) && forall a :: a in answers ==> ValidAnswer(p, a)
    requires g.state == Going && g.done == g.kept < p.count
    requires Run(p, pedestal, g, answers).done == p.count
    ensures k < |answers| && last == Run(p, pedestal, g, answers[..k]) && last.state == Going && last.done == p.count - 1
    ensures ValidAnswer(p, answers[k]) && InBand(p, answers[k].level)
    ensures EndsAs(p, Wanted(p, pedestal, Clamp(p, last.exposure), answers[k], p.count), answers[k].skyOpen,
                   Run(p, pedestal, g, answers).state)
    decreases answers
  {
    var t := Turn(p, pedestal, g, answers[0]);
    TurnCounts(p, pedestal, g, answers[0]);
    if t.done == p.count {
      k, last := 0, g;
      LastTurn(p, pedestal, g, answers[0]);
      assert Run(p, pedestal, t, answers[1..]) == Run(p, pedestal, t, []);
    } else {
      k, last := CompleteEnds(p, pedestal, t, answers[1..]);
      k := k + 1;
      assert answers[..k][0] == answers[0] && answers[..k][1..] == answers[1..][..k - 1];
    }
  }

  // -- light that changes as told ------------------------------------------------------------------

  // How many frames are kept with this one.
  function KeptWith(p: Plan, g: Progress, a: Answer): nat {
    g.kept + (if InBand(p, a.level) then 1 else 0)
  }

  // How the light is taken to change: from two kept frames on by the factor told, else not.
  function Change(p: Plan, g: Progress, a: Answer): (c: real)
    requires ValidAnswer(p, a)
    ensures c > 0.0
  {
    if KeptWith(p, g, a) >= 2 then a.factor else 1.0
  }

  // The light of the next frame, by the second.
  function Light(p: Plan, pedestal: real, g: Progress, a: Answer): real
    requires ValidPlan(p) && ValidAnswer(p, a)
  {
    (a.level - pedestal) / Clamp(p, g.exposure) * Change(p, g, a)
  }

  // The frame is neither clipped nor black, and the exposure that has this light reach the target
  // is within the limits.
  ghost predicate Aims(p: Plan, pedestal: real, a: Answer, light: real, next: real) {
    && DARK + pedestal <= a.level < SATURATED && p.minExposure <= next <= p.maxExposure
    && pedestal + light * next == p.target
  }

  // Each frame aims at the target, and the next one sees that light.
  ghost predicate Tracks(p: Plan, pedestal: real, g: Progress, answers: seq<Answer>)
    requires ValidPlan(p) && forall a :: a in answers ==> ValidAnswer(p, a)
    decreases answers
  {
    answers == [] || (
      var light, t := Light(p, pedestal, g, answers[0]), Turn(p, pedestal, g, answers[0]);
      && (exists next :: Aims(p, pedestal, answers[0], light, next))
      && (|answers| > 1 ==> Sees(pedestal, light, Clamp(p, t.exposure), answers[1]))
      && Tracks(p, pedestal, t, answers[1..]))
  }

  ghost predicate Sees(pedestal: real, light: real, exposure: real, a: Answer) {
    a.level == pedestal + light * exposure
  }

  lemma WithinReach(p: Plan, exposure: real, level: real, wanted: real)
    requires p.minExposure <= wanted <= p.maxExposure
    ensures OutOfReach(p, exposure, level, wanted) == Reachable
  {
  }

  lemma AimIs(exposure: real, level: real, pedestal: real, target: real, factor: real, light: real, next: real)
    requires exposure > 0.0 && factor > 0.0 && level < SATURATED && level - pedestal >= DARK
    requires light == (level - pedestal) / exposure * factor && pedestal + light * next == target
    ensures NextExposure(exposure, level, pedestal, target, factor) == next
  {
    AimsAtTarget(exposure, level, pedestal, target, factor);
    PositiveQuotient(level - pedestal, exposure);
    SameFactor(light, next, NextExposure(exposure, level, pedestal, target, factor));
  }

  // There is only one exposure that aims so, and the loop wants it.
  lemma WantsTheAim(p: Plan, pedestal: real, g: Progress, a: Answer, next: real)
    requires ValidPlan(p) && ValidAnswer(p, a) && Aims(p, pedestal, a, Light(p, pedestal, g, a), next)
    ensures Wanted(p, pedestal, Clamp(p, g.exposure), a, KeptWith(p, g, a)) == next
  {
    AimIs(Clamp(p, g.exposure), a.level, pedestal, p.target, Change(p, g, a), Light(p, pedestal, g, a), next);
  }

  lemma SameFactor(k: real, x: real, y: real)
    requires k > 0.0 && k * x == k * y
    ensures x == y
  {
    assert k * (x - y) == 0.0;
  }

  lemma AimedTurn(p: Plan, pedestal: real, g: Progress, a: Answer, next: real)
    requires ValidPlan(p) && ValidAnswer(p, a) && Aims(p, pedestal, a, Light(p, pedestal, g, a), next) && g.state == Going
    requires g.misses + (if InBand(p, a.level) then 0 else 1) < MAX_MISSES
    ensures var t := Turn(p, pedestal, g, a);
            && t.state == Going && t.exposure == next && t.misses == (if InBand(p, a.level) then 0 else g.misses + 1)
            && t.done == g.done + (if InBand(p, a.level) then 1 else 0)
            && t.unlinked == g.unlinked + (if InBand(p, a.level) then 0 else 1)
  {
    WantsTheAim(p, pedestal, g, a, next);
    WithinReach(p, Clamp(p, g.exposure), a.level, next);
  }

  lemma OnTarget(p: Plan)
    requires ValidPlan(p)
    ensures InBand(p, p.target)
  {
    assert p.tolerance * FULL_SCALE > 0.0;
  }

  lemma TrackedHead(p: Plan, pedestal: real, g: Progress, answers: seq<Answer>, t: Progress) returns (light: real, next: real)
    requires ValidPlan(p) && forall a :: a in answers ==> ValidAnswer(p, a)
    requires answers != [] && Tracks(p, pedestal, g, answers) && t == Turn(p, pedestal, g, answers[0])
    ensures light == Light(p, pedestal, g, answers[0]) && Aims(p, pedestal, answers[0], light, next)
    ensures |answers| > 1 ==> Sees(pedestal, light, Clamp(p, t.exposure), answers[1])
    ensures Tracks(p, pedestal, t, answers[1..])
  {
    light := Light(p, pedestal, g, answers[0]);
    next :| Aims(p, pedestal, answers[0], light, next);
  }

  lemma SeesTarget(p: Plan, pedestal: real, a: Answer, light: real, next: real, exposure: real, b: Answer)
    requires ValidPlan(p) && Aims(p, pedestal, a, light, next) && exposure == next && Sees(pedestal, light, Clamp(p, exposure), b)
    ensures b.level == p.target && InBand(p, b.level)
  {
    OnTarget(p);
  }

  lemma TrackedStep(p: Plan, pedestal: real, g: Progress, answers: seq<Answer>, t: Progress, missed: nat)
    requires ValidPlan(p) && forall a :: a in answers ==> ValidAnswer(p, a)
    requires answers != [] && Tracks(p, pedestal, g, answers) && t == Turn(p, pedestal, g, answers[0]) && g.state == Going
    requires missed == (if InBand(p, answers[0].level) then 0 else 1) && g.misses + missed < MAX_MISSES
    ensures t.state == Going && t.misses < MAX_MISSES && t.done == g.done + 1 - missed && t.unlinked == g.unlinked + missed
    ensures Tracks(p, pedestal, t, answers[1..])
    ensures |answers| > 1 ==> answers[1].level == p.target && InBand(p, answers[1].level)
  {
    var light, next := TrackedHead(p, pedestal, g, answers, t);
    AimedTurn(p, pedestal, g, answers[0], next);
    if |answers| > 1 {
      SeesTarget(p, pedestal, answers[0], light, next, t.exposure, answers[1]);
    }
  }

  // Then every frame but the first is on the target and kept, up to those wanted, on the sky as
  // on a panel.
  lemma {:induction false} TrackedAllKept(p: Plan, pedestal: real, g: Progress, answers: seq<Answer>, missed: nat)
    requires ValidPlan(p) && forall a :: a in answers ==> ValidAnswer(p, a)
    requires g.state == Going && g.done < p.count && answers != [] && Tracks(p, pedestal, g, answers)
    requires missed == (if InBand(p, answers[0].level) then 0 else 1) && g.misses + missed < MAX_MISSES
    ensures var r := Run(p, pedestal, g, answers);
            && r.done == Min(p.count, g.done + |answers| - missed) && r.unlinked == g.unlinked + missed
            && r.state == (if r.done == p.count then Done else Going)
    ensures |answers| > 1 ==> answers[1].level == p.target
    decreases answers
  {
    var t, rest := Turn(p, pedestal, g, answers[0]), answers[1..];
    TrackedStep(p, pedestal, g, answers, t, missed);
    RunStep(p, pedestal, g, answers, t);
    if rest != [] && t.done < p.count {
      TrackedAllKept(p, pedestal, t, rest, 0);
    } else {
      RunEnds(p, pedestal, t, rest);
    }
  }

  lemma RunStep(p: Plan, pedestal: real, g: Progress, answers: seq<Answer>, t: Progress)
    requires ValidPlan(p) && forall a :: a in answers ==> ValidAnswer(p, a)
    requires g.state == Going && g.done < p.count && answers != [] && t == Turn(p, pedestal, g, answers[0])
    ensures Run(p, pedestal, g, answers) == Run(p, pedestal, t, answers[1..])
  {
  }

  lemma RunEnds(p: Plan, pedestal: real, g: Progress, answers: seq<Answer>)
    requires ValidPlan(p) && forall a :: a in answers ==> ValidAnswer(p, a)
    requires g.state == Going && (g.done >= p.count || answers == [])
    ensures Run(p, pedestal, g, answers) == if g.done >= p.count then g.(state := Done) else g
  {
  }

  // So a filter with all its frames can be told to have failed, at dawn, or to have been
  // stopped, at dusk: the exposure for one more frame is out of the limits.
  lemma SkyFailsComplete()
    ensures var p := Plan(Some(Dawn), 1, 0.5 * FULL_SCALE, 0.1, 1.0, 2.0);
            var g := Run(p, 0.0, Begin(2.0), [Answer(0.4 * FULL_SCALE, 1.0, false)]);
            g.done == p.count && g.state == Failed
    ensures var p := Plan(Some(Dusk), 1, 0.5 * FULL_SCALE, 0.1, 1.0, 2.0);
            var g := Run(p, 0.0, Begin(2.0), [Answer(0.4 * FULL_SCALE, 1.0, true)]);
            g.done == p.count && g.state == Stopped
  {
    var dawn := Plan(Some(Dawn), 1, 0.5 * FULL_SCALE, 0.1, 1.0, 2.0);
    var dusk := dawn.(phase := Some(Dusk));
    var late, early := Answer(0.4 * FULL_SCALE, 1.0, false), Answer(0.4 * FULL_SCALE, 1.0, true);
    assert Brightness(0.4 * FULL_SCALE, 2.0, 0.0) == 0.2 * FULL_SCALE;
    assert Wanted(dawn, 0.0, 2.0, late, 1) == 2.5 by {
      assert (0.5 * FULL_SCALE) / (0.2 * FULL_SCALE) == 2.5;
    }
    LastTurn(dawn, 0.0, Begin(2.0), late);
    LastTurn(dusk, 0.0, Begin(2.0), early);
    assert Run(dawn, 0.0, Begin(2.0), [late]) == Run(dawn, 0.0, Turn(dawn, 0.0, Begin(2.0), late), []);
    assert Run(dusk, 0.0, Begin(2.0), [early]) == Run(dusk, 0.0, Turn(dusk, 0.0, Begin(2.0), early), []);
  }

  // -- a steady panel ---------------------------------------------------------------------------

  // Light of a constant rate above the pedestal, clipped at full scale.
  datatype Panel = Panel(rate: real, pedestal: real)

  function Level(panel: Panel, exposure: real): real {
    MinReal(panel.pedestal + panel.rate * exposure, FULL_SCALE)
  }

  function Best(p: Plan, panel: Panel): real
    requires panel.rate > 0.0
  {
    (p.target - panel.pedestal) / panel.rate
  }

  // The target is within reach of this panel, and no step of ten can jump over it.
  ghost predicate Steady(p: Plan, panel: Panel) {
    && ValidPlan(p) && !p.Sky()
    && panel.rate > 0.0 && panel.pedestal < 0.85 * FULL_SCALE && p.target - panel.pedestal >= DARK
    && p.minExposure <= Best(p, panel) <= p.maxExposure
  }

  // And six steps of ten reach from one limit to the other.
  ghost predicate Suits(p: Plan, panel: Panel) {
    Steady(p, panel) && p.maxExposure <= 1000000.0 * p.minExposure
  }

  function PanelTurn(p: Plan, panel: Panel, g: Progress): Progress
    requires ValidPlan(p) && !p.Sky()
  {
    Turn(p, panel.pedestal, g, Answer(Level(panel, Clamp(p, g.exposure)), 1.0, false))
  }

  // At most `frames` frames of the loop on this panel.
  function PanelRun(p: Plan, panel: Panel, g: Progress, frames: nat): Progress
    requires ValidPlan(p) && !p.Sky()
    decreases frames
  {
    if g.state != Going then g
    else if g.done >= p.count then g.(state := Done)
    else if frames == 0 then g
    else PanelRun(p, panel, PanelTurn(p, panel, g), frames - 1)
  }

  function Tens(n: nat): real {
    if n == 0 then 1.0 else 10.0 * Tens(n - 1)
  }

  predicate Clipped(panel: Panel, exposure: real) {
    panel.pedestal + panel.rate * exposure >= SATURATED
  }

  predicate Black(panel: Panel, exposure: real) {
    panel.rate * exposure < DARK
  }

  // Where the search stands: on the exposure that hits; or coming down from clipped frames, or
  // up from black ones, with at most `n` steps of ten left to the limit on that side.
  ghost predicate Settled(p: Plan, panel: Panel, g: Progress)
    requires Suits(p, panel)
  {
    g.exposure == Best(p, panel) && g.unlinked <= 7
  }

  ghost predicate Falling(p: Plan, panel: Panel, g: Progress, n: nat)
    requires Suits(p, panel)
  {
    var e := Clamp(p, g.exposure);
    e <= Tens(n) * p.minExposure && !Black(panel, e) && g.unlinked + n <= 6
  }

  ghost predicate Rising(p: Plan, panel: Panel, g: Progress, n: nat)
    requires Suits(p, panel)
  {
    var e := Clamp(p, g.exposure);
    p.maxExposure <= Tens(n) * e && !Clipped(panel, e) && g.unlinked + n <= 6
  }

  ghost predicate OnCourse(p: Plan, panel: Panel, g: Progress)
    requires Suits(p, panel)
  {
    && g.state == Going && g.misses <= g.unlinked && g.unlinked <= 7
    && (Settled(p, panel, g) || (exists n: nat :: Falling(p, panel, g, n)) || (exists n: nat :: Rising(p, panel, g, n)))
  }

  lemma MoreLight(panel: Panel, a: real, b: real)
    requires panel.rate > 0.0 && a <= b
    ensures panel.rate * a <= panel.rate * b
  {
  }

  lemma TargetLight(p: Plan, panel: Panel)
    requires Steady(p, panel)
    ensures panel.rate * Best(p, panel) == p.target - panel.pedestal
  {
  }

  // A frame neither clipped nor black tells the exposure for the target exactly.
  lemma MeasuredRight(p: Plan, panel: Panel, e: real)
    requires Steady(p, panel) && e > 0.0 && !Clipped(panel, e) && !Black(panel, e)
    ensures NextExposure(e, Level(panel, e), panel.pedestal, p.target, 1.0) == Best(p, panel)
  {
    var light := panel.rate * e;
    assert Level(panel, e) == panel.pedestal + light;
    assert Brightness(Level(panel, e), e, panel.pedestal) == light / e;
    assert light / e == panel.rate;
  }

  lemma BelowBestNotClipped(p: Plan, panel: Panel, e: real)
    requires Steady(p, panel) && e <= Best(p, panel)
    ensures !Clipped(panel, e)
  {
    TargetLight(p, panel);
    MoreLight(panel, e, Best(p, panel));
    assert panel.pedestal + panel.rate * e <= p.target;
  }

  lemma AboveBestNotBlack(p: Plan, panel: Panel, e: real)
    requires Steady(p, panel) && e >= Best(p, panel)
    ensures !Black(panel, e)
  {
    TargetLight(p, panel);
    MoreLight(panel, Best(p, panel), e);
  }

  lemma ReachableAt(p: Plan, panel: Panel, e: real)
    requires Steady(p, panel) && p.minExposure <= e <= p.maxExposure
    ensures OutOfReach(p, e, Level(panel, e), NextExposure(e, Level(panel, e), panel.pedestal, p.target, 1.0)) == Reachable
    ensures Clipped(panel, e) ==> e > p.minExposure
    ensures Black(panel, e) ==> e < p.maxExposure
  {
    if e <= Best(p, panel) { BelowBestNotClipped(p, panel, e); }
    if e >= Best(p, panel) { AboveBestNotBlack(p, panel, e); }
    if !Clipped(panel, e) && !Black(panel, e) {
      MeasuredRight(p, panel, e);
    }
  }

  lemma SettledStays(p: Plan, panel: Panel, g: Progress)
    requires Suits(p, panel) && OnCourse(p, panel, g) && Settled(p, panel, g)
    ensures var t := PanelTurn(p, panel, g);
            OnCourse(p, panel, t) && Settled(p, panel, t) && t.done == g.done + 1 && t.unlinked == g.unlinked
  {
    TargetLight(p, panel);
    var e := Best(p, panel);
    assert Clamp(p, g.exposure) == e;
    assert Level(panel, e) == p.target;
    MeasuredRight(p, panel, e);
    ReachableAt(p, panel, e);
  }

  // Ten times less light cannot turn a clipped frame black, nor ten times more a black one
  // clipped: there is a decade between the two.
  lemma DecadeBelow(p: Plan, panel: Panel, e: real, next: real)
    requires Steady(p, panel) && Clipped(panel, e) && next >= e / 10.0
    ensures !Black(panel, next)
  {
    TimesTen(panel.rate, e / 10.0);
    MoreLight(panel, e / 10.0, next);
    assert panel.rate * e <= 10.0 * (panel.rate * next);
  }

  lemma DecadeAbove(p: Plan, panel: Panel, e: real, next: real)
    requires Steady(p, panel) && Black(panel, e) && next <= e * 10.0
    ensures !Clipped(panel, next)
  {
    TimesTen(panel.rate, e);
    MoreLight(panel, next, e * 10.0);
    assert panel.rate * next <= 10.0 * (panel.rate * e);
  }

  lemma DecadeBetween(p: Plan, panel: Panel, e: real, next: real)
    requires Steady(p, panel)
    ensures Clipped(panel, e) && next >= e / 10.0 ==> !Black(panel, next)
    ensures Black(panel, e) && next <= e * 10.0 ==> !Clipped(panel, next)
  {
    if Clipped(panel, e) && next >= e / 10.0 {
      DecadeBelow(p, panel, e, next);
    }
    if Black(panel, e) && next <= e * 10.0 {
      DecadeAbove(p, panel, e, next);
    }
  }

  lemma TimesTen(rate: real, x: real)
    ensures rate * (x * 10.0) == 10.0 * (rate * x)
  {
  }

  // A turn on this panel: on to the next exposure, one more frame kept or unlinked.
  lemma PanelTurnGoesOn(p: Plan, panel: Panel, g: Progress)
    requires Steady(p, panel) && g.state == Going && g.misses <= g.unlinked <= 6
    ensures var e := Clamp(p, g.exposure);
            var t := PanelTurn(p, panel, g);
            && t.exposure == NextExposure(e, Level(panel, e), panel.pedestal, p.target, 1.0)
            && t.state == Going && t.misses <= t.unlinked
            && t.done + t.unlinked == g.done + g.unlinked + 1 && g.unlinked <= t.unlinked <= g.unlinked + 1
  {
    ReachableAt(p, panel, Clamp(p, g.exposure));
  }

  lemma FallingGoesOn(p: Plan, panel: Panel, g: Progress, n: nat)
    requires Suits(p, panel) && g.state == Going && g.misses <= g.unlinked && Falling(p, panel, g, n)
    ensures var t := PanelTurn(p, panel, g);
            OnCourse(p, panel, t) && t.done + t.unlinked == g.done + g.unlinked + 1
  {
    var e := Clamp(p, g.exposure);
    var t := PanelTurn(p, panel, g);
    PanelTurnGoesOn(p, panel, g);
    if Clipped(panel, e) {
      ReachableAt(p, panel, e);
      assert n > 0;
      DecadeBetween(p, panel, e, Clamp(p, e / 10.0));
      Lower(n, p, e);
      assert Falling(p, panel, t, n - 1);
    } else {
      MeasuredRight(p, panel, e);
      assert Settled(p, panel, t);
    }
  }

  lemma RisingGoesOn(p: Plan, panel: Panel, g: Progress, n: nat)
    requires Suits(p, panel) && g.state == Going && g.misses <= g.unlinked && Rising(p, panel, g, n)
    ensures var t := PanelTurn(p, panel, g);
            OnCourse(p, panel, t) && t.done + t.unlinked == g.done + g.unlinked + 1
  {
    var e := Clamp(p, g.exposure);
    var t := PanelTurn(p, panel, g);
    PanelTurnGoesOn(p, panel, g);
    if Black(panel, e) {
      ReachableAt(p, panel, e);
      assert n > 0;
      DecadeBetween(p, panel, e, Clamp(p, e * 10.0));
      Higher(n, p, e);
      assert Rising(p, panel, t, n - 1);
    } else {
      MeasuredRight(p, panel, e);
      assert Settled(p, panel, t);
    }
  }

  lemma {:induction false} AtLeastOne(n: nat, x: real)
    requires x >= 0.0
    ensures Tens(n) >= 1.0 && x <= Tens(n) * x
  {
    if n > 0 { AtLeastOne(n - 1, x); }
    var t := Tens(n);
    assert (t - 1.0) * x >= 0.0;
  }

  lemma Lower(n: nat, p: Plan, e: real)
    requires ValidPlan(p) && n > 0 && e <= Tens(n) * p.minExposure
    ensures Clamp(p, e / 10.0) <= Tens(n - 1) * p.minExposure
  {
    var before := Tens(n - 1) * p.minExposure;
    assert Tens(n) * p.minExposure == 10.0 * before;
    AtLeastOne(n - 1, p.minExposure);
  }

  lemma Higher(n: nat, p: Plan, e: real)
    requires ValidPlan(p) && n > 0 && p.maxExposure <= Tens(n) * e && p.minExposure <= e <= p.maxExposure
    ensures p.maxExposure <= Tens(n - 1) * Clamp(p, e * 10.0)
  {
    var tens := Tens(n - 1);
    assert Tens(n) * e == tens * (e * 10.0);
    AtLeastOne(n - 1, p.maxExposure);
  }

  lemma TurnStaysOnCourse(p: Plan, panel: Panel, g: Progress)
    requires Suits(p, panel) && OnCourse(p, panel, g)
    ensures var t := PanelTurn(p, panel, g);
            OnCourse(p, panel, t) && t.done + t.unlinked == g.done + g.unlinked + 1
  {
    if Settled(p, panel, g) {
      SettledStays(p, panel, g);
    } else if n: nat :| Falling(p, panel, g, n) {
      FallingGoesOn(p, panel, g, n);
    } else {
      var n: nat :| Rising(p, panel, g, n);
      RisingGoesOn(p, panel, g, n);
    }
  }

  lemma StartsOnCourse(p: Plan, panel: Panel, start: real)
    requires Suits(p, panel)
    ensures OnCourse(p, panel, Begin(start))
  {
    var g := Begin(start);
    var e := Clamp(p, start);
    assert Tens(6) == 1000000.0;
    if Black(panel, e) {
      assert p.maxExposure <= Tens(6) * e;
      DecadeBetween(p, panel, e, e);
      assert Rising(p, panel, g, 6);
    } else {
      assert e <= Tens(6) * p.minExposure;
      assert Falling(p, panel, g, 6);
    }
  }

  // On a steady panel that suits the plan the filter never gives up: from any first exposure
  // it takes every frame wanted, with at most seven out of the band on the way.
  lemma {:induction false} PanelSucceedsFrom(p: Plan, panel: Panel, g: Progress, frames: nat)
    requires Suits(p, panel) && OnCourse(p, panel, g) && g.done <= p.count
    requires frames >= (p.count - g.done) + (7 - g.unlinked)
    ensures var r := PanelRun(p, panel, g, frames);
            r.state == Done && r.done == p.count && r.unlinked <= 7
    decreases frames
  {
    if g.done < p.count {
      TurnStaysOnCourse(p, panel, g);
      var t := PanelTurn(p, panel, g);
      PanelSucceedsFrom(p, panel, t, frames - 1);
    }
  }

  // The frames of this panel, as the loop meets them.
  function PanelAnswers(p: Plan, panel: Panel, g: Progress, frames: nat): (answers: seq<Answer>)
    requires ValidPlan(p) && !p.Sky()
    ensures |answers| <= frames && forall a :: a in answers ==> ValidAnswer(p, a)
    decreases frames
  {
    if g.state != Going || g.done >= p.count || frames == 0 then []
    else [Answer(Level(panel, Clamp(p, g.exposure)), 1.0, false)] + PanelAnswers(p, panel, PanelTurn(p, panel, g), frames - 1)
  }

  lemma {:induction false} PanelRunIsRun(p: Plan, panel: Panel, g: Progress, frames: nat)
    requires ValidPlan(p) && !p.Sky()
    ensures Run(p, panel.pedestal, g, PanelAnswers(p, panel, g, frames)) == PanelRun(p, panel, g, frames)
    decreases frames
  {
    if g.state == Going && g.done < p.count && frames > 0 {
      var answers := PanelAnswers(p, panel, g, frames);
      assert answers[1..] == PanelAnswers(p, panel, PanelTurn(p, panel, g), frames - 1);
      PanelRunIsRun(p, panel, PanelTurn(p, panel, g), frames - 1);
    }
  }

  lemma PanelSucceeds(p: Plan, panel: Panel, start: real, frames: nat)
    requires Suits(p, panel) && frames >= p.count + 7
    ensures var r := Run(p, panel.pedestal, Begin(start), PanelAnswers(p, panel, Begin(start), frames));
            r.state == Done && r.done == p.count && r.unlinked <= 7
  {
    StartsOnCourse(p, panel, start);
    PanelSucceedsFrom(p, panel, Begin(start), frames);
    PanelRunIsRun(p, panel, Begin(start), frames);
  }

  // -- exactly when a panel's filter gives up --------------------------------------------------

  // The exposures of its frames, one after the other, kept or not.
  function Search(p: Plan, panel: Panel, start: real, k: nat): (e: real)
    requires ValidPlan(p)
    ensures p.minExposure <= e <= p.maxExposure
  {
    if k == 0 then Clamp(p, start)
    else
      var e := Search(p, panel, start, k - 1);
      Clamp(p, NextExposure(e, Level(panel, e), panel.pedestal, p.target, 1.0))
  }

  predicate Hits(p: Plan, panel: Panel, e: real) {
    InBand(p, Level(panel, e))
  }

  // Once a frame was kept at most one more is not: the next exposure hits, or is the best one,
  // or is measured right and followed by the best one.
  ghost predicate Homing(p: Plan, panel: Panel, g: Progress)
    requires Steady(p, panel)
  {
    var e := Clamp(p, g.exposure);
    && g.state == Going
    && ((e == Best(p, panel) && g.misses <= 1 && g.unlinked <= 8)
        || (g.misses == 0 && g.unlinked <= 7 && (Hits(p, panel, e) || (!Clipped(panel, e) && !Black(panel, e)))))
  }

  lemma BestHits(p: Plan, panel: Panel)
    requires Steady(p, panel)
    ensures Hits(p, panel, Best(p, panel)) && !Clipped(panel, Best(p, panel)) && !Black(panel, Best(p, panel))
  {
    TargetLight(p, panel);
    BelowBestNotClipped(p, panel, Best(p, panel));
    AboveBestNotBlack(p, panel, Best(p, panel));
  }

  lemma MoreLevel(panel: Panel, a: real, b: real)
    requires panel.rate > 0.0 && a <= b
    ensures Level(panel, a) <= Level(panel, b)
  {
    MoreLight(panel, a, b);
  }

  // After a clipped frame that hits the next one does, or is neither clipped nor black.
  lemma ClippedHit(p: Plan, panel: Panel, e: real, next: real)
    requires Steady(p, panel) && Hits(p, panel, e) && Clipped(panel, e) && e / 10.0 <= next <= e
    ensures Hits(p, panel, next) || (!Clipped(panel, next) && !Black(panel, next))
  {
    DecadeBetween(p, panel, e, next);
    MoreLevel(panel, next, e);
    if Clipped(panel, next) {
      ClippedAboveTarget(p, panel, next);
      ClippedAboveTarget(p, panel, e);
    }
  }

  lemma ClippedAboveTarget(p: Plan, panel: Panel, e: real)
    requires ValidPlan(p) && Clipped(panel, e)
    ensures p.target <= Level(panel, e)
  {
    assert SATURATED > 0.9 * FULL_SCALE;
  }

  lemma BlackBelowTarget(p: Plan, panel: Panel, e: real)
    requires Steady(p, panel) && Black(panel, e)
    ensures Level(panel, e) <= p.target
  {
  }

  lemma BlackHit(p: Plan, panel: Panel, e: real, next: real)
    requires Steady(p, panel) && Hits(p, panel, e) && Black(panel, e) && e <= next <= e * 10.0
    ensures Hits(p, panel, next) || (!Clipped(panel, next) && !Black(panel, next))
  {
    DecadeBetween(p, panel, e, next);
    MoreLevel(panel, e, next);
    if Black(panel, next) {
      BlackBelowTarget(p, panel, next);
      BlackBelowTarget(p, panel, e);
    }
  }

  // What follows a frame that hits, or is measured right.
  lemma NextHits(p: Plan, panel: Panel, e: real, next: real)
    requires Steady(p, panel) && p.minExposure <= e <= p.maxExposure
    requires next == Clamp(p, NextExposure(e, Level(panel, e), panel.pedestal, p.target, 1.0))
    ensures !Clipped(panel, e) && !Black(panel, e) ==> next == Best(p, panel)
    ensures Hits(p, panel, e) ==> Hits(p, panel, next) || (!Clipped(panel, next) && !Black(panel, next))
  {
    ReachableAt(p, panel, e);
    if !Clipped(panel, e) && !Black(panel, e) {
      MeasuredRight(p, panel, e);
      BestHits(p, panel);
    } else if Hits(p, panel, e) {
      if Clipped(panel, e) {
        ClippedHit(p, panel, e, next);
      } else {
        BlackHit(p, panel, e, next);
      }
    }
  }

  // A turn that does not end the filter.
  lemma SteadyTurn(p: Plan, panel: Panel, g: Progress)
    requires Steady(p, panel) && g.state == Going
    ensures var e := Clamp(p, g.exposure);
            var t := PanelTurn(p, panel, g);
            && t.done == g.done + (if Hits(p, panel, e) then 1 else 0)
            && t.unlinked == g.unlinked + (if Hits(p, panel, e) then 0 else 1)
            && t.misses == (if Hits(p, panel, e) then 0 else g.misses + 1)
            && t.state == (if t.misses >= MAX_MISSES then Failed else Going)
            && (t.state == Going ==> t.exposure == NextExposure(e, Level(panel, e), panel.pedestal, p.target, 1.0))
  {
    ReachableAt(p, panel, Clamp(p, g.exposure));
  }

  lemma HomingStays(p: Plan, panel: Panel, g: Progress)
    requires Steady(p, panel) && Homing(p, panel, g)
    ensures var t := PanelTurn(p, panel, g);
            Homing(p, panel, t) && t.done + t.unlinked == g.done + g.unlinked + 1
  {
    var e := Clamp(p, g.exposure);
    BestHits(p, panel);
    SteadyTurn(p, panel, g);
    NextHits(p, panel, e, Clamp(p, PanelTurn(p, panel, g).exposure));
  }

  lemma {:induction false} HomingEnds(p: Plan, panel: Panel, g: Progress, frames: nat)
    requires Steady(p, panel) && Homing(p, panel, g) && g.done <= p.count
    requires frames >= (p.count - g.done) + (8 - g.unlinked)
    ensures var r := PanelRun(p, panel, g, frames);
            r.state == Done && r.done == p.count && r.unlinked <= 8
    decreases frames
  {
    if g.done < p.count {
      HomingStays(p, panel, g);
      SteadyTurn(p, panel, g);
      HomingEnds(p, panel, PanelTurn(p, panel, g), frames - 1);
    }
  }

  // The frames of the search from the `k`th to the eighth all miss.
  ghost predicate AllMiss(p: Plan, panel: Panel, start: real, k: nat)
    requires ValidPlan(p)
  {
    forall i :: k <= i < MAX_MISSES ==> !Hits(p, panel, Search(p, panel, start, i))
  }

  // The first `k` frames missed.
  ghost predicate MissedSoFar(p: Plan, panel: Panel, start: real, g: Progress, k: nat)
    requires ValidPlan(p)
  {
    && g.state == Going && g.done == 0 && g.misses == k && g.unlinked == k
    && Clamp(p, g.exposure) == Search(p, panel, start, k)
  }

  lemma {:induction false} GivesUpFrom(p: Plan, panel: Panel, start: real, g: Progress, k: nat, frames: nat)
    requires Steady(p, panel) && p.count >= 1 && k < MAX_MISSES && frames >= p.count + (MAX_MISSES - k)
    requires MissedSoFar(p, panel, start, g, k)
    ensures var r := PanelRun(p, panel, g, frames);
            if AllMiss(p, panel, start, k)
            then r.state == Failed && r.done == 0 && r.unlinked == MAX_MISSES
            else r.state == Done && r.done == p.count && r.unlinked <= 8
    decreases MAX_MISSES - k
  {
    var e := Search(p, panel, start, k);
    var t := PanelTurn(p, panel, g);
    SteadyTurn(p, panel, g);
    if Hits(p, panel, e) {
      NextHits(p, panel, e, Clamp(p, t.exposure));
      HomingEnds(p, panel, t, frames - 1);
    } else if k + 1 < MAX_MISSES {
      GivesUpFrom(p, panel, start, t, k + 1, frames - 1);
    }
  }

  // On any steady panel whose target lies within the limits and far enough from black and from
  // full scale: the filter gives up exactly when the first eight exposures of its search all
  // miss, and else takes every frame wanted, with at most eight out of the band.
  lemma PanelGivesUpIff(p: Plan, panel: Panel, start: real, frames: nat)
    requires Steady(p, panel) && p.count >= 1 && frames >= p.count + MAX_MISSES
    ensures var r := Run(p, panel.pedestal, Begin(start), PanelAnswers(p, panel, Begin(start), frames));
            && (r.state == Failed <==> AllMiss(p, panel, start, 0))
            && (r.state != Failed ==> r.state == Done && r.done == p.count && r.unlinked <= 8)
  {
    GivesUpFrom(p, panel, start, Begin(start), 0, frames);
    PanelRunIsRun(p, panel, Begin(start), frames);
  }

  predicate TenthNext(p: Plan, panel: Panel, e: real, next: real) {
    Clipped(panel, e) && next == Clamp(p, e / 10.0)
  }

  predicate TensNext(p: Plan, panel: Panel, e: real, next: real) {
    Black(panel, e) && next == Clamp(p, e * 10.0)
  }

  ghost predicate ByTenths(p: Plan, panel: Panel, start: real, n: nat)
    requires ValidPlan(p)
  {
    forall k :: 0 <= k < n ==> TenthNext(p, panel, Search(p, panel, start, k), Search(p, panel, start, k + 1))
  }

  ghost predicate ByTens(p: Plan, panel: Panel, start: real, n: nat)
    requires ValidPlan(p)
  {
    forall k :: 0 <= k < n ==> TensNext(p, panel, Search(p, panel, start, k), Search(p, panel, start, k + 1))
  }

  // All eight miss only on the way down from a clipped start by tenths, or up from a black one
  // by tens.
  lemma {:induction false} MissesAreDecades(p: Plan, panel: Panel, start: real, n: nat)
    requires Steady(p, panel) && forall k :: 0 <= k <= n ==> !Hits(p, panel, Search(p, panel, start, k))
    ensures ByTenths(p, panel, start, n) || ByTens(p, panel, start, n)
  {
    if n > 0 {
      MissesAreDecades(p, panel, start, n - 1);
      var e, next := Search(p, panel, start, n - 1), Search(p, panel, start, n);
      assert Clipped(panel, e) || Black(panel, e) by {
        BestHits(p, panel);
        NextHits(p, panel, e, next);
      }
      NextDecade(p, panel, e, next);
      if n > 1 {
        NextOfDecade(p, panel, Search(p, panel, start, n - 2), e);
      }
    }
  }

  lemma NextDecade(p: Plan, panel: Panel, e: real, next: real)
    requires Steady(p, panel) && p.minExposure <= e <= p.maxExposure
    requires next == Clamp(p, NextExposure(e, Level(panel, e), panel.pedestal, p.target, 1.0))
    ensures Clipped(panel, e) ==> next == Clamp(p, e / 10.0)
    ensures Black(panel, e) ==> next == Clamp(p, e * 10.0)
  {
    ReachableAt(p, panel, e);
  }

  lemma NextOfDecade(p: Plan, panel: Panel, before: real, e: real)
    requires Steady(p, panel) && p.minExposure <= before <= p.maxExposure
    ensures Clipped(panel, before) && e == Clamp(p, before / 10.0) ==> !Black(panel, e)
    ensures Black(panel, before) && e == Clamp(p, before * 10.0) ==> !Clipped(panel, e)
  {
    ReachableAt(p, panel, before);
    DecadeBetween(p, panel, before, e);
  }

  // It happens: limits ten million apart, seven clipped frames and one too dark.
  lemma TooManyDecades()
    ensures var p := Plan(None, 20, 0.5 * FULL_SCALE, 0.1, 0.00006, 600.0);
            var panel := Panel(1600.0 * FULL_SCALE, 0.0);
            && Steady(p, panel) && p.maxExposure == 10000000.0 * p.minExposure
            && Run(p, 0.0, Begin(600.0), PanelAnswers(p, panel, Begin(600.0), 28)).state == Failed
  {
    var p := Plan(None, 20, 0.5 * FULL_SCALE, 0.1, 0.00006, 600.0);
    var panel := Panel(1600.0 * FULL_SCALE, 0.0);
    assert Best(p, panel) == 0.0003125;
    assert Search(p, panel, 600.0, 1) == 60.0;
    assert Search(p, panel, 600.0, 2) == 6.0;
    assert Search(p, panel, 600.0, 3) == 0.6;
    assert Search(p, panel, 600.0, 4) == 0.06;
    assert Search(p, panel, 600.0, 5) == 0.006;
    assert Search(p, panel, 600.0, 6) == 0.0006;
    assert Search(p, panel, 600.0, 7) == 0.00006;
    assert Level(panel, 0.00006) == 0.096 * FULL_SCALE;
    PanelGivesUpIff(p, panel, 600.0, 28);
  }
}
