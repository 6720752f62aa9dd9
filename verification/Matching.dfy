/** What a group of lights is calibrated with (server/src/nocs/calibration/library.py, _match,
    _match_flat_calibration, Report): how far a dark may be from a light, and what serves the
    flats. */
module Matching {
  import opened Common
  import opened Library
  import opened Groups

  const BIAS_TEMPERATURE := 5.0
  const DARK_DAYS := 180
  const FLAT_DAYS := 30
  const FLAT_ROTATION := 1.0

  datatype FrameType = LightFrame | DarkFrame | FlatFrame | BiasFrame

  datatype Row = Row(id: int, kind: FrameType, setup: Setup, filter: Option<string>, exposure: real,
                     temperature: Option<real>, night: int, rotation: Option<real>)

  // -- what matches -------------------------------------------------------------------------------

  predicate Near(a: Option<real>, b: Option<real>, tolerance: real) {
    if a.Some? && b.Some? then Abs(a.value - b.value) <= tolerance else a == b
  }

  // The nearest of the nights is at most so many days away.
  predicate Within(night: int, nights: set<int>, days: int) {
    exists n :: n in nights && -days <= night - n <= days
  }

  function Modulo180(x: real): real {
    x - 180.0 * (x / 180.0).Floor as real
  }

  predicate RotationMatches(a: Option<real>, b: real) {
    a.Some? && var difference := Modulo180(Abs(a.value - b)); MinReal(difference, 180.0 - difference) <= FLAT_ROTATION
  }

  function Rotations(lights: seq<Light>, g: Group): set<real> {
    set l | l in lights && l.setup == g.key.setup && l.filter == g.key.filter && l.rotation.Some? :: l.rotation.value
  }

  predicate SameTrain(row: Row, g: Group) {
    var s := g.key.setup;
    && row.setup.camera == s.camera && row.setup.width == s.width && row.setup.height == s.height
    && row.setup.binning == s.binning && row.filter == g.key.filter
  }

  predicate IsFlat(row: Row, g: Group, rotations: set<real>) {
    && row.kind == FlatFrame && SameTrain(row, g)
    && (row.night in g.nights || (Within(row.night, g.nights, FLAT_DAYS) && exists r :: r in rotations && RotationMatches(row.rotation, r)))
  }

  predicate IsDark(row: Row, g: Group) {
    && row.kind == DarkFrame && row.setup == g.key.setup && Within(row.night, g.nights, DARK_DAYS)
    && SameExposure(row.exposure, g.key.exposure) && Near(row.temperature, g.temperature, DARK_TEMPERATURE)
  }

  predicate IsBias(row: Row, g: Group) {
    && row.kind == BiasFrame && row.setup == g.key.setup && Within(row.night, g.nights, DARK_DAYS)
    && Near(row.temperature, g.temperature, BIAS_TEMPERATURE)
  }

  function Pick(rows: seq<Row>, wanted: Row -> bool): seq<Row> {
    if rows == [] then [] else Pick(rows[..|rows| - 1], wanted) + (if wanted(rows[|rows| - 1]) then [rows[|rows| - 1]] else [])
  }

  lemma {:induction false} PickExact(rows: seq<Row>, wanted: Row -> bool)
    ensures forall r :: r in Pick(rows, wanted) <==> r in rows && wanted(r)
  {
    if rows != [] {
      PickExact(rows[..|rows| - 1], wanted);
      assert rows == rows[..|rows| - 1] + [rows[|rows| - 1]];
    }
  }

  // -- the frames of a match ------------------------------------------------------------------------

  class Match {
    var frames: seq<int>
    var nights: set<int>
    var temperatures: seq<real>
    ghost var rows: seq<Row>

    ghost predicate Valid()
      reads this
    {
      frames == Ids(rows) && nights == (set r | r in rows :: r.night) && temperatures == KnownTemperatures(rows)
    }

    constructor ()
      ensures Valid() && rows == []
    {
      frames, nights, temperatures, rows := [], {}, [], [];
    }

    method Add(row: Row)
      requires Valid()
      modifies this
      ensures Valid() && rows == old(rows) + [row]
    {
      frames := frames + [row.id];
      nights := nights + {row.night};
      if row.temperature.Some? {
        temperatures := temperatures + [row.temperature.value];
      }
      rows := rows + [row];
      assert rows[..|rows| - 1] == old(rows);
    }
  }

  function Ids(rows: seq<Row>): seq<int> {
    if rows == [] then [] else Ids(rows[..|rows| - 1]) + [rows[|rows| - 1].id]
  }

  function KnownTemperatures(rows: seq<Row>): seq<real> {
    if rows == [] then []
    else KnownTemperatures(rows[..|rows| - 1]) + (if rows[|rows| - 1].temperature.Some? then [rows[|rows| - 1].temperature.value] else [])
  }

  // One pass over the calibration frames.
  method MatchGroup(g: Group, calibration: seq<Row>, lights: seq<Light>, darks: Match, flats: Match, bias: Match)
    requires darks.Valid() && flats.Valid() && bias.Valid()
    requires darks.rows == [] && flats.rows == [] && bias.rows == []
    requires darks != flats && flats != bias && bias != darks
    modifies darks, flats, bias
    ensures darks.Valid() && flats.Valid() && bias.Valid()
    ensures darks.rows == Pick(calibration, r => IsDark(r, g))
    ensures flats.rows == Pick(calibration, r => IsFlat(r, g, Rotations(lights, g)))
    ensures bias.rows == Pick(calibration, r => IsBias(r, g))
  {
    var rotations := Rotations(lights, g);
    for i := 0 to |calibration|
      invariant darks.Valid() && flats.Valid() && bias.Valid()
      invariant darks.rows == Pick(calibration[..i], r => IsDark(r, g))
      invariant flats.rows == Pick(calibration[..i], r => IsFlat(r, g, rotations))
      invariant bias.rows == Pick(calibration[..i], r => IsBias(r, g))
    {
      var row := calibration[i];
      assert calibration[..i + 1][..i] == calibration[..i];
      if row.kind == FlatFrame {
        if SameTrain(row, g)
           && (row.night in g.nights
               || (Within(row.night, g.nights, FLAT_DAYS) && exists r :: r in rotations && RotationMatches(row.rotation, r))) {
          flats.Add(row);
        }
        continue;
      }
      if row.setup != g.key.setup || !Within(row.night, g.nights, DARK_DAYS) {
        continue;
      }
      if row.kind == DarkFrame {
        if SameExposure(row.exposure, g.key.exposure) && Near(row.temperature, g.temperature, DARK_TEMPERATURE) {
          darks.Add(row);
        }
      } else if row.kind == BiasFrame && Near(row.temperature, g.temperature, BIAS_TEMPERATURE) {
        bias.Add(row);
      }
    }
    assert calibration[..|calibration|] == calibration;
  }

  // -- how far a dark may be ---------------------------------------------------------------------------

  // A matched dark is within 6.05 degrees of every light of its group: 2 of the group's
  // temperature, which is within 4.05 of each light's.
  lemma DarkReaches(b: Batch, row: Row, l: Light)
    requires Tight(b.cluster) && l in b.cluster && IsDark(row, GroupOf(b))
    ensures row.temperature.Some? && Abs(row.temperature.value - l.temperature.value) <= 6.05
  {
    TemperatureOfGroup(b);
    assert Abs(l.temperature.value - GroupOf(b).temperature.value) <= 4.05;
  }

  // The tolerance is of the group's temperature, not of each light's: every dark it lets through
  // is within 2 degrees of each light only where the lights all have the group's temperature.
  lemma DarksCloseIff(b: Batch)
    requires Tight(b.cluster)
    ensures (forall t: real, l :: l in b.cluster && Near(Some(t), GroupOf(b).temperature, DARK_TEMPERATURE) ==>
               Abs(t - l.temperature.value) <= DARK_TEMPERATURE)
       <==> forall l :: l in b.cluster ==> l.temperature == GroupOf(b).temperature
  {
    TemperatureOfGroup(b);
    var g := GroupOf(b).temperature;
    if l :| l in b.cluster && l.temperature != g {
      var t := if l.temperature.value > g.value then g.value - 2.0 else g.value + 2.0;
      assert Near(Some(t), g, DARK_TEMPERATURE);
      assert Abs(t - l.temperature.value) > DARK_TEMPERATURE;
    }
  }

  // A matched bias is within 9.05 degrees of every light of its group.
  lemma BiasReaches(b: Batch, row: Row, l: Light)
    requires Tight(b.cluster) && l in b.cluster && IsBias(row, GroupOf(b))
    ensures row.temperature.Some? && Abs(row.temperature.value - l.temperature.value) <= 9.05
  {
    TemperatureOfGroup(b);
    assert Abs(l.temperature.value - GroupOf(b).temperature.value) <= 4.05;
  }

  // The sensor as cold to within that much, or unknown of both.
  ghost predicate AsCold(a: Option<real>, b: Option<real>, degrees: real) {
    (a == None && b == None) || (a.Some? && b.Some? && -degrees <= a.value - b.value <= degrees)
  }

  ghost predicate TakenWithin(row: Row, g: Group, days: int) {
    exists n :: n in g.nights && -days <= row.night - n <= days
  }

  // A group's darks: of its setup, within 180 days of a night of its lights, of its exposure to 1 %
  // and its temperature to 2 degrees.
  lemma DarksOf(row: Row, g: Group)
    ensures IsDark(row, g) <==>
              && row.kind == DarkFrame && row.setup == g.key.setup && TakenWithin(row, g, 180)
              && MinReal(row.exposure, g.key.exposure) >= 0.99 * MaxReal(row.exposure, g.key.exposure)
              && AsCold(row.temperature, g.temperature, 2.0)
  {
    SameExposureIff(row.exposure, g.key.exposure);
  }

  // Its bias: of any exposure, and its temperature to 5 degrees.
  lemma BiasOf(row: Row, g: Group)
    ensures IsBias(row, g) <==>
              row.kind == BiasFrame && row.setup == g.key.setup && TakenWithin(row, g, 180) && AsCold(row.temperature, g.temperature, 5.0)
  {
  }

  // -- the flats of a group --------------------------------------------------------------------------

  // By how far the angles differ when one of them is turned half-way round k times.
  function Turned(a: real, b: real, k: int): real {
    a - b - 180.0 * k as real
  }

  lemma Modulo180Is(x: real)
    ensures 0.0 <= Modulo180(x) < 180.0 && Modulo180(x) == x - 180.0 * (x / 180.0).Floor as real
  {
    var k := (x / 180.0).Floor;
    assert k as real <= x / 180.0 < k as real + 1.0;
  }

  lemma OnlyTurn(x: real, low: int, k: int)
    requires 0.0 <= x - 180.0 * low as real < 180.0 && -1.0 <= x - 180.0 * k as real <= 1.0
    ensures k == low || k == low + 1
  {
    assert low as real - 1.0 < k as real < low as real + 2.0;
  }

  // The angles differ by at most a degree, turned half-way round or not.
  lemma RotationMatchesIff(a: real, b: real)
    ensures RotationMatches(Some(a), b) <==> exists k: int :: -1.0 <= Turned(a, b, k) <= 1.0
  {
    var x := Abs(a - b);
    var low := (x / 180.0).Floor;
    Modulo180Is(x);
    if RotationMatches(Some(a), b) {
      var k := if Modulo180(x) <= 1.0 then low else low + 1;
      var m := if a >= b then k else -k;
      assert -1.0 <= Turned(a, b, m) <= 1.0;
    }
    if k: int :| -1.0 <= Turned(a, b, k) <= 1.0 {
      OnlyTurn(x, low, if a >= b then k else -k);
    }
  }

  // Of the group's optics: taken in a night of its lights, or within 30 days of one and turned
  // like one of the lights of its filter.
  lemma FlatsOf(row: Row, g: Group, lights: seq<Light>)
    ensures IsFlat(row, g, Rotations(lights, g)) <==>
              && row.kind == FlatFrame && row.filter == g.key.filter
              && row.setup.(gain := None, offset := None) == g.key.setup.(gain := None, offset := None)
              && (row.night in g.nights
                  || ((exists n :: n in g.nights && -30 <= row.night - n <= 30)
                      && exists l :: l in lights && l.setup == g.key.setup && l.filter == g.key.filter && l.rotation.Some?
                                     && RotationMatches(row.rotation, l.rotation.value)))
  {
    if l :| l in lights && l.setup == g.key.setup && l.filter == g.key.filter && l.rotation.Some? && RotationMatches(row.rotation, l.rotation.value) {
      assert l.rotation.value in Rotations(lights, g);
    }
  }

  // Of a light at 0 and one at 4 degrees, which are one group, a dark at 4 degrees is one, and is
  // 4 degrees from the first.
  lemma DarkFarFromLight(cold: Light, warm: Light, dark: Row) returns (b: Batch)
    requires cold.exposure >= 0.0 && cold.temperature == Some(0.0) && warm == cold.(temperature := Some(4.0))
    requires dark.kind == DarkFrame && dark.setup == cold.setup && dark.exposure == cold.exposure && dark.night == cold.night
    requires dark.temperature == Some(4.0)
    ensures b in Batches(Shelve([cold, warm])) && b.cluster == [cold, warm]
    ensures IsDark(dark, GroupOf(b)) && Abs(dark.temperature.value - cold.temperature.value) == 4.0
  {
    var key := Key(cold.setup, cold.filter, cold.exposure);
    var lights := [cold, warm];
    OneShelf(cold, warm);
    OneCluster(cold, warm);
    var shelf := Shelf(key, lights);
    b := Batch(key, lights, lights);
    assert [shelf][..0] == [] && [lights][..0] == [];
    assert BatchesOf(key, lights, [lights]) == BatchesOf(key, lights, []) + [b];
    assert Batches([shelf]) == Batches([]) + [b];
    MiddleOfTwo(cold, warm);
    assert cold.night in GroupOf(b).nights;
  }

  lemma OneShelf(cold: Light, warm: Light)
    requires cold.exposure >= 0.0 && warm == cold.(temperature := warm.temperature)
    ensures Shelve([cold, warm]) == [Shelf(Key(cold.setup, cold.filter, cold.exposure), [cold, warm])]
  {
    var key := Key(cold.setup, cold.filter, cold.exposure);
    assert [cold][..0] == [] && [cold, warm][..1] == [cold];
    assert Shelve([cold]) == [Shelf(key, [cold])];
    assert FindKey([Shelf(key, [cold])], warm) == key;
    assert [cold] + [warm] == [cold, warm];
  }

  lemma BothKnown(cold: Light, warm: Light)
    requires HasTemperature(cold) && HasTemperature(warm)
    ensures Known([cold, warm]) == [cold, warm] && Unknown([cold, warm]) == []
  {
    assert [cold, warm][1..] == [warm] && [warm][1..] == [];
    assert Known([warm]) == [warm] && Unknown([warm]) == [];
  }

  lemma OneCluster(cold: Light, warm: Light)
    requires cold.temperature == Some(0.0) && warm.temperature == Some(4.0)
    ensures Clusters([cold, warm]) == [[cold, warm]]
  {
    BothKnown(cold, warm);
    assert [cold][..0] == [] && [cold, warm][..1] == [cold] && [cold, warm][1..] == [warm];
    assert SortLights([cold]) == [cold] && SortLights([cold, warm]) == [cold, warm];
    assert AddLights([], [cold]) == [[cold]] && AddLights([], [cold, warm]) == [[cold, warm]];
  }

  lemma MiddleOfTwo(cold: Light, warm: Light)
    requires cold.temperature == Some(0.0) && warm.temperature == Some(4.0)
    ensures Temperatures([cold, warm]) == [0.0, 4.0] && Tenths(Median([0.0, 4.0])) == 2.0
  {
    assert [cold, warm][1..] == [warm] && [warm][1..] == [];
    assert Temperatures([warm]) == [4.0];
    MedianIsMiddle([0.0, 4.0], [0.0, 4.0]);
    assert Round(20.0) == 20;
  }

  // -- bias or darks for the flats ------------------------------------------------------------------------

  function MedianOf(rows: seq<Row>): Option<real> {
    var known := KnownTemperatures(rows);
    if known == [] then None else Some(Tenths(Median(known)))
  }

  predicate ServesFlats(row: Row, flats: seq<Row>) {
    flats != [] && row.setup == flats[0].setup && Within(row.night, set f | f in flats :: f.night, DARK_DAYS)
  }

  predicate IsFlatBias(row: Row, flats: seq<Row>) {
    row.kind == BiasFrame && ServesFlats(row, flats) && Near(row.temperature, MedianOf(flats), BIAS_TEMPERATURE)
  }

  predicate IsFlatDark(row: Row, flats: seq<Row>) {
    row.kind == DarkFrame && ServesFlats(row, flats) && Near(row.temperature, MedianOf(flats), DARK_TEMPERATURE)
  }

  function FlatBias(flats: seq<Row>, calibration: seq<Row>): seq<Row> {
    Pick(calibration, r => IsFlatBias(r, flats))
  }

  function FlatDarks(flats: seq<Row>, calibration: seq<Row>): seq<Row> {
    Pick(calibration, r => IsFlatDark(r, flats))
  }

  predicate HasDark(darks: seq<Row>, exposure: real) {
    exists d :: d in darks && SameExposure(d.exposure, exposure)
  }

  predicate Covered(flats: seq<Row>, darks: seq<Row>) {
    forall f :: f in flats ==> HasDark(darks, f.exposure)
  }

  predicate OfSomeFlat(row: Row, flats: seq<Row>) {
    exists f :: f in flats && SameExposure(row.exposure, f.exposure)
  }

  function OfFlats(darks: seq<Row>, flats: seq<Row>): seq<Row> {
    Pick(darks, r => OfSomeFlat(r, flats))
  }

  function FlatCalibration(flats: seq<Row>, calibration: seq<Row>): seq<Row> {
    if flats == [] then []
    else if FlatBias(flats, calibration) != [] then FlatBias(flats, calibration)
    else if Covered(flats, FlatDarks(flats, calibration))
    then OfFlats(FlatDarks(flats, calibration), flats)
    else []
  }

  lemma DarksServe(flats: seq<Row>, darks: seq<Row>)
    requires Covered(flats, darks)
    ensures Covered(flats, OfFlats(darks, flats))
    ensures forall r :: r in OfFlats(darks, flats) ==> r in darks
  {
    PickExact(darks, r => OfSomeFlat(r, flats));
    forall f | f in flats ensures HasDark(OfFlats(darks, flats), f.exposure) {
      var d :| d in darks && SameExposure(d.exposure, f.exposure);
      assert OfSomeFlat(d, flats);
    }
  }

  lemma FlatCandidates(flats: seq<Row>, calibration: seq<Row>)
    ensures forall r :: r in FlatBias(flats, calibration) ==> r in calibration && IsFlatBias(r, flats)
    ensures forall r :: r in FlatDarks(flats, calibration) ==> r in calibration && IsFlatDark(r, flats)
  {
    PickExact(calibration, r => IsFlatBias(r, flats));
    PickExact(calibration, r => IsFlatDark(r, flats));
  }

  // Bias, or a dark of each flat's exposure.
  ghost predicate Serves(found: seq<Row>, flats: seq<Row>) {
    || found == []
    || (forall r :: r in found ==> r.kind == BiasFrame)
    || ((forall r :: r in found ==> r.kind == DarkFrame) && Covered(flats, found))
  }

  ghost predicate OfSetup(found: seq<Row>, flats: seq<Row>, calibration: seq<Row>)
    requires flats != []
  {
    forall r :: r in found ==> r in calibration && r.setup == flats[0].setup
  }

  lemma ServedByBias(flats: seq<Row>, calibration: seq<Row>, bias: seq<Row>)
    requires flats != [] && bias == FlatBias(flats, calibration)
    ensures Serves(bias, flats) && OfSetup(bias, flats, calibration)
  {
    FlatCandidates(flats, calibration);
  }

  lemma ServedByDarks(flats: seq<Row>, calibration: seq<Row>, darks: seq<Row>, found: seq<Row>)
    requires flats != [] && darks == FlatDarks(flats, calibration) && Covered(flats, darks)
    requires found == OfFlats(darks, flats)
    ensures found != [] && Serves(found, flats) && OfSetup(found, flats, calibration)
  {
    FlatCandidates(flats, calibration);
    DarksServe(flats, darks);
    assert flats[0] in flats && HasDark(found, flats[0].exposure);
  }

  // What the flats are calibrated with serves every one of them; there is nothing exactly when
  // there is no bias for them and some flat has no dark of its exposure.
  lemma FlatsServed(flats: seq<Row>, calibration: seq<Row>)
    requires flats != []
    ensures var found := FlatCalibration(flats, calibration); Serves(found, flats) && OfSetup(found, flats, calibration)
    ensures FlatCalibration(flats, calibration) == []
       <==> FlatBias(flats, calibration) == [] && !Covered(flats, FlatDarks(flats, calibration))
  {
    var bias, darks := FlatBias(flats, calibration), FlatDarks(flats, calibration);
    if bias != [] {
      ServedByBias(flats, calibration, bias);
    } else if Covered(flats, darks) {
      ServedByDarks(flats, calibration, darks, OfFlats(darks, flats));
    }
  }

  // All the bias near enough of the flats' own setup and taken within 180 days of one of them;
  // only where there are none, the darks so near, of the exposures of the flats, if each flat has
  // one.
  lemma FlatCalibrationIff(flats: seq<Row>, calibration: seq<Row>, r: Row)
    requires flats != []
    ensures r in FlatCalibration(flats, calibration) <==>
              && r in calibration && r.setup == flats[0].setup
              && (exists f :: f in flats && -180 <= r.night - f.night <= 180)
              && ((r.kind == BiasFrame && Near(r.temperature, MedianOf(flats), 5.0))
                  || (&& r.kind == DarkFrame && Near(r.temperature, MedianOf(flats), 2.0)
                      && FlatBias(flats, calibration) == [] && Covered(flats, FlatDarks(flats, calibration))
                      && exists f :: f in flats && SameExposure(r.exposure, f.exposure)))
  {
    PickExact(calibration, r => IsFlatBias(r, flats));
    PickExact(calibration, r => IsFlatDark(r, flats));
    PickExact(FlatDarks(flats, calibration), r => OfSomeFlat(r, flats));
    NightNear(r, flats);
  }

  lemma NightNear(r: Row, flats: seq<Row>)
    ensures Within(r.night, set f | f in flats :: f.night, DARK_DAYS) <==> exists f :: f in flats && -180 <= r.night - f.night <= 180
  {
    var nights := set f | f in flats :: f.night;
    if f :| f in flats && -180 <= r.night - f.night <= 180 {
      assert f.night in nights;
    }
  }

  method MatchFlatCalibration(flats: seq<Row>, calibration: seq<Row>, found: Match)
    requires found.Valid() && found.rows == []
    modifies found
    ensures found.Valid() && found.rows == FlatCalibration(flats, calibration)
  {
    if flats == [] {
      return;
    }
    var bias := FlatBias(flats, calibration);
    if bias != [] {
      for i := 0 to |bias|
        invariant found.Valid() && found.rows == bias[..i]
      {
        found.Add(bias[i]);
      }
      return;
    }
    var darks := FlatDarks(flats, calibration);
    if Covered(flats, darks) {
      for i := 0 to |darks|
        invariant found.Valid() && found.rows == Pick(darks[..i], r => OfSomeFlat(r, flats))
      {
        assert darks[..i + 1][..i] == darks[..i];
        if OfSomeFlat(darks[i], flats) {
          found.Add(darks[i]);
        }
      }
      assert darks[..|darks|] == darks;
    }
  }

  // -- the frames of a report -----------------------------------------------------------------------------

  datatype Matched = Matched(group: Group, darks: seq<Row>, flats: seq<Row>, bias: seq<Row>, flatCalibration: seq<Row>)

  function InsertId(s: seq<int>, x: int): seq<int> {
    if s == [] || x < s[0] then [x] + s else if x == s[0] then s else [s[0]] + InsertId(s[1..], x)
  }

  function AddIds(found: seq<int>, rows: seq<Row>): seq<int> {
    if rows == [] then found else InsertId(AddIds(found, rows[..|rows| - 1]), rows[|rows| - 1].id)
  }

  // In order, the frames of every group's darks, flats and flat calibration.
  function Frames(groups: seq<Matched>): seq<int> {
    if groups == [] then []
    else
      var m := groups[|groups| - 1];
      AddIds(AddIds(AddIds(Frames(groups[..|groups| - 1]), m.darks), m.flats), m.flatCalibration)
  }

  ghost predicate Increasing(s: seq<int>) {
    forall i, j :: 0 <= i < j < |s| ==> s[i] < s[j]
  }

  lemma {:induction false} InsertIdExact(s: seq<int>, x: int)
    requires Increasing(s)
    ensures Increasing(InsertId(s, x)) && forall y :: y in InsertId(s, x) <==> y == x || y in s
  {
    if s != [] && x > s[0] {
      InsertIdExact(s[1..], x);
      var rest := InsertId(s[1..], x);
      forall j | 0 <= j < |rest| ensures s[0] < rest[j] {
        assert rest[j] in rest;
      }
      assert s == [s[0]] + s[1..];
    }
  }

  lemma {:induction false} AddIdsExact(found: seq<int>, rows: seq<Row>)
    requires Increasing(found)
    ensures Increasing(AddIds(found, rows))
    ensures forall y :: y in AddIds(found, rows) <==> y in found || exists r :: r in rows && r.id == y
  {
    if rows != [] {
      var n := |rows| - 1;
      AddIdsExact(found, rows[..n]);
      InsertIdExact(AddIds(found, rows[..n]), rows[n].id);
      assert rows == rows[..n] + [rows[n]];
    }
  }

  ghost predicate Uses(m: Matched, id: int) {
    exists r :: (r in m.darks || r in m.flats || r in m.flatCalibration) && r.id == id
  }

  // Every matched frame but the lights' bias, once, in order.
  lemma {:induction false} FramesExact(groups: seq<Matched>)
    ensures Increasing(Frames(groups))
    ensures forall id :: id in Frames(groups) <==> exists m :: m in groups && Uses(m, id)
  {
    if groups != [] {
      var n := |groups| - 1;
      var m := groups[n];
      FramesExact(groups[..n]);
      AddIdsExact(Frames(groups[..n]), m.darks);
      AddIdsExact(AddIds(Frames(groups[..n]), m.darks), m.flats);
      AddIdsExact(AddIds(AddIds(Frames(groups[..n]), m.darks), m.flats), m.flatCalibration);
      assert groups == groups[..n] + [m];
      forall id ensures id in Frames(groups) <==> id in Frames(groups[..n]) || Uses(m, id) {
      }
    }
  }
}
