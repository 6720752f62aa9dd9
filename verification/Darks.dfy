/** A sequence of what is needed (server/src/nocs/calibration/darks.py). */
module Darks {
  import opened Common
  import opened Library
  import opened Needs

  // Every need taken is one row where it belongs, and which those places are: the container of
  // its temperature, the plan of its kind, and the order in both.

  datatype PlanRow = PlanRow(exposure: real, count: int, gain: Option<real>, offset: Option<real>, binning: Option<int>)

  datatype Node = Cool(temperature: int) | ExposurePlan(rows: seq<PlanRow>, kind: Kind)

  // Named by its temperature: None is "Uncooled".
  datatype Container = Container(name: Option<int>, children: seq<Node>)

  datatype Sequence = Sequence(targets: seq<Container>, warm: bool)

  // -- what is taken ------------------------------------------------------------------------------

  // Python's //
  function FloorDiv(a: int, b: int): int
    requires b != 0
  {
    if b > 0 then a / b else (-a) / (-b)
  }

  predicate FullFrame(n: Need, sensor: (int, int)) {
    var binning := if n.setup.binning.Some? && n.setup.binning.value != 0 then n.setup.binning.value else 1;
    n.setup.width.Some? && n.setup.height.Some? ==>
      -1 <= n.setup.width.value - FloorDiv(sensor.0, binning) <= 1 && -1 <= n.setup.height.value - FloorDiv(sensor.1, binning) <= 1
  }

  predicate IsTaken(n: Need, camera: string, sensor: (int, int)) {
    (n.kind == Dark || n.kind == Bias) && n.setup.camera == camera && FullFrame(n, sensor)
  }

  function Taken(needs: seq<Need>, camera: string, sensor: (int, int)): (r: seq<Need>)
    ensures forall n :: n in r <==> n in needs && IsTaken(n, camera, sensor)
  {
    if needs == [] then [] else (if IsTaken(needs[0], camera, sensor) then [needs[0]] else []) + Taken(needs[1..], camera, sensor)
  }

  function Left(needs: seq<Need>, taken: seq<Need>): seq<Need> {
    if needs == [] then []
    else (if needs[0] !in taken && needs[0].kind != Flat then [needs[0]] else []) + Left(needs[1..], taken)
  }

  function Flats(needs: seq<Need>): seq<Need> {
    if needs == [] then [] else (if needs[0].kind == Flat then [needs[0]] else []) + Flats(needs[1..])
  }

  lemma OneOfThree(x: Need, a: seq<Need>, b: seq<Need>, c: seq<Need>, rest: seq<Need>)
    requires multiset(a) + multiset(b) + multiset(c) == multiset(rest)
    ensures multiset([x] + a) + multiset(b) + multiset(c) == multiset([x] + rest)
    ensures multiset(a) + multiset([x] + b) + multiset(c) == multiset([x] + rest)
    ensures multiset(a) + multiset(b) + multiset([x] + c) == multiset([x] + rest)
  {
  }

  lemma NeedCons(x: Need, rest: seq<Need>, all: seq<Need>, camera: string, sensor: (int, int))
    requires x in all
    ensures Taken([x] + rest, camera, sensor) == (if IsTaken(x, camera, sensor) then [x] + Taken(rest, camera, sensor) else Taken(rest, camera, sensor))
    ensures var taken := Taken(all, camera, sensor);
            Left([x] + rest, taken) == if !IsTaken(x, camera, sensor) && x.kind != Flat then [x] + Left(rest, taken) else Left(rest, taken)
    ensures Flats([x] + rest) == if x.kind == Flat then [x] + Flats(rest) else Flats(rest)
  {
    TailOf(x, rest);
    assert x in Taken(all, camera, sensor) <==> IsTaken(x, camera, sensor);
  }

  lemma {:induction false} LeftOf(needs: seq<Need>, all: seq<Need>, camera: string, sensor: (int, int))
    requires forall n :: n in needs ==> n in all
    ensures multiset(Taken(needs, camera, sensor)) + multiset(Left(needs, Taken(all, camera, sensor))) + multiset(Flats(needs)) == multiset(needs)
  {
    if needs != [] {
      var x, rest := needs[0], needs[1..];
      LeftOf(rest, all, camera, sensor);
      assert x in needs && needs == [x] + rest;
      NeedCons(x, rest, all, camera, sensor);
      OneOfThree(x, Taken(rest, camera, sensor), Left(rest, Taken(all, camera, sensor)), Flats(rest), rest);
    }
  }

  // Every need is taken, left out or a flat, and only one of them.
  lemma NeedsSplit(needs: seq<Need>, camera: string, sensor: (int, int))
    ensures var taken := Taken(needs, camera, sensor);
            multiset(taken) + multiset(Left(needs, taken)) + multiset(Flats(needs)) == multiset(needs)
  {
    LeftOf(needs, needs, camera, sensor);
  }

  lemma TimesKeepsOrder(x: int, y: int, b: int)
    requires b > 0
    ensures x < y <==> x * b < y * b
  {
    if x < y { assert (y - x) * b > 0; } else { assert (x - y) * b >= 0; }
  }

  lemma QuotientBelow(s: int, b: int, n: int)
    requires b > 0
    ensures FloorDiv(s, b) < n <==> s < n * b
  {
    var q := FloorDiv(s, b);
    assert q * b <= s < q * b + b;
    TimesKeepsOrder(q, n, b);
    TimesKeepsOrder(n - 1, q + 1, b);
    TimesKeepsOrder(n, q + 1, b);
    assert (q + 1) * b == q * b + b;
  }

  // A side as long as the sensor's binned, or off by a pixel of those.
  lemma SideIff(size: int, s: int, b: int)
    requires b > 0
    ensures -1 <= size - FloorDiv(s, b) <= 1 <==> (size - 1) * b <= s < (size + 2) * b
  {
    QuotientBelow(s, b, size - 1);
    QuotientBelow(s, b, size + 2);
  }

  // A side in pixels of b of the sensor's, against the sensor's side; a negative b turns it round.
  ghost predicate SideFits(size: int, s: int, b: int) {
    if b > 0 then (size - 1) * b <= s < (size + 2) * b else (size - 1) * -b <= -s < (size + 2) * -b
  }

  // Taken are the darks and bias of the camera of the full sensor, or of unknown size; without
  // binning, or with 0, the size is the sensor's own.
  lemma TakenIff(n: Need, camera: string, sensor: (int, int))
    ensures var b := if n.setup.binning.Some? && n.setup.binning.value != 0 then n.setup.binning.value else 1;
            IsTaken(n, camera, sensor) <==>
              && n.kind != Flat && n.setup.camera == camera
              && (n.setup.width == None || n.setup.height == None
                  || (SideFits(n.setup.width.value, sensor.0, b) && SideFits(n.setup.height.value, sensor.1, b)))
  {
    var b := if n.setup.binning.Some? && n.setup.binning.value != 0 then n.setup.binning.value else 1;
    if n.setup.width.Some? && n.setup.height.Some? {
      if b > 0 {
        SideIff(n.setup.width.value, sensor.0, b);
        SideIff(n.setup.height.value, sensor.1, b);
      } else {
        SideIff(n.setup.width.value, -sensor.0, -b);
        SideIff(n.setup.height.value, -sensor.1, -b);
      }
    }
  }

  // -- containers -----------------------------------------------------------------------------------

  function Rounded(n: Need): Option<int> {
    if n.temperature.Some? then Some(Round(n.temperature.value)) else None
  }

  function OfTemperature(needs: seq<Need>, t: Option<int>): seq<Need> {
    if needs == [] then [] else (if Rounded(needs[0]) == t then [needs[0]] else []) + OfTemperature(needs[1..], t)
  }

  function OfKind(needs: seq<Need>, kind: Kind): seq<Need> {
    if needs == [] then [] else (if needs[0].kind == kind then [needs[0]] else []) + OfKind(needs[1..], kind)
  }

  function Length(n: Need): real {
    if n.exposure.Some? then n.exposure.value else 0.0
  }

  function InsertNeed(n: Need, sorted: seq<Need>): seq<Need> {
    if sorted == [] || Length(n) <= Length(sorted[0]) then [n] + sorted else [sorted[0]] + InsertNeed(n, sorted[1..])
  }

  // Sorted by exposure, none as 0; equal ones keep their order.
  function ByLength(needs: seq<Need>): seq<Need> {
    if needs == [] then [] else InsertNeed(needs[0], ByLength(needs[1..]))
  }

  // A bias is as short as can be, and so is a dark without an exposure.
  function RowOf(n: Need, biasExposure: real): PlanRow {
    var exposure := if n.kind == Dark && Length(n) != 0.0 then Length(n) else biasExposure;
    PlanRow(exposure, n.count, n.setup.gain, n.setup.offset, n.setup.binning)
  }

  function Rows(needs: seq<Need>, biasExposure: real): seq<PlanRow> {
    if needs == [] then [] else [RowOf(needs[0], biasExposure)] + Rows(needs[1..], biasExposure)
  }

  function ContainerOf(t: Option<int>, group: seq<Need>, biasExposure: real): Container {
    var bias := Rows(OfKind(group, Bias), biasExposure);
    var darks := Rows(ByLength(OfKind(group, Dark)), biasExposure);
    Container(t, (if t.Some? then [Cool(t.value)] else [])
                 + (if bias != [] then [ExposurePlan(bias, Bias)] else [])
                 + (if darks != [] then [ExposurePlan(darks, Dark)] else []))
  }

  // Colder first, unknown last.
  predicate Colder(a: Option<int>, b: Option<int>) {
    a.Some? && (b.None? || a.value < b.value)
  }

  function InsertTemperature(t: Option<int>, sorted: seq<Option<int>>): seq<Option<int>> {
    if sorted == [] || Colder(t, sorted[0]) then [t] + sorted
    else if t == sorted[0] then sorted
    else [sorted[0]] + InsertTemperature(t, sorted[1..])
  }

  // The temperatures there are needs for, coldest first.
  function Temperatures(needs: seq<Need>): seq<Option<int>> {
    if needs == [] then [] else InsertTemperature(Rounded(needs[0]), Temperatures(needs[1..]))
  }

  function Containers(taken: seq<Need>, temperatures: seq<Option<int>>, biasExposure: real): seq<Container> {
    if temperatures == [] then []
    else [ContainerOf(temperatures[0], OfTemperature(taken, temperatures[0]), biasExposure)] + Containers(taken, temperatures[1..], biasExposure)
  }

  function Plan(taken: seq<Need>, biasExposure: real, warm: bool): Sequence {
    var temperatures := Temperatures(taken);
    Sequence(Containers(taken, temperatures, biasExposure), warm && exists t :: t in temperatures && t.Some?)
  }

  // -- their order --------------------------------------------------------------------------------------

  ghost predicate ColdestFirst(s: seq<Option<int>>) {
    forall i, j :: 0 <= i < j < |s| ==> Colder(s[i], s[j])
  }

  lemma {:induction false} InsertTemperatureExact(t: Option<int>, sorted: seq<Option<int>>)
    requires ColdestFirst(sorted)
    ensures ColdestFirst(InsertTemperature(t, sorted))
    ensures forall u :: u in InsertTemperature(t, sorted) <==> u == t || u in sorted
  {
    if sorted != [] && !Colder(t, sorted[0]) && t != sorted[0] {
      InsertTemperatureExact(t, sorted[1..]);
      var rest := InsertTemperature(t, sorted[1..]);
      forall j | 0 <= j < |rest| ensures Colder(sorted[0], rest[j]) {
        assert rest[j] in rest;
      }
      assert sorted == [sorted[0]] + sorted[1..];
    }
  }

  lemma {:induction false} TemperaturesExact(needs: seq<Need>)
    ensures ColdestFirst(Temperatures(needs))
    ensures forall t :: t in Temperatures(needs) <==> exists n :: n in needs && Rounded(n) == t
  {
    if needs != [] {
      TemperaturesExact(needs[1..]);
      InsertTemperatureExact(Rounded(needs[0]), Temperatures(needs[1..]));
      assert needs == [needs[0]] + needs[1..];
    }
  }

  ghost predicate ShortestFirst(s: seq<Need>) {
    forall i, j :: 0 <= i < j < |s| ==> Length(s[i]) <= Length(s[j])
  }

  lemma {:induction false} InsertNeedAdds(n: Need, sorted: seq<Need>)
    ensures multiset(InsertNeed(n, sorted)) == multiset{n} + multiset(sorted)
    ensures forall x :: x in InsertNeed(n, sorted) ==> x == n || x in sorted
  {
    if sorted != [] && Length(n) > Length(sorted[0]) {
      InsertNeedAdds(n, sorted[1..]);
      assert sorted == [sorted[0]] + sorted[1..];
    }
  }

  lemma {:induction false} InsertNeedSorts(n: Need, sorted: seq<Need>)
    requires ShortestFirst(sorted)
    ensures ShortestFirst(InsertNeed(n, sorted))
  {
    if sorted != [] && Length(n) > Length(sorted[0]) {
      InsertNeedSorts(n, sorted[1..]);
      InsertNeedAdds(n, sorted[1..]);
      forall x | x in sorted[1..] ensures Length(sorted[0]) <= Length(x) {
      }
    }
  }

  lemma {:induction false} ByLengthExact(needs: seq<Need>)
    ensures ShortestFirst(ByLength(needs)) && multiset(ByLength(needs)) == multiset(needs)
  {
    if needs != [] {
      ByLengthExact(needs[1..]);
      InsertNeedAdds(needs[0], ByLength(needs[1..]));
      InsertNeedSorts(needs[0], ByLength(needs[1..]));
      assert needs == [needs[0]] + needs[1..];
    }
  }

  lemma {:induction false} ContainersNamed(taken: seq<Need>, temperatures: seq<Option<int>>, biasExposure: real)
    ensures var c := Containers(taken, temperatures, biasExposure);
            |c| == |temperatures| && forall i :: 0 <= i < |c| ==> c[i].name == temperatures[i]
  {
    if temperatures != [] {
      ContainersNamed(taken, temperatures[1..], biasExposure);
    }
  }

  ghost predicate HasContainer(c: seq<Container>, t: Option<int>) {
    exists i :: 0 <= i < |c| && c[i].name == t
  }

  ghost predicate HasNeed(taken: seq<Need>, t: Option<int>) {
    exists n :: n in taken && Rounded(n) == t
  }

  // One container per temperature there are needs for, coldest first and unknown last.
  lemma ContainersInOrder(taken: seq<Need>, biasExposure: real, warm: bool)
    ensures var c := Plan(taken, biasExposure, warm).targets;
            && (forall i, j :: 0 <= i < j < |c| ==> Colder(c[i].name, c[j].name))
            && forall t :: HasContainer(c, t) <==> HasNeed(taken, t)
  {
    var temperatures := Temperatures(taken);
    var c := Containers(taken, temperatures, biasExposure);
    TemperaturesExact(taken);
    ContainersNamed(taken, temperatures, biasExposure);
    forall t ensures HasContainer(c, t) <==> HasNeed(taken, t) {
      assert t in temperatures <==> HasNeed(taken, t);
      if t in temperatures {
        var i :| 0 <= i < |temperatures| && temperatures[i] == t;
        assert c[i].name == t;
      }
    }
  }

  // The camera is warmed at the end exactly when asked and cooled for some need.
  lemma WarmsIff(taken: seq<Need>, biasExposure: real, warm: bool)
    ensures Plan(taken, biasExposure, warm).warm <==> warm && exists n :: n in taken && n.temperature.Some?
  {
    TemperaturesExact(taken);
    if n :| n in taken && n.temperature.Some? {
      assert Rounded(n) in Temperatures(taken);
    }
  }

  // -- the order in a container ---------------------------------------------------------------------------

  // A row as a need asks for it: a dark as long as its lights, a bias as short as can be, and so
  // is a dark of no length.
  ghost predicate RowFor(row: PlanRow, n: Need, biasExposure: real) {
    && row.count == n.count && row.gain == n.setup.gain && row.offset == n.setup.offset && row.binning == n.setup.binning
    && (n.kind == Dark && n.exposure.Some? && n.exposure.value != 0.0 ==> row.exposure == n.exposure.value)
    && (n.kind != Dark || n.exposure == None || n.exposure.value == 0.0 ==> row.exposure == biasExposure)
  }

  // Each row is made from the need at its place.
  ghost predicate MadeFrom(rows: seq<PlanRow>, needs: seq<Need>, biasExposure: real) {
    |rows| == |needs| && forall i :: 0 <= i < |rows| ==> RowFor(rows[i], needs[i], biasExposure)
  }

  // The needs of one kind and temperature, ordered as their rows are.
  ghost predicate Orders(needs: seq<Need>, taken: seq<Need>, t: Option<int>, kind: Kind) {
    multiset(needs) == multiset(OfKind(OfTemperature(taken, t), kind))
  }

  ghost predicate BiasPlan(node: Node, taken: seq<Need>, t: Option<int>, biasExposure: real) {
    && node.ExposurePlan? && node.kind == Bias && node.rows != []
    && (forall row :: row in node.rows ==> row.exposure == biasExposure)
    && MadeFrom(node.rows, OfKind(OfTemperature(taken, t), Bias), biasExposure)
  }

  // Before a need without an exposure there are only others without (or a negative one); one
  // with an exposure is at least as long as those before it.
  ghost predicate ShortestNeedsFirst(darks: seq<Need>) {
    forall i, j :: 0 <= i < j < |darks| ==>
      if darks[j].exposure == None then darks[i].exposure == None || darks[i].exposure.value <= 0.0
      else darks[i].exposure.Some? ==> darks[i].exposure.value <= darks[j].exposure.value
  }

  ghost predicate DarkRowsOf(rows: seq<PlanRow>, darks: seq<Need>, taken: seq<Need>, t: Option<int>, biasExposure: real) {
    MadeFrom(rows, darks, biasExposure) && Orders(darks, taken, t, Dark) && ShortestNeedsFirst(darks)
  }

  ghost predicate DarkPlan(node: Node, taken: seq<Need>, t: Option<int>, biasExposure: real) {
    && node.ExposurePlan? && node.kind == Dark && node.rows != []
    && exists darks :: DarkRowsOf(node.rows, darks, taken, t, biasExposure)
  }

  // The bias, then the darks, if there are any.
  ghost predicate PlansInOrder(nodes: seq<Node>, taken: seq<Need>, t: Option<int>, biasExposure: real) {
    || nodes == []
    || (|nodes| == 1 && (BiasPlan(nodes[0], taken, t, biasExposure) || DarkPlan(nodes[0], taken, t, biasExposure)))
    || (|nodes| == 2 && BiasPlan(nodes[0], taken, t, biasExposure) && DarkPlan(nodes[1], taken, t, biasExposure))
  }

  // Cooling to its temperature first.
  ghost predicate InOrder(c: Container, taken: seq<Need>, biasExposure: real) {
    if c.name == None then PlansInOrder(c.children, taken, c.name, biasExposure)
    else c.children != [] && c.children[0] == Cool(c.name.value) && PlansInOrder(c.children[1..], taken, c.name, biasExposure)
  }

  lemma {:induction false} RowAt(needs: seq<Need>, biasExposure: real)
    ensures |Rows(needs, biasExposure)| == |needs|
    ensures forall i :: 0 <= i < |needs| ==> Rows(needs, biasExposure)[i] == RowOf(needs[i], biasExposure)
  {
    if needs != [] {
      RowAt(needs[1..], biasExposure);
    }
  }

  lemma {:induction false} OnlyOfKind(needs: seq<Need>, kind: Kind)
    ensures forall n :: n in OfKind(needs, kind) ==> n.kind == kind
  {
    if needs != [] {
      OnlyOfKind(needs[1..], kind);
    }
  }

  lemma BiasRows(taken: seq<Need>, t: Option<int>, biasExposure: real)
    ensures var rows := Rows(OfKind(OfTemperature(taken, t), Bias), biasExposure);
            rows != [] ==> BiasPlan(ExposurePlan(rows, Bias), taken, t, biasExposure)
  {
    var group := OfTemperature(taken, t);
    OnlyOfKind(group, Bias);
    RowAt(OfKind(group, Bias), biasExposure);
  }

  lemma LengthsOrder(darks: seq<Need>)
    requires ShortestFirst(darks)
    ensures ShortestNeedsFirst(darks)
  {
    forall i, j | 0 <= i < j < |darks|
      ensures if darks[j].exposure == None then darks[i].exposure == None || darks[i].exposure.value <= 0.0
              else darks[i].exposure.Some? ==> darks[i].exposure.value <= darks[j].exposure.value
    {
      assert Length(darks[i]) <= Length(darks[j]);
    }
  }

  lemma DarkRows(taken: seq<Need>, t: Option<int>, biasExposure: real)
    ensures var rows := Rows(ByLength(OfKind(OfTemperature(taken, t), Dark)), biasExposure);
            rows != [] ==> DarkPlan(ExposurePlan(rows, Dark), taken, t, biasExposure)
  {
    var darks := ByLength(OfKind(OfTemperature(taken, t), Dark));
    ByLengthExact(OfKind(OfTemperature(taken, t), Dark));
    RowAt(darks, biasExposure);
    LengthsOrder(darks);
    assert DarkRowsOf(Rows(darks, biasExposure), darks, taken, t, biasExposure);
  }

  lemma ContainerInOrder(taken: seq<Need>, t: Option<int>, biasExposure: real)
    ensures InOrder(ContainerOf(t, OfTemperature(taken, t), biasExposure), taken, biasExposure)
  {
    var group := OfTemperature(taken, t);
    var bias := Rows(OfKind(group, Bias), biasExposure);
    var darks := Rows(ByLength(OfKind(group, Dark)), biasExposure);
    BiasRows(taken, t, biasExposure);
    DarkRows(taken, t, biasExposure);
    var plans := (if bias != [] then [ExposurePlan(bias, Bias)] else []) + (if darks != [] then [ExposurePlan(darks, Dark)] else []);
    assert PlansInOrder(plans, taken, t, biasExposure);
    var c := ContainerOf(t, group, biasExposure);
    if t.Some? {
      assert c.children == [Cool(t.value)] + plans;
    } else {
      assert c.children == plans;
    }
  }

  lemma {:induction false} ContainersOrdered(taken: seq<Need>, temperatures: seq<Option<int>>, biasExposure: real)
    ensures forall c :: c in Containers(taken, temperatures, biasExposure) ==> InOrder(c, taken, biasExposure)
  {
    if temperatures != [] {
      ContainerInOrder(taken, temperatures[0], biasExposure);
      ContainersOrdered(taken, temperatures[1..], biasExposure);
    }
  }

  // In every container of the sequence: cooling, the bias, then the darks, those without an
  // exposure before the others and these from the shortest to the longest.
  lemma TargetsInOrder(taken: seq<Need>, biasExposure: real, warm: bool)
    ensures forall c :: c in Plan(taken, biasExposure, warm).targets ==> InOrder(c, taken, biasExposure)
  {
    ContainersOrdered(taken, Temperatures(taken), biasExposure);
  }

  // -- one row per need -------------------------------------------------------------------------------------

  // A row where it is: in the container of a temperature, in its plan of bias or of darks.
  datatype Placed = Placed(name: Option<int>, kind: Kind, row: PlanRow)

  function PlaceOf(n: Need, biasExposure: real): Placed {
    Placed(Rounded(n), n.kind, RowOf(n, biasExposure))
  }

  function PlaceAll(needs: seq<Need>, biasExposure: real): seq<Placed> {
    if needs == [] then [] else [PlaceOf(needs[0], biasExposure)] + PlaceAll(needs[1..], biasExposure)
  }

  function InPlan(name: Option<int>, kind: Kind, rows: seq<PlanRow>): seq<Placed> {
    if rows == [] then [] else [Placed(name, kind, rows[0])] + InPlan(name, kind, rows[1..])
  }

  function InNode(name: Option<int>, node: Node): seq<Placed> {
    if node.ExposurePlan? then InPlan(name, node.kind, node.rows) else []
  }

  function InNodes(name: Option<int>, nodes: seq<Node>): seq<Placed> {
    if nodes == [] then [] else InNode(name, nodes[0]) + InNodes(name, nodes[1..])
  }

  function InContainers(c: seq<Container>): seq<Placed> {
    if c == [] then [] else InNodes(c[0].name, c[0].children) + InContainers(c[1..])
  }

  lemma {:induction false} RowsPlaced(needs: seq<Need>, name: Option<int>, kind: Kind, biasExposure: real)
    requires forall n :: n in needs ==> Rounded(n) == name && n.kind == kind
    ensures InPlan(name, kind, Rows(needs, biasExposure)) == PlaceAll(needs, biasExposure)
  {
    if needs != [] {
      assert needs[0] in needs && needs == [needs[0]] + needs[1..];
      RowsPlaced(needs[1..], name, kind, biasExposure);
      assert Rows(needs, biasExposure)[1..] == Rows(needs[1..], biasExposure);
    }
  }

  lemma {:induction false} InsertPlaced(n: Need, sorted: seq<Need>, biasExposure: real)
    ensures multiset(PlaceAll(InsertNeed(n, sorted), biasExposure)) == multiset{PlaceOf(n, biasExposure)} + multiset(PlaceAll(sorted, biasExposure))
  {
    if sorted == [] || Length(n) <= Length(sorted[0]) {
      assert ([n] + sorted)[1..] == sorted;
    } else {
      InsertPlaced(n, sorted[1..], biasExposure);
      assert InsertNeed(n, sorted)[1..] == InsertNeed(n, sorted[1..]);
    }
  }

  lemma {:induction false} SortPlaced(needs: seq<Need>, biasExposure: real)
    ensures multiset(PlaceAll(ByLength(needs), biasExposure)) == multiset(PlaceAll(needs, biasExposure))
  {
    if needs != [] {
      SortPlaced(needs[1..], biasExposure);
      InsertPlaced(needs[0], ByLength(needs[1..]), biasExposure);
    }
  }

  lemma PlaceCons(n: Need, rest: seq<Need>, there: bool, biasExposure: real)
    ensures PlaceAll((if there then [n] else []) + rest, biasExposure)
         == (if there then [PlaceOf(n, biasExposure)] else []) + PlaceAll(rest, biasExposure)
  {
    if there {
      assert ([n] + rest)[1..] == rest;
    } else {
      assert [] + rest == rest;
    }
  }

  lemma {:induction false} KindsPlaced(group: seq<Need>, biasExposure: real)
    requires forall n :: n in group ==> n.kind != Flat
    ensures multiset(PlaceAll(OfKind(group, Bias), biasExposure)) + multiset(PlaceAll(OfKind(group, Dark), biasExposure))
         == multiset(PlaceAll(group, biasExposure))
  {
    if group != [] {
      assert group[0] in group && group == [group[0]] + group[1..];
      KindsPlaced(group[1..], biasExposure);
      PlaceCons(group[0], OfKind(group[1..], Bias), group[0].kind == Bias, biasExposure);
      PlaceCons(group[0], OfKind(group[1..], Dark), group[0].kind == Dark, biasExposure);
    }
  }

  lemma {:induction false} OfKindHas(group: seq<Need>, kind: Kind)
    ensures forall n :: n in OfKind(group, kind) ==> n in group && n.kind == kind
  {
    if group != [] { OfKindHas(group[1..], kind); }
  }

  lemma {:induction false} OfTemperatureHas(needs: seq<Need>, t: Option<int>)
    ensures forall n :: n in OfTemperature(needs, t) ==> n in needs && Rounded(n) == t
  {
    if needs != [] { OfTemperatureHas(needs[1..], t); }
  }

  lemma InNodesOf(name: Option<int>, bias: seq<PlanRow>, darks: seq<PlanRow>, children: seq<Node>)
    requires children == (if name.Some? then [Cool(name.value)] else [])
                         + (if bias != [] then [ExposurePlan(bias, Bias)] else [])
                         + (if darks != [] then [ExposurePlan(darks, Dark)] else [])
    ensures InNodes(name, children) == InPlan(name, Bias, bias) + InPlan(name, Dark, darks)
  {
    var cool: seq<Node> := if name.Some? then [Cool(name.value)] else [];
    var b: seq<Node> := if bias != [] then [ExposurePlan(bias, Bias)] else [];
    var d: seq<Node> := if darks != [] then [ExposurePlan(darks, Dark)] else [];
    assert children == cool + (b + d);
    InNodesConcat(name, cool, b + d);
    InNodesConcat(name, b, d);
    OnePlan(name, bias, Bias, b);
    OnePlan(name, darks, Dark, d);
    OneNode(name, cool);
  }

  lemma OnePlan(name: Option<int>, rows: seq<PlanRow>, kind: Kind, nodes: seq<Node>)
    requires nodes == if rows != [] then [ExposurePlan(rows, kind)] else []
    ensures InNodes(name, nodes) == InPlan(name, kind, rows)
  {
    OneNode(name, nodes);
  }

  lemma OneNode(name: Option<int>, nodes: seq<Node>)
    requires |nodes| <= 1
    ensures InNodes(name, nodes) == if nodes == [] then [] else InNode(name, nodes[0])
  {
    if nodes != [] { assert nodes[1..] == []; }
  }

  lemma {:induction false} InNodesConcat(name: Option<int>, a: seq<Node>, b: seq<Node>)
    ensures InNodes(name, a + b) == InNodes(name, a) + InNodes(name, b)
  {
    if a == [] {
      assert a + b == b;
    } else {
      assert (a + b)[1..] == a[1..] + b;
      InNodesConcat(name, a[1..], b);
    }
  }

  lemma ContainerPlaced(t: Option<int>, group: seq<Need>, biasExposure: real)
    requires forall n :: n in group ==> n.kind != Flat && Rounded(n) == t
    ensures multiset(InNodes(t, ContainerOf(t, group, biasExposure).children)) == multiset(PlaceAll(group, biasExposure))
  {
    var bias, darks := OfKind(group, Bias), OfKind(group, Dark);
    OfKindHas(group, Bias);
    OfKindHas(group, Dark);
    ByLengthExact(darks);
    forall n | n in ByLength(darks) ensures n in darks {
      assert n in multiset(ByLength(darks));
    }
    RowsPlaced(bias, t, Bias, biasExposure);
    RowsPlaced(ByLength(darks), t, Dark, biasExposure);
    SortPlaced(darks, biasExposure);
    KindsPlaced(group, biasExposure);
    InNodesOf(t, Rows(bias, biasExposure), Rows(ByLength(darks), biasExposure), ContainerOf(t, group, biasExposure).children);
  }

  // The needs of the temperatures listed.
  function OfAny(needs: seq<Need>, temperatures: seq<Option<int>>): seq<Need> {
    if needs == [] then [] else (if Rounded(needs[0]) in temperatures then [needs[0]] else []) + OfAny(needs[1..], temperatures)
  }

  lemma {:induction false} OfAnySplit(needs: seq<Need>, t: Option<int>, rest: seq<Option<int>>, biasExposure: real)
    requires t !in rest
    ensures multiset(PlaceAll(OfAny(needs, [t] + rest), biasExposure))
         == multiset(PlaceAll(OfTemperature(needs, t), biasExposure)) + multiset(PlaceAll(OfAny(needs, rest), biasExposure))
  {
    if needs != [] {
      OfAnySplit(needs[1..], t, rest, biasExposure);
      var n := needs[0];
      PlaceCons(n, OfAny(needs[1..], [t] + rest), Rounded(n) in [t] + rest, biasExposure);
      PlaceCons(n, OfAny(needs[1..], rest), Rounded(n) in rest, biasExposure);
      PlaceCons(n, OfTemperature(needs[1..], t), Rounded(n) == t, biasExposure);
    }
  }

  lemma {:induction false} OfAnyAll(needs: seq<Need>, temperatures: seq<Option<int>>)
    requires forall n :: n in needs ==> Rounded(n) in temperatures
    ensures OfAny(needs, temperatures) == needs
  {
    if needs != [] {
      assert needs[0] in needs && needs == [needs[0]] + needs[1..];
      OfAnyAll(needs[1..], temperatures);
    }
  }

  lemma {:induction false} OfNone(needs: seq<Need>)
    ensures OfAny(needs, []) == []
  {
    if needs != [] { OfNone(needs[1..]); }
  }

  lemma {:induction false} ContainersPlaced(taken: seq<Need>, temperatures: seq<Option<int>>, biasExposure: real)
    requires forall n :: n in taken ==> n.kind != Flat
    requires ColdestFirst(temperatures)
    ensures multiset(InContainers(Containers(taken, temperatures, biasExposure))) == multiset(PlaceAll(OfAny(taken, temperatures), biasExposure))
  {
    if temperatures == [] {
      OfNone(taken);
    } else {
      var t, rest := temperatures[0], temperatures[1..];
      ContainersPlaced(taken, rest, biasExposure);
      OfTemperatureHas(taken, t);
      ContainerPlaced(t, OfTemperature(taken, t), biasExposure);
      assert temperatures == [t] + rest;
      OfAnySplit(taken, t, rest, biasExposure);
      assert Containers(taken, temperatures, biasExposure)[1..] == Containers(taken, rest, biasExposure);
    }
  }

  // Each taken need is one row, in the container of its rounded temperature and in the plan of
  // its kind; and there are no other rows.
  lemma EveryNeedOneRow(taken: seq<Need>, biasExposure: real, warm: bool)
    requires forall n :: n in taken ==> n.kind != Flat
    ensures multiset(InContainers(Plan(taken, biasExposure, warm).targets)) == multiset(PlaceAll(taken, biasExposure))
  {
    TemperaturesExact(taken);
    ContainersPlaced(taken, Temperatures(taken), biasExposure);
    OfAnyAll(taken, Temperatures(taken));
  }

  // -- how many frames ----------------------------------------------------------------------------------------

  function RowFrames(rows: seq<PlanRow>): int {
    if rows == [] then 0 else rows[0].count + RowFrames(rows[1..])
  }

  function NodeFrames(nodes: seq<Node>): int {
    if nodes == [] then 0 else (if nodes[0].ExposurePlan? then RowFrames(nodes[0].rows) else 0) + NodeFrames(nodes[1..])
  }

  function Frames(c: seq<Container>): int {
    if c == [] then 0 else NodeFrames(c[0].children) + Frames(c[1..])
  }

  method CountFrames(s: Sequence) returns (total: int)
    ensures total == Frames(s.targets)
  {
    total := 0;
    for i := 0 to |s.targets|
      invariant total + Frames(s.targets[i..]) == Frames(s.targets)
    {
      assert s.targets[i..][1..] == s.targets[i + 1..];
      var nodes := s.targets[i].children;
      ghost var before := total;
      for j := 0 to |nodes|
        invariant total + NodeFrames(nodes[j..]) == before + NodeFrames(nodes)
      {
        assert nodes[j..][1..] == nodes[j + 1..];
        if nodes[j].ExposurePlan? {
          total := total + RowFrames(nodes[j].rows);
        }
      }
    }
  }

  function Wants(needs: seq<Need>): int {
    if needs == [] then 0 else needs[0].count + Wants(needs[1..])
  }

  function Total(placed: seq<Placed>): int {
    if placed == [] then 0 else placed[0].row.count + Total(placed[1..])
  }

  lemma {:induction false} TotalConcat(a: seq<Placed>, b: seq<Placed>)
    ensures Total(a + b) == Total(a) + Total(b)
  {
    if a == [] {
      assert a + b == b;
    } else {
      assert (a + b)[1..] == a[1..] + b;
      TotalConcat(a[1..], b);
    }
  }

  lemma TotalWithout(s: seq<Placed>, k: nat)
    requires k < |s|
    ensures Total(s) == s[k].row.count + Total(s[..k] + s[k + 1..])
    ensures multiset(s[..k] + s[k + 1..]) == multiset(s) - multiset{s[k]}
  {
    OneLess(s, k);
    TotalAround(s[..k], s[k], s[k + 1..]);
    SplitAt(s, k);
  }

  lemma TotalAround(before: seq<Placed>, x: Placed, after: seq<Placed>)
    ensures Total(before + ([x] + after)) == x.row.count + Total(before + after)
  {
    TailOf(x, after);
    TotalConcat(before, [x] + after);
    TotalConcat(before, after);
  }

  lemma {:induction false} TotalOfSame(a: seq<Placed>, b: seq<Placed>)
    requires multiset(a) == multiset(b)
    ensures Total(a) == Total(b)
    decreases |a|
  {
    if a == [] {
      assert |multiset(b)| == 0;
    } else {
      assert a[0] in multiset(b);
      var k :| 0 <= k < |b| && b[k] == a[0];
      var a', b' := a[..0] + a[1..], b[..k] + b[k + 1..];
      TotalWithout(a, 0);
      TotalWithout(b, k);
      assert multiset(a') == multiset(b') && |a'| < |a|;
      TotalOfSame(a', b');
    }
  }

  lemma {:induction false} RowsTotal(name: Option<int>, kind: Kind, rows: seq<PlanRow>)
    ensures Total(InPlan(name, kind, rows)) == RowFrames(rows)
  {
    if rows != [] {
      RowsTotal(name, kind, rows[1..]);
      assert InPlan(name, kind, rows)[1..] == InPlan(name, kind, rows[1..]);
    }
  }

  lemma {:induction false} NodesTotal(name: Option<int>, nodes: seq<Node>)
    ensures Total(InNodes(name, nodes)) == NodeFrames(nodes)
  {
    if nodes != [] {
      NodesTotal(name, nodes[1..]);
      TotalConcat(InNode(name, nodes[0]), InNodes(name, nodes[1..]));
      if nodes[0].ExposurePlan? { RowsTotal(name, nodes[0].kind, nodes[0].rows); }
    }
  }

  lemma {:induction false} ContainersTotal(c: seq<Container>)
    ensures Total(InContainers(c)) == Frames(c)
  {
    if c != [] {
      ContainersTotal(c[1..]);
      NodesTotal(c[0].name, c[0].children);
      TotalConcat(InNodes(c[0].name, c[0].children), InContainers(c[1..]));
    }
  }

  lemma {:induction false} PlacedTotal(needs: seq<Need>, biasExposure: real)
    ensures Total(PlaceAll(needs, biasExposure)) == Wants(needs)
  {
    if needs != [] {
      PlacedTotal(needs[1..], biasExposure);
      assert PlaceAll(needs, biasExposure)[1..] == PlaceAll(needs[1..], biasExposure);
    }
  }

  // The sequence takes as many frames as the taken needs want.
  lemma FramesAreWanted(taken: seq<Need>, biasExposure: real, warm: bool)
    requires forall n :: n in taken ==> n.kind != Flat
    ensures Frames(Plan(taken, biasExposure, warm).targets) == Wants(taken)
  {
    EveryNeedOneRow(taken, biasExposure, warm);
    ContainersTotal(Plan(taken, biasExposure, warm).targets);
    PlacedTotal(taken, biasExposure);
    TotalOfSame(InContainers(Plan(taken, biasExposure, warm).targets), PlaceAll(taken, biasExposure));
  }

  // -- the loops ------------------------------------------------------------------------------------------------

  lemma {:induction false} OfTemperatureConcat(a: seq<Need>, b: seq<Need>, t: Option<int>)
    ensures OfTemperature(a + b, t) == OfTemperature(a, t) + OfTemperature(b, t)
  {
    if a == [] {
      assert a + b == b;
    } else {
      ConcatTail(a, b);
      OfTemperatureConcat(a[1..], b, t);
      Associative(if Rounded(a[0]) == t then [a[0]] else [], OfTemperature(a[1..], t), OfTemperature(b, t));
    }
  }

  ghost predicate Grouped(groups: map<Option<int>, seq<Need>>, needs: seq<Need>) {
    && (forall t :: t in groups <==> HasNeed(needs, t))
    && (forall t :: t in groups ==> groups[t] == OfTemperature(needs, t))
    && forall t :: t !in groups ==> OfTemperature(needs, t) == []
  }

  lemma OfTemperatureSnoc(needs: seq<Need>, n: Need, t: Option<int>)
    ensures OfTemperature(needs + [n], t) == OfTemperature(needs, t) + (if Rounded(n) == t then [n] else [])
  {
    assert [n][1..] == [];
    OfTemperatureConcat(needs, [n], t);
  }

  lemma GroupedStep(groups: map<Option<int>, seq<Need>>, needs: seq<Need>, n: Need, more: map<Option<int>, seq<Need>>)
    requires Grouped(groups, needs)
    requires var t := Rounded(n); more == groups[t := (if t in groups then groups[t] else []) + [n]]
    ensures Grouped(more, needs + [n])
  {
    forall t ensures (t in more <==> HasNeed(needs + [n], t)) && OfTemperature(needs + [n], t) == if t in more then more[t] else [] {
      OfTemperatureSnoc(needs, n, t);
      HasNeedStep(needs, n, t);
    }
  }

  lemma HasNeedStep(needs: seq<Need>, n: Need, t: Option<int>)
    ensures HasNeed(needs + [n], t) <==> HasNeed(needs, t) || Rounded(n) == t
  {
    if HasNeed(needs, t) {
      var x :| x in needs && Rounded(x) == t;
      assert x in needs + [n];
    }
    assert n in needs + [n];
  }

  method ByTemperature(taken: seq<Need>) returns (groups: map<Option<int>, seq<Need>>)
    ensures Grouped(groups, taken)
  {
    groups := map[];
    for i := 0 to |taken|
      invariant Grouped(groups, taken[..i])
    {
      var t := Rounded(taken[i]);
      TakeStep(taken, i);
      GroupedStep(groups, taken[..i], taken[i], groups[t := (if t in groups then groups[t] else []) + [taken[i]]]);
      groups := groups[t := (if t in groups then groups[t] else []) + [taken[i]]];
    }
    TakeAll(taken);
  }

  lemma {:induction false} ContainersSnoc(taken: seq<Need>, temperatures: seq<Option<int>>, t: Option<int>, biasExposure: real)
    ensures Containers(taken, temperatures + [t], biasExposure)
         == Containers(taken, temperatures, biasExposure) + [ContainerOf(t, OfTemperature(taken, t), biasExposure)]
  {
    if temperatures == [] {
      assert [] + [t] == [t] && [t][1..] == [];
    } else {
      assert (temperatures + [t])[1..] == temperatures[1..] + [t];
      ContainersSnoc(taken, temperatures[1..], t, biasExposure);
    }
  }

  lemma RowsEmpty(needs: seq<Need>, biasExposure: real)
    ensures Rows(needs, biasExposure) == [] <==> needs == []
  {
  }

  method MakeContainer(t: Option<int>, group: seq<Need>, biasExposure: real) returns (c: Container)
    ensures c == ContainerOf(t, group, biasExposure)
  {
    var children: seq<Node> := [];
    if t.Some? {
      children := children + [Cool(t.value)];
    }
    var bias := Rows(OfKind(group, Bias), biasExposure);
    if bias != [] {
      children := children + [ExposurePlan(bias, Bias)];
    }
    var darks := ByLength(OfKind(group, Dark));
    RowsEmpty(darks, biasExposure);
    if darks != [] {
      children := children + [ExposurePlan(Rows(darks, biasExposure), Dark)];
    }
    c := Container(t, children);
  }

  method MakeContainers(taken: seq<Need>, temperatures: seq<Option<int>>, groups: map<Option<int>, seq<Need>>, biasExposure: real)
    returns (containers: seq<Container>)
    requires Grouped(groups, taken) && forall t :: t in temperatures ==> t in groups
    ensures containers == Containers(taken, temperatures, biasExposure)
  {
    containers := [];
    for i := 0 to |temperatures|
      invariant containers == Containers(taken, temperatures[..i], biasExposure)
    {
      var t := temperatures[i];
      assert t in temperatures;
      TakeStep(temperatures, i);
      ContainersSnoc(taken, temperatures[..i], t, biasExposure);
      var container := MakeContainer(t, groups[t], biasExposure);
      containers := containers + [container];
    }
    TakeAll(temperatures);
  }

  lemma SameTemperatures(taken: seq<Need>, groups: map<Option<int>, seq<Need>>)
    requires Grouped(groups, taken)
    ensures forall t :: t in Temperatures(taken) <==> t in groups
  {
    TemperaturesExact(taken);
    forall t ensures t in Temperatures(taken) <==> HasNeed(taken, t) {
    }
  }

  method DarksSequence(needs: seq<Need>, camera: string, sensor: (int, int), biasExposure: real, warm: bool)
    returns (s: Sequence, left: seq<Need>)
    ensures var taken := Taken(needs, camera, sensor);
            && s == Plan(taken, biasExposure, warm) && left == Left(needs, taken)
            && Frames(s.targets) == Wants(taken)
            && multiset(taken) + multiset(left) + multiset(Flats(needs)) == multiset(needs)
  {
    var taken := Taken(needs, camera, sensor);
    left := Left(needs, taken);
    var groups := ByTemperature(taken);
    var temperatures := Temperatures(taken);
    SameTemperatures(taken, groups);
    var containers := MakeContainers(taken, temperatures, groups, biasExposure);
    s := Sequence(containers, warm && exists t :: t in groups && t.Some?);
    NeedsSplit(needs, camera, sensor);
    FramesAreWanted(taken, biasExposure, warm);
  }
}
