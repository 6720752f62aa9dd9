/** The groups a library report lists (server/src/nocs/calibration/library.py, _groups): what is
    added up from the clusters, and their order. */
module Groups {
  import opened Common
  import opened Library

  datatype Batch = Batch(key: Key, members: seq<Light>, cluster: seq<Light>)

  function BatchesOf(key: Key, members: seq<Light>, clusters: seq<seq<Light>>): seq<Batch> {
    if clusters == [] then [] else BatchesOf(key, members, clusters[..|clusters| - 1]) + [Batch(key, members, clusters[|clusters| - 1])]
  }

  function Batches(shelves: seq<Shelf>): seq<Batch> {
    if shelves == [] then []
    else Batches(shelves[..|shelves| - 1]) + BatchesOf(shelves[|shelves| - 1].key, shelves[|shelves| - 1].members, Clusters(shelves[|shelves| - 1].members))
  }

  // -- a group's own values -----------------------------------------------------------------------

  function InsertReal(s: seq<real>, x: real): (r: seq<real>)
    ensures multiset(r) == multiset(s) + multiset{x}
    ensures |r| == |s| + 1 && forall y :: y in r <==> y == x || y in s
  {
    if s == [] then [x]
    else
      assert s == [s[0]] + s[1..];
      if x < s[0] then [x] + s else [s[0]] + InsertReal(s[1..], x)
  }

  function SortReals(s: seq<real>): (r: seq<real>)
    ensures multiset(r) == multiset(s)
    ensures |r| == |s| && forall y :: y in r <==> y in s
  {
    if s == [] then []
    else
      assert s == s[..|s| - 1] + [s[|s| - 1]];
      InsertReal(SortReals(s[..|s| - 1]), s[|s| - 1])
  }

  // The middle value, or the mean of the two in the middle.
  function Median(s: seq<real>): real
    requires s != []
  {
    var sorted := SortReals(s);
    var n := |s|;
    if n % 2 == 1 then sorted[n / 2] else (sorted[n / 2 - 1] + sorted[n / 2]) / 2.0
  }

  predicate Ascends(s: seq<real>) {
    forall i, j :: 0 <= i < j < |s| ==> s[i] <= s[j]
  }

  lemma AscendsFrom(x: real, rest: seq<real>)
    requires Ascends(rest) && forall y :: y in rest ==> x <= y
    ensures Ascends([x] + rest)
  {
    assert forall j :: 0 <= j < |rest| ==> rest[j] in rest;
  }

  lemma AboveFirst(x: real, s: seq<real>)
    requires Ascends(s) && s != [] && x <= s[0]
    ensures forall y :: y in s ==> x <= y
  {
  }

  lemma {:induction false} InsertRealAscends(s: seq<real>, x: real)
    requires Ascends(s)
    ensures Ascends(InsertReal(s, x))
  {
    if s != [] {
      if x < s[0] {
        AboveFirst(x, s);
        AscendsFrom(x, s);
      } else {
        InsertRealAscends(s[1..], x);
        AboveFirst(s[0], s);
        AscendsFrom(s[0], InsertReal(s[1..], x));
      }
    }
  }

  lemma {:induction false} SortRealsAscends(s: seq<real>)
    ensures Ascends(SortReals(s))
  {
    if s != [] {
      SortRealsAscends(s[..|s| - 1]);
      InsertRealAscends(SortReals(s[..|s| - 1]), s[|s| - 1]);
    }
  }

  lemma FirstIsLeast(a: seq<real>, b: seq<real>)
    requires a != [] && b != [] && Ascends(a) && Ascends(b) && multiset(a) == multiset(b)
    ensures a[0] == b[0]
  {
    assert a[0] in multiset(b) && b[0] in multiset(a);
    var i :| 0 <= i < |b| && b[i] == a[0];
    var j :| 0 <= j < |a| && a[j] == b[0];
  }

  // Numbers have one ascending order.
  lemma {:induction false} OneOrder(a: seq<real>, b: seq<real>)
    requires Ascends(a) && Ascends(b) && multiset(a) == multiset(b)
    ensures a == b
  {
    if a == [] {
      assert |multiset(b)| == 0;
    } else {
      assert |b| == |multiset(a)|;
      FirstIsLeast(a, b);
      assert a == [a[0]] + a[1..] && b == [b[0]] + b[1..];
      assert multiset(a[1..]) == multiset(a) - multiset{a[0]};
      assert multiset(b[1..]) == multiset(b) - multiset{b[0]};
      OneOrder(a[1..], b[1..]);
    }
  }

  // Of the same numbers in ascending order: the one in the middle, or half-way between two.
  lemma MedianIsMiddle(s: seq<real>, sorted: seq<real>)
    requires s != [] && Ascends(sorted) && multiset(sorted) == multiset(s)
    ensures |sorted| == |s|
    ensures |s| % 2 == 1 ==> Median(s) == sorted[|s| / 2]
    ensures |s| % 2 == 0 ==> Median(s) - sorted[|s| / 2 - 1] == sorted[|s| / 2] - Median(s)
  {
    SortRealsAscends(s);
    OneOrder(sorted, SortReals(s));
  }

  // To one decimal.
  function Tenths(x: real): real {
    Round(x * 10.0) as real / 10.0
  }

  function Temperatures(cluster: seq<Light>): seq<real> {
    if cluster == [] then []
    else (if HasTemperature(cluster[0]) then [cluster[0].temperature.value] else []) + Temperatures(cluster[1..])
  }

  function CountOf(lights: seq<Light>): int {
    if lights == [] then 0 else lights[0].count + CountOf(lights[1..])
  }

  function NewestFocus(members: seq<Light>, cluster: seq<Light>): Option<int> {
    if members == [] then None
    else if members[0] in cluster && members[0].focus.Some? then members[0].focus
    else NewestFocus(members[1..], cluster)
  }

  function GroupOf(b: Batch): Group {
    var temperatures := Temperatures(b.cluster);
    Group(b.key, if temperatures == [] then None else Some(Tenths(Median(temperatures))),
          CountOf(b.cluster), set l | l in b.cluster :: l.night, NewestFocus(b.members, b.cluster))
  }

  function GroupsOf(batches: seq<Batch>): seq<Group> {
    if batches == [] then [] else GroupsOf(batches[..|batches| - 1]) + [GroupOf(batches[|batches| - 1])]
  }

  // -- their order ----------------------------------------------------------------------------------

  function Name(filter: Option<string>): string {
    if filter.Some? then filter.value else ""
  }

  function Degrees(temperature: Option<real>): real {
    if temperature.Some? then temperature.value else 0.0
  }

  // By camera, filter, exposure and temperature.
  predicate Less(a: Group, b: Group) {
    var c, d := a.key.setup.camera, b.key.setup.camera;
    var f, g := Name(a.key.filter), Name(b.key.filter);
    || Before(c, d)
    || (c == d && Before(f, g))
    || (c == d && f == g && a.key.exposure < b.key.exposure)
    || (c == d && f == g && a.key.exposure == b.key.exposure && Degrees(a.temperature) < Degrees(b.temperature))
  }

  function InsertGroup(sorted: seq<Group>, g: Group): (r: seq<Group>)
    ensures multiset(r) == multiset(sorted) + multiset{g}
  {
    if sorted == [] then [g]
    else
      assert sorted == [sorted[0]] + sorted[1..];
      if Less(g, sorted[0]) then [g] + sorted else [sorted[0]] + InsertGroup(sorted[1..], g)
  }

  function SortGroups(groups: seq<Group>): (r: seq<Group>)
    ensures multiset(r) == multiset(groups)
  {
    if groups == [] then []
    else
      assert groups == groups[..|groups| - 1] + [groups[|groups| - 1]];
      InsertGroup(SortGroups(groups[..|groups| - 1]), groups[|groups| - 1])
  }

  function Groups(lights: seq<Light>): seq<Group> {
    SortGroups(GroupsOf(Batches(Shelve(lights))))
  }

  lemma LessTransitive(a: Group, b: Group, c: Group)
    requires Less(a, b) && Less(b, c)
    ensures Less(a, c)
  {
    var x, y, z := a.key.setup.camera, b.key.setup.camera, c.key.setup.camera;
    if Before(x, y) && Before(y, z) { BeforeTransitive(x, y, z); }
    var f, g, h := Name(a.key.filter), Name(b.key.filter), Name(c.key.filter);
    if Before(f, g) && Before(g, h) { BeforeTransitive(f, g, h); }
  }

  lemma LessIsStrict(a: Group, b: Group)
    requires Less(a, b)
    ensures !Less(b, a)
  {
    var c, d := a.key.setup.camera, b.key.setup.camera;
    if Before(c, d) { BeforeIsStrict(c, d); }
    if Before(d, c) { BeforeIsStrict(d, c); }
    var f, g := Name(a.key.filter), Name(b.key.filter);
    if Before(f, g) { BeforeIsStrict(f, g); }
    if Before(g, f) { BeforeIsStrict(g, f); }
  }

  ghost predicate InOrder(s: seq<Group>) {
    forall i, j :: 0 <= i < j < |s| ==> !Less(s[j], s[i])
  }

  lemma {:induction false} InsertGroupOrders(sorted: seq<Group>, g: Group)
    requires InOrder(sorted)
    ensures InOrder(InsertGroup(sorted, g))
  {
    if sorted == [] {
    } else if Less(g, sorted[0]) {
      LessIsStrict(g, sorted[0]);
      forall j | 0 <= j < |sorted| ensures !Less(sorted[j], g) {
        if Less(sorted[j], g) { LessTransitive(sorted[j], g, sorted[0]); }
      }
    } else {
      InsertGroupOrders(sorted[1..], g);
      var rest := InsertGroup(sorted[1..], g);
      forall j | 0 <= j < |rest| ensures !Less(rest[j], sorted[0]) {
        assert rest[j] in multiset(rest);
        if rest[j] != g {
          assert rest[j] in multiset(sorted[1..]);
          var k :| 0 <= k < |sorted[1..]| && sorted[1..][k] == rest[j];
          assert sorted[k + 1] == rest[j];
        }
      }
    }
  }

  lemma {:induction false} SortGroupsOrders(groups: seq<Group>)
    ensures InOrder(SortGroups(groups))
  {
    if groups != [] {
      SortGroupsOrders(groups[..|groups| - 1]);
      InsertGroupOrders(SortGroups(groups[..|groups| - 1]), groups[|groups| - 1]);
    }
  }

  // -- every light in one group ---------------------------------------------------------------------------

  function Clustered(batches: seq<Batch>): seq<Light> {
    if batches == [] then [] else Clustered(batches[..|batches| - 1]) + batches[|batches| - 1].cluster
  }

  lemma {:induction false} ClusteredConcat(a: seq<Batch>, b: seq<Batch>)
    ensures Clustered(a + b) == Clustered(a) + Clustered(b)
  {
    if b == [] {
      assert a + b == a;
    } else {
      assert (a + b)[..|a + b| - 1] == a + b[..|b| - 1];
      ClusteredConcat(a, b[..|b| - 1]);
    }
  }

  lemma {:induction false} BatchesOfFlat(key: Key, members: seq<Light>, clusters: seq<seq<Light>>)
    ensures Clustered(BatchesOf(key, members, clusters)) == Flat(clusters)
    ensures forall b :: b in BatchesOf(key, members, clusters) ==> b.key == key && b.members == members && b.cluster in clusters
  {
    if clusters != [] {
      var n := |clusters| - 1;
      BatchesOfFlat(key, members, clusters[..n]);
      var all := BatchesOf(key, members, clusters);
      assert all[..|all| - 1] == BatchesOf(key, members, clusters[..n]);
    }
  }

  lemma {:induction false} AllMembersSnoc(shelves: seq<Shelf>, s: Shelf)
    ensures AllMembers(shelves + [s]) == AllMembers(shelves) + s.members
  {
    if shelves == [] {
      assert [] + [s] == [s] && [s][1..] == [];
    } else {
      assert (shelves + [s])[1..] == shelves[1..] + [s];
      AllMembersSnoc(shelves[1..], s);
    }
  }

  lemma ShelfBatches(s: Shelf)
    ensures var all := BatchesOf(s.key, s.members, Clusters(s.members));
            && multiset(Clustered(all)) == multiset(s.members)
            && forall b :: b in all ==> Shelf(b.key, b.members) == s && b.cluster in Clusters(s.members)
  {
    BatchesOfFlat(s.key, s.members, Clusters(s.members));
    ClustersExact(s.members);
  }

  lemma SameTogether(a: seq<Light>, b: seq<Light>, c: seq<Light>, d: seq<Light>)
    requires multiset(a) == multiset(c) && multiset(b) == multiset(d)
    ensures multiset(a + b) == multiset(c + d)
  {
  }

  lemma AllMembersOfLast(shelves: seq<Shelf>)
    requires shelves != []
    ensures AllMembers(shelves) == AllMembers(shelves[..|shelves| - 1]) + shelves[|shelves| - 1].members
  {
    assert shelves == shelves[..|shelves| - 1] + [shelves[|shelves| - 1]];
    AllMembersSnoc(shelves[..|shelves| - 1], shelves[|shelves| - 1]);
  }

  lemma ClusteredSnoc(shelves: seq<Shelf>)
    requires shelves != []
    ensures var n := |shelves| - 1;
            multiset(Clustered(Batches(shelves))) == multiset(Clustered(Batches(shelves[..n])) + shelves[n].members)
  {
    var n := |shelves| - 1;
    var s := shelves[n];
    var before, last := Batches(shelves[..n]), BatchesOf(s.key, s.members, Clusters(s.members));
    ShelfBatches(s);
    ClusteredConcat(before, last);
    SameTogether(Clustered(before), Clustered(last), Clustered(before), s.members);
  }

  lemma {:induction false} BatchesHold(shelves: seq<Shelf>)
    ensures multiset(Clustered(Batches(shelves))) == multiset(AllMembers(shelves))
  {
    if shelves != [] {
      var n := |shelves| - 1;
      var before := shelves[..n];
      BatchesHold(before);
      ClusteredSnoc(shelves);
      AllMembersOfLast(shelves);
      SameTogether(Clustered(Batches(before)), shelves[n].members, AllMembers(before), shelves[n].members);
    }
  }

  lemma {:induction false} BatchesFrom(shelves: seq<Shelf>)
    ensures forall b :: b in Batches(shelves) ==> Shelf(b.key, b.members) in shelves && b.cluster in Clusters(b.members)
  {
    if shelves != [] {
      var n := |shelves| - 1;
      BatchesFrom(shelves[..n]);
      ShelfBatches(shelves[n]);
    }
  }

  // No temperatures, or all within 4 degrees of the first.
  ghost predicate OneTemperature(cluster: seq<Light>) {
    || (cluster != [] && forall l :: l in cluster ==> !HasTemperature(l))
    || Tight(cluster)
  }

  // Every light is in exactly one group, which has its setup and filter, and an exposure within
  // 1 % of its own; and a group's lights are of one temperature.
  lemma EveryLightOnce(lights: seq<Light>)
    ensures multiset(Clustered(Batches(Shelve(lights)))) == multiset(lights)
    ensures forall b, l :: b in Batches(Shelve(lights)) && l in b.cluster ==> Belongs(l, b.key)
    ensures forall b :: b in Batches(Shelve(lights)) ==> OneTemperature(b.cluster)
  {
    var shelves := Shelve(lights);
    ShelveOk(lights);
    BatchesHold(shelves);
    BatchesFrom(shelves);
    forall b | b in Batches(shelves) ensures OneTemperature(b.cluster) && forall l :: l in b.cluster ==> Belongs(l, b.key) {
      ClusterOfShelf(Shelf(b.key, b.members), b.cluster);
    }
  }

  lemma ClusterOfShelf(s: Shelf, cluster: seq<Light>)
    requires ShelfOk(s) && cluster in Clusters(s.members)
    ensures OneTemperature(cluster) && forall l :: l in cluster ==> Belongs(l, s.key)
  {
    ClustersExact(s.members);
    var i :| 0 <= i < |Clusters(s.members)| && Clusters(s.members)[i] == cluster;
    forall l | l in cluster ensures Belongs(l, s.key) {
      FlatHas(Clusters(s.members), i, l);
      assert l in multiset(s.members);
    }
    if cluster in KnownClusters(s.members) {
      assert Tight(cluster);
    } else {
      assert cluster == Unknown(s.members);
    }
  }

  // -- nothing lost or counted twice --------------------------------------------------------------------------

  function LightsIn(groups: seq<Group>): int {
    if groups == [] then 0 else groups[0].lights + LightsIn(groups[1..])
  }

  lemma {:induction false} InsertGroupKeepsCount(sorted: seq<Group>, g: Group)
    ensures LightsIn(InsertGroup(sorted, g)) == LightsIn(sorted) + g.lights
  {
    if sorted == [] {
      assert [g][1..] == [];
    } else if Less(g, sorted[0]) {
      assert ([g] + sorted)[1..] == sorted;
    } else {
      InsertGroupKeepsCount(sorted[1..], g);
      assert InsertGroup(sorted, g)[1..] == InsertGroup(sorted[1..], g);
    }
  }

  lemma {:induction false} LightsInGroups(batches: seq<Batch>)
    ensures LightsIn(SortGroups(GroupsOf(batches))) == CountOf(Clustered(batches))
  {
    if batches != [] {
      var n := |batches| - 1;
      LightsInGroups(batches[..n]);
      var groups := GroupsOf(batches);
      assert groups[..|groups| - 1] == GroupsOf(batches[..n]);
      InsertGroupKeepsCount(SortGroups(GroupsOf(batches[..n])), GroupOf(batches[n]));
      CountConcat(Clustered(batches[..n]), batches[n].cluster);
    }
  }

  lemma {:induction false} CountConcat(a: seq<Light>, b: seq<Light>)
    ensures CountOf(a + b) == CountOf(a) + CountOf(b)
  {
    if a == [] {
      assert a + b == b;
    } else {
      assert (a + b)[1..] == a[1..] + b;
      CountConcat(a[1..], b);
    }
  }

  lemma CountWithout(s: seq<Light>, k: nat)
    requires k < |s|
    ensures CountOf(s) == s[k].count + CountOf(s[..k] + s[k + 1..])
  {
    CountAround(s[..k], s[k], s[k + 1..]);
    SplitAt(s, k);
  }

  lemma CountAround(before: seq<Light>, x: Light, after: seq<Light>)
    ensures CountOf(before + ([x] + after)) == x.count + CountOf(before + after)
  {
    TailOf(x, after);
    CountConcat(before, [x] + after);
    CountConcat(before, after);
  }

  lemma SameRest(a: seq<Light>, b: seq<Light>, k: nat)
    requires a != [] && multiset(a) == multiset(b) && k < |b| && b[k] == a[0]
    ensures multiset(a[..0] + a[1..]) == multiset(b[..k] + b[k + 1..])
  {
    OneLess(a, 0);
    OneLess(b, k);
  }

  lemma {:induction false} CountOfSame(a: seq<Light>, b: seq<Light>)
    requires multiset(a) == multiset(b)
    ensures CountOf(a) == CountOf(b)
    decreases |a|
  {
    if a == [] {
      assert |multiset(b)| == 0;
    } else {
      assert a[0] in multiset(b);
      var k :| 0 <= k < |b| && b[k] == a[0];
      CountWithout(a, 0);
      CountWithout(b, k);
      SameRest(a, b, k);
      CountOfSame(a[..0] + a[1..], b[..k] + b[k + 1..]);
    }
  }

  // The groups' counts add up to the lights'.
  lemma CountsConserved(lights: seq<Light>)
    ensures LightsIn(Groups(lights)) == CountOf(lights)
    ensures InOrder(Groups(lights))
  {
    var batches := Batches(Shelve(lights));
    LightsInGroups(batches);
    EveryLightOnce(lights);
    CountOfSame(Clustered(batches), lights);
    SortGroupsOrders(GroupsOf(batches));
  }

  // -- a group's temperature ----------------------------------------------------------------------------------

  lemma {:induction false} TemperaturesOf(cluster: seq<Light>)
    ensures forall t :: t in Temperatures(cluster) <==> exists l :: l in cluster && HasTemperature(l) && l.temperature.value == t
  {
    if cluster != [] {
      TemperaturesOf(cluster[1..]);
      assert cluster == [cluster[0]] + cluster[1..];
    }
  }

  lemma MedianBetween(s: seq<real>, low: real, high: real)
    requires s != [] && forall x :: x in s ==> low <= x <= high
    ensures low <= Median(s) <= high
  {
    var sorted := SortReals(s);
    assert forall i :: 0 <= i < |s| ==> sorted[i] in sorted;
  }

  lemma TenthsNear(x: real)
    ensures -0.05 <= Tenths(x) - x <= 0.05
  {
    var y := x * 10.0;
    assert -0.5 <= Round(y) as real - y <= 0.5;
  }

  // Its temperature is within 4.05 degrees of each of its lights'.
  lemma TemperatureOfGroup(b: Batch)
    requires Tight(b.cluster)
    ensures GroupOf(b).temperature.Some?
    ensures forall l :: l in b.cluster ==> Abs(l.temperature.value - GroupOf(b).temperature.value) <= 4.05
  {
    var temperatures := Temperatures(b.cluster);
    TemperaturesOf(b.cluster);
    var low := b.cluster[0].temperature.value;
    assert b.cluster[0] in b.cluster && low in temperatures;
    MedianBetween(temperatures, low, low + 4.0);
    TenthsNear(Median(temperatures));
  }

  // -- a group's focus and order ------------------------------------------------------------------------

  // The focus of the first of its lights that has one, of the key's lights in the order given.
  lemma {:induction false} FocusOfFirst(members: seq<Light>, cluster: seq<Light>)
    ensures NewestFocus(members, cluster) == None <==> forall l :: l in members && l in cluster ==> l.focus == None
    ensures NewestFocus(members, cluster).Some? ==>
              exists k :: 0 <= k < |members| && members[k] in cluster && members[k].focus == NewestFocus(members, cluster)
                          && forall i :: 0 <= i < k && members[i] in cluster ==> members[i].focus == None
  {
    if members != [] {
      var rest := members[1..];
      FocusOfFirst(rest, cluster);
      assert members == [members[0]] + rest;
      if members[0] in cluster && members[0].focus.Some? {
      } else if NewestFocus(rest, cluster).Some? {
        var k :| 0 <= k < |rest| && rest[k] in cluster && rest[k].focus == NewestFocus(rest, cluster)
                 && forall i :: 0 <= i < k && rest[i] in cluster ==> rest[i].focus == None;
        assert members[k + 1] == rest[k];
        forall i | 0 <= i < k + 1 && members[i] in cluster ensures members[i].focus == None {
          assert i > 0 ==> members[i] == rest[i - 1];
        }
      }
    }
  }

  ghost predicate NotAfter(a: string, b: string) {
    a == b || Before(a, b)
  }

  // By camera, then filter, none as the empty name, then exposure, then temperature, none as 0.
  ghost predicate ByAll(a: Group, b: Group) {
    var f, g := if a.key.filter.Some? then a.key.filter.value else "", if b.key.filter.Some? then b.key.filter.value else "";
    var t, u := if a.temperature.Some? then a.temperature.value else 0.0, if b.temperature.Some? then b.temperature.value else 0.0;
    && NotAfter(a.key.setup.camera, b.key.setup.camera)
    && (a.key.setup.camera == b.key.setup.camera ==>
          && NotAfter(f, g)
          && (f == g ==> a.key.exposure <= b.key.exposure && (a.key.exposure == b.key.exposure ==> t <= u)))
  }

  lemma NotLessMeans(a: Group, b: Group)
    requires !Less(b, a)
    ensures ByAll(a, b)
  {
    BeforeTotal(a.key.setup.camera, b.key.setup.camera);
    BeforeTotal(Name(a.key.filter), Name(b.key.filter));
  }

  lemma OrderOfGroups(lights: seq<Light>, i: nat, j: nat)
    requires i < j < |Groups(lights)|
    ensures ByAll(Groups(lights)[i], Groups(lights)[j])
  {
    CountsConserved(lights);
    NotLessMeans(Groups(lights)[i], Groups(lights)[j]);
  }

  lemma {:induction false} GroupsOfAll(batches: seq<Batch>)
    ensures |GroupsOf(batches)| == |batches| && forall i :: 0 <= i < |batches| ==> GroupsOf(batches)[i] == GroupOf(batches[i])
  {
    if batches != [] {
      GroupsOfAll(batches[..|batches| - 1]);
    }
  }

  lemma BatchOf(batches: seq<Batch>, g: Group) returns (b: Batch)
    requires g in SortGroups(GroupsOf(batches))
    ensures b in batches && g == GroupOf(b)
  {
    assert g in multiset(GroupsOf(batches));
    GroupsOfAll(batches);
    var i :| 0 <= i < |batches| && GroupsOf(batches)[i] == g;
    b := batches[i];
  }

  lemma MembersOf(lights: seq<Light>, b: Batch)
    requires b in Batches(Shelve(lights))
    ensures b.members == Under(lights, Shelve(lights), b.key)
  {
    BatchesFrom(Shelve(lights));
    ShelveSorted(lights);
  }

  // A group counts its cluster's lights, has just their nights, and the focus of the newest that
  // has one, the lights given newest first.
  lemma GroupTells(lights: seq<Light>, g: Group) returns (b: Batch)
    requires g in Groups(lights)
    ensures b in Batches(Shelve(lights)) && g.key == b.key && b.members == Under(lights, Shelve(lights), g.key)
    ensures g.lights == CountOf(b.cluster) && forall n :: n in g.nights <==> exists l :: l in b.cluster && l.night == n
    ensures g.focus == None <==> forall l :: l in b.members && l in b.cluster ==> l.focus == None
    ensures g.focus.Some? ==>
              exists k :: 0 <= k < |b.members| && b.members[k] in b.cluster && b.members[k].focus == g.focus
                          && forall i :: 0 <= i < k && b.members[i] in b.cluster ==> b.members[i].focus == None
  {
    b := BatchOf(Batches(Shelve(lights)), g);
    MembersOf(lights, b);
    FocusOfFirst(b.members, b.cluster);
  }

  // -- the loops -----------------------------------------------------------------------------------------------

  // The first key the light fits, or its own.
  method ChooseKey(shelves: seq<Shelf>, light: Light) returns (key: Key)
    ensures key == FindKey(shelves, light)
  {
    for i := 0 to |shelves|
      invariant FindKey(shelves, light) == FindKey(shelves[i..], light)
    {
      assert shelves[i..][0] == shelves[i] && shelves[i..][1..] == shelves[i + 1..];
      if Fits(shelves[i].key, light) {
        return shelves[i].key;
      }
    }
    return Key(light.setup, light.filter, light.exposure);
  }

  method ByKey(lights: seq<Light>) returns (shelves: seq<Shelf>)
    ensures shelves == Shelve(lights)
  {
    shelves := [];
    for i := 0 to |lights|
      invariant shelves == Shelve(lights[..i])
    {
      var key := ChooseKey(shelves, lights[i]);
      assert lights[..i + 1][..i] == lights[..i];
      shelves := Put(shelves, key, lights[i]);
    }
    assert lights[..|lights|] == lights;
  }

  // Into the last cluster, or a new one.
  method PlaceLight(clusters: seq<seq<Light>>, light: Light) returns (r: seq<seq<Light>>)
    requires HasTemperature(light)
    ensures r == AddLight(clusters, light)
  {
    var n := |clusters| - 1;
    if n >= 0 && clusters[n] != [] && clusters[n][0].temperature.Some? {
      var first := clusters[n][0].temperature.value;
      if light.temperature.value - first <= 2.0 * DARK_TEMPERATURE {
        return clusters[..n] + [clusters[n] + [light]];
      }
    }
    return clusters + [[light]];
  }

  method ClusterLights(members: seq<Light>) returns (clusters: seq<seq<Light>>)
    ensures clusters == Clusters(members)
  {
    var unknown := Unknown(members);
    var known: KnownLights := SortLights(Known(members));
    clusters := if unknown == [] then [] else [unknown];
    ghost var initial := clusters;
    for i := 0 to |known|
      invariant clusters == AddLights(initial, known[..i])
    {
      assert known[i] in known;
      TakeStep(known, i);
      clusters := PlaceLight(clusters, known[i]);
    }
    TakeAll(known);
  }

  lemma {:induction false} GroupsOfConcat(a: seq<Batch>, b: seq<Batch>)
    ensures GroupsOf(a + b) == GroupsOf(a) + GroupsOf(b)
  {
    if b == [] {
      assert a + b == a;
    } else {
      assert (a + b)[..|a + b| - 1] == a + b[..|b| - 1];
      GroupsOfConcat(a, b[..|b| - 1]);
    }
  }

  lemma BatchStep(shelf: Shelf, clusters: seq<seq<Light>>, i: nat)
    requires i < |clusters|
    ensures GroupsOf(BatchesOf(shelf.key, shelf.members, clusters[..i + 1]))
         == GroupsOf(BatchesOf(shelf.key, shelf.members, clusters[..i])) + [GroupOf(Batch(shelf.key, shelf.members, clusters[i]))]
  {
    TakeStep(clusters, i);
    var before := BatchesOf(shelf.key, shelf.members, clusters[..i]);
    var batch := Batch(shelf.key, shelf.members, clusters[i]);
    assert BatchesOf(shelf.key, shelf.members, clusters[..i + 1]) == before + [batch];
    assert (before + [batch])[..|before|] == before;
  }

  method GroupsOfShelf(shelf: Shelf) returns (groups: seq<Group>)
    ensures groups == GroupsOf(BatchesOf(shelf.key, shelf.members, Clusters(shelf.members)))
  {
    var clusters := ClusterLights(shelf.members);
    groups := [];
    for i := 0 to |clusters|
      invariant groups == GroupsOf(BatchesOf(shelf.key, shelf.members, clusters[..i]))
    {
      BatchStep(shelf, clusters, i);
      groups := groups + [GroupOf(Batch(shelf.key, shelf.members, clusters[i]))];
    }
    TakeAll(clusters);
  }

  lemma ShelfStep(shelves: seq<Shelf>, i: nat)
    requires i < |shelves|
    ensures GroupsOf(Batches(shelves[..i + 1]))
         == GroupsOf(Batches(shelves[..i])) + GroupsOf(BatchesOf(shelves[i].key, shelves[i].members, Clusters(shelves[i].members)))
  {
    TakeStep(shelves, i);
    GroupsOfConcat(Batches(shelves[..i]), BatchesOf(shelves[i].key, shelves[i].members, Clusters(shelves[i].members)));
  }

  method GroupLights(lights: seq<Light>) returns (groups: seq<Group>)
    ensures groups == Groups(lights)
  {
    var shelves := ByKey(lights);
    groups := [];
    for i := 0 to |shelves|
      invariant groups == GroupsOf(Batches(shelves[..i]))
    {
      var more := GroupsOfShelf(shelves[i]);
      ShelfStep(shelves, i);
      groups := groups + more;
    }
    TakeAll(shelves);
    groups := SortGroups(groups);
  }
}
