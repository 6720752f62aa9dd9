/** Every light in one group, and no more groups than needed
    (server/src/nocs/calibration/library.py, _groups). */
module Library {
  import opened Common

  const DARK_TEMPERATURE := 2.0
  const EXPOSURE_TOLERANCE := 0.01

  datatype Setup = Setup(camera: string, width: Option<int>, height: Option<int>, binning: Option<int>,
                         gain: Option<real>, offset: Option<real>)

  datatype Light = Light(setup: Setup, filter: Option<string>, exposure: real, temperature: Option<real>,
                         night: int, count: int, rotation: Option<real>, focus: Option<int>)

  datatype Key = Key(setup: Setup, filter: Option<string>, exposure: real)

  datatype Group = Group(key: Key, temperature: Option<real>, lights: int, nights: set<int>, focus: Option<int>)

  predicate SameExposure(a: real, b: real) {
    Abs(a - b) <= EXPOSURE_TOLERANCE * MaxReal(a, b)
  }

  // The smaller is at least 99 % of the larger, so that a negative exposure is not even its own.
  lemma SameExposureIff(a: real, b: real)
    ensures SameExposure(a, b) <==> MinReal(a, b) >= 0.99 * MaxReal(a, b)
    ensures SameExposure(a, b) <==> SameExposure(b, a)
    ensures SameExposure(a, a) <==> a >= 0.0
    ensures SameExposure(a, b) ==> a >= 0.0 && b >= 0.0
  {
  }

  predicate Fits(key: Key, light: Light) {
    key.setup == light.setup && key.filter == light.filter && SameExposure(key.exposure, light.exposure)
  }

  // -- by setup, filter and exposure -----------------------------------------------------------------

  datatype Shelf = Shelf(key: Key, members: seq<Light>)

  function FindKey(shelves: seq<Shelf>, light: Light): Key {
    if shelves == [] then Key(light.setup, light.filter, light.exposure)
    else if Fits(shelves[0].key, light) then shelves[0].key
    else FindKey(shelves[1..], light)
  }

  // Behind the others under its key.
  function Put(shelves: seq<Shelf>, key: Key, light: Light): seq<Shelf> {
    if shelves == [] then [Shelf(key, [light])]
    else if shelves[0].key == key then [Shelf(key, shelves[0].members + [light])] + shelves[1..]
    else [shelves[0]] + Put(shelves[1..], key, light)
  }

  function Shelve(lights: seq<Light>): seq<Shelf> {
    if lights == [] then []
    else
      var before := Shelve(lights[..|lights| - 1]);
      var light := lights[|lights| - 1];
      Put(before, FindKey(before, light), light)
  }

  function AllMembers(shelves: seq<Shelf>): seq<Light> {
    if shelves == [] then [] else shelves[0].members + AllMembers(shelves[1..])
  }

  // Its own setup and filter, and an exposure that is the key's or within 1 % of it.
  predicate Belongs(light: Light, key: Key) {
    && light.setup == key.setup && light.filter == key.filter
    && (light.exposure == key.exposure || SameExposure(key.exposure, light.exposure))
  }

  ghost predicate ShelfOk(s: Shelf) {
    s.members != [] && forall l :: l in s.members ==> Belongs(l, s.key)
  }

  ghost predicate ShelvesOk(shelves: seq<Shelf>) {
    && (forall s :: s in shelves ==> ShelfOk(s))
    && forall i, j :: 0 <= i < j < |shelves| ==> shelves[i].key != shelves[j].key
  }

  lemma {:induction false} FindKeyBelongs(shelves: seq<Shelf>, light: Light)
    ensures Belongs(light, FindKey(shelves, light))
  {
    if shelves != [] && !Fits(shelves[0].key, light) {
      FindKeyBelongs(shelves[1..], light);
    }
  }

  lemma {:induction false} PutHere(shelves: seq<Shelf>, light: Light)
    requires shelves != [] && ShelvesOk(shelves) && Belongs(light, shelves[0].key)
    ensures var after := [Shelf(shelves[0].key, shelves[0].members + [light])] + shelves[1..];
            && ShelvesOk(after)
            && (forall s :: s in after ==> s.key == shelves[0].key || s in shelves)
            && multiset(AllMembers(after)) == multiset(AllMembers(shelves)) + multiset{light}
  {
    var first := Shelf(shelves[0].key, shelves[0].members + [light]);
    var after := [first] + shelves[1..];
    assert shelves[0] in shelves && ShelfOk(shelves[0]) && ShelfOk(first);
    TailOf(first, shelves[1..]);
    assert multiset(first.members) == multiset(shelves[0].members) + multiset{light};
    forall s | s in after ensures ShelfOk(s) {
      assert s == first || s in shelves;
    }
  }

  lemma {:induction false} PutOk(shelves: seq<Shelf>, key: Key, light: Light)
    requires ShelvesOk(shelves) && Belongs(light, key)
    ensures ShelvesOk(Put(shelves, key, light))
    ensures forall s :: s in Put(shelves, key, light) ==> s.key == key || s in shelves
    ensures multiset(AllMembers(Put(shelves, key, light))) == multiset(AllMembers(shelves)) + multiset{light}
  {
    if shelves == [] {
      assert [Shelf(key, [light])][1..] == [];
    } else {
      assert shelves == [shelves[0]] + shelves[1..];
      var after := Put(shelves, key, light);
      if shelves[0].key == key {
        PutHere(shelves, light);
      } else {
        PutOk(shelves[1..], key, light);
        assert after[1..] == Put(shelves[1..], key, light);
        assert forall s :: s in after[1..] ==> s.key != shelves[0].key;
        forall s | s in after ensures ShelfOk(s) {
          assert s == shelves[0] || s in after[1..];
        }
      }
    }
  }

  lemma {:induction false} ShelveOk(lights: seq<Light>)
    ensures ShelvesOk(Shelve(lights))
    ensures multiset(AllMembers(Shelve(lights))) == multiset(lights)
  {
    if lights != [] {
      var n := |lights| - 1;
      var before := Shelve(lights[..n]);
      ShelveOk(lights[..n]);
      FindKeyBelongs(before, lights[n]);
      PutOk(before, FindKey(before, lights[n]), lights[n]);
      TakeStep(lights, n);
      TakeAll(lights);
    }
  }

  // -- the first key that fits -------------------------------------------------------------------------

  function OwnKey(light: Light): Key {
    Key(light.setup, light.filter, light.exposure)
  }

  ghost predicate SomeFits(shelves: seq<Shelf>, light: Light) {
    exists i :: 0 <= i < |shelves| && Fits(shelves[i].key, light)
  }

  // Under the first key that fits, and under its own where none does.
  ghost predicate Chosen(shelves: seq<Shelf>, light: Light, key: Key) {
    if SomeFits(shelves, light)
    then exists k :: 0 <= k < |shelves| && shelves[k].key == key && Fits(key, light)
                     && forall i :: 0 <= i < k ==> !Fits(shelves[i].key, light)
    else key == OwnKey(light)
  }

  lemma {:induction false} FindKeyChosen(shelves: seq<Shelf>, light: Light)
    ensures Chosen(shelves, light, FindKey(shelves, light))
  {
    if shelves != [] {
      var rest := shelves[1..];
      if Fits(shelves[0].key, light) {
        assert SomeFits(shelves, light);
      } else {
        FindKeyChosen(rest, light);
        if SomeFits(rest, light) {
          var k :| 0 <= k < |rest| && rest[k].key == FindKey(rest, light) && Fits(rest[k].key, light)
                   && forall i :: 0 <= i < k ==> !Fits(rest[i].key, light);
          assert Fits(shelves[k + 1].key, light);
          forall i | 0 <= i < k + 1 ensures !Fits(shelves[i].key, light) {
            assert i > 0 ==> shelves[i] == rest[i - 1];
          }
        } else {
          forall i | 0 <= i < |shelves| ensures !Fits(shelves[i].key, light) {
            assert i > 0 ==> shelves[i] == rest[i - 1];
          }
        }
      }
    }
  }

  ghost predicate SameKeys(a: seq<Shelf>, b: seq<Shelf>) {
    |a| <= |b| && forall i :: 0 <= i < |a| ==> a[i].key == b[i].key
  }

  // More keys behind do not matter to a light that one of the first fits, or none ever does.
  lemma FindKeyKept(a: seq<Shelf>, b: seq<Shelf>, light: Light)
    requires SameKeys(a, b) && (SomeFits(a, light) || light.exposure < 0.0)
    ensures FindKey(a, light) == FindKey(b, light) && (SomeFits(b, light) || light.exposure < 0.0)
  {
    FindKeyChosen(a, light);
    FindKeyChosen(b, light);
    if SomeFits(a, light) {
      var i :| 0 <= i < |a| && Fits(a[i].key, light);
      assert Fits(b[i].key, light);
    }
  }

  // Which shelf a light is put on: one there is, or a new one behind the others.
  lemma {:induction false} PutAt(shelves: seq<Shelf>, key: Key, light: Light) returns (k: nat)
    ensures k <= |shelves| && forall i :: 0 <= i < k ==> shelves[i].key != key
    ensures k < |shelves| ==> shelves[k].key == key && Put(shelves, key, light) == shelves[k := Shelf(key, shelves[k].members + [light])]
    ensures k == |shelves| ==> Put(shelves, key, light) == shelves + [Shelf(key, [light])]
  {
    if shelves == [] || shelves[0].key == key {
      k := 0;
    } else {
      var m := PutAt(shelves[1..], key, light);
      k := m + 1;
      assert shelves == [shelves[0]] + shelves[1..];
      forall i | 0 <= i < k ensures shelves[i].key != key {
        assert i > 0 ==> shelves[i] == shelves[1..][i - 1];
      }
    }
  }

  // The lights whose key this is, in the order given.
  function Under(lights: seq<Light>, shelves: seq<Shelf>, key: Key): seq<Light> {
    if lights == [] then []
    else
      var light := lights[|lights| - 1];
      Under(lights[..|lights| - 1], shelves, key) + (if FindKey(shelves, light) == key then [light] else [])
  }

  ghost predicate HasShelf(shelves: seq<Shelf>, light: Light) {
    && (SomeFits(shelves, light) || light.exposure < 0.0)
    && exists i :: 0 <= i < |shelves| && shelves[i].key == FindKey(shelves, light)
  }

  lemma {:induction false} UnderKept(lights: seq<Light>, a: seq<Shelf>, b: seq<Shelf>, key: Key)
    requires SameKeys(a, b) && forall l :: l in lights ==> HasShelf(a, l)
    ensures Under(lights, a, key) == Under(lights, b, key)
  {
    if lights != [] {
      var light := lights[|lights| - 1];
      assert light in lights && HasShelf(a, light);
      UnderKept(lights[..|lights| - 1], a, b, key);
      FindKeyKept(a, b, light);
    }
  }

  lemma {:induction false} NoneUnder(lights: seq<Light>, shelves: seq<Shelf>, key: Key)
    requires forall l :: l in lights ==> HasShelf(shelves, l)
    requires forall i :: 0 <= i < |shelves| ==> shelves[i].key != key
    ensures Under(lights, shelves, key) == []
  {
    if lights != [] {
      var light := lights[|lights| - 1];
      assert light in lights && HasShelf(shelves, light);
      NoneUnder(lights[..|lights| - 1], shelves, key);
    }
  }

  // Each shelf has exactly the lights that go there, in their order.
  ghost predicate Filed(lights: seq<Light>, shelves: seq<Shelf>) {
    forall j :: 0 <= j < |shelves| ==> shelves[j].members == Under(lights, shelves, shelves[j].key)
  }

  // The first of which gave the key.
  ghost predicate FirstKeys(shelves: seq<Shelf>) {
    forall j :: 0 <= j < |shelves| ==> shelves[j].members != [] && shelves[j].key == OwnKey(shelves[j].members[0])
  }

  ghost predicate AllShelved(lights: seq<Light>, shelves: seq<Shelf>) {
    forall l :: l in lights ==> HasShelf(shelves, l)
  }

  ghost predicate WellShelved(lights: seq<Light>, shelves: seq<Shelf>) {
    Filed(lights, shelves) && FirstKeys(shelves) && AllShelved(lights, shelves)
  }

  lemma PutFinds(before: seq<Shelf>, light: Light, k: nat, after: seq<Shelf>)
    requires SameKeys(before, after) && k < |after| && after[k].key == FindKey(before, light)
    requires |after| == |before| || (|after| == |before| + 1 && k == |before|)
    requires forall i :: 0 <= i < k ==> after[i].key != after[k].key
    ensures FindKey(after, light) == FindKey(before, light) && HasShelf(after, light)
  {
    FindKeyChosen(before, light);
    FindKeyChosen(after, light);
    if SomeFits(before, light) || light.exposure < 0.0 {
      FindKeyKept(before, after, light);
    } else {
      assert after[k].key == OwnKey(light) && Fits(after[k].key, light);
    }
  }

  lemma ShelfKept(before: seq<Shelf>, after: seq<Shelf>, l: Light)
    requires SameKeys(before, after) && HasShelf(before, l)
    ensures HasShelf(after, l)
  {
    FindKeyKept(before, after, l);
    var i :| 0 <= i < |before| && before[i].key == FindKey(before, l);
    assert after[i].key == FindKey(after, l);
  }

  lemma PutOnShelf(lights: seq<Light>, light: Light, after: seq<Shelf>, k: nat, j: nat, held: seq<Light>)
    requires k < |after| && j < |after| && (after[j].key == after[k].key <==> j == k)
    requires after[k].key == FindKey(after, light) && held == Under(lights, after, after[j].key)
    ensures Under(lights + [light], after, after[j].key) == held + (if j == k then [light] else [])
  {
    assert (lights + [light])[..|lights|] == lights;
  }

  lemma HeldBefore(lights: seq<Light>, before: seq<Shelf>, after: seq<Shelf>, j: nat) returns (held: seq<Light>)
    requires WellShelved(lights, before) && SameKeys(before, after) && |after| <= |before| + 1 && j < |after|
    requires j == |before| ==> forall i :: 0 <= i < j ==> before[i].key != after[j].key
    ensures held == (if j < |before| then before[j].members else [])
    ensures held == Under(lights, after, after[j].key)
  {
    held := if j < |before| then before[j].members else [];
    UnderKept(lights, before, after, after[j].key);
    if j == |before| {
      NoneUnder(lights, before, after[j].key);
    }
  }

  lemma OwnKeyFirst(before: seq<Shelf>, light: Light, key: Key)
    requires Chosen(before, light, key) && forall i :: 0 <= i < |before| ==> before[i].key != key
    ensures key == OwnKey(light)
  {
  }

  lemma PutKeys(before: seq<Shelf>, key: Key, light: Light, k: nat)
    requires forall i, j :: 0 <= i < j < |before| ==> before[i].key != before[j].key
    requires k <= |before| && forall i :: 0 <= i < k ==> before[i].key != key
    ensures var after := before + [Shelf(key, [light])];
            SameKeys(before, after) && (k == |before| ==> forall i, j :: 0 <= i < j < |after| ==> after[i].key != after[j].key)
    ensures k < |before| && before[k].key == key ==>
              var after := before[k := Shelf(key, before[k].members + [light])];
              SameKeys(before, after) && forall i, j :: 0 <= i < j < |after| ==> after[i].key != after[j].key
  {
  }

  // One more light on shelf k, which is a new one where there were not as many.
  ghost predicate Shelved(before: seq<Shelf>, light: Light, k: nat, after: seq<Shelf>) {
    && k <= |before| && |after| == (if k < |before| then |before| else k + 1)
    && (forall j :: 0 <= j < |after| ==>
          after[j].members == (if j < |before| then before[j].members else []) + (if j == k then [light] else []))
    && (forall j :: 0 <= j < |before| ==> after[j].key == before[j].key)
    && (forall i, m :: 0 <= i < m < |after| ==> after[i].key != after[m].key)
  }

  lemma PutShelves(before: seq<Shelf>, key: Key, light: Light) returns (k: nat)
    requires forall i, j :: 0 <= i < j < |before| ==> before[i].key != before[j].key
    ensures Shelved(before, light, k, Put(before, key, light)) && Put(before, key, light)[k].key == key
    ensures k == |before| ==> forall i :: 0 <= i < |before| ==> before[i].key != key
  {
    k := PutAt(before, key, light);
    PutKeys(before, key, light, k);
  }

  lemma PutFiled(lights: seq<Light>, light: Light, before: seq<Shelf>, k: nat, after: seq<Shelf>)
    requires WellShelved(lights, before) && Shelved(before, light, k, after) && after[k].key == FindKey(after, light)
    ensures Filed(lights + [light], after)
  {
    forall j | 0 <= j < |after| ensures after[j].members == Under(lights + [light], after, after[j].key) {
      var held := HeldBefore(lights, before, after, j);
      PutOnShelf(lights, light, after, k, j, held);
    }
  }

  lemma PutAllShelved(lights: seq<Light>, light: Light, before: seq<Shelf>, after: seq<Shelf>)
    requires AllShelved(lights, before) && SameKeys(before, after) && HasShelf(after, light)
    ensures AllShelved(lights + [light], after)
  {
    forall l | l in lights ensures HasShelf(after, l) {
      ShelfKept(before, after, l);
    }
  }

  lemma PutFirstKeys(before: seq<Shelf>, light: Light, k: nat, after: seq<Shelf>)
    requires FirstKeys(before) && Shelved(before, light, k, after) && (k == |before| ==> after[k].key == OwnKey(light))
    ensures FirstKeys(after)
  {
    forall j | 0 <= j < |after| ensures after[j].members != [] && after[j].key == OwnKey(after[j].members[0]) {
      assert j < |before| ==> after[j].members[0] == before[j].members[0];
    }
  }

  lemma PutSorted(lights: seq<Light>, light: Light, before: seq<Shelf>, key: Key)
    requires WellShelved(lights, before) && key == FindKey(before, light)
    requires forall i, j :: 0 <= i < j < |before| ==> before[i].key != before[j].key
    ensures WellShelved(lights + [light], Put(before, key, light))
  {
    var after := Put(before, key, light);
    var k := PutShelves(before, key, light);
    PutFinds(before, light, k, after);
    PutFiled(lights, light, before, k, after);
    PutAllShelved(lights, light, before, after);
    FindKeyChosen(before, light);
    if k == |before| {
      OwnKeyFirst(before, light, key);
    }
    PutFirstKeys(before, light, k, after);
  }

  lemma {:induction false} ShelveSorted(lights: seq<Light>)
    ensures WellShelved(lights, Shelve(lights))
  {
    if lights != [] {
      var n := |lights| - 1;
      ShelveSorted(lights[..n]);
      ShelveOk(lights[..n]);
      PutSorted(lights[..n], lights[n], Shelve(lights[..n]), FindKey(Shelve(lights[..n]), lights[n]));
      TakeStep(lights, n);
      TakeAll(lights);
    }
  }

  lemma {:induction false} UnderIn(lights: seq<Light>, shelves: seq<Shelf>, key: Key)
    ensures forall l :: l in Under(lights, shelves, key) <==> l in lights && FindKey(shelves, l) == key
  {
    if lights != [] {
      UnderIn(lights[..|lights| - 1], shelves, key);
      assert lights == lights[..|lights| - 1] + [lights[|lights| - 1]];
    }
  }

  lemma NoneBefore(shelves: seq<Shelf>, l: Light, i: nat, j: nat)
    requires i < j < |shelves| && Chosen(shelves, l, shelves[j].key)
    requires forall k, m :: 0 <= k < m < |shelves| ==> shelves[k].key != shelves[m].key
    ensures !Fits(shelves[i].key, l)
  {
    assert SomeFits(shelves, l) || !Fits(shelves[i].key, l);
  }

  // Each light is filed under the first key it fits; a key is its first light's own, which fits
  // none of the keys before.
  lemma FirstFit(lights: seq<Light>, i: nat, j: nat)
    requires i < j < |Shelve(lights)|
    ensures var shelves := Shelve(lights);
            && (forall l :: l in shelves[j].members ==> !Fits(shelves[i].key, l))
            && shelves[j].members != [] && shelves[j].key == OwnKey(shelves[j].members[0])
            && !Fits(shelves[i].key, shelves[j].members[0])
  {
    var shelves := Shelve(lights);
    ShelveSorted(lights);
    ShelveOk(lights);
    UnderIn(lights, shelves, shelves[j].key);
    forall l | l in shelves[j].members ensures !Fits(shelves[i].key, l) {
      FindKeyChosen(shelves, l);
      NoneBefore(shelves, l, i, j);
    }
  }

  // -- by temperature ------------------------------------------------------------------------------------

  predicate HasTemperature(l: Light) {
    l.temperature.Some?
  }

  function Known(members: seq<Light>): (r: seq<Light>)
    ensures forall l :: l in r ==> HasTemperature(l)
  {
    if members == [] then []
    else (if HasTemperature(members[0]) then [members[0]] else []) + Known(members[1..])
  }

  function Unknown(members: seq<Light>): (r: seq<Light>)
    ensures forall l :: l in r ==> !HasTemperature(l)
  {
    if members == [] then []
    else (if HasTemperature(members[0]) then [] else [members[0]]) + Unknown(members[1..])
  }

  lemma {:induction false} KnownAndUnknown(members: seq<Light>)
    ensures multiset(Known(members)) + multiset(Unknown(members)) == multiset(members)
  {
    if members != [] {
      KnownAndUnknown(members[1..]);
      assert members == [members[0]] + members[1..];
    }
  }

  type KnownLights = s: seq<Light> | forall l :: l in s ==> HasTemperature(l)

  function InsertLight(s: KnownLights, light: Light): (r: KnownLights)
    requires HasTemperature(light)
    ensures multiset(r) == multiset(s) + multiset{light}
  {
    if s == [] then [light]
    else
      assert s[0] in s && s == [s[0]] + s[1..];
      if light.temperature.value < s[0].temperature.value then [light] + s
      else [s[0]] + InsertLight(s[1..], light)
  }

  // Sorted by temperature; equal ones keep their order.
  function SortLights(s: KnownLights): (r: KnownLights)
    ensures multiset(r) == multiset(s)
  {
    if s == [] then []
    else
      assert s == s[..|s| - 1] + [s[|s| - 1]];
      assert s[|s| - 1] in s;
      InsertLight(SortLights(s[..|s| - 1]), s[|s| - 1])
  }

  ghost predicate Colder(a: Light, b: Light) {
    HasTemperature(a) && HasTemperature(b) && a.temperature.value <= b.temperature.value
  }

  ghost predicate Rising(s: seq<Light>) {
    forall i, j :: 0 <= i < j < |s| ==> Colder(s[i], s[j])
  }

  lemma {:induction false} InsertLightRises(s: KnownLights, light: Light)
    requires HasTemperature(light) && Rising(s)
    ensures Rising(InsertLight(s, light))
  {
    if s != [] {
      assert s[0] in s;
      if light.temperature.value >= s[0].temperature.value {
        InsertLightRises(s[1..], light);
        var rest := InsertLight(s[1..], light);
        forall j | 0 <= j < |rest| ensures Colder(s[0], rest[j]) {
          assert rest[j] in multiset(rest);
          assert rest[j] == light || rest[j] in multiset(s[1..]);
          if rest[j] != light {
            var k :| 0 <= k < |s[1..]| && s[1..][k] == rest[j];
            assert s[k + 1] == rest[j];
          }
        }
      } else {
        forall j | 0 <= j < |s| ensures Colder(light, s[j]) {
          assert s[j] in s;
          assert j > 0 ==> Colder(s[0], s[j]);
        }
      }
    }
  }

  lemma {:induction false} SortLightsRises(s: KnownLights)
    ensures Rising(SortLights(s))
  {
    if s != [] {
      var n := |s| - 1;
      assert s[n] in s;
      SortLightsRises(s[..n]);
      InsertLightRises(SortLights(s[..n]), s[n]);
    }
  }

  // Into the last cluster while its first is at most two tolerances colder, else a new one.
  function AddLight(clusters: seq<seq<Light>>, light: Light): seq<seq<Light>>
    requires HasTemperature(light)
  {
    var n := |clusters| - 1;
    if && n >= 0 && clusters[n] != [] && HasTemperature(clusters[n][0])
       && light.temperature.value - clusters[n][0].temperature.value <= 2.0 * DARK_TEMPERATURE
    then clusters[..n] + [clusters[n] + [light]]
    else clusters + [[light]]
  }

  function AddLights(clusters: seq<seq<Light>>, known: KnownLights): seq<seq<Light>> {
    if known == [] then clusters
    else
      assert known[|known| - 1] in known;
      AddLight(AddLights(clusters, known[..|known| - 1]), known[|known| - 1])
  }

  function Clusters(members: seq<Light>): seq<seq<Light>> {
    var unknown := Unknown(members);
    AddLights(if unknown == [] then [] else [unknown], SortLights(Known(members)))
  }

  // The clusters of known temperatures.
  function KnownClusters(members: seq<Light>): seq<seq<Light>> {
    AddLights([], SortLights(Known(members)))
  }

  function Flat(clusters: seq<seq<Light>>): seq<Light> {
    if clusters == [] then [] else Flat(clusters[..|clusters| - 1]) + clusters[|clusters| - 1]
  }

  // From its first light's temperature to 4 degrees above.
  ghost predicate Tight(c: seq<Light>) {
    && c != [] && HasTemperature(c[0]) && (forall l :: l in c ==> HasTemperature(l))
    && forall l :: l in c ==> 0.0 <= l.temperature.value - c[0].temperature.value <= 4.0
  }

  // Each starts more than 4 degrees above where the one before starts.
  ghost predicate Apart(clusters: seq<seq<Light>>) {
    && (forall i :: 0 <= i < |clusters| ==> Tight(clusters[i]))
    && forall i, j :: 0 <= i < j < |clusters| ==> clusters[j][0].temperature.value - clusters[i][0].temperature.value > 4.0
  }

  lemma AddLightBehind(unknown: seq<Light>, c: seq<seq<Light>>, light: Light)
    requires HasTemperature(light)
    requires unknown != [] && !HasTemperature(unknown[0])
    ensures AddLight([unknown] + c, light) == [unknown] + AddLight(c, light)
  {
    var all := [unknown] + c;
    if c == [] {
      assert all == [unknown];
      assert AddLight(all, light) == [unknown] + [[light]];
    } else {
      var n := |c| - 1;
      assert all[n + 1] == c[n] && all[..n + 1] == [unknown] + c[..n];
      assert [unknown] + (c + [[light]]) == all + [[light]];
    }
  }

  // The unknown ones stay as they are, in front.
  lemma {:induction false} UnknownFirst(unknown: seq<Light>, known: KnownLights)
    requires unknown != [] && !HasTemperature(unknown[0])
    ensures AddLights([unknown], known) == [unknown] + AddLights([], known)
  {
    if known == [] {
      assert [unknown] + [] == [unknown];
    } else {
      var n := |known| - 1;
      assert known[n] in known;
      UnknownFirst(unknown, known[..n]);
      AddLightBehind(unknown, AddLights([], known[..n]), known[n]);
    }
  }

  lemma {:induction false} GreedyApart(known: KnownLights)
    requires Rising(known)
    ensures Apart(AddLights([], known))
    ensures multiset(Flat(AddLights([], known))) == multiset(known)
    ensures known != [] ==> AddLights([], known) != []
  {
    if known != [] {
      var n := |known| - 1;
      var light := known[n];
      assert light in known && known == known[..n] + [light];
      GreedyApart(known[..n]);
      var before := AddLights([], known[..n]);
      if before != [] {
        var first := before[|before| - 1][0];
        FlatHas(before, |before| - 1, first);
        assert first in multiset(known[..n]);
        var k :| 0 <= k < n && known[k] == first;
        assert Colder(first, light);
      }
      AddLightApart(before, light);
    }
  }

  lemma {:induction false} FlatHas(clusters: seq<seq<Light>>, i: nat, l: Light)
    requires i < |clusters| && l in clusters[i]
    ensures l in Flat(clusters) && l in multiset(Flat(clusters))
  {
    if i < |clusters| - 1 {
      FlatHas(clusters[..|clusters| - 1], i, l);
    }
  }

  lemma JoinsLast(before: seq<seq<Light>>, light: Light, after: seq<seq<Light>>)
    requires before != [] && Apart(before) && HasTemperature(light)
    requires var last := before[|before| - 1]; Tight(last) && 0.0 <= light.temperature.value - last[0].temperature.value <= 4.0
    requires var n := |before| - 1; after == before[..n] + [before[n] + [light]]
    ensures Apart(after)
  {
    var n := |before| - 1;
    var last := before[n] + [light];
    assert after[n] == last && last[0] == before[n][0];
    assert Tight(last);
    forall i | 0 <= i < |after| ensures Tight(after[i]) && Tight(before[i]) && after[i][0] == before[i][0] {
      assert i < n ==> after[i] == before[i];
    }
  }

  lemma JoinsLastFlat(before: seq<seq<Light>>, light: Light, after: seq<seq<Light>>)
    requires before != []
    requires var n := |before| - 1; after == before[..n] + [before[n] + [light]]
    ensures multiset(Flat(after)) == multiset(Flat(before)) + multiset{light}
  {
    var n := |before| - 1;
    assert after[..n] == before[..n] && after[n] == before[n] + [light];
    assert Flat(after) == Flat(before) + [light];
  }

  lemma AboveAll(before: seq<seq<Light>>, light: Light, i: nat)
    requires Apart(before) && HasTemperature(light) && i < |before|
    requires var last := before[|before| - 1]; Tight(last) && light.temperature.value - last[0].temperature.value > 4.0
    ensures Tight(before[i]) && light.temperature.value - before[i][0].temperature.value > 4.0
  {
    var n := |before| - 1;
    assert i < n ==> before[n][0].temperature.value - before[i][0].temperature.value > 4.0;
  }

  lemma StartsNew(before: seq<seq<Light>>, light: Light, after: seq<seq<Light>>)
    requires Apart(before) && HasTemperature(light) && after == before + [[light]]
    requires before != [] ==>
               var last := before[|before| - 1]; Tight(last) && light.temperature.value - last[0].temperature.value > 4.0
    ensures Apart(after)
  {
    assert Tight([light]);
    forall i | 0 <= i < |before| ensures Tight(after[i]) && after[i] == before[i] && light.temperature.value - after[i][0].temperature.value > 4.0 {
      AboveAll(before, light, i);
    }
  }

  lemma StartsNewFlat(before: seq<seq<Light>>, light: Light, after: seq<seq<Light>>)
    requires after == before + [[light]]
    ensures multiset(Flat(after)) == multiset(Flat(before)) + multiset{light}
  {
    assert after[..|before|] == before && after[|before|] == [light];
  }

  lemma AddLightApart(before: seq<seq<Light>>, light: Light)
    requires Apart(before) && HasTemperature(light)
    requires before != [] ==> before[|before| - 1] != [] && Colder(before[|before| - 1][0], light)
    ensures Apart(AddLight(before, light))
    ensures multiset(Flat(AddLight(before, light))) == multiset(Flat(before)) + multiset{light}
  {
    if before != [] && light.temperature.value - before[|before| - 1][0].temperature.value <= 4.0 {
      JoinsLast(before, light, AddLight(before, light));
      JoinsLastFlat(before, light, AddLight(before, light));
    } else {
      StartsNew(before, light, AddLight(before, light));
      StartsNewFlat(before, light, AddLight(before, light));
    }
  }

  lemma ClustersInParts(members: seq<Light>)
    ensures Clusters(members) == (if Unknown(members) == [] then [] else [Unknown(members)]) + KnownClusters(members)
  {
    var unknown := Unknown(members);
    if unknown == [] {
      assert [] + KnownClusters(members) == KnownClusters(members);
    } else {
      assert unknown[0] in unknown;
      UnknownFirst(unknown, SortLights(Known(members)));
    }
  }

  // A key's lights, all of them and no others, one cluster without temperatures and the rest
  // within 4 degrees.
  lemma ClustersExact(members: seq<Light>)
    ensures multiset(Flat(Clusters(members))) == multiset(members)
    ensures Apart(KnownClusters(members))
    ensures multiset(Flat(KnownClusters(members))) == multiset(Known(members))
    ensures Clusters(members) == (if Unknown(members) == [] then [] else [Unknown(members)]) + KnownClusters(members)
  {
    SortLightsRises(Known(members));
    GreedyApart(SortLights(Known(members)));
    ClustersInParts(members);
    KnownAndUnknown(members);
    FlatWithUnknown(Unknown(members), KnownClusters(members));
  }

  lemma FlatWithUnknown(unknown: seq<Light>, clusters: seq<seq<Light>>)
    ensures multiset(Flat((if unknown == [] then [] else [unknown]) + clusters)) == multiset(unknown) + multiset(Flat(clusters))
  {
    FlatPrepend(unknown, clusters);
    assert [] + clusters == clusters;
  }

  lemma {:induction false} FlatPrepend(c: seq<Light>, clusters: seq<seq<Light>>)
    ensures Flat([c] + clusters) == c + Flat(clusters)
  {
    var all := [c] + clusters;
    if clusters == [] {
      assert all == [c] && all[..0] == [];
    } else {
      assert all[..|clusters|] == [c] + clusters[..|clusters| - 1];
      FlatPrepend(c, clusters[..|clusters| - 1]);
    }
  }

  // -- as few as there can be ---------------------------------------------------------------------------------

  // Any way at all to divide the lights so that none of a part differ by more than 4 degrees.
  ghost predicate Divides(parts: seq<seq<Light>>, members: seq<Light>) {
    && (forall l :: l in members && HasTemperature(l) ==> exists i :: 0 <= i < |parts| && l in parts[i])
    && forall i, a, b :: 0 <= i < |parts| && a in parts[i] && b in parts[i] && HasTemperature(a) && HasTemperature(b) ==>
         a.temperature.value - b.temperature.value <= 4.0
  }

  function Below(n: nat): (r: set<int>)
    ensures |r| == n && forall i :: i in r <==> 0 <= i < n
  {
    if n == 0 then {} else Below(n - 1) + {n - 1}
  }

  lemma {:induction false} Pigeonhole(at: seq<int>, n: nat)
    requires forall i :: 0 <= i < |at| ==> 0 <= at[i] < n
    requires forall i, j :: 0 <= i < j < |at| ==> at[i] != at[j]
    ensures |at| <= n
  {
    DistinctSize(at);
    SubsetSize(set i | 0 <= i < |at| :: at[i], Below(n));
  }

  lemma {:induction false} DistinctSize(at: seq<int>)
    requires forall i, j :: 0 <= i < j < |at| ==> at[i] != at[j]
    ensures |(set i | 0 <= i < |at| :: at[i])| == |at|
  {
    if at != [] {
      var n := |at| - 1;
      DistinctSize(at[..n]);
      var before := set i | 0 <= i < n :: at[..n][i];
      assert (set i | 0 <= i < |at| :: at[i]) == before + {at[n]};
    }
  }

  lemma SubsetSize(a: set<int>, b: set<int>)
    requires a <= b
    ensures |a| <= |b|
  {
    assert b == a + (b - a) && a * (b - a) == {};
  }

  ghost predicate InPart(parts: seq<seq<Light>>, l: Light, i: int) {
    0 <= i < |parts| && l in parts[i]
  }

  ghost predicate HasPart(parts: seq<seq<Light>>, c: seq<Light>) {
    c != [] && exists k :: InPart(parts, c[0], k)
  }

  // One part for the first light of each cluster.
  lemma {:induction false} PartsOf(parts: seq<seq<Light>>, clusters: seq<seq<Light>>) returns (at: seq<int>)
    requires forall i :: 0 <= i < |clusters| ==> HasPart(parts, clusters[i])
    ensures |at| == |clusters| && forall i :: 0 <= i < |at| ==> HasPart(parts, clusters[i]) && InPart(parts, clusters[i][0], at[i])
  {
    if clusters == [] {
      at := [];
    } else {
      var n := |clusters| - 1;
      at := PartsOf(parts, clusters[..n]);
      var k :| InPart(parts, clusters[n][0], k);
      at := at + [k];
    }
  }

  // However the known temperatures of a key are divided into parts of at most 4 degrees, there
  // are at least as many parts as clusters.
  lemma FewestClusters(members: seq<Light>, parts: seq<seq<Light>>)
    requires Divides(parts, members)
    ensures |KnownClusters(members)| <= |parts|
  {
    var clusters: seq<seq<Light>> := KnownClusters(members);
    ClustersExact(members);
    forall i | 0 <= i < |clusters| ensures HasPart(parts, clusters[i]) {
      FirstIsIn(members, parts, clusters, i);
    }
    var at := PartsOf(parts, clusters);
    forall i, j | 0 <= i < j < |at| ensures at[i] != at[j] {
      assert Tight(clusters[i]) && Tight(clusters[j]);
      assert InPart(parts, clusters[i][0], at[i]) && InPart(parts, clusters[j][0], at[j]);
      assert clusters[j][0].temperature.value - clusters[i][0].temperature.value > 4.0;
    }
    Pigeonhole(at, |parts|);
  }

  lemma FirstIsIn(members: seq<Light>, parts: seq<seq<Light>>, clusters: seq<seq<Light>>, i: nat)
    requires Divides(parts, members) && i < |clusters| && Tight(clusters[i])
    requires multiset(Flat(clusters)) == multiset(Known(members))
    ensures exists k :: InPart(parts, clusters[i][0], k)
  {
    var first := clusters[i][0];
    FlatHas(clusters, i, first);
    KnownAndUnknown(members);
    assert first in multiset(Known(members)) && first in multiset(members);
    var k :| 0 <= k < |parts| && first in parts[k];
    assert InPart(parts, first, k);
  }
}
