/** The needs of all groups together (server/src/nocs/calibration/library.py, _needs). */
module Needs {
  import opened Common
  import opened Library
  import opened Groups
  import opened Matching

  // Which key each group is counted under, how many frames are asked for there, and when that
  // is what the group misses.

  datatype Wanted = Wanted(darks: int, bias: int, flats: int)

  datatype Kind = Dark | Bias | Flat

  datatype Need = Need(kind: Kind, setup: Setup, count: int, exposure: Option<real>, temperature: Option<real>, filter: Option<string>)

  datatype DarkKey = DarkKey(setup: Setup, exposure: real, temperature: Option<real>)

  datatype BiasKey = BiasKey(setup: Setup, temperature: Option<real>)

  datatype FlatKey = FlatKey(setup: Setup, filter: Option<string>)

  // -- a dict that merges what is near ---------------------------------------------------------------

  function Choose<K>(found: seq<(K, int)>, key: K, near: (K, K) -> bool): K {
    if found == [] then key else if near(found[0].0, key) then found[0].0 else Choose(found[1..], key, near)
  }

  // Under its key a count only gets smaller.
  function PutMin<K(==)>(found: seq<(K, int)>, key: K, missing: int): seq<(K, int)> {
    if found == [] then [(key, missing)]
    else if found[0].0 == key then [(key, Min(found[0].1, missing))] + found[1..]
    else [found[0]] + PutMin(found[1..], key, missing)
  }

  function Merge<K(==)>(items: seq<(K, int)>, near: (K, K) -> bool): seq<(K, int)> {
    if items == [] then []
    else
      var before := Merge(items[..|items| - 1], near);
      var item := items[|items| - 1];
      PutMin(before, Choose(before, item.0, near), item.1)
  }

  ghost predicate DistinctKeys<K(!new)>(found: seq<(K, int)>) {
    forall i, j :: 0 <= i < j < |found| ==> found[i].0 != found[j].0
  }

  // The key an item goes to: the first one near it that there is by then, else its own.
  function Into<K(==)>(items: seq<(K, int)>, near: (K, K) -> bool, i: nat): K
    requires i < |items|
  {
    Choose(Merge(items[..i], near), items[i].0, near)
  }

  ghost predicate Goes<K(!new)>(found: seq<(K, int)>, items: seq<(K, int)>, near: (K, K) -> bool, at: seq<int>) {
    && |at| == |items|
    && forall i :: 0 <= i < |at| ==> 0 <= at[i] < |found| && found[at[i]].0 == Into(items, near, i)
  }

  // `at` says where each item went: to a key that is its own or near it.
  ghost predicate Accounts<K(!new)>(found: seq<(K, int)>, items: seq<(K, int)>, near: (K, K) -> bool, at: seq<int>) {
    && |at| == |items|
    && (forall i :: 0 <= i < |at| ==> 0 <= at[i] < |found|)
    && (forall i :: 0 <= i < |at| ==> found[at[i]].0 == items[i].0 || near(found[at[i]].0, items[i].0))
    && (forall i :: 0 <= i < |at| ==> found[at[i]].1 <= items[i].1)
    && forall k :: 0 <= k < |found| ==> Missed(found[k].1, items, at, k)
  }

  // Some item that went to `k` misses as many.
  ghost predicate Missed<K>(count: int, items: seq<(K, int)>, at: seq<int>, k: int) {
    exists i :: 0 <= i < |at| && i < |items| && at[i] == k && items[i].1 == count
  }

  lemma {:induction false} ChooseIsNear<K(!new)>(found: seq<(K, int)>, key: K, near: (K, K) -> bool)
    ensures Choose(found, key, near) == key || near(Choose(found, key, near), key)
  {
    if found != [] && !near(found[0].0, key) {
      ChooseIsNear(found[1..], key, near);
    }
  }

  lemma {:induction false} PutMinAt<K(!new)>(found: seq<(K, int)>, key: K, missing: int) returns (k: nat)
    requires DistinctKeys(found)
    ensures var after := PutMin(found, key, missing);
            && DistinctKeys(after) && k < |after| && k <= |found| && |after| == Max(|found|, k + 1)
            && after[k] == (key, if k < |found| then Min(found[k].1, missing) else missing)
            && (k < |found| ==> found[k].0 == key)
            && (k == |found| ==> forall i :: 0 <= i < |found| ==> found[i].0 != key)
            && forall i :: 0 <= i < |found| && i != k ==> after[i] == found[i]
  {
    if found == [] || found[0].0 == key {
      k := 0;
    } else {
      var rest := PutMinAt(found[1..], key, missing);
      k := rest + 1;
      var after := PutMin(found, key, missing);
      assert after[1..] == PutMin(found[1..], key, missing);
      forall i | 0 <= i < |found| && i != k ensures after[i] == found[i] {
        if i > 0 { assert after[1..][i - 1] == found[1..][i - 1]; }
      }
      forall i, j | 0 <= i < j < |after| ensures after[i].0 != after[j].0 {
        if i > 0 {
          assert after[1..][i - 1].0 != after[1..][j - 1].0;
        } else if j != k {
          assert after[j] == found[j];
        }
      }
      if k == |found| {
        forall i | 0 <= i < |found| ensures found[i].0 != key {
          if i > 0 { assert found[1..][i - 1].0 != key; }
        }
      }
    }
  }

  lemma PutGoes<K(!new)>(before: seq<(K, int)>, items: seq<(K, int)>, near: (K, K) -> bool, was: seq<int>, k: nat, after: seq<(K, int)>)
    requires items != [] && Goes(before, items[..|items| - 1], near, was)
    requires k < |after| && k <= |before| && |after| == Max(|before|, k + 1)
    requires after[k].0 == Into(items, near, |items| - 1) && (k < |before| ==> before[k].0 == after[k].0)
    requires forall i :: 0 <= i < |before| && i != k ==> after[i] == before[i]
    ensures Goes(after, items, near, was + [k])
  {
    var n := |items| - 1;
    forall i | 0 <= i < n ensures after[was[i]].0 == Into(items, near, i) {
      assert items[..n][..i] == items[..i];
      assert Into(items[..n], near, i) == Into(items, near, i);
    }
  }

  lemma PutAccounts<K(!new)>(before: seq<(K, int)>, items: seq<(K, int)>, near: (K, K) -> bool, was: seq<int>, k: nat, after: seq<(K, int)>)
    requires items != [] && Accounts(before, items[..|items| - 1], near, was)
    requires k < |after| && k <= |before| && |after| == Max(|before|, k + 1)
    requires var item := items[|items| - 1];
             && (after[k].0 == item.0 || near(after[k].0, item.0))
             && after[k].1 == (if k < |before| then Min(before[k].1, item.1) else item.1)
             && (k < |before| ==> before[k].0 == after[k].0)
    requires forall i :: 0 <= i < |before| && i != k ==> after[i] == before[i]
    ensures Accounts(after, items, near, was + [k])
  {
    var n := |items| - 1;
    var at := was + [k];
    forall i | 0 <= i < |at|
      ensures 0 <= at[i] < |after| && (after[at[i]].0 == items[i].0 || near(after[at[i]].0, items[i].0)) && after[at[i]].1 <= items[i].1
    {
      if i < n {
        assert items[..n][i] == items[i] && before[was[i]].1 <= items[i].1;
      }
    }
    forall m | 0 <= m < |after| ensures Missed(after[m].1, items, at, m) {
      if m == k && after[k].1 == items[n].1 {
        assert at[n] == k;
      } else {
        assert m < |before| && after[m].1 == before[m].1;
        assert Missed(before[m].1, items[..n], was, m);
        var i :| 0 <= i < |was| && was[i] == m && items[..n][i].1 == before[m].1;
        assert at[i] == m && items[i] == items[..n][i];
      }
    }
  }

  ghost predicate Merged<K(!new)>(found: seq<(K, int)>, items: seq<(K, int)>, near: (K, K) -> bool, at: seq<int>) {
    DistinctKeys(found) && Accounts(found, items, near, at) && Goes(found, items, near, at)
  }

  lemma MergeStep<K(!new)>(items: seq<(K, int)>, near: (K, K) -> bool, before: seq<(K, int)>, was: seq<int>) returns (at: seq<int>)
    requires items != [] && before == Merge(items[..|items| - 1], near) && Merged(before, items[..|items| - 1], near, was)
    ensures var item := items[|items| - 1];
            Merged(PutMin(before, Choose(before, item.0, near), item.1), items, near, at)
  {
    var item := items[|items| - 1];
    var key := Choose(before, item.0, near);
    var after := PutMin(before, key, item.1);
    ChooseIsNear(before, item.0, near);
    var k := PutMinAt(before, key, item.1);
    at := was + [k];
    assert after[k].0 == key == Into(items, near, |items| - 1);
    PutAccounts(before, items, near, was, k, after);
    PutGoes(before, items, near, was, k, after);
  }

  // Every item is accounted for under its own key or one near it, with the least any of the
  // items there misses.
  lemma {:induction false} MergeAccounts<K(!new)>(items: seq<(K, int)>, near: (K, K) -> bool) returns (at: seq<int>)
    ensures Merged(Merge(items, near), items, near, at)
  {
    if items == [] {
      at := [];
    } else {
      var n := |items| - 1;
      var before := Merge(items[..n], near);
      var was := MergeAccounts(items[..n], near);
      at := MergeStep(items, near, before, was);
    }
  }

  // The first key near the item's, and its own where there is none.
  lemma {:induction false} ChooseFirst<K(!new)>(found: seq<(K, int)>, key: K, near: (K, K) -> bool)
    ensures (forall i :: 0 <= i < |found| ==> !near(found[i].0, key)) ==> Choose(found, key, near) == key
    ensures (exists i :: 0 <= i < |found| && near(found[i].0, key)) ==>
              exists k :: 0 <= k < |found| && found[k].0 == Choose(found, key, near) && near(found[k].0, key)
                          && forall i :: 0 <= i < k ==> !near(found[i].0, key)
  {
    if found != [] && !near(found[0].0, key) {
      var rest := found[1..];
      ChooseFirst(rest, key, near);
      if i :| 0 <= i < |found| && near(found[i].0, key) {
        assert rest[i - 1] == found[i];
        var k :| 0 <= k < |rest| && rest[k].0 == Choose(rest, key, near) && near(rest[k].0, key)
                 && forall i :: 0 <= i < k ==> !near(rest[i].0, key);
        assert found[k + 1] == rest[k];
        forall m | 0 <= m < k + 1 ensures !near(found[m].0, key) {
          assert m > 0 ==> found[m] == rest[m - 1];
        }
      } else {
        forall i | 0 <= i < |rest| ensures !near(rest[i].0, key) {
          assert rest[i] == found[i + 1];
        }
      }
    }
  }

  // -- the needs -----------------------------------------------------------------------------------------

  predicate NearDark(a: DarkKey, b: DarkKey) {
    a.setup == b.setup && SameExposure(a.exposure, b.exposure) && Near(a.temperature, b.temperature, DARK_TEMPERATURE)
  }

  predicate NearBias(a: BiasKey, b: BiasKey) {
    a.setup == b.setup && Near(a.temperature, b.temperature, BIAS_TEMPERATURE)
  }

  predicate SameFlat(a: FlatKey, b: FlatKey) {
    a == b
  }

  function Missing(wanted: int, frames: seq<Row>): int {
    Max(0, wanted - |frames|)
  }

  function DarkItem(m: Matched, wanted: Wanted): (DarkKey, int) {
    (DarkKey(m.group.key.setup, m.group.key.exposure, m.group.temperature), Missing(wanted.darks, m.darks))
  }

  function FlatItem(m: Matched, wanted: Wanted): (FlatKey, int) {
    (FlatKey(m.group.key.setup, m.group.key.filter), Missing(wanted.flats, m.flats))
  }

  // Flats to be taken, or taken without bias, need bias at the lights' setup.
  function BiasItem(m: Matched, wanted: Wanted): seq<(BiasKey, int)> {
    if Missing(wanted.flats, m.flats) != 0 || m.flatCalibration == []
    then [(BiasKey(m.group.key.setup, m.group.temperature), Missing(wanted.bias, m.bias))]
    else []
  }

  function DarkItems(groups: seq<Matched>, wanted: Wanted): seq<(DarkKey, int)> {
    seq(|groups|, i requires 0 <= i < |groups| => DarkItem(groups[i], wanted))
  }

  function FlatItems(groups: seq<Matched>, wanted: Wanted): seq<(FlatKey, int)> {
    seq(|groups|, i requires 0 <= i < |groups| => FlatItem(groups[i], wanted))
  }

  function BiasItems(groups: seq<Matched>, wanted: Wanted): seq<(BiasKey, int)> {
    if groups == [] then [] else BiasItems(groups[..|groups| - 1], wanted) + BiasItem(groups[|groups| - 1], wanted)
  }

  function InsertDark(sorted: seq<(DarkKey, int)>, d: (DarkKey, int)): (r: seq<(DarkKey, int)>)
    ensures multiset(r) == multiset(sorted) + multiset{d}
  {
    if sorted == [] then [d]
    else
      assert sorted == [sorted[0]] + sorted[1..];
      if d.0.exposure < sorted[0].0.exposure then [d] + sorted else [sorted[0]] + InsertDark(sorted[1..], d)
  }

  // Sorted by exposure; equal ones keep their order.
  function SortDarks(darks: seq<(DarkKey, int)>): (r: seq<(DarkKey, int)>)
    ensures multiset(r) == multiset(darks)
  {
    if darks == [] then []
    else
      assert darks == darks[..|darks| - 1] + [darks[|darks| - 1]];
      InsertDark(SortDarks(darks[..|darks| - 1]), darks[|darks| - 1])
  }

  function BiasNeeds(bias: seq<(BiasKey, int)>): seq<Need> {
    if bias == [] then []
    else
      var b := bias[|bias| - 1];
      BiasNeeds(bias[..|bias| - 1]) + (if b.1 != 0 then [Need(Bias, b.0.setup, b.1, None, b.0.temperature, None)] else [])
  }

  function DarkNeeds(darks: seq<(DarkKey, int)>): seq<Need> {
    if darks == [] then []
    else
      var d := darks[|darks| - 1];
      DarkNeeds(darks[..|darks| - 1]) + (if d.1 != 0 then [Need(Dark, d.0.setup, d.1, Some(d.0.exposure), d.0.temperature, None)] else [])
  }

  function FlatNeeds(flats: seq<(FlatKey, int)>): seq<Need> {
    if flats == [] then []
    else
      var f := flats[|flats| - 1];
      FlatNeeds(flats[..|flats| - 1]) + (if f.1 != 0 then [Need(Flat, f.0.setup, f.1, None, None, f.0.filter)] else [])
  }

  function AllNeeds(groups: seq<Matched>, wanted: Wanted): seq<Need> {
    BiasNeeds(Merge(BiasItems(groups, wanted), NearBias))
    + DarkNeeds(SortDarks(Merge(DarkItems(groups, wanted), NearDark)))
    + FlatNeeds(Merge(FlatItems(groups, wanted), SameFlat))
  }

  lemma {:induction false} DarkNeedsExact(darks: seq<(DarkKey, int)>)
    ensures forall n :: n in DarkNeeds(darks) <==>
              n.kind == Dark && n.filter == None && n.exposure.Some? && n.count != 0
              && (DarkKey(n.setup, n.exposure.value, n.temperature), n.count) in darks
  {
    if darks != [] {
      DarkNeedsExact(darks[..|darks| - 1]);
      assert darks == darks[..|darks| - 1] + [darks[|darks| - 1]];
    }
  }

  lemma {:induction false} FlatNeedsExact(flats: seq<(FlatKey, int)>)
    ensures forall n :: n in FlatNeeds(flats) <==>
              n.kind == Flat && n.exposure == None && n.temperature == None && n.count != 0
              && (FlatKey(n.setup, n.filter), n.count) in flats
  {
    if flats != [] {
      FlatNeedsExact(flats[..|flats| - 1]);
      assert flats == flats[..|flats| - 1] + [flats[|flats| - 1]];
    }
  }

  lemma {:induction false} BiasNeedsExact(bias: seq<(BiasKey, int)>)
    ensures forall n :: n in BiasNeeds(bias) <==>
              n.kind == Bias && n.exposure == None && n.filter == None && n.count != 0
              && (BiasKey(n.setup, n.temperature), n.count) in bias
  {
    if bias != [] {
      BiasNeedsExact(bias[..|bias| - 1]);
      assert bias == bias[..|bias| - 1] + [bias[|bias| - 1]];
    }
  }

  // The darks needed under a key are what some group there misses, and no more than any group
  // merged into it misses; every group is merged into a key that is its own or near it. A key
  // where some group misses none is not needed at all, whatever the others miss.
  lemma DarksNeeded(groups: seq<Matched>, wanted: Wanted) returns (at: seq<int>)
    ensures var merged := Merge(DarkItems(groups, wanted), NearDark);
            && Merged(merged, DarkItems(groups, wanted), NearDark, at)
            && forall n: Need :: n.kind == Dark ==>
                 (n in AllNeeds(groups, wanted) <==>
                  && n.filter == None && n.exposure.Some? && n.count != 0
                  && (DarkKey(n.setup, n.exposure.value, n.temperature), n.count) in merged)
  {
    var merged := Merge(DarkItems(groups, wanted), NearDark);
    at := MergeAccounts(DarkItems(groups, wanted), NearDark);
    BiasNeedsExact(Merge(BiasItems(groups, wanted), NearBias));
    FlatNeedsExact(Merge(FlatItems(groups, wanted), SameFlat));
    DarkNeedsExact(SortDarks(merged));
    forall d ensures d in SortDarks(merged) <==> d in merged {
      assert d in multiset(SortDarks(merged)) <==> d in multiset(merged);
    }
  }

  // No group is asked for more than one merged with it misses; a need is never for nothing.
  lemma NeedsPositive(groups: seq<Matched>, wanted: Wanted, n: Need)
    requires n in AllNeeds(groups, wanted) && n.kind == Dark
    ensures n.count > 0
    ensures exists m :: m in groups && n.count + |m.darks| == wanted.darks && m.group.key.setup == n.setup
  {
    var at := DarksNeeded(groups, wanted);
    var merged := Merge(DarkItems(groups, wanted), NearDark);
    var k :| 0 <= k < |merged| && merged[k] == (DarkKey(n.setup, n.exposure.value, n.temperature), n.count);
    var i := SomeMisses(groups, wanted, merged, at, k);
    assert groups[i] in groups;
  }

  lemma SomeMisses(groups: seq<Matched>, wanted: Wanted, merged: seq<(DarkKey, int)>, at: seq<int>, k: nat) returns (i: nat)
    requires Accounts(merged, DarkItems(groups, wanted), NearDark, at) && k < |merged|
    ensures i < |groups| && Missing(wanted.darks, groups[i].darks) == merged[k].1 && groups[i].group.key.setup == merged[k].0.setup
  {
    var items := DarkItems(groups, wanted);
    assert Missed(merged[k].1, items, at, k);
    i :| 0 <= i < |at| && at[i] == k && items[i].1 == merged[k].1;
    assert items[i] == DarkItem(groups[i], wanted);
  }

  // The key a group's darks are counted under: its own, or of its setup, its exposure within 1 %
  // and its temperature within 2 degrees, both known or neither.
  lemma KeyOfGroup(groups: seq<Matched>, wanted: Wanted, i: nat)
    requires i < |groups|
    ensures var key := DarksUnder(groups, wanted, i);
            var g := groups[i].group;
            || key == DarkKey(g.key.setup, g.key.exposure, g.temperature)
            || (&& key.setup == g.key.setup
                && MinReal(key.exposure, g.key.exposure) >= 0.99 * MaxReal(key.exposure, g.key.exposure)
                && (key.temperature.Some? <==> g.temperature.Some?)
                && (g.temperature.Some? ==> -2.0 <= key.temperature.value - g.temperature.value <= 2.0))
  {
    var items := DarkItems(groups, wanted);
    ChooseIsNear(Merge(items[..i], NearDark), items[i].0, NearDark);
    SameExposureIff(DarksUnder(groups, wanted, i).exposure, groups[i].group.key.exposure);
  }

  // -- flats and bias ------------------------------------------------------------------------------------

  ghost predicate FlatsAlike(m: Matched, setup: Setup, filter: Option<string>) {
    m.group.key.setup == setup && m.group.key.filter == filter
  }

  lemma FlatCount(groups: seq<Matched>, wanted: Wanted, found: seq<(FlatKey, int)>, at: seq<int>, k: nat)
    requires Merged(found, FlatItems(groups, wanted), SameFlat, at) && k < |found|
    ensures var key := found[k].0;
            && (exists m :: m in groups && FlatsAlike(m, key.setup, key.filter) && found[k].1 == Missing(wanted.flats, m.flats))
            && forall m :: m in groups && FlatsAlike(m, key.setup, key.filter) ==> found[k].1 <= Missing(wanted.flats, m.flats)
  {
    var items := FlatItems(groups, wanted);
    var key := found[k].0;
    assert Missed(found[k].1, items, at, k);
    var i :| 0 <= i < |at| && at[i] == k && items[i].1 == found[k].1;
    assert groups[i] in groups && items[i] == FlatItem(groups[i], wanted) && items[i].0 == key;
    forall m | m in groups && FlatsAlike(m, key.setup, key.filter) ensures found[k].1 <= Missing(wanted.flats, m.flats) {
      var j :| 0 <= j < |groups| && groups[j] == m;
      assert items[j] == FlatItem(m, wanted) && found[at[j]].0 == key;
      KeyTells(found, at[j], k);
    }
  }

  lemma FlatKeyThere(groups: seq<Matched>, wanted: Wanted, found: seq<(FlatKey, int)>, at: seq<int>, m: Matched) returns (k: nat)
    requires Merged(found, FlatItems(groups, wanted), SameFlat, at) && m in groups
    ensures k < |found| && found[k].0 == FlatKey(m.group.key.setup, m.group.key.filter)
  {
    var j :| 0 <= j < |groups| && groups[j] == m;
    assert FlatItems(groups, wanted)[j] == FlatItem(m, wanted);
    k := at[j];
  }

  // The groups of the setup and filter that lack flats most nearly decide: as many are asked for
  // as the one that lacks fewest, so none where one lacks none.
  ghost predicate FewestLacked(groups: seq<Matched>, wanted: Wanted, n: Need) {
    && (exists m :: m in groups && FlatsAlike(m, n.setup, n.filter) && n.count + |m.flats| == wanted.flats)
    && forall m :: m in groups && FlatsAlike(m, n.setup, n.filter) ==> n.count + |m.flats| <= wanted.flats
  }

  lemma FlatsUnder(groups: seq<Matched>, wanted: Wanted, found: seq<(FlatKey, int)>, at: seq<int>, n: Need)
    requires Merged(found, FlatItems(groups, wanted), SameFlat, at) && n.count > 0
    ensures (FlatKey(n.setup, n.filter), n.count) in found <==> FewestLacked(groups, wanted, n)
  {
    if (FlatKey(n.setup, n.filter), n.count) in found {
      var k :| 0 <= k < |found| && found[k] == (FlatKey(n.setup, n.filter), n.count);
      FlatCount(groups, wanted, found, at, k);
    }
    if FewestLacked(groups, wanted, n) {
      var m :| m in groups && FlatsAlike(m, n.setup, n.filter) && n.count + |m.flats| == wanted.flats;
      var k := FlatKeyThere(groups, wanted, found, at, m);
      FlatCount(groups, wanted, found, at, k);
      assert found[k].1 == n.count;
    }
  }

  lemma FlatsInNeeds(groups: seq<Matched>, wanted: Wanted, n: Need)
    requires n.kind == Flat
    ensures n in AllNeeds(groups, wanted) <==>
              && n.exposure == None && n.temperature == None && n.count != 0
              && (FlatKey(n.setup, n.filter), n.count) in Merge(FlatItems(groups, wanted), SameFlat)
  {
    DarkNeedsExact(SortDarks(Merge(DarkItems(groups, wanted), NearDark)));
    BiasNeedsExact(Merge(BiasItems(groups, wanted), NearBias));
    FlatNeedsExact(Merge(FlatItems(groups, wanted), SameFlat));
  }

  lemma FlatsNeeded(groups: seq<Matched>, wanted: Wanted, n: Need)
    requires n.kind == Flat
    ensures n in AllNeeds(groups, wanted) <==>
              n.exposure == None && n.temperature == None && n.count > 0 && FewestLacked(groups, wanted, n)
  {
    var found := Merge(FlatItems(groups, wanted), SameFlat);
    var at := MergeAccounts(FlatItems(groups, wanted), SameFlat);
    FlatsInNeeds(groups, wanted, n);
    if n.count > 0 {
      FlatsUnder(groups, wanted, found, at, n);
    } else if (FlatKey(n.setup, n.filter), n.count) in found {
      var k :| 0 <= k < |found| && found[k] == (FlatKey(n.setup, n.filter), n.count);
      FlatCount(groups, wanted, found, at, k);
    }
  }

  // Flats are still to be taken, or there is nothing to calibrate them with.
  ghost predicate WantsBias(m: Matched, wanted: Wanted) {
    |m.flats| < wanted.flats || m.flatCalibration == []
  }

  lemma {:induction false} BiasItemsExact(groups: seq<Matched>, wanted: Wanted)
    ensures forall item :: item in BiasItems(groups, wanted) <==>
              exists m :: m in groups && WantsBias(m, wanted)
                          && item == (BiasKey(m.group.key.setup, m.group.temperature), Missing(wanted.bias, m.bias))
  {
    if groups != [] {
      var n := |groups| - 1;
      BiasItemsExact(groups[..n], wanted);
      assert groups == groups[..n] + [groups[n]];
    }
  }

  // The bias needed under a key is what some group there that wants bias misses, and no more than
  // any of them does; each is merged into a key that is its own or near it.
  lemma BiasNeeded(groups: seq<Matched>, wanted: Wanted) returns (at: seq<int>)
    ensures var merged := Merge(BiasItems(groups, wanted), NearBias);
            && Merged(merged, BiasItems(groups, wanted), NearBias, at)
            && forall n: Need :: n.kind == Bias ==>
                 (n in AllNeeds(groups, wanted) <==>
                  n.exposure == None && n.filter == None && n.count != 0 && (BiasKey(n.setup, n.temperature), n.count) in merged)
  {
    at := MergeAccounts(BiasItems(groups, wanted), NearBias);
    DarkNeedsExact(SortDarks(Merge(DarkItems(groups, wanted), NearDark)));
    BiasNeedsExact(Merge(BiasItems(groups, wanted), NearBias));
    FlatNeedsExact(Merge(FlatItems(groups, wanted), SameFlat));
  }

  lemma BiasPositive(groups: seq<Matched>, wanted: Wanted, n: Need)
    requires n in AllNeeds(groups, wanted) && n.kind == Bias
    ensures n.count > 0
    ensures exists m :: m in groups && WantsBias(m, wanted) && n.count + |m.bias| == wanted.bias && m.group.key.setup == n.setup
  {
    var items := BiasItems(groups, wanted);
    var merged := Merge(items, NearBias);
    var at := BiasNeeded(groups, wanted);
    var k :| 0 <= k < |merged| && merged[k] == (BiasKey(n.setup, n.temperature), n.count);
    assert Missed(merged[k].1, items, at, k);
    var i :| 0 <= i < |at| && at[i] == k && items[i].1 == merged[k].1;
    BiasItemsExact(groups, wanted);
    assert items[i] in items;
  }

  lemma BiasKeyOf(groups: seq<Matched>, wanted: Wanted, merged: seq<(BiasKey, int)>, at: seq<int>, m: Matched) returns (k: nat)
    requires Merged(merged, BiasItems(groups, wanted), NearBias, at) && m in groups && WantsBias(m, wanted)
    ensures k < |merged| && merged[k].1 <= Missing(wanted.bias, m.bias)
    ensures merged[k].0 == BiasKey(m.group.key.setup, m.group.temperature)
         || (merged[k].0.setup == m.group.key.setup && Near(merged[k].0.temperature, m.group.temperature, 5.0))
  {
    var items := BiasItems(groups, wanted);
    BiasItemsExact(groups, wanted);
    var item := (BiasKey(m.group.key.setup, m.group.temperature), Missing(wanted.bias, m.bias));
    assert item in items;
    var i :| 0 <= i < |items| && items[i] == item;
    k := at[i];
  }

  lemma BiasUnder(groups: seq<Matched>, wanted: Wanted, k: nat)
    requires k < |Merge(BiasItems(groups, wanted), NearBias)|
    ensures var b := Merge(BiasItems(groups, wanted), NearBias)[k];
            b.1 != 0 ==> Need(Bias, b.0.setup, b.1, None, b.0.temperature, None) in AllNeeds(groups, wanted)
  {
    var merged := Merge(BiasItems(groups, wanted), NearBias);
    BiasNeedsExact(merged);
    var b := merged[k];
    assert (BiasKey(b.0.setup, b.0.temperature), b.1) in merged;
  }

  // A group that wants bias and misses some is asked for none only because one that wants bias,
  // of its setup and within 5 degrees of the same key, misses none.
  lemma BiasAsked(groups: seq<Matched>, wanted: Wanted, m: Matched) returns (key: BiasKey, count: int)
    requires m in groups && WantsBias(m, wanted)
    ensures key == BiasKey(m.group.key.setup, m.group.temperature)
         || (key.setup == m.group.key.setup && Near(key.temperature, m.group.temperature, 5.0))
    ensures 0 <= count <= Missing(wanted.bias, m.bias)
    ensures count > 0 ==> Need(Bias, key.setup, count, None, key.temperature, None) in AllNeeds(groups, wanted)
    ensures count == 0 ==> exists o :: o in groups && WantsBias(o, wanted) && |o.bias| >= wanted.bias && o.group.key.setup == key.setup
  {
    var merged := Merge(BiasItems(groups, wanted), NearBias);
    var at := MergeAccounts(BiasItems(groups, wanted), NearBias);
    var k := BiasKeyOf(groups, wanted, merged, at, m);
    key, count := merged[k].0, merged[k].1;
    BiasLeast(groups, wanted, merged, at, k);
    BiasUnder(groups, wanted, k);
  }

  lemma BiasLeast(groups: seq<Matched>, wanted: Wanted, merged: seq<(BiasKey, int)>, at: seq<int>, k: nat)
    requires Merged(merged, BiasItems(groups, wanted), NearBias, at) && k < |merged|
    ensures exists o :: o in groups && WantsBias(o, wanted) && Missing(wanted.bias, o.bias) == merged[k].1 && o.group.key.setup == merged[k].0.setup
  {
    var items := BiasItems(groups, wanted);
    assert Missed(merged[k].1, items, at, k);
    var i :| 0 <= i < |at| && at[i] == k && items[i].1 == merged[k].1;
    BiasItemsExact(groups, wanted);
    assert items[i] in items;
  }

  // -- their order -------------------------------------------------------------------------------------------

  function Rank(kind: Kind): nat {
    match kind
    case Bias => 0
    case Dark => 1
    case Flat => 2
  }

  ghost predicate Lengthens(darks: seq<(DarkKey, int)>) {
    forall i, j :: 0 <= i < j < |darks| ==> darks[i].0.exposure <= darks[j].0.exposure
  }

  lemma {:induction false} InsertDarkLengthens(sorted: seq<(DarkKey, int)>, d: (DarkKey, int))
    requires Lengthens(sorted)
    ensures Lengthens(InsertDark(sorted, d))
  {
    if sorted != [] && d.0.exposure >= sorted[0].0.exposure {
      InsertDarkLengthens(sorted[1..], d);
      var rest := InsertDark(sorted[1..], d);
      forall j | 0 <= j < |rest| ensures sorted[0].0.exposure <= rest[j].0.exposure {
        assert rest[j] in multiset(rest);
        if rest[j] != d {
          assert rest[j] in multiset(sorted[1..]);
          var k :| 0 <= k < |sorted[1..]| && sorted[1..][k] == rest[j];
        }
      }
    }
  }

  lemma {:induction false} SortDarksLengthens(darks: seq<(DarkKey, int)>)
    ensures Lengthens(SortDarks(darks))
  {
    if darks != [] {
      SortDarksLengthens(darks[..|darks| - 1]);
      InsertDarkLengthens(SortDarks(darks[..|darks| - 1]), darks[|darks| - 1]);
    }
  }

  ghost predicate DarksLengthen(needs: seq<Need>) {
    && (forall n :: n in needs ==> n.exposure.Some?)
    && forall i, j :: 0 <= i < j < |needs| ==>
         needs[i].exposure.Some? && needs[j].exposure.Some? && needs[i].exposure.value <= needs[j].exposure.value
  }

  lemma NoneLonger(darks: seq<(DarkKey, int)>, n: Need)
    requires darks != [] && Lengthens(darks) && n in DarkNeeds(darks[..|darks| - 1])
    ensures n.exposure.Some? && n.exposure.value <= darks[|darks| - 1].0.exposure
  {
    DarkNeedsExact(darks[..|darks| - 1]);
    var k :| 0 <= k < |darks| - 1 && darks[k] == (DarkKey(n.setup, n.exposure.value, n.temperature), n.count);
  }

  lemma {:induction false} DarkNeedsLengthen(darks: seq<(DarkKey, int)>)
    requires Lengthens(darks)
    ensures DarksLengthen(DarkNeeds(darks))
  {
    if darks != [] {
      var before := DarkNeeds(darks[..|darks| - 1]);
      DarkNeedsLengthen(darks[..|darks| - 1]);
      forall i | 0 <= i < |before| ensures before[i].exposure.Some? && before[i].exposure.value <= darks[|darks| - 1].0.exposure {
        NoneLonger(darks, before[i]);
      }
    }
  }

  // Bias before darks before flats, and the darks from the shortest exposure to the longest.
  lemma NeedsInOrder(groups: seq<Matched>, wanted: Wanted, i: nat, j: nat)
    requires i < j < |AllNeeds(groups, wanted)|
    ensures var a, b := AllNeeds(groups, wanted)[i], AllNeeds(groups, wanted)[j];
            && Rank(a.kind) <= Rank(b.kind)
            && (a.kind == Dark && b.kind == Dark ==> a.exposure.Some? && b.exposure.Some? && a.exposure.value <= b.exposure.value)
  {
    var bias := BiasNeeds(Merge(BiasItems(groups, wanted), NearBias));
    var sorted := SortDarks(Merge(DarkItems(groups, wanted), NearDark));
    var flats := FlatNeeds(Merge(FlatItems(groups, wanted), SameFlat));
    BiasNeedsExact(Merge(BiasItems(groups, wanted), NearBias));
    DarkNeedsExact(sorted);
    FlatNeedsExact(Merge(FlatItems(groups, wanted), SameFlat));
    SortDarksLengthens(Merge(DarkItems(groups, wanted), NearDark));
    DarkNeedsLengthen(sorted);
    ThreeParts(bias, DarkNeeds(sorted), flats, i);
    ThreeParts(bias, DarkNeeds(sorted), flats, j);
  }

  lemma ThreeParts(bias: seq<Need>, darks: seq<Need>, flats: seq<Need>, i: nat)
    requires i < |bias + darks + flats|
    ensures i < |bias| ==> (bias + darks + flats)[i] in bias
    ensures |bias| <= i < |bias| + |darks| ==> (bias + darks + flats)[i] == darks[i - |bias|] && darks[i - |bias|] in darks
    ensures |bias| + |darks| <= i ==> (bias + darks + flats)[i] in flats
  {
  }

  function MissedDarks(m: Matched, wanted: Wanted): nat {
    Missing(wanted.darks, m.darks)
  }

  // The key that group i's darks are counted under.
  function DarksUnder(groups: seq<Matched>, wanted: Wanted, i: nat): DarkKey
    requires i < |groups|
  {
    Into(DarkItems(groups, wanted), NearDark, i)
  }

  // As many darks as group i misses are asked for under its key.
  predicate Served(groups: seq<Matched>, wanted: Wanted, i: nat)
    requires i < |groups|
  {
    var key := DarksUnder(groups, wanted, i);
    var missed := MissedDarks(groups[i], wanted);
    missed == 0 || Need(Dark, key.setup, missed, Some(key.exposure), key.temperature, None) in AllNeeds(groups, wanted)
  }

  lemma KeyTells<K(!new)>(found: seq<(K, int)>, a: nat, b: nat)
    requires DistinctKeys(found) && a < |found| && b < |found|
    ensures found[a].0 == found[b].0 <==> a == b
  {
  }

  lemma LeastAt<K(!new)>(found: seq<(K, int)>, items: seq<(K, int)>, near: (K, K) -> bool, at: seq<int>, i: nat)
    requires Accounts(found, items, near, at) && i < |items|
    ensures found[at[i]].1 == items[i].1 <==> forall j :: 0 <= j < |at| && at[j] == at[i] ==> items[j].1 >= items[i].1
  {
    assert Missed(found[at[i]].1, items, at, at[i]);
  }

  lemma SameKey<K(!new)>(found: seq<(K, int)>, items: seq<(K, int)>, near: (K, K) -> bool, at: seq<int>, i: nat, j: nat)
    requires DistinctKeys(found) && Goes(found, items, near, at) && i < |items| && j < |items|
    ensures at[j] == at[i] <==> Into(items, near, j) == Into(items, near, i)
  {
    KeyTells(found, at[j], at[i]);
  }

  // The count under an item's key is the item's own exactly when no other item there misses
  // fewer.
  lemma LeastCounts<K(!new)>(found: seq<(K, int)>, items: seq<(K, int)>, near: (K, K) -> bool, at: seq<int>, i: nat)
    requires DistinctKeys(found) && Accounts(found, items, near, at) && Goes(found, items, near, at) && i < |items|
    ensures found[at[i]].1 == items[i].1 <==>
              forall j :: 0 <= j < |items| && Into(items, near, j) == Into(items, near, i) ==> items[j].1 >= items[i].1
  {
    LeastAt(found, items, near, at, i);
    forall j | 0 <= j < |items| ensures at[j] == at[i] <==> Into(items, near, j) == Into(items, near, i) {
      SameKey(found, items, near, at, i, j);
    }
  }

  lemma OneCount<K(!new)>(found: seq<(K, int)>, k: nat, count: int)
    requires DistinctKeys(found) && k < |found|
    ensures (found[k].0, count) in found <==> found[k].1 == count
  {
    if (found[k].0, count) in found {
      var m :| 0 <= m < |found| && found[m] == (found[k].0, count);
      KeyTells(found, k, m);
    }
    if found[k].1 == count {
      assert found[k] == (found[k].0, count);
    }
  }

  lemma NeedUnder(groups: seq<Matched>, wanted: Wanted, key: DarkKey, count: int)
    requires count != 0
    ensures Need(Dark, key.setup, count, Some(key.exposure), key.temperature, None) in AllNeeds(groups, wanted)
      <==> (key, count) in Merge(DarkItems(groups, wanted), NearDark)
  {
    var at := DarksNeeded(groups, wanted);
    var n := Need(Dark, key.setup, count, Some(key.exposure), key.temperature, None);
    assert DarkKey(n.setup, n.exposure.value, n.temperature) == key;
  }

  lemma ServedAt(groups: seq<Matched>, wanted: Wanted, i: nat, found: seq<(DarkKey, int)>, k: nat)
    requires i < |groups| && found == Merge(DarkItems(groups, wanted), NearDark) && DistinctKeys(found)
    requires k < |found| && found[k].0 == DarksUnder(groups, wanted, i) && 0 <= found[k].1 <= MissedDarks(groups[i], wanted)
    ensures Served(groups, wanted, i) <==> found[k].1 == MissedDarks(groups[i], wanted)
  {
    var missed := MissedDarks(groups[i], wanted);
    if missed != 0 {
      NeedUnder(groups, wanted, found[k].0, missed);
      OneCount(found, k, missed);
    }
  }

  // A group gets what it misses exactly when no group counted under the same key misses less.
  lemma ServedIff(groups: seq<Matched>, wanted: Wanted, i: nat)
    requires i < |groups|
    ensures Served(groups, wanted, i) <==>
              forall j :: 0 <= j < |groups| && DarksUnder(groups, wanted, j) == DarksUnder(groups, wanted, i)
                ==> MissedDarks(groups[j], wanted) >= MissedDarks(groups[i], wanted)
  {
    var items := DarkItems(groups, wanted);
    var found := Merge(items, NearDark);
    var at := MergeAccounts(items, NearDark);
    LeastCounts(found, items, NearDark, at, i);
    assert Missed(found[at[i]].1, items, at, at[i]);
    ServedAt(groups, wanted, i, found, at[i]);
    forall j | 0 <= j < |groups| ensures items[j].1 == MissedDarks(groups[j], wanted) && Into(items, NearDark, j) == DarksUnder(groups, wanted, j) {
    }
  }

  // So all groups do exactly when those counted under one key all miss the same.
  lemma AllServedIff(groups: seq<Matched>, wanted: Wanted)
    ensures (forall i :: 0 <= i < |groups| ==> Served(groups, wanted, i)) <==>
              forall i, j :: 0 <= i < |groups| && 0 <= j < |groups| && DarksUnder(groups, wanted, i) == DarksUnder(groups, wanted, j)
                ==> MissedDarks(groups[i], wanted) == MissedDarks(groups[j], wanted)
  {
    forall i | 0 <= i < |groups|
      ensures Served(groups, wanted, i) <==>
                forall j :: 0 <= j < |groups| && DarksUnder(groups, wanted, j) == DarksUnder(groups, wanted, i)
                  ==> MissedDarks(groups[j], wanted) >= MissedDarks(groups[i], wanted)
    {
      ServedIff(groups, wanted, i);
    }
  }

  // Two groups whose darks would do for each other, one with all it wants and one with none:
  // nothing is asked for.
  lemma MergedAway(a: Matched, b: Matched, wanted: Wanted)
    requires |a.darks| >= wanted.darks && b.darks == [] && wanted.darks > 0
    requires NearDark(DarkItem(a, wanted).0, DarkItem(b, wanted).0)
    ensures Missing(wanted.darks, b.darks) == wanted.darks
    ensures forall n :: n in AllNeeds([a, b], wanted) ==> n.kind != Dark
  {
    var at := DarksNeeded([a, b], wanted);
    var items := DarkItems([a, b], wanted);
    assert items[..1][..0] == [] && items[..1] == [items[0]];
    assert Merge(items[..1], NearDark) == PutMin([], items[0].0, 0) == [(items[0].0, 0)];
    assert Merge(items, NearDark) == PutMin([(items[0].0, 0)], items[0].0, items[1].1) == [(items[0].0, 0)];
  }

  // -- the loops -------------------------------------------------------------------------------------------

  method ChooseNear<K(==)>(found: seq<(K, int)>, key: K, near: (K, K) -> bool) returns (chosen: K)
    ensures chosen == Choose(found, key, near)
  {
    for i := 0 to |found|
      invariant Choose(found, key, near) == Choose(found[i..], key, near)
    {
      assert found[i..][0] == found[i] && found[i..][1..] == found[i + 1..];
      if near(found[i].0, key) {
        return found[i].0;
      }
    }
    return key;
  }

  lemma MergeSnoc<K>(items: seq<(K, int)>, item: (K, int), near: (K, K) -> bool)
    ensures var before := Merge(items, near); Merge(items + [item], near) == PutMin(before, Choose(before, item.0, near), item.1)
  {
    assert (items + [item])[..|items|] == items;
  }

  lemma ItemsStep(groups: seq<Matched>, i: nat, wanted: Wanted)
    requires i < |groups|
    ensures DarkItems(groups[..i + 1], wanted) == DarkItems(groups[..i], wanted) + [DarkItem(groups[i], wanted)]
    ensures FlatItems(groups[..i + 1], wanted) == FlatItems(groups[..i], wanted) + [FlatItem(groups[i], wanted)]
    ensures BiasItems(groups[..i + 1], wanted) == BiasItems(groups[..i], wanted) + BiasItem(groups[i], wanted)
  {
    assert groups[..i + 1][..i] == groups[..i];
  }

  method AddMissing<K(==)>(found: seq<(K, int)>, ghost items: seq<(K, int)>, key: K, missing: int, near: (K, K) -> bool)
    returns (r: seq<(K, int)>)
    requires found == Merge(items, near)
    ensures r == Merge(items + [(key, missing)], near)
  {
    MergeSnoc(items, (key, missing), near);
    var chosen := ChooseNear(found, key, near);
    r := PutMin(found, chosen, missing);
  }

  method NeedsOf(groups: seq<Matched>, wanted: Wanted) returns (needs: seq<Need>)
    ensures needs == AllNeeds(groups, wanted)
  {
    var darks: seq<(DarkKey, int)>, bias: seq<(BiasKey, int)>, flats: seq<(FlatKey, int)> := [], [], [];
    for i := 0 to |groups|
      invariant darks == Merge(DarkItems(groups[..i], wanted), NearDark)
      invariant flats == Merge(FlatItems(groups[..i], wanted), SameFlat)
      invariant bias == Merge(BiasItems(groups[..i], wanted), NearBias)
    {
      var m := groups[i];
      ItemsStep(groups, i, wanted);
      var setup := m.group.key.setup;
      darks := AddMissing(darks, DarkItems(groups[..i], wanted), DarkKey(setup, m.group.key.exposure, m.group.temperature),
                          Missing(wanted.darks, m.darks), NearDark);
      var missing := Missing(wanted.flats, m.flats);
      flats := AddMissing(flats, FlatItems(groups[..i], wanted), FlatKey(setup, m.group.key.filter), missing, SameFlat);
      if missing != 0 || m.flatCalibration == [] {
        bias := AddMissing(bias, BiasItems(groups[..i], wanted), BiasKey(setup, m.group.temperature),
                           Missing(wanted.bias, m.bias), NearBias);
      } else {
        assert BiasItems(groups[..i + 1], wanted) == BiasItems(groups[..i], wanted);
      }
    }
    assert groups[..|groups|] == groups;
    needs := BiasNeeds(bias) + DarkNeeds(SortDarks(darks)) + FlatNeeds(flats);
  }
}
