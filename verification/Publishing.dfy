/** Publishing packages to the apt repository (packaging/repo/publish.py): what a publish puts
    and deletes, in order, and what is left when it stops on the way. */
module Publishing {
  import opened Common

  // The fields of a package's stanza that a publish looks at.
  datatype Entry = Entry(package: string, version: string, architecture: string, filename: string)

  const ARCHITECTURES := ["amd64", "arm64"]

  // The bucket's keys: dists/<suite>/main/binary-<arch>/Packages[.gz], a suite's other
  // files, the pool's, and the keyring.
  datatype Key =
    | Index(suite: string, arch: string, gz: bool)
    | Release(suite: string, name: string)
    | Pool(path: string)
    | Keyring

  datatype Content = Blob | Entries(entries: seq<Entry>)

  type Files = map<Key, Content>

  datatype Effect = Put(key: Key, content: Content) | Delete(key: Key)

  function Apply(b: Files, e: Effect): Files {
    match e
    case Put(key, content) => b[key := content]
    case Delete(key) => b - {key}
  }

  function Run(b: Files, effects: seq<Effect>): Files
    decreases effects
  {
    if effects == [] then b else Run(Apply(b, effects[0]), effects[1..])
  }

  // -- the newest versions ----------------------------------------------------------------------

  // dpkg's order of versions, assumed total: `rank` places every version on a line.

  function InsertEntry(sorted: seq<Entry>, e: Entry, rank: string -> real): seq<Entry> {
    if sorted == [] || rank(e.version) < rank(sorted[0].version) then [e] + sorted
    else [sorted[0]] + InsertEntry(sorted[1..], e, rank)
  }

  // sorted by version; equal ones keep their order
  function SortEntries(entries: seq<Entry>, rank: string -> real): seq<Entry> {
    if entries == [] then []
    else InsertEntry(SortEntries(entries[..|entries| - 1], rank), entries[|entries| - 1], rank)
  }

  function OfPackage(entries: seq<Entry>, package: string): seq<Entry> {
    if entries == [] then []
    else (if entries[0].package == package then [entries[0]] else []) + OfPackage(entries[1..], package)
  }

  // Python's ordered[-keep:]: all of it when `keep` is 0.
  function LastSlice(ordered: seq<Entry>, keep: int): seq<Entry> {
    if keep > 0 then ordered[Max(0, |ordered| - keep)..]
    else if keep == 0 then ordered
    else ordered[Min(-keep, |ordered|)..]
  }

  function Newest(entries: seq<Entry>, package: string, keep: int, rank: string -> real): seq<Entry> {
    LastSlice(SortEntries(OfPackage(entries, package), rank), keep)
  }

  function PackagesOf(entries: seq<Entry>): seq<string> {
    seq(|entries|, i requires 0 <= i < |entries| => entries[i].package)
  }

  function NewestOfAll(entries: seq<Entry>, packages: seq<string>, keep: int, rank: string -> real): seq<Entry> {
    if packages == [] then []
    else NewestOfAll(entries, packages[..|packages| - 1], keep, rank) + Newest(entries, packages[|packages| - 1], keep, rank)
  }

  function Retained(entries: seq<Entry>, keep: int, rank: string -> real): seq<Entry> {
    NewestOfAll(entries, SortedSet(PackagesOf(entries)), keep, rank)
  }

  ghost predicate ByVersion(s: seq<Entry>, rank: string -> real) {
    forall i, j :: 0 <= i < j < |s| ==> rank(s[i].version) <= rank(s[j].version)
  }

  lemma {:induction false} InsertEntryAdds(sorted: seq<Entry>, e: Entry, rank: string -> real)
    ensures multiset(InsertEntry(sorted, e, rank)) == multiset(sorted) + multiset{e}
    ensures |InsertEntry(sorted, e, rank)| == |sorted| + 1
  {
    if sorted != [] && rank(sorted[0].version) <= rank(e.version) {
      assert sorted == [sorted[0]] + sorted[1..];
      InsertEntryAdds(sorted[1..], e, rank);
    }
  }

  lemma {:induction false} InsertEntrySorts(sorted: seq<Entry>, e: Entry, rank: string -> real)
    requires ByVersion(sorted, rank)
    ensures ByVersion(InsertEntry(sorted, e, rank), rank)
  {
    if sorted != [] && rank(sorted[0].version) <= rank(e.version) {
      InsertEntrySorts(sorted[1..], e, rank);
      InsertEntryAdds(sorted[1..], e, rank);
      var rest := InsertEntry(sorted[1..], e, rank);
      forall i | 0 <= i < |rest| ensures rank(sorted[0].version) <= rank(rest[i].version) {
        assert rest[i] in multiset(rest);
        if rest[i] != e {
          var k :| 0 <= k < |sorted[1..]| && sorted[1..][k] == rest[i];
          assert sorted[k + 1] == rest[i];
        }
      }
    }
  }

  lemma {:induction false} SortEntriesSorts(entries: seq<Entry>, rank: string -> real)
    ensures ByVersion(SortEntries(entries, rank), rank)
    ensures multiset(SortEntries(entries, rank)) == multiset(entries)
    ensures |SortEntries(entries, rank)| == |entries|
  {
    if entries != [] {
      var n := |entries| - 1;
      SortEntriesSorts(entries[..n], rank);
      InsertEntrySorts(SortEntries(entries[..n], rank), entries[n], rank);
      InsertEntryAdds(SortEntries(entries[..n], rank), entries[n], rank);
      assert entries == entries[..n] + [entries[n]];
    }
  }

  lemma SortEntriesHas(entries: seq<Entry>, rank: string -> real)
    ensures forall e :: e in SortEntries(entries, rank) ==> e in entries
  {
    SortEntriesSorts(entries, rank);
    forall e | e in SortEntries(entries, rank) ensures e in entries {
      assert e in multiset(SortEntries(entries, rank));
    }
  }

  lemma {:induction false} OfPackageExact(entries: seq<Entry>, package: string)
    ensures forall e :: e in OfPackage(entries, package) <==> e in entries && e.package == package
    ensures forall e {:trigger multiset(OfPackage(entries, package))[e]} ::
              multiset(OfPackage(entries, package))[e] == if e.package == package then multiset(entries)[e] else 0
  {
    if entries != [] {
      OfPackageExact(entries[1..], package);
      assert entries == [entries[0]] + entries[1..];
    }
  }

  lemma CutSorted(sorted: seq<Entry>, cut: nat, rank: string -> real)
    requires cut <= |sorted| && ByVersion(sorted, rank)
    ensures multiset(sorted[cut..]) <= multiset(sorted)
    ensures forall gone, stays :: gone in multiset(sorted) - multiset(sorted[cut..]) && stays in sorted[cut..] ==> rank(gone.version) <= rank(stays.version)
  {
    assert sorted == sorted[..cut] + sorted[cut..];
    assert multiset(sorted) - multiset(sorted[cut..]) == multiset(sorted[..cut]);
    forall gone, stays | gone in multiset(sorted[..cut]) && stays in sorted[cut..] ensures rank(gone.version) <= rank(stays.version) {
      var i :| 0 <= i < cut && sorted[i] == gone;
      var k :| 0 <= k < |sorted[cut..]| && sorted[cut..][k] == stays;
      assert sorted[cut + k] == stays;
    }
  }

  // The newest `keep` versions of a package are kept: as many as there are up to `keep`, none
  // older than one that is dropped; and with `keep` 0, all of them.
  lemma NewestExact(entries: seq<Entry>, package: string, keep: int, rank: string -> real)
    requires keep >= 0
    ensures var all := OfPackage(entries, package);
            var kept := Newest(entries, package, keep, rank);
            && multiset(kept) <= multiset(all)
            && |kept| == (if keep == 0 then |all| else Min(keep, |all|))
            && (forall gone, stays :: gone in multiset(all) - multiset(kept) && stays in kept ==> rank(gone.version) <= rank(stays.version))
  {
    var sorted := SortEntries(OfPackage(entries, package), rank);
    SortEntriesSorts(OfPackage(entries, package), rank);
    var cut := if keep == 0 then 0 else Max(0, |sorted| - keep);
    assert Newest(entries, package, keep, rank) == sorted[cut..];
    CutSorted(sorted, cut, rank);
  }

  lemma {:induction false} NewestOfAllPer(entries: seq<Entry>, packages: seq<string>, keep: int, rank: string -> real, package: string)
    requires Distinct(packages)
    ensures OfPackage(NewestOfAll(entries, packages, keep, rank), package)
         == if package in packages then Newest(entries, package, keep, rank) else []
  {
    if packages != [] {
      var n := |packages| - 1;
      NewestOfAllPer(entries, packages[..n], keep, rank, package);
      NewestOfAllStep(entries, packages, keep, rank, package);
      var before := OfPackage(NewestOfAll(entries, packages[..n], keep, rank), package);
      LastIsNew(packages, package);
      assert before + [] == before && [] + Newest(entries, package, keep, rank) == Newest(entries, package, keep, rank);
    }
  }

  lemma LastIsNew(packages: seq<string>, package: string)
    requires packages != [] && Distinct(packages)
    ensures var n := |packages| - 1;
            && Distinct(packages[..n])
            && (package == packages[n] ==> package !in packages[..n] && package in packages)
            && (package != packages[n] ==> (package in packages <==> package in packages[..n]))
  {
    var n := |packages| - 1;
    assert packages == packages[..n] + [packages[n]];
  }

  lemma NewestOfAllStep(entries: seq<Entry>, packages: seq<string>, keep: int, rank: string -> real, package: string)
    requires packages != []
    ensures var n := |packages| - 1;
            OfPackage(NewestOfAll(entries, packages, keep, rank), package)
            == OfPackage(NewestOfAll(entries, packages[..n], keep, rank), package)
               + (if package == packages[n] then Newest(entries, package, keep, rank) else [])
  {
    var n := |packages| - 1;
    var last := Newest(entries, packages[n], keep, rank);
    NewestHasPackage(entries, packages[n], keep, rank);
    OfPackageConcat(NewestOfAll(entries, packages[..n], keep, rank), last, package);
    OfOnePackage(last, packages[n], package);
  }

  lemma NewestHasPackage(entries: seq<Entry>, package: string, keep: int, rank: string -> real)
    ensures forall e :: e in Newest(entries, package, keep, rank) ==> e.package == package && e in entries
  {
    var sorted := SortEntries(OfPackage(entries, package), rank);
    SortEntriesHas(OfPackage(entries, package), rank);
    OfPackageExact(entries, package);
    assert forall e :: e in Newest(entries, package, keep, rank) ==> e in sorted;
  }

  lemma {:induction false} OfPackageConcat(a: seq<Entry>, b: seq<Entry>, package: string)
    ensures OfPackage(a + b, package) == OfPackage(a, package) + OfPackage(b, package)
  {
    if a == [] {
      assert a + b == b;
    } else {
      assert (a + b)[0] == a[0] && (a + b)[1..] == a[1..] + b;
      OfPackageConcat(a[1..], b, package);
      var first: seq<Entry> := if a[0].package == package then [a[0]] else [];
      assert first + (OfPackage(a[1..], package) + OfPackage(b, package)) == (first + OfPackage(a[1..], package)) + OfPackage(b, package);
    }
  }

  lemma {:induction false} OfOnePackage(s: seq<Entry>, package: string, other: string)
    requires forall e :: e in s ==> e.package == package
    ensures OfPackage(s, other) == if other == package then s else []
  {
    if s != [] {
      OfOnePackage(s[1..], package, other);
      assert s[0] in s && s == [s[0]] + s[1..];
    }
  }

  lemma {:induction false} OfNoPackage(s: seq<Entry>, package: string)
    requires forall e :: e in s ==> e.package != package
    ensures OfPackage(s, package) == []
  {
    if s != [] {
      OfNoPackage(s[1..], package);
      assert s[0] in s;
    }
  }

  // A published index holds, of every package, exactly its newest versions.
  lemma RetainedExact(entries: seq<Entry>, keep: int, rank: string -> real, package: string)
    ensures OfPackage(Retained(entries, keep, rank), package) == Newest(entries, package, keep, rank)
    ensures forall e :: e in Retained(entries, keep, rank) ==> e in entries
  {
    var packages := SortedSet(PackagesOf(entries));
    SortedSetCorrect(PackagesOf(entries));
    NewestOfAllPer(entries, packages, keep, rank, package);
    if package !in packages {
      forall e | e in entries ensures e.package != package {
        var i :| 0 <= i < |entries| && entries[i] == e;
        assert PackagesOf(entries)[i] == e.package;
      }
      OfNoPackage(entries, package);
    }
    NewestOfAllFrom(entries, packages, keep, rank);
  }

  lemma {:induction false} NewestOfAllFrom(entries: seq<Entry>, packages: seq<string>, keep: int, rank: string -> real)
    ensures forall e :: e in NewestOfAll(entries, packages, keep, rank) ==> e in entries
  {
    if packages != [] {
      var n := |packages| - 1;
      NewestOfAllFrom(entries, packages[..n], keep, rank);
      NewestHasPackage(entries, packages[n], keep, rank);
    }
  }
}
