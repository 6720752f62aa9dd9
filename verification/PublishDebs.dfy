/** The publish as it is done: the bucket whose files it puts and deletes, and the loops over
    suites, architectures and packages.

    They are proved to do what Publisher.dfy plans, so that what it proves of stopping
    anywhere and of the completed publish holds of the bucket. */
module PublishRuns {
  import opened Common
  import opened Publishing
  import opened Publisher

  type Indices = map<(string, string), seq<Entry>>

  predicate DistinctSuites(suites: seq<(string, int)>) {
    forall i, j :: 0 <= i < j < |suites| ==> suites[i].0 != suites[j].0
  }

  class Bucket {
    var files: Files
    // What it held at first, and everything done to it since: stopping a publish leaves
    // the bucket as some prefix of the log makes it.
    ghost var origin: Files
    ghost var log: seq<Effect>

    ghost predicate Valid()
      reads this
    {
      files == Run(origin, log)
    }

    constructor (files: Files)
      ensures Valid() && this.files == files && log == []
    {
      this.files, origin, log := files, files, [];
    }

    method Put(key: Key, content: Content)
      requires Valid()
      modifies this`files, this`log
      ensures Valid() && files == Apply(old(files), Effect.Put(key, content))
      ensures log == old(log) + [Effect.Put(key, content)]
    {
      RunConcat(origin, log, [Effect.Put(key, content)]);
      assert [Effect.Put(key, content)][1..] == [];
      files := files[key := content];
      log := log + [Effect.Put(key, content)];
    }

    method Delete(key: Key)
      requires Valid()
      modifies this`files, this`log
      ensures Valid() && files == Apply(old(files), Effect.Delete(key))
      ensures log == old(log) + [Effect.Delete(key)]
    {
      RunConcat(origin, log, [Effect.Delete(key)]);
      assert [Effect.Delete(key)][1..] == [];
      files := files - {key};
      log := log + [Effect.Delete(key)];
    }

    // The packages in the pool, sorted.
    method ListPool() returns (pool: seq<string>)
      ensures Lists(pool, files) && Ascending(pool)
    {
      var left, found: seq<string> := files.Keys, [];
      while left != {}
        invariant left <= files.Keys
        invariant forall f :: f in found <==> Pool(f) in files.Keys - left && IsDeb(f)
        decreases |left|
      {
        var k :| k in left;
        left := left - {k};
        if k.Pool? && IsDeb(k.path) {
          found := found + [k.path];
        }
      }
      SortedSetCorrect(found);
      pool := SortedSet(found);
    }
  }

  // -- the new indices, loop by loop -------------------------------------------------------------

  method ReadAll(b: Files, suites: set<string>) returns (r: Indices)
    ensures forall s, a :: (s, a) in r <==> s in suites && a in ARCHITECTURES
    ensures forall k :: k in r ==> r[k] == Read(b, k.0, k.1)
  {
    r := map[];
    var left := suites;
    while left != {}
      invariant left <= suites
      invariant forall s, a :: (s, a) in r <==> s in suites - left && a in ARCHITECTURES
      invariant forall k :: k in r ==> r[k] == Read(b, k.0, k.1)
      decreases |left|
    {
      var suite :| suite in left;
      for i := 0 to |ARCHITECTURES|
        invariant forall s, a :: (s, a) in r <==> (s in suites - left && a in ARCHITECTURES) || (s == suite && a in ARCHITECTURES[..i])
        invariant forall k :: k in r ==> r[k] == Read(b, k.0, k.1)
      {
        r := r[(suite, ARCHITECTURES[i]) := Read(b, suite, ARCHITECTURES[i])];
      }
      left := left - {suite};
    }
  }

  // Whether the publish rewrites this index.
  predicate Rewrites(suites: seq<(string, int)>, k: (string, string)) {
    KeepOf(suites, k.0).Some? && k.1 in ARCHITECTURES
  }

  lemma {:induction false} KeepOfSnoc(suites: seq<(string, int)>, n: nat, suite: string)
    requires n < |suites| && DistinctSuites(suites)
    ensures KeepOf(suites[..n + 1], suite) == if suites[n].0 == suite then Some(suites[n].1) else KeepOf(suites[..n], suite)
    ensures suites[n].0 == suite ==> KeepOf(suites[..n], suite) == None
    decreases n
  {
    if n > 0 {
      assert suites[..n + 1][1..] == suites[1..][..n];
      assert suites[..n][1..] == suites[1..][..n - 1];
      KeepOfSnoc(suites[1..], n - 1, suite);
    } else {
      assert suites[..1] == [suites[0]] && [suites[0]][1..] == [];
    }
  }

  ghost predicate Holds(r: Indices, suites: seq<(string, int)>) {
    forall i, a :: 0 <= i < |suites| && a in ARCHITECTURES ==> (suites[i].0, a) in r
  }

  // One package, added to the indices of one suite it belongs in.
  method AddToSuite(indices: Indices, suite: string, deb: Entry) returns (r: Indices)
    requires forall a :: a in ARCHITECTURES ==> (suite, a) in indices
    ensures r.Keys == indices.Keys
    ensures forall k :: k in indices ==>
              r[k] == if k.0 == suite && k.1 in ARCHITECTURES then Add(indices[k], deb, k.1) else indices[k]
  {
    r := indices;
    for i := 0 to |ARCHITECTURES|
      invariant r.Keys == indices.Keys
      invariant forall k :: k in indices ==>
                  r[k] == if k.0 == suite && k.1 in ARCHITECTURES[..i] then Add(indices[k], deb, k.1) else indices[k]
    {
      var k := (suite, ARCHITECTURES[i]);
      assert k.1 in ARCHITECTURES && k.1 !in ARCHITECTURES[..i];
      if deb.architecture == k.1 || deb.architecture == "all" {
        r := r[k := Others(r[k], deb.filename) + [deb]];
      }
    }
  }

  method AddDeb(indices: Indices, suites: seq<(string, int)>, deb: Entry) returns (r: Indices)
    requires DistinctSuites(suites) && Holds(indices, suites)
    ensures r.Keys == indices.Keys
    ensures forall k :: k in indices ==> r[k] == if Rewrites(suites, k) then Add(indices[k], deb, k.1) else indices[k]
  {
    r := indices;
    for j := 0 to |suites|
      invariant r.Keys == indices.Keys
      invariant forall k :: k in indices ==> r[k] == if Rewrites(suites[..j], k) then Add(indices[k], deb, k.1) else indices[k]
    {
      forall k: (string, string) { KeepOfSnoc(suites, j, k.0); }
      r := AddToSuite(r, suites[j].0, deb);
    }
    assert suites[..|suites|] == suites;
  }

  method AddDebs(indices: Indices, suites: seq<(string, int)>, debs: seq<Entry>) returns (r: Indices)
    requires DistinctSuites(suites) && Holds(indices, suites)
    ensures r.Keys == indices.Keys
    ensures forall k :: k in indices ==> r[k] == if Rewrites(suites, k) then AddAll(indices[k], debs, k.1) else indices[k]
  {
    r := indices;
    for i := 0 to |debs|
      invariant r.Keys == indices.Keys
      invariant forall k :: k in indices && Rewrites(suites, k) ==> AddAll(r[k], debs[i..], k.1) == AddAll(indices[k], debs, k.1)
      invariant forall k :: k in indices && !Rewrites(suites, k) ==> r[k] == indices[k]
    {
      assert debs[i..][0] == debs[i] && debs[i..][1..] == debs[i + 1..];
      r := AddDeb(r, suites, debs[i]);
    }
  }

  lemma OfPackageSnoc(entries: seq<Entry>, i: nat, package: string)
    requires i < |entries|
    ensures OfPackage(entries[..i + 1], package)
         == OfPackage(entries[..i], package) + (if entries[i].package == package then [entries[i]] else [])
  {
    TakeStep(entries, i);
    assert [entries[i]][1..] == [];
    OfPackageConcat(entries[..i], [entries[i]], package);
  }

  method ByName(entries: seq<Entry>) returns (byName: map<string, seq<Entry>>)
    ensures forall p :: p in byName ==> byName[p] == OfPackage(entries, p)
    ensures forall e :: e in entries ==> e.package in byName
  {
    byName := map[];
    for i := 0 to |entries|
      invariant UnderNames(byName, entries[..i])
    {
      UnderNamesStep(byName, entries, i);
      byName := WithEntry(byName, entries[i]);
    }
    TakeAll(entries);
  }

  // Each package's entries are under its name.
  ghost predicate UnderNames(byName: map<string, seq<Entry>>, entries: seq<Entry>) {
    && (forall e :: e in entries ==> e.package in byName)
    && forall p: string :: OfPackage(entries, p) == if p in byName then byName[p] else []
  }

  function WithEntry(byName: map<string, seq<Entry>>, e: Entry): map<string, seq<Entry>> {
    byName[e.package := (if e.package in byName then byName[e.package] else []) + [e]]
  }

  lemma UnderName(byName: map<string, seq<Entry>>, entries: seq<Entry>, i: nat, q: string)
    requires i < |entries| && OfPackage(entries[..i], q) == if q in byName then byName[q] else []
    ensures var next := WithEntry(byName, entries[i]);
            OfPackage(entries[..i + 1], q) == if q in next then next[q] else []
  {
    OfPackageSnoc(entries, i, q);
  }

  lemma UnderNamesStep(byName: map<string, seq<Entry>>, entries: seq<Entry>, i: nat)
    requires i < |entries| && UnderNames(byName, entries[..i])
    ensures UnderNames(WithEntry(byName, entries[i]), entries[..i + 1])
  {
    var next := WithEntry(byName, entries[i]);
    forall q: string ensures OfPackage(entries[..i + 1], q) == if q in next then next[q] else [] {
      UnderName(byName, entries, i, q);
    }
    TakeStep(entries, i);
  }

  // The newest versions of every package, the packages in order of their names.
  method KeepNewest(entries: seq<Entry>, keep: int, rank: string -> real) returns (kept: seq<Entry>)
    ensures kept == Retained(entries, keep, rank)
  {
    var byName := ByName(entries);
    var names := SortedSet(PackagesOf(entries));
    SortedSetCorrect(PackagesOf(entries));
    kept := [];
    for i := 0 to |names|
      invariant kept == NewestOfAll(entries, names[..i], keep, rank)
    {
      assert names[..i + 1][..i] == names[..i];
      assert names[i] in byName by {
        assert names[i] in names;
        var k :| 0 <= k < |entries| && PackagesOf(entries)[k] == names[i];
        assert entries[k] in entries;
      }
      kept := kept + LastSlice(SortEntries(byName[names[i]], rank), keep);
    }
    assert names[..|names|] == names;
  }

  method RetainSuite(indices: Indices, suite: string, keep: int, rank: string -> real) returns (r: Indices)
    requires forall a :: a in ARCHITECTURES ==> (suite, a) in indices
    ensures r.Keys == indices.Keys
    ensures forall k :: k in indices ==>
              r[k] == if k.0 == suite && k.1 in ARCHITECTURES then Retained(indices[k], keep, rank) else indices[k]
  {
    r := indices;
    for i := 0 to |ARCHITECTURES|
      invariant r.Keys == indices.Keys
      invariant forall k :: k in indices ==>
                  r[k] == if k.0 == suite && k.1 in ARCHITECTURES[..i] then Retained(indices[k], keep, rank) else indices[k]
    {
      var k := (suite, ARCHITECTURES[i]);
      assert k.1 in ARCHITECTURES && k.1 !in ARCHITECTURES[..i];
      var kept := KeepNewest(r[k], keep, rank);
      r := r[k := kept];
    }
  }

  method RetainAll(indices: Indices, suites: seq<(string, int)>, rank: string -> real) returns (r: Indices)
    requires DistinctSuites(suites) && Holds(indices, suites)
    ensures r.Keys == indices.Keys
    ensures forall k :: k in indices ==>
              r[k] == if Rewrites(suites, k) then Retained(indices[k], KeepOf(suites, k.0).value, rank) else indices[k]
  {
    r := indices;
    for j := 0 to |suites|
      invariant r.Keys == indices.Keys
      invariant forall k :: k in indices ==>
                  r[k] == if Rewrites(suites[..j], k) then Retained(indices[k], KeepOf(suites[..j], k.0).value, rank) else indices[k]
    {
      forall k: (string, string) { KeepOfSnoc(suites, j, k.0); }
      r := RetainSuite(r, suites[j].0, suites[j].1, rank);
    }
    assert suites[..|suites|] == suites;
  }

  // -- the publish --------------------------------------------------------------------------------

  ghost predicate OfKnown(indices: Indices, b: Files, o: Order) {
    forall s, a :: (s, a) in indices <==> s in KnownSuites(b, o) && a in ARCHITECTURES
  }

  ghost predicate AreNew(indices: Indices, b: Files, o: Order, rank: string -> real) {
    forall k :: k in indices ==> indices[k] == NewIndex(b, o, rank, k.0, k.1)
  }

  lemma KnownHold(indices: Indices, b: Files, o: Order)
    requires OfKnown(indices, b, o)
    ensures Holds(indices, o.suites)
  {
    forall i | 0 <= i < |o.suites| ensures o.suites[i].0 in KnownSuites(b, o) {
    }
  }

  method NewIndices(b: Files, o: Order, rank: string -> real) returns (r: Indices)
    requires DistinctSuites(o.suites)
    ensures OfKnown(r, b, o) && AreNew(r, b, o, rank)
  {
    var initial := ReadAll(b, KnownSuites(b, o));
    KnownHold(initial, b, o);
    var added := AddDebs(initial, o.suites, o.debs);
    r := RetainAll(added, o.suites, rank);
    SameKeysKnown(initial, r, b, o);
    AddedAndCut(initial, added, r, b, o, rank);
  }

  lemma SameKeysKnown(before: Indices, after: Indices, b: Files, o: Order)
    requires OfKnown(before, b, o) && after.Keys == before.Keys
    ensures OfKnown(after, b, o)
  {
    forall s, a ensures (s, a) in after <==> s in KnownSuites(b, o) && a in ARCHITECTURES {
      assert (s, a) in after.Keys <==> (s, a) in before.Keys;
    }
  }

  // The indices read, those with the new packages, and those cut.
  lemma AddedAndCut(initial: Indices, added: Indices, cut: Indices, b: Files, o: Order, rank: string -> real)
    requires OfKnown(initial, b, o) && cut.Keys == added.Keys == initial.Keys
    requires forall k :: k in initial ==> initial[k] == Read(b, k.0, k.1)
    requires forall k :: k in initial ==>
               added[k] == if Rewrites(o.suites, k) then AddAll(initial[k], o.debs, k.1) else initial[k]
    requires forall k :: k in added ==>
               cut[k] == if Rewrites(o.suites, k) then Retained(added[k], KeepOf(o.suites, k.0).value, rank) else added[k]
    ensures AreNew(cut, b, o, rank)
  {
    forall k | k in cut ensures cut[k] == NewIndex(b, o, rank, k.0, k.1) {
      assert k == (k.0, k.1) && k in initial.Keys && k in added.Keys;
      assert k.1 in ARCHITECTURES;
    }
  }

  method Upload(bucket: Bucket, debs: seq<Entry>, pool: seq<string>)
    requires bucket.Valid()
    modifies bucket`files, bucket`log
    ensures bucket.Valid() && bucket.log == old(bucket.log) + Uploads(debs, pool)
  {
    for i := 0 to |debs|
      invariant bucket.Valid()
      invariant bucket.log + Uploads(debs[i..], pool) == old(bucket.log) + Uploads(debs, pool)
    {
      assert debs[i..][0] == debs[i] && debs[i..][1..] == debs[i + 1..];
      if debs[i].filename !in pool {
        bucket.Put(Pool(debs[i].filename), Blob);
      }
    }
  }

  method WriteSuite(bucket: Bucket, suite: string, indices: Indices)
    requires bucket.Valid() && forall a :: a in ARCHITECTURES ==> (suite, a) in indices
    modifies bucket`files, bucket`log
    ensures bucket.Valid()
    ensures bucket.log == old(bucket.log)
         + IndexWrites(suite, "amd64", indices[(suite, "amd64")]) + IndexWrites(suite, "arm64", indices[(suite, "arm64")])
         + [Effect.Put(Release(suite, "Release"), Blob), Effect.Put(Release(suite, "Release.gpg"), Blob), Effect.Put(Release(suite, "InRelease"), Blob)]
  {
    for i := 0 to |ARCHITECTURES|
      invariant bucket.Valid()
      invariant bucket.log == old(bucket.log)
        + (if i >= 1 then IndexWrites(suite, "amd64", indices[(suite, "amd64")]) else [])
        + (if i >= 2 then IndexWrites(suite, "arm64", indices[(suite, "arm64")]) else [])
    {
      var entries := indices[(suite, ARCHITECTURES[i])];
      bucket.Put(Index(suite, ARCHITECTURES[i], false), Entries(entries));
      bucket.Put(Index(suite, ARCHITECTURES[i], true), Entries(entries));
    }
    bucket.Put(Release(suite, "Release"), Blob);
    bucket.Put(Release(suite, "Release.gpg"), Blob);
    bucket.Put(Release(suite, "InRelease"), Blob);
  }

  method WriteOne(bucket: Bucket, ghost b: Files, o: Order, ghost rank: string -> real, suite: string, indices: Indices, ghost all: seq<Effect>)
    requires all == SuiteWrites(b, o, rank, suite)
    requires bucket.Valid() && AreNew(indices, b, o, rank)
    requires (suite, "amd64") in indices && (suite, "arm64") in indices
    modifies bucket`files, bucket`log
    ensures bucket.Valid() && bucket.log == old(bucket.log) + all
  {
    WriteSuite(bucket, suite, indices);
  }

  lemma WritesStep(b: Files, o: Order, rank: string -> real, j: nat)
    requires j < |o.suites|
    ensures Writes(b, o, rank, o.suites[j..]) == SuiteWrites(b, o, rank, o.suites[j].0) + Writes(b, o, rank, o.suites[j + 1..])
  {
    assert o.suites[j..][0] == o.suites[j] && o.suites[j..][1..] == o.suites[j + 1..];
  }

  lemma Regroup(log: seq<Effect>, x: seq<Effect>, y: seq<Effect>, z: seq<Effect>)
    ensures log + (x + y) == (log + x) + y
    ensures log + (x + y + z) == log + x + y + z
  {
  }

  lemma WritesEnd(b: Files, o: Order, rank: string -> real, n: nat)
    requires n == |o.suites|
    ensures Writes(b, o, rank, o.suites[n..]) == if o.keyring then [Effect.Put(Keyring, Blob)] else []
  {
  }

  method WriteAll(bucket: Bucket, ghost b: Files, o: Order, ghost rank: string -> real, indices: Indices, ghost all: seq<Effect>)
    requires bucket.Valid() && OfKnown(indices, b, o) && AreNew(indices, b, o, rank)
    requires all == Writes(b, o, rank, o.suites)
    modifies bucket`files, bucket`log
    ensures bucket.Valid() && bucket.log == old(bucket.log) + all
  {
    KnownHold(indices, b, o);
    ghost var rest := all;
    assert o.suites[0..] == o.suites;
    for j := 0 to |o.suites|
      invariant bucket.Valid()
      invariant rest == Writes(b, o, rank, o.suites[j..])
      invariant bucket.log + rest == old(bucket.log) + all
    {
      WritesStep(b, o, rank, j);
      assert forall a :: a in ARCHITECTURES ==> (o.suites[j].0, a) in indices;
      assert (o.suites[j].0, "amd64") in indices && (o.suites[j].0, "arm64") in indices by {
        assert "amd64" in ARCHITECTURES && "arm64" in ARCHITECTURES;
      }
      ghost var suite := SuiteWrites(b, o, rank, o.suites[j].0);
      ghost var before := bucket.log;
      WriteOne(bucket, b, o, rank, o.suites[j].0, indices, suite);
      ghost var next := Writes(b, o, rank, o.suites[j + 1..]);
      Regroup(before, suite, next, []);
      rest := next;
    }
    WritesEnd(b, o, rank, |o.suites|);
    if o.keyring {
      bucket.Put(Keyring, Blob);
    }
  }

  method DeleteStale(bucket: Bucket, pool: seq<string>, named: set<string>)
    requires bucket.Valid()
    modifies bucket`files, bucket`log
    ensures bucket.Valid() && bucket.log == old(bucket.log) + Deletes(pool, named)
  {
    for i := 0 to |pool|
      invariant bucket.Valid()
      invariant bucket.log + Deletes(pool[i..], named) == old(bucket.log) + Deletes(pool, named)
    {
      assert pool[i..][0] == pool[i] && pool[i..][1..] == pool[i + 1..];
      if pool[i] !in named {
        bucket.Delete(Pool(pool[i]));
      }
    }
  }

  lemma NamedInIndices(indices: Indices, b: Files, o: Order, rank: string -> real)
    requires OfKnown(indices, b, o) && AreNew(indices, b, o, rank)
    ensures (set k, e: Entry | k in indices && e in indices[k] :: e.filename) == Named(b, o, rank)
  {
    var named := set k, e: Entry | k in indices && e in indices[k] :: e.filename;
    forall f | f in Named(b, o, rank) ensures f in named {
      var s, a, e :| s in KnownSuites(b, o) && a in ARCHITECTURES && e in NewIndex(b, o, rank, s, a) && e.filename == f;
      assert (s, a) in indices && e in indices[(s, a)];
    }
    forall f | f in named ensures f in Named(b, o, rank) {
      var k, e :| k in indices && e in indices[k] && e.filename == f;
      assert (k.0, k.1) == k;
      assert e in NewIndex(b, o, rank, k.0, k.1);
    }
  }

  // Everything a publish does is its plan, effect by effect.
  method Perform(bucket: Bucket, o: Order, rank: string -> real) returns (ghost pool: seq<string>)
    requires bucket.Valid() && DistinctSuites(o.suites)
    modifies bucket`files, bucket`log
    ensures bucket.Valid() && Lists(pool, old(bucket.files))
    ensures bucket.log == old(bucket.log) + Plan(old(bucket.files), o, rank, pool)
  {
    ghost var b := bucket.files;
    var indices := NewIndices(bucket.files, o, rank);
    var listed := bucket.ListPool();
    pool := listed;
    Upload(bucket, o.debs, listed);
    WriteAll(bucket, b, o, rank, indices, Writes(b, o, rank, o.suites));
    var named := set k, e: Entry | k in indices && e in indices[k] :: e.filename;
    NamedInIndices(indices, b, o, rank);
    DeleteStale(bucket, listed, named);
    Regroup(old(bucket.log), Uploads(o.debs, pool), Writes(b, o, rank, o.suites), Deletes(pool, named));
  }

  // Stopping somewhere in a plan done from `b` is stopping somewhere in the whole log.
  lemma StoppedIsPrefix(origin: Files, log: seq<Effect>, b: Files, plan: seq<Effect>)
    requires Run(origin, log) == b
    ensures (forall n :: 0 <= n <= |plan| ==> Safe(Run(b, plan[..n])))
       <==> (forall n :: |log| <= n <= |log + plan| ==> Safe(Run(origin, (log + plan)[..n])))
  {
    forall n | 0 <= n <= |plan| ensures Run(origin, (log + plan)[..|log| + n]) == Run(b, plan[..n]) {
      assert (log + plan)[..|log| + n] == log + plan[..n];
      RunConcat(origin, log, plan[..n]);
    }
    if forall n :: 0 <= n <= |plan| ==> Safe(Run(b, plan[..n])) {
      forall n | |log| <= n <= |log + plan| ensures Safe(Run(origin, (log + plan)[..n])) {
        assert Safe(Run(b, plan[..n - |log|]));
        assert |log| + (n - |log|) == n;
      }
    }
    if forall n :: |log| <= n <= |log + plan| ==> Safe(Run(origin, (log + plan)[..n])) {
      forall n | 0 <= n <= |plan| ensures Safe(Run(b, plan[..n])) {
        assert Safe(Run(origin, (log + plan)[..|log| + n]));
      }
    }
  }

  // And wherever it stops, a bucket that was safe stays safe exactly when the indices it does
  // not read agree with those it does.
  method PublishDebs(bucket: Bucket, o: Order, rank: string -> real) returns (ghost pool: seq<string>)
    requires bucket.Valid() && DistinctSuites(o.suites)
    modifies bucket`files, bucket`log
    ensures bucket.Valid() && Lists(pool, old(bucket.files))
    ensures bucket.log == old(bucket.log) + Plan(old(bucket.files), o, rank, pool)
    ensures bucket.files == Published(old(bucket.files), o, rank, pool)
    ensures Safe(old(bucket.files)) ==>
              (UnreadAgree(old(bucket.files), o, rank, pool) <==>
               forall n :: |old(bucket.log)| <= n <= |bucket.log| ==> Safe(Run(bucket.origin, bucket.log[..n])))
  {
    ghost var b, log := bucket.files, bucket.log;
    pool := Perform(bucket, o, rank);
    ghost var plan := Plan(b, o, rank, pool);
    RunConcat(bucket.origin, log, plan);
    if Safe(b) {
      PublishSafe(b, o, rank, pool);
      StoppedIsPrefix(bucket.origin, log, b, plan);
    }
  }
}
