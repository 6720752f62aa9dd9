/** A whole publish, stopped anywhere: which indices name only packages that are there
    (packaging/repo/publish.py, publish_debs). */
module Publisher {
  import opened Common
  import opened Publishing

  // What a publish is asked to do: suites with the versions to keep, and packages to add.
  datatype Order = Order(suites: seq<(string, int)>, debs: seq<Entry>, keyring: bool)

  function KeepOf(suites: seq<(string, int)>, suite: string): Option<int> {
    if suites == [] then None
    else if suites[0].0 == suite then Some(suites[0].1)
    else KeepOf(suites[1..], suite)
  }

  // -- the new indices ---------------------------------------------------------------------------

  function Read(b: Files, suite: string, arch: string): seq<Entry> {
    var key := Index(suite, arch, false);
    if key in b && b[key].Entries? then b[key].entries else []
  }

  function Others(entries: seq<Entry>, filename: string): seq<Entry> {
    if entries == [] then []
    else (if entries[0].filename != filename then [entries[0]] else []) + Others(entries[1..], filename)
  }

  function Add(entries: seq<Entry>, deb: Entry, arch: string): seq<Entry> {
    if deb.architecture == arch || deb.architecture == "all" then Others(entries, deb.filename) + [deb] else entries
  }

  function AddAll(entries: seq<Entry>, debs: seq<Entry>, arch: string): seq<Entry>
    decreases debs
  {
    if debs == [] then entries else AddAll(Add(entries, debs[0], arch), debs[1..], arch)
  }

  function NewIndex(b: Files, o: Order, rank: string -> real, suite: string, arch: string): seq<Entry> {
    var keep := KeepOf(o.suites, suite);
    if keep.Some? then Retained(AddAll(Read(b, suite, arch), o.debs, arch), keep.value, rank)
    else Read(b, suite, arch)
  }

  lemma {:induction false} OthersExact(entries: seq<Entry>, filename: string)
    ensures forall e :: e in Others(entries, filename) <==> e in entries && e.filename != filename
  {
    if entries != [] {
      OthersExact(entries[1..], filename);
      assert entries == [entries[0]] + entries[1..];
    }
  }

  lemma {:induction false} AddAllFrom(entries: seq<Entry>, debs: seq<Entry>, arch: string)
    ensures forall e :: e in AddAll(entries, debs, arch) ==> e in entries || e in debs
    decreases debs
  {
    if debs != [] {
      OthersExact(entries, debs[0].filename);
      AddAllFrom(Add(entries, debs[0], arch), debs[1..], arch);
    }
  }

  predicate ForArch(deb: Entry, arch: string) {
    deb.architecture == arch || deb.architecture == "all"
  }

  // Added last under its file's name.
  ghost predicate AddedLast(debs: seq<Entry>, arch: string, e: Entry) {
    exists i :: 0 <= i < |debs| && debs[i] == e && ForArch(e, arch)
                && forall j :: i < j < |debs| && ForArch(debs[j], arch) ==> debs[j].filename != e.filename
  }

  ghost predicate NoneAdded(debs: seq<Entry>, arch: string, filename: string) {
    forall d :: d in debs && ForArch(d, arch) ==> d.filename != filename
  }

  lemma AddedLater(debs: seq<Entry>, arch: string, e: Entry)
    requires debs != [] && AddedLast(debs[1..], arch, e)
    ensures AddedLast(debs, arch, e)
  {
    var rest := debs[1..];
    var i :| 0 <= i < |rest| && rest[i] == e && ForArch(e, arch)
             && forall j :: i < j < |rest| && ForArch(rest[j], arch) ==> rest[j].filename != e.filename;
    assert debs[i + 1] == e;
    forall j | i + 1 < j < |debs| && ForArch(debs[j], arch) ensures debs[j].filename != e.filename {
      assert debs[j] == rest[j - 1];
    }
  }

  lemma AddedFirst(debs: seq<Entry>, arch: string, e: Entry)
    requires debs != [] && debs[0] == e && ForArch(e, arch) && NoneAdded(debs[1..], arch, e.filename)
    ensures AddedLast(debs, arch, e)
  {
    forall j | 0 < j < |debs| && ForArch(debs[j], arch) ensures debs[j].filename != e.filename {
      assert debs[j] in debs[1..];
    }
  }

  lemma AddedSomewhere(debs: seq<Entry>, arch: string, e: Entry)
    requires debs != [] && AddedLast(debs, arch, e)
    ensures AddedLast(debs[1..], arch, e) || (debs[0] == e && ForArch(e, arch) && NoneAdded(debs[1..], arch, e.filename))
  {
    var rest := debs[1..];
    var i :| 0 <= i < |debs| && debs[i] == e && ForArch(e, arch)
             && forall j :: i < j < |debs| && ForArch(debs[j], arch) ==> debs[j].filename != e.filename;
    if i > 0 {
      assert rest[i - 1] == e;
      forall j | i - 1 < j < |rest| && ForArch(rest[j], arch) ensures rest[j].filename != e.filename {
        assert rest[j] == debs[j + 1];
      }
    } else {
      forall d | d in rest && ForArch(d, arch) ensures d.filename != e.filename {
        var j :| 0 <= j < |rest| && rest[j] == d;
        assert debs[j + 1] == d;
      }
    }
  }

  lemma AddedLastStep(debs: seq<Entry>, arch: string, e: Entry)
    requires debs != []
    ensures AddedLast(debs, arch, e) <==>
              AddedLast(debs[1..], arch, e) || (debs[0] == e && ForArch(e, arch) && NoneAdded(debs[1..], arch, e.filename))
    ensures NoneAdded(debs, arch, e.filename) <==>
              NoneAdded(debs[1..], arch, e.filename) && (ForArch(debs[0], arch) ==> debs[0].filename != e.filename)
  {
    assert debs == [debs[0]] + debs[1..];
    if AddedLast(debs, arch, e) {
      AddedSomewhere(debs, arch, e);
    } else if AddedLast(debs[1..], arch, e) {
      AddedLater(debs, arch, e);
    } else if debs[0] == e && ForArch(e, arch) && NoneAdded(debs[1..], arch, e.filename) {
      AddedFirst(debs, arch, e);
    }
  }

  // What an index has with the new packages of its architecture, or of all: of each file's name
  // the last one added, and where none is, what it had.
  lemma {:induction false} AddAllExact(entries: seq<Entry>, debs: seq<Entry>, arch: string, e: Entry)
    ensures e in AddAll(entries, debs, arch) <==>
              AddedLast(debs, arch, e) || (e in entries && NoneAdded(debs, arch, e.filename))
    decreases debs
  {
    if debs != [] {
      OthersExact(entries, debs[0].filename);
      AddAllExact(Add(entries, debs[0], arch), debs[1..], arch, e);
      AddedLastStep(debs, arch, e);
    }
  }

  lemma NewIndexFrom(b: Files, o: Order, rank: string -> real, suite: string, arch: string)
    ensures forall e :: e in NewIndex(b, o, rank, suite, arch) ==> e in Read(b, suite, arch) || e in o.debs
  {
    var all := AddAll(Read(b, suite, arch), o.debs, arch);
    AddAllFrom(Read(b, suite, arch), o.debs, arch);
    if KeepOf(o.suites, suite).Some? {
      RetainedExact(all, KeepOf(o.suites, suite).value, rank, "");
    }
  }

  // -- the effects, in order ------------------------------------------------------------------------

  predicate IsDeb(path: string) {
    |path| >= 4 && path[|path| - 4..] == ".deb"
  }

  // The pool as it was listed at the start.
  ghost predicate Lists(pool: seq<string>, b: Files) {
    forall f :: f in pool <==> Pool(f) in b && IsDeb(f)
  }

  function Uploads(debs: seq<Entry>, pool: seq<string>): seq<Effect> {
    if debs == [] then []
    else (if debs[0].filename !in pool then [Put(Pool(debs[0].filename), Blob)] else []) + Uploads(debs[1..], pool)
  }

  function IndexWrites(suite: string, arch: string, entries: seq<Entry>): seq<Effect> {
    [Put(Index(suite, arch, false), Entries(entries)), Put(Index(suite, arch, true), Entries(entries))]
  }

  function SuiteWrites(b: Files, o: Order, rank: string -> real, suite: string): seq<Effect> {
    IndexWrites(suite, "amd64", NewIndex(b, o, rank, suite, "amd64"))
    + IndexWrites(suite, "arm64", NewIndex(b, o, rank, suite, "arm64"))
    + [Put(Release(suite, "Release"), Blob), Put(Release(suite, "Release.gpg"), Blob), Put(Release(suite, "InRelease"), Blob)]
  }

  function Writes(b: Files, o: Order, rank: string -> real, suites: seq<(string, int)>): seq<Effect>
    decreases suites
  {
    if suites == [] then (if o.keyring then [Put(Keyring, Blob)] else [])
    else SuiteWrites(b, o, rank, suites[0].0) + Writes(b, o, rank, suites[1..])
  }

  function KnownSuites(b: Files, o: Order): set<string> {
    (set k | k in b && k.Index? :: k.suite) + (set i | 0 <= i < |o.suites| :: o.suites[i].0)
  }

  // The packages some suite names once the publish is done.
  function Named(b: Files, o: Order, rank: string -> real): set<string> {
    set s, a, e | s in KnownSuites(b, o) && a in ARCHITECTURES && e in NewIndex(b, o, rank, s, a) :: e.filename
  }

  function Deletes(pool: seq<string>, named: set<string>): seq<Effect> {
    if pool == [] then []
    else (if pool[0] !in named then [Delete(Pool(pool[0]))] else []) + Deletes(pool[1..], named)
  }

  function Plan(b: Files, o: Order, rank: string -> real, pool: seq<string>): seq<Effect> {
    Uploads(o.debs, pool) + Writes(b, o, rank, o.suites) + Deletes(pool, Named(b, o, rank))
  }

  // -- safety -------------------------------------------------------------------------------------------

  ghost predicate AllHere(entries: seq<Entry>, b: Files) {
    forall e :: e in entries ==> Pool(e.filename) in b
  }

  // Every index, in every suite, names only packages the pool has.
  ghost predicate Safe(b: Files) {
    forall k :: k in b && k.Index? && b[k].Entries? ==> AllHere(b[k].entries, b)
  }

  lemma {:induction false} RunConcat(b: Files, x: seq<Effect>, y: seq<Effect>)
    ensures Run(b, x + y) == Run(Run(b, x), y)
    decreases x
  {
    if x == [] {
      assert x + y == y;
    } else {
      assert (x + y)[1..] == x[1..] + y;
      RunConcat(Apply(b, x[0]), x[1..], y);
    }
  }

  ghost predicate UploadsOnly(effects: seq<Effect>) {
    forall e :: e in effects ==> e.Put? && e.key.Pool? && e.content == Blob
  }

  lemma {:induction false} UploadsKeep(b: Files, effects: seq<Effect>)
    requires UploadsOnly(effects)
    ensures Safe(b) ==> Safe(Run(b, effects))
    ensures forall k: Key :: !k.Pool? ==> (k in Run(b, effects) <==> k in b) && (k in b ==> Run(b, effects)[k] == b[k])
    ensures forall k: Key :: k.Pool? ==> (k in Run(b, effects) <==> k in b || exists e :: e in effects && e.key == k)
    decreases effects
  {
    if effects != [] {
      assert effects == [effects[0]] + effects[1..];
      UploadsKeep(Apply(b, effects[0]), effects[1..]);
    }
  }

  // Every write is of an index whose packages are all here, or of another file outside the pool.
  ghost predicate WritesOnly(effects: seq<Effect>, b: Files) {
    forall e :: e in effects ==> e.Put? && !e.key.Pool? && (e.content.Entries? ==> AllHere(e.content.entries, b))
  }

  lemma {:induction false} WritesKeep(b: Files, effects: seq<Effect>)
    requires WritesOnly(effects, b)
    ensures Safe(b) ==> Safe(Run(b, effects))
    ensures forall k: Key :: k.Pool? ==> (k in Run(b, effects) <==> k in b)
    decreases effects
  {
    if effects != [] {
      assert effects == [effects[0]] + effects[1..];
      var b' := Apply(b, effects[0]);
      assert WritesOnly(effects[1..], b') by {
        forall e | e in effects[1..] && e.content.Entries? ensures AllHere(e.content.entries, b') {
          assert AllHere(e.content.entries, b);
        }
      }
      if Safe(b) {
        forall k | k in b' && k.Index? && b'[k].Entries? ensures AllHere(b'[k].entries, b') {
          if k != effects[0].key { assert AllHere(b[k].entries, b); }
        }
      }
      WritesKeep(b', effects[1..]);
    }
  }

  // What a key holds after writes that agree on it.
  lemma {:induction false} WrittenLast(b: Files, effects: seq<Effect>, k: Key, c: Content)
    requires forall e :: e in effects ==> e.Put? && (e.key == k ==> e.content == c)
    ensures var written := exists e :: e in effects && e.key == k;
            && (written ==> k in Run(b, effects) && Run(b, effects)[k] == c)
            && (!written ==> (k in Run(b, effects) <==> k in b) && (k in b ==> Run(b, effects)[k] == b[k]))
    decreases effects
  {
    if effects != [] {
      assert effects == [effects[0]] + effects[1..];
      WrittenLast(Apply(b, effects[0]), effects[1..], k, c);
    }
  }

  ghost predicate DeletesOnly(effects: seq<Effect>) {
    forall e :: e in effects ==> e.Delete? && e.key.Pool?
  }

  lemma {:induction false} DeletesExact(b: Files, effects: seq<Effect>)
    requires DeletesOnly(effects)
    ensures forall k :: k in Run(b, effects) <==> k in b && Delete(k) !in effects
    ensures forall k :: k in Run(b, effects) ==> Run(b, effects)[k] == b[k]
    decreases effects
  {
    if effects != [] {
      assert effects == [effects[0]] + effects[1..];
      DeletesExact(Apply(b, effects[0]), effects[1..]);
    }
  }

  // -- what the plan's three parts hold ---------------------------------------------------------------

  lemma {:induction false} UploadsExact(debs: seq<Entry>, pool: seq<string>)
    ensures UploadsOnly(Uploads(debs, pool))
    ensures forall f :: Put(Pool(f), Blob) in Uploads(debs, pool) <==> f !in pool && exists d :: d in debs && d.filename == f
  {
    if debs != [] {
      UploadsExact(debs[1..], pool);
      assert debs == [debs[0]] + debs[1..];
    }
  }

  // A write outside the pool; an index gets its new entries.
  ghost predicate RightWrite(e: Effect, b: Files, o: Order, rank: string -> real) {
    && e.Put? && !e.key.Pool?
    && (e.key.Index? ==>
          && KeepOf(o.suites, e.key.suite).Some? && e.key.arch in ARCHITECTURES
          && e.content == Entries(NewIndex(b, o, rank, e.key.suite, e.key.arch)))
    && (!e.key.Index? ==> e.content == Blob)
  }

  lemma SuiteWritesExact(b: Files, o: Order, rank: string -> real, suite: string)
    requires KeepOf(o.suites, suite).Some?
    ensures forall e :: e in SuiteWrites(b, o, rank, suite) ==> RightWrite(e, b, o, rank)
    ensures forall a, gz :: a in ARCHITECTURES ==>
              Put(Index(suite, a, gz), Entries(NewIndex(b, o, rank, suite, a))) in SuiteWrites(b, o, rank, suite)
  {
    var writes := SuiteWrites(b, o, rank, suite);
    assert writes[0] == Put(Index(suite, "amd64", false), Entries(NewIndex(b, o, rank, suite, "amd64")));
    assert writes[1] == Put(Index(suite, "amd64", true), Entries(NewIndex(b, o, rank, suite, "amd64")));
    assert writes[2] == Put(Index(suite, "arm64", false), Entries(NewIndex(b, o, rank, suite, "arm64")));
    assert writes[3] == Put(Index(suite, "arm64", true), Entries(NewIndex(b, o, rank, suite, "arm64")));
    assert forall i :: 0 <= i < 7 ==> RightWrite(writes[i], b, o, rank);
  }

  lemma {:induction false} KeepOfIff(suites: seq<(string, int)>, suite: string)
    ensures KeepOf(suites, suite).Some? <==> exists i :: 0 <= i < |suites| && suites[i].0 == suite
  {
    if suites != [] {
      KeepOfIff(suites[1..], suite);
      if i :| 0 <= i < |suites| && suites[i].0 == suite {
        if i > 0 { assert suites[1..][i - 1].0 == suite; }
      }
      if i :| 0 <= i < |suites[1..]| && suites[1..][i].0 == suite {
        assert suites[i + 1].0 == suite;
      }
    }
  }

  lemma {:induction false} WritesExact(b: Files, o: Order, rank: string -> real, suites: seq<(string, int)>)
    requires forall i :: 0 <= i < |suites| ==> KeepOf(o.suites, suites[i].0).Some?
    ensures forall e :: e in Writes(b, o, rank, suites) ==> RightWrite(e, b, o, rank)
    ensures forall i, a, gz :: 0 <= i < |suites| && a in ARCHITECTURES ==>
              Put(Index(suites[i].0, a, gz), Entries(NewIndex(b, o, rank, suites[i].0, a))) in Writes(b, o, rank, suites)
    decreases suites
  {
    if suites != [] {
      SuiteWritesExact(b, o, rank, suites[0].0);
      forall i | 0 <= i < |suites[1..]| ensures KeepOf(o.suites, suites[1..][i].0).Some? {
        assert suites[i + 1] == suites[1..][i];
      }
      WritesExact(b, o, rank, suites[1..]);
      forall i, a, gz | 0 <= i < |suites| && a in ARCHITECTURES
        ensures Put(Index(suites[i].0, a, gz), Entries(NewIndex(b, o, rank, suites[i].0, a))) in Writes(b, o, rank, suites)
      {
        if i > 0 { assert suites[1..][i - 1] == suites[i]; }
      }
    }
  }

  lemma {:induction false} DeletesAre(pool: seq<string>, named: set<string>)
    ensures DeletesOnly(Deletes(pool, named))
    ensures forall f :: Delete(Pool(f)) in Deletes(pool, named) <==> f in pool && f !in named
  {
    if pool != [] {
      DeletesAre(pool[1..], named);
      assert pool == [pool[0]] + pool[1..];
    }
  }

  // -- the bucket after each part -----------------------------------------------------------------------

  function Uploaded(b: Files, o: Order, pool: seq<string>): Files {
    Run(b, Uploads(o.debs, pool))
  }

  function Written(b: Files, o: Order, rank: string -> real, pool: seq<string>): Files {
    Run(Uploaded(b, o, pool), Writes(b, o, rank, o.suites))
  }

  function Published(b: Files, o: Order, rank: string -> real, pool: seq<string>): Files {
    Run(b, Plan(b, o, rank, pool))
  }

  lemma PublishedInParts(b: Files, o: Order, rank: string -> real, pool: seq<string>)
    ensures Published(b, o, rank, pool) == Run(Written(b, o, rank, pool), Deletes(pool, Named(b, o, rank)))
  {
    var u, w, d := Uploads(o.debs, pool), Writes(b, o, rank, o.suites), Deletes(pool, Named(b, o, rank));
    RunConcat(b, u + w, d);
    RunConcat(b, u, w);
  }

  lemma UploadedPool(b: Files, o: Order, pool: seq<string>)
    requires Lists(pool, b)
    ensures forall f :: Pool(f) in Uploaded(b, o, pool) <==> Pool(f) in b || (f !in pool && exists d :: d in o.debs && d.filename == f)
  {
    UploadsExact(o.debs, pool);
    UploadsKeep(b, Uploads(o.debs, pool));
    forall f ensures Pool(f) in Uploaded(b, o, pool) <==> Pool(f) in b || (f !in pool && exists d :: d in o.debs && d.filename == f) {
      if e :| e in Uploads(o.debs, pool) && e.key == Pool(f) {
        assert e == Put(Pool(f), Blob);
      }
    }
  }

  // A new index names only packages that were there or have just been uploaded.
  lemma NewIndexHere(b: Files, o: Order, rank: string -> real, pool: seq<string>, suite: string, arch: string)
    requires Lists(pool, b) && Safe(b)
    ensures AllHere(NewIndex(b, o, rank, suite, arch), Uploaded(b, o, pool))
  {
    NewIndexFrom(b, o, rank, suite, arch);
    UploadedPool(b, o, pool);
    forall e | e in NewIndex(b, o, rank, suite, arch) ensures Pool(e.filename) in Uploaded(b, o, pool) {
      if e in Read(b, suite, arch) {
        assert AllHere(b[Index(suite, arch, false)].entries, b);
      }
    }
  }

  lemma WritesAreRight(b: Files, o: Order, rank: string -> real)
    ensures forall e :: e in Writes(b, o, rank, o.suites) ==> RightWrite(e, b, o, rank)
  {
    forall i | 0 <= i < |o.suites| ensures KeepOf(o.suites, o.suites[i].0).Some? {
      KeepOfIff(o.suites, o.suites[i].0);
    }
    WritesExact(b, o, rank, o.suites);
  }

  lemma WritesOfPlan(b: Files, o: Order, rank: string -> real, pool: seq<string>)
    requires Lists(pool, b) && Safe(b)
    ensures WritesOnly(Writes(b, o, rank, o.suites), Uploaded(b, o, pool))
  {
    WritesAreRight(b, o, rank);
    forall e | e in Writes(b, o, rank, o.suites) && e.content.Entries? ensures AllHere(e.content.entries, Uploaded(b, o, pool)) {
      assert RightWrite(e, b, o, rank);
      NewIndexHere(b, o, rank, pool, e.key.suite, e.key.arch);
    }
  }

  // The indices a publish writes: those of its suites.
  predicate Rewritten(k: Key, o: Order) {
    k.Index? && KeepOf(o.suites, k.suite).Some? && k.arch in ARCHITECTURES
  }

  lemma WrittenIndex(b: Files, o: Order, rank: string -> real, pool: seq<string>, k: Key)
    requires Lists(pool, b) && k.Index?
    ensures var w := Written(b, o, rank, pool);
            if Rewritten(k, o) then k in w && w[k] == Entries(NewIndex(b, o, rank, k.suite, k.arch))
            else (k in w <==> k in b) && (k in b ==> w[k] == b[k])
  {
    var writes := Writes(b, o, rank, o.suites);
    WritesAreRight(b, o, rank);
    UploadsExact(o.debs, pool);
    UploadsKeep(b, Uploads(o.debs, pool));
    var c := Entries(NewIndex(b, o, rank, k.suite, k.arch));
    forall e | e in writes ensures e.Put? && (e.key == k ==> e.content == c) {
      assert RightWrite(e, b, o, rank);
    }
    WrittenLast(Uploaded(b, o, pool), writes, k, c);
    if Rewritten(k, o) {
      forall i | 0 <= i < |o.suites| ensures KeepOf(o.suites, o.suites[i].0).Some? {
        KeepOfIff(o.suites, o.suites[i].0);
      }
      WritesExact(b, o, rank, o.suites);
      KeepOfIff(o.suites, k.suite);
      var i :| 0 <= i < |o.suites| && o.suites[i].0 == k.suite;
      assert Put(Index(o.suites[i].0, k.arch, k.gz), c) in writes;
    } else {
      forall e | e in writes ensures e.key != k {
        assert RightWrite(e, b, o, rank);
      }
    }
  }

  // -- stopped anywhere -------------------------------------------------------------------------------------

  // The indices a publish neither writes nor reads: the compressed ones of other suites, and
  // any for an architecture it does not know.
  predicate Unread(k: Key, o: Order) {
    k.Index? && !Rewritten(k, o) && !(k.arch in ARCHITECTURES && !k.gz)
  }

  // No package that will be deleted is named by an index that is not read.
  ghost predicate UnreadAgree(b: Files, o: Order, rank: string -> real, pool: seq<string>) {
    forall k :: k in b && Unread(k, o) && b[k].Entries? ==>
      forall e :: e in b[k].entries ==> !(e.filename in pool && e.filename !in Named(b, o, rank))
  }

  lemma InNamed(b: Files, o: Order, rank: string -> real, suite: string, arch: string, e: Entry)
    requires arch in ARCHITECTURES && e in NewIndex(b, o, rank, suite, arch)
    requires KeepOf(o.suites, suite).Some? || exists gz :: Index(suite, arch, gz) in b
    ensures e.filename in Named(b, o, rank)
  {
    if KeepOf(o.suites, suite).Some? {
      KeepOfIff(o.suites, suite);
      var i :| 0 <= i < |o.suites| && o.suites[i].0 == suite;
      assert suite in (set i | 0 <= i < |o.suites| :: o.suites[i].0);
    } else {
      var gz :| Index(suite, arch, gz) in b;
      assert Index(suite, arch, gz).suite in (set k | k in b && k.Index? :: k.suite);
    }
    assert suite in KnownSuites(b, o);
  }

  // No index that a publish leaves behind names what it deletes.
  lemma WrittenNamesNothingStale(b: Files, o: Order, rank: string -> real, pool: seq<string>, k: Key, e: Entry)
    requires Lists(pool, b) && Safe(b) && UnreadAgree(b, o, rank, pool)
    requires var w := Written(b, o, rank, pool); k in w && k.Index? && w[k].Entries? && e in w[k].entries
    ensures !(e.filename in pool && e.filename !in Named(b, o, rank))
  {
    WrittenIndex(b, o, rank, pool, k);
    if Rewritten(k, o) {
      InNamed(b, o, rank, k.suite, k.arch, e);
    } else if !Unread(k, o) {
      assert NewIndex(b, o, rank, k.suite, k.arch) == Read(b, k.suite, k.arch) == b[k].entries;
      assert Index(k.suite, k.arch, false) in b;
      InNamed(b, o, rank, k.suite, k.arch, e);
    }
  }

  lemma PrefixOf(x: seq<Effect>, y: seq<Effect>, n: nat)
    requires n <= |x| + |y|
    ensures (x + y)[..n] == if n <= |x| then x[..n] else x + y[..n - |x|]
  {
  }

  lemma SafeWhileUploading(b: Files, o: Order, pool: seq<string>, n: nat)
    requires Safe(b) && n <= |Uploads(o.debs, pool)|
    ensures Safe(Run(b, Uploads(o.debs, pool)[..n]))
  {
    UploadsExact(o.debs, pool);
    UploadsKeep(b, Uploads(o.debs, pool)[..n]);
  }

  lemma SafeWhileWriting(b: Files, o: Order, rank: string -> real, pool: seq<string>, n: nat)
    requires Lists(pool, b) && Safe(b) && n <= |Writes(b, o, rank, o.suites)|
    ensures Safe(Run(Uploaded(b, o, pool), Writes(b, o, rank, o.suites)[..n]))
  {
    var writes := Writes(b, o, rank, o.suites);
    WritesOfPlan(b, o, rank, pool);
    UploadsExact(o.debs, pool);
    UploadsKeep(b, Uploads(o.debs, pool));
    WritesKeep(Uploaded(b, o, pool), writes[..n]);
  }

  lemma SafeWhileDeleting(b: Files, o: Order, rank: string -> real, pool: seq<string>, n: nat)
    requires Lists(pool, b) && Safe(b) && UnreadAgree(b, o, rank, pool)
    requires n <= |Deletes(pool, Named(b, o, rank))|
    ensures Safe(Run(Written(b, o, rank, pool), Deletes(pool, Named(b, o, rank))[..n]))
  {
    var w := Written(b, o, rank, pool);
    var deletes := Deletes(pool, Named(b, o, rank));
    SafeWhileWriting(b, o, rank, pool, |Writes(b, o, rank, o.suites)|);
    assert Writes(b, o, rank, o.suites)[..|Writes(b, o, rank, o.suites)|] == Writes(b, o, rank, o.suites);
    DeletesAre(pool, Named(b, o, rank));
    DeletesExact(w, deletes[..n]);
    var after := Run(w, deletes[..n]);
    forall k | k in after && k.Index? && after[k].Entries? ensures AllHere(after[k].entries, after) {
      assert AllHere(w[k].entries, w);
      forall e | e in after[k].entries ensures Pool(e.filename) in after {
        WrittenNamesNothingStale(b, o, rank, pool, k, e);
      }
    }
  }

  // Somewhere in three lists one after the other.
  lemma Somewhere(b: Files, u: seq<Effect>, w: seq<Effect>, d: seq<Effect>, n: nat)
    requires n <= |u| + |w| + |d|
    ensures n <= |u| ==> Run(b, (u + w + d)[..n]) == Run(b, u[..n])
    ensures |u| < n <= |u| + |w| ==> Run(b, (u + w + d)[..n]) == Run(Run(b, u), w[..n - |u|])
    ensures n > |u| + |w| ==> Run(b, (u + w + d)[..n]) == Run(Run(Run(b, u), w), d[..n - |u| - |w|])
  {
    PrefixOf(u + w, d, n);
    if n <= |u| + |w| {
      PrefixOf(u, w, n);
      if n > |u| { RunConcat(b, u, w[..n - |u|]); }
    } else {
      RunConcat(b, u + w, d[..n - |u| - |w|]);
      RunConcat(b, u, w);
    }
  }

  lemma SafeThroughout(b: Files, u: seq<Effect>, w: seq<Effect>, d: seq<Effect>, n: nat)
    requires n <= |u| + |w| + |d|
    requires forall k :: 0 <= k <= |u| ==> Safe(Run(b, u[..k]))
    requires forall k :: 0 <= k <= |w| ==> Safe(Run(Run(b, u), w[..k]))
    requires forall k :: 0 <= k <= |d| ==> Safe(Run(Run(Run(b, u), w), d[..k]))
    ensures Safe(Run(b, (u + w + d)[..n]))
  {
    Somewhere(b, u, w, d, n);
  }

  // Stopped after any effect, every index names only packages that are there.
  lemma SafeWhereverStopped(b: Files, o: Order, rank: string -> real, pool: seq<string>, n: nat)
    requires Lists(pool, b) && Safe(b) && UnreadAgree(b, o, rank, pool)
    requires n <= |Plan(b, o, rank, pool)|
    ensures Safe(Run(b, Plan(b, o, rank, pool)[..n]))
  {
    var u, w, d := Uploads(o.debs, pool), Writes(b, o, rank, o.suites), Deletes(pool, Named(b, o, rank));
    forall k | 0 <= k <= |u| ensures Safe(Run(b, u[..k])) {
      SafeWhileUploading(b, o, pool, k);
    }
    forall k | 0 <= k <= |w| ensures Safe(Run(Run(b, u), w[..k])) {
      SafeWhileWriting(b, o, rank, pool, k);
    }
    forall k | 0 <= k <= |d| ensures Safe(Run(Run(Run(b, u), w), d[..k])) {
      SafeWhileDeleting(b, o, rank, pool, k);
    }
    SafeThroughout(b, u, w, d, n);
  }

  // An index that is not read and names a package to be deleted is left dangling.
  lemma UnreadDangles(b: Files, o: Order, rank: string -> real, pool: seq<string>, k: Key, e: Entry)
    requires Lists(pool, b) && Safe(b)
    requires k in b && Unread(k, o) && b[k].Entries? && e in b[k].entries
    requires e.filename in pool && e.filename !in Named(b, o, rank)
    ensures !Safe(Published(b, o, rank, pool))
  {
    PublishedInParts(b, o, rank, pool);
    WrittenIndex(b, o, rank, pool, k);
    DeletesAre(pool, Named(b, o, rank));
    DeletesExact(Written(b, o, rank, pool), Deletes(pool, Named(b, o, rank)));
    var after := Published(b, o, rank, pool);
    assert Delete(Pool(e.filename)) in Deletes(pool, Named(b, o, rank));
    assert Pool(e.filename) !in after;
    assert k in after && after[k] == b[k];
  }

  // A publish may be stopped anywhere without harm exactly when the indices it does not read
  // agree with those it does.
  lemma PublishSafe(b: Files, o: Order, rank: string -> real, pool: seq<string>)
    requires Lists(pool, b) && Safe(b)
    ensures (forall n :: 0 <= n <= |Plan(b, o, rank, pool)| ==> Safe(Run(b, Plan(b, o, rank, pool)[..n])))
      <==> UnreadAgree(b, o, rank, pool)
  {
    var plan := Plan(b, o, rank, pool);
    if UnreadAgree(b, o, rank, pool) {
      forall n | 0 <= n <= |plan| ensures Safe(Run(b, plan[..n])) {
        SafeWhereverStopped(b, o, rank, pool, n);
      }
    } else {
      var k :| k in b && Unread(k, o) && b[k].Entries? && exists e :: e in b[k].entries && e.filename in pool && e.filename !in Named(b, o, rank);
      var e :| e in b[k].entries && e.filename in pool && e.filename !in Named(b, o, rank);
      UnreadDangles(b, o, rank, pool, k, e);
      assert plan[..|plan|] == plan;
    }
  }

  // -- completed ----------------------------------------------------------------------------------------------

  // A completed publish deletes exactly the packages pooled before that no suite names, and
  // adds exactly the new ones that were not there.
  lemma PublishedPool(b: Files, o: Order, rank: string -> real, pool: seq<string>, f: string)
    requires Lists(pool, b)
    ensures Pool(f) in Published(b, o, rank, pool) <==>
              || (Pool(f) in b && !(IsDeb(f) && f !in Named(b, o, rank)))
              || (Pool(f) !in b && exists d :: d in o.debs && d.filename == f)
  {
    PublishedInParts(b, o, rank, pool);
    UploadedPool(b, o, pool);
    WritesAreRight(b, o, rank);
    forall e | e in Writes(b, o, rank, o.suites) ensures e.Put? && e.key != Pool(f) {
      assert RightWrite(e, b, o, rank);
    }
    WrittenLast(Uploaded(b, o, pool), Writes(b, o, rank, o.suites), Pool(f), Blob);
    DeletesAre(pool, Named(b, o, rank));
    DeletesExact(Written(b, o, rank, pool), Deletes(pool, Named(b, o, rank)));
  }

  // Each index of a published suite holds, of every package, its newest versions among what it
  // had and what was added; both forms of the index agree.
  lemma PublishedIndex(b: Files, o: Order, rank: string -> real, pool: seq<string>, suite: string, arch: string, gz: bool, package: string)
    requires Lists(pool, b) && KeepOf(o.suites, suite).Some? && arch in ARCHITECTURES
    ensures var after := Published(b, o, rank, pool);
            var candidates := AddAll(Read(b, suite, arch), o.debs, arch);
            && Index(suite, arch, gz) in after && after[Index(suite, arch, gz)].Entries?
            && OfPackage(after[Index(suite, arch, gz)].entries, package)
               == Newest(candidates, package, KeepOf(o.suites, suite).value, rank)
  {
    PublishedInParts(b, o, rank, pool);
    WrittenIndex(b, o, rank, pool, Index(suite, arch, gz));
    DeletesAre(pool, Named(b, o, rank));
    DeletesExact(Written(b, o, rank, pool), Deletes(pool, Named(b, o, rank)));
    RetainedExact(AddAll(Read(b, suite, arch), o.debs, arch), KeepOf(o.suites, suite).value, rank, package);
  }

  // What stays of the packages pooled before is named by an index.
  lemma KeptIsNamed(b: Files, o: Order, rank: string -> real, pool: seq<string>, f: string) returns (k: Key, e: Entry)
    requires Lists(pool, b) && Pool(f) in b && IsDeb(f) && Pool(f) in Published(b, o, rank, pool)
    ensures var after := Published(b, o, rank, pool);
            k.Index? && k in after && after[k].Entries? && e in after[k].entries && e.filename == f
  {
    PublishedPool(b, o, rank, pool, f);
    var s, a, x :| s in KnownSuites(b, o) && a in ARCHITECTURES && x in NewIndex(b, o, rank, s, a) && x.filename == f;
    k, e := Index(s, a, false), x;
    PublishedKeepsIndex(b, o, rank, pool, k);
  }

  // The signed files of each suite are there, and the keyring where there is one to put.
  lemma PublishedSigned(b: Files, o: Order, rank: string -> real, pool: seq<string>, suite: string)
    requires Lists(pool, b) && KeepOf(o.suites, suite).Some?
    ensures var after := Published(b, o, rank, pool);
            && Release(suite, "Release") in after && Release(suite, "Release.gpg") in after && Release(suite, "InRelease") in after
            && (o.keyring ==> Keyring in after)
  {
    KeepOfIff(o.suites, suite);
    var i :| 0 <= i < |o.suites| && o.suites[i].0 == suite;
    WritesSign(b, o, rank, o.suites, i);
    WritesHere(b, o, rank, pool, Release(suite, "Release"));
    WritesHere(b, o, rank, pool, Release(suite, "Release.gpg"));
    WritesHere(b, o, rank, pool, Release(suite, "InRelease"));
    WritesHere(b, o, rank, pool, Keyring);
  }

  lemma {:induction false} WritesSign(b: Files, o: Order, rank: string -> real, suites: seq<(string, int)>, i: nat)
    requires i < |suites|
    ensures var writes := Writes(b, o, rank, suites);
            && Put(Release(suites[i].0, "Release"), Blob) in writes && Put(Release(suites[i].0, "Release.gpg"), Blob) in writes
            && Put(Release(suites[i].0, "InRelease"), Blob) in writes && (o.keyring ==> Put(Keyring, Blob) in writes)
    decreases suites
  {
    var suite := SuiteWrites(b, o, rank, suites[0].0);
    assert suite[4] == Put(Release(suites[0].0, "Release"), Blob) && suite[5] == Put(Release(suites[0].0, "Release.gpg"), Blob);
    assert suite[6] == Put(Release(suites[0].0, "InRelease"), Blob);
    if i > 0 {
      WritesSign(b, o, rank, suites[1..], i - 1);
      assert suites[1..][i - 1] == suites[i];
    } else if |suites| > 1 {
      WritesSign(b, o, rank, suites[1..], 0);
    } else {
      assert suites[1..] == [];
    }
  }

  lemma WritesHere(b: Files, o: Order, rank: string -> real, pool: seq<string>, k: Key)
    requires !k.Index? && !k.Pool?
    ensures Put(k, Blob) in Writes(b, o, rank, o.suites) ==> k in Published(b, o, rank, pool)
  {
    PublishedInParts(b, o, rank, pool);
    WritesAreRight(b, o, rank);
    var writes := Writes(b, o, rank, o.suites);
    forall e | e in writes ensures e.Put? && (e.key == k ==> e.content == Blob) {
      assert RightWrite(e, b, o, rank);
    }
    WrittenLast(Uploaded(b, o, pool), writes, k, Blob);
    DeletesAre(pool, Named(b, o, rank));
    DeletesExact(Written(b, o, rank, pool), Deletes(pool, Named(b, o, rank)));
  }

  // -- which comes first -----------------------------------------------------------------------------

  // Packages, then everything else that is written, then what is deleted.
  function Stage(e: Effect): nat {
    if e.Delete? then 2 else if e.key.Pool? then 0 else 1
  }

  lemma InStages(u: seq<Effect>, w: seq<Effect>, d: seq<Effect>, i: nat, j: nat)
    requires (forall e :: e in u ==> Stage(e) == 0) && (forall e :: e in w ==> Stage(e) == 1) && (forall e :: e in d ==> Stage(e) == 2)
    requires i < j < |u + w + d|
    ensures Stage((u + w + d)[i]) <= Stage((u + w + d)[j])
  {
    var k := |u| + |w|;
    assert i >= k ==> (u + w + d)[i] in d;
    assert |u| <= i < k ==> (u + w + d)[i] in w;
    assert i < |u| ==> (u + w + d)[i] in u;
    assert j >= k ==> (u + w + d)[j] in d;
    assert |u| <= j < k ==> (u + w + d)[j] in w;
    assert j < |u| ==> (u + w + d)[j] in u;
  }

  lemma PlanInStages(b: Files, o: Order, rank: string -> real, pool: seq<string>, i: nat, j: nat)
    requires i < j < |Plan(b, o, rank, pool)|
    ensures Stage(Plan(b, o, rank, pool)[i]) <= Stage(Plan(b, o, rank, pool)[j])
  {
    UploadsExact(o.debs, pool);
    WritesAreRight(b, o, rank);
    DeletesAre(pool, Named(b, o, rank));
    forall e | e in Writes(b, o, rank, o.suites) ensures Stage(e) == 1 {
      assert RightWrite(e, b, o, rank);
    }
    InStages(Uploads(o.debs, pool), Writes(b, o, rank, o.suites), Deletes(pool, Named(b, o, rank)), i, j);
  }

  predicate SignsFor(e: Effect, suite: string) {
    e.key.Release? && e.key.suite == suite
  }

  predicate IndexFor(e: Effect, suite: string) {
    e.key.Index? && e.key.suite == suite
  }

  ghost predicate SignedLast(writes: seq<Effect>) {
    forall i, j, suite :: 0 <= i < j < |writes| && SignsFor(writes[i], suite) ==> !IndexFor(writes[j], suite)
  }

  lemma SignedLastTogether(first: seq<Effect>, rest: seq<Effect>, suite: string)
    requires SignedLast(first) && SignedLast(rest)
    requires forall e, s :: e in first && SignsFor(e, s) ==> s == suite
    requires forall e :: e in rest ==> !IndexFor(e, suite)
    ensures SignedLast(first + rest)
  {
    var all := first + rest;
    forall i, j, s | 0 <= i < j < |all| && SignsFor(all[i], s) ensures !IndexFor(all[j], s) {
      if i < |first| <= j {
        assert all[i] in first && all[j] in rest;
      } else if j < |first| {
        assert all[i] == first[i] && all[j] == first[j];
      } else {
        assert all[i] == rest[i - |first|] && all[j] == rest[j - |first|];
      }
    }
  }

  // Two indices for each architecture, then three signed files.
  lemma SuiteSignedLast(b: Files, o: Order, rank: string -> real, suite: string)
    ensures SignedLast(SuiteWrites(b, o, rank, suite))
    ensures forall e :: e in SuiteWrites(b, o, rank, suite) ==> SignsFor(e, suite) || IndexFor(e, suite)
  {
    var indices := IndexWrites(suite, "amd64", NewIndex(b, o, rank, suite, "amd64")) + IndexWrites(suite, "arm64", NewIndex(b, o, rank, suite, "arm64"));
    var signed := [Put(Release(suite, "Release"), Blob), Put(Release(suite, "Release.gpg"), Blob), Put(Release(suite, "InRelease"), Blob)];
    assert forall e :: e in indices ==> IndexFor(e, suite);
    assert forall e :: e in signed ==> SignsFor(e, suite);
    BeforeSigned(indices, signed, suite);
  }

  lemma BeforeSigned(indices: seq<Effect>, signed: seq<Effect>, suite: string)
    requires (forall e :: e in indices ==> IndexFor(e, suite)) && (forall e :: e in signed ==> SignsFor(e, suite))
    ensures SignedLast(indices + signed)
  {
    assert forall i :: 0 <= i < |indices| ==> indices[i] in indices;
    assert forall i :: 0 <= i < |signed| ==> signed[i] in signed;
    SignedLastTogether(indices, signed, suite);
  }

  lemma {:induction false} IndicesOf(b: Files, o: Order, rank: string -> real, suites: seq<(string, int)>, e: Effect, suite: string)
    requires e in Writes(b, o, rank, suites) && IndexFor(e, suite)
    ensures exists k :: 0 <= k < |suites| && suites[k].0 == suite
    decreases suites
  {
    if suites != [] {
      SuiteSignedLast(b, o, rank, suites[0].0);
      if e !in SuiteWrites(b, o, rank, suites[0].0) {
        IndicesOf(b, o, rank, suites[1..], e, suite);
        var k :| 0 <= k < |suites| - 1 && suites[1..][k].0 == suite;
        assert suites[k + 1].0 == suite;
      }
    }
  }

  // The signed files of a suite after its indices.
  lemma {:induction false} IndicesBeforeSigned(b: Files, o: Order, rank: string -> real, suites: seq<(string, int)>)
    requires forall i, j :: 0 <= i < j < |suites| ==> suites[i].0 != suites[j].0
    ensures SignedLast(Writes(b, o, rank, suites))
    decreases suites
  {
    if suites != [] {
      var suite := suites[0].0;
      SuiteSignedLast(b, o, rank, suite);
      IndicesBeforeSigned(b, o, rank, suites[1..]);
      forall e | e in Writes(b, o, rank, suites[1..]) ensures !IndexFor(e, suite) {
        if IndexFor(e, suite) {
          IndicesOf(b, o, rank, suites[1..], e, suite);
        }
      }
      SignedLastTogether(SuiteWrites(b, o, rank, suite), Writes(b, o, rank, suites[1..]), suite);
    }
  }

  // -- one completed publish after the other ------------------------------------------------------------

  // Every index is there in both forms, for an architecture there is, and they say the same.
  ghost predicate FormsAgree(b: Files) {
    forall k: Key :: k in b && k.Index? ==> BothForms(b, k.suite, k.arch)
  }

  ghost predicate BothForms(b: Files, suite: string, arch: string) {
    var plain, gz := Index(suite, arch, false), Index(suite, arch, true);
    arch in ARCHITECTURES && plain in b && gz in b && b[plain].Entries? && b[gz] == b[plain]
  }

  lemma AgreeingForms(b: Files, o: Order, rank: string -> real, pool: seq<string>)
    requires FormsAgree(b)
    ensures UnreadAgree(b, o, rank, pool)
  {
    forall k, e | k in b && Unread(k, o) && b[k].Entries? && e in b[k].entries ensures e.filename in Named(b, o, rank) {
      assert BothForms(b, k.suite, k.arch);
      assert Index(k.suite, k.arch, false) in b && k == Index(k.suite, k.arch, true);
      assert Read(b, k.suite, k.arch) == b[k].entries;
      InNamed(b, o, rank, k.suite, k.arch, e);
    }
  }

  lemma PublishedKeepsIndex(b: Files, o: Order, rank: string -> real, pool: seq<string>, k: Key)
    requires Lists(pool, b) && k.Index?
    ensures var after := Published(b, o, rank, pool);
            if Rewritten(k, o) then k in after && after[k] == Entries(NewIndex(b, o, rank, k.suite, k.arch))
            else (k in after <==> k in b) && (k in b ==> after[k] == b[k])
  {
    PublishedInParts(b, o, rank, pool);
    WrittenIndex(b, o, rank, pool, k);
    DeletesAre(pool, Named(b, o, rank));
    DeletesExact(Written(b, o, rank, pool), Deletes(pool, Named(b, o, rank)));
  }

  lemma PublishedForms(b: Files, o: Order, rank: string -> real, pool: seq<string>)
    requires Lists(pool, b) && FormsAgree(b)
    ensures FormsAgree(Published(b, o, rank, pool))
  {
    var after := Published(b, o, rank, pool);
    forall k: Key | k in after && k.Index? ensures BothForms(after, k.suite, k.arch) {
      var plain, gz := Index(k.suite, k.arch, false), Index(k.suite, k.arch, true);
      PublishedKeepsIndex(b, o, rank, pool, k);
      PublishedKeepsIndex(b, o, rank, pool, plain);
      PublishedKeepsIndex(b, o, rank, pool, gz);
      if !Rewritten(k, o) {
        assert BothForms(b, k.suite, k.arch);
      }
    }
  }

  // The bucket before each of the publishes and after the last, starting empty.
  ghost predicate Publishes(buckets: seq<Files>, orders: seq<Order>, pools: seq<seq<string>>, rank: string -> real) {
    && |buckets| == |orders| + 1 && |pools| == |orders| && buckets[0] == map[]
    && forall i :: 0 <= i < |orders| ==> Lists(pools[i], buckets[i]) && buckets[i + 1] == Published(buckets[i], orders[i], rank, pools[i])
  }

  lemma {:induction false} CompletedPublishes(buckets: seq<Files>, orders: seq<Order>, pools: seq<seq<string>>, rank: string -> real, i: nat)
    requires Publishes(buckets, orders, pools, rank) && i <= |orders|
    ensures Safe(buckets[i]) && FormsAgree(buckets[i])
  {
    if i > 0 {
      var b, o, pool := buckets[i - 1], orders[i - 1], pools[i - 1];
      CompletedPublishes(buckets, orders, pools, rank, i - 1);
      AgreeingForms(b, o, rank, pool);
      SafeWhereverStopped(b, o, rank, pool, |Plan(b, o, rank, pool)|);
      TakeAll(Plan(b, o, rank, pool));
      PublishedForms(b, o, rank, pool);
    }
  }

  // Once every publish so far was completed, the next one may stop anywhere, whatever it is.
  lemma NextMayStopAnywhere(buckets: seq<Files>, orders: seq<Order>, pools: seq<seq<string>>, rank: string -> real,
                            o: Order, pool: seq<string>, n: nat)
    requires Publishes(buckets, orders, pools, rank) && Lists(pool, buckets[|orders|])
    requires n <= |Plan(buckets[|orders|], o, rank, pool)|
    ensures Safe(Run(buckets[|orders|], Plan(buckets[|orders|], o, rank, pool)[..n]))
  {
    var b := buckets[|orders|];
    CompletedPublishes(buckets, orders, pools, rank, |orders|);
    AgreeingForms(b, o, rank, pool);
    SafeWhereverStopped(b, o, rank, pool, n);
  }

  // -- one stopped publish, and one of another suite ---------------------------------------------------

  lemma SortedTwice(name: string)
    ensures SortedSet([name, name]) == [name]
  {
    assert [name, name][1..] == [name] && [name][1..] == [];
    assert SortedSet([name]) == InsertSorted([], name) == [name];
    BeforeIrreflexive(name);
    assert SortedSet([name, name]) == InsertSorted([name], name);
  }

  lemma {:induction false} BeforeIrreflexive(a: string)
    ensures !Before(a, a)
  {
    if a != [] { BeforeIrreflexive(a[1..]); }
  }

  lemma SortedPair(older: Entry, newer: Entry, rank: string -> real)
    requires rank(older.version) <= rank(newer.version)
    ensures SortEntries([older, newer], rank) == [older, newer]
  {
    var both := [older, newer];
    assert both[..1] == [older] && [older][..0] == [] && [older][1..] == [];
    assert SortEntries([older], rank) == InsertEntry([], older, rank) == [older];
    assert SortEntries(both, rank) == InsertEntry([older], newer, rank);
    assert InsertEntry([older], newer, rank) == [older] + InsertEntry([], newer, rank);
  }

  lemma NewestOfTwo(older: Entry, newer: Entry, rank: string -> real)
    requires older.package == newer.package && rank(older.version) <= rank(newer.version)
    ensures Retained([older, newer], 1, rank) == [newer]
  {
    var both := [older, newer];
    var name := older.package;
    assert PackagesOf(both) == [name, name];
    SortedTwice(name);
    assert both[1..] == [newer] && [newer][1..] == [];
    assert OfPackage([newer], name) == [newer];
    assert OfPackage(both, name) == [older] + OfPackage(both[1..], name) == both;
    SortedPair(older, newer, rank);
    assert [name][..0] == [];
    assert NewestOfAll(both, [name], 1, rank) == NewestOfAll(both, [], 1, rank) + Newest(both, name, 1, rank);
  }

  // A suite with one package in both forms of its index.
  function OneSuite(e: Entry, gz: Entry): Files {
    map[Index("stable", "amd64", false) := Entries([e]), Index("stable", "amd64", true) := Entries([gz]), Pool(gz.filename) := Blob, Pool(e.filename) := Blob]
  }

  ghost predicate Replaces(n: Entry, e: Entry, rank: string -> real) {
    && e.package == n.package && rank(e.version) <= rank(n.version)
    && e.architecture == "amd64" && n.architecture == "amd64"
    && e.filename != n.filename && IsDeb(e.filename) && IsDeb(n.filename)
  }

  // A publish of the newer package to "stable", stopped between the two forms of its index.
  lemma StoppedBetween(e: Entry, n: Entry, rank: string -> real)
    requires Replaces(n, e, rank)
    ensures var plan := Plan(OneSuite(e, e), Order([("stable", 1)], [n], false), rank, [e.filename]);
            |plan| > 2 && Run(OneSuite(e, e), plan[..2]) == OneSuite(n, e)
  {
    var before := OneSuite(e, e);
    var first := Order([("stable", 1)], [n], false);
    var plan := Plan(before, first, rank, [e.filename]);
    FirstPublish(before, first, e, n, rank);
    var p, q := plan[0], plan[1];
    assert plan[..2] == [p, q] && [p, q][1..] == [q] && [q][1..] == [];
    assert Run(before, [p, q]) == Run(Apply(before, p), [q]) == Run(Apply(Apply(before, p), q), []);
    assert Apply(Apply(before, p), q) == OneSuite(n, e);
  }

  lemma WritesStart(b: Files, o: Order, rank: string -> real, suites: seq<(string, int)>, entries: seq<Entry>)
    requires suites != [] && entries == NewIndex(b, o, rank, suites[0].0, "amd64")
    ensures |Writes(b, o, rank, suites)| >= 7
    ensures Writes(b, o, rank, suites)[0] == Put(Index(suites[0].0, "amd64", false), Entries(entries))
  {
    var suite := SuiteWrites(b, o, rank, suites[0].0);
    assert |suite| == 7 && suite[0] == Put(Index(suites[0].0, "amd64", false), Entries(entries));
  }

  lemma Begins(x: Effect, writes: seq<Effect>, rest: seq<Effect>)
    requires |writes| >= 7
    ensures var all := [x] + writes + rest; |all| > 2 && all[0] == x && all[1] == writes[0]
  {
  }

  lemma FirstIndex(e: Entry, n: Entry, rank: string -> real)
    requires Replaces(n, e, rank)
    ensures NewIndex(OneSuite(e, e), Order([("stable", 1)], [n], false), rank, "stable", "amd64") == [n]
  {
    assert Read(OneSuite(e, e), "stable", "amd64") == [e];
    assert [e][1..] == [] && [n][1..] == [];
    assert Others([e], n.filename) == [e];
    assert Add([e], n, "amd64") == [e, n];
    assert AddAll([e], [n], "amd64") == AddAll([e, n], [], "amd64") == [e, n];
    NewestOfTwo(e, n, rank);
  }

  lemma FirstPublish(before: Files, first: Order, e: Entry, n: Entry, rank: string -> real)
    requires Replaces(n, e, rank)
    requires before == OneSuite(e, e) && first == Order([("stable", 1)], [n], false)
    ensures var plan := Plan(before, first, rank, [e.filename]);
            && |plan| > 2 && plan[0] == Put(Pool(n.filename), Blob)
            && plan[1] == Put(Index("stable", "amd64", false), Entries([n]))
  {
    FirstIndex(e, n, rank);
    assert [n][1..] == [];
    assert Uploads([n], [e.filename]) == [Put(Pool(n.filename), Blob)];
    WritesStart(before, first, rank, first.suites, [n]);
    Begins(Put(Pool(n.filename), Blob), Writes(before, first, rank, first.suites), Deletes([e.filename], Named(before, first, rank)));
  }

  // Everything is safe there, and the same publish may be done again. But a publish to another
  // suite deletes the replaced package, which the compressed index still names.
  lemma StoppedThenOtherSuite(e: Entry, n: Entry, rank: string -> real, pool: seq<string>)
    requires Replaces(n, e, rank) && pool == [e.filename, n.filename]
    ensures Lists(pool, OneSuite(n, e)) && Safe(OneSuite(n, e))
    ensures UnreadAgree(OneSuite(n, e), Order([("stable", 1)], [n], false), rank, pool)
    ensures !Safe(Published(OneSuite(n, e), Order([("testing", 1)], [n], false), rank, pool))
  {
    var stopped := OneSuite(n, e);
    var second := Order([("testing", 1)], [n], false);
    forall s, a, x | s in KnownSuites(stopped, second) && a in ARCHITECTURES && x in NewIndex(stopped, second, rank, s, a)
      ensures x.filename != e.filename
    {
      NewIndexFrom(stopped, second, rank, s, a);
      assert x in Read(stopped, s, a) || x in [n];
    }
    assert e.filename !in Named(stopped, second, rank);
    UnreadDangles(stopped, second, rank, pool, Index("stable", "amd64", true), e);
  }
}
