/** The job manager (server/src/nocs/jobs.py) as a value. */
module Jobs {
  import opened Common

  // `Jobs` is the manager's whole state: its collections and the part of the published tree
  // below "jobs". The functions on it are the specification that the methods of class
  // `JobManager` are proved against; JobRuns.dfy proves what every run keeps.

  type Id = string
  type Resource = string

  datatype Lock = Lock(resource: Resource, holder: Id)

  datatype JobState = Running | Succeeded | Failed | Cancelled

  // What the state tree shows of a job, without its two timestamps.
  datatype JobView = JobView(
    kind: string,
    resources: seq<Resource>,
    state: JobState,
    progress: Option<real>,
    message: Option<string>,
    error: Option<string>,
    result: Option<string>,
    suspended: bool)

  // ResourceBusyError; `job` is None when a reservation holds the resource.
  datatype Busy = Busy(resource: Resource, kind: string, job: Option<Id>)

  datatype Jobs = Jobs(
    tasks: set<Id>,
    locks: seq<Lock>,  // a dict: in the order the locks were taken, one per resource
    kinds: map<Id, string>,
    reservations: set<Id>,
    suspended: map<Id, seq<Resource>>,
    finished: seq<Id>,
    published: map<Id, JobView>,
    keep: nat)

  function Empty(keep: nat): Jobs {
    Jobs({}, [], map[], {}, map[], [], map[], keep)
  }

  // -- the lock table -----------------------------------------------------------------

  function Holder(locks: seq<Lock>, resource: Resource): Option<Id> {
    if locks == [] then None
    else if locks[0].resource == resource then Some(locks[0].holder)
    else Holder(locks[1..], resource)
  }

  // locks[resource] = id
  function Put(locks: seq<Lock>, resource: Resource, id: Id): seq<Lock> {
    if locks == [] then [Lock(resource, id)]
    else if locks[0].resource == resource then [Lock(resource, id)] + locks[1..]
    else [locks[0]] + Put(locks[1..], resource, id)
  }

  function PutAll(locks: seq<Lock>, resources: seq<Resource>, id: Id): seq<Lock> {
    if resources == [] then locks
    else Put(PutAll(locks, resources[..|resources| - 1], id), resources[|resources| - 1], id)
  }

  // The resources `id` holds, in the table's order.
  function Owned(locks: seq<Lock>, id: Id): seq<Resource> {
    if locks == [] then []
    else (if locks[0].holder == id then [locks[0].resource] else []) + Owned(locks[1..], id)
  }

  // The table without one resource (del locks[resource]).
  function Without(locks: seq<Lock>, resource: Resource): seq<Lock> {
    if locks == [] then []
    else (if locks[0].resource == resource then [] else [locks[0]]) + Without(locks[1..], resource)
  }

  function WithoutAll(locks: seq<Lock>, resources: seq<Resource>): seq<Lock> {
    if resources == [] then locks
    else Without(WithoutAll(locks, resources[..|resources| - 1]), resources[|resources| - 1])
  }

  // The table without everything `id` holds.
  function Drop(locks: seq<Lock>, id: Id): seq<Lock> {
    if locks == [] then []
    else (if locks[0].holder == id then [] else [locks[0]]) + Drop(locks[1..], id)
  }

  ghost predicate UniqueResources(locks: seq<Lock>) {
    forall i, j :: 0 <= i < j < |locks| ==> locks[i].resource != locks[j].resource
  }

  lemma {:induction false} HolderIff(locks: seq<Lock>, r: Resource)
    ensures Holder(locks, r) == None <==> forall l :: l in locks ==> l.resource != r
    ensures Holder(locks, r).Some? ==> Lock(r, Holder(locks, r).value) in locks
  {
    if locks != [] {
      HolderIff(locks[1..], r);
      assert locks == [locks[0]] + locks[1..];
    }
  }

  lemma {:induction false} OwnedIff(locks: seq<Lock>, id: Id)
    ensures forall r :: r in Owned(locks, id) <==> Lock(r, id) in locks
  {
    if locks != [] {
      OwnedIff(locks[1..], id);
      assert locks == [locks[0]] + locks[1..];
    }
  }

  lemma {:induction false} OwnsNothing(locks: seq<Lock>, id: Id)
    requires forall l :: l in locks ==> l.holder != id
    ensures Owned(locks, id) == []
  {
    if locks != [] {
      OwnsNothing(locks[1..], id);
      assert locks[0] in locks;
    }
  }

  lemma OneHolder(locks: seq<Lock>, r: Resource, a: Id, b: Id)
    requires UniqueResources(locks) && Lock(r, a) in locks && Lock(r, b) in locks
    ensures a == b
  {
    var p :| 0 <= p < |locks| && locks[p] == Lock(r, a);
    var q :| 0 <= q < |locks| && locks[q] == Lock(r, b);
  }

  lemma {:induction false} OwnedConcat(a: seq<Lock>, b: seq<Lock>, id: Id)
    ensures Owned(a + b, id) == Owned(a, id) + Owned(b, id)
  {
    if a == [] {
      assert a + b == b;
    } else {
      ConcatTail(a, b);
      OwnedConcat(a[1..], b, id);
      Associative(if a[0].holder == id then [a[0].resource] else [], Owned(a[1..], id), Owned(b, id));
    }
  }

  lemma {:induction false} PutIsAppend(locks: seq<Lock>, r: Resource, id: Id)
    requires Holder(locks, r) == None
    ensures Put(locks, r, id) == locks + [Lock(r, id)]
  {
    if locks != [] {
      PutIsAppend(locks[1..], r, id);
      assert locks == [locks[0]] + locks[1..];
    }
  }

  function LocksOf(resources: seq<Resource>, id: Id): (r: seq<Lock>)
    ensures |r| == |resources| && forall i :: 0 <= i < |r| ==> r[i] == Lock(resources[i], id)
  {
    seq(|resources|, i requires 0 <= i < |resources| => Lock(resources[i], id))
  }

  // Taking resources that are all free adds one lock each, at the end of the table.
  lemma {:induction false} PutAllIsAppend(locks: seq<Lock>, resources: seq<Resource>, id: Id)
    requires UniqueResources(locks) && Distinct(resources)
    requires forall r :: r in resources ==> Holder(locks, r) == None
    ensures PutAll(locks, resources, id) == locks + LocksOf(resources, id)
    ensures UniqueResources(PutAll(locks, resources, id))
  {
    if resources != [] {
      var n := |resources| - 1;
      PutAllIsAppend(locks, resources[..n], id);
      var before := PutAll(locks, resources[..n], id);
      HolderIff(locks, resources[n]);
      HolderIff(before, resources[n]);
      PutIsAppend(before, resources[n], id);
    }
  }

  lemma {:induction false} OwnedOfTaken(resources: seq<Resource>, id: Id, other: Id)
    ensures Owned(LocksOf(resources, id), other)
         == if other == id then resources else []
  {
    var taken := LocksOf(resources, id);
    if resources != [] {
      OwnedOfTaken(resources[1..], id, other);
      assert taken[1..] == LocksOf(resources[1..], id);
    }
  }

  lemma {:induction false} PutAllOwned(locks: seq<Lock>, resources: seq<Resource>, id: Id, other: Id)
    requires UniqueResources(locks) && Distinct(resources)
    requires forall r :: r in resources ==> Holder(locks, r) == None
    ensures Owned(PutAll(locks, resources, id), other)
         == Owned(locks, other) + (if other == id then resources else [])
  {
    PutAllIsAppend(locks, resources, id);
    OwnedOfTaken(resources, id, other);
    OwnedConcat(locks, LocksOf(resources, id), other);
  }

  lemma {:induction false} DropIff(locks: seq<Lock>, id: Id)
    ensures forall l :: l in Drop(locks, id) <==> l in locks && l.holder != id
  {
    if locks != [] {
      DropIff(locks[1..], id);
      assert locks == [locks[0]] + locks[1..];
    }
  }

  lemma {:induction false} DropUnique(locks: seq<Lock>, id: Id)
    requires UniqueResources(locks)
    ensures UniqueResources(Drop(locks, id))
  {
    if locks != [] {
      DropUnique(locks[1..], id);
      DropIff(locks[1..], id);
      var rest := Drop(locks[1..], id);
      forall i | 0 <= i < |rest| ensures rest[i].resource != locks[0].resource {
        assert rest[i] in locks[1..];
      }
    }
  }

  lemma {:induction false} DropOwned(locks: seq<Lock>, id: Id, other: Id)
    ensures Owned(Drop(locks, id), other) == if other == id then [] else Owned(locks, other)
  {
    if locks != [] {
      DropOwned(locks[1..], id, other);
      var rest := Drop(locks[1..], id);
      if locks[0].holder == id {
        assert Drop(locks, id) == rest;
      } else {
        assert Drop(locks, id) == [locks[0]] + rest;
        OwnedConcat([locks[0]], rest, other);
        assert Owned([locks[0]], other) == (if locks[0].holder == other then [locks[0].resource] else []);
      }
    }
  }

  // -- the operations -----------------------------------------------------------------

  // Every holder's kind is known, so check_free's lookup cannot fail.
  ghost predicate LocksKnown(j: Jobs) {
    forall l :: l in j.locks ==> l.holder in j.kinds
  }

  function CheckFree(j: Jobs, resources: seq<Resource>): (busy: Option<Busy>)
    requires LocksKnown(j)
    ensures busy == None <==> forall r :: r in resources ==> Holder(j.locks, r) == None
    ensures busy.Some? ==> busy.value.resource in resources && Holder(j.locks, busy.value.resource).Some?
  {
    if resources == [] then None
    else
      HolderIff(j.locks, resources[0]);
      match Holder(j.locks, resources[0])
      case None =>
        assert forall r :: r in resources <==> r == resources[0] || r in resources[1..];
        CheckFree(j, resources[1..])
      case Some(holder) =>
        Some(Busy(resources[0], j.kinds[holder], if holder in j.reservations then None else Some(holder)))
  }

  // It tells of the first resource that is held: its holder's kind, and its id unless the
  // holder is a reservation.
  lemma {:induction false} CheckFreeFirst(j: Jobs, resources: seq<Resource>) returns (i: nat)
    requires LocksKnown(j)
    ensures i <= |resources| && forall k :: 0 <= k < i ==> Holder(j.locks, resources[k]) == None
    ensures i == |resources| ==> CheckFree(j, resources) == None
    ensures i < |resources| ==>
              && Holder(j.locks, resources[i]).Some?
              && var holder := Holder(j.locks, resources[i]).value;
                 && holder in j.kinds
                 && CheckFree(j, resources)
                    == Some(Busy(resources[i], j.kinds[holder], if holder in j.reservations then None else Some(holder)))
  {
    if resources == [] {
      i := 0;
    } else {
      HolderIff(j.locks, resources[0]);
      if Holder(j.locks, resources[0]).Some? {
        i := 0;
      } else {
        i := CheckFreeFirst(j, resources[1..]);
        i := i + 1;
      }
    }
  }

  datatype Outcome = Granted(jobs: Jobs) | Refused(busy: Busy)

  // `resources` sorted and without repeats; `token` is the fresh uuid the call makes.
  function Reserve(j: Jobs, kind: string, resources: seq<Resource>, token: Id): Outcome
    requires LocksKnown(j)
  {
    match CheckFree(j, resources)
    case Some(busy) => Refused(busy)
    case None =>
      Granted(j.(locks := PutAll(j.locks, resources, token),
                 kinds := j.kinds[token := kind],
                 reservations := j.reservations + {token}))
  }

  function Release(j: Jobs, token: Id): Jobs {
    if token !in j.reservations then j
    else j.(reservations := j.reservations - {token},
            kinds := j.kinds - {token},
            locks := Drop(j.locks, token))
  }

  function Start(j: Jobs, kind: string, resources: seq<Resource>, id: Id): Outcome
    requires LocksKnown(j)
  {
    match CheckFree(j, resources)
    case Some(busy) => Refused(busy)
    case None =>
      var view := JobView(kind, resources, Running, None, None, None, None, false);
      Granted(j.(locks := PutAll(j.locks, resources, id),
                 kinds := j.kinds[id := kind],
                 published := j.published[id := view],
                 tasks := j.tasks + {id}))
  }

  // None: KeyError, the job is not running.
  function Suspend(j: Jobs, id: Id): Option<Jobs> {
    if id !in j.tasks then None
    else if id in j.suspended then Some(j)
    else Some(SetSuspended(j.(locks := Drop(j.locks, id),
                              suspended := j.suspended[id := Owned(j.locks, id)]), id, true))
  }

  function Resume(j: Jobs, id: Id): Outcome
    requires LocksKnown(j)
  {
    if id !in j.suspended then Granted(j)
    else
      match CheckFree(j, j.suspended[id])
      case Some(busy) => Refused(busy)
      case None =>
        Granted(SetSuspended(j.(locks := PutAll(j.locks, j.suspended[id], id),
                                suspended := j.suspended - {id}), id, false))
  }

  // _update: fields of a running job only.
  function SetSuspended(j: Jobs, id: Id, suspended: bool): Jobs {
    if id in j.tasks && id in j.published
    then j.(published := j.published[id := j.published[id].(suspended := suspended)])
    else j
  }

  // JobContext.progress, with its fraction clamped to 0..1.
  function Progress(j: Jobs, id: Id, fraction: Option<real>, message: Option<string>): Jobs {
    var shown := if fraction.Some? then Some(MinReal(MaxReal(fraction.value, 0.0), 1.0)) else None;
    if id in j.tasks && id in j.published
    then j.(published := j.published[id := j.published[id].(progress := shown, message := message)])
    else j
  }

  function Ended(view: JobView, state: JobState, error: Option<string>, result: Option<string>): JobView {
    var view := view.(state := state, error := error, result := result);
    if state == Succeeded then view.(progress := Some(1.0), message := None) else view
  }

  function Finish(j: Jobs, id: Id, state: JobState, error: Option<string>, result: Option<string>): Jobs {
    if id !in j.tasks then j  // already finished
    else
      var view := if id in j.published then j.published[id := Ended(j.published[id], state, error, result)] else j.published;
      Evict(j.(tasks := j.tasks - {id},
               suspended := j.suspended - {id},
               locks := Drop(j.locks, id),
               published := view,
               finished := j.finished + [id]))
  }

  // Forgets the oldest finished jobs beyond the ones kept.
  function Evict(j: Jobs): Jobs
    decreases |j.finished|
  {
    if |j.finished| <= j.keep then j
    else Evict(j.(finished := j.finished[1..],
                  kinds := j.kinds - {j.finished[0]},
                  published := j.published - {j.finished[0]}))
  }

  lemma FirstOf(s: seq<Id>, n: nat)
    requires 0 < n <= |s|
    ensures (set i | 0 <= i < n :: s[i]) == {s[0]} + (set i | 0 <= i < n - 1 :: s[1..][i])
  {
    var gone, rest := set i | 0 <= i < n :: s[i], set i | 0 <= i < n - 1 :: s[1..][i];
    forall x | x in gone ensures x in {s[0]} + rest {
      var i :| 0 <= i < n && x == s[i];
      if i > 0 { assert s[1..][i - 1] == x; }
    }
    forall x | x in rest ensures x in gone {
      var i :| 0 <= i < n - 1 && x == s[1..][i];
      assert s[i + 1] == x;
    }
  }

  // Evict drops exactly the surplus at the front, with its kinds and its published entries.
  lemma {:induction false} EvictCloses(j: Jobs)
    ensures var surplus := Max(0, |j.finished| - j.keep);
            var gone := set i | 0 <= i < surplus :: j.finished[i];
            Evict(j) == j.(finished := j.finished[surplus..],
                           kinds := j.kinds - gone,
                           published := j.published - gone)
    decreases |j.finished|
  {
    var surplus := Max(0, |j.finished| - j.keep);
    var gone := set i | 0 <= i < surplus :: j.finished[i];
    if |j.finished| <= j.keep {
      assert gone == {};
    } else {
      var next := j.(finished := j.finished[1..], kinds := j.kinds - {j.finished[0]}, published := j.published - {j.finished[0]});
      EvictCloses(next);
      var rest := set i | 0 <= i < surplus - 1 :: next.finished[i];
      FirstOf(j.finished, surplus);
      assert j.kinds - gone == next.kinds - rest;
      assert j.published - gone == next.published - rest;
    }
  }

  // cancel: whether the task was asked to stop; None is KeyError. A task leaves `tasks`
  // as it finishes; `done` says whether it ended without having left yet.
  function Cancel(j: Jobs, id: Id, done: bool): Option<bool> {
    if id in j.tasks && !done then Some(true)
    else if id in j.published then Some(false)
    else None
  }
}
