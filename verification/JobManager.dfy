/** The manager itself: the class whose methods update the collections in place.

    Each method is proved equal to its function in Jobs.dfy, so that what JobRuns.dfy proves
    of every run holds of the object too: `Valid` is its invariant, over a ghost history of
    what was handed out and what ended. */
module JobManagers {
  import opened Common
  import opened Spec = Jobs
  import opened JobRuns

  lemma {:induction false} WithoutAllHead(l: Lock, rest: seq<Lock>, resources: seq<Resource>)
    ensures WithoutAll([l] + rest, resources)
         == (if l.resource in resources then [] else [l]) + WithoutAll(rest, resources)
  {
    if resources != [] {
      var n := |resources| - 1;
      WithoutAllHead(l, rest, resources[..n]);
      assert resources == resources[..n] + [resources[n]];
      var before := WithoutAll(rest, resources[..n]);
      if l.resource in resources[..n] {
        assert WithoutAll([l] + rest, resources[..n]) == before;
      } else {
        assert WithoutAll([l] + rest, resources[..n]) == [l] + before;
        assert ([l] + before)[1..] == before;
      }
    }
  }

  // Deleting a holder's resources one by one drops everything it holds, and no more.
  lemma {:induction false} WithoutAllIsDrop(locks: seq<Lock>, resources: seq<Resource>, id: Id)
    requires forall l :: l in locks ==> (l.resource in resources <==> l.holder == id)
    ensures WithoutAll(locks, resources) == Drop(locks, id)
  {
    if locks == [] {
      WithoutAllEmpty(resources);
    } else {
      assert locks == [locks[0]] + locks[1..];
      WithoutAllHead(locks[0], locks[1..], resources);
      WithoutAllIsDrop(locks[1..], resources, id);
    }
  }

  lemma {:induction false} WithoutAllEmpty(resources: seq<Resource>)
    ensures WithoutAll([], resources) == []
  {
    if resources != [] {
      WithoutAllEmpty(resources[..|resources| - 1]);
    }
  }

  lemma OwnedResourcesAreItsOwn(locks: seq<Lock>, id: Id)
    requires UniqueResources(locks)
    ensures forall l :: l in locks ==> (l.resource in Owned(locks, id) <==> l.holder == id)
  {
    OwnedIff(locks, id);
    forall l | l in locks && l.resource in Owned(locks, id) ensures l.holder == id {
      OneHolder(locks, l.resource, id, l.holder);
    }
  }

  class JobManager {
    const keep: nat
    var tasks: set<Id>
    var locks: seq<Lock>
    var kinds: map<Id, string>
    var reservations: set<Id>
    var suspended: map<Id, seq<Resource>>
    var finished: seq<Id>
    var published: map<Id, JobView>

    // What was handed out so far, and the jobs that ended, in order.
    ghost var issued: map<Id, seq<Resource>>
    ghost var ended: seq<Id>

    ghost function Model(): Spec.Jobs
      reads this
    {
      Spec.Jobs.Jobs(tasks, locks, kinds, reservations, suspended, finished, published, keep)
    }

    ghost function History(): World
      reads this
    {
      World(Model(), issued, ended)
    }

    ghost predicate Valid()
      reads this
    {
      Inv(History())
    }

    constructor (keep: nat)
      ensures Valid() && History() == World(Empty(keep), map[], [])
    {
      this.keep := keep;
      tasks, locks, kinds, reservations := {}, [], map[], {};
      suspended, finished, published := map[], [], map[];
      issued, ended := map[], [];
      new;
      EmptyKeeps(keep);
    }

    method IsFree(resources: seq<Resource>) returns (busy: Option<Busy>)
      requires LocksKnown(Model())
      ensures busy == CheckFree(Model(), resources)
    {
      for i := 0 to |resources|
        invariant CheckFree(Model(), resources) == CheckFree(Model(), resources[i..])
      {
        HolderIff(locks, resources[i]);
        match Holder(locks, resources[i]) {
          case Some(holder) =>
            return Some(Busy(resources[i], kinds[holder], if holder in reservations then None else Some(holder)));
          case None =>
            assert resources[i..][1..] == resources[i + 1..];
        }
      }
      return None;
    }

    method Lock(resources: seq<Resource>, id: Id)
      modifies this`locks
      ensures locks == PutAll(old(locks), resources, id)
    {
      for i := 0 to |resources|
        invariant locks == PutAll(old(locks), resources[..i], id)
      {
        assert resources[..i + 1][..i] == resources[..i];
        locks := Put(locks, resources[i], id);
      }
      assert resources[..|resources|] == resources;
    }

    method Unlock(id: Id)
      requires UniqueResources(locks)
      modifies this`locks
      ensures locks == Drop(old(locks), id)
    {
      var mine := Owned(locks, id);
      for i := 0 to |mine|
        invariant locks == WithoutAll(old(locks), mine[..i])
      {
        assert mine[..i + 1][..i] == mine[..i];
        locks := Without(locks, mine[i]);
      }
      assert mine[..|mine|] == mine;
      OwnedResourcesAreItsOwn(old(locks), id);
      WithoutAllIsDrop(old(locks), mine, id);
    }

    // `token` is the uuid the call makes: never handed out before.
    method Reserve(kind: string, requested: seq<Resource>, token: Id) returns (busy: Option<Busy>)
      requires Valid() && token !in issued
      modifies this
      ensures Valid()
      ensures LocksKnown(old(Model()))
      ensures busy == CheckFree(old(Model()), SortedSet(requested))
      ensures History() == Apply(old(History()), DoReserve(kind, requested, token))
      ensures busy.Some? ==> unchanged(this)
    {
      StepKeeps(History(), DoReserve(kind, requested, token));
      var resources := SortedSet(requested);
      busy := IsFree(resources);
      if busy.Some? {
        return;
      }
      Lock(resources, token);
      kinds := kinds[token := kind];
      reservations := reservations + {token};
      issued := issued[token := resources];
    }

    method Release(token: Id)
      requires Valid()
      modifies this
      ensures Valid() && LocksKnown(old(Model()))
      ensures History() == Apply(old(History()), DoRelease(token))
    {
      StepKeeps(History(), DoRelease(token));
      if token !in reservations {
        return;
      }
      reservations := reservations - {token};
      kinds := kinds - {token};
      Unlock(token);
    }

    method Start(kind: string, requested: seq<Resource>, id: Id) returns (busy: Option<Busy>)
      requires Valid() && id !in issued
      modifies this
      ensures Valid()
      ensures LocksKnown(old(Model()))
      ensures busy == CheckFree(old(Model()), SortedSet(requested))
      ensures History() == Apply(old(History()), DoStart(kind, requested, id))
      ensures busy.Some? ==> unchanged(this)
    {
      StepKeeps(History(), DoStart(kind, requested, id));
      var resources := SortedSet(requested);
      busy := IsFree(resources);
      if busy.Some? {
        return;
      }
      Lock(resources, id);
      kinds := kinds[id := kind];
      published := published[id := JobView(kind, resources, Running, None, None, None, None, false)];
      tasks := tasks + {id};
      issued := issued[id := resources];
    }

    // False: KeyError, the job is not running.
    method Suspend(id: Id) returns (known: bool)
      requires Valid()
      modifies this
      ensures Valid() && LocksKnown(old(Model()))
      ensures known == (id in old(tasks))
      ensures History() == Apply(old(History()), DoSuspend(id))
    {
      StepKeeps(History(), DoSuspend(id));
      if id !in tasks {
        return false;
      }
      known := true;
      if id in suspended {
        return;
      }
      var lent := Owned(locks, id);
      Unlock(id);
      suspended := suspended[id := lent];
      published := published[id := published[id].(suspended := true)];
    }

    method Resume(id: Id) returns (busy: Option<Busy>)
      requires Valid()
      modifies this
      ensures Valid() && LocksKnown(old(Model()))
      ensures busy == if id in old(suspended) then CheckFree(old(Model()), old(suspended)[id]) else None
      ensures History() == Apply(old(History()), DoResume(id))
      ensures busy.Some? ==> unchanged(this)
    {
      StepKeeps(History(), DoResume(id));
      busy := TakeBack(id);
    }

    method TakeBack(id: Id) returns (busy: Option<Busy>)
      requires LocksKnown(Model())
      requires id in suspended ==> id in tasks && id in published
      modifies this`locks, this`suspended, this`published
      ensures busy == if id in old(suspended) then CheckFree(old(Model()), old(suspended)[id]) else None
      ensures match Spec.Resume(old(Model()), id)
              case Granted(j) => Model() == j
              case Refused(b) => unchanged(this)
    {
      busy := None;
      if id !in suspended {
        return;
      }
      var resources := suspended[id];
      busy := IsFree(resources);
      if busy.Some? {
        return;
      }
      Lock(resources, id);
      suspended := suspended - {id};
      published := published[id := published[id].(suspended := false)];
    }

    method Progress(id: Id, fraction: Option<real>, message: Option<string>)
      requires Valid()
      modifies this
      ensures Valid() && LocksKnown(old(Model()))
      ensures History() == Apply(old(History()), DoProgress(id, fraction, message))
    {
      StepKeeps(History(), DoProgress(id, fraction, message));
      var shown := fraction;
      if fraction.Some? {
        shown := Some(MinReal(MaxReal(fraction.value, 0.0), 1.0));
      }
      if id !in tasks {
        return;
      }
      published := published[id := published[id].(progress := shown, message := message)];
    }

    // Asks a running task to stop; `done` says that it ended but has not left the table yet.
    // None: KeyError, a job that is not shown.
    method Cancel(id: Id, done: bool) returns (asked: Option<bool>)
      requires Valid()
      ensures asked == Spec.Cancel(Model(), id, done)
      ensures asked == Some(true) <==> id in tasks && !done
      ensures asked == None <==> id !in published
    {
      CancelKnows(History(), id, done);
      if id !in tasks || done {
        if id !in published {
          return None;
        }
        return Some(false);
      }
      return Some(true);
    }

    method Finish(id: Id, state: JobState, error: Option<string>, result: Option<string>)
      requires Valid() && state != Running
      modifies this
      ensures Valid() && LocksKnown(old(Model()))
      ensures History() == Apply(old(History()), DoFinish(id, state, error, result))
    {
      StepKeeps(History(), DoFinish(id, state, error, result));
      if id in tasks {
        ended := ended + [id];
      }
      Retire(id, state, error, result);
    }

    method Retire(id: Id, state: JobState, error: Option<string>, result: Option<string>)
      requires UniqueResources(locks) && tasks <= published.Keys
      modifies this`tasks, this`suspended, this`locks, this`published, this`finished, this`kinds
      ensures Model() == Spec.Finish(old(Model()), id, state, error, result)
    {
      if id !in tasks {
        return;
      }
      tasks := tasks - {id};
      suspended := suspended - {id};
      Unlock(id);
      published := published[id := Ended(published[id], state, error, result)];
      finished := finished + [id];
      ForgetOldest();
    }

    method ForgetOldest()
      modifies this`finished, this`kinds, this`published
      ensures Model() == Evict(old(Model()))
    {
      while |finished| > keep
        invariant Evict(Model()) == Evict(old(Model()))
        decreases |finished|
      {
        var gone := finished[0];
        finished := finished[1..];
        kinds := kinds - {gone};
        published := published - {gone};
      }
    }
  }
}
