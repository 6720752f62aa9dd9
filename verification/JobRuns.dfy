/** Every run of the job manager: what holds after any sequence of its operations. */
module JobRuns {
  import opened Common
  import opened Jobs

  // The manager with its history: the ids handed out, what each asked for, and the
  // jobs that ended, in order.
  datatype World = World(j: Jobs, issued: map<Id, seq<Resource>>, ended: seq<Id>)

  datatype Action =
    | DoReserve(kind: string, resources: seq<Resource>, id: Id)
    | DoRelease(id: Id)
    | DoStart(kind: string, resources: seq<Resource>, id: Id)
    | DoSuspend(id: Id)
    | DoResume(id: Id)
    | DoProgress(id: Id, fraction: Option<real>, message: Option<string>)
    | DoFinish(id: Id, state: JobState, error: Option<string>, result: Option<string>)

  // uuid4 never repeats an id; a job finishes in a terminal state.
  ghost predicate Legal(w: World, a: Action) {
    match a
    case DoReserve(_, _, id) => id !in w.issued
    case DoStart(_, _, id) => id !in w.issued
    case DoFinish(_, state, _, _) => state != Running
    case _ => true
  }

  function Take(w: World, id: Id, resources: seq<Resource>, outcome: Outcome): World {
    match outcome
    case Granted(j) => World(j, w.issued[id := resources], w.ended)
    case Refused(_) => w
  }

  function Apply(w: World, a: Action): World
    requires LocksKnown(w.j)
  {
    match a
    case DoReserve(kind, resources, id) =>
      Take(w, id, SortedSet(resources), Reserve(w.j, kind, SortedSet(resources), id))
    case DoStart(kind, resources, id) =>
      Take(w, id, SortedSet(resources), Start(w.j, kind, SortedSet(resources), id))
    case DoRelease(id) => w.(j := Release(w.j, id))
    case DoSuspend(id) =>
      (match Suspend(w.j, id)
       case None => w
       case Some(j) => w.(j := j))
    case DoResume(id) =>
      (match Resume(w.j, id)
       case Granted(j) => w.(j := j)
       case Refused(_) => w)
    case DoProgress(id, fraction, message) => w.(j := Progress(w.j, id, fraction, message))
    case DoFinish(id, state, error, result) =>
      World(Finish(w.j, id, state, error, result), w.issued,
            if id in w.j.tasks then w.ended + [id] else w.ended)
  }

  // -- the invariant ------------------------------------------------------------------

  ghost predicate Holders(w: World, id: Id) {
    id in w.j.tasks || id in w.j.reservations
  }

  // A holder owns exactly what it asked for: as locks, or lent back while suspended.
  ghost predicate OwnsItsOwn(w: World, id: Id)
    requires id in w.issued
  {
    if id in w.j.suspended
    then w.j.suspended[id] == w.issued[id] && Owned(w.j.locks, id) == []
    else Owned(w.j.locks, id) == w.issued[id]
  }

  ghost predicate Ownership(w: World) {
    && UniqueResources(w.j.locks)
    && (forall l :: l in w.j.locks ==> Holders(w, l.holder))
    && (forall id :: Holders(w, id) ==> id in w.issued && OwnsItsOwn(w, id))
    && (forall id :: id in w.issued ==> Distinct(w.issued[id]))
    && w.j.suspended.Keys <= w.j.tasks
  }

  ghost predicate Books(w: World) {
    && w.j.tasks !! w.j.reservations
    && (forall id :: id in w.j.kinds <==> Holders(w, id) || id in w.j.finished)
    && (forall id :: id in w.j.published <==> id in w.j.tasks || id in w.j.finished)
    && (forall id :: id in w.j.published ==> w.j.kinds[id] == w.j.published[id].kind)
  }

  ghost predicate Retained(w: World) {
    && Distinct(w.ended)
    && w.j.finished == w.ended[|w.ended| - Min(w.j.keep, |w.ended|)..]
    && (forall id :: id in w.ended ==> id in w.issued && !Holders(w, id))
  }

  ghost predicate ViewsTell(w: World)
    requires Books(w)
  {
    && (forall id :: id in w.j.tasks ==>
          && w.j.published[id].state == Running
          && id in w.issued
          && w.j.published[id].resources == w.issued[id]
          && (w.j.published[id].suspended <==> id in w.j.suspended))
    && (forall id :: id in w.j.finished ==> w.j.published[id].state != Running)
  }

  ghost predicate Inv(w: World) {
    Ownership(w) && Books(w) && Retained(w) && ViewsTell(w)
  }

  lemma InvKnowsLocks(w: World)
    requires Inv(w)
    ensures LocksKnown(w.j)
  {
  }

  lemma EmptyKeeps(keep: nat)
    ensures Inv(World(Empty(keep), map[], []))
  {
  }

  // What is owned once a holder that had nothing is given its resources.
  lemma Taken(locks: seq<Lock>, resources: seq<Resource>, id: Id, x: Id)
    requires UniqueResources(locks) && Distinct(resources) && Owned(locks, id) == []
    requires forall r :: r in resources ==> Holder(locks, r) == None
    ensures Owned(PutAll(locks, resources, id), x) == if x == id then resources else Owned(locks, x)
  {
    PutAllOwned(locks, resources, id, x);
    assert [] + resources == resources;
    assert Owned(locks, x) + [] == Owned(locks, x);
  }

  lemma TakenHolders(w: World, id: Id, resources: seq<Resource>, w': World)
    requires Ownership(w) && Distinct(resources)
    requires forall r :: r in resources ==> Holder(w.j.locks, r) == None
    requires w'.j.locks == PutAll(w.j.locks, resources, id)
    requires forall x :: Holders(w', x) <==> Holders(w, x) || x == id
    ensures UniqueResources(w'.j.locks) && forall l :: l in w'.j.locks ==> Holders(w', l.holder)
  {
    PutAllIsAppend(w.j.locks, resources, id);
  }

  lemma TakenKeepsOwnership(w: World, id: Id, resources: seq<Resource>, w': World)
    requires Inv(w) && id !in w.issued && Distinct(resources)
    requires forall r :: r in resources ==> Holder(w.j.locks, r) == None
    requires w'.issued == w.issued[id := resources] && w'.j.suspended == w.j.suspended
    requires w'.j.locks == PutAll(w.j.locks, resources, id)
    requires w.j.tasks <= w'.j.tasks && w.j.reservations <= w'.j.reservations
    requires forall x :: Holders(w', x) <==> Holders(w, x) || x == id
    ensures Ownership(w')
  {
    TakenHolders(w, id, resources, w');
    assert !Holders(w, id);
    OwnsNothing(w.j.locks, id);
    forall x | Holders(w', x)
      ensures x in w'.issued && OwnsItsOwn(w', x)
    {
      Taken(w.j.locks, resources, id, x);
    }
  }

  // A holder more leaves the rest of the books as they were.
  lemma NotKnownYet(w: World, id: Id)
    requires Inv(w) && id !in w.issued
    ensures !Holders(w, id) && id !in w.ended && id !in w.j.finished && id !in w.j.kinds && id !in w.j.published
  {
    assert forall x :: x in w.j.finished ==> x in w.ended;
  }

  lemma ReserveBooks(w: World, kind: string, resources: seq<Resource>, id: Id, w': World)
    requires Inv(w) && id !in w.issued
    requires w'.issued == w.issued[id := resources] && w'.ended == w.ended
    requires w'.j == w.j.(locks := w'.j.locks, kinds := w.j.kinds[id := kind], reservations := w.j.reservations + {id})
    ensures Books(w') && Retained(w') && ViewsTell(w')
  {
    NotKnownYet(w, id);
    assert forall x :: Holders(w', x) <==> Holders(w, x) || x == id;
  }

  lemma StartBooks(w: World, kind: string, resources: seq<Resource>, id: Id, w': World)
    requires Inv(w) && id !in w.issued
    requires w'.issued == w.issued[id := resources] && w'.ended == w.ended
    requires w'.j == w.j.(locks := w'.j.locks, kinds := w.j.kinds[id := kind], tasks := w.j.tasks + {id},
                          published := w.j.published[id := JobView(kind, resources, Running, None, None, None, None, false)])
    ensures Books(w') && Retained(w') && ViewsTell(w')
  {
    NotKnownYet(w, id);
    assert id !in w.j.suspended;
    assert forall x :: Holders(w', x) <==> Holders(w, x) || x == id;
  }

  lemma ReserveKeeps(w: World, kind: string, resources: seq<Resource>, id: Id)
    requires Inv(w) && LocksKnown(w.j) && id !in w.issued
    ensures Inv(Apply(w, DoReserve(kind, resources, id)))
  {
    var sorted := SortedSet(resources);
    SortedSetCorrect(resources);
    if Reserve(w.j, kind, sorted, id).Granted? {
      var w' := Apply(w, DoReserve(kind, resources, id));
      TakenKeepsOwnership(w, id, sorted, w');
      ReserveBooks(w, kind, sorted, id, w');
    }
  }

  lemma StartKeeps(w: World, kind: string, resources: seq<Resource>, id: Id)
    requires Inv(w) && LocksKnown(w.j) && id !in w.issued
    ensures Inv(Apply(w, DoStart(kind, resources, id)))
  {
    var sorted := SortedSet(resources);
    SortedSetCorrect(resources);
    if Start(w.j, kind, sorted, id).Granted? {
      var w' := Apply(w, DoStart(kind, resources, id));
      TakenKeepsOwnership(w, id, sorted, w');
      StartBooks(w, kind, sorted, id, w');
    }
  }

  lemma DroppedKeepsOwnership(w: World, id: Id, w': World)
    requires Inv(w)
    requires w'.issued == w.issued && w'.j.locks == Drop(w.j.locks, id)
    requires forall x :: Holders(w', x) <==> Holders(w, x) && x != id
    requires w'.j.suspended == w.j.suspended - {id} && w'.j.suspended.Keys <= w'.j.tasks
    ensures Ownership(w')
  {
    DropIff(w.j.locks, id);
    DropUnique(w.j.locks, id);
    forall x | Holders(w', x) ensures OwnsItsOwn(w', x) {
      DropOwned(w.j.locks, id, x);
    }
  }

  lemma ReleaseBooks(w: World, id: Id, w': World)
    requires Inv(w) && id in w.j.reservations && w'.issued == w.issued && w'.ended == w.ended
    requires w'.j == w.j.(locks := w'.j.locks, kinds := w.j.kinds - {id}, reservations := w.j.reservations - {id})
    ensures Books(w') && Retained(w') && ViewsTell(w')
  {
    assert Holders(w, id) && id !in w.ended;
    assert id !in w.j.finished by {
      assert forall x :: x in w.j.finished ==> x in w.ended;
    }
    assert forall x :: Holders(w', x) <==> Holders(w, x) && x != id;
  }

  lemma ReleaseKeeps(w: World, id: Id)
    requires Inv(w)
    ensures Inv(w.(j := Release(w.j, id)))
  {
    if id in w.j.reservations {
      var w' := w.(j := Release(w.j, id));
      assert w.j.suspended == w.j.suspended - {id};
      DroppedKeepsOwnership(w, id, w');
      ReleaseBooks(w, id, w');
    }
  }

  lemma SuspendKeepsOwnership(w: World, id: Id)
    requires Inv(w) && id in w.j.tasks && id !in w.j.suspended
    ensures Ownership(w.(j := Suspend(w.j, id).value))
  {
    var w' := w.(j := Suspend(w.j, id).value);
    DropIff(w.j.locks, id);
    DropUnique(w.j.locks, id);
    forall x | Holders(w', x) ensures x in w'.issued && OwnsItsOwn(w', x) {
      assert Holders(w, x);
      DropOwned(w.j.locks, id, x);
    }
  }

  lemma SuspendKeepsBooks(w: World, id: Id)
    requires Inv(w) && id in w.j.tasks && id !in w.j.suspended
    ensures Books(w.(j := Suspend(w.j, id).value))
    ensures ViewsTell(w.(j := Suspend(w.j, id).value))
  {
    assert Holders(w, id);
    assert id !in w.ended;
  }

  lemma SuspendKeepsRetained(w: World, id: Id)
    requires Inv(w) && id in w.j.tasks && id !in w.j.suspended
    ensures Retained(w.(j := Suspend(w.j, id).value))
  {
    var w' := w.(j := Suspend(w.j, id).value);
    assert forall x :: Holders(w', x) <==> Holders(w, x);
  }

  lemma SuspendKeeps(w: World, id: Id)
    requires Inv(w)
    ensures Suspend(w.j, id).Some? ==> Inv(w.(j := Suspend(w.j, id).value))
  {
    if id in w.j.tasks && id !in w.j.suspended {
      SuspendKeepsOwnership(w, id);
      SuspendKeepsBooks(w, id);
      SuspendKeepsRetained(w, id);
    } else if id in w.j.tasks {
      assert w.(j := Suspend(w.j, id).value) == w;
    }
  }

  lemma ResumeOwns(w: World, id: Id, w': World)
    requires Ownership(w) && id in w.j.suspended && id in w.issued && Distinct(w.issued[id])
    requires forall r :: r in w.issued[id] ==> Holder(w.j.locks, r) == None
    requires w' == w.(j := w'.j) && w'.j.tasks == w.j.tasks && w'.j.reservations == w.j.reservations
    requires w'.j.suspended == w.j.suspended - {id} && w'.j.locks == PutAll(w.j.locks, w.issued[id], id)
    ensures Ownership(w')
  {
    assert id in w.j.suspended.Keys && Holders(w, id) && OwnsItsOwn(w, id);
    assert forall x :: Holders(w', x) <==> Holders(w, x);
    TakenHolders(w, id, w.issued[id], w');
    forall x | Holders(w', x) ensures x in w'.issued && OwnsItsOwn(w', x) {
      assert Holders(w, x);
      Taken(w.j.locks, w.issued[id], id, x);
    }
  }

  lemma LentBackIsFree(w: World, id: Id)
    requires Inv(w) && LocksKnown(w.j) && id in w.j.suspended && Resume(w.j, id).Granted?
    ensures id in w.issued && w.j.suspended[id] == w.issued[id] && Distinct(w.issued[id])
    ensures forall r :: r in w.issued[id] ==> Holder(w.j.locks, r) == None
    ensures var w' := w.(j := Resume(w.j, id).jobs);
            && w'.j.tasks == w.j.tasks && w'.j.reservations == w.j.reservations
            && w'.j.suspended == w.j.suspended - {id} && w'.j.locks == PutAll(w.j.locks, w.issued[id], id)
  {
    assert id in w.j.suspended.Keys && Holders(w, id) && OwnsItsOwn(w, id);
  }

  lemma ResumeBooks(w: World, id: Id)
    requires Inv(w) && LocksKnown(w.j) && id in w.j.suspended && Resume(w.j, id).Granted?
    ensures var w' := w.(j := Resume(w.j, id).jobs); Books(w') && Retained(w') && ViewsTell(w')
  {
    var w' := w.(j := Resume(w.j, id).jobs);
    assert id in w.j.suspended.Keys && Holders(w, id);
    assert forall x :: Holders(w', x) <==> Holders(w, x);
  }

  lemma ResumeKeeps(w: World, id: Id)
    requires Inv(w) && LocksKnown(w.j)
    ensures Resume(w.j, id).Granted? ==> Inv(w.(j := Resume(w.j, id).jobs))
  {
    if id in w.j.suspended && Resume(w.j, id).Granted? {
      LentBackIsFree(w, id);
      ResumeOwns(w, id, w.(j := Resume(w.j, id).jobs));
      ResumeBooks(w, id);
    }
  }

  // The state after a job ended, before the oldest finished ones are forgotten.
  function BeforeEvict(j: Jobs, id: Id, state: JobState, error: Option<string>, result: Option<string>): Jobs {
    j.(tasks := j.tasks - {id},
       suspended := j.suspended - {id},
       locks := Drop(j.locks, id),
       published := if id in j.published then j.published[id := Ended(j.published[id], state, error, result)] else j.published,
       finished := j.finished + [id])
  }

  lemma SuffixOfSuffix<T>(ended: seq<T>, finished: seq<T>, keep: nat, x: T)
    requires finished == ended[|ended| - Min(keep, |ended|)..]
    ensures var all := ended + [x];
            (finished + [x])[Max(0, |finished| + 1 - keep)..] == all[|all| - Min(keep, |all|)..]
  {
  }

  lemma FinishKeepsRetained(w: World, id: Id, w': World)
    requires Inv(w) && id in w.j.tasks
    requires w'.j.finished == (w.j.finished + [id])[Max(0, |w.j.finished| + 1 - w.j.keep)..]
    requires w'.j.tasks == w.j.tasks - {id} && w'.j.reservations == w.j.reservations
    requires w'.j.keep == w.j.keep && w'.ended == w.ended + [id] && w'.issued == w.issued
    ensures Retained(w')
  {
    SuffixOfSuffix(w.ended, w.j.finished, w.j.keep, id);
    assert Holders(w, id) && id !in w.ended;
    forall x ensures Holders(w', x) <==> Holders(w, x) && x != id {}
  }

  // What a first finish leaves of the collections.
  lemma FinishShape(j: Jobs, id: Id, state: JobState, error: Option<string>, result: Option<string>)
    requires id in j.tasks
    ensures var j' := Finish(j, id, state, error, result);
            && j'.finished == (j.finished + [id])[Max(0, |j.finished| + 1 - j.keep)..]
            && j'.tasks == j.tasks - {id} && j'.reservations == j.reservations
            && j'.suspended == j.suspended - {id}
            && j'.locks == Drop(j.locks, id)
            && j'.keep == j.keep
  {
    EvictCloses(BeforeEvict(j, id, state, error, result));
  }

  // Evicting forgets the finished jobs that are not retained, and nothing else.
  lemma EvictForgets(m: Jobs, x: Id)
    requires Distinct(m.finished)
    requires forall y :: y in m.finished ==> y in m.kinds && y in m.published
    ensures var e := Evict(m);
            && (x in e.finished ==> x in m.finished)
            && (x in m.finished ==>
                  && (x in e.kinds <==> x in e.finished)
                  && (x in e.published <==> x in e.finished))
            && (x !in m.finished ==>
                  && (x in e.kinds <==> x in m.kinds)
                  && (x in e.published <==> x in m.published))
            && (x in e.kinds ==> x in m.kinds && e.kinds[x] == m.kinds[x])
            && (x in e.published ==> x in m.published && e.published[x] == m.published[x])
  {
    EvictCloses(m);
    var surplus := Max(0, |m.finished| - m.keep);
    if x in m.finished {
      var i :| 0 <= i < |m.finished| && m.finished[i] == x;
      if i >= surplus {
        assert m.finished[surplus..][i - surplus] == x;
      }
    }
  }

  lemma FinishedDistinct(w: World, id: Id, state: JobState, error: Option<string>, result: Option<string>)
    requires Inv(w) && id in w.j.tasks
    ensures var m := BeforeEvict(w.j, id, state, error, result);
            Distinct(m.finished) && forall y :: y in m.finished ==> y in m.kinds && y in m.published
  {
    assert Holders(w, id) && id !in w.ended;
  }

  // Nothing that is still running, reserved or retained is forgotten.
  lemma EvictForgetsOnlyTheOld(w: World, id: Id, state: JobState, error: Option<string>, result: Option<string>, x: Id)
    requires Inv(w) && id in w.j.tasks
    ensures var m := BeforeEvict(w.j, id, state, error, result);
            var e := Evict(m);
            && (x in e.finished ==> x in m.finished)
            && (x in m.finished ==>
                  && (x in e.kinds <==> x in e.finished)
                  && (x in e.published <==> x in e.finished))
            && (x !in m.finished ==>
                  && (x in e.kinds <==> x in m.kinds)
                  && (x in e.published <==> x in m.published))
            && (x in e.kinds ==> x in m.kinds && e.kinds[x] == m.kinds[x])
            && (x in e.published ==> x in m.published && e.published[x] == m.published[x])
  {
    FinishedDistinct(w, id, state, error, result);
    EvictForgets(BeforeEvict(w.j, id, state, error, result), x);
  }

  lemma FinishKeepsBooks(w: World, id: Id, state: JobState, error: Option<string>, result: Option<string>)
    requires Inv(w) && id in w.j.tasks
    ensures Books(w.(j := Finish(w.j, id, state, error, result)))
  {
    var w' := w.(j := Finish(w.j, id, state, error, result));
    var m := BeforeEvict(w.j, id, state, error, result);
    FinishShape(w.j, id, state, error, result);
    forall x ensures (x in w'.j.kinds <==> Holders(w', x) || x in w'.j.finished)
      && (x in w'.j.published <==> x in w'.j.tasks || x in w'.j.finished)
      && (x in w'.j.published ==> w'.j.kinds[x] == w'.j.published[x].kind)
    {
      EvictForgetsOnlyTheOld(w, id, state, error, result, x);
      assert x in m.finished <==> x in w.j.finished || x == id;
      assert x in w.j.finished ==> x in w.ended;
    }
  }

  lemma FinishKeepsViews(w: World, id: Id, state: JobState, error: Option<string>, result: Option<string>)
    requires Inv(w) && id in w.j.tasks && state != Running
    requires Books(w.(j := Finish(w.j, id, state, error, result)))
    ensures ViewsTell(w.(j := Finish(w.j, id, state, error, result)))
  {
    var w' := w.(j := Finish(w.j, id, state, error, result));
    var m := BeforeEvict(w.j, id, state, error, result);
    FinishShape(w.j, id, state, error, result);
    forall x | x in w'.j.published ensures x in m.published && w'.j.published[x] == m.published[x] {
      EvictForgetsOnlyTheOld(w, id, state, error, result, x);
    }
    EndedViewsTell(w, id, Ended(w.j.published[id], state, error, result), w');
  }

  lemma EndedViewsTell(w: World, id: Id, view: JobView, w': World)
    requires Inv(w) && id in w.j.tasks && view.state != Running && Books(w') && w'.issued == w.issued
    requires w'.j.tasks == w.j.tasks - {id} && w'.j.suspended == w.j.suspended - {id}
    requires forall x :: x in w'.j.published ==>
               x in w.j.published && w'.j.published[x] == if x == id then view else w.j.published[x]
    requires forall x :: x in w'.j.finished ==> x in w.j.finished || x == id
    ensures ViewsTell(w')
  {
  }

  lemma FinishKeeps(w: World, id: Id, state: JobState, error: Option<string>, result: Option<string>)
    requires Inv(w) && LocksKnown(w.j) && state != Running
    ensures Inv(Apply(w, DoFinish(id, state, error, result)))
  {
    if id in w.j.tasks {
      var w' := Apply(w, DoFinish(id, state, error, result));
      FinishKeepsBooks(w, id, state, error, result);
      FinishKeepsViews(w, id, state, error, result);
      FinishShape(w.j, id, state, error, result);
      FinishKeepsRetained(w, id, w');
      DroppedKeepsOwnership(w, id, w');
    }
  }

  lemma LendingKeeps(w: World, a: Action)
    requires Inv(w) && LocksKnown(w.j) && (a.DoSuspend? || a.DoResume? || a.DoRelease? || a.DoProgress?)
    ensures Inv(Apply(w, a))
  {
    match a
    case DoRelease(id) => ReleaseKeeps(w, id);
    case DoSuspend(id) => SuspendKeeps(w, id);
    case DoResume(id) => ResumeKeeps(w, id);
    case DoProgress(id, fraction, message) => ProgressKeeps(w, id, fraction, message);
  }

  lemma ProgressKeeps(w: World, id: Id, fraction: Option<real>, message: Option<string>)
    requires Inv(w)
    ensures Inv(w.(j := Progress(w.j, id, fraction, message)))
  {
    var w' := w.(j := Progress(w.j, id, fraction, message));
    if w' != w {
      ViewChangedKeeps(w, id, w'.j.published[id], w');
    }
  }

  // A running job's view with other progress or message.
  lemma ViewChangedKeeps(w: World, id: Id, view: JobView, w': World)
    requires Inv(w) && id in w.j.tasks && w' == w.(j := w.j.(published := w.j.published[id := view]))
    requires view == w.j.published[id].(progress := view.progress, message := view.message)
    ensures Inv(w')
  {
    assert forall x :: Holders(w', x) <==> Holders(w, x);
    SameOwnership(w, w');
    assert Books(w') && Retained(w');
    assert Holders(w, id) && id !in w.ended;
  }

  lemma SameOwnership(w: World, w': World)
    requires Ownership(w) && w'.issued == w.issued && w'.j.locks == w.j.locks && w'.j.suspended == w.j.suspended
    requires w'.j.tasks == w.j.tasks && w'.j.reservations == w.j.reservations
    ensures Ownership(w')
  {
    forall x ensures Holders(w', x) <==> Holders(w, x) {
    }
    forall x | x in w.issued ensures OwnsItsOwn(w', x) <==> OwnsItsOwn(w, x) {
    }
  }

  // Every operation keeps the invariant.
  lemma StepKeeps(w: World, a: Action)
    requires Inv(w) && Legal(w, a)
    ensures LocksKnown(w.j) && Inv(Apply(w, a))
  {
    InvKnowsLocks(w);
    match a
    case DoReserve(kind, resources, id) => ReserveKeeps(w, kind, resources, id);
    case DoStart(kind, resources, id) => StartKeeps(w, kind, resources, id);
    case DoFinish(id, state, error, result) => FinishKeeps(w, id, state, error, result);
    case _ => LendingKeeps(w, a);
  }

  // -- runs -----------------------------------------------------------------------------

  ghost predicate IsRun(run: seq<World>, actions: seq<Action>) {
    && |run| == |actions| + 1
    && (exists keep: nat :: run[0] == World(Empty(keep), map[], []))
    && forall i :: 0 <= i < |actions| ==>
         LocksKnown(run[i].j) && Legal(run[i], actions[i]) && run[i + 1] == Apply(run[i], actions[i])
  }

  lemma {:induction false} RunKeeps(run: seq<World>, actions: seq<Action>, i: nat)
    requires IsRun(run, actions) && i < |run|
    ensures Inv(run[i])
  {
    if i == 0 {
      var keep: nat :| run[0] == World(Empty(keep), map[], []);
      EmptyKeeps(keep);
    } else {
      RunKeeps(run, actions, i - 1);
      StepKeeps(run[i - 1], actions[i - 1]);
    }
  }

  // No resource is held twice: two holders that are not suspended share none.
  lemma HoldersDisjoint(run: seq<World>, actions: seq<Action>, i: nat, a: Id, b: Id, r: Resource)
    requires IsRun(run, actions) && i < |run| && a != b
    requires Holders(run[i], a) && a !in run[i].j.suspended
    requires Holders(run[i], b) && b !in run[i].j.suspended
    ensures a in run[i].issued && b in run[i].issued
    ensures !(r in run[i].issued[a] && r in run[i].issued[b])
  {
    RunKeeps(run, actions, i);
    OwnedIff(run[i].j.locks, a);
    OwnedIff(run[i].j.locks, b);
    if r in run[i].issued[a] && r in run[i].issued[b] {
      OneHolder(run[i].j.locks, r, a, b);
    }
  }

  // A job that ended shows the same outcome for as long as it is shown at all, whatever
  // comes later: the second _finish of the task's callback changes nothing.
  lemma StepKeepsOutcome(w: World, a: Action, id: Id)
    requires Inv(w) && LocksKnown(w.j) && Legal(w, a) && id in w.ended
    ensures id in Apply(w, a).ended
    ensures Shown(Apply(w, a), id) == None || Shown(Apply(w, a), id) == Shown(w, id)
  {
    if a.DoFinish? && a.id in w.j.tasks {
      EvictForgetsOnlyTheOld(w, a.id, a.state, a.error, a.result, id);
    }
  }

  // What a job shows once it ended.
  function Shown(w: World, id: Id): Option<JobView> {
    if id in w.j.published then Some(w.j.published[id]) else None
  }

  // A view that ended so: kind and resources as they were, and what the finish gave.
  ghost predicate EndedSo(view: JobView, was: JobView, state: JobState, error: Option<string>, result: Option<string>) {
    && view.kind == was.kind && view.resources == was.resources && view.suspended == was.suspended
    && view.state == state && view.error == error && view.result == result
    && (if state == Succeeded then view.progress == Some(1.0) && view.message == None
        else view.progress == was.progress && view.message == was.message)
  }

  lemma EndedIs(view: JobView, state: JobState, error: Option<string>, result: Option<string>)
    ensures EndedSo(Ended(view, state, error, result), view, state, error, result)
  {
  }

  lemma FinishedView(w: World, id: Id, state: JobState, error: Option<string>, result: Option<string>, j: Jobs)
    requires Inv(w) && id in w.j.tasks && j == Finish(w.j, id, state, error, result)
    ensures (id in j.published <==> w.j.keep > 0) && id in w.j.published
    ensures id in j.published ==> j.published[id] == Ended(w.j.published[id], state, error, result)
  {
    FinishShape(w.j, id, state, error, result);
    EvictForgetsOnlyTheOld(w, id, state, error, result, id);
    assert Holders(w, id) && id !in w.ended && id !in w.j.finished;
    LastIsKept(w.j.finished, id, w.j.keep);
  }

  // The first finish of a running job shows what it was given, if any finished job is kept.
  lemma FinishShows(w: World, id: Id, state: JobState, error: Option<string>, result: Option<string>)
    requires Inv(w) && LocksKnown(w.j) && id in w.j.tasks && state != Running
    ensures var w' := Apply(w, DoFinish(id, state, error, result));
            && (Shown(w', id).Some? <==> w.j.keep > 0)
            && (w.j.keep > 0 ==> EndedSo(Shown(w', id).value, w.j.published[id], state, error, result))
  {
    FinishedView(w, id, state, error, result, Finish(w.j, id, state, error, result));
    EndedIs(w.j.published[id], state, error, result);
  }

  lemma LastIsKept(finished: seq<Id>, id: Id, keep: nat)
    requires id !in finished
    ensures id in (finished + [id])[Max(0, |finished| + 1 - keep)..] <==> keep > 0
  {
    var all, low := finished + [id], Max(0, |finished| + 1 - keep);
    if keep > 0 {
      assert all[low..][|finished| - low] == id;
    }
  }

  lemma EndedIsTerminal(w: World, id: Id)
    requires Inv(w) && id in w.ended
    ensures Shown(w, id).Some? ==> Shown(w, id).value.state != Running
  {
    assert !Holders(w, id);
  }

  lemma OutcomeKept(run: seq<World>, actions: seq<Action>, k: nat, id: Id)
    requires IsRun(run, actions) && k + 1 < |run| && id in run[k].ended
    ensures id in run[k + 1].ended
    ensures Shown(run[k + 1], id) == None || Shown(run[k + 1], id) == Shown(run[k], id)
  {
    RunKeeps(run, actions, k);
    StepKeepsOutcome(run[k], actions[k], id);
  }

  lemma TerminalInRun(run: seq<World>, actions: seq<Action>, k: nat, id: Id)
    requires IsRun(run, actions) && k < |run| && id in run[k].ended
    ensures Shown(run[k], id).Some? ==> Shown(run[k], id).value.state != Running
  {
    RunKeeps(run, actions, k);
    EndedIsTerminal(run[k], id);
  }

  lemma {:induction false} OneTerminalState(run: seq<World>, actions: seq<Action>, i: nat, k: nat, id: Id)
    requires IsRun(run, actions) && i <= k < |run| && id in run[i].ended
    ensures id in run[k].ended
    ensures Shown(run[k], id) == None || Shown(run[k], id) == Shown(run[i], id)
    ensures Shown(run[k], id).Some? ==> Shown(run[k], id).value.state != Running
    decreases k - i
  {
    if i < k {
      OneTerminalState(run, actions, i, k - 1, id);
      OutcomeKept(run, actions, k - 1, id);
    }
    TerminalInRun(run, actions, k, id);
  }

  // A job is among those that ended exactly through a finish while it ran.
  lemma {:induction false} EndedByFinish(run: seq<World>, actions: seq<Action>, k: nat, id: Id) returns (i: nat)
    requires IsRun(run, actions) && k < |run| && id in run[k].ended
    ensures i < k && actions[i].DoFinish? && actions[i].id == id && id in run[i].j.tasks
  {
    RunKeeps(run, actions, k);
    if k > 0 {
      var a := actions[k - 1];
      if id in run[k - 1].ended {
        i := EndedByFinish(run, actions, k - 1, id);
      } else {
        i := k - 1;
      }
    }
  }

  // What a job shows once it ended is what that finish gave, whatever comes later.
  lemma OutcomeIsTheFinish(run: seq<World>, actions: seq<Action>, i: nat, k: nat)
    requires IsRun(run, actions) && i < k < |run| && actions[i].DoFinish? && actions[i].id in run[i].j.tasks
    ensures var (a, id) := (actions[i], actions[i].id);
            && id in run[i].j.published && id in run[k].ended
            && (Shown(run[k], id).Some? ==> EndedSo(Shown(run[k], id).value, run[i].j.published[id], a.state, a.error, a.result))
  {
    var a, id := actions[i], actions[i].id;
    RunKeeps(run, actions, i);
    assert Legal(run[i], a) && run[i + 1] == Apply(run[i], a);
    FinishShows(run[i], id, a.state, a.error, a.result);
    OneTerminalState(run, actions, i + 1, k, id);
  }

  // -- what a running job shows ------------------------------------------------------------

  // A started job shows its kind and resources, and nothing of progress yet.
  ghost predicate StartedSo(view: JobView, kind: string, resources: seq<Resource>) {
    && view.kind == kind && view.state == Running && !view.suspended
    && (forall r :: r in view.resources <==> r in resources)
    && view.progress == None && view.message == None && view.error == None && view.result == None
  }

  lemma StartShows(w: World, kind: string, resources: seq<Resource>, id: Id)
    requires Inv(w) && LocksKnown(w.j) && id !in w.issued
    requires forall r :: r in resources ==> Holder(w.j.locks, r) == None
    ensures var w' := Apply(w, DoStart(kind, resources, id));
            id in w'.j.tasks && Shown(w', id).Some? && StartedSo(Shown(w', id).value, kind, resources)
  {
    SortedSetCorrect(resources);
  }

  // The fraction told, as far as it lies from 0 to 1, and the message, of a running job only.
  ghost predicate ProgressSo(view: JobView, was: JobView, fraction: Option<real>, message: Option<string>) {
    && view == was.(progress := view.progress, message := message)
    && (view.progress.Some? <==> fraction.Some?)
    && (fraction.Some? ==>
          && 0.0 <= view.progress.value <= 1.0
          && (0.0 <= fraction.value <= 1.0 ==> view.progress == fraction)
          && (fraction.value < 0.0 ==> view.progress.value == 0.0)
          && (fraction.value > 1.0 ==> view.progress.value == 1.0))
  }

  lemma ProgressShows(w: World, id: Id, fraction: Option<real>, message: Option<string>, x: Id)
    requires Inv(w)
    ensures var w' := w.(j := Progress(w.j, id, fraction, message));
            if x == id && id in w.j.tasks
            then Shown(w, x).Some? && Shown(w', x).Some? && ProgressSo(Shown(w', x).value, Shown(w, x).value, fraction, message)
            else Shown(w', x) == Shown(w, x)
  {
  }

  ghost predicate LeavesView(w: World, w': World, x: Id, own: bool)
    requires Shown(w, x).Some? && Shown(w', x).Some?
  {
    var was, view := Shown(w, x).value, Shown(w', x).value;
    view.kind == was.kind && view.resources == was.resources && (own || view == was)
  }

  lemma FinishLeavesView(w: World, id: Id, state: JobState, error: Option<string>, result: Option<string>, w': World, x: Id)
    requires Inv(w) && w' == w.(j := Finish(w.j, id, state, error, result)) && Shown(w, x).Some? && Shown(w', x).Some?
    ensures LeavesView(w, w', x, id == x)
  {
    if id in w.j.tasks {
      EvictForgetsOnlyTheOld(w, id, state, error, result, x);
    }
  }

  lemma TakingLeavesView(w: World, a: Action, x: Id)
    requires Inv(w) && LocksKnown(w.j) && Legal(w, a) && (a.DoStart? || a.DoReserve?)
    requires Shown(w, x).Some? && Shown(Apply(w, a), x).Some?
    ensures LeavesView(w, Apply(w, a), x, a.id == x)
  {
    NotKnownYet(w, a.id);
  }

  // Nothing changes a job's kind and resources while it is shown; nobody else's operation
  // changes what it shows at all.
  lemma OthersLeaveView(w: World, a: Action, x: Id)
    requires Inv(w) && LocksKnown(w.j) && Legal(w, a) && Shown(w, x).Some? && Shown(Apply(w, a), x).Some?
    ensures LeavesView(w, Apply(w, a), x, a.id == x)
  {
    if a.DoFinish? {
      FinishLeavesView(w, a.id, a.state, a.error, a.result, w.(j := Apply(w, a).j), x);
    } else if a.DoStart? || a.DoReserve? {
      TakingLeavesView(w, a, x);
    }
  }

  // -- who has what, and as whom ------------------------------------------------------------

  // The action takes resources under a new id, all free or not at all.
  ghost predicate Asks(a: Action) {
    a.DoReserve? || a.DoStart?
  }

  ghost predicate AllFree(w: World, resources: seq<Resource>) {
    forall r :: r in resources ==> Holder(w.j.locks, r) == None
  }

  // What is asked for is taken exactly if all of it is free, and then every resource of it has
  // the new holder, of the kind told, and nobody else's holder changes; otherwise nothing does.
  lemma TakenIff(w: World, a: Action)
    requires Inv(w) && LocksKnown(w.j) && Legal(w, a) && Asks(a)
    ensures var w' := Apply(w, a);
            if AllFree(w, a.resources)
            then && Holders(w', a.id) && a.id in w'.j.kinds && w'.j.kinds[a.id] == a.kind
                 && (a.id in w'.j.reservations <==> a.DoReserve?)
                 && forall r :: Holder(w'.j.locks, r) == if r in a.resources then Some(a.id) else Holder(w.j.locks, r)
            else w' == w
  {
    SortedSetCorrect(a.resources);
    if AllFree(w, a.resources) {
      TakenHolder(w, SortedSet(a.resources), a.id);
    }
  }

  lemma {:induction false} AppendedHolder(locks: seq<Lock>, taken: seq<Lock>, r: Resource)
    ensures Holder(locks + taken, r) == if Holder(locks, r).Some? then Holder(locks, r) else Holder(taken, r)
  {
    if locks == [] {
      assert locks + taken == taken;
    } else {
      ConcatTail(locks, taken);
      AppendedHolder(locks[1..], taken, r);
    }
  }

  lemma TakenHolder(w: World, resources: seq<Resource>, id: Id)
    requires Inv(w) && Distinct(resources) && AllFree(w, resources)
    ensures forall r :: Holder(PutAll(w.j.locks, resources, id), r) == if r in resources then Some(id) else Holder(w.j.locks, r)
  {
    PutAllIsAppend(w.j.locks, resources, id);
    var taken := LocksOf(resources, id);
    forall r ensures Holder(w.j.locks + taken, r) == if r in resources then Some(id) else Holder(w.j.locks, r) {
      AppendedHolder(w.j.locks, taken, r);
      HolderIff(taken, r);
      if r in resources {
        var k :| 0 <= k < |resources| && resources[k] == r;
        assert taken[k] == Lock(r, id);
      }
    }
  }

  // An id handed out for that kind; while it is a holder, it is one of that kind.
  ghost predicate HeldAs(w: World, id: Id, kind: string, reserved: bool) {
    && id in w.issued
    && (Holders(w, id) ==> id in w.j.kinds && w.j.kinds[id] == kind && (id in w.j.reservations <==> reserved))
  }

  lemma FinishLeaves(w: World, job: Id, state: JobState, error: Option<string>, result: Option<string>, id: Id, kind: string, reserved: bool)
    requires Inv(w) && job in w.j.tasks && HeldAs(w, id, kind, reserved)
    ensures HeldAs(w.(j := Finish(w.j, job, state, error, result)), id, kind, reserved)
  {
    FinishShape(w.j, job, state, error, result);
    EvictForgetsOnlyTheOld(w, job, state, error, result, id);
    if Holders(w, id) && id != job {
      assert id !in w.ended && id !in w.j.finished;
      assert id !in BeforeEvict(w.j, job, state, error, result).finished;
    }
  }

  lemma TakingLeaves(w: World, a: Action, id: Id, kind: string, reserved: bool)
    requires LocksKnown(w.j) && Legal(w, a) && Asks(a) && HeldAs(w, id, kind, reserved)
    ensures HeldAs(Apply(w, a), id, kind, reserved)
  {
    assert a.id !in w.issued;
  }

  lemma LendingLeaves(w: World, a: Action, id: Id, kind: string, reserved: bool)
    requires Inv(w) && LocksKnown(w.j) && (a.DoSuspend? || a.DoResume? || a.DoProgress? || a.DoRelease?) && HeldAs(w, id, kind, reserved)
    ensures HeldAs(Apply(w, a), id, kind, reserved)
  {
  }

  // A holder's kind, and whether it is a reservation, never change.
  lemma KindKept(w: World, a: Action, id: Id, kind: string, reserved: bool)
    requires Inv(w) && LocksKnown(w.j) && Legal(w, a) && HeldAs(w, id, kind, reserved)
    ensures HeldAs(Apply(w, a), id, kind, reserved)
  {
    if Asks(a) {
      TakingLeaves(w, a, id, kind, reserved);
    } else if a.DoFinish? {
      if a.id in w.j.tasks {
        FinishLeaves(w, a.id, a.state, a.error, a.result, id, kind, reserved);
      }
    } else {
      LendingLeaves(w, a, id, kind, reserved);
    }
  }

  lemma TakenAs(w: World, a: Action)
    requires Inv(w) && LocksKnown(w.j) && Legal(w, a) && Asks(a) && AllFree(w, a.resources)
    ensures HeldAs(Apply(w, a), a.id, a.kind, a.DoReserve?)
  {
    TakenIff(w, a);
    SortedSetCorrect(a.resources);
  }

  lemma KindFirst(run: seq<World>, actions: seq<Action>, i: nat)
    requires IsRun(run, actions) && i < |actions| && Asks(actions[i]) && AllFree(run[i], actions[i].resources)
    ensures HeldAs(run[i + 1], actions[i].id, actions[i].kind, actions[i].DoReserve?)
  {
    RunKeeps(run, actions, i);
    TakenAs(run[i], actions[i]);
  }

  lemma KindNext(run: seq<World>, actions: seq<Action>, k: nat, id: Id, kind: string, reserved: bool)
    requires IsRun(run, actions) && k < |actions| && HeldAs(run[k], id, kind, reserved)
    ensures HeldAs(run[k + 1], id, kind, reserved)
  {
    RunKeeps(run, actions, k);
    KindKept(run[k], actions[k], id, kind, reserved);
  }

  lemma {:induction false} KindAsked(run: seq<World>, actions: seq<Action>, i: nat, k: nat)
    requires IsRun(run, actions) && i < k < |run| && Asks(actions[i]) && AllFree(run[i], actions[i].resources)
    ensures HeldAs(run[k], actions[i].id, actions[i].kind, actions[i].DoReserve?)
    decreases k
  {
    if k == i + 1 {
      KindFirst(run, actions, i);
    } else {
      KindAsked(run, actions, i, k - 1);
      KindNext(run, actions, k - 1, actions[i].id, actions[i].kind, actions[i].DoReserve?);
    }
  }

  // Over every run: whoever finds a resource held is told the kind its holder gave when it took
  // it, with the job's id if it is a job and without one if it is a reservation.
  lemma BusyTells(run: seq<World>, actions: seq<Action>, i: nat, k: nat, r: Resource)
    requires IsRun(run, actions) && i < k < |run| && Asks(actions[i]) && AllFree(run[i], actions[i].resources)
    requires Holder(run[k].j.locks, r) == Some(actions[i].id)
    ensures LocksKnown(run[k].j)
    ensures CheckFree(run[k].j, [r]) == Some(Busy(r, actions[i].kind, if actions[i].DoStart? then Some(actions[i].id) else None))
  {
    RunKeeps(run, actions, k);
    InvKnowsLocks(run[k]);
    HolderIff(run[k].j.locks, r);
    KindAsked(run, actions, i, k);
  }

  // cancel asks exactly the running jobs that have not ended to stop, and knows exactly the
  // jobs that are shown.
  lemma CancelKnows(w: World, id: Id, done: bool)
    requires Inv(w)
    ensures Cancel(w.j, id, done) == Some(true) <==> id in w.j.tasks && !done
    ensures Cancel(w.j, id, done) == None <==> id !in w.j.published
  {
    if id in w.j.tasks { assert Holders(w, id); }
  }

  // The shown finished jobs are the last `keep` to end, in the order they ended.
  lemma OldestForgottenFirst(run: seq<World>, actions: seq<Action>, i: nat)
    requires IsRun(run, actions) && i < |run|
    ensures var w := run[i];
            && w.j.finished == w.ended[|w.ended| - Min(w.j.keep, |w.ended|)..]
            && |w.j.finished| <= w.j.keep
            && (forall id :: id in w.j.published && w.j.published[id].state != Running <==> id in w.j.finished)
            && (forall id :: id in w.j.published && w.j.published[id].state == Running <==> id in w.j.tasks)
  {
    RunKeeps(run, actions, i);
    var w := run[i];
    forall id | id in w.j.finished ensures id !in w.j.tasks {
      assert id in w.ended;
    }
  }

  // -- what one call undoes -----------------------------------------------------------------

  lemma {:induction false} DropUndoesAppend(locks: seq<Lock>, taken: seq<Lock>, id: Id)
    requires forall l :: l in locks ==> l.holder != id
    requires forall l :: l in taken ==> l.holder == id
    ensures Drop(locks + taken, id) == locks
  {
    if locks != [] {
      assert (locks + taken)[1..] == locks[1..] + taken;
      DropUndoesAppend(locks[1..], taken, id);
      assert locks[0] in locks;
    } else if taken != [] {
      assert ([] + taken)[1..] == [] + taken[1..];
      DropUndoesAppend([], taken[1..], id);
      assert taken[0] in taken;
    }
  }

  lemma TakenThenDropped(w: World, resources: seq<Resource>, id: Id)
    requires Inv(w) && id !in w.issued && Distinct(resources)
    requires forall r :: r in resources ==> Holder(w.j.locks, r) == None
    ensures Drop(PutAll(w.j.locks, resources, id), id) == w.j.locks
  {
    PutAllIsAppend(w.j.locks, resources, id);
    forall l | l in w.j.locks ensures l.holder != id {
      assert Holders(w, l.holder);
    }
    DropUndoesAppend(w.j.locks, LocksOf(resources, id), id);
  }

  // Releasing a reservation at once leaves the manager as it was.
  lemma ReleaseUndoesReserve(w: World, kind: string, resources: seq<Resource>, id: Id)
    requires Inv(w) && LocksKnown(w.j) && id !in w.issued
    requires Reserve(w.j, kind, SortedSet(resources), id).Granted?
    ensures Release(Reserve(w.j, kind, SortedSet(resources), id).jobs, id) == w.j
  {
    var sorted := SortedSet(resources);
    SortedSetCorrect(resources);
    TakenThenDropped(w, sorted, id);
    NotKnownYet(w, id);
    var taken := w.j.(locks := PutAll(w.j.locks, sorted, id), kinds := w.j.kinds[id := kind], reservations := w.j.reservations + {id});
    assert Reserve(w.j, kind, sorted, id) == Granted(taken);
    assert id !in w.j.reservations by { assert !Holders(w, id); }
    assert w.j.kinds[id := kind] - {id} == w.j.kinds;
    assert w.j.reservations + {id} - {id} == w.j.reservations;
  }

  // What a job lent is free until somebody takes it.
  lemma LentIsFree(w: World, id: Id)
    requires Inv(w) && id in w.j.tasks && id !in w.j.suspended
    ensures forall r :: r in w.issued[id] ==> Holder(Drop(w.j.locks, id), r) == None
  {
    DropIff(w.j.locks, id);
    OwnedIff(w.j.locks, id);
    assert Holders(w, id) && OwnsItsOwn(w, id);
    forall r | r in w.issued[id] ensures Holder(Drop(w.j.locks, id), r) == None {
      HolderIff(Drop(w.j.locks, id), r);
      forall l | l in Drop(w.j.locks, id) ensures l.resource != r {
        if l.resource == r {
          OneHolder(w.j.locks, r, id, l.holder);
        }
      }
    }
  }

  lemma ResumeAfterSuspend(j: Jobs, id: Id, resources: seq<Resource>)
    requires id in j.tasks && id !in j.suspended && id in j.published && !j.published[id].suspended
    requires Owned(j.locks, id) == resources && LocksKnown(Suspend(j, id).value)
    requires forall r :: r in resources ==> Holder(Drop(j.locks, id), r) == None
    ensures Resume(Suspend(j, id).value, id) == Granted(j.(locks := PutAll(Drop(j.locks, id), resources, id)))
  {
    assert j.suspended[id := resources] - {id} == j.suspended;
    var view := j.published[id];
    assert view.(suspended := true).(suspended := false) == view;
    assert j.published[id := view.(suspended := true)][id := view] == j.published;
  }

  // Resuming at once gives every holder back what it had, and the same published tree.
  lemma ResumeUndoesSuspend(w: World, id: Id, other: Id)
    requires Inv(w) && id in w.j.tasks && id !in w.j.suspended
    ensures var lent := Suspend(w.j, id).value;
            && LocksKnown(lent)
            && Resume(lent, id).Granted?
            && Owned(Resume(lent, id).jobs.locks, other) == Owned(w.j.locks, other)
            && Resume(lent, id).jobs.(locks := w.j.locks) == w.j
  {
    SuspendKeeps(w, id);
    InvKnowsLocks(w.(j := Suspend(w.j, id).value));
    assert Holders(w, id) && OwnsItsOwn(w, id);
    LentIsFree(w, id);
    ResumeAfterSuspend(w.j, id, w.issued[id]);
    DropUnique(w.j.locks, id);
    PutAllOwned(Drop(w.j.locks, id), w.issued[id], id, other);
    DropOwned(w.j.locks, id, other);
  }
}
