/** Two starts of guiding at once, and a hold nobody asks for any more. */
module Overlap {
  import opened Common
  import opened Jobs
  import opened JobRuns
  import opened Guiding

  // A sequence starts guiding in its own job, which has the mount (server/src/nocs/sequence/service.py:43-48);
  // the user asks for guiding meanwhile, in a job that locks only PHD2
  // (server/src/nocs/guiding/service.py:84, 310). The sequence is cancelled while it connects
  // PHD2's equipment, and the user's start goes on from there.

  const PHD2 := "phd2"
  const SEQUENCE_LOCKS := ["main_camera", "filter_wheel", "focuser", "mount"]

  // The two jobs, and the tokens of the service's reservations; `unused` is never given out.
  datatype Ids = Ids(sequence: Id, user: Id, first: Id, second: Id, mount: Id, unused: Id) {
    predicate Different() {
      && sequence !in {user, first, second, mount, unused} && user !in {first, second, mount, unused}
      && first !in {second, mount, unused} && second !in {mount, unused} && mount != unused
    }
  }

  // The sequence's job starts, and its start of guiding gets as far as the camera; the user's
  // start begins; the sequence's is cancelled, and its job ends; the user's goes on.
  function Overlapping(ids: Ids, locks: seq<Resource>): seq<Event> {
    [Connect, JobManagerDoes(DoStart("sequence", locks, ids.sequence)), Begin(ids.sequence, ids.unused), TakeCamera(ids.first),
     JobManagerDoes(DoStart("guide", [PHD2], ids.user)), Begin(ids.user, ids.unused),
     GiveCamera, End(ids.unused), JobManagerDoes(DoFinish(ids.sequence, Cancelled, None, None)),
     TakeCamera(ids.second), Reach(ids.mount)]
  }

  // -- what of a state decides these events ------------------------------------------------------

  // The service, the ids given so far, the jobs that run, who has the mount, the guide camera
  // and PHD2, and whether anything is locked at all.
  datatype Stage = Stage(
    s: Service, ids: set<Id>, tasks: set<Id>, mount: Option<Id>, camera: Option<Id>, phd2: Option<Id>, nothing: bool)

  ghost predicate At(r: Rig, g: Stage) {
    && Good(r) && r.s == g.s && r.w.issued.Keys == g.ids && r.w.j.tasks == g.tasks
    && Holder(r.w.j.locks, MOUNT) == g.mount && Holder(r.w.j.locks, CAMERA) == g.camera
    && Holder(r.w.j.locks, PHD2) == g.phd2 && (g.nothing ==> r.w.j.locks == [])
  }

  function Started(g: Stage, resources: seq<Resource>, id: Id): Stage {
    g.(ids := g.ids + {id}, tasks := g.tasks + {id}, nothing := false,
       mount := if MOUNT in resources then Some(id) else g.mount,
       camera := if CAMERA in resources then Some(id) else g.camera,
       phd2 := if PHD2 in resources then Some(id) else g.phd2)
  }

  function Dropped(g: Stage, id: Id): Stage {
    g.(nothing := false,
       mount := if g.mount == Some(id) then None else g.mount,
       camera := if g.camera == Some(id) then None else g.camera,
       phd2 := if g.phd2 == Some(id) then None else g.phd2)
  }

  // What such an event does, where this much of the state tells.
  function Next(g: Stage, e: Event): Option<Stage> {
    match e
    case Connect => Some(g.(s := g.s.(connected := true)))
    case JobManagerDoes(DoStart(_, resources, id)) =>
      if id !in g.ids && (g.nothing || (resources == [PHD2] && g.phd2 == None)) then Some(Started(g, resources, id)) else None
    case JobManagerDoes(DoFinish(id, Cancelled, None, None)) =>
      if id in g.tasks then Some(Dropped(g, id).(tasks := g.tasks - {id})) else None
    case Begin(id, token) =>
      if token in g.ids || (g.mount == Some(id) && (g.s.mountHold.Some? || Wanted(g.s))) then None
      else Some(g.(s := g.s.(starting := Some(id), under := if g.mount == Some(id) then Some(id) else g.s.under)))
    case End(token) =>
      if token in g.ids || g.s.mountHold.Some? || Wanted(g.s.(starting := None)) then None
      else Some(g.(s := g.s.(starting := None)))
    case TakeCamera(token) =>
      if token in g.ids || g.camera.Some? || g.s.cameraHold.Some? then None
      else Some(g.(s := g.s.(cameraHold := Some(token)), ids := g.ids + {token}, camera := Some(token), nothing := false))
    case GiveCamera =>
      if g.s.cameraHold == None then None
      else Some(Dropped(g, g.s.cameraHold.value).(s := g.s.(cameraHold := None)))
    case Reach(token) =>
      if token in g.ids || g.mount.Some? || g.s.mountHold.Some? then None
      else Some(g.(s := g.s.(mountHold := Some(token)), ids := g.ids + {token}, mount := Some(token), nothing := false))
    case _ => None
  }

  lemma {:induction false} HolderOfLocks(resources: seq<Resource>, id: Id, r: Resource)
    ensures Holder(LocksOf(resources, id), r) == if r in resources then Some(id) else None
  {
    if resources != [] {
      HolderOfLocks(resources[1..], id, r);
      assert LocksOf(resources, id)[1..] == LocksOf(resources[1..], id);
    }
  }

  lemma StartGranted(w: World, kind: string, sorted: seq<Resource>, id: Id)
    requires LocksKnown(w.j) && forall x :: x in sorted ==> Holder(w.j.locks, x) == None
    ensures var o := Start(w.j, kind, sorted, id);
            o.Granted? && o.jobs.locks == PutAll(w.j.locks, sorted, id) && o.jobs.tasks == w.j.tasks + {id}
  {
  }

  // A job that gets all it asks for.
  lemma JobStarts(w: World, kind: string, resources: seq<Resource>, id: Id, r: Resource)
    requires Inv(w) && id !in w.issued && forall x :: x in resources ==> Holder(w.j.locks, x) == None
    ensures var w' := Do(w, DoStart(kind, resources, id));
            && w'.issued.Keys == w.issued.Keys + {id} && w'.j.tasks == w.j.tasks + {id}
            && Holder(w'.j.locks, r) == if r in resources then Some(id) else Holder(w.j.locks, r)
  {
    var sorted := SortedSet(resources);
    SortedSetCorrect(resources);
    InvKnowsLocks(w);
    StartGranted(w, kind, sorted, id);
    HolderAfterStart(w.j.locks, sorted, id, r);
  }

  lemma HolderAfterStart(locks: seq<Lock>, sorted: seq<Resource>, id: Id, r: Resource)
    requires UniqueResources(locks) && Distinct(sorted) && forall x :: x in sorted ==> Holder(locks, x) == None
    ensures Holder(PutAll(locks, sorted, id), r) == if r in sorted then Some(id) else Holder(locks, r)
  {
    PutAllIsAppend(locks, sorted, id);
    HolderOfConcat(locks, LocksOf(sorted, id), r);
    HolderOfLocks(sorted, id, r);
  }

  lemma JobEnds(w: World, id: Id, state: JobState, r: Resource)
    requires Inv(w) && id in w.j.tasks && state != Running
    ensures var w' := Do(w, DoFinish(id, state, None, None));
            && w'.issued == w.issued && w'.j.tasks == w.j.tasks - {id}
            && Holder(w'.j.locks, r) == if Holder(w.j.locks, r) == Some(id) then None else Holder(w.j.locks, r)
  {
    FinishShape(w.j, id, state, None, None);
    HolderOfDrop(w.j.locks, id, r);
  }

  lemma HoldTaken(w: World, resource: Resource, token: Id, r: Resource)
    requires Inv(w) && token !in w.issued && Holder(w.j.locks, resource) == None
    ensures var w' := Do(w, DoReserve("guiding", [resource], token));
            && w'.issued.Keys == w.issued.Keys + {token} && w'.j.tasks == w.j.tasks
            && Holder(w'.j.locks, r) == if r == resource then Some(token) else Holder(w.j.locks, r)
  {
    ReserveOne(w, resource, token);
    HolderOfConcat(w.j.locks, [Lock(resource, token)], r);
  }

  lemma HoldGiven(w: World, token: Id, r: Resource)
    requires Inv(w) && token in w.j.reservations
    ensures var w' := Do(w, DoRelease(token));
            && w'.issued == w.issued && w'.j.tasks == w.j.tasks
            && Holder(w'.j.locks, r) == if Holder(w.j.locks, r) == Some(token) then None else Holder(w.j.locks, r)
  {
    HolderOfDrop(w.j.locks, token, r);
  }

  // -- it does that ---------------------------------------------------------------------------

  lemma StartsJob(r: Rig, g: Stage, kind: string, resources: seq<Resource>, id: Id)
    requires At(r, g) && Next(g, JobManagerDoes(DoStart(kind, resources, id))).Some?
    ensures var e := JobManagerDoes(DoStart(kind, resources, id));
            Possible(r, e) && At(React(r, e), Started(g, resources, id))
  {
    ReactKeeps(r, JobManagerDoes(DoStart(kind, resources, id)));
    JobStarts(r.w, kind, resources, id, MOUNT);
    JobStarts(r.w, kind, resources, id, CAMERA);
    JobStarts(r.w, kind, resources, id, PHD2);
  }

  lemma EndsJob(r: Rig, g: Stage, id: Id)
    requires At(r, g) && id in g.tasks
    ensures var e := JobManagerDoes(DoFinish(id, Cancelled, None, None));
            Possible(r, e) && At(React(r, e), Dropped(g, id).(tasks := g.tasks - {id}))
  {
    ReactKeeps(r, JobManagerDoes(DoFinish(id, Cancelled, None, None)));
    JobEnds(r.w, id, Cancelled, MOUNT);
    JobEnds(r.w, id, Cancelled, CAMERA);
    JobEnds(r.w, id, Cancelled, PHD2);
  }

  lemma TakesHold(r: Rig, g: Stage, e: Event)
    requires At(r, g) && (e.TakeCamera? || e.Reach?) && Next(g, e).Some?
    ensures Possible(r, e) && At(React(r, e), Next(g, e).value)
  {
    var resource := if e.TakeCamera? then CAMERA else MOUNT;
    ReactKeeps(r, e);
    HoldTaken(r.w, resource, e.token, MOUNT);
    HoldTaken(r.w, resource, e.token, CAMERA);
    HoldTaken(r.w, resource, e.token, PHD2);
  }

  lemma GivesCamera(r: Rig, g: Stage)
    requires At(r, g) && g.s.cameraHold.Some?
    ensures At(React(r, GiveCamera), Dropped(g, g.s.cameraHold.value).(s := g.s.(cameraHold := None)))
  {
    ReactKeeps(r, GiveCamera);
    HoldGiven(r.w, g.s.cameraHold.value, MOUNT);
    HoldGiven(r.w, g.s.cameraHold.value, CAMERA);
    HoldGiven(r.w, g.s.cameraHold.value, PHD2);
  }

  lemma Simulates(r: Rig, g: Stage, e: Event)
    requires At(r, g) && Next(g, e).Some?
    ensures Possible(r, e) && At(React(r, e), Next(g, e).value)
  {
    match e
    case JobManagerDoes(DoStart(kind, resources, id)) => StartsJob(r, g, kind, resources, id);
    case JobManagerDoes(DoFinish(id, _, _, _)) => EndsJob(r, g, id);
    case TakeCamera(_) => TakesHold(r, g, e);
    case Reach(_) => TakesHold(r, g, e);
    case GiveCamera => GivesCamera(r, g);
    case Connect => ReactKeeps(r, e);
    case Begin(_, _) => ReactKeeps(r, e);
    case End(_) => ReactKeeps(r, e);
  }

  // -- the run ----------------------------------------------------------------------------------

  ghost predicate Path(run: seq<Rig>, events: seq<Event>) {
    |run| == |events| + 1 && forall i :: 0 <= i < |events| ==> Follows(run[i], events[i], run[i + 1])
  }

  lemma Longer(run: seq<Rig>, events: seq<Event>, e: Event, g: Stage, now: Stage) returns (longer: seq<Rig>)
    requires Path(run, events) && At(run[|events|], g) && Next(g, e) == Some(now)
    ensures Path(longer, events + [e]) && longer[0] == run[0] && At(longer[|events| + 1], now)
  {
    Simulates(run[|events|], g, e);
    var next := React(run[|events|], e);
    assert Follows(run[|events|], e, next);
    longer := run + [next];
    PathLonger(run, events, e, next);
  }

  lemma PathLonger(run: seq<Rig>, events: seq<Event>, e: Event, next: Rig)
    requires Path(run, events) && Follows(run[|events|], e, next)
    ensures Path(run + [next], events + [e])
  {
    var longer := run + [next];
    forall i | 0 <= i <= |events| ensures Follows(longer[i], (events + [e])[i], longer[i + 1]) {
      if i < |events| {
        assert Follows(run[i], events[i], run[i + 1]);
      }
    }
  }

  function After(g: Stage, events: seq<Event>): Option<Stage> {
    if events == [] then Some(g)
    else
      var before := After(g, events[..|events| - 1]);
      if before == None then None else Next(before.value, events[|events| - 1])
  }

  lemma {:induction false} Simulated(r: Rig, g: Stage, events: seq<Event>) returns (run: seq<Rig>)
    requires At(r, g) && After(g, events).Some?
    ensures Path(run, events) && run[0] == r && At(run[|events|], After(g, events).value)
  {
    if events == [] {
      run := [r];
    } else {
      var n := |events| - 1;
      run := Simulated(r, g, events[..n]);
      assert events == events[..n] + [events[n]];
      run := Longer(run, events[..n], events[n], After(g, events[..n]).value, After(g, events).value);
    }
  }

  lemma AfterStep(g: Stage, events: seq<Event>, n: nat, before: Stage, now: Stage)
    requires n < |events| && After(g, events[..n]) == Some(before) && Next(before, events[n]) == Some(now)
    ensures After(g, events[..n + 1]) == Some(now)
  {
    assert events[..n + 1][..n] == events[..n];
  }

  const AT_FIRST := Stage(IDLE, {}, {}, None, None, None, true)

  // The stages on the way.
  function SequenceRuns(ids: Ids): Stage {
    Stage(IDLE.(connected := true), {ids.sequence}, {ids.sequence}, Some(ids.sequence), None, None, false)
  }

  function Connecting(ids: Ids): Stage {
    SequenceRuns(ids).(s := IDLE.(connected := true, starting := Some(ids.sequence), under := Some(ids.sequence), cameraHold := Some(ids.first)),
                   ids := {ids.sequence, ids.first}, camera := Some(ids.first))
  }

  function BothBegun(ids: Ids): Stage {
    Connecting(ids).(s := Connecting(ids).s.(starting := Some(ids.user)), ids := {ids.sequence, ids.first, ids.user},
                     tasks := {ids.sequence, ids.user}, phd2 := Some(ids.user))
  }

  function UserLeft(ids: Ids): Stage {
    Stage(IDLE.(connected := true, under := Some(ids.sequence)), {ids.sequence, ids.first, ids.user}, {ids.user},
          None, None, Some(ids.user), false)
  }

  lemma SequenceStarts(ids: Ids, locks: seq<Resource>)
    requires MOUNT in locks && CAMERA !in locks && PHD2 !in locks
    ensures After(AT_FIRST, Overlapping(ids, locks)[..2]) == Some(SequenceRuns(ids))
  {
    var events := Overlapping(ids, locks);
    var connected := AT_FIRST.(s := IDLE.(connected := true));
    AfterStep(AT_FIRST, events, 0, AT_FIRST, connected);
    assert connected.ids + {ids.sequence} == {ids.sequence} == connected.tasks + {ids.sequence};
    AfterStep(AT_FIRST, events, 1, connected, SequenceRuns(ids));
  }

  lemma SequenceConnects(ids: Ids, locks: seq<Resource>)
    requires ids.Different() && After(AT_FIRST, Overlapping(ids, locks)[..2]) == Some(SequenceRuns(ids))
    ensures After(AT_FIRST, Overlapping(ids, locks)[..4]) == Some(Connecting(ids))
  {
    var events := Overlapping(ids, locks);
    var begun := SequenceRuns(ids).(s := IDLE.(connected := true, starting := Some(ids.sequence), under := Some(ids.sequence)));
    AfterStep(AT_FIRST, events, 2, SequenceRuns(ids), begun);
    assert begun.ids + {ids.first} == {ids.sequence, ids.first};
    AfterStep(AT_FIRST, events, 3, begun, Connecting(ids));
  }

  lemma UserBegins(ids: Ids, locks: seq<Resource>)
    requires ids.Different() && After(AT_FIRST, Overlapping(ids, locks)[..4]) == Some(Connecting(ids))
    ensures After(AT_FIRST, Overlapping(ids, locks)[..6]) == Some(BothBegun(ids))
  {
    var events := Overlapping(ids, locks);
    var started := BothBegun(ids).(s := Connecting(ids).s);
    assert Connecting(ids).ids + {ids.user} == {ids.sequence, ids.first, ids.user};
    assert Connecting(ids).tasks + {ids.user} == {ids.sequence, ids.user};
    AfterStep(AT_FIRST, events, 4, Connecting(ids), started);
    AfterStep(AT_FIRST, events, 5, started, BothBegun(ids));
  }

  lemma SequenceCancelled(ids: Ids, locks: seq<Resource>)
    requires ids.Different() && After(AT_FIRST, Overlapping(ids, locks)[..6]) == Some(BothBegun(ids))
    ensures After(AT_FIRST, Overlapping(ids, locks)[..9]) == Some(UserLeft(ids))
  {
    var events := Overlapping(ids, locks);
    var given := BothBegun(ids).(s := BothBegun(ids).s.(cameraHold := None), camera := None);
    AfterStep(AT_FIRST, events, 6, BothBegun(ids), given);
    var ended := given.(s := given.s.(starting := None));
    AfterStep(AT_FIRST, events, 7, given, ended);
    assert ended.tasks - {ids.sequence} == {ids.user};
    AfterStep(AT_FIRST, events, 8, ended, UserLeft(ids));
  }

  // The user's start holds the mount then, though no start is known to run and PHD2 does not
  // move it.
  lemma UserHolds(ids: Ids, locks: seq<Resource>) returns (g: Stage)
    requires ids.Different() && After(AT_FIRST, Overlapping(ids, locks)[..9]) == Some(UserLeft(ids))
    ensures After(AT_FIRST, Overlapping(ids, locks)) == Some(g) && g.s.mountHold.Some? && !Wanted(g.s)
  {
    var events := Overlapping(ids, locks);
    var before := UserLeft(ids);
    var has := before.(s := before.s.(cameraHold := Some(ids.second)), ids := before.ids + {ids.second}, camera := Some(ids.second));
    AfterStep(AT_FIRST, events, 9, before, has);
    g := has.(s := has.s.(mountHold := Some(ids.mount)), ids := has.ids + {ids.mount}, mount := Some(ids.mount));
    AfterStep(AT_FIRST, events, 10, has, g);
    TakeAll(events);
  }

  // So a hold can outlive its reason: from the first state on, by what the service and the
  // two jobs do.
  lemma OverlappingStarts(keep: nat, ids: Ids, locks: seq<Resource>) returns (run: seq<Rig>)
    requires ids.Different() && MOUNT in locks && CAMERA !in locks && PHD2 !in locks
    ensures Guiding.IsRun(run, Overlapping(ids, locks)) && !HoldOnlyWhenWanted(run[11])
  {
    EmptyKeeps(keep);
    SequenceStarts(ids, locks);
    SequenceConnects(ids, locks);
    UserBegins(ids, locks);
    SequenceCancelled(ids, locks);
    var g := UserHolds(ids, locks);
    run := Simulated(Rig(World(Empty(keep), map[], []), IDLE), AT_FIRST, Overlapping(ids, locks));
  }

  // A sequence's locks are such.
  lemma SequenceLocksFit()
    ensures MOUNT in SEQUENCE_LOCKS && CAMERA !in SEQUENCE_LOCKS && PHD2 !in SEQUENCE_LOCKS
  {
    assert SEQUENCE_LOCKS[3] == MOUNT;
  }
}
