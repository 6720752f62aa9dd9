/** PHD2's holds (server/src/nocs/guiding/service.py). */
module Guiding {
  import opened Common
  import opened Jobs
  import opened JobRuns

  // A `Rig` is the job manager's history together with the guiding service's own fields, its
  // holds on the guide camera and the mount among them. Each function is one piece of the
  // service that runs without an await; `token` is the uuid a reservation made by it gets.

  const MOUNT := "mount"
  const CAMERA := "guide_camera"
  // While guiding, calibrating, or looking for a lost star PHD2 moves the mount.
  const GUIDING_STATES := {"Calibrating", "Guiding", "LostLock"}

  datatype Service = Service(
    connected: bool,           // _phd2 is not None
    appState: Option<string>,
    starting: Option<Id>,      // the job starting to guide
    under: Option<Id>,         // the job guiding goes on under
    cameraHold: Option<Id>,
    mountHold: Option<Id>)

  datatype Rig = Rig(w: World, s: Service)

  const IDLE := Service(false, None, None, None, None, None)

  predicate Wanted(s: Service) {
    s.starting.Some? || (s.appState.Some? && s.appState.value in GUIDING_STATES)
  }

  function MountHolder(r: Rig): Option<Id> {
    Holder(r.w.j.locks, MOUNT)
  }

  // An operation of the job manager, in a state it can reach.
  function Do(w: World, a: Action): (w': World)
    requires Inv(w) && Legal(w, a)
    ensures Inv(w')
  {
    StepKeeps(w, a);
    Apply(w, a)
  }

  function ReleaseMount(r: Rig): Rig
    requires Inv(r.w) && r.s.mountHold.Some?
  {
    Rig(Do(r.w, DoRelease(r.s.mountHold.value)), r.s.(mountHold := None))
  }

  predicate Calls(s: Service, id: Id) {
    s.starting == Some(id) || s.under == Some(id)
  }

  // The second component: ResourceBusyError was raised.
  function HoldMount(r: Rig, token: Id): (Rig, bool)
    requires Inv(r.w) && token !in r.w.issued
  {
    if r.s.mountHold == None && (MountHolder(r) == None || !Calls(r.s, MountHolder(r).value)) then
      if MountHolder(r) == None
      then (Rig(Do(r.w, DoReserve("guiding", [MOUNT], token)), r.s.(mountHold := Some(token))), false)
      else (r, true)
    else (r, false)
  }

  predicate StillRuns(r: Rig, id: Id) {
    id in r.w.j.published && r.w.j.published[id].state == Running
  }

  // _sync_mount_hold
  function Sync(r: Rig, token: Id): Rig
    requires Inv(r.w) && token !in r.w.issued
  {
    if Wanted(r.s) && r.s.mountHold == None && r.s.connected then
      if MountHolder(r).Some? || (r.s.under.Some? && StillRuns(r, r.s.under.value)) then r
      else HoldMount(r.(s := r.s.(under := None)), token).0
    else if !Wanted(r.s) && r.s.mountHold.Some? then ReleaseMount(r)
    else r
  }

  function GuideUnder(r: Rig, job: Option<Id>, token: Id): Rig
    requires Inv(r.w) && token !in r.w.issued
  {
    var r := r.(s := r.s.(under := job));
    Sync(if job.Some? && r.s.mountHold.Some? then ReleaseMount(r) else r, token)
  }

  function SetAppState(r: Rig, state: string, token: Id): Rig
    requires Inv(r.w) && token !in r.w.issued
  {
    if r.s.appState == Some(state) then r
    else Sync(r.(s := r.s.(appState := Some(state))), token)
  }

  // start, up to its first await
  function BeginStart(r: Rig, job: Id, token: Id): Rig
    requires Inv(r.w) && token !in r.w.issued
  {
    var r := if MountHolder(r) == Some(job) then GuideUnder(r, Some(job), token) else r;
    r.(s := r.s.(starting := Some(job)))
  }

  // start's finally
  function EndStart(r: Rig, token: Id): Rig
    requires Inv(r.w) && token !in r.w.issued
  {
    Sync(r.(s := r.s.(starting := None)), token)
  }

  // _hold_camera: nothing when it is held; the second component: ResourceBusyError
  function HoldCamera(r: Rig, token: Id): (Rig, bool)
    requires Inv(r.w) && token !in r.w.issued
  {
    if r.s.cameraHold.Some? then (r, false)
    else if Holder(r.w.j.locks, CAMERA).Some? then (r, true)
    else (Rig(Do(r.w, DoReserve("guiding", [CAMERA], token)), r.s.(cameraHold := Some(token))), false)
  }

  function ReleaseCamera(r: Rig): Rig
    requires Inv(r.w)
  {
    if r.s.cameraHold == None then r
    else Rig(Do(r.w, DoRelease(r.s.cameraHold.value)), r.s.(cameraHold := None))
  }

  // run's finally: PHD2 went away
  function LosePhd2(r: Rig, token: Id): Rig
    requires Inv(r.w) && token !in r.w.issued
  {
    var r := ReleaseCamera(r.(s := r.s.(connected := false, appState := None)));
    Sync(r, token)
  }

  // Events the history keeps an entry for.
  const ENTRY_EVENTS := {"GuideStep", "StarLost", "GuidingDithered"}

  function StateOfEvent(name: string): Option<string> {
    if name == "LoopingExposures" then Some("Looping")
    else if name == "LoopingExposuresStopped" then Some("Stopped")
    else if name == "StartCalibration" || name == "Calibrating" then Some("Calibrating")
    else if name == "StartGuiding" || name == "GuideStep" then Some("Guiding")
    else if name == "GuidingStopped" then Some("Stopped")
    else if name == "Paused" then Some("Paused")
    else None
  }

  // The state an event leaves PHD2 in, if it tells.
  function NextState(s: Service, name: string): Option<string> {
    if name == "StarLost" then
      if s.appState == Some("Guiding") then Some("LostLock") else None
    else if name == "LoopingExposures" && s.appState == Some("Selected") then None
    else StateOfEvent(name)
  }

  // The state an event tells is set.
  function TellState(r: Rig, name: string, token: Id): Rig
    requires Inv(r.w) && token !in r.w.issued
  {
    match NextState(r.s, name)
    case None => r
    case Some(state) => SetAppState(r, state, token)
  }

  // _on_event, for events that carry no state of their own
  function OnEvent(r: Rig, name: string, first: Id, second: Id): Rig
    requires Inv(r.w) && first !in r.w.issued && second !in r.w.issued && first != second
  {
    SyncIssues(r, first);
    TellState(if name in ENTRY_EVENTS && r.s.mountHold == None then Sync(r, first) else r, name, second)
  }

  lemma SyncIssues(r: Rig, token: Id)
    requires Inv(r.w) && token !in r.w.issued
    ensures forall id :: id in Sync(r, token).w.issued ==> id in r.w.issued || id == token
  {
  }

  // -- what every run keeps ---------------------------------------------------------------

  // A token of the service is a live reservation of exactly that resource.
  ghost predicate Reserved(w: World, hold: Option<Id>, resource: Resource) {
    hold.Some? ==>
      && hold.value in w.j.reservations
      && hold.value in w.issued && w.issued[hold.value] == [resource]
      && Holder(w.j.locks, resource) == hold
  }

  ghost predicate HoldsLive(r: Rig) {
    Reserved(r.w, r.s.mountHold, MOUNT) && Reserved(r.w, r.s.cameraHold, CAMERA)
  }

  // What _sync_mount_hold establishes: no hold without a reason, and with one somebody has the
  // mount, unless it is left to the job guiding goes on under, while that job runs.
  ghost predicate Synced(r: Rig) {
    && (r.s.mountHold.Some? ==> Wanted(r.s))
    && (Wanted(r.s) && r.s.connected && !(r.s.under.Some? && StillRuns(r, r.s.under.value)) ==> MountHolder(r).Some?)
  }

  // Whatever others hold stays theirs: nothing is taken from a job or a reservation.
  ghost predicate OthersKeep(r: Rig, r': Rig) {
    forall id {:trigger Owned(r'.w.j.locks, id)} :: Some(id) !in {r.s.mountHold, r.s.cameraHold, r'.s.mountHold, r'.s.cameraHold}
      ==> Owned(r'.w.j.locks, id) == Owned(r.w.j.locks, id)
  }

  lemma OwnerIsHolder(w: World, id: Id, resource: Resource)
    requires Inv(w) && Owned(w.j.locks, id) == [resource]
    ensures Holder(w.j.locks, resource) == Some(id)
  {
    OwnedIff(w.j.locks, id);
    HolderIff(w.j.locks, resource);
    assert resource in Owned(w.j.locks, id);
    OneHolder(w.j.locks, resource, id, Holder(w.j.locks, resource).value);
  }

  lemma ReserveOne(w: World, resource: Resource, token: Id)
    requires Inv(w) && token !in w.issued && Holder(w.j.locks, resource) == None
    ensures var w' := Do(w, DoReserve("guiding", [resource], token));
            && Reserved(w', Some(token), resource)
            && w'.issued == w.issued[token := [resource]]
            && w'.j.reservations == w.j.reservations + {token}
            && w'.j.locks == w.j.locks + [Lock(resource, token)]
  {
    var w' := Do(w, DoReserve("guiding", [resource], token));
    StepKeeps(w, DoReserve("guiding", [resource], token));
    assert SortedSet([resource]) == [resource];
    PutIsAppend(w.j.locks, resource, token);
    assert [resource][..0] == [];
    assert PutAll(w.j.locks, [resource], token) == Put(w.j.locks, resource, token);
    assert token in w'.j.reservations;
    assert Holders(w', token) && OwnsItsOwn(w', token);
    OwnerIsHolder(w', token, resource);
  }

  lemma {:induction false} HolderOfConcat(a: seq<Lock>, b: seq<Lock>, r: Resource)
    ensures Holder(a + b, r) == if Holder(a, r).Some? then Holder(a, r) else Holder(b, r)
  {
    if a == [] {
      assert a + b == b;
    } else {
      assert (a + b)[1..] == a[1..] + b;
      HolderOfConcat(a[1..], b, r);
    }
  }

  lemma {:induction false} HolderOfDrop(locks: seq<Lock>, id: Id, r: Resource)
    requires UniqueResources(locks)
    ensures Holder(Drop(locks, id), r) == if Holder(locks, r) == Some(id) then None else Holder(locks, r)
  {
    if locks != [] {
      HolderOfDrop(locks[1..], id, r);
      var rest := Drop(locks[1..], id);
      assert Drop(locks, id) == if locks[0].holder == id then rest else [locks[0]] + rest;
      if locks[0].resource == r {
        DropIff(locks[1..], id);
        HolderIff(locks[1..], r);
        forall l | l in locks[1..] ensures l.resource != r {
          var i :| 0 <= i < |locks[1..]| && locks[1..][i] == l;
          assert locks[i + 1] == l;
        }
      }
    }
  }

  // A reservation of one resource adds its hold and disturbs nobody.
  lemma TakeOne(r: Rig, resource: Resource, token: Id, r': Rig)
    requires Inv(r.w) && HoldsLive(r) && token !in r.w.issued && Holder(r.w.j.locks, resource) == None
    requires r'.w == Do(r.w, DoReserve("guiding", [resource], token))
    ensures forall hold, x: Resource :: x != resource && Reserved(r.w, hold, x) ==> Reserved(r'.w, hold, x)
    ensures Reserved(r'.w, Some(token), resource)
    ensures forall id :: id != token ==> Owned(r'.w.j.locks, id) == Owned(r.w.j.locks, id)
  {
    ReserveOne(r.w, resource, token);
    forall hold, x: Resource | x != resource && Reserved(r.w, hold, x) ensures Reserved(r'.w, hold, x) {
      HolderOfConcat(r.w.j.locks, [Lock(resource, token)], x);
    }
    forall id | id != token ensures Owned(r'.w.j.locks, id) == Owned(r.w.j.locks, id) {
      OwnedConcat(r.w.j.locks, [Lock(resource, token)], id);
    }
  }

  lemma GiveBack(w: World, token: Id)
    requires Inv(w) && token in w.j.reservations
    ensures var w' := Do(w, DoRelease(token));
            && (forall hold, x: Resource :: hold != Some(token) && Reserved(w, hold, x) ==> Reserved(w', hold, x))
            && (forall id :: id != token ==> Owned(w'.j.locks, id) == Owned(w.j.locks, id))
            && w'.issued == w.issued
  {
    var w' := Do(w, DoRelease(token));
    StepKeeps(w, DoRelease(token));
    forall hold, x: Resource | hold != Some(token) && Reserved(w, hold, x) ensures Reserved(w', hold, x) {
      HolderOfDrop(w.j.locks, token, x);
    }
    forall id | id != token ensures Owned(w'.j.locks, id) == Owned(w.j.locks, id) {
      DropOwned(w.j.locks, token, id);
    }
  }

  ghost predicate Good(r: Rig) {
    Inv(r.w) && HoldsLive(r)
  }

  lemma HoldMountKeeps(r: Rig, token: Id)
    requires Good(r) && token !in r.w.issued
    ensures Good(HoldMount(r, token).0) && OthersKeep(r, HoldMount(r, token).0)
    ensures var (r', busy) := HoldMount(r, token);
            && (busy ==> r' == r && MountHolder(r).Some?)
            && (!busy ==> MountHolder(r').Some?)
            && (busy <==> r.s.mountHold == None && MountHolder(r).Some? && MountHolder(r) !in {r.s.starting, r.s.under})
            && r'.s == r.s.(mountHold := if r.s.mountHold == None && MountHolder(r) == None then Some(token) else r.s.mountHold)
  {
    if r.s.mountHold == None && MountHolder(r) == None {
      TakeOne(r, MOUNT, token, HoldMount(r, token).0);
    }
  }

  // After a sync: no hold unless PHD2 moves the mount or a start runs; and then, with PHD2
  // connected and no running job to guide under, somebody has the mount. Nothing is taken.
  lemma SyncEstablishes(r: Rig, token: Id)
    requires Good(r) && token !in r.w.issued
    ensures Good(Sync(r, token)) && Synced(Sync(r, token)) && OthersKeep(r, Sync(r, token))
  {
    if Wanted(r.s) && r.s.mountHold == None && r.s.connected {
      if !(MountHolder(r).Some? || (r.s.under.Some? && StillRuns(r, r.s.under.value))) {
        HoldMountKeeps(r.(s := r.s.(under := None)), token);
      }
    } else if !Wanted(r.s) && r.s.mountHold.Some? {
      GiveBack(r.w, r.s.mountHold.value);
    }
  }

  lemma ReleaseMountKeeps(r: Rig)
    requires Good(r) && r.s.mountHold.Some?
    ensures Good(ReleaseMount(r)) && OthersKeep(r, ReleaseMount(r))
    ensures ReleaseMount(r).w.issued == r.w.issued
  {
    GiveBack(r.w, r.s.mountHold.value);
  }

  predicate UnderRuns(r: Rig) {
    r.s.under.Some? && StillRuns(r, r.s.under.value)
  }

  // Exactly when a sync leaves the service with the mount, and what else it changes: the job to
  // guide under is forgotten when the mount is asked for, since it no longer runs.
  lemma SyncHolds(r: Rig, token: Id)
    requires Good(r) && token !in r.w.issued
    ensures var r' := Sync(r, token);
            var asked := Wanted(r.s) && r.s.mountHold == None && r.s.connected && MountHolder(r) == None && !UnderRuns(r);
            && r'.s == r.s.(mountHold := r'.s.mountHold, under := if asked then None else r.s.under)
            && (r'.s.mountHold.Some? <==> asked || (Wanted(r.s) && r.s.mountHold.Some?))
            && (r.s.mountHold.Some? && r'.s.mountHold.Some? ==> r'.w == r.w && r'.s.mountHold == r.s.mountHold)
            && (r.s.mountHold.Some? && !Wanted(r.s) ==> GaveBack(r, r'))
  {
    if Wanted(r.s) && r.s.mountHold == None && r.s.connected && MountHolder(r) == None && !UnderRuns(r) {
      HoldMountKeeps(r.(s := r.s.(under := None)), token);
    } else if !Wanted(r.s) && r.s.mountHold.Some? {
      Released(r);
    }
  }

  // The service's own reservation of the mount is gone, and the mount is free.
  ghost predicate GaveBack(r: Rig, r': Rig)
    requires r.s.mountHold.Some?
  {
    && r'.s.mountHold == None && MountHolder(r') == None
    && r.s.mountHold.value !in r'.w.j.reservations && Owned(r'.w.j.locks, r.s.mountHold.value) == []
  }

  // Every other resource is held as it was.
  ghost predicate OnlyMountFreed(r: Rig, r': Rig) {
    forall x: Resource :: Holder(r'.w.j.locks, x) == if x == MOUNT then None else Holder(r.w.j.locks, x)
  }

  lemma Released(r: Rig)
    requires Good(r) && r.s.mountHold.Some?
    ensures var r' := ReleaseMount(r);
            && GaveBack(r, r') && OnlyMountFreed(r, r')
            && r'.s == r.s.(mountHold := None)
            && r'.w.j.published == r.w.j.published && r'.w.j.tasks == r.w.j.tasks && r'.w.j.suspended == r.w.j.suspended
  {
    var token := r.s.mountHold.value;
    var r' := ReleaseMount(r);
    DropOwned(r.w.j.locks, token, token);
    assert Holders(r.w, token) && OwnsItsOwn(r.w, token);
    forall x: Resource ensures Holder(r'.w.j.locks, x) == if x == MOUNT then None else Holder(r.w.j.locks, x) {
      HolderOfDrop(r.w.j.locks, token, x);
      HolderIff(r.w.j.locks, x);
      OwnedIff(r.w.j.locks, token);
      if Holder(r.w.j.locks, x) == Some(token) {
        assert x in Owned(r.w.j.locks, token);
      }
    }
  }

  lemma TaskRuns(w: World, job: Id)
    requires Inv(w) && job in w.j.tasks
    ensures job in w.j.published && w.j.published[job].state == Running
  {
  }

  // Naming a running job to guide under gives way to it: the service's own hold on the mount
  // is released, and not taken again.
  lemma GivesWay(r: Rig, job: Id, token: Id)
    requires Good(r) && token !in r.w.issued && job in r.w.j.tasks
    ensures var r' := GuideUnder(r, Some(job), token);
            && r'.s == r.s.(under := Some(job), mountHold := None)
            && (r.s.mountHold.Some? ==> GaveBack(r, r') && OnlyMountFreed(r, r'))
            && (r.s.mountHold == None ==> r'.w == r.w)
            && r'.w.j.suspended == r.w.j.suspended
  {
    var named := r.(s := r.s.(under := Some(job)));
    TaskRuns(r.w, job);
    if named.s.mountHold.Some? {
      ReleaseMountKeeps(named);
      Released(named);
      SyncHolds(ReleaseMount(named), token);
    } else {
      SyncHolds(named, token);
    }
  }

  lemma TasksSuspend(w: World, job: Id)
    requires Inv(w) && job in w.j.suspended
    ensures job in w.j.tasks
  {
    assert job in w.j.suspended.Keys;
  }

  // What a suspended job lent is free, but for the mount where only this hold has it.
  ghost predicate OnlyHoldBlocks(r: Rig, lent: seq<Resource>) {
    forall x :: x in lent ==>
      Holder(r.w.j.locks, x) == None || (x == MOUNT && r.s.mountHold.Some? && Holder(r.w.j.locks, x) == r.s.mountHold)
  }

  lemma FreeAfter(r: Rig, job: Id, token: Id, lent: seq<Resource>)
    requires Good(r) && token !in r.w.issued && job in r.w.j.tasks
    requires OnlyHoldBlocks(r, lent)
    ensures var r' := GuideUnder(r, Some(job), token);
            forall x :: x in lent ==> Holder(r'.w.j.locks, x) == None
  {
    GivesWay(r, job, token);
  }

  lemma FreeResumes(j: Jobs, job: Id)
    requires LocksKnown(j) && job in j.suspended
    requires forall x :: x in j.suspended[job] ==> Holder(j.locks, x) == None
    ensures Resume(j, job).Granted? && job !in Resume(j, job).jobs.suspended
  {
    var _ := CheckFreeFirst(j, j.suspended[job]);
  }

  // So a job that lent its resources gets them back, if nobody else has one of them.
  lemma ResumedAfter(r: Rig, job: Id, token: Id)
    requires Good(r) && token !in r.w.issued && job in r.w.j.suspended
    requires OnlyHoldBlocks(r, r.w.j.suspended[job])
    ensures var r' := GuideUnder(r, Some(job), token);
            && Inv(r'.w) && LocksKnown(r'.w.j) && Resume(r'.w.j, job).Granted?
            && job !in Resume(r'.w.j, job).jobs.suspended
  {
    TasksSuspend(r.w, job);
    GivesWay(r, job, token);
    GuideUnderEstablishes(r, Some(job), token);
    FreeAfter(r, job, token, r.w.j.suspended[job]);
    var r' := GuideUnder(r, Some(job), token);
    InvKnowsLocks(r'.w);
    FreeResumes(r'.w.j, job);
  }

  lemma GuideUnderEstablishes(r: Rig, job: Option<Id>, token: Id)
    requires Good(r) && token !in r.w.issued
    ensures var r' := GuideUnder(r, job, token);
            Good(r') && Synced(r') && OthersKeep(r, r')
  {
    var named := r.(s := r.s.(under := job));
    if job.Some? && named.s.mountHold.Some? {
      ReleaseMountKeeps(named);
      SyncEstablishes(ReleaseMount(named), token);
    } else {
      SyncEstablishes(named, token);
    }
  }

  lemma SetAppStateEstablishes(r: Rig, state: string, token: Id)
    requires Good(r) && token !in r.w.issued
    ensures var r' := SetAppState(r, state, token);
            && Good(r') && OthersKeep(r, r')
            && (Synced(r) || r.s.appState != Some(state) ==> Synced(r'))
  {
    if r.s.appState != Some(state) {
      SyncEstablishes(r.(s := r.s.(appState := Some(state))), token);
    }
  }

  lemma BeginStartKeeps(r: Rig, job: Id, token: Id)
    requires Good(r) && token !in r.w.issued
    ensures var r' := BeginStart(r, job, token);
            && Good(r') && OthersKeep(r, r') && Wanted(r'.s)
  {
    if MountHolder(r) == Some(job) {
      GuideUnderEstablishes(r, Some(job), token);
    }
  }

  // A start in a job that holds the mount itself goes on under that job; any other only says
  // that it runs.
  lemma BeginsUnder(r: Rig, job: Id, token: Id)
    requires Good(r) && token !in r.w.issued && job in r.w.j.tasks
    ensures var r' := BeginStart(r, job, token);
            && r'.w == r.w
            && r'.s == if MountHolder(r) == Some(job) then r.s.(starting := Some(job), under := Some(job)) else r.s.(starting := Some(job))
  {
    if MountHolder(r) == Some(job) {
      assert r.s.mountHold == None;
      GivesWay(r, job, token);
    }
  }

  lemma EndStartEstablishes(r: Rig, token: Id)
    requires Good(r) && token !in r.w.issued
    ensures var r' := EndStart(r, token);
            Good(r') && Synced(r') && OthersKeep(r, r')
  {
    SyncEstablishes(r.(s := r.s.(starting := None)), token);
  }

  lemma HoldCameraKeeps(r: Rig, token: Id)
    requires Good(r) && token !in r.w.issued
    ensures Good(HoldCamera(r, token).0) && OthersKeep(r, HoldCamera(r, token).0)
    ensures var (r', busy) := HoldCamera(r, token);
            (busy <==> r.s.cameraHold == None && Holder(r.w.j.locks, CAMERA).Some?) && (!busy ==> r'.s.cameraHold.Some?)
  {
    if r.s.cameraHold == None && Holder(r.w.j.locks, CAMERA) == None {
      TakeOne(r, CAMERA, token, HoldCamera(r, token).0);
    }
  }

  lemma ReleaseCameraKeeps(r: Rig)
    requires Good(r)
    ensures var r' := ReleaseCamera(r);
            && Good(r') && OthersKeep(r, r') && r'.s == r.s.(cameraHold := None)
            && r'.w.issued == r.w.issued
  {
    if r.s.cameraHold.Some? {
      GiveBack(r.w, r.s.cameraHold.value);
    }
  }

  // A PHD2 that went away keeps the camera from nobody, and the mount only for a start.
  lemma LosePhd2Establishes(r: Rig, token: Id)
    requires Good(r) && token !in r.w.issued
    ensures var r' := LosePhd2(r, token);
            && Good(r') && Synced(r') && OthersKeep(r, r')
            && r'.s.cameraHold == None && (r'.s.mountHold.Some? ==> r.s.starting.Some?)
  {
    var lost := r.(s := r.s.(connected := false, appState := None));
    ReleaseCameraKeeps(lost);
    SyncEstablishes(ReleaseCamera(lost), token);
  }

  lemma OthersKeepTransitive(r: Rig, r1: Rig, r2: Rig)
    requires OthersKeep(r, r1) && OthersKeep(r1, r2)
    requires r.s.cameraHold == r1.s.cameraHold == r2.s.cameraHold
    requires r1.s.mountHold == r.s.mountHold || r1.s.mountHold == r2.s.mountHold
    ensures OthersKeep(r, r2)
  {
    forall id | Some(id) !in {r.s.mountHold, r.s.cameraHold, r2.s.mountHold, r2.s.cameraHold}
      ensures Owned(r2.w.j.locks, id) == Owned(r.w.j.locks, id)
    {
      assert Owned(r1.w.j.locks, id) == Owned(r.w.j.locks, id);
    }
  }

  // The states guide entries tell are ones in which PHD2 moves the mount.
  lemma EntriesTell(s: Service, name: string)
    requires name in ENTRY_EVENTS && NextState(s, name).Some?
    ensures NextState(s, name).value in GUIDING_STATES
  {
    assert name == "GuideStep" || name == "StarLost" || name == "GuidingDithered";
  }

  lemma GuidingKeepsTheMount(r: Rig, state: string, token: Id)
    requires Good(r) && token !in r.w.issued && r.s.mountHold.Some? && state in GUIDING_STATES
    ensures var r' := SetAppState(r, state, token);
            r'.w == r.w && r'.s.mountHold == r.s.mountHold && Wanted(r'.s)
  {
  }

  // An event that made the service take the mount leaves PHD2 guiding.
  lemma EntriesKeepTheMount(r: Rig, name: string, token: Id)
    requires Good(r) && token !in r.w.issued && name in ENTRY_EVENTS && r.s.mountHold.Some? && Wanted(r.s)
    requires NextState(r.s, name).Some?
    ensures var r' := SetAppState(r, NextState(r.s, name).value, token);
            r'.w == r.w && r'.s.mountHold == r.s.mountHold && Wanted(r'.s)
  {
    EntriesTell(r.s, name);
    GuidingKeepsTheMount(r, NextState(r.s, name).value, token);
  }

  // With a guide frame, a mount that a job gave up is taken back.
  lemma OnEventEstablishes(r: Rig, name: string, first: Id, second: Id)
    requires Good(r) && first !in r.w.issued && second !in r.w.issued && first != second
    ensures var r' := OnEvent(r, name, first, second);
            && Good(r') && OthersKeep(r, r')
            && (Synced(r) ==> Synced(r'))
            && (name in ENTRY_EVENTS && r.s.mountHold == None ==> Synced(r'))
  {
    if name in ENTRY_EVENTS && r.s.mountHold == None {
      SyncEstablishes(r, first);
      SyncIssues(r, first);
      EntryTells(r, Sync(r, first), name, second);
    } else {
      TellStateEstablishes(r, name, second);
    }
  }

  lemma TellStateEstablishes(r: Rig, name: string, token: Id)
    requires Good(r) && token !in r.w.issued
    ensures var r' := TellState(r, name, token); Good(r') && OthersKeep(r, r') && (Synced(r) ==> Synced(r'))
  {
    var next := NextState(r.s, name);
    if next.Some? {
      SetAppStateEstablishes(r, next.value, token);
    }
  }

  // After the sync a guide entry makes; nothing but the mount's hold changed in it.
  lemma EntryTells(r: Rig, r1: Rig, name: string, token: Id)
    requires Good(r1) && Synced(r1) && token !in r1.w.issued && name in ENTRY_EVENTS
    requires OthersKeep(r, r1) && r.s.mountHold == None && r1.s.cameraHold == r.s.cameraHold
    ensures var r' := TellState(r1, name, token); Good(r') && OthersKeep(r, r') && Synced(r')
  {
    TellStateEstablishes(r1, name, token);
    if NextState(r1.s, name).Some? {
      if r1.s.mountHold.Some? {
        EntriesKeepTheMount(r1, name, token);
      }
      CameraStays(r1, name, token);
      OthersKeepTransitive(r, r1, TellState(r1, name, token));
    }
  }

  lemma CameraStays(r: Rig, name: string, token: Id)
    requires Inv(r.w) && token !in r.w.issued
    ensures TellState(r, name, token).s.cameraHold == r.s.cameraHold
  {
  }

  // -- runs -------------------------------------------------------------------------------

  datatype Event =
    | JobManagerDoes(a: Action)            // anybody else using the job manager
    | Connect                              // PHD2 is reachable
    | Lose(token: Id)
    | State(state: string, token: Id)      // AppState, or asked for
    | Phd2(name: string, first: Id, second: Id)
    | Under(job: Option<Id>, token: Id)
    | Begin(id: Id, token: Id)
    | Reach(token: Id)                     // a start got as far as reserving the mount
    | End(token: Id)
    | TakeCamera(token: Id)
    | GiveCamera

  ghost predicate Possible(r: Rig, e: Event) {
    match e
    case JobManagerDoes(a) =>
      Legal(r.w, a) && (a.DoRelease? ==> Some(a.id) != r.s.mountHold && Some(a.id) != r.s.cameraHold)
    case Phd2(_, first, second) => first !in r.w.issued && second !in r.w.issued && first != second
    case Connect => true
    case GiveCamera => true
    case _ => e.token !in r.w.issued
  }

  function React(r: Rig, e: Event): Rig
    requires Inv(r.w) && Possible(r, e)
  {
    match e
    case JobManagerDoes(a) => r.(w := Do(r.w, a))
    case Connect => r.(s := r.s.(connected := true))
    case Lose(token) => LosePhd2(r, token)
    case State(state, token) => SetAppState(r, state, token)
    case Phd2(name, first, second) => OnEvent(r, name, first, second)
    case Under(job, token) => GuideUnder(r, job, token)
    case Begin(job, token) => BeginStart(r, job, token)
    case Reach(token) => HoldMount(r, token).0
    case End(token) => EndStart(r, token)
    case TakeCamera(token) => HoldCamera(r, token).0
    case GiveCamera => ReleaseCamera(r)
  }

  // The events that end in a sync of the mount's hold.
  predicate Syncs(r: Rig, e: Event) {
    || e.Lose? || e.Under? || e.End?
    || (e.State? && r.s.appState != Some(e.state))
    || (e.Phd2? && e.name in ENTRY_EVENTS && r.s.mountHold == None)
  }

  // Others' operations leave the service's reservations alone.
  lemma OthersLeaveHolds(w: World, a: Action, token: Id, resource: Resource)
    requires Inv(w) && Legal(w, a) && Reserved(w, Some(token), resource)
    requires a.DoRelease? ==> a.id != token
    ensures Reserved(Do(w, a), Some(token), resource)
  {
    var w' := Do(w, a);
    assert token in w'.j.reservations && w'.issued[token] == [resource] by {
      if a.DoFinish? && a.id in w.j.tasks {
        FinishShape(w.j, a.id, a.state, a.error, a.result);
      }
    }
    assert Holders(w', token) && OwnsItsOwn(w', token);
    OwnerIsHolder(w', token, resource);
  }

  lemma ReactKeeps(r: Rig, e: Event)
    requires Good(r) && Possible(r, e)
    ensures Good(React(r, e))
    ensures Syncs(r, e) ==> Synced(React(r, e))
    ensures !e.JobManagerDoes? ==> OthersKeep(r, React(r, e))
  {
    match e
    case JobManagerDoes(a) =>
      if r.s.mountHold.Some? { OthersLeaveHolds(r.w, a, r.s.mountHold.value, MOUNT); }
      if r.s.cameraHold.Some? { OthersLeaveHolds(r.w, a, r.s.cameraHold.value, CAMERA); }
    case Connect =>
    case Lose(token) => LosePhd2Establishes(r, token);
    case State(state, token) => SetAppStateEstablishes(r, state, token);
    case Phd2(name, first, second) => OnEventEstablishes(r, name, first, second);
    case Under(job, token) => GuideUnderEstablishes(r, job, token);
    case Begin(job, token) => BeginStartKeeps(r, job, token);
    case Reach(token) => HoldMountKeeps(r, token);
    case End(token) => EndStartEstablishes(r, token);
    case TakeCamera(token) => HoldCameraKeeps(r, token);
    case GiveCamera => ReleaseCameraKeeps(r);
  }

  ghost predicate Follows(r: Rig, e: Event, r': Rig) {
    Inv(r.w) && Possible(r, e) && r' == React(r, e)
  }

  ghost predicate IsRun(run: seq<Rig>, events: seq<Event>) {
    && |run| == |events| + 1
    && run[0].s == IDLE && (exists keep: nat :: run[0].w == World(Empty(keep), map[], []))
    && forall i :: 0 <= i < |events| ==> Follows(run[i], events[i], run[i + 1])
  }

  // In every run the holds are live reservations of exactly their own resource, and each
  // sync leaves the mount as it should be.
  lemma {:induction false} RunKeepsHolds(run: seq<Rig>, events: seq<Event>, i: nat)
    requires IsRun(run, events) && i < |run|
    ensures Good(run[i])
    ensures i > 0 && Syncs(run[i - 1], events[i - 1]) ==> Synced(run[i])
  {
    if i == 0 {
      var keep: nat :| run[0].w == World(Empty(keep), map[], []);
      EmptyKeeps(keep);
    } else {
      RunKeepsHolds(run, events, i - 1);
      assert Follows(run[i - 1], events[i - 1], run[i]);
      ReactKeeps(run[i - 1], events[i - 1]);
    }
  }

  // -- what each event leaves in the service's fields -------------------------------------------

  // All but the holds and the job to guide under.
  ghost predicate SameBut(s: Service, s': Service) {
    s' == s.(mountHold := s'.mountHold, under := s'.under)
  }

  ghost predicate FieldsAfter(s: Service, e: Event, s': Service) {
    match e
    case JobManagerDoes(_) => s' == s
    case Connect => s' == s.(connected := true)
    case Lose(_) => SameBut(s.(connected := false, appState := None, cameraHold := None), s')
    case State(state, _) => SameBut(s.(appState := Some(state)), s')
    case Phd2(name, _, _) => SameBut(s.(appState := if NextState(s, name).Some? then NextState(s, name) else s.appState), s')
    case Under(_, _) => SameBut(s, s')
    case Begin(id, _) => SameBut(s.(starting := Some(id)), s')
    case Reach(_) => s' == s.(mountHold := s'.mountHold)
    case End(_) => SameBut(s.(starting := None), s')
    case TakeCamera(_) => s' == s.(cameraHold := s'.cameraHold)
    case GiveCamera => s' == s.(cameraHold := None)
  }

  lemma GuideUnderFields(r: Rig, job: Option<Id>, token: Id)
    requires Good(r) && token !in r.w.issued
    ensures SameBut(r.s, GuideUnder(r, job, token).s)
  {
  }

  lemma ReactTells(r: Rig, e: Event)
    requires Good(r) && Possible(r, e)
    ensures FieldsAfter(r.s, e, React(r, e).s)
  {
    match e
    case Phd2(name, first, second) => EventFields(r, name, first, second);
    case Under(job, token) => GuideUnderFields(r, job, token);
    case Begin(job, token) => GuideUnderFields(r, Some(job), token);
    case _ =>
  }

  lemma EventFields(r: Rig, name: string, first: Id, second: Id)
    requires Good(r) && first !in r.w.issued && second !in r.w.issued && first != second
    ensures SameBut(r.s.(appState := if NextState(r.s, name).Some? then NextState(r.s, name) else r.s.appState),
                    OnEvent(r, name, first, second).s)
  {
    SyncIssues(r, first);
    SyncHolds(r, first);
  }

  predicate Moving(s: Service) {
    s.appState.Some? && s.appState.value in GUIDING_STATES
  }

  // After calibration or guiding began, or a guide frame, PHD2 is known to move the mount; a
  // lost star leaves it at it; once stopped, paused or looping it does not.
  lemma EventTells(r: Rig, name: string, first: Id, second: Id)
    requires Good(r) && first !in r.w.issued && second !in r.w.issued && first != second
    ensures Moving(OnEvent(r, name, first, second).s) <==>
              if name in {"StartCalibration", "Calibrating", "StartGuiding", "GuideStep"} then true
              else if name in {"GuidingStopped", "LoopingExposuresStopped", "LoopingExposures", "Paused"} then false
              else Moving(r.s)
  {
    EventFields(r, name, first, second);
  }

  // Then the mount is given back, unless a start runs.
  lemma StoppedGivesBack(r: Rig, name: string, first: Id, second: Id)
    requires Good(r) && first !in r.w.issued && second !in r.w.issued && first != second
    requires Synced(r) && r.s.starting == None
    requires name in {"GuidingStopped", "LoopingExposuresStopped", "LoopingExposures", "Paused"}
    ensures OnEvent(r, name, first, second).s.mountHold == None
  {
    OnEventEstablishes(r, name, first, second);
    EventFields(r, name, first, second);
    EventTells(r, name, first, second);
  }

  // -- between two syncs --------------------------------------------------------------------

  ghost predicate HoldOnlyWhenWanted(r: Rig) {
    r.s.mountHold.Some? ==> Wanted(r.s)
  }

  // A start reserves the mount long after it began. If another start ended meanwhile, nothing
  // says any more that one runs: exactly then the hold outlives its reason.
  lemma ReachKeepsReason(r: Rig, token: Id)
    requires Good(r) && HoldOnlyWhenWanted(r) && token !in r.w.issued
    ensures HoldOnlyWhenWanted(React(r, Reach(token))) <==> Wanted(r.s) || MountHolder(r).Some?
  {
    HoldMountKeeps(r, token);
  }

  lemma EventKeepsReason(r: Rig, name: string, first: Id, second: Id)
    requires Good(r) && HoldOnlyWhenWanted(r) && first !in r.w.issued && second !in r.w.issued && first != second
    ensures HoldOnlyWhenWanted(OnEvent(r, name, first, second))
  {
    SyncIssues(r, first);
    var r1 := if name in ENTRY_EVENTS && r.s.mountHold == None then Sync(r, first) else r;
    if r1 != r {
      SyncEstablishes(r, first);
    }
    if NextState(r1.s, name).Some? {
      SetAppStateEstablishes(r1, NextState(r1.s, name).value, second);
    }
  }

  // Every other piece of the service keeps the reason.
  lemma OthersKeepReason(r: Rig, e: Event)
    requires Good(r) && HoldOnlyWhenWanted(r) && Possible(r, e) && !e.Reach?
    ensures HoldOnlyWhenWanted(React(r, e))
  {
    match e
    case JobManagerDoes(a) =>
    case Connect =>
    case Lose(token) => LosePhd2Establishes(r, token);
    case State(state, token) => SetAppStateEstablishes(r, state, token);
    case Phd2(name, first, second) => EventKeepsReason(r, name, first, second);
    case Under(job, token) => GuideUnderEstablishes(r, job, token);
    case Begin(job, token) => BeginStartKeeps(r, job, token);
    case End(token) => EndStartEstablishes(r, token);
    case TakeCamera(token) =>
    case GiveCamera => ReleaseCameraKeeps(r);
  }
}
