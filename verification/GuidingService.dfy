/** The guiding service itself: its methods update its own fields and drive the job manager.

    Each method is proved equal to its function in Guiding.dfy, on the fields of both objects
    together, so that what is proved there of every run of the service and of others at the
    job manager holds of these two objects. */
module GuidingServices {
  import opened Common
  import opened Jobs
  import opened JobRuns
  import opened JobManagers
  import Spec = Guiding

  class GuidingService {
    const jobs: JobManager
    var connected: bool
    var appState: Option<string>
    var starting: Option<Id>
    var under: Option<Id>
    var hold: Option<Id>
    var mountHold: Option<Id>

    ghost function Model(): Spec.Rig
      reads this, jobs
    {
      Spec.Rig(jobs.History(), Spec.Service(connected, appState, starting, under, hold, mountHold))
    }

    ghost predicate Valid()
      reads this, jobs
    {
      Spec.Good(Model())
    }

    constructor (jobs: JobManager)
      requires jobs.Valid()
      ensures this.jobs == jobs && Valid() && Model() == Spec.Rig(jobs.History(), Spec.IDLE)
    {
      this.jobs := jobs;
      connected, appState := false, None;
      starting, under, hold, mountHold := None, None, None, None;
    }

    method HoldMount(token: Id) returns (busy: bool)
      requires Valid() && token !in jobs.issued
      modifies this`mountHold, jobs
      ensures Valid() && (Model(), busy) == Spec.HoldMount(old(Model()), token)
    {
      Spec.HoldMountKeeps(Model(), token);
      var holder := Holder(jobs.locks, Spec.MOUNT);
      busy := false;
      if mountHold == None && (holder == None || !(starting == holder || under == holder)) {
        assert SortedSet([Spec.MOUNT]) == [Spec.MOUNT];
        var refused := jobs.Reserve("guiding", [Spec.MOUNT], token);
        if refused.Some? {
          return true;
        }
        mountHold := Some(token);
      }
    }

    method UnderRunning() returns (running: bool)
      requires Valid()
      modifies this`under
      ensures running == (old(under).Some? && Spec.StillRuns(old(Model()), old(under).value))
      ensures under == if running then old(under) else None
    {
      if under == None {
        return false;
      }
      if under.value in jobs.published && jobs.published[under.value].state == Running {
        return true;
      }
      under := None;
      return false;
    }

    method SyncMountHold(token: Id)
      requires Valid() && token !in jobs.issued
      modifies this, jobs
      ensures Valid() && Spec.Synced(Model()) && Model() == Spec.Sync(old(Model()), token)
    {
      ghost var before := Model();
      var wanted := starting.Some? || (appState.Some? && appState.value in Spec.GUIDING_STATES);
      if wanted && mountHold == None && connected {
        if Holder(jobs.locks, Spec.MOUNT) == None {
          var running := UnderRunning();
          if !running {
            var busy := HoldMount(token);
          }
        }
      } else if !wanted && mountHold.Some? {
        jobs.Release(mountHold.value);
        mountHold := None;
      }
      assert Model() == Spec.Sync(before, token);
      Spec.SyncEstablishes(before, token);
    }

    method GuideUnder(job: Option<Id>, token: Id)
      requires Valid() && token !in jobs.issued
      modifies this, jobs
      ensures Valid() && Spec.Synced(Model()) && Model() == Spec.GuideUnder(old(Model()), job, token)
    {
      under := job;
      if job.Some? && mountHold.Some? {
        Spec.ReleaseMountKeeps(Model());
        jobs.Release(mountHold.value);
        mountHold := None;
      }
      SyncMountHold(token);
    }

    method SetAppState(state: string, token: Id)
      requires Valid() && token !in jobs.issued
      modifies this, jobs
      ensures Valid() && Model() == Spec.SetAppState(old(Model()), state, token)
    {
      if appState == Some(state) {
        return;
      }
      appState := Some(state);
      SyncMountHold(token);
    }

    method BeginStart(job: Id, token: Id)
      requires Valid() && token !in jobs.issued
      modifies this, jobs
      ensures Valid() && Model() == Spec.BeginStart(old(Model()), job, token)
    {
      if Holder(jobs.locks, Spec.MOUNT) == Some(job) {
        GuideUnder(Some(job), token);
      }
      starting := Some(job);
    }

    method EndStart(token: Id)
      requires Valid() && token !in jobs.issued
      modifies this, jobs
      ensures Valid() && Spec.Synced(Model()) && Model() == Spec.EndStart(old(Model()), token)
    {
      starting := None;
      SyncMountHold(token);
    }

    method HoldCamera(token: Id) returns (busy: bool)
      requires Valid() && token !in jobs.issued
      modifies this`hold, jobs
      ensures Valid() && (Model(), busy) == Spec.HoldCamera(old(Model()), token)
    {
      Spec.HoldCameraKeeps(Model(), token);
      busy := false;
      if hold.Some? {
        return;
      }
      assert SortedSet([Spec.CAMERA]) == [Spec.CAMERA];
      var refused := jobs.Reserve("guiding", [Spec.CAMERA], token);
      if refused.Some? {
        return true;
      }
      hold := Some(token);
    }

    method Release()
      requires Valid()
      modifies this`hold, jobs
      ensures Valid() && Model() == Spec.ReleaseCamera(old(Model()))
    {
      Spec.ReleaseCameraKeeps(Model());
      if hold == None {
        return;
      }
      jobs.Release(hold.value);
      hold := None;
    }

    method LosePhd2(token: Id)
      requires Valid() && token !in jobs.issued
      modifies this, jobs
      ensures Valid() && Spec.Synced(Model()) && Model() == Spec.LosePhd2(old(Model()), token)
    {
      connected := false;
      appState := None;
      Spec.ReleaseCameraKeeps(Model());
      Release();
      SyncMountHold(token);
    }

    method OnEvent(name: string, first: Id, second: Id)
      requires Valid() && first !in jobs.issued && second !in jobs.issued && first != second
      modifies this, jobs
      ensures Valid() && Model() == Spec.OnEvent(old(Model()), name, first, second)
    {
      if name in Spec.ENTRY_EVENTS && mountHold == None {
        Spec.SyncIssues(Model(), first);
        SyncMountHold(first);
      }
      var next := StateTold(name);
      if next.Some? {
        SetAppState(next.value, second);
      }
    }

    // The state an event tells.
    method StateTold(name: string) returns (next: Option<string>)
      ensures next == Spec.NextState(Model().s, name)
    {
      if name == "StarLost" {
        return if appState == Some("Guiding") then Some("LostLock") else None;
      }
      if name == "LoopingExposures" && appState == Some("Selected") {
        return None;
      }
      return Spec.StateOfEvent(name);
    }
  }
}
