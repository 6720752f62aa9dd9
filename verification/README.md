# NOCS, verified

A model of the parts of NOCS, an observatory daemon with a web client, that hold the hardest
promises, and proofs of those promises. Each file models one part; where the program changes
objects or fills tables step by step, a class or a method with loops does the same here and is
proved to do what a function says, and what the program promises is proved of that function.

| file | part |
|---|---|
| Common.dfy | options, rounding, powers of ten, sorted lists |
| Jobs.dfy, JobRuns.dfy, JobManager.dfy | the job and lock manager: its state, every run of it, the class |
| Guiding.dfy, Overlap.dfy, GuidingService.dfy | PHD2's holds on the mount and the guide camera, together with the job manager; two starts at once |
| Tree.dfy, Stores.dfy, Replication.dfy, StateStore.dfy | the state tree, its store, and its replication to the app over connections and restarts |
| Sweep.dfy, Backlash.dfy, Plateaus.dfy, Autofocus.dfy, Curve.dfy | planning a focus sweep, gear slack as a play operator, what a plateau tells of it, the run, the curve and its refinement |
| Flats.dfy | the exposure loop of the flats |
| Publishing.dfy, Publisher.dfy, PublishDebs.dfy, Stanzas.dfy | the apt publisher and the control stanzas it reads and writes |
| Library.dfy, Groups.dfy, Matching.dfy, Needs.dfy, Darks.dfy | calibration frames: groups of lights, what matches, what is missing, the darks sequence |
| Histogram.dfy, HistogramLoops.dfy | the histogram of a frame |
| GuideLog.dfy, GuideGraph.dfy | the guide entries on the server and on the client |
| Coordinates.dfy | coordinates, printed and typed |

`dafny verify dfyconfig.toml` checks everything. Numbers that are floats in the program are reals
here, times are left out or whole days, and what comes from devices, solvers, clocks, random ids
and subprocesses is a parameter: a move arrives or not, a frame is what it measures, a solver
answers or not, versions of packages stand on a line (`rank`), ids are never handed out twice.

## What the proofs found

Where a promise does not hold of the code, the code is modelled as it is, a lemma gives an input
that shows it, and another says when it does hold.

- **A hold without a reason** (server/src/nocs/guiding/service.py:312-343). A start reserves the mount
  long after it began. If another start ended meanwhile, nothing says any more that one runs: a run from
  the first state on is `Overlap.OverlappingStarts`; exactly when it is harmless: `Guiding.ReachKeepsReason`.
- **Slack not taken up** (server/src/nocs/focus/sweep.py:133-147). No overshoot is made for a sweep
  whose first point is where the focuser stands: `Backlash.SweepFromTravelEnd`; exactly when a sweep and a
  whole run take it up: `Backlash.SweepTakesUp`, `Autofocus.RunTakesUp`.
- **A plateau's end** (server/src/nocs/focus/sweep.py:217-257). The text speaks of points in the order taken; the
  caller passes them sorted by position, so for inward sweeps the other end is looked at: `Autofocus.JudgedOrder`,
  `Autofocus.InwardPlateauUnseen`.
- **A plateau's overshoot** (server/src/nocs/focus/sweep.py:240-251). The suggestion is made from the plateau alone. It can be
  too small because more was passed already (`Plateaus.MoreWasPassed`), or because the gear was engaged before
  and the way back to the first point is all that was missing there, whatever the slack
  (`Plateaus.EngagedFallsShort`, at the default options); exactly when it is enough: `Plateaus.SuggestionTakesUp`,
  at the default overshoot `Plateaus.FirstHalfSuffices`.
- **Flats** (server/src/nocs/calibration/flats.py:391-455). A filter can give up on a good panel when the exposure
  limits are far apart, as with ten million: `Flats.TooManyDecades`; it never does up to a million
  (`Flats.PanelSucceeds`), and for any limits exactly when its first eight exposures all miss:
  `Flats.PanelGivesUpIff`. On the sky a filter with all its frames can be reported as failed or ended early:
  `Flats.SkyFailsComplete`; exactly when: `Flats.CompleteEnds`.
- **A publish stopped between Packages and Packages.gz** (packaging/repo/publish.py:146-213) and one of another
  suite after it leave the compressed index naming a deleted package: `Publisher.StoppedThenOtherSuite`;
  exactly when stopping is harmless: `Publisher.PublishSafe`, as it is after completed publishes:
  `Publisher.NextMayStopAnywhere`. A `keep` of 0 keeps every version.
- **Darks farther than their tolerance** (server/src/nocs/calibration/library.py:20-24). The 2 °C a dark may differ is measured
  from the group's median, which may be 4 °C from a light: `Matching.DarkFarFromLight`; exactly when none is farther: `Matching.DarksCloseIff`; how far
  at most: `Matching.DarkReaches`.
- **Needs merged away** (server/src/nocs/calibration/library.py:332-333). The least of merged groups is asked for, so a complete group
  silences one near it that has nothing: `Needs.MergedAway`; exactly when groups get what they miss:
  `Needs.ServedIff`, `Needs.AllServedIff`.
- **Flats among the needs** (server/src/nocs/calibration/darks.py:28-36). The text says flats are left out; the list of needs left out
  does not contain them, and the model follows the code.
- **The top value of a histogram** (server/src/nocs/imaging/pipeline.py:253-255). Where the step does not divide 65536 the window
  can end just below full scale and leave out most of a frame: `Histogram.TopMissed`; exactly when it does:
  `Histogram.RangeCovers`, `Histogram.MostShown`.
- **An earlier guiding run shown again** (web/src/lib/guiding.svelte.ts:54-61): `GuideLog.LateFirstAnswer`; exactly when:
  `GuideLog.StaysInRun`, `GuideLog.EarlierComeBackIff`.

## Model

| member | source | states |
|---|---|---|
| `Jobs.HolderIff` | server/src/nocs/jobs.py:82-84 | a resource has a holder exactly when some lock names it |
| `Jobs.CheckFreeFirst` | server/src/nocs/jobs.py:86-90 | the first requested resource that is held, with its holder's kind and, for a job, its id; nothing exactly when all are free |
| `Jobs.PutAllOwned` | server/src/nocs/jobs.py:97-101 | taking free resources gives the taker exactly those and leaves every other holder's as they were |
| `Jobs.DropOwned` | server/src/nocs/jobs.py:103-110 | giving back takes everything from one holder and nothing from the others |
| `Jobs.EvictCloses` | server/src/nocs/jobs.py:232-236 | beyond the number kept, exactly the oldest finished jobs go, with their kinds and published entries |
| `JobRuns.StepKeeps` | server/src/nocs/jobs.py:86-236 | every operation keeps: each holder owns exactly what it asked for, as locks or lent while suspended; the collections agree; the finished jobs are the last to end; the published tree tells the truth |
| `JobRuns.RunKeeps` | server/src/nocs/jobs.py:68-236 | that holds after every sequence of operations from an empty manager |
| `JobRuns.HoldersDisjoint` | server/src/nocs/jobs.py:86-133 | in every reachable state two unsuspended holders share no resource |
| `JobRuns.TakenIff` | server/src/nocs/jobs.py:86-101 | what a reservation or a start asks for is taken exactly if all of it is free; then all of it has the new holder, of the kind told, and no other holder changes, else nothing does |
| `JobRuns.BusyTells` | server/src/nocs/jobs.py:68-101 | over every run whoever finds a resource held is told the kind its holder gave when it took it, and the job's id if it is a job |
| `JobRuns.OneTerminalState` | server/src/nocs/jobs.py:208-236 | a job that ended shows one terminal outcome for as long as it is shown, whatever is called later, a second finish included |
| `JobRuns.FinishShows` | server/src/nocs/jobs.py:215-236 | the first finish of a running job shows the state, error and result it was given, its kind and resources as before, full progress and no message exactly on success; if finished jobs are kept at all |
| `JobRuns.OutcomeIsTheFinish` | server/src/nocs/jobs.py:208-236 | over every run that is what the job shows for as long as it is shown |
| `JobRuns.EndedByFinish` | server/src/nocs/jobs.py:208-236 | a job is among those that ended only through such a finish |
| `JobRuns.StartShows` | server/src/nocs/jobs.py:144-171 | a started job shows its kind and resources, running, and nothing else yet |
| `JobRuns.ProgressShows` | server/src/nocs/jobs.py:58-62 | progress told by a running job is shown with its message, cut to 0 to 1, and changes nothing else; any other job's changes nothing |
| `JobRuns.OthersLeaveView` | server/src/nocs/jobs.py:144-236 | no operation changes a shown job's kind or resources, and none of another changes anything it shows |
| `JobRuns.EvictForgetsOnlyTheOld` | server/src/nocs/jobs.py:223-236 | a finish forgets no job that runs, is reserved or is retained |
| `JobRuns.OldestForgottenFirst` | server/src/nocs/jobs.py:223-236 | the shown finished jobs are the last `keep` to end, in order; the other shown jobs are exactly the running ones |
| `JobRuns.ReleaseUndoesReserve` | server/src/nocs/jobs.py:92-110 | releasing a reservation at once gives back the whole manager as it was |
| `JobRuns.ResumeUndoesSuspend` | server/src/nocs/jobs.py:112-133 | resuming at once is granted and restores every holder's resources and the rest of the state |
| `JobManagers.JobManager.IsFree` | server/src/nocs/jobs.py:86-90 | the loop over the resources finds the first held one |
| `JobManagers.JobManager.Reserve` | server/src/nocs/jobs.py:92-101 | all the resources under a fresh token, or a refusal that changes nothing |
| `JobManagers.JobManager.Release` | server/src/nocs/jobs.py:103-110 | the reservation's locks, kind and entry go; an unknown token changes nothing |
| `JobManagers.JobManager.Start` | server/src/nocs/jobs.py:144-171 | all the resources for the job and its published entry, or a refusal that changes nothing |
| `JobManagers.JobManager.Suspend` | server/src/nocs/jobs.py:112-122 | the job's locks become its lent list; unknown only for a job that does not run |
| `JobManagers.JobManager.Resume` | server/src/nocs/jobs.py:124-133 | the lent resources are taken back, all or none |
| `JobManagers.JobManager.Progress` | server/src/nocs/jobs.py:58-62 | only a running job's progress changes, with the fraction between 0 and 1 |
| `JobRuns.CancelKnows` | server/src/nocs/jobs.py:173-181 | in every state, cancel asks exactly the running jobs that have not ended, and fails exactly for jobs that are not shown |
| `JobManagers.JobManager.Cancel` | server/src/nocs/jobs.py:173-181 | the method does that and changes nothing |
| `JobManagers.JobManager.Finish` | server/src/nocs/jobs.py:215-236 | the first finish ends the job and evicts; a later one changes nothing |
| `Guiding.SyncEstablishes` | server/src/nocs/guiding/service.py:711-727 | after a sync there is no hold unless PHD2 moves the mount or a start runs, and then, connected and with no running job to guide under, somebody has the mount; holds are live reservations of exactly their resource; nobody else loses anything |
| `Guiding.SyncHolds` | server/src/nocs/guiding/service.py:711-727 | and exactly when it leaves NOCS with the mount: wanted, and held already or free with PHD2 connected and no running job to guide under; nothing else changes but that job, forgotten when the mount is asked for |
| `Guiding.GuideUnderEstablishes` | server/src/nocs/guiding/service.py:330-343 | the same after telling the job to guide under, which gives way to it first |
| `Guiding.GivesWay` | server/src/nocs/guiding/service.py:330-343 | for a running job NOCS's own reservation of the mount is released and not taken again, every other resource is held as it was, and guiding goes on under the job |
| `Guiding.ResumedAfter` | server/src/nocs/guiding/service.py:330-343 | so a suspended job that only that reservation kept from resuming is resumed |
| `Guiding.BeginsUnder` | server/src/nocs/guiding/service.py:323-325 | a start in a job that holds the mount goes on under it; any other leaves everything but its own mark |
| `Guiding.EndStartEstablishes` | server/src/nocs/guiding/service.py:312-328 | the same when a start ends |
| `Guiding.HoldCameraKeeps` | server/src/nocs/guiding/service.py:804-810 | the camera's hold is refused exactly when others have the camera, and never taken twice |
| `Guiding.LosePhd2Establishes` | server/src/nocs/guiding/service.py:503-508 | when PHD2 goes away the camera is given back, and the mount unless a start runs |
| `Guiding.OnEventEstablishes` | server/src/nocs/guiding/service.py:958-1000 | a guide entry without a hold syncs: the mount is taken back as soon as the job that had it let go of it and ended; events keep the sync's promise |
| `Guiding.ReactTells` | server/src/nocs/guiding/service.py:312-343 | what every reaction leaves in the service's other fields |
| `Guiding.EventTells` | server/src/nocs/guiding/service.py:958-1000 | after calibration or guiding began, or a guide frame, PHD2 is known to move the mount; a lost star leaves it so; once stopped, paused or looping it does not |
| `Guiding.StoppedGivesBack` | server/src/nocs/guiding/service.py:711-727 | then NOCS gives the mount back, unless a start runs |
| `Guiding.ReactKeeps` | server/src/nocs/guiding/service.py:312-343 | every reaction of the service, and every operation of others on the job manager, keeps the holds live and takes nothing from a job |
| `Guiding.RunKeepsHolds` | server/src/nocs/guiding/service.py:693-727 | over every run of the service and the job manager together, the holds are live and each sync leaves the mount as it should be |
| `Guiding.ReachKeepsReason` | server/src/nocs/guiding/service.py:562-577 | the reservation a start makes late has a reason exactly when PHD2 moves the mount, a start is known to run, or the mount was taken anyway |
| `Guiding.OthersKeepReason` | server/src/nocs/guiding/service.py:711-727 | every other reaction keeps it that there is no hold without a reason |
| `Overlap.OverlappingStarts` | server/src/nocs/guiding/service.py:312-343 | two starts at once do leave a hold without a reason: a run from the first state on that ends with one, of a sequence's start cancelled while it connects PHD2 and the user's start going on |
| `Overlap.Simulated` | server/src/nocs/guiding/service.py:312-343 | any events that the part of the state concerned allows make a run of the service and the job manager, ending in that part |
| `GuidingServices.GuidingService.SyncMountHold` | server/src/nocs/guiding/service.py:711-727 | the method does what the sync does to the service and the job manager |
| `GuidingServices.GuidingService.HoldMount` | server/src/nocs/guiding/service.py:693-697 | the mount under a new token, or busy |
| `GuidingServices.GuidingService.HoldCamera` | server/src/nocs/guiding/service.py:804-810 | the camera under a new token, or busy |
| `GuidingServices.GuidingService.GuideUnder` | server/src/nocs/guiding/service.py:330-343 | the method gives the mount back and syncs |
| `GuidingServices.GuidingService.SetAppState` | server/src/nocs/guiding/service.py:1049-1066 | a changed state is kept and the hold synced |
| `GuidingServices.GuidingService.OnEvent` | server/src/nocs/guiding/service.py:958-1000 | an event takes the mount back where it may, then sets the state it tells |
| `GuidingServices.GuidingService.LosePhd2` | server/src/nocs/guiding/service.py:503-508 | the connection's end resets the state and the holds |
| `Tree.AppliedThere` | server/src/nocs/state/store.py:138-154 | after a set the tree shows the value at that path, after a delete nothing |
| `Tree.OtherPathsStay` | server/src/nocs/state/store.py:138-154 | and at every path that neither leads there nor goes on from there what it showed before |
| `Tree.SameEffect` | web/src/lib/live.svelte.ts:21-37 | an operation does to the client's tree what it did to the server's, parents created and plain values replaced on the way |
| `Tree.SameEffects` | server/src/nocs/state/store.py:138-154 | and so does any sequence of accepted operations |
| `Stores.PatchesSinceExact` | server/src/nocs/state/store.py:108-116 | the changes after a version are given exactly while the history reaches back to it, each once and in order |
| `Stores.CommitKeeps` | server/src/nocs/state/store.py:131-136 | the store stays the tree, number and tail of its log |
| `Replication.DeliverKeeps` | web/src/lib/live.svelte.ts:121-135 | the client takes every message that arrives without a gap, never an older version of the server it follows, and still mirrors a log |
| `Replication.StepKeeps` | server/src/nocs/api/app.py:1040-1066 | every commit, connection, loss, send, delivery and server restart keeps the whole invariant |
| `Replication.RunKeeps` | server/src/nocs/api/app.py:1040-1066 | it holds over every run |
| `Replication.ClientMirrors` | web/src/lib/live.svelte.ts:121-135 | in every run the client's tree is its server's after exactly `version` commits |
| `Replication.VersionsGoForward` | web/src/lib/live.svelte.ts:121-135 | within one epoch its version never goes back |
| `Replication.NoGap` | server/src/nocs/api/app.py:1050-1066 | no connection ever delivers a gap |
| `Replication.CaughtUp` | server/src/nocs/api/app.py:1044-1066 | an idle connection shows the server's tree as it is, at its version and epoch |
| `Replication.SnapshotsOnlyWhenDue` | server/src/nocs/api/app.py:1050-1066 | a snapshot is sent exactly when the client follows another server, is out of the history's reach, or changes for it were dropped; otherwise at most the one next change, and none only when the client has it |
| `Replication.HelloHeard` | server/src/nocs/api/app.py:872-881 | a hello tells where a client of this server stands, and nothing of another's |
| `Replication.ResumesFrom` | server/src/nocs/api/app.py:1050-1058 | a client of this server within the history's reach is sent just the changes it lacks |
| `Replication.QueueBounded` | server/src/nocs/state/store.py:42-54 | over every run no queue is longer than it may be |
| `Replication.DropsOnlyWhenFull` | server/src/nocs/state/store.py:48-54 | a commit drops what is queued exactly when the queue is full, and else adds its own change behind it |
| `StateStores.Subscription.Offer` | server/src/nocs/state/store.py:48-54 | a full queue is emptied and says Resync, else the patch is queued |
| `StateStores.StateStore.Commit` | server/src/nocs/state/store.py:131-136 | one version for all operations, offered once to every subscription |
| `StateStores.StateStore.Record` | server/src/nocs/state/store.py:123-140 | an empty path is refused and changes nothing; in a transaction nothing is committed yet |
| `StateStores.StateStore.Enter` | server/src/nocs/state/store.py:95-100 | only the outermost transaction opens one |
| `StateStores.StateStore.Subscribe` | server/src/nocs/state/store.py:118-121 | a new, empty subscription that the store knows |
| `StateStores.StateStore.Leave` | server/src/nocs/state/store.py:95-106 | the outer transaction commits everything it changed as one version, if anything, offered once to every subscription; otherwise their queues stay as they are |
| `StateStores.StateStore.PatchesSince` | server/src/nocs/state/store.py:108-116 | the method gives what the function does |
| `StateStores.Sender.Begin` | server/src/nocs/api/app.py:1050-1058 | a snapshot, or what the client missed |
| `StateStores.Sender.Take` | server/src/nocs/api/app.py:1059-1066 | a snapshot for Resync, a newer patch as it is, an older one not at all |
| `StateStores.Live.Handle` | web/src/lib/live.svelte.ts:121-135 | the client's fields after a message, or the socket closed for a gap and nothing changed |
| `Sweep.SweepFits` | server/src/nocs/focus/sweep.py:92-112 | a sweep is planned exactly when its step and count are sound and it fits the travel; its positions march the approach direction, all inside, off the wanted centre only where the travel ends |
| `Sweep.EdgeIsExtreme` | server/src/nocs/focus/sweep.py:115-130 | the edge is the outermost position on its side |
| `Sweep.Extension` | server/src/nocs/focus/sweep.py:115-130 | the loop adds the positions beyond the edge |
| `Sweep.BeyondExact` | server/src/nocs/focus/sweep.py:115-130 | those are one step apart, as many as the count and the travel allow |
| `Sweep.SortPointsSorts` | server/src/nocs/focus/sweep.py:150-214 | points are judged in order of position, none lost |
| `Sweep.AssessDecides` | server/src/nocs/focus/sweep.py:150-214 | a verdict is a fit, points to add on a side that may be extended, or a problem, and only one of them; an overshoot comes exactly with a backlash |
| `Sweep.FilterExact` | server/src/nocs/focus/sweep.py:159-162 | the points that count are those with stars enough and an HFR, each as often as it was given |
| `Sweep.AssessIs` | server/src/nocs/focus/sweep.py:150-214 | each verdict exactly when: too few points that count, a flat curve, a plateau, in this order; else by the first of them with the lowest HFR: inward when too few lie below it and that side is open, outward when enough do and too few lie above and that side is open, not turning when the short side is closed; else a fit that lies among them with R² enough, or a bad fit |
| `Sweep.AssessCounted` | server/src/nocs/focus/sweep.py:150-214 | for points at different positions that is so of any sorted list of those that count |
| `Sweep.TooFewIff` | server/src/nocs/focus/sweep.py:163-170 | of no points at all the verdict is too few, too |
| `Sweep.FitLiesWithin` | server/src/nocs/focus/sweep.py:150-214 | a fit's focus lies among the points |
| `Sweep.CountFlat` | server/src/nocs/focus/sweep.py:217-251 | the loop counts the run of near-equal values at the front |
| `Sweep.FlatCountExact` | server/src/nocs/focus/sweep.py:217-251 | all in that run are near the first value, and the next one is not |
| `Sweep.PlateauMeans` | server/src/nocs/focus/sweep.py:217-251 | a plateau is the whole run, long enough, with two points after it; its overshoot is at least half as much again as the run and one step |
| `Sweep.PlateauFound` | server/src/nocs/focus/sweep.py:217-251 | such a run after which the points change more is one |
| `Sweep.SteepensIs` | server/src/nocs/focus/sweep.py:243-248 | more: the change per step within the run is less than a quarter of the mean one of the next points |
| `Sweep.RoundUpIs` | server/src/nocs/focus/sweep.py:254-257 | dividing by ten until two digits are left, and rounding up there, is the multiple of the power of ten that the digits tell |
| `Sweep.RoundUpCovers` | server/src/nocs/focus/sweep.py:254-257 | two significant digits, never below the value and off by less than a tenth of it (or less than one) |
| `Backlash.AgainstMisses` | server/src/nocs/focus/sweep.py:133-147 | a move against the approach direction leaves missing, of the slack, what was missing and what the way back brought behind the motor, at most all of it, less what was passed |
| `Backlash.AgainstTakesUp` | server/src/nocs/focus/sweep.py:133-147 | so it ends with the slack behind it exactly when it passes the target by the whole slack, from any slack |
| `Backlash.AlongTakesUp` | server/src/nocs/focus/sweep.py:133-147 | a move along it ends so exactly when it covers what was missing |
| `Backlash.SlackDefeated` | server/src/nocs/focus/sweep.py:133-147 | the optics sit at one offset at every target from any starting slack exactly when the first move takes up any slack and each later move against the direction passes by enough |
| `Backlash.SweepTakesUp` | server/src/nocs/focus/autofocus.py:367-403 | at every point of a planned sweep, from any slack, exactly when its first point is passed by the slack and is not where the focuser stands, or there is no slack |
| `Backlash.SweepFromTravelEnd` | server/src/nocs/focus/sweep.py:133-147 | it fails for a sweep that starts where the focuser stands, at the end of the travel |
| `Backlash.EngagedAfterMoves` | server/src/nocs/focus/autofocus.py:367-371 | being engaged at every target is being so after the motor moves made for the first k of them, for every k |
| `Backlash.TripInTravel` | server/src/nocs/focus/sweep.py:133-147 | no motor move on the way to targets inside the travel leaves it |
| `Backlash.RunTakesUp` | server/src/nocs/focus/sweep.py:133-147 | a planned sweep followed by any positions with room for the overshoot has the optics at one offset throughout, from any slack, exactly when its first point has room and is not where the focuser stands |
| `Plateaus.WatchForward` | server/src/nocs/focus/sweep.py:217-225 | moving forward, the optics are at each point where one move straight to it would put them |
| `Plateaus.PlateauBoundsSlack` | server/src/nocs/focus/sweep.py:217-251 | HFRs that depend on where the optics are, a planned sweep, any lag before it: a plateau of n points shows that the slack is less than the overshoot made, the run and one step together, if the first point lies at least the run and a step back from where the focuser stood |
| `Plateaus.SuggestionTakesUp` | server/src/nocs/focus/sweep.py:217-257 | the suggested overshoot takes up every slack under which a planned sweep shows a plateau of n points, from any lag, exactly when it is no less than the overshoot made, the run and one step together, and the first point lies at least the run and a step back from where the focuser stood |
| `Plateaus.HalfSuffices` | server/src/nocs/focus/autofocus.py:157-158 | the first of these holds when the overshoot made was at most half of the run and one step, as the default is |
| `Plateaus.FirstHalfSuffices` | server/src/nocs/focus/autofocus.py:149-158 | at the default overshoot, outward and away from the ends of the travel, the suggestion is enough exactly for a plateau of at most half the sweep's steps: of nine points, for three or four |
| `Plateaus.TriedAgain` | server/src/nocs/focus/autofocus.py:367-403 | where both hold, a sweep planned with the suggested overshoot is engaged at every point, from any lag, if its first point is not where the focuser stands and has room for it |
| `Plateaus.EngagedFallsShort` | server/src/nocs/focus/sweep.py:240-251 | the second alone fails: at the default options and from an engaged gear a slack of 2000 shows a plateau of five points 100 steps apart, 750 is suggested, and the same sweep with 750 is not engaged |
| `Plateaus.MoreWasPassed` | server/src/nocs/focus/sweep.py:240-251 | the first alone fails: with an overshoot of 1000 a slack of 1100 shows a plateau of four points 30 steps apart, 180 is suggested, and the same sweep with 180 is not engaged |
| `Autofocus.AssessingDecides` | server/src/nocs/focus/sweep.py:150-214 | assess tells a fit among the points, points to add on an open side, or a problem: all the run depends on |
| `Autofocus.TakenSorts` | server/src/nocs/focus/autofocus.py:453-455 | inserting each measured point where it belongs keeps exactly all of them, sorted by position |
| `Autofocus.JudgedOrder` | server/src/nocs/focus/autofocus.py:453-455 | an outward sweep is judged in the order taken, an inward one backwards; both are even progressions |
| `Autofocus.InwardPlateauUnseen` | server/src/nocs/focus/sweep.py:222-225 | so a plateau at the start of an inward sweep is not seen: its points in the order taken have one, and as judged none |
| `Autofocus.RunEnds` | server/src/nocs/focus/autofocus.py:386-416 | the loop of sweeps ends with a fit whose focus lies among the points or a named problem, after at most the planned points and one more for each the budgets allow; the points a duplicate-free progression inside the travel |
| `Autofocus.AddedInRun` | server/src/nocs/focus/autofocus.py:367-400 | every position after the planned ones is one step beyond those before it, on the open side where the verdict on the points there were asked for more |
| `Autofocus.RouteKeeps` | server/src/nocs/focus/autofocus.py:367-432 | with every move arriving the run ends at a focus between its points or gives up with a problem, and no motor move leaves the travel |
| `Autofocus.EndingIs` | server/src/nocs/focus/autofocus.py:418-431 | how a run without failures ends: without a fit with the verdict's problem; else at the position nearest to the fit, focused exactly if the last frame has stars enough and its HFR is above the first one's by no more than the part allowed, otherwise worse |
| `Autofocus.NotTurningMeans` | server/src/nocs/focus/autofocus.py:386-416 | a run gives up because the curve does not turn only where the lowest HFR has too few points beside it on a side on which as many were added as the budget allows, or the next would lie outside the travel |
| `Autofocus.RunTakesUp` | server/src/nocs/focus/autofocus.py:367-432 | the slack is taken up at every position of the run and at its best focus, from whatever it was, exactly when the sweep's first point has room for the overshoot and is not where the run starts, if the positions after the sweep have that room |
| `Autofocus.Run.MoveTo` | server/src/nocs/focus/autofocus.py:367-371 | the motor moves to a target are those of its approach, up to the first that does not arrive |
| `Autofocus.Run.TakePoints` | server/src/nocs/focus/autofocus.py:434-471 | the points taken are the queue's, in order, measured where they are; it stops early exactly at a move that does not arrive |
| `Autofocus.Run.Judge` | server/src/nocs/focus/autofocus.py:386-416 | the verdict is that on the points with the sides whose budget and travel are open, and the point added lies one step beyond them |
| `Autofocus.Run.SweepUntilTurned` | server/src/nocs/focus/autofocus.py:386-416 | the loop visits what a run without failures visits, and ends with its verdict; or it breaks at the first move that does not arrive; invalid exactly when no sweep can be planned, and then nothing moves |
| `Autofocus.Run.Focus` | server/src/nocs/focus/autofocus.py:356-432 | no stars at the start is that problem and nothing moves; otherwise the moves are those of the route, all of them, and the run ends as its verdict and last frame say, or they stop at the first that does not arrive |
| `Autofocus.Run.Settle` | server/src/nocs/focus/autofocus.py:418-431 | the last move and frame: broken exactly when a move does not arrive, focused exactly when the frame has stars and is within the limit |
| `Curve.ReachesHeight` | server/src/nocs/focus/curve.py:42-48 | at either side of the focus, `distance_for` of a height away, the curve is exactly that high, for every height from its lowest |
| `Curve.LinearFitPositive` | server/src/nocs/focus/curve.py:90-110 | a first fit exists exactly for a parabola that opens upwards, and has a and b positive |
| `Curve.LinearFitIs` | server/src/nocs/focus/curve.py:90-110 | its focus is at the parabola's lowest point and its arms rise as steeply; its height is the root of the parabola's lowest value, or the lowest HFR where that is not above zero |
| `Curve.LinearFitIsParabola` | server/src/nocs/focus/curve.py:90-110 | where the parabola stays above zero the curve squares to it exactly |
| `Curve.Refine` | server/src/nocs/focus/curve.py:113-145 | with any solver, failing ones included, at most 69 solves, a and b stay positive, and the cost is never above the first fit's; the first fit itself comes back exactly if no damping gives a proper step of lower cost |
| `Curve.RefinedImproves` | server/src/nocs/focus/curve.py:113-145 | each curve taken is proper and costs less; one is kept exactly if no damping from there on improves it |
| `Curve.RefinedWalks` | server/src/nocs/focus/curve.py:113-145 | the refinement is a walk: every curve is the one before plus the step the solver gave, b made positive, with the least damping whose step fits better, from a tenth of the last on; it ends after a gain of less than 1e-12, thirty steps, or with no step left to take |
| `Curve.ExactStepTaken` | server/src/nocs/focus/curve.py:133-142 | if the solver's first step leads to a curve through all points, that is the result |
| `Curve.CostZeroIff` | server/src/nocs/focus/curve.py:116-119 | the cost is never negative, and zero exactly for a curve through all points |
| `Curve.ScalesBack` | server/src/nocs/focus/curve.py:58-87 | the curve in focuser steps has the same heights as in scaled positions |
| `Flats.TurnCounts` | server/src/nocs/calibration/flats.py:391-455 | a frame is kept exactly within the tolerance of the target, twice that on the sky, else unlinked and a miss; going on means fewer than the most misses allowed, or an open sky that time helps |
| `Flats.TurnEnds` | server/src/nocs/calibration/flats.py:417-455 | a turn ends the filter as stopped or failed exactly when: on the sky by which limit the exposure wanted is beyond, the phase, whether the sky is open and whether any frame is kept; else by the misses, and on a panel by a frame too dim at the longest exposure or too bright at the shortest |
| `Flats.AimsAtTarget` | server/src/nocs/calibration/flats.py:113-132 | for a frame neither clipped nor black: with its light changed by the factor told, a frame of the exposure wanted is at the target; else the exposure goes by steps of ten |
| `Flats.TrackedAllKept` | server/src/nocs/calibration/flats.py:391-455 | over every run in which the light changes as told and the exposures wanted are within the limits, on the sky as on a panel: every frame but the first is at the target and kept, until the filter is done |
| `Flats.Filter` | server/src/nocs/calibration/flats.py:391-455 | every exposure taken is within the limits; frames are kept or unlinked, never more kept than wanted; it goes on until it ends |
| `Flats.PanelEnds` | server/src/nocs/calibration/flats.py:391-455 | a panel's filter ends within the misses allowed for each frame wanted, and is done exactly with all of them |
| `Flats.PanelSucceeds` | server/src/nocs/calibration/flats.py:391-455 | on any steady panel whose target lies within the limits, at most a million apart, and is far enough from black and from full scale, it never gives up: all frames, at most seven unlinked, from any first exposure |
| `Flats.PanelSucceedsFrom` | server/src/nocs/calibration/flats.py:113-132 | the same from any point of the search |
| `Flats.PanelRunIsRun` | server/src/nocs/calibration/flats.py:391-455 | what is proved of the panel is proved of the loop over the panel's own frames |
| `Flats.PanelGivesUpIff` | server/src/nocs/calibration/flats.py:391-455 | on any steady panel whose target lies within the limits and far enough from black and from full scale, however far these are apart: the filter gives up exactly when the first eight exposures of its search all miss, and else takes all frames with at most eight out of the band |
| `Flats.MissesAreDecades` | server/src/nocs/calibration/flats.py:113-132 | such misses are steps of ten down from a clipped start, or up from a black one |
| `Flats.TooManyDecades` | server/src/nocs/calibration/flats.py:391-455 | it happens: limits ten million apart |
| `Flats.CompleteEnds` | server/src/nocs/calibration/flats.py:417-455 | over every run: a filter that has all its frames is done, failed or stopped as the frame that completed it decides, by the exposure wanted for one more, the twilight's phase and whether the sky is open |
| `Flats.SkyFailsComplete` | server/src/nocs/calibration/flats.py:427-442 | so a filter with all its frames is reported as failed, at dawn, and as ended early, at dusk |
| `Publishing.SortEntriesSorts` | packaging/repo/publish.py:183-186 | entries sorted by version, none lost |
| `Publishing.NewestExact` | packaging/repo/publish.py:182-187 | a package keeps as many versions as there are up to `keep`, none older than one dropped; with `keep` 0 all of them |
| `Publishing.RetainedExact` | packaging/repo/publish.py:176-188 | an index keeps of every package exactly its newest versions, and nothing it did not have |
| `Publisher.SafeWhereverStopped` | packaging/repo/publish.py:190-213 | stopped after any put or delete, every index names only packages that are there, if the indices it does not read agree with those it does |
| `Publisher.PublishSafe` | packaging/repo/publish.py:146-213 | and exactly then |
| `Publisher.UnreadDangles` | packaging/repo/publish.py:208-213 | an index that is not read and names a package about to be deleted is left dangling |
| `Publisher.CompletedPublishes` | packaging/repo/publish.py:146-213 | from an empty bucket, after any completed publishes, every index names only packages that are there and is there in both forms, which say the same |
| `Publisher.NextMayStopAnywhere` | packaging/repo/publish.py:146-213 | so the next publish, whatever it is, may stop after any put or delete |
| `Publisher.PublishedPool` | packaging/repo/publish.py:190-213 | a completed publish deletes exactly the pooled packages no suite names and adds exactly the new ones |
| `Publisher.PublishedIndex` | packaging/repo/publish.py:176-204 | both forms of every index of a published suite hold, of every package, its newest versions among what it had and what was added |
| `Publisher.AddAllExact` | packaging/repo/publish.py:163-173 | those are: of every file name the last of the new packages for the architecture, or for all, and where none is, what the index had |
| `Publisher.KeptIsNamed` | packaging/repo/publish.py:208-213 | what a completed publish leaves of the packages pooled before is named by an index |
| `Publisher.PublishedSigned` | packaging/repo/publish.py:194-206 | after it Release and its two signatures are there for every suite, and the keyring where there is one |
| `Publisher.PlanInStages` | packaging/repo/publish.py:189-213 | new packages come before everything else that is written, and that before every delete |
| `Publisher.IndicesBeforeSigned` | packaging/repo/publish.py:196-204 | the signed files of a suite come after its indices |
| `Publisher.StoppedBetween` | packaging/repo/publish.py:191-204 | a publish stopped between the two forms of an index, as the bucket then is |
| `Publisher.StoppedThenOtherSuite` | packaging/repo/publish.py:208-213 | that is safe in itself, but a publish to another suite then leaves the compressed index naming a deleted package |
| `PublishRuns.Bucket.Put` | packaging/repo/publish.py:68-74 | the file is there and the log has one more effect |
| `PublishRuns.Bucket.Delete` | packaging/repo/publish.py:76-81 | the file is gone and the log has one more effect |
| `PublishRuns.Bucket.ListPool` | packaging/repo/publish.py:160 | the pool's packages, all of them, sorted |
| `PublishRuns.AddDebs` | packaging/repo/publish.py:163-173 | each new package replaces its own entry in the indices of its architectures and suites, and no other index changes |
| `PublishRuns.KeepNewest` | packaging/repo/publish.py:178-188 | the loops by name keep the newest of every package |
| `PublishRuns.NewIndices` | packaging/repo/publish.py:149-188 | the indices of all suites, read, added to and cut |
| `PublishRuns.PublishDebs` | packaging/repo/publish.py:146-215 | the publish does its plan, effect by effect and in order, and stopping anywhere in it is harmless exactly when the unread indices agree |
| `Stanzas.ParseStanzas` | packaging/repo/publish.py:105-118 | the loops parse what the parser function does |
| `Stanzas.ParsePrint` | packaging/repo/publish.py:105-122 | parsing the printed form of any list of well-formed stanzas gives the list back, values of several lines and empty ones included (section 5.1 of the Debian Policy Manual) |
| `Stanzas.StanzaPrinted` | packaging/repo/publish.py:121-122 | a stanza is printed as its lines, joined |
| `Stanzas.FieldParsed` | packaging/repo/publish.py:109-116 | a field's lines, wherever they stand, are read as that field |
| `Stanzas.FirstBlock` | packaging/repo/publish.py:107-108 | stanzas are split at the empty line between them and nowhere else |
| `Library.ShelveOk` | server/src/nocs/calibration/library.py:180-192 | no light is lost or doubled under the keys, each has its key's setup and filter and an exposure that is the key's or within 1 % of it |
| `Library.ShelveSorted` | server/src/nocs/calibration/library.py:180-192 | under each key are exactly the lights that go there, in the order given, the first of which gave the key |
| `Library.FirstFit` | server/src/nocs/calibration/library.py:180-192 | each light is under the first key it fits, and no key's first light fits a key before it |
| `Library.SameExposureIff` | server/src/nocs/calibration/library.py:156-157 | exposures are the same when the smaller is at least 99 % of the larger; a negative one is not even the same as itself |
| `Library.ClustersExact` | server/src/nocs/calibration/library.py:194-204 | a key's lights are divided into one cluster without temperatures and clusters within 4 °C of their first, each starting more than 4 °C above the one before |
| `Library.FewestClusters` | server/src/nocs/calibration/library.py:194-204 | no division of a key's known temperatures into parts of at most 4 °C has fewer parts |
| `Groups.EveryLightOnce` | server/src/nocs/calibration/library.py:178-217 | every light is in exactly one group, of its setup, filter and exposure; a group is of one temperature |
| `Groups.CountsConserved` | server/src/nocs/calibration/library.py:205-219 | the groups' counts add up to the lights', and the groups are in order of camera, filter, exposure and temperature |
| `Groups.TemperatureOfGroup` | server/src/nocs/calibration/library.py:206-212 | a group's temperature is within 4.05 °C of each of its lights' |
| `Groups.MedianIsMiddle` | server/src/nocs/calibration/library.py:206-212 | of the same temperatures in ascending order the median is the one in the middle, or half-way between the two |
| `Groups.GroupTells` | server/src/nocs/calibration/library.py:205-225 | a group counts its own lights, has just their nights, and the focus of the first of them, in the order given, that has one |
| `Groups.OrderOfGroups` | server/src/nocs/calibration/library.py:218 | groups are in order of camera, then filter, none as an empty name, then exposure, then temperature, none as 0 |
| `Groups.ByKey` | server/src/nocs/calibration/library.py:180-192 | the loop files every light under the first key it fits |
| `Groups.ClusterLights` | server/src/nocs/calibration/library.py:195-204 | the loop clusters a key's lights |
| `Groups.GroupLights` | server/src/nocs/calibration/library.py:178-219 | the loops give the groups |
| `Matching.Match.Add` | server/src/nocs/calibration/library.py:72-76 | a row's id, night and known temperature are added |
| `Matching.MatchGroup` | server/src/nocs/calibration/library.py:233-269 | one pass finds exactly the matching darks, flats and bias, in order |
| `Matching.DarksOf` | server/src/nocs/calibration/library.py:257-265 | a dark is a group's exactly when it is of its setup, within 180 days of a night of its lights, of its exposure to 1 % and its temperature to 2 °C, or both unknown |
| `Matching.BiasOf` | server/src/nocs/calibration/library.py:257-269 | and a bias of any exposure, its temperature to 5 °C |
| `Matching.DarkReaches` | server/src/nocs/calibration/library.py:259-265 | a matched dark is within 6.05 °C of every light of the group |
| `Matching.DarksCloseIff` | server/src/nocs/calibration/library.py:20-24 | every dark within the tolerance of the group is within it of each light exactly when all lights have the group's temperature |
| `Matching.DarkFarFromLight` | server/src/nocs/calibration/library.py:233-269 | lights at 0 and 4 °C make one group, and a dark at 4 °C matches it |
| `Matching.BiasReaches` | server/src/nocs/calibration/library.py:266-269 | a matched bias is within 9.05 °C of every light of the group |
| `Matching.RotationMatchesIff` | server/src/nocs/calibration/library.py:171-175 | angles match when they differ by at most a degree, turned half-way round or not |
| `Matching.FlatsOf` | server/src/nocs/calibration/library.py:233-255 | a flat is a group's exactly when it is of its optics and filter and was taken in a night of its lights, or within 30 days of one and turned like a light of its setup and filter |
| `Matching.FlatsServed` | server/src/nocs/calibration/library.py:273-307 | what flats are calibrated with is bias, or darks of every flat's exposure; nothing exactly when neither is there |
| `Matching.FlatCalibrationIff` | server/src/nocs/calibration/library.py:273-307 | and just what they are: all bias of the flats' setup near their median temperature, within 180 days of one of them; only where there is none, the darks so near of the flats' exposures, if each flat has one |
| `Matching.MatchFlatCalibration` | server/src/nocs/calibration/library.py:273-307 | the loops find that |
| `Matching.FramesExact` | server/src/nocs/calibration/library.py:117-125 | a report lists exactly the matched darks, flats and flat calibration, each once, in order |
| `Needs.MergeAccounts` | server/src/nocs/calibration/library.py:320-348 | every group is merged into a key that is its own or near it; a key's count is the least any of its groups misses |
| `Needs.ChooseFirst` | server/src/nocs/calibration/library.py:322-331 | that is the first key near it that there is by then, and its own where there is none |
| `Needs.KeyOfGroup` | server/src/nocs/calibration/library.py:322-331 | for darks near is: of the setup, with an exposure within 1 % and a temperature within 2 °C, both known or neither |
| `Needs.DarksNeeded` | server/src/nocs/calibration/library.py:315-366 | darks are asked for exactly under the merged keys where no group misses none |
| `Needs.NeedsPositive` | server/src/nocs/calibration/library.py:349-366 | a need for darks is never for nothing and, with those it has, all that some group of its setup wants |
| `Needs.ServedIff` | server/src/nocs/calibration/library.py:315-366 | as many darks as a group misses are asked for under its key exactly when no group counted under that key misses fewer |
| `Needs.AllServedIff` | server/src/nocs/calibration/library.py:315-366 | all groups get what they miss exactly when those counted under one key all miss the same |
| `Needs.MergedAway` | server/src/nocs/calibration/library.py:332-333 | a group that has every dark silences one near it that has none |
| `Needs.FlatsNeeded` | server/src/nocs/calibration/library.py:334-336 | flats are asked for exactly where every group of a setup and filter lacks some, as many as the one that lacks fewest |
| `Needs.BiasNeeded` | server/src/nocs/calibration/library.py:337-348 | bias is asked for exactly under the merged keys of the groups that want it where none of them misses none |
| `Needs.BiasItemsExact` | server/src/nocs/calibration/library.py:334-338 | those groups are the ones that lack flats or have nothing to calibrate them with |
| `Needs.BiasPositive` | server/src/nocs/calibration/library.py:337-353 | a need for bias is never for nothing and, with those it has, all that some group of its setup that wants bias wants |
| `Needs.BiasAsked` | server/src/nocs/calibration/library.py:337-353 | a group that wants bias is asked for at most what it misses, under a key of its setup within 5 °C, and for none only where a group that wants bias misses none |
| `Needs.NeedsInOrder` | server/src/nocs/calibration/library.py:349-366 | bias before darks before flats, the darks from the shortest exposure to the longest |
| `Needs.NeedsOf` | server/src/nocs/calibration/library.py:315-366 | the loops give the needs |
| `Darks.NeedsSplit` | server/src/nocs/calibration/darks.py:31-36 | every need is taken, left out or for flats, and only one of them |
| `Darks.TakenIff` | server/src/nocs/calibration/darks.py:31-73 | taken are the darks and bias of the camera, of unknown size or of the whole sensor, binned, or a pixel off |
| `Darks.ContainersInOrder` | server/src/nocs/calibration/darks.py:37-43 | one container for each rounded temperature there are needs for, coldest first and unknown last |
| `Darks.EveryNeedOneRow` | server/src/nocs/calibration/darks.py:42-56 | each taken need is one row, in the container of its temperature and the plan of its kind, and there are no other rows |
| `Darks.ByLengthExact` | server/src/nocs/calibration/darks.py:51 | needs for darks are sorted by exposure, none lost |
| `Darks.TargetsInOrder` | server/src/nocs/calibration/darks.py:43-55 | in every container of the sequence: cooling to its temperature, the bias, then the darks; their rows are made from the needs for darks at that temperature, those without an exposure first (but for negative ones) and the others from the shortest to the longest |
| `Darks.WarmsIff` | server/src/nocs/calibration/darks.py:58 | the camera is warmed at the end exactly when asked and cooled for some need |
| `Darks.FramesAreWanted` | server/src/nocs/calibration/darks.py:86-94 | the sequence's frames are the taken needs' counts, added up |
| `Darks.CountFrames` | server/src/nocs/calibration/darks.py:86-94 | the loops add up every plan's rows |
| `Darks.DarksSequence` | server/src/nocs/calibration/darks.py:17-64 | the sequence and the needs left out, with its frames and the split of the needs |
| `Histogram.RangeSound` | server/src/nocs/imaging/pipeline.py:248-255 | the window starts at or below the 0.5 % point, and a bin is a whole number of steps wide |
| `Histogram.RangeCovers` | server/src/nocs/imaging/pipeline.py:248-255 | it ends above the 99.5 % point but exactly where the point with the margin reaches 65536, is whole 256ths of some width from the rounded start, and rounding the start took away as much as there is above the point; then it ends exactly there |
| `Histogram.RangeCoversAll` | server/src/nocs/imaging/pipeline.py:250-255 | it never does where the step divides 65536 |
| `Histogram.TopMissed` | server/src/nocs/imaging/pipeline.py:250-260 | it does happen: of a sample with two values in steps of 3 and full scale n times, only two are counted, for every n up to 197 |
| `Histogram.GcdDivides` | server/src/nocs/imaging/pipeline.py:245 | the gcd divides both and is positive |
| `Histogram.GcdGreatest` | server/src/nocs/imaging/pipeline.py:245 | whatever divides both divides it |
| `Histogram.StepDivides` | server/src/nocs/imaging/pipeline.py:245 | every value there is is a multiple of the step |
| `Histogram.StepGreatest` | server/src/nocs/imaging/pipeline.py:245 | whatever divides every value divides the step |
| `Histogram.BinsAlike` | server/src/nocs/imaging/pipeline.py:253-259 | wherever a window of whole steps was shifted, it is over as many multiples of the step as any other |
| `Histogram.AllBinsAlike` | server/src/nocs/imaging/pipeline.py:253-259 | so is every bin of a histogram |
| `Histogram.RangeTight` | server/src/nocs/imaging/pipeline.py:250-255 | the bins are the narrowest of whole steps that span the middle with 0.3 of its length at each side, as far as there are values; they start at the last multiple of the step there, unless that leaves full scale |
| `Histogram.PointsAre` | server/src/nocs/imaging/pipeline.py:246-249 | the 0.5 % point is the first value with more than 0.5 % of the sample up to it, the 99.5 % point the first with 99.5 % or more |
| `Histogram.BinAt` | server/src/nocs/imaging/pipeline.py:256-260 | each bin counts the sampled values from where it starts to where the next one does |
| `Histogram.PointsPresent` | server/src/nocs/imaging/pipeline.py:246-249 | the 0.5 % and 99.5 % points are values there are, in this order |
| `Histogram.CountsAddUp` | server/src/nocs/imaging/pipeline.py:256-260 | the 256 counts add up to exactly the sampled values in the window |
| `Histogram.MostShown` | server/src/nocs/imaging/pipeline.py:240-260 | at least 99 % of the sample is counted, but exactly in that case nothing is from the 99.5 % point on; it never is where the step divides 65536 |
| `HistogramLoops.Tally` | server/src/nocs/imaging/pipeline.py:240 | how often each value is in every fourth column of every fourth row |
| `HistogramLoops.FillWindow` | server/src/nocs/imaging/pipeline.py:256-258 | the window is the table from its start on, and zeros beyond it; no index leaves either |
| `HistogramLoops.SumBins` | server/src/nocs/imaging/pipeline.py:259 | each count is its bin's sum |
| `HistogramLoops.MeasureHistogram` | server/src/nocs/imaging/pipeline.py:231-260 | the histogram of a frame, an empty one included, whose counts add up |
| `GuideLog.AfterExact` | server/src/nocs/guiding/stats.py:168-171 | a client is sent a run without a gap, from the first entry it lacks and the server keeps, up to the newest unless cut |
| `GuideLog.StepKeeps` | web/src/lib/guiding.svelte.ts:28-68 | every new run, entry, follow, answer and failure keeps the server's and the client's invariant |
| `GuideLog.EveryRun` | web/src/lib/guiding.svelte.ts:34-68 | over every run, with messages followed in any order and answers arriving late, the server keeps a contiguous run ending at the last number, and the client a strictly increasing selection of issued entries, at most 400, ending at its own number |
| `GuideLog.AnswerCatchesUp` | web/src/lib/guiding.svelte.ts:54-61 | an answer that is not late brings the client up to the newest entry with all the server keeps above its own |
| `GuideLog.StaysInStep` | web/src/lib/guiding.svelte.ts:34-52 | a client in step that follows every message stays so without asking again: it shows the last 400 entries since the run started, and those alone |
| `GuideLog.RepeatLeaves` | web/src/lib/guiding.svelte.ts:45 | hearing of an entry again changes nothing for it |
| `GuideLog.FailedAsksAgain` | web/src/lib/guiding.svelte.ts:28-68 | after a failed question it can ask again: for everything when the graph starts again, or at the next gap |
| `GuideLog.GapCloses` | web/src/lib/guiding.svelte.ts:45-61 | a client that missed messages has all the server keeps of what it missed once it follows the newest one and its question is answered |
| `GuideLog.StaysInRun` | web/src/lib/guiding.svelte.ts:54-61 | an answer brings back entries of an earlier run exactly if it replaces the list and has some among the last it keeps |
| `GuideLog.EarlierComeBackIff` | web/src/lib/guiding.svelte.ts:28-61 | over every run of both: an answer to a first question brings back entries of before some new run exactly if it was made before that run started and something was kept then |
| `GuideLog.LateFirstAnswer` | web/src/lib/guiding.svelte.ts:28-61 | a late first answer does bring the earlier run back: a run of six events from the first state that ends so |
| `GuideLog.OffsetLeftOut` | server/src/nocs/guiding/stats.py:86-98 | the deviation is the same with a constant offset added to every distance |
| `GuideLog.DeviationOfTwo` | server/src/nocs/guiding/stats.py:95-98 | of two values it is half their distance |
| `GuideGraphs.GuideHistory.AddEvent` | server/src/nocs/guiding/stats.py:122-162 | an event about guiding gets the next number, the oldest entry making room; others change nothing |
| `GuideGraphs.GuideHistory.ResetRun` | server/src/nocs/guiding/stats.py:118-120 | nothing is kept, and numbering goes on |
| `GuideGraphs.GuideHistory.AfterNumber` | server/src/nocs/guiding/stats.py:168-171 | the method gives what a client lacks |
| `GuideGraphs.GuideHistory.RecentSteps` | server/src/nocs/guiding/stats.py:177-187 | the newest steps that were not settling, newest first, as many as the window |
| `GuideGraphs.GuideGraph.FollowStats` | web/src/lib/guiding.svelte.ts:35-52 | the next entry is appended, a gap asks, a new run empties the list |
| `GuideGraphs.GuideGraph.StartGraph` | web/src/lib/guiding.svelte.ts:28-32 | the first start asks for everything, later ones for nothing |
| `GuideGraphs.GuideGraph.FetchFailed` | web/src/lib/guiding.svelte.ts:62-67 | a failed first fetch lets the graph start again |
| `GuideGraphs.GuideGraph.TakeAnswer` | web/src/lib/guiding.svelte.ts:54-68 | an answer replaces or extends the list, cut to the last 400 |
| `Coordinates.RaRoundTrip` | web/src/lib/mount.svelte.ts:31-50 | the hours printed are read back as those on the sky, rounded to the second, 24 h as 0 |
| `Coordinates.RaWithinHalfASecond` | web/src/lib/mount.svelte.ts:47-50 | that is at most half a second away around the sky |
| `Coordinates.RaPrintedAgain` | web/src/lib/mount.svelte.ts:47-50 | printing the hours read gives the same text |
| `Coordinates.DecRoundTrip` | web/src/lib/mount.svelte.ts:38-56 | the degrees printed are read back with their sign to the nearest arcsecond, and refused exactly when that is beyond 90°; within ±90° never |
| `Coordinates.DecPrintedAgain` | web/src/lib/mount.svelte.ts:52-56 | printing the degrees read gives the same text |
| `Coordinates.OnTheSky` | web/src/lib/mount.svelte.ts:48 | the two remainders give hours from 0 to below 24, for negative hours too |
| `Coordinates.ClockRead` | web/src/lib/mount.svelte.ts:11-28 | hours, minutes and seconds printed with any units are read as their sum |
| `Coordinates.ReadInRange` | web/src/lib/mount.svelte.ts:31-41 | whatever is typed, a right ascension read is from 0 h to below 24 h and a declination from -90° to 90° |
| `Coordinates.TypedRead` | web/src/lib/mount.svelte.ts:8-28 | whatever numbers are typed, whole or with a point or comma, with any units and spaces between, before and behind them and a sign in front, are read as their sum in sixtieths with that sign; not at all where there is none, more than three, or one after the first from 60 on |
| `Coordinates.NumberRead` | web/src/lib/mount.svelte.ts:24 | a number typed is all its digits, moved by as many places as are behind the point |
| `Coordinates.OnlyNumbers` | web/src/lib/mount.svelte.ts:24 | nothing else is read as a number |
| `Coordinates.Pad2Digits` | web/src/lib/mount.svelte.ts:43-45 | two digits for what is below 100, as many as it has for more |

## Left out

- Jobs: `active` and `job_holding`, the tasks themselves (`wait`, `close`, `_run`), start and end times, and the published `suspended` flag of jobs that ended, which a finish does not reset.
- Guiding: sockets, settling, calibration progress, star search, dithering, settings files and alerts.
- Tree and the client's tree are values: updates in place, aliasing of a received snapshot, and JavaScript's special property names are not modelled; nor are JSON encoding, authentication, backoff and the socket's own failures beyond losing what was sent.
- `Stores.PatchesSinceExact` and the stream are for a version from 0 on; a client never sends a negative one.
- One client and one connection at a time; every connection has its own subscription and sender, so several would only repeat it.
- Autofocus: the median of several frames at one point, measuring while the next frame is taken, cancelling, and the restore after a failure; `suggest_step`.
- `Plateaus.SuggestionTakesUp`: for the points of the planned sweep in the order taken, all with stars enough; where some are left out, the plateau's points are not evenly apart and the suggestion uses the distance of its first two, and after points were added on the near side the judged ones start with them.
- Curve: least squares, singular values and the confidence of a fit; the solver and the square root are parameters (`IsSqrt`).
- Flats: the twilight's brightness law and its trend (a factor in the model, once two frames are kept), opening the sky, wheel, focuser and mount moves.
- Publisher: the text of Release, signing, `publish_image`, hashes and sizes, the command line; bucket keys are structured values; versions dpkg calls equal but spelt differently may come in either order.
- `Stanzas.ParsePrint`: for stanzas whose keys hold no colon or line break and start with no blank, whose first lines are trimmed and whose continuation lines start with a blank and do not end with one; anything else the parser reads is modelled but not proved to come back.
- Library: `lights_of` and rows of other frame types.
- Darks: a container's label as text and the sequence's other fields.
- Histogram: bincount and searchsorted are written as loops; stretching, debayering, star detection and JPEG files.
- Guide entries: which fields an event's data gives, pixel scale and the shares published as RMS; the limit of 5000 entries per answer is modelled, the deviation only up to its square root.
- GuideLog: one life of the server; entries of a run after a restart are numbered from 1 again.
- Coordinates: numbers so long that they overflow a double; `mountActivity` and the slew pad.
- Polar alignment, drivers, imaging, the sequence engine, storage, capture, the web screens and the packaging of images.
