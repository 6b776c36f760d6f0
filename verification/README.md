# JARVIS, modelled and proved

JARVIS supervises Java processes on a Windows host: it launches them, watches them, relaunches them when they crash,
finds them again after it was restarted itself, stores the jars they run and controls who may do all this. This project
models the parts of it that carry hard guarantees and proves what those guarantees are, for every input, every run or
every interleaving. Where the code does not keep a promise in full, the project states exactly when it does, and shows
an input or a run for which it does not.

## Layout

| file | what it models |
|---|---|
| `Protocol.dfy` | the supervisor as a transition system: operator calls, watcher goroutines, process exits, row writes, shutdowns and restarts, one critical section or statement per step |
| `ProtocolSafety.dfy` | the guards, and one watcher and one process per app on every guarded run |
| `ProtocolCount.dfy`, `ProtocolBounds.dfy` | what `restart_count` means; what a cancelled watcher can still do; bounds under every schedule |
| `ProtocolWatchdog.dfy` | what the watchdog decides, read off whole runs: why it relaunches, why it does not |
| `ProtocolOutcomes.dfy` | what a start, a stop and a watcher achieve by their own steps when nothing interferes |
| `ProtocolCounterexamples.dfy` | for each guard on when a command, a shutdown or a restart may come, a run that only breaks that one and ends with two live processes |
| `Supervisor.dfy` | the critical sections and the statements of StartApp, StopApp, `watch` and reconcileApp as methods of an object, each proved to be the protocol's transition |
| `Reconcile.dfy`, `Markers.dfy`, `LaunchLine.dfy`, `Leaves.dfy` | re-attaching after a restart: liveness checks, markers in escaped command lines, launcher chains |
| `ReconcileStep.dfy` | that this check is the reconciliation step of the protocol |
| `Stop.dfy` | stopping tier by tier, while pids are recycled |
| `Autostart.dfy`, `Backoff.dfy`, `Env.dfy` | boot order and dependencies, 64-bit backoff, the child's environment |
| `Auth.dfy`, `AuthRuns.dfy`, `Throttle.dfy` | accounts, sessions and login throttling; whole histories of them |
| `AuthAccounts.dfy`, `AuthLogins.dfy` | what a history says about accounts, and how it answers every login and every change of an account |
| `Artifacts.dfy` | artifact rows against the jar store, one handler at a time |
| `ArtifactHistory.dfy` | what a history of handlers says is stored and promoted, and what a start launches |
| `ArtifactRuns.dfy` | the same handlers as interleaving statements, and what every run, or every guarded run, keeps |
| `ArtifactOverlaps.dfy` | runs of overlapping handlers that lose a jar; handlers one at a time as runs of statements |
| `Traffic.dfy`, `Tail.dfy` | the incremental request window and the backwards log tail, against their plain meaning |
| `CommandLine.dfy`, `Manifest.dfy` | argument quoting and jar manifests, with their inverses |
| `Common.dfy` | what several of these share |

`dafny verify dfyconfig.toml` checks everything.

## What the proofs found

* **Two processes for one app.** Guards that say "starts do not overlap" and "a cancelled watcher has returned" are not
  enough. `cancelWatcher` takes the entry out of `watches` before the process is stopped, so a start during the grace
  period passes the check; and a stop that begins between a start's launch and its registration leaves a row that says
  STOPPED over a live process. A start and a stop of one app must not overlap either way. A shutdown may come at any
  moment of a start, but no start may follow it, and a restart of JARVIS may not fall between a launch and its insert.
  The eight runs are in `ProtocolCounterexamples`.
* **Backoff.** The comment promises waits that grow and stop at 30 s. The 64-bit shift gives that for counts up to 33
  and for eight later counts by accident; at the others the duration is negative or zero and there is no wait, from the
  55th restart on for good. All waits together come to 1141 s. The API admits `max_restarts` 0 to 100: 1 to 34 wait as
  promised, 35 to 54 have restarts without a wait in between, and 0 and 55 to 100 reach the end of all waiting.
* **Repeated upload.** A second upload of a stored version under another file name is refused by the database, and the
  clean-up then deletes the jar that was stored first.
* **Overlapping handlers.** Two uploads of one new version under one file name, or a delete and a new upload of one
  version, lose the jar of an accepted upload when they overlap: the file is checked, written and removed outside the
  statements that check the rows. So no upload or delete may begin on a version's directory while another is in flight
  on it. With that and the guards of a handler that runs alone, every interleaving keeps every jar; without any guard
  every interleaving still keeps the rows consistent.
* **Launch tried twice.** winproc.Launch starts the process a second time when access is denied, and that error may come
  from reading the creation time of the first, which then runs on. One launch can leave two processes.
* **Instance marker.** The check of JVM arguments looks at the beginning of each argument; the reader of the command
  line looks at words. Any argument one of whose later words begins with the property passes the check and is read
  first, after whatever Unicode white space. That is exactly the family: quotes and backslashes neither help nor hurt.

## Model

| member | source | states |
|---|---|---|
| ProtocolSafety.GuardedRunsStaySupervised | internal/supervisor/supervisor.go:195-275 | on every guarded run from a fresh installation: at most one uncancelled watcher per app, `watches` holds exactly those, a waiting watcher watches the row's process, at most one process per app is live |
| ProtocolSafety.InvStep | internal/supervisor/supervisor.go:579-686 | every guarded step, of any thread, command, shutdown, restart or of the host, keeps the inductive invariant for every app |
| ProtocolSafety.InvImpliesSupervised | internal/supervisor/supervisor.go:27-36 | the invariant gives what a reader wants of the supervisor |
| ProtocolSafety.RegisteredIsAlone | internal/supervisor/supervisor.go:579-592 | while an app has a registered watcher, no other thread of the app exists |
| ProtocolSafety.ReconcileKeeps | internal/supervisor/supervisor.go:101-168 | reconciling one app keeps the invariant for all |
| ProtocolBounds.CancelledWatcherLaunches | internal/supervisor/supervisor.go:335-371 | under every schedule a cancelled watcher makes at most one more launch, and none unless it was past the last context-checked read; a launch leaves at most one process, or two where it was tried again |
| ProtocolBounds.RetryStartsTwo | internal/winproc/launch_windows.go:50-57 | a launch that is tried again can leave two live processes |
| ProtocolBounds.LateCancelStillLaunches | internal/supervisor/watchdog.go:193-206 | past that read the launch can really happen |
| ProtocolBounds.RestartCountBounded | internal/supervisor/supervisor.go:610-656 | for a fixed max_restarts m > 0, restart_count stays at most m in every state of every run, guarded or not |
| ProtocolBounds.RestartCountBoundedFromInit | internal/supervisor/supervisor.go:619-626 | the same for every run of a fresh installation |
| ProtocolCount.RestartCountIsRelaunches | internal/supervisor/watchdog.go:193-206 | on guarded runs where the count can be read, restart_count is the number of watchdog relaunches since the last operator start, across shutdowns and reconciliations |
| ProtocolWatchdog.OffNeverRelaunches | internal/supervisor/supervisor.go:619-623 | an app whose watchdog is off and stays off is never relaunched by it, under every schedule and failure |
| ProtocolWatchdog.RelaunchesAreDecided | internal/supervisor/supervisor.go:619-643 | in every run, each relaunch follows a read of the policy with the watchdog on and a read of the count below its limit, both after the exit it answers |
| ProtocolWatchdog.FinalMarksHaveReasons | internal/supervisor/supervisor.go:619-653 | in every run, a final STOPPED has a watchdog that is off or a cancel during the backoff before it, a final FAILED an exhausted limit or a failed relaunch |
| ProtocolOutcomes.WatchdogRelaunches | internal/supervisor/supervisor.go:610-656 | a watcher that was not cancelled, with the watchdog on and the limit not reached, can get from an exit to a recorded relaunch it waits on |
| ProtocolOutcomes.WatchdogOffStops | internal/supervisor/supervisor.go:619-623 | with the watchdog off an exit ends in STOPPED, unregistered |
| ProtocolOutcomes.ExhaustedFails | internal/supervisor/supervisor.go:625-632 | with the limit reached an exit ends in FAILED |
| ProtocolOutcomes.CancelInBackoffStops | internal/supervisor/supervisor.go:638-643 | a cancel during the backoff ends in STOPPED |
| ProtocolOutcomes.FailedRelaunchFails | internal/supervisor/supervisor.go:645-651 | a relaunch that fails ends in FAILED |
| ProtocolOutcomes.WaitEnds | internal/supervisor/supervisor.go:663-673 | a wait that fails counts as an exit; a cancelled watcher leaves the row alone |
| ProtocolOutcomes.UnrecordedIsWatched | internal/supervisor/watchdog.go:202-205 | a relaunched process that could not be recorded is watched all the same |
| ProtocolOutcomes.UnrecordedIsRegistered | internal/supervisor/supervisor.go:213-218 | a started process that could not be recorded is registered all the same |
| ProtocolOutcomes.StartGetsUp | internal/supervisor/supervisor.go:195-219 | a start gets to a live process, a RUNNING row with no restarts, and a watcher of its own |
| ProtocolOutcomes.StopGetsDown | internal/supervisor/supervisor.go:222-261 | a stop gets to no process of the recorded identity, a STOPPED row and no watcher |
| ProtocolOutcomes.StopOfInactiveCancels | internal/supervisor/supervisor.go:222-235 | a stop of an app that does not run only cancels |
| ProtocolCounterexamples.OverlappingStartsLaunchTwice | internal/supervisor/supervisor.go:195-201 | two overlapping starts reach two live processes |
| ProtocolCounterexamples.StartDuringStopLaunchesTwice | internal/supervisor/supervisor.go:222-261 | a start during a stop's grace period reaches two live processes |
| ProtocolCounterexamples.StartBeforeReturnLaunchesTwice | internal/supervisor/supervisor.go:603-608 | the deferred delete of a late watcher removes its successor's entry, and a start then reaches two live processes |
| ProtocolCounterexamples.CancelInWindowLaunchesTwice | internal/supervisor/watchdog.go:198-205 | a cancel between a relaunch's last check and its insert leads to two live processes |
| ProtocolCounterexamples.StopDuringStartLaunchesTwice | internal/supervisor/supervisor.go:209-219 | a stop during a start leads to two live processes |
| ProtocolCounterexamples.StartAfterShutdownLaunchesTwice | internal/supervisor/supervisor.go:579-584 | after a shutdown startWatcher does nothing, so the next start passes the check too |
| ProtocolCounterexamples.ShutdownInWindowLaunchesTwice | internal/supervisor/supervisor.go:677-686 | a shutdown in a relaunch's window strands the new process, and after a restart a start launches another |
| ProtocolCounterexamples.RestartBeforeInsertLaunchesTwice | internal/supervisor/supervisor.go:209-215 | a restart of JARVIS between a launch and its insert leaves a process that no row names |
| SupervisorObject.Supervisor.TryStart | internal/supervisor/supervisor.go:195-201 | the check of StartApp under the mutex |
| SupervisorObject.Supervisor.StartWatcher | internal/supervisor/supervisor.go:579-592 | cancels a predecessor, registers the new watcher, and does nothing once shutting down |
| SupervisorObject.Supervisor.CancelWatcher | internal/supervisor/supervisor.go:594-601 | cancels the registered watcher and removes the entry |
| SupervisorObject.Supervisor.Shutdown | internal/supervisor/supervisor.go:677-686 | cancels every registered watcher and empties the map, in whatever order it is walked |
| SupervisorObject.Supervisor.UpdateInstance | internal/supervisor/supervisor.go:568-575 | pid, creation time and state; the instance id stays |
| SupervisorObject.Supervisor.MarkState | internal/supervisor/watchdog.go:66-71 | an update: without a row nothing changes |
| SupervisorObject.Supervisor.ReconcileApp | internal/supervisor/supervisor.go:101-168 | the whole of reconcileApp as one transition of the protocol |
| SupervisorObject.Supervisor.ReadPolicy | internal/supervisor/supervisor.go:619-623 | the policy step of the watch loop: no policy or no watchdog means the row is marked stopped next |
| SupervisorObject.Supervisor.ReadCount | internal/supervisor/supervisor.go:625-632 | the count step: give up at the limit, where zero is no limit |
| SupervisorObject.Supervisor.MarkStarting | internal/supervisor/supervisor.go:634-636 | the STARTING step before the backoff |
| SupervisorObject.Supervisor.RecordRelaunch | internal/supervisor/watchdog.go:202-205 | the insert step of a relaunch: the row is replaced with the count one up, and the watcher waits on the new process either way |
| SupervisorObject.Supervisor.MarkFinal | internal/supervisor/supervisor.go:645-653 | the final mark of a watcher that ends |
| SupervisorObject.Supervisor.Return | internal/supervisor/supervisor.go:603-608 | the step of the deferred delete, by name, whoever is registered |
| SupervisorObject.Supervisor.RecordStart | internal/supervisor/supervisor.go:213-215 | the insert step of StartApp: the count starts at zero; a failure is only logged |
| SupervisorObject.Supervisor.FinishStart | internal/supervisor/supervisor.go:217-218 | the registration step of StartApp |
| SupervisorObject.Supervisor.TryStop | internal/supervisor/supervisor.go:222-223 | the first step of StopApp: the watcher is cancelled before anything is read |
| SupervisorObject.Supervisor.ReadForStop | internal/supervisor/supervisor.go:225-235 | the query step of StopApp: only an active row goes on to the kill |
| SupervisorObject.Supervisor.FinishStop | internal/supervisor/supervisor.go:259-261 | the mark step of StopApp |
| Reconcile.Reconciler.ReconcileApp | internal/supervisor/supervisor.go:101-168 | one app's check with every call that can fail, and nothing else changed |
| Reconcile.Reconciler.Reconcile | internal/supervisor/supervisor.go:61-99 | after all apps: every active row whose check did not fail is watched by a watcher of the live process launched for it |
| Reconcile.AttachedIsLaunched | internal/supervisor/supervisor.go:118-155 | with pids recycled at will, an attached watcher watches the process launched for the row |
| Reconcile.ReconciledRowsAreWatched | internal/supervisor/supervisor.go:125-168 | a row left active is watched under the identity it records, and can be trusted at the next reconciliation |
| Reconcile.DiscoveryIsComplete | internal/supervisor/supervisor.go:145-158 | the search returns the first process of the snapshot that bears the id, and none only if none does |
| Reconcile.BearerIsAdopted | internal/supervisor/supervisor.go:145-158 | an active row not seen alive, whose id some process bears, ends RUNNING, recorded and watched as the first such process |
| Reconcile.StoppedExactly | internal/supervisor/supervisor.go:125-168 | an active row is marked stopped exactly if neither look shows its process, or the scan failed |
| Reconcile.LaunchIsNotStopped | internal/supervisor/supervisor.go:145-168 | it is not while the scan shows the process launched for it |
| Reconcile.FailsExactly | internal/supervisor/supervisor.go:101-168 | which failing calls make the check fail, and that a failure changes nothing |
| Reconcile.IdMeansLaunch | internal/runner/local_windows.go:151-178 | the instance id singles out the launch, although the search over-matches |
| Reconcile.AttachedExactly | internal/winproc/query_windows.go:101-133 | with a creation time recorded, exactly the process with that identity is taken |
| Reconcile.ZeroTimeTakesStranger | internal/winproc/query_windows.go:127-131 | with a zero creation time, whoever holds the pid is taken |
| Reconcile.MatchesToHandles | internal/runner/local_windows.go:151-165 | one handle per match, with the id read from its command line |
| ReconcileStep.CheckIsStep | internal/supervisor/supervisor.go:101-168 | every outcome of one app's check, over what two looks at the host show, is what the reconciliation step of the protocol does: the same row, the same watcher, and a find exactly if the scan found one |
| Markers.FindByMarker | internal/winproc/query_windows.go:212-245 | the matches of a snapshot, in order |
| Markers.FoundAreThoseCarrying | internal/winproc/query_windows.go:250-269 | exactly the readable processes above pid 4 whose command line contains the marker |
| Markers.AppMarkerOverMatches | internal/winproc/marker_windows.go:24-26 | the search for one app also finds another exactly if its name begins with the first |
| Markers.ExtractProperty | internal/runner/local_windows.go:168-178 | the value in the first word that carries the property |
| Markers.ExtractedExactly | internal/runner/local_windows.go:29-34 | the id is read back exactly if no word before the marker carries the prefix, or the first that does has the same id |
| Markers.PlainArgumentsCarryNothing | internal/api/profiles.go:320-328 | for arguments without blanks and quotes, the API's check is exactly what is needed |
| Markers.BlankHidesPrefix | internal/api/profiles.go:320-328 | an argument with a blank passes the check and is read as the id |
| LaunchLine.ArgumentCarriesExactly | internal/winproc/launch_windows.go:62-63 | an argument, escaped as exec.Cmd escapes it, is read as carrying the instance property exactly if one of its own words begins with it |
| LaunchLine.LineCarriesExactly | internal/runner/local_windows.go:29-34 | the same for a whole argument list |
| LaunchLine.IdIsReadBackExactly | internal/runner/local_windows.go:168-178 | for any arguments around the marker, a fresh id is read back exactly if no word of an earlier argument begins with the property |
| LaunchLine.CheckIsExactForWords | internal/api/profiles.go:325-328 | the API's check says the same of arguments without white space, quotes included |
| LaunchLine.QuotedAsQuoteArg | internal/winsvc/autostart_windows.go:24-50 | in quotes the runtime escapes as quoteArg does |
| Leaves.LeafMatches | internal/winproc/marker_windows.go:70-83 | the matches that are nobody's parent |
| Leaves.FindInstance | internal/winproc/marker_windows.go:49-67 | not running, the one leaf, or how many claim to be it |
| Leaves.OneLeafExactlyForChains | internal/winproc/marker_windows.go:41-48 | a non-empty list has a leaf; it has one exactly if it forms one parent-child chain, and then the last of the chain is picked |
| Stop.Host.Alive | internal/winproc/query_windows.go:101-133 | what the liveness check answers at a moment |
| Stop.Host.WaitExit | internal/winproc/query_windows.go:139-171 | gone means gone unless the process was hidden when opened; a timeout means it still ran after the whole time was waited |
| Stop.Host.TerminateProcess | internal/winproc/query_windows.go:175-195 | fails as not running exactly if the second liveness check says so |
| Stop.Host.Stop | internal/winproc/stop_windows.go:53-112 | a successful stop means the process is gone (unless it was hidden); it is killed at most once, and only after every tier that was accepted or delivered had its whole grace; which failures are possible, and which tier can have succeeded |
| Stop.AliveIsRunning | internal/winproc/query_windows.go:97-100 | recycled pids and exited processes are told apart |
| Autostart.Autostarter.Autostart | internal/supervisor/watchdog.go:91-157 | the apps launched, in the order of the list, the state left behind, and that their start delays have passed; it terminates on any `depends_on` |
| Autostart.Autostarter.WaitForDeps | internal/supervisor/watchdog.go:166-191 | succeeds at once exactly if all dependencies are RUNNING and alive, and otherwise gives up after the shared deadline |
| Autostart.Autostarter.GetStatus | internal/supervisor/supervisor.go:278-316 | a row of a dead process reads as stopped |
| Autostart.LaunchedExactly | internal/supervisor/watchdog.go:117-156 | an app is launched exactly if it was not up and each dependency was up or was launched earlier in the list |
| Autostart.LaunchedAreThose | internal/supervisor/watchdog.go:117-156 | the list of launched apps holds exactly those whose turn led to a launch |
| Autostart.LaunchedAreUp | internal/supervisor/watchdog.go:117-156 | what was launched is RUNNING and watched, and nothing else has changed |
| Autostart.DeadlockStays | internal/supervisor/watchdog.go:166-191 | no member of a set whose members wait for each other is launched if none was up |
| Autostart.OrderedAllStart | internal/supervisor/watchdog.go:86-91 | listed after what they depend on, all apps start |
| Backoff.TwiceIsDoubling | internal/supervisor/watchdog.go:20-20 | the shift of the model is doubling in two's complement |
| Backoff.IntendedExactly | internal/supervisor/watchdog.go:12-25 | a wait lies in [1 s, 30 s] exactly for counts up to 33 and eight later ones |
| Backoff.WaitsGrow | internal/supervisor/watchdog.go:12-25 | up to 33 waits never get shorter |
| Backoff.PolicyWaitsAsIntended | internal/api/apps.go:247-250 | a policy only ever waits as intended exactly if max_restarts is between 1 and 34 |
| Backoff.Watch | internal/supervisor/supervisor.go:610-656 | for a process that exits n times: how many relaunches, whether the watchdog gave up, and the total wait |
| Backoff.FirstWaits | internal/supervisor/supervisor.go:628-643 | the first k waits total 2^k - 1 s up to 5, then 31 + 30 (k - 5) s up to 34 |
| Backoff.WaitsRunDry | internal/supervisor/watchdog.go:20-24 | beyond 54 restarts the total is 1141 s for ever |
| Env.PutVariable | internal/supervisor/supervisor.go:434-447 | the first entry with the prefix is replaced, or one is appended |
| Env.EnvSlice | internal/supervisor/supervisor.go:429-450 | nil for no variables, otherwise the merge along some walk of the map |
| Env.PrefixIsName | internal/supervisor/supervisor.go:437-440 | for a key the API accepts, having its prefix means having its name |
| Env.MergedLookup | internal/supervisor/supervisor.go:424-428 | for every walk and every way of folding case, a variable has the profile's value if it is set under any spelling, and otherwise the value it had |
| Env.OthersKeepTheirPlace | internal/supervisor/supervisor.go:424-428 | other entries keep text and position, and names stay distinct |
| Env.OrderIrrelevantExactly | internal/api/profiles.go:338-345 | the walk does not matter exactly if keys that differ only by case agree |
| Auth.Service.Login | internal/auth/auth.go:155-218 | the outcome and the rows of a login |
| Auth.Service.CheckThrottle | internal/auth/auth.go:525-549 | locked exactly if the name or the remote has too many failures in the window |
| Auth.Service.Validate | internal/auth/auth.go:240-287 | expiry, disabled users, idle time, and the refreshed last-seen time |
| Auth.Service.Logout | internal/auth/auth.go:290-296 | one session goes, or none for an empty token |
| Auth.Service.ChangePassword | internal/auth/auth.go:304-331 | order of the refusals; every other session of the user ends |
| Auth.Service.ResetPassword | internal/auth/auth.go:335-352 | all sessions of the user end |
| Auth.Service.CreateUser | internal/auth/auth.go:355-382 | names stay unique |
| Auth.Service.SetUserState | internal/auth/auth.go:414-451 | refused for the last enabled admin; disabling ends the sessions |
| Auth.Service.DeleteUser | internal/auth/auth.go:457-478 | refused for the last enabled admin and for users that uploads or profiles refer to; sessions go along |
| Auth.Service.ChangeUsername | internal/auth/auth.go:483-506 | names stay unique |
| Auth.Service.Bootstrap | internal/auth/auth.go:94-141 | the first administrator, or a forced change of the well-known password |
| Auth.Service.Cleanup | internal/auth/auth.go:563-571 | expired sessions and failures older than a day go |
| AuthRuns.ValidatesIffGood | internal/auth/auth.go:240-287 | after any history a token validates exactly if it was issued by a login, nothing revoked it since, seven days have not passed and it was used within the last twelve hours; and then as the user who logged in |
| AuthRuns.LedgerAgrees | internal/auth/auth.go:198-209 | the session table agrees with the history at every point of a run |
| AuthRuns.GapsAreShort | internal/auth/auth.go:270-280 | from its issue to its last use, a token that stands was never unused for more than twelve hours |
| AuthRuns.CleanupAndRenameKeepAnswers | internal/auth/auth.go:563-567 | neither changes any later answer about any token |
| AuthRuns.CleanupPrunes | internal/auth/auth.go:563-571 | Cleanup leaves exactly the sessions that have not expired, and no failure older than a day |
| AuthRuns.OnlyNewPasswordLogsIn | internal/auth/auth.go:298-331 | after a change exactly the new password logs the user in |
| AuthRuns.WriteKeepsAdmin | internal/auth/auth.go:414-478 | every write to the users table leaves an enabled administrator |
| AuthRuns.AdminRemains | internal/store/store.go:71-81 | at every transaction boundary of every interleaving there is an enabled administrator |
| AuthRuns.BootstrapLeavesAdmin | internal/auth/auth.go:94-120 | and there is one once Bootstrap has run on an empty or valid database |
| AuthRuns.OperationsAreWrites | internal/auth/auth.go:94-506 | the operations, Bootstrap at every start included, change users by just these writes |
| AuthAccounts.AccountsAreKept | internal/auth/auth.go:94-506 | at every point of a history the users table holds exactly the accounts its accepted operations made, with name, password, role, state and must_change |
| AuthAccounts.PasswordIsLastSet | internal/auth/auth.go:298-382 | an account's password is the one set last by CreateUser, Bootstrap, ResetPassword or ChangePassword |
| AuthLogins.ThrottledIffLocked | internal/auth/auth.go:525-561 | the throttle locks exactly if the history has eight failures of the name, or twenty of the remote, in the last 900 s that no later login of the name made up for |
| AuthLogins.LoginAnswers | internal/auth/auth.go:155-218 | how a login is answered after any history: locked, wrong, disabled or in |
| AuthLogins.LogsInExactly | internal/auth/auth.go:155-218 | who gets in: exactly the enabled user of that name with the password last set for it, unless locked |
| AuthLogins.AcceptedExactly | internal/auth/auth.go:304-506 | each change of an account is accepted exactly if what the history made of the accounts allows it |
| Throttle.FailuresBounded | internal/auth/auth.go:158-196 | with at most c logins in flight, no 900 s hold more than 7 + c failures of a name or 19 + c of a remote |
| Throttle.BoundIsReached | internal/auth/auth.go:525-561 | 7 + c of a name is reached, for every c |
| Throttle.RemoteBoundIsReached | internal/auth/auth.go:525-561 | 19 + c of a remote is reached, for every c |
| Throttle.CleanupKeepsDecisions | internal/auth/auth.go:563-571 | Cleanup changes no throttle decision, then or later |
| Throttle.LoginIsSteps | internal/auth/auth.go:155-218 | a login alone is the check and the finish of this model, so the bound is about Login |
| Artifacts.Repository.Save | internal/artifact/store.go:75-120 | when an upload is stored, and that nothing changes otherwise |
| Artifacts.Repository.Remove | internal/artifact/store.go:219-234 | a version's directory goes, as far as files can be deleted |
| Artifacts.Repository.Verify | internal/artifact/store.go:197-216 | the jar is there with the recorded digest |
| Artifacts.Server.Upload | internal/api/artifacts.go:92-179 | all outcomes of an upload that nothing interrupts, the roll-back of a refused row included |
| Artifacts.Server.Activate | internal/api/artifacts.go:181-219 | the active id becomes that of the version |
| Artifacts.Server.DeleteArtifact | internal/api/artifacts.go:221-272 | refusals, foreign keys, and the removal of the directory, when nothing interrupts it |
| Artifacts.Server.DeleteApp | internal/api/apps.go:287-314 | rows go, jars stay |
| Artifacts.ConsistentStep | internal/api/artifacts.go:181-209 | a handler that nothing interrupts, whatever of it fails, leaves every active id naming a row of the same app |
| Artifacts.KeepsJarsExactly | internal/api/artifacts.go:143-151 | a handler that nothing interrupts leaves every row its jar exactly if it does not remove a directory that another row's jar shares |
| Artifacts.GuardedIsSafe | internal/artifact/store.go:94-98 | for a handler that nothing interrupts, the two guards rule that out |
| Artifacts.RepeatedUploadLosesJar | internal/api/artifacts.go:146-151 | without the first guard the stored jar is lost |
| Artifacts.DeletingOneCaseLosesOther | internal/artifact/store.go:227-230 | without the second guard deleting one version takes the other's jar |
| ArtifactHistory.CatalogueIsKept | internal/api/artifacts.go:92-272 | at every point of a history the tables hold exactly the versions, files, bytes, promotions and launches of its accepted handlers |
| ArtifactHistory.ActiveIsLastPromoted | internal/api/artifacts.go:181-209 | an app's active id names the version promoted last since the app was created |
| ArtifactHistory.ActivatePromotes | internal/api/artifacts.go:194-209 | a promotion answered Ok makes the version active that was asked for, and changes nothing else |
| ArtifactHistory.StartLaunchesPromoted | internal/supervisor/supervisor.go:509-538 | after any history a start that succeeds launches the promoted version, from the bytes uploaded under it |
| ArtifactHistory.AcceptedExactly | internal/api/artifacts.go:92-272 | each handler but a start accepts exactly what the history and the disk allow |
| ArtifactRuns.RunsStayConsistent | internal/api/artifacts.go:92-272 | over every interleaving of the statements of uploads, promotions, deletes, starts and app deletes, an active id names a row of the same app |
| ArtifactRuns.ActKeepsJarsExactly | internal/artifact/store.go:94-115 | a statement leaves every row its jar exactly if it does not remove a directory with a row's jar, overwrite a row's jar by other bytes, or insert a row whose jar is gone |
| ArtifactRuns.GuardedRunsKeepJars | internal/api/artifacts.go:92-272 | over every interleaving that keeps the three guards every row's jar is on disk with its digest, and what is active passes Verify |
| ArtifactRuns.PromotedStarts | internal/supervisor/supervisor.go:509-538 | so at any moment of such a run an app with a promoted version does not fail to start over its jar |
| ArtifactRuns.ActiveChangesExactly | internal/api/artifacts.go:204-206 | over every interleaving an app's active id is changed by its promotions alone, to the row they are about |
| ArtifactRuns.PromotionAims | internal/api/artifacts.go:155-158 | and that row is of the version that was asked for, or the one just uploaded |
| ArtifactOverlaps.OverlappingUploadsLoseJar | internal/artifact/store.go:94-115 | with the first two guards kept, two overlapping uploads of one version lose the jar of the accepted one |
| ArtifactOverlaps.OverlappingDeleteLosesJar | internal/artifact/store.go:219-234 | with the first two guards kept, a delete that overlaps a new upload of its version removes the new jar |
| ArtifactOverlaps.HandlersAreRuns | internal/api/artifacts.go:92-272 | every handler that nothing interrupts is a run of these statements, and if it keeps its two guards the run keeps the three |
| Traffic.MergeExchanges | internal/metrics/traffic.go:275-303 | the newest `keep` of the window and the newly accepted requests |
| Traffic.SortByTime | internal/metrics/traffic.go:296-298 | sorted, and a permutation |
| Traffic.AppTraffic.Sample | internal/metrics/traffic.go:133-133 | how a sample threads the window |
| Traffic.MergeStep | internal/metrics/traffic.go:275-303 | one merge keeps: sorted, no repeated key, and every key ever offered and missing is no newer than all that are kept |
| Traffic.WindowIsNewest | internal/metrics/traffic.go:275-307 | after any run the window is, as a multiset of times, the newest `keep` of all distinct accepted requests ever offered |
| Traffic.EntriesAreFirstOffers | internal/metrics/traffic.go:281-303 | after any run every entry is, in all its fields, the first offer of its request since the window last did not hold it, and no actuator's |
| Tail.TailLines | internal/applog/tail.go:12-58 | exactly the last lines of the whole file, wherever chunks are cut |
| Tail.CountNewlines | internal/applog/tail.go:60-68 | the number of line feeds |
| Tail.SplitLines | internal/applog/tail.go:70-97 | the lines of a buffer |
| Tail.LastLinesOfSuffix | internal/applog/tail.go:34-52 | a suffix with more line feeds than lines wanted has the same last lines as the file |
| Tail.LinesAreWhatWasWritten | internal/applog/tail.go:70-97 | lines written with LF or CRLF are read back |
| Tail.UnfinishedLineIsRead | internal/applog/tail.go:87-95 | a last line that nothing ends is read too; a lone carriage return is not a line |
| Tail.ReadSince | internal/applog/tail.go:101-127 | what is delivered from an offset, and the next offset |
| Tail.FollowingDeliversAll | internal/applog/tail.go:99-127 | while a log only grows, polling delivers each byte once |
| Tail.RotationDeliversBoth | internal/applog/tail.go:113-118 | when a followed log is replaced, all of the old one arrives, and of the new one what a reader gets who believes to have read as much of it |
| Tail.RotationIsCompleteExactly | internal/applog/tail.go:113-118 | all of both logs arrives exactly if the new one is shorter than the old one at the first poll that sees it, or the old one was empty |
| CommandLine.QuoteArg | internal/winsvc/autostart_windows.go:24-50 | the quoted form, with runs of backslashes doubled where a quote follows |
| CommandLine.ReadQuoted | internal/winsvc/autostart_windows.go:18-23 | a quoted argument is read back whatever follows it |
| CommandLine.QuotingRoundTrips | internal/winsvc/elevate_windows.go:144-157 | every list of NUL-free arguments survives joining and parsing by Microsoft's rules |
| CommandLine.QuotingIsInjective | internal/winsvc/elevate_windows.go:144-157 | two lists never share a command line |
| Manifest.ParseManifestAttributes | internal/artifact/manifest.go:91-122 | what the line scanner makes of any text, over-long lines included |
| Manifest.ReadContinuations | internal/artifact/manifest.go:101-108 | continuation lines append to the current header |
| Manifest.ReadWritten | internal/artifact/manifest.go:84-122 | every folded section is read to its end, whatever follows the blank line |
| Manifest.ParsingUndoesFolding | internal/artifact/manifest.go:84-122 | the headers come back exactly as they were exactly if no first line ends in white space |

## Guards of the protocol

`ProtocolSafety.Guarded` is a predicate on single steps.

* A start begins only while no command of its app is in flight, its cancelled watchers have returned, and no shutdown has
  come. A stop begins only while no start of its app is in flight.
* No stop and no shutdown falls between a relaunch's last context check and its insert; a shutdown may come at any moment
  of a start. JARVIS is not killed between a launch and its insert; it may be killed and restarted at any other moment.
* No insert or wait call and no read or liveness call of a reconciliation fails. A launch starts the one process it
  returns, or none; a stop fails only because the process is gone. Reads of the policy and of the count, marks, and the
  writes of a reconciliation may fail. Only `ProtocolCount.RestartCountIsRelaunches` asks that the count can be read.

Everything else interleaves freely, and pids are recycled. `ProtocolCounterexamples` has a run against each of the first
two items; the guards on failing calls are taken as they are.

## Left out

- Restart: RestartApp is a stop followed by a start whose first half may fail; in the protocol it is the two commands, so the guards apply to it as to them.
- Deleting an app, and creating one, while the protocol runs: the set of apps with a policy is fixed within a run.
- ProtocolBounds.RestartCountBounded: says nothing when max_restarts is 0 or is changed during the run, where the code promises no bound.
- Reconcile.Reconciler.Reconcile: is about startup, before a shutdown can have been asked for, so startWatcher always attaches; it does not report orphans, which only writes log lines.
- Reconcile.Sound: takes one process per instance id as given; several processes of one launch are the subject of `Leaves`.
- LaunchLine: the escaping done by exec.Cmd on Windows belongs to the Go runtime, outside this repository; `Escaped` follows its documented rules.
- Autostart.Autostarter.Autostart: assumes what its theorem is about: no other command, every launch succeeding, processes staying up, and no cancellation; the list comes in the order the query gives it.
- Autostart.Autostarter.WaitForDeps: a dependency that comes up while the wait is going on is not modelled; during a boot only the boot itself starts apps.
- Stop.Host.TerminateProcess: the pid may change hands between its liveness check and its open; what is killed then is not modelled.
- Backoff.Watch: the loop with no cancel and every relaunch succeeding; interference is the subject of the protocol.
- Env: case folding is any map of characters that leaves '=' alone, as strings.ToUpper is; text is characters, not bytes.
- Auth.Service.Login: a user name is lower-cased in ASCII only; stored names are ASCII. Uploaded file names, which may hold other letters, are folded in ASCII only as well.
- Auth.Service.CheckThrottle: a failed read of the counts, which lets the login through, is not modelled.
- Auth: hashing is injective, tokens are fresh, and times are compared at the one-second resolution the tables store.
- AuthRuns.ValidatesIffGood: operations run one at a time; the interleaved claims are AdminRemains and those of Throttle.
- AuthLogins.LoginAnswers: operations run one at a time, from a fresh installation, and the token drawn for the login was never issued before.
- ArtifactHistory.StartLaunchesPromoted: says nothing of an app without a promoted version, where the newest upload is a parameter.
- Artifacts: the staging file and its clean-up are one possible failure of Save; the uploaded file name is taken after its directory part is cut off.
- ArtifactRuns: RemoveAll is one step, at its end; the files it fails to delete are any set. The checks of a handler before its first write are one step, made at the last of them.
- Traffic: times are taken at the millisecond of the key, and the text form of a key as its fields; the rest of a sample (counters, rates, log parsing) is not part of this model.
- Manifest: lines are measured in characters where the code measures bytes; opening the archive and finding the entry are not part of this model.
- Win32 calls, console events, service registration, HTTP routing, SQL text, configuration, the metrics roll-ups and the web pages.
