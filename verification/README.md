# Verified model of the launcher

The repository is a small distributed launcher: a Go SDK compiles a declaration
of processes, `campd` runs it as the init process of a sandbox, and `sandrun`
builds the root file system of each sidecar. This project models the four parts
where the difficulty lies and proves what they promise.

* **Supervisor** (`Probes`, `Supervision`, `Runtime`, `Progress`, `Lifecycle`,
  `Isolation`, `Escalation`, `Duties`, `StartupBound`, `StartupProgress`,
  `Teardown`, `StatusLine`). The object `Runtime.Supervisor` updates its table, cleanups,
  failure and readiness bit in place, and every method is proved against a
  function of its old state.
  A run is any sequence of answers of the environment (reaped children, existing
  groups, probe results, signals, clock readings); the theorems hold for all of
  them.
* **Resolver and mount planner** (`Resolver`, `ChrootWalk`, `TidyNecessary`,
  `BindTargets`, `MountPlan`, `MountViews`, `PlanContents`,
  `CgroupNesting`, `CgroupViews`, `DivertedCgroup`). The file system is a map from
  paths to directories, files and link texts.
* **Declaration pipeline** (`Sdk`, `Render`, `Campd`, `Argv`, `Sandrun`,
  `CommandLine`, `Pipeline`, `Validators`, `Paths`,
  `OriginForm`): two validators in two languages, a printer and a
  parser, and the theorem that a declaration means the same at both ends.
* **Byte encodings** (`Encodings`, `Workspaces`): identities of writable layers,
  the option text of the overlay mount, and the workspaces those identities own.

Four promises hold only under a condition, and the condition is proved exact:

* The restarting resolver, which collapses `..` in texts, agrees with a
  step-by-step walk exactly for link texts that have no `..` behind a name or
  climb above the root at once (`TidyNecessary.AgreementIffHarmless`).
* Sandrun parses campd's command line exactly when a sidecar with disk mounts
  has an overlay device (`Argv.ParseInvertsBuild`); the SDK always supplies one,
  but campd does not ask for it and accepts a declaration whose command line is
  then refused (`Argv.DiskWithoutDevice`).
* In an accepted plan the cgroup bind is seen and hides nothing but its part of
  `/sys`, whatever tmpfs mounts the planner accepts beside it, exactly when its
  resolved target lies strictly inside the resolved `/sys`
  (`CgroupViews.CgroupInSightIff`); the check of resolved targets does not
  include it. Elsewhere a user mount can hide it (`DivertedCgroup.CgroupHidden`);
  at or above `/sys` it hides the read-only `/sys` (`CgroupNesting.SysHidden`).
  The command line refuses such a user mount only when it overlaps a declared
  target in its text (`CgroupViews.IntruderAtCommandLine`).
* A sidecar opens its workspace again, for any digest and any history, exactly
  when the lock is free, nothing fails on the way, and the identity file holds
  its own identity (`Workspaces.OpensIff`). It is shut out for good if that file
  was cut short when first written (`Workspaces.InterruptedWriteIsFinal`) or was
  created by another identity with the same digest
  (`Workspaces.CollisionShutsOut`); in no case do two identities share one
  (`Workspaces.WorkspacesAreNeverShared`).

Go's validator is stricter than campd's by exactly a short list of demands
(`Validators.ValidatorsIff`), and sandrun's parser accepts exactly the command
lines that say something sound (`CommandLine.ParseIff`).

Startup succeeds, and readiness is claimed, exactly when the answers of the
environment call for it (`StartupProgress.StartupSucceedsIff`, `ReadyIff`).

Assumptions: the system hands out no pid that is still in campd's table (stated
as `Isolation.FreshRun` where it is needed); nothing else changes the file system
during preparation; `/sys/fs/cgroup` of the host is a directory where the cgroup
result needs it; text is held as bytes, one character for each; JSON and Base64
lose nothing; SHA-256 is not interpreted.

Verify the whole project with `dafny verify dfyconfig.toml`.

## Model

| member | source | states |
|---|---|---|
| `Probes.ProbeState.Observe` | cmd/campd/src/runtime.rs:114-130 | one observation moves the two counters and the health, and reports exactly a change of health |
| `Probes.CountersMeaning` | cmd/campd/src/runtime.rs:94-131 | for every history the saturating counters are the lengths of the trailing success and failure runs, capped at the 32-bit maximum |
| `Probes.HealthMeaning` | cmd/campd/src/runtime.rs:114-131 | a service is still starting exactly while no prefix of its history ended in a run that reached its threshold; afterwards its health is the verdict of the latest prefix that did |
| `Runtime.Supervisor.ReapAvailable` | cmd/campd/src/runtime.rs:424-475 | the new table, failure, cleanups and log are those of reaping each answer in turn |
| `Lifecycle.ReapAllMeaning` | cmd/campd/src/runtime.rs:424-475 | with distinct pids an entry exits exactly when `waitpid` reported its pid while it was alive, with the first status reported and the group check made then |
| `Runtime.Supervisor.ApplyProbeEvent` | cmd/campd/src/runtime.rs:483-499 | an event moves the probe of a live probed entry by one observation and changes nothing else |
| `Lifecycle.ObserveAllMeaning` | cmd/campd/src/runtime.rs:477-499 | a queue of events moves every live probed entry by exactly its own results, in order, and leaves all other entries alone |
| `Runtime.Supervisor.UpdateReady` | cmd/campd/src/runtime.rs:501-515 | the readiness bit is set exactly when initialization completed, nothing failed and every service is alive and, if probed, ready |
| `Runtime.Supervisor.FailStartup` | cmd/campd/src/runtime.rs:517-524 | the first reason is kept, initialization is not complete and readiness is recomputed |
| `Runtime.Supervisor.ScheduleCleanup` | cmd/campd/src/runtime.rs:526-540 | an existing group that is not yet pending is sent TERM and gets its kill and give-up times; otherwise nothing changes |
| `Runtime.Supervisor.ProcessCleanups` | cmd/campd/src/runtime.rs:542-561 | the pass over pending cleanups: who is kept, who is killed, who is released, in order |
| `Escalation.PassMeaning` | cmd/campd/src/runtime.rs:542-561 | after a pass each pending cleanup names an existing group before its give-up time, killed if its kill time came; an entry disappears only if its group was gone or its time was up |
| `Runtime.Supervisor.Drive` | cmd/campd/src/runtime.rs:396-422 | one call leaves the specified state and tells a signal, a fault or neither |
| `Progress.DriveAdvances` | cmd/campd/src/runtime.rs:396-561 | whatever the environment answers, one call of `drive` spawns nothing, keeps identities, never revives or alters an exited entry, and never changes a failure once set |
| `Runtime.Supervisor.Spawn` | cmd/campd/src/runtime.rs:256-312 | a child is added only if it started and its probe thread, if any, did; a child whose probe thread could not start is killed and not added |
| `Runtime.Supervisor.WaitForService` | cmd/campd/src/runtime.rs:314-344 | the gate loop follows the run step by step and tells how it was left |
| `Runtime.Supervisor.WaitForJob` | cmd/campd/src/runtime.rs:346-394 | the same for a job, including the cleanup it schedules when it fails or times out |
| `Runtime.Supervisor.Launch` | cmd/campd/src/runtime.rs:184-226 | one turn of the loop over declarations: drive, spawn, gate |
| `Runtime.Supervisor.Complete` | cmd/campd/src/runtime.rs:229-240 | the end of initialization follows the run |
| `Runtime.Supervisor.Supervise` | cmd/campd/src/runtime.rs:563-569 | the endless loop follows the run until a signal or a fault |
| `Runtime.Supervisor.Run` | cmd/campd/src/runtime.rs:175-240 | for every sequence of environment answers the object ends in the state of the abstract run, and if a signal stopped it, the teardown went to the groups it stopped with, with that signal |
| `Runtime.Supervisor.Shutdown` | cmd/campd/src/runtime.rs:571-588 | readiness is withdrawn, probes are cancelled, exactly the live, residual and pending groups are torn down, and the code is 128 plus the signal |
| `Lifecycle.StepReachable` | cmd/campd/src/runtime.rs:175-240 | every step of a run, from one call of `drive` to the next, keeps the invariant of runs |
| `Lifecycle.RunReachable` | cmd/campd/src/runtime.rs:175-240 | the invariant of every run: a table in declaration order, gates passed by all earlier jobs, readiness up to date |
| `Lifecycle.ReadinessMeaning` | cmd/campd/src/runtime.rs:175-240 | over every run the readiness bit is set if and only if campd is supervising, nothing failed, every declaration was spawned once and in order, every job exited 0 leaving no group, and every service is alive with its probe ready |
| `Lifecycle.ReadyMeansServed` | cmd/campd/src/spec.rs:289-293 | for an accepted declaration readiness is never claimed without a live, ready service |
| `Lifecycle.FailureAbsorbs` | cmd/campd/src/runtime.rs:182-240 | once a startup failure is set its first reason stays, nothing more is spawned, initialization never completes and readiness stays off |
| `Lifecycle.InitializationMeaning` | cmd/campd/src/runtime.rs:182-240 | while declarations are being started there is no failure and every started service is alive; afterwards either initialization completed or a failure is recorded, never both |
| `Lifecycle.ServiceExitIsFinal` | cmd/campd/src/runtime.rs:424-515 | once a service has exited readiness is off in every later state, whatever probe events arrive and even if `waitpid` fails later |
| `Lifecycle.BitAtFault` | cmd/campd/src/runtime.rs:396-422 | when `waitpid` fails the bit is the one from before the step, or the one the middle of the step called for |
| `Lifecycle.ReadyAtFault` | cmd/campd/src/runtime.rs:396-475 | if the bit is still set when `waitpid` fails, everything was spawned, every job succeeded, nothing failed and every service was alive when that step began |
| `Lifecycle.RunPrecedes` | cmd/campd/src/runtime.rs:175-240 | later states of a run keep the table, the exits, the first failure and the log of earlier ones |
| `Isolation.StepKeeps` | cmd/campd/src/runtime.rs:424-561 | every step keeps it so that signals and pending cleanups concern only exited processes and jobs, if the pid of a spawn is fresh |
| `Isolation.RunIsolated` | cmd/campd/src/runtime.rs:424-561 | with fresh pids, in every state each signal sent and each pending cleanup concerns an exited process or a job, and pids are distinct |
| `Duties.StepEnds` | cmd/campd/src/runtime.rs:396-422 | a step ends the run exactly if `waitpid` fails or a signal is found before that, and the code is 128 plus that signal |
| `Duties.StopMeaning` | cmd/campd/src/runtime.rs:571-588 | over every run a signal stopped, the groups it stopped with are exactly those of live processes, those left behind by exited ones, and those whose TERM-KILL episode the log shows open |
| `Duties.StopSignals` | cmd/campd/src/runtime.rs:571-588 | each of them gets the received signal exactly once in the teardown, and nobody else does |
| `Duties.DrivePursues` | cmd/campd/src/runtime.rs:424-475 | every group that a reaped process leaves behind, as both group checks saw it, is sent TERM at that time unless it is being pursued already |
| `Duties.StepPursues` | cmd/campd/src/runtime.rs:346-394 | the same for a step, with the group of a job that is given up while alive because startup failed or its time is up |
| `Duties.LeftoversPursued` | cmd/campd/src/runtime.rs:424-561 | over every run with fresh pids, a group once owed TERM was sent it, and ever since is pending or has been released |
| `Duties.TermsAreOwed` | cmd/campd/src/runtime.rs:526-540 | a step sends TERM only where it is owed |
| `Duties.PendingTimes` | cmd/campd/src/runtime.rs:526-540 | over every run a pending cleanup has its TERM in the log, is due for KILL five seconds after it and given up after six |
| `Duties.DrivePasses` | cmd/campd/src/runtime.rs:396-422 | a calm call passes over the cleanups twice; what is pending afterwards was seen in time and killed if due, and what both passes saw in time is kept |
| `Duties.RunTruthful` | cmd/campd/src/runtime.rs:182-240 | over every run the recorded reason of a failed startup is true of the table: the named service exited so, or the last process is the named job that failed, left a group or timed out, and so on |
| `Duties.StepNamesReason` | cmd/campd/src/runtime.rs:182-226 | a step that fails startup without a signal or fault records the reason its answers call for: a service exited, the start failed, the probe or the job timed out, the job failed with that status or left its group |
| `Duties.SpawnOutcomes` | cmd/campd/src/runtime.rs:256-312 | no child and no change, a child killed and not tracked, or one new live entry of that pid, and the log says which |
| `Duties.RunCancels` | cmd/campd/src/runtime.rs:424-588 | over every run a probe thread is told to stop exactly when its process exited or a signal stopped the run |
| `Isolation.RunDiscards` | cmd/campd/src/runtime.rs:275-291 | over every run with fresh pids a child killed because its probe thread could not start is in no table entry, and startup has failed |
| `Isolation.PeersUndisturbed` | cmd/campd/src/runtime.rs:275-291 | over every run with fresh pids no TERM or KILL of a cleanup, and no KILL of a child whose probe thread could not start, went to the group of a service that is or later becomes live; the latter is never tracked and fails startup |
| `Escalation.DriveKeeps` | cmd/campd/src/runtime.rs:396-422 | one call of `drive` keeps every group's log of TERM, KILL and release in step with the pending cleanups |
| `Escalation.RunOrderly` | cmd/campd/src/runtime.rs:526-561 | over every run pending groups are distinct and, for every group, the log and the pending cleanups agree on where its TERM-KILL episode stands |
| `Escalation.KillFollowsTerm` | cmd/campd/src/runtime.rs:526-561 | every KILL follows a TERM to the same group at least five seconds earlier with nothing done to that group in between |
| `Escalation.GivenUpOnlyAfterKill` | cmd/campd/src/runtime.rs:542-561 | a group that still exists is given up only after it was sent KILL |
| `StartupBound.GateEndsByDeadline` | cmd/campd/src/runtime.rs:314-394 | when time passes only in the timed receive, a gate is left by its deadline and kept only strictly before it |
| `StartupBound.RunOnTime` | cmd/campd/src/runtime.rs:314-422 | the clock never passes the budget of the declarations handled so far, and every quiet step but the last of a gate uses up a poll interval |
| `StartupBound.InitializationBound` | cmd/campd/src/spec.rs:294-298 | for an accepted declaration initialization ends within 25 seconds and takes at most 500 quiet gate steps plus one for each declaration |
| `StartupProgress.DriveMeaning` | cmd/campd/src/runtime.rs:396-475 | one undisturbed call of `drive` leaves an entry exited as first reported, or alive with its gauge moved by its own results, in order |
| `StartupProgress.RunGauges` | cmd/campd/src/runtime.rs:477-499 | over every run without signals and faults the gauge of a live probe is what its declared thresholds make of all results since it was started |
| `StartupProgress.RunFavours` | cmd/campd/src/runtime.rs:182-240 | such a run has no failure if and only if in every step of initialization no service exited, every start worked, every probed service was made ready by its results by its deadline, and every job was reported by its deadline with status 0 and no group left |
| `StartupProgress.StartupSucceedsIff` | cmd/campd/src/runtime.rs:175-240 | for an accepted declaration and a timely run past the step bound, campd is supervising, and initialization completed if and only if the environment did so |
| `StartupProgress.ReadyIff` | cmd/campd/src/runtime.rs:501-515 | in such a run the readiness bit is set if and only if the environment did so, no service was ever reported, and each probe's results so far give ready under its declared thresholds |
| `Teardown.Await` | cmd/campd/src/runtime.rs:1033-1041 | a waiting phase ends at the first poll where nothing remains or its time is up |
| `Teardown.SignalAll` | cmd/campd/src/runtime.rs:1030-1032 | each group is signalled exactly once, in any order |
| `Teardown.TerminateGroups` | cmd/campd/src/runtime.rs:1028-1055 | the received signal to every group, a wait, KILL to what every poll saw, a second wait |
| `Teardown.TeardownMeaning` | cmd/campd/src/runtime.rs:1028-1055 | each group gets the received signal exactly once and before any KILL; KILL goes exactly once to exactly the groups seen by every poll of the first phase |
| `Teardown.RemainingIsLastSeen` | cmd/campd/src/runtime.rs:1033-1055 | if groups do not come back, what remains after a phase is what its last poll saw |
| `Teardown.TeardownBound` | cmd/campd/src/runtime.rs:1033-1055 | at most 120 polls, and at most six seconds plus one poll for each phase |
| `StatusLine.ReadFirstLine` | cmd/campd/src/runtime.rs:962-986 | a line that is read is the first line of the response within the 128-byte buffer, however the reads cut it; it is lost only to a failed read or the deadline |
| `StatusLine.LineMeaning` | cmd/campd/src/runtime.rs:957-986 | the line is what stands before the first newline, if that is among the first 128 bytes |
| `Resolver.NormalizeInnerPath` | cmd/sandrun/src/linux.rs:1158-1176 | the collapsed names, or nothing when `..` would leave the root |
| `Resolver.ResolveTarget` | cmd/sandrun/src/linux.rs:1101-1156 | the specified answer in at most 41 scans from the root, link loops included |
| `Resolver.FortyLinks` | cmd/sandrun/src/linux.rs:1123-1129 | a chain of links is followed to its end exactly if it has no more than forty |
| `Resolver.RestartConfined` | cmd/sandrun/src/linux.rs:1101-1156 | a result is the root followed by names whose every prefix exists and is no link, and resolving those names again gives it back in one scan |
| `Resolver.ResolveConfined` | cmd/sandrun/src/linux.rs:1101-1156 | the same for path texts: plain names only, link-free, and a fixed point of resolution |
| `Resolver.ResolveMonotone` | cmd/sandrun/src/linux.rs:1101-1156 | adding nodes never changes a resolution that succeeded |
| `ChrootWalk.ResolveIsWalk` | cmd/sandrun/src/linux.rs:1101-1176 | with harmless link texts and target, restarting from the root gives the same path or the same error as walking one component at a time with real parents |
| `TidyNecessary.AgreementIffHarmless` | cmd/sandrun/src/linux.rs:1158-1176 | exactly for link texts with no `..` behind a name, or climbing above the root at once, do the two readings agree on every file system |
| `TidyNecessary.Disagreement` | cmd/sandrun/src/linux.rs:1158-1176 | for any other text, a file system whose other links are harmless on which the two lead to different places |
| `BindTargets.FileTree.CreateDirectory` | cmd/sandrun/src/linux.rs:1019-1038 | a missing directory is created, an existing node is left alone |
| `BindTargets.FileTree.EnsureBindTargetDirectory` | cmd/sandrun/src/linux.rs:947-1017 | the new file system and the answer of the incremental walk |
| `BindTargets.FileTree.EnsureBindTarget` | cmd/sandrun/src/linux.rs:876-945 | the same with the last name, created as a directory or a file like its source |
| `BindTargets.EnsureDirectoryResolves` | cmd/sandrun/src/linux.rs:947-1039 | on success the incremental walk returns exactly what `resolve_target` gives in the file system it leaves; it adds only directories below the root, changes no node and keeps every earlier resolution |
| `BindTargets.EnsureDirectoryIdempotent` | cmd/sandrun/src/linux.rs:947-1017 | creating a second time changes nothing |
| `BindTargets.EnsureDirectoryFails` | cmd/sandrun/src/linux.rs:947-1017 | the walk fails exactly if, in the file system it leaves behind, some name stands in the way: a node that neither is nor leads to a directory |
| `BindTargets.CreatedKind` | cmd/sandrun/src/linux.rs:894-944 | an existing node is left alone; a missing one is created as a directory or a file like its source, and refused for any other source |
| `BindTargets.EnsureTargetResolves` | cmd/sandrun/src/linux.rs:876-945 | the whole target resolves to the node found or created; a link already at its end is kept, and the target then resolves as that link does unless the links run out |
| `MountPlan.ValidateResolvedMountTargets` | cmd/sandrun/src/linux.rs:667-702 | the first fault in order, or the verdict on overlapping targets |
| `MountPlan.PrepareMounts` | cmd/sandrun/src/linux.rs:617-665 | the operations in order, or the first fault |
| `MountPlan.PrepareBindTargets` | cmd/sandrun/src/linux.rs:869-874 | the file system after all bind targets, or the first fault |
| `MountPlan.PrepareDiskBinds` | cmd/sandrun/src/linux.rs:830-859 | each disk mount is created and prepared before the next |
| `MountPlan.PrepareStart` | cmd/sandrun/src/linux.rs:583-615 | the working directory and the executable resolve inside the root to a directory and to an executable file, or the first fault |
| `MountPlan.Prepare` | cmd/sandrun/src/linux.rs:96-118 | the whole plan: targets created, start and targets checked, operations with the disk mounts last |
| `PlanContents.AcceptedContents` | cmd/sandrun/src/linux.rs:617-665 | an accepted plan mounts, in order, the standard mounts with their fixed sources, targets, flags and modes, then each declared bind from its own source with its own read-only flag, each tmpfs, and each disk mount as a writable bind of its own source, each on what its target resolves to, and nothing else |
| `PlanContents.AcceptedStart` | cmd/sandrun/src/linux.rs:583-615 | an accepted plan starts an executable file of the root in a directory of the root |
| `PlanContents.TargetsHaveNodes` | cmd/sandrun/src/linux.rs:861-874 | before anything is checked or mounted, there is a node for the target of every declared bind and, with standard mounts, of the cgroup bind |
| `PlanContents.MissingTargetWorks` | cmd/sandrun/src/linux.rs:876-945 | a bind on a missing target gets a target of its source's kind and is then prepared with its own flags, never refused as incompatible |
| `PlanContents.MissingDiskWorks` | cmd/sandrun/src/linux.rs:830-859 | one more disk mount on a missing target succeeds whenever the earlier ones did |
| `MountViews.ResolvedInner` | cmd/sandrun/src/linux.rs:704-723 | an accepted target resolves strictly below the root, to the inner path returned |
| `MountViews.CheckMeaning` | cmd/sandrun/src/linux.rs:667-702 | the check passes exactly when no compared target is at or below another |
| `MountViews.MountsNeverAlias` | cmd/sandrun/src/linux.rs:617-723 | in an accepted plan all mounts but the cgroup bind have proper, link-free, pairwise non-prefix targets, exactly the compared ones, and the file system only grew |
| `MountViews.CoveredOnce` | cmd/sandrun/src/lib.rs:500-536 | of mounts that are apart at most one covers a path |
| `MountViews.ReorderedView` | cmd/sandrun/src/linux.rs:117-121 | the same disjoint mounts in any order give every path the same view |
| `MountViews.AcceptedPlanView` | cmd/sandrun/src/linux.rs:617-723 | in an accepted plan, split into the operations of the requests before, at and after the cgroup bind and those of the user, every path is covered by at most one mount besides the cgroup bind, and the user's mounts may be reordered |
| `CgroupViews.InsideSysIsInSight` | cmd/sandrun/src/linux.rs:639-642 | in every accepted plan whose cgroup target resolves strictly inside the resolved `/sys`, each path under the cgroup bind sees it, `/sys` is seen, and no other mount is hidden on any path |
| `CgroupViews.CgroupInSightIff` | cmd/sandrun/src/linux.rs:639-642 | an accepted plan keeps it so, whatever tmpfs mounts the planner accepts beside it, if and only if the cgroup target resolves strictly inside the resolved `/sys` |
| `CgroupViews.IntruderAtCommandLine` | cmd/sandrun/src/lib.rs:500-536 | one more tmpfs passes the check on the command line if and only if no declared target overlaps it in its text |
| `CgroupNesting.SysHidden` | cmd/sandrun/src/linux.rs:639-642 | if it lies at or above `/sys`, every accepted plan hides the read-only `/sys` mount from every path |
| `DivertedCgroup.CgroupHidden` | cmd/sandrun/src/linux.rs:617-665 | an accepted plan on a complete root with `/sys/fs` linked to `/data`: the cgroup bind lands at `/data/cgroup` and the user's tmpfs hides it from every path |
| `Encodings.BuildIdentities` | cmd/sandrun/src/linux.rs:398-403 | the overlay identity and the disk-mount identity |
| `Encodings.ReadPartInverts` | cmd/sandrun/src/linux.rs:405-408 | a part can be read back off the front, whatever follows |
| `Encodings.PartsInjective` | cmd/sandrun/src/linux.rs:398-408 | equally many parts with the same encoding are the same parts |
| `Encodings.OverlayIdentityInjective` | cmd/sandrun/src/linux.rs:398-403 | equal overlay identities have equal ids and lower directories |
| `Encodings.DiskIdentityInjective` | cmd/sandrun/src/linux.rs:843-847 | equal disk-mount identities have equal ids, lower directories and targets |
| `Encodings.IdentitiesDisjoint` | cmd/sandrun/src/linux.rs:843-848 | no overlay identity is a disk-mount identity |
| `Encodings.HexLower` | cmd/sandrun/src/linux.rs:410-418 | the hexadecimal text, two digits for each byte |
| `Encodings.HexReadsBack` | cmd/sandrun/src/linux.rs:410-418 | the digits, `0` to `9` and `a` to `f`, read back as the bytes they were written for |
| `Encodings.HexInjective` | cmd/sandrun/src/linux.rs:410-418 | different digests have different texts |
| `Encodings.AppendOverlayPath` | cmd/sandrun/src/linux.rs:1334-1341 | the path with its delimiters escaped |
| `Encodings.Overlay` | cmd/sandrun/src/linux.rs:1319-1327 | the three options of the overlay mount |
| `Encodings.OptionsRoundTrip` | cmd/sandrun/src/linux.rs:1319-1341 | splitting at unescaped commas and removing escapes gives back the three paths, for all bytes |
| `Encodings.LowerIsOneLayer` | cmd/sandrun/src/linux.rs:1334-1341 | no unescaped colon splits the lower path |
| `Workspaces.Store.EnsureIdentity` | cmd/sandrun/src/linux.rs:420-453 | the identity file is written once, and read and compared ever after |
| `Workspaces.Store.StableOverlayPaths` | cmd/sandrun/src/linux.rs:376-396 | the locked workspace named by the digest, or the fault with the lock dropped |
| `Workspaces.WorkspacesAreNeverShared` | cmd/sandrun/src/linux.rs:376-453 | for any digest function, two uses that opened one workspace had the same id and lower directory, and the first was closed before the second |
| `Workspaces.OpensAgain` | cmd/sandrun/src/linux.rs:376-453 | an identity that opened its workspace opens it again whenever the lock is free and the file can be read |
| `Workspaces.OpensIff` | cmd/sandrun/src/linux.rs:376-453 | for any digest and any history, a use opens its workspace if and only if the lock is free, nothing on the way fails, and the identity file, if an earlier use created it, is readable and holds exactly this identity |
| `Workspaces.MismatchIff` | cmd/sandrun/src/linux.rs:420-453 | a use is refused for its identity exactly if it gets as far as reading the file and the use that created it wrote something else |
| `Workspaces.LockedIff` | cmd/sandrun/src/linux.rs:455-485 | a workspace is locked if and only if some use opened it and it was not closed since |
| `Workspaces.CollisionShutsOut` | cmd/sandrun/src/linux.rs:420-453 | of two identities with one digest the later is refused, though the lock is free and every write succeeded |
| `Paths.GoCleanIsCanonical` | spec.go:472-475 | Go accepts exactly the canonical texts of plain names |
| `Paths.GoAcceptsIffRustAcceptsCanonical` | spec.go:468-475 | Go accepts a path exactly when Rust does and it is written canonically |
| `Paths.RustAcceptsMore` | cmd/campd/src/spec.rs:500-511 | a path Rust accepts and Go refuses |
| `Paths.OverlapTestsAgree` | spec.go:262-266 | on paths Go accepts, its string test and Rust's component test for overlap agree |
| `Paths.TextComponents` | cmd/sandrun/src/lib.rs:492-498 | the components of a canonical text are a root and its names |
| `Paths.CleanMeaning` | cmd/sandrun/src/lib.rs:492-498 | a clean path is absolute, has no `..` between its slashes and, unless the root will do, names something |
| `Resolver.RedirectedIsJoined` | cmd/sandrun/src/linux.rs:1129-1143 | the components a link leads to are, once normalized, those of the link joined to its directory with the remaining names pushed one by one |
| `OriginForm.CampdScan` | cmd/campd/src/spec.rs:448-472 | campd's scanner accepts exactly the origin form of section 3.2.1 of RFC 9112 |
| `OriginForm.GoScan` | spec.go:426-455 | Go's scanner accepts exactly the same byte strings |
| `OriginForm.ScansIsOriginForm` | cmd/campd/src/spec.rs:448-472 | the flat character scan and the grammar of sections 3.3 and 3.4 of RFC 3986 describe the same strings |
| `Campd.Validate` | cmd/campd/src/spec.rs:159-300 | campd accepts exactly the declarations the specification accepts |
| `Campd.Tally.ValidateCommon` | cmd/campd/src/spec.rs:317-398 | one process passes exactly if it is valid, newly named and its cost fits, and then name, budget and service count are updated |
| `Campd.ValidateProbe` | cmd/campd/src/spec.rs:407-446 | a probe passes exactly if it is valid |
| `Campd.ValidateSidecar` | cmd/campd/src/spec.rs:175-268 | a sidecar's paths and mount targets pass exactly if they are clean and apart |
| `Campd.Flatten` | cmd/campd/src/runtime.rs:692-747 | refused exactly if a named main user is unknown; else sidecars then main processes in order, each main process with no identity, the declared ids, or those of its named user |
| `Sdk.ResolveProbe` | spec.go:369-417 | defaults filled in, and refused exactly if the result is not valid |
| `Sdk.Validate` | spec.go:136-184 | Go accepts exactly the declarations its specification accepts |
| `Sdk.Tally.ValidateProcess` | spec.go:268-357 | one process against the names, ports, budget and services so far |
| `Sdk.ValidateSidecarMounts` | spec.go:197-260 | a sidecar's device and mount targets pass exactly if they are clean and apart |
| `Render.ResolveImageSet` | images.go:84-139 | accepted exactly if every reference and registry type is valid and the names are valid and distinct; then each image is listed in order and found under its own name with its own mount path |
| `Render.ImageMeaning` | images.go:128-139 | an image is valid exactly if its reference is not empty, equals its trimmed text and holds no zero byte, and its registry is one of the two |
| `Render.RenderStart` | render.go:21-75 | a declaration is rendered exactly if images and specification are accepted, every sidecar has an image and the encoding fits; the whole configuration is the specified one |
| `Render.RenderedStart` | render.go:21-75 | a rendered configuration starts campd from the runtime image's own mount, hands it the encoded declaration and nothing else, and has campd's control port asked for readiness |
| `Render.RenderedPorts` | render.go:44-56 | the rendered ports are exactly the declared ones, at most eight, strictly ascending, and none is the readiness port |
| `Render.EncodeSpec` | render.go:136-156 | the wire form, process by process |
| `Sandrun.ParseArgs` | cmd/sandrun/src/lib.rs:256-423 | parsing an argument list gives the specified configuration or error |
| `CommandLine.ParseIff` | cmd/sandrun/src/lib.rs:256-423 | a command line parses to a configuration if and only if it is a list of options with their values, a separator and the command, names users in order, says of root, device, identity, directory, user and mounts what the configuration says, and the configuration is sound |
| `CommandLine.Spellings` | cmd/sandrun/src/lib.rs:274-374 | the spelling of every option |
| `Sandrun.ValidateTargetPaths` | cmd/sandrun/src/lib.rs:521-536 | the first clash in order; none exactly if all targets are pairwise apart |
| `Sandrun.DecimalValue` | cmd/sandrun/src/lib.rs:425-435 | the decimal text of a number is read back as that number |
| `Argv.BuildCommand` | cmd/campd/src/runtime.rs:749-813 | the command line and environment of a sidecar and of a main process |
| `Argv.ParseInvertsBuild` | cmd/campd/src/runtime.rs:749-813 | for every valid sidecar sandrun parses campd's command line back into its fields if and only if it has no disk mount or has a device; otherwise it refuses it for that reason |
| `Argv.DiskWithoutDevice` | cmd/campd/src/runtime.rs:749-813 | a declaration campd accepts whose sidecar's command line sandrun refuses |
| `Pipeline.DecodeExact` | render.go:136-234 | campd decodes the wire form to exactly the declared processes |
| `Pipeline.SpecAccepted` | cmd/campd/src/spec.rs:159-300 | everything Go accepts, campd accepts |
| `Validators.ProcessIff` | spec.go:268-424 | for what a process declared in Go means to campd, Go accepts it if and only if campd does and Go's own demands on processes are met |
| `Validators.MountsIff` | spec.go:197-266 | the same for a sidecar's device and mounts, where Go only demands canonical spelling |
| `Validators.ValidatorsIff` | spec.go:136-184 | Go accepts a declaration if and only if campd accepts its meaning and Go's own demands are met: canonical spelling, no ids beside a user name, no timeout for services and no ports for jobs, sidecar options only on sidecars, at most eight valid ports, each once |
| `Validators.DecodedMeans` | cmd/campd/src/spec.rs:144-157 | the declaration campd decodes means what was declared in Go |
| `Pipeline.BudgetsAgree` | spec.go:174-184 | budget and service count mean the same in both languages |
| `Pipeline.MountPathExact` | images.go:118 | an image's mount path is the mount root and its name, and is clean |
| `Pipeline.RootsAreDistinct` | images.go:113-122 | sidecars with different names have different root file systems |
| `Pipeline.PipelinePreservesMeaning` | render.go:21-234 | the environment variable of a rendered declaration fits campd's size limit; campd accepts the declaration and each of its processes says what was declared, defaults filled in; sandrun parses each sidecar's command line to exactly the declared root, device, id, directory, user, mounts and command; its environment is the declared one |
| `Pipeline.MainsPreserveMeaning` | cmd/campd/src/runtime.rs:692-813 | each main process of a rendered declaration is launched with the declared program, arguments, directory and environment, as the declared ids or those of the declared user name |

## Left out

- System calls, threads, signal handlers, capabilities, mounts and locks themselves: only their results appear, as inputs.
- The readiness HTTP server, sockets, and the parsing of a status line into a code.
- Error texts; where several errors could be reported by a validator of declarations, which of them comes first (the order is modelled for sandrun's parser and planner).
- The storage mounts rendered from resolved images, which only copy their fields.
- JSON field names and unknown-field checks; the wire form is modelled as values with the omission rules of both sides.
- The contents of `/etc/passwd`: the user table is an input of `Campd.Flatten`.
- Overflow of Go's 64-bit durations and of sums of them, which the checked bounds keep far away.
- Creation of missing bind sources, directory modes, and the replacement of a link at a DNS file when the mount is applied.
- The kinds of error a missing path gives: below a file, as below nothing, the model answers that the path is not found.
- Nodes other than directories, files and links, so a bind whose source is a device or socket is always refused as incompatible here.
- Pid reuse while a pid is tracked, concurrent changes of the file system, and descendants that leave their process group.
- Supervision.Tick: one record holds the answers between two calls of `drive`, so a run ends between calls and never in the middle of one.
- Lifecycle.ReadinessMeaning: excludes the state after `waitpid` itself failed, where campd returns an error at once; Lifecycle.BitAtFault gives the bit it leaves and Lifecycle.ReadyAtFault what that still implies.
- Lifecycle.ServiceExitIsFinal: says nothing of a service that exits in the very step in which `waitpid` fails, since campd then returns before readiness is recomputed.
- MountPlan.Prepare: the kind of each bind source, and which files are executable, are inputs.
- The setuid launcher, the cookbook, the end-to-end runner, fixtures, container files and scripts.
