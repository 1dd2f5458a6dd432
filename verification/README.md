# Verified model of the orascout deploy daemon

orascout polls a registry, and when the digest behind a watched reference changes it pulls the
artifact and deploys it as its annotations say: replace one file and restart a service (`jar`,
`war`), copy a directory tree (`static`), run a command once (`run-once`), or only run hooks. This
project models the parts in which a mistake destroys a host or loses a deploy, and proves
properties of them.

| modules | what they model |
|---|---|
| `Text`, `Paths`, `Requests`, `Results` | the pieces of Go's `strings`, `path` and `filepath` that the daemon uses, by their documented rules; the parsed annotations |
| `Safety` | the deny tables and every path check, restated on path components |
| `Hosts`, `FileCopy`, `TreeCopy`, `DirCopy` | a mutable file tree with its system calls; copying and clearing on it |
| `Shell`, `Health` | the run-once command splitter and its substitution; the timed retry loop |
| `Deploy`, `Frame` | the strategies, the pipeline around them, and what an accepted deploy can touch |
| `Config`, `Registry` | the allowlist, the list of references, the reference splitter |
| `Lockfile`, `LockRace` | the PID lock with whole calls atomic, and with every file operation a step of its own |
| `State` | the digest store and the state file, with a crash possible after every operation |
| `Protocol`, `Fates` | the poll protocol as a transition system: tag moves, failures, crashes, restarts; the world after a cycle, by what becomes of its operations |
| `Delivery`, `Neighbours` | what the registry holds for a digest, how it gets to the host, and what the protocol's targets mean for the tree; how deploys on one host can hinder each other |
| `Passes`, `HostCycles`, `HostPasses` | what comes from outside during a cycle, and what a cycle and a pass leave in the world of the protocol and on the host |
| `Watcher`, `Cycles`, `Service` | the daemon with its host, store and lock; what its passes mean for the protocol; the daemon over time, with crashes and restarts |

Main results:

* **Copying.** A clearing copy makes the target equal to the source for every relative path, also
  when the source ships both `x` and `x.orascout.tmp`; an overlay changes nothing else. The walk's
  byte-lexical order is what the proof rests on: copied the other way round, the second of the two
  files is lost again (`WrongOrderLosesTheFile`, `LexicalOrderKeepsBoth`).
* **Failures.** Every contract says when an operation may fail. For copies between directories apart
  from each other, for the strategies and for the whole pipeline that is exact: when nothing outside
  the tree fails, how a deploy ends is a function of the tree that it finds (`RunsAsForecast`).
* **Frame.** Each path that an accepted deploy writes, renames or deletes is accounted for by the
  checks, although checks and strategies compute directories differently. The daemon's own storage
  is never touched. A finished deploy changes a denied entry if and only if it sweeps `/var/spool`
  and the cron tables there are not what it leaves behind (`DeniedChangesIff`).
* **Records.** Over all runs with crashes, failures and interleaved tag moves, from any state file: a
  digest comes on record only after a complete deploy, and a record that is current describes its
  target exactly. The last part holds in all runs if and only if the tag has not come back to the
  digest that it points to now (`RecordsTellIff`).
* **Delivery.** The daemon's cycles run the modelled pipeline on the modelled host, and after any of
  them what the protocol says about each target is true of the tree: the files at the target are
  those that the digest's annotations make of the digest's content. So from its start on, after
  every pass, a digest that is on record and current, and whose tag has not come back to it, is at
  its target byte for byte (`Start`, `Serve`). A crash at any moment of a pull, a deploy or a save
  leaves the daemon in a state in which that goes on to hold after a restart (`CrashIsSurvivable`,
  `CrashInSaveIsSurvivable`).
* **Neighbours.** Whether a deploy is hindered depends only on the paths that it looks at
  (`HinderedAgrees`). If no deploy of another repository can put something there, a cycle gets
  exactly as far in a pass as it gets on its own, however the cycles around it ended and whatever
  failed in them (`PassFaresAsAlone`). Jars side by side in one directory are such neighbours (`JarsSideBySide`);
  deploys that do not overwrite each other's files need not be (`ApartButColliding`).
* **Locking.** With atomic calls, at most one live process holds the lock, as long as those that
  call may signal the holder, and exactly as long (`OverrunIff`). Unless process ids are reused or
  files are left behind by failures, a call is refused if and only if somebody else holds it
  (`RefusedIffHeld`). With interleaved file operations, `CollidesIff` says exactly for which lock
  files two processes can hold it at once. When processes may die and operations fail in between,
  making create and write one step helps only two processes, and only from certain lock files
  (`CollidesSomehowIff`).
* **Passes.** A pass is a run of the protocol, and passes converge: a pass over settled repositories
  changes neither the world of the protocol nor anything on the host, not even for a moment
  (`SettledPassLeavesHost`). Convergence survives a restart if
  and only if every record had reached the disk (`ConvergenceSurvivesRestartIff`).
* **Parsers.** The splitter agrees with a grammar, inverts quoting and loses no character;
  references split into parts that rebuild them.

Three modelling choices run through everything. A failed system call or command sets a `faulted`
flag on the host, which every cycle clears first, and contracts say that an operation fails only if
that flag is set or for a reason visible in the tree. A `string` is a sequence of code points of well-formed text; the source tests
bytes, but only ASCII ones, so the tests agree. A request is read as a *plan* in path components,
and the contracts of the strategies speak about plans. Long contracts are stated as membership in
sets of outcomes; some of those sets are closed behind a condition that is always true (`Asked`),
which keeps proofs small and means nothing else.

Where the code differs from its documentation, the model follows the code:

* The documented path safety rules list `/var/spool/cron` as protected at any depth. The tables do
  not protect `/var/spool` itself, so a request that clears `/var/spool` passes every check
  (`internal/deploy/safety.go:95`; `StaticOverSpoolIsAdmitted`, `WarIntoSpoolIsAdmitted`). A finished
  clearing deploy there removes every cron table that it does not ship itself (`CronIsLost`).
  Everywhere else the tables hold (`TablesHold`).
* `internal/deploy/fsutil.go:30-49` truncates the temporary file before it reads the source. When the
  source has that very name, a copy succeeds and leaves an empty file (`BytesArriveIff`). An accepted
  jar request can do that with an artifact directory beside its target (`SelfSourcedIsAdmitted`), and
  the service is then started on the empty file. With artifacts in the default place it cannot
  happen (`DefaultSourceIsNotTemp`).
* The comment at `internal/deploy/safety.go:163-165` calls the removal of a drive prefix a no-op on
  Linux. It also fires on a directory whose first component starts with a colon.
  `GuardAcceptedIff` states the exact effect: the guard can only become stricter.
* The same rules forbid `..` as a segment; the code rejects every path that contains two dots in
  a row anywhere. `TargetAcceptedIff` follows the code.
* The documented concurrency rules promise that cycles never overlap; `CollidesIff` and
  `CollidesSomehowIff` show when they can.
* `README.md` of the repository says that the next cycle after a deploy is a no-op. That holds even
  when saving failed, because memory is changed first: the record then reaches the disk only with
  the next save (`LostSaveIsCarried`), and a restart before that deploys the digest again.
* A health interval of zero or less is accepted, and then nothing but the duration of the runs
  bounds the number of attempts (`NoPauseIsUnbounded`).
* The code takes a live process that it may not signal for dead
  (`internal/lockfile/lockfile.go:104-108`), so two users can hold the lock at once
  (`UnseenHolderIsOverrun`).

## Model

| member | source | states |
|---|---|---|
| Paths.SplitJoin | internal/deploy/safety.go:143 | splitting at slashes undoes joining with slashes |
| Paths.CleanIsNormalForm | internal/deploy/safety.go:111 | cleaning a rooted path renders its resolved components, and cleaning twice changes nothing |
| Paths.PathOfRender | internal/deploy/safety.go:111 | the normal form of a component path denotes that path |
| Paths.PrefixTestIsContainment | internal/deploy/safety.go:117 | on normal forms the test "equal, or prefix followed by a slash" is component containment, in both directions |
| Paths.JoinResolves | internal/deploy/safety.go:190 | joining resolves the second path from the first |
| Paths.DirOfCleaned | internal/deploy/strategy_war.go:28 | the directory of a path as written is that of the cleaned path, unless it ends in a slash or `/.`; then it is the cleaned path itself |
| Paths.PathOfSuffixed | internal/deploy/fsutil.go:36 | appending the temporary suffix names a new entry in the directory of the path as written, also when that ends in a slash |
| Safety.TargetAcceptedIff | internal/deploy/safety.go:101-131 | for every string: a target is accepted iff it is rooted, has no two dots in a row, its components are not denied, and it lies under a root when there are any |
| Safety.ClearAcceptedIff | internal/deploy/safety.go:138-148 | a directory may be cleared iff it may be a target and has at least two components |
| Safety.OnlyVarSpoolIsAboveDenied | internal/deploy/safety.go:38-96 | the only undenied path with something denied below it is `/var/spool`, and what is denied there is at or below `cron` |
| Safety.ClearedDirIsValidated | internal/deploy/safety.go:213-215 | the directory that the war strategy clears passes the clear rule under the same roots although the validator computed it from the cleaned target |
| Safety.StorageIsApart | internal/deploy/safety.go:92 | no accepted path is at, above or below the daemon's storage |
| Safety.GuardAcceptedIff | internal/deploy/safety.go:154-176 | the guard passes a resolved directory iff the clear rule does, and does again without a leading slash-colon pair |
| Safety.SecurePathJoinIff | internal/deploy/safety.go:182-195 | the join succeeds iff the relative path is non-blank, relative, and ends at the base or below it, whatever it does on the way; the result is that place in normal form |
| Safety.CleanKeepsDotFree | internal/deploy/safety.go:105-111 | a path without two dots in a row keeps that property when cleaned, and its last element is never the parent link |
| Hosts.ExtensionIsNotLess | internal/deploy/fsutil.go:77 | in byte-lexical order no name comes after a proper extension of it |
| Hosts.Host.ReadDirNames | internal/deploy/fsutil.go:118 | a directory listing holds exactly the entries, in order |
| Hosts.Host.MkdirAll | internal/deploy/fsutil.go:26 | adds only missing directories above the path; fails only on a fault or when something else is in the way |
| Hosts.Host.RemoveAll | internal/deploy/fsutil.go:126 | removes only at and below the path, and everything there on success |
| FileCopy.TempRoundTrip | internal/deploy/fsutil.go:36 | a file and its temporary name determine each other and differ |
| FileCopy.LocationIsValid | internal/deploy/fsutil.go:26-49 | where a copy makes its directory, its temporary file and its final file, for every way of writing the destination |
| FileCopy.WriteAndRename | internal/deploy/fsutil.go:36-51 | on success only the final name changed and the temporary one is gone |
| FileCopy.CopyFile | internal/deploy/fsutil.go:17-63 | success leaves the source's bytes at the destination, or an empty file when the source is the temporary name; nothing else changed and missing directories were added; without a fault it fails iff a stated obstacle was there |
| FileCopy.BytesArriveIff | internal/deploy/fsutil.go:30-49 | a copy delivers the source's bytes iff the source is not its own temporary file, or was empty |
| TreeCopy.CopyEntry | internal/deploy/fsutil.go:77-96 | the walk below one entry extends the visited set by all shipped paths there, and every path has its expected node |
| TreeCopy.CopyChildren | internal/deploy/fsutil.go:77-96 | visiting sorted siblings one by one never destroys an entry already copied |
| TreeCopy.ChildReady | internal/deploy/fsutil.go:36-51 | when a sibling's turn comes, neither it nor its temporary name has been visited, and if it has the temporary name of a shipped file that file has been |
| TreeCopy.FileBeforeTemp | internal/deploy/fsutil.go:77 | when the turn of a temporary name comes its file has been visited, so an old temporary file is out of the way |
| TreeCopy.CopyEntryFile | internal/deploy/fsutil.go:95 | one regular file of the walk |
| TreeCopy.EnterDirectory | internal/deploy/fsutil.go:85-91 | one directory of the walk: names read first, then created in the target |
| DirCopy.GuardOnHost | internal/deploy/fsutil.go:115-117 | the guard applied to what the directory resolves to |
| DirCopy.ClearDirContents | internal/deploy/fsutil.go:114-131 | success leaves nothing below the directory; a refused guard leaves the host untouched; nothing outside changes either way |
| DirCopy.CopyDir | internal/deploy/fsutil.go:67-107 | the whole copy, for any two directories: footprint and reasons for failure; for directories apart from each other the result tree, and that without a fault it fails iff one of these reasons was there; clearing a directory around the source makes the copy fail, and clearing the source itself leaves it empty |
| DirCopy.Walk | internal/deploy/fsutil.go:77-99 | the copy from the prepared target on, with its reasons for failure |
| DirCopy.ClearedCopyIsExact | internal/deploy/fsutil.go:65-107 | after a clearing copy target and source agree at every relative path |
| DirCopy.OverlayKeepsTheRest | internal/deploy/fsutil.go:77-96 | after a copy without clearing: source entries arrived, an unshipped temporary sibling of a copied file is gone, all else is as before |
| DirCopy.WrongOrderLosesTheFile | internal/deploy/fsutil.go:36-51 | if a file called like the temporary name of `x` is copied first and `x` second, the first arrives and is lost again |
| DirCopy.LexicalOrderKeepsBoth | internal/deploy/fsutil.go:77 | in lexical order both arrive |
| Shell.ParseShellCommand | internal/deploy/fsutil.go:164-191 | the loop over characters computes the splitter function |
| Shell.TokensAreWords | internal/deploy/fsutil.go:164-191 | the splitter fails iff a quoted group never closes, otherwise returns the words of the grammar, none of them empty |
| Shell.NothingIsLost | internal/deploy/fsutil.go:168-183 | token lengths, two per quoted group and unquoted spaces add up to the input length |
| Shell.TokensOfJoined | internal/deploy/fsutil.go:175-179 | commands joined by a space split into the tokens of the first, then of the second |
| Shell.SplitterInvertsQuoting | internal/deploy/fsutil.go:164-191 | any list of non-empty arguments, quoted and joined, is split back into itself |
| Shell.ApplyTemplate | internal/deploy/fsutil.go:194-200 | fills the output by index; one argument in, one argument out |
| Shell.SubstitutionCommutes | internal/deploy/strategy_runonce.go:18-25 | for a quote-free command and a plain file name, filling in before or after splitting is the same |
| Health.Healthcheck | internal/deploy/deploy.go:127-148 | for any interval and timeout, negative ones included: passes iff some run passes after only failing ones in time, and that is the last one; stops on time-out or cancellation only while failing, and ends at most a pause and a run after the timeout; if time passes between or in the runs their number is bounded |
| Health.AttemptsAreBounded | internal/deploy/deploy.go:130-147 | as long as every run has failed in time there were at most T/I + 1 of them, or T when there is no pause and runs take time |
| Health.NoPauseIsUnbounded | internal/deploy/deploy.go:142-146 | with an interval of zero or less, for every timeout and every n there are runs after n of which the loop is still trying |
| Health.NegativeTimeoutTriesOnce | internal/deploy/deploy.go:128-141 | with a negative timeout the first failing run ends the check |
| Health.NonePasses | internal/deploy/deploy.go:139-146 | once the loop has given up, no later run would have counted |
| Deploy.PlaceFile | internal/deploy/strategy_war.go:23-38 | clear, then copy: the promised tree, or a stated reason |
| Deploy.PlacedAfterClearing | internal/deploy/strategy_war.go:27-38 | after clearing the parent the new file is the only thing in it |
| Deploy.ReplaceArtifact | internal/deploy/strategy_jar.go:17-28 | the service stops before any change and starts after all of them; a failure leaves at worst that service stopped |
| Deploy.ApplyJar | internal/deploy/strategy_jar.go:10-29 | the jar strategy carries out its plan |
| Deploy.ApplyWar | internal/deploy/strategy_war.go:11-42 | the war strategy carries out its plan |
| Deploy.ApplyStatic | internal/deploy/strategy_static.go:10-27 | the static strategy carries out its plan |
| Deploy.ApplyRunOnce | internal/deploy/strategy_runonce.go:12-33 | the run-once strategy runs exactly its argument vector and changes no tree |
| Deploy.BuildArgv | internal/deploy/strategy_runonce.go:13-25 | the command is split first and the file name filled in afterwards |
| Deploy.ApplyStrategy | internal/deploy/deploy.go:44-58 | the kind selects the strategy whose plan is carried out |
| Deploy.StopService | internal/deploy/systemd.go:26-36 | a managed unit is down afterwards, and the log holds the tree at that moment |
| Deploy.StartService | internal/deploy/systemd.go:39-49 | a managed unit is up afterwards, and the log holds the tree at that moment |
| Deploy.RunHook | internal/deploy/deploy.go:97-123 | a blank hook does nothing; another one must resolve inside the artifact and exist |
| Deploy.Run | internal/deploy/deploy.go:64-93 | a rejected request changes nothing at all; otherwise pre-hook, strategy, health check and post-hook in this order, a failed post-hook not counting; every failure has a reason in the tree or a fault; once the strategy has completed the deploy succeeds iff there is no health check or it passes, within the bounds of the check on runs and time |
| Deploy.CheckHealth | internal/deploy/deploy.go:81-85 | the retry loop within a deploy: it passes iff some run of the command does before it gives up, however long runs would take; its time and the number of its runs are bounded |
| Deploy.RunsAsForecast | internal/deploy/deploy.go:64-93 | without faults a validated deploy fails iff its pre-hook cannot be run or its strategy is hindered, and at that stage |
| Deploy.ApplyAndCheck | internal/deploy/deploy.go:75-87 | the strategy, then the health check; the tree is the promised one whenever the strategy completed |
| Deploy.SourceIsInArtifact | internal/deploy/strategy_static.go:11-14 | the source of every strategy lies in the artifact directory |
| Frame.FootprintIsPermitted | internal/deploy/safety.go:199-234 | every touched path is a missing ancestor of the target, or the target, its temporary sibling or in the swept directory, with tables and roots respected up to two stated exceptions |
| Frame.TablesHold | internal/deploy/safety.go:71-96 | unless it sweeps `/var/spool`, an accepted deploy touches nothing denied but missing directories above its target |
| Frame.DeniedChangesIff | internal/deploy/safety.go:71-96 | a finished deploy changes a denied entry iff it sweeps `/var/spool` and leaves something else at or below `cron`: for a war, if that exists; for a clearing copy, if it differs from what is shipped; for an overlay, if an entry or a temporary name shipped there meets one |
| Frame.CronIsLost | internal/deploy/safety.go:95 | after a clearing deploy there no entry at or below `cron` is left but those shipped |
| Frame.StaticOverSpoolIsAdmitted | internal/deploy/safety.go:218-229 | a static request for `/var/spool`, clearing or not, passes every check |
| Frame.WarIntoSpoolIsAdmitted | internal/deploy/safety.go:205-216 | so does a war put into it that clears its parent |
| Frame.VarSpoolIsAdmitted | internal/deploy/safety.go:95 | `/var/spool` passes the clear rule |
| Frame.StorageIsUntouched | internal/deploy/safety.go:92 | no accepted deploy touches anything at or below the storage |
| Frame.DefaultArtifactsAreApart | internal/config/config.go:108-110 | with artifacts in the storage a static deploy never reads what it writes |
| Frame.DefaultSourceIsNotTemp | internal/config/config.go:108-110 | nor is such an artifact's file ever the temporary name of its own copy |
| Frame.SelfSourced | internal/deploy/strategy_jar.go:11-24 | a file kept beside the target and named like its temporary file is its own temporary file |
| Frame.SelfSourcedIsAdmitted | internal/deploy/safety.go:199-204 | a jar request of that kind passes every check |
| Frame.SelfSourcedTargetIsEmpty | internal/deploy/fsutil.go:30-49 | when such a deploy finishes, the target is an empty file |
| Frame.RunFromStorage | internal/deploy/deploy.go:64-93 | such a deploy leaves the storage, state file included, unchanged, whatever its outcome; once its strategy has completed the artifact's bytes are at the target |
| Config.Config.ApplyDefaults | internal/config/config.go:104-117 | missing settings, and only those, get their defaults |
| Config.Config.Validate | internal/config/config.go:138-163 | succeeds iff every check passes, leaves the roots in normal form, and on a bad root has rewritten exactly those before it |
| Config.Config.ParsedRepos | internal/config/config.go:166-186 | the non-blank entries, in order |
| Config.ParsedRefsDiffer | internal/config/config.go:173-183 | name and tag rebuild an entry; two entries give the same full reference iff they agree in both |
| Config.FullRefInjective | internal/config/config.go:182 | a full reference determines its name and tag |
| Config.DefaultArtifactDir | internal/watcher/watcher.go:161 | by default artifacts of a repository named without two dots in a row are kept below the storage |
| Registry.SplitRefRebuilds | internal/registry/registry.go:188-206 | accepted iff the trimmed reference has a slash; host, path and tag rebuild it, ports included, or the default tag was missing |
| Registry.SplitRefOfEntry | internal/registry/registry.go:188-206 | a configured entry splits back into its prefix, name and tag iff its tag has no colon |
| Lockfile.PidRoundTrip | internal/lockfile/lockfile.go:76-96 | a process id that was written is the one read back |
| Lockfile.Acquire | internal/lockfile/lockfile.go:27-60 | success only over a free or stale file, which then names the caller; held only by another live process; failure leaves the file, nothing, or part of an id |
| Lockfile.WritePid | internal/lockfile/lockfile.go:75-82 | the file names the caller, or the write failed and part of the id may be left |
| Lockfile.Lock.Release | internal/lockfile/lockfile.go:63-73 | removes the file once; later calls do nothing |
| Lockfile.AlwaysExclusive | internal/lockfile/lockfile.go:25-73 | over all runs with one lock per process in which callers may signal the holder: at most one lock is held, by a live process that the file names |
| Lockfile.OverrunIff | internal/lockfile/lockfile.go:85-108 | a process can take a lock that another one holds iff its probe does not find the holder; then both hold it |
| Lockfile.UnseenHolderIsOverrun | internal/lockfile/lockfile.go:104-108 | a run in which a process that may not signal the holder ends up holding the lock beside it |
| Lockfile.RefusedIffHeld | internal/lockfile/lockfile.go:27-60 | over all runs in which callers may signal the holder, no process id is used twice, releases remove the file and failed calls leave no torn id: a call is refused iff another live process holds the lock at that moment |
| Lockfile.DeadFileNeverBlocks | internal/lockfile/lockfile.go:43-55 | the file of a dead process never blocks and can be taken over |
| Lockfile.TwoLocksInOneProcess | internal/lockfile/lockfile.go:97-99 | with two locks in one process two processes can end up holding one each |
| Lockfile.ReusedPidBlocks | internal/lockfile/lockfile.go:100-108 | after a process id was reused a leftover file blocks although nobody holds the lock |
| Lockfile.FailedReleaseBlocks | internal/lockfile/lockfile.go:63-73 | so does the file of a live process whose release could not remove it |
| Lockfile.TornIdBlocks | internal/lockfile/lockfile.go:75-82 | so does an id cut off while it was written, when what is left names another live process |
| Lockfile.IdsCanBeTorn | internal/lockfile/lockfile.go:75-82 | every id of two digits or more can be cut off to another one |
| LockRace.CollidesIff | internal/lockfile/lockfile.go:33-59 | with interleaved file operations two live processes can hold the lock at once iff the first file is a leftover or, create and write being separate, unless it names a live outsider |
| LockRace.GuardedAlways | internal/lockfile/lockfile.go:33-59 | with create and write as one step and no leftover file, no schedule has two holders |
| LockRace.OutsiderAlways | internal/lockfile/lockfile.go:43-49 | a file that names a live outsider stays, and nobody gets the lock |
| LockRace.LeftoverCollides | internal/lockfile/lockfile.go:43-55 | two processes that both took the file for stale both end up holding |
| LockRace.UnwrittenCollides | internal/lockfile/lockfile.go:75-92 | a process that reads the file before the id is in it ends up holding beside its creator |
| LockRace.CollidesSomehowIff | internal/lockfile/lockfile.go:25-83 | with interleaved file operations, any of which may fail, and processes that may die at any point: two live processes can hold the lock at once unless create and write are one step, there are just two processes, and there is no file at first or one that names one of them; and in that case they cannot |
| LockRace.PairAlwaysSafe | internal/lockfile/lockfile.go:33-73 | in that case only the process that the file names ever holds or removes it, whatever fails |
| LockRace.ThreeCollide | internal/lockfile/lockfile.go:43-59 | of three processes one takes the lock and dies, and the other two can both take it over, also with create and write as one step |
| State.Open | internal/state/state.go:40-63 | a missing or empty file is an empty store, a document is its entries, anything else an error |
| State.Store.Set | internal/state/state.go:75-80 | memory changes whatever happens; success iff every operation succeeded, and then disk equals memory; the states that the files pass through |
| State.Store.Save | internal/state/state.go:82-98 | temporary file, then rename: the file itself changes in the last operation only |
| State.Store.Get | internal/state/state.go:67-72 | the entry in memory, if any |
| State.CrashIsAtomic | internal/state/state.go:82-98 | after a crash anywhere in a save, reopening gives the old or the new map, the new one only at the very end |
| State.DiskHoldsLastSaved | internal/state/state.go:75-98 | over any sequence of updates, failing or not, and a crash in any of them, the disk holds the complete map of the last saved update or of the one under way |
| Protocol.RecordMatchesTarget | internal/watcher/watcher.go:126-189 | over all runs from a state file whose record for the reference, if any, is true: unless its tag came back to the current digest, a current record describes its target exactly, although resolve, annotations and pull read the tag separately |
| Protocol.RecordsTellIff | internal/watcher/watcher.go:131-135 | for every tag history that ends in a non-empty digest: records can be relied on in all runs iff the tag never came back to its current digest |
| Protocol.TagMovedBack | internal/watcher/watcher.go:131-135 | for every history in which the tag came back there is a run that ends with a current record over a broken target |
| Protocol.StepKeepsHonest | internal/watcher/watcher.go:123-192 | the inductive invariant that ties records, running job and target is kept by every step |
| Protocol.OnlySuccessesAreRecorded | internal/watcher/watcher.go:179-189 | over all runs from any state file, every recorded digest that was not in it was validated, pre-hooked, applied and found healthy in one cycle, in that order |
| Protocol.EffectsComeAfterChecks | internal/deploy/deploy.go:64-93 | over all runs a target changes only after validation and pre-hook of its own job, the state file only after the whole deploy |
| Protocol.DryRunChangesNothing | internal/watcher/watcher.go:152-159 | over all runs a dry run changes neither targets nor files |
| Protocol.DiskIsAnEarlierMemory | internal/state/state.go:75-98 | over all runs from any state file, the file is the first one or a map that was in memory during the run |
| Protocol.UndisturbedCycle | internal/watcher/watcher.go:123-192 | a changed digest is deployed and recorded when nothing interferes |
| Delivery.Pull | internal/registry/registry.go:88-109 | success means the directory holds exactly the content of the digest; nothing outside changes but missing directories above; without a fault it fails iff the registry does or something is in the way |
| Delivery.CompletedDeployShows | internal/deploy/deploy.go:64-93 | a completed deploy of an artifact pulled into the storage leaves at the target what its annotations make of its content |
| Delivery.DeployKeepsShows | internal/deploy/safety.go:199-234 | a deploy whose own files and directories are apart from a target leaves what is there, also in the same directory |
| Delivery.StorageKeepsShows | internal/watcher/watcher.go:161-168 | emptying and filling an artifact directory in the storage changes no target |
| Delivery.RecordTellsTree | internal/watcher/watcher.go:131-135 | where targets tell the truth, a true record of the current digest means that its content is at the target |
| Neighbours.HinderedAgrees | internal/deploy/fsutil.go:17-131 | whether a strategy is hindered depends only on the paths its plan looks at, and not on directories that others make on its way |
| Neighbours.FaresAsAlone | internal/watcher/watcher.go:105-109 | after any cycles of neighbours that cannot get in its way, however they ended, a cycle misses the stage that it misses without them |
| Neighbours.PullStaysBlocked | internal/watcher/watcher.go:161-168 | whether the artifact directory can be made does not depend on other cycles, unless their artifacts are stored above it |
| Neighbours.JarsSideBySide | internal/deploy/strategy_jar.go:10-29 | jars under different names in one directory are apart and cannot get in each other's way, unless one has the temporary name of another |
| Neighbours.ApartButColliding | internal/deploy/fsutil.go:17-107 | a directory copied to the path of a file hinders the deploy of that file from then on, although neither deploy writes over the other's files |
| HostCycles.DeployTells | internal/watcher/watcher.go:170-179 | a deploy, however it ends, leaves every target as the protocol says: its own by the stage reached, the others as they were |
| HostCycles.PullMoments | internal/watcher/watcher.go:161-168 | at every moment of a pull the targets tell the truth |
| HostCycles.DeployMoments | internal/watcher/watcher.go:161-179 | at every moment of a pull and a deploy they do when the cycle's own one is called broken |
| Watcher.New | internal/watcher/watcher.go:37-55 | the daemon starts with the configured setup in the state that the protocol's start step gives, or refuses a file that does not parse |
| Watcher.Watcher.RunDeploy | internal/deploy/deploy.go:64-93 | the pipeline on the host with its log and its services, and what the target and the protocol's log become by the first stage it missed |
| Watcher.Watcher.PullArtifact | internal/watcher/watcher.go:161-168 | the directory is emptied and filled with the digest's content, or the pull fails for a stated reason; at no moment of it are the targets wrong |
| Watcher.Watcher.Poll | internal/watcher/watcher.go:126-135 | the comparison of the resolved digest with the record decides whether to deploy |
| Watcher.Watcher.HandleChange | internal/watcher/watcher.go:143-192 | the world after the part of a cycle that follows a change, and its host side: how far it gets, that nothing is missed only with a complete deploy in the host's log, and that targets stay true, also at every moment |
| Watcher.Watcher.CycleOne | internal/watcher/watcher.go:123-192 | the world after a cycle and its result are those of a fate that the outside leaves open; the same for the host, which is left alone unless the cycle gets to the pull |
| Watcher.Watcher.CycleAll | internal/watcher/watcher.go:98-113 | failing repositories do not stop the loop, cancellation does, deploys are counted, and the trees between the cycles are told |
| Watcher.Watcher.RunOnce | internal/watcher/watcher.go:87-119 | a pass goes over the repositories only when the lock was free or stale, and is skipped when it was held; the lock is gone afterwards; cancelled after some repositories or complete, with the number of deploys |
| Cycles.CycleIsARun | internal/watcher/watcher.go:123-192 | every cycle is a run of the protocol, whatever happens during it |
| Cycles.PassIsARun | internal/watcher/watcher.go:98-113 | so is every part of a pass |
| Cycles.PassKeepsRecordsHonest | internal/watcher/watcher.go:87-119 | the two theorems on records, for every pass of a daemon |
| Cycles.EachAsAlone | internal/watcher/watcher.go:105-109 | with the same fate a repository gets the verdict, record and target in a pass that it would get alone; whether its fate is the same is `Service.PassFaresAsAlone` |
| Cycles.LostSaveIsCarried | internal/state/state.go:78-79 | a record whose save failed reaches the disk with the next repository's save |
| Cycles.PassesConverge | internal/watcher/watcher.go:131-135 | once every repository got through a pass against a registry that stands still, later passes change nothing |
| Cycles.SettledPassDoesNothing | internal/watcher/watcher.go:131-135 | a pass over settled repositories only resolves digests |
| Cycles.ConvergenceSurvivesRestartIff | internal/state/state.go:75-98 | after a restart no later pass over settled repositories changes anything iff the disk had their records as the memory did |
| Service.PassFaresAsAlone | internal/watcher/watcher.go:98-113 | a repository whose neighbours cannot get in its way misses in a pass the stage that it misses in a cycle on its own from the same tree, if neither of the two cycles has a fault; how the other cycles end and what fails in them does not matter |
| Service.SettledPassLeavesHost | internal/watcher/watcher.go:126-135 | a pass over settled repositories against a registry that stands still, whatever fails in it, leaves the world as it is, deploys nothing, and goes over one and the same tree; its cycles never get to the pull |
| Service.Start | internal/watcher/watcher.go:37-55 | a daemon whose targets tell the truth about the host when it starts is in service, after a crash as at first |
| Service.Serve | internal/watcher/watcher.go:87-119 | a pass, whatever its outcome, leaves it in service, and every digest that is on record and current is at its target, unless its tag came back to it; over settled repositories it changes neither the world nor the host, and there was no moment at which the tree differed |
| Service.ServiceTells | internal/watcher/watcher.go:131-135 | where a run of the protocol has led and targets tell the truth, current records mean that their content is at the target |
| Service.CrashIsSurvivable | internal/watcher/watcher.go:161-179 | a crash at any moment between pull and end of the pipeline leaves a world that the protocol reaches and a tree that the targets tell the truth about |
| Service.CrashInSaveIsSurvivable | internal/watcher/watcher.go:181-189 | so does a crash between the end of the pipeline and the end of the cycle, in whatever state the save has left the disk: the old or the new map is on it, and the targets tell the truth about the tree that the deploy left |
| Service.RecordComesWithDeploy | internal/watcher/watcher.go:179-189 | a cycle that changes the records has a complete deploy in the host's log and its result in the tree |

## Left out

- DirCopy.CopyDir: when source and target overlap and the copy does not clear, the result tree is left open, only footprint and failures are stated; with the default paths they are apart (`Frame.DefaultArtifactsAreApart`).
- Frame.DeniedChangesIff: a static deploy counts as finished only when source and target are apart, for the same reason.
- Deploy.Run: the allowed roots are required to be in the normal form that `Config.Validate` leaves.
- Deploy.CheckHealth: a run of the command ends at its limit; processes that outlive the one that was cut off are not modelled.
- Health.Healthcheck: times are unbounded integers; an interval within five seconds of the largest duration overflows in the code.
- Watcher.Watcher.CycleOne: that targets tell the truth is kept for a setup in which artifacts are in the storage and the deploys of different repositories are apart from each other; deploys into the same files are not covered.
- Service.PassFaresAsAlone: speaks of a repository that is not configured twice up to its turn. A health check that does not pass counts as a fault.
- Delivery.Pull: a pull delivers the files of one digest as one step; a pull that fails may leave any proper tree. Fetching of layers, media types and unpacking rules are not modelled.
- Hosts.Host: paths are bounded by a given depth, as they are in length by the system; a call beyond it fails. Its record of past trees includes every tree that there may have been within a call, and more than there were.
- LockRace.CollidesIff: processes do not die and file operations do not fail; `LockRace.CollidesSomehowIff` covers both.
- LockRace.CollidesSomehowIff: probes find every live process, and process ids are not reused; both are covered with atomic calls in `Lockfile.OverrunIff` and `Lockfile.ReusedPidBlocks`.
- Lockfile.Acquire: a caller's liveness probe is a given set of process ids; which processes a user may signal is not modelled.
- State.Open: JSON is an injective document that does not parse when cut off; the schema number is not modelled.
- File modes, ownership and `chown`: permission changes are steps that may fail and change no tree.
- Symbolic links: `Special` stands for every entry that is neither a directory nor a regular file; the copier refuses it in the source, and a directory on the host resolves to itself.
- Several daemons with one state file: each loads it once at start; the protocol has one process.
- Registry client, authentication, manifest decoding, log push: the registry is a history of digests per tag.
- Hooks, health commands, run-once commands and `systemctl`: they succeed or fail and do not touch the modelled tree.
- Annotation parsing and its field checks: the parsed annotations are given.
- YAML, environment expansion and logging.
- Command line, ticker and signals.
