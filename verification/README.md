# go-machine-service, modelled and proved

go-machine-service answers Rancher events by driving `docker-machine`. It creates hosts, packs what
`docker-machine` leaves on disk into a host's `ExtractedConfig`, restores it to purge the host again, stages and
installs third-party driver binaries, and uploads schemas that describe the drivers. These files model the parts of
it where the code itself decides something, and prove what the service is relied on for. Check everything with
`dafny verify dfyconfig.toml`.

| file | part of the service |
|---|---|
| `GoStrings.dfy`, `Paths.dfy`, `Sorting.dfy`, `Selections.dfy` | the parts of `strings`, `path/filepath` and `sort` that the service uses; lists filtered in order |
| `FileSystems.dfy`, `TreeWalk.dfy` | a file system as a map from paths to nodes; `filepath.Walk` |
| `Archive.dfy`, `RoundTrip.dfy` | the host directory packed and unpacked (`handlers/config.go`) |
| `Lifecycle.dfy`, `EventOutcomes.dfy`, `Runs.dfy`, `Recovery.dfy` | create and purge events (`handlers/create.go`, `remove.go`, `common.go`), call by call and over whole runs |
| `Progress.dfy`, `ProgressPaths.dfy` | handler, log reader and republisher over bounded channels, in every interleaving |
| `Naming.dfy`, `Command.dfy`, `CommandFlags.dfy`, `Connection.dfy` | flag and field names, the create command, `docker-machine config` output |
| `DriverCache.dfy`, `CacheSafety.dfy`, `CacheSteps.dfy`, `Activation.dfy`, `StageOutcomes.dfy` | the driver cache (`dynamic/driver.go`), with a crash possible after any operation; activation and removal of a driver (`handlers/machine_driver.go`) |
| `Schemas.dfy`, `SchemaRuns.dfy` | the schemas of `host`, uploaded by handlers that run at once |
| `Builtin.dfy` | the reconciliation of built-in driver records |

Handlers, the driver and the API collections are classes whose methods change fields step by step; each method is
proved against a function of the old state and of what the environment does, and the theorems are about these
functions. What the outside world answers (API calls, `docker-machine`, downloads, the clock) is a parameter: a record
such as `Lifecycle.CreateEvent` holds the outcome of every call of one event, so a theorem for all records is a
theorem for all outcomes. A crash is a prefix of the operations on the disk. Interleavings are sequences of steps of a
state machine.

## What the proofs found

- A host directory comes back without loss if and only if every directory whose name ends in a skipped suffix has a
  directory as the first archived path below it (`RoundTrip.ArchiveRestoreExact`). The smallest lost tree is a directory
  `a.iso` with one file (`RoundTrip.LostTreeIsLost`). Restoring twice is restoring once, whatever was there before
  and even after a restore that failed half-way.
- A machine whose `ExtractedConfig` was saved is deleted by a later purge if and only if the archived tree is
  replayable, a weaker condition than exactness; any hostname without a skipped suffix meets it if `docker-machine`
  made no other directory with one.
- A machine made by a failed create is left over exactly when the cleanup cannot list or delete it; if the removal of
  the host directory came first, the cleanup would do nothing (`Runs.CleanupTooLate`).
- The log reader may still send when the handler is done and `publishChan` is closed, and then it panics. Some run does
  exactly if stdout has a line of news with at most two error announcements before it (`ProgressPaths.PanicExactly`).
  The reader hangs for good when it comes to an error line while an earlier one was never received
  (`ProgressPaths.StuckExactly`), and while the host has no external id it forwards nothing at all
  (`ProgressPaths.NoIdNoNews`).
- Two flags of one driver share a schema field exactly if they agree once every segment that starts with a digit is
  joined to the one before it (`Naming.FieldsShared`), as `d-a-1b` and `d-a1b` do; then one of them is lost. Reading a
  flag back off its field needs more: it works exactly for recoverable flags.
- The cache key is made of url and hash together. A copy is checked against the hash of the driver that was staged
  first under the key; that is the driver's own hash exactly if the two hashes have one length. A driver without a
  checksum, whose url is another's url and checksum together, fills the other's entry unchecked
  (`CacheSafety.SharedKeyUnchecked`, `CacheSafety.ChecksumNotSeen`).
- The blank-trimming in `compare` never changes the verdict. The one in `isInstalled` does: a driver whose file name
  ends in a blank is installed the first time, and cannot be installed the next time (`CacheSafety.BlankNameLost`).
- `Remove` breaks the cache invariant between its second and third deletion, and nowhere else
  (`CacheSteps.RemoveUnsafeInside`); run again it still removes everything.
- A driver called `extracted` loses its field in the service schema to `extractedConfig` (`Schemas.ServiceTypes`).
- The reconciliation of built-in records comes to rest if and only if every name that stands twice in the core list is
  ignored (`Builtin.ComesToRest`); then it takes as many runs as the largest number of records of one stale name, and
  at most one if there is none (`Builtin.Converges`).
- Of two recorded purges the second comes more than five minutes after the first. A purge in between only publishes
  its reply exactly while these five minutes last (`Runs.PurgesBetween`); one that comes later and whose rm fails may
  have issued a delete, under every hostname without a skipped suffix (`Recovery.DeleteBetweenPurges`).
- `touchBootstrappedStamp` (`handlers/create.go:737-744`) writes the created stamp, whatever its name says, and
  `isHostAlreadyCreated` (`handlers/create.go:292-308`) does not use what it finds out about the machine. The model
  follows the code in both.

## Model

| member | source | states |
|---|---|---|
| TreeWalk.ReadDirNames | handlers/config.go:105-106 | the names in a directory, each once, in lexical order |
| TreeWalk.WalkTree | handlers/config.go:105-106 | the walk visits a directory, then everything below it name by name |
| TreeWalk.WalkVisits | handlers/config.go:105-106 | the walk visits exactly the tree, and each directory before what is in it |
| TreeWalk.WalkOrder | handlers/config.go:105-106 | of two visited paths the first lies above the second, or has the smaller name where they first differ |
| Paths.RebaseName | handlers/config.go:103-123 | the entry name made by `Base`, `TrimPrefix` and `Join` is the last component of the source followed by the path below it |
| Paths.RestorePath | handlers/config.go:53-54 | joining an entry name to the restore directory names exactly its components below that directory |
| Archive.AddDirToArchive | handlers/config.go:102-141 | the archive holds one entry for every path of the tree but the root and the skipped names, in walk order, named below the parent of the source |
| Archive.RestoreMachineDir | handlers/config.go:23-76 | the disk afterwards, and success, are those of making the parent and replaying the entries one by one up to the first failure |
| Archive.RestoreKeeps | handlers/config.go:23-76 | whatever is restored, from whatever archive, every file still lies in directories and all names stay plain |
| Archive.CreateExtractedConfig | handlers/config.go:78-100 | the archive file is written inside the directory it archives and holds the archive of that directory, or its first entries when the walk fails; there is a result exactly when the file can be created and the walk does not fail |
| Archive.EncodeFile | handlers/config.go:143-155 | the configuration is the content of the archive file, and there is none exactly when that is not a file |
| RoundTrip.SkippedMeans | handlers/config.go:111-116 | letter by letter, the names that are left out: those that end in .iso, .tar.gz, .vmdk or .img |
| RoundTrip.ArchiveHolds | handlers/config.go:102-141 | the archive of any tree holds an entry with its content for every path whose last name does not end so, and no other entry |
| RoundTrip.PrunedMeans | handlers/config.go:111-116 | what an exact restore gives back: every directory, and every file whose name does not end so |
| RoundTrip.ReplaySucceeds | handlers/config.go:41-75 | unpacking an archive into an empty directory succeeds exactly for replayable trees |
| RoundTrip.ReplayExact | handlers/config.go:41-75 | it gives the tree without the skipped files exactly for restorable trees |
| RoundTrip.ArchiveRestoreExact | handlers/config.go:23-141 | archiving any tree and restoring it into an empty directory of the same name under any parent succeeds with exactly the tree minus skipped files, if and only if the tree is restorable; nothing outside the directory changes |
| RoundTrip.NoSkippedDirsRestorable | handlers/config.go:102-141 | without directories of a skipped name every tree is restorable, and every prefix of its archive holds the parent of each of its entries |
| RoundTrip.RestoreTwice | handlers/config.go:23-76 | whatever the directory held before, restoring the same configuration twice is restoring it once, also when it fails |
| RoundTrip.SkippedDirOfFiles | handlers/config.go:111-116 | a directory of a skipped name with an archived file in it and no archived directory below cannot be restored |
| RoundTrip.LostTreeIsLost | handlers/config.go:111-116 | the smallest tree that cannot be restored |
| Lifecycle.Service.GetHostAndHostDir | handlers/common.go:249-264 | the host directory is made if the host is found and no file is in the way, and otherwise nothing happens |
| Lifecycle.Service.MachineExists | handlers/commands.go:40-69 | true if the hostname is printed, even by a listing that fails later; otherwise false only if the listing worked |
| Lifecycle.Service.DeleteMachine | handlers/commands.go:19-32 | deletes the machine that the record in the host directory names, and its directory |
| Lifecycle.Service.CleanupResources | handlers/common.go:201-237 | deletes the machine and the host directory if the directory and the machine are there |
| Lifecycle.Service.TouchStamp | handlers/create.go:477-488 | writes the created stamp, or fails and changes nothing |
| Lifecycle.Service.HandleCreate | handlers/create.go:108-111 | a provider saves at most one file in the host directory before the create command, and leaves it empty when its data cannot be decoded |
| Lifecycle.Service.UpdateConfig | handlers/create.go:154-161 | the stored configuration changes exactly if one of the first hundred updates works |
| Lifecycle.Service.ExtractConfig | handlers/create.go:144-163 | the archive of the host directory becomes the stored configuration, if it can be made and read; errors of the updates are forgotten |
| Lifecycle.Service.TryCreate | handlers/create.go:96-163 | the part of createMachine under the deferred cleanup: how far it gets, and whether machineCreated is set |
| Lifecycle.Service.CreateMachine | handlers/create.go:83-164 | the whole of createMachine: the early reply on a stamp, and the cleanup whenever machineCreated is not set |
| Lifecycle.Service.FindAgent | handlers/create.go:212-235 | succeeds exactly if all thirty listings work and one of them shows the agent first among a container's names |
| Lifecycle.Service.AwaitAgentId | handlers/create.go:262-279 | succeeds exactly if one of 150 polls works and shows an agent id |
| Lifecycle.Service.RegisterRancherAgent | handlers/create.go:166-290 | the agent id is seen exactly if every call before works |
| Lifecycle.Service.IsHostAlreadyCreated | handlers/create.go:292-308 | without a configuration nothing is restored; with one, success means that it was restored and the machines could be listed |
| Lifecycle.Service.CreateMachineAndActivateMachine | handlers/create.go:46-81 | the world after a create event, for every outcome of every call, with the host directory removed on every way out |
| Lifecycle.Service.PurgeMachine | handlers/remove.go:15-61 | the world after a purge event; a failed restore leaves the directory, everything after it removes it |
| Lifecycle.NotExistMeans | handlers/create.go:96-98 | the stat of the stamp says that it does not exist exactly if nothing is there and no file stands in the way |
| EventOutcomes.NewHostCreated | handlers/create.go:46-290 | a create event for a host without a configuration succeeds exactly if every call works, docker-machine leaves a machine directory that takes the stamp and the archive, all thirty listings work and one shows the agent, and one of 150 polls shows an id |
| EventOutcomes.NewHostLeaves | handlers/create.go:46-164 | it has then replied once, right after it saw the id; the machine is there, and the record holds the archive if one of the first hundred updates worked, and is unset otherwise |
| EventOutcomes.RestoredHostCreated | handlers/create.go:292-308 | for a host with a configuration it succeeds exactly if that can be restored, the hostname is printed or the listing works, the agent shows up and the stamp can be written; it changes no machine and no record |
| EventOutcomes.NoAgentNoReply | handlers/create.go:212-279 | without an agent that shows up with an id, or with a restored host that cannot be listed, the event fails and replies nothing |
| EventOutcomes.PurgeUnrestored | handlers/remove.go:29-36 | a purge that cannot fetch or restore the host fails, and changes no machine, no record, no cache entry and no reply |
| EventOutcomes.PurgeUnlisted | handlers/commands.go:40-69 | so does one for which ls fails before it prints the hostname |
| EventOutcomes.PurgeWithoutMachine | handlers/remove.go:39-60 | if the listing works and the hostname is not in it, nothing is deleted, and the purge is remembered for five minutes and replied to |
| EventOutcomes.PurgeOfMachine | handlers/remove.go:39-60 | if the hostname is printed, the recorded machine is deleted; a purge whose rm works is remembered and replied to, one whose rm fails is neither, whether or not the machine is gone |
| EventOutcomes.BrokenConfiguration | handlers/config.go:32-51 | a configuration that cannot be read to its end is never restored, and leaves on the disk what it holds before that |
| Runs.RunKeepsTidy | handlers/create.go:56-60 | in every run an unset ExtractedConfig means an absent or empty host directory between events |
| Runs.CreateReplies | handlers/create.go:46-98 | a create event replies once for a stamp it finds and once at its end, and at its end only right after it saw an agent id |
| Runs.OneFinalReply | handlers/create.go:46-98 | in every run for a host whose configuration is never cleared the stamp check finds none, and a create event replies exactly once when it returns nil and at most once otherwise |
| Runs.LeftOverMachine | handlers/create.go:83-142 | without machineCreated, a machine made by the event is left over exactly if the cleanup does not list it or does not delete it |
| Runs.NoMachineLeftOver | handlers/create.go:61-142 | in every run, if ls and rm succeed, no machine made by such an event remains |
| Runs.CleanupTooLate | handlers/create.go:61-72 | after the removal of the host directory the cleanup does nothing |
| Runs.PurgeExpiry | handlers/remove.go:39-54 | the cache entry changes exactly when a purge records its success, and then expires a lifetime after that |
| Runs.PurgesSpaced | handlers/remove.go:21-60 | in every run with a clock that does not go back, recorded purges are more than the lifetime apart, and a purge within the lifetime of one only publishes its reply |
| Runs.PurgesBetween | handlers/remove.go:21-60 | between a recorded purge and the next one, a purge finds the cache entry exactly if it comes within the lifetime |
| Recovery.DeleteBetweenPurges | handlers/remove.go:39-50 | a run, for every host whose hostname has no skipped suffix, in which a purge between two recorded ones issues a delete after the lifetime |
| Recovery.SavingSettles | handlers/create.go:140-163 | after a create event that saved its machine the host's record holds the archive of what docker-machine left, and the host directory is gone |
| Recovery.RunStaysSettled | handlers/remove.go:29-37 | creates and purges keep that record, and leave the host directory absent, empty, or as a failed restore of that archive left it |
| Recovery.PurgeDeletes | handlers/remove.go:29-50 | a purge that misses the cache deletes the machine and replies exactly if the archived tree is replayable, and otherwise fails without a delete |
| Recovery.SavedMachineRecoverable | handlers/create.go:140-161 | over every run: a saved machine is found and deleted by any later purge that misses the cache, exactly if the archived tree is replayable |
| Recovery.SavingIsPossible | handlers/create.go:83-164 | for every host there is a create event that saves its machine |
| Recovery.PlainHostnameReplayable | handlers/config.go:111-116 | a hostname without a skipped suffix suffices, if docker-machine made no other directory with one |
| Progress.LogProgress | handlers/create.go:328-350 | what the reader does with the lines, stdout first, then stderr |
| Progress.RunKeeps | handlers/common.go:56-82 | in every interleaving: sends are receives and what is buffered, the buffer keeps its bound, and each goroutine is where its messages say |
| Progress.ProgressTrace | handlers/common.go:56-82 | in every interleaving the published messages repeat, in order and each at least once, a prefix of what was sent, all of it at the end; what was sent are prefixes of the handler's messages and of the reader's lines |
| Progress.ErrorChannelBound | handlers/create.go:125-138 | sends on errChan are receives and at most one buffered, so the reader is past an error line only after all earlier ones were received |
| Progress.ErrorChoice | handlers/create.go:125-138 | the error text is the provider's rewrite of the first error line that the scanners deliver, stdout before stderr; the fallback only if that is empty, if there is no error line, or after a time-out |
| Progress.ErrorChoicePrinted | handlers/create.go:125-138 | when the scanners deliver only beginnings of what was printed: the error of the first announced line of stdout if that was delivered, otherwise of the first line of stderr |
| ProgressPaths.HandlerPath | handlers/create.go:113-141 | in every interleaving the handler's own steps are the beginning of one way: start, wait, and after success the four messages, or after failure the one choice of an error |
| ProgressPaths.AfterWaitFail | handlers/create.go:128-138 | docker-machine has failed exactly if the handler is choosing an error or has ended with one |
| ProgressPaths.AfterWaitOk | handlers/create.go:140-163 | after it has succeeded the handler ends well or because a later call failed |
| ProgressPaths.HandlerSays | handlers/create.go:118-254 | the handler's messages, written out: all five at a good end, all but the first for a restored host, only the first if docker-machine fails |
| ProgressPaths.Forwarded | handlers/create.go:328-361 | the reader forwards, in order, exactly the lines of stdout that are not empty, announce no error and hold neither external id nor hostname; never a line of stderr |
| ProgressPaths.NoIdNoNews | handlers/create.go:357-359 | while the external id is empty, nothing is forwarded |
| ProgressPaths.ErrorChosen | handlers/create.go:128-138 | after a failure the error is the rewrite of the first announced line of stdout, or else of the first line of stderr, with the first announcement cut out; that of Wait if it is empty, if there is no such line, or after a time-out |
| ProgressPaths.ErrorHappens | handlers/create.go:128-134 | whenever there is an error line, some run ends in the error made of the first one |
| ProgressPaths.NoErrorHappens | handlers/create.go:128-138 | otherwise some run ends with the error of Wait, by the closed channel |
| ProgressPaths.FinishHappens | handlers/create.go:46-80 | the handler can finish, for a new machine and for a restored host |
| ProgressPaths.StuckExactly | handlers/common.go:56-82 | a run in which no call fails stops only when everything is published and the reader has ended, panicked, never begun, or hangs on an error line behind one that nobody received |
| ProgressPaths.PanicExactly | handlers/create.go:328-350 | some run panics on a send after the close, exactly if stdout has a line of news with at most two announcements before it |
| Naming.ToLowerCamelCase | dynamic/utils.go:55-66 | the field name of a flag, its two error cases included |
| Naming.CamelCaseCases | dynamic/utils.go:55-66 | a flag of parts joined by hyphens panics exactly if a part after the first is empty, and one without a hyphen is an error |
| Naming.FlagRoundTrip | dynamic/utils.go:55-66 | a field name hyphenated behind the driver name is the flag again, if and only if the flag is recoverable |
| Naming.FieldsShared | dynamic/driver_info.go:79-86 | two flags of one driver share a field if and only if they agree once every segment that starts with a digit is joined to the one before it |
| Naming.FieldsDistinct | dynamic/driver_info.go:79-86 | different flags whose later segments start with a letter have different fields |
| Naming.FieldsCollide | dynamic/driver_info.go:79-86 | two different flags with one field |
| Naming.ResourceFields | dynamic/driver_info.go:79-86 | the table of fields made from a driver's flags, or the first error |
| Naming.FirstFailure | dynamic/driver_info.go:35-86 | the first flag without a hyphen, of an unknown kind or with an empty part decides that the table fails, and how |
| Naming.FieldsCounted | dynamic/driver_info.go:69-96 | the table has one field for each different list of joined segments |
| Naming.NoFlagLost | dynamic/driver_info.go:69-96 | no flag of a driver is lost if and only if no two of them have the same joined segments |
| Naming.FlagInTable | dynamic/driver_info.go:35-86 | every flag has its field, of type boolean, array[string] or string by its kind unless a later flag shares it, and can be read off it if and only if it is recoverable |
| Command.MapToSlice | handlers/create.go:458-464 | the pairs of a map, in some order of its keys |
| Command.BuildEngineOpts | handlers/create.go:466-475 | the option's name before each non-empty value |
| Command.DriverArgs | handlers/create.go:406-451 | the driver section, sorted by field name whatever order the map was read in, or none for a field of an unsupported kind |
| Command.BuildMachineCreateCmd | handlers/create.go:394-456 | the whole argument list; only the order within the engine maps is open |
| Command.CommandRoundTrip | handlers/create.go:394-456 | read back by flag arity the arguments give every field but Resource its values in order, every engine option its non-empty values, and nothing else, null and empty fields included; the hostname is left over |
| CommandFlags.CommandSays | handlers/create.go:394-456 | read back, each engine flag by its name has the values of its own field of the host, non-empty and in order, or key=value for each key of its map; each field's flag, spelt out, has what the field holds; there is no other flag |
| Command.OptTokensFlagged | handlers/create.go:466-475 | the name stands before each non-empty value, and there is nothing else |
| Command.PairsPermuted | handlers/create.go:458-464 | two orders of an engine map give the same pairs, none of them dropped |
| Command.EngineApart | handlers/create.go:398-404 | no engine flag is a flag of a driver not called engine |
| Command.FieldFlag | handlers/create.go:42-42 | the flag made from a field name of the schema leads back to that field |
| Sorting.SortForgetsOrder | handlers/create.go:411-415 | sorting gives one result for all orders of the same names |
| Connection.ParseConnectionArgs | handlers/create.go:660-694 | the parse of docker-machine's config output |
| Connection.ParsePrinted | handlers/create.go:660-694 | printed items in any number, order and quoting parse to what they mean, and to an error exactly if the endpoints are not one |
| Connection.ConnectionRoundTrip | handlers/create.go:660-694 | an endpoint, three TLS paths and a bare --tls, printed in any order, quoted or not, with any blanks between, parse back to the four values |
| DriverCache.DriverObject.NewDriver | dynamic/driver.go:35-46 | a built-in driver's name gets the common prefix |
| DriverCache.DriverObject.GetError | dynamic/driver.go:101-111 | an error file is returned and deleted; without one nothing happens |
| DriverCache.DriverObject.SetError | dynamic/driver.go:91-99 | an error is written to the error file |
| DriverCache.DriverObject.ClearError | dynamic/driver.go:113-116 | the error file is deleted |
| DriverCache.DriverObject.FindBinary | dynamic/driver.go:213-262 | the driver's name and binary in a download: the download itself if it is an ELF file, otherwise the last file of a driver's name in the archive |
| DriverCache.UnpackHolds | dynamic/driver.go:221-258 | which name and binary a download holds: an ELF file has the last component of the URL's path up to the first underscore, an archive its last file of a driver's name |
| DriverCache.DriverObject.CopyBinary | dynamic/driver.go:213-282 | the operations on the disk, in order: the binary first, the marker last |
| DriverCache.DriverObject.TryStage | dynamic/driver.go:118-167 | a real attempt: its operations, its result, and the driver's new name, which a failed read of the marker clears |
| DriverCache.DriverObject.Stage | dynamic/driver.go:83-89 | an earlier error is returned instead of an attempt, and a failed attempt writes its error |
| DriverCache.DriverObject.Install | dynamic/driver.go:169-196 | the operations: a temporary copy, then a rename |
| DriverCache.DriverObject.Remove | dynamic/driver.go:64-81 | the operations: binary, staged copy, and the marker last |
| CacheSafety.CompareExact | dynamic/driver.go:296-322 | trimming the expected hash never changes the verdict |
| StageOutcomes.StageWorks | dynamic/driver.go:83-167 | Stage succeeds exactly if no error is to be returned and the driver is built in, or staged, or every call works, the checksum is empty or of length 32, 40, 64 or 128 and right, and the download holds a driver |
| StageOutcomes.FreshlyStaged | dynamic/driver.go:118-282 | a fresh driver then has the name that the download holds, in its marker too, its whole binary is staged, and no other file changed |
| StageOutcomes.RefusedLeavesError | dynamic/driver.go:91-167 | a wrong checksum, or a download without a driver, leaves the error file and nothing else |
| StageOutcomes.TrimSpaceMeans | dynamic/driver.go:347-353 | trimming takes white space away at both ends, all of it, and nothing else |
| CacheSafety.NamesApart | dynamic/driver.go:284-286 | marker, error file and staged copies of all drivers are different files |
| CacheSafety.StageThroughout | dynamic/driver.go:83-167 | after every prefix of the operations of Stage each marker still stands for a complete copy from an earlier download or from this one |
| CacheSafety.CacheStaysSafe | dynamic/driver.go:118-282 | after any sequence of Stage, Install and ClearError of any drivers, each crashed anywhere, and of whole Removes, every marker that names a driver stands for a complete copy from a download that a Stage of the run made and accepted, or an earlier one |
| CacheSafety.MarkerFromRun | dynamic/driver.go:118-282 | from an empty cache, a marker under a driver's key is due to one Stage of the run with that key: its download, accepted for its hash, unpacks to the marker's name and the staged copy; it is the driver's own exactly if the hashes have one length |
| CacheSafety.OwnDigest | dynamic/driver.go:118-167 | if no driver with the same url and hash together but another hash length was staged, the copy was downloaded from the driver's url and has its digest |
| CacheSafety.SharedKeyUnchecked | dynamic/driver.go:336-345 | of two drivers with one key the second gets the first one's copy with no check; the run holds a download for the second exactly if the hashes have one length |
| CacheSafety.ChecksumNotSeen | dynamic/driver.go:336-345 | for every driver with a checksum, and every download of the wrong digest: staged alone it is refused, but another driver can have filled its entry with it |
| CacheSafety.RemovedSafe | dynamic/driver.go:64-81 | a Remove that is not interrupted keeps the cache safe |
| CacheSafety.StageSucceeds | dynamic/driver.go:118-167 | after a successful Stage the marker names a complete copy: just downloaded and accepted for the driver itself if nothing was installed, otherwise the disk is as before |
| CacheSafety.InstallFindsSource | dynamic/driver.go:169-180 | Install then finds its source exactly if nothing was installed before or a copy under the trimmed name is staged; with no other copy, exactly if the marker's name had no blanks around it |
| CacheSafety.BlankNameLost | dynamic/driver.go:347-353 | a driver file whose name has blanks around it is staged and installed once, and cannot be installed after the next Stage |
| CacheSteps.CacheIsolated | dynamic/driver.go:64-116 | Stage, ClearError and Remove, interrupted anywhere, leave every cache file of a driver with another url and hash as it is |
| CacheSteps.KeyDecides | dynamic/driver.go:336-345 | for hashes of one length a key belongs to one url and one hash |
| CacheSteps.ErrorReplayedOnce | dynamic/driver.go:83-116 | in every run a Stage replays an error exactly if the step before it was a real attempt that failed, and it is that attempt's error |
| CacheSteps.AttemptsAlternate | dynamic/driver.go:83-116 | of k failing Stage calls in a row half, rounded up, are attempts, and the others replays |
| CacheSteps.InstallAtomic | dynamic/driver.go:169-196 | after every prefix of Install every binary but the temporary one is what it was, or the driver's own, whole |
| CacheSteps.RemoveRestarts | dynamic/driver.go:64-81 | Remove interrupted anywhere and run again leaves no binary, no staged copy and no marker |
| CacheSteps.RemoveUnsafeInside | dynamic/driver.go:76-78 | within Remove the invariant fails exactly between the last two deletions |
| Activation.Activate | handlers/machine_driver.go:111-139 | stage, then install only if no active driver has the name |
| StageOutcomes.ActivationWorks | handlers/machine_driver.go:111-139 | an activation gets to the schema exactly if the driver is staged, no active driver has its name without the prefix, and its binary can be copied |
| StageOutcomes.TakenNotInstalled | handlers/machine_driver.go:121-131 | while an active driver has the name, no installed binary changes |
| Activation.RemoveDriver | handlers/machine_driver.go:36-42 | the files are removed if there is no checksum or the driver is deleted, and stay otherwise |
| Activation.ActivatedIsGenuine | handlers/machine_driver.go:111-139 | an activated driver keeps the marker's name exactly if the marker before had no blanks around it, and then its binary is the complete one of an accepted download |
| Activation.ActivatedHasDigest | handlers/machine_driver.go:111-139 | if no earlier download was for the same url and hash together with another hash length, the installed binary has the driver's own digest |
| Activation.ActivateThenRemove | handlers/machine_driver.go:20-50 | removing an activated driver takes its binary, staged copy and marker, and nothing else |
| Schemas.MakeBaseSchema | dynamic/machine.go:50-79 | a field for the name and one for each driver, and the methods that the authorisation allows |
| Schemas.Api.RemoveSchemas | dynamic/driver_info.go:98-135 | exactly the live schemas of the name are removed |
| Schemas.Api.UploadDynamicSchema | dynamic/driver_info.go:137-158 | one schema is added, after the live ones of its name were removed if so asked |
| Schemas.Api.ListActive | dynamic/machine.go:22-26 | the given names and those of the active and activating drivers |
| Schemas.Api.UploadMachineSchemas | dynamic/machine.go:9-39 | afterwards the live schemas of host are exactly the four of this upload, and no other schema changed |
| Schemas.BaseOffers | dynamic/machine.go:50-79 | one field of the driver's type for each distinct driver name, and the name field |
| Schemas.ServiceOffers | dynamic/machine.go:81-87 | the service schema has two more fields, or one if a driver is called extracted |
| Schemas.ServiceTypes | dynamic/machine.go:81-87 | a driver's field in the service schema has the driver's type exactly if it is not called extracted |
| Schemas.HostRolesDisjoint | dynamic/machine.go:81-102 | no role is given two of the four schemas |
| Schemas.HostSchemasAllow | dynamic/machine.go:50-102 | names, roles and methods of the four schemas, written out: only the read-only one lacks POST, DELETE and PUT |
| Schemas.HostSchemaFields | dynamic/machine.go:41-102 | their fields, written out, with type and permissions |
| Schemas.ActiveNames | dynamic/machine.go:22-26 | the listed names are those of the drivers that have one and are active or activating, in order |
| SchemaRuns.RunKeeps | dynamic/driver_info.go:98-158 | in every interleaving the lock has one holder, and the live schemas of host are as far as its upload has got |
| SchemaRuns.FourHostSchemas | dynamic/machine.go:9-39 | from any schemas and in every interleaving of activations and removals: once an upload has completed and none is under way, exactly the four schemas for the names given to and listed by the last completed upload are live, for disjoint roles, with one field per distinct driver |
| SchemaRuns.LastUpload | dynamic/machine.go:9-26 | the last completed upload is that of the last step that ended one, with the names given to it and those it listed under the lock |
| Builtin.Api.CollectInstalled | dynamic/builtin.go:31-41 | the last live built-in record of each name; dormant default drivers are activated |
| Builtin.Api.InstallMissing | dynamic/builtin.go:43-53 | a built-in record for each core name that is neither installed nor ignored; what is left are the stale names |
| Builtin.Api.DeleteStale | dynamic/builtin.go:55-58 | one record of every stale name is deleted, in whatever order they come |
| Builtin.Api.SyncBuiltin | dynamic/builtin.go:17-61 | the records after one run: no new one for none, virtualbox, vmwarefusion or hyperv, and one for every other core name |
| Builtin.OneRun | dynamic/builtin.go:31-58 | if only ignored names stand twice in the core list, one run gives every core name outside the ignored ones a record, takes exactly one from every stale name, and leaves all other counts |
| Builtin.OthersStay | dynamic/builtin.go:31-58 | a run creates only built-in core records, removes only built-in ones of stale names, and changes nothing else but the state of live inactive default drivers, to activating |
| Builtin.SyncedHasCore | dynamic/builtin.go:43-53 | after a run every core name that is not ignored has a live built-in record, and only such names have new ones |
| Builtin.Converges | dynamic/builtin.go:31-58 | if only ignored names stand twice in the core list: after k runs nothing is left to do exactly if no stale name had more than k records, and a run was made unless nothing was missing |
| Builtin.DuplicateNeverQuiet | dynamic/builtin.go:43-53 | with a core name listed twice and not ignored there is always something left to do, whatever the records |
| Builtin.ComesToRest | dynamic/builtin.go:17-61 | from any records, some number of runs comes to rest if and only if every name that stands twice in the core list is ignored |

## Left out

- Strings are sequences of single-byte characters; Unicode case mapping and multi-byte runes are not modelled.
- The bytes of tar, gzip and base64: an archive is its sequence of entries and whether it reads to the end, and a read error comes between entries, not inside one.
- File modes, symbolic links, permissions and open handles; `os.RemoveAll` and `os.Remove` always do what they are asked to, and disk-full errors come only where an outcome record has one.
- Work directory, uuid and hostname are plain path components; other hostnames are refused by `docker-machine` before it makes a machine.
- Host templates, `copyData`, `apply` and `populateFields`: they are taken not to change a host's uuid, hostname or `ExtractedConfig`, and only succeed or fail.
- The dereference of a missing host in `getHostAndHostDir`: a host that is not found is a failed call.
- What `docker-machine create` leaves on disk is any tree; that a machine it made is recorded at `machines/<hostname>/config.json`, and that `docker-machine ls` prints the names in `machines`, are assumptions about `docker-machine`, named `Runs.Faithful` and `Lifecycle.Printed`.
- An archive given up in the middle of a file holds whole entries only in the model; nothing reads it.
- Events of one host run one after the other in `Runs` and `Recovery`; there is one host, so nothing is said about two hosts with one uuid.
- `initEnviron`, `getWorkDir`, `waitSchema`, `tweakRegistrationURL`, `parseImage`, `buildContainerConfig`, the docker client and the image pulls after registration: single calls whose outcome is a parameter, or easy.
- HTTP downloads, the Rancher API client and the plugin RPC are outcomes; API calls in `Schemas`, `SchemaRuns` and `Builtin` succeed.
- The provider handlers' rewriting of error lines is an arbitrary function.
- The sha256 key is taken to be hexadecimal and different for different texts, digests to be hexadecimal of the length of the hash (`DriverCache.ValidEnvExists` exhibits both). That every key has 64 characters is not modelled: no function with keys of one length is injective on all texts, so a collision, which no theorem allows for, is possible in principle. Writing a marker leaves it empty or complete, and operations on one key do not interleave.
- The write of the error file always succeeds; the source ignores its errors.
- A blank marker makes `Remove` delete the directory of binaries if that is empty; directories are not files of `DriverCache`.
- Two activations of drivers with one name at once: nothing is claimed about the uniqueness of active names.
- Lifecycle.Service.MachineExists: the record of `docker-machine` is not parsed, a name in `machines` counts as a machine.
- Schemas.Api.RemoveSchemas: the waiting for transitions between the calls is not modelled.
