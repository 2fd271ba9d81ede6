# Verified model of the Remnawave node agent

This project models the parts of the node agent whose behaviour is decided by its own code, and proves
what that code is for. Everything is Dafny 4.11; `dafny verify dfyconfig.toml` checks the whole project.

## What is modelled

**The rw-core lifecycle** (`Lifecycle`, `LifecycleInvariants`, `LifecycleRuns`, `LifecycleCalls`). `Start`, `Stop`,
`StopIfOnline`, `Health`, `RestoreOnBoot`, the monitor goroutine and plugin syncs are threads of one state
machine. A step is what a thread does between two points where another thread can interfere: a critical
section of `mu` is one step unless it waits or spawns inside (then `mu` stays taken between the steps),
every disk call is a step, the three reads of the torrent options are three steps, and the machine can
reboot between any two steps. `ok` in a step resolves what the environment decides there: a disk call that
fails, a timeout, a refused ping, the answer of the hash comparison. The log in `BootState` is history
that only the statements use. The settings are whether Start skips the hash check, and what the
surroundings grant: one plugin sync at a time, nft scripts that never fail, and no removal of the blocker's
rule from a core that a Start is replacing.

**The ASN database** (`AsnFormat`, `AsnWriter`, `AsnDb`, `AsnLayout`). Bytes, little-endian fields of 16, 32 and 64 bits
with their truncation, the writer's two buffers and the bytes it gets written before an error, the opener's
checks and the binary search.

**The user hashes** (`HashedSets`, `HashVectors`, `HashState`, `UserHandlers`, `UserEffects`). The 32-bit string hash, the XOR over a set,
the record per inbound, the restart decision, and the four handlers together with what the core holds, where
the core may fail to remove and refuse to add.

**The config rewrite** (`JsonValues`, `ApiConfig`, `ApiRoutes`). The rewritten config and what first-match routing makes
of it. How the core reads the conditions of a rule is a parameter about which nothing is assumed, so the
routing theorem holds for every reading.

**Artifacts** (`CoreSpecs`, `CoreLoader`, `Geodata`, `GeodataPool`, `GeodataClash`). The file system is a map
from path to node. In `CoreLoader` every call may fail and the machine may stop between any two calls: once `crashed` is
set, no call has an effect until the next boot, so each method's postconditions cover every point at which
it can be cut. `GeodataPool` interleaves the producer, up to five workers and a cancellation.

**Online users' addresses** (`UserIpPool`). Up to 50 workers write into slots of one slice.

**Plugins** (`Strings`, `ConfigStringify`, `TagKeys`, `PluginLists`, `PluginSync`, `PluginMeaning`, `PluginRuns`). The text that
is hashed to see whether a config changed, the key of a tag list, the lists of a config, and the requests that
change settings and nftables sets, with nft failing at any step. `PluginRuns` puts the requests beside a core:
over any run of them, of starts and of stops, it says which options the core runs with and what the filter sets
hold.

`Wrappers` and `Bytes` hold stock datatypes and integer widths.

Methods are proved against specification functions. What those functions mean is said apart from them, in terms
of the inputs, the bytes and the words of the config: in `LifecycleCalls`, `AsnLayout`, `HashVectors`,
`UserEffects`, `ApiRoutes` and `PluginMeaning`, and elsewhere in lemmas called after the function with `Is` or
`Iff` behind.

## Findings

Each is a property the program was meant to have and does not always have. For each there is an input at which
it fails, and the exact condition under which it holds, for all inputs.

- Overlapping plugin syncs leave a stale core. The second reads the options before the first publishes its own,
  and then sees no change. `LifecycleRuns.OverlappingSyncsLeaveStaleCore` gives the run for any settings under
  which syncs may overlap; `LifecycleRuns.NeverStaleIff`: no run ends quietly with a stale core if and only if
  syncs come one at a time.
- Switching the blocker off during a restart leaves its rule. A Start has read its options, a sync takes the
  rule out of the old core, which is still online, and so stops nothing; the new core then gets the rule back.
  (internal/plugin/service.go:149-151 means to prevent this, and does when the removal fails.)
  `LifecycleRuns.RestartLeavesRule` is the run. `LifecycleRuns.NeverLeavesRuleIff`: no run ends quietly with the
  rule of a blocker that is off if and only if syncs come one at a time, nft does not fail, and no rule is
  removed during a restart; each of the three has its run.
- A refused sync leaves a core running with the rule of a blocker that is off. Both a sync of a valid config and
  a clear reset the settings when an nft script fails, and return before they look at the core.
  `PluginSync.Service.HandleSync`: the blocker goes off and the core is left alone if and only if the blocker was
  on, a script failed, and there was no config to refuse. `PluginRuns.RuleLeftIff` says it of whole runs;
  `PluginRuns.ClearLeavesRule` and `PluginRuns.SyncLeavesRule` are the two inputs.
- Recreating the nftables tables by request empties the filters of an active plugin, and the next sync of the
  same config counts as unchanged and does not fill them. `PluginSync.Service.HandleRecreateTables`: the filters
  agree with the config afterwards exactly when nothing is active or the config asks for no filters.
  `PluginRuns.RecreateThenSame` adds the sync, for every node; `PluginRuns.RecreateLosesFilter` is an input.
- An inbound that loses its last user by a hot update is forgotten, so a request that still describes it
  restarts the core. `HashState.NoRestartIff`: there is no restart exactly when every inbound that lost its last
  user has got another one since, which can be read off the updates. `HashState.LastUserRestarts` is the
  smallest case.
- A removal can part hashes and core: it takes the id that was sent out of the hash whether or not it is the
  user's, and whether or not the core obeys. `UserHandlers.RemoveKeepsInStepIff`: they stay in step exactly when
  the id sent is on just the entries the core gives up. `UserHandlers.RemoveKeepsInStepWhen` takes the two causes
  apart and `UserHandlers.RemovalSplits` shows both.
- A geodata file called like another one with `.download` behind it is removed by that one's download.
  `GeodataClash.ContentKeptIff` is exact, and `GeodataClash.ClashLosesContent` gives a run for every clash.

## Model

| member | source | states |
|---|---|---|
| LifecycleRuns.OneChild | internal/xray/manager.go:505-647 | in every schedule at most one spawned child is alive; while `mu` is free it is `m.process`; a child whose monitor finished never is |
| LifecycleRuns.StartNeverCollides | internal/xray/manager.go:193-213 | `startProcessing` is set exactly while a Start past its check owns `lifecycleMu`, so the check never finds it set |
| LifecycleRuns.WaitNeedsNoMu | internal/xray/manager.go:606-647 | whoever waits on `done` under `mu` waits for the manager's own child, and steps that touch no lock and no thread always end the wait |
| LifecycleRuns.DrainWorks | internal/xray/manager.go:542-572 | from any state a child's exit, reap and send can all be taken and make its `done` ready, changing nothing but that child |
| LifecycleRuns.NoStaleCore | internal/xray/manager.go:166-215 | with syncs one at a time, once no Start and no sync is under way, a live core that no stop gave up on runs the current torrent options, torn reads included: while the blocker is on in any case, while it is off if nft never fails and no rule is removed during a restart |
| LifecycleRuns.OverlappingSyncsLeaveStaleCore | internal/plugin/service.go:77-110 | for any settings under which syncs may overlap, a run of three syncs and one Start that ends with a live core on other options than the current ones |
| LifecycleRuns.NeverStaleIff | internal/plugin/service.go:77-163 | for every settings: no reached state with no Start and no sync under way has a stale core if and only if syncs come one at a time |
| LifecycleRuns.NeverLeavesRuleIff | internal/plugin/service.go:91-163 | for every settings: no reached state with no Start and no sync under way has a core with the rule of a blocker that is off, if and only if syncs come one at a time, nft never fails, and no rule is removed during a restart |
| LifecycleRuns.RestartLeavesRule | internal/plugin/service.go:147-153 | a Start that has read its options, a sync that takes the rule out of the old core, and a new core that has it again |
| LifecycleRuns.FailedSyncLeavesRule | internal/plugin/service.go:91-106 | a sync that switches the blocker off fails at nft, and the core keeps the rule |
| LifecycleRuns.OverlapLeavesRule | internal/plugin/service.go:77-110 | two overlapping syncs, one that finds the blocker off already |
| LifecycleRuns.StartLaunches | internal/xray/manager.go:185-306 | a first Start on a machine where everything works ends with one live core on the current options and all locks free |
| LifecycleCalls.AsksCoreIff | internal/xray/manager.go:218-225 | the running core is asked, and compared with the request, exactly if it is online, the hash check is on and no restart is forced; otherwise the Start goes on to replace it |
| LifecycleCalls.StartReplacesCore | internal/xray/manager.go:246-292 | a Start that asks nothing, in any reached state with the locks free: when all goes well the one live child is a new one that serves the current options, is online and recorded, and the request is on the disk |
| LifecycleCalls.SilentCoreReplaced | internal/xray/manager.go:239-292 | so is a core that is asked and does not answer |
| LifecycleCalls.ChangedCoreReplaced | internal/xray/manager.go:225-292 | so is one that answers and needs a restart |
| LifecycleCalls.SameCoreAdopted | internal/xray/manager.go:225-238 | one that answers and needs none stays; config, request and boot file become the new ones |
| LifecycleCalls.OnlyNewLives | internal/xray/manager.go:505-647 | after a replacement no child but the new one is alive |
| LifecycleCalls.FailedPreparationChangesNothing | internal/xray/manager.go:246-251 | a failing preparation leaves core, children and boot file alone |
| LifecycleCalls.LateChildStopped | internal/xray/manager.go:281-305 | a new child that does not answer in time is stopped again and nothing is recorded |
| LifecycleCalls.FailedSaveIsStarted | internal/xray/manager.go:315-326 | a request that cannot be written to the disk has been started all the same, and the boot file keeps what it had |
| LifecycleCalls.StopStops | internal/xray/manager.go:328-361 | a Stop where everything works leaves no child alive; with `clear` the boot file and the recorded request are gone, without it the request is written again first |
| LifecycleCalls.HealthRecords | internal/xray/manager.go:413-446 | a health check pings exactly if there is a child or one was online, and records the answer |
| LifecycleCalls.RestoreLoadsLatest | internal/xray/manager.go:376-384 | the restore goes into a Start of exactly the latest wish in the log, and ends at once only if there is none or the file cannot be read |
| LifecycleCalls.RestoreLoadsAllowed | internal/xray/manager.go:376-384 | whatever was cut before the reboot, it starts nothing that was not wished for |
| LifecycleCalls.RestoreRetries | internal/xray/manager.go:386-410 | a failed attempt below the tenth waits and leads to another Start of the same request; the tenth, or one that succeeds, ends the restore |
| LifecycleCalls.TenAttempts | internal/xray/manager.go:386-410 | if every attempt is turned away the restore is over after ten of them and no earlier |
| LifecycleCalls.RestoreServes | internal/xray/manager.go:363-411 | after a reboot of any reached state whose log asks for a request, the restore where everything works ends with one live child that serves the current options, online, that request recorded, and all locks free |
| LifecycleCalls.LatestIs | internal/xray/persist.go:38-58 | what the boot file is to bring back, read off the log: the last request started since which there was no Stop(true), if it has a config, with the restart no longer forced |
| LifecycleCalls.AllowedIs | internal/xray/persist.go:13-36 | what it may denote meanwhile: any wish that was the latest at some point since disk work last completed |
| LifecycleRuns.BootFileAllowed | internal/xray/persist.go:13-58 | at every point of every run, reboots included, the boot file is whole or absent and denotes something wished for since the last completed disk work |
| LifecycleRuns.BootFileExact | internal/xray/manager.go:315-361 | when disk work completed, or none failed or was cut and `lifecycleMu` is free, the boot file denotes the last successful Start since the last Stop(true), or nothing |
| LifecycleRuns.StopFalseKeepsBootFile | internal/xray/manager.go:328-361 | no step of a Stop(false) changes what a settled boot file denotes |
| LifecycleRuns.OutcomeKeepsInv | internal/xray/manager.go:185-647 | the invariant below holds after every schedule of any length |
| LifecycleInvariants.StepKeepsInv | internal/xray/manager.go:185-647 | every step of every thread, child, monitor and reboot keeps the invariant on locks, children, torrent options and boot file |
| LifecycleInvariants.SyncKeepsTorrent | internal/plugin/service.go:77-163 | publishing new options before looking at `startProcessing` keeps it, given that syncs do not overlap |
| LifecycleInvariants.SaveKeepsPersist | internal/xray/persist.go:13-36 | each disk call of a save, failed or not, leaves the boot file whole and among what it may denote |
| LifecycleInvariants.RebootKeepsInv | internal/xray/manager.go:363-376 | a reboot at any point keeps the invariant, with only the disk left; what the restore then does is in the LifecycleCalls rows |
| LifecycleInvariants.OnlineIsFree | internal/xray/manager.go:413-446 | nothing proved depends on `xrayOnline`, which Health sets from a ping made outside the locks |
| AsnFormat.LittleEndianRoundTrip | internal/asn/writer.go:48-52 | a number below 256^k reads back from its k little-endian bytes |
| AsnFormat.AsnAbovePosition | internal/asn/writer.go:37-41 | in an increasing list of non-zero numbers the i-th is above i: no more than 2^32 - 1 entries pass the checks |
| AsnWriter.NormalizePrefixes | internal/asn/writer.go:75-88 | the masked images of the prefixes at an increasing list of places, which holds exactly the places with a valid prefix of the family |
| AsnFormat.NormalizeSelects | internal/asn/writer.go:75-88 | the same of the specification, for every list |
| AsnFormat.MaskNumber | internal/asn/writer.go:84-85 | masking takes from the address, as a number, its value modulo 2 to the number of bits behind the prefix, and nothing else |
| AsnFormat.LittleEndianAt | internal/asn/writer.go:48-52 | byte i of a field is the number divided by 256^i, modulo 256 |
| AsnWriter.AppendRecords | internal/asn/writer.go:55-64 | the records of the prefixes, one after the other |
| AsnWriter.SortKeeps | internal/asn/writer.go:21-22 | sorting keeps the entries with their multiplicities, and whether their numbers are distinct |
| AsnWriter.WriteEntry | internal/asn/writer.go:42-65 | one index entry and one blob, in the format's bytes |
| AsnWriter.WriteEntries | internal/asn/writer.go:32-66 | the two buffers are the index entries and the blobs, or the first entry that is to be refused is |
| AsnWriter.Write | internal/asn/writer.go:20-73 | done means the list has distinct non-zero numbers and at most 65535 prefixes of each family and the encoding of the sorted list was written; a refused list gets the header only; an error of the output leaves a beginning of that |
| AsnWriter.Output.Put | internal/asn/writer.go:24-73 | a write that fails may have written a beginning of its bytes |
| AsnWriter.OffsetFits | internal/asn/writer.go:24-65 | the count fits 32 bits and every offset stays below 2^53 although the loop counts in 64 bits |
| AsnDb.Open | internal/asn/db.go:37-79 | opens exactly the well-formed files |
| AsnDb.CheckIndex | internal/asn/db.go:62-77 | the loop accepts an index exactly when numbers are non-zero and increase and every blob lies between index and end of file |
| AsnDb.PrefixesByASN | internal/asn/db.go:96-122 | for every file that can be opened, the binary search on the bytes gives what a linear scan of the index gives |
| AsnDb.ScanFinds | internal/asn/db.go:96-122 | the scan finds the one entry with the number |
| AsnDb.ScanMisses | internal/asn/db.go:96-122 | and nothing for a number that is not there |
| AsnDb.ReadBlob | internal/asn/db.go:124-147 | reading record by record gives the records of the blob |
| AsnDb.ReadFound | internal/asn/db.go:114-118 | the prefixes an index entry points at |
| AsnDb.BlobsTileFile | internal/asn/writer.go:48-65 | each entry's offset plus length is the next one's offset and the last ends the file |
| AsnDb.EncodedWellFormed | internal/asn/db.go:42-78 | whatever the writer writes can be opened |
| AsnDb.WriteOpenLookup | internal/asn/db.go:96-147 | for every list the writer accepts, a lookup gives for each family the masked images of the number's prefixes at exactly the places that hold a valid one, in increasing order, and nothing for a number not listed |
| AsnDb.FoundIsEntry | internal/asn/db.go:114-147 | entry i of a written file reads back as entry i of the sorted list |
| AsnDb.BlobReadsBack | internal/asn/db.go:124-147 | a blob reads back as its prefixes |
| AsnLayout.HeaderLayout | internal/asn/writer.go:24-30 | a written file begins with the format's name, its version, the number of entries and four zeros |
| AsnLayout.IndexLayout | internal/asn/writer.go:32-53 | index entry i, byte by byte: the number, where its records begin, and how many there are of each family |
| AsnLayout.V4Layout | internal/asn/writer.go:55-59 | record k of an entry's IPv4 prefixes: four bytes of address and one of length, at its place in the file |
| AsnLayout.V6Layout | internal/asn/writer.go:60-64 | after them the IPv6 records, with sixteen bytes of address |
| AsnLayout.OpensIff | internal/asn/db.go:42-78 | which files can be opened, in terms of their bytes |
| AsnLayout.FoundLayout | internal/asn/db.go:114-147 | what a lookup gives of entry i of any file that can be opened: one prefix for each record, from the record's own bytes |
| HashedSets.Djb2Dual | internal/xray/hashedset.go:52-61 | the shift-and-add loop equals the closed form: polynomials in 33 and 65 modulo 2^32 |
| HashedSets.RoundIsLinear | internal/xray/hashedset.go:56-59 | one round with each operation cut to 32 bits is multiplication modulo 2^32 |
| HashedSets.XorAllInsert | internal/xray/hashedset.go:23-31 | adding a new member XORs its digest in, whichever order defines the sum |
| HashedSets.XorAllDelete | internal/xray/hashedset.go:33-42 | deleting a member XORs it out |
| HashedSets.SameHashIff | internal/xray/hashedset.go:48-50 | two sets have the same pair exactly when the XOR over their symmetric difference is zero |
| HashedSets.RunningHashIsXorAll | internal/xray/hashedset.go:23-42 | after any run of additions and deletions the pair is the XOR over who is left |
| HashedSets.RenderInjective | internal/xray/hashedset.go:48-50 | different pairs have different hexadecimal texts |
| HashVectors.KnownHashes | internal/xray/hashedset_test.go:14-23 | the hashes of the three sets that the repository's tests know |
| HashVectors.DigitsInOrder | internal/xray/hashedset.go:48-50 | lower-case digits, the high word before the low one |
| HashVectors.Hex8Of | internal/xray/hashedset.go:48-50 | a word is written from its highest four bits to its lowest |
| HashedSets.HashedSet.constructor | internal/xray/hashedset.go:15-21 | the given items, with the pair that belongs to them |
| HashedSets.HashedSet.Add | internal/xray/hashedset.go:23-31 | adds a member and keeps the pair the XOR over the members |
| HashedSets.HashedSet.Delete | internal/xray/hashedset.go:33-42 | deletes one, says whether it was there, and keeps the pair |
| HashState.UserHashes.Extract | internal/xray/hashstate.go:8-44 | the record is the client ids of the last inbound with each tag the request hashes, and the tags are its keys |
| HashState.RecordedIs | internal/xray/hashstate.go:20-43 | recorded under a tag are the non-empty ids of the last inbound with it, if the request hashes the tag, and nothing is for any other |
| HashState.UserHashes.CollectTags | internal/xray/hashstate.go:13-18 | the non-empty tags the request hashes |
| HashState.UserHashes.Record | internal/xray/hashstate.go:38-41 | a fresh set under a tag in place of any other, and the tag |
| HashState.UserHashes.ExtractClientIds | internal/xray/hashstate.go:132-155 | the non-empty ids of the clients, as a set |
| HashState.UserHashes.IsNeedRestart | internal/xray/hashstate.go:46-84 | no restart exactly when the state is up to date with the request |
| HashState.UserHashes.FindInbound | internal/xray/hashstate.go:60-66 | the first item with a tag |
| HashState.UpToDateIff | internal/xray/hashstate.go:46-84 | up to date exactly when the base hash is non-empty and equal and the incoming list is a one-to-one match of the record: no tag twice, every recorded tag and no other, each with the text of its set's hash |
| HashState.TagCount | internal/xray/hashstate.go:54-57 | comparing lengths is enough because a list has as many tags as items exactly when they are distinct |
| HashState.NoRestartIff | internal/xray/hashstate.go:86-125 | after an extraction and any hot updates, a request that describes the sets needs no restart exactly when every inbound that lost its last user got another one since |
| HashState.ForgottenIsMissing | internal/xray/hashstate.go:108-125 | what the record lacks is the inbounds that lost their last user and got none since, as the panel can tell from the updates |
| HashState.LastUserRestarts | internal/xray/hashstate.go:46-125 | one inbound, one user, removed: a request that describes the empty inbound restarts the core |
| HashState.NoneEmptied | internal/xray/hashstate.go:108-125 | updates that empty no set keep every tag |
| HashState.UserHashes.AddUserToInboundHash | internal/xray/hashstate.go:86-106 | adds an id under a tag, and the tag; other sets stay |
| HashState.UserHashes.StartSet | internal/xray/hashstate.go:94-103 | an empty set of its own under a new tag |
| HashState.UserHashes.AddTo | internal/xray/hashstate.go:104 | adds an id to the set of one tag and no other |
| HashState.UserHashes.RemoveUserFromInboundHash | internal/xray/hashstate.go:108-125 | removes an id, and the tag with its last id; other sets stay |
| HashState.UserHashes.DeleteFrom | internal/xray/hashstate.go:119-120 | takes an id out of the set of one tag and no other, and says whether it is empty then |
| HashState.UserHashes.DropSet | internal/xray/hashstate.go:121 | forgets the set of one tag |
| HashState.UserHashes.AddInboundTag | internal/xray/inbounds.go:35-45 | adds a non-empty tag |
| HashState.UserHashes.Clear | internal/xray/hashstate.go:127-130 | nothing is recorded any more |
| UserHandlers.Service.HandleAddUser | internal/nodehandler/handler.go:53-99 | record, tags and core become what one placement makes of them, for whatever the core answers; the answer is success exactly when some addition was made; no data changes nothing and is a bad request; what a placement comes to is in the UserEffects rows |
| UserHandlers.Service.HandleAddUsers | internal/nodehandler/handler.go:125-155 | the same for a batch, user by user; the answer is always success |
| UserHandlers.Service.PlaceBatchUser | internal/nodehandler/handler.go:137-151 | one user of a batch: tags, removal everywhere, additions |
| UserHandlers.Service.AddInboundTags | internal/nodehandler/handler.go:65-67 | the non-empty tags become known |
| UserHandlers.Service.AddEverywhere | internal/nodehandler/handler.go:89-96 | additions in order, hashed only when the core accepts; which of them are made |
| UserHandlers.Service.AddAt | internal/nodehandler/handler.go:90-95 | one inbound: the id goes into its hash exactly when the core accepts |
| UserHandlers.Service.HandlerAddUser | internal/xray/handler.go:30-37 | the core puts a user on an inbound it has, unless the user is there or it refuses |
| UserHandlers.Service.HandlerRemoveUser | internal/xray/handler.go:84-91 | the core takes a user off an inbound or does not; success means the user is not there |
| UserHandlers.Service.HandleRemoveUser | internal/nodehandler/handler.go:101-123 | the user is off every inbound with a tag where the core obeyed, and the id out of every hash; success, if there are tags, means that the user is off one of them |
| UserHandlers.Service.HandleRemoveUsers | internal/nodehandler/handler.go:157-183 | the same for several users, with the tags left at each one's turn |
| UserHandlers.Service.RemoveEverywhere | internal/nodehandler/handler.go:80-83 | the order of the tags does not matter, whichever removals fail |
| UserHandlers.Service.RemoveAt | internal/nodehandler/handler.go:117-120 | one inbound: the id leaves the hash also when the core fails |
| UserHandlers.AggregateResults | internal/nodehandler/handler.go:288-312 | only a request all of whose calls failed is answered as failed, with the first message there is or a general one |
| UserHandlers.RunKeepsInStep | internal/nodehandler/handler.go:53-183 | after any run of requests that say the truth of the users they name (in the request's own fields), the ids recorded under each tag are those of the users the core holds there, ids name users, and recorded tags are known tags |
| UserHandlers.ServeKeepsInStep | internal/nodehandler/handler.go:53-183 | each such request keeps that, whatever additions the core refuses; the id a user leaves is `prevVlessUuid` if there is one that is not empty, else `vlessUuid` |
| UserEffects.AddUserKeepsInStep | internal/nodehandler/handler.go:53-99 | if data names one user, the user's id in the core is `prevVlessUuid` when there is one that is not empty and else `vlessUuid`, nobody else has either, and the core takes the user off, then hashes and core are in step afterwards, whatever additions it refuses |
| UserEffects.AddUserPlaces | internal/nodehandler/handler.go:65-96 | the user is then on the wanted inbounds and on no others, with the new id; everybody else is where they were |
| UserEffects.AddUsersPlaces | internal/nodehandler/handler.go:137-151 | the same for each user of a batch, as the user's last turn says |
| UserEffects.AddUserKnows | internal/nodehandler/handler.go:65-67 | the request's tags and those known before are known afterwards |
| UserEffects.RemoveUserTakesOff | internal/nodehandler/handler.go:101-123 | a removal that the core carries out leaves the user nowhere and everybody else where they were |
| UserEffects.RemoveUsersTakeOff | internal/nodehandler/handler.go:157-183 | so do several |
| UserHandlers.FirstMessageIs | internal/nodehandler/handler.go:288-312 | the message of an answer is the first of the calls' messages that is not empty |
| UserHandlers.PlaceKeepsInStep | internal/nodehandler/handler.go:65-96 | off every inbound with the old id, then on with the new one |
| UserHandlers.RemoveFromKeepsInStep | internal/nodehandler/handler.go:117-120 | a removal whose id is on exactly the entries the core gives up keeps it |
| UserHandlers.RemoveKeepsInStepIff | internal/nodehandler/handler.go:101-123 | a removal keeps the two in step if and only if the id sent is on exactly the entries the core gives up |
| UserHandlers.RemoveKeepsInStepWhen | internal/nodehandler/handler.go:101-123 | if the core obeys: exactly when the id is the user's and nobody else's; with such an id: exactly when the core obeys |
| UserHandlers.RemovalSplits | internal/nodehandler/handler.go:117-120 | one inbound with one user: a wrong id, and a failed call, each part the two |
| UserHandlers.ExtractionInStepIff | internal/xray/hashstate.go:8-44 | right after extraction they are in step exactly when the request hashes every inbound that has users |
| ApiConfig.RewriteRoutes | internal/xray/apiconfig.go:23-90 | API traffic goes to the API, BitTorrent to the blackhole unless one of the first k kept rules takes it, all else where the kept rules send it; ApiRoutes.TrafficGoes says it of the original rules |
| ApiRoutes.TrafficGoes | internal/xray/apiconfig.go:23-180 | for every reading of rule conditions: API traffic goes to the API; BitTorrent is blocked unless the first rule of the original list that takes it and does not send to the API has fewer than the placement's number of such rules in front; all else goes where the first original rule that takes it and does not send to the API sends it |
| ApiRoutes.UserRulesAre | internal/xray/apiconfig.go:169-177 | kept are exactly the rules whose outboundTag is not the API's, each as often as it is there |
| ApiRoutes.UserRuleAt | internal/xray/apiconfig.go:169-177 | in their order: a kept rule comes after as many as were kept before it |
| ApiRoutes.PlacementIs | internal/xray/apiconfig.go:94-107 | the torrent rule comes after as many kept rules as asked for, at most all, none if that is not a positive whole number |
| ApiRoutes.PiecesAre | internal/xray/apiconfig.go:23-63 | inbound, outbound and API section word for word, with the tags that the rules use; every other key is kept |
| ApiRoutes.RulesAre | internal/xray/apiconfig.go:49-85 | the rules word for word, and the webhook on exactly those with a wanted tag |
| ApiConfig.GenerateAPIConfig | internal/xray/apiconfig.go:23-90 | every key of the result: six are rewritten, the rest kept; other routing keys are kept; only a placement that no int64 holds can go wrong; ApiRoutes.PiecesAre and ApiRoutes.RulesAre say it word for word |
| ApiConfig.InjectAPI | internal/xray/apiconfig.go:24-37 | the same without the torrent blocker |
| ApiConfig.InsertTorrentRule | internal/xray/apiconfig.go:49-85 | the torrent rule behind k user rules, and the webhooks |
| ApiConfig.CopyFields | internal/xray/apiconfig.go:155-159 | a copy of every field, in any order |
| ApiConfig.ResolveTorrentRuleIndex | internal/xray/apiconfig.go:94-107 | the index is behind the API rule and k user rules, k being the clamped placement, 0 if it is not a positive whole number; never past the end |
| ApiConfig.IntOf | internal/xray/apiconfig.go:102 | a whole number as an int64; out of range, any int64 |
| ApiConfig.RoutingFrom | internal/xray/apiconfig.go:153-180 | the API rule in front of the kept rules, which ApiRoutes.UserRulesAre and ApiRoutes.UserRuleAt pin; other keys kept |
| ApiConfig.PolicyFrom | internal/xray/apiconfig.go:124-151 | level 0 counts its users and keeps every other field it had; every other level and every other key is gone |
| ApiConfig.PolicyMeans | internal/xray/apiconfig.go:124-151 | which fields of a policy survive, key by key |
| ApiConfig.HookRules | internal/xray/apiconfig.go:65-84 | exactly the rules with a wanted tag get the webhook |
| ApiConfig.HookedRoutesTheSame | internal/xray/apiconfig.go:65-84 | webhooks change no match and no target |
| ApiConfig.FirstOutboundKeptIff | internal/xray/apiconfig.go:35-46 | the first outbound stays the first exactly when the blocker is off or the config has an outbound |
| ApiConfig.RewriteDelivers | internal/xray/apiconfig.go:23-90 | traffic that is neither the API's nor BitTorrent is delivered as before, except that what had no outbound to go to ends in the blackhole while the blocker is on |
| ApiConfig.RoutingIdempotent | internal/xray/apiconfig.go:161-177 | rewriting a routing section twice adds no second API rule |
| CoreLoader.Loader.Run | internal/xray/core_loader.go:71-95 | over any run of boots and requests, failing or cut anywhere, an active link that leads to a good core always does, and a spec that counts as installed has its digest |
| CoreLoader.Loader.Prepare | internal/xray/core_loader.go:71-95 | what the geodata asks for decides; keeps all that at every cut; an installed core is not downloaded again; a bad download leaves link and custom file alone; when all goes well the link leads to the executable custom core; without a core section it leads back to the stock core |
| CoreLoader.Loader.PrepareTwice | internal/xray/core_loader.go:86-88 | a second request with the same geodata does no download |
| CoreSpecs.ParseCoreSpec | internal/xray/core_loader.go:97-126 | no core without geodata or core section; a core exactly if the section has an absolute HTTPS URL and a digest; else invalid |
| CoreSpecs.WantedIff | internal/xray/core_loader.go:97-138 | what the core section has to hold, field by field |
| CoreSpecs.RequestIsUnique | internal/xray/core_loader.go:97-126 | geodata asks for one thing |
| CoreSpecs.IsSHA256 | internal/xray/core_loader.go:128-138 | 64 hexadecimal characters |
| CoreSpecs.DigestCase | internal/xray/core_loader.go:125 | digests that differ in case only ask for the same core, and the one compared is in lower case |
| CoreLoader.Loader.Install | internal/xray/core_loader.go:161-207 | success means installed; without a good download and a good probe nothing that counts changes |
| CoreLoader.Loader.Fetch | internal/xray/core_loader.go:161-174 | refuses what is not a link; success leaves a checked download with a fresh stamp at the staged path |
| CoreLoader.Loader.Finish | internal/xray/core_loader.go:177-206 | from there to an installed core, or nothing that counts changes if the probe fails; nothing staged is left |
| CoreLoader.Loader.ReadVersion | internal/xray/core_loader.go:291-303 | records a core that has passed the probe |
| CoreLoader.Loader.Promote | internal/xray/core_loader.go:177-186 | the custom file is replaced only by an executable file with the digest that has passed the probe |
| CoreLoader.Loader.Activate | internal/xray/core_loader.go:187-206 | the link moves in one step and the marker follows only the file it describes |
| CoreLoader.Loader.RestoreStock | internal/xray/core_loader.go:209-234 | fails exactly when the stock core is needed and not executable; otherwise the link leads to it and marker and custom file are gone |
| CoreLoader.Loader.SwitchToStock | internal/xray/core_loader.go:227-233 | the link first, then marker and custom file |
| CoreLoader.Loader.IsInstalled | internal/xray/core_loader.go:140-159 | true only if marker, custom file and link agree with the spec; exact if no call fails |
| CoreLoader.Loader.PointLinkAt | internal/xray/core_loader.go:250-261 | the link has the new target or the old one, and only its temporary sibling besides |
| CoreLoader.Loader.WriteMarkerAtomic | internal/xray/core_loader.go:275-289 | the marker is the new one or the old one |
| CoreLoader.Loader.Download | internal/artifact/download.go:38-146 | the path changes only for a body of 1 to 134217728 bytes with the expected digest, and does for every such body if no call fails |
| CoreLoader.Loader.Receive | internal/artifact/download.go:95-139 | only the sibling file is touched; success means the whole body is in it |
| CoreLoader.Disk.Rename | internal/xray/core_loader.go:250-261 | what is at the target is replaced in one step or not at all |
| CoreLoader.Disk.WriteAll | internal/artifact/download.go:119-134 | a failed write may leave a beginning of the data, a finished one has a stamp of its own |
| CoreLoader.OldSpecStillInstalledIff | internal/xray/core_loader.go:184-204 | cut between the new custom file and its marker, the old spec counts as installed exactly when the stamps are equal |
| CoreLoader.NewCustomKeepsGood | internal/xray/core_loader.go:184-186 | putting a vetted file with a fresh stamp in place keeps link and marker right |
| CoreLoader.NewMarkerKeepsGood | internal/xray/core_loader.go:190-204 | so does a marker that describes the custom file |
| CoreLoader.FewerKeepsGood | internal/xray/core_loader.go:230-231 | so do the removals once the link is at the stock core |
| Geodata.GroupGeodataAssets | internal/xray/geodata.go:83-95 | group i is the assets of the i-th distinct file in their order |
| Geodata.DistinctFilesAreDistinct | internal/xray/geodata.go:83-95 | each file has one group |
| Geodata.AssetIsGrouped | internal/xray/geodata.go:83-95 | no asset is lost |
| Geodata.FilesInOrder | internal/xray/geodata.go:83-95 | the groups come in the order in which their files first appear |
| Geodata.SourcesConcat | internal/xray/geodata.go:83-95 | a file's assets in a list are those in its parts, one part after the other |
| GeodataPool.EverySchedule | internal/xray/geodata.go:49-78 | in every schedule at most five workers run and no two hold one file, something can always go on until the run is finished, cancelled or not, and it ends within a bound |
| GeodataPool.StartIsReached | internal/xray/geodata.go:49-78 | runs start with any files there may be |
| GeodataPool.FinishedFiles | internal/xray/geodata.go:140-160 | every file ends as its prior content, else the first body in configured order, else empty; uncancelled all sources were dealt with; no other file changes and no temporary file is new |
| GeodataPool.FirstSourceWins | internal/xray/geodata.go:83-95 | trying the sources one after the other amounts to that |
| GeodataPool.FirstBodyIs | internal/xray/geodata.go:140-160 | the first body is that of a try that gave one, and no try before it did |
| GeodataPool.AnswersAreLogged | internal/xray/geodata.go:140-160 | whatever other workers do in between, what a source answered is what its file is made from |
| GeodataPool.NeverStuck | internal/xray/geodata.go:57-77 | the producer's select and the workers' early return never block each other |
| GeodataPool.SchedulesEnd | internal/xray/geodata.go:49-78 | every action lowers the number of steps left |
| GeodataPool.StepKeepsContent | internal/xray/geodata.go:140-160 | every step of a worker touches its file and its temporary file only, and the file only with a whole body or as an empty stub |
| GeodataPool.ExecKeepsContent | internal/xray/geodata.go:49-78 | at every moment every file holds what the sources tried so far make of it |
| GeodataPool.GroupsAreValid | internal/xray/geodata.go:83-95 | groups are non-empty and have different files |
| GeodataClash.ContentKeptIff | internal/artifact/download.go:88-91 | prior content survives every uncancelled run if and only if no file is another's name with ".download" behind it |
| GeodataClash.ClashLosesContent | internal/artifact/download.go:88-91 | otherwise there is a run that loses it |
| UserIpPool.EverySchedule | internal/xtls/stats.go:190-235 | no user is handed out twice, each slot is written at most once, the pool never blocks and ends, and the output is the users with addresses among a prefix of the distinct users, all of them if not cancelled |
| UserIpPool.FilteredIsFound | internal/xtls/stats.go:228-234 | dropping empty slots gives the found users in order |
| UserIpPool.FoundIs | internal/xtls/stats.go:228-234 | the output holds exactly the users with addresses, each with its own, in the order of the users |
| UserIpPool.AnswersStay | internal/xtls/stats.go:207-213 | an answer a worker got for a user is there in every later state |
| UserIpPool.WorkersStay | internal/xtls/stats.go:196-215 | there are as many workers as users, at most 50 |
| UserIpPool.UniqueOnlineUserIDs | internal/xtls/stats.go:251-266 | the distinct users in order of first appearance |
| UserIpPool.UniqueUsersAreDistinct | internal/xtls/stats.go:251-266 | each once, and exactly those a metric names |
| UserIpPool.UniqueUsersInOrder | internal/xtls/stats.go:251-266 | whenever a user is named, those in front of it were named before |
| UserIpPool.Filter | internal/xtls/stats.go:228-233 | the slots with addresses, in order |
| UserIpPool.ExtractNameIff | internal/xtls/stats.go:268-274 | an id reads back from the name the lookup uses exactly when no separator starts inside it |
| UserIpPool.ExtractIff | internal/xtls/stats.go:268-274 | a text names a user exactly if it is `user>>>`, the id, `>>>` and anything, and no separator starts inside the id |
| ConfigStringify.Decoder.StringifyToken | internal/plugin/objecthash.go:35-65 | reads what the specification reads from the rest of the stream and leaves the same rest |
| ConfigStringify.Decoder.Token | internal/plugin/objecthash.go:36-39 | the next token, or the end |
| ConfigStringify.Decoder.StringifyObject | internal/plugin/objecthash.go:67-88 | the same for the members of an object |
| ConfigStringify.Decoder.StringifyArray | internal/plugin/objecthash.go:90-103 | the same for the items of an array |
| ConfigStringify.ReadTree | internal/plugin/objecthash.go:35-103 | on the tokens of any tree followed by anything, the result is the tree's text and exactly its tokens are consumed |
| ConfigStringify.CutTreeFails | internal/plugin/objecthash.go:35-103 | a stream that ends anywhere inside a tree gives no text |
| ConfigStringify.RenderIs | internal/plugin/objecthash.go:41-103 | the text of each kind of value: nothing for null, 1 and 0 for truth values, numbers as written, items and members in order between brackets with commas |
| ConfigStringify.CollapseAt | internal/plugin/objecthash.go:105-107 | words stay and each run of blanks between them becomes one space |
| ConfigStringify.NormalizedRendersTheSame | internal/plugin/objecthash.go:51-52 | the text does not change when white space in string values is normalised |
| ConfigStringify.TrimStringIdempotent | internal/plugin/objecthash.go:105-107 | trimming twice is trimming once |
| TagKeys.SameJoinedIff | internal/plugin/service.go:256-264 | for non-empty tags without commas the joined sorted text is the same exactly for the same multiset |
| TagKeys.SortedIsUnique | internal/plugin/service.go:257-258 | there is one sorted list of given tags |
| TagKeys.LeqIff | internal/plugin/service.go:257-258 | in order are a text and one it begins, or one that has the greater character where they first differ |
| TagKeys.JoinInjective | internal/plugin/service.go:262 | joined text determines tags without commas |
| TagKeys.CommasCollide | internal/plugin/service.go:262 | with commas two different lists have one text |
| PluginLists.ToStringSlice | internal/plugin/state.go:191-203 | the non-empty strings of a list in order |
| PluginLists.TextItemsAre | internal/plugin/state.go:191-203 | exactly the non-empty strings, each as often as it is there |
| PluginLists.TextItemsInOrder | internal/plugin/state.go:191-203 | in their order |
| PluginLists.ToIntegerSlice | internal/plugin/state.go:205-217 | the safe whole numbers of a list in order |
| PluginLists.IntegersAre | internal/plugin/state.go:205-217 | exactly the whole numbers that a float64 holds exactly |
| PluginLists.ToIntSlice | internal/plugin/torrent.go:285-300 | the numbers of a list in order, cut off toward zero |
| PluginLists.NumbersAre | internal/plugin/torrent.go:285-300 | exactly the numbers, cut off toward zero |
| PluginLists.BuildSharedIPMap | internal/plugin/torrent.go:234-261 | the addresses by key; the last known list with a key counts |
| PluginLists.SharedIff | internal/plugin/torrent.go:234-261 | a key stands for the addresses of the last list with that key that has a name and a known type, and for nothing else |
| PluginLists.ResolveASList | internal/plugin/asn.go:16-67 | the prefixes of the AS numbers, written as numbers or as text, first IPv4 then IPv6 |
| PluginLists.ResolveIPList | internal/plugin/torrent.go:220-232 | each item stands for itself or for its shared list |
| PluginLists.ResolvedIff | internal/plugin/torrent.go:220-232 | an address is in the resolved list exactly when given directly or by a list the config defines |
| PluginLists.ListedIff | internal/plugin/torrent.go:220-232 | the same from the JSON list: an address is there exactly when it is an item itself or on the list an item names |
| PluginMeaning.ResolvedHolds | internal/plugin/torrent.go:220-261 | an address is in a resolved list exactly when the config says so: an item is the address, or names a shared list, known by `ext:` and its name, that holds it or the prefixes of an AS number on it |
| PluginMeaning.ResolvedFollows | internal/plugin/torrent.go:220-232 | in the order of the items |
| PluginMeaning.AsnOfIff | internal/plugin/asn.go:16-67 | which items are AS numbers: a whole number from 1 to 2^32 - 1, or a text of it, with zeros, an AS or as in front and white space around it allowed |
| PluginSync.Service.HandleSync | internal/plugin/service.go:45-110 | a refusal leaves fresh settings; unchanged changes nothing and needs the active hash; a new config is accepted exactly if it is valid and no script fails, and makes settings and filter sets its own (PluginMeaning says which); the core is restarted as the options call for; the blocker goes off with the core left alone exactly when a script failed; when the filters are in place |
| PluginSync.Service.HandlePluginClear | internal/plugin/service.go:112-127 | fresh settings in every case; accepted exactly with an active plugin and no failing script, and then the tables are empty |
| PluginSync.Service.ResetPlugins | internal/plugin/service.go:130-136 | fresh settings whether or not nft fails |
| PluginSync.Service.SyncTables | internal/plugin/service.go:91-106 | empties and fills the tables; a failure resets the settings |
| PluginSync.Service.SyncFilters | internal/plugin/torrent.go:263-283 | from empty sets, success means the sets of the config, which PluginMeaning.FiltersMean spells out |
| PluginMeaning.FiltersMean | internal/plugin/torrent.go:263-300 | each family's set is what normalising makes of just the addresses in the section's own blockedIps, in their order; the ports, for both families, are the numbers of the egress section's blockedPorts without fractions; all empty for a section that is off |
| PluginSync.Service.HandleRecreateTables | internal/plugin/service.go:227-237 | empties the filters; leaves them in agreement with the active config exactly when nothing is active or it asks for none; a failure changes nothing |
| PluginSync.Service.HandleBlockIPs | internal/plugin/service.go:177-204 | accepted means all are blocked; no filter changes; with nft at work accepted exactly if all are addresses with no negative timeout |
| PluginSync.Service.HandleUnblockIPs | internal/plugin/service.go:206-225 | the filters lose the elements of the addresses up to the first that fails; accepted means none of the addresses is blocked any more |
| PluginSync.UnblockedIs | internal/plugin/nft_linux.go:68-81 | unblocking takes exactly the addresses' own elements out of the ingress sets |
| PluginRuns.Node.Run | internal/plugin/service.go:45-237 | over any run of syncs, clears, stops, starts, table recreations, blocking and unblocking, with nft failing anywhere: the settings, what the core runs with and the filters follow from the events and their answers alone; after a refused sync no config counts as unchanged |
| PluginRuns.Node.Serve | internal/plugin/service.go:45-237 | each event moves that course by one step; a start takes the settings there are, a stop leaves neither core nor settings |
| PluginRuns.Node.ServeSync | internal/plugin/service.go:45-163 | a sync does, whatever nft does; when it is accepted and when it leaves the core alone |
| PluginRuns.NextIs | internal/plugin/service.go:45-237 | what each event makes of active plugin, core and filters |
| PluginRuns.RuleLeftIff | internal/plugin/service.go:91-127 | a core has the rule of a blocker that is off exactly when, since it was last started or touched, a sync or clear was refused, not for its content, while the blocker was on |
| PluginRuns.ClearLeavesRule | internal/plugin/service.go:112-127 | a clear that fails at nft is such a request |
| PluginRuns.SyncLeavesRule | internal/plugin/service.go:91-106 | so is a sync of any other config that fails at nft |
| PluginRuns.RecreateThenSame | internal/plugin/service.go:72-89 | on every node: after a recreation a sync of the active config is accepted, changes nothing, and leaves the sets empty |
| PluginRuns.RecreateLosesFilter | internal/plugin/service.go:227-237 | an active ingress filter is lost that way |
| PluginRuns.DecisionsAgree | internal/plugin/service.go:142-163 | the lifecycle model restarts the core for exactly the options for which the service touches it |
| PluginSync.Service.ApplyTorrentRestart | internal/plugin/service.go:142-163 | the action the options call for; a failed hot removal stops the core |
| PluginSync.LeftAloneIff | internal/plugin/service.go:142-163 | with plain tags the core is left alone exactly when the blocker stays off, or on with the same tags and placement |
| PluginSync.State.UpdateFromSync | internal/plugin/state.go:139-189 | changed exactly when the hash differs or nothing is active; then every setting is made from the config, and hash, uuid and name are the request's |
| PluginSync.State.ConfigureTorrentBlocker | internal/plugin/torrent.go:37-65 | the options of an enabled blocker, zero otherwise |
| PluginSync.TorrentMeans | internal/plugin/torrent.go:37-65 | who is ignored and which tags count, in terms of the config's lists |
| PluginMeaning.TorrentMean | internal/plugin/torrent.go:37-65 | every option of a blocker that is on, from the config's fields; all zero for one that is off |
| PluginSync.State.ConfigureConnectionDrop | internal/plugin/state.go:177-184 | the resolved whitelist of an enabled section |
| PluginSync.WhitelistMeans | internal/plugin/state.go:177-184 | an address is let through exactly when the section is enabled and lists it, itself or by a shared list |
| PluginMeaning.WhitelistMean | internal/plugin/state.go:177-184 | the same from the config's own fields and lists |
| PluginSync.State.ConfigurePreStart | internal/plugin/prestart.go:11-28 | the flags and the non-empty trimmed files |
| PluginSync.PreStartMeans | internal/plugin/prestart.go:11-28 | a file is cleaned up exactly when it is a listed text without the white space around it, and not empty |
| PluginMeaning.PreStartMean | internal/plugin/prestart.go:11-28 | both switches, and the files, from the config's own fields |
| PluginMeaning.TrimmedConcat | internal/plugin/prestart.go:17-27 | the files keep their order |
| PluginSync.State.Reset | internal/plugin/state.go:103-114 | the settings of a new state |
| PluginSync.NftManager.RecreateTables | internal/plugin/nft_linux.go:38-43 | empties every filter set or fails |
| PluginSync.NftManager.SyncIngressFilter | internal/plugin/nft_linux.go:97-119 | success adds the normalised addresses by family |
| PluginSync.NftManager.SyncEgressFilter | internal/plugin/nft_linux.go:121-156 | success adds addresses and ports to both families |
| PluginSync.NftManager.BlockIP | internal/plugin/nft_linux.go:52-66 | adds an address to its own family's set or fails; no filter changes |
| PluginSync.NftManager.UnblockIP | internal/plugin/nft_linux.go:68-95 | takes the address out of its family's set, then its element out of the ingress filter; what a failure may have done |

## Left out

- LifecycleRuns.NeverLeavesRuleIff: the removal of the rule is one step, which succeeds only on an online core with its config loaded, and leaves it as if it had no blocker; validation of the config is not part of this state machine.
- LifecycleRuns.BootFileAllowed: takes renames as atomic and in order; the data directory is set, and there is no fsync to model.
- LifecycleInvariants.StepKeepsInv: a ping is answered only by a live child that loaded its config; timeouts, delays, the outcome of the preparation steps and of the hash comparison are free choices; `refreshVersion`, log files and the pre-start cleanup are not part of this model.
- AsnWriter.Write: IPv6 zones are not part of this model; prefixes are values, not text.
- HashState.UserHashes.Extract: configs come as lists of inbounds with client ids; reading them out of JSON is not modelled.
- HashState.UserHashes.ExtractClientIds: the sorted order of the ids, which only feeds a set, is not stated.
- UserHandlers.RunKeepsInStep: assumes what it states in `Proper` and `IdFits`: one non-empty user name per placement, the removal id is the user's, the new id nobody else's, and the core takes the user off where the user is. A core user's "id" is the uuid the panel hashes for the user, for every protocol.
- UserHandlers.Service.HandleAddUser: the dropping of connections is not modelled, and an addition takes effect exactly when it is answered as done.
- UserHandlers.Service.HandleRemoveUser: the dropping of connections is not modelled.
- UserHandlers.Service.HandleRemoveUsers: nor here; which calls its answer is made from is not stated.
- ApiConfig.GenerateAPIConfig: what a placement of 2^63 or more gives is left open, as Go leaves it; the schema's bound is 1000 (internal/plugin/schema_validate.go:171-176). A deep copy is the identity on values.
- CoreLoader.Loader.Run: paths are the eight of a managed link and all others; link targets are already resolved; the stock path, the marker and its temporary sibling are not symbolic links; probing a core has no side effect; renames are atomic and durable in order.
- CoreSpecs.ParseCoreSpec: how a URL is parsed and written again is a parameter.
- CoreLoader.Loader.Prepare: HTTP is one answer.
- GeodataPool.FinishedFiles: the directory holds regular files only and local disk calls succeed; what a download gives is chosen by the schedule.
- GeodataClash.ContentKeptIff: a temporary file that another worker removed takes no more bytes, but if a file appears again under its name while it is open, the rest goes into that one.
- UserIpPool.EverySchedule: the answer of a lookup is chosen by the schedule.
- PluginSync.Service.HandleSync: validation, config hash, address normalisation and SHA-256 are parameters; concurrent requests are the lifecycle model's subject.
- PluginRuns.Node.Run: requests come one at a time, a stop of the core succeeds and a start is one step; the lifecycle model has their parts.
- PluginSync.NftManager.UnblockIP: which element of an interval set an address is, and that an absent element is no failure, are taken from nft.
- PluginSync.LeftAloneIff: assumes the digest injective and non-empty, and tags without commas.
- PluginRuns.DecisionsAgree: assumes the digest non-empty.
- ConfigStringify.ReadTree: starts from tokens; JSON text is not parsed, and the rendering is not injective by design.
- Traffic statistics (internal/xtls/stats.go:276-349), webhook reports: easy next to the rest.
- gRPC, HTTP routing, TLS, JWT, log rotation, network rates, version and doctor commands: decided by libraries or by the environment.
