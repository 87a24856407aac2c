# Verified model of the HAMi DRA driver

A Dafny model of the parts of the HAMi DRA kubelet plugin for Ascend NPUs whose correctness rests on several
functions at once, with proofs over every run, every interleaving of the steps modelled and every map iteration order.

| Part | Modules |
|---|---|
| Claim lifetime tokens and the cached metrics protocol | `TokenProtocol`, `ScrapeProtocol`, `ProtocolRuns`, `MetricsService` |
| Prepare, Unprepare and the metrics snapshot over a checkpoint, CDI specs and claim directories that may fail at every call | `Lifecycle`, `LifecycleRuns`, `ClaimSpecs` |
| The sampling rule, the two-pass loop that implements it, the sampling rounds, and scrapes | `DomainRule`, `Observe`, `Observations`, `Monitor`, `SampleRuns`, `ScrapeRule`, `ExportRule`, `Collector` |
| The vNPU slice allocator and the published device table | `SliceModel`, `PlantModel`, `CardRuns`, `VnpuManager` |
| The shared-memory decoder | `Shmem` |
| Configuration resolution, and what a container is told and given: variables and mounts written and read back | `ConfigResolution`, `CoreEnv`, `MountPaths`, `CorePrepare`, `PrepareRule`, `RetryRule`, `WrittenDevices` |
| Device names, decimal numbers and separated lists | `DeviceNames`, `Decimal`, `Text` |

Code that changes things step by step is modelled by classes and methods with loops (`VnpuManager.VNPUManager`,
`Lifecycle.DeviceState`, `Monitor.Monitor`, `Collector.Collector`, the decoder, the config and environment loops).
Each such method is proved against a value-level specification (`SliceModel` and `PlantModel`, `PreparePost` and
`UnpreparePost`, `DomainRule`, `ScrapeRule`), and the properties over runs are lemmas about those specifications.

How the whole-system result is put together: `Lifecycle.DeviceState` keeps a history of every state of the token table
that a reader without lock can see, and proves it to be a run of `TokenProtocol`. `ScrapeProtocol` interleaves that run
with snapshots, publications and scrapes, each token read a step of its own that sees the table as it was at some
moment since its scrape began, and proves what every reachable state keeps. `MetricsService.Service` joins the driver,
the monitor and the collector over that one history. Its calls are `Prepare`, `Unprepare`, `HostArrived`, and the two
halves of a round and of a scrape, so lifecycle operations, rounds and any number of scrapes overlap: a round may
publish between the copy a scrape works on and its reads, or between two of its reads. Each call extends one run of
the protocol by the steps `ProtocolRuns` builds from what the call did, and what the protocol promises is part of the
contract of `MetricsService.Service.FinishScrape`.

What comes from outside is a parameter or a nondeterministic choice: the clock, whether an I/O call fails (a failing
call has no effect, making a directory and setting its mode counts as one call), what a file read returns, what
the pod-resources and host sources return, the order in which maps are walked. Memory sizes, tokens and times are unbounded integers; the
64-bit bound is explicit where the code checks it (the decoder, the quota, the decimal parsers) and the int32
conversion of device names is explicit too. Utilization is a real number.

Three documented or expected properties do not hold of the code in general. Each is stated with its exact condition:

* The published device names equal the live ones after a release and a publication if and only if the released slice
  is not the last one on its card or is the one named after the card (`PlantModel.ReleaseThenSyncPublishesLive`). A
  concrete run loses the name (`PlantModel.OutOfOrderReleaseHidesCard`), and a lost name comes back only when the card
  is discovered again (`PlantModel.HiddenStaysHidden`).
* Prepare of a claim can be retried, with the same devices returned and nothing changed, whatever order it applied its
  groups of results in, if and only if the claim's groups, one for each configuration, meet a condition on the claim
  alone (`RetryRule.Retriable`): some group does not name the device of its first result again, and the head of every
  such group is named by each other such group and by no group of the other kind (`LifecycleRuns.PrepareIsIdempotent`).
  Under one configuration that is: the device of the first result is not named again; for distinct devices: there is
  one configuration. For each single order, a retry is accepted if and only if the groups that keep their shared edits
  agree on them (`LifecycleRuns.RetryReturnsTheSame`). `LifecycleRuns.SomeRetryIsRefused` is a claim that is prepared
  and then refused, `LifecycleRuns.RetryDependsOnOrder` one whose retry works under one order and is refused under
  another.
* A printed device name denotes the same device again if and only if each number in the text, taken modulo 2^32, is below
  2^31; the numbers themselves are kept if and only if they are below 2^31 (`DeviceNames.CardPrintNormalises`,
  `DeviceNames.SlicePrintNormalises`).

`dafny verify dfyconfig.toml` checks the whole project.

## Model

| member | source | states |
|---|---|---|
| `ScrapeProtocol.EverySeriesIsLive` | internal/monitor/collector.go:92-97 | In every finished scrape of every run, an exported container series is that of one sample of one domain of the snapshot; its claim stayed prepared with the snapshot's token until the scrape's own read; its labels are those of the only consumer in the last successful resolve before the observation, at most the age limit old; and its value is the one read for that domain |
| `ScrapeProtocol.ShownIffUnbroken` | internal/monitor/collector.go:84-97 | The series of a cached container sample is in the output if and only if the sample and its ownership are young enough and its claim kept one token from the snapshot to the read; so nothing other claims do can hide or revive it |
| `ScrapeProtocol.GoneStaysHidden` | internal/monitor/monitor.go:210-214 | After a claim has lost its token, no later read puts the series of an old sample of it in the output, even if the claim is prepared again |
| `ScrapeProtocol.EveryScrapeIsCoherent` | internal/monitor/collector.go:75-125 | In every finished scrape of every run, with lifecycle steps between its reads, the series, the three sources and the seven counts sent are exactly those that the snapshot, the tokens read and the ages call for; the ready count is the number of used-bytes series, the counts add up to the observed domains whose claim read a token, and no container series is exported twice |
| `ScrapeProtocol.RunKeeps` | internal/monitor/collector.go:58-125 | The invariant behind these: published observations carry their snapshot's tokens, and scrapes read tokens after it, in every reachable state |
| `ScrapeProtocol.PublishIsBacked` | internal/monitor/monitor.go:196-214 | An observation of a snapshot is coherent and carries the tokens of the snapshot's moment, however late it is published |
| `MetricsService.Service.constructor` | cmd/ascend-dra-kubeletplugin/metrics.go:94-114 | A driver and a monitor that reads its tokens start as a run of the protocol over the driver's token history |
| `MetricsService.Service.Prepare` | cmd/ascend-dra-kubeletplugin/state.go:225-300 | Prepare extends the run by token steps alone and changes nothing of the protocol's state but the token history |
| `MetricsService.Service.Unprepare` | cmd/ascend-dra-kubeletplugin/state.go:302-338 | The same for Unprepare |
| `MetricsService.Service.HostArrived` | internal/monitor/monitor.go:134-144 | A host result received between two rounds takes no step of the protocol and keeps everything joined |
| `MetricsService.Service.BeginRound` | internal/monitor/monitor.go:162-168 | A round begins exactly when none did within an interval, and its snapshot is of the token history's current moment; otherwise nothing happens |
| `MetricsService.Service.FinishRound` | internal/monitor/monitor.go:168-215 | The round's end extends the run by a resolve and a publication, which is backed by the moment of the snapshot, whatever lifecycle operations and scrapes went on since |
| `ProtocolRuns.FinishRound` | internal/monitor/monitor.go:170-215 | A round ends with a resolve if that worked and a publication of its snapshot; without a snapshot, a publication without domains |
| `MetricsService.Service.BeginScrape` | internal/monitor/collector.go:75-79 | A scrape begins as a step of the protocol that copies the published observation at this moment |
| `MetricsService.Service.FinishScrape` | internal/monitor/collector.go:80-125 | The scrape's end extends the run to one more finished scrape of what was copied at its start; it sends exactly that scrape's output, every container series in it is live and its numbers are exact, whatever lifecycle operations, rounds and other scrapes went on since it began |
| `ProtocolRuns.FinishScrape` | internal/monitor/collector.go:80-125 | A scrape that has begun ends with single reads, each at a moment since it began, and a finish |
| `TokenProtocol.RunInv` | cmd/ascend-dra-kubeletplugin/state.go:129-142 | In every state a lock-free reader can see, tokens are positive, pairwise distinct and at most the counter; between calls the table names exactly the prepared claims |
| `TokenProtocol.SameTokenIsUnbroken` | cmd/ascend-dra-kubeletplugin/state.go:129-142 | No ABA: a claim with the same token at two moments had it at every moment between |
| `TokenProtocol.TokenStaysAway` | cmd/ascend-dra-kubeletplugin/state.go:135-139 | A token handed out and not held by a claim never comes to that claim later |
| `TokenProtocol.TokenNamesOneClaim` | cmd/ascend-dra-kubeletplugin/state.go:135-139 | A token belongs to one claim for the life of the process |
| `TokenProtocol.UnbrokenMeansPrepared` | cmd/ascend-dra-kubeletplugin/state.go:129-142 | While a claim keeps its token it is prepared whenever no swap is under way |
| `TokenProtocol.OneMemberChanges` | cmd/ascend-dra-kubeletplugin/state.go:129-142 | Publishing a claim map that differs in one claim's membership changes the table at that claim only |
| `TokenProtocol.SameMembersKeepTable` | cmd/ascend-dra-kubeletplugin/state.go:127-142 | Publishing a map with the same members changes no token |
| `Lifecycle.DeviceState.SetPreparedClaims` | cmd/ascend-dra-kubeletplugin/state.go:129-142 | The two loops publish the new map by protocol steps only; kept claims keep tokens, new ones get fresh ones, removed ones lose theirs |
| `Lifecycle.DeviceState.constructor` | cmd/ascend-dra-kubeletplugin/state.go:186-222 | A restart gives every checkpointed claim a token and no other |
| `Lifecycle.DeviceState.Prepare` | cmd/ascend-dra-kubeletplugin/state.go:225-300 | Every outcome of Prepare, with its exact effect on checkpoint, specs, directories, memory and tokens, whichever I/O call fails |
| `Lifecycle.DeviceState.Retry` | cmd/ascend-dra-kubeletplugin/state.go:237-248 | A retry is incompatible exactly when the checkpointed edits carry no readable quota, and otherwise returns the checkpointed devices and changes nothing but the directory |
| `Lifecycle.DeviceState.Unprepare` | cmd/ascend-dra-kubeletplugin/state.go:302-338 | Every outcome of Unprepare with its exact effect |
| `Lifecycle.DeviceState.MetricsSnapshot` | cmd/ascend-dra-kubeletplugin/metrics.go:58-83 | The snapshot holds exactly the allocatable prepared devices, each entry with the claim's token, quota and acceptance and the device's pool, name, card and UUID, and fails exactly when one lacks its identity |
| `Lifecycle.MergeDevices` | cmd/ascend-dra-kubeletplugin/cdi.go:69-77 | In each of environment entries, device nodes, hooks and mounts the spec is as long as its devices' lists together, and every device's list stands in it right behind those of the devices before |
| `LifecycleRuns.RunKeeps` | cmd/ascend-dra-kubeletplugin/state.go:225-338 | Over every run of Prepare, Unprepare and restarts: memory equals checkpoint; a spec without checkpointed claim only where its compensating delete failed; a checkpointed claim without spec only where its Unprepare failed at the checkpoint; tokens exact |
| `ClaimSpecs.SpecLeadsToOwnDirectory` | cmd/ascend-dra-kubeletplugin/cdi.go:69-77 | Over every run: the stored spec of a checkpointed claim merges what its devices carry; if they are accepted as core devices its mounts lead to the driver files, the core runtime and the shared region, and below the claim's mount point to the directory of that claim and nowhere else; if none carries anything it is empty |
| `ClaimSpecs.PreparedSpecTells` | cmd/ascend-dra-kubeletplugin/state.go:250-285 | Whenever the devices of a new claim will be accepted again, the spec that Prepare stores tells the container, in order, the physical IDs of the cards of the surviving group, its quota and its cores |
| `ClaimSpecs.MonitorReadsOwnFile` | cmd/ascend-dra-kubeletplugin/metrics.go:107 | The path in the container told by NPU_LOCAL_SHM_PATH, with a card's physical ID behind it, is through the claim's own mount the file that the monitor reads for that claim and card, and is writable |
| `LifecycleRuns.UnpreparedLeavesNothing` | cmd/ascend-dra-kubeletplugin/state.go:302-338 | Over every run, a successful Unprepare leaves the claim in no file, without directory and token; a spec can stay only from a prepare that failed before; no other claim's files change |
| `LifecycleRuns.PrepareTouchesOneToken` | cmd/ascend-dra-kubeletplugin/state.go:225-300 | Prepare leaves every other claim's token alone, and its own unless durable membership changes |
| `LifecycleRuns.UnprepareTouchesOneToken` | cmd/ascend-dra-kubeletplugin/state.go:302-338 | The same for Unprepare |
| `LifecycleRuns.RetryReturnsTheSame` | cmd/ascend-dra-kubeletplugin/state.go:237-248 | Prepare after Prepare, for every claim with results and every order its groups were applied in: the same devices and no change if and only if some group kept its shared edits and all that did wrote the same ones, otherwise refused |
| `LifecycleRuns.PrepareIsIdempotent` | cmd/ascend-dra-kubeletplugin/state.go:237-248 | Whatever order Prepare takes, every retry whose I/O works returns the same devices and changes nothing, if and only if the claim's own groups meet the condition |
| `LifecycleRuns.EmptyClaimIsPreparedAgain` | cmd/ascend-dra-kubeletplugin/state.go:237-250 | A claim without results is stored as nil, so preparing it again is a new Prepare, which leaves the same node |
| `LifecycleRuns.TwoConfigsAreRefused` | cmd/ascend-dra-kubeletplugin/state.go:240-242 | Two distinct devices under a configuration each can be prepared, and are then refused with every I/O call working |
| `LifecycleRuns.SomeRetryIsRefused` | cmd/ascend-dra-kubeletplugin/state.go:240-242 | Such a claim with its two-step run |
| `LifecycleRuns.RetryDependsOnOrder` | cmd/ascend-dra-kubeletplugin/state.go:380-415 | A claim under two configurations with a repeated device, whose retry returns the devices under one order of the group map and is refused under the other |
| `Observe.ObserveDomains` | internal/monitor/monitor.go:217-316 | The two-pass loop gives exactly the states, samples, verdict and short files of the declarative rule: every observed domain the state it deserves, every ready one all its metrics with their values, labels and ages, and no metric of any other |
| `Observations.AllArePublished` | internal/monitor/monitor.go:304-315 | For every observed domain and each of the six container metrics: it is among the samples, with the labels of the one consumer, the value from the file or the host and the age of its source, if and only if the domain deserves to be ready and, for utilization, the host reading is valid; nothing else is among them |
| `Observations.AllAreObserved` | internal/monitor/monitor.go:229-304 | The domains observed are the first of each claim and card, at their positions, with the claim's token and the state they deserve |
| `DomainRule.StateIff` | internal/monitor/monitor.go:238-304 | Each of the seven states has its exact condition on consumers, ownership, host card, label clashes and the read of the file |
| `DomainRule.KeptMeans` | internal/monitor/monitor.go:229-237 | A domain is observed if and only if no earlier one of the snapshot has its claim and card |
| `DomainRule.ReadIsOfOwnFile` | internal/monitor/shmem.go:37-43 | A domain's read is that of its own claim's and card's file, pending when there is none, and refused for an identity that could leave the root |
| `Observe.UniqueConsumers` | internal/monitor/monitor.go:327-345 | References of one container are merged, none is lost, and no device is added that none of them had |
| `Observe.UniqueTells` | internal/monitor/monitor.go:246-252 | The length of the merged list tells unmapped, mapped and ambiguous apart, and its first entry tells whether the device is referred to |
| `Observe.CountTellsCollision` | internal/monitor/monitor.go:261-272 | A label count above one means exactly that another row has the same five labels |
| `DomainRule.ReadyIff` | internal/monitor/monitor.go:229-304 | A domain is ready if and only if it is supported, ownership is fresh, it has one distinct consumer that refers to the device, the host identity matches, no row shares its labels, and its memory read worked |
| `DomainRule.RuleStateIsSet` | internal/monitor/monitor.go:238-304 | Every observed domain gets one of the seven states |
| `DomainRule.ReadyLabelsDiffer` | internal/monitor/monitor.go:261-272 | Two ready domains never share labels |
| `DomainRule.ShortFilesMean` | internal/monitor/monitor.go:278-288 | The short-file map holds exactly the paths read short in this round, each with the start of its run |
| `DomainRule.ShortFilesExactly` | internal/monitor/monitor.go:273-288 | A round remembers exactly the files of observable, unambiguous domains that it found short, each with the time already remembered or else its own |
| `DomainRule.NoInvalidMeans` | internal/monitor/monitor.go:293-294 | The shared-memory verdict is good exactly when no domain is invalid |
| `DomainRule.PathNamesDomain` | internal/monitor/shmem.go:37-43 | Different domains with valid identities read different files |
| `Observations.ObservedIsCoherent` | internal/monitor/monitor.go:229-315 | Every observation the rule gives has one used-bytes sample per ready domain, in order, samples of ready domains only, and no repeated container series |
| `Observations.SampleIsOwned` | internal/monitor/monitor.go:239-266 | A container sample names the single consumer of its claim, which referred to the device while the resolve was fresh |
| `Observations.SamplesDistinct` | internal/monitor/monitor.go:261-315 | No two container samples share metric and labels |
| `Observations.UsedAreReady` | internal/monitor/monitor.go:304-314 | The used-bytes samples and the ready domains are the same list |
| `Observations.UsedBytesAreTheSum` | internal/monitor/monitor.go:304-314 | The used bytes a domain exports are the exact sum over the live slots of one whole read of its file |
| `Monitor.Monitor.Start` | internal/monitor/monitor.go:50-68 | Start fails exactly for an invalid configuration, else for a missing source, else for a listener that cannot bind, and otherwise gives a monitor before its first round |
| `Monitor.Monitor.HostArrived` | internal/monitor/monitor.go:134-144 | A failed poll clears the flag, keeps the freshness stamp, and keeps the devices unless it brings some |
| `Monitor.Monitor.Refresh` | internal/monitor/monitor.go:162-168 | A round starts exactly when an interval has passed since the last start; a skipped attempt changes nothing |
| `Monitor.Monitor.Sample` | internal/monitor/monitor.go:170-215 | One round with failing or working sources: the published observation, the stamps, the ownership and the short files it leaves |
| `Monitor.RoundPublishes` | internal/monitor/monitor.go:170-215 | A round publishes every domain with the state it deserves, the host samples while their poll is young and all metrics of ready domains; it reports workload by the resolve, devices by the last poll and shared memory exactly when there is a snapshot without an invalid domain; and it stamps the resolve and the shared memory with its own time when they succeeded and leaves every other stamp |
| `Monitor.WorldMeans` | internal/monitor/monitor.go:182-196 | A round sees a card through its last reading, and only while the poll that gave it is at most the age limit old |
| `Monitor.RoundKeeps` | internal/monitor/monitor.go:162-215 | Every round keeps: starts spaced, ownership that of the last successful resolve, short files those of the last observing round, the cache that of the last round |
| `Monitor.HostSamplesAt` | internal/monitor/monitor.go:183-195 | The host samples are those of each device in list order, after as many as the devices before it have valid readings |
| `Monitor.HostReadings` | internal/monitor/monitor.go:187-193 | A device has a memory sample exactly when its memory was read and a utilization sample exactly when that was read, with its index, UUID and type as labels and the age of the poll |
| `Monitor.HostMapMeans` | internal/monitor/monitor.go:183-186 | The map has exactly the listed cards, each with its last reading |
| `SampleRuns.StartsSpan` | internal/monitor/monitor.go:162-168 | k starts span at least k - 1 intervals |
| `SampleRuns.RecordedIsRunStart` | internal/monitor/monitor.go:278-288 | The recorded time of a short path is the first round of the current unbroken run of short reads, over any run of rounds |
| `SampleRuns.RunStartMeans` | internal/monitor/monitor.go:278-288 | That run is unbroken and begins after a round that did not read the path short |
| `SampleRuns.ShortIsPendingOnce` | internal/monitor/monitor.go:284-294 | A short file is pending exactly in the first round of its run and invalid in every later one; a recovery starts over |
| `SampleRuns.ExportedIsOwned` | internal/monitor/collector.go:80-93 | A shown container series comes from the last successful resolve, at most the age limit before the scrape, however fresh the memory read is |
| `Collector.Collector.Collect` | internal/monitor/collector.go:75-125 | A scrape sends exactly what the rule says for the tokens it read, each claim's read once and during the scrape, whatever lifecycle steps fall between; so its series, sources and seven counts are exact |
| `ExportRule.CountsAreExact` | internal/monitor/collector.go:110-124 | Each of the seven states is counted once. Stale counts the positions whose claim read a token and where the observation is too old, the token is not the snapshot's, ownership is too old for a domain that is not unsupported, or the domain was stale; every other state counts the positions, still current, that were in that state |
| `ExportRule.SeriesAreExact` | internal/monitor/collector.go:92-97 | A business series is sent if and only if it is the description, value and labels of some cached sample that is young enough and, for a container, under fresh ownership with a nonzero token that the read confirms |
| `ExportRule.SourcesAreExact` | internal/monitor/collector.go:98-109 | Each source has one success and one stamp: up if and only if it was up when cached and its last success is young enough; the stamp is that success in whole seconds, or zero |
| `ExportRule.OutputIsExact` | internal/monitor/collector.go:75-125 | A scrape sends series, source metrics and counts, each exact, and nothing else |
| `Collector.Collector.Generation` | internal/monitor/collector.go:84-91 | The memo answers with the first token read and never loses an answer |
| `Collector.Collector.SendSamples` | internal/monitor/collector.go:92-97 | The filter loop, with its lazy reads, sends exactly the shown samples |
| `ScrapeRule.SourcesReported` | internal/monitor/collector.go:98-109 | Each of the three sources is reported once, up exactly when its latest collection worked and its last success is young enough, stamped with that success in whole seconds, or zero before the first |
| `Collector.Collector.CountDomains` | internal/monitor/collector.go:110-121 | The count of every state is the number of observed positions in it by the tokens read, with the memo extended consistently |
| `Collector.MemoGrows` | internal/monitor/collector.go:83-97 | Tokens read later in a scrape do not change what was shown earlier in it |
| `Collector.TokenReader.Load` | cmd/ascend-dra-kubeletplugin/metrics.go:87-92 | A load returns the token, or zero, of some state of the driver's history at or after the last load, after any number of lifecycle operations |
| `Collector.DeviceTypeNormalises` | internal/monitor/collector.go:127-132 | The exported device type has a vendor prefix; one that has it is unchanged, and any other gets "Ascend-" in front |
| `ScrapeRule.ReadyMatchesSeries` | internal/monitor/collector.go:92-124 | In one scrape exactly one ready count is exported, and it is the number of used-bytes series |
| `ScrapeRule.CountsSumToAlive` | internal/monitor/collector.go:110-124 | In one scrape the seven counts add up to the domains whose claim read a token |
| `ScrapeRule.SeriesNeverRepeat` | internal/monitor/collector.go:92-97 | No container series repeats metric and labels within a scrape |
| `ScrapeRule.ShownHasSeries` | internal/monitor/collector.go:92-97 | Every sample that passes the filter is exported |
| `VnpuManager.VNPUManager.AllocateSlice` | cmd/ascend-dra-kubeletplugin/state.go:883-895 | Allocation on the objects is exactly an allocation step of the plant model, for every map order; a failure changes nothing |
| `VnpuManager.VNPUManager.ReleaseSlice` | cmd/ascend-dra-kubeletplugin/vnpu.go:215-271 | Release on the objects is exactly a release step, including both resets and the early return |
| `VnpuManager.VNPUManager.InitPhysicalNPU` | cmd/ascend-dra-kubeletplugin/vnpu.go:179-212 | A new card starts whole; a known one is left alone |
| `VnpuManager.AllocateFullCard` | cmd/ascend-dra-kubeletplugin/state.go:909-920 | The offered slice moves to the allocated list under its own type |
| `VnpuManager.AllocateByTemplate` | cmd/ascend-dra-kubeletplugin/state.go:923-986 | The slice moves under a best-fit template, a remainder slice with the next index is offered and reported; with no fit nothing changes |
| `VnpuManager.ChooseTemplate` | cmd/ascend-dra-kubeletplugin/state.go:928-942 | The loop finds a best fit, or none exactly when none fits, for every map order |
| `VnpuManager.UpdateSupportTemplates` | cmd/ascend-dra-kubeletplugin/vnpu.go:322-336 | All templates on an idle card; otherwise a template is supported exactly when its name starts with vir01, as configured |
| `VnpuManager.VNPUManager.FindAllocatedSlice` | cmd/ascend-dra-kubeletplugin/vnpu.go:289-298 | Finds a holder of the name or none exists |
| `VnpuManager.VNPUManager.FindByAvailableSlice` | cmd/ascend-dra-kubeletplugin/state.go:897-906 | Finds a card that offers the name or none does |
| `VnpuManager.DeviceTable.UpdateAllocatableDevice` | cmd/ascend-dra-kubeletplugin/state.go:1156-1203 | Adds a missing device with the largest supported attributes and leaves an existing one alone |
| `VnpuManager.ClonePhysicalNPU` | cmd/ascend-dra-kubeletplugin/vnpu.go:348-367 | A snapshot with the same value that shares no slice object with the card |
| `VnpuManager.GetAvailableDeviceNames` | cmd/ascend-dra-kubeletplugin/vnpu.go:300-319 | In core mode or without a manager exactly the names in the table, otherwise exactly the names of live slices |
| `VnpuManager.SyncAllocatable` | cmd/ascend-dra-kubeletplugin/driver.go:179-197 | In core mode the table stays, otherwise it keeps exactly its live names; every device left is published once |
| `SliceModel.BestFitExists` | cmd/ascend-dra-kubeletplugin/state.go:928-942 | A best fit exists if and only if some supported template fits with an excess below the limit |
| `SliceModel.ExactRequestIsExact` | cmd/ascend-dra-kubeletplugin/state.go:930-938 | Asking for a supported template's attributes yields exactly those attributes |
| `SliceModel.CardInvMeans` | cmd/ascend-dra-kubeletplugin/state.go:73-84 | At most one slice on offer, names distinct and below the next index, flags as the lists, an idle card fresh |
| `SliceModel.AllocateKeepsCardInv` | cmd/ascend-dra-kubeletplugin/state.go:909-986 | Every allocation keeps the card invariant |
| `SliceModel.ReleaseKeepsCardInv` | cmd/ascend-dra-kubeletplugin/vnpu.go:224-270 | Every release keeps the card invariant |
| `SliceModel.FullCardResetIsSafe` | cmd/ascend-dra-kubeletplugin/vnpu.go:227-239 | The full-card reset drops no other holder, and skipping the template update leaves the fresh card |
| `SliceModel.AllocateThenRelease` | cmd/ascend-dra-kubeletplugin/vnpu.go:215-271 | Allocating and releasing restores the allocated list, and the whole card when it was idle |
| `SliceModel.AnyReleaseOrderRestores` | cmd/ascend-dra-kubeletplugin/vnpu.go:224-270 | Releasing all held slices in any order restores what InitPhysicalNPU built |
| `SliceModel.SliceNameInjective` | cmd/ascend-dra-kubeletplugin/state.go:966 | Slice names of different cards or indices differ |
| `PlantModel.RunKeeps` | cmd/ascend-dra-kubeletplugin/state.go:883-986 | Over every run of discovery, allocation, release and publication, the card invariant holds on every card and every slice with index 1 or more is in the table |
| `CardRuns.AllocationGives` | cmd/ascend-dra-kubeletplugin/state.go:909-986 | An allocation takes the one slice on offer, which has the name asked for. Whole: it keeps its type and nothing is on offer. By template: it becomes a vNPU slice named after a supported template that serves the request with the least excess, the next index is on offer and published with the largest supported attributes, and no other table entry changes |
| `CardRuns.RefusalMeans` | cmd/ascend-dra-kubeletplugin/state.go:923-946 | An allocation that gives nothing changes nothing, was by template, and no supported template serves it |
| `CardRuns.ReleaseGives` | cmd/ascend-dra-kubeletplugin/vnpu.go:215-271 | A release takes its slice off the card; with others held the next index is on offer and published and a template is supported if and only if it is configured and named vir01...; otherwise the card is as discovery builds it; no other card changes |
| `CardRuns.HeldStaysHeld` | cmd/ascend-dra-kubeletplugin/vnpu.go:215-271 | Over every run, an allocated slice stays on its card exactly as it was given until it is released itself, whatever else is discovered, allocated, released or published, and until then no card offers its name: nothing is lost or handed out twice |
| `CardRuns.SplitCardGivesVir01` | cmd/ascend-dra-kubeletplugin/vnpu.go:322-336 | Over every run, from a release that leaves others held until nobody holds the card, every allocation by template on it is named after the configured vir01... template that serves it with the least excess, or fails exactly when none serves it |
| `PlantModel.OwnerIsUnique` | cmd/ascend-dra-kubeletplugin/state.go:897-906 | A slice name is carried by at most one card, so the lookups agree for every map order |
| `PlantModel.PositionIsUnique` | cmd/ascend-dra-kubeletplugin/vnpu.go:289-298 | A held name has one position and is not on offer |
| `PlantModel.ReleaseIsDeterministic` | cmd/ascend-dra-kubeletplugin/vnpu.go:289-298 | A release has one outcome, cards and table, whatever the map order |
| `PlantModel.IdleCardIsFresh` | cmd/ascend-dra-kubeletplugin/vnpu.go:224-270 | After any run a card nobody holds is the one InitPhysicalNPU built: one whole slice with the card's name, all templates, next index 1 |
| `PlantModel.SyncKeeps` | cmd/ascend-dra-kubeletplugin/driver.go:179-191 | A publication drops exactly the names that are not live, leaves every other entry as it was, and still has every split slice |
| `PlantModel.AllocateThenSyncPublishesLive` | cmd/ascend-dra-kubeletplugin/state.go:975-979 | Allocation and publication keep published and live names equal |
| `PlantModel.ReleaseThenSyncPublishesLive` | cmd/ascend-dra-kubeletplugin/vnpu.go:241-266 | Release and publication do so if and only if the slice is not the last one of its card or is the one named after it |
| `PlantModel.OutOfOrderReleaseHidesCard` | cmd/ascend-dra-kubeletplugin/vnpu.go:241-250 | A run of seven operations after which a free card is not in the published table |
| `PlantModel.HiddenStaysHidden` | cmd/ascend-dra-kubeletplugin/vnpu.go:241-266 | Over every run, a card's own name that is missing from the table stays missing until the card is discovered again |
| `Shmem.DecodeMemory` | internal/monitor/shmem.go:84-120 | Success if and only if both reads are long enough, initialized and in agreement, the quota is nonzero and the exact sum fits in 64 bits; then that sum; and exactly which error otherwise |
| `Shmem.SumSlots` | internal/monitor/shmem.go:104-119 | The slot loop, with its early exits, against the unbounded sum |
| `Shmem.ReadMemory` | internal/monitor/shmem.go:48-82 | Succeeds exactly when the first pair of reads decodes, or moved and the second decodes; the retry error never leaves it |
| `Shmem.DecodesWhatWasLaidOut` | internal/monitor/shmem.go:84-120 | For two reads of any two memory contents: they decode if and only if both were initialized with the same nonzero quota and the same owner in each of the 64 slots and the live slots of the first fit in 64 bits; then to that quota and sum |
| `Shmem.TornReadsAreTold` | internal/monitor/shmem.go:96-119 | The reader tries again if and only if the first content was initialized and flag or quota changed or, before an overflow, a slot changed hands; it reports an overflow if and only if that comes first |
| `ConfigResolution.GetOpaqueDeviceConfigs` | cmd/ascend-dra-kubeletplugin/state.go:827-880 | The result is the stable class-then-claim partition filtered by driver, or the error |
| `ConfigResolution.Choose` | cmd/ascend-dra-kubeletplugin/state.go:381-386 | The backward lookup finds the last matching configuration |
| `ConfigResolution.ChosenExistsOnce` | cmd/ascend-dra-kubeletplugin/state.go:355-361 | With the default in front, exactly one configuration is chosen |
| `ConfigResolution.Precedence` | cmd/ascend-dra-kubeletplugin/state.go:816-826 | The last applicable claim configuration beats every class configuration, and the default applies only when none does |
| `PrepareRule.ConfigIsByPrecedence` | cmd/ascend-dra-kubeletplugin/state.go:350-390 | The configuration prepareDevices applies to a result is the last claim configuration of the driver that applies to its request, else the last class configuration, else time slicing in default intervals |
| `CorePrepare.PrepareDevices` | cmd/ascend-dra-kubeletplugin/state.go:340-444 | Succeeds exactly when the claim can be prepared, and then the devices are those of some walk over the groups |
| `PrepareRule.CanPrepareIff` | cmd/ascend-dra-kubeletplugin/state.go:340-423 | A claim can be prepared if and only if it is allocated, its sources and own configurations are readable, every result is on a known card under an accepted configuration, results under one configuration consume the same amounts, and the first result under each has whole MiB and one to a hundred cores |
| `PrepareRule.AcceptableIff` | api/project-hami.io/resource/npu/v1alpha1/validate.go:24-79 | A configuration is accepted exactly with no sharing, time slicing with one of the four intervals or none, or space partitioning with a count that is not negative or none |
| `WrittenDevices.DevicesNameResults` | cmd/ascend-dra-kubeletplugin/state.go:425-441 | The prepared devices name request, pool and device of every allocation result, each once |
| `WrittenDevices.DeviceCarries` | cmd/ascend-dra-kubeletplugin/state.go:526-587 | A device that heads a surviving group carries that group's six variables (its cards' physical IDs in order, its quota, its cores and three fixed ones) and the seven core mounts with the claim's directory; every other device carries nothing |
| `WrittenDevices.SurvivorIsTold` | cmd/ascend-dra-kubeletplugin/state.go:566-601 | When the groups that keep their shared edits agree, the variables read from all devices are that group's: ASCEND_VISIBLE_DEVICES, cut at its commas, is in order the physical IDs of the cards of its results, and the two limits parse back to the capacities of its first result |
| `MountPaths.CoreMountsLead` | cmd/ascend-dra-kubeletplugin/state.go:664-697 | Every path the core runtime uses in a container, and every file below, leads to one host path: driver files and the runtime read-only, the shared region and the claim's directory writable |
| `CorePrepare.PlanExists` | cmd/ascend-dra-kubeletplugin/state.go:340-444 | Whenever that condition holds there is such a walk for every order in which the groups may be applied |
| `CorePrepare.GroupResults` | cmd/ascend-dra-kubeletplugin/state.go:365-387 | Every result is in the group of its chosen configuration, in order, once |
| `CorePrepare.ApplyLibvNPUConfig` | cmd/ascend-dra-kubeletplugin/state.go:526-587 | Succeeds exactly when the group is applicable; the device of the first result carries the shared edits and every device named later empty ones |
| `CorePrepare.ApplyGroups` | cmd/ascend-dra-kubeletplugin/state.go:392-423 | Succeeds exactly when every group is acceptable and applicable, and in whatever map order leaves each device the edits of the last group that names it |
| `CorePrepare.ValidateAllocationResult` | cmd/ascend-dra-kubeletplugin/state.go:638-652 | Passes exactly when all results that consume a capacity consume the same amount, whether AsInt64 can return it or not |
| `CorePrepare.CapacityValueMeans` | cmd/ascend-dra-kubeletplugin/state.go:604-636 | A result counts with the first of the names that it consumes; only when it consumes none, with the first that its device offers; and with nothing when that is no int64 or there is none |
| `CorePrepare.PreparedIsPermutation` | cmd/ascend-dra-kubeletplugin/state.go:425-441 | The prepared devices are a permutation of the allocation results, for every map order |
| `RetryRule.OneConfigIsAccepted` | cmd/ascend-dra-kubeletplugin/state.go:566-586 | Under one configuration the quota reads back, to the byte, exactly when the device of the first result is not named again |
| `RetryRule.DisagreementIsRejected` | cmd/ascend-dra-kubeletplugin/metrics.go:33-35 | Two groups that both keep their shared edits and wrote different ones make a retry refused |
| `RetryRule.SoleSurvivorAgrees` | cmd/ascend-dra-kubeletplugin/state.go:594-601 | On cards with distinct physical IDs the groups that keep their shared edits agree only if there is exactly one |
| `RetryRule.DistinctSurvives` | cmd/ascend-dra-kubeletplugin/state.go:419-422 | For distinct devices one group keeps its shared edits if and only if one configuration applies to every result, whatever the order |
| `RetryRule.RetryIsAccepted` | cmd/ascend-dra-kubeletplugin/metrics.go:23-56 | For every claim and every device table, what Prepare writes is accepted on retry if and only if some group keeps its shared edits and all that do wrote the same ones, and the quota read back is then theirs, to the byte |
| `RetryRule.OneInEveryOrderSurvives` | cmd/ascend-dra-kubeletplugin/state.go:404-425 | Under the condition exactly one group keeps its shared edits, in every order of the group map |
| `RetryRule.SomeOrderFails` | cmd/ascend-dra-kubeletplugin/state.go:404-425 | Without the condition there is an order that leaves no such group, or two |
| `RetryRule.RetriableInEveryOrder` | cmd/ascend-dra-kubeletplugin/metrics.go:23-56 | A preparable claim meets the condition if and only if the devices Prepare may give are accepted again in every order |
| `CoreEnv.PreparedCoreQuota` | cmd/ascend-dra-kubeletplugin/metrics.go:23-56 | Accepts exactly the variables and mount specified, rejecting conflicts and legacy variables; the first result is the parsed number times one MiB modulo 2^64, or zero after a conflict or a legacy variable |
| `WrittenDevices.QuotaIff` | cmd/ascend-dra-kubeletplugin/metrics.go:23-56 | Devices are accepted with a quota if and only if their entries give no variable two values, set none of the four old variables, set the quota to that number of MiB, the cores to a number from 1 to 100 and the policy and the two paths to the core runtime's, and one device mounts the runtime |
| `WrittenDevices.WriterAgreesWithReader` | cmd/ascend-dra-kubeletplugin/state.go:654-663 | For whole MiB within 64 bits, Prepare refuses exactly the quota and cores that would not be accepted again |
| `CoreEnv.AcceptedQuotaIsExact` | cmd/ascend-dra-kubeletplugin/metrics.go:50-55 | For accepted devices that number is the byte quota itself: positive, a whole number of MiB, and within 64 bits |
| `CoreEnv.ReadEntriesMeans` | cmd/ascend-dra-kubeletplugin/metrics.go:30-38 | Reading fails exactly when two entries give one variable two values, and otherwise gives every binding |
| `CoreEnv.VariablesReadBack` | cmd/ascend-dra-kubeletplugin/state.go:566-579 | The six variables written are read back as written |
| `CoreEnv.WrittenIsCompatible` | cmd/ascend-dra-kubeletplugin/metrics.go:45-55 | What Prepare writes passes every check of the reader, and the quota parses back |
| `CoreEnv.CutEntry` | cmd/ascend-dra-kubeletplugin/metrics.go:31 | Cutting a written entry gives its key and value |
| `CoreEnv.CutMeans` | cmd/ascend-dra-kubeletplugin/metrics.go:31 | An entry is cut at its first separator, and if and only if it has one |
| `DeviceNames.Accepted` | pkg/npuutil/device.go:39-72 | Exactly the prefix with one or two parsable numbers is accepted |
| `DeviceNames.ParsePrinted` | pkg/npuutil/device.go:95-101 | Parsing a printed name gives it back for all non-negative int32 IDs |
| `DeviceNames.CardPrintNormalises` | pkg/npuutil/device.go:39-101 | A card name round-trips if and only if its number modulo 2^32 is below 2^31; the number is kept if and only if it is below 2^31, and is then printed in shortest form; the text is unchanged if and only if it was in that form |
| `DeviceNames.SlicePrintNormalises` | pkg/npuutil/device.go:39-101 | The same for both numbers of a slice name; a second number that is zero goes away |
| `DeviceNames.PrintNormalises` | pkg/npuutil/device.go:39-101 | Every accepted name is of one of the two forms, its text tells whether it round-trips, and if it does printing twice is printing once |
| `DeviceNames.WrappedNamesDoNotRoundTrip` | pkg/npuutil/device.go:68-71 | Every ID in the upper half of uint32 is accepted as negative and its printed form rejected |
| `DeviceNames.EnvSuffixInjective` | pkg/npuutil/device.go:88-93 | Different devices have different environment suffixes |
| `Text.SplitJoin` | pkg/npuutil/device.go:50 | Splitting loses nothing and leaves no separator in a part |
| `Text.JoinSplit` | cmd/ascend-dra-kubeletplugin/state.go:568 | A joined list whose parts have no separator is read back part by part |
| `Decimal.ParseUint64Printed` | cmd/ascend-dra-kubeletplugin/metrics.go:50-51 | A printed number within 64 bits parses back |

## Left out

- RetryRule.RetriableInEveryOrder: for devices with distinct physical IDs, as discovery of one device per card gives them; so are LifecycleRuns.PrepareIsIdempotent and RetryRule.SoleSurvivorAgrees.
- MetricsService.Service.FinishRound: what a round reads is recorded when it ends; until then only the loop that runs the rounds sees it.
- CorePrepare.ApplyGroups: normalization and validation of a driver configuration are one predicate over its sharing settings; what normalization fills in is not kept.
- Observe.ObserveDomains: a file read is a function of its path within one round; the two attempts on one path are modelled in `Shmem`.
- DomainRule.PathNamesDomain: for paths joined with a slash, as the file path library does for a clean root; path cleaning is not modelled.
- Collector.TokenReader.Load: a scrape's reads see states of the history in the order in which they are made, as atomic loads of one table do.
- VnpuManager.VNPUManager.AllocateSlice: operations of the manager run one after another, as its lock makes them; the manager without callback is not modelled.
- Pointers from samples to domain observations are positions in the observation's list, so aliasing between two observations is not modelled.
- Go integers and tokens do not wrap at 64 bits except where the code checks the bound; floating-point rounding of exported values is not modelled.
- Logging and the map of reported messages, which only decide what is logged.
- Traditional vNPU mode beyond the manager and the published table: the forward template scan of `allocateVNPUSlice`, slices held by claims, and the environment it writes.
- Capacity conservation of a card: the code keeps no core or memory budget.
- Process crashes in the middle of an operation and partial effects of a failed I/O call.
- gRPC, HTTP, the Prometheus registry, Kubernetes clients, device classes, health checks, the CDI library, JSON encoding, hardware queries, template text parsing, flags and the tester program.
