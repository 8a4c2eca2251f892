# Mesos-DNS in Dafny

Mesos-DNS turns the state of a Mesos master into DNS records, serves them through a
built-in resolver, and mirrors them into Consul. This project models the parts of it that
compute something intricate and proves what they promise, for all inputs and all runs.

`dafny verify dfyconfig.toml` checks everything.

## What is proved

**The Consul agent loop** (`ConsulRecords`, `ConsulAgent`, `ConsulConvergence`,
`ConsulContents`, `ConsulMachine`, `ConsulRepair`, `ConsulLeaks`). The loop is an object with its cache, and also a state
machine whose steps are single calls to Consul that may succeed, fail, or fail after taking
effect, interleaved with other writers.
- In every state of every run a healthy agent's cache is what Consul holds (`SafetyOverRuns`).
- Two failure-free rounds on one record set make the cache equal it, from every cache, if
  and only if records with one identifier have equal content and the tags of each service
  are duplicate-free or all equal (`AlwaysConvergesExactlyWhen`). One round does exactly when
  no identifier was cached with other content, because an identifier that changed is added
  and then removed in the same round (`OneRoundExactly`).
- What Consul holds afterwards is known entry by entry: the wanted registrations and those
  that the agent had not cached (`TwoRoundsLeaveExactly`). With a pull first these are
  exactly the wanted services under the prefix and everyone else's untouched
  (`TwoRoundsFixConsul`), for good (`SteadyForever`). Over every run, a reconnection after
  at most `CacheRefresh - 1` skipped record sets and two rounds repair Consul, while others
  write to entries that are not the agent's business (`RepairOverRuns`).
- Findings: checks are not pulled, so those forgotten on reconnection stay for good
  (`ForgottenForever`), and such states are reachable (`LeakedCheckReachable`); with
  `CacheOnly` every refresh forgets everything, so that services stay for good too
  (`CacheOnlyRemovesNothing`, `CacheOnlyKeepsForever`); the zero padding of the pulled list
  costs the identifier `""` its cache entry exactly when a service is listed
  (`PullKeepsConvergedExactlyWhen`), and createHealthChecks does produce that identifier for
  an unknown endpoint; a service whose whole identifier is the prefix makes the pull panic;
  a change of nothing but a check's notes or of the order of tags is never noticed
  (`NotesChangeUnnoticed`), so convergence is up to these, and cache and Consul hold a
  registration to the letter exactly when it was not cached with such a change only
  (`NotesExactlyWhen`, `LetterInConsul`).

**The record generator** (`Chains`, `GeneratorSpec`, `Generator`, `TaskRecords`,
`MasterNumbering`, `LeaderRecords`, `PublishedNames`, `Enumeration`, `OrderIndependence`,
`SrvIntegrity`, `SrvAddresses`, `Zone`). The nested
loops and in-place slice chains are proved against lists of records, and the lists against
declarative rules: the final records are exactly those of four rules (`ZoneMeaning`), and
these are spelled out from the fields of the state (`FrameworkRecordsRead`,
`SlaveRecordsRead`, `MastersPublished`, `TaskPhaseRead`). The
maps do not depend on the order of the input (`OrderDoesNotMatter`), the enumeration data
conserves the task records (`EnumerationConserved`), numbered masters are a bijection
(`MasterBijection`), every SRV target resolves (`SrvTargetsResolve`), given names that nobody
shares exactly when the addresses are known (`ResolvedExactlyWhen`), and is read back as
written if and only if the published ports are plain (`ZoneReadsBackExactlyWhen`), so that an
SRV query on the generated maps comes with an address for every target (`AnswerFromZone`).

**Labels and the Mesos state** (`Labels`, `LabelBuffer`, `MesosState`, `AddressSources`,
`Text`, `Sequences`, `HostPort`). Label mangling is characterised with the ways in which it departs from its RFCs:
the refill can end in a dash, it can take in zero bytes from the spare end of the buffer, and
its slice can reach out of range; each with the exact condition on the name
(`EndsInDashExactlyWhen`, `NulExactlyWhen`, `PanicsExactlyWhen`).

**The resolver** (`Shuffle`, `Truncate`, `Answers`). The shuffle is a bijection between
choice sequences and permutations. Truncation keeps the answers of the last probe of its
bisection, which need not fit; `KeptFitsExactlyWhen` says when they do. Name errors are
returned exactly for recordless names and types other than SOA, NS, SRV and AAAA.

**The master detector** (`MasterDetector`). Its list is a function of the callback history.

## Assumptions

- Consul is a map from identifier to registration, for services and checks separately. A
  call that takes effect changes that one entry and nothing else.
- Other writers to Consul leave entries alone that the agent has cached.
- Hostname lookup, hashing, IP parsing, lower-casing and the label function inside the
  generator are parameters. Random numbers, call outcomes and map iteration order are
  parameters or arbitrary choices.
- bytes.Map returns a slice of a zeroed buffer that is as long as the name in bytes.
- The length of a DNS message is any function that does not decrease with more records.

## Where the documentation differs

The model follows the code. docs/docs/naming.md:107 promises `_master._tcp` and
`_master._udp` SRV records, which the code does not make (`NoMasterServices`); docs/docs/naming.md:116 says
queries of other types return NXDOMAIN, while the code answers AAAA, and any type on a name
that has records, with no data; the comment at resolvers/builtin/resolver.go:424-426 says
truncation removes answers until the message fits.

## Model

| member | source | states |
|---|---|---|
| ConsulRecords.CompareService | resolvers/consul/utils.go:85-116 | the nested tag loops decide equality of the fields, equal tag counts and inclusion of the old tags in the new |
| ConsulRecords.CompareServiceMeaning | resolvers/consul/utils.go:85-116 | on a duplicate-free old tag list the comparison holds if and only if the services are equal up to tag order |
| ConsulRecords.OneWayMeaningExactlyWhen | resolvers/consul/utils.go:85-116 | every service that matches an old one equals it up to tag order if and only if the old tags are duplicate-free |
| ConsulRecords.TwoWayMeaningExactlyWhen | resolvers/consul/utils.go:85-116 | every service that matches another in both directions equals it up to tag order if and only if that one's tags are duplicate-free or all equal |
| ConsulRecords.CompareServiceEquivalence | resolvers/consul/utils.go:85-116 | on duplicate-free tags the comparison is reflexive, symmetric and transitive and means equal fields and equal tag sets |
| ConsulRecords.CompareServiceNotSymmetric | resolvers/consul/utils.go:99-114 | with a repeated tag the two directions of the comparison disagree |
| ConsulRecords.SymmetricExactlyWhen | resolvers/consul/utils.go:85-116 | the comparison with a service is symmetric if and only if its tags are duplicate-free |
| ConsulRecords.RepeatedTagsHideChange | resolvers/consul/utils.go:99-114 | with repeated tags two different services match in both directions |
| ConsulRecords.GetDeltaServices | resolvers/consul/utils.go:167-184 | the loops return the new services that match no old one, stamped with the action |
| ConsulRecords.GetDeltaChecks | resolvers/consul/utils.go:187-203 | the loops return the new checks that match no old one, stamped with the action |
| ConsulRecords.Partition | resolvers/consul/utils.go:141-157 | the partition loops separate services and checks in order and drop records that have neither |
| ConsulRecords.GetDeltaRecords | resolvers/consul/utils.go:135-164 | the delta is the services' delta followed by the checks' delta |
| ConsulRecords.DeltaSound | resolvers/consul/utils.go:135-203 | every delta record is a live new record that matches no old record of its kind |
| ConsulRecords.DeltaComplete | resolvers/consul/utils.go:135-203 | every live new record without a match is in the delta, whatever zero padding surrounds it |
| ConsulAgent.RecordCache.UpdateCache | resolvers/consul/cache.go:12-32 | adds or deletes the entry under the registration's identifier and nothing else, and keeps the cache valid |
| ConsulAgent.RecordCache.CachedRecords | resolvers/consul/cache.go:35-43 | lists every cached record, in any order, behind as many zero records |
| ConsulAgent.AgentServiceRecords | resolvers/consul/consul.go:326-366 | returns a zero record for each service and then one record for each service whose identifier goes on with a colon behind the prefix, no other and no identifier twice; panics exactly when the prefix itself is registered |
| ConsulAgent.OwnedMeans | resolvers/consul/consul.go:339-342 | a service is ours if and only if the prefix has no colon and the identifier is the prefix or goes on with a colon behind it |
| ConsulAgent.PulledRecordMeans | resolvers/consul/consul.go:345-362 | a pulled record carries the service, its address, and as slave the part of the identifier between the first two colons |
| ConsulAgent.AddAllPulled | resolvers/consul/consul.go:167-169 | writing the pulled records over the cache in any order gives the same cache |
| ConsulAgent.AgentLoop.Pull | resolvers/consul/consul.go:163-169 | the cache becomes the old one overwritten with the owned services of Consul |
| ConsulAgent.AgentLoop.Refresh | resolvers/consul/consul.go:144-171 | retry, crash and refreshed state of the block at the top of the loop, for every outcome of connecting and pulling |
| ConsulAgent.AgentLoop.ApplyOne | resolvers/consul/consul.go:182-230 | one turn of the delta loop: skipped when unhealthy, otherwise the call's effect, the lost health and the cache update, which happens even on failure |
| ConsulAgent.CallMeans | resolvers/consul/consul.go:182-230 | what each outcome of a call does to health, cache, services and checks: the cache takes the record over in any case |
| ConsulAgent.LostCallBreaks | resolvers/consul/consul.go:190-210 | a lost registration breaks the agreement unless Consul held the same registration before |
| ConsulAgent.AgentLoop.ComputeDelta | resolvers/consul/consul.go:177-180 | both deltas are computed from the same cache, adds first |
| ConsulAgent.AgentLoop.ApplyDelta | resolvers/consul/consul.go:182-230 | the delta loop applies the records in order under arbitrary call outcomes |
| ConsulAgent.AgentLoop.Process | resolvers/consul/consul.go:174-230 | a received record set counts and is applied as the delta computed from the cache listing |
| ConsulAgent.AgentLoop.Turn | resolvers/consul/consul.go:143-230 | one pass of the loop: a refresh when the count is a multiple of CacheRefresh, a retry without connection, the crash, and otherwise the round |
| ConsulAgent.DeltaIsLive | resolvers/consul/consul.go:177-228 | padding never reaches a delta, so every delta record is a typed add or remove |
| ConsulConvergence.RoundCacheAt | resolvers/consul/consul.go:177-230 | at each identifier a clean round removes, else adds, else keeps the cached record |
| ConsulConvergence.WantedAfterRound | resolvers/consul/consul.go:177-230 | after one clean round a wanted identifier is gone if its content changed and otherwise holds the wanted content |
| ConsulConvergence.UnwantedAfterRound | resolvers/consul/consul.go:177-230 | after one clean round an unwanted identifier keeps no registration |
| ConsulConvergence.CleanRoundExists | resolvers/consul/consul.go:177-230 | from every valid cache a clean round on every record set is possible |
| ConsulConvergence.OneRoundExactly | resolvers/consul/consul.go:177-230 | one clean round makes the cache equal the record set if and only if no wanted identifier was cached with other content |
| ConsulConvergence.TwoRoundsConverge | resolvers/consul/consul.go:173-230 | from any cache two clean rounds on the same set make the cache equal it up to tag order and notes |
| ConsulConvergence.AlwaysConvergesExactlyWhen | resolvers/consul/consul.go:173-230 | two clean rounds converge from every cache if and only if records of one identifier have equal content and every service's tags are duplicate-free or all equal |
| ConsulConvergence.ConvergedNeedsOneContent | resolvers/consul/cache.go:17-30 | a cache keyed by identifier can equal a record set only if records with one identifier have equal content |
| ConsulConvergence.LetterExactlyWhen | resolvers/consul/utils.go:85-133 | after two clean rounds the cache holds a wanted registration, tag order and notes included, if and only if it was not cached with a different one that matches both ways |
| ConsulContents.LetterInConsul | resolvers/consul/utils.go:85-133 | the same of what Consul holds |
| ConsulContents.NotesExactlyWhen | resolvers/consul/utils.go:119-133 | after two clean rounds cache and Consul hold a wanted check with its notes if and only if it was not cached with other notes only |
| ConsulContents.NotesChangeUnnoticed | resolvers/consul/utils.go:119-133 | for every check, other notes leave the cache converged and the delta empty |
| ConsulConvergence.ReconcileTwice | resolvers/consul/consul.go:173-230 | the loop object itself converges after two clean rounds |
| ConsulConvergence.ReconcileAgain | resolvers/consul/consul.go:173-230 | a further round of the loop object leaves its health, cache and Consul as they are, whatever its calls would have done |
| ConsulConvergence.ConvergedRoundIsIdle | resolvers/consul/consul.go:177-230 | on a converged cache the delta is empty and the round changes nothing, whatever the calls would have done |
| ConsulContents.RoundHeldAt | resolvers/consul/consul.go:182-230 | one entry of Consul after a clean round: removed if its cached record was dropped, else a wanted content if one was added, else as it was |
| ConsulContents.TwoRoundsLeaveExactly | resolvers/consul/consul.go:177-230 | after two clean rounds Consul holds a service or check if and only if it is wanted, or was there and not cached, and the latter are as they were |
| ConsulContents.TwoRoundsFixConsul | resolvers/consul/consul.go:158-230 | after a pull and two clean rounds, with or without a refresh between, Consul holds under the identifiers that are the prefix or go on with a colon behind it exactly the wanted services, all other services untouched, and exactly the wanted checks and those not cached |
| ConsulContents.CacheOnlyRemovesNothing | resolvers/consul/consul.go:158-162 | with CacheOnly one clean round after the refresh converges, and everything that was in Consul at the refresh stays, next to what is wanted |
| ConsulContents.LeftAlone | resolvers/consul/consul.go:182-230 | calls for other entries leave an entry of Consul alone, however they end |
| ConsulContents.PullKeepsConvergedExactlyWhen | resolvers/consul/consul.go:158-171 | a pull keeps a converged agent converged if and only if no wanted identifier is empty or Consul lists no service |
| ConsulContents.PaddingForgetsEmptyId | resolvers/consul/consul.go:335-365 | a wanted record with the empty identifier is lost from the cache by every pull that lists a service, and is in the delta of the round that follows |
| ConsulContents.SteadyForever | resolvers/consul/consul.go:143-234 | over any number of further turns on the same set, with or without pulls, Consul and the converged cache do not change |
| ConsulMachine.NextKeepsInv | resolvers/consul/consul.go:143-234 | every step of the loop and of outside writers keeps the invariant |
| ConsulMachine.SafetyOverRuns | resolvers/consul/consul.go:139-235 | in every state of every run from the start a healthy agent's cached registrations are what Consul holds |
| ConsulMachine.AgreementLostOnlyWithHealth | resolvers/consul/consul.go:144-228 | agreement is lost only by a failed call that also takes the agent's health, and only a refresh restores health, with agreement |
| ConsulMachine.NothingBeforeConnect | resolvers/consul/consul.go:139-175 | before the first successful connection no record set is taken and nothing is cached |
| ConsulMachine.BoundedSkipping | resolvers/consul/consul.go:143-187 | while unhealthy the cache is frozen, no call is made, and at most CacheRefresh - 1 record sets go by before a reconnection is due, with the exact number |
| ConsulMachine.RoundIsRun | resolvers/consul/consul.go:182-230 | applying a delta is a run of single-call steps of the machine |
| ConsulMachine.TurnIsRun | resolvers/consul/consul.go:143-230 | every pass through the loop that handles a record set, whatever its calls do, is a run of the machine |
| ConsulRepair.OwnedOverRuns | resolvers/consul/consul.go:139-235 | in every state of every run on record sets named with the prefix only such services are cached or queued |
| ConsulRepair.DoneRoundIsClean | resolvers/consul/consul.go:174-230 | among outside writes a round without failures does to the agent and to the entries left alone what a clean round does |
| ConsulRepair.RefreshRepairs | resolvers/consul/consul.go:139-235 | in every run a refresh that pulls and two rounds without failures leave exactly the wanted owned services, and of the entries that others leave alone the wanted ones and those not cached |
| ConsulRepair.RepairOverRuns | resolvers/consul/consul.go:139-235 | in every run at most CacheRefresh - 1 record sets are skipped up to a reconnection, which caches no check, and two rounds then repair Consul among outside writes to other entries |
| ConsulLeaks.ForgottenForever | resolvers/consul/consul.go:139-235 | a forgotten and unwanted check, service of others, or with CacheOnly any service stays in Consul as it is in every later state of every run |
| ConsulLeaks.CacheOnlyKeepsForever | resolvers/consul/consul.go:158-162 | with CacheOnly whatever Consul holds at a refresh and no later set wants stays in every later state of every run |
| ConsulLeaks.LeakedCheckReachable | resolvers/consul/consul.go:144-228 | a run from the start to a healthy agent that has converged to the empty set while Consul keeps a check of its own |
| Chains.InPlaceRefinesPure | records/chains.go:18-80 | a chain whose named ports come after the rewriting links emits the pure cross product although the links share one slice and overwrite their protocols |
| Chains.WrongOrderDiffers | records/chains.go:65-80 | a named port in front of a protocol emits names that carry a protocol twice |
| Chains.DoubleForProtocols | records/chains.go:26-32 | the doubled slice is the tcp names followed by the udp names |
| Chains.FillSubdomains | records/chains.go:44-61 | the blocks filled at the moving offset are the names under each subdomain in turn |
| Chains.AppendToEach | records/chains.go:22-24 | every element of the shared slice gets the suffix, in place |
| Chains.PrependToEach | records/chains.go:75-77 | every element of the shared slice gets the prefix, in place |
| Generator.Add | records/generator.go:33-50 | adds the pair unless the host is empty or present, reports which, and never leaves a name without hosts |
| Generator.RecordGenerator.InsertRR | records/generator.go:633-640 | the record set grows by the record, and the result says whether it was new |
| Generator.RecordGenerator.InsertTaskRR | records/generator.go:624-631 | a record is enumerated under the current task exactly when it is new |
| Generator.RecordGenerator.RunAsSRV | records/generator.go:545-552 | one SRV record for each name of the slice, inserted and enumerated in order |
| Generator.RecordGenerator.RunChain | records/chains.go:18-80 | any chain run on a shared array inserts its in-place emission, leaves the array as computed, and holds the label of each protocol afterwards |
| Generator.RecordGenerator.TaskContextRecord | records/generator.go:526-578 | inserts the address records, the port chains and the discovery chains of a task under one name |
| Generator.RecordGenerator.TaskRecord | records/generator.go:497-525 | opens the task's enumeration entry and inserts its records under every name it has |
| Generator.RecordGenerator.TaskTurn | records/generator.go:477-485 | only running tasks on known slaves are taken, with the slave's address filled in |
| Generator.RecordGenerator.FrameworkTasks | records/generator.go:471-485 | one framework's records and its enumeration entry, task by task |
| Generator.RecordGenerator.TaskRecords | records/generator.go:469-487 | the records and the enumeration of all frameworks |
| Generator.RecordGenerator.FrameworkRecords | records/generator.go:328-341 | inserts the framework records of every framework whose host resolves |
| Generator.RecordGenerator.SlaveRecords | records/generator.go:346-360 | inserts the slave records and fills the slave address map, with the mangled host name for unresolved slaves |
| Generator.RecordGenerator.MasterRecord | records/generator.go:388-456 | the numbering loop over the masters list, including its early returns and skipped entries |
| Generator.RecordGenerator.MasterEntry | records/generator.go:417-446 | one entry of the masters list: skipped, or put under the next number |
| Generator.RecordGenerator.InsertState | records/generator.go:309-323 | rebuilds the maps as the final records of the state, appends to the enumeration, and keeps the state and the clock as serial number |
| TaskRecords.TaskChainsRefine | records/generator.go:554-577 | the chains that tasks use emit the pure cross product |
| TaskRecords.PortMember | records/generator.go:562-567 | the SRV records for host ports are exactly ports times protocols times subdomains |
| TaskRecords.DiscoveryMember | records/generator.go:573-577 | the SRV records for discovery ports are exactly ports times protocols times name prefixes |
| TaskRecords.TaskPhaseMeaning | records/generator.go:469-578 | a record is inserted by the task phase if and only if some eligible task under one of its names gives it by the address, host port or discovery rule |
| PublishedNames.TaskPhaseRead | records/generator.go:469-578 | the task phase gives exactly the records, spelled out from the fields, of tasks in state TASK_RUNNING whose slave is in the state |
| PublishedNames.OnlyRunningTasks | records/generator.go:477-485 | every record that comes with the task phase is of a task in state TASK_RUNNING on a slave of the state |
| PublishedNames.EveryRunningTask | records/generator.go:477-542 | every task in state TASK_RUNNING on a slave of the state has its address records in the zone |
| PublishedNames.AddressesRead | records/generator.go:526-542 | the four address records as concatenations of task name, hash, slave, framework and domain |
| PublishedNames.HostPortsRead | records/generator.go:554-567 | the SRV records of host ports as concatenations of task name, protocol, framework, subdomain and domain |
| PublishedNames.DiscoveryPortsRead | records/generator.go:569-577 | the SRV records of discovery ports as concatenations of port name, task name, protocol, framework and domain |
| PublishedNames.CanonicalRead | records/generator.go:503-532 | the canonical name ends in the part of the slave identifier behind its last dash |
| PublishedNames.FragmentRead | records/labels/labels.go:14-22 | the domain fragment of a name is the label of each part with a dot between those that are not empty |
| PublishedNames.FrameworkRecordsRead | records/generator.go:328-341 | the records of a framework from its scheduler's host and port, or its host name without a port |
| PublishedNames.SlaveRecordsRead | records/generator.go:346-355 | the records of a slave that resolves |
| PublishedNames.SlaveAddressesRead | records/generator.go:346-360 | the address kept for a slave identifier is that of the last slave with it, resolved or mangled |
| PublishedNames.EnumeratedFrameworks | records/generator.go:471-501 | the enumeration names every framework and its running tasks on known slaves by name and identifier, in order |
| MasterNumbering.NumberingFollowsList | records/generator.go:417-446 | a lower number belongs to an entry of the masters list up to which no entry stands for the master with the higher one |
| MasterNumbering.MasterPhaseMeaning | records/generator.go:388-456 | the phase adds the leader's records, every master under the general name and one number each, skipping addresses that the general name holds already |
| LeaderRecords.LeaderAddressRead | records/generator.go:391-401 | the leader's address is the text between the first `@` and the next, cut at its first colon; none without a colon |
| LeaderRecords.NoLeader | records/generator.go:391-395 | a leader string without an `@` gives no leader |
| LeaderRecords.MastersPublished | records/generator.go:388-456 | for a leader `user@ip:port` every record of the phase spelled out: the leader's names, the general name and the numbers, for the leader and every listed address, in the order of the list |
| MasterNumbering.MasterBijection | records/generator.go:388-456 | number i holds just the i-th address, the addresses are distinct, no other number is used, together they are what master.domain. holds, and an unlisted leader is last |
| Enumeration.NewOnesAre | records/generator.go:624-631 | the enumerated records of a list are distinct and exactly those with a host that were not there |
| Enumeration.EnumerationConserved | records/generator.go:469-578 | the enumerated records are pairwise distinct, are exactly the final records minus those before the task phase, and the counts add up |
| Enumeration.SecondInsertRepeats | records/generator.go:309-323 | inserting the same state twice into one generator repeats an enumerated record unless there was none |
| OrderIndependence.OrderDoesNotMatter | records/generator.go:309-360 | reordering frameworks, tasks or slaves with unique identifiers changes no record and no slave address |
| OrderIndependence.RecordsDetermineMaps | records/generator.go:26-50 | equal record sets mean equal A and SRV maps |
| OrderIndependence.InsertReordered | records/generator.go:309-323 | two generators given reordered states end with the same maps |
| SrvIntegrity.SrvTargetsResolve | records/generator.go:328-578 | with the addresses known and plain host names, every SRV target of the zone is a host with an address record and a port, and is read back exactly when the port is plain |
| SrvIntegrity.ZoneReadsBackExactlyWhen | records/generator.go:328-578 | every SRV target of the zone is read back as written if and only if the ports of resolving frameworks and slaves and of the leader are plain |
| SrvAddresses.ResolvedExactlyWhen | records/generator.go:328-578 | with plain names that nobody shares, every SRV target has an address if and only if the leader, the slaves of tasks with ports and the tasks with discovery ports have one |
| SrvIntegrity.AnswerFromZone | resolvers/builtin/resolver.go:316-347 | an SRV query on the generated maps answers every target with its host and port, and adds an address if all addresses of the host parse |
| SrvIntegrity.TaskTargetReadBack | records/generator.go:562-577 | a task's SRV target names a host with an address, and both readers of the resolver recover host and port |
| SrvIntegrity.NumberReadBack | resolvers/builtin/resolver.go:156-177 | formatSRV and the host cut read a plain host and a decimal port back, the port modulo 65536 |
| SrvIntegrity.PortIsDecimal | records/state/state.go:18-40 | every port of a task is the decimal form of a number |
| HostPort.ReadBack | resolvers/builtin/resolver.go:159-163 | a joined plain host and port is split back into the same parts exactly when the port is plain; the host cut always recovers the host |
| HostPort.BracketsReadBack | resolvers/builtin/resolver.go:159-163 | a host with a colon or zone is joined in brackets and split back |
| Zone.NoMasterNamesExactlyWhen | records/generator.go:328-360 | the master names are free before the master phase if and only if no resolving framework is called master or master with a number |
| Zone.TakenByFrameworks | records/generator.go:328-360 | before the master phase the general master name holds exactly the addresses of frameworks called master |
| Zone.ZoneMeaning | records/generator.go:309-323 | the final records of every state are exactly those of the framework, slave, master and task rules |
| Zone.NoMasterServices | records/generator.go:388-456 | no SRV record of any state is called `_master._tcp` or `_master._udp` |
| Labels.MapName | records/labels/labels.go:46-59 | keeps only label characters and changes nothing in a name made of them |
| Labels.MapOne | records/labels/labels.go:46-59 | letters in lower case, digits and dashes as they are, dots and underscores as dashes, nothing for any other character |
| Labels.MapAppend | records/labels/labels.go:41-43 | a name is mapped character by character |
| Labels.MapKeepsLength | records/labels/labels.go:46-59 | on letters, digits, dashes, dots and underscores the length stays and each position is given |
| Labels.CaseDoesNotMatter | records/labels/labels.go:46-59 | names that differ only in case have the same label |
| LabelBuffer.TrimCut | records/labels/labels.go:63-75 | on the shared buffer the returned bytes are the trimmed head refilled from the tail and from the bytes behind it, and failure is exactly the slice out of range |
| LabelBuffer.PanicsExactlyWhen | records/labels/labels.go:63-75 | the slice is out of range if and only if the cut falls into a dash run with more dashes before the cut than characters after the run and spare bytes |
| LabelBuffer.NulExactlyWhen | records/labels/labels.go:63-75 | a label contains a zero byte, and then ends in one, if and only if the cut falls into a dash run followed by too few characters |
| LabelBuffer.NulNames | records/labels/labels.go:63-75 | for every word two characters short of the limit, names on which the function panics and on which the label ends in a zero byte |
| LabelBuffer.StabilisesInBuffer | records/labels/labels.go:41-75 | a second application only drops zero bytes and trims dashes on the right, a third changes nothing |
| LabelBuffer.LabelFuncStabilises | records/labels/labels.go:29-43 | the label functions hold no dot, never turn empty, and settle, as splitting and stabilising of fragments ask |
| Labels.LabelDefinedExactlyWhen | records/labels/labels.go:63-75 | the refill reaches past the bytes of the name if and only if the cut falls into a dash run followed by too few characters |
| Labels.LabelShape | records/labels/labels.go:41-75 | at most maxlen label characters, none of the left cutset first, a dash last only in a refilled label of full length |
| Labels.LabelStabilises | records/labels/labels.go:41-75 | a second application only trims dashes on the right, a third changes nothing |
| LabelBuffer.Rfc952Shape | records/labels/labels.go:29-31 | without zero bytes at most 24 letters, digits and dashes with a letter first |
| LabelBuffer.Rfc1123Shape | records/labels/labels.go:35-37 | without zero bytes at most 63 letters, digits and dashes with a letter or digit first |
| LabelBuffer.ConformingKept | records/labels/labels.go:29-37 | names that conform already, up to 24 or 63 characters, stay as they are |
| Labels.EndsInDashExactlyWhen | records/labels/labels.go:63-75 | a label ends in a dash if and only if its refill does |
| Labels.DashRunNames | records/labels/labels.go:63-75 | for every word two characters short of the limit, names on which the refill reaches past the bytes of the name and on which the label ends in a dash |
| Labels.DomainFrag | records/labels/labels.go:14-22 | joins the nonempty labels of the parts, and fails exactly when a label does |
| Labels.FragmentsAppend | records/labels/labels.go:14-22 | the labels are those of the parts in order |
| Labels.FragmentSplits | records/labels/labels.go:14-22 | the result splits back into the nonempty labels it was joined from |
| Labels.FragmentStabilises | records/labels/labels.go:14-22 | the function is defined on its results and stable from the second application on |
| MesosState.Ports | records/state/state.go:18-40 | the loops expand the listed ranges in order, with the two index panics |
| MesosState.PortsRoundTrip | records/state/state.go:18-40 | every list of ranges, the empty one included, is recovered from its printed form as the ports it covers |
| AddressSources.ExpandRead | records/state/state.go:34-36 | a range covers both bounds and all numbers between, in order |
| AddressSources.PaddedRange | records/state/state.go:29-32 | white space around a range does not matter |
| Text.AtoiOther | records/state/state.go:31-32 | a plus sign is allowed, and what is not a number counts as zero |
| AddressSources.PortsPanicExactlyWhen | records/state/state.go:18-33 | the ports cannot be read if and only if the opening bracket or the dash of an element is missing |
| MesosState.StatusIPs | records/state/state.go:177-192 | the addresses of the latest running status |
| MesosState.Latest | records/state/state.go:182-187 | a running status with the greatest timestamp above -1, or none if there is none |
| AddressSources.LatestRead | records/state/state.go:177-192 | of several statuses with the greatest timestamp the first is taken |
| MesosState.LatestIgnoresOrder | records/state/state.go:177-192 | the chosen status does not depend on the order of the statuses when running timestamps are distinct |
| MesosState.CollectLabels | records/state/state.go:196-206 | the values of the labels with the key, in order |
| MesosState.CollectNetworkIPs | records/state/state.go:137-153 | the padded list of addresses of the network infos, in order |
| MesosState.IP | records/state/state.go:97-120 | the first address that parses, over all sources in order |
| AddressSources.SourcesRead | records/state/state.go:123-172 | what each source yields on a task with a running status, label by label and info by info; nothing for other sources |
| AddressSources.SourcesWithoutStatus | records/state/state.go:129-192 | without a running status only the slave's address is left |
| AddressSources.LabelValuesAppend | records/state/state.go:196-206 | the values of labels are collected label by label |
| AddressSources.LabelValueOne | records/state/state.go:196-206 | a label gives its value exactly under its key |
| AddressSources.NetworkIPsAppend | records/state/state.go:137-153 | the addresses of network infos are collected info by info |
| AddressSources.NetworkIPsOne | records/state/state.go:140-150 | an info gives its list of addresses if there is one, else its single address if there is one |
| AddressSources.IPRead | records/state/state.go:97-120 | the address is the parse of the first one that parses, source by source |
| AddressSources.NoIP | records/state/state.go:97-120 | without an address that parses there is none |
| MesosState.GetAddress | resolvers/consul/utils.go:218-263 | the first lookup that settles the address, with the fatal exit and the early give-up |
| AddressSources.SourceLookUp | resolvers/consul/utils.go:222-231 | the four sources of Task.IP, whatever follows a colon |
| AddressSources.LabelLookUp | resolvers/consul/utils.go:232-252 | a label gives its first value in the latest running status; without one the lookup gives up exactly for Calico's label on a task with a CALICO_IP label |
| AddressSources.FatalLookUp | resolvers/consul/utils.go:234-237 | the label without a name or with a further colon is fatal |
| AddressSources.OtherLookUps | resolvers/consul/utils.go:253-260 | the fallback is the slave's address, other entries give nothing |
| MesosState.AddressAgreesWithIP | resolvers/consul/utils.go:218-263 | on plain sources getAddress and Task.IP agree |
| MesosState.BlankSourcesIgnored | resolvers/consul/utils.go:218-263 | empty sources in front change nothing |
| MesosState.PaddedLookupOrder | resolvers/consul/parser.go:101-103 | the padded list with the fallback gives the address of Task.IP, else the slave's |
| Shuffle.ShuffleAnswers | resolvers/builtin/resolver.go:236-244 | the in-place swaps compute the shuffle of the choices and permute the answers |
| Shuffle.ShufflePermutes | resolvers/builtin/resolver.go:236-244 | every choice sequence gives a permutation |
| Shuffle.ShuffleInjective | resolvers/builtin/resolver.go:236-244 | distinct choice sequences arrange distinct answers differently |
| Shuffle.ShuffleSurjective | resolvers/builtin/resolver.go:236-244 | every permutation is reached by some choice sequence |
| Truncate.TruncateMsg | resolvers/builtin/resolver.go:427-459 | TC is set if and only if the message exceeded 65535 bytes over TCP, the EDNS size or else 512 over UDP; extra records go first; otherwise the kept prefix is the last probe of the bisection around the least prefix that does not fit, and it fits exactly when the answer before the limit is probed last |
| Truncate.KeptFitsExactlyWhen | resolvers/builtin/resolver.go:444-457 | the kept answers fit if and only if the answer before the limit is probed after the one at it |
| Truncate.KeepsOneTooMany | resolvers/builtin/resolver.go:444-457 | for every n of at least 3 there is a limit position at which one answer too many is kept |
| Answers.Resolver.HandleSRV | resolvers/builtin/resolver.go:316-347 | one answer with host and port for each target that can be read; the extra records carry a parsed address of an answered target, one for a host, and are there for every answered target whose addresses parse; an error for every target that cannot be read or addressed |
| Answers.Resolver.HandleA | resolvers/builtin/resolver.go:349-360 | an answer with the parsed address for each address of the name that parses, as many as there are, and an error if and only if one does not |
| Answers.Resolver.HandleEmpty | resolvers/builtin/resolver.go:372-407 | name error, counters and authority of an empty answer |
| Answers.Resolver.HandleMesos | resolvers/builtin/resolver.go:271-314 | a name error if and only if the name has no record and the type is not SOA, NS, SRV or AAAA; the answers are exactly the SRV and A records of the name in the drawn order, with the extra addresses and the SOA and NS records; each request counts once as success or negative, and as failed when a record cannot be used |
| Answers.Resolver.Stats | resolvers/builtin/resolver.go:581-593 | counts an HTTP lookup in or out of the zone and keeps the counters balanced |
| Answers.Resolver.Run | resolvers/builtin/resolver.go:271-314 | over any run of queries and lookups requests equal successes plus negatives |
| MasterDetector.Masters.OnMasterChanged | detect/masters.go:46-50 | the new leader comes first and leaves the rest, and the list is emitted |
| MasterDetector.Masters.UpdatedMasters | detect/masters.go:55-65 | the reported masters with an address replace the rest, without the leader, and the list is emitted |
| MasterDetector.Masters.Handle | detect/masters.go:46-69 | over any callbacks each emitted snapshot is the list after its callback |
| MasterDetector.Ordered | detect/masters.go:72-80 | the leader followed by the masters other than the leader in order |
| MasterDetector.WithoutAppend | detect/masters.go:72-80 | masters are left out one by one, in order |
| MasterDetector.WithoutOne | detect/masters.go:72-80 | a master is left out exactly when it is unwanted |
| MasterDetector.HistoryInvariant | detect/masters.go:36-80 | the list is the last leader followed by the last report in order without anyone who led at or since it |
| MasterDetector.LeaderNotRepeated | detect/masters.go:36-80 | the leader is not repeated if and only if there was a callback or the configured list has no empty address |

## Left out

- Fetching the state, probing for the leader, the main event loop and its timers: network and scheduling.
- DNS and HTTP servers, REST output, logging, panic recovery, the forwarder: plumbing around libraries.
- Record generation for Consul (resolvers/consul/parser.go beyond its lookup order), health-check templates and the dispatch to agents: input and output, and easy members.
- Configuration reading and merging, listener records, SOA and NS contents, wildcard cleaning.
- Wire format and compression of DNS messages, hashing, IP parsing and hostname lookup: parameters of the model.
- MesosState.Ports: numbers beyond the machine integer range are not cut off.
- Generator.RecordGenerator.RunChain: a chain is a value that is interpreted and returned with its overwritten protocols, not a closure, and a slice has no spare capacity.
- Generator.RecordGenerator.InsertState: requires readable port strings of running tasks on known slaves, since the source panics on others.
- SrvIntegrity.SrvTargetsResolve: stated for zones whose addresses are known; without an address the source inserts the SRV record alone (SrvAddresses.ResolvedExactlyWhen).
