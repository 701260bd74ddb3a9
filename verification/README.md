# Guardian.sys verification model

Guardian.sys is a kernel decision engine. IOCTL requests change two keyed tables (application
policies and route assignments), a kill switch, a DNS configuration and a filtering mode;
connection callouts read them and decide block or permit. This project models that driver and
proves what it keeps over every run and every interleaving.

## Layers

- `Base`, `OrderedTable`, `Policies`, `Decisions`, `Counters`, `DriverModel`, `Requests`: the
  values of the driver and the effect of each operation on them, with the laws of single
  operations. `OrderedTable` describes a table as a sequence of records in list order; the policy
  and route tables run the same code over different record bodies, so one generic table serves
  both, with the two Sync limits (256 and 512 records) as arguments.
- `RequestEffects`: what each of the fifteen requests does when it succeeds, in terms of later
  lookups and reports.
- `Runs`: whole runs of requests, connections, DNS queries and polls from a successful start-up,
  one event at a time. The request queue dispatches in parallel (`driver/guardian/device.c:61`);
  what overlapping requests and classifications do is the subject of the `...Threads` modules and
  `TornDecisions`.
- `LinkedTable`, `Guardian`: the driver as it is written. A table is a circular doubly linked list
  on the heap around a sentinel, with ghost fields for the linked entries, the live pool entries
  and the abstract contents. `Guardian.Driver` holds the global structures, and its methods change
  them step by step; each is proved to move the abstract state as the model says, and
  `PerformAll` lifts that to every run, and `Lifetime` takes a new driver through start-up, any
  run and unload and states the results of `Runs` of what its calls return.
- `TableThreads`: one table under any number of threads. A spin-lock region is one step;
  allocation before it and frees after it are steps of their own; freed addresses are reused. A
  history records calls, effects and answers, and schedules may let other writers overlap a Sync
  or not.
- `SyncThreads`: what other threads see of a running Sync, and what an overlapping writer costs.
- `DriverThreads`: classifications, DNS queries and IPC records of any number of threads,
  interleaved with arbitrary writers; each locked read and each interlocked increment is one step.
- `TornDecisions`: when the three reads of a classification amount to a decision of one moment.
- `MirrorThreads`: the three reported fields that mirror a variable of the driver (kill-switch
  mode, filtering mode, generation) while requests that set it overlap.

Results of foreign calls (registry values, WDF and WFP statuses, pool allocations, the caller
check, the NDIS poll, elapsed times) are inputs that may take any value.

## Where the code and its documentation differ

The model follows the code.

- `docs/callouts.md` lets AllowVpnOnly permit connections on the VPN interface. The kill switch
  is always asked about LUID 0, so AllowVpnOnly blocks everything (`Decisions.EngagedBlocksAll`).
- `docs/callouts.md` gives BLOCK + ABSORB for blocked connections. The write right is cleared
  before it is tested, so no callout adds ABSORB (`Guardian.Driver.AuthConnect`).
- `docs/callouts.md` speaks of sampled latency. The sampler tests the counter that only it
  increments and takes the first classification alone (`Counters.OnlyFirstSample`).
- `docs/recovery.md` lets RECONCILE remove unknown filters. It removes none.
- A ProcessPath policy matches every connection with a non-empty application blob; the path is
  never compared, and the other match kinds never match (`Policies.PathNeverCompared`).
- GET_DRIVER_STATE need not report the enforced kill-switch mode: start-up reports Off whatever
  the registry sets, and IMPORT_STATE changes only the reported mode. For requests handled one at a
  time `Runs.MirrorExactly` and `Runs.MirrorAtEntry` say exactly when the two agree. Overlapping
  requests can also leave the older of two modes or generations reported
  (`MirrorThreads.RaceDisagrees`); `MirrorThreads.MirrorExactly` says exactly when they cannot.
- The validator checks no input length for RECONCILE, whose handler reads the filter count of any
  input buffer (`driver/ipc/ioctl_dispatch.c:228`), and for a Sync only that of the header.
  `Requests.InputWithinExactly` says exactly when an admitted request is handled within its input.
- A classification reads kill switch, policies and routes under three locks one after the other and
  need not be the decision of any single moment; `TornDecisions.SingleMomentExactly` says exactly
  when it is.
- `GuardianCalloutManagerRegister` called again after a partial failure would count callouts twice
  (`DriverModel.RetriedRegistration`). Its only caller is DriverEntry
  (`driver/guardian/driver.c:120`), once in a freshly loaded image, so no run of the driver does.
- The reported IPC average can exceed the reported maximum once the 64-bit sample counter has
  wrapped. `Counters.AverageSoundExactly` says for exactly which numbers of requests it cannot;
  `Counters.RejectsSoundExactly` does the same for rejects and dispatches.

## Model

| member | source | states |
|---|---|---|
| LinkedTable.Table.Find | driver/policy/app_policy.c:39-53 | The walk over flink terminates, touches only live entries, and returns the first entry with the key, or null exactly when no record has it |
| LinkedTable.Table.LinksInverse | driver/route/route_assignment.c:10-18 | flink and blink are inverse for every entry and for the sentinel |
| LinkedTable.Table.Install | driver/policy/app_policy.c:77-94 | The locked region of Set updates in place, refuses at capacity or links at the tail, as the abstract table does, keeping the ring and the counter |
| LinkedTable.Table.Set | driver/policy/app_policy.c:55-97 | Set validates, allocates, installs and frees the unused entry: the heap table stays valid with no leak and holds exactly the abstract result, with its status |
| LinkedTable.Table.Remove | driver/route/route_assignment.c:98-118 | Remove unlinks and frees exactly the entry of the key, or reports NotFound and changes nothing |
| LinkedTable.Table.Shutdown | driver/route/route_assignment.c:23-36 | Draining the list leaves no entry linked and no pool entry live |
| LinkedTable.Table.Sync | driver/policy/app_policy.c:121-144 | Sync rejects an absent or oversized payload unchanged, otherwise rebuilds the table record by record from empty, stopping at the first failure |
| LinkedTable.Table.LookupByKey | driver/route/route_assignment.c:145-166 | A route lookup copies the record of the key, if there is one |
| Base.Low64IsModulo | driver/telemetry/telemetry.c:46-61 | The words the counts below leave are the counts modulo 2^64 |
| Base.AddIsModulo | driver/filters/filters.c:180-189 | Word sums are sums modulo 2^32 and 2^64 |
| OrderedTable.UpsertLaws | driver/policy/app_policy.c:78-93 | Upsert keeps AppIds distinct, changes the answer for its own key only and moves no entry |
| OrderedTable.DeleteLaws | driver/policy/app_policy.c:106-114 | Removal keeps AppIds distinct and removes the answer for its own key only |
| OrderedTable.LookupExactly | driver/route/route_assignment.c:145-166 | A lookup answers with the first record of the key, and with none exactly when no record has it |
| OrderedTable.SetExactly | driver/policy/app_policy.c:55-97 | For every argument, table and allocation: which of the three statuses a Set returns, that a success stores the record and changes no other answer or position, and that a failure changes nothing |
| OrderedTable.RemoveExactly | driver/policy/app_policy.c:99-119 | A removal succeeds exactly when the key is present and then takes out its record alone; otherwise it reports NotFound and changes nothing |
| OrderedTable.SetAtCapacity | driver/route/route_assignment.c:77-93 | On a full table a Set that can allocate succeeds exactly for keys already present |
| OrderedTable.FoldCharacterised | driver/policy/app_policy.c:133-143 | A table is what Sync builds from a payload if and only if it holds every AppId of the payload, each with its last record, in order of first occurrence |
| OrderedTable.FoldIdempotent | driver/policy/app_policy.c:121-144 | Synchronising with the contents a Sync left changes nothing |
| OrderedTable.SyncOutcome | driver/route/route_assignment.c:120-143 | A Sync within its limit leaves the fold of the records before the first foreign version or failed allocation, whatever was there before, and never fails for capacity |
| OrderedTable.ReorderedLookup | driver/route/route_assignment.c:120-166 | Route lookups after Sync cannot tell a payload from a reordering that keeps the order of records with equal AppIds |
| OrderedTable.ReorderedContents | driver/policy/app_policy.c:121-144 | Such a reordering stores the same records, up to list order |
| OrderedTable.ReorderedOrder | driver/policy/app_policy.c:121-144 | List order survives such a reordering exactly when the order of first occurrences does |
| Policies.LookupPolicy | driver/policy/app_policy.c:146-198 | The walk returns the first matching policy in list order, and fails exactly when there are no fixed values |
| Policies.AloneDecides | driver/policy/app_policy.c:169-192 | A policy on its own decides every connection if its kind is None, those of the two connect layers with a non-empty blob if it is ProcessPath, and none otherwise |
| Policies.FirstMatchExactly | driver/policy/app_policy.c:169-198 | The deciding policy is the first in list order whose kind applies to the connection's own layer and blob, and there is none exactly when none applies |
| Policies.LayersAgree | driver/policy/app_policy.c:167-175 | IPv4 and IPv6 connections with the same ALE_APP_ID value are decided by the same policy |
| Policies.AppendStable | driver/policy/app_policy.c:86-93 | A policy for a new AppId decides only connections nothing matched before |
| Policies.UpdateKeepsPrecedence | driver/policy/app_policy.c:79-84 | An update in place decides from its old position, and otherwise the connection is decided as if it were not there |
| Policies.RemoveStable | driver/policy/app_policy.c:106-114 | Removing any policy but the deciding one changes no decision |
| Policies.PathNeverCompared | driver/policy/app_policy.c:183-192 | Which policy decides depends on match kinds alone, and only kinds None and ProcessPath match |
| Policies.MatchFinalExactly | driver/policy/app_policy.c:77-94 | A match found in a payload prefix is the match in every longer prefix exactly when every later record is harmless to it: placed after it, placed before it without matching, or the same record again |
| Policies.PrefixMatchIsFinal | driver/policy/app_policy.c:136-141 | Payloads without repeated AppIds are of that kind |
| Policies.RepeatedKeyChangesMatch | driver/policy/app_policy.c:79-83 | A payload with a harmful record: a repeated AppId takes back a match already seen |
| Policies.MatchFromPayload | driver/policy/app_policy.c:121-198 | After a Sync a connection is decided by the last record of the first AppId, by first occurrence, whose last record matches it |
| Policies.ReorderedMatches | driver/policy/app_policy.c:121-198 | A key-stable reordering leaves every connection's deciding policy the same exactly when the first AppId whose last record has kind None, and the first whose last record has kind None or ProcessPath, stay the same |
| Policies.ReorderingCanChangeMatch | driver/policy/app_policy.c:179-195 | A key-stable reordering that moves one of them and changes a first match |
| Decisions.EngagedBlocksAll | driver/killswitch/killswitch.c:105-138 | BlockAll and AllowVpnOnly block every connection, and every other mode decides as Off |
| Decisions.BlockedExactlyWhen | driver/classify/classify.c:74-126 | With the switch off a connection is blocked exactly when the first matching policy has a Blocked route, or is Block with an absent, Direct or unknown route |
| Decisions.SteeredExactlyWhen | driver/classify/classify.c:80-126 | An unmatched connection is permitted; a Route result comes from a Vpn or Tailnet route with its LUID, or from a Route policy with a neutral route and the policy's LUID |
| Decisions.ObservedExactlyWhen | driver/classify/classify.c:80-123 | With the switch off a connection is observed exactly when its first matching policy is Observe with an absent, Direct or unknown route |
| Decisions.PermittedExactlyWhen | driver/classify/classify.c:60-123 | It is permitted exactly when nothing matches, the route is Tor, Proxy, Anonymous or Chain, or such a neutral route leaves a policy that is none of Block, Route and Observe |
| Decisions.LuidExactly | driver/classify/classify.c:84-113 | The LUID of every decision: the tunnel route's, else a Route policy's, else zero, whatever the action became |
| Decisions.FailsExactlyWhen | driver/classify/classify.c:65-78 | A classification fails exactly without fixed values while the switch does not decide first |
| Decisions.EvaluateExactly | driver/killswitch/killswitch.c:105-138 | For every interface: an engaged switch passes the VPN's own non-zero LUID in AllowVpnOnly and nothing else |
| Decisions.SetSwitchExactly | driver/killswitch/killswitch.c:66-91 | Which requests are accepted and the mode and LUID each leaves, Restore resetting both |
| Decisions.CalloutExactly | driver/callouts/manager.c:27-48 | Only a decided Block blocks; steered, observed, permitted and failed connections are permitted, without write right and with ABSORB as it came in |
| Counters.OnlyFirstSample | driver/telemetry/telemetry.c:63-69 | After any classifications one sample was taken, and average and maximum both are the first latency |
| Counters.BucketsCountActions | driver/telemetry/telemetry.c:46-61 | The total and each bucket are the numbers of results, modulo 2^64 |
| Counters.ClassifyWords | driver/telemetry/telemetry.c:46-61 | The same for the five words by name |
| Counters.LargestExactly | driver/telemetry/telemetry.c:122-136 | The maximum reported for a history is one of its latencies and none exceeds it |
| Counters.IpcWords | driver/telemetry/telemetry.c:122-136 | The IPC words are the counts, rejects, latency sum modulo 2^64 and the maximum of the history |
| Counters.QuotientIsDivision | driver/telemetry/telemetry.c:83-120 | The quotient the reported averages use is integer division |
| Counters.AverageExactly | driver/telemetry/telemetry.c:97-119 | A reported average is the integer quotient of sum and samples, and zero without samples |
| Counters.AverageSoundExactly | driver/telemetry/telemetry.c:116-119 | For n requests the reported average is at most the maximum for all latencies, wrapped sums included, exactly when n is at most 2^64, a multiple of it, or past a multiple by at least 2^63 |
| Counters.RejectsSoundExactly | driver/telemetry/telemetry.c:127-130 | For n requests rejects never exceed dispatches for all histories exactly when n is below 2^64 or leaves the dispatch word full |
| DriverModel.FreshRegistration | driver/callouts/manager.c:148-202 | Registration from a fresh image succeeds exactly when all four calls do, and then counts four |
| DriverModel.RetriedRegistration | driver/callouts/manager.c:160-220 | A successful retry counts four exactly when no earlier partial registration left a count; start-up, the only caller, never retries |
| DriverModel.RegistrationExactly | driver/callouts/manager.c:148-202 | A registration counts the calls that succeed before the first that fails, whose status it returns |
| DriverModel.QueryExactly | driver/callouts/dns_observe.c:56-90 | For every port, process and configuration: whether a query is observed, which one statistic it adds to, and that nothing else changes |
| DriverModel.SetModeExactly | driver/filters/filters.c:197-222 | For every mode: refusal, what is stored and reported, and when the NDIS driver is polled |
| DriverModel.ExportAfterImport | driver/state/guardian_state_mgr.c:44-77 | Export after Import answers the imported generation and otherwise the live state; no decision changes |
| Requests.DecodeInverse | driver/ipc/ioctl_dispatch.c:181-254 | The switch recognises exactly the fifteen control codes, each as its own operation |
| Requests.ReplyShape | driver/ipc/ioctl_dispatch.c:14-259 | For every code and lengths an admitted request has a handler, at least the input bytes the validator asks for, a Sync count within the limit and room for the reply; success returns exactly the required bytes, failure none |
| Requests.InputWithinExactly | driver/ipc/ioctl_dispatch.c:14-254 | An admitted request is handled within its input length except exactly in these cases: a RECONCILE with one to seven input bytes, and a Sync whose header counts more records than the input holds |
| Requests.ShortReconcile | driver/ipc/ioctl_dispatch.c:95-229 | A RECONCILE with four input bytes that is admitted and answered although its filter count ends at the eighth |
| Requests.ShortSync | driver/ipc/ioctl_dispatch.c:42-53 | A Sync that is only a header is admitted with every count up to the limit |
| Requests.FailureLeavesState | driver/ipc/ioctl_dispatch.c:147-259 | A failed request changes only the IPC counters, except a validated Sync, whose table is exactly the processed prefix |
| Requests.SyncReplaces | driver/ipc/ioctl_dispatch.c:189-204 | A successful Sync request replaces its table, and only it, by what the payload stands for |
| Requests.CodeFields | shared/protocol/guardian_ioctl.h:24-69 | The device type, access, function number and method that each control code is made of |
| Requests.AdmittedExactly | driver/ipc/ioctl_dispatch.c:14-179 | A request is admitted exactly when caller and buffers are fine, neither length exceeds the maximum, its code is an operation's, its input covers the operation's structure, its Sync count is within the limit and its output has room |
| Requests.RefusedExactly | driver/ipc/ioctl_dispatch.c:147-179 | The status of every refused request, in the order of the checks, and that it has no effect |
| Requests.AnswersExactly | driver/ipc/ioctl_dispatch.c:127-260 | A request of an operation's code succeeds exactly when its buffers are fine, it is well formed and its argument, the allocations and the room in its table allow it |
| Requests.SucceedsExactly | driver/ipc/ioctl_dispatch.c:181-254 | The same from admission on; in particular a Sync never fails for capacity |
| RequestEffects.RequestRecorded | driver/telemetry/telemetry.c:122-136 | Every request, whatever its outcome, is recorded as one dispatch with its latency, as a reject exactly if it failed, and changes no other counter |
| RequestEffects.SetAppPolicyStores | driver/ipc/ioctl_dispatch.c:186-188 | After a successful SET_APP_POLICY lookups of its AppId answer with the request's policy, all others and all positions are as before, and nothing else changed |
| RequestEffects.SetRouteStores | driver/ipc/ioctl_dispatch.c:194-196 | The same for SET_ROUTE and routes |
| RequestEffects.ClearRouteRemoves | driver/ipc/ioctl_dispatch.c:197-199 | CLEAR_ROUTE removes the route of its AppId alone, or answers NotFound and changes nothing |
| RequestEffects.SyncStores | driver/ipc/ioctl_dispatch.c:189-204 | A successful Sync stores every AppId of its payload with its last record in order of first occurrence, and changes nothing else |
| RequestEffects.SetKillSwitchSets | driver/ipc/ioctl_dispatch.c:205-210 | A successful SET_KILL_SWITCH puts the requested mode and LUID in force, Restore being Off, and reports that mode |
| RequestEffects.ImportTakes | driver/state/guardian_state_mgr.c:57-78 | A successful IMPORT_STATE takes over the generation and the reported mode and nothing else |
| RequestEffects.DnsConfigStored | driver/callouts/dns_observe.c:27-43 | A successful DNS_SET_CONFIG stores every field but ObserveOnly, which stays set, and keeps the statistics |
| RequestEffects.ModeSet | driver/filters/filters.c:197-222 | A successful SET_GUARDIAN_MODE puts the mode in force and reports it, polls for Ndis and on entry into Hybrid, and reports the count of its mode |
| RequestEffects.ReportsAnswer | driver/ipc/ioctl_dispatch.c:182-245 | A well-formed reporting request always succeeds, answers field by field from the live state before its own record, and changes nothing; the other requests answer with no bytes |
| Runs.EntryEstablishes | driver/guardian/driver.c:84-148 | DriverEntry succeeds exactly when driver, device and the four registrations do, whatever registry and poll answer, then Running with four callouts counted and every mirror agreeing; a failure is reported as such |
| Runs.EntryStatus | driver/guardian/driver.c:84-148 | Start-up returns the status of the first foreign call that failed |
| Runs.EntryConfigures | driver/killswitch/killswitch.c:24-57 | After a successful start-up the registry's valid kill-switch and filtering modes are in force, anything else counting as Off and Wfp, tables are empty and DNS observation is disabled |
| Runs.EntryFails | driver/guardian/driver.c:103-141 | A failed start-up leaves no table entry and no coordinator and reports its status |
| Runs.CalloutOfRun | driver/callouts/manager.c:11-49 | Every connection callout of every run blocks exactly if the switch is engaged, or the first matching policy has a Blocked route or is Block with a neutral one; it permits otherwise, failed lookups included |
| Runs.QueryOfRun | driver/callouts/dns_observe.c:56-90 | Every query of every run is answered and counted as its port, its process and the configuration say |
| Runs.RemovePolicyExactly | driver/policy/app_policy.c:99-119 | Removing a policy takes out that AppId's alone, or reports NotFound |
| Runs.CountEventExactly | driver/filters/filters.c:144-173 | Polls and explicit counts answer with their status and change nothing but counts |
| Runs.RunKeeps | driver/filters/filters.c:116-222 | In every state reached by events handled one at a time tables are sound, reported mode, filter count and generation are the real ones, the coordinator is active exactly in Hybrid and ObserveOnly is set |
| Runs.KillSwitchBlocks | driver/callouts/manager.c:28-48 | After a successful BlockAll or AllowVpnOnly every connection callout ends in a block until the next successful kill-switch request |
| Runs.EpisodeTransparent | driver/killswitch/killswitch.c:80-88 | If the switch is off before and after a run, later connections are decided as in the run without its kill-switch requests |
| Runs.RestoreTransparent | driver/killswitch/killswitch.c:80-88 | The same when the last successful kill-switch request is Restore or Off |
| Runs.MirrorExactly | driver/state/guardian_state_mgr.c:73-75 | Exactly how each event changes whether the reported kill-switch mode is the enforced one |
| Runs.MirrorAtEntry | driver/killswitch/killswitch.c:24-57 | Start-up reports the enforced mode exactly when the registry left it Off |
| Runs.MirrorHolds | driver/ipc/ioctl_dispatch.c:205-210 | With requests handled one at a time, from a successful set until the next successful import the reported mode is the enforced one |
| Runs.CountFollowsPolls | driver/filters/filters.c:144-189 | Only a successful poll or an explicit count changes the NDIS count, and the reported filter count is that count in the modes Ndis and Hybrid and zero in mode Wfp |
| Runs.TelemetryOfRun | driver/telemetry/telemetry.c:41-101 | The counters after a run are those of its history, word by word |
| Runs.ReportsOfRun | driver/telemetry/telemetry.c:83-120 | What every reachable state reports about averages, maxima and rejects |
| Runs.DnsOfRun | driver/callouts/dns_observe.c:56-90 | Every port-53 query of a run is counted as disabled, excluded or observed, once, and the observed ones agree with telemetry |
| Runs.UnloadAfterRun | driver/guardian/driver.c:150-162 | Unload leaves no callout, coordinator, policy or route |
| Guardian.Driver.KillSwitchSet | driver/killswitch/killswitch.c:66-91 | The two fields change in place exactly as the model's kill switch |
| Guardian.Driver.KillSwitchEvaluate | driver/killswitch/killswitch.c:105-138 | The evaluation handles a connection and chooses its action as the model does |
| Guardian.Driver.TelemetryRecordClassify | driver/telemetry/telemetry.c:41-70 | One record counts, buckets and samples as the model does |
| Guardian.Driver.PerfRecordIpc | driver/telemetry/telemetry.c:122-136 | One IPC record updates counts, sum, samples and maximum as the model does |
| Guardian.Driver.ClassifyUnrecorded | driver/classify/classify.c:62-135 | The stepwise classification over the heap tables equals the one pure decision |
| Guardian.Driver.ClassifyConnection | driver/classify/classify.c:44-136 | Classification and its telemetry record equal the model's step |
| Guardian.Driver.AuthConnect | driver/callouts/manager.c:11-49 | The callout blocks exactly on a decided Block and permits everything else, clears the write right and leaves ABSORB as it came in |
| Guardian.Driver.DnsShouldObserve | driver/callouts/dns_observe.c:56-90 | The bounded exclusion loop observes exactly the enabled, non-excluded port-53 queries and counts each in one place |
| Guardian.Driver.DnsLayerSetConfig | driver/callouts/dns_observe.c:27-43 | A configuration with the right version is stored with ObserveOnly set; any other is refused unchanged |
| Guardian.Driver.PollNdisState | driver/filters/filters.c:144-159 | A poll updates count, generation and reported count as the model does |
| Guardian.Driver.HybridSetMode | driver/filters/filters.c:197-222 | A mode request validates, stops or starts the coordinator, polls and reports as the model does |
| Guardian.Driver.StateImport | driver/state/guardian_state_mgr.c:57-78 | An import changes the generation and the two reported fields, and nothing else |
| Guardian.Driver.RecoveryBegin | driver/recovery/recovery.c:17-25 | Recovery moves the generation and its mirror on together |
| Guardian.Driver.CalloutsRegister | driver/callouts/manager.c:148-202 | The four registrations in turn, each counted, stopping at the first failure |
| Guardian.Driver.DriverEntry | driver/guardian/driver.c:84-148 | Start-up step by step equals the model's entry |
| Guardian.Driver.DriverUnload | driver/guardian/driver.c:150-162 | Unload equals the model's and leaves no pool entry live |
| Guardian.Driver.ReportRequest | driver/ipc/ioctl_dispatch.c:182-185 | The reporting requests fill their structures from the live heap state as the model does |
| Guardian.Driver.DeviceControl | driver/ipc/ioctl_dispatch.c:127-260 | A whole request over the heap state equals the model's dispatch, reply included |
| Guardian.Driver.PerformAll | driver/ipc/ioctl_dispatch.c:127-260 | Every run of the methods goes through the model's states and gives its responses, with valid heap tables |
| Guardian.Lifetime | driver/guardian/driver.c:84-162 | From load to unload: start-up succeeds when the model says; then every answer is the model's, answered requests for an engaged mode block every connection until the next, DNS and request counters account for the events, and unload leaves no pool entry, callout or coordinator |
| TableThreads.EveryInterleaving | driver/policy/app_policy.c:67-118 | The invariant of table, ownership and history survives every step of every thread, whether or not writers overlap a Sync |
| TableThreads.NoUseAfterFree | driver/policy/app_policy.c:77-117 | Whatever step a thread is ready for in any schedule, it reads, writes and frees live entries only, and no entry is freed while linked or held by another thread |
| TableThreads.Linearizable | driver/route/route_assignment.c:76-166 | In any schedule the table is the one the recorded operations leave one by one; each operation computed what the sequential one computes at its place; and every status or record sequence a call returned is that of its own operations, which took effect between its call and its answer |
| TableThreads.ConservedExactly | driver/policy/app_policy.c:67-144 | In any schedule AppIds are distinct and the counter is the list length and at most 4096; live entries number linked plus privately held ones exactly when every re-initialisation of a Sync found the list empty |
| SyncThreads.PoolConserved | driver/policy/app_policy.c:67-144 | In every schedule in which no writer overlaps a Sync, live entries number linked plus privately held ones |
| SyncThreads.SyncView | driver/policy/app_policy.c:121-198 | Every lookup taken while a Sync runs finds the old table or the fold of the payload records set so far, and later lookups the same prefix or a longer one |
| SyncThreads.MatchOnceSeen | driver/policy/app_policy.c:121-198 | The match a lookup found after the drain stays the match of every later prefix exactly when the records to come are harmless to it; then later lookups find it too, and with distinct AppIds so does the finished table |
| SyncThreads.OverlappingWriterLeaks | driver/policy/app_policy.c:133-134 | A schedule from the empty table in which a Set between the drain and the unlocked re-initialisation leaves a live entry nobody reaches |
| DriverThreads.ConcurrentDecision | driver/classify/classify.c:44-136 | Every completed classification of every interleaving belongs to one call of one thread, from the step that began it with its connection to the step that returned it, and is the pure decision over the kill switch, policies and routes at the moments of that thread's own reads in between |
| DriverThreads.BlockedOnceSet | driver/killswitch/killswitch.c:79-138 | Once BlockAll or AllowVpnOnly has taken effect, every classification that reads the switch later is blocked until it is written again |
| DriverThreads.BlockedExactlyFrom | driver/classify/classify.c:65-135 | With the switch off until one request engages it, a classification that reads it after the request is blocked and one that reads it before is decided as with the switch off |
| DriverThreads.InFlightPermitted | driver/classify/classify.c:65-135 | A schedule that permits a classification past its kill-switch read after the request |
| TornDecisions.SingleMomentExactly | driver/classify/classify.c:65-101 | For all states and all contents written, a classification among writes is the decision of one moment between its reads exactly when no policy or route write that it reads follows a kill-switch write that it does not, and no route write that it reads follows such a policy write |
| TornDecisions.SingleMomentDecision | driver/classify/classify.c:44-136 | Every completed classification of every interleaving whose reads are not torn so is the decision of one moment between them |
| TornDecisions.TearPermits | driver/classify/classify.c:65-101 | Every torn pattern has contents under which a driver at rest permits a connection that the decision of every moment blocks |
| TornDecisions.TornDecision | driver/classify/classify.c:65-76 | Such a schedule: the switch is engaged, then the policy opened, between the reads |
| TornDecisions.TornSwitchDecision | driver/classify/classify.c:65-96 | Another: the switch is engaged, then the route opened |
| TornDecisions.TornRouteDecision | driver/classify/classify.c:76-96 | Another without the kill switch: the policy is closed, then the route opened |
| MirrorThreads.MirrorExactly | driver/ipc/ioctl_dispatch.c:205-210 | At every point of every schedule of overlapping requests, for all requested values, a reported mode or generation is the one in force exactly when its last value was not imported and was obtained no earlier than the last value was put into force |
| MirrorThreads.SerialAgrees | driver/filters/filters.c:197-222 | Requests handled one at a time, without imports, leave the reported value in agreement |
| MirrorThreads.RaceDisagrees | driver/ipc/ioctl_dispatch.c:205-210 | Two overlapping requests after which the reported value is the older one |
| MirrorThreads.EnforcedIsSwitch | driver/killswitch/killswitch.c:66-91 | What a request puts into force there is what the kill-switch operation does |
| MirrorThreads.EnforcedIsMode | driver/filters/filters.c:197-222 | The same for the filtering mode |
| MirrorThreads.EnforcedIsGeneration | driver/state/guardian_state_mgr.c:57-78 | The same for the generation |
| DriverThreads.CountersAtEveryInterleaving | driver/telemetry/telemetry.c:46-82 | At every interleaving the total is the four buckets plus the threads between the increments; the three DNS statistics together are the port-53 queries the schedule made, each in the one its configuration called for; the observed ones are the telemetry count plus the pending threads; and the IPC words are the dispatches and rejects recorded |
| DriverThreads.CountersAtQuiescence | driver/telemetry/telemetry.c:41-82 | With no thread under way buckets count the completed results by action, and total plus errors is all of them |

## Left out

- Raw bytes: payloads are decoded records, and a Sync payload has the length its count states; the driver bounds the count but does not relate it to the byte length.
- Policy and route fields that no code reads (hash, SID, package family, profile, SOCKS port) are not in the records.
- The caller and session check (driver/ipc/security.c), device creation, WDF, WFP, registry and Zw calls: arbitrary inputs.
- The spin lock itself: a locked region is one step, so the re-initialisation of the lock during Sync is not modelled beyond the unlocked reset of list and counter, which is one step too.
- The flow of a Sync beside an overlapping writer, beyond ownership, linearizability and the entries it loses: what lookups see then is only what `TableThreads.Linearizable` says.
- The filter count, the coordinator and the poll while mode requests overlap: sequential runs only; of overlapping requests the modes, the generation and the kill-switch mode are modelled, one variable at a time.
- Concurrent updates of the latency sample and of the maxima, which are not atomic: sequential runs only.
- `TableThreads` and `DriverThreads` are transition systems over values, not over heap objects. Their locked steps and the heap methods meet in the same abstract operations (`OrderedTable.SetResult`, `OrderedTable.RemoveResult`, `Decisions.Decide`); a heap model with several threads is not built.
- The flow-established callouts always permit; the DNS layer has no registered callout; version and build constants, reserved fields and counters that never change are not modelled.
- The validator's check for a missing result pointer (driver/ipc/ioctl_dispatch.c:24-26), which its one caller cannot fail.
- Usermode controller, tests, GUID tables and project files.
