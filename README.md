# HPC maintenance orchestrator, modelled in Dafny

This project models the decision logic of a Slurm GPU-cluster maintenance tool.

The tool runs in rounds. Each round:

- lists the OCI instance maintenance events of every compartment and keeps only the events that are scheduled and not yet marked as processed;
- turns each kept event into a maintenance job, with the host name taken from the MGMT inventory and a fault string;
- approves only jobs that carry an approved fault code, and caps the number of jobs per run;
- takes each approved job through four phases: drain (Slurm `scontrol`), maintenance (an OCI update that starts the event early, with a Slurm reason and an MGMT status note), health, and finalize.

The model also covers:

- the configuration layer: `.env` parsing, the approved-code list, excluded hosts and the drain-check override;
- the OCI, Slurm and MGMT adapters: pagination, decoding of `additionalDetails`, work-request results, `scontrol` argument lists, parsing of `State=`, and the order in which MGMT tries node names;
- the reporting helpers: grouping faults by host, building the event table with time-in-state and durations, state filtering and the sort key;
- the stand-alone `gpus.py` script;
- the older `hpc-maintenance/` copy of the tool, which has a broader state filter, no whitelist and no cap, a real resume or NTR finalize, and a `sinfo`-based wait.

How the model is built:

- **External systems.** OCI, Slurm, MGMT, the clock and the file system are oracles held by the `World.Cluster` object. An oracle answers according to how many effects have happened so far.
- **Effects.** Every command run, event fetch, update call, work-request wait, MGMT note, sleep and audit record is appended to the cluster's `trace`. Audit records also go to an append-only `audit` log. Listing calls (compartments and event summaries) are the exception: they are pure page functions given as parameters, they leave no trace entry and they cannot fail.
- **Operations.** Each operation is a method proved against a function that gives its effects and its outcome. The lemmas state the tool's promises over those functions.
- **Waits.** The source waits without a bound: Slurm state polling, waiting for an event to complete, and the periodic loop. The model takes a `fuel` bound and reports a wait that runs out of fuel as still polling (`Hung`).
- **Mutable job.** The job record that the phases update is a class, `Models.MaintenanceJob`. The older copy's record is `LegacyModels.LegacyJob`.
- **Values.** Python values that the code inspects dynamically, such as SDK attributes and decoded JSON, are `PyJson.Json` values.

## Model

| member | source | states |
|---|---|---|
| Config.ParseLines | felix/config.py:19-29 | each line of a `.env` file yields exactly the assignment (or nothing) that its own line asks for, in file order |
| Config.ProcessEnv.LoadEnvFiles | felix/config.py:6-34 | the process environment after loading is `.env` applied first and `.env.local` second, on top of the variables already set |
| Config.ProcessEnv.ReadEnvFile | felix/config.py:15-34 | a missing or unreadable file changes nothing; otherwise the file's lines are applied in order until one raises, and the rest of the file is skipped |
| Config.ApplyAllStops | felix/config.py:18-34 | once an assignment has raised, the later lines of the same file change nothing |
| Config.AssignKeeps | felix/config.py:30-31 | one assignment never changes a key already present in the environment |
| Config.ApplyAllKeeps | felix/config.py:19-31 | a whole file never changes a key already present in the environment |
| Config.ApplyAllSource | felix/config.py:27-31 | every key a file adds is non-empty and was assigned that very value by one of its lines |
| Config.LoadFileSource | felix/config.py:14-31 | every variable a `.env` file sets comes from one of its lines |
| Config.LoadEnvPrecedence | felix/config.py:14-31 | variables already set keep their values, and a variable set by `.env` is not overwritten by `.env.local` |
| Config.ParseEnvLineAssignment | felix/config.py:20-29 | a plain `KEY=value` line, with or without a leading `export `, assigns exactly that key and value |
| Config.EnvBodyOfTrimmed | felix/config.py:20-24 | a trimmed line that is not a comment and has no `export ` prefix is parsed as it stands |
| Config.EnvBodyOfExport | felix/config.py:23-24 | a leading `export ` is removed before the line is parsed |
| Config.SplitAssignmentOf | felix/config.py:27-29 | the first `=` separates the key from the value, and surrounding whitespace and quotes are stripped |
| Config.ReadJsonList | felix/config.py:62-78 | a JSON array yields its elements converted by `str()`, in order; a missing file, unreadable file, invalid JSON or non-array yields the empty list |
| Config.TenancyOcid | felix/config.py:42 | `OCI_TENANCY_OCID` if set and non-empty, else `TENANCY_OCID` if set and non-empty, else the dummy compartment id |
| Config.ProcessedTag | felix/config.py:44 | the `PROCESSED_TAG` variable if set, else `maintenance_processed` |
| Config.SkipDrainCheckIgnoresCase | felix/config.py:55 | the override is on iff the lower-cased value is `true`, `1` or `yes`, and upper- or lower-casing the value never changes the answer |
| Config.SkipDrainCheckValues | felix/config.py:55 | the override is off when the variable is unset; `Yes` and `TRUE` turn it on, while `on` and `0` do not |
| Config.EnvApprovedCodesClean | felix/config.py:85-86 | every code taken from `APPROVED_FAULT_CODES` is non-empty, contains no comma and has no surrounding whitespace |
| Config.EnvApprovedCodesOfList | felix/config.py:85-86 | a set of clean codes written as a comma-separated list is read back as the same set |
| Config.ApprovedFaultsClean | felix/config.py:104-113 | no approved code is empty or has surrounding whitespace; a non-empty file replaces the environment list completely |
| Config.IsHostExcluded | felix/config.py:98-102 | a host is excluded iff its name is exactly one of the file's entries |
| Config.FirstApprovedIsFirstMatch | felix/config.py:115-124 | a code is returned iff it is the first id that exactly matches an approved code |
| Config.FirstApprovedNone | felix/config.py:115-124 | nothing is returned iff no id exactly matches, so an id that differs only in case or whitespace is never approved |
| Config.IsFaultApproved | felix/config.py:115-124 | the ids are scanned in order and the first exact member of the approved set is returned; a missing list counts as empty |
| Common.WorkRequestTerminalStatuses | felix/common.py:86-88 | a work request is terminal iff its status is exactly `SUCCESSFUL`, `FAILED` or `CANCELED` |
| Common.PaginatedApiToGenerator | felix/common.py:91-108 | the first call passes no page token and each later call passes the previous reply's `next_page`; the loop stops after the first reply without a next page, and the items are all pages' items in call order |
| Common.JsonStringToObject | felix/common.py:133-137 | a string is JSON-decoded and fails iff decoding fails; any other value is returned unchanged |
| Common.MakeFault | felix/common.py:140-147 | a fault record is built iff the value is a dict holding all six keys, and its id and component are the dict's `faultId` and `faultComponent` |
| Common.MakeRepair | felix/common.py:153-157 | a repair record is built iff the value is a dict holding all three keys |
| Common.MakeFaults | felix/common.py:126 | the list conversion succeeds iff every element converts, and then yields each element's fault record in order |
| Common.MakeRepairs | felix/common.py:122 | the list conversion succeeds iff every element converts; then the result holds, at each position, exactly the record built from the element at that position |
| Common.GetAdditionalDetails | felix/common.py:111-130 | missing details give no address, no repairs and no faults; otherwise it succeeds iff both entry lists decode and every entry converts, a `repairDetails` list that does not decode is the error reported, and on success the address is the `ipAddress` entry (None when absent), the repairs are the converted `repairDetails` entries and the faults the converted `faultDetails` entries, each in order |
| Common.AdditionalDetailsDefaults | felix/common.py:117-130 | details without the two list keys give the address entry (or None), no repairs and no faults |
| Common.FaultDetailsAsText | felix/common.py:124-126 | a `faultDetails` value given as JSON text decodes exactly like the value it encodes |
| Models.MaintenanceJob.constructor | maintenancetool/models.py:5-17 | a new job holds the given event, hostname, fault string and fault ids, no approved fault, no work request, not done and no health result |
| Models.MaintenanceJob.Reason | maintenancetool/phases/drain.py:6 | the reason reported is the approved fault when one is set and non-empty, otherwise the discovered fault string |
| LegacyModels.LegacyJob.constructor | hpc-maintenance/maintenancetool/models.py:5-12 | a new job holds the given event, hostname and fault string, no work request, not done and no health result |
| Utils.RunOutcome | hpc-maintenance/maintenancetool/utils.py:5-14 | with `check` set, a non-zero return code raises RuntimeError carrying the stripped stderr; otherwise the stripped stdout is returned, whatever the return code |
| Utils.RunOutcomeStripped | hpc-maintenance/maintenancetool/utils.py:14 | what `run_cmd` returns is already stripped |
| Utils.Paginated | hpc-maintenance/maintenancetool/utils.py:16-23 | the first call passes no page and each later call passes the previous reply's `next_page`; the loop stops after the first page whose `next_page` is None, and the items are every page's items in call order |
| Utils.PagedList | hpc-maintenance/maintenancetool/utils.py:16-23 | a caller of `paginated` receives every item the call chain yields, in order |
| Utils.ItemsOfSnoc | hpc-maintenance/maintenancetool/utils.py:19 | one more call appends exactly that page's items |
| Utils.CallsFromStep | hpc-maintenance/maintenancetool/utils.py:20-23 | a page with no `next_page` ends the chain, and otherwise the chain continues from that page token |
| Utils.ItemsOfAppend | hpc-maintenance/maintenancetool/utils.py:19 | the items of a chain split at any point into the items before and after it, so no item is lost or repeated |
| Utils.ChainedUnique | hpc-maintenance/maintenancetool/utils.py:16-23 | two call chains of the same length are the same calls: the page tokens are fixed by the replies |
| World.Cluster.RunCmd | hpc-maintenance/maintenancetool/utils.py:5-14 | one command is recorded in the trace and its outcome is the `run_cmd` outcome of the completed process |
| World.Cluster.LogEvent | felix/eventlog.py:12-28 | the record is added to the audit log as attempted, whatever the file system does, and noted in the trace |
| Oci.ListCompartments | maintenancetool/oci_utils.py:25-30 | the result is the tenancy followed by the id of every compartment the paginated listing yields |
| Oci.CompartmentsTenancyFirst | maintenancetool/oci_utils.py:25-30 | the tenancy is always searched and comes first; the rest is exactly the listed compartments, in order |
| Oci.DetailsOf | maintenancetool/oci_utils.py:45-51 | each tag dict is passed on iff it is truthy, and then unchanged; the window start is passed on whenever it is given |
| Oci.WorkRequestOf | maintenancetool/oci_utils.py:64-74 | a work-request id is returned iff the call returned a response whose headers hold `opc-work-request-id`, and it is that header's value |
| Oci.TriggerUpdate | maintenancetool/oci_utils.py:34-74 | exactly one update call with those details, then a wait on the work request iff one was returned; the result is the header value or None |
| Oci.WorkRequestRejections | maintenancetool/oci_utils.py:64-74 | a raised call, a None reply and a reply without the header all give None; any reply with the header is accepted |
| Oci.EventComplete | maintenancetool/oci_utils.py:99-110 | completion is reported only for a returned event, and then iff its state is SUCCEEDED, FAILED, CANCELED or COMPLETED |
| Oci.EventCompleteStates | maintenancetool/oci_utils.py:99-110 | SCHEDULED, STARTED, PROCESSING or no state is not complete, the four final states are; a raised call or a missing reply never counts as completion |
| Oci.IsEventComplete | maintenancetool/oci_utils.py:99-110 | one event fetch is recorded, and the answer is the completion test on its reply |
| Oci.NodeEntry | maintenancetool/oci_utils.py:116 | a node yields an entry iff it is a dict with `ocid` (and with `hostname` in the strict reading), keyed by that `ocid` |
| Oci.NodeMapOk | maintenancetool/oci_utils.py:116 | the OCID-to-host map is built iff every node is readable |
| Oci.NodeMapLast | maintenancetool/oci_utils.py:116 | a built map sends each OCID to the hostname of the last node carrying it |
| Oci.NodeMapKeys | maintenancetool/oci_utils.py:116 | a built map holds no OCID that no node carries |
| Oci.NodeMapLaterWins | maintenancetool/oci_utils.py:116 | when two nodes carry the same OCID, the later one's hostname is the one kept |
| Oci.HostMapOf | maintenancetool/oci_utils.py:114-116 | output that is not JSON raises |
| Oci.GpusFor | maintenancetool/oci_utils.py:112-117 | succeeds iff the command succeeded and its output reads as a host map; the result is a one-element list holding the OCID's hostname, or `""` when the OCID is unknown |
| Oci.GetGpusForOcid | maintenancetool/oci_utils.py:112-117 | one node-list command is recorded, and the result is the lookup on its output |
| Oci.GetGpuOcidDict | maintenancetool/oci_utils.py:119-124 | one lookup per OCID in order, stopping at the first that raises; the trace holds one node-list command per lookup made |
| Oci.GpuDictKeys | maintenancetool/oci_utils.py:119-124 | a built dict has exactly the requested OCIDs as keys, each holding a one-element list, and the command ran once per OCID |
| Discovery.Prepend | maintenancetool/phases/discovery.py:65 | jobs found so far are kept in front of the rest of the run's jobs, and the run fails iff the rest fails |
| Discovery.PrependTwice | maintenancetool/phases/discovery.py:65 | appending findings in two steps is appending them joined |
| Discovery.DiscoveredHead | maintenancetool/phases/discovery.py:27-67 | one summary at a time: a screened-out summary is skipped without a fetch; a kept one is fetched, then skipped or turned into a job; a raising screen or fetch ends the run in error |
| Discovery.DiscoveredAppend | maintenancetool/phases/discovery.py:26-67 | discovery over two runs of summaries is discovery over the first followed by the second, so jobs come out in listing order |
| Discovery.DiscoveredAppendErr | maintenancetool/phases/discovery.py:26-67 | an error ends discovery there: summaries after it are never looked at |
| Discovery.DiscoveredFetchesKept | maintenancetool/phases/discovery.py:30-32 | only summaries the screen keeps are fetched, at most one fetch per summary |
| Discovery.DiscoveredFromKept | maintenancetool/phases/discovery.py:30-65 | every job comes from a summary the screen kept |
| Discovery.ScreenScheduled | maintenancetool/phases/discovery.py:30-31 | `("SCHEDULED")` is a string, so the test is a substring test: a state is kept iff it is a piece of `SCHEDULED`, and a missing state raises |
| Discovery.ScreenScheduledProviderStates | maintenancetool/phases/discovery.py:30-31 | among the states the provider reports, the substring test keeps exactly `SCHEDULED` |
| Discovery.FaultDetailsValue | maintenancetool/phases/discovery.py:41-49 | with neither `fault_details` nor `faultDetails` truthy, the fault details are the empty list |
| Discovery.FaultIdsContents | maintenancetool/phases/discovery.py:51-55 | the id list keeps only truthy ids, each taken from a detail; when every detail has one, it is exactly the ids in detail order |
| Discovery.CollectFaultIds | maintenancetool/phases/discovery.py:51-55 | the loop builds the id list the specification function describes |
| Discovery.FaultStrPieces | maintenancetool/phases/discovery.py:57-60 | each detail contributes exactly one `id_component` piece, pieces are joined with `_`, and a detail with no id still contributes a piece |
| Discovery.ReplyStep | maintenancetool/phases/discovery.py:32-67 | a None reply and an event already tagged as processed are skipped; a job is made only for the fetched event, and only when the host map has a truthy hostname for its instance; the job's fault string and fault ids are those of the event's fault details |
| Discovery.ReplyStepEmits | maintenancetool/phases/discovery.py:36-67 | a fetched event makes a job iff it is not tagged as processed, its fault details read as a list of dicts and its instance has a truthy hostname |
| Discovery.ProcessReply | maintenancetool/phases/discovery.py:32-67 | the statement-by-statement handling of a fetched event agrees with the specification function |
| Discovery.FetchStep | maintenancetool/phases/discovery.py:32 | exactly one event fetch for the summary's id, and its reply decides the step |
| Discovery.DiscoverPage | maintenancetool/phases/discovery.py:27-67 | the inner loop's fetches and jobs are those of the discovery fold over the page's summaries, and it fails exactly when the fold fails |
| Discovery.DiscoverCompartments | maintenancetool/phases/discovery.py:26-67 | every compartment in turn, every summary of its listing, the jobs appended in order; an error ends the whole run |
| Discovery.MakeJobs | maintenancetool/phases/discovery.py:65 | one new, distinct job per finding, in order, with every phase field at its default |
| Discovery.Discover | maintenancetool/phases/discovery.py:11-72 | loads the strict host map, lists the compartments and walks them; the trace and jobs are those of the discovery outcome, and any error raises out of the whole run |
| LegacyDiscovery.LegacyScreen | hpc-maintenance/maintenancetool/phases/discovery.py:30-31 | a tuple test: a state is kept iff it is SCHEDULED, STARTED or PROCESSING, and a missing state is dropped without raising |
| LegacyDiscovery.LegacyScreenWider | hpc-maintenance/maintenancetool/phases/discovery.py:30-31 | the older screen keeps every provider state the newer one keeps, and in addition exactly STARTED and PROCESSING |
| LegacyDiscovery.LegacyFaultPiece | hpc-maintenance/maintenancetool/phases/discovery.py:42 | a piece is built iff the detail is a dict holding `fault_id` and `component`, and it is their texts joined by `_` |
| LegacyDiscovery.LegacyFaultPiecesOk | hpc-maintenance/maintenancetool/phases/discovery.py:41-44 | the pieces exist iff every detail is readable, and then there is one piece per detail, in order |
| LegacyDiscovery.LegacyFaultStr | hpc-maintenance/maintenancetool/phases/discovery.py:41-44 | details without a `fault_details` list give the empty fault string |
| LegacyDiscovery.LegacyFaultStrAgrees | hpc-maintenance/maintenancetool/phases/discovery.py:41-44 | when every detail carries a truthy `fault_id` and `component`, the older and newer discovery build the same fault string |
| LegacyDiscovery.LegacyReplyStep | hpc-maintenance/maintenancetool/phases/discovery.py:32-51 | a None reply and an already processed event are skipped; a job is made only for the fetched event with a truthy hostname in the host map, with no fault ids and the older fault string |
| LegacyDiscovery.LegacyReplyStepEmits | hpc-maintenance/maintenancetool/phases/discovery.py:36-51 | a fetched event makes a job iff it is not tagged as processed, its fault string builds and its instance has a truthy hostname |
| LegacyDiscovery.MakeLegacyJobs | hpc-maintenance/maintenancetool/phases/discovery.py:49 | one new, distinct older-style job per finding, in order |
| LegacyDiscovery.LegacyDiscover | hpc-maintenance/maintenancetool/phases/discovery.py:11-55 | the older `discover`: the trace and jobs are those of the older discovery outcome, and any error raises out of the whole run |
| Slurm.SetReasonIsDrainWithoutState | maintenancetool/slrum_utils.py:42-48 | the reason-only command is the drain command without its `STATE=DRAIN` argument |
| Slurm.DrainArgvInjective | maintenancetool/slrum_utils.py:7-12 | a drain command line names exactly one node and one reason: different arguments give different command lines |
| Slurm.StateToken | maintenancetool/slrum_utils.py:55-60 | the word found, if any, starts with `State=` |
| Slurm.GetStateOf | maintenancetool/slrum_utils.py:51-62 | the state read from the command's output holds no upper-case letter |
| Slurm.StateOfToken | maintenancetool/slrum_utils.py:56-61 | the state a `State=` word, or its absence, stands for holds no upper-case letter |
| Slurm.StateTokenNone | maintenancetool/slrum_utils.py:55-60 | without a `State=` word no word is found |
| Slurm.GetStateOfNoToken | maintenancetool/slrum_utils.py:54-62 | output without a `State=` word gives the empty state |
| Slurm.StateTokenAfter | maintenancetool/slrum_utils.py:55-60 | the first `State=` word is the one read, whatever follows it |
| Slurm.StateValueOf | maintenancetool/slrum_utils.py:57-59 | the value read out of `State=v` is `v` without its trailing commas |
| Slurm.GetStateOfLine | maintenancetool/slrum_utils.py:51-62 | for an output line whose first `State=` word carries `v`, the state is `v` lower-cased with trailing commas dropped and flags such as `+DRAIN` kept |
| Slurm.StateLineWords | maintenancetool/slrum_utils.py:55 | splitting such a line gives back the words it was joined from |
| Slurm.StateOfTokenOf | maintenancetool/slrum_utils.py:57-61 | the state of `State=v` is `v` lower-cased without trailing commas |
| Slurm.GetStateOfClean | maintenancetool/slrum_utils.py:51-62 | a node's state never holds whitespace and never ends in a comma |
| Slurm.CleanValue | maintenancetool/slrum_utils.py:59-61 | dropping trailing commas and lower-casing keeps a value free of whitespace and leaves no comma at its end |
| Slurm.StateTokenIn | maintenancetool/slrum_utils.py:55-60 | the word found is one of the output's words |
| Slurm.Drain | maintenancetool/slrum_utils.py:7-13 | one `scontrol update NODENAME=… REASON="…" STATE=DRAIN` command, checked |
| Slurm.SetReason | maintenancetool/slrum_utils.py:42-49 | one `scontrol update` command carrying only the node and the reason, checked |
| Slurm.Resume | maintenancetool/slrum_utils.py:32-35 | one `STATE=RESUME` command with reason `Maintenance_OK`, checked |
| Slurm.MarkNtr | maintenancetool/slrum_utils.py:37-40 | one `STATE=DRAIN` command with reason `PostMaint_Failure` and `FEATURES+=NTR`, checked |
| Slurm.GetState | maintenancetool/slrum_utils.py:51-62 | one `scontrol show node` command; the state is read from its stripped output, and a failed command raises |
| Slurm.WaitUntil | maintenancetool/slrum_utils.py:15-30 | the shared polling loop: state probes separated by sleeps of the poll interval, as the wait specification describes |
| Slurm.WaitState | maintenancetool/slrum_utils.py:15-21 | poll until the target is a substring of the state, sleeping the poll interval between probes |
| Slurm.WaitDrainedEmpty | maintenancetool/slrum_utils.py:23-30 | poll until the state contains both `drain` and `idle`, sleeping the poll interval between probes |
| Slurm.DrainedWaitReached | maintenancetool/slrum_utils.py:23-30 | the wait stops at a state only when it is drained and idle, after every earlier probe saw a state that was not |
| Polling.PollEffects | maintenancetool/slrum_utils.py:23-30 | a wait does nothing but probe and sleep |
| Polling.PollShape | maintenancetool/slrum_utils.py:23-30 | some number of probes are rejected, each followed by a sleep; then the budget is spent, or one more probe ends the wait with the error it raised or the answer it gave, which the wait accepts |
| Polling.PollReachedIff | maintenancetool/slrum_utils.py:23-30 | a wait ends with an answer iff some probe within the budget gives that accepted answer after only rejected probes |
| Polling.PollReachedSome | maintenancetool/slrum_utils.py:23-30 | a wait ends with some accepted answer iff, within the budget, a probe gives one after only rejected probes |
| Polling.PollEndsAt | maintenancetool/slrum_utils.py:25-30 | after some rejected probes, the next probe within the budget decides the end: an error raises, an accepted answer returns, and otherwise the wait goes on |
| LegacySlurm.LineMatch | hpc-maintenance/maintenancetool/slrum_utils.py:19-20 | a line raises ValueError iff it holds fewer than two words; it matches only when its first word is the host and the lower-cased state starts with the target |
| LegacySlurm.ScanLinesStops | hpc-maintenance/maintenancetool/slrum_utils.py:18-22 | the scan stops at the first line that matches or raises, and every line before it neither matched nor raised; with no such line, nothing is found |
| LegacySlurm.ScanSinfo | hpc-maintenance/maintenancetool/slrum_utils.py:18-22 | the line-by-line loop gives the answer of the scan specification |
| LegacySlurm.SinfoProbe | hpc-maintenance/maintenancetool/slrum_utils.py:17-22 | one `sinfo` listing is recorded and scanned |
| LegacySlurm.WaitState | hpc-maintenance/maintenancetool/slrum_utils.py:15-23 | list, scan and sleep until the node's line shows a state starting with the target, or a probe raises |
| LegacySlurm.WaitStateReached | hpc-maintenance/maintenancetool/slrum_utils.py:15-23 | the wait returns only once some listing held a line for the host whose state starts with the target, every earlier line and listing having not matched |
| LegacySlurm.SinfoProbeTrue | hpc-maintenance/maintenancetool/slrum_utils.py:17-22 | a listing that answered true holds a line for the host in the target state, after only well-formed lines that did not match |
| DrainPhase.DrainReturned | maintenancetool/phases/drain.py:4-9 | the phase returns iff the drain command succeeded and a later probe, after only probes that were not, saw the node drained and idle |
| DrainPhase.DrainRunQuiet | maintenancetool/phases/drain.py:4-9 | the drain phase only runs commands and sleeps; it never writes an audit record |
| DrainPhase.Execute | maintenancetool/phases/drain.py:4-9 | drains with the job's reason (the approved fault when set, else the fault string), then waits until the node is drained and idle |
| FelixDrainPhase.FelixDrainGuard | felix/phases/drain.py:5-31 | the node is drained iff the event is a downtime host maintenance whose action is not TERMINATE; a TERMINATE action leaves only the skip record; the drained record is written iff an eligible drain returned |
| FelixDrainPhase.Execute | felix/phases/drain.py:5-31 | the guarded drain: the skip record, or the request record, the drain, the wait and the drained record, in that order |
| MaintenancePhase.WindowDetails | maintenancetool/phases/maintenance.py:22-27 | the update carries no tags and a window opening five minutes after the clock reading, in UTC to the second with a `Z` |
| MaintenancePhase.MaintenanceActsOnScheduled | maintenancetool/phases/maintenance.py:11-52 | only a SCHEDULED event with an id is acted on, and then the first effect is the update with the five-minute window; the phase never raises |
| MaintenancePhase.CompletionNeverRaises | maintenancetool/phases/maintenance.py:43-44 | the completion wait ends by reaching completion or by running out of budget, never by raising |
| MaintenancePhase.MaintenanceDoneMeansFinished | maintenancetool/phases/maintenance.py:20-45 | the job is marked done only for a SCHEDULED event whose update was accepted, and only after the completion wait reached completion |
| MaintenancePhase.FollowUpReached | maintenancetool/phases/maintenance.py:43-45 | the wait after the notifications reaches completion only once a probe, after probes that saw the event unfinished, found it in a final state |
| MaintenancePhase.CompleteProbe | maintenancetool/phases/maintenance.py:43 | one completion probe is one event fetch |
| MaintenancePhase.WaitComplete | maintenancetool/phases/maintenance.py:43-44 | fetch, then sleep the poll interval, until the event is reported complete |
| MaintenancePhase.Notify | maintenancetool/phases/maintenance.py:30-40 | with a non-empty reason the Slurm reason is set to `NTR scheduled: <reason>` and a failure is ignored; then the MGMT status update |
| MaintenancePhase.FollowUp | maintenancetool/phases/maintenance.py:30-45 | the notifications, then the completion wait |
| MaintenancePhase.Execute | maintenancetool/phases/maintenance.py:11-52 | the trace, work request and done flag are those of the maintenance run; the approved fault and health result are untouched |
| HealthPhase.Execute | maintenancetool/phases/health.py:7-15 | the node is taken as healthy, the pass is audited, and nothing else in the job changes |
| FinalizePhase.Decision | maintenancetool/phases/finalize.py:8 | the decision is `resume` or `ntr` |
| FinalizePhase.DecisionIff | maintenancetool/phases/finalize.py:8 | the decision is `resume` iff the node was found healthy; an unknown health result gives `ntr` |
| FinalizePhase.Execute | maintenancetool/phases/finalize.py:6-18 | only the finalize record with the decision is written; the node is left as it is |
| LegacyDrainPhase.LegacyDrainReturned | hpc-maintenance/maintenancetool/phases/drain.py:4-6 | the older drain returns iff the drain command succeeded and a listing, after listings without it, showed the node in a state starting with `drain` |
| LegacyDrainPhase.Execute | hpc-maintenance/maintenancetool/phases/drain.py:4-6 | drains with the fault string, then waits for a state starting with `drain` |
| LegacyMaintenancePhase.LegacyMaintenanceDiffers | hpc-maintenance/maintenancetool/phases/maintenance.py:18-31 | for a SCHEDULED event whose update was not accepted, both copies make the same single update call, but the older copy marks the job done and the newer one does not |
| LegacyMaintenancePhase.Execute | hpc-maintenance/maintenancetool/phases/maintenance.py:9-35 | the trace, work request and done flag are those of the older maintenance run |
| LegacyFinalizePhase.FinalizeAgrees | hpc-maintenance/maintenancetool/phases/finalize.py:4-5 | the older copy resumes the node iff the newer decision is `resume`, and marks it NTR iff that decision is `ntr` |
| LegacyFinalizePhase.Execute | hpc-maintenance/maintenancetool/phases/finalize.py:4-5 | one command, resume or mark NTR, whose failure propagates |
| Orchestrator.ProcessDrainsFirst | maintenancetool/orchestrator.py:14-21 | the provider is asked to start maintenance only after the drain returned; a job that gets through every phase is healthy and its last effect is the finalize record saying `resume` |
| Orchestrator.AfterDrain | maintenancetool/orchestrator.py:17-19 | maintenance, health and finalize in order, as the process specification describes, leaving the approved fault untouched |
| Orchestrator.Process | maintenancetool/orchestrator.py:14-21 | the four phases in order; a phase that raises ends the job, which is logged and not re-raised |
| Orchestrator.ProcessJob | maintenancetool/orchestrator.py:14-21 | `_process` as seen from the job's state before it starts |
| Orchestrator.GateRun | maintenancetool/orchestrator.py:30-37 | the gate lets jobs through in discovery order, each with the non-empty code its ids matched |
| Orchestrator.GateExact | maintenancetool/orchestrator.py:30-37 | the gate raises iff some lookup raises; a job is let through iff its ids match a non-empty approved code and no lookup before it raised |
| Orchestrator.GateStops | maintenancetool/orchestrator.py:31-32 | once a lookup has raised, the later jobs are not looked at |
| Orchestrator.GatePickedBefore | maintenancetool/orchestrator.py:31-35 | until a lookup raises, the gate lets through exactly the admitted jobs |
| Orchestrator.GateAll | maintenancetool/orchestrator.py:31-35 | with no lookup raising, the gate lets through exactly the admitted jobs |
| Orchestrator.ApproveJob | maintenancetool/orchestrator.py:32-34 | the job's ids are looked up, and a code that admits the job is written to its approved fault; nothing else changes |
| Orchestrator.ApproveJobs | maintenancetool/orchestrator.py:30-37 | the loop gives the gate's jobs in order, or TypeError iff some lookup raises; every admitted job before that has its code written, the other jobs are untouched |
| Orchestrator.Capped | maintenancetool/orchestrator.py:44 | the capped list is a prefix of the approved list |
| Orchestrator.CappedLength | maintenancetool/orchestrator.py:44-46 | with a non-negative cap, `min(len, cap)` jobs are kept; the guardrail warning fires iff some job was dropped, which with a negative cap means whenever any job was approved |
| Orchestrator.PoolSize | maintenancetool/orchestrator.py:49 | the pool has `min(jobs, MAX_WORKERS)` workers and raises ValueError unless that is positive |
| Orchestrator.PoolForApproved | maintenancetool/orchestrator.py:44-49 | with a positive cap and worker limit, a run with approved jobs always gets a pool |
| Orchestrator.ProcessAll | maintenancetool/orchestrator.py:49-50 | the dispatch processes at most the jobs it is given |
| Orchestrator.ProcessAllEffects | maintenancetool/orchestrator.py:49-50 | the trace of the dispatch is the jobs' effects one after the other |
| Orchestrator.ProcessAllStops | maintenancetool/orchestrator.py:14-50 | failure is isolated to its job: in the sequential dispatch, a job that raises does not stop the later ones, only a job that hangs does, and every job runs when none hangs |
| Orchestrator.ProcessAllSteps | maintenancetool/orchestrator.py:49-50 | the jobs are processed in order, each from the trace position where the one before left off |
| Orchestrator.ProcessAllUnique | maintenancetool/orchestrator.py:49-50 | the dispatch is determined by its outcomes: outcomes that follow one another and stop only at a hang or after every job are the dispatch |
| Orchestrator.ProcessEach | maintenancetool/orchestrator.py:49-50 | each capped job in turn, its state updated as its outcome says; the dispatch finishes iff no job hung, and the jobs not reached are untouched |
| Orchestrator.PlanOutcome | maintenancetool/orchestrator.py:23-50 | a run raises TypeError iff some job's ids cannot be looked up; it does nothing iff no job is admitted; with a non-negative cap, the pool raises ValueError iff jobs were admitted but the cap or `MAX_WORKERS` is not positive |
| Orchestrator.PlanDispatch | maintenancetool/orchestrator.py:30-50 | the jobs handed to the pool are admitted jobs in discovery order, at most `cap` of them and all of them when fewer were admitted, each to be drained with its approved code |
| Orchestrator.GatedViews | maintenancetool/orchestrator.py:30-50 | after the gate, the capped jobs reach `_process` fresh from discovery, with their approved code set |
| Orchestrator.DispatchApproved | maintenancetool/orchestrator.py:44-50 | the cap, the pool and the dispatch give the trace and end of the run plan |
| Orchestrator.RunFound | maintenancetool/orchestrator.py:25-50 | after discovery returned jobs, the trace and end are those of the run plan |
| Orchestrator.RunOnce | maintenancetool/orchestrator.py:23-50 | `run_once`: discovery, gate, cap and dispatch, with the trace and end of the run specification |
| Orchestrator.LoopRunExtends | maintenancetool/orchestrator.py:52-60 | one more round only extends the trace, and after a hang nothing more happens |
| Orchestrator.LoopSurvivesRaise | maintenancetool/orchestrator.py:55-60 | while no round hangs the loop goes on: an exception in a round does not end it, and every round is followed by its sleep |
| Orchestrator.LoopRound | maintenancetool/orchestrator.py:56-59 | one round of the loop is one `run_once` |
| Orchestrator.RunLoop | maintenancetool/orchestrator.py:52-60 | `run_loop` for a given number of rounds, with the trace of the loop specification; `hung` iff a round never returned |
| LegacyOrchestrator.LegacyAfterDrainStops | hpc-maintenance/maintenancetool/orchestrator.py:17-19 | a maintenance phase that did not return ends the job there, with its effects and its end |
| LegacyOrchestrator.LegacyAfterDrainTail | hpc-maintenance/maintenancetool/orchestrator.py:17-19 | after a maintenance phase that returned, the health check and then the finalize command follow, their effects appended and their end the job's |
| LegacyOrchestrator.LegacyDrainsFirst | hpc-maintenance/maintenancetool/orchestrator.py:14-21 | the provider is asked for maintenance only after the older drain returned |
| LegacyOrchestrator.LegacyFinalizesLast | hpc-maintenance/maintenancetool/orchestrator.py:18-19 | the finalize command runs iff health returned; a job that gets through ends with the resume command iff `health_ok` is true, and with the NTR drain otherwise |
| LegacyOrchestrator.LegacyTail | hpc-maintenance/maintenancetool/orchestrator.py:18-19 | health then finalize, as the tail specification describes, leaving the work request and done flag untouched |
| LegacyOrchestrator.LegacyAfterDrain | hpc-maintenance/maintenancetool/orchestrator.py:17-19 | maintenance, health and finalize of the older copy, as the specification describes |
| LegacyOrchestrator.LegacyProcess | hpc-maintenance/maintenancetool/orchestrator.py:14-21 | the four older phases in order; a phase that raises ends the job, which is logged and not re-raised |
| LegacyOrchestrator.LegacyProcessEach | hpc-maintenance/maintenancetool/orchestrator.py:30-31 | each discovered job in turn; the dispatch finishes iff no job hung, and the jobs not reached are untouched |
| LegacyOrchestrator.LegacyPlanOutcome | hpc-maintenance/maintenancetool/orchestrator.py:23-31 | the older copy stops only when nothing was found, raises ValueError only for a worker limit below one, and otherwise hands every discovered job, in order and with its fault string as the reason, to the pool |
| LegacyOrchestrator.LegacyRunFound | hpc-maintenance/maintenancetool/orchestrator.py:25-31 | once discovery returned jobs, the trace and end are those of the older run plan |
| LegacyOrchestrator.LegacyRunOnce | hpc-maintenance/maintenancetool/orchestrator.py:23-31 | the older `run_once`: discovery, then the dispatch of every job, with the trace and end of the run specification |
| Mgmt.FirstExistingIsFirst | felix/mgmt_utils.py:14-35 | the path found is the earliest existing one, and nothing is found iff none of the paths exists |
| Mgmt.FindManagePy | felix/mgmt_utils.py:7-35 | the first existing path among `MGMT_MANAGE_PATH` (when set), `/config/mgmt/manage.py` and the relative candidates, in that order |
| Mgmt.NodesListText | felix/mgmt_utils.py:46-57 | the node list text is the command's output iff the command returned 0 and printed something |
| Mgmt.MatchHostFirst | felix/mgmt_utils.py:66-68 | a hostname is taken only from the first node whose `ocid` matches, every node before it being a dict with another OCID |
| Mgmt.HostnameForOcid | felix/mgmt_utils.py:59-71 | one run of the node-list command, then the first matching node's hostname, or None |
| Mgmt.ComputeStatusLower | felix/mgmt_utils.py:103 | the compute status is lower case, it is `ntr` iff the status starts with `ntr` ignoring case, and otherwise it is the lower-cased status |
| Mgmt.AttemptNames | felix/mgmt_utils.py:95-114 | nothing is tried iff there is neither an OCID nor a hostname; every name tried is truthy; the OCID comes first, the resolved hostname second, and a non-empty hostname is always tried |
| Mgmt.BuildAttempts | felix/mgmt_utils.py:107-114 | the name list built by appends; the hostname lookup runs only when there is an OCID |
| Mgmt.AllAttempts | felix/mgmt_utils.py:116-126 | one `configurations update --name … --fields …` command per name, in order |
| Mgmt.TryNamesCommands | felix/mgmt_utils.py:116-140 | the commands run are the update commands for the names, in order, none skipped and none repeated |
| Mgmt.TryNamesOutcomes | felix/mgmt_utils.py:127-140 | every command run but the last failed, and the loop stops before the last name only after a success |
| Mgmt.TryNamesAllFail | felix/mgmt_utils.py:116-140 | when every run fails, every name is tried, in order |
| Mgmt.TryNamesHas | felix/mgmt_utils.py:116-140 | when every run fails, each name is tried |
| Mgmt.UpdateTriesHostname | felix/mgmt_utils.py:73-140 | with `manage.py` present and a non-empty hostname, an update whose attempts all fail includes the attempt under the raw hostname |
| Mgmt.TryUpdate | felix/mgmt_utils.py:116-140 | the attempts loop runs the commands of the attempts specification |
| Mgmt.UpdateNodeStatus | felix/mgmt_utils.py:73-140 | the update never raises, and what it does is the commands of the update specification |
| Mgmt.NonEmpty | felix/mgmt_utils.py:159 | exactly the non-empty entries are kept |
| Mgmt.NodesArgRoundTrip | felix/mgmt_utils.py:159-162 | the nodes argument is empty iff every entry is; with no comma in an entry, splitting it at commas gives back the non-empty entries |
| Mgmt.ReconfigureCompute | felix/mgmt_utils.py:142-190 | False without a command when `manage.py` is missing or no entry is non-empty; otherwise one command, and True iff it returned 0 |
| EventsCommon.SecondsBetween | maintenancetool/events_common.py:51-57 | None iff either time is missing; otherwise the seconds from start to end, and 0 when the end is not after the start |
| EventsCommon.SecondsBetweenAdds | maintenancetool/events_common.py:51-57 | durations add up along ordered times: created to finished is created to started plus started to finished |
| EventsCommon.ShownOf | maintenancetool/events_common.py:62-80 | days and hours from one day on, hours and minutes from one hour on, minutes and seconds from one minute on, else seconds; each smaller unit is the remainder and never reaches the next unit |
| EventsCommon.FmtDuration | maintenancetool/events_common.py:59-80 | a dash iff there is no duration; otherwise the text ends in `h` iff the duration is at least a day, in `m` iff it is from one hour to a day, and in `s` below an hour |
| EventsCommon.FmtDurationSecondsReadBack | maintenancetool/events_common.py:76-80 | below a minute the text is the two-digit seconds count followed by ` s`, and it reads back as the duration |
| EventsCommon.OrdinalSuffix | maintenancetool/events_common.py:90-94 | the suffix is `st`, `nd`, `rd` or `th`, and `th` for every day whose last two digits are 10 to 20 |
| EventsCommon.OrdinalDaysOfMonth | maintenancetool/events_common.py:90-94 | over the days of a month: `st` iff 1, 21 or 31; `nd` iff 2 or 22; `rd` iff 3 or 23; `th` otherwise |
| EventsCommon.ColorEventType | maintenancetool/events_common.py:100-106 | the two disruptive types, in any case, become their coloured upper-case names; any other name is shown as it is and a missing one as empty text |
| EventsCommon.ColorEventTypeIgnoresCase | maintenancetool/events_common.py:100-106 | names differing only in case are coloured alike, and a name of neither type keeps its own spelling |
| EventsCommon.PickCreatedOrStarted | maintenancetool/events_common.py:108-114 | a SCHEDULED event shows its creation time; any other shows its start time, or its creation time when it has not started |
| EventsCommon.TimeInStateFrozen | maintenancetool/events_common.py:184-192 | a finished event's time in state does not depend on when the report runs and equals its total processing time |
| EventsCommon.TimeInStateGrows | maintenancetool/events_common.py:184-195 | any other event's time in state grows with the report time, and is known iff the time it counts from is |
| EventsCommon.LenientEntry | maintenancetool/events_common.py:39 | a node that is not a dict raises; a node contributes an entry only when its `ocid` and `hostname` are both truthy |
| EventsCommon.LenientMap | maintenancetool/events_common.py:39 | every key and every hostname of the lenient map is truthy |
| EventsCommon.MgmtHostMap | maintenancetool/events_common.py:26-39 | output that is not JSON gives the empty map; otherwise every key and hostname is truthy |
| EventsCommon.LenientMapKeys | maintenancetool/events_common.py:39 | every OCID in the map is the truthy OCID of some node that also has a truthy hostname |
| EventsCommon.LenientMapLastWins | maintenancetool/events_common.py:39 | the last node with a given OCID and a truthy hostname decides that OCID's hostname |
| EventsCommon.Filter | maintenancetool/events_common.py:140 | no filter iff no states were asked for; otherwise the filter is exactly the upper-cased requested states |
| EventsCommon.MakeRow | maintenancetool/events_common.py:171-210 | the row carries the summary's raw state and the event's id; its hostname is always truthy, and it is `(unknown)` iff the map has no truthy hostname for the instance (or has that very text) |
| EventsCommon.RowStep | maintenancetool/events_common.py:156-210 | a None reply is passed over; a raised call, an empty response or unreadable fault details raise; a row is made only from a fetched event |
| EventsCommon.RowsPassFilter | maintenancetool/events_common.py:140-177 | with a filter, every row's upper-cased state is one of the requested states; every row names a host |
| EventsCommon.BuildEventRows | maintenancetool/events_common.py:116-218 | the lenient host map, the compartments, every page of each, one row per fetched event the filter lets through, as the rows specification describes |
| Reporting.IdEntries | felix/reporting.py:29-30 | a job with fault ids makes one `(id, host)` append per id, in id order |
| Reporting.GroupHosts | felix/reporting.py:23-31 | the dict holds exactly the keys appended under, and each key's list is the hosts appended under it, in order, duplicates kept |
| Reporting.HostsForAbsent | felix/reporting.py:23-31 | no hosts are listed under a key nothing was appended under |
| Reporting.EntriesCount | felix/reporting.py:24-30 | each job makes one append per fault id, or exactly one when it has none |
| Reporting.EntriesAppend | felix/reporting.py:24-30 | the appends of two runs of jobs are those of the first run then those of the second |
| Reporting.HostsForAppend | felix/reporting.py:24-30 | the hosts listed under a key follow the job order |
| Reporting.HostsForJob | felix/reporting.py:26-30 | a job with no fault ids puts its host once under `(none)` and nowhere else; otherwise once under each id, as often as the id occurs |
| Reporting.HostsForIds | felix/reporting.py:29-30 | under each key, a job's own appends are its host, as many times as the key occurs among its ids |
| Reporting.AddJob | felix/reporting.py:26-30 | one job's appends onto the dict built so far; it raises iff one of its ids cannot be a dict key |
| Reporting.HashableEntries | felix/reporting.py:24-30 | the appends are all hashable iff every job's ids are |
| Reporting.GatherFaults | felix/reporting.py:17-31 | over the discovered jobs: raises iff some id cannot be a dict key; otherwise the dict groups the hosts under each fault id, and `(none)` for jobs without ids |
| Reporting.Excluded | felix/reporting.py:317-322 | a state is left out iff it is CANCELED and canceled events were not asked for, or it is one of the excluded names upper-cased |
| Reporting.ExcludedStates | felix/reporting.py:317-321 | the set built by the default, the `discard` and the `update` is the excluded set |
| Reporting.KeepRows | felix/reporting.py:322 | a row is kept iff its upper-cased state is not excluded, and rows are never added |
| Reporting.KeepRowsAppend | felix/reporting.py:322 | the filter keeps the order of the rows |
| Reporting.CanceledShown | felix/reporting.py:317-322 | a canceled row, whatever the case of its state, is shown iff canceled events were asked for and CANCELED was not excluded by name |
| Reporting.RowKey | felix/reporting.py:324-329 | the key ranks `(unknown)` hosts last, then orders by hostname, then by the rank of the raw state (999 when unranked), then by instance OCID |
| Reporting.StrLessIrreflexive | felix/reporting.py:329 | no text sorts before itself |
| Reporting.StrLessTransitive | felix/reporting.py:329 | text order is transitive |
| Reporting.StrLessTotal | felix/reporting.py:329 | of two different texts, one sorts before the other |
| Reporting.KeyLessOrder | felix/reporting.py:324-333 | the key order is a strict total order, so the sorted table does not depend on the listing order, up to rows with equal keys |
| Reporting.KnownHostsFirst | felix/reporting.py:328-329 | rows of known hosts come before rows whose host is `(unknown)` |
| Reporting.StatesInOrderWithinHost | felix/reporting.py:324-329 | within one host, a row of lower state rank sorts first |
| Reporting.ScheduledFirstWithinHost | felix/reporting.py:324-329 | within one host, a SCHEDULED row sorts before a row in any other state, known or not |
| Reporting.StateRanks | maintenancetool/events_common.py:16-24 | SCHEDULED ranks before the active states, which rank alike, then SUCCEEDED, then FAILED and CANCELED alike, then any other state |
| Gpus.ApiCallsChain | maintenancetool/common.py:98-108 | a non-empty run of page requests within the bound, each passing the previous reply's `next_page` and ending on a reply without a next page or at the bound, is exactly the generator's run of calls from its first token |
| Gpus.ApiPagedList | maintenancetool/common.py:91-108 | the loop yields exactly the items of the page chain that starts with no token, in page order |
| Gpus.ListCompartments | gpus.py:128-138 | the result is the ids of every listed sub-compartment, in page order, followed by the tenancy |
| Gpus.CompartmentsTenancyLast | gpus.py:132-136 | the tenancy comes last, exactly once, after all listed compartment ids in listing order |
| Gpus.ScreenActive | gpus.py:86-88 | a summary is kept iff its state is SCHEDULED, STARTED or PROCESSING; any other state, or none, is dropped |
| Gpus.EventStep | gpus.py:94-97 | a fetched event is always appended when its reply holds an event, and the fetch fails otherwise (the isinstance assertion) |
| Gpus.ListEventsWith | gpus.py:81-97 | walks compartments in order and their summaries in page order, records one GET per kept summary, and fails at the first failing GET |
| Gpus.ListAllMaintenanceEvents | gpus.py:69-98 | the events returned are the fetched details of the active summaries, in compartment then page order, and the only effects are those GETs |
| Gpus.OneEventPerActiveSummary | gpus.py:81-97 | a successful listing returns one event, and issues one GET, per active summary |
| Gpus.ListedEventsActive | gpus.py:86-97 | an event is returned only when some summary in an active state was listed |
| Gpus.FaultPairs | gpus.py:46 | one (fault_id, component) pair per fault, in order |
| Gpus.Flatten | gpus.py:48 | the flattened list holds each pair's fault id then its component, so it is twice as long |
| Gpus.Texts | gpus.py:48 | `join` succeeds iff every item is a string, and then keeps the items in order |
| Gpus.FlattenAt | gpus.py:48 | even positions hold fault ids, odd ones components; all items are strings iff every pair holds two strings |
| Gpus.FaultString | gpus.py:46-48 | the fault string exists iff every id and component is a string, and is then their `_`-join in order |
| Gpus.FaultStringRoundTrip | gpus.py:46-48 | splitting the fault string on `_` gives back every id and component, in order, when none of them holds `_` |
| Gpus.HostFor | gpus.py:40-49 | the host is the MGMT hostname mapped to the event's instance id, and `UNKNOWN` when the id is not mapped |
| Gpus.ReportOf | gpus.py:43-61 | reporting an event fails iff its details or fault string fail; a drain command is built iff the host is known, and it is the `scontrol update` argv for that host and fault |
| Gpus.DrainNamesHost | gpus.py:49-61 | an unmapped instance gets no drain command; a mapped, known host gets one naming `NODENAME=<host>` and `REASON="<fault>"` |
| Gpus.Traverse | gpus.py:43-61 | the loop over events succeeds iff every event's report succeeds, with one report per event in order |
| Gpus.TraversePrefixErr | gpus.py:43-61 | the first event whose report fails ends the loop with that error, whatever follows it |
| Gpus.ReportEvents | gpus.py:43-67 | the loop's outcome is the in-order traversal of the events; nothing is run for a drain, which is only logged |
| Gpus.ReportMaintenance | gpus.py:24-67 | lists compartments, then events, then runs the MGMT `nodes list json` command once iff the listing succeeded; the outcome is the per-event reports over the parsed host map |
| Gpus.ReportOnEvents | gpus.py:37-67 | runs the MGMT node listing exactly once and reports the given events against the parsed `ocid` to `hostname` map |
| Gpus.ConfigAttr | maintenancetool/config.py:1-22 | reading a config attribute succeeds iff the module binds that name at top level (its imports and every setting); any other name raises AttributeError; `PROCESSED_TAG` is the configured tag, `TENANCY_OCID` and `tenancy_ocid` are the literal tenancy id, and `SLURM_DRAIN_COMMAND` embeds the configured drain reason |
| Gpus.ProcessedTagAttribute | gpus.py:108 | the lower-case `processed_tag` attribute does not exist, while `PROCESSED_TAG` holds the configured tag |
| Gpus.ScheduleMaintenanceAsWritten | gpus.py:103-108 | as written, scheduling raises AttributeError before any update is sent |
| Gpus.StatusRaisesAsWritten | gpus.py:124-125 | as written, the status check raises for every response, since a response is never equal to the text `SUCCESSFUL` |
| Gpus.SucceededStillRaises | gpus.py:121-125 | even a work request that finished as SUCCESSFUL, which is terminal, raises as written |
| Gpus.StatusRaises | gpus.py:122-125 | the corrected check raises iff the final work request's data is not SUCCESSFUL, so a pass implies a terminal state |
| Gpus.MarkedTags | gpus.py:107-108 | the freeform tags gain the processed tag set to True and keep every other tag |
| Gpus.ScheduleOutcome | gpus.py:114-125 | scheduling succeeds iff the update reply carries a work request id and that request finished SUCCESSFUL |
| Gpus.ScheduleMaintenanceImmediately | gpus.py:103-125 | an event without id fails with no call; otherwise one update is sent with the marked tags and a start time of now, the work request is waited on when there is one, and the outcome is ScheduleOutcome |
| Gpus.ScheduledEventIsMarked | gpus.py:107-108 | the tags sent with the update always carry the processed tag as a true value |

## Left out

- Subprocesses, the OCI SDK, the MGMT CLI, files and the clock are not executed. Their answers are oracle parameters of `World.Cluster`, and exceptions they raise are modelled as error results. The paginated listing calls are the exception, as the member lines below say.
- Client factories, signers, retry strategies, `setup_logging`, logging, `print` and `pprint` output, progress callbacks and the Rich table rendering are left out. None of them affects a decision.
- Jobs run one after another. The source uses a `ThreadPoolExecutor`. Only the pool size `min(len(capped), MAX_WORKERS)` is modelled, along with its failure when that size is not positive. The audit log's lock is not modelled.
- Unbounded waits take a `fuel` bound: `wait_state`, `wait_drained_empty`, the `is_event_complete` poll and the rounds of `run_loop`. A wait that runs out of fuel is reported as still polling. Termination is not proved.
- The OCI waiter (`oci.waiter.wait_until`) and `get_work_request` are replaced by the final work-request response, which is a parameter.
- `datetime.now` is a parameter given in microseconds or whole seconds. Timezone coercion (`_as_aware`) and `strftime` text are left out. From `fmt_ts`, only the day-ordinal suffix is modelled. Durations are whole seconds, so the `int(round(float))` step is not modelled.
- Python's dictionary insertion order is not modelled. Maps are Dafny `map`s, and ordered outputs are sequences.
- The table sort itself is left out. Only its key, and the strict order that key induces, are modelled.
- Lower- and upper-casing are ASCII only.
- `Path.resolve` and symbolic links are not modelled. Paths are compared as text.
- `_load_env_files` runs when the module is imported. The model takes the starting environment and the two files' text as inputs.
- `int()` parse errors for `MAX_WORKERS`, `DAILY_SCHEDULE_CAP` and `LOOP_INTERVAL_SEC` are not modelled. The parsed values are settings parameters, and the approved set is read once per run.
- `maintenancetool/orchestrator.py` imports `DAILY_SCHEDULE_CAP`, `LOOP_INTERVAL_SEC` and `is_fault_approved` from a config file that does not define them. The model takes their meaning from `felix/config.py`.
- The older copy's `phases/health.py` is not part of this model. Its effect on a job is a parameter, either the exception it raises or the `health_ok` value it leaves.
- `maintenancetool/utils.py` is not part of this model. `run_cmd` and `paginated` follow `hpc-maintenance/maintenancetool/utils.py`, and the newer Slurm helpers are assumed to use the same `run_cmd`.
- `slurm_node_status_map` is not part of this model. The Slurm state of a host is a parameter of the reporting rows.
- `felix/reporting.py` has its own copies of `_mgmt_host_map`, `_seconds_between`, `_fmt_duration`, `_color_event_type` and `_pick_created_or_started`. They are line-for-line the `maintenancetool/events_common.py` helpers, so they are modelled once, by the `EventsCommon` members.
- `list_all_events` in `felix/reporting.py` is a separate listing loop with no state filter. It is not modelled separately. `EventsCommon.BuildEventRows` with an empty filter stands for it, and the two copies' small differences in row fields are not modelled.
- The `__str__` methods of `Fault` and `Repair` are left out. Only their construction and the keys they require are modelled.
- `schedule_maintenance_immediately` changes the event's `freeform_tags` in place. The model returns the updated tags instead.
- Compartments are modelled only by their ids.
- Equality between values of different Python types is not modelled, beyond what `PyJson.Json` equality gives.
- The drain command in `gpus.py` is only logged, because its `subprocess.run` call is commented out. The model returns the argument list instead of running it.
- Utils.Paginated: the page function is a pure parameter, so a list call neither raises nor appears in the trace, and its answer does not depend on earlier effects.
- Utils.Paginated: makes at most `maxCalls` calls. The source keeps calling until a page has no `next_page`; a chain longer than the bound is cut short, with `finished` false.
- Utils.PagedList: returns only the items of the first `maxCalls` pages. The source yields every page, however many.
- Common.PaginatedApiToGenerator: makes at most `maxCalls` calls, and its API function cannot raise and is not traced. The source loops until a reply has no next page.
- Gpus.ApiPagedList: returns only the items of the first `maxCalls` pages, and its listing neither raises nor is traced.
- Oci.ListCompartments: the compartment listing cannot raise, is not traced and stops after `maxCalls` pages.
- Gpus.ListCompartments: the compartment listing cannot raise, is not traced and stops after `maxCalls` pages.
- Discovery.SummariesOf: each compartment's summary listing cannot raise, is not traced and stops after `maxCalls` pages.
- Discovery.DiscoverCompartments: an exception from `list_instance_maintenance_events` is not modelled; only GET failures end the walk with an error.
- Discovery.Discover: the compartment and summary listings cannot raise and leave no trace entry, so the trace holds only the GETs.
- LegacyDiscovery.LegacyDiscover: the compartment and summary listings cannot raise and leave no trace entry, so the trace holds only the GETs.
- EventsCommon.RowsOutcome: listing failures are not modelled; only GET failures and the host-map command's outcome can make it fail.
- EventsCommon.BuildEventRows: the compartment and summary listings cannot raise, are not traced and stop after `maxCalls` pages.
- Gpus.EventSummaries: each compartment's listing cannot raise, is not traced and stops after `maxCalls` pages.
- Gpus.ListEventsWith: listing failures are not modelled; only GET failures end it with an error.
- Gpus.ListAllMaintenanceEvents: listing failures are not modelled, and listing calls are not among its effects.
- Gpus.ReportMaintenance: "the listing succeeded" means that no GET failed; a failing list call is not modelled.
- Orchestrator.RunOnce: a discovery that fails because a list call raised is not modelled.
- LegacyOrchestrator.LegacyRunOnce: a discovery that fails because a list call raised is not modelled.
- Reporting.RowKey: host names are text. A non-string `hostname` (a number, say) reads as the empty name through `HostText`. In the source it is kept, and comparing it with a string host inside `sorted` would raise TypeError, which is not modelled.
- FelixDrainPhase.Execute: `felix/slrum_utils.py` is not part of this model. Its `drain`, `wait_state` and `wait_drained_empty` are taken to behave like those of `maintenancetool/slrum_utils.py`, which is what `Slurm` models.
- Gpus.ConfigAttr: the names Python binds on every module itself (`__name__`, `__file__`, `__doc__` and the like) are not in the set, so they read as AttributeError.
- Orchestrator.RunLoop: states only the rounds that fit in the given fuel. The source loops forever.
- Config.ReadJsonList: JSON numbers are integers, so a float element such as `1.5`, and its `str()` text, is not modelled.
- Orchestrator.ProcessAllStops: the jobs run one after another, so a job that hangs keeps every later job from starting. The source runs them in a pool of `min(len(capped), MAX_WORKERS)` workers, where a hung job holds only its own worker: the other jobs are still drained and maintained, and only `run_once` never returns.
- Orchestrator.ProcessEach: a hung job ends the dispatch and the later jobs stay untouched. In the source's worker pool they would still run, and only the collection of the results would never finish.
- LegacyOrchestrator.LegacyProcessEach: the same difference for the older copy's pool: a hung job ends the model's dispatch, while the source's other workers go on with the remaining jobs.
- Discovery.ReplyStep: host names are taken to be text, so a truthy non-string `hostname` from MGMT becomes its `str()` text. The source keeps the raw value in the job. Its `get_state` then passes it to `run_cmd`, whose `" ".join(cmd)` raises TypeError, so the job ends inside `wait_drained_empty` and no update is sent.
- Discovery.ProcessReply: the same conversion of a non-string MGMT hostname to text, where the source keeps the raw value and later fails on it.
- LegacyDiscovery.LegacyReplyStep: host names are taken to be text. The older copy keeps a non-string hostname as it is, so `n == host` in its `wait_state` never holds and the wait never returns.
- Discovery.ReplyStep: an event's `freeform_tags` is always a dict. An event whose tags are None makes `ev.freeform_tags.get(...)` raise AttributeError in the source; the model cannot represent such an event.
- LegacyDiscovery.LegacyReplyStep: an event's `freeform_tags` is always a dict; the older copy's `ev.freeform_tags.get(...)` on None tags, which raises AttributeError, is not represented.

## Findings

| source | as written | input that shows it | evidently intended | confidence | as-written member | corrected member |
|---|---|---|---|---|---|---|
| gpus.py:108 | `tags[config.processed_tag] = True` reads a lower-case attribute that `maintenancetool/config.py` does not define, so every call raises AttributeError before the update is sent | any event passed to `schedule_maintenance_immediately` | `config.PROCESSED_TAG`, the tag that discovery checks | not executed | Gpus.ScheduleMaintenanceAsWritten | Gpus.ScheduleMaintenanceImmediately |
| gpus.py:124-125 | `workrequest_status != 'SUCCESSFUL'` compares the response object itself with a string, so the check raises even when the work request succeeded | a work request whose data is `SUCCESSFUL` | compare the final response's `data` with `SUCCESSFUL` | not executed | Gpus.StatusRaisesAsWritten | Gpus.StatusRaises |
