# Proxmox shutdown automation, modelled in Dafny

This project models the decision logic of three pieces of a Proxmox
automation repository:

- **The node idle shutdown service** (`services/node_idle_shutdown/main.py`).
  Every check interval it looks at each monitored node. A node counts as idle
  when it has been up for at least `min_uptime` and runs no critical workload.
  A critical workload is a running VM or container without the safe-shutdown
  tag. The first idle observation records the time in `idle_since`. Once the
  node has been idle for `grace_period` seconds, its tagged running workloads
  are shut down, followed by a 30-second wait when at least one was shut
  down. Then the node is powered off, unless the service is in dry-run mode. A shared counter of consecutive per-node faults
  stops the service at `max_consecutive_errors`.
- **The scheduled shutdown service** (`services/shutdown/main.py`). Within
  ±5 minutes of a configured time of day it shuts the cluster's workloads
  down. With a `shutdown_order`, it works stage by stage: excluded ids are
  skipped, and every stage is followed by a wait. Without one, it stops every
  running, non-excluded workload that carries the safe-shutdown tag.
- **Tag handling** (`shared/proxmox/client.py`, `scripts/tag_vms.py`).
  Proxmox stores a guest's tags as one `;`-separated string. `get_vm_tags`
  parses it, `has_tag` tests membership, and the tagging script appends a
  tag and writes the string back. The shared client is a process-wide
  singleton whose API connection is opened on first use.

What the Proxmox API answers is a snapshot value (`Inventory.Api`: node
names and per-node VM and container listings). A listing that raised is
`None`. Each guest carries its status and the result of reading its
configuration. Calls that change the cluster, and waits, are not performed.
They are appended to a trace of `Inventory.Action`s: `ShutdownWorkload`,
`Sleep`, `PowerOffNode` and `WriteTags`. Clock readings and the host name
are parameters. Configuration files are records of optional values, and a
missing key takes the source's default.

Files:

- `wrappers.dfy`: `Option` and `Result`.
- `tags.dfy`: Python's `split(';')`, `strip()` and `';'.join` written out, plus the tag parser and `has_tag`.
- `inventory.dfy`: the API snapshot, the action trace, `detect_vm_type` and `_find_vm_node`.
- `proxmox_client.dfy`: the singleton and the lazily opened connection, as classes.
- `tag_vms.dfy`: the tagging script.
- `scheduled_shutdown.dfy`: the scheduled service, with its state as a class.
- `node_idle_shutdown.dfy`: the idle service, with its state as a class.

Where the code and its documentation differ, the model follows the code:

- Dry-run mode only drops the node power-off. The tagged workloads are still shut down, and the settling wait still happens.
- The error counter is reset after every node checked without an exception, not once per cycle. It is left unchanged for a node whose uptime is below the minimum.
- The scheduled service has no "already fired today" guard. It shuts everything down on every check that falls in the window.
- The last stage of an ordered shutdown is also followed by its wait.
- The window compares minutes of the day and does not wrap at midnight.
- The grace period is measured on the wall clock. A clock that moves backwards delays the shutdown.
- When a generic exception reaches the error threshold in `run`, the loop breaks but `running` stays true.

## Model

| member | source | states |
|---|---|---|
| Tags.Strip | shared/proxmox/client.py:88 | `str.strip()`: the result has no white space at either end and is no longer than the input |
| Tags.StripIsSlice | shared/proxmox/client.py:88 | what `strip()` keeps is a contiguous slice of the input, and everything it drops on either side is white space |
| Tags.StripFrontIsSlice | shared/proxmox/client.py:88 | the same, for an input that starts with white space |
| Tags.StripBackIsSlice | shared/proxmox/client.py:88 | the same, for an input that ends, but does not start, with white space |
| Tags.Split | shared/proxmox/client.py:88 | `split(';')` always yields at least one piece, and no piece contains `;` |
| Tags.Join | scripts/tag_vms.py:67 | `';'.join`: the pieces with one `;` between neighbours; `JoinSplit` and `ParseJoin` state what it undoes |
| Tags.JoinSplit | shared/proxmox/client.py:88 | joining the pieces of a split with `;` gives back the original string |
| Tags.SplitAppend | shared/proxmox/client.py:88 | splitting `a;b` gives the pieces of `a` followed by the pieces of `b` |
| Tags.SplitConsAppend | shared/proxmox/client.py:88 | one step of `split` only touches the first piece, so pieces appended behind are carried along unchanged |
| Tags.Clean | shared/proxmox/client.py:88 | the comprehension keeps only non-empty stripped pieces, never more than it was given |
| Tags.Kept | shared/proxmox/client.py:88 | one piece contributes at most one tag, and that tag is non-empty and stripped |
| Tags.CleanAppend | shared/proxmox/client.py:88 | the comprehension distributes over concatenation, so order and duplicates are kept |
| Tags.CleanKeepsSeparatorOut | shared/proxmox/client.py:88 | stripping pieces that contain no `;` cannot produce a tag that contains one |
| Tags.ParseTagString | shared/proxmox/client.py:87-88 | every parsed tag is non-empty, free of `;` and has no surrounding white space |
| Tags.ParseIsCleanSplit | shared/proxmox/client.py:87-88 | the empty-string guard agrees with parsing the empty string: both give no tags |
| Tags.ParseAppend | shared/proxmox/client.py:88 | the tags of `a;b` are the tags of `a` followed by the tags of `b`, duplicates included |
| Tags.StripStripped | shared/proxmox/client.py:88 | stripping a string without surrounding white space returns it unchanged |
| Tags.SplitNoSeparator | shared/proxmox/client.py:88 | a string without `;` splits into itself alone |
| Tags.ParseSingle | shared/proxmox/client.py:88 | a well-formed tag on its own parses to exactly that one tag |
| Tags.ParseJoin | shared/proxmox/client.py:88 | round trip: parsing the `;`-join of well-formed tags gives back the same list |
| Tags.ParseJoinParse | shared/proxmox/client.py:88 | parsing, joining and parsing again changes nothing |
| Tags.GetVmTags | shared/proxmox/client.py:79-90 | a failed fetch, a missing `tags` key or an empty value gives no tags; otherwise the parse of the field; every tag is well formed |
| Tags.HasTag | shared/proxmox/client.py:92-95 | a match implies the query is a well-formed tag, and a failed fetch never matches |
| Tags.PaddedQueryNeverMatches | shared/proxmox/client.py:92-95 | the query is not stripped: one with surrounding white space, a `;` or no characters never matches |
| Inventory.DetectVmType | scripts/tag_vms.py:96-102 | a VM iff the VM listing holds the id; a container iff the VM listing does not and the container listing does; not found iff neither does; a failed listing is an error |
| Inventory.LocateIn | scripts/tag_vms.py:80-93 | the result is the first node in order whose own check finds the id, with every earlier node searched without a match; not found iff no node holds it; an API error comes from the first node whose listing failed |
| Inventory.Locate | scripts/tag_vms.py:80-93 | a failed `get_nodes` is an API error; a node that is found is one of the cluster's nodes |
| Inventory.FindVmNode | services/shutdown/main.py:206-221 | the early-return scan over `get_nodes()` computes exactly the first-match search, including its error cases |
| Inventory.LocateAgreesWithDetect | services/shutdown/main.py:206-221 | the node found by the cluster-wide search reports the same kind when that node is asked directly |
| Inventory.Filter | services/node_idle_shutdown/main.py:180-200 | selection keeps exactly the elements the predicate accepts, in both directions of membership, and is never longer than its input |
| Inventory.SelectGuests | services/node_idle_shutdown/main.py:181-200 | the append-in-a-loop computes the selection |
| ProxmoxConnection.ApiSession.constructor | shared/proxmox/client.py:43-49 | the connection keeps the configured host, user and token, and `verify_ssl` defaults to true |
| ProxmoxConnection.ProxmoxClient.constructor | shared/proxmox/client.py:18-21 | a new client holds its settings and has no connection yet |
| ProxmoxConnection.ProxmoxClient.Client | shared/proxmox/client.py:38-50 | the first call opens a fresh connection from the settings; every later call returns that same connection |
| ProxmoxConnection.ClientRegistry.constructor | shared/proxmox/client.py:16 | no instance exists at start |
| ProxmoxConnection.ClientRegistry.GetInstance | shared/proxmox/client.py:52-57 | the first call creates the client from its arguments; every later call returns the same object and ignores its arguments |
| ProxmoxConnection.SharedByTwoServices | shared/proxmox/client.py:38-57 | two users in one process get the same connection, opened once, with the first user's settings |
| TagVms.ConfigIn | scripts/tag_vms.py:59 | reading the configuration of a guest that is not listed fails |
| TagVms.TagOne | scripts/tag_vms.py:50-77 | one vmid writes at most once; nothing iff the lookup fails or the current tags already hold the tag; otherwise the write goes to the node and kind found and holds the current tags followed by the new one, joined with `;` |
| TagVms.TagAll | scripts/tag_vms.py:47-77 | the loop writes at most once per requested vmid, each vmid read from the cluster as the earlier writes left it |
| TagVms.TagAllStep | scripts/tag_vms.py:49-77 | the writes for one more vmid are the earlier writes followed by that vmid's own, decided on the cluster after the earlier writes |
| TagVms.ApplyAllAppend | scripts/tag_vms.py:70-72 | applying two batches of writes one after the other is applying them together |
| TagVms.TagVm | scripts/tag_vms.py:50-77 | one loop iteration issues exactly the writes `TagOne` decides and returns the cluster after them |
| TagVms.TagVmsLoop | scripts/tag_vms.py:47-77 | the loop issues the writes of every vmid in order, each decided on the cluster as the earlier writes left it, and returns the cluster after all of them |
| TagVms.WritesOnlyMissingTags | scripts/tag_vms.py:59-72 | every write is for a requested vmid that did not carry the tag when the loop reached it, and goes to where that vmid was found |
| TagVms.WrittenTagsRoundTrip | scripts/tag_vms.py:66-67 | the written string parses back to the old tags followed by the new tag |
| TagVms.TaggingIsIdempotent | scripts/tag_vms.py:59-67 | deciding again on the tags parsed from the written string writes nothing |
| TagVms.PutTags | scripts/tag_vms.py:70-72 | writing a guest's tags keeps every listed guest's id and status |
| TagVms.PutTagsKeepsIds | scripts/tag_vms.py:70-72 | writing tags does not change which ids a listing holds |
| TagVms.PutTagsReadBack | scripts/tag_vms.py:70-72 | after a write, reading the guest's configuration returns the written string |
| TagVms.PutTagsKeepsConfig | scripts/tag_vms.py:70-72 | a write for one id leaves the configuration of every other id in the listing as it was |
| TagVms.ApplyWriteKeepsOthers | scripts/tag_vms.py:70-72 | a write for one id leaves what is read for every other id, on every node and kind, as it was |
| TagVms.ApplyWriteKeepsDetect | scripts/tag_vms.py:96-102 | writing tags does not change what `detect_vm_type` answers |
| TagVms.ApplyWriteKeepsLocateIn | scripts/tag_vms.py:80-93 | writing tags does not change what `find_vm_node` answers |
| TagVms.ApplyWriteKeepsResolve | scripts/tag_vms.py:51-56 | writing tags does not change where the script finds any id, with or without `--node` |
| TagVms.SecondRunWritesNothing | scripts/tag_vms.py:59-72 | after its own write, deciding again for the same vmid and the same well-formed tag writes nothing |
| TagVms.OtherWriteKeepsDone | scripts/tag_vms.py:59-72 | a write for one vmid leaves a vmid that needed no write needing none |
| TagVms.RunLeavesNothingToDo | scripts/tag_vms.py:47-77 | after the whole loop, no requested vmid needs a write for the same well-formed tag |
| TagVms.NothingToDoWritesNothing | scripts/tag_vms.py:47-77 | when no requested vmid needs a write, the loop writes nothing |
| TagVms.RerunWritesNothing | scripts/tag_vms.py:47-77 | running the script a second time, with the same ids and well-formed tag, on the cluster its first run left, writes nothing |
| TagVms.RepeatedIdWrittenOnce | scripts/tag_vms.py:49-72 | a vmid requested twice is written at most once: the second time the loop reads back the tag it wrote |
| TagVms.AfterOwnWritesNothing | scripts/tag_vms.py:59-72 | once a vmid's writes are applied, deciding for it again with a well-formed tag writes nothing |
| TagVms.MalformedTagIsRewritten | scripts/tag_vms.py:61-72 | a tag that is empty, holds `;` or has surrounding white space is never found, so a guest the script finds is written on every run |
| TagVms.PaddedTagIsRewritten | scripts/tag_vms.py:61-67 | an example of the above: `" x"` is written, read back as `"x"`, and written again on the next run |
| TagVms.AllVmIds | scripts/tag_vms.py:128-132 | `--all-vms --node N` tags the node's VM ids, then its container ids, in listing order; a failing listing ends the script |
| TagVms.AllVmIdsAreDetected | scripts/tag_vms.py:128-132 | every id collected for `--all-vms` is found again by `detect_vm_type` on that node |
| ScheduledShutdown.IsWithinWindow | services/shutdown/main.py:102-107 | `_is_within_window`: the distance between the two minutes of the day is at most `minutes`; `WindowBounds` states it |
| ScheduledShutdown.WindowBounds | services/shutdown/main.py:102-107 | the window holds iff the current minute of the day lies within `minutes` of the target's |
| ScheduledShutdown.WindowSymmetric | services/shutdown/main.py:102-107 | the window is symmetric in its two times |
| ScheduledShutdown.WindowReflexive | services/shutdown/main.py:102-107 | a time is within any non-negative window of itself |
| ScheduledShutdown.WindowDoesNotWrapAtMidnight | services/shutdown/main.py:102-107 | an example: 23:58 is not within 5 minutes of 00:02; `WindowBounds` is the general statement |
| ScheduledShutdown.ShutdownTime | services/shutdown/main.py:47-53 | no entry means no time-based shutdown; an entry without `hour` or out of range raises; otherwise the configured hour and minute, with minute defaulting to 0 |
| ScheduledShutdown.ShutdownOne | services/shutdown/main.py:188-204 | at most one shutdown, for this vmid with the grace period as timeout; a caller-supplied node and kind are used as given |
| ScheduledShutdown.ShutdownOneFollowsLookup | services/shutdown/main.py:188-204 | without a caller-supplied node, a failed lookup is swallowed and issues nothing; otherwise the shutdown goes to the node and kind the search found |
| ScheduledShutdown.StageShutdowns | services/shutdown/main.py:129-132 | a stage issues only shutdowns of its own, non-excluded ids, each with the grace period |
| ScheduledShutdown.StageShutdownsStep | services/shutdown/main.py:130-132 | each vmid of a stage adds nothing if excluded, otherwise its own shutdown |
| ScheduledShutdown.StageShutdownsComplete | services/shutdown/main.py:130-132 | every non-excluded id of a stage that the cluster holds is shut down on the node and kind where it was found |
| ScheduledShutdown.OrderedTrace | services/shutdown/main.py:121-139 | the ordered shutdown issues only non-excluded shutdowns with the grace period, and waits; with at least one stage, it ends with the last stage's wait |
| ScheduledShutdown.OrderedTraceStep | services/shutdown/main.py:121-139 | each stage appends its shutdowns and then its wait |
| ScheduledShutdown.SleepsOfAppend | services/shutdown/main.py:134-139 | the waits of a concatenated trace are the waits of each part, in order |
| ScheduledShutdown.NoSleeps | services/shutdown/main.py:134-139 | a trace without waits has no wait durations |
| ScheduledShutdown.SleepsOfBlockAndWait | services/shutdown/main.py:134-139 | appending a stage's shutdowns and its wait adds exactly that one wait |
| ScheduledShutdown.OrderedSleeps | services/shutdown/main.py:122-139 | the waits of the ordered shutdown are exactly the stages' `wait_after` values, default 30, in order, the last stage included and an empty stage too |
| ScheduledShutdown.OrderedTraceIsConcat | services/shutdown/main.py:121-139 | the ordered trace is the concatenation of the stages' blocks |
| ScheduledShutdown.StageTraceIsBlock | services/shutdown/main.py:129-139 | a stage's block is shutdowns followed by exactly one wait |
| ScheduledShutdown.SleepsOfBlocks | services/shutdown/main.py:121-139 | a trace of stage blocks holds exactly one wait per stage |
| ScheduledShutdown.SleepsInBlock | services/shutdown/main.py:129-139 | within a stage's block, nothing before the final wait is a wait |
| ScheduledShutdown.BlockOfPosition | services/shutdown/main.py:121-139 | a shutdown preceded by k waits belongs to block k |
| ScheduledShutdown.PositionOfBlock | services/shutdown/main.py:121-139 | each element of block k appears in the trace after exactly k waits |
| ScheduledShutdown.ShutdownBelongsToStage | services/shutdown/main.py:121-139 | stages run strictly in order: a shutdown preceded by k waits is for a non-excluded id of stage k |
| ScheduledShutdown.FoundTargetsAreShutDown | services/shutdown/main.py:121-139 | every non-excluded id of stage k that the cluster holds is shut down after exactly k waits |
| ScheduledShutdown.ShouldShutdown | services/shutdown/main.py:165-186 | `_should_shutdown`: running, not excluded and carrying the tag; `SimpleActionsAreSelected` and `SimpleSelectsAllTagged` state the selection |
| ScheduledShutdown.SimplePlan | services/shutdown/main.py:141-163 | `_simple_shutdown`: a failed `get_nodes` or listing raises, otherwise every node's selected shutdowns in order; `SimpleInFailure` and `SimpleSelectsAllTagged` state it |
| ScheduledShutdown.SimpleInStep | services/shutdown/main.py:143-160 | each node adds its own shutdowns after the earlier nodes', and a failed listing anywhere fails the whole collection |
| ScheduledShutdown.SimpleInSplit | services/shutdown/main.py:143-160 | a successful collection is the earlier nodes' shutdowns followed by the last node's |
| ScheduledShutdown.SimpleInFailure | services/shutdown/main.py:150-163 | the simple path raises, before any shutdown is issued, iff some node's listing fails |
| ScheduledShutdown.NodePlanSelected | services/shutdown/main.py:150-159 | a node's shutdowns are for guests listed on that node, under that kind, that pass `_should_shutdown`, with the grace period |
| ScheduledShutdown.NodePlanComplete | services/shutdown/main.py:150-159 | every listed guest of the node that passes `_should_shutdown` is shut down |
| ScheduledShutdown.NodePlanIncluded | services/shutdown/main.py:146-160 | in a successful collection, every node's own shutdowns are included |
| ScheduledShutdown.SimpleActionsAreSelected | services/shutdown/main.py:143-163 | every shutdown of the simple path is for a guest of a listed node that is running, not excluded and tagged |
| ScheduledShutdown.SimpleSelectsAllTagged | services/shutdown/main.py:143-163 | every running, non-excluded, tagged guest of every node is shut down by the simple path |
| ScheduledShutdown.ShutdownAllOutcome | services/shutdown/main.py:109-117 | `shutdown_all` takes the ordered path iff `shutdown_order` is non-empty, and the simple path otherwise |
| ScheduledShutdown.CheckOutcome | services/shutdown/main.py:84-100 | `check_and_shutdown`: what one check issues, or the exception it raises; `CheckGate` states the gate |
| ScheduledShutdown.CheckGate | services/shutdown/main.py:84-100 | a disabled service, or one without a shutdown time, does nothing; an action is issued only when enabled and within ±5 minutes of the time; within the window it runs `shutdown_all`; a bad time entry raises |
| ScheduledShutdown.CheckSparesExcluded | services/shutdown/main.py:84-186 | no check ever shuts down an excluded id |
| ScheduledShutdown.TickActions | services/shutdown/main.py:226-234 | one iteration of `run`: the check's actions, or none when it raised, then the wait; `TickEndsWithWait` states it |
| ScheduledShutdown.TickEndsWithWait | services/shutdown/main.py:226-234 | every iteration, whether its check raised or not, ends with a wait of `check_interval` |
| ScheduledShutdown.RunTrace | services/shutdown/main.py:223-234 | the iterations' actions one after the other; `RunTraceStep` states it |
| ScheduledShutdown.RunTraceStep | services/shutdown/main.py:228-234 | each loop iteration appends its check's actions and then a wait of `check_interval` |
| ScheduledShutdown.DisabledServiceOnlySleeps | services/shutdown/main.py:88-90 | a disabled service only waits `check_interval` on every iteration |
| ScheduledShutdown.ExcludedNeverShutDown | services/shutdown/main.py:228-234 | over any number of iterations, an excluded id is never shut down |
| ScheduledShutdown.FiresOnEveryTickInWindow | services/shutdown/main.py:93-100 | there is no once-per-day guard: two checks in the same window both run the full shutdown |
| ScheduledShutdown.ShutdownService.constructor | services/shutdown/main.py:79-82 | the service starts with `running` false and nothing done |
| ScheduledShutdown.ShutdownService.ShutdownVmOrContainer | services/shutdown/main.py:188-204 | the method issues what the one-workload specification prescribes, including the swallowed lookup failure |
| ScheduledShutdown.ShutdownService.StageTasks | services/shutdown/main.py:129-132 | the collecting loop of a stage issues the stage's shutdowns in order, skipping excluded ids |
| ScheduledShutdown.ShutdownService.OrderedShutdown | services/shutdown/main.py:119-139 | the stage loop produces the ordered trace |
| ScheduledShutdown.ShutdownService.SimpleShutdown | services/shutdown/main.py:141-163 | the node loop produces the simple path's shutdowns, or fails when `get_nodes` or a listing fails |
| ScheduledShutdown.ShutdownService.ShutdownAll | services/shutdown/main.py:109-117 | the method follows the path choice of `shutdown_all` |
| ScheduledShutdown.ShutdownService.CheckAndShutdown | services/shutdown/main.py:84-100 | the method follows the gate of `check_and_shutdown` |
| ScheduledShutdown.ShutdownService.Iteration | services/shutdown/main.py:226-234 | one pass of the loop issues exactly one iteration's actions and wait |
| ScheduledShutdown.ShutdownService.Run | services/shutdown/main.py:223-234 | `running` is set, and the trace grows by every iteration's actions and waits, with exceptions swallowed |
| ScheduledShutdown.ShutdownService.Stop | services/shutdown/main.py:236-239 | `stop` clears `running` and changes nothing else |
| NodeIdleShutdown.MonitoredNodes | services/node_idle_shutdown/main.py:51-57 | a non-empty configured list is used as is; otherwise the local host name alone; raises iff no list is configured and the host name cannot be read |
| NodeIdleShutdown.ConfigValid | services/node_idle_shutdown/main.py:99-141 | `_validate_config`: `check_interval` at least 30, `grace_period` at least 10 and the permission check passed |
| NodeIdleShutdown.Uptime | services/node_idle_shutdown/main.py:143-151 | a failed status call or a missing `uptime` field gives 0; a number is returned as is; a non-number makes the comparison at line 282 raise |
| NodeIdleShutdown.IsVmCritical | services/node_idle_shutdown/main.py:153-168 | `_is_vm_critical`: running and without the safe-shutdown tag; `StoppableIffRunningAndNotCritical` relates it to the shutdown selection |
| NodeIdleShutdown.IdleCheck | services/node_idle_shutdown/main.py:170-209 | idle iff both listings are read and no listed workload is critical; the critical list holds exactly the critical workloads; a failed listing gives not idle with an empty list |
| NodeIdleShutdown.CheckNodeIdle | services/node_idle_shutdown/main.py:170-209 | the two collecting loops compute the idle check |
| NodeIdleShutdown.StoppableIffRunningAndNotCritical | services/node_idle_shutdown/main.py:153-168 | a workload that is not running is never critical; a running one is stopped by the sequence iff it is not critical |
| NodeIdleShutdown.ShutdownSequence | services/node_idle_shutdown/main.py:211-265 | `_shutdown_node`: the tagged running workloads' shutdowns, the settling wait when there was one, then the power-off unless in dry-run; the lemmas below state it |
| NodeIdleShutdown.SequenceStopsOnlyStoppable | services/node_idle_shutdown/main.py:220-246 | every shutdown call of the sequence targets a running, tagged workload listed on the node, with a timeout of 60 |
| NodeIdleShutdown.SequenceTargetsItsNode | services/node_idle_shutdown/main.py:220-265 | every shutdown call and power-off of the sequence is for the node being shut down |
| NodeIdleShutdown.SequenceStopsAllStoppable | services/node_idle_shutdown/main.py:220-246 | every running, tagged workload of the node is shut down |
| NodeIdleShutdown.StopsAreInSequence | services/node_idle_shutdown/main.py:220-246 | on a readable node, every shutdown the selection yields is part of the sequence |
| NodeIdleShutdown.PowerOffOnlyWhenLive | services/node_idle_shutdown/main.py:259-265 | the node power-off is issued iff the listings were read and dry-run is off, and only for that node |
| NodeIdleShutdown.DryRunOnlyDropsPowerOff | services/node_idle_shutdown/main.py:222-265 | dry-run mode issues the same workload shutdowns and wait, and drops only the power-off |
| NodeIdleShutdown.SettleOnlyAfterStops | services/node_idle_shutdown/main.py:232-257 | the 30-second wait happens iff at least one workload is shut down |
| NodeIdleShutdown.IdleNodeStopsAllRunning | services/node_idle_shutdown/main.py:170-265 | on a node found idle, every running workload is shut down by the sequence |
| NodeIdleShutdown.ScheduledFilterIsNotCritical | services/shutdown/main.py:165-186 | for a running, non-excluded workload, the scheduled service selects it iff the idle service would not count it as critical under the same tag |
| NodeIdleShutdown.Classify | services/node_idle_shutdown/main.py:281-297 | what one check of a node finds: a fault iff the uptime cannot be compared; too young iff uptime is below `min_uptime`; quiet iff old enough and idle |
| NodeIdleShutdown.NextIdleSince | services/node_idle_shutdown/main.py:293-348 | a recorded idle time is only kept or newly set by a quiet check when none was recorded; a quiet check with a recorded time clears it iff the grace period has run out; a check that raises keeps it |
| NodeIdleShutdown.NodeStep | services/node_idle_shutdown/main.py:279-351 | one node in one cycle: it raises iff the uptime is not a number; the new `idle_since` follows the bookkeeping rule; the error counter is cleared unless the uptime was too low; actions are issued only when the grace period has run out |
| NodeIdleShutdown.UptimeGuard | services/node_idle_shutdown/main.py:281-294 | below the minimum uptime, `idle_since` becomes None, nothing is issued and the counter is not reset |
| NodeIdleShutdown.FirstIdleOnlyRecords | services/node_idle_shutdown/main.py:299-309 | the first idle observation only records the current time |
| NodeIdleShutdown.CriticalWorkloadResets | services/node_idle_shutdown/main.py:334-351 | a critical workload resets `idle_since` to None and issues nothing |
| NodeIdleShutdown.ShutdownResets | services/node_idle_shutdown/main.py:310-323 | when the grace period has run out, the shutdown sequence is issued and `idle_since` is reset to None |
| NodeIdleShutdown.KeptOrRecorded | services/node_idle_shutdown/main.py:293-348 | a node with an idle time after a check was either already idle, or quiet and recorded at that check |
| NodeIdleShutdown.RecordedAt | services/node_idle_shutdown/main.py:299-348 | a recorded idle time was set by an earlier quiet check while none was recorded, and stayed unchanged, through faulting or quiet checks only, since then |
| NodeIdleShutdown.IdleSinceWasRecorded | services/node_idle_shutdown/main.py:299-348 | some earlier quiet check, made while no idle time was recorded, set the recorded idle time, and only faulting or quiet checks followed it |
| NodeIdleShutdown.NoShutdownBeforeGrace | services/node_idle_shutdown/main.py:299-320 | a shutdown at a check happens only after an earlier quiet check, made while no idle time was recorded, that recorded exactly the idle time in force, at least `grace_period` seconds before, with no busy or too-young check in between |
| NodeIdleShutdown.ShutdownRestartsGrace | services/node_idle_shutdown/main.py:299-323 | between two shutdowns of a node, a quiet check strictly after the first, made while no idle time was recorded, recorded the idle time in force at the second, at least `grace_period` before it, with no busy or too-young check in between |
| NodeIdleShutdown.NodeUpdate | services/node_idle_shutdown/main.py:278-373 | one node with its exception handler: `running` falls only at the threshold, which stops the cycle with idle times and actions untouched |
| NodeIdleShutdown.ProcessNodes | services/node_idle_shutdown/main.py:278-373 | the node loop stops at the first RuntimeError, clears `running` only then, and leaves the idle times of unlisted nodes untouched |
| NodeIdleShutdown.CycleResult | services/node_idle_shutdown/main.py:272-373 | a cycle crashes iff the monitored nodes cannot be read, and then changes nothing; `running` is cleared only by a halt; actions are only appended |
| NodeIdleShutdown.CycleStepsEachNode | services/node_idle_shutdown/main.py:278-351 | in a cycle that finishes, each monitored node's `idle_since` follows the bookkeeping rule from its own check |
| NodeIdleShutdown.FaultsAccumulate | services/node_idle_shutdown/main.py:353-363 | each node exception adds one to the counter, and below the threshold nothing else changes |
| NodeIdleShutdown.HaltsAtThreshold | services/node_idle_shutdown/main.py:353-373 | when the counter reaches `max_consecutive_errors`, `running` is cleared and the cycle ends there |
| NodeIdleShutdown.CheckedNodeClearsErrors | services/node_idle_shutdown/main.py:281-351 | a node checked without an exception clears the counter, except when its uptime is below the minimum |
| NodeIdleShutdown.RunFrom | services/node_idle_shutdown/main.py:395-429 | the `while self.running` loop over observed cycles: each cycle and its wait, ending at a halt or when the crash count reaches the threshold; `RunOnlyAppends` and the lemmas below state it |
| NodeIdleShutdown.RunOnlyAppends | services/node_idle_shutdown/main.py:395-429 | a run only appends actions, and never sets `running` again once it is cleared |
| NodeIdleShutdown.NodeUpdateDryRun | services/node_idle_shutdown/main.py:259-265 | in dry-run mode one node never adds a power-off |
| NodeIdleShutdown.ProcessNodesDryRun | services/node_idle_shutdown/main.py:259-265 | in dry-run mode one cycle never adds a power-off |
| NodeIdleShutdown.DryRunNeverPowersOff | services/node_idle_shutdown/main.py:259-265 | in dry-run mode no node is ever powered off, over any number of cycles |
| NodeIdleShutdown.CrashLimitLeavesRunningSet | services/node_idle_shutdown/main.py:414-425 | an exception outside the node loop that reaches the threshold adds one to the counter and ends the loop, with `running` left true |
| NodeIdleShutdown.ProcessNodesFinishes | services/node_idle_shutdown/main.py:278-373 | a node loop in which every uptime can be read finishes without raising RuntimeError |
| NodeIdleShutdown.RunFromSnoc | services/node_idle_shutdown/main.py:395-429 | over cycles in which the host name and every uptime can be read, one more cycle is one more pass of the loop |
| NodeIdleShutdown.HistoryPrefix | services/node_idle_shutdown/main.py:278-297 | what a node's checks found over a prefix of the run is the prefix of what they found over the whole run |
| NodeIdleShutdown.DueInPrefix | services/node_idle_shutdown/main.py:299-323 | a check found due within a prefix of the run is found due within the whole run |
| NodeIdleShutdown.DueAtLast | services/node_idle_shutdown/main.py:299-323 | the last check of a run is due iff its finding is due against the idle time left by the checks before |
| NodeIdleShutdown.IdleFollowsHistory | services/node_idle_shutdown/main.py:278-429 | over a run of such cycles in which the node is checked once each, starting with no idle time for it, its `idle_since` is exactly what the bookkeeping rule gives for its checks' findings |
| NodeIdleShutdown.NodeActsOnlyWhenDue | services/node_idle_shutdown/main.py:299-323 | a shutdown call or power-off for a node that one node's check adds comes from that node's own check, found due |
| NodeIdleShutdown.NodeUpdateKeepsOthers | services/node_idle_shutdown/main.py:279-351 | checking one node leaves every other node's idle time as it was |
| NodeIdleShutdown.CycleActsOnlyWhenDue | services/node_idle_shutdown/main.py:278-373 | a shutdown call or power-off for a node in one cycle comes from a check of that node that was due against its idle time before the cycle |
| NodeIdleShutdown.LastCycleActsOnlyWhenDue | services/node_idle_shutdown/main.py:272-373 | the same, for a whole cycle including the reading of the monitored nodes |
| NodeIdleShutdown.RunActsOnlyWhenDue | services/node_idle_shutdown/main.py:395-429 | over a whole run of such cycles, every shutdown call or power-off for a node comes from a check of it that was due against the idle time its earlier checks left |
| NodeIdleShutdown.HistoryNeverRaises | services/node_idle_shutdown/main.py:281-297 | in such cycles no check of the node raises |
| NodeIdleShutdown.QuietSinceRecorded | services/node_idle_shutdown/main.py:299-348 | a check that was due follows an earlier quiet check that recorded the idle time, at least `grace_period` before, with only quiet checks in between |
| NodeIdleShutdown.RunNeverShutsDownEarly | services/node_idle_shutdown/main.py:299-429 | over a whole run of such cycles, a node is shut down or powered off only after an earlier check found it quiet with no idle time recorded, at least `grace_period` seconds before, and every check since found it quiet |
| NodeIdleShutdown.IdleShutdownService.constructor | services/node_idle_shutdown/main.py:87-97 | the service starts not running, with no idle times, no errors and nothing done |
| NodeIdleShutdown.IdleShutdownService.ShutdownNode | services/node_idle_shutdown/main.py:211-270 | the method issues the node's shutdown sequence |
| NodeIdleShutdown.IdleShutdownService.CheckNode | services/node_idle_shutdown/main.py:279-373 | the new state of the fields and the outcome are those of one node's update |
| NodeIdleShutdown.IdleShutdownService.CheckAndShutdownNodes | services/node_idle_shutdown/main.py:272-373 | the loop over the monitored nodes leaves the fields as one cycle prescribes |
| NodeIdleShutdown.IdleShutdownService.Run | services/node_idle_shutdown/main.py:375-429 | invalid settings (`check_interval` below 30, `grace_period` below 10, or failed permissions) leave everything unchanged; otherwise `running` is set; when the start-up log cannot read the monitored nodes the exception leaves `run` with nothing else changed; otherwise the cycles run as the loop prescribes |
| NodeIdleShutdown.IdleShutdownService.Stop | services/node_idle_shutdown/main.py:431-434 | `stop` clears `running` and changes nothing else |

## Left out

- Reading the YAML configuration files, and their `FileNotFoundError` paths, are not modelled. Each configuration is a record of optional values.
- `check_permissions` is not part of this model. Its verdict is the `permissionsOk` parameter of `IdleShutdownService.Run`.
- `socket.gethostname()` is a parameter: one reading for the start-up log of `run`, and one per cycle. `None` stands for it raising.
- `datetime.now()` is one integer clock reading per cycle. The source reads the clock again for each node, so the model does not capture time passing between nodes of one cycle.
- The asyncio machinery is not modelled: `gather`, `to_thread`, the 300-second `asyncio.timeout` around the node shutdown sequence, and real sleeping. Calls run in list order, sleeps are `Sleep` actions, and the timeout is never reached.
- Inside a `gather`, every call is recorded as issued. A call that fails at the API cannot be distinguished from one that succeeds, so the failure count logged at line 251 of the idle service is not modelled.
- Logging, the `last_state` dictionary, `log_state_changes_only`, `last_error_time` and the iteration counter of the idle service only choose log messages. They are not modelled.
- The loops `while self.running` run over a finite list of observed cycles or ticks. `stop` is a separate method, not an interruption arriving mid-loop.
- KeyErrors from workload dictionaries without `vmid` or `status` are not modelled. Every listed guest has both.
- `main`, `asyncio.run` and argparse are not modelled, and neither is the `enabled` check the idle service's `main` performs before `run`. The `Enabled` accessor is provided.
- `list_vms_with_tags` only prints a table and is not modelled.
- Of the configuration checks in `_validate_config`, the `min_uptime` warning only logs and is not modelled.
- The API is one snapshot per check of the scheduled service and per cycle of the idle service: the cluster does not change between a listing and the shutdowns it leads to. The tagging script's own writes are applied to the snapshot (`TagVms.ApplyAll`) before the next vmid is read, as the script reads the tags again for every vmid; changes made by anything else in the meantime are not modelled.
- A `config.put` call of the tagging script is recorded as a `WriteTags` action, and applied to the snapshot, even when the API would reject it; the script catches that error and moves on to the next vmid.
- The status log of `run` every tenth iteration reads `monitored_nodes` again inside the loop's `try`. The model reads the host name once per cycle, so a host name that fails only for that log line is not modelled. Within a cycle, the two reads of `monitored_nodes` likewise see one host name.
- NodeIdleShutdown.RunNeverShutsDownEarly: stated over cycles in which the host name and every monitored uptime can be read and the node is checked once; a cycle that crashes, halts or checks the node twice is not covered by this run-level statement. `NoShutdownBeforeGrace` states the rule for any sequence of checks of one node.
- NodeIdleShutdown.IdleFollowsHistory: stated under the same conditions as `RunNeverShutsDownEarly`, starting from no recorded idle time for the node.
