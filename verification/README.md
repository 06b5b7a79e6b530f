# Callytics, modelled and proved

This project models the parts of Callytics that hold real algorithms or protocols, and proves what they
are relied on for. Callytics is a call-flow platform around Asterisk: a NestJS backend that stores flows,
call logs, callbacks and campaigns, and a "stasis" process that runs calls.

Check everything with `dafny verify dfyconfig.toml`.

## Layout

| files | what they hold |
|---|---|
| `Common.dfy` | options and results, sequences, bags, stable sorting, string order and trimming |
| `Json.dfy`, `Snapshots.dfy` | JSON values and key sorting; node configuration cleaning; the comparable payload of a recursive flow snapshot |
| `FlowForest.dfy`, `FlowTrees.dfy` | flows by parent; the two builders of whole-tree snapshots |
| `FlowStore.dfy`, `FlowRestore.dfy`, `FlowRuns.dfy` | update, publish, create, remove and restore as functions of the tables; runs of all of them |
| `FlowHistory.dfy` | which versions each transaction adds, rewrites and leaves alone; version numbers |
| `FlowsService.dfy` | the service object whose methods change the tables, proved against those functions |
| `Campaign.dfy`, `CampaignExecutor.dfy` | the dialer as steps between awaits, its laws over every run, and its runtime object |
| `Interpreter.dfy` | the call-flow interpreter with its subflow stack, log rows and edge resolver |
| `Callback.dfy`, `CallbackExecutor.dfy` | the two-leg callback protocol with its row, waiters and execution |
| `CallLog.dfy` | the call_logs statements of interleaved handlers |
| `Ami.dfy` | the management-interface stream and the endpoint poll |
| `Capture.dfy` | IPv4 checksum, pcap writer, and a reader of the layout |
| `Csv.dfy` | printing and parsing a CSV line |
| `Correlation.dfy` | log lines related to a call |
| `Firewall.dfy` | the sliding window of attempts and protected addresses |

## How the source is represented

- What one handler does between two awaits is one step. Concurrent parts (dialer, callbacks, call logs)
  are step functions with an `Enabled` predicate, and their laws hold for every sequence of enabled steps.
- What the outside answers (node results, originate requests, database replies, timers, clocks) is a
  parameter of the step, method or run.
- Errors the source throws are `Result`/`Option` values; a transaction that throws leaves the tables as they were.
- Objects whose methods change fields are classes. Their methods state the new state as a function of the
  old one, and the laws are lemmas about those functions.

## What turned out not to hold

- Publishing right after a root update does not always find the version up to date, even when every edge has
  a branch key: an edge first saved with a condition and no branch key gets `default` in the snapshot and the
  condition in its row, and an update that says `default` then writes nothing
  (`FlowRuns.PublishAfterIdleUpdateMayStore`). Exact conditions: `FlowRuns.PublishAfterWritingUpdate` and
  `FlowRuns.PublishAfterIdleUpdate`.
- Edges that differ only in branch key are not put in order by the payload (`Snapshots.BranchKeyIsNotASortField`);
  `Snapshots.EdgeOrderIsForgottenIff` is the exact condition.
- `campaign:completed` can go out while a retry timer runs (`CampaignDialer.CompletedBeforeRetry`), and the retry's
  call then stays active for ever (`CampaignDialer.RetryIsStranded`); what the notice does mean is
  `CampaignDialer.CompletionMeans`.
- With a node key used twice, an ordinary edge can lead into a webhook node (`Interpreter.DuplicateKeyEntersWebhook`);
  `Interpreter.EveryRunAvoidsWebhooks` is the exact condition.
- A call-log row inserted while an ended handler is between its statements can be called completed without an
  end time and then be overwritten (`CallLogs.LateStartIsOverwritten`); `CallLogs.SoundThroughoutIff` and
  `CallLogs.EverReasonWithoutEndIff` are the exact conditions.
- A cancel request that read the callback as pending can overwrite a later status (`Callbacks.LateCancelOverwrites`);
  `Callbacks.RowClimbsIff` is the exact condition.
- A callback that fails after a leg was answered leaves that leg up; `CallbackExecutor.LegsAreClosedIff` is the
  exact condition.
- With timestamps that go back, the firewall forgets attempts a later window would hold
  (`Firewall.OutOfOrderDropsMore`); `Firewall.SurvivorsAreWindowIff` is the exact condition.

## Model

| member | source | states |
|---|---|---|
| Json.SortKeysIsNormalForm | backend/src/flows/flows.service.ts:1681-1692 | Key sorting gives equal results exactly for values that mean the same with field order forgotten. |
| NodeConfigs.SanitizeIdempotent | backend/src/flows/flows.service.ts:242-256 | Cleaning a configuration twice is cleaning it once, field order included. |
| NodeConfigs.SanitizeRemoves | backend/src/flows/flows.service.ts:242-256 | Voicemail webhook address and secret and a menu's derived subflow links are gone; every other field is untouched. |
| NodeConfigs.SanitizeWellFormed | backend/src/flows/flows.service.ts:225-256 | Cleaning never produces a configuration with a repeated key. |
| NodeConfigs.BranchNamesAre | backend/src/flows/flows.service.ts:228-240 | A branch keeps a name exactly where some entry, trimmed, is that branch and a valid one with a non-blank label; it is the last such entry's, trimmed. |
| Snapshots.PayloadIsNormalForm | backend/src/flows/flows.service.ts:1675-1745 | Two snapshots have the same comparable payload if and only if they mean the same as unordered trees, with or without layout; so payloads ignore the order of nodes, subflows, config keys and edges that differ in a sort field. |
| Snapshots.EdgeOrderIsForgottenIff | backend/src/flows/flows.service.ts:1714-1731 | Every reordering of a snapshot's edges has the same payload if and only if edges that agree on the five sort fields are the same edge. |
| Snapshots.BranchKeyIsNotASortField | backend/src/flows/flows.service.ts:1714-1731 | Two snapshots with the same edges in another order and different payloads: the branch key is not a sort field. |
| Snapshots.ExactImpliesStructural | backend/src/flows/flows.service.ts:1439-1457 | On sanitized snapshots, exact equality implies structural equality. |
| Snapshots.LayoutChangesKeepStructure | backend/src/flows/flows.service.ts:1449-1457 | Moving nodes, regrouping them and adding or removing group boxes, at any depth, keeps structural equality. |
| FlowForest.GetRootFlowId | backend/src/flows/flows.service.ts:1339-1364 | The loop ends on every parent graph; it finds the root exactly when one exists, reports a cycle exactly when the parent chain never ends, and not-found exactly when it ends in a missing flow. |
| FlowForest.RootIsUnique | backend/src/flows/flows.service.ts:1339-1364 | No flow descends from two roots. |
| FlowForest.RootOfDecides | backend/src/flows/flows.service.ts:1339-1364 | Root, cycle and dangling parent exclude one another and each outcome has an exact condition. |
| FlowForest.CollectSubtree | backend/src/flows/flows.service.ts:1159-1183 | On any parent graph: exactly the descendants, once each, every non-root child before its parent, the root last. |
| FlowForest.SubtreeOfRootHolds | backend/src/flows/flows.service.ts:1159-1183 | A flow with a root is in the subtree collected for that root. |
| FlowTrees.BuildersAgree | backend/src/flows/flows.service.ts:1404-1437 | Rereading a root's tree never fails, and the builder used while saving lists the same subflows, and the same payloads, if and only if every descendant has a version. |
| FlowTrees.TwinPayloads | backend/src/flows/flows.service.ts:1512-1567 | Trees with the same nodes compare equal exactly when their edges, sorted, and their subflows' payloads are equal. |
| FlowTrees.SameTreeSameSnapshot | backend/src/flows/flows.service.ts:1404-1437 | The reread tree depends on nothing but the forest and the rows of the versions pointed at. |
| FlowTrees.SameBelowSameSave | backend/src/flows/flows.service.ts:1531-1567 | What saving lists below a flow does not depend on the flow's own rows or name. |
| FlowTransactions.UpdateKeepsValid | backend/src/flows/flows.service.ts:670-847 | Every update keeps the run invariant: each flow points at its highest-numbered version, numbers are distinct, rows belong to versions. |
| FlowTransactions.SyncRootFresh | backend/src/flows/flows.service.ts:731-838 | Bringing the root up to date, autosaved or not, leaves its newest snapshot equal to the tree in the rows and does not change that tree. |
| FlowTransactions.SubflowUpdateFreshensRoot | backend/src/flows/flows.service.ts:719-838 | Whenever an update of a subflow writes, whichever branch ran, the root's newest stored snapshot compares equal to the tree reread from the rows. |
| FlowTransactions.RootUpdateCompares | backend/src/flows/flows.service.ts:670-785 | What a root update stored compares equal to the reread tree if and only if every edge has one branch key and every descendant has a version. |
| FlowTransactions.CreateVersionAfterUpdate | backend/src/flows/flows.service.ts:875-909 | Publishing after a root update that wrote: refused for a flow that only hangs up, else it stores nothing and returns that version under exactly those two conditions. |
| FlowTransactions.CreateKeepsValid | backend/src/flows/flows.service.ts:616-668 | Creating a flow keeps the run invariant. |
| FlowTransactions.WithoutKeepsValid | backend/src/flows/flows.service.ts:1109-1157 | Deleting flows keeps the run invariant and leaves the others' flow and content alone. |
| FlowTransactions.PreparedNodesAre | backend/src/flows/flows.service.ts:1747-1757 | Node by node, what is saved is what was sent with its configuration cleaned; only a root's first start node also gets the default timeout. |
| FlowTransactions.DefaultTimeoutIs | backend/src/flows/flows.service.ts:435-437 | The default timeout is written exactly where neither timeout is given or the one that counts is empty; no other field changes. |
| FlowTransactions.HangsUpIff | backend/src/flows/flows.service.ts:258-271 | Publishing refuses exactly the flows of two nodes and one edge that leads from a start node to a hangup node. |
| FlowRestore.RestoreSubflowsHolds | backend/src/flows/flows.service.ts:1593-1639 | Restoring a list of distinct existing subflows succeeds, gives each its snapshot's content and touches no other flow. |
| FlowRestore.RestoreVersionValid | backend/src/flows/flows.service.ts:911-969 | Every restore that succeeds keeps the run invariant. |
| FlowRestore.RestoreThenReread | backend/src/flows/flows.service.ts:911-969 | Restoring a tree that names the flows now below its root succeeds, and rereading gives the stored tree back, except the root's edge handles. |
| FlowRestore.RestoreRereadsIff | backend/src/flows/flows.service.ts:911-969 | For a root, a restore succeeds and rereads as the stored tree but for the root's edge handles if and only if that tree names the flows now below the root. |
| FlowRestore.PublishedIsRestorable | backend/src/flows/flows.service.ts:1404-1437 | A reread tree always names exactly the flows below its root, so it can be restored. |
| FlowRestore.PublishRestoreRoundTrip | backend/src/flows/flows.service.ts:911-969 | Publish, change anything but the forest, restore: the tree reread is the published one, except the root's edge handles. |
| FlowRuns.EveryRunKeeps | backend/src/flows/flows.service.ts:616-1157 | After every sequence of create, update, publish, restore, rename and remove: every flow has a version and points at its highest-numbered one, every stored snapshot is sanitized, and every version's node rows are its snapshot's nodes. |
| FlowRuns.DifferingUpdate | backend/src/flows/flows.service.ts:670-847 | A payload that differs from what is stored is written, never silently dropped; the update fails exactly when the flow would have no root. |
| FlowRuns.SubflowUpdateInEveryRun | backend/src/flows/flows.service.ts:719-838 | In every reachable state, a subflow update whose payload differs, autosaved or not, succeeds and leaves the root's newest snapshot equal to the tree in the rows. |
| FlowRuns.PublishAfterWritingUpdate | backend/src/flows/flows.service.ts:875-909 | In every reachable state, a root update whose payload differs succeeds, and publishing after it stores nothing if and only if every edge has one branch key and the flow does more than hang up. |
| FlowRuns.PublishAfterIdleUpdate | backend/src/flows/flows.service.ts:875-909 | The same for a root update that found nothing to write: if and only if the flow still has the payload's name, the edge rows are the payload's edges, and the flow does more than hang up. |
| FlowRuns.PublishAfterIdleUpdateMayStore | backend/src/flows/flows.service.ts:1834-1869 | For every node list, a payload with keyed edges that writes nothing and after which publishing stores a version. |
| FlowHistory.RootUpdateHistory | backend/src/flows/flows.service.ts:719-785 | In every reachable state, a root update that writes: an explicit save with another structure adds exactly one version, with the next number and the payload's snapshot; an autosave or an unchanged structure rewrites the newest in place; every other version of every flow keeps its number, snapshot and rows. |
| FlowHistory.SubflowUpdateHistory | backend/src/flows/flows.service.ts:719-838 | The same for a subflow's own versions; and of its root the newest version is kept where it equals the tree, rewritten for an autosave or an unchanged structure, and else followed by exactly one version with the tree. No other version changes. |
| FlowHistory.UpdateHolds | backend/src/flows/flows.service.ts:682-847 | In every reachable state, after an update that writes the flow has the payload's name, its parent and the payload's nodes and edges row by row; every other flow keeps name, parent and content. |
| FlowHistory.PublishHistory | backend/src/flows/flows.service.ts:875-909 | In every reachable state, publishing changes no version where the root's newest has the structure of the tree, and else adds exactly one version with that tree; it reports the newest. |
| FlowHistory.CreateHistory | backend/src/flows/flows.service.ts:616-668 | In every reachable state, a new flow gets exactly one version, number 1, with the payload's snapshot and rows. |
| FlowHistory.RestoreHistory | backend/src/flows/flows.service.ts:911-969 | In every reachable state, a restore loses and changes no earlier version; where the tree names each flow once, the flow's newest version is new and stores the very snapshot restored, each listed subflow's stores its listed snapshot without subflows, and no other flow gets a version. |
| FlowHistory.RemoveHistory | backend/src/flows/flows.service.ts:1109-1157 | Deleting flows takes all their versions and changes none of the others'. |
| FlowHistory.EveryRunNumbers | backend/src/flows/flows.service.ts:1772-1801 | After every sequence of transactions the version numbers of each flow are exactly 1 to how many versions it has. |
| FlowsService.Service.SaveNodesAndEdges | backend/src/flows/flows.service.ts:1834-1869 | Inserting rows appends the cleaned nodes and keyed edges to the version's rows and changes nothing else. |
| FlowsService.Service.ReplaceVersionSnapshot | backend/src/flows/flows.service.ts:1810-1832 | The version's snapshot and rows are replaced, other versions are left alone. |
| FlowsService.Service.CreateStoredVersion | backend/src/flows/flows.service.ts:1772-1801 | Adds a version with the next number and its rows, and points the flow at it; over every run the numbers are 1 to k (FlowHistory.EveryRunNumbers). |
| FlowsService.Service.SyncRootSnapshot | backend/src/flows/flows.service.ts:731-838 | The tables become what the specification of the root synchronisation says, or an error with that error's tables. |
| FlowsService.Service.UpdateFlow | backend/src/flows/flows.service.ts:670-847 | The transaction equals its specification, of which FlowHistory says when a version is added and when it is rewritten; it is rolled back on error, keeps the invariant, and after a subflow write the root is up to date. |
| FlowsService.Service.Publish | backend/src/flows/flows.service.ts:875-909 | The transaction equals its specification; the version reported has the structure of the reread tree. |
| FlowsService.Service.RestoreSubflowSnapshots | backend/src/flows/flows.service.ts:1593-1639 | The recursive restore equals its specification. |
| FlowsService.Service.Restore | backend/src/flows/flows.service.ts:911-969 | The transaction equals its specification, of which FlowHistory.RestoreHistory says what it stores; it is rolled back on error and keeps the invariant. |
| FlowsService.Service.CreateFlow | backend/src/flows/flows.service.ts:616-668 | The transaction equals its specification and keeps the invariant. |
| FlowsService.Service.Remove | backend/src/flows/flows.service.ts:1109-1157 | Exactly the flow and its descendants go; every other flow keeps its content and no flow is left under a deleted parent. |
| CampaignDialer.EveryRun | stasis/src/campaign-executor.ts:199-399 | In every interleaving: loaded contacts = queue + dials in flight + active + closing + retry timers + answered + failed, also contact by contact; every channel closed at most once; no contact dialed beyond max(1, maxRetries - attempts + 1); all dials within the sum of the bounds. |
| CampaignDialer.StepConserves | stasis/src/campaign-executor.ts:199-399 | No single step loses, duplicates or miscounts a contact. |
| CampaignDialer.StepKeepsChannels | stasis/src/campaign-executor.ts:199-222 | Every channel handed out is active or closed, never both, and none closed twice. |
| CampaignDialer.StepKeepsTally | stasis/src/campaign-executor.ts:229-243 | A contact's attempts are those it came with plus its dials, wherever it is. |
| CampaignDialer.StepSpends | stasis/src/campaign-executor.ts:331-339 | The measure: each dial spends exactly one unit of a budget that never goes below zero, no other step changes it. |
| CampaignDialer.WindowInEveryRun | stasis/src/campaign-executor.ts:331-399 | With at most K overlapping fills, active calls plus dials in flight never exceed maxConcurrent + K - 1. |
| CampaignDialer.OutcomeIs | stasis/src/campaign-executor.ts:223-246 | With the flow run the contact counts as answered; else, busy or unanswered with attempts left, its retry timer is set with one attempt more and nothing is counted; else it counts as failed. |
| CampaignDialer.CountersInEveryRun | stasis/src/campaign-executor.ts:223-246 | In every run: answered = outcomes determined for channels whose flow had run; failed = failed dials plus outcomes for channels whose flow had not run and whose contact was not retried; dialed = channels opened. |
| CampaignDialer.FirstInFirstDialed | stasis/src/campaign-executor.ts:229-243 | In every run the contacts dialed, in order, then those waiting, are the loaded ones followed by the retries in the order of their timers. |
| CampaignDialer.NoticesInEveryRun | stasis/src/campaign-executor.ts:278-329 | In every run the notices are exactly: one at each stop with every channel closed, one at each completion test with, besides, an empty queue; cancelled once a stop was asked for, else completed. |
| CampaignDialer.OneTestPerReport | stasis/src/campaign-executor.ts:274-287 | In every run each closed call leads to exactly one completion test, made or still due. |
| CampaignDialer.StopIsFinal | stasis/src/campaign-executor.ts:318-332 | After a stop nothing is dialed and nothing is called completed, whatever follows. |
| CampaignDialer.CancelledMeansStopped | stasis/src/campaign-executor.ts:278-329 | In every run a campaign is called cancelled only if a stop was asked for. |
| CampaignDialer.RestFinishesEveryone | stasis/src/campaign-executor.ts:274-339 | A campaign that comes to rest unstopped has finished every loaded contact: none is stranded in the queue. |
| CampaignDialer.CompletionMeans | stasis/src/campaign-executor.ts:278-287 | When the completion test publishes, everyone is finished if and only if no dial is in flight, no call is closing and no retry is due. |
| CampaignDialer.CompletedBeforeRetry | stasis/src/campaign-executor.ts:229-287 | A run that publishes `campaign:completed` with a retry timer pending. |
| CampaignDialer.ActiveForEver | stasis/src/campaign-executor.ts:199-222 | Once the executor has dropped the runtime, no active call ever leaves it, in any run. |
| CampaignDialer.ActiveLeavesIff | stasis/src/campaign-executor.ts:199-222 | Some run takes an active call out of the runtime if and only if the executor still finds the runtime. |
| CampaignDialer.RetryIsStranded | stasis/src/campaign-executor.ts:229-287 | That run continued: the retry is dialed after the campaign completed and its call stays active whatever follows. |
| CampaignExecutor.CampaignRuntime.LoopHead | stasis/src/campaign-executor.ts:331-336 | The loop head is the model's step and takes a contact exactly when the window and the queue allow. |
| CampaignExecutor.CampaignRuntime.DialOpened | stasis/src/campaign-executor.ts:391-399 | Registering the call is the model's step. |
| CampaignExecutor.CampaignRuntime.DialRefused | stasis/src/campaign-executor.ts:345-356 | A failed dial is the model's step. |
| CampaignExecutor.CampaignRuntime.FillWindow | stasis/src/campaign-executor.ts:331-339 | A fill nothing overlaps takes contacts from the front, accounts for each, stops only for a full window, an empty queue or a stop, and never lets active calls pass the window. |
| CampaignExecutor.CampaignRuntime.HandleChannelEnd | stasis/src/campaign-executor.ts:199-222 | Only the first report of a channel finds its call. |
| CampaignExecutor.CampaignRuntime.DecideOutcome | stasis/src/campaign-executor.ts:224-246 | Outcome, counters and retry timer are the model's step: answered exactly when the flow ran, else by what the cause text contains; each counter goes up exactly for its own outcome. |
| CampaignExecutor.CampaignRuntime.AfterReport | stasis/src/campaign-executor.ts:274-276 | Refills unless stopping. |
| CampaignExecutor.CampaignRuntime.TestCompletion | stasis/src/campaign-executor.ts:278-287 | Publishes a final notice exactly when the test says so. |
| CampaignExecutor.CampaignRuntime.RetryTimer | stasis/src/campaign-executor.ts:236-242 | The contact goes back to the end of the queue and a fill starts. |
| CampaignExecutor.CampaignRuntime.StopCampaign | stasis/src/campaign-executor.ts:318-329 | Cancelled at once exactly when no call is active. |
| CampaignExecutor.CampaignRuntime.Laws | stasis/src/campaign-executor.ts:199-399 | The laws of every run, the two counters' included, of the object as it stands. |
| CallFlows.ResolveNextEdge | stasis/src/engine/edgeResolver.ts:21-47 | The edge chosen is one of those given and leaves the current node. |
| CallFlows.ConditionsDecide | stasis/src/engine/edgeResolver.ts:20-38 | Where an edge out of the node has a condition: the result's edge, else `default`'s, else one without a condition, else none. |
| CallFlows.BranchesDecide | stasis/src/engine/edgeResolver.ts:40-45 | Where none has: the result's branch, else the `default` branch, else an edge at all. |
| CallFlows.DigitsDecide | stasis/src/engine/edgeResolver.ts:3-19 | After digits: the digits' own edge, else `timeout`'s or `invalid`'s, else the default or unconditional one, else none. |
| CallFlows.EntryIs | stasis/src/runtime.ts:77-79 | The entry is the first start node, else the first node. |
| CallFlows.RoutingEdges | stasis/src/runtime.ts:188-200 | Only edges of the flow out of the node whose mapped target is no webhook. |
| CallFlows.LookupsAgree | stasis/src/runtime.ts:188-200 | With distinct keys the key map and the first-match search find the same node. |
| Interpreter.NextIsLegal | stasis/src/runtime.ts:383-553 | After any node and any answer: along the edge the result picks, where a `route:` result says, from a menu node into the loaded subflow at its entry, at the branch's target or at the picked edge's target, back to the parent, or a halt in place or after dropping one frame without a `complete` edge. |
| Interpreter.EveryRunMoves | stasis/src/runtime.ts:345-553 | Every iteration of every run makes such a move for the answer it took, a jump only for a `route:` result, and every frame ever on the stack names a menu node of its flow. |
| Interpreter.ReturnsToCaller | stasis/src/runtime.ts:155-170 | When the stack first comes back to a caller's depth, the run is in the caller's own flow, with the caller's stack, at the target of that menu's `complete` edge. |
| Interpreter.EveryRunAvoidsWebhooks | stasis/src/runtime.ts:188-200 | In every run, a step that keeps the stack and is not answered `route:` enters a webhook node if and only if its result picks an edge to a key that names a webhook first and something else last; never with distinct keys. |
| Interpreter.EntersWebhookIff | stasis/src/runtime.ts:383-432 | The same for one place and one answer. |
| Interpreter.MayEnterWebhookIff | stasis/src/runtime.ts:188-200 | Some answer leads from a place into a webhook node along an edge if and only if some result that is followed picks such an edge. |
| Interpreter.DuplicateKeyEntersWebhook | stasis/src/runtime.ts:188-200 | A flow with a key used twice whose edge enters the webhook node. |
| Interpreter.ThrownEndsFailed | stasis/src/runtime.ts:366-373 | A thrown node error makes the run end failed however it continues in parent flows. |
| Interpreter.HaltsIff | stasis/src/runtime.ts:383-553 | For every node and answer: the run halts exactly where it is to stop, or is to go back and no parent flow can go on; it returns to the parent exactly where it is to go back and one can; the reason of each halt. |
| Interpreter.RunEndsIff | stasis/src/runtime.ts:345-577 | Over every run that ends: completed if and only if no node threw and the last iteration ended on `hangup`, `done`, a completion webhook, an authenticated queue login or played audio; every other ending is failed, with the reason of that ending. |
| Interpreter.ClosesOwnRow | stasis/src/runtime.ts:33-65 | The UPDATE closes the row just opened, whatever open rows earlier failures left. |
| Interpreter.OneRowPerNode | stasis/src/runtime.ts:361-379 | Where every INSERT of the run succeeded: one row per executed node, in order, closed by its own exit before the next opens, or left open where its UPDATE failed. |
| Interpreter.OneClosedRowPerNodeIff | stasis/src/runtime.ts:361-379 | In every run, one closed row per executed node with the node's own exit if and only if both statements of every executed node succeeded. |
| Interpreter.RowsAreInserts | stasis/src/runtime.ts:15-31 | In every run, as many new rows as INSERTs that succeeded. |
| Interpreter.RowsNameTheirNodes | stasis/src/runtime.ts:15-65 | In every iteration, failed statements included: a row opened carries the flow and node then current and its own exit; without an INSERT no row comes, and only an older open row of that flow and node may be closed. |
| Interpreter.FinalIsLast | stasis/src/runtime.ts:345-553 | The state a run ends in is the last of its states. |
| Interpreter.RunLoop | stasis/src/runtime.ts:345-553 | The loop ends in the last state of the specified run; unwinding through missing nodes terminates. |
| Interpreter.RunFlow | stasis/src/runtime.ts:319-577 | Exactly one terminal event when the run returns, `failed` exactly when the returned status is, which Interpreter.RunEndsIff decides; none while it waits. |
| Callbacks.EveryRun | stasis/src/callback-execute.ts:241-391 | In every run: published statuses are a path with exactly one terminal status once over, each waiter settles at most once, the legs that entered are exactly those delivered to a waiter of their own or hung up, never both, no hold audio after the end. |
| Callbacks.EveryLegHasItsFate | stasis/src/index.ts:1141-1171 | In every run, each leg that enters is delivered if its waiter was registered at that moment and hung up if not, and neither is undone later. |
| Callbacks.StepKeepsExecution | stasis/src/callback-execute.ts:241-391 | Every step keeps the path of statuses, the phase's last status and the hold audio in step. |
| Callbacks.RowClimbsIff | backend/src/callbacks/callbacks.service.ts:224-433 | In every run the row's status only moves forward if and only if every stale execute or cancel write repeats the status the row already has; then it ends as the execution's outcome with its completion time. |
| Callbacks.LateCancelOverwrites | backend/src/callbacks/callbacks.service.ts:288-310 | A run in which a stale cancel overwrites a terminal status. |
| CallbackExecutor.CallbackManager.RegisterCallbackWaiter | stasis/src/callbackManager.ts:24-28 | A waiter never used before is put under its key, other keys untouched. |
| CallbackExecutor.CallbackManager.SettleCallbackWaiter | stasis/src/callbackManager.ts:30-46 | Taken out before it is settled: found exactly when registered, settled once, a second call finds nothing. |
| CallbackExecutor.Executor.DialOperator | stasis/src/callback-execute.ts:252-297 | Answered exactly when originated and entered in time; otherwise over, failed. |
| CallbackExecutor.Executor.DialCustomer | stasis/src/callback-execute.ts:298-343 | Likewise; a customer who does not answer gets the operator hung up, a failed originate request hangs up nobody. |
| CallbackExecutor.Executor.BridgeLegs | stasis/src/callback-execute.ts:344-383 | Completed exactly when the bridge was built, with the surviving leg hung up; a failed bridge hangs up nobody. |
| CallbackExecutor.Executor.ExecuteCallback | stasis/src/callback-execute.ts:179-391 | The whole execution is a run of the protocol; completed exactly when both legs were dialed and answered and the bridge was built, skipped exactly when fields were missing, else failed; it delivers, hangs up and sees end exactly the legs listed. |
| CallbackExecutor.LegsAreClosedIff | stasis/src/callback-execute.ts:384-391 | Every answered leg ended or was hung up if and only if neither the customer's originate request nor the bridge failed after an answer. |
| CallLogs.WriteOnce | backend/src/call-logs/call-logs.listener.ts:177-278 | On an existing row, under every interleaving of any handlers' statements, an ended row changes only by getting its missing reason, and no reason ever replaces another. |
| CallLogs.FirstEndDecides | backend/src/call-logs/call-logs.listener.ts:177-278 | For an open row, under every interleaving and with failed statements: at every moment the row is what the first ended or failed statement makes of it, completed once a second statement ran; an end time without a reason if and only if the first end is an ended one and no second statement ran. |
| CallLogs.FirstEndFields | backend/src/call-logs/call-logs.listener.ts:185-278 | What the first end leaves in each field whatever follows: which it overwrites, and which it fills only where they were empty. |
| CallLogs.SetTogetherAtRest | backend/src/call-logs/call-logs.listener.ts:177-224 | At rest, where no second statement failed, end time and reason are set together. |
| CallLogs.SoundThroughoutIff | backend/src/call-logs/call-logs.listener.ts:137-278 | Over every run the row stays sound (a reason only with an end time, an end time while an ended handler is between) if and only if the row was never inserted while an ended handler was between its statements. |
| CallLogs.EverReasonWithoutEndIff | backend/src/call-logs/call-logs.listener.ts:177-224 | Over every run the row ever has a reason without an end time if and only if some second statement finds it open. |
| CallLogs.NewRowFromFirst | backend/src/call-logs/call-logs.listener.ts:137-278 | A call without a row: started, it has the verdict of the statements that follow; failed first, that failure's row for good; without a statement, none. |
| CallLogs.NewRowSays | backend/src/call-logs/call-logs.listener.ts:137-278 | A started call that has not ended has the start's fields and no others; a call whose failure came first has the failure's, without an entry node. |
| CallLogs.LateStartIsOverwritten | backend/src/call-logs/call-logs.listener.ts:137-278 | The interleaving that completes a row without an end time and lets a failure overwrite it. |
| CallLogs.Listener.HandleCallStarted | backend/src/call-logs/call-logs.listener.ts:137-175 | The INSERT is the model's statement. |
| CallLogs.Listener.EndCall | backend/src/call-logs/call-logs.listener.ts:185-206 | The first UPDATE is the model's statement. |
| CallLogs.Listener.CompleteCall | backend/src/call-logs/call-logs.listener.ts:209-224 | The second UPDATE, or the caught error in its place, is the model's statement. |
| CallLogs.Listener.HandleCallFailed | backend/src/call-logs/call-logs.listener.ts:226-278 | The upsert is the model's statement. |
| CallLogs.Listener.Laws | backend/src/call-logs/call-logs.listener.ts:137-278 | The laws of every run, of the table as it stands, for calls open or without a row when the listener started. |
| AmiStream.SplitIsExact | stasis/src/amiMonitor.ts:22 | The parts and the boundaries between them, woven together, are the text. |
| AmiStream.PartsHoldNoBoundary | stasis/src/amiMonitor.ts:22 | No part holds a boundary and every cut is at one. |
| AmiStream.SplitAppend | stasis/src/amiMonitor.ts:21-23 | More text leaves the closed parts and splits only the last part again, also when a boundary straddles the cut. |
| AmiMonitor.ChunkIndependence | stasis/src/amiMonitor.ts:71-74 | For every cutting of the stream into chunks, the messages and the remainder are those of the whole. |
| AmiMonitor.PollIsChunkIndependent | stasis/src/amiMonitor.ts:71-106 | What the poll resolves to depends on the stream alone. |
| AmiMonitor.LinesAreExact | stasis/src/amiMonitor.ts:29 | The lines of a message and the line ends between them, woven together, are its text. |
| AmiMonitor.FieldsAre | stasis/src/amiMonitor.ts:29-37 | A message has a field exactly where some line sets it, with the trimmed value of the last line that does. |
| AmiMonitor.PollResolvesTo | stasis/src/amiMonitor.ts:76-105 | The poll resolves once a message completes the list, to the endpoints of the listing messages before it, in order. |
| AmiMonitor.CommasAreExact | stasis/src/amiMonitor.ts:84-85 | The parts of the contacts hold no comma and joined by commas are the text. |
| AmiMonitor.RegisteredIff | stasis/src/amiMonitor.ts:84-94 | An endpoint is registered exactly when some part of its contacts is not blank. |
| AmiMonitor.ParseMessages | stasis/src/amiMonitor.ts:21-42 | The loops compute the specified messages and remainder. |
| AmiMonitor.EndpointPoll.OnData | stasis/src/amiMonitor.ts:71-106 | After every chunk, buffer and resolved list are those of everything received; a resolved list never changes. |
| Capture.CalculateIpv4HeaderChecksum | backend/src/capture/capture.service.ts:355-364 | The nested fold is the complement of the one's-complement sum of the words; an odd length is an error. |
| Capture.CompletedHeaderChecksToZero | backend/src/capture/capture.service.ts:322-337 | For every even header, with its checksum in the place of a zero word, checking gives 0. |
| Capture.BuildIpHeader | backend/src/capture/capture.service.ts:322-337 | The buffer written in place is the header with its checksum, which checks to 0. |
| Capture.BuildRawIpv4UdpPacket | backend/src/capture/capture.service.ts:316-353 | The packet, or an error for a length over 16 bits. |
| Capture.BuildPcapBuffer | backend/src/capture/capture.service.ts:287-298 | The loop builds the file of all records, or fails at the first packet that does not fit. |
| Capture.WritesIff | backend/src/capture/capture.service.ts:316-353 | Writing succeeds if and only if every payload has at most 65507 bytes. |
| Capture.PcapRoundTrip | backend/src/capture/capture.service.ts:287-353 | A reader that also checks version, lengths, checksums, addresses and ports recovers payload, direction and time of every packet; the very packets if and only if all times fit 32-bit seconds. |
| Csv.RoundTrip | backend/src/call-logs/call-logs.service.ts:109-114 | Parsing the joined, escaped fields gives the trimmed fields for every non-empty list; the very fields if and only if all were trimmed. |
| Csv.TrimmedFieldsComeBackIff | backend/src/call-logs/call-logs.service.ts:236-245 | The trimmed fields come back if and only if there is a field: an empty list reads as one empty field. |
| Csv.PrintingKeepsApart | backend/src/call-logs/call-logs.service.ts:236-245 | Lists that print alike are alike once trimmed. |
| Csv.ParseCsvLine | backend/src/campaigns/campaigns.service.ts:928-956 | The character loop computes the specified fields. |
| LogCorrelation.RelatedIsLeast | backend/src/asterisk-logs/asterisk-logs.service.ts:190-268 | The lines reached by links from matching lines are the least set that holds those and is closed under links. |
| LogCorrelation.OrderDoesNotMatter | backend/src/asterisk-logs/asterisk-logs.service.ts:190-226 | Reordering the lines relates the same lines. |
| LogCorrelation.ContextIsLinks | backend/src/asterisk-logs/asterisk-logs.service.ts:228-268 | Matching the collected tokens is being linked to an included line. |
| LogCorrelation.Saturate | backend/src/asterisk-logs/asterisk-logs.service.ts:207-223 | The nested loop terminates with exactly the related lines. |
| LogCorrelation.FilterByCallContextWithCorrelation | backend/src/asterisk-logs/asterisk-logs.service.ts:190-226 | Returns exactly the related lines in their original order. |
| LogCorrelation.SelectKeepsOrder | backend/src/asterisk-logs/asterisk-logs.service.ts:223 | What is selected are the lines of the set, each once, by ascending index. |
| Firewall.ProtectedIffPrivate | backend/src/firewall/firewall.service.ts:42-52 | Comparing addresses as numbers is comparing network prefixes: 10/8, 172.16/12, 192.168/16 and the loopback address. |
| Firewall.PruningKeepsSurvivors | backend/src/firewall/firewall.service.ts:111-115 | Pruning at every event keeps exactly the events no later one cuts off. |
| Firewall.SurvivorsAreTheWindow | backend/src/firewall/firewall.service.ts:111-115 | With non-decreasing timestamps that is the window filter of the full history. |
| Firewall.SurvivorsAreWindowIff | backend/src/firewall/firewall.service.ts:111-115 | On every history the events kept are the window if and only if every event inside the last window is fresh at every later event. |
| Firewall.EveryRunRefines | backend/src/firewall/firewall.service.ts:92-126 | In every run the pruned lists are the survivors of the full histories since the last clearing, and the same blocks are issued. |
| Firewall.BlocksIff | backend/src/firewall/firewall.service.ts:118-121 | On every run, a block is issued if and only if the event counts, the survivors of its address's history reach the threshold and the address is not whitelisted at that moment; it carries that count. |
| Firewall.BlocksIffWindow | backend/src/firewall/firewall.service.ts:111-121 | With the address's events timed and not going back: if and only if the window count since the last clearing reaches the threshold. |
| Firewall.WithinIff | backend/src/firewall/firewall.service.ts:111-114 | A timed event is inside another's window exactly when it is at most the window's length older. |
| Firewall.ClearsIff | backend/src/firewall/firewall.service.ts:118-121 | On every run, an event that counts leaves its address's list empty if and only if the threshold is reached and the block was enforced, or the address, whitelisted by then, already has a row. |
| Firewall.EventIs | backend/src/firewall/firewall.service.ts:92-126 | On every run, an event for a malformed, protected or whitelisted address or of an allowed registration changes nothing; any other joins its address's history or clears it, and touches no other address. |
| Firewall.HistoryIsOrdered | backend/src/firewall/firewall.service.ts:92-126 | Histories of such runs are ordered. |
| Firewall.NeverBlocksProtected | backend/src/firewall/firewall.service.ts:92-126 | No block is ever issued for a protected or malformed address. |
| Firewall.OutOfOrderDropsMore | backend/src/firewall/firewall.service.ts:111-115 | Three events with a timestamp that goes back, for which the kept list is less than the window. |
| Firewall.FirewallService.ProcessLogEvent | backend/src/firewall/firewall.service.ts:92-126 | One event is the model's step. |
| Firewall.FirewallService.BlockIp | backend/src/firewall/firewall.service.ts:342-379 | Issues a block exactly when not whitelisted, and reports whether the caller may clear. |

## Left out

- HTTP controllers, gateways, modules, React components, logging, migrations, CRUD services, pagination and configuration text: no property of their own.
- Slugs, descriptions, messages, timestamps, parent node and branch keys of flows, and the legacy menu link repair: they do not enter snapshots or their comparison.
- The node and edge validators appear as their verdict on the payload (`accepted`); the one default they write into a start node is modelled.
- Payloads are compared as values; the source compares their JSON text, so JSON.stringify is taken to be injective on them. jsonb key order is not modelled.
- `localeCompare` is a total order on strings, taken by code unit; real collation may tie strings that differ.
- FlowRestore.RestoreThenReread: the root's edge handles are not recovered, because the root restore drops them.
- Retried or concurrent flow transactions: each transaction is atomic.
- Campaign: one runtime with a flag that says the executor still finds it; channel ids are fresh numbers; publishes do not throw; the Redis active counter and the call-log lookup are not modelled. The start of a fill and its first loop test are two steps, which allows more interleavings than the source has.
- Interpreter: what a node does, the subflow queries and log statements are answers from outside; webhook requests fired on the side are not recorded; a thrown error with an empty message is not given the default text.
- Callbacks: one execution per callback, status messages arrive in order and one at a time, fail reasons and SIP traffic records are not modelled, publishes do not throw.
- Json: object entries stay in insertion order, while JavaScript lists integer-like keys first (such as the branch keys of `submenu_branch_names`).
- Ami: characters, not bytes, so a multi-byte character cut by a chunk is not modelled; object keys inherited in JavaScript are not.
- Capture: payload extraction and timestamp parsing from JSON; UDP checksums are zero as written.
- Csv: the whole-file layout of the export and the import's splitting into lines.
- LogCorrelation: the regular expressions that find tokens; a line carries its tokens.
- Firewall: addresses are already parsed, so every spelling of 127.0.0.1 is protected while the source compares its text; events are processed one at a time, statistics, GeoIP and the enforcement itself are answers from outside, and the configuration is fixed.
- Direct-outbound calls, trunk tests, the VPN relay, recordings and reports: mostly I/O sequencing.
