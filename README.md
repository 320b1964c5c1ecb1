# xsAjaxQueues scheduling core in Dafny

This project models the scheduling engine of the jQuery plugin xsAjaxQueues
(`xsAjaxQueues/xsAjaxQueues.js`). Work submitted through `ajax` first passes a chain of filters.
It is then added to a named queue. The queue decides when each request is handed to the transport
and when its `success`, `error` and `complete` callbacks run.

- A **request** carries eight flags that are only ever set: `sent`, `received`, `processed`,
  `canceled`, `aborted`, `success`, `error` and `complete`. It also has three callback slots and
  the context and arguments each outcome was first executed with. Its listeners see every flag as
  it is set.
- A **queue** keeps its pending requests in a list. It inserts at the tail (`fifo`) or at the head
  (`lifo`), and selects the next request by eligibility and by an optional `asc`/`desc` priority.
  It dispatches in one of two modes:
  - `request` mode is serialised. One request is in flight, and the queue stays `locked` until
    that request's `complete` arrives.
  - `response` mode is pipelined. Everything is sent at once, and callbacks run in queue order:
    a request whose response arrived early waits behind the selected one that has none yet.

  A queue also counts what it does and reports events to its listeners.
- A **filter** has an optional condition, an optional pre-filter that rewrites the settings and an
  optional post-filter that observes the new request.
- The **registry** maps queue ids to queues and holds the filters in registration order. It also
  holds the process-wide request counter that gives every request its id.

## How the model is organised

| module | file | contents |
|---|---|---|
| `Wrappers` | `wrappers.dfy` | `Option`, `Result`, and the error messages the library throws |
| `Seqs` | `seqs.dfy` | the `$.each` search by identity and `splice(k, 1)` |
| `Lifecycle` | `lifecycle.dfy` | names of outcomes and flags, the flags record, the cancel decision, and the flag transitions with their guards |
| `Records` | `records.dfy` | the state of a request, each request operation as a function, and the counters and events of a queue |
| `Selection` | `selection.dfy` | `getNextRequest` as a pure function over snapshots of the pending list |
| `Dispatch` | `dispatch.dfy` | the two draining loops of a queue (the order of sends, the order of callback runs) as functions of a snapshot |
| `QueueSpec` | `queuespec.dfy` | a queue as a value, with every queue method as a function of it; the queue's properties are proved here |
| `Engine` | `engine.dfy` | the `Request` and `Queue` classes, whose methods update their fields in place |
| `Filters` | `filters.dfy` | filter rules, the `Filter` class, condition selection, and the fold of pre-filters |
| `Registry` | `registry.dfy` | the `Registry` class (queues, filters, request counter) and the admission flow of `ajax` |

The `Queue` class keeps a ghost snapshot of each listed request in `views`. Its abstraction
`QS()` is a `QueueSpec.QState`. Every queue method is proved to change `QS()` exactly as the
`QueueSpec` function of the same name says, and to keep the queue invariant `Valid()`. The
properties of the queue are proved about the `QueueSpec` functions.

Several things are parameters rather than code:

- **The transport.** Handing a request to the transport sets its `sent` flag. A response is a call
  of `Engine.Queue.Deliver(r, outcome, context, arguments)`. That method plays the part of the
  hooks that `sendRequest` installs on the request it sends.
- **User callbacks and listeners.** These are numeric ids. Every invocation of a callback is
  recorded as a `Call`. Every event a request dispatches is recorded in its `events`. Every event
  a queue dispatches is recorded in its ghost `log`.
- **Filter conditions and pre-filters.** What they compute is the environment value `Env`. The
  runs of post-filters are returned by `Ajax` as `Observation`s.

## Model

| member | source | states |
|---|---|---|
| `Seqs.IndexOf` | xsAjaxQueues/xsAjaxQueues.js:603-610 | the search by identity gives the first position holding the element, and nothing exactly when the element is absent |
| `Seqs.Find` | xsAjaxQueues/xsAjaxQueues.js:605-610 | the `$.each` loop that stops at the first match returns that first position |
| `Seqs.RemoveAt` | xsAjaxQueues/xsAjaxQueues.js:614 | `splice(k, 1)` drops exactly position `k`; the elements before it stay put and the ones after move up by one |
| `Seqs.RemoveFirstSpec` | xsAjaxQueues/xsAjaxQueues.js:603-616 | deleting a request removes exactly one copy of it (its first occurrence) and keeps the others in order; an absent element changes nothing |
| `Seqs.RemoveFirstMembers` | xsAjaxQueues/xsAjaxQueues.js:469-484 | removing one listener leaves every other listener registered exactly when it was before |
| `Lifecycle.ParseOutcome` | xsAjaxQueues/xsAjaxQueues.js:334-337 | the callback-name check accepts exactly 'success', 'error' and 'complete'; any other name is the "Incorrect callback name!" error |
| `Lifecycle.ParseFlag` | xsAjaxQueues/xsAjaxQueues.js:315-318 | `setFlag` accepts exactly the eight flag names; any other name is the "Incorrect flag name!" error |
| `Lifecycle.Flags.Set` | xsAjaxQueues/xsAjaxQueues.js:319 | setting a flag makes it true and leaves every other flag unchanged |
| `Lifecycle.CancelResult` | xsAjaxQueues/xsAjaxQueues.js:421-448 | `cancel(abort)` returns true exactly when the request was already canceled or aborted, was unsent, or was sent, unanswered and aborted now. A refusal or an already ended request keeps the flags. Otherwise exactly `canceled` (unsent) or exactly `aborted` (in flight) is set |
| `Lifecycle.StepKeepsCoherent` | xsAjaxQueues/xsAjaxQueues.js:315-322 | every flag transition the engine performs under its guard keeps the flags coherent and never turns a flag off |
| `Lifecycle.RunKeepsCoherent` | xsAjaxQueues/xsAjaxQueues.js:315-322 | any run of guarded transitions keeps every flag that was set and stays coherent; `canceled` and `aborted` are never both set |
| `Lifecycle.EndedRequestRunsNothing` | xsAjaxQueues/xsAjaxQueues.js:674-689 | once a request is canceled or aborted, no later transition sends it or runs one of its callbacks |
| `Lifecycle.AcceptHandlers` | xsAjaxQueues/xsAjaxQueues.js:257-267 | the listeners argument is accepted exactly when every value is a function. Otherwise the functions before the first non-function are the ones kept, and that value is the throw |
| `Lifecycle.AcceptHandlersUnique` | xsAjaxQueues/xsAjaxQueues.js:540-545 | a loop that pushes functions and stops at the first non-function can end only as `AcceptHandlers` says |
| `Records.Slots.Put` | xsAjaxQueues/xsAjaxQueues.js:361 | replacing one outcome's slot changes that slot and no other |
| `Records.ExecuteStep` | xsAjaxQueues/xsAjaxQueues.js:393-408 | `executeCallback` records the context and arguments only when they are not both recorded already. It calls the callback in the slot, if there is one, with the given values. It sets the outcome's flag, and 'complete' also sets `processed` |
| `Records.AnswerStep` | xsAjaxQueues/xsAjaxQueues.js:683-689 | the 'request' mode hook leaves an aborted request untouched. Otherwise the first outcome sets `received`, and the outcome is executed |
| `Records.RecordStep` | xsAjaxQueues/xsAjaxQueues.js:724-731 | the 'response' mode hook records that the outcome is to run later, with its context and arguments. 'complete' sets `received`. No callback runs |
| `Records.CaptureOnce` | xsAjaxQueues/xsAjaxQueues.js:397-400 | after an execution that supplied both a context and arguments, a second execution of the same outcome records nothing new but still calls the callback with its own values |
| `Records.SetCallbackStep` | xsAjaxQueues/xsAjaxQueues.js:357-366 | a non-function callback is the "function expected" error. Otherwise the result is true exactly when the request is not processed. On true the slot is replaced; on false nothing changes |
| `Records.CancelStep` | xsAjaxQueues/xsAjaxQueues.js:421-448 | the request's part of `cancel` returns and sets what `CancelResult` decides, and leaves the request alone when no flag changes |
| `Records.RecordedStepSpec` | xsAjaxQueues/xsAjaxQueues.js:774-779 | one slot of `processRequest` runs the callback and sets the outcome flag exactly when the outcome was recorded. It changes no recorded value and no other flag |
| `Records.RunRecordedCalls` | xsAjaxQueues/xsAjaxQueues.js:774-779 | processing a received request calls the callbacks of exactly the recorded outcomes, in the order success, error, complete, with the recorded context and arguments |
| `Records.RunRecordedFlags` | xsAjaxQueues/xsAjaxQueues.js:774-782 | processing sets `processed` and the flags of exactly the recorded outcomes; no other flag changes |
| `Records.RunRecordedCoherent` | xsAjaxQueues/xsAjaxQueues.js:767-782 | processing a received request that was not aborted keeps its flags coherent and turns none off |
| `Records.Counters.Bump` | xsAjaxQueues/xsAjaxQueues.js:691 | counting an executed outcome adds one to that outcome's counter and changes no other counter |
| `Selection.Scan` | xsAjaxQueues/xsAjaxQueues.js:865-870 | the best-priority scan yields an index exactly when the list is not empty, and the priority it keeps is the one at that index |
| `Selection.EligibleIndices` | xsAjaxQueues/xsAjaxQueues.js:846 | `requests.filter(cb)` yields strictly increasing positions of requests that pass the filter |
| `Selection.FilterComplete` | xsAjaxQueues/xsAjaxQueues.js:846 | the filter keeps every position whose request passes it |
| `Selection.Next` | xsAjaxQueues/xsAjaxQueues.js:840-877 | `getNextRequest` only returns a request that passes the filter. Unless the priority setting is unrecognised, it returns one exactly when one passes. With an unrecognised setting it returns undefined |
| `Selection.NextIsFirstEligible` | xsAjaxQueues/xsAjaxQueues.js:848-851 | without a priority setting the result is the first request in list order that passes the filter, and undefined when none passes |
| `Selection.ScanFindsEarliestBest` | xsAjaxQueues/xsAjaxQueues.js:852-871 | when some element has a priority, the scan ends at the earliest element whose priority is best among those that have one. When none has, it ends at the last element |
| `Selection.NextIsBest` | xsAjaxQueues/xsAjaxQueues.js:852-871 | with 'asc' ('desc'), when an eligible request has a priority, the result has one, and no eligible request has a smaller (larger) one |
| `Selection.NextIsEarliest` | xsAjaxQueues/xsAjaxQueues.js:865-870 | ties go to the earliest: the result is strictly better than every earlier eligible request that has a priority |
| `Selection.NextWithoutPriorities` | xsAjaxQueues/xsAjaxQueues.js:865-870 | with 'asc' or 'desc' and no eligible request carrying a priority, the result is the last eligible request |
| `Selection.NextAgrees` | xsAjaxQueues/xsAjaxQueues.js:840-877 | selection reads nothing but eligibility and priority: two lists that agree on both select the same position |
| `Dispatch.MarkSentShrinks` | xsAjaxQueues/xsAjaxQueues.js:739-749 | each send in 'response' mode leaves one fewer request to send, so the self-invocation ends |
| `Dispatch.SendOrderSendsEach` | xsAjaxQueues/xsAjaxQueues.js:739-751 | 'response' mode sends every request that is neither sent nor canceled, each exactly once, and nothing when the priority setting is unrecognised |
| `Dispatch.SendOrderWithoutPriority` | xsAjaxQueues/xsAjaxQueues.js:742-749 | without a priority setting 'response' mode sends in list order |
| `Dispatch.ProcessRunStopsAtGate` | xsAjaxQueues/xsAjaxQueues.js:770-773 | after a run of `processRequest` the next request to process, if any, has no response yet |
| `Dispatch.ProcessRunSplits` | xsAjaxQueues/xsAjaxQueues.js:773-784 | every request a run executes was received and awaiting processing, and each one leaves the list |
| `Dispatch.ProcessRunKeeps` | xsAjaxQueues/xsAjaxQueues.js:770-773 | a request that is not both received and awaiting processing is never removed by a run |
| `Dispatch.ArrivalOnlyExtends` | xsAjaxQueues/xsAjaxQueues.js:767-796 | responses arriving in any order never reorder callbacks: what runs before more responses arrive is a prefix of what runs after |
| `Dispatch.ProcessRunWithoutPriority` | xsAjaxQueues/xsAjaxQueues.js:767-796 | without a priority setting callbacks run in list order, so a request never runs before an awaiting request ahead of it |
| `Dispatch.EligibleIdsDropFirst` | xsAjaxQueues/xsAjaxQueues.js:781 | deleting the first eligible request drops exactly the first eligible id |
| `QueueSpec.Locate` | xsAjaxQueues/xsAjaxQueues.js:605-610 | finds the position of the listed request with a given id, and nothing exactly when no listed request has it |
| `QueueSpec.Send` | xsAjaxQueues/xsAjaxQueues.js:672-757 | `sendRequest` keeps the list's length, ids and order, and never changes `enabled` |
| `QueueSpec.SendOne` | xsAjaxQueues/xsAjaxQueues.js:711-721 | 'request' mode keeps the list's length, ids and order, and never changes `enabled` |
| `QueueSpec.SendEach` | xsAjaxQueues/xsAjaxQueues.js:739-751 | 'response' mode keeps the list's length, ids and order, and never changes `enabled` |
| `QueueSpec.SendGuarded` | xsAjaxQueues/xsAjaxQueues.js:674 | nothing happens while the queue is disabled or locked |
| `QueueSpec.SendOneInRequestMode` | xsAjaxQueues/xsAjaxQueues.js:711-721 | in 'request' mode exactly the selected request becomes sent. The queue locks, `sent` grows by one, and no other listed request changes |
| `QueueSpec.SendAllInResponseMode` | xsAjaxQueues/xsAjaxQueues.js:739-751 | in 'response' mode one call sends every request neither sent nor canceled, and changes no other request. The queue stays unlocked |
| `QueueSpec.SendKeeps` | xsAjaxQueues/xsAjaxQueues.js:672-757 | sending keeps the invariant (coherent flags, unique ids, at most one request in flight in 'request' mode) and changes only the `sent` counter |
| `QueueSpec.SendRoundRest` | xsAjaxQueues/xsAjaxQueues.js:739-749 | one round of the 'response' drain leaves the rest of the drain unchanged, so the loop computes the whole drain |
| `QueueSpec.SendEachIdle` | xsAjaxQueues/xsAjaxQueues.js:742-747 | the drain ends by reporting 'allSent' once nothing is left to send |
| `QueueSpec.SendIdempotent` | xsAjaxQueues/xsAjaxQueues.js:672-757 | a second `sendRequest` right after the first changes nothing |
| `QueueSpec.Tally` | xsAjaxQueues/xsAjaxQueues.js:777-780 | a run of `processRequest` adds one `processed` per executed request. Its per-outcome counters only grow, and no other counter moves |
| `QueueSpec.TallyOne` | xsAjaxQueues/xsAjaxQueues.js:774-780 | executing one request adds one `processed` and one execution per outcome its hook recorded |
| `QueueSpec.ProcessRound` | xsAjaxQueues/xsAjaxQueues.js:774-783 | one round removes the executed request, tallies it and reports 'processed' for it |
| `QueueSpec.ProcessEachRun` | xsAjaxQueues/xsAjaxQueues.js:767-796 | `ProcessEach`, the self-invocations of `processRequest`, execute exactly the run `ProcessRun` selects, counted and reported in that order, and leave its rest listed |
| `QueueSpec.ProcessRoundRun` | xsAjaxQueues/xsAjaxQueues.js:773-784 | a round followed by the rest of the run is the whole run |
| `QueueSpec.ProcessStopRun` | xsAjaxQueues/xsAjaxQueues.js:786-793 | when the selected request has no response, nothing runs |
| `QueueSpec.Process` | xsAjaxQueues/xsAjaxQueues.js:767-796 | `processRequest` never lengthens the list and never sends, locks, unlocks, enables or disables |
| `QueueSpec.ProcessKeeps` | xsAjaxQueues/xsAjaxQueues.js:767-796 | processing keeps the queue's invariant and changes only the `processed` and per-outcome counters |
| `QueueSpec.ProcessSettles` | xsAjaxQueues/xsAjaxQueues.js:767-796 | a second `processRequest` right after a first executes and counts nothing |
| `QueueSpec.InsertKeeps` | xsAjaxQueues/xsAjaxQueues.js:567-574 | `Insert`: 'fifo' appends the new request's id and 'lifo' prepends it, keeping the order of the others; another `order` value lists nothing |
| `QueueSpec.AddKeeps` | xsAjaxQueues/xsAjaxQueues.js:565-580 | `Add` (`addRequest` after construction) counts the request once and places it by `order` without reordering the others. The invariant holds whether or not the request is sent at once |
| `QueueSpec.ToggleFlips` | xsAjaxQueues/xsAjaxQueues.js:654-662 | `Toggle` (`Disable` on an enabled queue, `Enable` otherwise) flips `enabled` and keeps the invariant, and a disabled queue neither sends nor processes. Disabling leaves the list alone; enabling lists what `enable` lists |
| `QueueSpec.EnableAfterSend` | xsAjaxQueues/xsAjaxQueues.js:627-632 | `Enable` on a queue that is already enabled and fully sent only reports 'enabled' |
| `QueueSpec.Answered` | xsAjaxQueues/xsAjaxQueues.js:683-736 | a response never changes the id or the priority of the request it answers |
| `QueueSpec.Refresh` | xsAjaxQueues/xsAjaxQueues.js:683-736 | a response changes the snapshot of the request it answers and no other; an unlisted request changes nothing |
| `QueueSpec.DeliverIgnoresAborted` | xsAjaxQueues/xsAjaxQueues.js:684 | in 'request' mode a response to an aborted request is ignored entirely |
| `QueueSpec.AnsweredCoherent` | xsAjaxQueues/xsAjaxQueues.js:683-736 | a response keeps the request's flags coherent and keeps it in flight or not. Only a 'complete' in 'request' mode ends it |
| `QueueSpec.DeliverKeeps` | xsAjaxQueues/xsAjaxQueues.js:683-736 | every response (`Deliver`, which is `DeliverToRequest` in 'request' mode and `DeliverToResponse` in 'response' mode) keeps the invariant: in 'request' mode at most one request is in flight, and listed requests stay coherent, pending and uniquely identified |
| `QueueSpec.CompleteReleasesLock` | xsAjaxQueues/xsAjaxQueues.js:692-706 | `Finish` and `Release`: in 'request' mode 'complete' removes the request in flight and counts it as received and processed. The queue ends locked exactly when it is enabled and another request is left to send |
| `QueueSpec.OtherOutcomesKeepLock` | xsAjaxQueues/xsAjaxQueues.js:683-691 | in 'request' mode 'success' and 'error' neither remove the request nor release the lock |
| `QueueSpec.CancelInQueue` | xsAjaxQueues/xsAjaxQueues.js:806-831 | `cancelRequest` never lengthens the list, and removes the request when it was unsent, or aborted before processing, and listed |
| `QueueSpec.CancelUnsent` | xsAjaxQueues/xsAjaxQueues.js:808-812 | deleting an unsent request shortens the list when it is listed, and otherwise changes nothing |
| `QueueSpec.CountAbort` | xsAjaxQueues/xsAjaxQueues.js:816-823 | an abort adds one to `aborted`, reports 'aborted', and changes nothing else |
| `QueueSpec.AfterAbort` | xsAjaxQueues/xsAjaxQueues.js:813-826 | the reaction to an abort never lengthens the list |
| `QueueSpec.AbortSent` | xsAjaxQueues/xsAjaxQueues.js:813-828 | `cancelRequest` on an aborted request never lengthens the list, and shortens it when the request is still listed after the reaction |
| `QueueSpec.RequestCancel` | xsAjaxQueues/xsAjaxQueues.js:421-448 | `Request.cancel` on a queued request returns what `CancelResult` decides; a refusal changes nothing. A success on a live request shortens the list, and the only error is "Request not in queue!" |
| `QueueSpec.CancelUnsentRemovesIt` | xsAjaxQueues/xsAjaxQueues.js:806-812 | canceling an unsent listed request returns true, removes exactly it, and adds one to `canceled` only |
| `QueueSpec.AbortReleasesLock` | xsAjaxQueues/xsAjaxQueues.js:813-827 | in 'request' mode aborting the request in flight removes it and adds one to `aborted`. The queue ends locked exactly when it is enabled and another request is left to send |
| `QueueSpec.RequestCancelKeeps` | xsAjaxQueues/xsAjaxQueues.js:421-448 | a cancellation or an abort keeps the queue's invariant, whatever it returns |
| `QueueSpec.RequestCancelSucceeds` | xsAjaxQueues/xsAjaxQueues.js:603-616 | canceling a listed request of a queue in its invariant never throws "Request not in queue!" |
| `QueueSpec.CancelStepKeepsPrefix` | xsAjaxQueues/xsAjaxQueues.js:892-896 | canceling one request leaves the requests before it in place, except when 'response' mode processes after an abort |
| `QueueSpec.CancelFromKeeps` | xsAjaxQueues/xsAjaxQueues.js:892-896 | `CancelFrom`, the scan of `cancel` as written, never throws on a non-empty queue, and keeps the invariant |
| `QueueSpec.CancelAllRefusesRest` | xsAjaxQueues/xsAjaxQueues.js:886-898 | except for an abort in 'response' mode, `CancelAll` (`cancel` as written) leaves only requests that refuse |
| `QueueSpec.CancelScanStep` | xsAjaxQueues/xsAjaxQueues.js:892-896 | one step of the corrected scan `CancelScan`: a throw ends it, a refusal moves on, and a success starts over on a shorter list that keeps the invariant |
| `QueueSpec.CancelRestartRefusesRest` | xsAjaxQueues/xsAjaxQueues.js:886-898 | in every mode the corrected scan `CancelRestart` never throws, and leaves only requests that refuse |
| `QueueSpec.CancelQueueRefusesRest` | xsAjaxQueues/xsAjaxQueues.js:886-898 | `CancelQueue`, the corrected `cancel`, throws exactly on an empty queue, keeps the invariant, and leaves nothing unsent (and, when aborting, nothing in flight and unanswered) |
| `QueueSpec.CancelSkipsExample` | xsAjaxQueues/xsAjaxQueues.js:886-898 | on a concrete 'response' queue, `cancel(true)` as written returns normally but leaves a request that would not refuse |
| `Engine.Request.constructor` | xsAjaxQueues/xsAjaxQueues.js:218-290 | a new request has all flags false, its callbacks taken from the settings, nothing recorded, and the accepted listeners |
| `Engine.Request.SetFlag` | xsAjaxQueues/xsAjaxQueues.js:315-322 | the flag is set and its event goes to the listeners, as `SetFlagStep` says |
| `Engine.Request.SetNamedFlag` | xsAjaxQueues/xsAjaxQueues.js:315-322 | an unknown name throws and changes nothing; a known name sets that flag |
| `Engine.Request.Send` | xsAjaxQueues/xsAjaxQueues.js:309-313 | sending marks the request sent |
| `Engine.Request.GetCallback` | xsAjaxQueues/xsAjaxQueues.js:334-339 | an unknown name throws; a known name returns that slot |
| `Engine.Request.SetCallback` | xsAjaxQueues/xsAjaxQueues.js:353-367 | the name is checked first, then the callback. The result and the new state are as `SetCallbackStep` says |
| `Engine.Request.ExecuteCallback` | xsAjaxQueues/xsAjaxQueues.js:393-408 | the request performs `ExecuteStep` |
| `Engine.Request.RunRecordedOutcomes` | xsAjaxQueues/xsAjaxQueues.js:774-782 | the request performs `RunRecorded`: the recorded outcomes in slot order, then `processed` |
| `Engine.Request.Cancel` | xsAjaxQueues/xsAjaxQueues.js:421-448 | the return value, or the throw, and the new queue state are as `RequestCancel` says, and the queue stays valid. The request's own flags and events change as `CancelStep` says. Every other request the queue had listed is at most sent by the follow-up `sendRequest` ('request' mode), or at most processed by the follow-up `processRequest` (otherwise) |
| `Engine.Request.Withdraw` | xsAjaxQueues/xsAjaxQueues.js:425-440 | a cancellation or an abort that goes ahead returns, and changes the queue, as `RequestCancel` says, and the queue stays valid. The request changes as `CancelStep` says. The other listed requests are at most sent ('request' mode) or at most processed (otherwise) |
| `Engine.Request.WithdrawSent` | xsAjaxQueues/xsAjaxQueues.js:425-440 | in 'request' mode a cancellation or an abort returns, and changes the queue, as `RequestCancel` says; the request changes as `CancelStep` says and the other listed requests are at most sent |
| `Engine.Request.WithdrawProcessed` | xsAjaxQueues/xsAjaxQueues.js:425-440 | in any other mode a cancellation or an abort returns, and changes the queue, as `RequestCancel` says; the request changes as `CancelStep` says and the other listed requests are at most processed |
| `Engine.Request.Answer` | xsAjaxQueues/xsAjaxQueues.js:683-689 | the request performs `AnswerStep` |
| `Engine.Request.Record` | xsAjaxQueues/xsAjaxQueues.js:724-731 | the request performs `RecordStep` |
| `Engine.Request.Added` | xsAjaxQueues/xsAjaxQueues.js:576 | the request dispatches 'added' to its listeners |
| `Engine.Request.AddListener` | xsAjaxQueues/xsAjaxQueues.js:461-467 | a non-function throws and changes nothing; a function is appended to the listeners |
| `Engine.Request.RemoveListener` | xsAjaxQueues/xsAjaxQueues.js:469-484 | returns true exactly when the listener was registered, and removes its first registration |
| `Engine.AcceptListeners` | xsAjaxQueues/xsAjaxQueues.js:257-267 | the loop over a listeners argument ends as `AcceptHandlers` says |
| `Engine.Queue.constructor` | xsAjaxQueues/xsAjaxQueues.js:518-535 | a new queue is enabled, unlocked and empty, with zero counters, and satisfies the invariant |
| `Engine.Queue.ListedAt` | xsAjaxQueues/xsAjaxQueues.js:605-610 | searching the list by identity finds a request exactly where its id is listed |
| `Engine.Queue.NextRequest` | xsAjaxQueues/xsAjaxQueues.js:840-877 | returns the position `Next` selects |
| `Engine.Queue.DeleteRequest` | xsAjaxQueues/xsAjaxQueues.js:603-616 | returns false (the throw) exactly when the request is not listed, and removes its first occurrence |
| `Engine.Queue.Unlist` | xsAjaxQueues/xsAjaxQueues.js:603-616 | deleting a request removes its snapshot exactly where its id is listed, and throws when it is not |
| `Engine.Queue.SendRequest` | xsAjaxQueues/xsAjaxQueues.js:672-757 | the queue changes as `QueueSpec.Send` says and lists the same requests. A listed request that became sent had exactly `setFlag('sent')` happen to it, its 'sent' event included; every other one is untouched, so no callback, listener or recorded value changes |
| `Engine.Queue.SendAt` | xsAjaxQueues/xsAjaxQueues.js:711-714 | the request at `k` is sent, counted and reported as `SendRound` says. Its state changes by exactly `setFlag('sent')`, and every other listed request is untouched |
| `Engine.Queue.SendSelected` | xsAjaxQueues/xsAjaxQueues.js:711-721 | 'request' mode sends the selected request and locks, as `Send` says. Listed requests are at most sent |
| `Engine.Queue.LockAfterSend` | xsAjaxQueues/xsAjaxQueues.js:713-720 | after a send in 'request' mode the queue locks and reports 'allSent' exactly when nothing is left to send; nothing else changes |
| `Engine.Queue.SendPipelined` | xsAjaxQueues/xsAjaxQueues.js:739-751 | 'response' mode changes the queue as `Send` says. Listed requests are at most sent |
| `Engine.Queue.Drain` | xsAjaxQueues/xsAjaxQueues.js:739-751 | the loop that replaces the self-invocation of 'response' mode reaches `SendEach` of the starting state, and every listed request is at most sent |
| `Engine.Queue.DrainEnd` | xsAjaxQueues/xsAjaxQueues.js:742-747 | when nothing is left to send, ending the drain (reporting 'allSent') is the whole of `SendEach` of the current state |
| `Engine.Queue.DrainStep` | xsAjaxQueues/xsAjaxQueues.js:739-749 | one round sends the selected request, leaves one fewer to send and the rest of the drain (`SendEach`) unchanged, and keeps every listed request at most sent since the drain began |
| `Engine.Queue.ProcessRequest` | xsAjaxQueues/xsAjaxQueues.js:767-796 | the queue changes as `QueueSpec.Process` says and lists no new request. A request that left the list had received its response and was not aborted, and had its recorded outcomes run as `RunRecorded` says: its callbacks called in slot order with the recorded values, then `processed` set. A request still listed is untouched |
| `Engine.Queue.RunReceived` | xsAjaxQueues/xsAjaxQueues.js:773-784 | the loop that replaces the self-invocation of `processRequest` reaches `ProcessEach` of the starting state. Each request it removed had its recorded outcomes run as `RunRecorded` says; the rest are untouched |
| `Engine.Queue.ProcessStep` | xsAjaxQueues/xsAjaxQueues.js:773-784 | one round removes the selected received request, shortens the list, leaves the rest of the run (`ProcessEach`) unchanged, and keeps every request processed since the run began as `RunRecorded` says |
| `Engine.Queue.CountRun` | xsAjaxQueues/xsAjaxQueues.js:774-780 | the counters of one processed request grow as `TallyOne` says: one execution per recorded outcome and one `processed` |
| `Engine.Queue.ProcessAt` | xsAjaxQueues/xsAjaxQueues.js:774-784 | one round counts, deletes and reports the request at `k`, as `ProcessRound` says. That request's state becomes `RunRecorded` of its old state, so its recorded callbacks run. Every other request stays listed and untouched |
| `Engine.Queue.Deliver` | xsAjaxQueues/xsAjaxQueues.js:683-736 | a response changes the queue as `QueueSpec.Deliver` says. In 'request' mode the request performs `AnswerStep`, and the other listed requests are at most sent by the follow-up `sendRequest`. In 'response' mode the request performs `RecordStep`, followed by `RunRecorded` exactly when processing removed it; only an unaborted request answered 'complete' can be run. The others are at most processed. An unknown mode changes no request |
| `Engine.Queue.DeliverToRequest` | xsAjaxQueues/xsAjaxQueues.js:683-706 | the 'request' mode hook on an unaborted request changes the queue as `QueueSpec.DeliverToRequest` says; the request performs `AnswerStep` and the other listed requests are at most sent |
| `Engine.Queue.AnswerPartial` | xsAjaxQueues/xsAjaxQueues.js:684-691 | 'success' or 'error' on an unaborted request in 'request' mode changes the queue as `QueueSpec.DeliverToRequest` says, without removing the request, and the request performs `AnswerStep` |
| `Engine.Queue.AnswerComplete` | xsAjaxQueues/xsAjaxQueues.js:684-706 | 'complete' on an unaborted request in 'request' mode changes the queue as `QueueSpec.DeliverToRequest` says; the request performs `AnswerStep`, and the other listed requests are at most sent by the follow-up `sendRequest` |
| `Engine.Queue.AnswerListed` | xsAjaxQueues/xsAjaxQueues.js:685-689 | the answered request performs `AnswerStep`, and only its snapshot in the list is refreshed, to what `Answered` says |
| `Engine.Queue.FinishRequest` | xsAjaxQueues/xsAjaxQueues.js:692-706 | 'complete' in 'request' mode removes the finished request and releases the queue as `Finish` says, and an unlisted request is the throw. The finished request is not touched here, and the other listed requests are at most sent by the follow-up `sendRequest` |
| `Engine.Queue.ReleaseFinished` | xsAjaxQueues/xsAjaxQueues.js:695-706 | once the finished request has left the list, the counters, the lock and the follow-up send change the queue as `Release` says; listed requests are at most sent |
| `Engine.Queue.Receive` | xsAjaxQueues/xsAjaxQueues.js:685-691 | 'received' is reported on the first outcome only. The outcome is executed, reported and counted |
| `Engine.Queue.DeliverToResponse` | xsAjaxQueues/xsAjaxQueues.js:724-736 | the 'response' mode hook changes the queue as `QueueSpec.DeliverToResponse` says. The request performs `RecordStep`, followed by `RunRecorded` exactly when processing removed it; only an unaborted request answered 'complete' can be run. The other listed requests are at most processed |
| `Engine.Queue.RecordAnswer` | xsAjaxQueues/xsAjaxQueues.js:727-731 | the 'response' mode hook records the outcome on the request as `RecordStep` says and refreshes only that request's snapshot |
| `Engine.Queue.RespondComplete` | xsAjaxQueues/xsAjaxQueues.js:727-735 | 'complete' in 'response' mode changes the queue as `QueueSpec.DeliverToResponse` says. The request is run, after recording, only when it was listed, not aborted and removed by processing; otherwise it only records |
| `Engine.Queue.ProcessResponse` | xsAjaxQueues/xsAjaxQueues.js:732-735 | counting and reporting the response and then processing changes the queue as `Process` says; listed requests are at most processed |
| `Engine.Queue.CancelRequest` | xsAjaxQueues/xsAjaxQueues.js:806-831 | the queue changes, and the throw happens, as `CancelInQueue` says, and the queue stays valid. The canceled request is not touched here. The other listed requests are at most sent ('request' mode) or at most processed (otherwise) |
| `Engine.Queue.UnlistCanceled` | xsAjaxQueues/xsAjaxQueues.js:808-812 | an unsent request is deleted, counted and reported as `CancelUnsent` says. No request object changes, and every other request stays listed |
| `Engine.Queue.DeleteCanceled` | xsAjaxQueues/xsAjaxQueues.js:809-811 | deleting, counting and reporting an unsent request changes the queue as `CancelUnsent` says, and keeps every other request listed |
| `Engine.Queue.UnlistAborted` | xsAjaxQueues/xsAjaxQueues.js:813-828 | an aborted request is counted and reported, the mode reacts, and the request is deleted, as `AbortSent` says. The aborted request is not touched here. The other listed requests are at most sent ('request' mode) or at most processed (otherwise) |
| `Engine.Queue.UnlistAbortedSent` | xsAjaxQueues/xsAjaxQueues.js:813-828 | in 'request' mode the abort changes the queue as `AbortSent` says; the aborted request is not touched, and the other listed requests are at most sent |
| `Engine.Queue.UnlistAbortedProcessed` | xsAjaxQueues/xsAjaxQueues.js:813-828 | in any other mode the abort changes the queue as `AbortSent` says; the aborted request is not touched, and the other listed requests are at most processed |
| `Engine.Queue.UnlistAbortedResponse` | xsAjaxQueues/xsAjaxQueues.js:821-827 | in 'response' mode the abort changes the queue as `AbortSent` says; the aborted request is not touched, and the other requests are at most processed since their states were read |
| `Engine.Queue.UnlistAbortedUnknown` | xsAjaxQueues/xsAjaxQueues.js:813-828 | with an unrecognised mode the switch has no matching case: the abort is not counted, only the request is deleted, as `AbortSent` says, and the other listed requests are at most processed |
| `Engine.Queue.DeleteAborted` | xsAjaxQueues/xsAjaxQueues.js:827 | after the mode has reacted, deleting the aborted request completes `AbortSent` of the state before the abort |
| `Engine.Queue.DeleteAbortedKeeping` | xsAjaxQueues/xsAjaxQueues.js:827 | as `DeleteAborted`, and what was established of the other requests' states since they were read (`ProcessedBut`) still holds |
| `Engine.Queue.ReactInRequest` | xsAjaxQueues/xsAjaxQueues.js:815-819 | 'request' mode counts the abort, unlocks and sends, as `AfterAbort` says; the aborted request is not touched and every other listed request is at most sent |
| `Engine.Queue.ReactInResponse` | xsAjaxQueues/xsAjaxQueues.js:821-824 | 'response' mode counts the abort and processes, as `AfterAbort` says; the aborted request is not touched and every other listed request is at most processed |
| `Engine.Queue.AbortAndSend` | xsAjaxQueues/xsAjaxQueues.js:815-820 | 'request' mode counts the abort, unlocks and sends, as `Send` after `CountAbort` says. The aborted request is not touched, and the listed requests are at most sent |
| `Engine.Queue.AbortAndProcess` | xsAjaxQueues/xsAjaxQueues.js:821-825 | 'response' mode counts the abort and processes, as `Process` after `CountAbort` says. The aborted request is not touched. Each request processing removed had its recorded outcomes run as `RunRecorded` says; the rest are untouched |
| `Engine.Queue.NoteAbort` | xsAjaxQueues/xsAjaxQueues.js:816-823 | the abort is counted and reported as `CountAbort` says, and the queue is unlocked in 'request' mode only |
| `Engine.Queue.CancelAt` | xsAjaxQueues/xsAjaxQueues.js:893 | `cancel` on the request at `i` returns, and changes the queue, as `RequestCancel` says. That request's flags and events change as `CancelStep` says. The other listed requests are at most sent ('request' mode) or at most processed (otherwise) |
| `Engine.Queue.CancelScanAt` | xsAjaxQueues/xsAjaxQueues.js:892-896 | one step of the corrected scan: a throw ends it, a refusal moves on with the queue unchanged, and a success shortens the list and starts over, each as `CancelScan` says |
| `Engine.Queue.Cancel` | xsAjaxQueues/xsAjaxQueues.js:886-898 | `cancel(abort)` with the corrected scan changes the queue as `CancelQueue` says, so it leaves only requests that refuse (see Findings) |
| `Engine.Queue.AddRequest` | xsAjaxQueues/xsAjaxQueues.js:565-580 | a listener that is not a function throws and adds nothing. Otherwise a fresh request with the given id joins the queue as `Add` says. It holds the given callbacks and the accepted listeners, has its 'added' event, and has at most been sent. The requests listed before are at most sent |
| `Engine.Queue.Admit` | xsAjaxQueues/xsAjaxQueues.js:567-578 | enqueuing a constructed request and sending changes the queue as `Add` says. The request gets its 'added' event and at most its send. The requests listed before are at most sent |
| `Engine.Queue.Enqueue` | xsAjaxQueues/xsAjaxQueues.js:567-576 | the request is placed by `Insert`, counted, and reported 'added' to the queue; the request itself only gets its own 'added' event, and no other request joins the list |
| `Engine.Queue.Place` | xsAjaxQueues/xsAjaxQueues.js:567-574 | 'fifo' pushes, 'lifo' unshifts, and another `order` value lists nothing |
| `Engine.Queue.Enable` | xsAjaxQueues/xsAjaxQueues.js:627-632 | the queue changes as `QueueSpec.Enable` says. Listed requests are at most sent by the follow-up `sendRequest` |
| `Engine.Queue.Disable` | xsAjaxQueues/xsAjaxQueues.js:641-645 | the queue changes as `QueueSpec.Disable` says |
| `Engine.Queue.Toggle` | xsAjaxQueues/xsAjaxQueues.js:654-662 | the queue changes as `QueueSpec.Toggle` says. Listed requests are at most sent, and only when the queue was enabled by the call |
| `Engine.Queue.AddListener` | xsAjaxQueues/xsAjaxQueues.js:900-906 | a non-function throws and changes nothing; a function is appended |
| `Engine.Queue.RemoveListener` | xsAjaxQueues/xsAjaxQueues.js:908-923 | returns true exactly when the listener was registered, and removes its first registration |
| `Filters.CheckRule` | xsAjaxQueues/xsAjaxQueues.js:941-962 | the constructor accepts exactly a condition that is `true` or a function, with each of the other two a function or undefined, and not both undefined. Each rejection carries its message |
| `Filters.Filter.constructor` | xsAjaxQueues/xsAjaxQueues.js:941-964 | a new filter holds its checked rule and is enabled |
| `Filters.Filter.Enable` | xsAjaxQueues/xsAjaxQueues.js:966-969 | the filter is enabled |
| `Filters.Filter.Disable` | xsAjaxQueues/xsAjaxQueues.js:971-974 | the filter is disabled |
| `Filters.Filter.Toggle` | xsAjaxQueues/xsAjaxQueues.js:976-984 | `enabled` flips |
| `Filters.Holds` | xsAjaxQueues/xsAjaxQueues.js:986-993 | a filter without a condition always applies; otherwise its condition decides |
| `Filters.Rewrite` | xsAjaxQueues/xsAjaxQueues.js:995-1002 | a filter without a pre-filter passes the settings through; otherwise its pre-filter rewrites them |
| `Filters.Active` | xsAjaxQueues/xsAjaxQueues.js:1083-1091 | exactly the filters whose condition holds are selected, whether or not they are enabled |
| `Filters.ActiveAppend` | xsAjaxQueues/xsAjaxQueues.js:1083-1091 | selection keeps registration order: filters registered later come later |
| `Filters.ApplyPreAppend` | xsAjaxQueues/xsAjaxQueues.js:1103-1105 | `ApplyPre`: the pre-filters fold left to right, each applied to the previous one's output |
| `Filters.ApplyPreWithoutRewrites` | xsAjaxQueues/xsAjaxQueues.js:1103-1105 | filters without a pre-filter leave the settings unchanged |
| `Filters.PreFilter` | xsAjaxQueues/xsAjaxQueues.js:1103-1105 | the `$.each` loop computes the fold `ApplyPre` |
| `Filters.Observations` | xsAjaxQueues/xsAjaxQueues.js:1004-1008 | post-filters run at most once per active filter, each on the new request, and only a filter's own post-filter runs |
| `Registry.ConfigOf` | xsAjaxQueues/xsAjaxQueues.js:507-518 | an absent `order` is 'fifo' and an absent `mode` is 'request'; given values and `priority` are kept |
| `Registry.KeyOf` | xsAjaxQueues/xsAjaxQueues.js:1057-1064 | a queue id or a queue handle gives a key; no queue and a value of another type give none |
| `Registry.AddBelow` | xsAjaxQueues/xsAjaxQueues.js:220-221 | adding a request with a fresh id from the counter keeps every listed id below the counter |
| `Registry.Registry.constructor` | xsAjaxQueues/xsAjaxQueues.js:33 | the registry starts with no queues, no filters and a zero counter |
| `Registry.Registry.GetQueue` | xsAjaxQueues/xsAjaxQueues.js:1040-1048 | no id is "No queue id!", an unknown id is "does not exist", and a known id gives its queue |
| `Registry.Registry.NewQueue` | xsAjaxQueues/xsAjaxQueues.js:1027-1038 | no id and a taken id throw and change nothing. Otherwise a fresh empty queue with the defaulted settings is registered under the id, even when a listener is not a function (and the call then throws) |
| `Registry.Registry.NewQueuedRequest` | xsAjaxQueues/xsAjaxQueues.js:1055-1074 | an unknown queue throws before an id is taken. Otherwise the counter moves by one, and the request with the old counter value is added to the queue as `Add` says, unless a listener is not a function. The new request holds the settings' callbacks and accepted listeners, and the queue's other requests are at most sent |
| `Registry.Registry.AddToQueue` | xsAjaxQueues/xsAjaxQueues.js:1071-1072 | for a registered queue the counter moves by one and the request with the old value joins the queue as `Add` says, unless a listener is not a function; it holds the settings' callbacks and accepted listeners, and the queue's other requests are at most sent |
| `Registry.Registry.NewFilter` | xsAjaxQueues/xsAjaxQueues.js:1076-1081 | a rejected rule throws and changes nothing; a checked filter joins the end of the chain |
| `Registry.Registry.Ajax` | xsAjaxQueues/xsAjaxQueues.js:1097-1130 | the active filters rewrite the settings in order, and the result is submitted to the queue it names. The target queue changes as `Add` says, or not at all on an error, and its other requests are at most sent. The new request holds the rewritten settings' callbacks and accepted listeners. The post-filters of the active filters run, in order, only when a request was added |
| `Registry.Registry.Submit` | xsAjaxQueues/xsAjaxQueues.js:1106-1114 | no queue takes an id and then fails; a value of another type is "Incorrect queue parameter"; an id or a handle goes to `newQueuedRequest`. A new request holds the settings' callbacks and accepted listeners, and the target queue's other requests are at most sent |
| `Registry.PostFilter` | xsAjaxQueues/xsAjaxQueues.js:1115-1117 | the `$.each` loop runs the post-filters as `Observations` lists them |

## Left out

- The transport: `jQueryAjax` and `XMLHttpRequest.abort()` (lines 310 and 436) are foreign I/O. Sending sets the flag, and responses are calls of `Engine.Queue.Deliver`.
- Re-entrancy: the transport is assumed to answer asynchronously. It never answers from inside `send` (line 310), and never from inside `XMLHttpRequest.abort()` (line 436), which `Request.cancel` calls before `cancelRequest` (line 437): an abort that fired the request's hooks synchronously would reach the queue while it still lists the request. Listeners and callbacks are assumed not to call back into the queue.
- What user callbacks, listeners, conditions and pre-filters compute is not modelled. Callbacks and listeners are ids, and their invocations are recorded. Conditions and pre-filters are the parameter `Env`, and the runs of post-filters are returned as `Observation`s.
- `initializer` hooks (lines 276-278 and 547-549) call user code and are not modelled.
- The handle facades (`RequestHandle`, `QueueHandle`, `FilterHandle`, lines 42-212) are projections of the state and are not modelled. This includes `getHandle`, the `counters.pending` side effect of `getCounters`, and the return value of `ajax` (a handle or `getXMLHttpRequest()`).
- `clearCallback` (lines 380-391) deletes from `callbacks.current`, which never exists, so it cannot work as written. It is not modelled.
- Unqueued requests: the request constructor reads `this.queue.settings` at line 234 before checking whether there is a queue. The unqueued path therefore fails after taking an id. `Registry.Registry.Submit` models exactly that as the error `UnqueuedRequestFailed`; `initializeUnqueued` and the immediate send are not modelled.
- `Filter.remove` (lines 1010-1014) discards the result of `filters.filter`, so it removes nothing; it is not modelled.
- `dispatchEvent`'s check for a non-empty string name (lines 488-490 and 927-929) can never fail, because the engine always passes a literal name. It is not modelled.
- `newQueuedRequest`'s own "No queue id!" check (lines 1065-1067) cannot be reached from `ajax`, which only calls it with an id or a handle.
- Numeric queue ids are looked up by their string form, as JavaScript does with object keys. A queue handle is represented by the id it reports.
- The registry's `queues` is a plain object `{}` (line 33), so an id that names an inherited member such as 'constructor' or 'toString' already "exists": `newQueue` throws "already exists" for it (line 1032), and `getQueue` and `newQueuedRequest` find a function instead of a queue and fail with a TypeError (lines 1044-1047 and 1068-1072). `Registry.Registry.queues` is a map in which such ids are absent like any other, so `GetQueue`, `NewQueue` and `NewQueuedRequest` treat them as unregistered ids.
- `Engine.Request.constructor`: a callback slot of `Filters.Settings` holds either no callback or a function id, so a settings value that is neither cannot be expressed. The source copies such a value without a check (lines 241-245 and 285-290), and `executeCallback` then calls `.apply` on it (lines 401-402). In 'request' mode a non-function `complete` would throw at line 689, before the request is deleted and the lock released (lines 692-695), leaving the queue locked. The model has no such error path.
- `Registry.Registry.Ajax`: a pre-filter is the total function `Filters.Env.rewrite`, which always yields settings. In the source its return value replaces the settings outright (line 1104), so a pre-filter that returns `undefined` makes the next line (line 1106) throw a TypeError. The model has no such error path.
- `Registry.Registry.Submit`: a `queue` setting of `null` passes the `typeof === 'object'` test at line 1109 and then throws a TypeError at `null.getId`. The model treats every value of another type as `BadTarget`, the "Incorrect queue parameter" error. Both throw with the counter unchanged, but the error differs.
- `Registry.Registry.Ajax`: it does not state that queues other than the target are left unchanged. Its invariant holds only the id bound, and the validity of each queue is required rather than kept by the registry.
- `Engine.Queue.Cancel`: implements the corrected scan described under Findings, not the scan as written. The scan as written is `QueueSpec.CancelAll`. Its contract states the queue's new state only: what happens to each request object across the scan (its own cancellation and the sends or processing that follow) is stated step by step by `Engine.Queue.CancelAt`, but not composed over the whole scan.
- Everything in `xsAjaxQueues/xsAjaxQueues.demo.js`, `xsAjaxQueues/xsAjaxQueues.samples.js`, `index.php` and `demo.php` (user interface and usage samples) is not part of this model.

## Findings

| source | as written | input that shows it | evidently intended | confidence | as-written member | corrected member |
|---|---|---|---|---|---|---|
| xsAjaxQueues/xsAjaxQueues.js:886-898 | `cancel(abort)` keeps its index after a successful cancellation, assuming only that request left the list. But in 'response' mode an abort calls `processRequest` (line 824), which can delete requests before the index. The index then steps over requests that were never canceled | a 'response' queue with 'desc' priority holding three sent requests: `Early` (priority 1, complete response already recorded), `Blocking` (priority 5, no response) and `Late` (priority 0, no response). `cancel(true)`: `Early` refuses; aborting `Blocking` lets processing run and delete `Early`; the index then points past `Late`, which stays in flight | every request that does not refuse is canceled or aborted. The defect is latent in the library as shipped: the only caller of `Queue.prototype.cancel`, `QueueHandle.cancel` (lines 161-164), calls it without an argument, so `abort` is always false, and the `true` passed in `xsAjaxQueues/xsAjaxQueues.samples.js:139` is dropped. Showing the skip needs a direct call of `Queue.prototype.cancel(true)` | high; not executed | `QueueSpec.CancelAll`, `QueueSpec.CancelSkipsExample` | `QueueSpec.CancelQueue`, `QueueSpec.CancelQueueRefusesRest` |

